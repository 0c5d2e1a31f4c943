/**
  The registration page (public/registration-script.js): the five password
  requirement flags, the ordered checks of `validateForm`, and the licence plate
  captured by the vehicle pop-up.
*/
module Registration {
  import opened Text

  /** The characters of `[!@#$%^&*(),.?":{}|<>]`. */
  predicate IsSpecial(c: char)
  {
    c in {'!', '@', '#', '$', '%', '^', '&', '*', '(', ')', ',', '.', '?', '"', ':', '{', '}', '|', '<', '>'}
  }

  /** The five flags `checkPassword` shows next to the password field. */
  datatype PasswordChecks = PasswordChecks(
    length: bool, uppercase: bool, lowercase: bool, number: bool, specialchar: bool)

  function CheckPassword(password: string): (c: PasswordChecks)
    ensures c.length <==> |password| >= 8
    ensures c.uppercase <==> exists i :: 0 <= i < |password| && IsUpper(password[i])
    ensures c.lowercase <==> exists i :: 0 <= i < |password| && IsLower(password[i])
    ensures c.number <==> exists i :: 0 <= i < |password| && IsDigit(password[i])
    ensures c.specialchar <==> exists i :: 0 <= i < |password| && IsSpecial(password[i])
  {
    PasswordChecks(
      |password| >= 8, AnyChar(IsUpper, password), AnyChar(IsLower, password),
      AnyChar(IsDigit, password), AnyChar(IsSpecial, password))
  }

  /** `passwordValid` in `validateForm`. */
  predicate PasswordValid(password: string)
  {
    |password| >= 8 && AnyChar(IsUpper, password) && AnyChar(IsLower, password)
    && AnyChar(IsDigit, password) && AnyChar(IsSpecial, password)
  }

  /** The form accepts a password exactly when all five flags shown to the user are on. */
  lemma FlagsAgreeWithSubmit(password: string)
    ensures PasswordValid(password) <==>
      var c := CheckPassword(password);
      c.length && c.uppercase && c.lowercase && c.number && c.specialchar
  {
  }

  /** A password with at least eight characters that include an upper-case letter, a
      lower-case letter, a digit and a special character is accepted, and only then. */
  lemma PasswordValidMeaning(password: string)
    ensures PasswordValid(password) <==>
      |password| >= 8
      && (exists i :: 0 <= i < |password| && IsUpper(password[i]))
      && (exists i :: 0 <= i < |password| && IsLower(password[i]))
      && (exists i :: 0 <= i < |password| && IsDigit(password[i]))
      && (exists i :: 0 <= i < |password| && IsSpecial(password[i]))
  {
  }

  /** The submitted fields: names, phone and e-mail are trimmed, the passwords are not. */
  datatype FormData = FormData(
    firstName: string, lastName: string, phone: string, email: string,
    password: string, confirmPassword: string, licensePlate: string)

  function CollectForm(firstName: string, lastName: string, phone: string, email: string,
                       password: string, againPassword: string, licensePlate: string): (d: FormData)
    ensures d.password == password && d.confirmPassword == againPassword && d.licensePlate == licensePlate
    ensures d.firstName == Trim(firstName) && d.lastName == Trim(lastName)
    ensures d.phone == Trim(phone) && d.email == Trim(email)
  {
    FormData(Trim(firstName), Trim(lastName), Trim(phone), Trim(email), password, againPassword, licensePlate)
  }

  datatype FormOutcome = Valid | MissingFields | PasswordMismatch | WeakPassword | NoVehicle

  predicate AllFilled(d: FormData)
  {
    d.firstName != "" && d.lastName != "" && d.phone != "" && d.email != ""
    && d.password != "" && d.confirmPassword != ""
  }

  /** `validateForm`: the first failing check decides; the plate is not among the required
      fields but is checked last. */
  function ValidateForm(d: FormData): (r: FormOutcome)
    ensures r == Valid <==>
      AllFilled(d) && d.password == d.confirmPassword && PasswordValid(d.password) && d.licensePlate != ""
    ensures r == MissingFields <==> !AllFilled(d)
    ensures r == PasswordMismatch <==> AllFilled(d) && d.password != d.confirmPassword
    ensures r == WeakPassword <==> AllFilled(d) && d.password == d.confirmPassword && !PasswordValid(d.password)
    ensures r == NoVehicle <==>
      AllFilled(d) && d.password == d.confirmPassword && PasswordValid(d.password) && d.licensePlate == ""
  {
    if !AllFilled(d) then MissingFields
    else if d.password != d.confirmPassword then PasswordMismatch
    else if !PasswordValid(d.password) then WeakPassword
    else if d.licensePlate == "" then NoVehicle
    else Valid
  }

  /** The vehicle pop-up and the "add vehicle" button it labels. */
  class VehicleCapture {
    var licensePlate: string
    var buttonText: string
    var formOpen: bool

    /** The plate the button shows is the one recorded, once one has been recorded. */
    predicate Valid()
      reads this
    {
      licensePlate == "" || buttonText == licensePlate
    }

    constructor (initialLabel: string)
      ensures Valid()
      ensures licensePlate == "" && buttonText == initialLabel && !formOpen
    {
      licensePlate := "";
      buttonText := initialLabel;
      formOpen := false;
    }

    method OpenForm()
      modifies this
      ensures formOpen && licensePlate == old(licensePlate) && buttonText == old(buttonText)
    {
      formOpen := true;
    }

    method CloseForm()
      modifies this
      ensures !formOpen && licensePlate == old(licensePlate) && buttonText == old(buttonText)
    {
      formOpen := false;
    }

    /** The submit handler as written: the trimmed field is stored before it is tested, so an
        empty submission clears the plate while the button keeps the old one. */
    method SubmitVehicleAsWritten(field: string)
      modifies this
      ensures licensePlate == Trim(field)
      ensures Trim(field) != "" ==> buttonText == Trim(field) && !formOpen
      ensures Trim(field) == "" ==> buttonText == old(buttonText) && formOpen == old(formOpen)
    {
      licensePlate := Trim(field);
      if licensePlate != "" {
        buttonText := licensePlate;
        CloseForm();
      }
    }

    /** The submit handler as intended: only a non-empty trimmed plate is recorded. */
    method SubmitVehicle(field: string)
      requires Valid()
      modifies this
      ensures Valid()
      ensures Trim(field) != "" ==> licensePlate == Trim(field) && buttonText == Trim(field) && !formOpen
      ensures Trim(field) == "" ==>
        licensePlate == old(licensePlate) && buttonText == old(buttonText) && formOpen == old(formOpen)
    {
      var plate := Trim(field);
      if plate != "" {
        licensePlate := plate;
        buttonText := plate;
        CloseForm();
      }
    }
  }

  /** A plate is entered, the pop-up is opened again and submitted blank: the button still
      reads the plate, yet a form that is otherwise complete is refused for want of a vehicle. */
  method BlankResubmitAsWritten(plate: string, blank: string, form: FormData)
    returns (buttonText: string, outcome: FormOutcome)
    requires Trim(plate) != "" && Trim(blank) == ""
    ensures buttonText == Trim(plate)
    ensures AllFilled(form) && form.password == form.confirmPassword && PasswordValid(form.password)
      ==> outcome == NoVehicle
  {
    var capture := new VehicleCapture("");
    capture.SubmitVehicleAsWritten(plate);
    capture.OpenForm();
    capture.SubmitVehicleAsWritten(blank);
    buttonText, outcome := capture.buttonText, ValidateForm(form.(licensePlate := capture.licensePlate));
  }

  /** With the intended handler the same steps keep the plate, and the form goes through. */
  method BlankResubmit(plate: string, blank: string, form: FormData)
    returns (buttonText: string, outcome: FormOutcome)
    requires Trim(plate) != "" && Trim(blank) == ""
    ensures buttonText == Trim(plate)
    ensures AllFilled(form) && form.password == form.confirmPassword && PasswordValid(form.password)
      ==> outcome == Valid
  {
    var capture := new VehicleCapture("");
    capture.SubmitVehicle(plate);
    capture.OpenForm();
    capture.SubmitVehicle(blank);
    buttonText, outcome := capture.buttonText, ValidateForm(form.(licensePlate := capture.licensePlate));
  }
}
