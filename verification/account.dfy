/**
  The account page (public/account.js): the profile fields shown and saved, and the
  profile picture chooser with its type and size checks.
*/
module Account {
  import opened Wrappers

  /** The stored or fetched user as far as the page shows it; `None` for a missing field. */
  datatype UserData = UserData(fullName: Option<string>, email: Option<string>, phoneNumber: Option<string>)

  datatype ProfileFields = ProfileFields(name: string, email: string, telephone: string)

  /** A field's value, or '' when it is missing or falsy. */
  function OrEmpty(v: Option<string>): (s: string)
    ensures v.Some? ==> s == v.value
    ensures v.None? ==> s == ""
  {
    v.GetOr("")
  }

  /** `updateUserDisplay`. */
  function UpdateUserDisplay(user: UserData): (f: ProfileFields)
    ensures f.name == OrEmpty(user.fullName) && f.email == OrEmpty(user.email)
    ensures f.telephone == OrEmpty(user.phoneNumber)
    ensures user.fullName.None? && user.email.None? && user.phoneNumber.None? ==> f == ProfileFields("", "", "")
  {
    ProfileFields(OrEmpty(user.fullName), OrEmpty(user.email), OrEmpty(user.phoneNumber))
  }

  /** The user shown when the server cannot be reached: the stored one, else a fixed sample. */
  function FallbackUser(stored: Option<UserData>): (u: UserData)
    ensures stored.Some? ==> u == stored.value
    ensures stored.None? ==> UpdateUserDisplay(u) == ProfileFields("Bob Smith", "email@email.co.uk", "07972931203")
  {
    if stored.Some? then stored.value
    else UserData(Some("Bob Smith"), Some("email@email.co.uk"), Some("07972931203"))
  }

  datatype ProfileUpdate = ProfileUpdate(userId: nat, fullName: string, email: string, phoneNumber: string)

  datatype ProfileError = NoUserLoggedIn | AllFieldsRequired

  /** `saveProfileChanges` before the request: a signed-in user first, then three non-empty
      fields, taken as typed (no trimming). */
  function ValidateProfile(userId: Option<nat>, name: string, email: string, phone: string)
    : (r: Result<ProfileUpdate, ProfileError>)
    ensures r == Err(NoUserLoggedIn) <==> userId.None?
    ensures r == Err(AllFieldsRequired) <==> userId.Some? && (name == "" || email == "" || phone == "")
    ensures r.Ok? ==> r.value == ProfileUpdate(userId.value, name, email, phone)
  {
    if userId.None? then Err(NoUserLoggedIn)
    else if name == "" || email == "" || phone == "" then Err(AllFieldsRequired)
    else Ok(ProfileUpdate(userId.value, name, email, phone))
  }

  /** Whitespace counts as content: a field of spaces is accepted. */
  lemma BlankFieldsAccepted(userId: nat)
    ensures ValidateProfile(Some(userId), " ", " ", " ").Ok?
  {
  }

  const ValidTypes: seq<string> := ["image/jpeg", "image/png", "image/gif"]
  const MaxImageSize: nat := 2 * 1024 * 1024

  datatype ImageFile = ImageFile(name: string, mimeType: string, size: nat)

  datatype ImageError = InvalidType | TooLarge

  /** The file check: the type is tested first, then the size; exactly 2 MiB passes. */
  function CheckImage(file: ImageFile): (r: Option<ImageError>)
    ensures r.None? <==> file.mimeType in ValidTypes && file.size <= MaxImageSize
    ensures r == Some(InvalidType) <==> file.mimeType !in ValidTypes
    ensures r == Some(TooLarge) <==> file.mimeType in ValidTypes && file.size > MaxImageSize
  {
    if file.mimeType !in ValidTypes then Some(InvalidType)
    else if file.size > MaxImageSize then Some(TooLarge)
    else None
  }

  function ErrorText(e: ImageError): string
  {
    match e
    case InvalidType => "Please select a valid image file (JPEG, PNG, GIF)"
    case TooLarge => "Image must be less than 2MB"
  }

  /** The picture chooser: the file kept for upload, the upload button and the status line. */
  class ImageUpload {
    var selectedFile: Option<ImageFile>
    var uploadDisabled: bool
    var status: Option<string>
    var popupVisible: bool

    /** Only a file that passed the check is ever kept. */
    predicate Valid()
      reads this
    {
      selectedFile.Some? ==> CheckImage(selectedFile.value).None?
    }

    constructor ()
      ensures Valid() && selectedFile.None? && !popupVisible
    {
      selectedFile := None;
      uploadDisabled := true;
      status := None;
      popupVisible := false;
    }

    /** `openImageUploadPopup`: forgets any earlier choice and disables the button. */
    method OpenPopup()
      modifies this
      ensures Valid()
      ensures popupVisible && selectedFile.None? && uploadDisabled && status.None?
    {
      popupVisible := true;
      selectedFile := None;
      uploadDisabled := true;
      status := None;
    }

    /** The `change` handler. A rejected file, or none, disables the button and keeps the earlier
        choice; an accepted one is kept, and the button waits for its preview to load. */
    method ChooseFile(file: Option<ImageFile>)
      requires Valid()
      modifies this
      ensures Valid() && popupVisible == old(popupVisible)
      ensures file.None? ==> uploadDisabled && status.None? && selectedFile == old(selectedFile)
      ensures file.Some? && CheckImage(file.value).Some? ==>
        uploadDisabled && selectedFile == old(selectedFile)
        && status == Some(ErrorText(CheckImage(file.value).value))
      ensures file.Some? && CheckImage(file.value).None? ==>
        selectedFile == file && status.None? && uploadDisabled == old(uploadDisabled)
    {
      status := None;
      if file.Some? {
        var error := CheckImage(file.value);
        if error.Some? {
          status := Some(ErrorText(error.value));
          uploadDisabled := true;
          return;
        }
        selectedFile := file;
      } else {
        uploadDisabled := true;
      }
    }

    /** The preview's `onload`: the button is enabled. */
    method PreviewLoaded()
      requires Valid()
      modifies this
      ensures Valid() && !uploadDisabled
      ensures selectedFile == old(selectedFile) && status == old(status) && popupVisible == old(popupVisible)
    {
      uploadDisabled := false;
    }
  }

  /** An oversized file of the wrong type reports the type, not the size. */
  lemma TypeReportedFirst(file: ImageFile)
    requires file.mimeType !in ValidTypes && file.size > MaxImageSize
    ensures CheckImage(file) == Some(InvalidType)
  {
  }

  /** Choosing a bad file right after opening the chooser leaves nothing to upload and the
      button disabled. */
  method RejectedFileLeavesNothing(file: ImageFile) returns (selected: Option<ImageFile>, disabled: bool)
    requires CheckImage(file).Some?
    ensures selected.None? && disabled
  {
    var chooser := new ImageUpload();
    chooser.OpenPopup();
    chooser.ChooseFile(Some(file));
    selected, disabled := chooser.selectedFile, chooser.uploadDisabled;
  }
}
