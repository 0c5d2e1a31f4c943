/**
  The password reset page (public/reset-password.js): the token gate on load, the two
  checks on the new password, and the error element that `showError` keeps at the top
  of the form.
*/
module ResetPassword {
  import opened Wrappers

  const MinPasswordLength := 8

  /** What the page does on load: without a token the form is hidden and nothing is
      listening for its submission. */
  datatype PageState = InvalidToken | Ready(token: string)

  function InitResetPage(token: Option<string>): (p: PageState)
    ensures p.InvalidToken? <==> token.None? || token.value == ""
    ensures p.Ready? ==> p.token == token.value
  {
    if token.None? || token.value == "" then InvalidToken else Ready(token.value)
  }

  datatype ResetRequest = ResetRequest(token: string, newPassword: string)

  datatype SubmitOutcome = Mismatch | TooShort | Send(request: ResetRequest)

  /** The submit handler: the confirmation is compared first, then the length; no other rule. */
  function OnSubmit(token: string, newPassword: string, confirmPassword: string): (r: SubmitOutcome)
    ensures r == Mismatch <==> newPassword != confirmPassword
    ensures r == TooShort <==> newPassword == confirmPassword && |newPassword| < MinPasswordLength
    ensures r.Send? <==> newPassword == confirmPassword && |newPassword| >= MinPasswordLength
    ensures r.Send? ==> r.request == ResetRequest(token, newPassword)
  {
    if newPassword != confirmPassword then Mismatch
    else if |newPassword| < MinPasswordLength then TooShort
    else Send(ResetRequest(token, newPassword))
  }

  /** The children of the reset form that matter here. */
  datatype FormChild = ErrorMessage(text: string) | Field(name: string)

  function ErrorCount(children: seq<FormChild>): (n: nat)
    ensures n <= |children|
    ensures n == 0 <==> forall i :: 0 <= i < |children| ==> !children[i].ErrorMessage?
  {
    if children == [] then 0
    else (if children[0].ErrorMessage? then 1 else 0) + ErrorCount(children[1..])
  }

  /** The position of the first `.error-message` child, the one `querySelector` finds. */
  function FirstError(children: seq<FormChild>): (k: nat)
    requires ErrorCount(children) > 0
    ensures k < |children| && children[k].ErrorMessage?
    ensures forall j :: 0 <= j < k ==> !children[j].ErrorMessage?
  {
    if children[0].ErrorMessage? then 0
    else
      var k := 1 + FirstError(children[1..]);
      assert forall j :: 1 <= j < k ==> children[j] == children[1..][j - 1];
      k
  }

  /** `existingError.remove()` for the first `.error-message` child, if there is one. */
  function RemoveFirstError(children: seq<FormChild>): (r: seq<FormChild>)
    ensures ErrorCount(children) == 0 ==> r == children
    ensures ErrorCount(children) > 0 ==> ErrorCount(r) == ErrorCount(children) - 1 && |r| == |children| - 1
    ensures ErrorCount(children) > 0 ==>
      r == children[..FirstError(children)] + children[FirstError(children) + 1..]
  {
    if children == [] then []
    else if children[0].ErrorMessage? then
      assert children[..0] + children[1..] == children[1..];
      children[1..]
    else if ErrorCount(children[1..]) > 0 then
      var k := FirstError(children[1..]);
      assert [children[0]] + (children[1..][..k] + children[1..][k + 1..]) == children[..k + 1] + children[k + 2..];
      [children[0]] + RemoveFirstError(children[1..])
    else
      [children[0]] + RemoveFirstError(children[1..])
  }

  /** The form on the page. */
  class ResetForm {
    var children: seq<FormChild>
    var hidden: bool
    var message: string

    /** At most one error element is ever in the form. */
    predicate Valid()
      reads this
    {
      ErrorCount(children) <= 1
    }

    constructor (fields: seq<string>)
      ensures Valid() && !hidden && message == ""
      ensures children == seq(|fields|, i requires 0 <= i < |fields| => Field(fields[i]))
    {
      var initial := seq(|fields|, i requires 0 <= i < |fields| => Field(fields[i]));
      assert forall i :: 0 <= i < |initial| ==> !initial[i].ErrorMessage?;
      children := initial;
      hidden := false;
      message := "";
    }

    /** `showError`: the old error element goes, the new one is put first. */
    method ShowError(text: string)
      requires Valid()
      modifies this
      ensures Valid()
      ensures children == [ErrorMessage(text)] + RemoveFirstError(old(children))
      ensures ErrorCount(children) == 1 && children[0] == ErrorMessage(text)
      ensures hidden == old(hidden) && message == old(message)
    {
      children := [ErrorMessage(text)] + RemoveFirstError(children);
      assert children[1..] == RemoveFirstError(old(children));
    }

    /** The submit handler up to the request: an error is shown for a rejected password and
        the request is returned otherwise. */
    method Submit(token: string, newPassword: string, confirmPassword: string)
      returns (request: Option<ResetRequest>)
      requires Valid()
      modifies this
      ensures Valid()
      ensures request.Some? <==> OnSubmit(token, newPassword, confirmPassword).Send?
      ensures request.Some? ==>
        request.value == OnSubmit(token, newPassword, confirmPassword).request && children == old(children)
      ensures OnSubmit(token, newPassword, confirmPassword) == Mismatch ==>
        children == [ErrorMessage("Passwords do not match")] + RemoveFirstError(old(children))
      ensures OnSubmit(token, newPassword, confirmPassword) == TooShort ==>
        children == [ErrorMessage("Password must be at least 8 characters")] + RemoveFirstError(old(children))
      ensures hidden == old(hidden) && message == old(message)
    {
      match OnSubmit(token, newPassword, confirmPassword)
      case Mismatch =>
        ShowError("Passwords do not match");
        request := None;
      case TooShort =>
        ShowError("Password must be at least 8 characters");
        request := None;
      case Send(r) =>
        request := Some(r);
    }

    /** The server's answer: success hides the form and shows the message; a refusal shows
        the server's message or a default, a network failure a fixed one. */
    method Reply(ok: bool, networkError: bool, serverMessage: string)
      requires Valid()
      modifies this
      ensures Valid()
      ensures !networkError && ok ==>
        hidden && message == "Password reset successfully! You can now login with your new password."
        && children == old(children)
      ensures !networkError && !ok ==>
        children == [ErrorMessage(if serverMessage != "" then serverMessage else "Failed to reset password")]
          + RemoveFirstError(old(children))
      ensures networkError ==>
        children == [ErrorMessage("Network error. Please try again.")] + RemoveFirstError(old(children))
      ensures (networkError || !ok) ==> hidden == old(hidden) && message == old(message)
    {
      if networkError {
        ShowError("Network error. Please try again.");
      } else if ok {
        hidden := true;
        message := "Password reset successfully! You can now login with your new password.";
      } else {
        ShowError(if serverMessage != "" then serverMessage else "Failed to reset password");
      }
    }
  }
}
