/**
  The feedback form on the contact page (public/contact-script.js): both fields are
  trimmed, then checked for presence, for a message of at least 50 characters and for
  an e-mail address of the shape `^\S+@\S+\.\S+$`.
*/
module Contact {
  import opened Wrappers
  import opened Text

  const MinMessageLength := 50

  /** `^\S+@\S+\.\S+$` by positions: no whitespace, an '@' after at least one character and
      a '.' with at least one character between it and the '@' and at least one after it. */
  predicate MatchesEmail(s: string)
  {
    NoSpace(s)
    && exists i, j :: 1 <= i && i + 2 <= j && j + 2 <= |s| && s[i] == '@' && s[j] == '.'
  }

  /** The pattern read as a split of the whole address into non-empty parts a '@' b '.' c. */
  lemma EmailShape(s: string)
    ensures MatchesEmail(s) <==>
      NoSpace(s) && exists a: string, b: string, c: string {:trigger a + "@" + b + "." + c} ::
        a != [] && b != [] && c != [] && s == a + "@" + b + "." + c
  {
    if MatchesEmail(s) {
      var i, j :| 1 <= i && i + 2 <= j && j + 2 <= |s| && s[i] == '@' && s[j] == '.';
      var a, b, c := s[..i], s[i + 1..j], s[j + 1..];
      assert s == a + "@" + b + "." + c;
    }
    if NoSpace(s) && exists a: string, b: string, c: string {:trigger a + "@" + b + "." + c} ::
        a != [] && b != [] && c != [] && s == a + "@" + b + "." + c {
      var a: string, b: string, c: string :| a != [] && b != [] && c != [] && s == a + "@" + b + "." + c;
      var i, j := |a|, |a| + 1 + |b|;
      assert s[i] == '@' && s[j] == '.';
    }
  }

  datatype Feedback = Feedback(message: string, email: string)

  datatype FeedbackError = MissingFields | MessageTooShort | InvalidEmail

  /** The checks before the request, in order: presence, length, e-mail shape. */
  function ValidateFeedback(messageField: string, emailField: string): (r: Result<Feedback, FeedbackError>)
    ensures r.Ok? <==>
      Trim(messageField) != "" && Trim(emailField) != ""
      && |Trim(messageField)| >= MinMessageLength && MatchesEmail(Trim(emailField))
    ensures r.Ok? ==> r.value == Feedback(Trim(messageField), Trim(emailField))
    ensures r == Err(MissingFields) <==> Trim(messageField) == "" || Trim(emailField) == ""
    ensures r == Err(MessageTooShort) <==>
      Trim(messageField) != "" && Trim(emailField) != "" && |Trim(messageField)| < MinMessageLength
    ensures r == Err(InvalidEmail) ==> |Trim(messageField)| >= MinMessageLength && !MatchesEmail(Trim(emailField))
  {
    var message, email := Trim(messageField), Trim(emailField);
    if message == "" || email == "" then Err(MissingFields)
    else if |message| < MinMessageLength then Err(MessageTooShort)
    else if !MatchesEmail(email) then Err(InvalidEmail)
    else Ok(Feedback(message, email))
  }

  /** Surrounding whitespace never decides the outcome: the check on the trimmed fields gives
      the same answer. */
  lemma ValidateFeedbackIgnoresPadding(messageField: string, emailField: string)
    ensures ValidateFeedback(Trim(messageField), Trim(emailField)) == ValidateFeedback(messageField, emailField)
  {
    TrimIdempotent(messageField);
    TrimIdempotent(emailField);
  }
}
