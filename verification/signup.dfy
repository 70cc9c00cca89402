/** Sign-up: the password rule and the message shown for each outcome of
    the sign-up request. */
module Signup {
  import opened Text

  /** One of the special characters `@$!%*?&`. */
  predicate IsSpecial(c: char) {
    c == '@' || c == '$' || c == '!' || c == '%' || c == '*' || c == '?' || c == '&'
  }

  /** The character class `[A-Za-z\d@$!%*?&]`. */
  predicate IsAllowed(c: char) {
    IsUpperLetter(c) || IsLowerLetter(c) || IsDigit(c) || IsSpecial(c)
  }

  /** What the regular expression
      `^(?=.*[a-z])(?=.*[A-Z])(?=.*\d)(?=.*[@$!%*?&])[A-Za-z\d@$!%*?&]{8,}$`
      accepts: eight or more allowed characters, among them a lower-case
      letter, an upper-case letter, a digit and a special character. */
  ghost predicate ValidPassword(p: string) {
    |p| >= 8 &&
    (exists i :: 0 <= i < |p| && IsLowerLetter(p[i])) &&
    (exists i :: 0 <= i < |p| && IsUpperLetter(p[i])) &&
    (exists i :: 0 <= i < |p| && IsDigit(p[i])) &&
    (exists i :: 0 <= i < |p| && IsSpecial(p[i])) &&
    (forall i :: 0 <= i < |p| ==> IsAllowed(p[i]))
  }

  /** What one left-to-right pass over a password has seen. */
  datatype Seen = Seen(lower: bool, upper: bool, digit: bool, special: bool, allAllowed: bool)

  function Scan(p: string): (r: Seen)
    ensures r.lower <==> exists i :: 0 <= i < |p| && IsLowerLetter(p[i])
    ensures r.upper <==> exists i :: 0 <= i < |p| && IsUpperLetter(p[i])
    ensures r.digit <==> exists i :: 0 <= i < |p| && IsDigit(p[i])
    ensures r.special <==> exists i :: 0 <= i < |p| && IsSpecial(p[i])
    ensures r.allAllowed <==> forall i :: 0 <= i < |p| ==> IsAllowed(p[i])
  {
    if |p| == 0 then Seen(false, false, false, false, true)
    else
      var prefix := p[..|p| - 1];
      var c := p[|p| - 1];
      var s := Scan(prefix);
      assert forall i :: 0 <= i < |prefix| ==> prefix[i] == p[i];
      Seen(s.lower || IsLowerLetter(c), s.upper || IsUpperLetter(c), s.digit || IsDigit(c),
           s.special || IsSpecial(c), s.allAllowed && IsAllowed(c))
  }

  const PasswordMessage := "Password must contain at least 1 special character, mixed case letters, and be at least 8 characters long."

  /** `validatePassword`: `None` (null) when the password is accepted, the
      fixed message otherwise. */
  function ValidatePassword(p: string): (r: Option<string>)
    ensures r.None? <==> ValidPassword(p)
    ensures r.Some? ==> r.value == PasswordMessage
  {
    var s := Scan(p);
    if |p| >= 8 && s.lower && s.upper && s.digit && s.special && s.allAllowed then None
    else Some(PasswordMessage)
  }

  /** Short passwords and passwords with a character outside the class are
      refused, whatever else they contain. */
  lemma RejectedPasswords(p: string)
    requires |p| < 8 || exists i :: 0 <= i < |p| && !IsAllowed(p[i])
    ensures ValidatePassword(p) == Some(PasswordMessage)
  {
  }

  lemma PasswordExamples()
    ensures ValidatePassword("Abcdef1!").None?
    ensures ValidatePassword("Abcdef1#").Some?
    ensures ValidatePassword("Abc1!").Some?
    ensures ValidatePassword("abcdefg1!").Some?
  {
    var good := "Abcdef1!";
    assert IsUpperLetter(good[0]) && IsLowerLetter(good[1]) && IsDigit(good[6]) && IsSpecial(good[7]);
    var hash := "Abcdef1#";
    assert !IsAllowed(hash[7]);
    var noUpper := "abcdefg1!";
    assert forall i :: 0 <= i < |noUpper| ==> !IsUpperLetter(noUpper[i]);
  }

  // ---------------------------------------------------------------------
  // The sign-up request.

  /** What came back from the request: nothing usable (the request or the
      JSON parse threw), or a status with the JSON body's `message` field,
      which may be absent. */
  datatype Reply = NoReply | Reply(ok: bool, message: Option<string>)

  datatype SubmitOutcome =
    | PasswordRefused(error: string)    // no request is sent
    | CodeSent                          // "Verification code sent to your email."
    | Failed(error: string)

  const PhoneTakenMessage := "User account already exists: Phone number taken."
  const EmailTakenMessage := "User account already exists: Email taken."
  const UsernameTakenMessage := "Username already taken. Please choose a different username."
  const DefaultMessage := "Signup failed. Please try again."
  const CaughtMessage := "An error occurred. Please try again."

  /** The message for a refused sign-up, from the backend's message. */
  function BackendError(message: string): (r: string)
    ensures Includes(message, "Phone number taken") ==> r == PhoneTakenMessage
    ensures !Includes(message, "Phone number taken") && Includes(message, "Email taken") ==>
              r == EmailTakenMessage
    ensures (!Includes(message, "Phone number taken") && !Includes(message, "Email taken") &&
             Includes(message, "Username already taken")) ==> r == UsernameTakenMessage
    ensures r != ""
  {
    if Includes(message, "Phone number taken") then PhoneTakenMessage
    else if Includes(message, "Email taken") then EmailTakenMessage
    else if Includes(message, "Username already taken") then UsernameTakenMessage
    else if message != "" then message
    else DefaultMessage
  }

  /** A backend message that names none of the three conflicts is shown as
      it is, and an empty one falls back to the default text. */
  lemma BackendErrorPassesOtherMessages(message: string)
    requires !Includes(message, "Phone number taken") && !Includes(message, "Email taken") &&
             !Includes(message, "Username already taken")
    ensures message != "" ==> BackendError(message) == message
    ensures message == "" ==> BackendError(message) == DefaultMessage
  {
  }

  /** `handleSubmit`: the password is checked before anything is sent; a
      reply without a `message` makes `.includes` throw, which the `catch`
      reports like a failed request. */
  function Submit(password: string, reply: Reply): (r: SubmitOutcome)
    ensures !ValidPassword(password) <==> r.PasswordRefused?
    ensures r.PasswordRefused? ==> r.error == PasswordMessage
    ensures ValidPassword(password) && reply.Reply? && reply.ok ==> r == CodeSent
    ensures ValidPassword(password) && reply.NoReply? ==> r == Failed(CaughtMessage)
    ensures ValidPassword(password) && reply.Reply? && !reply.ok && reply.message.None? ==>
              r == Failed(CaughtMessage)
    ensures ValidPassword(password) && reply.Reply? && !reply.ok && reply.message.Some? ==>
              r == Failed(BackendError(reply.message.value))
    ensures r.Failed? ==> r.error != ""
  {
    match ValidatePassword(password)
    case Some(error) => PasswordRefused(error)
    case None =>
      match reply
      case NoReply => Failed(CaughtMessage)
      case Reply(ok, message) =>
        if ok then CodeSent
        else match message
          case None => Failed(CaughtMessage)
          case Some(m) => Failed(BackendError(m))
  }

  /** A refused password sends nothing: the outcome does not depend on the
      reply. */
  lemma RefusedPasswordSendsNothing(password: string, a: Reply, b: Reply)
    requires ValidatePassword(password).Some?
    ensures Submit(password, a) == Submit(password, b) == PasswordRefused(PasswordMessage)
  {
  }
}
