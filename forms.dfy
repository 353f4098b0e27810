/**
  The validation rules the authentication forms share: the email pattern
  `^[^\s@]+@[^\s@]+\.[^\s@]+$` (an ad-hoc shape, not the address grammar of
  RFC 5322), the password and confirmation rules, and the per-field error
  object, a map from field name to message.
*/
module Forms {
  import opened Wrappers
  import Text

  /** A character `[^\s@]` matches. */
  predicate Plain(c: char) {
    !Text.IsWhite(c) && c != '@'
  }

  predicate AllPlain(s: string) {
    forall k :: 0 <= k < |s| ==> Plain(s[k])
  }

  /**
    The regular expression: a non-empty plain run, '@', a non-empty plain
    run, '.', a non-empty plain run, covering the whole text. `i` is the
    position of the '@' and `j` that of the '.'.
  */
  predicate MatchesEmailPattern(s: string) {
    exists i, j :: 0 < i && i + 1 < j && j + 1 < |s| && s[i] == '@' && s[j] == '.'
      && AllPlain(s[..i]) && AllPlain(s[i + 1..j]) && AllPlain(s[j + 1..])
  }

  /** The same set described by its characters: no white space, exactly one '@' and not first, and a '.' strictly inside the part after it. */
  predicate EmailShape(s: string) {
    && (forall k :: 0 <= k < |s| ==> !Text.IsWhite(s[k]))
    && exists i :: 0 < i < |s| && s[i] == '@'
         && (forall k :: 0 <= k < |s| && k != i ==> s[k] != '@')
         && (exists j :: i + 1 < j < |s| - 1 && s[j] == '.')
  }

  lemma PatternHasShape(s: string)
    requires MatchesEmailPattern(s)
    ensures EmailShape(s)
  {
    var i, j :| 0 < i && i + 1 < j && j + 1 < |s| && s[i] == '@' && s[j] == '.'
      && AllPlain(s[..i]) && AllPlain(s[i + 1..j]) && AllPlain(s[j + 1..]);
    forall k | 0 <= k < |s| && k != i && k != j ensures Plain(s[k]) {
      if k < i { assert s[k] == s[..i][k]; }
      else if k < j { assert s[k] == s[i + 1..j][k - i - 1]; }
      else { assert s[k] == s[j + 1..][k - j - 1]; }
    }
    assert !Text.IsWhite(s[i]) && !Text.IsWhite(s[j]);
    assert forall k :: 0 <= k < |s| ==> !Text.IsWhite(s[k]);
  }

  lemma ShapeMatchesPattern(s: string)
    requires EmailShape(s)
    ensures MatchesEmailPattern(s)
  {
    var i :| 0 < i < |s| && s[i] == '@'
       && (forall k :: 0 <= k < |s| && k != i ==> s[k] != '@')
       && (exists j :: i + 1 < j < |s| - 1 && s[j] == '.');
    var j :| i + 1 < j < |s| - 1 && s[j] == '.';
    assert AllPlain(s[..i]);
    assert AllPlain(s[i + 1..j]);
    assert AllPlain(s[j + 1..]);
  }

  /** The pattern accepts exactly the texts of EmailShape. */
  lemma EmailPatternIffShape(s: string)
    ensures MatchesEmailPattern(s) <==> EmailShape(s)
  {
    if MatchesEmailPattern(s) { PatternHasShape(s); }
    if EmailShape(s) { ShapeMatchesPattern(s); }
  }

  /** Leading white space defeats the pattern, whatever follows. */
  lemma LeadingSpaceRejected(s: string)
    requires |s| > 0 && Text.IsWhite(s[0])
    ensures !MatchesEmailPattern(s)
  {
    EmailPatternIffShape(s);
  }

  lemma ExampleAccepted()
    ensures MatchesEmailPattern("a@b.co")
  {
    var s := "a@b.co";
    assert s[1] == '@' && s[3] == '.';
    assert AllPlain(s[..1]) && AllPlain(s[2..3]) && AllPlain(s[4..]);
  }

  /** Required after trimming, then the pattern on the text as typed. */
  function EmailError(email: string): (e: Option<string>)
    ensures Text.Trim(email) == "" ==> e == Some("Email is required")
    ensures Text.Trim(email) != "" && !MatchesEmailPattern(email) ==> e == Some("Please enter a valid email address")
    ensures e.None? <==> Text.Trim(email) != "" && MatchesEmailPattern(email)
  {
    if Text.Trim(email) == "" then Some("Email is required")
    else if !MatchesEmailPattern(email) then Some("Please enter a valid email address")
    else None
  }

  /** A valid address typed after a space is turned away, although its trim is that valid address. */
  lemma {:induction false} UntrimmedEmailRejected(s: string)
    requires MatchesEmailPattern(s)
    ensures Text.Trim(" " + s) == s
    ensures EmailError(" " + s) == Some("Please enter a valid email address")
  {
    PatternHasShape(s);
    assert !Text.IsWhite(s[0]) && !Text.IsWhite(s[|s| - 1]);
    assert Text.AllWhite(" ") && Text.AllWhite("");
    Text.TrimIgnoresPadding(" ", s, "");
    assert " " + s + "" == " " + s;
    Text.TrimOfTrimmed(s);
    var padded := " " + s;
    assert padded[0] == ' ';
    LeadingSpaceRejected(padded);
  }

  /** Present, then at least six characters. */
  function PasswordError(password: string): (e: Option<string>)
    ensures password == "" ==> e == Some("Password is required")
    ensures password != "" && |password| < 6 ==> e == Some("Password must be at least 6 characters long")
    ensures e.None? <==> |password| >= 6
  {
    if password == "" then Some("Password is required")
    else if |password| < 6 then Some("Password must be at least 6 characters long")
    else None
  }

  /** Present, then equal to the password. */
  function ConfirmationError(password: string, confirmation: string): (e: Option<string>)
    ensures confirmation == "" ==> e == Some("Please confirm your password")
    ensures confirmation != "" && confirmation != password ==> e == Some("Passwords do not match")
    ensures e.None? <==> confirmation != "" && confirmation == password
  {
    if confirmation == "" then Some("Please confirm your password")
    else if password != confirmation then Some("Passwords do not match")
    else None
  }

  /** The property names the forms' error objects use. */
  datatype FieldName =
    | Name | Email | Password | ConfirmPassword | OrganizationName   // sign-up (and log-in)
    | PasswordConfirmation                                          // password reset
    | Title | Description                                           // new task
    | General                                                       // a form-wide message

  /** An error object: field name to message; a field without a message is absent. */
  type Errors = map<FieldName, string>

  /** `newErrors[field] = message` when the rule produced one. */
  function Record(errors: Errors, field: FieldName, e: Option<string>): (r: Errors)
    ensures e.Some? ==> r == errors[field := e.value]
    ensures e.None? ==> r == errors
  {
    if e.Some? then errors[field := e.value] else errors
  }

  /** handleInputChange's `[field]: undefined`: that field's message goes, the others stay. */
  function ClearError(errors: Errors, field: FieldName): (r: Errors)
    ensures field !in r
    ensures forall f :: f != field ==> (f in r <==> f in errors) && (f in r ==> r[f] == errors[f])
  {
    errors - {field}
  }

  /**
    handleInputChange's error clearing: a field whose message is set (a
    non-empty text, as `errors[field]` tests it) loses it; a field without
    one, and every other field, is left as it was.
  */
  function AfterEdit(errors: Errors, field: FieldName): (r: Errors)
    ensures !(field in r && r[field] != "")
    ensures field in errors && errors[field] == "" ==> field in r && r[field] == ""
    ensures forall f :: f != field ==> (f in r <==> f in errors) && (f in r ==> r[f] == errors[f])
  {
    if field in errors && errors[field] != "" then ClearError(errors, field) else errors
  }

  /**
    What an authentication request came back with: the response's `success`,
    whether the data the caller needs besides it (a token, a user) came with
    it, and its `error` ("" when absent); or the call threw.
  */
  datatype AuthResponse = Responded(success: bool, complete: bool, error: string) | Threw

  /** The message every authentication form shows when its request throws. */
  const UnexpectedError := "An unexpected error occurred. Please try again."

  /** The error object that holds only a form-wide message. */
  function OnlyGeneral(message: string): (r: Errors)
    ensures r.Keys == {General} && r[General] == message
  {
    map[General := message]
  }
}
