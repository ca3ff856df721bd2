/**
 * The field rules the form registers for the two inputs, and the gate that
 * lets a submission through only when both fields pass.
 */
module Validation {
  import opened Wrappers

  const EmailRequired: string := "Email is required"
  const EmailInvalid: string := "Invalid email address"
  const PasswordRequired: string := "Password is required"
  const PasswordTooShort: string := "Password must be at least 6 characters"
  const MinPasswordLength: nat := 6

  // Character classes of /^[A-Z0-9._%+-]+@[A-Z0-9.-]+\.[A-Z]{2,}$/i. Without
  // the Unicode flag, case-insensitive matching folds only the ASCII letters.

  predicate Letter(c: char) { 'A' <= c <= 'Z' || 'a' <= c <= 'z' }
  predicate Digit(c: char) { '0' <= c <= '9' }
  predicate LocalChar(c: char) { Letter(c) || Digit(c) || c in {'.', '_', '%', '+', '-'} }
  predicate DomainChar(c: char) { Letter(c) || Digit(c) || c in {'.', '-'} }

  predicate AllLocal(s: string) { forall k :: 0 <= k < |s| ==> LocalChar(s[k]) }
  predicate AllDomain(s: string) { forall k :: 0 <= k < |s| ==> DomainChar(s[k]) }
  predicate AllLetters(s: string) { forall k :: 0 <= k < |s| ==> Letter(s[k]) }

  /**
   * The pattern matches with the `@` at index `at` and the final `\.` at index
   * `dot`: a non-empty local part before `at`, a non-empty domain between them,
   * and two or more letters after `dot` up to the end.
   */
  ghost predicate EmailSplit(s: string, at: int, dot: int)
  {
    && 0 < at && at + 1 < dot && dot + 3 <= |s|
    && s[at] == '@' && s[dot] == '.'
    && AllLocal(s[..at]) && AllDomain(s[at + 1..dot]) && AllLetters(s[dot + 1..])
  }

  /** The meaning of the email pattern: some split of the text fits it. */
  ghost predicate MatchesEmailPattern(s: string)
  {
    exists at, dot :: EmailSplit(s, at, dot)
  }

  /** The first index of `c` in `s`, if any. */
  function IndexOf(s: string, c: char): (r: Option<nat>)
    ensures r.Some? ==> r.value < |s| && s[r.value] == c
    ensures r.Some? ==> forall k :: 0 <= k < r.value ==> s[k] != c
    ensures r.None? ==> forall k :: 0 <= k < |s| ==> s[k] != c
  {
    if s == [] then None
    else if s[0] == c then Some(0)
    else match IndexOf(s[1..], c)
      case None => None
      case Some(k) => Some(k + 1)
  }

  /** The last index of `c` in `s`, if any. */
  function LastIndexOf(s: string, c: char): (r: Option<nat>)
    ensures r.Some? ==> r.value < |s| && s[r.value] == c
    ensures r.Some? ==> forall k :: r.value < k < |s| ==> s[k] != c
    ensures r.None? ==> forall k :: 0 <= k < |s| ==> s[k] != c
  {
    if s == [] then None
    else if s[|s| - 1] == c then Some(|s| - 1)
    else LastIndexOf(s[..|s| - 1], c)
  }

  /** After the `@`: a domain, a final dot, then two or more letters. */
  function DomainPartOk(r: string): bool
  {
    match LastIndexOf(r, '.')
    case None => false
    case Some(dot) => 0 < dot && dot + 3 <= |r| && AllDomain(r[..dot]) && AllLetters(r[dot + 1..])
  }

  /** A decision procedure for the email pattern, splitting at the first `@`. */
  function IsEmail(s: string): bool
  {
    match IndexOf(s, '@')
    case None => false
    case Some(at) => 0 < at && AllLocal(s[..at]) && DomainPartOk(s[at + 1..])
  }

  lemma IsEmailSound(s: string)
    requires IsEmail(s)
    ensures MatchesEmailPattern(s)
  {
    var at := IndexOf(s, '@').value;
    var r := s[at + 1..];
    var d := LastIndexOf(r, '.').value;
    var dot := at + 1 + d;
    assert s[at + 1..dot] == r[..d];
    assert s[dot + 1..] == r[d + 1..];
    assert EmailSplit(s, at, dot);
  }

  lemma IsEmailComplete(s: string, at: int, dot: int)
    requires EmailSplit(s, at, dot)
    ensures IsEmail(s)
  {
    // No local character is an `@`, so the split's `@` is the first one.
    assert forall k :: 0 <= k < at ==> s[..at][k] == s[k];
    assert IndexOf(s, '@') == Some(at);
    var r := s[at + 1..];
    var d := dot - at - 1;
    // No letter is a dot, so the split's dot is the last one after the `@`.
    assert forall k :: d < k < |r| ==> r[k] == s[dot + 1..][k - d - 1];
    assert LastIndexOf(r, '.') == Some(d);
    assert r[..d] == s[at + 1..dot];
    assert r[d + 1..] == s[dot + 1..];
  }

  /** The decision procedure accepts exactly the texts the pattern matches. */
  lemma IsEmailMatchesPattern(s: string)
    ensures IsEmail(s) <==> MatchesEmailPattern(s)
  {
    if IsEmail(s) {
      IsEmailSound(s);
    }
    if MatchesEmailPattern(s) {
      var at, dot :| EmailSplit(s, at, dot);
      IsEmailComplete(s, at, dot);
    }
  }

  /** An address the pattern accepts has exactly one `@`: every `@` in it is the first. */
  lemma AcceptedEmailHasOneAt(s: string, i: int)
    requires IsEmail(s)
    requires 0 <= i < |s| && s[i] == '@'
    ensures IndexOf(s, '@') == Some(i)
  {
    var at := IndexOf(s, '@').value;
    var r := s[at + 1..];
    var d := LastIndexOf(r, '.').value;
    forall k | at < k < |s| ensures s[k] != '@' {
      var m := k - at - 1;
      assert r[m] == s[k];
      if m < d {
        assert r[..d][m] == r[m];
      } else if m > d {
        assert r[d + 1..][m - d - 1] == r[m];
      }
    }
  }

  /** JavaScript's `.length`: UTF-16 code units, two for a character above U+FFFF. */
  function Utf16Length(s: string): (n: nat)
    ensures |s| <= n <= 2 * |s|
    ensures n == 0 <==> s == ""
  {
    if s == [] then 0
    else (if s[0] as int > 0xFFFF then 2 else 1) + Utf16Length(s[1..])
  }

  /** The email field's message: its `required` rule first, then its pattern. */
  function EmailError(email: string): (err: Option<string>)
    ensures email == "" ==> err == Some(EmailRequired)
    ensures email != "" && !MatchesEmailPattern(email) ==> err == Some(EmailInvalid)
    ensures err.None? <==> MatchesEmailPattern(email)
  {
    IsEmailMatchesPattern(email);
    if email == "" then Some(EmailRequired)
    else if !IsEmail(email) then Some(EmailInvalid)
    else None
  }

  /** The password field's message: its `required` rule first, then its minimum length. */
  function PasswordError(password: string): (err: Option<string>)
    ensures password == "" ==> err == Some(PasswordRequired)
    ensures password != "" && Utf16Length(password) < MinPasswordLength ==> err == Some(PasswordTooShort)
    ensures err.None? <==> Utf16Length(password) >= MinPasswordLength
  {
    if password == "" then Some(PasswordRequired)
    else if Utf16Length(password) < MinPasswordLength then Some(PasswordTooShort)
    else None
  }

  /** Any six characters pass the length rule; fewer than three never do. */
  lemma PasswordLengthBounds(password: string)
    ensures |password| >= MinPasswordLength ==> PasswordError(password).None?
    ensures |password| < 3 ==> PasswordError(password).Some?
  {
  }

  /** Each field's first failing message, computed independently. */
  datatype FieldErrors = FieldErrors(email: Option<string>, password: Option<string>)

  function Validate(email: string, password: string): FieldErrors
  {
    FieldErrors(EmailError(email), PasswordError(password))
  }

  /** The submit handler runs only when neither field has a message. */
  predicate SubmissionAllowed(errs: FieldErrors)
  {
    errs.email.None? && errs.password.None?
  }

  /** A submission goes through exactly when the email matches and the password is long enough. */
  lemma SubmissionAllowedIff(email: string, password: string)
    ensures SubmissionAllowed(Validate(email, password))
        <==> MatchesEmailPattern(email) && Utf16Length(password) >= MinPasswordLength
  {
  }
}
