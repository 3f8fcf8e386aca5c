/**
 * The login screen's field validators (`validate_email`, `validate_password`),
 * the combined credential check run before any account lookup
 * (`validate_credentials`) and the validation-only focus-loss hooks.
 * Each validator is an ordered list of checks; the first one that fails
 * decides the message.
 */
module Validation {
  import opened Sanitizer

  const MaxEmailLength := 254
  const MaxPasswordLength := 128

  const EmailRequired := "El correo electrónico es obligatorio."
  const EmailTooLong := "El correo electrónico es demasiado largo."
  const EmailMalformed := "El formato del correo electrónico no es válido."
  const PasswordRequired := "La contraseña es obligatoria."
  const PasswordBlank := "La contraseña no puede estar vacía."
  const PasswordTooLong := "La contraseña es demasiado larga."

  /** A validator's `(is_valid, error_msg)` pair; the message is "" on success. */
  datatype Check = Check(ok: bool, message: string)

  predicate IsAsciiLetter(c: char) { 'a' <= c <= 'z' || 'A' <= c <= 'Z' }

  predicate IsAsciiDigit(c: char) { '0' <= c <= '9' }

  /** The class `[a-zA-Z0-9._%+-]` of the local part. */
  predicate IsLocalChar(c: char)
  {
    IsAsciiLetter(c) || IsAsciiDigit(c) || c == '.' || c == '_' || c == '%' || c == '+' || c == '-'
  }

  /** The class `[a-zA-Z0-9.-]` of the domain. */
  predicate IsDomainChar(c: char)
  {
    IsAsciiLetter(c) || IsAsciiDigit(c) || c == '.' || c == '-'
  }

  /** `s` splits as local "@" domain "." tld for the pattern
      `[a-zA-Z0-9._%+-]+@[a-zA-Z0-9.-]+\.[a-zA-Z]{2,}`, with the `@` at `at`
      and the `.` before the top-level label at `dot`: a non-empty local part,
      a non-empty domain prefix and a top-level label of two or more letters. */
  predicate EmailSplit(s: string, at: int, dot: int)
  {
    1 <= at && at + 2 <= dot && dot + 3 <= |s| && s[at] == '@' && s[dot] == '.'
    && (forall i :: 0 <= i < at ==> IsLocalChar(s[i]))
    && (forall i :: at < i < dot ==> IsDomainChar(s[i]))
    && (forall i :: dot < i < |s| ==> IsAsciiLetter(s[i]))
  }

  /** The whole of `s` matches the address pattern. */
  ghost predicate EmailShape(s: string)
  {
    exists at, dot :: EmailSplit(s, at, dot)
  }

  /** `re.match` of `^<pattern>$`: in Python `$` also matches just before a
      final newline, so one trailing "\n" is tolerated. */
  ghost predicate EmailPattern(s: string)
  {
    EmailShape(s) || (|s| > 0 && s[|s| - 1] == '\n' && EmailShape(s[..|s| - 1]))
  }

  /** Position of the first `c` in `s`, or `|s|` when there is none. */
  function IndexOf(s: string, c: char): (i: nat)
    ensures i <= |s|
    ensures i < |s| ==> s[i] == c
    ensures forall k :: 0 <= k < i ==> s[k] != c
  {
    if s == [] then 0 else if s[0] == c then 0 else 1 + IndexOf(s[1..], c)
  }

  /** Length of the longest suffix of `s` made of ASCII letters. */
  function TrailingLetters(s: string): (n: nat)
    ensures n <= |s|
    ensures forall i :: |s| - n <= i < |s| ==> IsAsciiLetter(s[i])
    ensures n < |s| ==> !IsAsciiLetter(s[|s| - n - 1])
  {
    if s != [] && IsAsciiLetter(s[|s| - 1]) then
      var n := 1 + TrailingLetters(s[..|s| - 1]);
      assert forall i :: |s| - n <= i < |s| - 1 ==> s[i] == s[..|s| - 1][i];
      n
    else 0
  }

  /** A direct scan for the address shape: the first `@` ends a non-empty local
      part; everything after it is a domain character; the string ends in a run
      of at least two letters behind a `.`, and that `.` is not right after the `@`. */
  predicate ScanEmailShape(s: string)
  {
    var at := IndexOf(s, '@');
    var t := TrailingLetters(s);
    at < |s| && 1 <= at
    && (forall i :: 0 <= i < at ==> IsLocalChar(s[i]))
    && (forall i :: at < i < |s| ==> IsDomainChar(s[i]))
    && 2 <= t < |s| && s[|s| - t - 1] == '.' && at + 2 <= |s| - t - 1
  }

  lemma ScanFindsSplit(s: string)
    requires ScanEmailShape(s)
    ensures EmailShape(s)
  {
    var dot := |s| - TrailingLetters(s) - 1;
    assert EmailSplit(s, IndexOf(s, '@'), dot);
  }

  lemma SplitIsScanned(s: string, at: int, dot: int)
    requires EmailSplit(s, at, dot)
    ensures ScanEmailShape(s)
  {
    assert IndexOf(s, '@') == at;
    assert TrailingLetters(s) == |s| - dot - 1;
  }

  /** The scan and the pattern accept exactly the same strings. */
  lemma ScanMatchesShape(s: string)
    ensures ScanEmailShape(s) <==> EmailShape(s)
  {
    if ScanEmailShape(s) {
      ScanFindsSplit(s);
    }
    if EmailShape(s) {
      var at, dot :| EmailSplit(s, at, dot);
      SplitIsScanned(s, at, dot);
    }
  }

  /** `re.match(email_pattern, email)` as a yes/no answer. */
  function MatchesEmailPattern(s: string): (b: bool)
    ensures b <==> EmailPattern(s)
  {
    ScanMatchesShape(s);
    if |s| > 0 && s[|s| - 1] == '\n' then ScanMatchesShape(s[..|s| - 1]); ScanEmailShape(s) || ScanEmailShape(s[..|s| - 1])
    else ScanEmailShape(s)
  }

  /** `validate_email`: empty, then too long, then malformed. */
  function ValidateEmail(email: string): (r: Check)
    ensures r.ok <==> 0 < |email| <= MaxEmailLength && EmailPattern(email)
    ensures r.ok ==> r.message == ""
    ensures email == [] ==> r.message == EmailRequired
    ensures |email| > MaxEmailLength ==> r.message == EmailTooLong
    ensures 0 < |email| <= MaxEmailLength && !EmailPattern(email) ==> r.message == EmailMalformed
  {
    if email == [] then Check(false, EmailRequired)
    else if |email| > MaxEmailLength then Check(false, EmailTooLong)
    else if !MatchesEmailPattern(email) then Check(false, EmailMalformed)
    else Check(true, "")
  }

  /** `validate_password`: empty, then the `len < 1` test (which the empty test
      already covers, so its message never appears), then too long. */
  function ValidatePassword(password: string): (r: Check)
    ensures r.ok <==> 1 <= |password| <= MaxPasswordLength
    ensures r.ok ==> r.message == ""
    ensures password == [] ==> r.message == PasswordRequired
    ensures |password| > MaxPasswordLength ==> r.message == PasswordTooLong
    ensures r.message != PasswordBlank
  {
    if password == [] then Check(false, PasswordRequired)
    else if |password| < 1 then Check(false, PasswordBlank)
    else if |password| > MaxPasswordLength then Check(false, PasswordTooLong)
    else Check(true, "")
  }

  function LowerChar(c: char): char
  {
    if 'A' <= c <= 'Z' then (c as int + 32) as char else c
  }

  /** `str.lower()` restricted to ASCII: only `A`-`Z` change. */
  function Lower(s: string): (r: string)
    ensures |r| == |s|
    ensures forall i :: 0 <= i < |r| ==> !('A' <= r[i] <= 'Z')
    ensures forall i :: 0 <= i < |r| ==>
              r[i] == s[i] || ('A' <= s[i] <= 'Z' && r[i] as int == s[i] as int + 32)
  {
    if s == [] then [] else [LowerChar(s[0])] + Lower(s[1..])
  }

  /** Lower-casing changes no control character and no whitespace. */
  lemma LowerKeepsSanitized(s: string)
    requires NoControl(s) && NoRepeatedSpace(s)
    ensures NoControl(Lower(s)) && NoRepeatedSpace(Lower(s))
  {
    var r := Lower(s);
    assert forall i :: 0 <= i < |s| ==> (IsSpace(r[i]) <==> IsSpace(s[i])) && (IsControl(r[i]) <==> IsControl(s[i]));
  }

  lemma {:induction false} LowerAt(s: string)
    ensures forall i :: 0 <= i < |s| ==> Lower(s)[i] == LowerChar(s[i])
    decreases |s|
  {
    if s != [] {
      LowerAt(s[1..]);
    }
  }

  /** Every character class of the pattern is closed under lower-casing. */
  lemma LowerKeepsClasses(c: char)
    ensures IsLocalChar(LowerChar(c)) == IsLocalChar(c)
    ensures IsDomainChar(LowerChar(c)) == IsDomainChar(c)
    ensures IsAsciiLetter(LowerChar(c)) == IsAsciiLetter(c)
    ensures (LowerChar(c) == '@') == (c == '@') && (LowerChar(c) == '.') == (c == '.')
  {
  }

  lemma LowerKeepsSplit(s: string, at: int, dot: int)
    ensures EmailSplit(Lower(s), at, dot) <==> EmailSplit(s, at, dot)
  {
    if 1 <= at && at + 2 <= dot && dot + 3 <= |s| {
      var r := Lower(s);
      LowerAt(s);
      forall i | 0 <= i < |s|
        ensures IsLocalChar(r[i]) == IsLocalChar(s[i]) && IsDomainChar(r[i]) == IsDomainChar(s[i])
        ensures IsAsciiLetter(r[i]) == IsAsciiLetter(s[i])
        ensures (r[i] == '@') == (s[i] == '@') && (r[i] == '.') == (s[i] == '.')
      {
        LowerKeepsClasses(s[i]);
      }
    }
  }

  lemma LowerKeepsShape(s: string)
    ensures EmailShape(Lower(s)) <==> EmailShape(s)
  {
    if EmailShape(s) {
      var at, dot :| EmailSplit(s, at, dot);
      LowerKeepsSplit(s, at, dot);
    }
    if EmailShape(Lower(s)) {
      var at, dot :| EmailSplit(Lower(s), at, dot);
      LowerKeepsSplit(s, at, dot);
    }
  }

  lemma LowerKeepsPattern(s: string)
    ensures EmailPattern(Lower(s)) <==> EmailPattern(s)
  {
    LowerKeepsShape(s);
    if |s| > 0 {
      var n := |s| - 1;
      LowerAt(s);
      LowerAt(s[..n]);
      assert Lower(s)[..n] == Lower(s[..n]);
      assert (Lower(s)[n] == '\n') == (s[n] == '\n');
      LowerKeepsShape(s[..n]);
    }
  }

  /** Upper case is never the reason an address is refused: lower-casing it
      first gives the same verdict and the same message. */
  lemma EmailCaseBlind(email: string)
    ensures ValidateEmail(Lower(email)) == ValidateEmail(email)
  {
    LowerKeepsPattern(email);
    var a, b := ValidateEmail(Lower(email)), ValidateEmail(email);
    assert a.ok == b.ok;
    assert a.message == b.message;
  }

  /** Result of `validate_credentials`: the message, or the cleaned values. */
  datatype Credentials = Rejected(message: string) | Accepted(email: string, password: string)

  /** `validate_credentials`: sanitise both fields and lower-case the address,
      then check the address before the password. */
  function ValidateCredentials(rawEmail: string, rawPassword: string): (r: Credentials)
    ensures r.Accepted? <==>
              ValidateEmail(Lower(Sanitize(rawEmail))).ok && ValidatePassword(Sanitize(rawPassword)).ok
    ensures r.Accepted? ==> r.email == Lower(Sanitize(rawEmail)) && r.password == Sanitize(rawPassword)
    ensures !ValidateEmail(Lower(Sanitize(rawEmail))).ok ==>
              r == Rejected(ValidateEmail(Lower(Sanitize(rawEmail))).message)
    ensures ValidateEmail(Lower(Sanitize(rawEmail))).ok && !ValidatePassword(Sanitize(rawPassword)).ok ==>
              r == Rejected(ValidatePassword(Sanitize(rawPassword)).message)
  {
    var email := Lower(Sanitize(rawEmail));
    var password := Sanitize(rawPassword);
    var emailCheck := ValidateEmail(email);
    if !emailCheck.ok then Rejected(emailCheck.message)
    else
      var passwordCheck := ValidatePassword(password);
      if !passwordCheck.ok then Rejected(passwordCheck.message)
      else Accepted(email, password)
  }

  /** What an accepted pair looks like: an address of the pattern's shape
      and a password of allowed length, both free of control characters and
      of whitespace runs. */
  lemma AcceptedIsClean(rawEmail: string, rawPassword: string)
    requires ValidateCredentials(rawEmail, rawPassword).Accepted?
    ensures var c := ValidateCredentials(rawEmail, rawPassword);
            EmailShape(c.email) && |c.email| <= MaxEmailLength
            && 1 <= |c.password| <= MaxPasswordLength
            && NoControl(c.email) && NoControl(c.password)
            && NoRepeatedSpace(c.email) && NoRepeatedSpace(c.password)
  {
    var email := Lower(Sanitize(rawEmail));
    LowerKeepsSanitized(Sanitize(rawEmail));
    assert !IsControl(email[|email| - 1]);
  }

  /** The effect of a focus-loss hook on the error label. */
  datatype BlurEffect = Unchanged | Show(message: string) | Cleared

  /** `on_email_input_focus` on losing focus: nothing for an empty field;
      otherwise show the validator's message or clear the label. The text is
      sanitised but not lower-cased here. */
  function OnEmailBlur(text: string): (r: BlurEffect)
    ensures r == Unchanged <==> Sanitize(text) == []
    ensures r == Cleared <==> Sanitize(text) != [] && ValidateEmail(Sanitize(text)).ok
    ensures r.Show? ==> r.message == EmailTooLong || r.message == EmailMalformed
    ensures r.Show? ==> (r.message == EmailTooLong <==> |Sanitize(text)| > MaxEmailLength)
  {
    var email := Sanitize(text);
    if email == [] then Unchanged
    else
      var check := ValidateEmail(email);
      if !check.ok then Show(check.message) else Cleared
  }

  /** `on_password_input_focus` on losing focus: only an over-long password is
      reported, and a valid one does not clear the label. */
  function OnPasswordBlur(text: string): (r: BlurEffect)
    ensures r != Cleared
    ensures r.Show? <==> |Sanitize(text)| > MaxPasswordLength
    ensures r.Show? ==> r.message == PasswordTooLong
  {
    var password := Sanitize(text);
    if password == [] then Unchanged
    else
      var check := ValidatePassword(password);
      if !check.ok then Show(check.message) else Unchanged
  }

  /** The address is checked first: when it fails, its message is reported
      whatever the password. */
  lemma EmailReportedFirst(rawEmail: string, rawPassword: string)
    requires Sanitize(rawEmail) == []
    ensures ValidateCredentials(rawEmail, rawPassword) == Rejected(EmailRequired)
  {
  }

  /** A password that sanitises to nothing is refused as missing once the
      address is accepted. */
  lemma BlankPasswordRejected(rawEmail: string, rawPassword: string)
    requires ValidateEmail(Lower(Sanitize(rawEmail))).ok
    requires AllSpace(rawPassword)
    ensures ValidateCredentials(rawEmail, rawPassword) == Rejected(PasswordRequired)
  {
    assert Sanitize(rawPassword) == [] by {
      SanitizeBlank(rawPassword);
    }
  }
}
