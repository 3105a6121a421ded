/** The two regular expressions the registration form applies: the email shape
    `^[^\s@]+@[^\s@]+\.[^\s@]+$` and the password strength rule
    `^(?=.*[a-z])(?=.*[A-Z])(?=.*\d)(?=.*[@$!%*?&])[A-Za-z\d@$!%*?&]{8,}$`
    (ECMAScript syntax, no flags).

    Each is given twice: a ghost predicate that follows the structure of the regular
    expression, and a compilable predicate stating the characterisation the form relies
    on; a lemma proves the two agree on every string. */
module Credentials {

  // ---------------------------------------------------------------------------
  // Character classes (ECMAScript, without the `u` or `i` flags)
  // ---------------------------------------------------------------------------

  /** `\s`: the ECMAScript WhiteSpace and LineTerminator code points. */
  predicate IsSpace(c: char) {
    var n := c as int;
    n == 0x09 || n == 0x0A || n == 0x0B || n == 0x0C || n == 0x0D || n == 0x20
    || n == 0xA0 || n == 0x1680 || (0x2000 <= n <= 0x200A) || n == 0x2028 || n == 0x2029
    || n == 0x202F || n == 0x205F || n == 0x3000 || n == 0xFEFF
  }

  /** The code points `.` does not match (without the `s` flag). */
  predicate IsLineTerminator(c: char) {
    var n := c as int;
    n == 0x0A || n == 0x0D || n == 0x2028 || n == 0x2029
  }

  predicate IsLower(c: char) { 'a' <= c <= 'z' }
  predicate IsUpper(c: char) { 'A' <= c <= 'Z' }
  /** `\d`, which is `[0-9]` in ECMAScript. */
  predicate IsDigit(c: char) { '0' <= c <= '9' }
  /** `[@$!%*?&]` */
  predicate IsSpecial(c: char) {
    c == '@' || c == '$' || c == '!' || c == '%' || c == '*' || c == '?' || c == '&'
  }
  /** `[A-Za-z\d@$!%*?&]` */
  predicate IsPasswordChar(c: char) {
    IsLower(c) || IsUpper(c) || IsDigit(c) || IsSpecial(c)
  }

  // ---------------------------------------------------------------------------
  // Email: ^[^\s@]+@[^\s@]+\.[^\s@]+$
  // ---------------------------------------------------------------------------

  /** `[^\s@]` */
  predicate IsRunChar(c: char) { !IsSpace(c) && c != '@' }

  /** `[^\s@]+`, matched against a whole slice. */
  ghost predicate IsRun(t: string) {
    |t| > 0 && forall k :: 0 <= k < |t| ==> IsRunChar(t[k])
  }

  /** The regular expression read literally: three runs separated by `@` and `.`
      (the runs may themselves contain dots, so any dot after the `@` may be chosen). */
  ghost predicate MatchesEmailPattern(s: string) {
    exists i, j :: 0 <= i < j < |s| && IsRun(s[..i]) && s[i] == '@' && IsRun(s[i + 1..j])
                   && s[j] == '.' && IsRun(s[j + 1..])
  }

  predicate NoWhitespace(s: string) {
    forall k :: 0 <= k < |s| ==> !IsSpace(s[k])
  }

  /** A `.` with at least one character before it and one after it. */
  predicate HasInnerDot(d: string) {
    exists j :: 0 < j < |d| - 1 && d[j] == '.'
  }

  /** The address is accepted: no whitespace, exactly one `@`, a non-empty part before
      it, and a part after it containing a dot that is neither its first nor its last
      character. */
  predicate EmailAccepted(s: string) {
    && NoWhitespace(s)
    && exists i :: 0 < i < |s| && s[i] == '@'
                   && (forall k :: 0 <= k < |s| && s[k] == '@' ==> k == i)
                   && HasInnerDot(s[i + 1..])
  }

  /** A slice is a run exactly when it is non-empty and each of its characters may
      appear in one. */
  lemma RunSlice(s: string, lo: int, hi: int)
    requires 0 <= lo <= hi <= |s|
    ensures IsRun(s[lo..hi]) <==> lo < hi && forall k :: lo <= k < hi ==> IsRunChar(s[k])
  {
    var t := s[lo..hi];
    assert forall k :: lo <= k < hi ==> t[k - lo] == s[k];
  }

  lemma EmailAcceptedMatchesPattern(s: string)
    requires EmailAccepted(s)
    ensures MatchesEmailPattern(s)
  {
    var i :| 0 < i < |s| && s[i] == '@'
             && (forall k :: 0 <= k < |s| && s[k] == '@' ==> k == i)
             && HasInnerDot(s[i + 1..]);
    var d := s[i + 1..];
    var jd :| 0 < jd < |d| - 1 && d[jd] == '.';
    var j := i + 1 + jd;
    assert s[j] == d[jd];
    RunSlice(s, 0, i);
    RunSlice(s, i + 1, j);
    RunSlice(s, j + 1, |s|);
    assert s[..i] == s[0..i] && s[j + 1..] == s[j + 1..|s|];
    assert IsRun(s[..i]) && IsRun(s[i + 1..j]) && IsRun(s[j + 1..]);
  }

  lemma EmailPatternAccepted(s: string)
    requires MatchesEmailPattern(s)
    ensures EmailAccepted(s)
  {
    var i, j :| 0 <= i < j < |s| && IsRun(s[..i]) && s[i] == '@' && IsRun(s[i + 1..j])
                && s[j] == '.' && IsRun(s[j + 1..]);
    assert s[..i] == s[0..i] && s[j + 1..] == s[j + 1..|s|];
    RunSlice(s, 0, i);
    RunSlice(s, i + 1, j);
    RunSlice(s, j + 1, |s|);
    forall k | 0 <= k < |s| ensures !IsSpace(s[k]) && (s[k] == '@' ==> k == i) {
      if k != i && k != j {
        assert IsRunChar(s[k]);
      }
    }
    var d := s[i + 1..];
    assert d[j - (i + 1)] == s[j];
    assert HasInnerDot(d);
  }

  /** The regular expression and its characterisation accept exactly the same strings. */
  lemma EmailAcceptedIffPattern(s: string)
    ensures EmailAccepted(s) <==> MatchesEmailPattern(s)
  {
    if EmailAccepted(s) {
      EmailAcceptedMatchesPattern(s);
    }
    if MatchesEmailPattern(s) {
      EmailPatternAccepted(s);
    }
  }

  // ---------------------------------------------------------------------------
  // Password: ^(?=.*[a-z])(?=.*[A-Z])(?=.*\d)(?=.*[@$!%*?&])[A-Za-z\d@$!%*?&]{8,}$
  // ---------------------------------------------------------------------------

  /** `(?=.*C)` at the start of the string: some character of class `C` is preceded
      only by characters that `.` matches. */
  ghost predicate LookaheadFinds(s: string, inClass: char -> bool) {
    exists k :: 0 <= k < |s| && inClass(s[k]) && forall m :: 0 <= m < k ==> !IsLineTerminator(s[m])
  }

  /** The regular expression read literally: four lookaheads, then eight or more
      characters of the permitted class up to the end. */
  ghost predicate MatchesPasswordPattern(s: string) {
    && LookaheadFinds(s, IsLower)
    && LookaheadFinds(s, IsUpper)
    && LookaheadFinds(s, IsDigit)
    && LookaheadFinds(s, IsSpecial)
    && |s| >= 8
    && forall k :: 0 <= k < |s| ==> IsPasswordChar(s[k])
  }

  predicate Contains(s: string, inClass: char -> bool) {
    exists k :: 0 <= k < |s| && inClass(s[k])
  }

  /** The password is strong: at least eight characters, all from `[A-Za-z0-9@$!%*?&]`,
      with a lower-case letter, an upper-case letter, a digit and one of `@$!%*?&`. */
  predicate PasswordAccepted(s: string) {
    && |s| >= 8
    && (forall k :: 0 <= k < |s| ==> IsPasswordChar(s[k]))
    && Contains(s, IsLower)
    && Contains(s, IsUpper)
    && Contains(s, IsDigit)
    && Contains(s, IsSpecial)
  }

  /** A permitted character is never a line terminator, so the lookaheads' `.*` never
      stops early. */
  lemma PasswordCharsAreNotLineTerminators(c: char)
    requires IsPasswordChar(c)
    ensures !IsLineTerminator(c)
  {
  }

  lemma LookaheadFindsIffContains(s: string, inClass: char -> bool)
    requires forall k :: 0 <= k < |s| ==> IsPasswordChar(s[k])
    ensures LookaheadFinds(s, inClass) <==> Contains(s, inClass)
  {
    if Contains(s, inClass) {
      var k :| 0 <= k < |s| && inClass(s[k]);
      forall m | 0 <= m < k ensures !IsLineTerminator(s[m]) {
        PasswordCharsAreNotLineTerminators(s[m]);
      }
    }
  }

  /** The regular expression and its characterisation accept exactly the same strings. */
  lemma PasswordAcceptedIffPattern(s: string)
    ensures PasswordAccepted(s) <==> MatchesPasswordPattern(s)
  {
    if forall k :: 0 <= k < |s| ==> IsPasswordChar(s[k]) {
      LookaheadFindsIffContains(s, IsLower);
      LookaheadFindsIffContains(s, IsUpper);
      LookaheadFindsIffContains(s, IsDigit);
      LookaheadFindsIffContains(s, IsSpecial);
    }
  }

  /** A password without a digit is never accepted, whatever else it holds. */
  lemma DigitlessPasswordRejected(s: string)
    requires forall k :: 0 <= k < |s| ==> !IsDigit(s[k])
    ensures !PasswordAccepted(s)
  {
  }
}
