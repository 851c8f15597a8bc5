/**
 * The sign-up form's validation: the e-mail test `/\S+@\S+\.\S+/.test(email)`
 * and the ordered guard chain of `validateFields`, which `handleSignup` runs
 * before calling `signUp`.
 */
module SignupScreen {
  import opened Text

  // ---------------------------------------------------------------------------
  // The regular expression, as its meaning: some substring matches `\S+@\S+\.\S+`.

  /** The whole of `t` has the shape `\S+ '@' \S+ '.' \S+`. */
  ghost predicate MatchesWhole(t: string) {
    exists p, q :: 0 < p && p + 1 < q && q + 1 < |t| && t[p] == '@' && t[q] == '.'
      && NonWhitespaceRun(t, 0, p) && NonWhitespaceRun(t, p + 1, q) && NonWhitespaceRun(t, q + 1, |t|)
  }

  /** `RegExp.prototype.test` of the unanchored pattern: some substring matches it whole. */
  ghost predicate RegexTest(s: string) {
    exists i, j :: 0 <= i <= j <= |s| && MatchesWhole(s[i..j])
  }

  /**
   * The shortest match around an '@' at `p` and a '.' at `q`: one non-blank
   * character before the '@', a non-empty non-blank run up to the '.', and one
   * non-blank character after it.
   */
  ghost predicate Witness(s: string, p: int, q: int) {
    && 1 <= p && p + 1 < q && q + 1 < |s|
    && !IsWhitespace(s[p - 1]) && s[p] == '@' && NonWhitespaceRun(s, p + 1, q)
    && s[q] == '.' && !IsWhitespace(s[q + 1])
  }

  // ---------------------------------------------------------------------------
  // A left-to-right scan that decides the same thing.

  /**
   * Scanning `s[k..]` inside a blank-free run that began at `lo`: is there a
   * '.' at some `q >= k` still inside the run and followed by a non-blank?
   */
  function DotAhead(s: string, lo: nat, k: nat): (b: bool)
    requires lo < k <= |s| && NonWhitespaceRun(s, lo, k)
    ensures b <==> exists q :: k <= q && q + 1 < |s| && NonWhitespaceRun(s, lo, q) && s[q] == '.' && !IsWhitespace(s[q + 1])
    decreases |s| - k
  {
    if k + 1 >= |s| then false
    else if IsWhitespace(s[k]) then
      assert forall q :: k < q && q <= |s| ==> !NonWhitespaceRun(s, lo, q) by {
        forall q | k < q && q <= |s| ensures !NonWhitespaceRun(s, lo, q) {
          assert lo <= k < q && IsWhitespace(s[k]);
        }
      }
      false
    else if s[k] == '.' && !IsWhitespace(s[k + 1]) then true
    else DotAhead(s, lo, k + 1)
  }

  /** Is there a `Witness` whose '@' is at `p` or later? */
  function AtFrom(s: string, p: nat): (b: bool)
    ensures b <==> exists p', q :: p <= p' && Witness(s, p', q)
    decreases |s| - p
  {
    if p >= |s| then false
    else
      var here := 1 <= p && s[p] == '@' && !IsWhitespace(s[p - 1]) && p + 1 < |s| && !IsWhitespace(s[p + 1])
                  && DotAhead(s, p + 1, p + 2);
      assert here <==> exists q :: Witness(s, p, q) by {
        if exists q :: Witness(s, p, q) {
          var q :| Witness(s, p, q);
          assert !IsWhitespace(s[p + 1]);
          assert NonWhitespaceRun(s, p + 1, q);
          assert DotAhead(s, p + 1, p + 2);
        }
        if here {
          var q :| p + 2 <= q && q + 1 < |s| && NonWhitespaceRun(s, p + 1, q) && s[q] == '.' && !IsWhitespace(s[q + 1]);
          assert Witness(s, p, q);
        }
      }
      here || AtFrom(s, p + 1)
  }

  /** The scan from the start accepts exactly the strings the regular expression accepts. */
  lemma AtFromIsRegexTest(s: string)
    ensures AtFrom(s, 0) <==> RegexTest(s)
  {
    if AtFrom(s, 0) {
      var p, q :| 0 <= p && Witness(s, p, q);
      assert 1 <= p && p + 1 < q && q + 1 < |s|;
      var t := s[p - 1..q + 2];
      assert t[1] == '@' && t[q - p + 1] == '.';
      assert NonWhitespaceRun(t, 0, 1);
      assert NonWhitespaceRun(t, 2, q - p + 1);
      assert NonWhitespaceRun(t, q - p + 2, |t|);
      assert MatchesWhole(t);
    }
    if RegexTest(s) {
      var i, j :| 0 <= i <= j <= |s| && MatchesWhole(s[i..j]);
      var t := s[i..j];
      var p, q :| 0 < p && p + 1 < q && q + 1 < |t| && t[p] == '@' && t[q] == '.'
        && NonWhitespaceRun(t, 0, p) && NonWhitespaceRun(t, p + 1, q) && NonWhitespaceRun(t, q + 1, |t|);
      assert t[p - 1] == s[i + p - 1];
      assert t[q + 1] == s[i + q + 1];
      assert NonWhitespaceRun(s, i + p + 1, i + q) by {
        forall k | i + p + 1 <= k < i + q ensures !IsWhitespace(s[k]) {
          assert s[k] == t[k - i];
        }
      }
      assert Witness(s, i + p, i + q);
    }
  }

  /** `validateEmail`: the scan, which agrees with the regular expression's `test`. */
  function ValidateEmail(email: string): (b: bool)
    ensures b <==> RegexTest(email)
  {
    AtFromIsRegexTest(email);
    AtFrom(email, 0)
  }

  // ---------------------------------------------------------------------------
  // The guard chain.

  datatype SignupForm = SignupForm(name: string, email: string, password: string)

  /** What `validateFields` returns, with the message `showValidationAlert` shows on failure. */
  datatype Verdict = Accepted | Rejected(message: string)

  const NameMissing: string := "Please enter your name"
  const EmailMissing: string := "Please enter your email"
  const EmailMalformed: string := "Please enter a valid email"
  const PasswordMissing: string := "Please enter your password"
  const PasswordShort: string := "Password must be at least 6 characters"

  const MinPasswordLength: nat := 6

  /**
   * `validateFields`: the first failing check alone decides the message. The
   * name and e-mail are checked for blanks after trimming; the e-mail format and the
   * password are checked as typed.
   */
  function ValidateFields(f: SignupForm): (v: Verdict)
    ensures v == Rejected(NameMissing) <==> Blank(f.name)
    ensures v == Rejected(EmailMissing) <==> !Blank(f.name) && Blank(f.email)
    ensures v == Rejected(EmailMalformed) <==> !Blank(f.name) && !Blank(f.email) && !RegexTest(f.email)
    ensures v == Rejected(PasswordMissing) <==> !Blank(f.name) && !Blank(f.email) && RegexTest(f.email) && f.password == ""
    ensures v == Rejected(PasswordShort) <==>
      !Blank(f.name) && !Blank(f.email) && RegexTest(f.email) && 0 < Utf16Length(f.password) < MinPasswordLength
    ensures v == Accepted <==>
      !Blank(f.name) && !Blank(f.email) && RegexTest(f.email) && Utf16Length(f.password) >= MinPasswordLength
  {
    TrimEmptyIffBlank(f.name);
    TrimEmptyIffBlank(f.email);
    if Trim(f.name) == "" then Rejected(NameMissing)
    else if Trim(f.email) == "" then Rejected(EmailMissing)
    else if !ValidateEmail(f.email) then Rejected(EmailMalformed)
    else if f.password == "" then Rejected(PasswordMissing)
    else if Utf16Length(f.password) < MinPasswordLength then Rejected(PasswordShort)
    else Accepted
  }

  /** The password is not trimmed: five spaces fail the length check, six pass it. */
  lemma PasswordNotTrimmed(name: string, email: string)
    requires !Blank(name) && !Blank(email) && RegexTest(email)
    ensures ValidateFields(SignupForm(name, email, "     ")) == Rejected(PasswordShort)
    ensures ValidateFields(SignupForm(name, email, "      ")) == Accepted
  {
  }

  /**
   * The length check counts UTF-16 units: three characters outside the Basic
   * Multilingual Plane make six units and pass it, two make four and fail it.
   */
  lemma AstralPasswordCountsUnits(name: string, email: string)
    requires !Blank(name) && !Blank(email) && RegexTest(email)
    ensures ValidateFields(SignupForm(name, email, "\U{1F600}\U{1F600}")) == Rejected(PasswordShort)
    ensures ValidateFields(SignupForm(name, email, "\U{1F600}\U{1F600}\U{1F600}")) == Accepted
  {
    var e: string := "\U{1F600}\U{1F600}";
    assert IsAstral(e[0]) && IsAstral(e[1]);
    assert Utf16Length(e) == 4;
    var f: string := "\U{1F600}\U{1F600}\U{1F600}";
    assert IsAstral(f[0]) && IsAstral(f[1]) && IsAstral(f[2]);
    assert Utf16Length(f) == 6;
  }

  /** What `handleSignup` does: alert and stop, or call `signUp(email, password, name)`. */
  datatype SignupAction = ShowAlert(message: string) | CallSignUp(email: string, password: string, name: string)

  /** `handleSignup`: `signUp` is called with the form's fields exactly when validation passes. */
  function HandleSignup(f: SignupForm): (a: SignupAction)
    ensures a.CallSignUp? <==> ValidateFields(f) == Accepted
    ensures a.CallSignUp? ==> a == CallSignUp(f.email, f.password, f.name)
    ensures a.ShowAlert? ==> ValidateFields(f) == Rejected(a.message)
  {
    match ValidateFields(f)
    case Accepted => CallSignUp(f.email, f.password, f.name)
    case Rejected(m) => ShowAlert(m)
  }
}
