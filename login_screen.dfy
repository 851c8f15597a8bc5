/**
 * The login form's validation: the anchored e-mail test
 * `/^[^\s@]+@[^\s@]+\.[^\s@]+$/` and the guard chain of `handleLogin`.
 */
module LoginScreen {
  import opened Text
  import SignupScreen

  /** `[^\s@]`: neither whitespace nor '@'. */
  predicate Plain(c: char) {
    !IsWhitespace(c) && c != '@'
  }

  predicate PlainRun(s: string, lo: int, hi: int)
    requires 0 <= lo <= hi <= |s|
  {
    forall k :: lo <= k < hi ==> Plain(s[k])
  }

  /** The regular expression's meaning: `s` is `[^\s@]+ '@' [^\s@]+ '.' [^\s@]+` as a whole. */
  ghost predicate RegexTest(s: string) {
    exists p, q :: 0 < p && p + 1 < q && q + 1 < |s| && s[p] == '@' && s[q] == '.'
      && PlainRun(s, 0, p) && PlainRun(s, p + 1, q) && PlainRun(s, q + 1, |s|)
  }

  /** The index of the first '@' in `s[k..]`, if any. */
  function FirstAt(s: string, k: nat): (r: int)
    requires k <= |s|
    ensures r == -1 || (k <= r < |s| && s[r] == '@')
    ensures forall i :: k <= i < (if r == -1 then |s| else r) ==> s[i] != '@'
    decreases |s| - k
  {
    if k == |s| then -1 else if s[k] == '@' then k else FirstAt(s, k + 1)
  }

  /** Every character of `s[k..]` is plain. */
  function AllPlain(s: string, k: nat): (b: bool)
    requires k <= |s|
    ensures b <==> PlainRun(s, k, |s|)
    decreases |s| - k
  {
    k == |s| || (Plain(s[k]) && AllPlain(s, k + 1))
  }

  /** No character of `s[k..hi]` is whitespace. */
  function NoBlankUpTo(s: string, k: nat, hi: nat): (b: bool)
    requires k <= hi <= |s|
    ensures b <==> NonWhitespaceRun(s, k, hi)
    decreases hi - k
  {
    k == hi || (!IsWhitespace(s[k]) && NoBlankUpTo(s, k + 1, hi))
  }

  /** Is there a '.' at some index in `[k, |s| - 1)`? */
  function DotBefore(s: string, k: nat): (b: bool)
    requires k <= |s|
    ensures b <==> exists q :: k <= q && q + 1 < |s| && s[q] == '.'
    decreases |s| - k
  {
    if k + 1 >= |s| then false else s[k] == '.' || DotBefore(s, k + 1)
  }

  /** Split at the first '@' and check each side. */
  predicate SplitAccepts(email: string) {
    var p := FirstAt(email, 0);
    && p > 0
    && NoBlankUpTo(email, 0, p)
    && AllPlain(email, p + 1)
    && p + 2 <= |email| && DotBefore(email, p + 2)
  }

  /** The split-and-check reading accepts exactly what the regular expression accepts. */
  lemma SplitAcceptsIsRegexTest(s: string)
    ensures SplitAccepts(s) <==> RegexTest(s)
  {
    var p := FirstAt(s, 0);
    if SplitAccepts(s) {
      var q :| p + 2 <= q && q + 1 < |s| && s[q] == '.';
      assert PlainRun(s, 0, p);
      assert PlainRun(s, p + 1, q) && PlainRun(s, q + 1, |s|);
    }
    if RegexTest(s) {
      var p', q :| 0 < p' && p' + 1 < q && q + 1 < |s| && s[p'] == '@' && s[q] == '.'
        && PlainRun(s, 0, p') && PlainRun(s, p' + 1, q) && PlainRun(s, q + 1, |s|);
      assert p == p';
      assert PlainRun(s, p + 1, |s|) by {
        forall k | p + 1 <= k < |s| ensures Plain(s[k]) {
          if k == q { } else if k < q { assert p' + 1 <= k < q; } else { assert q + 1 <= k; }
        }
      }
    }
  }

  /** `validateEmail`: the split-and-check reading, which agrees with the regular expression's `test`. */
  function ValidateEmail(email: string): (b: bool)
    ensures b <==> RegexTest(email)
  {
    SplitAcceptsIsRegexTest(email);
    SplitAccepts(email)
  }

  /** Every accepted e-mail has exactly one '@' and no whitespace at all. */
  lemma AcceptedHasOneAt(s: string)
    requires RegexTest(s)
    ensures multiset(s)['@'] == 1
    ensures forall k :: 0 <= k < |s| ==> !IsWhitespace(s[k])
  {
    var p, q :| 0 < p && p + 1 < q && q + 1 < |s| && s[p] == '@' && s[q] == '.'
      && PlainRun(s, 0, p) && PlainRun(s, p + 1, q) && PlainRun(s, q + 1, |s|);
    forall k | 0 <= k < |s| ensures !IsWhitespace(s[k]) && (k != p ==> s[k] != '@') {
      if k < p { assert Plain(s[k]); }
      else if k == p { }
      else if k < q { assert Plain(s[k]); }
      else if k == q { }
      else { assert Plain(s[k]); }
    }
    OccursOnlyAt(s, p);
  }

  /** A character found at `p` and nowhere else occurs exactly once. */
  lemma OccursOnlyAt(s: string, p: nat)
    requires p < |s|
    requires forall k :: 0 <= k < |s| && k != p ==> s[k] != s[p]
    ensures multiset(s)[s[p]] == 1
  {
    var c := s[p];
    var head, tail := s[..p], s[p + 1..];
    assert s == head + [c] + tail;
    assert c !in head by {
      forall j | 0 <= j < |head| ensures head[j] != c { assert head[j] == s[j]; }
    }
    assert c !in tail by {
      forall j | 0 <= j < |tail| ensures tail[j] != c { assert tail[j] == s[p + 1 + j]; }
    }
    assert multiset(s) == multiset(head) + multiset{c} + multiset(tail);
  }

  /** The login pattern is stricter than the sign-up one: whatever login accepts, sign-up accepts. */
  lemma LoginEmailPassesSignup(s: string)
    requires RegexTest(s)
    ensures SignupScreen.RegexTest(s)
  {
    var p, q :| 0 < p && p + 1 < q && q + 1 < |s| && s[p] == '@' && s[q] == '.'
      && PlainRun(s, 0, p) && PlainRun(s, p + 1, q) && PlainRun(s, q + 1, |s|);
    var t := s[0..|s|];
    assert t == s;
    forall k | 0 <= k < |t| && k != p && k != q ensures !IsWhitespace(t[k]) {
      if k < p { assert Plain(s[k]); } else if k < q { assert Plain(s[k]); } else { assert Plain(s[k]); }
    }
    assert NonWhitespaceRun(t, 0, p) && NonWhitespaceRun(t, p + 1, q) && NonWhitespaceRun(t, q + 1, |t|);
    assert SignupScreen.MatchesWhole(t);
  }

  /** A padded address passes the sign-up check but not the login one, which the chain does not trim. */
  lemma PaddedEmailOnlyPassesSignup()
    ensures SignupScreen.RegexTest(" a@b.c")
    ensures !RegexTest(" a@b.c")
  {
    SignupScreen.AtFromIsRegexTest(" a@b.c");
    SplitAcceptsIsRegexTest(" a@b.c");
    assert FirstAt(" a@b.c", 0) == 2;
    assert SignupScreen.Witness(" a@b.c", 2, 4);
  }

  /** `handleLogin`'s effect: one validation alert, or a call to `login(email, password)`. */
  datatype LoginAction = ShowAlert(message: string) | CallLogin(email: string, password: string)

  const EmailMissing: string := "Please enter your email."
  const EmailMalformed: string := "Please enter a valid email address."
  const PasswordMissing: string := "Please enter your password."
  const PasswordShort: string := "Password must be at least 6 characters long."

  const MinPasswordLength: nat := 6

  /**
   * `handleLogin`'s guard chain, in order: blank trimmed e-mail, malformed
   * e-mail (checked untrimmed), empty password, password shorter than six.
   * The first failure alone is reported, and `login` runs only after all four pass.
   */
  function HandleLogin(email: string, password: string): (a: LoginAction)
    ensures a == ShowAlert(EmailMissing) <==> Blank(email)
    ensures a == ShowAlert(EmailMalformed) <==> !Blank(email) && !RegexTest(email)
    ensures a == ShowAlert(PasswordMissing) <==> !Blank(email) && RegexTest(email) && password == ""
    ensures a == ShowAlert(PasswordShort) <==> !Blank(email) && RegexTest(email) && 0 < Utf16Length(password) < MinPasswordLength
    ensures a.CallLogin? <==> !Blank(email) && RegexTest(email) && Utf16Length(password) >= MinPasswordLength
    ensures a.CallLogin? ==> a == CallLogin(email, password)
  {
    TrimEmptyIffBlank(email);
    if Trim(email) == "" then ShowAlert(EmailMissing)
    else if !ValidateEmail(email) then ShowAlert(EmailMalformed)
    else if password == "" then ShowAlert(PasswordMissing)
    else if Utf16Length(password) < MinPasswordLength then ShowAlert(PasswordShort)
    else CallLogin(email, password)
  }

  /** Three characters outside the Basic Multilingual Plane are six UTF-16 units, long enough to log in. */
  lemma AstralPasswordLogsIn(email: string)
    requires !Blank(email) && RegexTest(email)
    ensures HandleLogin(email, "\U{1F600}\U{1F600}\U{1F600}") == CallLogin(email, "\U{1F600}\U{1F600}\U{1F600}")
  {
    var p: string := "\U{1F600}\U{1F600}\U{1F600}";
    assert IsAstral(p[0]) && IsAstral(p[1]) && IsAstral(p[2]);
    assert Utf16Length(p) == 6;
  }
}
