/**
 * JavaScript string primitives the form validators rely on: the `\s`
 * character class and `String.prototype.trim`, which strip the same set of
 * characters (ECMAScript WhiteSpace and LineTerminator).
 */
module Text {

  /** ECMAScript WhiteSpace and LineTerminator code points: what `\s` matches and `trim` removes. */
  predicate IsWhitespace(c: char) {
    || c == '\t' || c == '\n' || c == '\U{000B}' || c == '\U{000C}' || c == '\r' || c == ' '
    || c == '\U{00A0}' || c == '\U{1680}'
    || ('\U{2000}' <= c <= '\U{200A}')
    || c == '\U{2028}' || c == '\U{2029}' || c == '\U{202F}' || c == '\U{205F}'
    || c == '\U{3000}' || c == '\U{FEFF}'
  }

  /** Every character is whitespace (the empty string included). */
  predicate Blank(s: string) {
    forall k :: 0 <= k < |s| ==> IsWhitespace(s[k])
  }

  /** No character of `s[lo..hi]` is whitespace: a run of `\S`. */
  predicate NonWhitespaceRun(s: string, lo: int, hi: int)
    requires 0 <= lo <= hi <= |s|
  {
    forall k :: lo <= k < hi ==> !IsWhitespace(s[k])
  }

  /** The index of the first non-whitespace character of `s` at or after `lo`, or `|s|`. */
  function SkipBlanks(s: string, lo: nat): (i: nat)
    requires lo <= |s|
    ensures lo <= i <= |s|
    ensures forall k :: lo <= k < i ==> IsWhitespace(s[k])
    ensures i < |s| ==> !IsWhitespace(s[i])
    decreases |s| - lo
  {
    if lo < |s| && IsWhitespace(s[lo]) then SkipBlanks(s, lo + 1) else lo
  }

  /** Moving down from `hi`, the end of the last non-whitespace character of `s[lo..hi]`, or `lo`. */
  function SkipBlanksBack(s: string, lo: nat, hi: nat): (j: nat)
    requires lo <= hi <= |s|
    ensures lo <= j <= hi
    ensures forall k :: j <= k < hi ==> IsWhitespace(s[k])
    ensures lo < j ==> !IsWhitespace(s[j - 1])
    decreases hi - lo
  {
    if lo < hi && IsWhitespace(s[hi - 1]) then SkipBlanksBack(s, lo, hi - 1) else hi
  }

  /** Whether `c` lies outside the Basic Multilingual Plane, so UTF-16 spends a surrogate pair on it. */
  predicate IsAstral(c: char) {
    c >= '\U{10000}'
  }

  /** JavaScript's `s.length`: UTF-16 code units, two for each astral character. */
  function Utf16Length(s: string): (n: nat)
    ensures |s| <= n <= 2 * |s|
    ensures n == |s| <==> forall k :: 0 <= k < |s| ==> !IsAstral(s[k])
    ensures n == 2 * |s| <==> forall k :: 0 <= k < |s| ==> IsAstral(s[k])
    decreases |s|
  {
    if s == [] then 0
    else
      assert forall k :: 0 <= k < |s| - 1 ==> s[1..][k] == s[k + 1];
      (if IsAstral(s[0]) then 2 else 1) + Utf16Length(s[1..])
  }

  /** Units add up over concatenation. */
  lemma {:induction false} Utf16LengthAppend(a: string, b: string)
    ensures Utf16Length(a + b) == Utf16Length(a) + Utf16Length(b)
    decreases |a|
  {
    if a == [] {
      assert a + b == b;
    } else {
      assert (a + b)[1..] == a[1..] + b;
      Utf16LengthAppend(a[1..], b);
    }
  }

  /** Where the trimmed string starts in `s`. */
  function TrimFrom(s: string): nat {
    SkipBlanks(s, 0)
  }

  /** `s.trim()`: whitespace removed from both ends. */
  function Trim(s: string): (r: string)
    ensures r != "" ==> !IsWhitespace(r[0]) && !IsWhitespace(r[|r| - 1])
    ensures TrimFrom(s) + |r| <= |s|
  {
    var i := TrimFrom(s);
    var j := SkipBlanksBack(s, i, |s|);
    assert i < j ==> !IsWhitespace(s[i]);
    s[i..j]
  }

  /** `!s.trim()`: the trimmed string is empty exactly when every character is whitespace. */
  lemma TrimEmptyIffBlank(s: string)
    ensures Trim(s) == "" <==> Blank(s)
  {
    var i := TrimFrom(s);
    if i < |s| {
      assert !IsWhitespace(s[i]);
      assert Trim(s) != "" by {
        assert SkipBlanksBack(s, i, |s|) > i;
      }
    }
  }

  /**
   * `trim` removes a whitespace prefix and a whitespace suffix and nothing
   * else: the result is the infix of `s` between them.
   */
  lemma TrimIsInfix(s: string)
    ensures var i, r := TrimFrom(s), Trim(s);
      && r == s[i..i + |r|]
      && (forall k :: 0 <= k < i ==> IsWhitespace(s[k]))
      && (forall k :: i + |r| <= k < |s| ==> IsWhitespace(s[k]))
  {
    var i := TrimFrom(s);
    assert Trim(s) == s[i..SkipBlanksBack(s, i, |s|)];
  }
}
