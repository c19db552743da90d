/** The parts of JavaScript's string semantics the panel relies on:
    `String.prototype.trim` and the regular-expression class `\w`. */
module JsStrings {

  /** ECMAScript WhiteSpace and LineTerminator code points: the set that
      `String.prototype.trim` strips from both ends. */
  predicate IsWhitespace(c: char) {
    || c == '\t' || c == '\U{000B}' || c == '\U{000C}' || c == ' '
    || c == '\U{00A0}' || c == '\U{FEFF}' || c == '\U{1680}'
    || ('\U{2000}' <= c <= '\U{200A}')
    || c == '\U{202F}' || c == '\U{205F}' || c == '\U{3000}'
    || c == '\n' || c == '\r' || c == '\U{2028}' || c == '\U{2029}'
  }

  /** The regular-expression class `\w`: ASCII letters, digits and `_`. */
  predicate IsWordChar(c: char) {
    ('a' <= c <= 'z') || ('A' <= c <= 'Z') || ('0' <= c <= '9') || c == '_'
  }

  ghost predicate AllWhitespace(s: string) {
    forall k :: 0 <= k < |s| ==> IsWhitespace(s[k])
  }

  /** True when `s` neither starts nor ends with whitespace. */
  ghost predicate Trimmed(s: string) {
    |s| == 0 || (!IsWhitespace(s[0]) && !IsWhitespace(s[|s| - 1]))
  }

  /** The index of the first non-whitespace character at or after `k`, or
      `|s|` when there is none. */
  function LeadingEnd(s: string, k: nat): (j: nat)
    requires k <= |s|
    ensures k <= j <= |s|
    ensures forall m :: k <= m < j ==> IsWhitespace(s[m])
    ensures j == |s| || !IsWhitespace(s[j])
    decreases |s| - k
  {
    if k < |s| && IsWhitespace(s[k]) then LeadingEnd(s, k + 1) else k
  }

  /** The index just after the last non-whitespace character of `s[lo..k]`,
      or `lo` when there is none. */
  function TrailingStart(s: string, lo: nat, k: nat): (j: nat)
    requires lo <= k <= |s|
    ensures lo <= j <= k
    ensures forall m :: j <= m < k ==> IsWhitespace(s[m])
    ensures j == lo || !IsWhitespace(s[j - 1])
    decreases k
  {
    if lo < k && IsWhitespace(s[k - 1]) then TrailingStart(s, lo, k - 1) else k
  }

  /** `String.prototype.trim`: `s` without whitespace at either end. */
  function Trim(s: string): (r: string)
    ensures Trimmed(r) && |r| <= |s|
    ensures r == "" <==> AllWhitespace(s)
  {
    var i := LeadingEnd(s, 0);
    var j := TrailingStart(s, i, |s|);
    assert i < |s| ==> i < j;
    s[i..j]
  }

  /** What trimming keeps is an infix of the string with only whitespace
      around it. */
  lemma TrimIsInfix(s: string) returns (i: nat)
    ensures i + |Trim(s)| <= |s| && Trim(s) == s[i..i + |Trim(s)|]
    ensures AllWhitespace(s[..i]) && AllWhitespace(s[i + |Trim(s)|..])
  {
    i := LeadingEnd(s, 0);
    var j := TrailingStart(s, i, |s|);
    assert Trim(s) == s[i..j];
    assert forall m :: 0 <= m < i ==> s[..i][m] == s[m];
    assert forall m :: 0 <= m < |s| - j ==> s[j..][m] == s[j + m];
  }

  /** Trimming is determined by that shape: whitespace, then a string with
      no whitespace at either end, then whitespace. */
  lemma {:induction false} TrimOfPadded(a: string, t: string, b: string)
    requires AllWhitespace(a) && AllWhitespace(b) && Trimmed(t) && t != ""
    ensures Trim(a + t + b) == t
  {
    var s := a + t + b;
    LeadingEndAt(s, 0, |a|);
    TrailingStartAt(s, |a|, |s|, |a| + |t|);
    assert s[|a|..|a| + |t|] == t;
  }

  lemma {:induction false} LeadingEndAt(s: string, k: nat, j: nat)
    requires k <= j < |s|
    requires forall m :: k <= m < j ==> IsWhitespace(s[m])
    requires !IsWhitespace(s[j])
    ensures LeadingEnd(s, k) == j
    decreases j - k
  {
    if k < j {
      LeadingEndAt(s, k + 1, j);
    }
  }

  lemma {:induction false} TrailingStartAt(s: string, lo: nat, k: nat, j: nat)
    requires lo < j <= k <= |s|
    requires forall m :: j <= m < k ==> IsWhitespace(s[m])
    requires !IsWhitespace(s[j - 1])
    ensures TrailingStart(s, lo, k) == j
    decreases k - j
  {
    if j < k {
      TrailingStartAt(s, lo, k - 1, j);
    }
  }

  /** Trimming reaches a fixed point after one application. */
  lemma TrimIdempotent(s: string)
    ensures Trim(Trim(s)) == Trim(s)
  {
    var r := Trim(s);
    if r != "" {
      assert r == [] + r + [];
      TrimOfPadded([], r, []);
    }
  }
}
