/**
 * String primitives of JavaScript that the document generators and the
 * narrative engine rely on, written out: the `\s` character class, `trim()`,
 * `startsWith`, `includes`, ASCII `toLowerCase`, `Array.prototype.join` over
 * strings and the decimal rendering of integers.
 */
module Text {

  /** The characters of the JavaScript class `\s` (WhiteSpace and LineTerminator). */
  predicate IsWhitespace(c: char) {
    c == ' ' || c == '\t' || c == '\n' || c == '\U{000B}' || c == '\U{000C}' || c == '\r'
    || c == '\U{00A0}' || c == '\U{1680}' || ('\U{2000}' <= c <= '\U{200A}')
    || c == '\U{2028}' || c == '\U{2029}' || c == '\U{202F}' || c == '\U{205F}'
    || c == '\U{3000}' || c == '\U{FEFF}'
  }

  /** The characters a regular-expression `.` does not match. */
  predicate IsLineTerminator(c: char) {
    c == '\n' || c == '\r' || c == '\U{2028}' || c == '\U{2029}'
  }

  lemma LineTerminatorIsWhitespace(c: char)
    ensures IsLineTerminator(c) ==> IsWhitespace(c)
  {
  }

  /** First index at or after `k` that does not hold whitespace, or `|s|`. */
  function SkipWhitespace(s: string, k: nat): (q: nat)
    requires k <= |s|
    ensures k <= q <= |s|
    decreases |s| - k
  {
    if k == |s| || !IsWhitespace(s[k]) then k else SkipWhitespace(s, k + 1)
  }

  /** The skipped run is all whitespace and stops at the first other character. */
  lemma {:induction false} SkipWhitespaceShape(s: string, k: nat)
    requires k <= |s|
    ensures var q := SkipWhitespace(s, k);
      (forall m :: k <= m < q ==> IsWhitespace(s[m])) && (q < |s| ==> !IsWhitespace(s[q]))
    decreases |s| - k
  {
    if k < |s| && IsWhitespace(s[k]) {
      SkipWhitespaceShape(s, k + 1);
    }
  }

  /** Largest index `r <= e` such that `s[r..e]` is all whitespace. */
  function TrailingStart(s: string, e: nat): (r: nat)
    requires e <= |s|
    ensures r <= e
    decreases e
  {
    if e == 0 || !IsWhitespace(s[e - 1]) then e else TrailingStart(s, e - 1)
  }

  /** The trailing run is all whitespace and stops after the last other character. */
  lemma {:induction false} TrailingStartShape(s: string, e: nat)
    requires e <= |s|
    ensures var r := TrailingStart(s, e);
      (forall m :: r <= m < e ==> IsWhitespace(s[m])) && (r > 0 ==> !IsWhitespace(s[r - 1]))
    decreases e
  {
    if e > 0 && IsWhitespace(s[e - 1]) {
      TrailingStartShape(s, e - 1);
    }
  }

  function TrimLo(s: string): nat
    ensures TrimLo(s) <= |s|
  {
    SkipWhitespace(s, 0)
  }

  function TrimHi(s: string): (hi: nat)
    ensures TrimLo(s) <= hi <= |s|
  {
    var e := TrailingStart(s, |s|);
    if e < TrimLo(s) then TrimLo(s) else e
  }

  /** `String.prototype.trim`. */
  function Trim(s: string): (r: string)
    ensures |r| <= |s|
  {
    s[TrimLo(s)..TrimHi(s)]
  }

  /** The trimmed text neither starts nor ends with whitespace, and keeps a non-blank first character. */
  lemma TrimShape(s: string)
    ensures var r := Trim(s);
      (r == [] || (!IsWhitespace(r[0]) && !IsWhitespace(r[|r| - 1])))
      && (|s| > 0 && !IsWhitespace(s[0]) ==> |r| > 0 && r[0] == s[0])
  {
    SkipWhitespaceShape(s, 0);
    TrailingStartShape(s, |s|);
  }

  /** A string with no leading and no trailing whitespace. */
  predicate Trimmed(s: string) {
    s == [] || (!IsWhitespace(s[0]) && !IsWhitespace(s[|s| - 1]))
  }

  /** `trim` leaves a trimmed string as it is. */
  lemma TrimOfTrimmed(t: string)
    requires Trimmed(t)
    ensures Trim(t) == t
  {
  }

  predicate StartsWith(s: string, prefix: string) {
    |prefix| <= |s| && s[..|prefix|] == prefix
  }

  /** `String.prototype.includes`. */
  predicate Contains(s: string, sub: string) {
    exists k :: 0 <= k <= |s| - |sub| && OccursAt(s, k, sub)
  }

  predicate OccursAt(s: string, k: nat, sub: string) {
    k + |sub| <= |s| && s[k..k + |sub|] == sub
  }

  /** `s.includes('{{')`. */
  predicate HasDoubleBrace(s: string) {
    exists k :: 0 <= k < |s| - 1 && s[k] == '{' && s[k + 1] == '{'
  }

  predicate NoDoubleBrace(s: string) {
    forall k :: 0 <= k < |s| - 1 ==> !(s[k] == '{' && s[k + 1] == '{')
  }

  lemma SliceNoDoubleBrace(s: string, lo: nat, hi: nat)
    requires lo <= hi <= |s| && NoDoubleBrace(s)
    ensures NoDoubleBrace(s[lo..hi])
  {
    forall k | 0 <= k < hi - lo - 1 ensures !(s[lo..hi][k] == '{' && s[lo..hi][k + 1] == '{') {
      assert s[lo..hi][k] == s[lo + k] && s[lo..hi][k + 1] == s[lo + k + 1];
    }
  }

  /** Every whitespace character of `s` is a plain space. */
  predicate OnlySpaces(s: string) {
    forall k :: 0 <= k < |s| && IsWhitespace(s[k]) ==> s[k] == ' '
  }

  lemma SliceOnlySpaces(s: string, lo: nat, hi: nat)
    requires lo <= hi <= |s| && OnlySpaces(s)
    ensures OnlySpaces(s[lo..hi])
  {
    forall k | 0 <= k < hi - lo && IsWhitespace(s[lo + k]) ensures s[lo..hi][k] == ' ' {
      assert s[lo..hi][k] == s[lo + k];
    }
  }

  predicate NoNewline(s: string) {
    forall k :: 0 <= k < |s| ==> s[k] != '\n'
  }

  lemma OnlySpacesNoNewline(s: string)
    requires OnlySpaces(s)
    ensures NoNewline(s)
  {
    forall k | 0 <= k < |s| ensures s[k] != '\n' {
      if s[k] == '\n' {
        assert IsWhitespace(s[k]);
      }
    }
  }

  function LowerChar(c: char): char {
    if 'A' <= c <= 'Z' then (c as int + 32) as char else c
  }

  /** `toLowerCase`, on the ASCII letters. */
  function Lower(s: string): (r: string)
    ensures |r| == |s|
    ensures forall k :: 0 <= k < |s| ==> r[k] == LowerChar(s[k])
  {
    if s == [] then [] else [LowerChar(s[0])] + Lower(s[1..])
  }

  /** `parts.join(sep)`. */
  function Join(parts: seq<string>, sep: string): string {
    if |parts| == 0 then ""
    else if |parts| == 1 then parts[0]
    else parts[0] + sep + Join(parts[1..], sep)
  }

  function DigitChar(d: nat): char
    requires d < 10
  {
    ('0' as int + d) as char
  }

  function NatToString(n: nat): (r: string)
    ensures |r| > 0
    decreases n
  {
    if n < 10 then [DigitChar(n)] else NatToString(n / 10) + [DigitChar(n % 10)]
  }

  /** `String(n)` for an integer `n`. */
  function IntToString(n: int): (r: string)
    ensures |r| > 0
  {
    if n < 0 then "-" + NatToString(-n) else NatToString(n)
  }
}
