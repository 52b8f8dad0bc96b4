/**
 * The regular-expression passes `fillTemplate` applies after substitution
 * (src/lib/docx/narrativeTemplateEngine.js:52-69), written out as scans:
 * the sentence split `/(?<=[.!?])\s+/`, the whitespace collapse
 * `replace(/\s+/g, ' ')` and the dot collapse `replace(/\.\s*\./g, '.')`.
 */
module TextCleanup {
  import opened Text

  predicate SentenceEnd(c: char) {
    c == '.' || c == '!' || c == '?'
  }

  /** `/(?<=[.!?])\s+/` can start a match at `p`. */
  predicate SplitPoint(s: string, p: nat) {
    0 < p < |s| && SentenceEnd(s[p - 1]) && IsWhitespace(s[p])
  }

  /**
   * `split` with the sentence separator, the current piece starting at
   * `start` and the scan at `p`. A separator is the whole whitespace run after
   * the punctuation; the last piece runs to the end and may be empty.
   */
  function SplitFrom(s: string, start: nat, p: nat): (pieces: seq<string>)
    requires start <= p <= |s|
    ensures |pieces| >= 1
    decreases |s| - p
  {
    if p == |s| then [s[start..]]
    else if SplitPoint(s, p) then
      var q := SkipWhitespace(s, p);
      [s[start..p]] + SplitFrom(s, q, q)
    else SplitFrom(s, start, p + 1)
  }

  function SplitSentences(s: string): seq<string> {
    SplitFrom(s, 0, 0)
  }

  /** No split point strictly inside `s[lo..hi]`. */
  predicate NoSplitBetween(s: string, lo: nat, hi: nat) {
    forall m :: lo < m < hi ==> !SplitPoint(s, m)
  }

  /** Every piece but the last is non-empty and ends at a sentence end. */
  predicate EndsAtSentences(pieces: seq<string>) {
    forall k :: 0 <= k < |pieces| - 1 ==> pieces[k] != [] && SentenceEnd(pieces[k][|pieces[k]| - 1])
  }

  /** No piece holds a point where the separator could have matched. */
  predicate NoInnerSplit(pieces: seq<string>) {
    forall k :: 0 <= k < |pieces| ==> forall m :: 0 < m < |pieces[k]| ==> !SplitPoint(pieces[k], m)
  }

  lemma SplitFromShape(s: string, start: nat, p: nat)
    requires start <= p <= |s|
    requires !SplitPoint(s, start) && NoSplitBetween(s, start, p)
    ensures EndsAtSentences(SplitFrom(s, start, p)) && NoInnerSplit(SplitFrom(s, start, p))
    ensures NonWhitespace(Join(SplitFrom(s, start, p), " ")) == NonWhitespace(s[start..])
  {
    SplitFromPieces(s, start, p);
    SplitFromCovers(s, start, p);
  }

  /** Each piece is one sentence: it ends at a sentence end (but the last) and holds no split point. */
  lemma {:induction false} SplitFromPieces(s: string, start: nat, p: nat)
    requires start <= p <= |s|
    requires !SplitPoint(s, start) && NoSplitBetween(s, start, p)
    ensures EndsAtSentences(SplitFrom(s, start, p)) && NoInnerSplit(SplitFrom(s, start, p))
    decreases |s| - p
  {
    var pieces := SplitFrom(s, start, p);
    if p == |s| {
      var piece := s[start..];
      forall m | 0 < m < |piece| ensures !SplitPoint(piece, m) {
        assert piece[m - 1] == s[start + m - 1] && piece[m] == s[start + m];
        assert !SplitPoint(s, start + m);
      }
    } else if SplitPoint(s, p) {
      var q := SkipWhitespace(s, p);
      SkipWhitespaceShape(s, p);
      assert !SplitPoint(s, q) by {
        if 0 < q < |s| {
          assert IsWhitespace(s[q - 1]);
        }
      }
      SplitFromPieces(s, q, q);
      var piece := s[start..p];
      var rest := SplitFrom(s, q, q);
      assert piece != [] && piece[|piece| - 1] == s[p - 1];
      forall m | 0 < m < |piece| ensures !SplitPoint(piece, m) {
        assert piece[m - 1] == s[start + m - 1] && piece[m] == s[start + m];
        assert !SplitPoint(s, start + m);
      }
      assert pieces == [piece] + rest;
      forall k | 0 < k < |pieces| ensures pieces[k] == rest[k - 1] {
      }
    } else {
      SplitFromPieces(s, start, p + 1);
      assert pieces == SplitFrom(s, start, p + 1);
    }
  }

  /**
   * The sentence split's pieces: each one sentence, every one but the last
   * ending in `.`, `!` or `?`; together they hold all of the text but the
   * separating whitespace, and on single-spaced text joining them with a
   * space gives the text back.
   */
  lemma SplitSentencesShape(s: string)
    ensures var pieces := SplitSentences(s);
      |pieces| >= 1
      && (forall k :: 0 <= k < |pieces| - 1 ==> pieces[k] != [] && SentenceEnd(pieces[k][|pieces[k]| - 1]))
      && (forall k :: 0 <= k < |pieces| ==> forall m :: 0 < m < |pieces[k]| ==> !SplitPoint(pieces[k], m))
      && NonWhitespace(Join(pieces, " ")) == NonWhitespace(s)
      && (SingleSpaced(s) ==> Join(pieces, " ") == s)
  {
    SplitFromShape(s, 0, 0);
    if SingleSpaced(s) {
      SplitFromSingleSpaced(s, 0, 0);
    }
    var pieces := SplitSentences(s);
    assert pieces == SplitFrom(s, 0, 0);
  }

  /** Text with no sentence end followed by whitespace is one piece. */
  lemma {:induction false} NoSplitPointIsWhole(s: string, start: nat, p: nat)
    requires start <= p <= |s|
    requires forall m :: p <= m < |s| ==> !SplitPoint(s, m)
    ensures SplitFrom(s, start, p) == [s[start..]]
    decreases |s| - p
  {
    if p < |s| {
      NoSplitPointIsWhole(s, start, p + 1);
    }
  }

  /** `replace(/\s+/g, ' ')`: every maximal whitespace run becomes one space. */
  function CollapseWhitespace(s: string): (r: string)
    ensures OnlySpaces(r)
    ensures forall k :: 0 <= k < |r| - 1 ==> !(IsWhitespace(r[k]) && IsWhitespace(r[k + 1]))
    ensures |r| <= |s| && (|r| == 0 <==> |s| == 0)
    ensures |s| > 0 && !IsWhitespace(s[0]) ==> r[0] == s[0]
    ensures |s| > 0 && IsWhitespace(s[0]) ==> r[0] == ' '
    ensures NoDoubleBrace(s) ==> NoDoubleBrace(r)
    decreases |s|
  {
    if s == [] then []
    else if IsWhitespace(s[0]) then
      var q := SkipWhitespace(s, 0);
      SkipWhitespaceShape(s, 0);
      var rest := CollapseWhitespace(s[q..]);
      assert rest != [] ==> !IsWhitespace(rest[0]);
      assert NoDoubleBrace(s) ==> NoDoubleBrace(s[q..]) by {
        if NoDoubleBrace(s) { SliceNoDoubleBrace(s, q, |s|); }
      }
      " " + rest
    else
      var rest := CollapseWhitespace(s[1..]);
      assert NoDoubleBrace(s) ==> NoDoubleBrace(s[1..]) by {
        if NoDoubleBrace(s) { SliceNoDoubleBrace(s, 1, |s|); }
      }
      [s[0]] + rest
  }

  /** The characters of `s` that are not whitespace, in order. */
  function NonWhitespace(s: string): string {
    if s == [] then []
    else (if IsWhitespace(s[0]) then [] else [s[0]]) + NonWhitespace(s[1..])
  }

  lemma {:induction false} NonWhitespaceOfWhitespaceRun(s: string, q: nat)
    requires q <= |s|
    requires forall m :: 0 <= m < q ==> IsWhitespace(s[m])
    ensures NonWhitespace(s) == NonWhitespace(s[q..])
    decreases q
  {
    if q > 0 {
      assert s[1..][q - 1..] == s[q..];
      NonWhitespaceOfWhitespaceRun(s[1..], q - 1);
    }
  }

  /** The whitespace collapse keeps every other character, in order. */
  lemma {:induction false} CollapseKeepsText(s: string)
    ensures NonWhitespace(CollapseWhitespace(s)) == NonWhitespace(s)
    decreases |s|
  {
    if s != [] {
      if IsWhitespace(s[0]) {
        var q := SkipWhitespace(s, 0);
        SkipWhitespaceShape(s, 0);
        CollapseKeepsText(s[q..]);
        NonWhitespaceOfWhitespaceRun(s, q);
        var r := CollapseWhitespace(s);
        assert r == " " + CollapseWhitespace(s[q..]);
        assert r[1..] == CollapseWhitespace(s[q..]);
      } else {
        CollapseKeepsText(s[1..]);
        var r := CollapseWhitespace(s);
        assert r[1..] == CollapseWhitespace(s[1..]);
      }
    }
  }

  lemma {:induction false} NonWhitespaceOfAppend(a: string, b: string)
    ensures NonWhitespace(a + b) == NonWhitespace(a) + NonWhitespace(b)
  {
    if a == [] {
      assert a + b == b;
    } else {
      assert (a + b)[1..] == a[1..] + b;
      NonWhitespaceOfAppend(a[1..], b);
    }
  }

  /** Every whitespace character is a plain space and no two whitespace characters are adjacent. */
  predicate SingleSpaced(s: string) {
    OnlySpaces(s) && forall k :: 0 <= k < |s| - 1 ==> !(IsWhitespace(s[k]) && IsWhitespace(s[k + 1]))
  }

  /** Single-spaced text is left as it is by the whitespace collapse. */
  lemma {:induction false} CollapseSingleSpaced(s: string)
    requires SingleSpaced(s)
    ensures CollapseWhitespace(s) == s
    decreases |s|
  {
    if s != [] {
      assert SingleSpaced(s[1..]) by {
        SliceOnlySpaces(s, 1, |s|);
        forall k | 0 <= k < |s[1..]| - 1 ensures !(IsWhitespace(s[1..][k]) && IsWhitespace(s[1..][k + 1])) {
          assert s[1..][k] == s[k + 1] && s[1..][k + 1] == s[k + 2];
        }
      }
      CollapseSingleSpaced(s[1..]);
      if IsWhitespace(s[0]) {
        assert SkipWhitespace(s, 0) == 1 by {
          assert |s| > 1 ==> !IsWhitespace(s[1]);
        }
        assert s == " " + s[1..];
      } else {
        assert s == [s[0]] + s[1..];
      }
    }
  }

  lemma NonWhitespaceOfJoinStep(x: string, rest: seq<string>)
    requires |rest| >= 1
    ensures NonWhitespace(Join([x] + rest, " ")) == NonWhitespace(x) + NonWhitespace(Join(rest, " "))
  {
    assert ([x] + rest)[1..] == rest;
    var j := Join(rest, " ");
    assert Join([x] + rest, " ") == x + (" " + j);
    NonWhitespaceOfAppend(x, " " + j);
    NonWhitespaceOfAppend(" ", j);
  }

  /** A whitespace run between `p` and `q` adds nothing to the text of `s[start..]`. */
  lemma NonWhitespaceAcrossRun(s: string, start: nat, p: nat, q: nat)
    requires start <= p <= q <= |s|
    requires forall m :: p <= m < q ==> IsWhitespace(s[m])
    ensures NonWhitespace(s[start..]) == NonWhitespace(s[start..p]) + NonWhitespace(s[q..])
  {
    assert s[start..] == s[start..p] + s[p..];
    NonWhitespaceOfAppend(s[start..p], s[p..]);
    assert s[p..][q - p..] == s[q..];
    NonWhitespaceOfWhitespaceRun(s[p..], q - p);
  }

  /** The split loses no text: its pieces, joined, hold the characters of `s` other than whitespace. */
  lemma {:induction false} SplitFromCovers(s: string, start: nat, p: nat)
    requires start <= p <= |s|
    ensures NonWhitespace(Join(SplitFrom(s, start, p), " ")) == NonWhitespace(s[start..])
    decreases |s| - p
  {
    if p == |s| {
    } else if SplitPoint(s, p) {
      var q := SkipWhitespace(s, p);
      SkipWhitespaceShape(s, p);
      SplitFromCovers(s, q, q);
      var rest := SplitFrom(s, q, q);
      assert SplitFrom(s, start, p) == [s[start..p]] + rest;
      NonWhitespaceOfJoinStep(s[start..p], rest);
      NonWhitespaceAcrossRun(s, start, p, q);
    } else {
      SplitFromCovers(s, start, p + 1);
    }
  }

  /** In single-spaced text a whitespace character is one plain space. */
  lemma SingleSpaceAt(s: string, p: nat)
    requires SingleSpaced(s) && p < |s| && IsWhitespace(s[p])
    ensures s[p] == ' ' && SkipWhitespace(s, p) == p + 1
  {
    assert p + 1 < |s| ==> !IsWhitespace(s[p + 1]);
    assert SkipWhitespace(s, p + 1) == p + 1;
  }

  /** On single-spaced text the split is undone exactly by joining with a space. */
  lemma {:induction false} SplitFromSingleSpaced(s: string, start: nat, p: nat)
    requires start <= p <= |s| && SingleSpaced(s)
    ensures Join(SplitFrom(s, start, p), " ") == s[start..]
    decreases |s| - p
  {
    if p == |s| {
    } else if SplitPoint(s, p) {
      var q := SkipWhitespace(s, p);
      SingleSpaceAt(s, p);
      SplitFromSingleSpaced(s, q, q);
      var rest := SplitFrom(s, q, q);
      var pieces := [s[start..p]] + rest;
      assert SplitFrom(s, start, p) == pieces && pieces[1..] == rest;
      assert s[start..] == s[start..p] + [s[p]] + s[q..];
    } else {
      SplitFromSingleSpaced(s, start, p + 1);
    }
  }

  /** The characters of `s` other than whitespace and `.`, in order: the wording the clean-up keeps. */
  function Wording(s: string): string {
    if s == [] then []
    else (if IsWhitespace(s[0]) || s[0] == '.' then [] else [s[0]]) + Wording(s[1..])
  }

  lemma {:induction false} WordingOfAppend(a: string, b: string)
    ensures Wording(a + b) == Wording(a) + Wording(b)
  {
    if a == [] {
      assert a + b == b;
    } else {
      assert (a + b)[1..] == a[1..] + b;
      WordingOfAppend(a[1..], b);
    }
  }

  /** Whitespace and dots carry no wording. */
  lemma {:induction false} WordingOfSkippable(s: string)
    requires forall m :: 0 <= m < |s| ==> IsWhitespace(s[m]) || s[m] == '.'
    ensures Wording(s) == []
  {
    if s != [] {
      WordingOfSkippable(s[1..]);
    }
  }

  lemma {:induction false} WordingOfNonWhitespace(s: string)
    ensures Wording(NonWhitespace(s)) == Wording(s)
  {
    if s != [] {
      WordingOfNonWhitespace(s[1..]);
      var h := if IsWhitespace(s[0]) then [] else [s[0]];
      WordingOfAppend(h, NonWhitespace(s[1..]));
    }
  }

  /** The whitespace collapse keeps the wording. */
  lemma CollapseKeepsWording(s: string)
    ensures Wording(CollapseWhitespace(s)) == Wording(s)
  {
    CollapseKeepsText(s);
    WordingOfNonWhitespace(s);
    WordingOfNonWhitespace(CollapseWhitespace(s));
  }

  /** `trim()` keeps the wording: it removes whitespace only. */
  lemma TrimKeepsWording(s: string)
    ensures Wording(Trim(s)) == Wording(s)
  {
    var lo, hi := TrimLo(s), TrimHi(s);
    var a, b, c := s[..lo], s[lo..hi], s[hi..];
    assert Wording(a) == [] by {
      SkipWhitespaceShape(s, 0);
      WordingOfSkippable(a);
    }
    assert Wording(c) == [] by {
      TrailingStartShape(s, |s|);
      WordingOfSkippable(c);
    }
    assert s == (a + b) + c;
    WordingOfAppend(a + b, c);
    WordingOfAppend(a, b);
  }

  /** `/\.\s*\./` matches at `i`: a dot, a whitespace run, a dot. */
  predicate DotPairAt(s: string, i: nat) {
    i < |s| && s[i] == '.' && SkipWhitespace(s, i + 1) < |s| && s[SkipWhitespace(s, i + 1)] == '.'
  }

  /** `replace(/\.\s*\./g, '.')`: each such match becomes one dot; scanning resumes after it. */
  function CollapseDots(s: string): (r: string)
    ensures |r| <= |s|
    ensures |s| > 0 ==> |r| > 0 && r[0] == s[0]
    ensures OnlySpaces(s) ==> OnlySpaces(r)
    ensures NoDoubleBrace(s) ==> NoDoubleBrace(r)
    decreases |s|
  {
    if s == [] then []
    else if DotPairAt(s, 0) then
      var q := SkipWhitespace(s, 1);
      var rest := CollapseDots(s[q + 1..]);
      assert OnlySpaces(s) ==> OnlySpaces(s[q + 1..]) by {
        if OnlySpaces(s) { SliceOnlySpaces(s, q + 1, |s|); }
      }
      assert NoDoubleBrace(s) ==> NoDoubleBrace(s[q + 1..]) by {
        if NoDoubleBrace(s) { SliceNoDoubleBrace(s, q + 1, |s|); }
      }
      "." + rest
    else
      var rest := CollapseDots(s[1..]);
      assert OnlySpaces(s) ==> OnlySpaces(s[1..]) by {
        if OnlySpaces(s) { SliceOnlySpaces(s, 1, |s|); }
      }
      assert NoDoubleBrace(s) ==> NoDoubleBrace(s[1..]) by {
        if NoDoubleBrace(s) { SliceNoDoubleBrace(s, 1, |s|); }
      }
      [s[0]] + rest
  }

  /** The dot collapse keeps the wording: it removes only dots and the whitespace between them. */
  lemma {:induction false} CollapseDotsKeepsWording(s: string)
    ensures Wording(CollapseDots(s)) == Wording(s)
    decreases |s|
  {
    if s != [] {
      if DotPairAt(s, 0) {
        var q := SkipWhitespace(s, 1);
        SkipWhitespaceShape(s, 1);
        CollapseDotsKeepsWording(s[q + 1..]);
        WordingOfSkippedPrefix(s, q + 1);
        WordingOfDotThen(CollapseDots(s[q + 1..]));
      } else {
        CollapseDotsKeepsWording(s[1..]);
        WordingOfCons(s);
        WordingOfCons([s[0]] + CollapseDots(s[1..]));
        assert ([s[0]] + CollapseDots(s[1..]))[1..] == CollapseDots(s[1..]);
      }
    }
  }

  lemma WordingOfCons(s: string)
    requires s != []
    ensures Wording(s) == (if IsWhitespace(s[0]) || s[0] == '.' then [] else [s[0]]) + Wording(s[1..])
  {
  }

  lemma WordingOfDotThen(x: string)
    ensures Wording("." + x) == Wording(x)
  {
    assert ("." + x)[1..] == x;
  }

  /** A prefix of whitespace and dots adds no wording. */
  lemma WordingOfSkippedPrefix(s: string, q: nat)
    requires q <= |s| && forall m :: 0 <= m < q ==> IsWhitespace(s[m]) || s[m] == '.'
    ensures Wording(s) == Wording(s[q..])
  {
    assert s == s[..q] + s[q..];
    WordingOfAppend(s[..q], s[q..]);
    WordingOfSkippable(s[..q]);
  }

  predicate HasDotPair(s: string) {
    exists i :: 0 <= i < |s| && DotPairAt(s, i)
  }

  /** The dot collapse changes the text exactly when a dot, optional whitespace and a dot occur. */
  lemma {:induction false} CollapseDotsChanges(s: string)
    ensures CollapseDots(s) == s <==> !HasDotPair(s)
    decreases |s|
  {
    if s != [] {
      if DotPairAt(s, 0) {
        var q := SkipWhitespace(s, 1);
        assert |CollapseDots(s)| < |s| by {
          assert |CollapseDots(s[q + 1..])| <= |s[q + 1..]|;
        }
      } else {
        CollapseDotsChanges(s[1..]);
        HasDotPairShift(s);
        assert CollapseDots(s) == [s[0]] + CollapseDots(s[1..]);
      }
    }
  }

  /** Without a match at the start, the matches of `s` are those of `s[1..]`, shifted by one. */
  lemma HasDotPairShift(s: string)
    requires s != [] && !DotPairAt(s, 0)
    ensures HasDotPair(s) <==> HasDotPair(s[1..])
  {
    if HasDotPair(s) {
      var i :| 0 <= i < |s| && DotPairAt(s, i);
      DotPairShift(s, i);
    }
    if HasDotPair(s[1..]) {
      var i :| 0 <= i < |s[1..]| && DotPairAt(s[1..], i);
      DotPairShift(s, i + 1);
    }
  }

  lemma DotPairShift(s: string, i: nat)
    requires 1 <= i < |s|
    ensures DotPairAt(s, i) <==> DotPairAt(s[1..], i - 1)
  {
    SkipWhitespaceShift(s, i + 1);
  }

  lemma {:induction false} SkipWhitespaceShift(s: string, k: nat)
    requires 1 <= k <= |s|
    ensures SkipWhitespace(s, k) == SkipWhitespace(s[1..], k - 1) + 1
    decreases |s| - k
  {
    if k < |s| && IsWhitespace(s[k]) {
      assert s[1..][k - 1] == s[k];
      SkipWhitespaceShift(s, k + 1);
    }
  }

  /** JavaScript's dot collapse leaves two of three consecutive dots. */
  lemma EllipsisKeepsTwoDots()
    ensures CollapseDots("...") == ".."
  {
    assert DotPairAt("...", 0);
    assert "..."[2..] == ".";
    assert !DotPairAt(".", 0);
  }
}
