/**
 * The narrative template engine (src/lib/docx/narrativeTemplateEngine.js):
 * `fillTemplate` substitutes `{{name}}` placeholders through the resolver,
 * answers the sentinel when nothing resolved, and otherwise drops every
 * sentence still holding a placeholder and normalises the text;
 * `substituteDataIntoTemplate` fills every section of a template.
 */
module TemplateEngine {
  import opened Results
  import opened Text
  import opened JsValues
  import opened TextCleanup
  import opened FieldResolver

  const Sentinel := "Information not provided."

  // ----- The placeholder scan of /\{\{([^}]+)\}\}/g -----

  /** The first `}` at or after `k`, or `|s|`. */
  function CloseAt(s: string, k: nat): (j: nat)
    requires k <= |s|
    ensures k <= j <= |s|
    ensures forall m :: k <= m < j ==> s[m] != '}'
    ensures j < |s| ==> s[j] == '}'
    decreases |s| - k
  {
    if k == |s| || s[k] == '}' then k else CloseAt(s, k + 1)
  }

  /**
   * The placeholder pattern matches at `i`: two opening braces, a non-empty
   * run of characters other than `}` (greedy, so up to the first `}`), then
   * two closing braces.
   */
  predicate PlaceholderAt(s: string, i: nat) {
    i + 1 < |s| && s[i] == '{' && s[i + 1] == '{'
    && var j := CloseAt(s, i + 2); j > i + 2 && j + 1 < |s| && s[j + 1] == '}'
  }

  /** The captured name of the placeholder at `i`. */
  function NameAt(s: string, i: nat): string
    requires PlaceholderAt(s, i)
  {
    s[i + 2..CloseAt(s, i + 2)]
  }

  /** One past the placeholder at `i`. */
  function EndAt(s: string, i: nat): (e: nat)
    requires PlaceholderAt(s, i)
    ensures i + 4 <= e <= |s|
  {
    CloseAt(s, i + 2) + 2
  }

  /** The text after substitution and whether any placeholder took a value (`hasAnyData`). */
  datatype Filled = Filled(text: string, any: bool)

  /**
   * `template.replace(placeholderRegex, callback)` from position `i` on: a
   * placeholder whose value counts as data is replaced by `String(value)`,
   * any other placeholder is kept. The first resolver error is thrown.
   */
  function ReplaceFrom(s: string, i: nat, data: Data, env: Env): Result<Filled>
    requires i <= |s|
    decreases |s| - i
  {
    if i == |s| then Ok(Filled("", false))
    else if PlaceholderAt(s, i) then
      var value :- GetFieldValue(NameAt(s, i), data, env);
      var rest :- ReplaceFrom(s, EndAt(s, i), data, env);
      if CountsAsData(value) then Ok(Filled(ToJsString(value) + rest.text, true))
      else Ok(Filled(s[i..EndAt(s, i)] + rest.text, rest.any))
    else
      var rest :- ReplaceFrom(s, i + 1, data, env);
      Ok(Filled([s[i]] + rest.text, rest.any))
  }

  /** A completed prefix in front of what is still to be scanned. */
  function Prepend(prefix: string, any: bool, r: Result<Filled>): Result<Filled> {
    if r.Err? then r else Ok(Filled(prefix + r.value.text, any || r.value.any))
  }

  lemma PrependNothing(r: Result<Filled>)
    ensures Prepend("", false, r) == r
  {
    if r.Ok? {
      assert "" + r.value.text == r.value.text;
    }
  }

  lemma PrependTwice(a: string, x: bool, b: string, y: bool, r: Result<Filled>)
    ensures Prepend(a, x, Prepend(b, y, r)) == Prepend(a + b, x || y, r)
  {
    if r.Ok? {
      assert a + (b + r.value.text) == (a + b) + r.value.text;
    }
  }

  /** `j` is the start of a placeholder the scan from `i` matches. */
  predicate Scanned(s: string, i: nat, j: nat)
    requires i <= |s|
    decreases |s| - i
  {
    i < |s|
    && if PlaceholderAt(s, i) then j == i || Scanned(s, EndAt(s, i), j) else Scanned(s, i + 1, j)
  }

  /** The value the resolver gives the placeholder at `j`; `null` where there is none or it throws. */
  function ValueAt(s: string, j: nat, data: Data, env: Env): Value {
    if !PlaceholderAt(s, j) then Null
    else
      var v := GetFieldValue(NameAt(s, j), data, env);
      if v.Ok? then v.value else Null
  }

  lemma {:induction false} ScannedIsPlaceholder(s: string, i: nat, j: nat)
    requires i <= |s| && Scanned(s, i, j)
    ensures i <= j && PlaceholderAt(s, j)
    decreases |s| - i
  {
    if PlaceholderAt(s, i) {
      if j != i {
        ScannedIsPlaceholder(s, EndAt(s, i), j);
      }
    } else {
      ScannedIsPlaceholder(s, i + 1, j);
    }
  }

  /** When no placeholder took a value, the substituted text is the template unchanged. */
  lemma {:induction false} UnfilledKeepsText(s: string, i: nat, data: Data, env: Env)
    requires i <= |s|
    requires ReplaceFrom(s, i, data, env).Ok? && !ReplaceFrom(s, i, data, env).value.any
    ensures ReplaceFrom(s, i, data, env).value.text == s[i..]
    decreases |s| - i
  {
    if i < |s| {
      if PlaceholderAt(s, i) {
        var e := EndAt(s, i);
        UnfilledKeepsText(s, e, data, env);
        assert s[i..] == s[i..e] + s[e..];
      } else {
        UnfilledKeepsText(s, i + 1, data, env);
        assert s[i..] == [s[i]] + s[i + 1..];
      }
    }
  }

  /**
   * `hasAnyData` is set exactly when some matched placeholder resolves to a
   * value other than null, undefined, '' and 'no children'.
   */
  lemma {:induction false} AnyDataMeaning(s: string, i: nat, data: Data, env: Env)
    requires i <= |s|
    requires ReplaceFrom(s, i, data, env).Ok?
    ensures ReplaceFrom(s, i, data, env).value.any <==>
      exists j :: Scanned(s, i, j) && CountsAsData(ValueAt(s, j, data, env))
    decreases |s| - i
  {
    if i < |s| {
      if PlaceholderAt(s, i) {
        var e := EndAt(s, i);
        AnyDataMeaning(s, e, data, env);
        assert Scanned(s, i, i);
        forall j | Scanned(s, i, j) && j != i ensures Scanned(s, e, j) { }
        forall j | Scanned(s, e, j) ensures Scanned(s, i, j) { }
      } else {
        AnyDataMeaning(s, i + 1, data, env);
        forall j | Scanned(s, i, j) ensures Scanned(s, i + 1, j) { }
        forall j | Scanned(s, i + 1, j) ensures Scanned(s, i, j) { }
      }
    }
  }

  /** A template in which no placeholder pattern matches is left unchanged and takes no data. */
  lemma {:induction false} NoPlaceholderNoData(s: string, i: nat, data: Data, env: Env)
    requires i <= |s|
    requires forall k :: i <= k < |s| ==> !PlaceholderAt(s, k)
    ensures ReplaceFrom(s, i, data, env) == Ok(Filled(s[i..], false))
    decreases |s| - i
  {
    if i < |s| {
      NoPlaceholderNoData(s, i + 1, data, env);
      assert s[i..] == [s[i]] + s[i + 1..];
    }
  }

  /** A stretch in which no placeholder starts is copied as it is. */
  lemma {:induction false} PlainStretch(s: string, i: nat, j: nat, data: Data, env: Env)
    requires i <= j <= |s|
    requires forall k :: i <= k < j ==> !PlaceholderAt(s, k)
    ensures ReplaceFrom(s, i, data, env) == Prepend(s[i..j], false, ReplaceFrom(s, j, data, env))
    decreases j - i
  {
    if i == j {
      PrependNothing(ReplaceFrom(s, j, data, env));
    } else {
      PlainStretch(s, i + 1, j, data, env);
      PrependTwice([s[i]], false, s[i + 1..j], false, ReplaceFrom(s, j, data, env));
      assert [s[i]] + s[i + 1..j] == s[i..j];
    }
  }

  /** The scan for the closing brace does not look behind its start. */
  lemma {:induction false} CloseAtShift(x: string, y: string, m: nat)
    requires m <= |y|
    ensures CloseAt(x + y, |x| + m) == |x| + CloseAt(y, m)
    decreases |y| - m
  {
    if m < |y| {
      assert (x + y)[|x| + m] == y[m];
      if y[m] != '}' {
        CloseAtShift(x, y, m + 1);
      }
    }
  }

  /** Whether a placeholder starts at a position depends only on the text from there on. */
  lemma PlaceholderShift(x: string, y: string, m: nat)
    requires m <= |y|
    ensures PlaceholderAt(x + y, |x| + m) <==> PlaceholderAt(y, m)
  {
    if m + 2 <= |y| {
      CloseAtShift(x, y, m + 2);
    }
  }

  /** The placeholder `{{n}}`. */
  function Braced(n: string): string {
    "{{" + n + "}}"
  }

  /** A name `[^}]+` captures whole. */
  predicate PlaceholderName(n: string) {
    n != [] && forall k :: 0 <= k < |n| ==> n[k] != '}'
  }

  /** Text in which no placeholder can start, even with a placeholder right after it. */
  predicate PlainPrefix(a: string) {
    NoDoubleBrace(a) && (a == [] || a[|a| - 1] != '{')
  }

  /** Text in which the placeholder pattern never matches. */
  predicate NoPlaceholder(b: string) {
    forall k :: 0 <= k < |b| ==> !PlaceholderAt(b, k)
  }

  /**
   * Where the pattern matches in `a{{n}}b`: at the start of `{{n}}`, capturing
   * `n`, and nowhere in `a` or in `b`.
   */
  lemma BracedLayout(a: string, n: string, b: string)
    requires PlainPrefix(a) && PlaceholderName(n) && NoPlaceholder(b)
    ensures var s := a + Braced(n) + b; var p := |a|; var e := p + |n| + 4;
      PlaceholderAt(s, p) && NameAt(s, p) == n && EndAt(s, p) == e
      && (forall k :: 0 <= k < p ==> !PlaceholderAt(s, k))
      && (forall k :: e <= k < |s| ==> !PlaceholderAt(s, k))
      && s[e..] == b && s[p..e] == Braced(n) && s[..p] == a
  {
    var s := a + Braced(n) + b;
    var p := |a|;
    var e := p + |n| + 4;
    assert s[e..] == b && s[p..e] == Braced(n) && s[..p] == a;
    BracedAt(s, p, n);
    PlainBefore(s, p);
    NoPlaceholderAfter(s, e);
  }

  /** A `{{n}}` written at `p` is matched there, capturing `n`. */
  lemma BracedAt(s: string, p: nat, n: string)
    requires PlaceholderName(n) && p + |n| + 4 <= |s| && s[p..p + |n| + 4] == Braced(n)
    ensures PlaceholderAt(s, p) && NameAt(s, p) == n && EndAt(s, p) == p + |n| + 4
  {
    assert s[p] == s[p..p + |n| + 4][0];
    assert s[p + 1] == s[p..p + |n| + 4][1];
    assert s[p + 2 + |n|] == s[p..p + |n| + 4][|n| + 2];
    assert s[p + 3 + |n|] == s[p..p + |n| + 4][|n| + 3];
    forall m | p + 2 <= m < p + 2 + |n| ensures s[m] != '}' {
      assert s[m] == s[p..p + |n| + 4][m - p] == n[m - p - 2];
    }
    var j := CloseAt(s, p + 2);
    assert j == p + 2 + |n|;
    forall m | 0 <= m < |n| ensures s[p + 2..j][m] == n[m] {
      assert s[p + 2..j][m] == s[p..p + |n| + 4][m + 2] == Braced(n)[m + 2];
    }
    assert s[p + 2..j] == n;
  }

  /** No placeholder starts before `p` when the text up to `p` is a plain prefix and `{` follows it. */
  lemma PlainBefore(s: string, p: nat)
    requires p < |s| && s[p] == '{' && PlainPrefix(s[..p])
    ensures forall k :: 0 <= k < p ==> !PlaceholderAt(s, k)
  {
    forall k | 0 <= k < p ensures !PlaceholderAt(s, k) {
      if k + 1 < p {
        assert s[k] == s[..p][k] && s[k + 1] == s[..p][k + 1];
      } else {
        assert s[k] == s[..p][p - 1];
      }
    }
  }

  /** No placeholder starts at or after `e` when the rest of the text has none. */
  lemma NoPlaceholderAfter(s: string, e: nat)
    requires e <= |s| && NoPlaceholder(s[e..])
    ensures forall k :: e <= k < |s| ==> !PlaceholderAt(s, k)
  {
    assert s == s[..e] + s[e..];
    forall k | e <= k < |s| ensures !PlaceholderAt(s, k) {
      PlaceholderShift(s[..e], s[e..], k - e);
    }
  }

  /**
   * Substitution of one placeholder: in `a{{n}}b` the placeholder is replaced
   * by `String(value)` when its value counts as data and kept otherwise, the
   * text around it is copied, and a resolver error is thrown as it is.
   */
  lemma SubstituteOne(a: string, n: string, b: string, data: Data, env: Env)
    requires PlainPrefix(a) && PlaceholderName(n) && NoPlaceholder(b)
    ensures var v := GetFieldValue(n, data, env);
      ReplaceFrom(a + Braced(n) + b, 0, data, env) ==
        if v.Err? then Err(v.error)
        else if CountsAsData(v.value) then Ok(Filled(a + ToJsString(v.value) + b, true))
        else Ok(Filled(a + Braced(n) + b, false))
  {
    var s := a + Braced(n) + b;
    BracedLayout(a, n, b);
    OnlyPlaceholderAt(s, |a|, data, env);
    StepBetween(a, Braced(n), b, GetFieldValue(n, data, env));
  }

  /** The replace over a text whose only placeholder starts at `p`. */
  lemma OnlyPlaceholderAt(s: string, p: nat, data: Data, env: Env)
    requires p <= |s| && PlaceholderAt(s, p)
    requires forall k :: 0 <= k < p ==> !PlaceholderAt(s, k)
    requires forall k :: EndAt(s, p) <= k < |s| ==> !PlaceholderAt(s, k)
    ensures ReplaceFrom(s, 0, data, env) ==
      Prepend(s[..p], false,
        ReplaceStep(GetFieldValue(NameAt(s, p), data, env), s[p..EndAt(s, p)], Ok(Filled(s[EndAt(s, p)..], false))))
  {
    PlainStretch(s, 0, p, data, env);
    assert s[0..p] == s[..p];
    NoPlaceholderNoData(s, EndAt(s, p), data, env);
    ReplaceAtPlaceholder(s, p, data, env);
  }

  /** A replace step between a copied prefix and a suffix without placeholders. */
  lemma StepBetween(a: string, original: string, b: string, v: Result<Value>)
    ensures Prepend(a, false, ReplaceStep(v, original, Ok(Filled(b, false)))) ==
      if v.Err? then Err(v.error)
      else if CountsAsData(v.value) then Ok(Filled(a + ToJsString(v.value) + b, true))
      else Ok(Filled(a + original + b, false))
  {
    if v.Ok? {
      assert a + (ToJsString(v.value) + b) == a + ToJsString(v.value) + b;
      assert a + (original + b) == a + original + b;
    }
  }

  /** One step of the replace at a placeholder, with the resolver's answer `v` and the rest `rest`. */
  function ReplaceStep(v: Result<Value>, original: string, rest: Result<Filled>): Result<Filled> {
    if v.Err? then Err(v.error)
    else if rest.Err? then rest
    else if CountsAsData(v.value) then Ok(Filled(ToJsString(v.value) + rest.value.text, true))
    else Ok(Filled(original + rest.value.text, rest.value.any))
  }

  lemma ReplaceAtPlaceholder(s: string, i: nat, data: Data, env: Env)
    requires i <= |s| && PlaceholderAt(s, i)
    ensures ReplaceFrom(s, i, data, env) ==
      ReplaceStep(GetFieldValue(NameAt(s, i), data, env), s[i..EndAt(s, i)], ReplaceFrom(s, EndAt(s, i), data, env))
  {
  }

  // ----- The clean-up after substitution -----

  /** Drop every sentence that still holds `{{`. */
  function KeepComplete(pieces: seq<string>): (kept: seq<string>)
    ensures forall k :: 0 <= k < |kept| ==> NoDoubleBrace(kept[k])
    ensures forall p :: p in kept ==> p in pieces
  {
    if pieces == [] then []
    else (if HasDoubleBrace(pieces[0]) then [] else [pieces[0]]) + KeepComplete(pieces[1..])
  }

  /** A sentence is kept exactly when it is one of the pieces and holds no `{{`. */
  lemma {:induction false} KeepCompleteMeaning(pieces: seq<string>)
    ensures forall p :: p in KeepComplete(pieces) <==> p in pieces && NoDoubleBrace(p)
  {
    if pieces != [] {
      KeepCompleteMeaning(pieces[1..]);
      assert pieces == [pieces[0]] + pieces[1..];
    }
  }

  /** The filter keeps the sentences in their order: it distributes over concatenation. */
  lemma {:induction false} KeepCompleteOfAppend(a: seq<string>, b: seq<string>)
    ensures KeepComplete(a + b) == KeepComplete(a) + KeepComplete(b)
  {
    if a == [] {
      assert a + b == b;
    } else {
      assert (a + b)[1..] == a[1..] + b;
      KeepCompleteOfAppend(a[1..], b);
    }
  }

  /** The sentence split of text without `{{` yields pieces without `{{`. */
  lemma {:induction false} SplitKeepsNoDoubleBrace(s: string, start: nat, p: nat)
    requires start <= p <= |s| && NoDoubleBrace(s)
    ensures forall k :: 0 <= k < |SplitFrom(s, start, p)| ==> NoDoubleBrace(SplitFrom(s, start, p)[k])
    decreases |s| - p
  {
    if p == |s| {
      SliceNoDoubleBrace(s, start, |s|);
      assert s[start..] == s[start..|s|];
    } else if SplitPoint(s, p) {
      var q := SkipWhitespace(s, p);
      SkipWhitespaceShape(s, p);
      SplitKeepsNoDoubleBrace(s, q, q);
      SliceNoDoubleBrace(s, start, p);
      var rest := SplitFrom(s, q, q);
      assert SplitFrom(s, start, p) == [s[start..p]] + rest;
    } else {
      SplitKeepsNoDoubleBrace(s, start, p + 1);
    }
  }

  /** With every placeholder filled, no sentence is dropped: the pruned text is the whole text, re-joined. */
  lemma CompleteTextKeepsEverySentence(filled: string)
    requires NoDoubleBrace(filled)
    ensures Prune(filled) == Trim(Join(SplitSentences(filled), " "))
  {
    var pieces := SplitSentences(filled);
    SplitKeepsNoDoubleBrace(filled, 0, 0);
    AllCompleteKept(pieces);
  }

  /** A list of sentences without `{{` passes the filter unchanged. */
  lemma {:induction false} AllCompleteKept(pieces: seq<string>)
    requires forall k :: 0 <= k < |pieces| ==> NoDoubleBrace(pieces[k])
    ensures KeepComplete(pieces) == pieces
  {
    if pieces != [] {
      AllCompleteKept(pieces[1..]);
      assert !HasDoubleBrace(pieces[0]);
    }
  }

  /** `cleanedSentences.join(' ').trim()`. */
  function Prune(filled: string): string {
    Trim(Join(KeepComplete(SplitSentences(filled)), " "))
  }

  /** `replace(/\s+/g, ' ').trim()`, then `replace(/\.\s*\./g, '.').trim()`. */
  function Polish(p: string): string {
    Trim(CollapseDots(Trim(CollapseWhitespace(p))))
  }

  /** What `fillTemplate` makes of the substituted text once some placeholder took a value. */
  function Finish(filled: string): string {
    var p := Prune(filled);
    if p == "" || p == "." then Sentinel else Polish(p)
  }

  /** `fillTemplate(template, data)`; a template that is not a string has no `replace`. */
  function FillSpec(template: Value, data: Data, env: Env): Result<string> {
    if !template.Str? then Err("TypeError: template.replace is not a function")
    else
      var f :- ReplaceFrom(template.s, 0, data, env);
      Ok(if f.any then Finish(f.text) else Sentinel)
  }

  // Facts about slices and joins used below.

  lemma {:induction false} JoinNoDoubleBrace(parts: seq<string>)
    requires forall k :: 0 <= k < |parts| ==> NoDoubleBrace(parts[k])
    ensures NoDoubleBrace(Join(parts, " "))
  {
    if |parts| > 1 {
      JoinNoDoubleBrace(parts[1..]);
      var a := parts[0];
      var b := Join(parts[1..], " ");
      var j := a + " " + b;
      forall k | 0 <= k < |j| - 1 ensures !(j[k] == '{' && j[k + 1] == '{') {
        if k + 1 < |a| {
          assert j[k] == a[k] && j[k + 1] == a[k + 1];
        } else if k >= |a| + 1 {
          assert j[k] == b[k - |a| - 1] && j[k + 1] == b[k - |a|];
        } else if k == |a| {
          assert j[k] == ' ';
        } else {
          assert j[k + 1] == ' ';
        }
      }
    }
  }

  /** The pruned text holds no `{{` and is trimmed. */
  lemma PruneShape(filled: string)
    ensures NoDoubleBrace(Prune(filled)) && Trimmed(Prune(filled))
  {
    var kept := KeepComplete(SplitSentences(filled));
    JoinNoDoubleBrace(kept);
    var joined := Join(kept, " ");
    SliceNoDoubleBrace(joined, TrimLo(joined), TrimHi(joined));
    TrimShape(joined);
  }

  /**
   * Polishing a non-empty trimmed text keeps it non-empty, trimmed and free
   * of `{{`, with spaces only, and keeps its wording.
   */
  lemma PolishShape(p: string)
    requires p != "" && Trimmed(p) && NoDoubleBrace(p)
    ensures var r := Polish(p); r != "" && Trimmed(r) && NoDoubleBrace(r) && OnlySpaces(r)
    ensures Wording(Polish(p)) == Wording(p)
  {
    CollapseKeepsWording(p);
    TrimKeepsWording(CollapseWhitespace(p));
    CollapseDotsKeepsWording(Trim(CollapseWhitespace(p)));
    TrimKeepsWording(CollapseDots(Trim(CollapseWhitespace(p))));
    var c := CollapseWhitespace(p);
    SliceNoDoubleBrace(c, TrimLo(c), TrimHi(c));
    SliceOnlySpaces(c, TrimLo(c), TrimHi(c));
    var t := Trim(c);
    TrimShape(c);
    assert t != [] && t[0] == p[0];
    var d := CollapseDots(t);
    SliceNoDoubleBrace(d, TrimLo(d), TrimHi(d));
    SliceOnlySpaces(d, TrimLo(d), TrimHi(d));
    TrimShape(d);
  }

  /**
   * A finished text is never empty, has no leading or trailing whitespace,
   * holds no `{{`, and its only whitespace characters are plain spaces; unless
   * it is the sentinel, it keeps the wording of the sentences kept.
   */
  lemma FinishShape(filled: string)
    ensures var r := Finish(filled);
      r != "" && Trimmed(r) && NoDoubleBrace(r) && OnlySpaces(r)
    ensures var p := Prune(filled);
      p != "" && p != "." ==> Wording(Finish(filled)) == Wording(Join(KeepComplete(SplitSentences(filled)), " "))
  {
    TrimKeepsWording(Join(KeepComplete(SplitSentences(filled)), " "));
    PruneShape(filled);
    var p := Prune(filled);
    if p != "" && p != "." {
      PolishShape(p);
    } else {
      SentinelShape();
    }
  }

  lemma SentinelShape()
    ensures Sentinel != "" && Trimmed(Sentinel) && NoDoubleBrace(Sentinel) && OnlySpaces(Sentinel)
  {
    var s := Sentinel;
    forall k | 0 <= k < |s| ensures s[k] != '{' && (IsWhitespace(s[k]) ==> s[k] == ' ') {
      if k < 11 {
        assert s[k] == "Information"[k];
      } else if k == 11 || k == 15 {
        assert s[k] == ' ';
      } else if k < 15 {
        assert s[k] == "not"[k - 12];
      } else {
        assert s[k] == "provided."[k - 16];
      }
    }
  }

  /**
   * Every text `fillTemplate` returns is the sentinel or a finished text: not
   * empty, trimmed, free of `{{` and of every whitespace character but the
   * space (so it holds no newline); it is the sentinel whenever no
   * placeholder took a value.
   */
  lemma FillShape(template: Value, data: Data, env: Env)
    requires FillSpec(template, data, env).Ok?
    ensures var r := FillSpec(template, data, env).value;
      r != "" && Trimmed(r) && NoDoubleBrace(r) && OnlySpaces(r) && NoNewline(r)
    ensures !ReplaceFrom(template.s, 0, data, env).value.any ==> FillSpec(template, data, env) == Ok(Sentinel)
  {
    var f := ReplaceFrom(template.s, 0, data, env).value;
    if f.any {
      FinishShape(f.text);
    }
    OnlySpacesNoNewline(FillSpec(template, data, env).value);
  }

  /** A template without placeholders, including the empty one, fills to the sentinel. */
  lemma NoPlaceholderIsSentinel(s: string, data: Data, env: Env)
    requires forall k :: 0 <= k < |s| ==> !PlaceholderAt(s, k)
    ensures FillSpec(Str(s), data, env) == Ok(Sentinel)
  {
    NoPlaceholderNoData(s, 0, data, env);
  }

  /**
   * Text the clean-up has nothing to do to: no `{{`, single spaces only, no
   * dot pair, trimmed, and neither empty nor a lone dot.
   */
  predicate CleanText(t: string) {
    NoDoubleBrace(t) && SingleSpaced(t) && !HasDotPair(t) && Trimmed(t) && t != "" && t != "."
  }

  /** The clean-up returns clean text unchanged. */
  lemma FinishOfClean(t: string)
    requires CleanText(t)
    ensures Finish(t) == t
  {
    CompleteTextKeepsEverySentence(t);
    SplitSentencesShape(t);
    TrimOfTrimmed(t);
    assert Prune(t) == t;
    CollapseSingleSpaced(t);
    CollapseDotsChanges(t);
  }

  /** With no placeholder left over, pruning drops no wording. */
  lemma PruneKeepsWording(filled: string)
    requires NoDoubleBrace(filled)
    ensures Wording(Prune(filled)) == Wording(filled)
  {
    var joined := Join(SplitSentences(filled), " ");
    CompleteTextKeepsEverySentence(filled);
    SplitSentencesShape(filled);
    WordingOfNonWhitespace(joined);
    WordingOfNonWhitespace(filled);
    TrimKeepsWording(joined);
  }

  /**
   * When every placeholder was filled and the text has wording, the clean-up
   * keeps all of it: the result holds every character other than whitespace
   * and dots of the substituted text, in order.
   */
  lemma CompleteTextKeepsWording(filled: string)
    requires NoDoubleBrace(filled) && Wording(filled) != []
    ensures Wording(Finish(filled)) == Wording(filled)
  {
    var p := Prune(filled);
    PruneKeepsWording(filled);
    PruneShape(filled);
    assert p != "" && p != ".";
    PolishShape(p);
  }

  /**
   * `fillTemplate` keeps the wording of a fully substituted text: once some
   * placeholder took a value and none is left over, the result holds exactly
   * the characters other than whitespace and dots of the substituted text.
   */
  lemma CompleteFillKeepsWording(template: string, data: Data, env: Env)
    requires ReplaceFrom(template, 0, data, env).Ok?
    requires var f := ReplaceFrom(template, 0, data, env).value;
      f.any && NoDoubleBrace(f.text) && Wording(f.text) != []
    ensures FillSpec(Str(template), data, env).Ok?
    ensures Wording(FillSpec(Str(template), data, env).value) == Wording(ReplaceFrom(template, 0, data, env).value.text)
  {
    CompleteTextKeepsWording(ReplaceFrom(template, 0, data, env).value.text);
  }

  /**
   * `fillTemplate` of a template `a{{n}}b` with one placeholder: the sentinel
   * when the value does not count as data; otherwise the wording of
   * `a + String(value) + b`, and exactly that text when it is already clean.
   */
  lemma FillOnePlaceholder(a: string, n: string, b: string, data: Data, env: Env)
    requires PlainPrefix(a) && PlaceholderName(n) && NoPlaceholder(b)
    requires GetFieldValue(n, data, env).Ok?
    ensures var v := GetFieldValue(n, data, env).value;
      !CountsAsData(v) ==> FillSpec(Str(a + Braced(n) + b), data, env) == Ok(Sentinel)
    ensures var v := GetFieldValue(n, data, env).value; var t := a + ToJsString(v) + b;
      CountsAsData(v) && NoDoubleBrace(t) && Wording(t) != [] ==>
        FillSpec(Str(a + Braced(n) + b), data, env).Ok?
        && Wording(FillSpec(Str(a + Braced(n) + b), data, env).value) == Wording(t)
    ensures var v := GetFieldValue(n, data, env).value; var t := a + ToJsString(v) + b;
      CountsAsData(v) && CleanText(t) ==> FillSpec(Str(a + Braced(n) + b), data, env) == Ok(t)
  {
    SubstituteOne(a, n, b, data, env);
    var v := GetFieldValue(n, data, env).value;
    var t := a + ToJsString(v) + b;
    if CountsAsData(v) {
      if NoDoubleBrace(t) && Wording(t) != [] {
        CompleteFillKeepsWording(a + Braced(n) + b, data, env);
      }
      if CleanText(t) {
        FinishOfClean(t);
      }
    }
  }

  // ----- A sentence with a filled and an unfilled placeholder -----

  const PairTemplate := "{{a}}{{b}}"
  const PairData: Data := map["a" := Str("x")]

  /** Where the two placeholders of `PairTemplate` start, end and what they name. */
  lemma PairScan()
    ensures PlaceholderAt(PairTemplate, 0) && NameAt(PairTemplate, 0) == "a" && EndAt(PairTemplate, 0) == 5
    ensures PlaceholderAt(PairTemplate, 5) && NameAt(PairTemplate, 5) == "b" && EndAt(PairTemplate, 5) == 10
    ensures PairTemplate[0..5] == "{{a}}" && PairTemplate[5..10] == "{{b}}"
  {
    var t := PairTemplate;
    assert CloseAt(t, 2) == 3 && CloseAt(t, 7) == 8;
  }

  /** `a` resolves to its answer and `b`, unanswered, to `undefined`. */
  lemma PairResolve(env: Env)
    ensures GetFieldValue("a", PairData, env) == Ok(Str("x"))
    ensures GetFieldValue("b", PairData, env) == Ok(Undefined)
  {
    assert !DateName("a") && !StartsWith("a", "panel.");
    assert !DateName("b") && !StartsWith("b", "panel.");
  }

  /** The one-sentence text `x{{b}}` is dropped whole by the clean-up. */
  lemma PairFinish()
    ensures Finish("x{{b}}") == Sentinel
  {
    var f := "x{{b}}";
    NoSplitPointIsWhole(f, 0, 0);
    assert f[0..] == f;
    assert HasDoubleBrace(f) by { assert f[1] == '{' && f[2] == '{'; }
    assert KeepComplete(SplitSentences(f)) == [];
    assert Trim("") == "";
  }

  /**
   * The fallback is not only the no-data case: one sentence holding a filled
   * and an unfilled placeholder takes data and is still dropped whole, so
   * `{{a}}{{b}}` with only `a` answered fills to the sentinel.
   */
  lemma UnfilledNeighbourSilencesSentence(env: Env)
    ensures ReplaceFrom(PairTemplate, 0, PairData, env) == Ok(Filled("x{{b}}", true))
    ensures FillSpec(Str(PairTemplate), PairData, env) == Ok(Sentinel)
  {
    var t := PairTemplate;
    PairScan();
    PairResolve(env);
    var tail := ReplaceFrom(t, 10, PairData, env);
    assert tail == Ok(Filled("", false));
    assert !CountsAsData(Undefined) && CountsAsData(Str("x"));
    assert |t| == 10;
    assert t[5..EndAt(t, 5)] + "" == "{{b}}";
    var second := ReplaceFrom(t, 5, PairData, env);
    assert second == Ok(Filled("{{b}}", false));
    assert ReplaceFrom(t, 0, PairData, env) == Ok(Filled("x" + "{{b}}", true));
    assert "x" + "{{b}}" == "x{{b}}";
    PairFinish();
  }

  // ----- A sentence with its one placeholder filled -----

  const HelloTemplate := "Hello {{name}}."
  const HelloData: Data := map["name" := Str("Bob")]

  /** `name` is a plain lookup. */
  lemma HelloResolve(env: Env)
    ensures GetFieldValue("name", HelloData, env) == Ok(Str("Bob"))
  {
    var name := "name";
    FirstCharAbsent(name, "DOB");
    FirstCharAbsent(name, "Date");
    assert !StartsWith(name, "panel.");
  }

  /** `Hello Bob.` is already clean text. */
  lemma HelloIsClean()
    ensures CleanText("Hello Bob.")
  {
    var t := "Hello Bob.";
    forall i | 0 <= i < |t| ensures !DotPairAt(t, i) {
      if i == 9 {
        assert SkipWhitespace(t, 10) == 10;
      }
    }
    assert t == "Hello" + " " + "Bob.";
  }

  /** `fillTemplate('Hello {{name}}.', {name: 'Bob'})` is `Hello Bob.`. */
  lemma HelloFills(env: Env)
    ensures FillSpec(Str(HelloTemplate), HelloData, env) == Ok("Hello Bob.")
  {
    assert HelloTemplate == "Hello " + Braced("name") + ".";
    HelloResolve(env);
    HelloIsClean();
    assert "Hello " + ToJsString(Str("Bob")) + "." == "Hello Bob.";
    assert !PlaceholderAt(".", 0);
    FillOnePlaceholder("Hello ", "name", ".", HelloData, env);
  }

  /** The `template.replace(/\{\{([^}]+)\}\}/g, ...)` pass of `fillTemplate`, noting whether any placeholder took a value. */
  method ReplacePlaceholders(s: string, data: Data, env: Env) returns (r: Result<Filled>)
    ensures r == ReplaceFrom(s, 0, data, env)
  {
    var filled := "";
    var hasAnyData := false;
    var i := 0;
    PrependNothing(ReplaceFrom(s, 0, data, env));
    while i < |s|
      invariant 0 <= i <= |s|
      invariant ReplaceFrom(s, 0, data, env) == Prepend(filled, hasAnyData, ReplaceFrom(s, i, data, env))
      decreases |s| - i
    {
      if PlaceholderAt(s, i) {
        var value := GetFieldValue(NameAt(s, i), data, env);
        if value.Err? {
          return Err(value.error);
        }
        var piece := if CountsAsData(value.value) then ToJsString(value.value) else s[i..EndAt(s, i)];
        PrependTwice(filled, hasAnyData, piece, CountsAsData(value.value), ReplaceFrom(s, EndAt(s, i), data, env));
        if CountsAsData(value.value) {
          hasAnyData := true;
        }
        filled := filled + piece;
        i := EndAt(s, i);
      } else {
        PrependTwice(filled, hasAnyData, [s[i]], false, ReplaceFrom(s, i + 1, data, env));
        filled := filled + [s[i]];
        i := i + 1;
      }
    }
    assert filled + "" == filled;
    r := Ok(Filled(filled, hasAnyData));
  }

  /** `fillTemplate`: the replace pass, then the clean-up steps in order. */
  method FillTemplate(template: Value, data: Data, env: Env) returns (r: Result<string>)
    ensures r == FillSpec(template, data, env)
  {
    if !template.Str? {
      return Err("TypeError: template.replace is not a function");
    }
    var replaced := ReplacePlaceholders(template.s, data, env);
    if replaced.Err? {
      return Err(replaced.error);
    }
    var filled := replaced.value.text;
    if !replaced.value.any {
      return Ok(Sentinel);
    }
    var sentences := SplitSentences(filled);
    var cleaned := KeepComplete(sentences);
    filled := Trim(Join(cleaned, " "));
    if filled == "" || filled == "." {
      return Ok(Sentinel);
    }
    filled := Trim(CollapseWhitespace(filled));
    filled := Trim(CollapseDots(filled));
    r := Ok(filled);
  }

  // ----- substituteDataIntoTemplate -----

  /** Filled sections: `[sectionName, text]` pairs in the template's key order. */
  type FilledSections = seq<(string, string)>

  /** Sections `k..` of `substituteDataIntoTemplate`, stopping at the first that throws. */
  function SubstituteFrom(sections: seq<(string, Value)>, k: nat, data: Data, env: Env): Result<FilledSections>
    requires k <= |sections|
    decreases |sections| - k
  {
    if k == |sections| then Ok([])
    else
      var text :- FillSpec(sections[k].1, data, env);
      var rest :- SubstituteFrom(sections, k + 1, data, env);
      Ok([(sections[k].0, text)] + rest)
  }

  function PrependSections(prefix: FilledSections, r: Result<FilledSections>): Result<FilledSections> {
    if r.Err? then r else Ok(prefix + r.value)
  }

  lemma PrependSectionsTwice(a: FilledSections, b: FilledSections, r: Result<FilledSections>)
    ensures PrependSections(a, PrependSections(b, r)) == PrependSections(a + b, r)
  {
    if r.Ok? {
      assert a + (b + r.value) == (a + b) + r.value;
    }
  }

  /**
   * Substitution keeps the sections' keys and order and fills each one on its
   * own; it fails exactly when some section fails to fill.
   */
  lemma {:induction false} SubstituteMeaning(sections: seq<(string, Value)>, k: nat, data: Data, env: Env)
    requires k <= |sections|
    ensures SubstituteFrom(sections, k, data, env).Ok? <==>
      forall m :: k <= m < |sections| ==> FillSpec(sections[m].1, data, env).Ok?
    ensures SubstituteFrom(sections, k, data, env).Ok? ==>
      var out := SubstituteFrom(sections, k, data, env).value;
      |out| == |sections| - k
      && forall m :: k <= m < |sections| ==>
           out[m - k] == (sections[m].0, FillSpec(sections[m].1, data, env).value)
    decreases |sections| - k
  {
    if k < |sections| {
      SubstituteMeaning(sections, k + 1, data, env);
      var text := FillSpec(sections[k].1, data, env);
      var rest := SubstituteFrom(sections, k + 1, data, env);
      if text.Ok? && rest.Ok? {
        var out := [(sections[k].0, text.value)] + rest.value;
        assert SubstituteFrom(sections, k, data, env) == Ok(out);
        forall m | k <= m < |sections| ensures out[m - k] == (sections[m].0, FillSpec(sections[m].1, data, env).value) {
          if m > k {
            assert out[m - k] == rest.value[m - (k + 1)];
          }
        }
      }
    }
  }

  /** `substituteDataIntoTemplate(templateSections, data)`. */
  method SubstituteDataIntoTemplate(sections: seq<(string, Value)>, data: Data, env: Env)
    returns (r: Result<FilledSections>)
    ensures r == SubstituteFrom(sections, 0, data, env)
  {
    var filledSections: FilledSections := [];
    var k := 0;
    assert PrependSections([], SubstituteFrom(sections, 0, data, env)) == SubstituteFrom(sections, 0, data, env) by {
      var r0 := SubstituteFrom(sections, 0, data, env);
      if r0.Ok? {
        assert [] + r0.value == r0.value;
      }
    }
    while k < |sections|
      invariant 0 <= k <= |sections|
      invariant SubstituteFrom(sections, 0, data, env)
                == PrependSections(filledSections, SubstituteFrom(sections, k, data, env))
      decreases |sections| - k
    {
      var text := FillTemplate(sections[k].1, data, env);
      if text.Err? {
        return Err(text.error);
      }
      PrependSectionsTwice(filledSections, [(sections[k].0, text.value)], SubstituteFrom(sections, k + 1, data, env));
      filledSections := filledSections + [(sections[k].0, text.value)];
      k := k + 1;
    }
    assert filledSections + [] == filledSections;
    r := Ok(filledSections);
  }

  /** A stored template as the engine reads it: `template_sections` may be missing. */
  datatype NarrativeTemplate = NarrativeTemplate(templateSections: Option<seq<(string, Value)>>)

  /** `generateNarrativeSections(template, applicationData)`. */
  method GenerateNarrativeSections(template: Option<NarrativeTemplate>, data: Data, env: Env)
    returns (r: Result<FilledSections>)
    ensures template.None? || template.value.templateSections.None? ==> r == Err("Invalid template")
    ensures template.Some? && template.value.templateSections.Some? ==>
      r == SubstituteFrom(template.value.templateSections.value, 0, data, env)
  {
    if template.None? || template.value.templateSections.None? {
      return Err("Invalid template");
    }
    r := SubstituteDataIntoTemplate(template.value.templateSections.value, data, env);
  }
}
