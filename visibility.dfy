/**
 * The `visibleIf` test of the question/answer assembler
 * (src/lib/docx/dynamicDocxGenerator.js:145-161). The condition is matched
 * against `/\{(.+?)\}\s*=\s*(.+)/` anywhere in the string; the match is
 * written out below as the backtracking search the regular expression
 * performs. A condition that does not match leaves the element visible.
 */
module Visibility {
  import opened Results
  import opened Text
  import opened JsValues

  /** End of the longest run of characters `.` matches, starting at `k`. */
  function LineEnd(s: string, k: nat): (e: nat)
    requires k <= |s|
    ensures k <= e <= |s|
    decreases |s| - k
  {
    if k == |s| || IsLineTerminator(s[k]) then k else LineEnd(s, k + 1)
  }

  /** The run ends at the first line terminator, or at the end of the text. */
  lemma {:induction false} LineEndShape(s: string, k: nat)
    requires k <= |s|
    ensures var e := LineEnd(s, k);
      (forall m :: k <= m < e ==> !IsLineTerminator(s[m])) && (e < |s| ==> IsLineTerminator(s[e]))
    decreases |s| - k
  {
    if k < |s| && !IsLineTerminator(s[k]) {
      LineEndShape(s, k + 1);
    }
  }

  /**
   * Where `(.+)` starts once `\s*` has consumed `s[lo..hi]`: the greedy run is
   * given back one character at a time until `.` can match, so this is the
   * last index in `lo..hi` holding a character other than a line terminator.
   */
  function ValueStart(s: string, lo: nat, hi: nat): (k: Option<nat>)
    requires lo <= hi <= |s|
    ensures k.Some? ==> lo <= k.value <= hi
    decreases hi - lo
  {
    if hi < |s| && !IsLineTerminator(s[hi]) then Some(hi)
    else if hi == lo then None
    else ValueStart(s, lo, hi - 1)
  }

  /**
   * The value starts at the last position of `lo..hi` that `.` can match,
   * and there is none exactly when every such position is past the end or a
   * line terminator.
   */
  lemma {:induction false} ValueStartShape(s: string, lo: nat, hi: nat)
    requires lo <= hi <= |s|
    ensures var k := ValueStart(s, lo, hi);
      (k.Some? ==>
         (k.value < |s| && !IsLineTerminator(s[k.value])
          && forall m :: k.value < m <= hi && m < |s| ==> IsLineTerminator(s[m])))
      && (k.None? ==> forall m :: lo <= m <= hi && m < |s| ==> IsLineTerminator(s[m]))
    decreases hi - lo
  {
    if !(hi < |s| && !IsLineTerminator(s[hi])) && hi > lo {
      ValueStartShape(s, lo, hi - 1);
    }
  }

  /** `\}\s*=\s*(.+)` with the brace at `j`: the captured literal, if that part matches. */
  function AfterBrace(s: string, j: nat): Option<string>
    requires j < |s|
  {
    var w1 := SkipWhitespace(s, j + 1);
    if s[j] == '}' && w1 < |s| && s[w1] == '=' then AfterEquals(s, w1) else None
  }

  /** `\s*(.+)` after the `=` at `w1`. */
  function AfterEquals(s: string, w1: nat): Option<string>
    requires w1 < |s|
  {
    var w2 := SkipWhitespace(s, w1 + 1);
    var k := ValueStart(s, w1 + 1, w2);
    if k.Some? then Some(s[k.value..LineEnd(s, k.value)]) else None
  }

  /**
   * The lazy `(.+?)` after the brace at `i`, trying the closing brace at `j`
   * and then further right while the name stays on one line.
   */
  function NameFrom(s: string, i: nat, j: nat): Option<(string, string)>
    requires i + 1 < j
    decreases |s| - j
  {
    if j >= |s| || IsLineTerminator(s[j - 1]) then None
    else if AfterBrace(s, j).Some? then Some((s[i + 1..j], AfterBrace(s, j).value))
    else NameFrom(s, i, j + 1)
  }

  /** The unanchored search: the first `{` from which the whole pattern matches. */
  function SearchFrom(s: string, i: nat): Option<(string, string)>
    decreases |s| - i
  {
    if i >= |s| then None
    else if s[i] == '{' && NameFrom(s, i, i + 2).Some? then NameFrom(s, i, i + 2)
    else SearchFrom(s, i + 1)
  }

  /** `visibleIf.match(/\{(.+?)\}\s*=\s*(.+)/)`: the field name and the literal. */
  function ParseCondition(c: string): Option<(string, string)> {
    SearchFrom(c, 0)
  }

  /** `.replace(/['"]/g, '')`. */
  function StripQuotes(s: string): string {
    if s == [] then []
    else (if s[0] == '\'' || s[0] == '"' then [] else [s[0]]) + StripQuotes(s[1..])
  }

  predicate NoQuotes(s: string) {
    forall k :: 0 <= k < |s| ==> s[k] != '\'' && s[k] != '"'
  }

  /** Every quote goes, nothing else does: a text without quotes is kept as it is. */
  lemma {:induction false} StripQuotesShape(s: string)
    ensures |StripQuotes(s)| <= |s| && NoQuotes(StripQuotes(s))
    ensures NoQuotes(s) ==> StripQuotes(s) == s
  {
    if s != [] {
      StripQuotesShape(s[1..]);
      var head: string := if s[0] == '\'' || s[0] == '"' then [] else [s[0]];
      var r := StripQuotes(s);
      assert r == head + StripQuotes(s[1..]);
      forall k | 0 <= k < |r| ensures r[k] != '\'' && r[k] != '"' {
        if k >= |head| {
          assert r[k] == StripQuotes(s[1..])[k - |head|];
        }
      }
    }
  }

  /** The expected value: the literals `true` and `false` are booleans, anything else a string without quotes. */
  function ExpectedValue(literal: string): (v: Value)
  {
    var t := Trim(literal);
    if t == "true" then Bool(true) else if t == "false" then Bool(false) else Str(StripQuotes(t))
  }

  /** `panelData ? panelData[name] : data[name]`: a truthy row is searched, otherwise the answer set. */
  function LookupField(data: Data, row: Value, name: string): Value {
    if Truthy(row) then Property(row, name) else Get(data, name)
  }

  /** Whether an element with condition `visibleIf` is shown, for the answers and the current row. */
  predicate Visible(visibleIf: Option<string>, data: Data, row: Value) {
    visibleIf.None? ||
    match ParseCondition(visibleIf.value)
    case None => true
    case Some((name, literal)) => LookupField(data, row, name) == ExpectedValue(literal)
  }

  // ----- what the parse accepts -----

  predicate AllWhitespace(s: string) {
    forall k :: 0 <= k < |s| ==> IsWhitespace(s[k])
  }

  predicate OneLine(s: string) {
    forall k :: 0 <= k < |s| ==> !IsLineTerminator(s[k])
  }

  /** A field name the lazy group stops after: on one line, with no closing brace. */
  predicate PlainName(name: string) {
    name != [] && OneLine(name) && forall k :: 0 <= k < |name| ==> name[k] != '}'
  }

  /** A literal the value group takes whole: on one line, not starting with whitespace. */
  predicate PlainLiteral(literal: string) {
    literal != [] && OneLine(literal) && !IsWhitespace(literal[0])
  }

  /** The condition text `{name}<a>=<b>literal`. */
  function Condition(name: string, a: string, b: string, literal: string): string {
    "{" + name + "}" + a + "=" + b + literal
  }

  lemma {:induction false} SkipRun(s: string, k: nat, n: nat)
    requires k + n <= |s|
    requires forall m :: k <= m < k + n ==> IsWhitespace(s[m])
    requires k + n < |s| ==> !IsWhitespace(s[k + n])
    ensures SkipWhitespace(s, k) == k + n
    decreases n
  {
    if n > 0 {
      SkipRun(s, k + 1, n - 1);
    }
  }

  lemma {:induction false} LineEndRun(s: string, k: nat)
    requires k <= |s|
    requires forall m :: k <= m < |s| ==> !IsLineTerminator(s[m])
    ensures LineEnd(s, k) == |s|
    decreases |s| - k
  {
    if k < |s| {
      LineEndRun(s, k + 1);
    }
  }

  /** The lazy group moves past every position that is not a closing brace. */
  lemma {:induction false} NameFromSkips(s: string, i: nat, j: nat, e: nat)
    requires i + 1 < j <= e < |s|
    requires forall m :: i + 1 <= m < e ==> !IsLineTerminator(s[m])
    requires forall m :: j <= m < e ==> s[m] != '}'
    ensures NameFrom(s, i, j) == NameFrom(s, i, e)
    decreases e - j
  {
    if j < e {
      NameFromSkips(s, i, j + 1, e);
    }
  }

  /** `\s*(.+)` after the `=` at `w1` when `nb` spaces come before a one-line literal. */
  lemma AfterEqualsWellFormed(s: string, w1: nat, nb: nat)
    requires w1 + 1 + nb < |s|
    requires forall m :: w1 + 1 <= m < w1 + 1 + nb ==> IsWhitespace(s[m])
    requires !IsWhitespace(s[w1 + 1 + nb])
    requires forall m :: w1 + 1 + nb <= m < |s| ==> !IsLineTerminator(s[m])
    ensures AfterEquals(s, w1) == Some(s[w1 + 1 + nb..])
  {
    var w2 := w1 + 1 + nb;
    SkipRun(s, w1 + 1, nb);
    LineEndRun(s, w2);
    LineTerminatorIsWhitespace(s[w2]);
    assert SkipWhitespace(s, w1 + 1) == w2;
    assert ValueStart(s, w1 + 1, w2) == Some(w2);
    assert LineEnd(s, w2) == |s|;
    assert s[w2..LineEnd(s, w2)] == s[w2..];
  }

  /** `\}\s*=\s*(.+)` at `j` when the text after the brace is well formed. */
  lemma AfterBraceWellFormed(s: string, j: nat, na: nat, nb: nat)
    requires j + 1 + na + 1 + nb < |s|
    requires s[j] == '}' && s[j + 1 + na] == '='
    requires forall m :: j + 1 <= m < j + 1 + na ==> IsWhitespace(s[m])
    requires forall m :: j + 2 + na <= m < j + 2 + na + nb ==> IsWhitespace(s[m])
    requires !IsWhitespace(s[j + 2 + na + nb])
    requires forall m :: j + 2 + na + nb <= m < |s| ==> !IsLineTerminator(s[m])
    ensures AfterBrace(s, j) == Some(s[j + 2 + na + nb..])
  {
    assert !IsWhitespace(s[j + 1 + na]);
    SkipRun(s, j + 1, na);
    AfterEqualsWellFormed(s, j + 1 + na, nb);
  }

  /** Where the parts of `Condition(name, a, b, literal)` sit. */
  lemma ConditionLayout(name: string, a: string, b: string, literal: string)
    ensures var s := Condition(name, a, b, literal);
      var e := |name| + 1;
      var w1 := e + 1 + |a|;
      |s| == w1 + 1 + |b| + |literal|
      && s[0] == '{' && s[e] == '}' && s[w1] == '='
      && s[1..e] == name && s[w1 + 1 + |b|..] == literal
      && s[e + 1..w1] == a && s[w1 + 1..w1 + 1 + |b|] == b
  {
  }

  /** The character-level facts about `Condition(name, a, b, literal)` the parse needs. */
  lemma ConditionCharacters(name: string, a: string, b: string, literal: string)
    requires PlainName(name) && AllWhitespace(a) && AllWhitespace(b) && PlainLiteral(literal)
    ensures var s := Condition(name, a, b, literal);
      var e := |name| + 1;
      var w2 := e + 2 + |a| + |b|;
      w2 < |s| && s[e] == '}' && s[e + 1 + |a|] == '=' && !IsWhitespace(s[w2])
      && (forall m :: e + 1 <= m < e + 1 + |a| ==> IsWhitespace(s[m]))
      && (forall m :: e + 2 + |a| <= m < w2 ==> IsWhitespace(s[m]))
      && (forall m :: w2 <= m < |s| ==> !IsLineTerminator(s[m]))
      && (forall m :: 1 <= m < e ==> !IsLineTerminator(s[m]) && s[m] != '}')
      && s[w2..] == literal && s[1..e] == name && s[0] == '{'
  {
    var s := Condition(name, a, b, literal);
    var e := |name| + 1;
    var w1 := e + 1 + |a|;
    var w2 := w1 + 1 + |b|;
    ConditionLayout(name, a, b, literal);
    forall m | e + 1 <= m < w1 ensures IsWhitespace(s[m]) {
      assert s[m] == s[e + 1..w1][m - e - 1];
    }
    forall m | w1 + 1 <= m < w2 ensures IsWhitespace(s[m]) {
      assert s[m] == s[w1 + 1..w2][m - w1 - 1];
    }
    forall m | w2 <= m < |s| ensures !IsLineTerminator(s[m]) {
      assert s[m] == s[w2..][m - w2];
    }
    forall m | 1 <= m < e ensures !IsLineTerminator(s[m]) && s[m] != '}' {
      assert s[m] == s[1..e][m - 1];
    }
    assert s[w2] == literal[0];
  }

  /** The parse of a text laid out as `{`, a one-line name, `}`, whitespace, `=`, whitespace, a one-line literal. */
  lemma ParseLayout(s: string, e: nat, na: nat, nb: nat)
    requires 2 <= e && e + 2 + na + nb < |s|
    requires s[0] == '{' && s[e] == '}' && s[e + 1 + na] == '='
    requires forall m :: 1 <= m < e ==> !IsLineTerminator(s[m]) && s[m] != '}'
    requires forall m :: e + 1 <= m < e + 1 + na ==> IsWhitespace(s[m])
    requires forall m :: e + 2 + na <= m < e + 2 + na + nb ==> IsWhitespace(s[m])
    requires !IsWhitespace(s[e + 2 + na + nb])
    requires forall m :: e + 2 + na + nb <= m < |s| ==> !IsLineTerminator(s[m])
    ensures ParseCondition(s) == Some((s[1..e], s[e + 2 + na + nb..]))
  {
    AfterBraceWellFormed(s, e, na, nb);
    assert !IsLineTerminator(s[e - 1]);
    assert NameFrom(s, 0, e) == Some((s[1..e], s[e + 2 + na + nb..]));
    if e > 2 {
      NameFromSkips(s, 0, 2, e);
    }
  }

  /** A well-formed condition parses into its field name and its literal. */
  lemma ParseWellFormed(name: string, a: string, b: string, literal: string)
    requires PlainName(name) && AllWhitespace(a) && AllWhitespace(b) && PlainLiteral(literal)
    ensures ParseCondition(Condition(name, a, b, literal)) == Some((name, literal))
  {
    ConditionCharacters(name, a, b, literal);
    ParseLayout(Condition(name, a, b, literal), |name| + 1, |a|, |b|);
  }

  /** A condition without an opening brace never matches, so the element stays visible. */
  lemma {:induction false} NoBraceNoMatch(c: string, i: nat)
    requires forall k :: 0 <= k < |c| ==> c[k] != '{'
    ensures SearchFrom(c, i) == None
    decreases |c| - i
  {
    if i < |c| {
      NoBraceNoMatch(c, i + 1);
    }
  }

  lemma UnparsedIsVisible(c: string, data: Data, row: Value)
    requires forall k :: 0 <= k < |c| ==> c[k] != '{'
    ensures Visible(Some(c), data, row)
  {
    NoBraceNoMatch(c, 0);
  }

  /**
   * A well-formed condition shows the element exactly when the field, read
   * from the row or else the answers, is strictly equal to the literal.
   */
  lemma ConditionMeaning(name: string, a: string, b: string, literal: string, data: Data, row: Value)
    requires PlainName(name) && AllWhitespace(a) && AllWhitespace(b) && PlainLiteral(literal)
    ensures Visible(Some(Condition(name, a, b, literal)), data, row)
      <==> LookupField(data, row, name) == ExpectedValue(literal)
  {
    ParseWellFormed(name, a, b, literal);
  }

  /**
   * A `true` condition shows the element exactly when the field holds the
   * boolean `true`: the comparison is strict, so the string "true" hides it.
   */
  lemma BooleanCondition(name: string, a: string, b: string, data: Data, row: Value)
    requires PlainName(name) && AllWhitespace(a) && AllWhitespace(b)
    ensures Visible(Some(Condition(name, a, b, "true")), data, row)
      <==> LookupField(data, row, name) == Bool(true)
    ensures LookupField(data, row, name) == Str("true") ==> !Visible(Some(Condition(name, a, b, "true")), data, row)
  {
    ConditionMeaning(name, a, b, "true", data, row);
    TrimOfTrimmed("true");
  }

  /** Quotes around a literal are dropped. */
  lemma QuotesAround(t: string)
    requires NoQuotes(t)
    ensures StripQuotes("'" + t + "'") == t
  {
    StripQuotesShape(t);
    var q: string := "'";
    var u := t + q;
    assert (q + u)[0] == '\'' && (q + u)[1..] == u;
    assert q + t + q == q + u;
    assert StripQuotes(q) == [] by {
      assert q[1..] == [];
    }
    StripAppend(t, q);
    assert StripQuotes(u) == t + [];
  }

  lemma {:induction false} StripAppend(x: string, y: string)
    ensures StripQuotes(x + y) == StripQuotes(x) + StripQuotes(y)
    decreases |x|
  {
    if x == [] {
      assert x + y == y;
    } else {
      assert (x + y)[0] == x[0] && (x + y)[1..] == x[1..] + y;
      StripAppend(x[1..], y);
    }
  }


  /** A quoted literal is compared, as a string, with the text between the quotes. */
  lemma QuotedCondition(name: string, a: string, b: string, t: string, data: Data, row: Value)
    requires PlainName(name) && AllWhitespace(a) && AllWhitespace(b) && OneLine(t)
    requires NoQuotes(t)
    ensures Visible(Some(Condition(name, a, b, "'" + t + "'")), data, row)
      <==> LookupField(data, row, name) == Str(t)
  {
    var lit := "'" + t + "'";
    assert lit[0] == '\'' && lit[|lit| - 1] == '\'';
    forall k | 0 <= k < |lit| ensures !IsLineTerminator(lit[k]) {
      if 0 < k < |lit| - 1 {
        assert lit[k] == t[k - 1];
      }
    }
    TrimOfTrimmed(lit);
    assert lit[0] != "true"[0] && lit[0] != "false"[0];
    QuotesAround(t);
    ConditionMeaning(name, a, b, lit, data, row);
  }

  /**
   * The field is looked up verbatim, so a `panel.` condition reads the row
   * property named `panel.<field>`: in a row that stores only `<field>` the
   * element is hidden even when that answer is `true`.
   */
  lemma PanelPrefixIsNotStripped(field: string, data: Data, fields: map<string, Value>)
    requires PlainName(field)
    requires "panel." + field !in fields
    ensures !Visible(Some(Condition("panel." + field, " ", " ", "true")), data, Obj(fields))
  {
    var name := "panel." + field;
    forall k | 0 <= k < |name| ensures !IsLineTerminator(name[k]) && name[k] != '}' {
      if k >= 6 {
        assert name[k] == field[k - 6];
      }
    }
    BooleanCondition(name, " ", " ", data, Obj(fields));
  }

  /** A falsy row (null, 0, '', false) sends the lookup to the top-level answers. */
  lemma FalsyRowReadsAnswers(name: string, data: Data, row: Value)
    requires !Truthy(row)
    ensures LookupField(data, row, name) == Get(data, name)
  {
  }
}
