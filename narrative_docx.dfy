/**
 * The narrative document (src/lib/docx/narrativeDocxGenerator.js): the
 * filled template sections, each under its fixed heading and in a fixed
 * order, the longer sections split into paragraphs at blank lines.
 */
module NarrativeDocx {
  import opened Results
  import opened Text
  import opened JsValues
  import opened FieldResolver
  import opened TemplateEngine
  import opened Docx
  import opened FormModel
  import opened NarrativeTemplateRoute

  const DocumentHeading := "Child Custody Application Summary"
  const TemplateNotFound := "Narrative template not found"
  const InvalidTemplate := "Invalid template"

  /** `narrativeSections[key]`: a later pair with the same key overwrites an earlier one. */
  function SectionText(fs: FilledSections, key: string): Option<string>
    decreases |fs|
  {
    if fs == [] then None
    else if fs[|fs| - 1].0 == key then Some(fs[|fs| - 1].1)
    else SectionText(fs[..|fs| - 1], key)
  }

  /** `text.split('\n\n')`, the current piece starting at `start` and the scan at `p`. */
  function SplitBlankFrom(s: string, start: nat, p: nat): (pieces: seq<string>)
    requires start <= p <= |s|
    ensures |pieces| >= 1
    decreases |s| - p
  {
    if p + 1 >= |s| then [s[start..]]
    else if s[p] == '\n' && s[p + 1] == '\n' then [s[start..p]] + SplitBlankFrom(s, p + 2, p + 2)
    else SplitBlankFrom(s, start, p + 1)
  }

  /** A piece's paragraph: its trimmed form, unless that is empty. */
  function PieceParagraph(piece: string): (ps: Document)
    ensures |ps| <= 1
    ensures ps != [] ==> ps[0].Body? && !ps[0].italic && ps[0].text != "" && Trimmed(ps[0].text)
  {
    var t := Trim(piece);
    TrimShape(piece);
    if t != "" then [Body(t, false)] else []
  }

  /** The paragraphs of pieces `k..`. */
  function KeepNonEmpty(pieces: seq<string>, k: nat): (ps: Document)
    requires k <= |pieces|
    decreases |pieces| - k
  {
    if k == |pieces| then [] else PieceParagraph(pieces[k]) + KeepNonEmpty(pieces, k + 1)
  }

  /** The paragraphs of a split section. */
  function SplitParagraphs(text: string): Document {
    KeepNonEmpty(SplitBlankFrom(text, 0, 0), 0)
  }

  /** A written section's paragraphs under its heading: the text, optionally split, optionally followed by a spacer. */
  function SectionBody(t: string, split: bool, spacer: bool): Document {
    (if split then SplitParagraphs(t) else [Body(t, false)]) + (if spacer then [Body("", false)] else [])
  }

  /** One section: its heading and body when the text is truthy, nothing otherwise. */
  function SectionBlock(fs: FilledSections, key: string, heading: string, split: bool, spacer: bool): Document {
    var t := SectionText(fs, key);
    if t.None? || t.value == "" then [] else [Heading1(heading)] + SectionBody(t.value, split, spacer)
  }

  /** The title, then the six sections in their fixed order. */
  function NarrativeChildren(fs: FilledSections): Document {
    [Title(DocumentHeading)]
    + SectionBlock(fs, "applicant", "APPLICANT INFORMATION", false, false)
    + SectionBlock(fs, "respondent", "RESPONDENT INFORMATION", false, false)
    + SectionBlock(fs, "children", "CHILDREN", true, true)
    + SectionBlock(fs, "currentSituation", "CURRENT LIVING ARRANGEMENTS", true, true)
    + SectionBlock(fs, "proposed", "PROPOSED ARRANGEMENTS", true, true)
    + SectionBlock(fs, "safety", "SAFETY CONCERNS", true, false)
  }

  /** `generateNarrativeDocument(application, narrativeTemplate)`. */
  function NarrativeDocument(app: Option<Application>, template: Option<NarrativeTemplate>, env: Env)
    : (r: Result<Document>)
    ensures app.None? ==> r == Err(ApplicationNotFound)
    ensures app.Some? && template.None? ==> r == Err(TemplateNotFound)
    ensures app.Some? && template.Some? && template.value.templateSections.None? ==> r == Err(InvalidTemplate)
    ensures r.Ok? ==> r.value != [] && r.value[0] == Title(DocumentHeading)
  {
    if app.None? then Err(ApplicationNotFound)
    else if template.None? then Err(TemplateNotFound)
    else if template.value.templateSections.None? then Err(InvalidTemplate)
    else
      var fs :- SubstituteFrom(template.value.templateSections.value, 0, app.value.dynamicData, env);
      Ok(NarrativeChildren(fs))
  }

  // ----- as the generator writes it -----

  /** `text.split('\n\n').forEach(para => { if (para.trim()) children.push(...) })`. */
  method SplitSection(text: string) returns (ps: Document)
    ensures ps == SplitParagraphs(text)
  {
    var pieces := SplitBlankFrom(text, 0, 0);
    ps := [];
    var i := 0;
    while i < |pieces|
      invariant 0 <= i <= |pieces|
      invariant KeepNonEmpty(pieces, 0) == ps + KeepNonEmpty(pieces, i)
      decreases |pieces| - i
    {
      ps := ps + PieceParagraph(pieces[i]);
      i := i + 1;
    }
    assert ps + [] == ps;
  }

  /** One `if (narrativeSections.<key>) { ... }` block, appended to `children`. */
  method AppendSection(children: Document, fs: FilledSections, key: string, heading: string, split: bool, spacer: bool)
    returns (out: Document)
    ensures out == children + SectionBlock(fs, key, heading, split, spacer)
  {
    out := children;
    var t := SectionText(fs, key);
    if t.None? || t.value == "" {
      assert out + [] == out;
      return;
    }
    ghost var before := out;
    out := out + [Heading1(heading)];
    if split {
      var ps := SplitSection(t.value);
      out := out + ps;
    } else {
      out := out + [Body(t.value, false)];
    }
    if spacer {
      out := out + [Body("", false)];
    }
    assert out == before + [Heading1(heading)] + SectionBody(t.value, split, spacer);
  }

  /** `generateNarrativeDocument(application, narrativeTemplate)`. */
  method GenerateNarrativeDocument(app: Option<Application>, template: Option<NarrativeTemplate>, env: Env)
    returns (r: Result<Document>)
    ensures r == NarrativeDocument(app, template, env)
  {
    if app.None? {
      return Err(ApplicationNotFound);
    }
    if template.None? {
      return Err(TemplateNotFound);
    }
    var sections := GenerateNarrativeSections(template, app.value.dynamicData, env);
    if sections.Err? {
      return Err(sections.error);
    }
    var fs := sections.value;
    var children: Document := [Title(DocumentHeading)];
    children := AppendSection(children, fs, "applicant", "APPLICANT INFORMATION", false, false);
    children := AppendSection(children, fs, "respondent", "RESPONDENT INFORMATION", false, false);
    children := AppendSection(children, fs, "children", "CHILDREN", true, true);
    children := AppendSection(children, fs, "currentSituation", "CURRENT LIVING ARRANGEMENTS", true, true);
    children := AppendSection(children, fs, "proposed", "PROPOSED ARRANGEMENTS", true, true);
    children := AppendSection(children, fs, "safety", "SAFETY CONCERNS", true, false);
    assert SubstituteFrom(template.value.templateSections.value, 0, app.value.dynamicData, env) == Ok(fs);
    r := Ok(children);
  }

  // ----- properties -----

  /** Whether a section is written: its text is present and truthy. */
  predicate Present(fs: FilledSections, key: string) {
    SectionText(fs, key).Some? && SectionText(fs, key).value != ""
  }

  function HeadingIf(fs: FilledSections, key: string, heading: string): seq<string> {
    if Present(fs, key) then [heading] else []
  }

  lemma {:induction false} KeepNonEmptyIsContent(pieces: seq<string>, k: nat)
    requires k <= |pieces|
    ensures Content(KeepNonEmpty(pieces, k))
    decreases |pieces| - k
  {
    if k < |pieces| {
      KeepNonEmptyIsContent(pieces, k + 1);
      ContentConcat(PieceParagraph(pieces[k]), KeepNonEmpty(pieces, k + 1));
    }
  }

  lemma SectionBodyIsContent(t: string, split: bool, spacer: bool)
    ensures Content(SectionBody(t, split, spacer))
  {
    KeepNonEmptyIsContent(SplitBlankFrom(t, 0, 0), 0);
  }

  /** A section contributes its heading, once, and only when it is written. */
  lemma SectionBlockHeadings(fs: FilledSections, key: string, heading: string, split: bool, spacer: bool)
    ensures Headings(SectionBlock(fs, key, heading, split, spacer)) == HeadingIf(fs, key, heading)
  {
    if Present(fs, key) {
      var body := SectionBody(SectionText(fs, key).value, split, spacer);
      SectionBodyIsContent(SectionText(fs, key).value, split, spacer);
      ContentHasNoHeadings(body);
      HeadingsOfConcat([Heading1(heading)], body);
    }
  }

  /**
   * The document is the title, then the headings of the written sections in
   * the fixed order applicant, respondent, children, current situation,
   * proposed arrangements, safety.
   */
  lemma NarrativeOutline(fs: FilledSections)
    ensures NarrativeChildren(fs)[0] == Title(DocumentHeading)
    ensures Headings(NarrativeChildren(fs))
      == HeadingIf(fs, "applicant", "APPLICANT INFORMATION")
       + HeadingIf(fs, "respondent", "RESPONDENT INFORMATION")
       + HeadingIf(fs, "children", "CHILDREN")
       + HeadingIf(fs, "currentSituation", "CURRENT LIVING ARRANGEMENTS")
       + HeadingIf(fs, "proposed", "PROPOSED ARRANGEMENTS")
       + HeadingIf(fs, "safety", "SAFETY CONCERNS")
  {
    SectionBlockHeadings(fs, "applicant", "APPLICANT INFORMATION", false, false);
    SectionBlockHeadings(fs, "respondent", "RESPONDENT INFORMATION", false, false);
    SectionBlockHeadings(fs, "children", "CHILDREN", true, true);
    SectionBlockHeadings(fs, "currentSituation", "CURRENT LIVING ARRANGEMENTS", true, true);
    SectionBlockHeadings(fs, "proposed", "PROPOSED ARRANGEMENTS", true, true);
    SectionBlockHeadings(fs, "safety", "SAFETY CONCERNS", true, false);
    HeadingsOfSeven([Title(DocumentHeading)],
      SectionBlock(fs, "applicant", "APPLICANT INFORMATION", false, false),
      SectionBlock(fs, "respondent", "RESPONDENT INFORMATION", false, false),
      SectionBlock(fs, "children", "CHILDREN", true, true),
      SectionBlock(fs, "currentSituation", "CURRENT LIVING ARRANGEMENTS", true, true),
      SectionBlock(fs, "proposed", "PROPOSED ARRANGEMENTS", true, true),
      SectionBlock(fs, "safety", "SAFETY CONCERNS", true, false));
  }

  lemma HeadingsOfSeven(t: Document, b1: Document, b2: Document, b3: Document, b4: Document, b5: Document, b6: Document)
    requires t == [Title(DocumentHeading)]
    ensures Headings(t + b1 + b2 + b3 + b4 + b5 + b6)
      == Headings(b1) + Headings(b2) + Headings(b3) + Headings(b4) + Headings(b5) + Headings(b6)
  {
    assert Headings(t) == [];
    HeadingsOfConcat(t, b1);
    HeadingsOfConcat(t + b1, b2);
    HeadingsOfConcat(t + b1 + b2, b3);
    HeadingsOfConcat(t + b1 + b2 + b3, b4);
    HeadingsOfConcat(t + b1 + b2 + b3 + b4, b5);
    HeadingsOfConcat(t + b1 + b2 + b3 + b4 + b5, b6);
  }

  lemma {:induction false} NoBlankLineIsWhole(s: string, start: nat, p: nat)
    requires start <= p <= |s|
    requires NoNewline(s)
    ensures SplitBlankFrom(s, start, p) == [s[start..]]
    decreases |s| - p
  {
    if p + 1 < |s| {
      NoBlankLineIsWhole(s, start, p + 1);
    }
  }

  /** A one-line, trimmed, non-empty text is written as exactly one paragraph. */
  lemma OneLineIsOneParagraph(t: string)
    requires t != "" && Trimmed(t) && NoNewline(t)
    ensures SplitParagraphs(t) == [Body(t, false)]
  {
    NoBlankLineIsWhole(t, 0, 0);
    assert t[0..] == t;
    TrimOfTrimmed(t);
    assert KeepNonEmpty([t], 1) == [];
  }

  /**
   * Filled text has no newline, so splitting at blank lines never divides
   * it: every filled section is non-empty and becomes exactly one paragraph.
   */
  lemma FilledSectionsAreSingleParagraphs(sections: seq<(string, Value)>, data: Data, env: Env)
    requires SubstituteFrom(sections, 0, data, env).Ok?
    ensures var fs := SubstituteFrom(sections, 0, data, env).value;
      forall m :: 0 <= m < |fs| ==> fs[m].1 != "" && SplitParagraphs(fs[m].1) == [Body(fs[m].1, false)]
  {
    FilledFromAreSingleParagraphs(sections, 0, data, env);
  }

  /** Every text of `fs` is non-empty and is written as one paragraph. */
  predicate SingleParagraphs(fs: FilledSections) {
    forall m :: 0 <= m < |fs| ==> fs[m].1 != "" && SplitParagraphs(fs[m].1) == [Body(fs[m].1, false)]
  }

  lemma {:induction false} FilledFromAreSingleParagraphs(sections: seq<(string, Value)>, k: nat, data: Data, env: Env)
    requires k <= |sections|
    requires SubstituteFrom(sections, k, data, env).Ok?
    ensures SingleParagraphs(SubstituteFrom(sections, k, data, env).value)
    decreases |sections| - k
  {
    if k < |sections| {
      var text := FillSpec(sections[k].1, data, env);
      var rest := SubstituteFrom(sections, k + 1, data, env);
      assert text.Ok? && rest.Ok?;
      FilledFromAreSingleParagraphs(sections, k + 1, data, env);
      FilledTextIsOneParagraph(sections[k].1, data, env);
      var out := [(sections[k].0, text.value)] + rest.value;
      assert SubstituteFrom(sections, k, data, env).value == out;
      forall m | 0 <= m < |out| ensures out[m].1 != "" && SplitParagraphs(out[m].1) == [Body(out[m].1, false)] {
        if m > 0 {
          assert out[m] == rest.value[m - 1];
        }
      }
    }
  }

  lemma FilledTextIsOneParagraph(template: Value, data: Data, env: Env)
    requires FillSpec(template, data, env).Ok?
    ensures var t := FillSpec(template, data, env).value;
      t != "" && SplitParagraphs(t) == [Body(t, false)]
  {
    FillShape(template, data, env);
    OneLineIsOneParagraph(FillSpec(template, data, env).value);
  }

  lemma {:induction false} SectionTextAt(fs: FilledSections, k: nat, key: string)
    requires k < |fs| && fs[k].0 == key
    requires forall m :: 0 <= m < |fs| && m != k ==> fs[m].0 != key
    ensures SectionText(fs, key) == Some(fs[k].1)
    decreases |fs|
  {
    if k != |fs| - 1 {
      var init := fs[..|fs| - 1];
      assert init[k] == fs[k];
      forall m | 0 <= m < |init| && m != k ensures init[m].0 != key {
        assert init[m] == fs[m];
      }
      SectionTextAt(init, k, key);
    }
  }

  /** The sections of a template with the six standard keys, as written. */
  lemma SectionKeysDistinct()
    ensures forall a, b :: 0 <= a < b < |SectionKeys| ==> SectionKeys[a] != SectionKeys[b]
  {
    assert |SectionKeys[0]| == 9 && |SectionKeys[1]| == 10 && |SectionKeys[2]| == 8;
    assert |SectionKeys[3]| == 16 && |SectionKeys[4]| == 8 && |SectionKeys[5]| == 6;
    assert SectionKeys[2][0] != SectionKeys[4][0];
  }

  lemma SixSections(fs: FilledSections)
    requires |fs| == 6 && forall k :: 0 <= k < 6 ==> fs[k].0 == SectionKeys[k]
    requires forall k :: 0 <= k < 6 ==> fs[k].1 != "" && SplitParagraphs(fs[k].1) == [Body(fs[k].1, false)]
    ensures NarrativeChildren(fs) ==
      [Title(DocumentHeading)]
      + [Heading1("APPLICANT INFORMATION"), Body(fs[0].1, false)]
      + [Heading1("RESPONDENT INFORMATION"), Body(fs[1].1, false)]
      + [Heading1("CHILDREN"), Body(fs[2].1, false), Body("", false)]
      + [Heading1("CURRENT LIVING ARRANGEMENTS"), Body(fs[3].1, false), Body("", false)]
      + [Heading1("PROPOSED ARRANGEMENTS"), Body(fs[4].1, false), Body("", false)]
      + [Heading1("SAFETY CONCERNS"), Body(fs[5].1, false)]
  {
    SectionKeysDistinct();
    forall k | 0 <= k < 6 ensures SectionText(fs, SectionKeys[k]) == Some(fs[k].1) {
      SectionTextAt(fs, k, SectionKeys[k]);
    }
    ghost var b1 := WrittenSection(fs, "applicant", fs[0].1, "APPLICANT INFORMATION", false, false);
    ghost var b2 := WrittenSection(fs, "respondent", fs[1].1, "RESPONDENT INFORMATION", false, false);
    ghost var b3 := WrittenSection(fs, "children", fs[2].1, "CHILDREN", true, true);
    ghost var b4 := WrittenSection(fs, "currentSituation", fs[3].1, "CURRENT LIVING ARRANGEMENTS", true, true);
    ghost var b5 := WrittenSection(fs, "proposed", fs[4].1, "PROPOSED ARRANGEMENTS", true, true);
    ghost var b6 := WrittenSection(fs, "safety", fs[5].1, "SAFETY CONCERNS", true, false);
    assert NarrativeChildren(fs) == [Title(DocumentHeading)] + b1 + b2 + b3 + b4 + b5 + b6;
  }

  /** A present, one-paragraph section is its heading, its text and the optional spacer. */
  lemma WrittenSection(fs: FilledSections, key: string, t: string, heading: string, split: bool, spacer: bool)
    returns (block: Document)
    requires SectionText(fs, key) == Some(t)
    requires t != "" && SplitParagraphs(t) == [Body(t, false)]
    ensures block == SectionBlock(fs, key, heading, split, spacer)
    ensures spacer ==> block == [Heading1(heading), Body(t, false), Body("", false)]
    ensures !spacer ==> block == [Heading1(heading), Body(t, false)]
  {
    block := SectionBlock(fs, key, heading, split, spacer);
  }

  /**
   * The narrative document of a template with the six standard sections, as
   * the static template has them: whatever the answers, all six sections are
   * written, each as its heading and one paragraph of filled text, with the
   * spacers after children, current arrangements and proposed arrangements.
   */
  lemma StandardTemplateDocument(app: Application, sections: seq<(string, Value)>, env: Env)
    requires |sections| == 6 && forall k :: 0 <= k < 6 ==> sections[k].0 == SectionKeys[k]
    requires NarrativeDocument(Some(app), Some(NarrativeTemplate(Some(sections))), env).Ok?
    ensures SubstituteFrom(sections, 0, app.dynamicData, env).Ok?
    ensures |SubstituteFrom(sections, 0, app.dynamicData, env).value| == 6
    ensures var fs := SubstituteFrom(sections, 0, app.dynamicData, env).value;
      NarrativeDocument(Some(app), Some(NarrativeTemplate(Some(sections))), env).value ==
        [Title(DocumentHeading)]
        + [Heading1("APPLICANT INFORMATION"), Body(fs[0].1, false)]
        + [Heading1("RESPONDENT INFORMATION"), Body(fs[1].1, false)]
        + [Heading1("CHILDREN"), Body(fs[2].1, false), Body("", false)]
        + [Heading1("CURRENT LIVING ARRANGEMENTS"), Body(fs[3].1, false), Body("", false)]
        + [Heading1("PROPOSED ARRANGEMENTS"), Body(fs[4].1, false), Body("", false)]
        + [Heading1("SAFETY CONCERNS"), Body(fs[5].1, false)]
  {
    var d := app.dynamicData;
    var filled := SubstituteFrom(sections, 0, d, env);
    assert filled.Ok?;
    assert NarrativeDocument(Some(app), Some(NarrativeTemplate(Some(sections))), env) == Ok(NarrativeChildren(filled.value));
    SubstitutedKeys(sections, d, env);
    FilledSectionsAreSingleParagraphs(sections, d, env);
    SixSections(filled.value);
  }

  /** The filled sections keep the template's keys. */
  lemma SubstitutedKeys(sections: seq<(string, Value)>, data: Data, env: Env)
    requires SubstituteFrom(sections, 0, data, env).Ok?
    ensures var fs := SubstituteFrom(sections, 0, data, env).value;
      |fs| == |sections| && forall k :: 0 <= k < |fs| ==> fs[k].0 == sections[k].0
  {
    SubstituteMeaning(sections, 0, data, env);
  }

}
