/**
 * The structural fingerprint of a form configuration and the template
 * generator of the narrative-template route
 * (src/app/api/narrative-template/route.js).
 *
 * `generateFormConfigHash` hashes `JSON.stringify` of a projection of the
 * configuration onto its shape. The hash itself is a parameter of the model
 * (`hasher`), so what is proved here is about the projection: which
 * differences between two configurations it sees and which it ignores.
 */
module StructuralHash {
  import opened Results
  import opened JsValues
  import opened FormModel

  // The projected structure, fields in the order the source builds them.
  datatype LeafShape = LeafShape(kind: string, name: string, title: string, inputType: Option<string>)
  datatype ElementShape = ElementShape(
    kind: string, name: string, title: string, inputType: Option<string>,
    templateElements: Option<seq<LeafShape>>)
  datatype PageShape = PageShape(name: string, title: string, elements: seq<ElementShape>)
  datatype Structure = Structure(pages: seq<PageShape>)

  function LeafShapeOf(e: Element): LeafShape {
    LeafShape(e.kind, e.name, e.title, e.inputType)
  }

  /** `el.templateElements?.map(...)`: absent stays absent. */
  function LeafShapes(tes: Option<seq<Element>>): Option<seq<LeafShape>> {
    match tes
    case None => None
    case Some(es) => Some(seq(|es|, k requires 0 <= k < |es| => LeafShapeOf(es[k])))
  }

  function ElementShapeOf(e: Element): ElementShape {
    ElementShape(e.kind, e.name, e.title, e.inputType, LeafShapes(e.templateElements))
  }

  function PageShapeOf(p: Page): PageShape {
    PageShape(p.name, p.title, seq(|p.elements|, k requires 0 <= k < |p.elements| => ElementShapeOf(p.elements[k])))
  }

  /** The `structure` object of `generateFormConfigHash`. */
  function Project(c: FormConfig): Structure
    requires c.pages.Some?
  {
    Structure(seq(|c.pages.value|, k requires 0 <= k < |c.pages.value| => PageShapeOf(c.pages.value[k])))
  }

  /** `generateFormConfigHash`, with sha256 of the JSON text as the parameter `hasher`. */
  function ConfigHash(hasher: Structure -> string, c: FormConfig): string
    requires c.pages.Some?
  {
    hasher(Project(c))
  }

  // ----- Reference definition: the fields the fingerprint depends on -----

  predicate SameLeaf(a: Element, b: Element) {
    a.kind == b.kind && a.name == b.name && a.title == b.title && a.inputType == b.inputType
  }

  predicate SameRowSchema(a: Option<seq<Element>>, b: Option<seq<Element>>) {
    (a.None? <==> b.None?)
    && (a.Some? && b.Some? ==>
          |a.value| == |b.value| && forall k :: 0 <= k < |a.value| ==> SameLeaf(a.value[k], b.value[k]))
  }

  predicate SameElementShape(a: Element, b: Element) {
    SameLeaf(a, b) && SameRowSchema(a.templateElements, b.templateElements)
  }

  predicate SamePageShape(p: Page, q: Page) {
    p.name == q.name && p.title == q.title && |p.elements| == |q.elements|
    && forall k :: 0 <= k < |p.elements| ==> SameElementShape(p.elements[k], q.elements[k])
  }

  /**
   * Two configurations have the same shape when they have the same pages in
   * the same order, with the same names and titles, holding elements of the
   * same type, name, title and inputType in the same order, with row schemas
   * that agree on those four fields. Descriptions, validators, choices,
   * visibleIf, defaultValue, the form's own title and every other attribute
   * play no part.
   */
  predicate SameShape(c: FormConfig, d: FormConfig)
    requires c.pages.Some? && d.pages.Some?
  {
    |c.pages.value| == |d.pages.value|
    && forall k :: 0 <= k < |c.pages.value| ==> SamePageShape(c.pages.value[k], d.pages.value[k])
  }

  lemma RowSchemaProjection(a: Option<seq<Element>>, b: Option<seq<Element>>)
    ensures SameRowSchema(a, b) <==> LeafShapes(a) == LeafShapes(b)
  {
    if a.Some? && b.Some? {
      if LeafShapes(a) == LeafShapes(b) {
        forall k | 0 <= k < |a.value| ensures SameLeaf(a.value[k], b.value[k]) {
          assert LeafShapes(a).value[k] == LeafShapes(b).value[k];
        }
      }
      if SameRowSchema(a, b) {
        assert LeafShapes(a).value == LeafShapes(b).value;
      }
    }
  }

  lemma ElementProjection(a: Element, b: Element)
    ensures SameElementShape(a, b) <==> ElementShapeOf(a) == ElementShapeOf(b)
  {
    RowSchemaProjection(a.templateElements, b.templateElements);
  }

  lemma PageProjection(p: Page, q: Page)
    ensures SamePageShape(p, q) <==> PageShapeOf(p) == PageShapeOf(q)
  {
    forall k | 0 <= k < |p.elements| && k < |q.elements| {
      ElementProjection(p.elements[k], q.elements[k]);
    }
    if PageShapeOf(p) == PageShapeOf(q) {
      forall k | 0 <= k < |p.elements| ensures SameElementShape(p.elements[k], q.elements[k]) {
        assert PageShapeOf(p).elements[k] == PageShapeOf(q).elements[k];
      }
    }
  }

  /** The projection sees exactly the shape: equal projections iff the same shape. */
  lemma ProjectionIsShape(c: FormConfig, d: FormConfig)
    requires c.pages.Some? && d.pages.Some?
    ensures SameShape(c, d) <==> Project(c) == Project(d)
  {
    forall k | 0 <= k < |c.pages.value| && k < |d.pages.value| {
      PageProjection(c.pages.value[k], d.pages.value[k]);
    }
    if Project(c) == Project(d) {
      forall k | 0 <= k < |c.pages.value| ensures SamePageShape(c.pages.value[k], d.pages.value[k]) {
        assert Project(c).pages[k] == Project(d).pages[k];
      }
    }
  }

  /** Configurations of the same shape share a fingerprint, whatever the hash function. */
  lemma SameShapeSameHash(hasher: Structure -> string, c: FormConfig, d: FormConfig)
    requires c.pages.Some? && d.pages.Some?
    requires SameShape(c, d)
    ensures ConfigHash(hasher, c) == ConfigHash(hasher, d)
  {
    ProjectionIsShape(c, d);
  }

  /** Editing descriptive attributes of one element leaves the fingerprint alone. */
  lemma DescriptiveEditKeepsHash(hasher: Structure -> string, c: FormConfig, p: nat, e: nat,
                                 visibleIf: Option<string>, choices: Option<Value>, attributes: map<string, Value>)
    requires c.pages.Some? && p < |c.pages.value| && e < |c.pages.value[p].elements|
    ensures var page := c.pages.value[p];
            var el := page.elements[e];
            var el' := el.(visibleIf := visibleIf, choices := choices, attributes := attributes);
            var c' := c.(pages := Some(c.pages.value[p := page.(elements := page.elements[e := el'])]));
            ConfigHash(hasher, c') == ConfigHash(hasher, c)
  {
    var page := c.pages.value[p];
    var el := page.elements[e];
    var el' := el.(visibleIf := visibleIf, choices := choices, attributes := attributes);
    var c' := c.(pages := Some(c.pages.value[p := page.(elements := page.elements[e := el'])]));
    RowSchemaProjection(el.templateElements, el'.templateElements);
    assert SamePageShape(c'.pages.value[p], page);
    assert SameShape(c', c);
    SameShapeSameHash(hasher, c', c);
  }

  // ----- extractFormStructure: the summary handed to the (disabled) AI prompt -----

  datatype LeafSummary = LeafSummary(
    kind: string, name: string, title: string, inputType: Option<string>, visibleIf: Option<string>)
  datatype ElementSummary = ElementSummary(
    kind: string, name: string, title: string, inputType: Option<string>, choices: Option<Value>,
    templateElements: Option<seq<LeafSummary>>)
  datatype PageSummary = PageSummary(name: string, title: string, elements: seq<ElementSummary>)
  datatype FormSummary = FormSummary(pages: seq<PageSummary>)

  function LeafSummaries(tes: Option<seq<Element>>): Option<seq<LeafSummary>> {
    match tes
    case None => None
    case Some(es) => Some(seq(|es|, k requires 0 <= k < |es| =>
                         LeafSummary(es[k].kind, es[k].name, es[k].title, es[k].inputType, es[k].visibleIf)))
  }

  function ElementSummaryOf(e: Element): ElementSummary {
    ElementSummary(e.kind, e.name, e.title, e.inputType, e.choices, LeafSummaries(e.templateElements))
  }

  function PageSummaryOf(p: Page): PageSummary {
    PageSummary(p.name, p.title, seq(|p.elements|, k requires 0 <= k < |p.elements| => ElementSummaryOf(p.elements[k])))
  }

  /** `extractFormStructure`. */
  function ExtractFormStructure(c: FormConfig): FormSummary
    requires c.pages.Some?
  {
    FormSummary(seq(|c.pages.value|, k requires 0 <= k < |c.pages.value| => PageSummaryOf(c.pages.value[k])))
  }

  /** Dropping `choices` and the row `visibleIf` from a summary. */
  function ForgetSummary(s: FormSummary): Structure {
    Structure(seq(|s.pages|, k requires 0 <= k < |s.pages| => ForgetPage(s.pages[k])))
  }

  function ForgetPage(p: PageSummary): PageShape {
    PageShape(p.name, p.title, seq(|p.elements|, k requires 0 <= k < |p.elements| => ForgetElement(p.elements[k])))
  }

  function ForgetElement(e: ElementSummary): ElementShape {
    ElementShape(e.kind, e.name, e.title, e.inputType,
      match e.templateElements
      case None => None
      case Some(ts) => Some(seq(|ts|, k requires 0 <= k < |ts| =>
                         LeafShape(ts[k].kind, ts[k].name, ts[k].title, ts[k].inputType))))
  }

  /** The prompt summary is the hashed structure plus choices and row visibility. */
  lemma SummaryExtendsStructure(c: FormConfig)
    requires c.pages.Some?
    ensures ForgetSummary(ExtractFormStructure(c)) == Project(c)
  {
    var pages := c.pages.value;
    forall k | 0 <= k < |pages|
      ensures ForgetPage(PageSummaryOf(pages[k])) == PageShapeOf(pages[k])
    {
      var p := pages[k];
      forall j | 0 <= j < |p.elements|
        ensures ForgetElement(ElementSummaryOf(p.elements[j])) == ElementShapeOf(p.elements[j])
      {
        var e := p.elements[j];
        match e.templateElements
        case None =>
        case Some(es) =>
          assert ForgetElement(ElementSummaryOf(e)).templateElements.value == LeafShapes(e.templateElements).value;
      }
      assert ForgetPage(PageSummaryOf(p)).elements == PageShapeOf(p).elements;
    }
    assert ForgetSummary(ExtractFormStructure(c)).pages == Project(c).pages;
  }
}
