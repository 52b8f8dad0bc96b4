/**
 * The question/answer document (src/lib/docx/dynamicDocxGenerator.js): a
 * title, then for every page its heading and either the paragraphs of its
 * answered, visible elements or a "no information" marker. A repeating group
 * expands once per row of its answer array.
 *
 * The walk is written twice: as the specification functions `*From`, and as
 * the loops of `GenerateDynamicDocument`, `RenderPage`, `RenderPanel` and
 * `RenderRow`, each proved equal to its function. An exception the
 * JavaScript would throw is `Err`; the document is only returned when no
 * step throws.
 */
module DynamicDocx {
  import opened Results
  import opened Text
  import opened JsValues
  import opened FormModel
  import opened FieldResolver
  import opened Visibility
  import opened Docx

  const TextKind := "text"
  const CommentKind := "comment"
  const RadioKind := "radiogroup"
  const DropdownKind := "dropdown"
  const CheckboxKind := "checkbox"
  const BooleanKind := "boolean"
  const DefaultTitle := "Application Form"
  const NoInformation := "No information provided"
  const NoItems := "No items added"
  const NoPagesError := "TypeError: Cannot read properties of undefined (reading 'forEach')"
  const NoRowSchemaError := "TypeError: Cannot read properties of undefined (reading 'forEach')"
  const PanelsNotArrayError := "TypeError: panels.forEach is not a function"

  /** `formConfig.title || 'Application Form'`. */
  function DocumentTitle(c: FormConfig): string {
    if c.title.Some? && c.title.value != "" then c.title.value else DefaultTitle
  }

  /** `formatTextValue`: a date input with a truthy value goes through the short date format. */
  function FormatTextValue(el: Element, v: Value, env: Env): string {
    if el.inputType == Some("date") && Truthy(v) then env.shortDate(v) else ToJsString(v)
  }

  /** The bold `title: ` run that starts most answer paragraphs. */
  function Label(el: Element): Run {
    Run(el.title + ": ", true)
  }

  /** `createElementParagraphs(element, data, panelData)`; `row` is `Null` outside a repeating group. */
  function ElementParagraphs(el: Element, data: Data, row: Value, env: Env): Document {
    var v := LookupField(data, row, el.name);
    if !Visible(el.visibleIf, data, row) || Unanswered(v) then []
    else if el.kind == TextKind then [Runs([Label(el), Run(FormatTextValue(el, v, env), false)])]
    else if el.kind == CommentKind then [Runs([Run(el.title + ":", true)]), Body(ToJsString(v), false)]
    else if el.kind == RadioKind || el.kind == DropdownKind then [Runs([Label(el), Run(ToJsString(v), false)])]
    else if el.kind == CheckboxKind then
      [Runs([Label(el), Run(if v.Arr? then JoinValues(v.items, ", ") else "None", false)])]
    else if el.kind == BooleanKind then [Runs([Label(el), Run(if Truthy(v) then "Yes" else "No", false)])]
    else [Runs([Label(el), Run(ToJsString(v), false)])]
  }

  /**
   * An element writes nothing exactly when it is hidden or unanswered;
   * otherwise one paragraph, or two for a comment, and never a heading.
   */
  lemma ElementParagraphsShape(el: Element, data: Data, row: Value, env: Env)
    ensures var ps := ElementParagraphs(el, data, row, env);
      (ps == [] <==> !Visible(el.visibleIf, data, row) || Unanswered(LookupField(data, row, el.name)))
      && |ps| <= 2
      && (|ps| == 2 <==> ps != [] && el.kind == CommentKind)
      && (forall k :: 0 <= k < |ps| ==> ps[k].Runs? || ps[k].Body?)
  {
  }

  // ----- the page walk, as functions -----

  /** The answer array of a repeating group: `dynamic_data[name] || []`. */
  function Panels(el: Element, data: Data): Value {
    Or(Get(data, el.name), Arr([]))
  }

  /** The page-level test: any element has a value, whatever its visibility. */
  predicate ElementHasData(el: Element, data: Data) {
    if el.kind == PanelDynamic then LongerThan(Panels(el, data), 0) else !Unanswered(Get(data, el.name))
  }

  predicate PageHasData(page: Page, data: Data) {
    exists k :: 0 <= k < |page.elements| && ElementHasData(page.elements[k], data)
  }

  /** The bold `Item <n>` paragraph before row `k` of a repeating group. */
  function ItemLabel(k: nat): Paragraph {
    Runs([Run("Item " + NatToString(k + 1), true)])
  }

  /** The paragraphs of the first `n` template elements for one row, in order. */
  function RowUpTo(tes: seq<Element>, n: nat, data: Data, row: Value, env: Env): Document
    requires n <= |tes|
  {
    if n == 0 then [] else RowUpTo(tes, n - 1, data, row, env) + ElementParagraphs(tes[n - 1], data, row, env)
  }

  /** The paragraphs of all template elements for one row. */
  function Row(tes: seq<Element>, data: Data, row: Value, env: Env): Document {
    RowUpTo(tes, |tes|, data, row, env)
  }

  /** The paragraphs of every row of a repeating group, row `k` read against `rows[k]` alone. */
  function RowDocs(tes: seq<Element>, rows: seq<Value>, data: Data, env: Env): (docs: seq<Document>)
    ensures |docs| == |rows|
  {
    seq(|rows|, k requires 0 <= k < |rows| => Row(tes, data, rows[k], env))
  }

  /** Rows `k..`, each introduced by its item number. */
  function Numbered(docs: seq<Document>, k: nat): Document
    requires k <= |docs|
    decreases |docs| - k
  {
    if k == |docs| then [] else [ItemLabel(k)] + docs[k] + Numbered(docs, k + 1)
  }

  lemma NumberedStep(out: Document, docs: seq<Document>, i: nat)
    requires i < |docs|
    ensures out + Numbered(docs, i) == (out + [ItemLabel(i)] + docs[i]) + Numbered(docs, i + 1)
  {
    var rest := Numbered(docs, i + 1);
    assert out + ([ItemLabel(i)] + docs[i] + rest) == (out + [ItemLabel(i)] + docs[i]) + rest;
  }

  /** A repeating group: its heading, then its rows or the "no items" marker. */
  function PanelSpec(el: Element, data: Data, env: Env): Result<Document> {
    var panels := Panels(el, data);
    if !LongerThan(panels, 0) then Ok([Heading2(el.title), Body(NoItems, true)])
    else if !panels.Arr? then Err(PanelsNotArrayError)
    else if el.templateElements.None? then Err(NoRowSchemaError)
    else Ok([Heading2(el.title)] + Numbered(RowDocs(el.templateElements.value, panels.items, data, env), 0))
  }

  /** What one page element contributes. */
  function ElementBlock(el: Element, data: Data, env: Env): Result<Document> {
    if el.kind == PanelDynamic then PanelSpec(el, data, env) else Ok(ElementParagraphs(el, data, Null, env))
  }

  /** Elements `k..` of a page, stopping at the first that throws. */
  function ElementsFrom(els: seq<Element>, k: nat, data: Data, env: Env): Result<Document>
    requires k <= |els|
    decreases |els| - k
  {
    if k == |els| then Ok([])
    else
      var block := ElementBlock(els[k], data, env);
      if block.Err? then block else Then(block.value, ElementsFrom(els, k + 1, data, env))
  }

  function PageSpec(page: Page, data: Data, env: Env): Result<Document> {
    if !PageHasData(page, data) then Ok([Heading1(page.title), Body(NoInformation, true)])
    else Then([Heading1(page.title)], ElementsFrom(page.elements, 0, data, env))
  }

  /** Pages `k..`, stopping at the first that throws. */
  function PagesFrom(pages: seq<Page>, k: nat, data: Data, env: Env): Result<Document>
    requires k <= |pages|
    decreases |pages| - k
  {
    if k == |pages| then Ok([])
    else
      var block := PageSpec(pages[k], data, env);
      if block.Err? then block else Then(block.value, PagesFrom(pages, k + 1, data, env))
  }

  /** `generateDynamicDocument(application)` with the stored configuration `c`. */
  function DynamicDocument(app: Option<Application>, c: FormConfig, env: Env): (r: Result<Document>)
    ensures app.None? ==> r == Err(ApplicationNotFound)
    ensures app.Some? && c.pages.None? ==> r == Err(NoPagesError)
  {
    if app.None? then Err(ApplicationNotFound)
    else if c.pages.None? then Err(NoPagesError)
    else Then([Title(DocumentTitle(c))], PagesFrom(c.pages.value, 0, app.value.dynamicData, env))
  }

  // ----- the page walk, as loops -----

  /** `element.templateElements.forEach(...)` for one row. */
  method RenderRow(tes: seq<Element>, data: Data, row: Value, env: Env) returns (ps: Document)
    ensures ps == Row(tes, data, row, env)
  {
    ps := [];
    var i := 0;
    while i < |tes|
      invariant 0 <= i <= |tes|
      invariant ps == RowUpTo(tes, i, data, row, env)
      decreases |tes| - i
    {
      ps := ps + ElementParagraphs(tes[i], data, row, env);
      i := i + 1;
    }
  }


  /** The `paneldynamic` branch of the element walk. */
  method RenderPanel(el: Element, data: Data, env: Env) returns (r: Result<Document>)
    ensures r == PanelSpec(el, data, env)
  {
    var panels := Panels(el, data);
    var out: Document := [Heading2(el.title)];
    if !LongerThan(panels, 0) {
      return Ok([Heading2(el.title), Body(NoItems, true)]);
    }
    if !panels.Arr? {
      return Err(PanelsNotArrayError);
    }
    if el.templateElements.None? {
      return Err(NoRowSchemaError);
    }
    var tes := el.templateElements.value;
    var rows := panels.items;
    ghost var docs := RowDocs(tes, rows, data, env);
    var i := 0;
    while i < |rows|
      invariant 0 <= i <= |rows|
      invariant [Heading2(el.title)] + Numbered(docs, 0) == out + Numbered(docs, i)
      decreases |rows| - i
    {
      var rowParagraphs := RenderRow(tes, data, rows[i], env);
      assert rowParagraphs == docs[i];
      NumberedStep(out, docs, i);
      out := out + [ItemLabel(i)] + rowParagraphs;
      i := i + 1;
    }
    assert out + [] == out;
    r := Ok(out);
  }

  /** One page of `formConfig.pages.forEach(...)`. */
  method RenderPage(page: Page, data: Data, env: Env) returns (r: Result<Document>)
    ensures r == PageSpec(page, data, env)
  {
    var hasData := PageHasData(page, data);
    var out: Document := [Heading1(page.title)];
    if !hasData {
      return Ok([Heading1(page.title), Body(NoInformation, true)]);
    }
    var els := page.elements;
    var i := 0;
    while i < |els|
      invariant 0 <= i <= |els|
      invariant PageSpec(page, data, env) == Then(out, ElementsFrom(els, i, data, env))
      decreases |els| - i
    {
      var block: Result<Document>;
      if els[i].kind == PanelDynamic {
        block := RenderPanel(els[i], data, env);
      } else {
        block := Ok(ElementParagraphs(els[i], data, Null, env));
      }
      assert block == ElementBlock(els[i], data, env);
      if block.Err? {
        assert ElementsFrom(els, i, data, env) == block;
        return block;
      }
      ThenTwice(out, block.value, ElementsFrom(els, i + 1, data, env));
      out := out + block.value;
      i := i + 1;
    }
    assert out + [] == out;
    r := Ok(out);
  }

  /** `generateDynamicDocument(application)`. */
  method GenerateDynamicDocument(app: Option<Application>, c: FormConfig, env: Env) returns (r: Result<Document>)
    ensures r == DynamicDocument(app, c, env)
  {
    if app.None? {
      return Err(ApplicationNotFound);
    }
    if c.pages.None? {
      return Err(NoPagesError);
    }
    var data := app.value.dynamicData;
    var pages := c.pages.value;
    var out: Document := [Title(DocumentTitle(c))];
    var i := 0;
    while i < |pages|
      invariant 0 <= i <= |pages|
      invariant DynamicDocument(app, c, env) == Then(out, PagesFrom(pages, i, data, env))
      decreases |pages| - i
    {
      var block := RenderPage(pages[i], data, env);
      if block.Err? {
        assert PagesFrom(pages, i, data, env) == block;
        return block;
      }
      ThenTwice(out, block.value, PagesFrom(pages, i + 1, data, env));
      out := out + block.value;
      i := i + 1;
    }
    assert out + [] == out;
    r := Ok(out);
  }

  // ----- properties of the walk -----

  lemma {:induction false} RowUpToIsContent(tes: seq<Element>, n: nat, data: Data, row: Value, env: Env)
    requires n <= |tes|
    ensures Content(RowUpTo(tes, n, data, row, env))
  {
    if n > 0 {
      RowUpToIsContent(tes, n - 1, data, row, env);
      var eps := ElementParagraphs(tes[n - 1], data, row, env);
      ElementParagraphsShape(tes[n - 1], data, row, env);
      assert Content(eps);
      ContentConcat(RowUpTo(tes, n - 1, data, row, env), eps);
    }
  }


  lemma {:induction false} NumberedIsContent(docs: seq<Document>, k: nat)
    requires k <= |docs|
    requires forall j :: 0 <= j < |docs| ==> Content(docs[j])
    ensures Content(Numbered(docs, k))
    decreases |docs| - k
  {
    if k < |docs| {
      NumberedIsContent(docs, k + 1);
      ContentConcat([ItemLabel(k)], docs[k]);
      ContentConcat([ItemLabel(k)] + docs[k], Numbered(docs, k + 1));
    }
  }

  lemma RowDocsAreContent(tes: seq<Element>, rows: seq<Value>, data: Data, env: Env)
    ensures var docs := RowDocs(tes, rows, data, env);
      forall j :: 0 <= j < |docs| ==> Content(docs[j])
  {
    var docs := RowDocs(tes, rows, data, env);
    forall j | 0 <= j < |docs| ensures Content(docs[j]) {
      RowUpToIsContent(tes, |tes|, data, rows[j], env);
    }
  }

  lemma {:induction false} ElementsFromIsContent(els: seq<Element>, k: nat, data: Data, env: Env)
    requires k <= |els|
    requires ElementsFrom(els, k, data, env).Ok?
    ensures Content(ElementsFrom(els, k, data, env).value)
    decreases |els| - k
  {
    if k < |els| {
      var el := els[k];
      if el.kind == PanelDynamic && LongerThan(Panels(el, data), 0) {
        RowDocsAreContent(el.templateElements.value, Panels(el, data).items, data, env);
        NumberedIsContent(RowDocs(el.templateElements.value, Panels(el, data).items, data, env), 0);
      }
      ElementsFromIsContent(els, k + 1, data, env);
    }
  }

  /** The titles of pages `k..`, in order. */
  function PageTitles(pages: seq<Page>, k: nat): seq<string>
    requires k <= |pages|
    decreases |pages| - k
  {
    if k == |pages| then [] else [pages[k].title] + PageTitles(pages, k + 1)
  }

  /** A rendered page has exactly one page heading, its title, and it comes first. */
  lemma PageHeading(page: Page, data: Data, env: Env)
    requires PageSpec(page, data, env).Ok?
    ensures var ps := PageSpec(page, data, env).value;
      ps != [] && ps[0] == Heading1(page.title) && Headings(ps) == [page.title]
  {
    var ps := PageSpec(page, data, env).value;
    if PageHasData(page, data) {
      ElementsFromIsContent(page.elements, 0, data, env);
      ContentHasNoHeadings(ElementsFrom(page.elements, 0, data, env).value);
      HeadingsOfConcat([Heading1(page.title)], ElementsFrom(page.elements, 0, data, env).value);
    } else {
      HeadingsOfConcat([Heading1(page.title)], [Body(NoInformation, true)]);
    }
  }

  lemma {:induction false} PagesFromHeadings(pages: seq<Page>, k: nat, data: Data, env: Env)
    requires k <= |pages|
    requires PagesFrom(pages, k, data, env).Ok?
    ensures Headings(PagesFrom(pages, k, data, env).value) == PageTitles(pages, k)
    decreases |pages| - k
  {
    if k < |pages| {
      PageHeading(pages[k], data, env);
      PagesFromHeadings(pages, k + 1, data, env);
      HeadingsOfConcat(PageSpec(pages[k], data, env).value, PagesFrom(pages, k + 1, data, env).value);
    }
  }

  /**
   * A generated document starts with the title, falling back to
   * "Application Form", and its page headings are the page titles, one per
   * page, in page order.
   */
  lemma DocumentOutline(app: Option<Application>, c: FormConfig, env: Env)
    requires DynamicDocument(app, c, env).Ok?
    ensures var doc := DynamicDocument(app, c, env).value;
      doc[0] == Title(DocumentTitle(c)) && Headings(doc) == PageTitles(c.pages.value, 0)
  {
    var rest := PagesFrom(c.pages.value, 0, app.value.dynamicData, env).value;
    PagesFromHeadings(c.pages.value, 0, app.value.dynamicData, env);
    HeadingsOfConcat([Title(DocumentTitle(c))], rest);
  }

  lemma {:induction false} UnansweredPagesFrom(pages: seq<Page>, k: nat, data: Data, env: Env)
    requires k <= |pages|
    requires forall m :: k <= m < |pages| ==> !PageHasData(pages[m], data)
    ensures PagesFrom(pages, k, data, env).Ok?
    ensures var doc := PagesFrom(pages, k, data, env).value;
      |doc| == 2 * (|pages| - k)
      && forall m :: k <= m < |pages| ==>
           doc[2 * (m - k)] == Heading1(pages[m].title) && doc[2 * (m - k) + 1] == Body(NoInformation, true)
    decreases |pages| - k
  {
    if k < |pages| {
      UnansweredPagesFrom(pages, k + 1, data, env);
    }
  }

  /**
   * When no page holds an answer, every page is its heading followed by
   * exactly one "No information provided" paragraph and nothing else.
   */
  lemma UnansweredDocument(app: Application, c: FormConfig, env: Env)
    requires c.pages.Some?
    requires forall m :: 0 <= m < |c.pages.value| ==> !PageHasData(c.pages.value[m], app.dynamicData)
    ensures DynamicDocument(Some(app), c, env).Ok?
    ensures var doc := DynamicDocument(Some(app), c, env).value;
      var pages := c.pages.value;
      |doc| == 1 + 2 * |pages|
      && forall m :: 0 <= m < |pages| ==>
           doc[1 + 2 * m] == Heading1(pages[m].title) && doc[2 + 2 * m] == Body(NoInformation, true)
  {
    var pages := c.pages.value;
    UnansweredPagesFrom(pages, 0, app.dynamicData, env);
    var rest := PagesFrom(pages, 0, app.dynamicData, env).value;
    var doc := [Title(DocumentTitle(c))] + rest;
    assert DynamicDocument(Some(app), c, env) == Ok(doc);
    forall m | 0 <= m < |pages|
      ensures doc[1 + 2 * m] == Heading1(pages[m].title) && doc[2 + 2 * m] == Body(NoInformation, true)
    {
      assert doc[1 + 2 * m] == rest[2 * m] && doc[2 + 2 * m] == rest[2 * m + 1];
    }
  }

  /** With an empty answer set every page is its heading and the "no information" marker. */
  lemma EmptyAnswersDocument(c: FormConfig, env: Env)
    requires c.pages.Some?
    ensures DynamicDocument(Some(Application(map[])), c, env).Ok?
    ensures var doc := DynamicDocument(Some(Application(map[])), c, env).value;
      var pages := c.pages.value;
      |doc| == 1 + 2 * |pages|
      && forall m :: 0 <= m < |pages| ==>
           doc[1 + 2 * m] == Heading1(pages[m].title) && doc[2 + 2 * m] == Body(NoInformation, true)
  {
    UnansweredDocument(Application(map[]), c, env);
  }

  /**
   * The page test ignores visibility: a page whose only element is
   * answered but hidden gets its heading and nothing else, not the "no
   * information" marker.
   */
  lemma HiddenAnswerKeepsPage(page: Page, data: Data, env: Env)
    requires |page.elements| == 1 && page.elements[0].kind != PanelDynamic
    requires !Visible(page.elements[0].visibleIf, data, Null) && !Unanswered(Get(data, page.elements[0].name))
    ensures PageHasData(page, data) && PageSpec(page, data, env) == Ok([Heading1(page.title)])
  {
    var el := page.elements[0];
    assert ElementHasData(el, data);
    ElementParagraphsShape(el, data, Null, env);
    var nothing: Document := [];
    assert ElementBlock(el, data, env) == Ok(nothing);
    assert ElementsFrom(page.elements, 1, data, env) == Ok(nothing);
    assert nothing + nothing == nothing;
    assert ElementsFrom(page.elements, 0, data, env) == Ok(nothing);
    assert [Heading1(page.title)] + [] == [Heading1(page.title)];
  }

  /** An absent, falsy or empty answer array renders the group heading and "No items added". */
  lemma EmptyPanel(el: Element, data: Data, env: Env)
    requires !Truthy(Get(data, el.name)) || Get(data, el.name) == Arr([])
    ensures PanelSpec(el, data, env) == Ok([Heading2(el.title), Body(NoItems, true)])
  {
  }

  /** A non-empty string where the rows should be makes `panels.forEach` throw. */
  lemma StringPanelThrows(el: Element, data: Data, env: Env)
    requires Get(data, el.name).Str? && Get(data, el.name).s != ""
    ensures PanelSpec(el, data, env) == Err(PanelsNotArrayError)
  {
  }

  function Flatten(blocks: seq<Document>): Document {
    if blocks == [] then [] else blocks[0] + Flatten(blocks[1..])
  }

  /** The block of each row: its item number, then its paragraphs. */
  function Blocks(docs: seq<Document>): (bs: seq<Document>)
    ensures |bs| == |docs|
  {
    seq(|docs|, k requires 0 <= k < |docs| => [ItemLabel(k)] + docs[k])
  }

  /** Numbering rows `k..` writes the blocks `k..` one after the other. */
  lemma {:induction false} NumberedIsFlatten(docs: seq<Document>, k: nat)
    requires k <= |docs|
    ensures Numbered(docs, k) == Flatten(Blocks(docs)[k..])
    decreases |docs| - k
  {
    if k < |docs| {
      NumberedIsFlatten(docs, k + 1);
      var bs := Blocks(docs)[k..];
      assert bs[0] == [ItemLabel(k)] + docs[k];
      assert bs[1..] == Blocks(docs)[k + 1..];
    }
  }

  /**
   * An answer array of `n` rows expands into exactly `n` blocks in row
   * order, block `k` numbered `k + 1` and filtered against row `k` only.
   */
  lemma PanelRows(el: Element, data: Data, env: Env)
    requires Get(data, el.name).Arr? && Get(data, el.name).items != [] && el.templateElements.Some?
    ensures var rows := Get(data, el.name).items;
      var tes := el.templateElements.value;
      var blocks := Blocks(RowDocs(tes, rows, data, env));
      PanelSpec(el, data, env) == Ok([Heading2(el.title)] + Flatten(blocks))
      && |blocks| == |rows|
      && forall k :: 0 <= k < |rows| ==> blocks[k] == [ItemLabel(k)] + Row(tes, data, rows[k], env)
  {
    var rows := Get(data, el.name).items;
    var tes := el.templateElements.value;
    var docs := RowDocs(tes, rows, data, env);
    NumberedIsFlatten(docs, 0);
    assert Blocks(docs)[0..] == Blocks(docs);
  }

  /** A Boolean answer `false` still renders, as "No". */
  lemma FalseRendersNo(el: Element, data: Data, row: Value, env: Env)
    requires el.kind == BooleanKind && Visible(el.visibleIf, data, row)
    requires LookupField(data, row, el.name) == Bool(false)
    ensures ElementParagraphs(el, data, row, env) == [Runs([Label(el), Run("No", false)])]
  {
  }

  /** A checkbox answer that is not an array renders "None". */
  lemma CheckboxWithoutArray(el: Element, data: Data, row: Value, env: Env)
    requires el.kind == CheckboxKind && Visible(el.visibleIf, data, row)
    requires !Unanswered(LookupField(data, row, el.name)) && !LookupField(data, row, el.name).Arr?
    ensures ElementParagraphs(el, data, row, env) == [Runs([Label(el), Run("None", false)])]
  {
  }

  /**
   * An element whose condition is `{name} = true` (any spacing) is left out,
   * however it is answered, unless the field holds the boolean `true`.
   */
  lemma FailedConditionHidesAnswer(el: Element, name: string, a: string, b: string, data: Data, row: Value, env: Env)
    requires PlainName(name) && AllWhitespace(a) && AllWhitespace(b)
    requires el.visibleIf == Some(Condition(name, a, b, "true"))
    requires LookupField(data, row, name) != Bool(true)
    ensures ElementParagraphs(el, data, row, env) == []
  {
    BooleanCondition(name, a, b, data, row);
  }
}
