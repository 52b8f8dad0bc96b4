/**
 * The questionnaire configuration the admin edits (a SurveyJS-style JSON
 * document): an optional title, an ordered list of pages, each page an ordered
 * list of elements. A `paneldynamic` element (a repeating group) carries its
 * row schema in `templateElements`. Every attribute that the document
 * generators and the routes never read by name (description, validators,
 * defaultValue, isRequired, showProgressBar, ...) is kept in `attributes`.
 */
module FormModel {
  import opened Results
  import opened JsValues

  datatype Element = Element(
    kind: string,                          // the element's `type`
    name: string,
    title: string,
    inputType: Option<string>,
    visibleIf: Option<string>,
    choices: Option<Value>,
    templateElements: Option<seq<Element>>,
    attributes: map<string, Value>)

  datatype Page = Page(
    name: string,
    title: string,
    elements: seq<Element>,
    attributes: map<string, Value>)

  datatype FormConfig = FormConfig(
    title: Option<string>,
    pages: Option<seq<Page>>,
    attributes: map<string, Value>)

  const PanelDynamic := "paneldynamic"
}
