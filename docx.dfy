/**
 * The part of the docx document model the generators use: a document is the
 * ordered list of its paragraphs. Spacing, borders and alignment are dropped;
 * what stays is each paragraph's kind, text, italics and bold runs.
 */
module Docx {
  import opened Results
  import opened JsValues

  /** An application as both generators read it: its `dynamic_data`. */
  datatype Application = Application(dynamicData: Data)

  const ApplicationNotFound := "Application not found"

  datatype Run = Run(text: string, bold: bool)

  datatype Paragraph =
    | Title(text: string)                 // HeadingLevel.TITLE
    | Heading1(text: string)              // HeadingLevel.HEADING_1
    | Heading2(text: string)              // HeadingLevel.HEADING_2
    | Body(text: string, italic: bool)    // a plain `text` paragraph
    | Runs(runs: seq<Run>)                // a paragraph built from TextRuns

  type Document = seq<Paragraph>

  /** `children.push(...prefix)` before the rest of a walk that may throw. */
  function Then(prefix: Document, r: Result<Document>): Result<Document> {
    if r.Err? then r else Ok(prefix + r.value)
  }

  lemma ThenNothing(r: Result<Document>)
    ensures Then([], r) == r
  {
    if r.Ok? {
      assert [] + r.value == r.value;
    }
  }

  lemma ThenTwice(a: Document, b: Document, r: Result<Document>)
    ensures Then(a, Then(b, r)) == Then(a + b, r)
  {
    if r.Ok? {
      assert a + (b + r.value) == (a + b) + r.value;
    }
  }

  /** The texts of the level-1 headings, in document order. */
  function Headings(doc: Document): (hs: seq<string>)
    ensures |hs| <= |doc|
  {
    if doc == [] then []
    else (if doc[0].Heading1? then [doc[0].text] else []) + Headings(doc[1..])
  }

  lemma {:induction false} HeadingsOfConcat(a: Document, b: Document)
    ensures Headings(a + b) == Headings(a) + Headings(b)
    decreases |a|
  {
    if a == [] {
      assert a + b == b;
    } else {
      assert (a + b)[0] == a[0] && (a + b)[1..] == a[1..] + b;
      HeadingsOfConcat(a[1..], b);
    }
  }

  /** Paragraphs that are neither the title nor a level-1 heading. */
  predicate Content(doc: Document) {
    forall k :: 0 <= k < |doc| ==> !doc[k].Heading1? && !doc[k].Title?
  }

  lemma {:induction false} ContentHasNoHeadings(doc: Document)
    requires Content(doc)
    ensures Headings(doc) == []
    decreases |doc|
  {
    if doc != [] {
      ContentHasNoHeadings(doc[1..]);
    }
  }

  lemma ContentConcat(a: Document, b: Document)
    requires Content(a) && Content(b)
    ensures Content(a + b)
  {
    forall k | 0 <= k < |a + b| ensures !(a + b)[k].Heading1? && !(a + b)[k].Title? {
      if k < |a| {
        assert (a + b)[k] == a[k];
      } else {
        assert (a + b)[k] == b[k - |a|];
      }
    }
  }
}
