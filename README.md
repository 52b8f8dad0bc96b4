# Family court helper: document generation and form publishing, in Dafny

This project models the server-side core of the family court helper. That
core is the web application that takes a parent through a configurable
questionnaire (a SurveyJS form) and turns the answers into a Word document
for a child-arrangements application. The model covers:

- **Form publishing** (`FormConfigRoute`, `Database`). `GET /api/form-config`
  serves the active configuration. On first use it bootstraps a version-1
  default. `POST /api/form-config` publishes a new version, leaves it as the
  only active one and purges the narrative-template cache.
- **The narrative-template cache** (`NarrativeTemplateRoute`, `StructuralHash`).
  Templates are keyed by a fingerprint of the form's *structure*: pages,
  element types, names, titles and input types. Descriptive attributes do
  not affect it. `POST /api/narrative-template` is a get-or-insert of the
  static six-section template. `DELETE` empties the cache.
- **The narrative template engine** (`TemplateEngine`, `FieldResolver`,
  `TextCleanup`, `Text`). Placeholder substitution `{{name}}` uses the field
  resolver, including the computed `childCount`, `childrenList` and
  `safetyConcernsStatement`. The clean-up then drops sentences that still
  hold a placeholder, collapses whitespace, merges doubled dots, and falls
  back to `Information not provided.`. A placeholder whose value counts as
  data is replaced by `String(value)`. The clean-up keeps the wording of
  every sentence it keeps: every character other than whitespace and `.`,
  in order.
- **The dynamic document generator** (`DynamicDocx`, `Visibility`). It writes
  one heading per page, "No information provided" for a page without
  answers, a paragraph per visible answered element, and numbered items for
  repeating groups (`paneldynamic`). Row elements are filtered by the
  `visibleIf` condition, which is parsed with the source's regular
  expression.
- **The narrative document generator** (`NarrativeDocx`). It writes a title,
  then the six narrative sections in fixed order, each split at blank lines.
- **The route guard** (`RouteGuard`). Protected prefixes redirect a
  signed-out user to the login page. The exact auth pages redirect a
  signed-in user to the dashboard.

Documents are modelled as sequences of paragraphs (`Docx`). JavaScript
values are a datatype (`JsValues`) with JavaScript truthiness, `||`,
`String(v)` and `join`. The store is a class with the two tables
`form_configs` and `narrative_templates` (`Database.Store`). The route
handlers are methods that update it.

The model keeps these quirks of the code, and lemmas state each one:

- `getFieldValue` has no case for `childOrChildren`, so that placeholder is
  a plain lookup; without an answer it stays unfilled and its sentence is
  dropped.
- `childCount` always resolves to a number, so a count of 0 fills its
  placeholder and counts as data.
- A `visibleIf` field name is looked up verbatim, so a `{panel.x}`
  condition reads a property literally named `panel.x`.
- The page-level "has data" test ignores visibility. A page whose only
  answer is hidden gets its heading and nothing else.
- JavaScript's dot collapse turns `...` into `..`.

## Model

| member | source | states |
|---|---|---|
| Text.SkipWhitespaceShape | src/lib/docx/narrativeTemplateEngine.js:52 | the separator `\s+` consumes exactly the whitespace run and stops at the first other character |
| Text.TrimShape | src/lib/docx/narrativeTemplateEngine.js:58 | `trim()` leaves text that is empty or starts and ends with a non-whitespace character, keeping a non-blank first character |
| Text.TrimOfTrimmed | src/lib/docx/narrativeTemplateEngine.js:66 | `trim()` of an already trimmed text is that text |
| Text.Lower | src/lib/docx/narrativeTemplateEngine.js:142 | `toLowerCase()` keeps the length and lowers each character |
| Text.IntToString | src/lib/docx/narrativeTemplateEngine.js:36-43 | `String(n)` of a number is never empty |
| Visibility.LineEndShape | src/lib/docx/dynamicDocxGenerator.js:149 | the regular-expression `.` run stops exactly at the first line terminator |
| Visibility.ValueStartShape | src/lib/docx/dynamicDocxGenerator.js:149 | `\s*(.+)` starts its capture at the last position the greedy `\s*` can give back to `.`, and fails exactly when no such position exists |
| Visibility.StripQuotesShape | src/lib/docx/dynamicDocxGenerator.js:155 | `replace(/['"]/g, '')` removes every quote and keeps quote-free text unchanged |
| Visibility.NameFromSkips | src/lib/docx/dynamicDocxGenerator.js:149 | the lazy `(.+?)` moves past every position that is not a closing brace |
| Visibility.AfterEqualsWellFormed | src/lib/docx/dynamicDocxGenerator.js:149 | after `=`, `\s*(.+)` captures the whole one-line literal following the spaces |
| Visibility.AfterBraceWellFormed | src/lib/docx/dynamicDocxGenerator.js:149 | `\}\s*=\s*(.+)` captures the literal of a well-formed tail |
| Visibility.ConditionLayout | src/lib/docx/dynamicDocxGenerator.js:149 | where the name, the two whitespace runs and the literal sit in `{name} = literal` |
| Visibility.ParseLayout | src/lib/docx/dynamicDocxGenerator.js:149-151 | `match` of a text laid out as brace, one-line name, brace, `=`, literal yields that name and literal |
| Visibility.ParseWellFormed | src/lib/docx/dynamicDocxGenerator.js:149-151 | every well-formed condition parses back into its field name and literal |
| Visibility.NoBraceNoMatch | src/lib/docx/dynamicDocxGenerator.js:149-150 | a condition without `{` never matches |
| Visibility.UnparsedIsVisible | src/lib/docx/dynamicDocxGenerator.js:148-161 | a condition that does not match leaves the element visible |
| Visibility.ConditionMeaning | src/lib/docx/dynamicDocxGenerator.js:148-161 | a well-formed condition shows the element exactly when the field, read from the row if it is truthy and else from the answers, strictly equals the expected value |
| Visibility.BooleanCondition | src/lib/docx/dynamicDocxGenerator.js:152-159 | `= true` shows the element exactly when the field is the boolean `true`; the string "true" hides it |
| Visibility.QuotesAround | src/lib/docx/dynamicDocxGenerator.js:155 | quotes around a literal are dropped |
| Visibility.StripAppend | src/lib/docx/dynamicDocxGenerator.js:155 | stripping quotes distributes over concatenation |
| Visibility.QuotedCondition | src/lib/docx/dynamicDocxGenerator.js:152-159 | a quoted literal is compared as a string with the text between the quotes |
| Visibility.PanelPrefixIsNotStripped | src/lib/docx/dynamicDocxGenerator.js:151-159 | a `{panel.x} = true` condition hides an element of a row that stores `x`, even when `x` is true |
| Visibility.FalsyRowReadsAnswers | src/lib/docx/dynamicDocxGenerator.js:152 | a falsy row sends the lookup to the top-level answers |
| TextCleanup.SplitFromShape | src/lib/docx/narrativeTemplateEngine.js:52 | every piece of the sentence split but the last ends with `.`, `!` or `?`, no piece holds a point where the separator could match, and the pieces together hold every non-whitespace character of the text, in order |
| TextCleanup.SplitFromPieces | src/lib/docx/narrativeTemplateEngine.js:52 | every piece of the split but the last ends with `.`, `!` or `?`, and no piece holds a point where the separator could match |
| TextCleanup.SplitSentencesShape | src/lib/docx/narrativeTemplateEngine.js:52 | the split yields at least one piece, each one sentence as above; the pieces keep every non-whitespace character of the text in order, and on single-spaced text joining them with a space gives the text back |
| TextCleanup.SplitFromCovers | src/lib/docx/narrativeTemplateEngine.js:52 | the split loses no text: the pieces, joined, hold every non-whitespace character of the text |
| TextCleanup.SplitFromSingleSpaced | src/lib/docx/narrativeTemplateEngine.js:52 | on single-spaced text the split is undone exactly by joining the pieces with a space, as line 58 does |
| TextCleanup.NoSplitPointIsWhole | src/lib/docx/narrativeTemplateEngine.js:52 | text with no sentence end followed by whitespace is a single piece |
| TextCleanup.CollapseWhitespace | src/lib/docx/narrativeTemplateEngine.js:66 | `replace(/\s+/g, ' ')` leaves only plain spaces, never two in a row, is empty exactly when its input is, and adds no `{{` |
| TextCleanup.NonWhitespaceOfWhitespaceRun | src/lib/docx/narrativeTemplateEngine.js:66 | a leading whitespace run contributes no characters |
| TextCleanup.CollapseKeepsText | src/lib/docx/narrativeTemplateEngine.js:66 | the whitespace collapse keeps every non-whitespace character, in order |
| TextCleanup.CollapseSingleSpaced | src/lib/docx/narrativeTemplateEngine.js:66 | the whitespace collapse leaves single-spaced text unchanged |
| TextCleanup.CollapseKeepsWording | src/lib/docx/narrativeTemplateEngine.js:66 | the whitespace collapse keeps the wording: every character other than whitespace and `.`, in order |
| TextCleanup.TrimKeepsWording | src/lib/docx/narrativeTemplateEngine.js:58 | `trim()` keeps the wording |
| TextCleanup.CollapseDots | src/lib/docx/narrativeTemplateEngine.js:69 | `replace(/\.\s*\./g, '.')` does not lengthen the text, keeps its first character, and introduces no whitespace other than spaces and no `{{` |
| TextCleanup.CollapseDotsKeepsWording | src/lib/docx/narrativeTemplateEngine.js:69 | the dot collapse removes only dots and the whitespace between them: every other character is kept, in order |
| TextCleanup.CollapseDotsChanges | src/lib/docx/narrativeTemplateEngine.js:69 | the dot collapse changes the text exactly when a dot, optional whitespace and a dot occur in it |
| TextCleanup.HasDotPairShift | src/lib/docx/narrativeTemplateEngine.js:69 | without a match at the start, the matches are those of the rest of the text |
| TextCleanup.EllipsisKeepsTwoDots | src/lib/docx/narrativeTemplateEngine.js:69 | the dot collapse turns `...` into `..` |
| TemplateEngine.CloseAt | src/lib/docx/narrativeTemplateEngine.js:34 | `[^}]+` runs exactly up to the first `}` |
| TemplateEngine.EndAt | src/lib/docx/narrativeTemplateEngine.js:34 | a matched placeholder spans at least `{{x}}` |
| TemplateEngine.ScannedIsPlaceholder | src/lib/docx/narrativeTemplateEngine.js:34-36 | every position the global replace visits is a placeholder match |
| TemplateEngine.UnfilledKeepsText | src/lib/docx/narrativeTemplateEngine.js:36-43 | when no placeholder takes a value, the replaced text is the template unchanged |
| TemplateEngine.AnyDataMeaning | src/lib/docx/narrativeTemplateEngine.js:36-43 | `hasAnyData` is set exactly when some matched placeholder resolves to a value other than null, undefined, '' and 'no children' |
| TemplateEngine.ReplaceFrom | src/lib/docx/narrativeTemplateEngine.js:34-43 | `template.replace(placeholderRegex, callback)` with the `hasAnyData` flag; what it computes is stated by SubstituteOne, AnyDataMeaning, UnfilledKeepsText and PlainStretch |
| TemplateEngine.NoPlaceholderNoData | src/lib/docx/narrativeTemplateEngine.js:34-48 | a template with no placeholder match is left unchanged and takes no data |
| TemplateEngine.PlainStretch | src/lib/docx/narrativeTemplateEngine.js:34-43 | a stretch in which no placeholder starts is copied to the output as it is |
| TemplateEngine.CloseAtShift | src/lib/docx/narrativeTemplateEngine.js:34 | the scan for the closing brace looks only forward from where it starts |
| TemplateEngine.PlaceholderShift | src/lib/docx/narrativeTemplateEngine.js:34 | whether a placeholder starts at a position depends only on the text from there on |
| TemplateEngine.BracedLayout | src/lib/docx/narrativeTemplateEngine.js:34 | in `a{{n}}b` the pattern matches exactly at `{{n}}`, capturing `n`, when `a` cannot start a placeholder, `n` holds no `}` and `b` holds no placeholder |
| TemplateEngine.ReplaceAtPlaceholder | src/lib/docx/narrativeTemplateEngine.js:36-43 | at a placeholder the replace resolves its name, then writes `String(value)` for a value that counts as data and the placeholder itself otherwise, ahead of the rest |
| TemplateEngine.OnlyPlaceholderAt | src/lib/docx/narrativeTemplateEngine.js:34-43 | over a text whose only placeholder starts at `p`, the replace copies the text before it, resolves it, and copies the text after it |
| TemplateEngine.SubstituteOne | src/lib/docx/narrativeTemplateEngine.js:34-43 | in `a{{n}}b` the placeholder becomes `String(value)` and the data flag is set when the value counts as data; otherwise the text is unchanged and the flag stays clear; a resolver error is thrown |
| TemplateEngine.StepBetween | src/lib/docx/narrativeTemplateEngine.js:36-43 | one replace step between copied text and a placeholder-free suffix gives prefix, replacement and suffix in order |
| TemplateEngine.KeepComplete | src/lib/docx/narrativeTemplateEngine.js:53-56 | the filter keeps only sentences of the split that hold no `{{` |
| TemplateEngine.KeepCompleteMeaning | src/lib/docx/narrativeTemplateEngine.js:53-56 | a sentence is kept if and only if it is one of the split's pieces and holds no `{{` |
| TemplateEngine.KeepCompleteOfAppend | src/lib/docx/narrativeTemplateEngine.js:53-56 | the filter keeps the sentences' order: filtering a concatenation is concatenating the filtered parts |
| TemplateEngine.SplitKeepsNoDoubleBrace | src/lib/docx/narrativeTemplateEngine.js:52 | splitting text that holds no `{{` gives pieces that hold no `{{` |
| TemplateEngine.AllCompleteKept | src/lib/docx/narrativeTemplateEngine.js:53-56 | a list without a `{{` anywhere passes the filter unchanged |
| TemplateEngine.CompleteTextKeepsEverySentence | src/lib/docx/narrativeTemplateEngine.js:52-58 | when every placeholder was filled, no sentence is dropped: the pruned text is the whole text re-joined and trimmed |
| TemplateEngine.JoinNoDoubleBrace | src/lib/docx/narrativeTemplateEngine.js:58 | joining `{{`-free sentences with spaces creates no `{{` |
| TemplateEngine.PruneShape | src/lib/docx/narrativeTemplateEngine.js:52-58 | the pruned text holds no `{{` and is trimmed |
| TemplateEngine.PolishShape | src/lib/docx/narrativeTemplateEngine.js:66-69 | the whitespace and dot clean-up of a non-empty trimmed text stays non-empty, trimmed, free of `{{` and uses spaces only, and it keeps the text's wording: every character other than whitespace and `.`, in order |
| TemplateEngine.FinishShape | src/lib/docx/narrativeTemplateEngine.js:50-71 | a filled section is non-empty, trimmed, free of `{{`, and its only whitespace is the plain space; unless pruning left nothing or a lone `.`, it keeps the wording of the sentences the filter kept |
| TemplateEngine.SentinelShape | src/lib/docx/narrativeTemplateEngine.js:47 | the fallback `Information not provided.` has the same shape |
| TemplateEngine.FillShape | src/lib/docx/narrativeTemplateEngine.js:29-72 | every successful `fillTemplate` result is non-empty, trimmed, holds no `{{` and no newline, and is the fallback whenever no placeholder took a value (not only then: see UnfilledNeighbourSilencesSentence) |
| TemplateEngine.FillSpec | src/lib/docx/narrativeTemplateEngine.js:29-72 | `fillTemplate` as a function; its meaning is stated by FillShape, CompleteFillKeepsWording, FillOnePlaceholder and HelloFills |
| TemplateEngine.NoPlaceholderIsSentinel | src/lib/docx/narrativeTemplateEngine.js:46-48 | a template without placeholders, the empty one included, fills to the fallback |
| TemplateEngine.FinishOfClean | src/lib/docx/narrativeTemplateEngine.js:50-71 | the clean-up returns text unchanged when it holds no `{{`, no whitespace run, no dot pair and is trimmed, neither empty nor `.` |
| TemplateEngine.PruneKeepsWording | src/lib/docx/narrativeTemplateEngine.js:52-58 | with no placeholder left over, pruning keeps the whole wording of the text |
| TemplateEngine.CompleteTextKeepsWording | src/lib/docx/narrativeTemplateEngine.js:50-71 | when every placeholder was filled and the text has wording, the result keeps all of it, in order |
| TemplateEngine.CompleteFillKeepsWording | src/lib/docx/narrativeTemplateEngine.js:29-72 | once a placeholder took a value and none is left over, `fillTemplate` returns the wording of the substituted text |
| TemplateEngine.FillOnePlaceholder | src/lib/docx/narrativeTemplateEngine.js:29-72 | a template `a{{n}}b` fills to the fallback when the value does not count as data; otherwise to the wording of `a + String(value) + b`, and to exactly that text when it is already clean |
| TemplateEngine.UnfilledNeighbourSilencesSentence | src/lib/docx/narrativeTemplateEngine.js:29-72 | the template `{{a}}{{b}}` with only `a` answered takes data and still fills to the fallback, because its one sentence keeps the unfilled `{{b}}` and is dropped |
| TemplateEngine.HelloResolve | src/lib/docx/narrativeTemplateEngine.js:115-116 | the name `name` has no case of its own and resolves to its answer |
| TemplateEngine.HelloIsClean | src/lib/docx/narrativeTemplateEngine.js:61-69 | `Hello Bob.` is text the clean-up leaves alone |
| TemplateEngine.HelloFills | src/lib/docx/narrativeTemplateEngine.js:29-72 | `fillTemplate('Hello {{name}}.', {name: 'Bob'})` is `Hello Bob.` |
| TemplateEngine.ReplacePlaceholders | src/lib/docx/narrativeTemplateEngine.js:34-43 | the replace loop computes the text and the `hasAnyData` flag of the specification |
| TemplateEngine.FillTemplate | src/lib/docx/narrativeTemplateEngine.js:29-72 | the method computes `fillTemplate`, failing where JavaScript throws: a non-string template, or a resolver that throws |
| TemplateEngine.SubstituteMeaning | src/lib/docx/narrativeTemplateEngine.js:13-21 | substitution keeps the sections' keys and order, fills each section on its own, and fails exactly when some section fails |
| TemplateEngine.SubstituteDataIntoTemplate | src/lib/docx/narrativeTemplateEngine.js:13-21 | the loop over `Object.entries` computes that substitution |
| TemplateEngine.GenerateNarrativeSections | src/lib/docx/narrativeTemplateEngine.js:227-238 | a missing template or one without `template_sections` throws `Invalid template`; otherwise the result is the substitution of its sections |
| FieldResolver.ChildCount | src/lib/docx/narrativeTemplateEngine.js:80 | `children?.length \|\| 0` is the number of children, and 0 when the answer is missing |
| FieldResolver.FormatChildrenList | src/lib/docx/narrativeTemplateEngine.js:122-147 | `formatChildrenList(children)`; stated by ChildrenListMeaning and EntriesFromMeaning |
| FieldResolver.FormatSafetyConcerns | src/lib/docx/narrativeTemplateEngine.js:152-183 | `formatSafetyConcerns(data)`; stated by SafetyStatementCases, SafetyStatementFails, PoliceDetailsNeedPolice and OrderDetailsNeedOrders |
| FieldResolver.GetFieldValue | src/lib/docx/narrativeTemplateEngine.js:77-117 | `getFieldValue(fieldName, data)`; stated by ResolverPrecedence, ResolverErrors, ChildCountAlwaysCounts and PlainNamesAreLookups |
| FieldResolver.EntriesFromMeaning | src/lib/docx/narrativeTemplateEngine.js:127-146 | the map succeeds exactly when no child is bad, and then gives one entry per child, in order |
| FieldResolver.ChildrenListMeaning | src/lib/docx/narrativeTemplateEngine.js:122-147 | a missing or empty list reads "no children"; a non-empty list gives one entry per child joined by "; ", and fails exactly when some child is bad |
| FieldResolver.SafetyStatementCases | src/lib/docx/narrativeTemplateEngine.js:152-183 | without concerns the statement is the fixed sentence, saying "children" exactly when there is more than one child; it fails exactly when concerns are reported with a non-empty string of types |
| FieldResolver.SafetyStatementFails | src/lib/docx/narrativeTemplateEngine.js:160-161 | the only failure is `join` on a non-empty string of concern types |
| FieldResolver.PoliceDetailsNeedPolice | src/lib/docx/narrativeTemplateEngine.js:168-173 | police details change the statement only when police involvement is reported |
| FieldResolver.OrderDetailsNeedOrders | src/lib/docx/narrativeTemplateEngine.js:175-180 | court-order details change the statement only when court orders are reported |
| FieldResolver.ChildCountAlwaysCounts | src/lib/docx/narrativeTemplateEngine.js:79-81 | `childCount` always resolves to a number, so it counts as data even when it is 0 |
| FieldResolver.PlainNamesAreLookups | src/lib/docx/narrativeTemplateEngine.js:116 | a name with no case of its own is a plain lookup, and an absent one never counts as data |
| FieldResolver.ChildOrChildrenIsPlainLookup | src/lib/docx/narrativeTemplateEngine.js:77-117 | `childOrChildren` has no case, so without an answer it resolves to undefined |
| FieldResolver.FirstCharAbsent | src/lib/docx/narrativeTemplateEngine.js:92 | `includes` cannot find a text whose first character is absent |
| FieldResolver.ResolverPrecedence | src/lib/docx/narrativeTemplateEngine.js:92-113 | truthy date names are formatted first; booleans read Yes/No (false also under a date name); arrays are joined by ", "; an absent `panel.` name resolves to null |
| FieldResolver.ResolverErrors | src/lib/docx/narrativeTemplateEngine.js:77-117 | resolution fails only for `childrenList` and `safetyConcernsStatement`, and exactly when their builders throw |
| Docx.HeadingsOfConcat | src/lib/docx/dynamicDocxGenerator.js:31 | the headings of two written parts are the headings of each, in order |
| Docx.ContentHasNoHeadings | src/lib/docx/dynamicDocxGenerator.js:72-125 | answer paragraphs carry no page heading |
| DynamicDocx.ElementParagraphsShape | src/lib/docx/dynamicDocxGenerator.js:143-249 | an element writes nothing exactly when it is hidden or unanswered, otherwise one paragraph (two for a comment), never a heading |
| DynamicDocx.ElementParagraphs | src/lib/docx/dynamicDocxGenerator.js:143-249 | `createElementParagraphs(element, data, panelData)`; stated by ElementParagraphsShape, FalseRendersNo, CheckboxWithoutArray and FailedConditionHidesAnswer |
| DynamicDocx.RowDocs | src/lib/docx/dynamicDocxGenerator.js:86-109 | there is one rendered row per answer row |
| DynamicDocx.NumberedStep | src/lib/docx/dynamicDocxGenerator.js:86-109 | the row walk appends item `i`'s label and paragraphs, then the rest |
| DynamicDocx.NumberedIsFlatten | src/lib/docx/dynamicDocxGenerator.js:86-109 | numbering rows writes the rows' blocks one after the other |
| DynamicDocx.PanelRows | src/lib/docx/dynamicDocxGenerator.js:74-109 | an answer array of `n` rows gives the group heading and `n` blocks in row order, block `k` labelled `Item k+1` and filtered against row `k` only |
| DynamicDocx.EmptyPanel | src/lib/docx/dynamicDocxGenerator.js:111-118 | an absent, falsy or empty answer array renders the group heading and "No items added" |
| DynamicDocx.StringPanelThrows | src/lib/docx/dynamicDocxGenerator.js:86 | a non-empty string where the rows should be makes `forEach` throw |
| DynamicDocx.RenderRow | src/lib/docx/dynamicDocxGenerator.js:102-109 | the loop over the template elements writes the row's paragraphs |
| DynamicDocx.RenderPanel | src/lib/docx/dynamicDocxGenerator.js:74-119 | the method writes the repeating-group branch |
| DynamicDocx.RenderPage | src/lib/docx/dynamicDocxGenerator.js:32-125 | the method writes one page |
| DynamicDocx.GenerateDynamicDocument | src/lib/docx/dynamicDocxGenerator.js:9-138 | the method writes the whole document and throws where the source does |
| DynamicDocx.DynamicDocument | src/lib/docx/dynamicDocxGenerator.js:9-31 | a missing application fails with "Application not found"; a configuration without pages fails on `pages.forEach` |
| DynamicDocx.RowUpToIsContent | src/lib/docx/dynamicDocxGenerator.js:102-109 | row paragraphs hold no title or page heading |
| DynamicDocx.NumberedIsContent | src/lib/docx/dynamicDocxGenerator.js:89-109 | numbered rows hold no title or page heading |
| DynamicDocx.ElementsFromIsContent | src/lib/docx/dynamicDocxGenerator.js:72-125 | the element walk writes no title or page heading |
| DynamicDocx.PageHeading | src/lib/docx/dynamicDocxGenerator.js:43-69 | a rendered page has exactly one page heading, its title, and it comes first |
| DynamicDocx.PagesFromHeadings | src/lib/docx/dynamicDocxGenerator.js:31-126 | the page headings written are the page titles, in order |
| DynamicDocx.DocumentOutline | src/lib/docx/dynamicDocxGenerator.js:14-126 | a generated document starts with its title, and its page headings are the page titles, one per page, in page order |
| DynamicDocx.UnansweredPagesFrom | src/lib/docx/dynamicDocxGenerator.js:33-69 | pages without answers are each a heading followed by "No information provided" |
| DynamicDocx.UnansweredDocument | src/lib/docx/dynamicDocxGenerator.js:33-69 | when no page holds an answer, the document is the title, then for every page its heading and exactly one "No information provided" paragraph |
| DynamicDocx.EmptyAnswersDocument | src/lib/docx/dynamicDocxGenerator.js:33-69 | the same holds for an empty answer set |
| DynamicDocx.HiddenAnswerKeepsPage | src/lib/docx/dynamicDocxGenerator.js:33-40 | the page test ignores visibility: a page whose only answer is hidden gets its heading and nothing else |
| DynamicDocx.FalseRendersNo | src/lib/docx/dynamicDocxGenerator.js:224-234 | a boolean answer `false` renders as "No" |
| DynamicDocx.CheckboxWithoutArray | src/lib/docx/dynamicDocxGenerator.js:211-222 | a checkbox answer that is not an array renders "None" |
| DynamicDocx.FailedConditionHidesAnswer | src/lib/docx/dynamicDocxGenerator.js:148-166 | an element whose condition `{name} = true` fails writes nothing, however it is answered |
| NarrativeDocx.SplitBlankFrom | src/lib/docx/narrativeDocxGenerator.js:63 | `split('\n\n')` gives at least one piece |
| NarrativeDocx.PieceParagraph | src/lib/docx/narrativeDocxGenerator.js:64-72 | a piece writes at most one plain paragraph, non-empty and trimmed |
| NarrativeDocx.KeepNonEmptyIsContent | src/lib/docx/narrativeDocxGenerator.js:63-73 | the split paragraphs carry no heading |
| NarrativeDocx.SectionBodyIsContent | src/lib/docx/narrativeDocxGenerator.js:59-82 | a section body carries no heading |
| NarrativeDocx.SectionBlockHeadings | src/lib/docx/narrativeDocxGenerator.js:36-147 | a section contributes its heading once, and only when its text is present and non-empty |
| NarrativeDocx.NarrativeDocument | src/lib/docx/narrativeDocxGenerator.js:10-22 | a missing application, a missing template and a template without sections each throw their message; a document starts with its title |
| NarrativeDocx.NarrativeOutline | src/lib/docx/narrativeDocxGenerator.js:27-147 | after the title, the headings are those of the written sections in the fixed order applicant, respondent, children, current, proposed, safety |
| NarrativeDocx.NarrativeChildren | src/lib/docx/narrativeDocxGenerator.js:25-147 | the `children` list the generator builds: the title, then the six sections in order; stated by NarrativeOutline, SixSections and StandardTemplateDocument |
| NarrativeDocx.SplitSection | src/lib/docx/narrativeDocxGenerator.js:63-73 | the loop over the blank-line pieces writes a paragraph for each piece that is not blank |
| NarrativeDocx.AppendSection | src/lib/docx/narrativeDocxGenerator.js:59-82 | one `if (narrativeSections.key)` block appends that section's heading and body |
| NarrativeDocx.GenerateNarrativeDocument | src/lib/docx/narrativeDocxGenerator.js:10-159 | the method writes the narrative document |
| NarrativeDocx.NoBlankLineIsWhole | src/lib/docx/narrativeDocxGenerator.js:63 | text without a newline is one piece |
| NarrativeDocx.OneLineIsOneParagraph | src/lib/docx/narrativeDocxGenerator.js:63-73 | one line of trimmed, non-empty text becomes exactly one paragraph |
| NarrativeDocx.FilledTextIsOneParagraph | src/lib/docx/narrativeDocxGenerator.js:63-73 | every filled section text becomes exactly one paragraph |
| NarrativeDocx.FilledFromAreSingleParagraphs | src/lib/docx/narrativeDocxGenerator.js:59-147 | every text of a substitution becomes exactly one paragraph |
| NarrativeDocx.FilledSectionsAreSingleParagraphs | src/lib/docx/narrativeDocxGenerator.js:59-147 | blank-line splitting never divides a filled section |
| NarrativeDocx.SectionTextAt | src/lib/docx/narrativeDocxGenerator.js:37-41 | a key held by one section reads that section's text |
| NarrativeDocx.SixSections | src/lib/docx/narrativeDocxGenerator.js:27-147 | six filled one-paragraph sections under the standard keys give the title, six headings and six paragraphs, with spacers after children, current and proposed |
| NarrativeDocx.WrittenSection | src/lib/docx/narrativeDocxGenerator.js:59-82 | a present one-paragraph section is its heading, its text and the optional spacer |
| NarrativeDocx.StandardTemplateDocument | src/lib/docx/narrativeDocxGenerator.js:10-159 | for a template with the six standard keys, all six sections are always written, each as its heading and one paragraph of filled text |
| NarrativeDocx.SubstitutedKeys | src/lib/docx/narrativeTemplateEngine.js:13-21 | the filled sections keep the template's keys in order |
| StructuralHash.ProjectionIsShape | src/app/api/narrative-template/route.js:230-249 | the hashed structure sees exactly the shape: two configurations project equally exactly when they have the same shape |
| StructuralHash.RowSchemaProjection | src/app/api/narrative-template/route.js:241-246 | row schemas project equally exactly when they agree on type, name, title and input type, absent staying absent |
| StructuralHash.ElementProjection | src/app/api/narrative-template/route.js:236-247 | elements project equally exactly when they have the same shape |
| StructuralHash.PageProjection | src/app/api/narrative-template/route.js:233-248 | pages project equally exactly when they have the same shape |
| StructuralHash.SameShapeSameHash | src/app/api/narrative-template/route.js:230-255 | configurations of the same shape share a fingerprint, whatever the hash function |
| StructuralHash.DescriptiveEditKeepsHash | src/app/api/narrative-template/route.js:230-255 | editing an element's choices, visibility or other attributes leaves the fingerprint alone |
| StructuralHash.SummaryExtendsStructure | src/app/api/narrative-template/route.js:363-384 | the prompt summary is the hashed structure plus choices and row visibility |
| NarrativeTemplateRoute.StaticTemplateShape | src/app/api/narrative-template/route.js:344-358 | the static template has the six section keys in order, every section is a string, safety is the single computed placeholder, and it does not depend on the configuration |
| NarrativeTemplateRoute.GenerateTemplateWithAI | src/app/api/narrative-template/route.js:263-338 | both paths of the generator, success and the caught failure, return the static template |
| NarrativeTemplateRoute.LoadedConfigIsActiveOrDefault | src/lib/form/formConfigServer.js:11-37 | the loader serves either the default configuration or the configuration of a row that is active in the table |
| NarrativeTemplateRoute.PublishedConfigIsLoaded | src/lib/form/formConfigServer.js:11-37 | once the form-config route has deactivated every row and appended an active one, the loader serves that row's configuration whenever its read succeeds |
| NarrativeTemplateRoute.Post | src/app/api/narrative-template/route.js:30-179 | no user: 401 with the cache unchanged. A configuration without pages: 500. A cached template is served as cached, directly or after the duplicate-key refetch. A miss inserts exactly one template under the fingerprint, unless the insert fails. The configuration table never changes |
| NarrativeTemplateRoute.Delete | src/app/api/narrative-template/route.js:182-225 | no user: 401. A failed delete changes nothing. Otherwise the cache is empty |
| Database.ActiveRecords | src/app/api/form-config/route.js:16-20 | the active rows are table rows with `is_active` set |
| Database.ActiveOfAppend | src/app/api/form-config/route.js:52-63 | the active rows of an appended table are those of each part, in order |
| Database.DeactivatedHasNoActive | src/app/api/form-config/route.js:167-171 | after deactivate-all no row is active |
| Database.PublishedIsSoleActive | src/app/api/form-config/route.js:167-205 | deactivating all rows, then inserting an active one, leaves that one the only active row |
| Database.DeactivatedKeepsData | src/app/api/form-config/route.js:167-171 | deactivation only clears the flag: id, version, configuration, author and notes are kept |
| Database.SafetyPassIsNoOp | src/app/api/form-config/route.js:211-216 | the safety pass after a successful deactivate-all changes nothing |
| Database.SafetyPassLeavesOnlyKept | src/app/api/form-config/route.js:211-216 | after the safety pass, every row still active carries the kept id |
| Database.OneActiveUnderOneId | src/app/api/form-config/route.js:211-216 | with distinct ids, rows that are all active under one id number at most one |
| Database.MaxVersionIsMax | src/app/api/form-config/route.js:152-163 | the latest version is one of the stored versions and bounds all of them |
| Database.PurgeRemovesAll | src/app/api/form-config/route.js:225-228 | no template has the all-zero id, so the delete removes every template |
| Database.Store.constructor | src/app/api/form-config/route.js:8-20 | a new store has empty tables |
| Database.Store.InsertConfig | src/app/api/form-config/route.js:185-197 | the insert appends one row with a fresh id, keeping at most one active row |
| Database.Store.DeactivateAll | src/app/api/form-config/route.js:167-171 | every row becomes inactive; nothing else changes |
| Database.Store.DeactivateAllExcept | src/app/api/form-config/route.js:211-216 | every row other than the kept one becomes inactive, the other columns and tables are kept, and the store stays valid (at most one active row, distinct ids) |
| Database.Store.InsertTemplate | src/app/api/narrative-template/route.js:111-120 | the insert files one template under a fingerprint not yet stored |
| Database.Store.DeleteTemplatesExcept | src/app/api/form-config/route.js:225-228 | the delete keeps only templates with the given id |
| FormConfigRoute.NewVersionIsFresh | src/app/api/form-config/route.js:152-163 | once the latest-version query succeeds, the new version exceeds every stored one, and it is 1 on an empty table |
| FormConfigRoute.Get | src/app/api/form-config/route.js:8-118 | a failing query serves the default as version 1 from code. One active row is served from the database. No active row bootstraps exactly one active version-1 default, or falls back to the default when that insert fails. The template cache is never touched |
| FormConfigRoute.Post | src/app/api/form-config/route.js:121-257 | no user: 401. No configuration: 400. A failed deactivate changes nothing. A failed insert leaves every row inactive. Otherwise the new row, with a version above every stored one and its notes or "Version n", is the only active row, and the template cache is emptied unless the purge fails |
| RouteGuard.Middleware | middleware.js:4-32 | a request is sent to the login page exactly when the path has a protected prefix and there is no user, carrying the path. It is sent to the dashboard exactly when a user asks for an auth page. Otherwise it passes |
| RouteGuard.AuthRoutesAreUnprotected | middleware.js:9-25 | no auth page is a protected page |
| RouteGuard.RedirectsAreExclusive | middleware.js:15-29 | a signed-out request never goes to the dashboard, a signed-in one never to the login page |
| RouteGuard.RedirectTargetsPassThrough | middleware.js:15-29 | following any redirect with the same session passes through |
| RouteGuard.SubPathsAreProtected | middleware.js:9-19 | every path under a protected prefix needs a user and passes for one |
| RouteGuard.AuthMatchIsExact | middleware.js:22-31 | an auth page followed by anything more passes through, with or without a user |

## Left out

- I/O and services. The Supabase client, `NextResponse`, cookies and `updateSession` are not modelled. Each store call that can fail is a boolean fault parameter of the route method.
- Concurrency. Requests run one at a time. The duplicate-key path of the template insert (PostgreSQL code 23505) is reached through the lookup fault: the lookup fails while the template is in fact stored.
- Hashing. sha256 of `JSON.stringify(structure)` is the parameter `hasher`, so the lemmas hold for every hash function. Collisions between different structures are not ruled out.
- The AI call. The Hugging Face prompt is built but never sent, so it is not modelled. `generateTemplateWithAI` returns the static template on both paths.
- `GET /api/narrative-template` is a health check reporting environment settings and the clock. It is not modelled.
- `getFormVersionServer` in src/lib/form/formConfigServer.js is not used by the modelled routes and is not modelled.
- Clock and locale. `formatDate`, `calculateAge` and the `toLocaleDateString` of `formatTextValue` are the functions of the `Env` parameter.
- Console logging and the `stack` field of error responses are not modelled.
- Each error response is a constructor, not its JSON body.
- The middleware's `config.matcher` (which requests reach the guard) is routing configuration and is not modelled.
- Layout attributes of the docx paragraphs are not modelled: spacing, borders, sizes and alignment. The model keeps the text, the bold and italic flags, and the paragraph kind (title, heading, sub-heading, body, runs).
- JsValues.Length: the `length` property of a plain object (`{length: 3}`) is not modelled. Only arrays and strings have a length.
- Property access on a string or an array, and inherited properties, always give `undefined`.
- Text.Lower: `toLowerCase` is modelled on the ASCII letters only.
- `String(v)` of an object or a fraction is not the engine's exact text. Numbers are integers, and objects render as `[object Object]`.
- Only a `visibleIf` that is a string is modelled. The elements of a form configuration carry `visibleIf` as an optional string.
- NarrativeDocx.SectionText: keys are read from the substituted list, the last one winning, as in an object literal. A list with repeated keys is not checked further.
- The application's `dynamic_data` is always present. On a missing one the source throws a TypeError when it reads a property of `undefined`: in `generateDynamicDocument` at `application.dynamic_data[element.name]` (src/lib/docx/dynamicDocxGenerator.js:35, :38), and on the narrative path in `getFieldValue` (src/lib/docx/narrativeTemplateEngine.js:80, 93, 100, 116) as soon as a placeholder is resolved.
- Visibility.ExpectedValue: it carries no contract of its own. Its meaning is stated through ConditionMeaning, BooleanCondition and QuotedCondition.
- Form configurations always carry a page's `title` and `elements` and an element's `title`, `type` and `name`. In the source, a page without `elements` throws in `generateDynamicDocument` (src/lib/docx/dynamicDocxGenerator.js:33) and in `generateFormConfigHash` (src/app/api/narrative-template/route.js:236), which the POST handler calls first (src/app/api/narrative-template/route.js:81). That throw ends as the catch-all 500 of the POST handler. The same throw in `extractFormStructure` (src/app/api/narrative-template/route.js:368) would be caught inside `generateTemplateWithAI` (src/app/api/narrative-template/route.js:325-336), which returns the static template. An element without a `title` prints `undefined: ` before its answer (src/lib/docx/dynamicDocxGenerator.js:175). The structural hash omits the missing key.
- The catch-all `500 Internal server error` of both POST handlers is not modelled (src/app/api/form-config/route.js:250-256, src/app/api/narrative-template/route.js:168-178). It covers an exception outside the modelled fault points, such as a body that is not JSON in `request.json()`.
- `generateDynamicDocument` reads its form configuration through `loadFormConfig()` (src/lib/docx/dynamicDocxGenerator.js:15), which takes it from the browser's localStorage or else the built-in default (src/lib/form/formStorage.js). The model takes that configuration as the parameter `c` of DynamicDocument and GenerateDynamicDocument; localStorage is not modelled.
