/**
 * The placeholder resolver of the narrative engine
 * (src/lib/docx/narrativeTemplateEngine.js:77-183): `getFieldValue` and the
 * two derived fields it computes, `formatChildrenList` and
 * `formatSafetyConcerns`. A `TypeError` the JavaScript would throw is `Err`.
 */
module FieldResolver {
  import opened Results
  import opened Text
  import opened JsValues

  /**
   * The clock- and locale-dependent helpers, as functions supplied by the
   * caller: `formatDate` (`toLocaleDateString('en-GB', { day, month: 'long',
   * year })`), `calculateAge` (years since the date, rendered as `${age}`
   * renders it, `None` for its `null`) and `shortDate`
   * (`toLocaleDateString('en-GB')`, used by the Q/A assembler).
   */
  datatype Env = Env(formatDate: Value -> string, calculateAge: Value -> Option<string>, shortDate: Value -> string)

  const NoChildren := "no children"

  /** The test the replace callback applies to a resolved value. */
  predicate CountsAsData(v: Value) {
    v != Null && v != Undefined && v != Str("") && v != Str(NoChildren)
  }

  /** `data.children?.length || 0`. */
  function ChildCount(data: Data): (n: nat)
    ensures Get(data, "children").Arr? ==> n == |Get(data, "children").items|
    ensures Nullish(Get(data, "children")) ==> n == 0
  {
    var len := Length(Get(data, "children"));
    if len.Some? then len.value else 0
  }

  // ----- formatChildrenList -----

  /** The parts of one child's entry: name, `aged N`, lower-cased gender, each when present. */
  function EntryParts(child: Value, env: Env): (parts: seq<string>)
    requires !Nullish(child)
    requires var gender := Property(child, "childGender"); Truthy(gender) ==> gender.Str?
    ensures |parts| <= 3
  {
    var name := Property(child, "childName");
    var dob := Property(child, "childDOB");
    var gender := Property(child, "childGender");
    var age := if Truthy(dob) then env.calculateAge(dob) else None;
    (if Truthy(name) then [ToJsString(name)] else [])
    + (if age.Some? then ["aged " + age.value] else [])
    + (if Truthy(gender) then [Lower(gender.s)] else [])
  }

  /** A child the entry builder throws on: `null`/`undefined`, or a gender without `toLowerCase`. */
  predicate BadChild(child: Value) {
    Nullish(child) || (Truthy(Property(child, "childGender")) && !Property(child, "childGender").Str?)
  }

  /** The `children.map(...)` callback. */
  function ChildEntry(child: Value, env: Env): Result<string> {
    if Nullish(child) then Err("TypeError: Cannot read properties of " + ToJsString(child))
    else
      var gender := Property(child, "childGender");
      if Truthy(gender) && !gender.Str? then Err("TypeError: child.childGender.toLowerCase is not a function")
      else Ok(Join(EntryParts(child, env), ", "))
  }

  /** `children.map(...)` from index `k` on, stopping at the first child that throws. */
  function EntriesFrom(children: seq<Value>, k: nat, env: Env): Result<seq<string>>
    requires k <= |children|
    decreases |children| - k
  {
    if k == |children| then Ok([])
    else
      var entry :- ChildEntry(children[k], env);
      var rest :- EntriesFrom(children, k + 1, env);
      Ok([entry] + rest)
  }

  /** The map succeeds exactly when no child is bad, and then yields one entry per child, in order. */
  lemma {:induction false} EntriesFromMeaning(children: seq<Value>, k: nat, env: Env)
    requires k <= |children|
    ensures EntriesFrom(children, k, env).Ok? <==> forall m :: k <= m < |children| ==> !BadChild(children[m])
    ensures EntriesFrom(children, k, env).Ok? ==>
      var es := EntriesFrom(children, k, env).value;
      |es| == |children| - k
      && forall m :: k <= m < |children| ==> es[m - k] == Join(EntryParts(children[m], env), ", ")
    decreases |children| - k
  {
    if k < |children| {
      EntriesFromMeaning(children, k + 1, env);
    }
  }

  /** `formatChildrenList(children)`. */
  function FormatChildrenList(children: Value, env: Env): Result<string> {
    if !Truthy(children) || Length(children) == Some(0) then Ok(NoChildren)
    else if !children.Arr? then Err("TypeError: children.map is not a function")
    else
      var entries :- EntriesFrom(children.items, 0, env);
      Ok(Join(entries, "; "))
  }

  /**
   * A missing or empty list reads "no children"; a non-empty list of children
   * gives one entry per child, in order, joined by "; ", and fails exactly
   * when some child is null or has a non-string gender.
   */
  lemma ChildrenListMeaning(children: Value, env: Env)
    ensures !Truthy(children) || children == Arr([]) ==> FormatChildrenList(children, env) == Ok(NoChildren)
    ensures children.Arr? && children.items != [] ==>
      var r := FormatChildrenList(children, env);
      (r.Ok? <==> forall m :: 0 <= m < |children.items| ==> !BadChild(children.items[m]))
      && (r.Ok? ==> r.value == Join(seq(|children.items|, m requires 0 <= m < |children.items| =>
                                      Join(EntryParts(children.items[m], env), ", ")), "; "))
  {
    if children.Arr? && children.items != [] {
      EntriesFromMeaning(children.items, 0, env);
      var r := EntriesFrom(children.items, 0, env);
      if r.Ok? {
        assert r.value == seq(|children.items|, m requires 0 <= m < |children.items| =>
                                Join(EntryParts(children.items[m], env), ", "));
      }
    }
  }

  // ----- formatSafetyConcerns -----

  /** The answers `formatSafetyConcerns` reads. */
  datatype SafetyAnswers = SafetyAnswers(
    children: Value, hasConcerns: Value, types: Value, details: Value,
    police: Value, policeDetails: Value, orders: Value, orderDetails: Value)

  function SafetyAnswersOf(data: Data): SafetyAnswers {
    SafetyAnswers(Get(data, "children"), Get(data, "hasSafetyConcerns"), Get(data, "safetyConcernTypes"),
      Get(data, "safetyConcernDetails"), Get(data, "policeInvolvement"), Get(data, "policeInvolvementDetails"),
      Get(data, "courtOrdersExist"), Get(data, "courtOrdersDetails"))
  }

  /** `data.children?.length > 1 ? 'children' : 'child'`. */
  function ChildWord(children: Value): string {
    if LongerThan(children, 1) then "children" else "child"
  }

  const NoConcernsOpening := "I do not have any safety concerns regarding the "
  const NoConcernsClosing := " spending time with the other parent."
  const ConcernsOpening := "I have safety concerns regarding the "
  const ConcernsClosing := " being with the other parent."
  const TypesIntro := " These concerns relate to: "
  const PoliceSentence := " The police have been involved."
  const OrdersSentence := " There are existing court orders in place."
  const TypesNotJoinable := "TypeError: data.safetyConcernTypes.join is not a function"

  function NoConcernsStatement(children: Value): string {
    NoConcernsOpening + ChildWord(children) + NoConcernsClosing
  }

  /** A piece appended with `statement += ...` when its guard holds. */
  function When(guard: bool, text: string): string {
    if guard then text else ""
  }

  /** ` These concerns relate to: <types>.` when the types are a non-empty array. */
  function TypesPiece(types: Value): string {
    When(Truthy(types) && LongerThan(types, 0),
      TypesIntro + (if types.Arr? then JoinValues(types.items, ", ") else "") + ".")
  }

  function PolicePiece(police: Value, policeDetails: Value): string {
    When(Truthy(police), PoliceSentence + When(Truthy(policeDetails), " " + ToJsString(policeDetails)))
  }

  function OrdersPiece(orders: Value, orderDetails: Value): string {
    When(Truthy(orders), OrdersSentence + When(Truthy(orderDetails), " " + ToJsString(orderDetails)))
  }

  /** The statement built from the answers it reads. */
  function SafetyStatement(a: SafetyAnswers): Result<string> {
    if !Truthy(a.hasConcerns) then Ok(NoConcernsStatement(a.children))
    else if Truthy(a.types) && LongerThan(a.types, 0) && !a.types.Arr? then
      Err(TypesNotJoinable)
    else
      Ok(ConcernsOpening + ChildWord(a.children) + ConcernsClosing
         + TypesPiece(a.types)
         + When(Truthy(a.details), " " + ToJsString(a.details))
         + PolicePiece(a.police, a.policeDetails)
         + OrdersPiece(a.orders, a.orderDetails))
  }

  /** `formatSafetyConcerns(data)`. */
  function FormatSafetyConcerns(data: Data): Result<string> {
    SafetyStatement(SafetyAnswersOf(data))
  }

  /**
   * Without safety concerns the statement is the fixed sentence, with
   * "children" exactly when there is more than one child. The statement
   * fails only when concerns are reported and the concern types are a
   * non-empty string (a string has no `join`).
   */
  lemma SafetyStatementCases(data: Data)
    ensures !Truthy(Get(data, "hasSafetyConcerns")) ==>
      FormatSafetyConcerns(data) == Ok(NoConcernsOpening
        + (if LongerThan(Get(data, "children"), 1) then "children" else "child")
        + NoConcernsClosing)
    ensures FormatSafetyConcerns(data).Err? <==>
      Truthy(Get(data, "hasSafetyConcerns")) && Get(data, "safetyConcernTypes").Str? && Get(data, "safetyConcernTypes").s != ""
  {
    SafetyStatementFails(SafetyAnswersOf(data));
  }

  lemma SafetyStatementFails(a: SafetyAnswers)
    ensures SafetyStatement(a).Err? <==> Truthy(a.hasConcerns) && a.types.Str? && a.types.s != ""
  {
  }

  /** Police details play a part only when police involvement is reported. */
  lemma PoliceDetailsNeedPolice(data: Data, details: Value)
    requires !Truthy(Get(data, "policeInvolvement"))
    ensures FormatSafetyConcerns(data["policeInvolvementDetails" := details]) == FormatSafetyConcerns(data)
  {
    var d := data["policeInvolvementDetails" := details];
    assert SafetyAnswersOf(d) == SafetyAnswersOf(data).(policeDetails := details);
    assert PolicePiece(Get(data, "policeInvolvement"), details) == "";
  }

  /** Court-order details play a part only when court orders are reported. */
  lemma OrderDetailsNeedOrders(data: Data, details: Value)
    requires !Truthy(Get(data, "courtOrdersExist"))
    ensures FormatSafetyConcerns(data["courtOrdersDetails" := details]) == FormatSafetyConcerns(data)
  {
    var d := data["courtOrdersDetails" := details];
    assert SafetyAnswersOf(d) == SafetyAnswersOf(data).(orderDetails := details);
    assert OrdersPiece(Get(data, "courtOrdersExist"), details) == "";
  }

  // ----- getFieldValue -----

  /** The names `getFieldValue` computes rather than looks up. */
  predicate Computed(name: string) {
    name == "childCount" || name == "childrenList" || name == "safetyConcernsStatement"
  }

  /** `fieldName.includes('DOB') || fieldName.includes('Date')`. */
  predicate DateName(name: string) {
    Contains(name, "DOB") || Contains(name, "Date")
  }

  /** `getFieldValue(fieldName, data)`. */
  function GetFieldValue(name: string, data: Data, env: Env): Result<Value> {
    if name == "childCount" then Ok(Num(ChildCount(data)))
    else if name == "childrenList" then
      var list :- FormatChildrenList(Or(Get(data, "children"), Arr([])), env);
      Ok(Str(list))
    else if name == "safetyConcernsStatement" then
      var statement :- FormatSafetyConcerns(data);
      Ok(Str(statement))
    else if DateName(name) && Truthy(Get(data, name)) then Ok(Str(env.formatDate(Get(data, name))))
    else match Get(data, name)
      case Bool(b) => Ok(Str(if b then "Yes" else "No"))
      case Arr(items) => Ok(Str(JoinValues(items, ", ")))
      case v => if StartsWith(name, "panel.") then Ok(Null) else Ok(v)
  }

  /** `childCount` always resolves to a number, so it counts as data even when it is 0. */
  lemma ChildCountAlwaysCounts(data: Data, env: Env)
    ensures GetFieldValue("childCount", data, env) == Ok(Num(ChildCount(data)))
    ensures CountsAsData(GetFieldValue("childCount", data, env).value)
  {
  }

  /**
   * A name with no case of its own — `childOrChildren`, `socialCareStatement`,
   * `currentLivingArrangementText`, ... — is a plain lookup of the answer set:
   * absent, it resolves to `undefined` and does not count as data.
   */
  lemma PlainNamesAreLookups(name: string, data: Data, env: Env)
    requires !Computed(name) && !DateName(name) && !StartsWith(name, "panel.")
    requires !Get(data, name).Bool? && !Get(data, name).Arr?
    ensures GetFieldValue(name, data, env) == Ok(Get(data, name))
    ensures name !in data ==> !CountsAsData(GetFieldValue(name, data, env).value)
  {
  }

  lemma ChildOrChildrenIsPlainLookup(data: Data, env: Env)
    requires "childOrChildren" !in data
    ensures GetFieldValue("childOrChildren", data, env) == Ok(Undefined)
  {
    var name := "childOrChildren";
    assert name == "child" + "Or" + "Children";
    forall k | 0 <= k < |name| ensures name[k] != 'D' {
      if k < 5 {
        assert name[k] == "child"[k];
      } else if k < 7 {
        assert name[k] == "Or"[k - 5];
      } else {
        assert name[k] == "Children"[k - 7];
      }
    }
    FirstCharAbsent(name, "DOB");
    FirstCharAbsent(name, "Date");
    assert name[..6][0] != "panel."[0];
  }

  /** A text without the first character of `sub` does not contain `sub`. */
  lemma FirstCharAbsent(s: string, sub: string)
    requires sub != [] && forall k :: 0 <= k < |s| ==> s[k] != sub[0]
    ensures !Contains(s, sub)
  {
    forall k | 0 <= k <= |s| - |sub| ensures !OccursAt(s, k, sub) {
      if k + |sub| <= |s| {
        assert s[k..k + |sub|][0] == s[k] != sub[0];
      }
    }
  }

  /**
   * Booleans render Yes/No (false also for a date name, since only a truthy
   * date value is formatted), arrays render joined by ", ", and a `panel.`
   * name the answer set does not hold resolves to `null`.
   */
  lemma ResolverPrecedence(name: string, data: Data, env: Env)
    requires !Computed(name)
    ensures Get(data, name) == Bool(false) ==> GetFieldValue(name, data, env) == Ok(Str("No"))
    ensures Get(data, name) == Bool(true) && !DateName(name) ==> GetFieldValue(name, data, env) == Ok(Str("Yes"))
    ensures DateName(name) && Truthy(Get(data, name)) ==>
      GetFieldValue(name, data, env) == Ok(Str(env.formatDate(Get(data, name))))
    ensures Get(data, name).Arr? && !DateName(name) ==>
      GetFieldValue(name, data, env) == Ok(Str(JoinValues(Get(data, name).items, ", ")))
    ensures StartsWith(name, "panel.") && name !in data ==> GetFieldValue(name, data, env) == Ok(Null)
  {
  }

  /** Resolution fails only on the two computed fields, and exactly when their builders throw. */
  lemma ResolverErrors(name: string, data: Data, env: Env)
    ensures GetFieldValue(name, data, env).Err? <==>
      (name == "childrenList" && FormatChildrenList(Or(Get(data, "children"), Arr([])), env).Err?)
      || (name == "safetyConcernsStatement" && FormatSafetyConcerns(data).Err?)
  {
  }
}
