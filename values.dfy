/**
 * JSON-like values as the answer set (`dynamic_data`) holds them, with the
 * JavaScript operations the document generators and the narrative engine
 * apply to them: truthiness, `||`, `.length`, property access, `String(v)`
 * and `Array.prototype.join`.
 */
module JsValues {
  import opened Results
  import opened Text

  datatype Value =
    | Undefined
    | Null
    | Bool(b: bool)
    | Num(n: int)
    | Str(s: string)
    | Arr(items: seq<Value>)
    | Obj(fields: map<string, Value>)

  /** An answer set: element name to answer. */
  type Data = map<string, Value>

  /** `data[key]`; a missing key reads as `undefined`. */
  function Get(d: Data, key: string): Value {
    if key in d then d[key] else Undefined
  }

  /** `v[key]` on a value that is not null or undefined. */
  function Property(v: Value, key: string): Value {
    if v.Obj? then Get(v.fields, key) else Undefined
  }

  predicate Truthy(v: Value) {
    match v
    case Undefined => false
    case Null => false
    case Bool(b) => b
    case Num(n) => n != 0
    case Str(s) => s != ""
    case Arr(_) => true
    case Obj(_) => true
  }

  /** `a || b`. */
  function Or(a: Value, b: Value): Value {
    if Truthy(a) then a else b
  }

  predicate Nullish(v: Value) {
    v.Undefined? || v.Null?
  }

  /** `v === undefined || v === null || v === ''`: how the assembler tests for "no answer". */
  predicate Unanswered(v: Value) {
    v.Undefined? || v.Null? || v == Str("")
  }

  /** `v.length` where it is a number: arrays and strings. */
  function Length(v: Value): Option<nat> {
    match v
    case Arr(items) => Some(|items|)
    case Str(s) => Some(|s|)
    case _ => None
  }

  /** `v.length > n` (an undefined length compares false). */
  predicate LongerThan(v: Value, n: nat) {
    Length(v).Some? && Length(v).value > n
  }

  /** `String(v)`. */
  function ToJsString(v: Value): string
    decreases v
  {
    match v
    case Undefined => "undefined"
    case Null => "null"
    case Bool(b) => if b then "true" else "false"
    case Num(n) => IntToString(n)
    case Str(s) => s
    case Arr(items) => Join(seq(|items|, k requires 0 <= k < |items| => ElementString(items, k)), ",")
    case Obj(_) => "[object Object]"
  }

  /** How `join` renders one element: null and undefined become "". */
  function ElementString(items: seq<Value>, k: nat): string
    requires k < |items|
    decreases items, 0
  {
    if Nullish(items[k]) then "" else ToJsString(items[k])
  }

  /** `items.join(sep)`. */
  function JoinValues(items: seq<Value>, sep: string): string {
    Join(seq(|items|, k requires 0 <= k < |items| => ElementString(items, k)), sep)
  }
}
