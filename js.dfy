/**
 * The JavaScript values that reach the application as JSON request bodies, parsed
 * model output and browser storage, with the two coercions the code relies on:
 * truthiness (`if (x)`, `!x`, `||`) and string conversion (`String(x)`, `${x}`).
 */
module Js {
  import opened Text

  /** A JSON-compatible JavaScript value; numbers are integers (see the README). */
  datatype Value =
    | Undefined
    | Null
    | Bool(b: bool)
    | Num(n: int)
    | Str(s: string)
    | Arr(items: seq<Value>)
    | Obj(fields: map<string, Value>)

  /** JavaScript truthiness: `undefined`, `null`, `false`, `0` and `''` are falsy. */
  predicate Truthy(v: Value)
    ensures Truthy(v) ==> !Nullish(v)
    ensures v.Arr? || v.Obj? ==> Truthy(v)
  {
    match v
    case Undefined => false
    case Null => false
    case Bool(b) => b
    case Num(n) => n != 0
    case Str(s) => s != []
    case Arr(_) => true
    case Obj(_) => true
  }

  /** `null` or `undefined`: reading a property of it throws a TypeError. */
  predicate Nullish(v: Value) {
    v == Undefined || v == Null
  }

  /** A JavaScript default parameter: it applies when the argument is `undefined`. */
  function OrDefault(v: Value, default: string): (r: Value)
    ensures v != Undefined ==> r == v
    ensures v == Undefined ==> r == Str(default)
  {
    if v == Undefined then Str(default) else v
  }

  /** `a || b`: the first operand when it is truthy, the second otherwise. */
  function Or(a: Value, b: Value): (r: Value)
    ensures Truthy(a) ==> r == a
    ensures !Truthy(a) ==> r == b
  {
    if Truthy(a) then a else b
  }

  /** `v[key]` for a value that is not nullish: an own property of an object, otherwise `undefined`. */
  function Prop(v: Value, key: string): (r: Value)
    ensures !v.Obj? ==> r == Undefined
    ensures v.Obj? && key in v.fields ==> r == v.fields[key]
    ensures v.Obj? && key !in v.fields ==> r == Undefined
  {
    if v.Obj? && key in v.fields then v.fields[key] else Undefined
  }

  /** `String(v)`; arrays join their elements with `,`, writing `null` and `undefined` elements as empty. */
  function ToStr(v: Value): (r: string)
    ensures v.Str? ==> r == v.s
    ensures v.Arr? && v.items == [] ==> r == ""
    ensures v.Arr? && |v.items| == 1 && v.items[0].Str? ==> r == v.items[0].s
  {
    match v
    case Undefined => "undefined"
    case Null => "null"
    case Bool(b) => if b then "true" else "false"
    case Num(n) => IntToDecimal(n)
    case Str(s) => s
    case Arr(items) => Join(seq(|items|, i requires 0 <= i < |items| => if Nullish(items[i]) then "" else ToStr(items[i])), ",")
    case Obj(_) => "[object Object]"
  }

  /**
   * `s.length`: the number of UTF-16 code units, so a character outside the Basic
   * Multilingual Plane (above U+FFFF) counts twice.
   */
  function CodeUnits(s: string): (r: nat)
    ensures |s| <= r <= 2 * |s|
    ensures (forall k :: 0 <= k < |s| ==> s[k] as int <= 0xFFFF) ==> r == |s|
  {
    if s == [] then 0
    else (if s[0] as int > 0xFFFF then 2 else 1) + CodeUnits(s[1..])
  }

  /** `x.length < n` for a value that is not nullish; `undefined < n` is false for values without a length. */
  predicate LengthBelow(v: Value, n: nat)
    ensures !v.Str? && !v.Arr? ==> !LengthBelow(v, n)
    ensures v.Str? && LengthBelow(v, n) ==> |v.s| < n
    ensures v.Str? && 2 * |v.s| < n ==> LengthBelow(v, n)
  {
    match v
    case Str(s) => CodeUnits(s) < n
    case Arr(items) => |items| < n
    case _ => false
  }
}
