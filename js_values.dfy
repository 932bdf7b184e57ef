/**
 * The JavaScript values that travel through payloads and record attributes,
 * with the three pieces of JavaScript semantics the core depends on:
 * truthiness (`if (x)`, `x || y`), nullishness (`x ?? y`, `x != null`) and
 * `String(x)`. Numbers are integers here (fractions and NaN are not modelled).
 */
module JsValues {
  import opened Wrappers
  import opened JsText

  datatype Value =
    | Undefined
    | Null
    | Bool(b: bool)
    | Num(n: int)
    | Str(s: string)
    | Arr(items: seq<Value>)
    | Obj(fields: map<string, Value>)

  /** `v == null` in JavaScript's loose sense: `null` or `undefined`. */
  predicate IsNullish(v: Value)
  {
    v.Undefined? || v.Null?
  }

  /** JavaScript truthiness. */
  predicate Truthy(v: Value)
  {
    match v
    case Undefined => false
    case Null => false
    case Bool(b) => b
    case Num(n) => n != 0
    case Str(s) => s != []
    case Arr(_) => true
    case Obj(_) => true
  }

  /** `String(v)`; an array joins its elements with ',' and shows null and undefined as empty. */
  function ToJsString(v: Value): (r: string)
    ensures v.Str? ==> r == v.s
    ensures v.Num? ==> r == IntToDecimal(v.n)
    ensures v.Bool? ==> r == (if v.b then "true" else "false")
    ensures v.Undefined? ==> r == "undefined"
    ensures v.Null? ==> r == "null"
  {
    match v
    case Undefined => "undefined"
    case Null => "null"
    case Bool(b) => if b then "true" else "false"
    case Num(n) => IntToDecimal(n)
    case Str(s) => s
    case Arr(items) =>
      Join(seq(|items|, i requires 0 <= i < |items| =>
        if IsNullish(items[i]) then "" else ToJsString(items[i])), ',')
    case Obj(_) => "[object Object]"
  }

  /** `obj[name]` for a plain object; an absent key reads as `undefined`. */
  function Lookup(obj: map<string, Value>, name: string): Value
  {
    if name in obj then obj[name] else Undefined
  }

  /**
   * `v.name` on a value that is not null or undefined (reading a property of
   * those throws a TypeError, which callers model). Only objects carry the
   * property names this core reads.
   */
  function Property(v: Value, name: string): Value
    requires !IsNullish(v)
  {
    if v.Obj? then Lookup(v.fields, name) else Undefined
  }
}
