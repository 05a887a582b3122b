/** The JavaScript values the front end receives from `JSON.parse` and `res.json()`,
    with the three pieces of JavaScript semantics the workflows depend on:
    truthiness, property reads, and the `Array.isArray` test. */
module JsValue {

  /** A JavaScript value as produced by JSON decoding, plus `undefined`
      (what a read of a missing property yields). Numbers are reals; NaN and
      the infinities are not represented. */
  datatype Value =
    | Undefined
    | Null
    | Bool(b: bool)
    | Num(n: real)
    | Str(s: string)
    | Arr(elems: seq<Value>)
    | Obj(fields: map<string, Value>)

  /** `null` and `undefined`: the two values whose property reads throw a TypeError. */
  predicate Nullish(v: Value) {
    v.Undefined? || v.Null?
  }

  /** JavaScript truthiness: `undefined`, `null`, `false`, `0` and `""` are falsy,
      every object and array is truthy. */
  predicate Truthy(v: Value) {
    match v
    case Undefined => false
    case Null => false
    case Bool(b) => b
    case Num(n) => n != 0.0
    case Str(s) => |s| > 0
    case Arr(_) => true
    case Obj(_) => true
  }

  /** `v[key]` for the data-property names the front end reads (`content`, `id`,
      `hour`, `load_kw`, ...). None of them names a built-in property of strings,
      numbers, booleans or arrays, so only an object can hold one. The read throws
      on `null`/`undefined`, hence the precondition; callers test `Nullish` first. */
  function Get(v: Value, key: string): (r: Value)
    requires !Nullish(v)
    ensures !v.Obj? ==> r == Undefined
    ensures v.Obj? && key in v.fields ==> r == v.fields[key]
    ensures v.Obj? && key !in v.fields ==> r == Undefined
  {
    match v
    case Obj(fields) => if key in fields then fields[key] else Undefined
    case _ => Undefined
  }

  /** The empty array literal `[]`. */
  const EmptyArray: Value := Arr([])
}
