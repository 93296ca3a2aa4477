/**
 * JavaScript values as they reach the request handlers after JSON parsing,
 * and the operations the handlers perform on them: reading a property,
 * testing truthiness and converting to a string in a template literal.
 */
module JsValues {
  import opened Options

  datatype Value =
    | Undefined
    | Null
    | Bool(b: bool)
    | Num(n: real)
    | Str(s: string)
    | Arr(items: seq<Value>)
    | Obj(fields: map<string, Value>)

  /** `null` and `undefined`: the two values whose properties cannot be read. */
  predicate Nullish(v: Value) {
    v.Undefined? || v.Null?
  }

  /**
   * `v[key]` for a key that names no built-in property. `None` stands for the
   * TypeError that reading a property of `null` or `undefined` throws; a
   * missing own property reads as `undefined`.
   */
  function Get(v: Value, key: string): Option<Value>
  {
    match v
    case Undefined => None
    case Null => None
    case Obj(fields) => Some(if key in fields then fields[key] else Undefined)
    case _ => Some(Undefined)
  }

  /** The values an `if` takes as true (NaN is not a modelled number). */
  predicate Truthy(v: Value) {
    match v
    case Undefined => false
    case Null => false
    case Bool(b) => b
    case Num(n) => n != 0.0
    case Str(s) => s != ""
    case _ => true
  }

  /**
   * Whether `${v}` throws. A parsed object with an own `toString` key holds
   * no callable there, and its `valueOf` yields the object itself, so the
   * conversion to a primitive fails with a TypeError. An array converts its
   * elements one by one (null and undefined as the empty string), so it
   * throws when one of them does. Every other value converts.
   */
  predicate ToStringThrows(v: Value) {
    match v
    case Obj(fields) => "toString" in fields
    case Arr(items) => exists x :: x in items && ToStringThrows(x)
    case _ => false
  }
}
