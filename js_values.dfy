/** The few JavaScript value shapes the wishlist code compares and tests for truthiness. */
module JsValues {

  datatype Option<+T> = None | Some(value: T)

  /** A value read from a record field or a DOM attribute: a string, `null` or `undefined`.
      Strict equality (`===`) on such values is equality of this datatype. */
  datatype Value = Undefined | Null | Str(s: string)

  /** JavaScript truthiness of a `Value`: only a non-empty string is truthy. */
  predicate Truthy(v: Value) {
    v.Str? && v.s != ""
  }

  /** `a || b` */
  function Or(a: Value, b: Value): Value {
    if Truthy(a) then a else b
  }

  /** `String(v)`, as `FormData.append` and `setAttribute` convert a value. */
  function ToStr(v: Value): string {
    match v
    case Str(s) => s
    case Null => "null"
    case Undefined => "undefined"
  }
}
