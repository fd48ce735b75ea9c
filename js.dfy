/**
 * The small slice of JavaScript's value model that the widget relies on:
 * `typeof v === 'number'`, truthiness in `x || default`, strict equality
 * and `!== undefined`.  Numbers are exact reals (no NaN, no infinities).
 */
module Js {

  /** A JavaScript value, as far as the widget looks into one. */
  datatype Value =
    | Num(n: real)
    | Str(s: string)
    | Bool(b: bool)
    | Undef

  /** The conventional Some/None datatype, here for "a value or `undefined`". */
  datatype Option<+T> = None | Some(value: T)

  /** JavaScript truthiness: `0`, `''`, `false` and `undefined` are falsy. */
  predicate Truthy(v: Value)
  {
    match v
    case Num(n) => n != 0.0
    case Str(s) => s != ""
    case Bool(b) => b
    case Undef => false
  }

  /** `Math.abs` on exact reals. */
  function Abs(x: real): (r: real)
    ensures r >= 0.0
    ensures r == x || r == -x
  {
    if x < 0.0 then -x else x
  }
}
