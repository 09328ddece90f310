/** JavaScript values as the claim pipeline sees them.
    `undefined` is `None`; a number is an integer or NaN (fractional amounts,
    infinities and negative zero are not modelled). */
module Js {

  datatype Option<+T> = None | Some(value: T)

  /** A JavaScript number: an integer value, or NaN. */
  datatype Number = Num(value: int) | NaN

  /** Truthiness of an optional string: `undefined` and "" are falsy. */
  predicate Truthy(s: Option<string>)
  {
    s.Some? && s.value != ""
  }

  /** `a || b` on optional strings. */
  function Or(a: Option<string>, b: Option<string>): Option<string>
  {
    if Truthy(a) then a else b
  }

  /** `a || d` where `d` is a non-empty string literal. */
  function OrDefault(a: Option<string>, d: string): string
  {
    if Truthy(a) then a.value else d
  }

  /** Template-literal rendering `${s}` of an optional string. */
  function Text(s: Option<string>): string
  {
    if s.Some? then s.value else "undefined"
  }

  /** Truthiness of a number: 0 and NaN are falsy. */
  predicate NumberTruthy(n: Number)
  {
    n.Num? && n.value != 0
  }

  /** `n || d` for an optional number used as a summand. */
  function NumberOr(n: Option<Number>, d: int): int
  {
    if n.Some? && NumberTruthy(n.value) then n.value.value else d
  }

  /** `Math.max(a, b)`: NaN if either argument is NaN. */
  function Max(a: Number, b: Number): (r: Number)
    ensures r.NaN? <==> a.NaN? || b.NaN?
    ensures r.Num? ==> r.value >= a.value && r.value >= b.value
    ensures r.Num? ==> r.value == a.value || r.value == b.value
  {
    if a.NaN? || b.NaN? then NaN
    else if a.value >= b.value then a else b
  }

  /** `Math.min(a, b)`: NaN if either argument is NaN. */
  function Min(a: Number, b: Number): (r: Number)
    ensures r.NaN? <==> a.NaN? || b.NaN?
    ensures r.Num? ==> r.value <= a.value && r.value <= b.value
    ensures r.Num? ==> r.value == a.value || r.value == b.value
  {
    if a.NaN? || b.NaN? then NaN
    else if a.value <= b.value then a else b
  }

  /** `a - b` where `a` may be `undefined` (which converts to NaN). */
  function Minus(a: Option<Number>, b: Number): Number
  {
    if a.Some? && a.value.Num? && b.Num? then Num(a.value.value - b.value) else NaN
  }

  /** `a <= k`: false for `undefined` and NaN. */
  predicate AtMost(a: Option<Number>, k: int)
  {
    a.Some? && a.value.Num? && a.value.value <= k
  }

  /** `a >= k`: false for `undefined` and NaN. */
  predicate AtLeast(a: Option<Number>, k: int)
  {
    a.Some? && a.value.Num? && a.value.value >= k
  }

  /** `a > b`: false when either side is NaN or `undefined`. */
  predicate Exceeds(a: Option<Number>, b: Number)
  {
    a.Some? && a.value.Num? && b.Num? && a.value.value > b.value
  }
}
