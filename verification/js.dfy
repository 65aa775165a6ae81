/** JavaScript values as they cross the device RPC boundary and the accessory
    configuration, with the few operators the adapter applies to them:
    truthiness, `||`, numeric conversion, `/`, `*`, `Math.round`, `Math.min`
    and `>=` against a number. Numbers are finite reals or NaN; infinities
    and negative zero are not modelled. */
module Js {

  datatype Value =
    | Undefined
    | Null
    | Bool(b: bool)
    | Num(x: real)
    | NaN
    | Str(s: string)

  /** JavaScript's ToBoolean. */
  predicate Truthy(v: Value) {
    match v
    case Undefined => false
    case Null => false
    case Bool(b) => b
    case Num(x) => x != 0.0
    case NaN => false
    case Str(s) => s != ""
  }

  /** `a || b` evaluates to its left operand when that is truthy. */
  function Or(a: Value, b: Value): (r: Value)
    ensures Truthy(r) <==> Truthy(a) || Truthy(b)
    ensures Truthy(a) ==> r == a
  {
    if Truthy(a) then a else b
  }

  /** The values arithmetic produces. */
  predicate IsNumber(v: Value) {
    v.Num? || v.NaN?
  }

  /** JavaScript's ToNumber, as `/`, `*` and `>=` against a number apply it.
      A string becomes NaN here (see README, "Left out"). */
  function ToNumber(v: Value): (r: Value)
    ensures IsNumber(r)
    ensures IsNumber(v) ==> r == v
    ensures v.Undefined? || v.Str? ==> r == NaN
  {
    match v
    case Undefined => NaN
    case Null => Num(0.0)
    case Bool(b) => Num(if b then 1.0 else 0.0)
    case Num(x) => v
    case NaN => NaN
    case Str(_) => NaN
  }

  /** `a / b` for a non-zero divisor. */
  function Div(a: Value, b: Value): (r: Value)
    requires IsNumber(a) && IsNumber(b) && b != Num(0.0)
    ensures IsNumber(r)
    ensures r.Num? <==> a.Num? && b.Num?
    ensures r.Num? ==> r.x == a.x / b.x
  {
    if a.Num? && b.Num? then Num(a.x / b.x) else NaN
  }

  /** `a * b`. */
  function Mul(a: Value, b: Value): (r: Value)
    requires IsNumber(a) && IsNumber(b)
    ensures IsNumber(r)
    ensures r.Num? <==> a.Num? && b.Num?
    ensures r.Num? ==> r.x == a.x * b.x
  {
    if a.Num? && b.Num? then Num(a.x * b.x) else NaN
  }

  /** `Math.round` on a finite number: the nearest integer, halves rounded
      towards positive infinity. */
  function RoundHalfUp(x: real): (r: int)
    ensures x - 0.5 < r as real <= x + 0.5
  {
    (x + 0.5).Floor
  }

  /** `Math.round`, which leaves NaN as NaN. */
  function Round(a: Value): (r: Value)
    requires IsNumber(a)
    ensures IsNumber(r)
    ensures r.Num? <==> a.Num?
    ensures r.Num? ==> r.x == RoundHalfUp(a.x) as real
  {
    if a.Num? then Num(RoundHalfUp(a.x) as real) else NaN
  }

  /** `Math.min(a, b)`: NaN when either argument is NaN. */
  function Min(a: Value, b: Value): (r: Value)
    requires IsNumber(a) && IsNumber(b)
    ensures IsNumber(r)
    ensures r.Num? <==> a.Num? && b.Num?
    ensures r.Num? ==> r.x <= a.x && r.x <= b.x && (r.x == a.x || r.x == b.x)
  {
    if a.Num? && b.Num? then Num(if a.x <= b.x then a.x else b.x) else NaN
  }

  /** `v >= t` for a numeric right operand: false whenever `v` converts to NaN. */
  predicate AtLeast(v: Value, t: real) {
    var n := ToNumber(v);
    n.Num? && n.x >= t
  }
}
