/**
  The part of the ECMAScript Number type that the chart's arithmetic can reach.
  Finite values are modelled exactly as reals; the two infinities and NaN are
  kept because a division by a zero total produces them. Rounding to binary64,
  overflow to infinity and the sign of zero are not modelled.
 */
module JsNumber {

  datatype Number = Finite(r: real) | PosInf | NegInf | NaN

  /** Unary minus. */
  function Neg(a: Number): Number {
    match a
    case Finite(x) => Finite(-x)
    case PosInf => NegInf
    case NegInf => PosInf
    case NaN => NaN
  }

  /** `a + b`: NaN is absorbing and opposite infinities give NaN. */
  function Add(a: Number, b: Number): Number {
    if a.NaN? || b.NaN? then NaN
    else if a.Finite? && b.Finite? then Finite(a.r + b.r)
    else if (a.PosInf? && b.NegInf?) || (a.NegInf? && b.PosInf?) then NaN
    else if a.PosInf? || b.PosInf? then PosInf
    else NegInf
  }

  /** `a - b`. */
  function Sub(a: Number, b: Number): Number {
    Add(a, Neg(b))
  }

  /** `x / y` of two finite operands; a zero divisor gives a signed infinity or NaN. */
  function Div(x: real, y: real): (r: Number)
    ensures y != 0.0 ==> r.Finite? && r.r * y == x
    ensures y == 0.0 ==> (r.NaN? <==> x == 0.0)
  {
    if y != 0.0 then Finite(x / y)
    else if x > 0.0 then PosInf
    else if x < 0.0 then NegInf
    else NaN
  }

  /** `a > b`: false whenever NaN is involved. */
  predicate Gt(a: Number, b: Number) {
    if a.NaN? || b.NaN? then false
    else if a.Finite? && b.Finite? then a.r > b.r
    else (a.PosInf? && !b.PosInf?) || (!a.NegInf? && b.NegInf?)
  }

  /** ToBoolean of a number: only zero and NaN are falsy. */
  predicate Truthy(a: Number) {
    a != Finite(0.0) && !a.NaN?
  }

  /** `a || b` on numbers. */
  function Or(a: Number, b: Number): (r: Number)
    ensures Truthy(r) || r == b
  {
    if Truthy(a) then a else b
  }
}
