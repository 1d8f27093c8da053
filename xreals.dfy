/**
 * Extended reals: the value domain of a pandas float column, without rounding.
 *
 * A float column can hold finite numbers, the two infinities and NaN (pandas'
 * marker for a missing or undefined entry). The operations below follow the
 * IEEE-754 rules for those special values; finite arithmetic is exact. Signed
 * zero is not distinguished: every zero behaves as +0.
 */
module XReals {

  datatype XReal = Fin(v: real) | PosInf | NegInf | NaN

  /** Unary minus. */
  function Neg(a: XReal): (r: XReal)
    ensures a.Fin? <==> r.Fin?
    ensures a.Fin? ==> r.v == -a.v
    ensures (a.PosInf? <==> r.NegInf?) && (a.NegInf? <==> r.PosInf?) && (a.NaN? <==> r.NaN?)
  {
    match a
    case Fin(x) => Fin(-x)
    case PosInf => NegInf
    case NegInf => PosInf
    case NaN => NaN
  }

  /** Addition: NaN propagates, and opposite infinities give NaN. */
  function Add(a: XReal, b: XReal): (r: XReal)
    ensures r.Fin? <==> a.Fin? && b.Fin?
    ensures a.Fin? && b.Fin? ==> r.v == a.v + b.v
    ensures a.NaN? || b.NaN? ==> r.NaN?
  {
    if a.NaN? || b.NaN? then NaN
    else if a.Fin? && b.Fin? then Fin(a.v + b.v)
    else if (a.PosInf? && b.NegInf?) || (a.NegInf? && b.PosInf?) then NaN
    else if a.PosInf? || b.PosInf? then PosInf
    else NegInf
  }

  /** Subtraction, as addition of the negation. */
  function Sub(a: XReal, b: XReal): (r: XReal)
    ensures r.Fin? <==> a.Fin? && b.Fin?
    ensures a.Fin? && b.Fin? ==> r.v == a.v - b.v
  {
    Add(a, Neg(b))
  }

  /**
   * Division. A non-zero finite number over zero gives the infinity of its
   * sign, zero over zero gives NaN, a finite number over an infinity gives 0,
   * an infinity over a finite number keeps or flips its sign, and an infinity
   * over an infinity gives NaN.
   */
  function Div(a: XReal, b: XReal): (r: XReal) {
    if a.NaN? || b.NaN? then NaN
    else if a.Fin? && b.Fin? then
      if b.v != 0.0 then Fin(a.v / b.v)
      else if a.v > 0.0 then PosInf
      else if a.v < 0.0 then NegInf
      else NaN
    else if a.Fin? then Fin(0.0)
    else if b.Fin? then (if b.v >= 0.0 then a else Neg(a))
    else NaN
  }

  /** The comparison `a > c`; any comparison with NaN is false. */
  predicate Greater(a: XReal, c: real) {
    match a
    case Fin(x) => x > c
    case PosInf => true
    case NegInf => false
    case NaN => false
  }

  /** The comparison `a < c`; any comparison with NaN is false. */
  predicate Less(a: XReal, c: real) {
    match a
    case Fin(x) => x < c
    case PosInf => false
    case NegInf => true
    case NaN => false
  }
}
