/**
 * JavaScript numbers as the explorer uses them: NaN, the two infinities and
 * finite values. Finite values are exact reals: rounding and the sign of zero
 * are not modelled.
 */
module JsNumber {

  datatype Num = NaN | Inf(negative: bool) | Fin(r: real)

  /** `isNaN(x)` for a number. */
  predicate IsNaN(x: Num) { x.NaN? }

  /** JavaScript truthiness of a number: everything but NaN and 0. */
  predicate Truthy(x: Num) { x.Inf? || (x.Fin? && x.r != 0.0) }

  function Neg(x: Num): Num
  {
    match x
    case NaN => NaN
    case Inf(n) => Inf(!n)
    case Fin(r) => Fin(-r)
  }

  function Add(x: Num, y: Num): (z: Num)
    ensures z.NaN? <==> x.NaN? || y.NaN? || (x.Inf? && y.Inf? && x.negative != y.negative)
  {
    match (x, y)
    case (NaN, _) => NaN
    case (_, NaN) => NaN
    case (Inf(a), Inf(b)) => if a == b then Inf(a) else NaN
    case (Inf(a), Fin(_)) => Inf(a)
    case (Fin(_), Inf(b)) => Inf(b)
    case (Fin(p), Fin(q)) => Fin(p + q)
  }

  /** `x - y` */
  function Sub(x: Num, y: Num): Num { Add(x, Neg(y)) }

  /** `x * y` */
  function Mul(x: Num, y: Num): (z: Num)
    ensures x.Fin? && y.Fin? ==> z == Fin(x.r * y.r)
    ensures x.NaN? || y.NaN? ==> z.NaN?
  {
    if x.NaN? || y.NaN? then NaN
    else if x.Fin? && y.Fin? then Fin(x.r * y.r)
    else if x.Inf? && y.Inf? then Inf(x.negative != y.negative)
    else if x.Inf? then (if y.r == 0.0 then NaN else Inf(x.negative != (y.r < 0.0)))
    else (if x.r == 0.0 then NaN else Inf(y.negative != (x.r < 0.0)))
  }

  /** `x / y` */
  function Div(x: Num, y: Num): (z: Num)
    ensures x.Fin? && y.Fin? && y.r != 0.0 ==> z == Fin(x.r / y.r)
    ensures x.NaN? || y.NaN? ==> z.NaN?
    ensures x.Fin? && x.r > 0.0 && y == Fin(0.0) ==> z == Inf(false)
    ensures x == Fin(0.0) && y == Fin(0.0) ==> z.NaN?
  {
    match (x, y)
    case (NaN, _) => NaN
    case (_, NaN) => NaN
    case (Inf(_), Inf(_)) => NaN
    case (Inf(a), Fin(q)) => Inf(a != (q < 0.0))
    case (Fin(_), Inf(_)) => Fin(0.0)
    case (Fin(p), Fin(q)) =>
      if q != 0.0 then Fin(p / q)
      else if p == 0.0 then NaN
      else Inf(p < 0.0)
  }

  /** `x < y`; false whenever either side is NaN. */
  predicate Lt(x: Num, y: Num)
  {
    match (x, y)
    case (NaN, _) => false
    case (_, NaN) => false
    case (Inf(a), Inf(b)) => a && !b
    case (Inf(a), Fin(_)) => a
    case (Fin(_), Inf(b)) => !b
    case (Fin(p), Fin(q)) => p < q
  }

  /** `x >= y`; false whenever either side is NaN. */
  predicate Ge(x: Num, y: Num) { !x.NaN? && !y.NaN? && !Lt(x, y) }

  /** `x === y` on numbers: NaN equals nothing, not even itself. */
  predicate StrictEq(x: Num, y: Num) { !x.NaN? && x == y }

  /** Every comparison with NaN is false, and NaN is never strictly equal to itself. */
  lemma NaNComparesFalse(x: Num)
    ensures !Lt(NaN, x) && !Lt(x, NaN) && !Ge(NaN, x) && !Ge(x, NaN) && !StrictEq(NaN, NaN)
  {
  }

  /**
   * For two numbers that are neither NaN nor strictly equal, the sign of
   * `y - x` tells which is larger: the contract a descending comparator
   * `(a, b) => b - a` relies on.
   */
  lemma SubSignOrders(x: Num, y: Num)
    requires !x.NaN? && !y.NaN? && !StrictEq(x, y)
    ensures Lt(Sub(y, x), Fin(0.0)) <==> Lt(y, x)
    ensures Lt(Fin(0.0), Sub(y, x)) <==> Lt(x, y)
  {
  }
}
