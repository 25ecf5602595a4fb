/** The part of IEEE-754 binary64 (`f64`) the spread statistics rely on:
    exact finite values, the two infinities and NaN, the quotient of two
    integers and the `>=` comparison. Rounding is not modelled: a finite
    value is the exact real number. */
module Float {

  datatype F64 = Finite(r: real) | PosInf | NegInf | NaN

  /** `(num as f64) / (den as f64)`: the exact ratio, or, for a zero
      denominator, +inf, -inf or NaN by the sign of the numerator. */
  function Div(num: int, den: int): (q: F64)
    ensures den != 0 ==> q == Finite(num as real / den as real)
    ensures den == 0 ==> (q == PosInf <==> num > 0) && (q == NegInf <==> num < 0) && (q == NaN <==> num == 0)
  {
    if den != 0 then Finite(num as real / den as real)
    else if num > 0 then PosInf
    else if num < 0 then NegInf
    else NaN
  }

  /** `x >= y`: false whenever either side is NaN. */
  predicate Ge(x: F64, y: F64) {
    !x.NaN? && !y.NaN? && (x.PosInf? || y.NegInf? || (x.Finite? && y.Finite? && x.r >= y.r))
  }

  lemma GeReflexive(x: F64)
    requires !x.NaN?
    ensures Ge(x, x)
  {
  }

  lemma GeTransitive(x: F64, y: F64, z: F64)
    requires Ge(x, y) && Ge(y, z)
    ensures Ge(x, z)
  {
  }

  /** Any two numbers (not NaN) are comparable. */
  lemma GeTotal(x: F64, y: F64)
    requires !x.NaN? && !y.NaN?
    ensures Ge(x, y) || Ge(y, x)
  {
  }

  /** A comparison that succeeds involves no NaN. */
  lemma GeNotNaN(x: F64, y: F64)
    requires Ge(x, y)
    ensures !x.NaN? && !y.NaN?
  {
  }
}
