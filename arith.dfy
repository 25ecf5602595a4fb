/** Facts about integer multiplication, division and remainder that the
    table-index arithmetic relies on. */
module Arith {

  lemma MulLeft(x: nat, y: nat, n: nat)
    requires x <= n
    ensures x * y <= n * y
  {
  }

  /** `j / d` and `j % d` are the only quotient and remainder of `j`. */
  lemma DivModUnique(j: int, d: int, q: int, r: int)
    requires d > 0 && 0 <= r < d && j == q * d + r
    ensures j / d == q && j % d == r
  {
    var q0, r0 := j / d, j % d;
    assert (q0 - q) * d == r - r0;
    ZeroFactor(q0 - q, d);
  }

  lemma ZeroFactor(x: int, d: int)
    requires d > 0 && -d < x * d < d
    ensures x == 0
  {
    if x >= 1 {
      MulLeft(1, d, x);
    } else if x <= -1 {
      assert (-x) * d == -(x * d);
      MulLeft(1, d, -x);
    }
  }

  lemma DivBelow(j: nat, d: nat, n: nat)
    requires d > 0 && j < n * d
    ensures j / d < n
  {
    var q := j / d;
    assert j == q * d + j % d;
    if q >= n {
      MulLeft(n, d, q);
    }
  }

  /** Two numbers written in base `d` with one digit and a multiple of `d`
      are equal only when both parts are. */
  lemma DigitsUnique(d: nat, a: nat, b: nat, c: nat, e: nat)
    requires a < d && c < d && a + d * b == c + d * e
    ensures a == c && b == e
  {
    DivModUnique(a + d * b, d, b, a);
    DivModUnique(c + d * e, d, e, c);
  }
}
