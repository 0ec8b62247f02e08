/** The few facts of multiplication and division the other modules need. */
module Arith {

  lemma MulAtMost(a: int, b: int, p: nat)
    requires a <= b
    ensures a * p <= b * p
  {}

  lemma PositiveFactor(a: int, p: nat)
    requires a * p > 0
    ensures a > 0
  {}

  /** Quotient and remainder are determined by their equation. */
  lemma QuotientIs(q: nat, p: nat, r: nat)
    requires r < p
    ensures (q * p + r) / p == q && (q * p + r) % p == r
  {
    var v := q * p + r;
    var d := v / p;
    assert v == d * p + v % p;
    assert (d - q + 1) * p == d * p - q * p + p;
    assert (q - d + 1) * p == q * p - d * p + p;
    PositiveFactor(d - q + 1, p);
    PositiveFactor(q - d + 1, p);
  }

  lemma ModBelow(a: nat, n: nat)
    requires n > 0 && a < 2 * n
    ensures a % n == if a < n then a else a - n
  {
    if a < n {
      QuotientIs(0, n, a);
    } else {
      QuotientIs(1, n, a - n);
    }
  }
}
