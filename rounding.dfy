/**
 * `Math.round` and `toFixed` on quotients of whole numbers, computed exactly.
 */
module Rounding {
  /**
   * `Math.round(num / den)` for a non-negative numerator and a positive
   * denominator: the integer nearest to the quotient, halves rounded up.
   */
  function RoundHalfUp(num: nat, den: nat): (q: nat)
    requires den > 0
    ensures 2 * den * q <= 2 * num + den < 2 * den * q + 2 * den
  {
    var n := 2 * num + den;
    var d := 2 * den;
    assert n == d * (n / d) + n % d;
    n / d
  }

  lemma MulLeft(a: nat, b: nat, c: nat)
    requires b <= c
    ensures a * b <= a * c
  {
    assert a * c - a * b == a * (c - b);
  }

  /** A quotient at most `k` rounds to at most `k`. */
  lemma RoundHalfUpAtMost(num: nat, den: nat, k: nat)
    requires den > 0 && num <= k * den
    ensures RoundHalfUp(num, den) <= k
  {
    var q := RoundHalfUp(num, den);
    if q > k {
      MulLeft(2 * den, k + 1, q);
      assert false;
    }
  }
}
