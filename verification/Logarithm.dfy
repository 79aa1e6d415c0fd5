/** The ceiling of the binary logarithm, which counts bisection steps. */
module Logarithm {

  function Log2(x: int): (k: nat)
  {
    if x <= 1 then 0 else 1 + Log2((x + 1) / 2)
  }

  function Pow2(k: nat): (p: int)
    ensures p >= 1
  {
    if k == 0 then 1 else 2 * Pow2(k - 1)
  }

  lemma {:induction false} Log2Monotone(x: int, y: int)
    requires x <= y
    ensures Log2(x) <= Log2(y)
    decreases y
  {
    if x > 1 {
      Log2Monotone((x + 1) / 2, (y + 1) / 2);
    }
  }

  /** Log2(x) is the least k with x <= 2^k. */
  lemma {:induction false} Log2Covers(x: int)
    ensures x <= Pow2(Log2(x))
    ensures x > 1 ==> Pow2(Log2(x) - 1) < x
    decreases x
  {
    if x > 1 {
      Log2Covers((x + 1) / 2);
    }
  }
}
