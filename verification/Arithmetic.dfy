/** The few facts about products, quotients and remainders that the other modules use. */
module Arithmetic {

  lemma SmallMultiple(k: int, d: int)
    requires 0 < d && -d < k * d < d
    ensures k == 0
  {
  }

  lemma DivUnique(n: int, d: int, q: int, r: int)
    requires 0 < d && n == q * d + r && 0 <= r < d
    ensures n / d == q && n % d == r
  {
    var q', r' := n / d, n % d;
    assert n == q' * d + r';
    assert (q - q') * d == r' - r;
    SmallMultiple(q - q', d);
  }

  lemma MulLe(a: int, b: int, k: int)
    requires a <= b && 0 <= k
    ensures a * k <= b * k
  {
  }

  lemma MulPositive(a: nat, b: nat)
    requires 0 < a && 0 < b
    ensures 0 < a * b
  {
  }

  /** A number with high digit `c` lies below `limit` whole cycles exactly when `c` does. */
  lemma HighDigit(c: nat, low: nat, cycle: nat, limit: nat)
    requires low < cycle
    ensures c * cycle + low < limit * cycle <==> c < limit
  {
    if c < limit {
      MulLe(c + 1, limit, cycle);
    } else {
      MulLe(limit, c, cycle);
    }
  }

  lemma MulSucc(k: nat, d: nat)
    ensures (k + 1) * d == k * d + d
  {
  }
}
