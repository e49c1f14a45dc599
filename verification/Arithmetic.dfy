/** Facts about quotients, remainders and powers of two that the solver does not find by itself. */
module Arithmetic {
  function Pow2(k: nat): (p: nat)
    ensures p > 0
  {
    if k == 0 then 1 else 2 * Pow2(k - 1)
  }

  lemma {:induction false} PowGrows(j: nat, k: nat)
    requires j <= k
    ensures Pow2(j) <= Pow2(k)
    decreases k
  {
    if j < k {
      PowGrows(j, k - 1);
    }
  }

  lemma Multiple(n: nat, d: int)
    ensures d >= 1 ==> n * d >= n
    ensures d <= -1 ==> n * d <= 0 - n
  {
  }

  /** A quotient and a remainder are determined by their equation. */
  lemma QuotientOf(q: nat, r: nat, n: nat)
    requires r < n
    ensures (q * n + r) / n == q && (q * n + r) % n == r
  {
    var t := q * n + r;
    var d := t / n - q;
    assert n * d == n * (t / n) - n * q == r - t % n;
    Multiple(n, d);
  }

  lemma HalfDivides(a: nat, p: nat)
    requires p > 0
    ensures a % (2 * p) == 0 <==> a % 2 == 0 && a / 2 % p == 0
  {
    var q, r := a / 2 / p, a / 2 % p;
    assert a / 2 == q * p + r;
    assert a == q * (2 * p) + (2 * r + a % 2);
    QuotientOf(q, 2 * r + a % 2, 2 * p);
  }
}
