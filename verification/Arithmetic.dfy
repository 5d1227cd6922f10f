/** Powers of two, and the facts about multiplication and division that several proofs share. */
module Arithmetic {
  function Pow2(n: nat): (r: nat)
    ensures r > 0
  {
    if n == 0 then 1 else 2 * Pow2(n - 1)
  }

  lemma MulMonotone(a: nat, b: nat, m: nat)
    ensures a <= b ==> a * m <= b * m
  {
  }

  /** Quotient and remainder are determined by their equation. */
  lemma DivUnique(x: nat, m: nat, q: nat, r: nat)
    requires m > 0 && x == q * m + r && r < m
    ensures x / m == q && x % m == r
  {
    var p := x / m;
    assert x == p * m + x % m;
    MulMonotone(p + 1, q, m);
    MulMonotone(q + 1, p, m);
  }
}
