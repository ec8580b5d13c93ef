/** Uniqueness of quotient and remainder. */
module Division {
  lemma DivUnique(n: int, d: nat, q: int, r: nat)
    requires r < d && n == q * d + r
    ensures n / d == q && n % d == r
  {
    EuclidUnique(d, q, r, n / d, n % d);
  }

  lemma EuclidUnique(d: nat, q: int, r: nat, q': int, r': nat)
    requires r < d && r' < d && q * d + r == q' * d + r'
    ensures q == q' && r == r'
  {
    assert (q - q') * d == r' - r;
    if q > q' { AtLeastD(q - q', d); }
    if q < q' { AtLeastD(q' - q, d); }
  }

  lemma AtLeastD(k: nat, d: nat)
    requires k >= 1
    ensures k * d >= d
  {
    assert k * d == (k - 1) * d + d;
  }
}
