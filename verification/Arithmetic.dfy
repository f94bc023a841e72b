/** Facts about integer products and quotients. */
module Arithmetic {

  lemma MulMonotone(a: int, b: int, c: nat)
    requires a <= b
    ensures a * c <= b * c
  {
  }

  /** A quotient is determined by its remainder. */
  lemma DivUnique(x: int, k: int, q: int, m: int)
    requires k >= 1 && 0 <= m < k && x == q * k + m
    ensures x / k == q && x % k == m
  {
    var p, n := x / k, x % k;
    assert x == p * k + n;
    assert (q - p) * k == n - m && (p - q) * k == m - n;
    if q > p {
      MulMonotone(1, q - p, k);
    } else if q < p {
      MulMonotone(1, p - q, k);
    }
  }
}
