/** Division, as several modules need it. */
module Arithmetic {
  lemma AtLeast(k: int, d: int)
    requires k >= 1 && d >= 0
    ensures k * d >= d
  {
  }

  /** A quotient and a remainder are the quotient and the remainder. */
  lemma Division(n: int, d: int, q: int, r: int)
    requires 0 <= r < d && n == q * d + r
    ensures n / d == q && n % d == r
  {
    var p, s := n / d, n % d;
    assert (p - q) * d == r - s;
    if p > q {
      AtLeast(p - q, d);
    } else if p < q {
      AtLeast(q - p, d);
    }
  }
}
