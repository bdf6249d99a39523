/** Facts about integer division and multiplication that the solver does not find unaided. */
module Arithmetic {

  /** The quotient and remainder of n by d are the only q, r with n == q * d + r and
      0 <= r < d. */
  lemma DivModUnique(n: int, d: int, q: int, r: int)
    requires d > 0 && 0 <= r < d && n == q * d + r
    ensures n / d == q && n % d == r
  {
    var q2, r2 := n / d, n % d;
    assert (q - q2) * d == r2 - r;
    if q > q2 {
      MulAtLeast(q - q2, d);
    } else if q < q2 {
      MulAtLeast(q2 - q, d);
    }
  }

  lemma MulAtLeast(a: int, d: int)
    requires a >= 1 && d > 0
    ensures a * d >= d
  {
  }

  lemma MulMono(a: int, b: int, d: int)
    requires a <= b && d >= 0
    ensures a * d <= b * d
  {
  }

  /** A positive factor cancels. */
  lemma MulCancel(x: int, y: int, w: int)
    requires w > 0 && x * w == y * w
    ensures x == y
  {
    assert (x - y) * w == 0;
    if x > y {
      MulAtLeast(x - y, w);
    } else if x < y {
      MulAtLeast(y - x, w);
    }
  }
}
