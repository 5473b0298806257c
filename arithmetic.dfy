/** Facts about integer division that the solver does not find unaided. */
module Arithmetic {

  lemma {:induction false} MulAtLeast(d: int, t: int)
    requires d >= 1 && t >= 1
    ensures d * t >= d
  {
    if t > 1 {
      MulAtLeast(d, t - 1);
      assert d * t == d * (t - 1) + d;
    }
  }

  /** Quotient and remainder are determined by n == d * k + r, 0 <= r < d. */
  lemma DivModUnique(n: int, d: int, k: int, r: int)
    requires d >= 1 && 0 <= r < d && n == d * k + r
    ensures n / d == k && n % d == r
  {
    var k0, r0 := n / d, n % d;
    assert n == d * k0 + r0;
    if k > k0 {
      assert d * (k - k0) == d * k - d * k0;
      MulAtLeast(d, k - k0);
    } else if k < k0 {
      assert d * (k0 - k) == d * k0 - d * k;
      MulAtLeast(d, k0 - k);
    }
  }

  /** A multiple of d leaves no remainder, and dividing it by d gives back q. */
  lemma MultipleDivides(q: int, d: int)
    requires d >= 1
    ensures (q * d) % d == 0 && (q * d) / d == q
  {
    DivModUnique(q * d, d, q, 0);
  }

  /** A positive multiple of d is at least d. */
  lemma DivisorAtMost(n: int, d: int)
    requires d >= 1 && n >= 1 && n % d == 0
    ensures d <= n
  {
    if d > n {
      DivModUnique(n, d, 0, n);
    }
  }
}
