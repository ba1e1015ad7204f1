/** Small facts about products and quotients of integers, stated on plain variables. */
module Algebra {
  lemma Distribute(k: int, p: int, q: int, g: int)
    ensures (k * p + q) * g == k * (p * g) + q * g
  {
  }

  lemma Regroup(a: int, b: int, c: int)
    ensures (a * b) * c == a * (b * c) == b * (a * c) == (a * c) * b
  {
  }

  lemma MulMonotone(c: nat, a: int, b: int)
    requires a <= b
    ensures c * a <= c * b
  {
  }

  lemma CancelFactor(a: int, b: int, g: int)
    requires g > 0 && a * g == b * g
    ensures a == b
  {
    MulMonotone(g, a + 1, if b > a then b else a + 1);
    MulMonotone(g, b + 1, if a > b then a else b + 1);
  }

  lemma PositiveFactor(m: int, f: nat)
    requires m * f > 0
    ensures m >= 1 && f >= 1 && m * f >= f
  {
    if m <= 0 {
      MulMonotone(f, m, 0);
      assert false;
    }
    MulMonotone(f, 1, m);
  }

  /** Floor division by a positive divisor is the greatest multiple not above. */
  lemma QuotientBounds(n: int, d: int)
    requires d > 0
    ensures n / d * d <= n < n / d * d + d
  {
  }

  lemma QuotientAtLeast(n: int, d: int, m: int)
    requires d > 0 && m * d <= n
    ensures n / d >= m
  {
    var q := n / d;
    QuotientBounds(n, d);
    if q < m {
      MulMonotone(d, q + 1, m);
      assert false;
    }
  }

  lemma QuotientUnique(n: int, d: int, m: int)
    requires d > 0 && m * d <= n < m * d + d
    ensures n / d == m
  {
    var q := n / d;
    QuotientBounds(n, d);
    QuotientAtLeast(n, d, m);
    if q > m {
      MulMonotone(d, m + 1, q);
      assert false;
    }
  }
}
