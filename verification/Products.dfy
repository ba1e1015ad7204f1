/** Products of reals, for proofs that must not depend on how a solver expands them. */
module Products {
  /** A product as a function, so that equal factors give equal products by congruence. */
  function Times(a: real, b: real): real
  {
    a * b
  }

  lemma CancelReal(a: real, b: real, c: real)
    requires c != 0.0 && Times(a, c) == Times(b, c)
    ensures a == b
  {
    assert (a - b) * c == 0.0;
  }

  lemma PositiveProduct(a: real, b: real)
    requires a > 0.0 && b > 0.0
    ensures Times(a, b) > 0.0
  {
  }

  lemma NonNegativeProduct(a: real, b: real)
    requires a >= 0.0 && b >= 0.0
    ensures Times(a, b) >= 0.0
  {
  }

  lemma NegationsCancel(a: real, b: real)
    ensures (-a) * (-b) == a * b
  {
  }

  function Square(a: real): (r: real)
    ensures r >= 0.0
    ensures a != 0.0 ==> r > 0.0
  {
    SquareSign(a);
    Times(a, a)
  }

  lemma SquareSign(a: real)
    ensures Times(a, a) >= 0.0
    ensures a != 0.0 ==> Times(a, a) > 0.0
  {
    if a > 0.0 {
      PositiveProduct(a, a);
    } else if a < 0.0 {
      PositiveProduct(-a, -a);
      assert Times(-a, -a) == Times(a, a);
    }
  }

  lemma NegativeProduct(a: real, b: real)
    requires a > 0.0 && b < 0.0
    ensures Times(a, b) < 0.0
  {
    PositiveProduct(a, -b);
    assert Times(a, -b) == -Times(a, b);
  }
}
