/** Three-by-three positive definite matrices and their inverses. */
module Innovation {
  import opened Matrices
  import opened Products

  // The nine entries of a 3x3 matrix are written a b c / d e f / g h i.

  function Det(a: real, b: real, c: real, d: real, e: real, f: real, g: real, h: real, i: real): real
  {
    a * (e * i - f * h) - b * (d * i - f * g) + c * (d * h - e * g)
  }

  function Minor(p: real, q: real, r: real, s: real): real
  {
    p * s - q * r
  }

  function Det3(m: Matrix): real
  {
    Det(At(m, 0, 0), At(m, 0, 1), At(m, 0, 2), At(m, 1, 0), At(m, 1, 1), At(m, 1, 2),
        At(m, 2, 0), At(m, 2, 1), At(m, 2, 2))
  }

  function Adjugate(m: Matrix): (r: Matrix)
    ensures Dim(r, 3, 3)
  {
    [[Minor(At(m, 1, 1), At(m, 1, 2), At(m, 2, 1), At(m, 2, 2)),
      Minor(At(m, 0, 2), At(m, 0, 1), At(m, 2, 2), At(m, 2, 1)),
      Minor(At(m, 0, 1), At(m, 0, 2), At(m, 1, 1), At(m, 1, 2))],
     [Minor(At(m, 1, 2), At(m, 1, 0), At(m, 2, 2), At(m, 2, 0)),
      Minor(At(m, 0, 0), At(m, 0, 2), At(m, 2, 0), At(m, 2, 2)),
      Minor(At(m, 0, 2), At(m, 0, 0), At(m, 1, 2), At(m, 1, 0))],
     [Minor(At(m, 1, 0), At(m, 1, 1), At(m, 2, 0), At(m, 2, 1)),
      Minor(At(m, 0, 1), At(m, 0, 0), At(m, 2, 1), At(m, 2, 0)),
      Minor(At(m, 0, 0), At(m, 0, 1), At(m, 1, 0), At(m, 1, 1))]]
  }

  /** `np.linalg.inv` of a 3x3 matrix; it has no value when the determinant is 0. */
  function Inverse(m: Matrix): (r: Matrix)
    requires Det3(m) != 0.0
    ensures Dim(r, 3, 3)
  {
    Scale(1.0 / Det3(m), Adjugate(m))
  }

  // ----- the adjugate -----

  lemma SumOfThree(f: int -> real)
    ensures Sum(f, 3) == f(0) + f(1) + f(2)
  {
    assert Sum(f, 2) == Sum(f, 1) + f(1);
  }

  /** Rows of the adjugate against columns of the matrix: the determinant, or 0. */
  lemma Cofactors(a: real, b: real, c: real, d: real, e: real, f: real, g: real, h: real, i: real)
    ensures Minor(e, f, h, i) * a + Minor(c, b, i, h) * d + Minor(b, c, e, f) * g == Det(a, b, c, d, e, f, g, h, i)
    ensures Minor(e, f, h, i) * b + Minor(c, b, i, h) * e + Minor(b, c, e, f) * h == 0.0
    ensures Minor(e, f, h, i) * c + Minor(c, b, i, h) * f + Minor(b, c, e, f) * i == 0.0
  {
  }

  lemma Cofactors2(a: real, b: real, c: real, d: real, e: real, f: real, g: real, h: real, i: real)
    ensures Minor(f, d, i, g) * a + Minor(a, c, g, i) * d + Minor(c, a, f, d) * g == 0.0
    ensures Minor(f, d, i, g) * b + Minor(a, c, g, i) * e + Minor(c, a, f, d) * h == Det(a, b, c, d, e, f, g, h, i)
    ensures Minor(f, d, i, g) * c + Minor(a, c, g, i) * f + Minor(c, a, f, d) * i == 0.0
  {
  }

  lemma Cofactors3(a: real, b: real, c: real, d: real, e: real, f: real, g: real, h: real, i: real)
    ensures Minor(d, e, g, h) * a + Minor(b, a, h, g) * d + Minor(a, b, d, e) * g == 0.0
    ensures Minor(d, e, g, h) * b + Minor(b, a, h, g) * e + Minor(a, b, d, e) * h == 0.0
    ensures Minor(d, e, g, h) * c + Minor(b, a, h, g) * f + Minor(a, b, d, e) * i == Det(a, b, c, d, e, f, g, h, i)
  {
  }

  lemma AdjugateRow(m: Matrix, r: int)
    requires Dim(m, 3, 3) && 0 <= r < 3
    ensures forall j :: 0 <= j < 3 ==>
      At(Mul(Adjugate(m), m), r, j) == if r == j then Det3(m) else 0.0
  {
    forall j | 0 <= j < 3
      ensures At(Mul(Adjugate(m), m), r, j) == if r == j then Det3(m) else 0.0
    {
      hide Mul, Det3, Adjugate;
      SumOfThree(Term(Adjugate(m), m, r, j));
      if r == 0 {
        AdjugateRow0(m, j);
      } else if r == 1 {
        AdjugateRow1(m, j);
      } else {
        AdjugateRow2(m, j);
      }
    }
  }

  lemma AdjugateRow0(m: Matrix, j: int)
    requires Dim(m, 3, 3) && 0 <= j < 3
    ensures var t := Term(Adjugate(m), m, 0, j); t(0) + t(1) + t(2) == if j == 0 then Det3(m) else 0.0
  {
    hide Minor, Det;
    Cofactors(At(m, 0, 0), At(m, 0, 1), At(m, 0, 2), At(m, 1, 0), At(m, 1, 1), At(m, 1, 2),
         At(m, 2, 0), At(m, 2, 1), At(m, 2, 2));
  }

  lemma AdjugateRow1(m: Matrix, j: int)
    requires Dim(m, 3, 3) && 0 <= j < 3
    ensures var t := Term(Adjugate(m), m, 1, j); t(0) + t(1) + t(2) == if j == 1 then Det3(m) else 0.0
  {
    hide Minor, Det;
    Cofactors2(At(m, 0, 0), At(m, 0, 1), At(m, 0, 2), At(m, 1, 0), At(m, 1, 1), At(m, 1, 2),
         At(m, 2, 0), At(m, 2, 1), At(m, 2, 2));
  }

  lemma AdjugateRow2(m: Matrix, j: int)
    requires Dim(m, 3, 3) && 0 <= j < 3
    ensures var t := Term(Adjugate(m), m, 2, j); t(0) + t(1) + t(2) == if j == 2 then Det3(m) else 0.0
  {
    hide Minor, Det;
    Cofactors3(At(m, 0, 0), At(m, 0, 1), At(m, 0, 2), At(m, 1, 0), At(m, 1, 1), At(m, 1, 2),
         At(m, 2, 0), At(m, 2, 1), At(m, 2, 2));
  }

  lemma InverseIsInverse(m: Matrix)
    requires Dim(m, 3, 3) && Det3(m) != 0.0
    ensures Mul(Inverse(m), m) == Identity(3)
  {
    hide Det3, Adjugate, Mul, Scale;
    var d := Det3(m);
    MulScaleLeft(1.0 / d, Adjugate(m), m, 3, 3, 3);
    var x := Scale(1.0 / d, Mul(Adjugate(m), m));
    AdjugateRow(m, 0);
    AdjugateRow(m, 1);
    AdjugateRow(m, 2);
    ReciprocalTimes(d);
    forall i, j | 0 <= i < 3 && 0 <= j < 3
      ensures At(x, i, j) == At(Identity(3), i, j)
    {
      assert At(x, i, j) == 1.0 / d * At(Mul(Adjugate(m), m), i, j);
    }
    Extensional(x, Identity(3), 3, 3);
  }

  lemma ReciprocalTimes(d: real)
    requires d != 0.0
    ensures 1.0 / d * d == 1.0
  {
  }

  // ----- positive definite matrices are invertible -----

  function Column3(x: real, y: real, z: real): (m: Matrix)
    ensures Dim(m, 3, 1)
  {
    [[x], [y], [z]]
  }

  /** The quadratic form of the symmetric matrix a b c / b e f / c f i. */
  function Form(a: real, b: real, c: real, e: real, f: real, i: real, x: real, y: real, z: real): real
  {
    (a * x + b * y + c * z) * x + (b * x + e * y + f * z) * y + (c * x + f * y + i * z) * z
  }

  lemma QuadRow(p: Matrix, x: real, y: real, z: real, j: int)
    requires Symmetric(p, 3) && 0 <= j < 3
    ensures At(Mul(Transpose(Column3(x, y, z)), p), 0, j) == At(p, j, 0) * x + At(p, j, 1) * y + At(p, j, 2) * z
  {
    var xt := Transpose(Column3(x, y, z));
    SumOfThree(Term(xt, p, 0, j));
    assert At(Transpose(p), j, 0) == At(p, 0, j);
    assert At(Transpose(p), j, 1) == At(p, 1, j);
    assert At(Transpose(p), j, 2) == At(p, 2, j);
  }

  lemma QuadOfColumn(p: Matrix, x: real, y: real, z: real)
    requires Symmetric(p, 3)
    ensures Quad(Column3(x, y, z), p) ==
            Form(At(p, 0, 0), At(p, 0, 1), At(p, 0, 2), At(p, 1, 1), At(p, 1, 2), At(p, 2, 2), x, y, z)
  {
    hide Mul;
    var row := Mul(Transpose(Column3(x, y, z)), p);
    SumOfThree(Term(row, Column3(x, y, z), 0, 0));
    QuadRow(p, x, y, z, 0);
    QuadRow(p, x, y, z, 1);
    QuadRow(p, x, y, z, 2);
    SymmetricEntries(p);
    var r0, r1, r2 := At(row, 0, 0), At(row, 0, 1), At(row, 0, 2);
    assert Quad(Column3(x, y, z), p) == Times(r0, x) + Times(r1, y) + Times(r2, z);
  }

  lemma SymmetricEntries(p: Matrix)
    requires Symmetric(p, 3)
    ensures At(p, 1, 0) == At(p, 0, 1) && At(p, 2, 0) == At(p, 0, 2) && At(p, 2, 1) == At(p, 1, 2)
  {
    assert At(Transpose(p), 0, 1) == At(p, 1, 0) && At(Transpose(p), 0, 2) == At(p, 2, 0);
    assert At(Transpose(p), 1, 2) == At(p, 2, 1);
  }

  lemma PositiveForm(p: Matrix, x: real, y: real, z: real)
    requires PositiveDefinite(p, 3) && (x != 0.0 || y != 0.0 || z != 0.0)
    ensures Form(At(p, 0, 0), At(p, 0, 1), At(p, 0, 2), At(p, 1, 1), At(p, 1, 2), At(p, 2, 2), x, y, z) > 0.0
  {
    var c := Column3(x, y, z);
    assert At(c, 0, 0) == x && At(c, 1, 0) == y && At(c, 2, 0) == z;
    QuadOfColumn(p, x, y, z);
  }

  /** The determinant of a positive definite matrix is positive (Sylvester's criterion). */
  lemma PositiveDefiniteDet(p: Matrix)
    requires PositiveDefinite(p, 3)
    ensures Det3(p) > 0.0
  {
    var a, b, c := At(p, 0, 0), At(p, 0, 1), At(p, 0, 2);
    var e, f, i := At(p, 1, 1), At(p, 1, 2), At(p, 2, 2);
    SymmetricEntries(p);
    PositiveForm(p, 1.0, 0.0, 0.0);
    FirstMinor(a, b, c, e, f, i);
    PositiveForm(p, -b, a, 0.0);
    SecondMinor(a, b, c, e, f, i);
    PositiveForm(p, Minor(b, c, e, f), Minor(c, a, f, b), Minor(a, b, b, e));
    ThirdMinor(a, b, c, e, f, i);
  }

  lemma SignOfProduct(m: real, a: real)
    requires a > 0.0
    ensures Times(m, a) > 0.0 ==> m > 0.0
  {
    if m <= 0.0 {
      NonNegativeProduct(-m, a);
      assert Times(-m, a) == -Times(m, a);
    }
  }

  lemma FirstMinor(a: real, b: real, c: real, e: real, f: real, i: real)
    requires Form(a, b, c, e, f, i, 1.0, 0.0, 0.0) > 0.0
    ensures a > 0.0
  {
  }

  lemma SecondMinor(a: real, b: real, c: real, e: real, f: real, i: real)
    requires a > 0.0 && Form(a, b, c, e, f, i, -b, a, 0.0) > 0.0
    ensures Minor(a, b, b, e) > 0.0
  {
    assert Form(a, b, c, e, f, i, -b, a, 0.0) == Times(Minor(a, b, b, e), a);
    SignOfProduct(Minor(a, b, b, e), a);
  }

  lemma ThirdMinor(a: real, b: real, c: real, e: real, f: real, i: real)
    requires Minor(a, b, b, e) > 0.0
    requires Form(a, b, c, e, f, i, Minor(b, c, e, f), Minor(c, a, f, b), Minor(a, b, b, e)) > 0.0
    ensures Det(a, b, c, b, e, f, c, f, i) > 0.0
  {
    var m, x, y := Minor(a, b, b, e), Minor(b, c, e, f), Minor(c, a, f, b);
    var d := Det(a, b, c, b, e, f, c, f, i);
    LastColumnOfAdjugate(a, b, c, e, f, i);
    assert Times(a * x + b * y + c * m, x) == Times(0.0, x);
    assert Times(b * x + e * y + f * m, y) == Times(0.0, y);
    assert Times(c * x + f * y + i * m, m) == Times(d, m);
    SignOfProduct(d, m);
  }

  lemma LastColumnOfAdjugate(a: real, b: real, c: real, e: real, f: real, i: real)
    ensures a * Minor(b, c, e, f) + b * Minor(c, a, f, b) + c * Minor(a, b, b, e) == 0.0
    ensures b * Minor(b, c, e, f) + e * Minor(c, a, f, b) + f * Minor(a, b, b, e) == 0.0
    ensures c * Minor(b, c, e, f) + f * Minor(c, a, f, b) + i * Minor(a, b, b, e) ==
            Det(a, b, c, b, e, f, c, f, i)
  {
  }
}
