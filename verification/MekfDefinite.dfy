/**
 With positive initial variances the filter's covariance stays positive definite over every run: the
 source's transition matrix and reset map are invertible, and the Joseph form has no kernel.
 */
module MekfDefinite {
  import opened Matrices
  import opened Innovation
  import opened Products
  import opened Quaternions
  import opened Mekf
  import opened MekfTrig
  import opened MekfFilter

  // ----- definiteness -----

  predicate IsNonZero(x: Matrix, n: nat)
  {
    exists i :: 0 <= i < n && At(x, i, 0) != 0.0
  }

  /** The transpose of a maps no non-zero column to zero. */
  ghost predicate Invertible(a: Matrix, n: nat)
  {
    Dim(a, n, n) && forall x :: Dim(x, n, 1) && IsNonZero(x, n) ==> IsNonZero(Mul(Transpose(a), x), n)
  }

  lemma DefiniteAt(p: Matrix, n: nat, x: Matrix)
    requires PositiveDefinite(p, n) && Dim(x, n, 1) && IsNonZero(x, n)
    ensures Quad(x, p) > 0.0
  {
    hide Quad;
  }

  lemma PsdAt(p: Matrix, n: nat, x: Matrix)
    requires Psd(p, n) && Dim(x, n, 1)
    ensures Quad(x, p) >= 0.0
  {
    hide Quad;
  }

  lemma PsdDim(p: Matrix, n: nat)
    requires Psd(p, n)
    ensures Dim(p, n, n)
  {
  }

  lemma DefiniteIf(p: Matrix, n: nat)
    requires Symmetric(p, n) && forall x :: Dim(x, n, 1) && IsNonZero(x, n) ==> Quad(x, p) > 0.0
    ensures PositiveDefinite(p, n)
  {
    hide Quad, Symmetric;
    forall x | Dim(x, n, 1) && exists i :: 0 <= i < n && At(x, i, 0) != 0.0
      ensures Quad(x, p) > 0.0
    {
      assert IsNonZero(x, n);
    }
  }

  lemma CongruenceDefinite(a: Matrix, p: Matrix, n: pos)
    requires Invertible(a, n) && PositiveDefinite(p, n)
    ensures PositiveDefinite(Congruence(a, p), n)
  {
    hide Quad, Congruence, Mul, Transpose;
    CongruenceSymmetric(a, p, n, n);
    forall x | Dim(x, n, 1) && exists i :: 0 <= i < n && At(x, i, 0) != 0.0
      ensures Quad(x, Congruence(a, p)) > 0.0
    {
      assert IsNonZero(x, n);
      QuadCongruence(x, a, p, n, n);
    }
  }

  lemma AddDefinite(p: Matrix, q: Matrix, n: pos)
    requires PositiveDefinite(p, n) && Psd(q, n)
    ensures PositiveDefinite(Add(p, q), n)
  {
    hide Quad, Add, Transpose;
    TransposeAdd(p, q, n, n);
    forall x | Dim(x, n, 1) && exists i :: 0 <= i < n && At(x, i, 0) != 0.0
      ensures Quad(x, Add(p, q)) > 0.0
    {
      QuadAdd(x, p, q, n);
    }
  }

  // ----- cross products -----

  function Cross(a: Vec3, b: Vec3): Vec3
  {
    Vec3(Times(a.y, b.z) - Times(a.z, b.y), Times(a.z, b.x) - Times(a.x, b.z), Times(a.x, b.y) - Times(a.y, b.x))
  }

  function Dot(a: Vec3, b: Vec3): real
  {
    Times(a.x, b.x) + Times(a.y, b.y) + Times(a.z, b.z)
  }

  /** `u + a (w x u) + b (w x (w x u))`. */
  function Turned(a: real, b: real, w: Vec3, u: Vec3): Vec3
  {
    var y := Cross(w, u);
    var z := Cross(w, y);
    Vec3(u.x + Times(a, y.x) + Times(b, z.x), u.y + Times(a, y.y) + Times(b, z.y), u.z + Times(a, y.z) + Times(b, z.z))
  }

  lemma CrossOrthogonal(a: Vec3, b: Vec3)
    ensures Dot(b, Cross(a, b)) == 0.0 && Dot(a, Cross(a, b)) == 0.0
  {
  }

  /** The scalar triple product. */
  lemma TripleProduct(a: Vec3, b: Vec3, c: Vec3)
    ensures Dot(b, Cross(a, c)) == -Dot(Cross(a, b), c)
  {
  }

  /** Lagrange's identity. */
  lemma CrossNorm(a: Vec3, b: Vec3)
    ensures Dot(Cross(a, b), Cross(a, b)) == Times(Dot(a, a), Dot(b, b)) - Times(Dot(a, b), Dot(a, b))
  {
  }

  lemma SumSquared(p: real, q: real, r: real)
    ensures Times(p + q + r, p + q + r) ==
            Times(p, p) + Times(q, q) + Times(r, r) + 2.0 * Times(p, q) + 2.0 * Times(p, r) + 2.0 * Times(q, r)
  {
  }

  lemma Exchange(a: real, y: real, b: real, z: real)
    ensures Times(Times(a, y), Times(b, z)) == Times(Times(a, b), Times(y, z))
    ensures Times(y, Times(a, z)) == Times(a, Times(y, z))
  {
  }

  lemma SquareOfThree(a: real, b: real, u: real, y: real, z: real)
    ensures Times(u + Times(a, y) + Times(b, z), u + Times(a, y) + Times(b, z)) ==
            Times(u, u) + Times(Times(a, a), Times(y, y)) + Times(Times(b, b), Times(z, z)) +
            2.0 * Times(a, Times(u, y)) + 2.0 * Times(b, Times(u, z)) + 2.0 * Times(Times(a, b), Times(y, z))
  {
    hide Times;
    SumSquared(u, Times(a, y), Times(b, z));
    Exchange(a, y, a, y);
    Exchange(b, z, b, z);
    Exchange(a, y, b, z);
    Exchange(a, u, 0.0, y);
    Exchange(b, u, 0.0, z);
  }

  /** The squared norm of the turned vector, by those of u, y and z. */
  lemma TurnedSquares(a: real, b: real, w: Vec3, u: Vec3)
    ensures var y := Cross(w, u);
      var z := Cross(w, y);
      var v := Turned(a, b, w, u);
      Dot(v, v) == Dot(u, u) + Times(Times(a, a), Dot(y, y)) + Times(Times(b, b), Dot(z, z)) +
                   2.0 * Times(a, Dot(u, y)) + 2.0 * Times(b, Dot(u, z)) + 2.0 * Times(Times(a, b), Dot(y, z))
  {
    var y := Cross(w, u);
    var z := Cross(w, y);
    SquareOfThree(a, b, u.x, y.x, z.x);
    SquareOfThree(a, b, u.y, y.y, z.y);
    SquareOfThree(a, b, u.z, y.z, z.z);
    hide Times, Cross;
    DistributeThree(Times(a, a), Times(y.x, y.x), Times(y.y, y.y), Times(y.z, y.z));
    DistributeThree(Times(b, b), Times(z.x, z.x), Times(z.y, z.y), Times(z.z, z.z));
    DistributeThree(a, Times(u.x, y.x), Times(u.y, y.y), Times(u.z, y.z));
    DistributeThree(b, Times(u.x, z.x), Times(u.y, z.y), Times(u.z, z.z));
    DistributeThree(Times(a, b), Times(y.x, z.x), Times(y.y, z.y), Times(y.z, z.z));
  }

  /** What turning adds to the squared norm. */
  function Gained(a: real, b: real, m: real): real
  {
    Times(a, a) - 2.0 * b + Times(Times(b, b), m)
  }

  lemma TurnedNorm(a: real, b: real, w: Vec3, u: Vec3)
    ensures var (y, v) := (Cross(w, u), Turned(a, b, w, u));
      Dot(v, v) == Dot(u, u) + Times(Gained(a, b, Dot(w, w)), Dot(y, y))
  {
    hide Dot, Times, Cross, Turned;
    var y := Cross(w, u);
    var z := Cross(w, y);
    TurnedSquares(a, b, w, u);
    CrossOrthogonal(w, u);
    CrossOrthogonal(w, y);
    TripleProduct(w, u, y);
    CrossNorm(w, y);
    GainedForm(a, b, Dot(w, w), Dot(y, y), Dot(z, z), Dot(u, y), Dot(u, z), Dot(y, z));
  }

  lemma GainedForm(a: real, b: real, m: real, yy: real, zz: real, uy: real, uz: real, yz: real)
    requires zz == Times(m, yy) - Times(0.0, 0.0) && uy == 0.0 && uz == -yy && yz == 0.0
    ensures Times(Times(a, a), yy) + Times(Times(b, b), zz) + 2.0 * Times(a, uy) + 2.0 * Times(b, uz) +
            2.0 * Times(Times(a, b), yz) == Times(Gained(a, b, m), yy)
  {
    var p, q := Times(a, a), Times(b, b);
    assert Times(q, zz) == Times(Times(q, m), yy);
    assert Times(p - 2.0 * b + Times(q, m), yy) == Times(p, yy) - 2.0 * Times(b, yy) + Times(Times(q, m), yy);
  }


  predicate IsZero(v: Vec3)
  {
    v.x == 0.0 && v.y == 0.0 && v.z == 0.0
  }

  lemma DotPositive(v: Vec3)
    ensures Dot(v, v) >= 0.0 && (Dot(v, v) == 0.0 <==> IsZero(v))
  {
    SquareSign(v.x);
    SquareSign(v.y);
    SquareSign(v.z);
  }

  /** A turn that adds nothing negative to the norm takes no other vector to zero. */
  lemma TurnedNonZero(a: real, b: real, w: Vec3, u: Vec3)
    requires Gained(a, b, Dot(w, w)) >= 0.0 && !IsZero(u)
    ensures !IsZero(Turned(a, b, w, u))
  {
    hide Dot, Times, Cross, Turned, Gained, IsZero;
    TurnedNorm(a, b, w, u);
    DotPositive(u);
    DotPositive(Cross(w, u));
    DotPositive(Turned(a, b, w, u));
    NonNegativeProduct(Gained(a, b, Dot(w, w)), Dot(Cross(w, u), Cross(w, u)));
  }

  // ----- the source's matrices -----

  function UpperAt(a: real, b: real, w: Vec3, i: int, j: int): real
  {
    (if i == j then 1.0 else 0.0) - Times(a, SkewAt(w, i, j)) + Times(b, SkewSquaredAt(w, i, j))
  }

  /** Rows 3 to 5 are those of the identity, and the first block is `I - a S + b S S` with S the matrix of w. */
  predicate IsUpper(m: Matrix, a: real, b: real, w: Vec3)
  {
    Dim(m, 6, 6) &&
    (forall i, j :: 0 <= i < 3 && 0 <= j < 3 ==>
      At(m, i, j) == UpperAt(a, b, w, i, j)) &&
    forall i, j :: 3 <= i < 6 && 0 <= j < 6 ==> At(m, i, j) == if i == j then 1.0 else 0.0
  }

  function Head(x: Matrix): Vec3
  {
    Vec3(At(x, 0, 0), At(x, 1, 0), At(x, 2, 0))
  }

  function Component(v: Vec3, j: int): real
  {
    if j == 0 then v.x else if j == 1 then v.y else v.z
  }

  lemma TransposedRow(m: Matrix, x: Matrix, j: int)
    requires Dim(m, 6, 6) && Dim(x, 6, 1) && 0 <= j < 6
    ensures At(Mul(Transpose(m), x), j, 0) ==
            Times(At(m, 0, j), At(x, 0, 0)) + Times(At(m, 1, j), At(x, 1, 0)) + Times(At(m, 2, j), At(x, 2, 0)) +
            Times(At(m, 3, j), At(x, 3, 0)) + Times(At(m, 4, j), At(x, 4, 0)) + Times(At(m, 5, j), At(x, 5, 0))
  {
    SumOfSix(Term(Transpose(m), x, j, 0));
  }

  lemma UpperRow(m: Matrix, a: real, b: real, w: Vec3, x: Matrix, j: int)
    requires IsUpper(m, a, b, w) && Dim(x, 6, 1) && 0 <= j < 3
    ensures At(Mul(Transpose(m), x), j, 0) == Component(Turned(a, b, w, Head(x)), j)
  {
    hide Mul, Transpose, Times, UpperAt, Turned;
    TransposedRow(m, x, j);
    forall y: real
      ensures Times(0.0, y) == 0.0
    {
      ZeroTimesLeft(y);
    }
    TurnedComponent(a, b, w, Head(x), j);
  }

  lemma ZeroTimesLeft(y: real)
    ensures Times(0.0, y) == 0.0
  {
  }

  /** One column of the block against a vector. */
  lemma TurnedComponent(a: real, b: real, w: Vec3, u: Vec3, j: int)
    requires 0 <= j < 3
    ensures Times(UpperAt(a, b, w, 0, j), u.x) + Times(UpperAt(a, b, w, 1, j), u.y) +
            Times(UpperAt(a, b, w, 2, j), u.z) == Component(Turned(a, b, w, u), j)
  {
    SkewRow(w, u, j);
    SkewSquaredRow(w, u, j);
    hide Times, SkewAt, SkewSquaredAt, Cross;
    SplitTerm(if j == 0 then 1.0 else 0.0, a, SkewAt(w, 0, j), b, SkewSquaredAt(w, 0, j), u.x);
    SplitTerm(if j == 1 then 1.0 else 0.0, a, SkewAt(w, 1, j), b, SkewSquaredAt(w, 1, j), u.y);
    SplitTerm(if j == 2 then 1.0 else 0.0, a, SkewAt(w, 2, j), b, SkewSquaredAt(w, 2, j), u.z);
    DistributeThree(a, Times(SkewAt(w, 0, j), u.x), Times(SkewAt(w, 1, j), u.y), Times(SkewAt(w, 2, j), u.z));
    DistributeThree(b, Times(SkewSquaredAt(w, 0, j), u.x), Times(SkewSquaredAt(w, 1, j), u.y),
                    Times(SkewSquaredAt(w, 2, j), u.z));
    NegatedTimes(a, Component(Cross(w, u), j));
    UnitTimes(u.x);
    UnitTimes(u.y);
    UnitTimes(u.z);
  }

  lemma NegatedTimes(a: real, y: real)
    ensures Times(a, -y) == -Times(a, y)
  {
  }

  lemma UnitTimes(u: real)
    ensures Times(1.0, u) == u && Times(0.0, u) == 0.0
  {
  }

  lemma SplitTerm(d: real, a: real, s: real, b: real, q: real, u: real)
    ensures Times(d - Times(a, s) + Times(b, q), u) == Times(d, u) - Times(a, Times(s, u)) + Times(b, Times(q, u))
  {
  }

  lemma SkewRow(w: Vec3, u: Vec3, j: int)
    requires 0 <= j < 3
    ensures Times(SkewAt(w, 0, j), u.x) + Times(SkewAt(w, 1, j), u.y) + Times(SkewAt(w, 2, j), u.z) ==
            -Component(Cross(w, u), j)
  {
  }

  // The first component of a double cross product; the other two follow by rotating the axes.
  lemma DoubleCross(x: real, y: real, z: real, u: real, v: real, w: real)
    ensures Times(-Square(y) - Square(z), u) + Times(Times(x, y), v) + Times(Times(z, x), w) ==
            Times(y, Times(x, v) - Times(y, u)) - Times(z, Times(z, u) - Times(x, w))
  {
  }

  lemma SkewSquaredRow(w: Vec3, u: Vec3, j: int)
    requires 0 <= j < 3
    ensures Times(SkewSquaredAt(w, 0, j), u.x) + Times(SkewSquaredAt(w, 1, j), u.y) +
            Times(SkewSquaredAt(w, 2, j), u.z) == Component(Cross(w, Cross(w, u)), j)
  {
    hide Times, Square;
    DoubleCross(w.x, w.y, w.z, u.x, u.y, u.z);
    DoubleCross(w.y, w.z, w.x, u.y, u.z, u.x);
    DoubleCross(w.z, w.x, w.y, u.z, u.x, u.y);
  }

  lemma LowerRow(m: Matrix, a: real, b: real, w: Vec3, x: Matrix, j: int)
    requires IsUpper(m, a, b, w) && Dim(x, 6, 1) && 3 <= j < 6 && IsZero(Head(x))
    ensures At(Mul(Transpose(m), x), j, 0) == At(x, j, 0)
  {
    hide Mul, Transpose, Times, UpperAt;
    TransposedRow(m, x, j);
    forall y: real
      ensures Times(0.0, y) == 0.0 == Times(y, 0.0) && Times(1.0, y) == y
    {
      UnitTimes(y);
      ZeroTimes(y);
    }
  }

  /** Such a matrix is invertible when its block adds nothing negative to a norm. */
  lemma UpperInvertible(m: Matrix, a: real, b: real, w: Vec3)
    requires IsUpper(m, a, b, w) && Gained(a, b, Dot(w, w)) >= 0.0
    ensures Invertible(m, 6)
  {
    forall x | Dim(x, 6, 1) && IsNonZero(x, 6)
      ensures IsNonZero(Mul(Transpose(m), x), 6)
    {
      UpperNonZero(m, a, b, w, x);
    }
  }

  lemma UpperNonZero(m: Matrix, a: real, b: real, w: Vec3, x: Matrix)
    requires IsUpper(m, a, b, w) && Gained(a, b, Dot(w, w)) >= 0.0 && Dim(x, 6, 1) && IsNonZero(x, 6)
    ensures IsNonZero(Mul(Transpose(m), x), 6)
  {
    hide Mul, Transpose, IsUpper, Dot, Gained, Turned;
    if IsZero(Head(x)) {
      var j :| 0 <= j < 6 && At(x, j, 0) != 0.0;
      LowerRow(m, a, b, w, x, j);
    } else {
      TurnedNonZero(a, b, w, Head(x));
      UpperRow(m, a, b, w, x, 0);
      UpperRow(m, a, b, w, x, 1);
      UpperRow(m, a, b, w, x, 2);
    }
  }

  lemma BlockIsUpper(top: Matrix, corner: Matrix, a: real, b: real, w: Vec3)
    requires Dim(top, 3, 3) && forall i, j :: 0 <= i < 3 && 0 <= j < 3 ==> At(top, i, j) == UpperAt(a, b, w, i, j)
    ensures IsUpper(Block(top, corner, Zero3(), Identity(3)), a, b, w)
  {
    hide UpperAt;
  }

  lemma RodriguesIsUpper(a: real, b: real, w: Vec3, corner: Matrix)
    ensures IsUpper(Block(Rodrigues(a, b, Skew(w)), corner, Zero3(), Identity(3)), a, b, w)
  {
    hide IsUpper, Block, Rodrigues, Skew, Mul, Times, SkewAt, SkewSquaredAt;
    forall i, j | 0 <= i < 3 && 0 <= j < 3
      ensures At(Rodrigues(a, b, Skew(w)), i, j) == UpperAt(a, b, w, i, j)
    {
      RodriguesEntry(a, b, Skew(w), i, j);
      SkewEntry(w, i, j);
      SkewSquared(w, i, j);
    }
    BlockIsUpper(Rodrigues(a, b, Skew(w)), corner, a, b, w);
  }

  /** The series for small rates adds a fourth power of the angle to the norm. */
  lemma SeriesGains(dt: real, m: real)
    requires m >= 0.0
    ensures Gained(dt, 0.5 * (dt * dt), m) >= 0.0
  {
    var b := 0.5 * (dt * dt);
    SquareSign(b);
    NonNegativeProduct(Times(b, b), m);
    assert Times(dt, dt) == 2.0 * b;
  }

  /** A rotation adds nothing. */
  lemma RotationGains(sin: real, cos: real, w: real, m: real)
    requires w > 0.0 && w * w == m && Square(sin) + Square(cos) == 1.0
    ensures Gained(Quot(sin, w), Quot(1.0 - cos, Square(w)), m) == 0.0
  {
    var a, b := Quot(sin, w), Quot(1.0 - cos, Square(w));
    assert a * w == sin;
    assert Square(w) == m;
    assert b * m == 1.0 - cos;
    assert Times(Times(a, a), m) == Times(a * w, a * w);
    GainedTimes(a, b, m);
    assert Times(1.0 - cos, 1.0 - cos) == 1.0 - 2.0 * cos + Times(cos, cos);
    CancelReal(Gained(a, b, m), 0.0, m);
  }

  lemma GainedTimes(a: real, b: real, m: real)
    ensures Times(Gained(a, b, m), m) == Times(Times(a, a), m) - 2.0 * (b * m) + Times(b * m, b * m)
    ensures Times(0.0, m) == 0.0
  {
    var p, q := Times(a, a), Times(b, b);
    assert Times(Times(q, m), m) == Times(b * m, b * m);
    assert Times(p - 2.0 * b + Times(q, m), m) == Times(p, m) - 2.0 * (b * m) + Times(Times(q, m), m);
  }

  lemma SmallRateInvertible(e: Elementary, dt: real, omega: Vec3)
    requires Norm3(e, omega) < SMALL_RATE
    ensures Invertible(Phi(e, dt, omega), 6)
  {
    hide IsUpper, Invertible, Gained, Dot, Block, Rodrigues, Drift, Skew, Norm3, NormSq3, Times;
    var b := 0.5 * (dt * dt);
    var phi := Phi(e, dt, omega);
    RodriguesIsUpper(dt, b, omega, Drift(dt, b, dt * dt * dt / 6.0, Skew(omega)));
    assert IsUpper(phi, dt, b, omega);
    DotIsNorm(omega);
    SeriesGains(dt, Dot(omega, omega));
    hide Phi;
    UpperInvertible(phi, dt, b, omega);
  }

  lemma LargeRateUpper(e: Elementary, dt: real, omega: Vec3)
    requires Norm3(e, omega) >= SMALL_RATE
    ensures Norm3(e, omega) > 0.0
    ensures var w := Norm3(e, omega);
      var angle := Times(w, dt);
      IsUpper(Phi(e, dt, omega), Quot(e.sin(angle), w), Quot(1.0 - e.cos(angle), Square(w)), omega)
  {
    hide IsUpper, Block, Rodrigues, Drift, Skew, Norm3, Times, Quot, Square;
    var w := Norm3(e, omega);
    PositiveProduct(Square(w), w);
    var angle := Times(w, dt);
    var a, b := Quot(e.sin(angle), w), Quot(1.0 - e.cos(angle), Square(w));
    RodriguesIsUpper(a, b, omega, Drift(dt, b, Quot(angle - e.sin(angle), Times(Square(w), w)), Skew(omega)));
  }

  lemma LargeRateGains(e: Elementary, angle: real, w: real, m: real)
    requires Lawful(e) && w >= SMALL_RATE && IsSqrt(w, m)
    ensures Gained(Quot(e.sin(angle), w), Quot(1.0 - e.cos(angle), Square(w)), m) == 0.0
  {
    hide Lawful, Gained, Quot, Square;
    CircleAt(e, angle);
    RotationGains(e.sin(angle), e.cos(angle), w, m);
  }

  lemma LargeRateInvertible(e: Elementary, dt: real, omega: Vec3)
    requires Lawful(e) && Norm3(e, omega) >= SMALL_RATE
    ensures Invertible(Phi(e, dt, omega), 6)
  {
    hide *;
    var w := Norm3(e, omega);
    var angle := Times(w, dt);
    LargeRateUpper(e, dt, omega);
    NormIsRoot(e, omega);
    DotIsNorm(omega);
    LargeRateGains(e, angle, w, Dot(omega, omega));
    UpperInvertible(Phi(e, dt, omega), Quot(e.sin(angle), w), Quot(1.0 - e.cos(angle), Square(w)), omega);
  }

  /** The transition matrix is invertible, whatever the rate and the step. */
  lemma TransitionInvertible(e: Elementary, dt: real, omega: Vec3)
    requires Lawful(e)
    ensures Invertible(Phi(e, dt, omega), 6)
  {
    hide Phi, Norm3, Lawful, Invertible;
    if Norm3(e, omega) < SMALL_RATE {
      SmallRateInvertible(e, dt, omega);
    } else {
      LargeRateInvertible(e, dt, omega);
    }
  }

  lemma DotIsNorm(v: Vec3)
    ensures Dot(v, v) == NormSq3(v)
  {
  }

  /** So is the reset map, whatever the increment. */
  lemma ResetInvertible(dTheta: Vec3)
    ensures Invertible(ResetMap(dTheta), 6)
  {
    var top := Sub(Identity(3), Scale(0.5, Skew(dTheta)));
    forall i, j | 0 <= i < 3 && 0 <= j < 3
      ensures At(top, i, j) == UpperAt(0.5, 0.0, dTheta, i, j)
    {
      SkewEntry(dTheta, i, j);
      HalfEntry(SkewAt(dTheta, i, j), SkewSquaredAt(dTheta, i, j));
    }
    hide UpperAt, Skew, IsUpper, Invertible;
    BlockIsUpper(top, Zero3(), 0.5, 0.0, dTheta);
    DotIsNorm(dTheta);
    HalfGains(Dot(dTheta, dTheta));
    UpperInvertible(ResetMap(dTheta), 0.5, 0.0, dTheta);
  }

  lemma HalfEntry(s: real, q: real)
    ensures -1.0 * (0.5 * s) == -Times(0.5, s) && Times(0.0, q) == 0.0
  {
  }

  lemma HalfGains(m: real)
    ensures Gained(0.5, 0.0, m) == 0.25
  {
  }

  // ----- what each step keeps -----

  lemma InitialDefinite(c: Config)
    requires c.pTheta0 > 0.0 && c.pBias0 > 0.0
    ensures PositiveDefinite(InitialCovariance(c), 6)
  {
    ScaledBlockIs(c.pTheta0, 0.0, c.pBias0);
    assert Zero3() == Scale(0.0, Identity(3)) by {
      Extensional(Zero3(), Scale(0.0, Identity(3)), 3, 3);
    }
    hide PositiveDefinite, IsScaledBlock, Block;
    BlockDefinite(InitialCovariance(c), c.pTheta0, c.pBias0);
  }

  lemma BlockDefinite(m: Matrix, a: real, d: real)
    requires IsScaledBlock(m, a, 0.0, d) && a > 0.0 && d > 0.0
    ensures PositiveDefinite(m, 6)
  {
    hide Quad, IsScaledBlock, AxisForm, Symmetric, IsNonZero;
    ScaledBlockSymmetric(m, a, 0.0, d);
    forall x | Dim(x, 6, 1) && IsNonZero(x, 6)
      ensures Quad(x, m) > 0.0
    {
      BlockForm(m, a, d, x);
    }
    DefiniteIf(m, 6);
  }

  lemma BlockForm(m: Matrix, a: real, d: real, x: Matrix)
    requires IsScaledBlock(m, a, 0.0, d) && a > 0.0 && d > 0.0 && Dim(x, 6, 1) && IsNonZero(x, 6)
    ensures Quad(x, m) > 0.0
  {
    hide Quad, IsScaledBlock, AxisForm;
    QuadScaledBlock(m, a, 0.0, d, x);
    AxisPositive(a, d, At(x, 0, 0), At(x, 3, 0));
    AxisPositive(a, d, At(x, 1, 0), At(x, 4, 0));
    AxisPositive(a, d, At(x, 2, 0), At(x, 5, 0));
  }

  lemma AxisPositive(a: real, d: real, u: real, v: real)
    requires a > 0.0 && d > 0.0
    ensures AxisForm(a, 0.0, d, u, v) >= 0.0 && (u != 0.0 || v != 0.0 ==> AxisForm(a, 0.0, d, u, v) > 0.0)
  {
    ScaledNonNegative(a, Square(u), a * Square(u));
    ScaledNonNegative(d, Square(v), d * Square(v));
    assert AxisForm(a, 0.0, d, u, v) == a * Square(u) + d * Square(v);
  }

  lemma PropagationKeepsDefinite(c: Config, e: Elementary, p: Matrix, omega: Vec3, dt: real)
    requires Lawful(e) && PositiveDefinite(p, 6) && dt >= 0.0
    ensures PositiveDefinite(Add(Congruence(Phi(e, dt, omega), p), Q(c, dt)), 6)
  {
    hide *;
    TransitionInvertible(e, dt, omega);
    CongruenceDefinite(Phi(e, dt, omega), p, 6);
    ProcessNoisePsd(c, dt);
    AddDefinite(Congruence(Phi(e, dt, omega), p), Q(c, dt), 6);
  }

  /** The column `(I - K H).T x`, for an x that `K.T` takes to zero. */
  lemma KernelKept(k: Matrix, x: Matrix)
    requires Dim(k, 6, 3) && Dim(x, 6, 1) && !IsNonZero(Mul(Transpose(k), x), 3)
    ensures Mul(Transpose(Sub(Identity(6), Mul(k, H()))), x) == x
  {
    hide H, Mul, Transpose, Identity, Sub;
    var m, y := Mul(k, H()), Mul(Transpose(k), x);
    TransposeComplement(m, 6);
    TransposeMul(k, H(), 6, 3, 6);
    ComplementTimes(Transpose(m), x, 6, 1);
    MulAssoc(Transpose(H()), Transpose(k), x, 6, 3, 6, 1);
    TimesZero(Transpose(H()), y);
    SubZero(x, Mul(Transpose(H()), y));
  }

  lemma TransposeComplement(m: Matrix, n: pos)
    requires Dim(m, n, n)
    ensures Transpose(Sub(Identity(n), m)) == Sub(Identity(n), Transpose(m))
  {
    TransposeAdd(Identity(n), Scale(-1.0, m), n, n);
    TransposeScale(-1.0, m, n, n);
    TransposeIdentity(n);
  }

  lemma TimesZero(h: Matrix, y: Matrix)
    requires Dim(h, 6, 3) && Dim(y, 3, 1) && !IsNonZero(y, 3)
    ensures forall i :: 0 <= i < 6 ==> At(Mul(h, y), i, 0) == 0.0
  {
    forall i | 0 <= i < 6
      ensures At(Mul(h, y), i, 0) == 0.0
    {
      SumZero(Term(h, y, i, 0), 3);
    }
  }

  lemma SubZero(x: Matrix, z: Matrix)
    requires Dim(x, 6, 1) && Dim(z, 6, 1) && forall i :: 0 <= i < 6 ==> At(z, i, 0) == 0.0
    ensures Sub(x, z) == x
  {
    Extensional(Sub(x, z), x, 6, 1);
  }

  /** A direction in which both terms of the Joseph form vanish is zero, for any gain. */
  lemma JosephForm(c: Config, p: Matrix, k: Matrix, x: Matrix)
    requires PositiveDefinite(p, 6) && Psd(p, 6) && Dim(k, 6, 3) && c.sigmaStar != 0.0
    requires Dim(x, 6, 1) && IsNonZero(x, 6)
    ensures Quad(x, Joseph(c, p, k)) > 0.0
  {
    hide Quad, Congruence, R, H, Sub, Identity, PositiveDefinite, Psd, IsNonZero, Mul, Transpose, Add;
    var a := Sub(Identity(6), Mul(k, H()));
    var r, y, z := R(c), Mul(Transpose(k), x), Mul(Transpose(a), x);
    MeasurementNoisePositive(c);
    PsdDim(p, 6);
    PsdDim(r, 3);
    QuadAdd(x, Congruence(a, p), Congruence(k, r), 6);
    QuadCongruence(x, a, p, 6, 6);
    QuadCongruence(x, k, r, 6, 3);
    PsdAt(p, 6, z);
    PsdAt(r, 3, y);
    if IsNonZero(y, 3) {
      DefiniteAt(r, 3, y);
    } else {
      KernelKept(k, x);
      DefiniteAt(p, 6, x);
    }
  }

  lemma JosephDefinite(c: Config, p: Matrix, k: Matrix)
    requires PositiveDefinite(p, 6) && Psd(p, 6) && Dim(k, 6, 3) && c.sigmaStar != 0.0
    ensures PositiveDefinite(Joseph(c, p, k), 6)
  {
    hide Quad, Joseph, Symmetric, PositiveDefinite, Psd, IsNonZero;
    JosephSymmetric(c, p, k);
    forall x | Dim(x, 6, 1) && IsNonZero(x, 6)
      ensures Quad(x, Joseph(c, p, k)) > 0.0
    {
      JosephForm(c, p, k, x);
    }
    DefiniteIf(Joseph(c, p, k), 6);
  }

  lemma JosephSymmetric(c: Config, p: Matrix, k: Matrix)
    requires Psd(p, 6) && Dim(k, 6, 3) && c.sigmaStar != 0.0
    ensures Symmetric(Joseph(c, p, k), 6)
  {
    hide Quad, Congruence, R, Mul, H;
    var a := Sub(Identity(6), Mul(k, H()));
    MeasurementNoisePositive(c);
    CongruencePsd(a, p, 6, 6);
    CongruencePsd(k, R(c), 6, 3);
    AddPsd(Congruence(a, p), Congruence(k, R(c)), 6);
  }

  lemma CorrectionKeepsDefinite(c: Config, p: Matrix, k: Matrix, dTheta: Vec3)
    requires PositiveDefinite(p, 6) && Psd(p, 6) && Dim(k, 6, 3) && c.sigmaStar != 0.0
    ensures PositiveDefinite(CorrectedCovariance(c, p, k, dTheta), 6)
  {
    hide *;
    CorrectionKeepsPsd(c, p, k, dTheta);
    JosephDefinite(c, p, k);
    ResetInvertible(dTheta);
    CongruenceDefinite(ResetMap(dTheta), Joseph(c, p, k), 6);
  }

  // ----- runs -----

  /** The source's trigonometry. */
  ghost predicate FromSource(c: Config, e: Elementary)
  {
    ConfigOk(c) && Lawful(e) && c.trig == SourceTrig(e)
  }

  lemma UpdateKeepsDefinite(c: Config, e: Elementary, f: Filter, event: Event)
    requires FromSource(c, e) && Inv(f) && event.time >= f.lastTime && EventOk(event) && PositiveDefinite(f.p, 6)
    ensures PositiveDefinite(Updated(c, f, event).p, 6)
  {
    hide PositiveDefinite, AfterPrediction, Gain, InnovationCovariance, Det3, CorrectedCovariance, Increment, Psd, Unit,
      Lawful, SourceTrig, Multiply, Hemi, Plus, NormSq, IsSqrt;
    PredictionKeepsInv(c, f, event);
    var g := AfterPrediction(c, f, event);
    PredictionKeepsDefinite(c, e, f, event);
    if event.measured.Some? {
      PsdDim(g.p, 6);
      InnovationPositive(c, g.p);
      var (dTheta, _) := Increment(c, g, event.measured.value, event.norm);
      CorrectionKeepsDefinite(c, g.p, Gain(c, g.p), dTheta);
    }
  }

  lemma PredictionKeepsDefinite(c: Config, e: Elementary, f: Filter, event: Event)
    requires FromSource(c, e) && Inv(f) && event.time >= f.lastTime && PositiveDefinite(f.p, 6)
    ensures PositiveDefinite(AfterPrediction(c, f, event).p, 6)
  {
    hide PositiveDefinite, Congruence, Add, Q, Phi, Turn, Rotation, Multiply, Plus, Times3, Rate, Psd, Lawful;
    var w := Plus(Rate(f, event.omega), Times3(-1.0, f.b));
    PropagationKeepsDefinite(c, e, f.p, w, event.time - f.lastTime);
  }

  /** With positive initial variances, after every run of updates the covariance is positive definite. */
  lemma {:induction false} EveryRunIsDefinite(c: Config, e: Elementary, q: Quat, qNorm: real, omega: Vec3, time: real,
                                              events: seq<Event>)
    requires FromSource(c, e) && c.pTheta0 > 0.0 && c.pBias0 > 0.0
    requires qNorm > 0.0 && IsSqrt(qNorm, NormSq(q)) && TimesOrdered(time, events)
    ensures Inv(Reset(c, q, qNorm, omega, time))
    ensures PositiveDefinite(Run(c, Reset(c, q, qNorm, omega, time), events).p, 6)
    decreases |events|
  {
    ResetInv(c, q, qNorm, omega, time);
    var f := Reset(c, q, qNorm, omega, time);
    if events == [] {
      InitialDefinite(c);
    } else {
      hide PositiveDefinite, Inv, Updated, FromSource, IsSqrt, NormSq;
      var n := |events| - 1;
      EveryRunIsDefinite(c, e, q, qNorm, omega, time, events[..n]);
      UpdateKeepsDefinite(c, e, Run(c, f, events[..n]), events[n]);
    }
  }
}
