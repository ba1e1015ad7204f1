/**
 The multiplicative extended Kalman filter: the evolution of its 6x6 covariance and its quaternion,
 over the reals. Trigonometric functions and vector norms enter as parameters of the filter, and
 the covariance properties hold whatever they are.
 */
module Mekf {
  import opened Octets
  import opened Matrices
  import opened Innovation
  import opened Products
  import opened Quaternions

  datatype Vec3 = Vec3(x: real, y: real, z: real)

  function Plus(a: Vec3, b: Vec3): Vec3
  {
    Vec3(a.x + b.x, a.y + b.y, a.z + b.z)
  }

  function Times3(c: real, a: Vec3): Vec3
  {
    Vec3(c * a.x, c * a.y, c * a.z)
  }

  type Matrix66 = m: Matrix | Dim(m, 6, 6) witness Identity(6)

  /** The transition matrix, the propagation quaternion, and the rotation of a correction. */
  datatype Trig = Trig(
    phi: (real, Vec3) -> Matrix66, turn: (real, Vec3) -> UnitQuat, rotation: Vec3 -> UnitQuat)

  datatype Config = Config(
    sigmaStar: real, sigmaGyro: real, sigmaBias: real, pTheta0: real, pBias0: real, trig: Trig)

  /** `qNorm` is the norm of q, which the quaternion product divides by. */
  datatype Filter = Filter(
    p: Matrix, q: Quat, qNorm: real, lastOmega: Vec3, b: Vec3, lastTime: real, prevUsedImu: bool)

  // ----- the matrices of the model -----

  /** `np.block` of four 3x3 matrices. */
  function Block(a: Matrix, b: Matrix, c: Matrix, d: Matrix): (m: Matrix)
    ensures Dim(m, 6, 6)
  {
    Build(6, 6, (i, j) =>
      if i < 3 && j < 3 then At(a, i, j)
      else if i < 3 then At(b, i, j - 3)
      else if j < 3 then At(c, i - 3, j)
      else At(d, i - 3, j - 3))
  }

  function Zero3(): (m: Matrix)
    ensures Dim(m, 3, 3)
  {
    Build(3, 3, (i, j) => 0.0)
  }

  function H(): (m: Matrix)
    ensures Dim(m, 3, 6)
  {
    Build(3, 6, (i, j) => if i == j then 0.3 else 0.0)
  }

  function R(c: Config): (m: Matrix)
    ensures Dim(m, 3, 3)
  {
    Scale(Square(c.sigmaStar), Identity(3))
  }

  function InitialCovariance(c: Config): Matrix66
  {
    Block(Scale(c.pTheta0, Identity(3)), Zero3(), Zero3(), Scale(c.pBias0, Identity(3)))
  }

  // The three entries of the process noise on each axis.

  function Q11(c: Config, dt: real): real
  {
    Square(c.sigmaGyro) * dt + Square(c.sigmaBias) * (dt * dt * dt) / 3.0
  }

  function Q12(c: Config, dt: real): real
  {
    -(Square(c.sigmaBias) * (dt * dt) / 2.0)
  }

  function Q22(c: Config, dt: real): real
  {
    Square(c.sigmaBias) * dt
  }

  function ScaledBlock(a: real, b: real, d: real): Matrix66
  {
    Block(Scale(a, Identity(3)), Scale(b, Identity(3)), Scale(b, Identity(3)), Scale(d, Identity(3)))
  }

  function Q(c: Config, dt: real): Matrix66
  {
    ScaledBlock(Q11(c, dt), Q12(c, dt), Q22(c, dt))
  }

  /** `H @ P @ H.T + R`, the matrix the correction inverts. */
  function InnovationCovariance(c: Config, p: Matrix): (m: Matrix)
    ensures Dim(m, 3, 3)
  {
    Add(Congruence(H(), p), R(c))
  }

  function Gain(c: Config, p: Matrix): (k: Matrix)
    requires Dim(p, 6, 6) && Det3(InnovationCovariance(c, p)) != 0.0
    ensures Dim(k, 6, 3)
  {
    Mul(Mul(p, Transpose(H())), Inverse(InnovationCovariance(c, p)))
  }

  function Joseph(c: Config, p: Matrix, k: Matrix): Matrix
  {
    Add(Congruence(Sub(Identity(6), Mul(k, H())), p), Congruence(k, R(c)))
  }

  function Skew(v: Vec3): (m: Matrix)
    ensures Dim(m, 3, 3)
  {
    [[0.0, -v.z, v.y], [v.z, 0.0, -v.x], [-v.y, v.x, 0.0]]
  }

  function ResetMap(dTheta: Vec3): Matrix66
  {
    Block(Sub(Identity(3), Scale(0.5, Skew(dTheta))), Zero3(), Zero3(), Identity(3))
  }

  function CorrectedCovariance(c: Config, p: Matrix, k: Matrix, dTheta: Vec3): Matrix
  {
    var joseph := Joseph(c, p, k);
    Congruence(ResetMap(dTheta), Scale(0.5, Add(joseph, Transpose(joseph))))
  }

  // ----- positive semidefiniteness -----

  /** The form of the block matrix [[a I, b I], [b I, d I]] on one axis. */
  function AxisForm(a: real, b: real, d: real, u: real, v: real): real
  {
    (a * u + b * v) * u + (b * u + d * v) * v
  }

  lemma SumOfSix(f: int -> real)
    ensures Sum(f, 6) == f(0) + f(1) + f(2) + f(3) + f(4) + f(5)
  {
    SumOfThree(f);
    assert Sum(f, 5) == Sum(f, 4) + f(4);
  }

  /** The axis of a row or column of a 6x6 block matrix. */
  function Axis(i: int): int
  {
    if i < 3 then i else i - 3
  }

  lemma ScaledIdentityEntry(a: real, i: int, j: int)
    requires 0 <= i < 3 && 0 <= j < 3
    ensures At(Scale(a, Identity(3)), i, j) == if i == j then a else 0.0
  {
  }

  function BlockEntry(a: real, b: real, d: real, i: int, j: int): real
  {
    if Axis(i) != Axis(j) then 0.0 else if i < 3 && j < 3 then a else if i >= 3 && j >= 3 then d else b
  }

  predicate IsScaledBlock(m: Matrix, a: real, b: real, d: real)
  {
    Dim(m, 6, 6) && forall i, j :: 0 <= i < 6 && 0 <= j < 6 ==> At(m, i, j) == BlockEntry(a, b, d, i, j)
  }

  lemma ScaledBlockIs(a: real, b: real, d: real)
    ensures IsScaledBlock(ScaledBlock(a, b, d), a, b, d)
  {
    forall i, j | 0 <= i < 6 && 0 <= j < 6
      ensures At(ScaledBlock(a, b, d), i, j) == BlockEntry(a, b, d, i, j)
    {
      ScaledIdentityEntry(a, Axis(i), Axis(j));
      ScaledIdentityEntry(b, Axis(i), Axis(j));
      ScaledIdentityEntry(d, Axis(i), Axis(j));
    }
  }

  /** Column j of `x.T @ m` has two terms, the entries of its axis. */
  lemma BlockRow(m: Matrix, a: real, b: real, d: real, x: Matrix, j: int)
    requires IsScaledBlock(m, a, b, d) && Dim(x, 6, 1) && 0 <= j < 6
    ensures At(Mul(Transpose(x), m), 0, j) ==
      if j < 3 then a * At(x, j, 0) + b * At(x, j + 3, 0) else b * At(x, j - 3, 0) + d * At(x, j, 0)
  {
    hide Mul, Transpose, Sum;
    var t, k := Term(Transpose(x), m, 0, j), Axis(j);
    forall i | 0 <= i < 6 && Axis(i) != k
      ensures t(i) == 0.0
    {
      assert At(m, i, j) == BlockEntry(a, b, d, i, j) == 0.0;
    }
    SumPair(t, 6, k, k + 3);
    assert At(m, k, j) == BlockEntry(a, b, d, k, j) && At(m, k + 3, j) == BlockEntry(a, b, d, k + 3, j);
  }

  /** The two terms of one axis in the form of a scaled block. */
  lemma AxisTerms(m: Matrix, a: real, b: real, d: real, x: Matrix, k: int)
    requires IsScaledBlock(m, a, b, d) && Dim(x, 6, 1) && 0 <= k < 3
    ensures var t := Term(Mul(Transpose(x), m), x, 0, 0);
      t(k) + t(k + 3) == AxisForm(a, b, d, At(x, k, 0), At(x, k + 3, 0))
  {
    var row := Mul(Transpose(x), m);
    BlockRow(m, a, b, d, x, k);
    BlockRow(m, a, b, d, x, k + 3);
    AxisFormIs(a, b, d, At(x, k, 0), At(x, k + 3, 0), At(row, 0, k), At(row, 0, k + 3));
  }

  lemma AxisFormIs(a: real, b: real, d: real, u: real, v: real, r: real, s: real)
    requires r == a * u + b * v && s == b * u + d * v
    ensures r * u + s * v == AxisForm(a, b, d, u, v)
  {
    assert Times(r, u) == Times(a * u + b * v, u);
    assert Times(s, v) == Times(b * u + d * v, v);
  }

  lemma QuadScaledBlock(m: Matrix, a: real, b: real, d: real, x: Matrix)
    requires IsScaledBlock(m, a, b, d) && Dim(x, 6, 1)
    ensures Quad(x, m) ==
      AxisForm(a, b, d, At(x, 0, 0), At(x, 3, 0)) + AxisForm(a, b, d, At(x, 1, 0), At(x, 4, 0)) +
      AxisForm(a, b, d, At(x, 2, 0), At(x, 5, 0))
  {
    SumOfSix(Term(Mul(Transpose(x), m), x, 0, 0));
    AxisTerms(m, a, b, d, x, 0);
    AxisTerms(m, a, b, d, x, 1);
    AxisTerms(m, a, b, d, x, 2);
  }

  lemma ScaledBlockPsd(m: Matrix, a: real, b: real, d: real)
    requires IsScaledBlock(m, a, b, d)
    requires forall u, v :: AxisForm(a, b, d, u, v) >= 0.0
    ensures Psd(m, 6)
  {
    ScaledBlockSymmetric(m, a, b, d);
    forall x | Dim(x, 6, 1)
      ensures Quad(x, m) >= 0.0
    {
      QuadScaledBlock(m, a, b, d, x);
    }
  }

  lemma ScaledBlockSymmetric(m: Matrix, a: real, b: real, d: real)
    requires IsScaledBlock(m, a, b, d)
    ensures Symmetric(m, 6)
  {
    forall i, j | 0 <= i < 6 && 0 <= j < 6
      ensures At(Transpose(m), i, j) == At(m, i, j)
    {
      assert At(m, j, i) == BlockEntry(a, b, d, j, i) == BlockEntry(a, b, d, i, j);
    }
    Extensional(Transpose(m), m, 6, 6);
  }

  // ----- process noise, initial covariance and measurement noise -----

  /** Completing the square in the process noise of one axis. */
  lemma ProcessNoiseForm(g2: real, b2: real, t: real, u: real, v: real)
    ensures AxisForm(g2 * t + b2 * (t * t * t) / 3.0, -(b2 * (t * t) / 2.0), b2 * t, u, v) ==
      Times(g2 * t, u * u) + Times(b2 * t, (v - t * u / 2.0) * (v - t * u / 2.0) + (t * u) * (t * u) / 12.0)
  {
  }

  /** The process noise of a step is positive semidefinite exactly when time does not run backwards. */
  lemma ProcessNoisePsdIff(c: Config, dt: real)
    requires c.sigmaGyro != 0.0 || c.sigmaBias != 0.0
    ensures Psd(Q(c, dt), 6) <==> dt >= 0.0
  {
    if dt >= 0.0 {
      ProcessNoisePsd(c, dt);
    } else {
      ProcessNoiseNotPsd(c, dt);
    }
  }

  lemma ProcessNoisePsd(c: Config, dt: real)
    requires dt >= 0.0
    ensures Psd(Q(c, dt), 6)
  {
    forall u, v
      ensures AxisForm(Q11(c, dt), Q12(c, dt), Q22(c, dt), u, v) >= 0.0
    {
      ProcessNoiseFormNonNegative(Square(c.sigmaGyro), Square(c.sigmaBias), dt, u, v);
    }
    ScaledBlockIs(Q11(c, dt), Q12(c, dt), Q22(c, dt));
    ScaledBlockPsd(Q(c, dt), Q11(c, dt), Q12(c, dt), Q22(c, dt));
  }

  lemma ProcessNoiseFormNonNegative(g2: real, b2: real, t: real, u: real, v: real)
    requires g2 >= 0.0 && b2 >= 0.0 && t >= 0.0
    ensures AxisForm(g2 * t + b2 * (t * t * t) / 3.0, -(b2 * (t * t) / 2.0), b2 * t, u, v) >= 0.0
  {
    ProcessNoiseForm(g2, b2, t, u, v);
    var w := v - t * u / 2.0;
    SquareSign(u);
    SquareSign(w);
    SquareSign(t * u);
    ProcessNoiseNonNegative(g2, b2, t, u * u, w * w + (t * u) * (t * u) / 12.0);
  }

  lemma ProcessNoiseNonNegative(g2: real, b2: real, t: real, x: real, y: real)
    requires g2 >= 0.0 && b2 >= 0.0 && t >= 0.0 && x >= 0.0 && y >= 0.0
    ensures Times(g2 * t, x) + Times(b2 * t, y) >= 0.0
  {
    NonNegativeProduct(g2, t);
    NonNegativeProduct(b2, t);
    NonNegativeProduct(g2 * t, x);
    NonNegativeProduct(b2 * t, y);
  }

  /** The unit column along row k. */
  function UnitColumn(k: int): (m: Matrix)
    ensures Dim(m, 6, 1)
  {
    Build(6, 1, (i, j) => if i == k then 1.0 else 0.0)
  }

  lemma ProcessNoiseNotPsd(c: Config, dt: real)
    requires dt < 0.0 && (c.sigmaGyro != 0.0 || c.sigmaBias != 0.0)
    ensures !Psd(Q(c, dt), 6)
  {
    ScaledBlockIs(Q11(c, dt), Q12(c, dt), Q22(c, dt));
    var k := if c.sigmaBias != 0.0 then 3 else 0;
    var x := UnitColumn(k);
    QuadScaledBlock(Q(c, dt), Q11(c, dt), Q12(c, dt), Q22(c, dt), x);
    AxisFormAtUnits(Q11(c, dt), Q12(c, dt), Q22(c, dt));
    NegativeEntry(c, dt);
  }

  lemma AxisFormAtUnits(a: real, b: real, d: real)
    ensures AxisForm(a, b, d, 1.0, 0.0) == a && AxisForm(a, b, d, 0.0, 1.0) == d && AxisForm(a, b, d, 0.0, 0.0) == 0.0
  {
  }

  lemma NegativeEntry(c: Config, dt: real)
    requires dt < 0.0 && (c.sigmaGyro != 0.0 || c.sigmaBias != 0.0)
    ensures if c.sigmaBias != 0.0 then Q22(c, dt) < 0.0 else Q11(c, dt) < 0.0
  {
    if c.sigmaBias != 0.0 {
      NegativeProduct(Square(c.sigmaBias), dt);
      assert Q22(c, dt) == Times(Square(c.sigmaBias), dt);
    } else {
      NegativeProduct(Square(c.sigmaGyro), dt);
      assert Square(c.sigmaBias) == 0.0;
      assert Q11(c, dt) == Times(Square(c.sigmaGyro), dt);
    }
  }

  lemma InitialCovariancePsd(c: Config)
    requires c.pTheta0 >= 0.0 && c.pBias0 >= 0.0
    ensures Psd(InitialCovariance(c), 6)
  {
    var a, d := c.pTheta0, c.pBias0;
    ScaledBlockIs(a, 0.0, d);
    assert Zero3() == Scale(0.0, Identity(3)) by {
      Extensional(Zero3(), Scale(0.0, Identity(3)), 3, 3);
    }
    forall u, v
      ensures AxisForm(a, 0.0, d, u, v) >= 0.0
    {
      SquareSign(u);
      SquareSign(v);
      NonNegativeProduct(a, u * u);
      NonNegativeProduct(d, v * v);
      assert AxisForm(a, 0.0, d, u, v) == Times(a, u * u) + Times(d, v * v);
    }
    ScaledBlockPsd(InitialCovariance(c), a, 0.0, d);
  }

  lemma QuadIdentity(x: Matrix)
    requires Dim(x, 3, 1)
    ensures Quad(x, Identity(3)) == Square(At(x, 0, 0)) + Square(At(x, 1, 0)) + Square(At(x, 2, 0))
  {
    MulIdentity(Transpose(x), 1, 3);
    SumOfThree(Term(Transpose(x), x, 0, 0));
    SquareTerm(x, 0);
    SquareTerm(x, 1);
    SquareTerm(x, 2);
  }

  lemma SquareTerm(x: Matrix, k: int)
    requires Dim(x, 3, 1) && 0 <= k < 3
    ensures Term(Transpose(x), x, 0, 0)(k) == Square(At(x, k, 0))
  {
  }

  lemma MeasurementNoisePositive(c: Config)
    requires c.sigmaStar != 0.0
    ensures PositiveDefinite(R(c), 3) && Psd(R(c), 3)
  {
    hide Quad, Square;
    TransposeScale(Square(c.sigmaStar), Identity(3), 3, 3);
    TransposeIdentity(3);
    forall x | Dim(x, 3, 1)
      ensures Quad(x, R(c)) >= 0.0
      ensures (exists i :: 0 <= i < 3 && At(x, i, 0) != 0.0) ==> Quad(x, R(c)) > 0.0
    {
      ScaledIdentityForm(Square(c.sigmaStar), x);
    }
  }

  lemma ScaledIdentityForm(s: real, x: Matrix)
    requires s > 0.0 && Dim(x, 3, 1)
    ensures Quad(x, Scale(s, Identity(3))) >= 0.0
    ensures At(x, 0, 0) != 0.0 || At(x, 1, 0) != 0.0 || At(x, 2, 0) != 0.0 ==>
            Quad(x, Scale(s, Identity(3))) > 0.0
  {
    hide Quad, Scale, Identity;
    IdentityForm(x);
    QuadScale(x, s, Identity(3), 3);
    ScaledNonNegative(s, Quad(x, Identity(3)), Quad(x, Scale(s, Identity(3))));
  }

  lemma IdentityForm(x: Matrix)
    requires Dim(x, 3, 1)
    ensures Quad(x, Identity(3)) >= 0.0
    ensures At(x, 0, 0) != 0.0 || At(x, 1, 0) != 0.0 || At(x, 2, 0) != 0.0 ==> Quad(x, Identity(3)) > 0.0
  {
    QuadIdentity(x);
  }

  lemma ScaledNonNegative(s: real, n: real, r: real)
    requires s > 0.0 && n >= 0.0 && r == s * n
    ensures r >= 0.0 && (n > 0.0 ==> r > 0.0)
  {
    NonNegativeProduct(s, n);
    if n > 0.0 {
      PositiveProduct(s, n);
    }
  }

  // ----- the innovation covariance and the gain -----

  /** Whatever the covariance, the matrix the correction inverts is positive definite. */
  lemma InnovationPositive(c: Config, p: Matrix)
    requires Psd(p, 6) && c.sigmaStar != 0.0
    ensures var s := InnovationCovariance(c, p);
      PositiveDefinite(s, 3) && Det3(s) > 0.0 && Mul(Inverse(s), s) == Identity(3)
  {
    InnovationPositiveDefinite(c, p);
    PositiveDefiniteDet(InnovationCovariance(c, p));
    InverseIsInverse(InnovationCovariance(c, p));
  }

  lemma InnovationPositiveDefinite(c: Config, p: Matrix)
    requires Psd(p, 6) && c.sigmaStar != 0.0
    ensures PositiveDefinite(InnovationCovariance(c, p), 3)
  {
    CongruencePsd(H(), p, 3, 6);
    MeasurementNoisePositive(c);
    AddPositiveDefinite(Congruence(H(), p), R(c));
  }

  lemma AddPositiveDefinite(p: Matrix, q: Matrix)
    requires Psd(p, 3) && PositiveDefinite(q, 3)
    ensures PositiveDefinite(Add(p, q), 3)
  {
    TransposeAdd(p, q, 3, 3);
    forall x | Dim(x, 3, 1) && exists i :: 0 <= i < 3 && At(x, i, 0) != 0.0
      ensures Quad(x, Add(p, q)) > 0.0
    {
      QuadAdd(x, p, q, 3);
    }
  }

  /** The gain solves `K S = P H.T`. */
  lemma GainEquation(c: Config, p: Matrix)
    requires Psd(p, 6) && c.sigmaStar != 0.0
    ensures var s := InnovationCovariance(c, p);
      Det3(s) != 0.0 && Mul(Gain(c, p), s) == Mul(p, Transpose(H()))
  {
    hide Quad, Add, Inverse, Det3, InnovationCovariance;
    var s := InnovationCovariance(c, p);
    InnovationPositive(c, p);
    var g := Mul(p, Transpose(H()));
    MulAssoc(g, Inverse(s), s, 6, 3, 3, 3);
    MulIdentity(g, 6, 3);
  }

  // ----- one correction -----

  /** With the gain, the Joseph form subtracts a positive semidefinite matrix from the covariance. */
  lemma JosephSubtracts(c: Config, p: Matrix)
    requires Psd(p, 6) && c.sigmaStar != 0.0
    ensures var s := InnovationCovariance(c, p);
      Det3(s) != 0.0 && Joseph(c, p, Gain(c, p)) == Sub(p, Congruence(Gain(c, p), s))
  {
    hide Quad, Congruence, Gain, Mul, Inverse, Det3, Add, Sub;
    var s := InnovationCovariance(c, p);
    GainEquation(c, p);
    InnovationPositive(c, p);
    var k := Gain(c, p);
    var m, x := Mul(k, H()), Congruence(k, s);
    GainCrossTerms(c, p, k);
    CongruenceOfComplement(m, p, 6);
    CongruenceOfProduct(k, H(), p, 6, 3, 6);
    CongruenceAdd(k, Congruence(H(), p), R(c), 6, 3);
    assert x == Add(Congruence(m, p), Congruence(k, R(c)));
    CancelCrossTerms(p, x, Congruence(m, p), Congruence(k, R(c)));
  }

  /** `P (K H).T` and `K H P` are both `K S K.T`. */
  lemma GainCrossTerms(c: Config, p: Matrix, k: Matrix)
    requires Psd(p, 6) && Dim(k, 6, 3) && Symmetric(InnovationCovariance(c, p), 3)
    requires Mul(k, InnovationCovariance(c, p)) == Mul(p, Transpose(H()))
    ensures var x := Congruence(k, InnovationCovariance(c, p));
      Mul(p, Transpose(Mul(k, H()))) == x && Mul(Mul(k, H()), p) == x
  {
    var s := InnovationCovariance(c, p);
    var m, x := Mul(k, H()), Congruence(k, s);
    TransposeMul(k, H(), 6, 3, 6);
    MulAssoc(p, Transpose(H()), Transpose(k), 6, 6, 3, 6);
    assert Mul(p, Transpose(m)) == x;
    TransposeMul(p, Transpose(m), 6, 6, 6);
    TransposeTwice(m, 6, 6);
    CongruenceSymmetric(k, s, 6, 3);
  }

  lemma CancelCrossTerms(p: Matrix, x: Matrix, a: Matrix, b: Matrix)
    requires Dim(p, 6, 6) && Dim(x, 6, 6) && Dim(a, 6, 6) && Dim(b, 6, 6) && x == Add(a, b)
    ensures Add(Add(Sub(p, x), Sub(a, x)), b) == Sub(p, x)
  {
    Extensional(Add(Add(Sub(p, x), Sub(a, x)), b), Sub(p, x), 6, 6);
  }

  /** A star-tracker measurement never increases the variance in any direction. */
  lemma CorrectionReducesVariance(c: Config, p: Matrix, x: Matrix)
    requires Psd(p, 6) && c.sigmaStar != 0.0 && Dim(x, 6, 1)
    ensures Det3(InnovationCovariance(c, p)) != 0.0
    ensures Quad(x, Joseph(c, p, Gain(c, p))) <= Quad(x, p)
  {
    hide Quad, Congruence, Gain, Joseph, InnovationCovariance, Inverse, Det3;
    InnovationPositive(c, p);
    JosephSubtracts(c, p);
    var k, s := Gain(c, p), InnovationCovariance(c, p);
    var xks := Congruence(k, s);
    QuadAdd(x, p, Scale(-1.0, xks), 6);
    QuadScale(x, -1.0, xks, 6);
    QuadCongruence(x, k, s, 6, 3);
    var y := Mul(Transpose(k), x);
    PositiveDefiniteForm(s, y);
  }

  lemma PositiveDefiniteForm(s: Matrix, y: Matrix)
    requires PositiveDefinite(s, 3) && Dim(y, 3, 1)
    ensures Quad(y, s) >= 0.0
  {
    hide Sum, Transpose;
    if forall i :: 0 <= i < 3 ==> At(y, i, 0) == 0.0 {
      SumZero(Term(Mul(Transpose(y), s), y, 0, 0), 3);
    }
  }

  /** Joseph form, symmetrisation and reset map keep the covariance positive semidefinite, for any gain. */
  lemma CorrectionKeepsPsd(c: Config, p: Matrix, k: Matrix, dTheta: Vec3)
    requires Psd(p, 6) && Dim(k, 6, 3) && c.sigmaStar != 0.0
    ensures Psd(CorrectedCovariance(c, p, k, dTheta), 6)
    ensures CorrectedCovariance(c, p, k, dTheta) == Congruence(ResetMap(dTheta), Joseph(c, p, k))
  {
    var a := Sub(Identity(6), Mul(k, H()));
    MeasurementNoisePositive(c);
    CongruencePsd(a, p, 6, 6);
    CongruencePsd(k, R(c), 6, 3);
    AddPsd(Congruence(a, p), Congruence(k, R(c)), 6);
    SymmetrizeIsIdentity(Joseph(c, p, k), 6);
    CongruencePsd(ResetMap(dTheta), Joseph(c, p, k), 6, 6);
  }
}
