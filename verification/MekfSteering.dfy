/**
 Which way the filter moves: a prediction turns the attitude by the rate less the bias, and a correction turns
 it, and the bias, towards the measurement, as the least-squares optimum does.
 */
module MekfSteering {
  import opened Octets
  import opened Matrices
  import opened Innovation
  import opened Products
  import opened Quaternions
  import opened Mekf
  import opened MekfFilter
  import opened MekfDefinite

  // ----- the measured rotation -----

  lemma NormalizedProduct(a: Quat, b: Quat, n: real)
    requires n > 0.0
    ensures Multiply(a, b, n) == RawProduct(Normalize(a, n), b)
    ensures Multiply(a, b, n) == RawProduct(a, Normalize(b, n))
  {
    ScaledVector(a.x, a.y, a.z, a.s, b.x, b.y, b.z, b.s, n);
    ScaledVector(a.y, a.z, a.x, a.s, b.y, b.z, b.x, b.s, n);
    ScaledVector(a.z, a.x, a.y, a.s, b.z, b.x, b.y, b.s, n);
    ScaledScalar(a.x, a.y, a.z, a.s, b.x, b.y, b.z, b.s, n);
    hide ProductVector, ProductScalar;
  }

  lemma ScaledVector(x: real, y: real, z: real, s: real, u: real, v: real, w: real, t: real, n: real)
    requires n > 0.0
    ensures ProductVector(x, y, z, s, u, v, w, t) / n == ProductVector(x / n, y / n, z / n, s / n, u, v, w, t)
    ensures ProductVector(x, y, z, s, u, v, w, t) / n == ProductVector(x, y, z, s, u / n, v / n, w / n, t / n)
  {
    var k := 1.0 / n;
    assert s / n == s * k && x / n == x * k && y / n == y * k && z / n == z * k;
    assert t / n == t * k && u / n == u * k && v / n == v * k && w / n == w * k;
    LinearForm(s, u, x, t, y, w, z, v, k);
  }

  lemma LinearForm(a: real, b: real, c: real, d: real, e: real, f: real, g: real, h: real, k: real)
    ensures (a * b + c * d - e * f + g * h) * k == (a * k) * b + (c * k) * d - (e * k) * f + (g * k) * h
    ensures (a * b + c * d - e * f + g * h) * k == a * (b * k) + c * (d * k) - e * (f * k) + g * (h * k)
  {
  }

  lemma ScaledScalar(x: real, y: real, z: real, s: real, u: real, v: real, w: real, t: real, n: real)
    requires n > 0.0
    ensures ProductScalar(x, y, z, s, u, v, w, t) / n == ProductScalar(x / n, y / n, z / n, s / n, u, v, w, t)
    ensures ProductScalar(x, y, z, s, u, v, w, t) / n == ProductScalar(x, y, z, s, u / n, v / n, w / n, t / n)
  {
    var k := 1.0 / n;
    assert s / n == s * k && x / n == x * k && y / n == y * k && z / n == z * k;
    assert t / n == t * k && u / n == u * k && v / n == v * k && w / n == w * k;
    LinearForm(s, t, -x, u, y, v, -z, w, k);
  }

  /** The rotation that takes the estimate to the measurement, by the shorter way. */
  function ErrorOf(f: Filter, measured: Quat, norm: real): Quat
    requires norm > 0.0
  {
    Hemi(RawProduct(Normalize(measured, norm), Conjugate(f.q)))
  }

  /**
   The innovation is twice the vector part of a rotation of at most half a turn that takes the estimated
   attitude to the measured one.
   */
  lemma InnovationIsError(f: Filter, measured: Quat, norm: real)
    requires Unit(f.q) && norm > 0.0 && IsSqrt(norm, NormSq(measured))
    ensures var e := ErrorOf(f, measured, norm);
      Unit(e) && e.s >= 0.0 && Innovation3(f, measured, norm) == [[2.0 * e.x], [2.0 * e.y], [2.0 * e.z]] &&
      DcmProduct(Attitude(e), Attitude(f.q)) == Attitude(Normalize(measured, norm))
  {
    hide NormSq, Normalize, RawProduct, Attitude, DcmProduct, IsSqrt;
    var m, c := Normalize(measured, norm), Conjugate(f.q);
    NormalizeUnit(measured, norm);
    ConjugateUnit(f.q);
    ProductOfUnitsUnit(m, c);
    NormalizedProduct(measured, c, norm);
    HemiSameAttitude(RawProduct(m, c));
    AttitudeOfProduct(RawProduct(m, c), f.q);
    ProductWithConjugate(m, f.q);
  }

  // ----- inner products of columns -----

  function DotOf(a: Matrix, b: Matrix): real
  {
    At(Mul(Transpose(a), b), 0, 0)
  }

  function DotTerm(a: Matrix, b: Matrix): int -> real
  {
    k => Times(At(a, k, 0), At(b, k, 0))
  }

  lemma DotIs(a: Matrix, b: Matrix, n: pos)
    requires Dim(a, n, 1) && Dim(b, n, 1)
    ensures DotOf(a, b) == Sum(DotTerm(a, b), n)
  {
    SumEqual(Term(Transpose(a), b, 0, 0), DotTerm(a, b), n);
  }

  lemma DotSymmetric(a: Matrix, b: Matrix, n: pos)
    requires Dim(a, n, 1) && Dim(b, n, 1)
    ensures DotOf(a, b) == DotOf(b, a)
  {
    DotIs(a, b, n);
    DotIs(b, a, n);
    SumEqual(DotTerm(a, b), DotTerm(b, a), n);
  }

  lemma DotAdd(a: Matrix, b: Matrix, c: Matrix, n: pos)
    requires Dim(a, n, 1) && Dim(b, n, 1) && Dim(c, n, 1)
    ensures DotOf(a, Add(b, c)) == DotOf(a, b) + DotOf(a, c) && DotOf(Add(b, c), a) == DotOf(b, a) + DotOf(c, a)
  {
    MulAddRight(Transpose(a), b, c, 1, n, 1);
    DotSymmetric(a, Add(b, c), n);
    DotSymmetric(a, b, n);
    DotSymmetric(a, c, n);
  }

  lemma DotScale(a: Matrix, k: real, b: Matrix, n: pos)
    requires Dim(a, n, 1) && Dim(b, n, 1)
    ensures DotOf(a, Scale(k, b)) == k * DotOf(a, b) == DotOf(Scale(k, b), a)
  {
    MulScaleRight(k, Transpose(a), b, 1, n, 1);
    DotSymmetric(a, Scale(k, b), n);
  }

  lemma DotAdjoint(h: Matrix, z: Matrix, x: Matrix, r: pos, n: pos)
    requires Dim(h, r, n) && Dim(z, r, 1) && Dim(x, n, 1)
    ensures DotOf(Mul(Transpose(h), z), x) == DotOf(z, Mul(h, x))
  {
    TransposeMul(Transpose(h), z, n, r, 1);
    TransposeTwice(h, r, n);
    MulAssoc(Transpose(z), h, x, 1, r, n, 1);
  }

  lemma QuadIsDot(x: Matrix, p: Matrix, n: pos)
    requires Dim(x, n, 1) && Dim(p, n, n)
    ensures Quad(x, p) == DotOf(x, Mul(p, x))
  {
    MulAssoc(Transpose(x), p, x, 1, n, n, 1);
  }

  lemma DotPositiveColumn(a: Matrix)
    requires Dim(a, 3, 1)
    ensures DotOf(a, a) >= 0.0 && (IsNonZero(a, 3) ==> DotOf(a, a) > 0.0)
  {
    DotIs(a, a, 3);
    SumOfThree(DotTerm(a, a));
    SquareSign(At(a, 0, 0));
    SquareSign(At(a, 1, 0));
    SquareSign(At(a, 2, 0));
  }

  // ----- the increment -----

  /** A left inverse of a symmetric matrix is its right inverse. */
  lemma InverseOnTheRight(l: Matrix, s: Matrix, n: pos)
    requires Dim(l, n, n) && Symmetric(s, n) && Mul(l, s) == Identity(n)
    ensures Mul(s, l) == Identity(n)
  {
    TransposeMul(l, s, n, n, n);
    TransposeIdentity(n);
    var lt := Transpose(l);
    MulIdentity(l, n, n);
    MulIdentity(lt, n, n);
    MulAssoc(l, s, lt, n, n, n, n);
  }

  /** The measured innovation as the filter weighs it: the solution of `S z = y`. */
  function Weighed(c: Config, p: Matrix, y: Matrix): (z: Matrix)
    requires Dim(p, 6, 6) && Dim(y, 3, 1) && Det3(InnovationCovariance(c, p)) != 0.0
    ensures Dim(z, 3, 1)
  {
    Mul(Inverse(InnovationCovariance(c, p)), y)
  }

  lemma WeighedSolves(c: Config, p: Matrix, y: Matrix)
    requires Psd(p, 6) && c.sigmaStar != 0.0 && Dim(y, 3, 1)
    ensures Det3(InnovationCovariance(c, p)) != 0.0
    ensures var z := Weighed(c, p, y);
      Mul(InnovationCovariance(c, p), z) == y && Mul(Gain(c, p), y) == Mul(p, Mul(Transpose(H()), z))
  {
    hide Quad, Add, Inverse, Det3, InnovationCovariance, H, Mul, Transpose;
    var s := InnovationCovariance(c, p);
    InnovationPositive(c, p);
    InverseOnTheRight(Inverse(s), s, 3);
    MulAssoc(s, Inverse(s), y, 3, 3, 3, 1);
    MulIdentity(y, 3, 1);
    MulAssoc(Mul(p, Transpose(H())), Inverse(s), y, 6, 3, 3, 1);
    MulAssoc(p, Transpose(H()), Weighed(c, p, y), 6, 6, 3, 1);
  }

  /** What the state change `P w` leaves of the innovation unexplained. */
  function Residual(p: Matrix, y: Matrix, w: Matrix): (m: Matrix)
    requires Dim(p, 6, 6) && Dim(y, 3, 1) && Dim(w, 6, 1)
    ensures Dim(m, 3, 1)
  {
    Sub(y, Mul(H(), Mul(p, w)))
  }

  /** The weighted squares that least squares minimises: of the change, by the covariance, and of the residual. */
  function Cost(sigma2: real, p: Matrix, y: Matrix, w: Matrix): real
    requires Dim(p, 6, 6) && Dim(y, 3, 1) && Dim(w, 6, 1)
  {
    sigma2 * Quad(w, p) + DotOf(Residual(p, y, w), Residual(p, y, w))
  }

  /** The innovation covariance against a column: the part the covariance explains, and the noise. */
  lemma InnovationTimes(c: Config, p: Matrix, z: Matrix)
    requires Dim(p, 6, 6) && Dim(z, 3, 1)
    ensures Mul(InnovationCovariance(c, p), z) ==
            Add(Mul(H(), Mul(p, Mul(Transpose(H()), z))), Scale(Square(c.sigmaStar), z))
  {
    hide H, Mul, Transpose, Add, Scale, Identity, Square;
    var (h, ht, s2) := (H(), Transpose(H()), Square(c.sigmaStar));
    MulAddLeft(Congruence(h, p), R(c), z, 3, 3, 1);
    MulScaleLeft(s2, Identity(3), z, 3, 3, 1);
    MulIdentity(z, 3, 1);
    MulAssoc(Mul(h, p), ht, z, 3, 6, 3, 1);
    MulAssoc(h, p, Mul(ht, z), 3, 6, 6, 1);
  }

  lemma AddSub(a: Matrix, b: Matrix, n: pos)
    requires Dim(a, n, 1) && Dim(b, n, 1)
    ensures Sub(Add(a, b), a) == b && Add(a, Sub(b, a)) == b
  {
    Extensional(Sub(Add(a, b), a), b, n, 1);
    Extensional(Add(a, Sub(b, a)), b, n, 1);
  }

  lemma SubAdd(y: Matrix, a: Matrix, b: Matrix, n: pos)
    requires Dim(y, n, 1) && Dim(a, n, 1) && Dim(b, n, 1)
    ensures Sub(y, Add(a, b)) == Add(Sub(y, a), Scale(-1.0, b))
  {
    Extensional(Sub(y, Add(a, b)), Add(Sub(y, a), Scale(-1.0, b)), n, 1);
  }

  /** At the filter's weights the residual is the weighed innovation, scaled by the noise. */
  lemma ResidualAtWeights(c: Config, p: Matrix, y: Matrix)
    requires Psd(p, 6) && c.sigmaStar != 0.0 && Dim(y, 3, 1)
    ensures Det3(InnovationCovariance(c, p)) != 0.0
    ensures Residual(p, y, Mul(Transpose(H()), Weighed(c, p, y))) == Scale(Square(c.sigmaStar), Weighed(c, p, y))
  {
    hide H, Mul, Transpose, Add, Scale, Square, Sub, Det3, InnovationCovariance, Quad, Weighed;
    WeighedSolves(c, p, y);
    var z := Weighed(c, p, y);
    InnovationTimes(c, p, z);
    AddSub(Mul(H(), Mul(p, Mul(Transpose(H()), z))), Scale(Square(c.sigmaStar), z), 3);
  }

  lemma QuadOfSum(u: Matrix, v: Matrix, p: Matrix, n: pos)
    requires Dim(u, n, 1) && Dim(v, n, 1) && Symmetric(p, n)
    ensures Quad(Add(u, v), p) == Quad(u, p) + Quad(v, p) + 2.0 * DotOf(u, Mul(p, v))
  {
    hide Mul, Add, Transpose, Quad, DotOf;
    QuadIsDot(Add(u, v), p, n);
    QuadIsDot(u, p, n);
    QuadIsDot(v, p, n);
    MulAddRight(p, u, v, n, n, 1);
    DotAdd(Add(u, v), Mul(p, u), Mul(p, v), n);
    DotAdd(Mul(p, u), u, v, n);
    DotAdd(Mul(p, v), u, v, n);
    DotAdjoint(p, v, u, n, n);
    DotSymmetric(Mul(p, v), u, n);
    DotSymmetric(v, Mul(p, u), n);
    DotSymmetric(v, Mul(p, v), n);
    DotSymmetric(u, Mul(p, u), n);
  }

  lemma DotOfDifference(r: Matrix, q: Matrix, n: pos)
    requires Dim(r, n, 1) && Dim(q, n, 1)
    ensures var d := Add(r, Scale(-1.0, q)); DotOf(d, d) == DotOf(r, r) + DotOf(q, q) - 2.0 * DotOf(r, q)
  {
    hide Mul, Add, Transpose, Scale, DotOf;
    var m := Scale(-1.0, q);
    DotAdd(Add(r, m), r, m, n);
    DotAdd(r, r, m, n);
    DotAdd(m, r, m, n);
    DotScale(r, -1.0, q, n);
    DotScale(m, -1.0, q, n);
    DotScale(q, -1.0, q, n);
    DotSymmetric(m, q, n);
  }

  /** What moving away from the filter's weights costs: it is never negative. */
  lemma CostGap(c: Config, p: Matrix, y: Matrix, v: Matrix)
    requires Psd(p, 6) && c.sigmaStar != 0.0 && Dim(y, 3, 1) && Dim(v, 6, 1)
    ensures Det3(InnovationCovariance(c, p)) != 0.0
    ensures var (u, q, s2) := (Mul(Transpose(H()), Weighed(c, p, y)), Mul(H(), Mul(p, v)), Square(c.sigmaStar));
      Cost(s2, p, y, Add(u, v)) - Cost(s2, p, y, u) == s2 * Quad(v, p) + DotOf(q, q)
  {
    hide H, Mul, Transpose, Add, Scale, Square, Sub, Det3, InnovationCovariance, Quad, Weighed, DotOf;
    ResidualAtWeights(c, p, y);
    var z, s2 := Weighed(c, p, y), Square(c.sigmaStar);
    var u, q := Mul(Transpose(H()), z), Mul(H(), Mul(p, v));
    MulAddRight(p, u, v, 6, 6, 1);
    MulAddRight(H(), Mul(p, u), Mul(p, v), 3, 6, 1);
    SubAdd(y, Mul(H(), Mul(p, u)), q, 3);
    DotOfDifference(Scale(s2, z), q, 3);
    DotScale(q, s2, z, 3);
    DotSymmetric(q, z, 3);
    DotSymmetric(q, Scale(s2, z), 3);
    QuadOfSum(u, v, p, 6);
    DotAdjoint(H(), z, Mul(p, v), 3, 6);
    GapIs(s2, Quad(u, p), Quad(v, p), DotOf(z, q), DotOf(q, q), DotOf(Scale(s2, z), Scale(s2, z)));
  }

  lemma GapIs(s: real, a: real, b: real, d: real, q: real, r: real)
    ensures (s * (a + b + 2.0 * d) + (r + q - 2.0 * (s * d))) - (s * a + r) == s * b + q
  {
  }

  /** The state change of a correction, attitude first and bias second, as one column. */
  function Change(c: Config, f: Filter, measured: Quat, norm: real): (m: Matrix)
    requires Dim(f.p, 6, 6) && Det3(InnovationCovariance(c, f.p)) != 0.0 && norm > 0.0
  {
    var (dTheta, db) := Increment(c, f, measured, norm);
    [[dTheta.x], [dTheta.y], [dTheta.z], [db.x], [db.y], [db.z]]
  }

  lemma ChangeIs(c: Config, f: Filter, measured: Quat, norm: real)
    requires Dim(f.p, 6, 6) && Det3(InnovationCovariance(c, f.p)) != 0.0 && norm > 0.0
    ensures Change(c, f, measured, norm) == Mul(Gain(c, f.p), Innovation3(f, measured, norm))
  {
    hide Gain, Innovation3, InnovationCovariance, Det3, Mul;
    Extensional(Change(c, f, measured, norm), Mul(Gain(c, f.p), Innovation3(f, measured, norm)), 6, 1);
  }

  /** The weights whose change the filter applies. */
  function Weights(c: Config, f: Filter, measured: Quat, norm: real): (u: Matrix)
    requires Dim(f.p, 6, 6) && Det3(InnovationCovariance(c, f.p)) != 0.0 && norm > 0.0
    ensures Dim(u, 6, 1)
  {
    Mul(Transpose(H()), Weighed(c, f.p, Innovation3(f, measured, norm)))
  }

  /**
   A correction is the least-squares optimum: of all changes that the covariance allows, none explains the
   innovation at a lower cost, and when the covariance is definite every other costs more.
   */
  lemma CorrectionIsOptimal(c: Config, f: Filter, measured: Quat, norm: real, w: Matrix)
    requires Psd(f.p, 6) && c.sigmaStar != 0.0 && norm > 0.0 && Dim(w, 6, 1)
    ensures Dim(f.p, 6, 6) && Det3(InnovationCovariance(c, f.p)) != 0.0
    ensures var (u, y) := (Weights(c, f, measured, norm), Innovation3(f, measured, norm));
      Change(c, f, measured, norm) == Mul(f.p, u) &&
      Cost(Square(c.sigmaStar), f.p, y, u) <= Cost(Square(c.sigmaStar), f.p, y, w) &&
      (PositiveDefinite(f.p, 6) && w != u ==>
         Cost(Square(c.sigmaStar), f.p, y, u) < Cost(Square(c.sigmaStar), f.p, y, w))
  {
    hide H, Mul, Transpose, Add, Scale, Sub, Det3, InnovationCovariance, Quad, Weighed, DotOf, Innovation3, Cost, Psd,
      PositiveDefinite, Gain, Change;
    PsdDim(f.p, 6);
    var y, s2 := Innovation3(f, measured, norm), Square(c.sigmaStar);
    WeighedSolves(c, f.p, y);
    ChangeIs(c, f, measured, norm);
    var u := Weights(c, f, measured, norm);
    var v := Sub(w, u);
    AddSub(u, w, 6);
    CostGap(c, f.p, y, v);
    PsdAt(f.p, 6, v);
    DotPositiveColumn(Mul(H(), Mul(f.p, v)));
    NonNegativeProduct(s2, Quad(v, f.p));
    assert Times(s2, Quad(v, f.p)) == s2 * Quad(v, f.p);
    if PositiveDefinite(f.p, 6) && w != u {
      DifferentColumns(w, u);
      DefiniteAt(f.p, 6, v);
      PositiveProduct(s2, Quad(v, f.p));
    }
  }

  lemma DifferentColumns(w: Matrix, u: Matrix)
    requires Dim(w, 6, 1) && Dim(u, 6, 1) && w != u
    ensures IsNonZero(Sub(w, u), 6)
  {
    if forall i :: 0 <= i < 6 ==> At(w, i, 0) == At(u, i, 0) {
      Extensional(w, u, 6, 1);
    }
    var i :| 0 <= i < 6 && At(w, i, 0) != At(u, i, 0);
    assert At(Sub(w, u), i, 0) == At(w, i, 0) - At(u, i, 0);
  }

  /** The innovation against the part of it that the change explains. */
  lemma ExplainedPart(c: Config, p: Matrix, y: Matrix)
    requires Psd(p, 6) && c.sigmaStar != 0.0 && Dim(y, 3, 1)
    ensures Det3(InnovationCovariance(c, p)) != 0.0
    ensures var (z, s2) := (Weighed(c, p, y), Square(c.sigmaStar));
      var x := Mul(H(), Mul(p, Mul(Transpose(H()), z)));
      DotOf(y, x) == DotOf(x, x) + s2 * Quad(Mul(Transpose(H()), z), p) &&
      DotOf(y, x) == DotOf(y, y) - s2 * DotOf(z, y)
  {
    hide H, Mul, Transpose, Add, Scale, Square, Sub, Det3, InnovationCovariance, Quad, Weighed, DotOf;
    WeighedSolves(c, p, y);
    var z, s2 := Weighed(c, p, y), Square(c.sigmaStar);
    var u := Mul(Transpose(H()), z);
    var x := Mul(H(), Mul(p, u));
    InnovationTimes(c, p, z);
    DotAdd(x, x, Scale(s2, z), 3);
    DotScale(x, s2, z, 3);
    DotAdd(y, x, Scale(s2, z), 3);
    DotScale(y, s2, z, 3);
    DotSymmetric(x, z, 3);
    DotSymmetric(y, z, 3);
    DotAdjoint(H(), z, Mul(p, u), 3, 6);
    QuadIsDot(u, p, 6);
  }

  /** `H x` is three tenths of the first three entries of x. */
  lemma Observes(x: Matrix, y: Matrix)
    requires Dim(x, 6, 1) && Dim(y, 3, 1)
    ensures DotOf(y, Mul(H(), x)) ==
            0.3 * (Times(At(y, 0, 0), At(x, 0, 0)) + Times(At(y, 1, 0), At(x, 1, 0)) + Times(At(y, 2, 0), At(x, 2, 0)))
  {
    hide Mul, Transpose, DotOf;
    ObservesEntry(x, 0);
    ObservesEntry(x, 1);
    ObservesEntry(x, 2);
    var hx := Mul(H(), x);
    DotIs(y, hx, 3);
    SumOfThree(DotTerm(y, hx));
    ThreeTenths(At(y, 0, 0), At(x, 0, 0));
    ThreeTenths(At(y, 1, 0), At(x, 1, 0));
    ThreeTenths(At(y, 2, 0), At(x, 2, 0));
  }

  lemma ThreeTenths(a: real, b: real)
    ensures Times(a, 0.3 * b) == 0.3 * Times(a, b)
  {
  }

  lemma ObservesEntry(x: Matrix, i: int)
    requires Dim(x, 6, 1) && 0 <= i < 3
    ensures At(Mul(H(), x), i, 0) == 0.3 * At(x, i, 0)
  {
    var t := Term(H(), x, i, 0);
    forall k | 0 <= k < 6 && k != i
      ensures t(k) == 0.0
    {
      assert At(H(), i, k) == 0.0;
    }
    SumSingle(t, 6, i);
    assert At(H(), i, i) == 0.3;
  }

  lemma ZeroTimesColumn(a: Matrix, z: Matrix, r: pos, n: pos)
    requires Dim(a, r, n) && Dim(z, n, 1) && !IsNonZero(z, n)
    ensures !IsNonZero(Mul(a, z), r)
  {
    forall i | 0 <= i < r
      ensures At(Mul(a, z), i, 0) == 0.0
    {
      forall k | 0 <= k < n
        ensures Term(a, z, i, 0)(k) == 0.0
      {
        assert At(z, k, 0) == 0.0;
      }
      SumZero(Term(a, z, i, 0), n);
    }
  }

  /** An innovation that is not zero is weighed by a column that is not, with which it makes a positive product. */
  lemma WeighedIsPositive(c: Config, p: Matrix, y: Matrix)
    requires Psd(p, 6) && c.sigmaStar != 0.0 && Dim(y, 3, 1) && IsNonZero(y, 3)
    ensures Det3(InnovationCovariance(c, p)) != 0.0
    ensures IsNonZero(Weighed(c, p, y), 3) && DotOf(Weighed(c, p, y), y) > 0.0
  {
    hide H, Mul, Transpose, Add, Det3, InnovationCovariance, Quad, Weighed, DotOf, IsNonZero, PositiveDefinite;
    InnovationPositive(c, p);
    WeighedSolves(c, p, y);
    var s, z := InnovationCovariance(c, p), Weighed(c, p, y);
    if !IsNonZero(z, 3) {
      ZeroTimesColumn(s, z, 3, 3);
    }
    DefiniteAt(s, 3, z);
    QuadIsDot(z, s, 3);
  }

  lemma BackProjected(z: Matrix)
    requires Dim(z, 3, 1) && IsNonZero(z, 3)
    ensures IsNonZero(Mul(Transpose(H()), z), 6)
  {
    hide Mul, Transpose;
    var i :| 0 <= i < 3 && At(z, i, 0) != 0.0;
    var t := Term(Transpose(H()), z, i, 0);
    forall k | 0 <= k < 3 && k != i
      ensures t(k) == 0.0
    {
      assert At(Transpose(H()), i, k) == At(H(), k, i) == 0.0;
    }
    SumSingle(t, 3, i);
    assert At(Transpose(H()), i, i) == At(H(), i, i) == 0.3;
  }

  /** How far a turn by d goes along the innovation y. */
  function Along(y: Matrix, d: Vec3): real
  {
    Times(At(y, 0, 0), d.x) + Times(At(y, 1, 0), d.y) + Times(At(y, 2, 0), d.z)
  }

  /**
   A correction never turns away from the measurement, and what the measurement would show of the turn is less
   than the innovation; when the covariance is definite and there is an innovation, it does turn towards it.
   */
  lemma CorrectionTurnsTowards(c: Config, f: Filter, measured: Quat, norm: real)
    requires Psd(f.p, 6) && c.sigmaStar != 0.0 && norm > 0.0
    ensures Dim(f.p, 6, 6) && Det3(InnovationCovariance(c, f.p)) != 0.0
    ensures var (y, (dTheta, _)) := (Innovation3(f, measured, norm), Increment(c, f, measured, norm));
      Along(y, dTheta) >= 0.0 &&
      (IsNonZero(y, 3) ==> 0.3 * Along(y, dTheta) < DotOf(y, y)) &&
      (IsNonZero(y, 3) && PositiveDefinite(f.p, 6) ==> Along(y, dTheta) > 0.0)
  {
    hide H, Mul, Transpose, Square, Det3, InnovationCovariance, Quad, Weighed, DotOf, Innovation3, Psd, IsNonZero,
      PositiveDefinite, Gain, Increment, Times;
    PsdDim(f.p, 6);
    var y, s2 := Innovation3(f, measured, norm), Square(c.sigmaStar);
    WeighedSolves(c, f.p, y);
    ChangeIs(c, f, measured, norm);
    ExplainedPart(c, f.p, y);
    var z := Weighed(c, f.p, y);
    var u := Mul(Transpose(H()), z);
    Observes(Mul(f.p, u), y);
    ChangeEntries(c, f, measured, norm);
    DotPositiveColumn(Mul(H(), Mul(f.p, u)));
    PsdAt(f.p, 6, u);
    ScaledNonNegative(s2, Quad(u, f.p), s2 * Quad(u, f.p));
    if IsNonZero(y, 3) {
      WeighedIsPositive(c, f.p, y);
      ScaledNonNegative(s2, DotOf(z, y), s2 * DotOf(z, y));
      BackProjected(z);
      if PositiveDefinite(f.p, 6) {
        DefiniteAt(f.p, 6, u);
      }
    }
  }

  lemma ChangeEntries(c: Config, f: Filter, measured: Quat, norm: real)
    requires Dim(f.p, 6, 6) && Det3(InnovationCovariance(c, f.p)) != 0.0 && norm > 0.0
    ensures var (x, (dTheta, db)) := (Change(c, f, measured, norm), Increment(c, f, measured, norm));
      At(x, 0, 0) == dTheta.x && At(x, 1, 0) == dTheta.y && At(x, 2, 0) == dTheta.z &&
      At(x, 3, 0) == db.x && At(x, 4, 0) == db.y && At(x, 5, 0) == db.z
  {
    hide Increment;
  }

  // ----- the state after a step -----

  /**
   After a correction: the attitude turned by the rotation of the change's first three entries, and the bias
   moved by its last three.
   */
  lemma CorrectedState(c: Config, f: Filter, measured: Quat, norm: real)
    requires ConfigOk(c) && Inv(f) && Unit(f.q) && norm > 0.0
    ensures Dim(f.p, 6, 6) && Det3(InnovationCovariance(c, f.p)) != 0.0 && f.qNorm == 1.0
    ensures var (g, x) := (Corrected(c, f, measured, norm), Change(c, f, measured, norm));
      var turn := c.trig.rotation(Vec3(At(x, 0, 0), At(x, 1, 0), At(x, 2, 0)));
      Attitude(g.q) == DcmProduct(Attitude(turn), Attitude(f.q)) &&
      g.b == Vec3(f.b.x + At(x, 3, 0), f.b.y + At(x, 4, 0), f.b.z + At(x, 5, 0)) &&
      g.lastOmega == f.lastOmega && g.lastTime == f.lastTime && g.prevUsedImu == f.prevUsedImu
  {
    hide Multiply, NormSq, Gain, CorrectedCovariance, InnovationCovariance, Det3, Mul, Increment, Attitude, Hemi,
      DcmProduct, Change, PositiveDefinite, Psd, RawProduct, IsSqrt, Unit, Innovation3, Symmetric, ConfigOk;
    UnitNorm(f);
    PsdDim(f.p, 6);
    UsableConfig(c);
    InnovationPositive(c, f.p);
    ChangeEntries(c, f, measured, norm);
    var (dTheta, db) := Increment(c, f, measured, norm);
    var u := c.trig.rotation(dTheta);
    NormalizedByOne(u, f.q);
    HemiSameAttitude(RawProduct(u, f.q));
    AttitudeOfProduct(u, f.q);
  }

  lemma UnitNorm(f: Filter)
    requires Inv(f) && Unit(f.q)
    ensures f.qNorm == 1.0 && Psd(f.p, 6)
  {
    hide Psd;
    SqrtOfOne(f.qNorm);
  }

  lemma UsableConfig(c: Config)
    requires ConfigOk(c)
    ensures c.sigmaStar != 0.0
  {
  }

  lemma NormalizedByOne(a: Quat, b: Quat)
    ensures Multiply(a, b, 1.0) == RawProduct(a, b)
  {
    NormalizeByOne(RawProduct(a, b));
  }

  /**
   After a prediction: the attitude turned by the measured rate less the bias over the step, that rate being
   the mean of this one and the last when both steps had one.
   */
  lemma PredictedState(c: Config, f: Filter, e: Event)
    requires Inv(f) && Unit(f.q)
    ensures f.qNorm == 1.0
    ensures var g := AfterPrediction(c, f, e);
      var rate := if e.omega.Some? && f.prevUsedImu
                  then Vec3((f.lastOmega.x + e.omega.value.x) / 2.0, (f.lastOmega.y + e.omega.value.y) / 2.0,
                            (f.lastOmega.z + e.omega.value.z) / 2.0)
                  else f.lastOmega;
      var turn := c.trig.turn(e.time - f.lastTime, Vec3(rate.x - f.b.x, rate.y - f.b.y, rate.z - f.b.z));
      Attitude(g.q) == DcmProduct(Attitude(turn), Attitude(f.q)) && g.b == f.b && g.lastTime == f.lastTime &&
      g.lastOmega == e.omega.GetOr(f.lastOmega) && g.prevUsedImu == e.omega.Some?
  {
    UnitNorm(f);
    hide Multiply, NormSq, Attitude, DcmProduct, RawProduct, Psd, IsSqrt, Unit, Add, Congruence, Q;
    var w := Plus(Rate(f, e.omega), Times3(-1.0, f.b));
    var u := c.trig.turn(e.time - f.lastTime, w);
    NormalizedByOne(u, f.q);
    AttitudeOfProduct(u, f.q);
  }

  /** After an update: a prediction, a correction if there is a measurement, and the time if there is either. */
  lemma UpdatedState(c: Config, f: Filter, e: Event)
    requires ConfigOk(c) && Inv(f) && e.time >= f.lastTime && EventOk(e)
    ensures var (g, t) := (AfterPrediction(c, f, e), Updated(c, f, e));
      Inv(g) && Unit(g.q) && Dim(g.p, 6, 6) && Det3(InnovationCovariance(c, g.p)) != 0.0 &&
      t == (if e.measured.Some? then Corrected(c, g, e.measured.value, e.norm) else g)
           .(lastTime := if e.omega.None? && e.measured.None? then f.lastTime else e.time)
  {
    hide NormSq, Gain, CorrectedCovariance, InnovationCovariance, Det3, Mul, Increment, Psd, Unit, Multiply, Add, Q,
      Congruence, IsSqrt, PositiveDefinite;
    PredictionKeepsInv(c, f, e);
    PsdDim(AfterPrediction(c, f, e).p, 6);
    InnovationPositive(c, AfterPrediction(c, f, e).p);
  }
}
