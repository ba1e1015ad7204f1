/** What the filter's matrices do: variances, the coupling of bias and attitude, and steps that compose. */
module MekfDynamics {
  import opened Matrices
  import opened Innovation
  import opened Products
  import opened Quaternions
  import opened Mekf
  import opened MekfTrig
  import opened MekfDefinite

  // ----- matrices that act alike on each axis -----

  /** On each axis the two by two matrix a b / c d, and nothing between axes. */
  predicate IsAxial(m: Matrix, a: real, b: real, c: real, d: real)
  {
    Dim(m, 6, 6) && forall i, j :: 0 <= i < 6 && 0 <= j < 6 ==> At(m, i, j) == AxialEntry(a, b, c, d, i, j)
  }

  function AxialEntry(a: real, b: real, c: real, d: real, i: int, j: int): real
  {
    if Axis(i) != Axis(j) then 0.0
    else if i < 3 then if j < 3 then a else b
    else if j < 3 then c else d
  }

  lemma AxialUnique(m: Matrix, n: Matrix, a: real, b: real, c: real, d: real)
    requires IsAxial(m, a, b, c, d) && IsAxial(n, a, b, c, d)
    ensures m == n
  {
    forall i, j | 0 <= i < 6 && 0 <= j < 6
      ensures At(m, i, j) == At(n, i, j)
    {
      assert At(m, i, j) == AxialEntry(a, b, c, d, i, j);
    }
    Extensional(m, n, 6, 6);
  }

  lemma AxialMul(m: Matrix, a: real, b: real, c: real, d: real, n: Matrix, e: real, f: real, g: real, h: real)
    requires IsAxial(m, a, b, c, d) && IsAxial(n, e, f, g, h)
    ensures IsAxial(Mul(m, n), a * e + b * g, a * f + b * h, c * e + d * g, c * f + d * h)
  {
    hide Mul;
    forall i, j | 0 <= i < 6 && 0 <= j < 6
      ensures At(Mul(m, n), i, j) == AxialEntry(a * e + b * g, a * f + b * h, c * e + d * g, c * f + d * h, i, j)
    {
      AxialMulEntry(m, a, b, c, d, n, e, f, g, h, i, j);
    }
  }

  lemma AxialMulEntry(m: Matrix, a: real, b: real, c: real, d: real, n: Matrix, e: real, f: real, g: real, h: real,
                      i: int, j: int)
    requires IsAxial(m, a, b, c, d) && IsAxial(n, e, f, g, h) && 0 <= i < 6 && 0 <= j < 6
    ensures At(Mul(m, n), i, j) == AxialEntry(a * e + b * g, a * f + b * h, c * e + d * g, c * f + d * h, i, j)
  {
    hide Mul, Sum, IsAxial;
    var t, k := Term(m, n, i, j), Axis(i);
    AxialTerms(m, a, b, c, d, n, e, f, g, h, i, j);
    SumPair(t, 6, k, k + 3);
  }

  lemma AxialTerms(m: Matrix, a: real, b: real, c: real, d: real, n: Matrix, e: real, f: real, g: real, h: real,
                   i: int, j: int)
    requires IsAxial(m, a, b, c, d) && IsAxial(n, e, f, g, h) && 0 <= i < 6 && 0 <= j < 6
    ensures Dim(m, 6, 6) && Dim(n, 6, 6)
    ensures var (t, k) := (Term(m, n, i, j), Axis(i));
      (forall x :: 0 <= x < 6 && x != k && x != k + 3 ==> t(x) == 0.0) &&
      t(k) + t(k + 3) == AxialEntry(a * e + b * g, a * f + b * h, c * e + d * g, c * f + d * h, i, j)
  {
    var t, k := Term(m, n, i, j), Axis(i);
    forall x | 0 <= x < 6 && x != k && x != k + 3
      ensures t(x) == 0.0
    {
      assert At(m, i, x) == AxialEntry(a, b, c, d, i, x) == 0.0;
    }
    assert At(m, i, k) == AxialEntry(a, b, c, d, i, k) && At(m, i, k + 3) == AxialEntry(a, b, c, d, i, k + 3);
    assert At(n, k, j) == AxialEntry(e, f, g, h, k, j) && At(n, k + 3, j) == AxialEntry(e, f, g, h, k + 3, j);
  }

  /** The same, with the entries of the product named. */
  lemma AxialProduct(m: Matrix, a: real, b: real, c: real, d: real, n: Matrix, e: real, f: real, g: real, h: real,
                     w: real, x: real, y: real, z: real)
    requires IsAxial(m, a, b, c, d) && IsAxial(n, e, f, g, h)
    requires w == a * e + b * g && x == a * f + b * h && y == c * e + d * g && z == c * f + d * h
    ensures IsAxial(Mul(m, n), w, x, y, z)
  {
    hide IsAxial, Mul;
    AxialMul(m, a, b, c, d, n, e, f, g, h);
  }

  lemma AxialTranspose(m: Matrix, a: real, b: real, c: real, d: real)
    requires IsAxial(m, a, b, c, d)
    ensures IsAxial(Transpose(m), a, c, b, d)
  {
    forall i, j | 0 <= i < 6 && 0 <= j < 6
      ensures At(Transpose(m), i, j) == AxialEntry(a, c, b, d, i, j)
    {
      assert At(m, j, i) == AxialEntry(a, b, c, d, j, i);
    }
  }

  lemma AxialAdd(m: Matrix, a: real, b: real, c: real, d: real, n: Matrix, e: real, f: real, g: real, h: real)
    requires IsAxial(m, a, b, c, d) && IsAxial(n, e, f, g, h)
    ensures IsAxial(Add(m, n), a + e, b + f, c + g, d + h)
  {
    forall i, j | 0 <= i < 6 && 0 <= j < 6
      ensures At(Add(m, n), i, j) == AxialEntry(a + e, b + f, c + g, d + h, i, j)
    {
      assert At(m, i, j) == AxialEntry(a, b, c, d, i, j) && At(n, i, j) == AxialEntry(e, f, g, h, i, j);
    }
  }

  lemma ScaledBlockIsAxial(m: Matrix, a: real, b: real, d: real)
    requires IsScaledBlock(m, a, b, d)
    ensures IsAxial(m, a, b, b, d)
  {
    forall i, j | 0 <= i < 6 && 0 <= j < 6
      ensures At(m, i, j) == AxialEntry(a, b, b, d, i, j)
    {
      assert At(m, i, j) == BlockEntry(a, b, d, i, j);
    }
  }

  // ----- variances -----

  /** The variances a reset starts from: one for each attitude axis, another for each bias, and no correlation. */
  lemma InitialVariances(c: Config)
    ensures IsAxial(InitialCovariance(c), c.pTheta0, 0.0, 0.0, c.pBias0)
  {
    ScaledBlockIs(c.pTheta0, 0.0, c.pBias0);
    assert Zero3() == Scale(0.0, Identity(3)) by {
      Extensional(Zero3(), Scale(0.0, Identity(3)), 3, 3);
    }
    hide Block;
    ScaledBlockIsAxial(InitialCovariance(c), c.pTheta0, 0.0, c.pBias0);
  }

  /** The noise of a step: white noise of the gyro and a random walk of the bias, integrated over it. */
  lemma ProcessVariances(c: Config, t: real)
    ensures var (g2, b2) := (c.sigmaGyro * c.sigmaGyro, c.sigmaBias * c.sigmaBias);
      IsAxial(Q(c, t), g2 * t + b2 * (t * t * t) / 3.0, -(b2 * (t * t) / 2.0), -(b2 * (t * t) / 2.0), b2 * t)
  {
    ScaledBlockIs(Q11(c, t), Q12(c, t), Q22(c, t));
    hide ScaledBlock;
    ScaledBlockIsAxial(Q(c, t), Q11(c, t), Q12(c, t), Q22(c, t));
  }

  // ----- steps compose -----

  function ZeroRate(): Vec3
  {
    Vec3(0.0, 0.0, 0.0)
  }

  lemma RestIsAxial(t: real, b: real, y: real)
    ensures var s := Skew(ZeroRate());
      IsAxial(Block(Rodrigues(t, b, s), Drift(t, b, y, s), Zero3(), Identity(3)), 1.0, -t, 0.0, 1.0)
  {
    hide Block, Rodrigues, Drift, Skew, IsAxial;
    RestBlocks(t, b, y);
    var s := Skew(ZeroRate());
    var m := Block(Rodrigues(t, b, s), Drift(t, b, y, s), Zero3(), Identity(3));
    BlocksAreAxial(Rodrigues(t, b, s), Drift(t, b, y, s), m, t);
  }

  /** Without rotation a bias error builds up attitude error in proportion to time. */
  lemma TransitionAtRest(e: Elementary, t: real)
    requires Lawful(e)
    ensures IsAxial(Phi(e, t, ZeroRate()), 1.0, -t, 0.0, 1.0)
  {
    NormAtRest(e);
    SmallRateAtRest(e, t);
  }

  lemma SmallRateAtRest(e: Elementary, t: real)
    requires Norm3(e, ZeroRate()) < SMALL_RATE
    ensures IsAxial(Phi(e, t, ZeroRate()), 1.0, -t, 0.0, 1.0)
  {
    hide IsAxial, Block, Rodrigues, Drift, Skew, Norm3, NormSq3, Times, Square, Quot, ZeroRate;
    var b := 0.5 * (t * t);
    RestIsAxial(t, b, t * t * t / 6.0);
  }

  lemma NormAtRest(e: Elementary)
    requires Lawful(e)
    ensures Norm3(e, ZeroRate()) < SMALL_RATE
  {
    hide Lawful, Norm3, NormSq3;
    NoLength();
    NormIsRoot(e, ZeroRate());
    SmallRoot(Norm3(e, ZeroRate()), NormSq3(ZeroRate()));
  }

  lemma SmallRoot(n: real, m: real)
    requires IsSqrt(n, m) && m == 0.0
    ensures n < SMALL_RATE
  {
    RootOfZero(n);
  }

  lemma NoLength()
    ensures NormSq3(ZeroRate()) == 0.0
  {
  }

  lemma RootOfZero(n: real)
    requires n * n == 0.0
    ensures n == 0.0
  {
    assert Square(n) == n * n;
  }

  lemma DriftEntry(t: real, x: real, y: real, s: Matrix, i: int, j: int)
    requires Dim(s, 3, 3) && 0 <= i < 3 && 0 <= j < 3
    ensures At(Drift(t, x, y, s), i, j) ==
            Times(x, At(s, i, j)) - (if i == j then t else 0.0) - Times(y, At(Mul(s, s), i, j))
  {
    hide Mul, At;
  }

  lemma RestBlocks(a: real, b: real, y: real)
    ensures var s := Skew(ZeroRate());
      (forall i, j :: 0 <= i < 3 && 0 <= j < 3 ==> At(Rodrigues(a, b, s), i, j) == if i == j then 1.0 else 0.0) &&
      (forall i, j :: 0 <= i < 3 && 0 <= j < 3 ==> At(Drift(a, b, y, s), i, j) == if i == j then -a else 0.0)
  {
    hide Mul, Skew, Rodrigues, Drift, Times, SkewAt, SkewSquaredAt;
    var s := Skew(ZeroRate());
    ZeroTimes(a);
    ZeroTimes(b);
    ZeroTimes(y);
    forall i, j | 0 <= i < 3 && 0 <= j < 3
      ensures At(Rodrigues(a, b, s), i, j) == if i == j then 1.0 else 0.0
      ensures At(Drift(a, b, y, s), i, j) == if i == j then -a else 0.0
    {
      SkewSquared(ZeroRate(), i, j);
      SkewEntry(ZeroRate(), i, j);
      NoRotation(i, j);
      RodriguesEntry(a, b, s, i, j);
      DriftEntry(a, b, y, s, i, j);
    }
  }

  lemma NoRotation(i: int, j: int)
    ensures SkewAt(ZeroRate(), i, j) == 0.0 && SkewSquaredAt(ZeroRate(), i, j) == 0.0
  {
    ZeroTimes(0.0);
  }

  lemma BlocksAreAxial(r: Matrix, d: Matrix, m: Matrix, t: real)
    requires m == Block(r, d, Zero3(), Identity(3))
    requires forall i, j :: 0 <= i < 3 && 0 <= j < 3 ==> At(r, i, j) == if i == j then 1.0 else 0.0
    requires forall i, j :: 0 <= i < 3 && 0 <= j < 3 ==> At(d, i, j) == if i == j then -t else 0.0
    ensures IsAxial(m, 1.0, -t, 0.0, 1.0)
  {
  }

  /** A step of the covariance at rest. */
  function RestStep(c: Config, e: Elementary, p: Matrix, t: real): Matrix
  {
    Add(Congruence(Phi(e, t, ZeroRate()), p), Q(c, t))
  }

  /** At rest two steps are one step of their sum: how often the filter predicts does not change its covariance. */
  lemma StepsCompose(c: Config, e: Elementary, p: Matrix, s: real, t: real)
    requires Lawful(e) && Dim(p, 6, 6)
    ensures RestStep(c, e, RestStep(c, e, p, s), t) == RestStep(c, e, p, s + t)
  {
    hide Phi, Q, Congruence, Add, Lawful;
    var f, g := Phi(e, s, ZeroRate()), Phi(e, t, ZeroRate());
    TransitionsCompose(e, s, t);
    NoisesCompose(c, e, s, t);
    CongruenceOfProduct(g, f, p, 6, 6, 6);
    CongruenceAdd(g, Congruence(f, p), Q(c, s), 6, 6);
    AddAssociates(Congruence(g, Congruence(f, p)), Congruence(g, Q(c, s)), Q(c, t));
  }

  lemma AddAssociates(a: Matrix, b: Matrix, c: Matrix)
    requires Dim(a, 6, 6) && Dim(b, 6, 6) && Dim(c, 6, 6)
    ensures Add(Add(a, b), c) == Add(a, Add(b, c))
  {
    Extensional(Add(Add(a, b), c), Add(a, Add(b, c)), 6, 6);
  }

  lemma TransitionsCompose(e: Elementary, s: real, t: real)
    requires Lawful(e)
    ensures Mul(Phi(e, t, ZeroRate()), Phi(e, s, ZeroRate())) == Phi(e, s + t, ZeroRate())
  {
    hide Phi, Mul, Lawful, IsAxial;
    TransitionAtRest(e, s);
    TransitionAtRest(e, t);
    TransitionAtRest(e, s + t);
    var f, g := Phi(e, s, ZeroRate()), Phi(e, t, ZeroRate());
    AxialMul(g, 1.0, -t, 0.0, 1.0, f, 1.0, -s, 0.0, 1.0);
    AxialUnique(Mul(g, f), Phi(e, s + t, ZeroRate()), 1.0, -(s + t), 0.0, 1.0);
  }

  // The noise of a step on one axis.

  function N11(g2: real, b2: real, t: real): real
  {
    g2 * t + b2 * (t * t * t) / 3.0
  }

  function N12(b2: real, t: real): real
  {
    -(b2 * (t * t) / 2.0)
  }

  function N22(b2: real, t: real): real
  {
    b2 * t
  }

  lemma NoiseIsAxial(c: Config, t: real)
    ensures var (g2, b2) := (c.sigmaGyro * c.sigmaGyro, c.sigmaBias * c.sigmaBias);
      IsAxial(Q(c, t), N11(g2, b2, t), N12(b2, t), N12(b2, t), N22(b2, t))
  {
    hide IsAxial, Q;
    ProcessVariances(c, t);
  }

  /** One axis of a step at rest, over plain numbers. */
  lemma AxisSteps(g: Matrix, t: real, m: Matrix, p: real, q: real, r: real, n: Matrix, u: real, v: real, w: real)
    requires IsAxial(g, 1.0, -t, 0.0, 1.0) && IsAxial(m, p, q, q, r) && IsAxial(n, u, v, v, w)
    ensures IsAxial(Add(Congruence(g, m), n), p - Times(t, q) - Times(t, q) + Times(t, Times(t, r)) + u,
                    q - Times(t, r) + v, q - Times(t, r) + v, r + w)
  {
    hide IsAxial, Mul, Transpose, Add;
    AxisProducts(t, p, q, r);
    AxialTranspose(g, 1.0, -t, 0.0, 1.0);
    var x, y := p - Times(t, q), q - Times(t, r);
    AxialProduct(g, 1.0, -t, 0.0, 1.0, m, p, q, q, r, x, y, q, r);
    AxisProducts2(t, x, y, q, r);
    AxialProduct(Mul(g, m), x, y, q, r, Transpose(g), 1.0, 0.0, -t, 1.0, x - Times(t, y), y, y, r);
    AxialAdd(Congruence(g, m), x - Times(t, y), y, y, r, n, u, v, v, w);
    TimesDifference(t, q, r);
  }

  lemma AxisProducts(t: real, p: real, q: real, r: real)
    ensures 1.0 * p + -t * q == p - Times(t, q) && 1.0 * q + -t * r == q - Times(t, r)
    ensures 0.0 * p + 1.0 * q == q && 0.0 * q + 1.0 * r == r
  {
  }

  lemma AxisProducts2(t: real, x: real, y: real, q: real, r: real)
    requires y == q - Times(t, r)
    ensures x * 1.0 + y * -t == x - Times(t, y) && x * 0.0 + y * 1.0 == y
    ensures q * 1.0 + r * -t == y && q * 0.0 + r * 1.0 == r
  {
  }

  lemma TimesDifference(t: real, q: real, r: real)
    ensures Times(t, q - Times(t, r)) == Times(t, q) - Times(t, Times(t, r))
  {
  }

  lemma NoisesCompose(c: Config, e: Elementary, s: real, t: real)
    requires Lawful(e)
    ensures Add(Congruence(Phi(e, t, ZeroRate()), Q(c, s)), Q(c, t)) == Q(c, s + t)
  {
    hide Phi, Q, Lawful, IsAxial, Add, Congruence, N11, N12, N22, Times;
    var (g2, b2) := (c.sigmaGyro * c.sigmaGyro, c.sigmaBias * c.sigmaBias);
    NoiseIsAxial(c, s);
    NoiseIsAxial(c, t);
    NoiseIsAxial(c, s + t);
    TransitionAtRest(e, t);
    AxisSteps(Phi(e, t, ZeroRate()), t, Q(c, s), N11(g2, b2, s), N12(b2, s), N22(b2, s),
              Q(c, t), N11(g2, b2, t), N12(b2, t), N22(b2, t));
    NoiseSums(g2, b2, s, t);
    AxialUnique(Add(Congruence(Phi(e, t, ZeroRate()), Q(c, s)), Q(c, t)), Q(c, s + t),
                N11(g2, b2, s + t), N12(b2, s + t), N12(b2, s + t), N22(b2, s + t));
  }

  lemma NoiseSums(g2: real, b2: real, s: real, t: real)
    ensures N11(g2, b2, s) - Times(t, N12(b2, s)) - Times(t, N12(b2, s)) + Times(t, Times(t, N22(b2, s))) +
            N11(g2, b2, t) == N11(g2, b2, s + t)
    ensures N12(b2, s) - Times(t, N22(b2, s)) + N12(b2, t) == N12(b2, s + t)
    ensures N22(b2, s) + N22(b2, t) == N22(b2, s + t)
  {
  }


  // ----- bias into attitude -----

  /** Entry (i, j) of the block that turns a bias error into an attitude error. */
  function Coupling(m: Matrix, i: int, j: int): real
  {
    At(m, i, j + 3)
  }

  /** That block, with coefficients x and y, over a step t. */
  predicate IsCoupling(m: Matrix, t: real, x: real, y: real, w: Vec3)
  {
    forall i, j :: 0 <= i < 3 && 0 <= j < 3 ==>
      Coupling(m, i, j) == Times(x, SkewAt(w, i, j)) - (if i == j then t else 0.0) - Times(y, SkewSquaredAt(w, i, j))
  }

  lemma BlockCoupling(top: Matrix, t: real, x: real, y: real, w: Vec3)
    requires Dim(top, 3, 3)
    ensures IsCoupling(Block(top, Drift(t, x, y, Skew(w)), Zero3(), Identity(3)), t, x, y, w)
  {
    hide Drift, Mul, Skew, Times, SkewAt, SkewSquaredAt;
    forall i, j | 0 <= i < 3 && 0 <= j < 3
      ensures At(Drift(t, x, y, Skew(w)), i, j) ==
              Times(x, SkewAt(w, i, j)) - (if i == j then t else 0.0) - Times(y, SkewSquaredAt(w, i, j))
    {
      DriftEntry(t, x, y, Skew(w), i, j);
      SkewEntry(w, i, j);
      SkewSquared(w, i, j);
    }
  }

  // The first row of the cube of a cross-product matrix; the other two follow by rotating the axes.

  lemma CubedRow(x: real, y: real, z: real)
    ensures var (q, m) := (-Square(y) - Square(z), Square(x) + Square(y) + Square(z));
      Times(q, 0.0) + Times(Times(x, y), z) + Times(Times(z, x), -y) == 0.0 &&
      Times(q, -z) + Times(Times(x, y), 0.0) + Times(Times(z, x), x) == Times(m, z) &&
      Times(q, y) + Times(Times(x, y), -x) + Times(Times(z, x), 0.0) == -Times(m, y)
  {
  }

  lemma OwnRow(x: real, y: real, z: real)
    ensures Times(0.0, x) + Times(-z, y) + Times(y, z) == 0.0
    ensures Times(-Square(y) - Square(z), x) + Times(Times(x, y), y) + Times(Times(z, x), z) == 0.0
  {
  }

  lemma NegativeTimes(m: real, s: real)
    ensures -Times(m, -s) == Times(m, s) && Times(m, 0.0) == 0.0
  {
  }

  /** The square of a cross-product matrix times the matrix, and either times the vector. */
  lemma SkewCubed(v: Vec3, i: int, j: int)
    requires 0 <= i < 3 && 0 <= j < 3
    ensures Times(SkewSquaredAt(v, i, 0), SkewAt(v, 0, j)) + Times(SkewSquaredAt(v, i, 1), SkewAt(v, 1, j)) +
            Times(SkewSquaredAt(v, i, 2), SkewAt(v, 2, j)) == -Times(NormSq3(v), SkewAt(v, i, j))
  {
    CubedRow(v.x, v.y, v.z);
    CubedRow(v.y, v.z, v.x);
    CubedRow(v.z, v.x, v.y);
    NegativeTimes(NormSq3(v), v.x);
    NegativeTimes(NormSq3(v), v.y);
    NegativeTimes(NormSq3(v), v.z);
    hide Times, Square;
  }

  lemma SkewOfItself(v: Vec3, i: int)
    requires 0 <= i < 3
    ensures Times(SkewAt(v, i, 0), v.x) + Times(SkewAt(v, i, 1), v.y) + Times(SkewAt(v, i, 2), v.z) == 0.0
    ensures Times(SkewSquaredAt(v, i, 0), v.x) + Times(SkewSquaredAt(v, i, 1), v.y) +
            Times(SkewSquaredAt(v, i, 2), v.z) == 0.0
  {
    OwnRow(v.x, v.y, v.z);
    OwnRow(v.y, v.z, v.x);
    OwnRow(v.z, v.x, v.y);
    hide Times, Square;
  }

  lemma SplitCoupling(x: real, s: real, d: real, y: real, q: real, u: real)
    ensures Times(Times(x, s) - d - Times(y, q), u) == Times(x, Times(s, u)) - Times(d, u) - Times(y, Times(q, u))
  {
  }

  /** A row of the block against any column: the three parts by themselves. */
  lemma CouplingRow(m: Matrix, t: real, x: real, y: real, w: Vec3, i: int, u: Vec3)
    requires IsCoupling(m, t, x, y, w) && 0 <= i < 3
    ensures Times(Coupling(m, i, 0), u.x) + Times(Coupling(m, i, 1), u.y) + Times(Coupling(m, i, 2), u.z) ==
            Times(x, Times(SkewAt(w, i, 0), u.x) + Times(SkewAt(w, i, 1), u.y) + Times(SkewAt(w, i, 2), u.z)) -
            Times(t, Component(u, i)) -
            Times(y, Times(SkewSquaredAt(w, i, 0), u.x) + Times(SkewSquaredAt(w, i, 1), u.y) +
                     Times(SkewSquaredAt(w, i, 2), u.z))
  {
    hide Times, SkewAt, SkewSquaredAt, Coupling;
    SplitCoupling(x, SkewAt(w, i, 0), if i == 0 then t else 0.0, y, SkewSquaredAt(w, i, 0), u.x);
    SplitCoupling(x, SkewAt(w, i, 1), if i == 1 then t else 0.0, y, SkewSquaredAt(w, i, 1), u.y);
    SplitCoupling(x, SkewAt(w, i, 2), if i == 2 then t else 0.0, y, SkewSquaredAt(w, i, 2), u.z);
    DistributeThree(x, Times(SkewAt(w, i, 0), u.x), Times(SkewAt(w, i, 1), u.y), Times(SkewAt(w, i, 2), u.z));
    DistributeThree(y, Times(SkewSquaredAt(w, i, 0), u.x), Times(SkewSquaredAt(w, i, 1), u.y),
                    Times(SkewSquaredAt(w, i, 2), u.z));
    UnitTimes(u.x);
    UnitTimes(u.y);
    UnitTimes(u.z);
  }

  /** Column j of a cross-product matrix. */
  function SkewColumn(w: Vec3, j: int): Vec3
  {
    Vec3(SkewAt(w, 0, j), SkewAt(w, 1, j), SkewAt(w, 2, j))
  }

  /**
   With x = b and y |w|^2 = t - a, the block times the cross-product matrix of the rate is the rotation block
   less the identity, and along the rate it is minus the step: this determines it.
   */
  lemma CouplingIs(m: Matrix, t: real, a: real, b: real, y: real, w: Vec3, i: int, j: int, short: real)
    requires IsCoupling(m, t, b, y, w) && 0 <= i < 3 && 0 <= j < 3 && Times(y, NormSq3(w)) == t - a + short
    ensures var s := SkewColumn(w, j);
      Times(Coupling(m, i, 0), s.x) + Times(Coupling(m, i, 1), s.y) + Times(Coupling(m, i, 2), s.z) ==
      UpperAt(a, b, w, i, j) - (if i == j then 1.0 else 0.0) + Times(short, SkewAt(w, i, j))
    ensures Times(Coupling(m, i, 0), w.x) + Times(Coupling(m, i, 1), w.y) + Times(Coupling(m, i, 2), w.z) ==
            -Times(t, Component(w, i))
  {
    hide IsCoupling, Coupling;
    CouplingRow(m, t, b, y, w, i, SkewColumn(w, j));
    CouplingRow(m, t, b, y, w, i, w);
    SkewProducts(w, i, j);
    SkewCubed(w, i, j);
    SkewOfItself(w, i);
    ColumnEntry(w, i, j);
    hide Times, SkewAt, SkewSquaredAt, NormSq3;
    ZeroTimes(b);
    ZeroTimes(y);
    CoefficientIs(t, a, y, NormSq3(w), SkewAt(w, i, j), short);
  }

  lemma ColumnEntry(w: Vec3, i: int, j: int)
    requires 0 <= i < 3
    ensures Component(SkewColumn(w, j), i) == SkewAt(w, i, j)
  {
  }

  lemma CoefficientIs(t: real, a: real, y: real, m: real, s: real, short: real)
    requires Times(y, m) == t - a + short
    ensures -Times(t, s) - Times(y, -Times(m, s)) == -Times(a, s) + Times(short, s)
  {
    assert Times(y, Times(m, s)) == Times(Times(y, m), s);
    assert Times(t - a + short, s) == Times(t, s) - Times(a, s) + Times(short, s);
  }

  lemma LargeRateCoupling(e: Elementary, dt: real, omega: Vec3)
    requires Norm3(e, omega) >= SMALL_RATE
    ensures Norm3(e, omega) > 0.0 && Times(Square(Norm3(e, omega)), Norm3(e, omega)) != 0.0
    ensures var w := Norm3(e, omega);
      var angle := Times(w, dt);
      IsCoupling(Phi(e, dt, omega), dt, Quot(1.0 - e.cos(angle), Square(w)),
                 Quot(angle - e.sin(angle), Times(Square(w), w)), omega)
  {
    hide IsCoupling, Block, Rodrigues, Drift, Skew, Norm3, Times, Quot, Square;
    var w := Norm3(e, omega);
    PositiveProduct(Square(w), w);
    var angle := Times(w, dt);
    var a, b := Quot(e.sin(angle), w), Quot(1.0 - e.cos(angle), Square(w));
    BlockCoupling(Rodrigues(a, b, Skew(omega)), dt, b, Quot(angle - e.sin(angle), Times(Square(w), w)), omega);
  }

  lemma SmallRateCoupling(e: Elementary, dt: real, omega: Vec3)
    requires Norm3(e, omega) < SMALL_RATE
    ensures IsUpper(Phi(e, dt, omega), dt, 0.5 * (dt * dt), omega)
    ensures IsCoupling(Phi(e, dt, omega), dt, 0.5 * (dt * dt), dt * dt * dt / 6.0, omega)
  {
    hide IsCoupling, IsUpper, Block, Rodrigues, Drift, Skew, Norm3, Times, Quot, Square;
    var b := 0.5 * (dt * dt);
    var corner := Drift(dt, b, dt * dt * dt / 6.0, Skew(omega));
    RodriguesIsUpper(dt, b, omega, corner);
    BlockCoupling(Rodrigues(dt, b, Skew(omega)), dt, b, dt * dt * dt / 6.0, omega);
  }

  lemma CoefficientsMatch(sin: real, w: real, dt: real, m: real)
    requires w > 0.0 && w * w == m && Times(Square(w), w) != 0.0
    ensures Times(Quot(Times(w, dt) - sin, Times(Square(w), w)), m) == dt - Quot(sin, w) + 0.0
  {
    var d := Times(w, dt) - sin;
    var y := Quot(d, Times(Square(w), w));
    assert y * Times(Square(w), w) == d;
    assert Square(w) == m;
    TimesThrough(y, m, w);
    assert Times(dt - Quot(sin, w), w) == Times(dt, w) - Times(Quot(sin, w), w);
    assert Times(Quot(sin, w), w) == sin;
    assert Times(dt, w) == Times(w, dt);
    CancelReal(Times(y, m), dt - Quot(sin, w), w);
  }

  lemma TimesThrough(y: real, m: real, w: real)
    ensures Times(Times(y, m), w) == y * Times(m, w)
  {
  }

  /** Entry (i, j) of the coupling block times the rate's cross-product matrix, and entry i along the rate. */
  function CouplingAcross(m: Matrix, w: Vec3, i: int, j: int): real
  {
    Times(Coupling(m, i, 0), SkewAt(w, 0, j)) + Times(Coupling(m, i, 1), SkewAt(w, 1, j)) +
    Times(Coupling(m, i, 2), SkewAt(w, 2, j))
  }

  function CouplingAlong(m: Matrix, w: Vec3, i: int): real
  {
    Times(Coupling(m, i, 0), w.x) + Times(Coupling(m, i, 1), w.y) + Times(Coupling(m, i, 2), w.z)
  }

  /**
   How a bias error turns into an attitude error: across the rate the coupling is what the rotation block
   moves, and along it minus the step. For small rates the series leaves out a third power of the angle.
   */
  lemma CouplingMatchesTurn(e: Elementary, dt: real, omega: Vec3, i: int, j: int)
    requires Lawful(e) && 0 <= i < 3 && 0 <= j < 3
    ensures var (m, short) := (Phi(e, dt, omega),
                               if Norm3(e, omega) < SMALL_RATE then dt * dt * dt / 6.0 * NormSq3(omega) else 0.0);
      CouplingAcross(m, omega, i, j) ==
        At(m, i, j) - (if i == j then 1.0 else 0.0) + Times(short, SkewAt(omega, i, j)) &&
      CouplingAlong(m, omega, i) == -Times(dt, Component(omega, i))
  {
    hide *;
    if Norm3(e, omega) < SMALL_RATE {
      SmallRateMatches(e, dt, omega, i, j);
    } else {
      LargeRateMatches(e, dt, omega, i, j);
    }
  }

  lemma MatchesIs(m: Matrix, t: real, a: real, b: real, y: real, w: Vec3, i: int, j: int, short: real)
    requires IsCoupling(m, t, b, y, w) && IsUpper(m, a, b, w) && 0 <= i < 3 && 0 <= j < 3
    requires Times(y, NormSq3(w)) == t - a + short
    ensures CouplingAcross(m, w, i, j) == At(m, i, j) - (if i == j then 1.0 else 0.0) + Times(short, SkewAt(w, i, j))
    ensures CouplingAlong(m, w, i) == -Times(t, Component(w, i))
  {
    CouplingIs(m, t, a, b, y, w, i, j, short);
    hide Times, SkewAt, Coupling, IsCoupling, NormSq3;
  }

  lemma SmallRateMatches(e: Elementary, dt: real, omega: Vec3, i: int, j: int)
    requires Norm3(e, omega) < SMALL_RATE && 0 <= i < 3 && 0 <= j < 3
    ensures var (m, short) := (Phi(e, dt, omega), dt * dt * dt / 6.0 * NormSq3(omega));
      CouplingAcross(m, omega, i, j) ==
        At(m, i, j) - (if i == j then 1.0 else 0.0) + Times(short, SkewAt(omega, i, j)) &&
      CouplingAlong(m, omega, i) == -Times(dt, Component(omega, i))
  {
    hide Phi, IsCoupling, IsUpper, CouplingAcross, CouplingAlong, NormSq3, SkewAt, Norm3, Component;
    SmallRateCoupling(e, dt, omega);
    var short := dt * dt * dt / 6.0 * NormSq3(omega);
    assert Times(dt * dt * dt / 6.0, NormSq3(omega)) == dt - dt + short;
    MatchesIs(Phi(e, dt, omega), dt, dt, 0.5 * (dt * dt), dt * dt * dt / 6.0, omega, i, j, short);
  }

  lemma LargeRateMatches(e: Elementary, dt: real, omega: Vec3, i: int, j: int)
    requires Lawful(e) && Norm3(e, omega) >= SMALL_RATE && 0 <= i < 3 && 0 <= j < 3
    ensures var m := Phi(e, dt, omega);
      CouplingAcross(m, omega, i, j) ==
        At(m, i, j) - (if i == j then 1.0 else 0.0) + Times(0.0, SkewAt(omega, i, j)) &&
      CouplingAlong(m, omega, i) == -Times(dt, Component(omega, i))
  {
    hide *;
    var w := Norm3(e, omega);
    var angle := Times(w, dt);
    LargeRateCoupling(e, dt, omega);
    LargeRateUpper(e, dt, omega);
    NormIsRoot(e, omega);
    RootIs(w, NormSq3(omega));
    CoefficientsMatch(e.sin(angle), w, dt, NormSq3(omega));
    MatchesIs(Phi(e, dt, omega), dt, Quot(e.sin(angle), w), Quot(1.0 - e.cos(angle), Square(w)),
              Quot(angle - e.sin(angle), Times(Square(w), w)), omega, i, j, 0.0);
  }

  lemma RootIs(n: real, m: real)
    requires IsSqrt(n, m)
    ensures n * n == m
  {
  }

  // ----- the reset map -----

  /** The reset map turns the attitude part by half the increment's cross product, and keeps the bias part. */
  lemma ResetMapActs(d: Vec3, x: Matrix, i: int)
    requires Dim(x, 6, 1) && 0 <= i < 6
    ensures At(Mul(ResetMap(d), x), i, 0) ==
            if i < 3 then Component(Head(x), i) - 0.5 * Component(Cross(d, Head(x)), i) else At(x, i, 0)
  {
    hide Mul, Sum, Transpose;
    SumOfSix(Term(ResetMap(d), x, i, 0));
    if i < 3 {
      ResetRow(d, x, i);
    } else {
      KeptRow(d, x, i);
    }
  }

  lemma ResetRow(d: Vec3, x: Matrix, i: int)
    requires Dim(x, 6, 1) && 0 <= i < 3
    ensures var t := Term(ResetMap(d), x, i, 0);
      t(0) + t(1) + t(2) + t(3) + t(4) + t(5) == Component(Head(x), i) - 0.5 * Component(Cross(d, Head(x)), i)
  {
    hide ResetMap;
    ResetEntries(d, i);
    HalfCross(d, Head(x), i);
  }

  lemma HalfCross(d: Vec3, u: Vec3, i: int)
    requires 0 <= i < 3
    ensures ((if i == 0 then 1.0 else 0.0) - 0.5 * SkewAt(d, i, 0)) * u.x +
            ((if i == 1 then 1.0 else 0.0) - 0.5 * SkewAt(d, i, 1)) * u.y +
            ((if i == 2 then 1.0 else 0.0) - 0.5 * SkewAt(d, i, 2)) * u.z ==
            Component(u, i) - 0.5 * Component(Cross(d, u), i)
  {
  }

  lemma ResetEntries(d: Vec3, i: int)
    requires 0 <= i < 3
    ensures forall k :: 0 <= k < 6 ==>
              At(ResetMap(d), i, k) == if k < 3 then (if i == k then 1.0 else 0.0) - 0.5 * SkewAt(d, i, k) else 0.0
  {
    forall k | 0 <= k < 3
      ensures At(Skew(d), i, k) == SkewAt(d, i, k)
    {
      SkewEntry(d, i, k);
    }
  }

  lemma KeptRow(d: Vec3, x: Matrix, i: int)
    requires Dim(x, 6, 1) && 3 <= i < 6
    ensures var t := Term(ResetMap(d), x, i, 0); t(0) + t(1) + t(2) + t(3) + t(4) + t(5) == At(x, i, 0)
  {
    KeptEntries(d, i);
  }

  lemma KeptEntries(d: Vec3, i: int)
    requires 3 <= i < 6
    ensures forall k :: 0 <= k < 6 ==> At(ResetMap(d), i, k) == if i == k then 1.0 else 0.0
  {
  }

  // ----- small angles -----

  /** Sine lies between its first two partial sums. */
  predicate SineBetween(e: Elementary, x: real)
  {
    x - x * x * x / 6.0 <= e.sin(x) <= x
  }

  /** Both branches of the half-angle factor are within a 48th of the square of the angle below one half. */
  lemma HalfSincBetween(e: Elementary, theta: real)
    requires theta > 0.0 && SineBetween(e, Half(theta))
    ensures 0.5 - Square(theta) / 48.0 <= HalfSinc(e, theta) <= 0.5
  {
    if theta > SMALL_ANGLE {
      var k := Quot(e.sin(Half(theta)), theta);
      assert k * theta == e.sin(Half(theta));
      QuotientBetween(k, theta, Half(theta));
    }
  }

  lemma QuotientBetween(k: real, t: real, h: real)
    requires t > 0.0 && h == t / 2.0 && h - h * h * h / 6.0 <= k * t <= h
    ensures 0.5 - Square(t) / 48.0 <= k <= 0.5
  {
    var low := 0.5 - Square(t) / 48.0;
    CubeOfHalf(t, h);
    if k < low {
      PositiveProduct(low - k, t);
      TimesLess(low, k, t);
    }
    if k > 0.5 {
      PositiveProduct(k - 0.5, t);
      TimesLess(k, 0.5, t);
    }
  }

  lemma TimesLess(a: real, b: real, t: real)
    ensures Times(a - b, t) == a * t - b * t
  {
  }

  lemma CubeOfHalf(t: real, h: real)
    requires h == t / 2.0
    ensures (0.5 - Square(t) / 48.0) * t == h - h * h * h / 6.0
  {
  }
}
