/**
 The trigonometric parts of the filter, over sine, cosine and square root as parameters: the transition
 matrix, the propagation quaternion, and the rotation a correction applies.
 */
module MekfTrig {
  import opened Products
  import opened Matrices
  import opened Innovation
  import opened Quaternions
  import opened Mekf

  datatype Elementary = Elementary(sin: real -> real, cos: real -> real, root: real -> real, pi: real)

  predicate OnCircle(e: Elementary, x: real)
  {
    Square(e.sin(x)) + Square(e.cos(x)) == 1.0
  }

  predicate RootOf(e: Elementary, x: real)
  {
    IsSqrt(e.root(x), x)
  }

  /** The few facts used of sine, cosine and square root. */
  ghost predicate Lawful(e: Elementary)
  {
    (forall x :: OnCircle(e, x)) && e.cos(0.0) == 1.0 && (forall x :: x >= 0.0 ==> RootOf(e, x)) && 0.0 < e.pi < 180.0
  }

  function Quot(a: real, b: real): real
    requires b != 0.0
  {
    a / b
  }

  function Half(a: real): real
  {
    a / 2.0
  }

  function Scaled(k: real, v: Vec3): Vec3
  {
    Vec3(Times(k, v.x), Times(k, v.y), Times(k, v.z))
  }

  function NormSq3(v: Vec3): (n: real)
    ensures n >= 0.0
  {
    Square(v.x) + Square(v.y) + Square(v.z)
  }

  function Norm3(e: Elementary, v: Vec3): real
  {
    e.root(NormSq3(v))
  }

  /** A vector part along v, and a scalar. */
  function Along(k: real, v: Vec3, c: real): Quat
  {
    Quat(Times(k, v.x), Times(k, v.y), Times(k, v.z), c)
  }

  /** The rotation by an angle in radians about the direction of a vector. */
  function RotationBy(e: Elementary, v: Vec3, angle: real): Quat
    requires Norm3(e, v) != 0.0
  {
    Along(Quot(e.sin(Half(angle)), Norm3(e, v)), v, e.cos(Half(angle)))
  }

  // ----- norms -----

  lemma RootPositive(e: Elementary, x: real)
    requires Lawful(e) && x > 0.0
    ensures e.root(x) > 0.0 && IsSqrt(e.root(x), x)
  {
    assert RootOf(e, x);
  }

  lemma NormIsRoot(e: Elementary, v: Vec3)
    requires Lawful(e)
    ensures IsSqrt(Norm3(e, v), NormSq3(v))
  {
    assert RootOf(e, NormSq3(v));
  }

  lemma RootOfOne(e: Elementary)
    requires Lawful(e)
    ensures e.root(1.0) == 1.0
  {
    RootPositive(e, 1.0);
    SqrtOfOne(e.root(1.0));
  }

  lemma NormalizeByRoot(e: Elementary, q: Quat)
    requires Lawful(e) && NormSq(q) != 0.0
    ensures e.root(NormSq(q)) > 0.0 && Unit(Normalize(q, e.root(NormSq(q))))
    ensures NormSq(q) == 1.0 ==> Normalize(q, e.root(NormSq(q))) == q
  {
    NormSqNonNegative(q);
    RootPositive(e, NormSq(q));
    NormalizeUnit(q, e.root(NormSq(q)));
    RootOfOne(e);
    NormalizeByOne(q);
  }

  lemma NormSqNonNegative(q: Quat)
    ensures NormSq(q) >= 0.0
  {
    SquareSign(q.x);
    SquareSign(q.y);
    SquareSign(q.z);
    SquareSign(q.s);
  }

  /** The norms of a scaled vector and of a quaternion along a vector. */
  lemma NormScaled(k: real, v: Vec3)
    ensures NormSq3(Scaled(k, v)) == Times(Times(k, k), NormSq3(v))
  {
    SquareTimes(k, v.x);
    SquareTimes(k, v.y);
    SquareTimes(k, v.z);
    DistributeThree(Times(k, k), Square(v.x), Square(v.y), Square(v.z));
    hide Times;
  }

  lemma NormAlong(k: real, v: Vec3, c: real)
    ensures NormSq(Along(k, v, c)) == Times(Times(k, k), NormSq3(v)) + Square(c)
  {
    NormScaled(k, v);
    FourSquaresOf(Times(k, v.x), Times(k, v.y), Times(k, v.z), c);
    hide Times, Square, NormSq;
  }

  lemma FourSquaresOf(x: real, y: real, z: real, c: real)
    ensures NormSq(Quat(x, y, z, c)) == Square(x) + Square(y) + Square(z) + Square(c)
  {
  }

  lemma SquareTimes(k: real, x: real)
    ensures Times(Times(k, x), Times(k, x)) == Times(Times(k, k), Times(x, x))
  {
  }

  lemma DistributeThree(k: real, a: real, b: real, c: real)
    ensures Times(k, a + b + c) == Times(k, a) + Times(k, b) + Times(k, c)
  {
  }

  /** Scaled so, a quaternion along a vector lies on the unit sphere. */
  lemma AlongUnit(s: real, v: Vec3, c: real, n: real)
    requires n > 0.0 && IsSqrt(n, NormSq3(v)) && Square(s) + Square(c) == 1.0
    ensures NormSq(Along(Quot(s, n), v, c)) == 1.0
  {
    hide Times, Square, NormSq, NormSq3, Along, Quot;
    NormAlong(Quot(s, n), v, c);
    QuotientSquare(s, n, NormSq3(v));
  }

  lemma QuotientSquare(s: real, n: real, m: real)
    requires n > 0.0 && n * n == m
    ensures Times(Times(Quot(s, n), Quot(s, n)), m) == Square(s)
  {
    var k := Quot(s, n);
    assert k * n == s;
    Rearrange(k, n, m);
    assert Times(k * n, k * n) == Times(s, s);
  }

  lemma Rearrange(k: real, n: real, m: real)
    requires n * n == m
    ensures Times(Times(k, k), m) == Times(k * n, k * n)
  {
    assert Times(Times(k, k), m) == Times(Times(k, k), n * n);
  }

  // ----- propagation -----

  const SMALL_ANGLE := 0.00000001
  const SMALL_RATE := 0.000001
  const SMALL_CORRECTION := 0.000000000001

  /** `sin(theta / 2) / theta`, by its series for small angles. */
  function HalfSinc(e: Elementary, theta: real): real
  {
    if theta > SMALL_ANGLE then Quot(e.sin(Half(theta)), theta) else 0.5 - Square(theta) / 48.0
  }

  function Delta(e: Elementary, dt: real, omega: Vec3): Quat
  {
    var theta := Times(Norm3(e, omega), dt);
    Along(Times(HalfSinc(e, theta), dt), omega, e.cos(Half(theta)))
  }

  /** The propagation quaternion. Only a negative dt could make the division be by zero; nothing is claimed then. */
  function Turn(e: Elementary, dt: real, omega: Vec3): UnitQuat
    requires Lawful(e)
  {
    var d := Delta(e, dt, omega);
    if NormSq(d) == 0.0 then Quat(0.0, 0.0, 0.0, 1.0)
    else
      NormalizeByRoot(e, d);
      Normalize(d, e.root(NormSq(d)))
  }

  function Rodrigues(a: real, b: real, s: Matrix): (m: Matrix)
    requires Dim(s, 3, 3)
    ensures Dim(m, 3, 3)
  {
    Add(Sub(Identity(3), Scale(a, s)), Scale(b, Mul(s, s)))
  }

  function Drift(dt: real, x: real, y: real, s: Matrix): (m: Matrix)
    requires Dim(s, 3, 3)
    ensures Dim(m, 3, 3)
  {
    Sub(Sub(Scale(x, s), Scale(dt, Identity(3))), Scale(y, Mul(s, s)))
  }

  /** `phi_matrix`. */
  function Phi(e: Elementary, dt: real, omega: Vec3): Matrix66
  {
    var s, w := Skew(omega), Norm3(e, omega);
    var angle := Times(w, dt);
    if w < SMALL_RATE then
      Block(Rodrigues(dt, 0.5 * (dt * dt), s), Drift(dt, 0.5 * (dt * dt), dt * dt * dt / 6.0, s),
            Zero3(), Identity(3))
    else
      PositiveProduct(Square(w), w);
      Block(Rodrigues(Quot(e.sin(angle), w), Quot(1.0 - e.cos(angle), Square(w)), s),
            Drift(dt, Quot(1.0 - e.cos(angle), Square(w)), Quot(angle - e.sin(angle), Times(Square(w), w)), s),
            Zero3(), Identity(3))
  }

  /** The norm of the propagation quaternion before it is normalised. */
  lemma DeltaNorm(e: Elementary, dt: real, omega: Vec3)
    requires Lawful(e)
    ensures var theta := Times(Norm3(e, omega), dt);
      NormSq(Delta(e, dt, omega)) == Times(Square(HalfSinc(e, theta)), Square(theta)) + Square(e.cos(Half(theta)))
  {
    var n, theta := Norm3(e, omega), Times(Norm3(e, omega), dt);
    hide Times, Square, NormSq, NormSq3, Norm3, HalfSinc, Lawful;
    NormIsRoot(e, omega);
    NormAlong(Times(HalfSinc(e, theta), dt), omega, e.cos(Half(theta)));
    Regrouped(HalfSinc(e, theta), dt, n, NormSq3(omega));
  }

  lemma Regrouped(h: real, dt: real, n: real, m: real)
    requires n * n == m
    ensures Times(Times(Times(h, dt), Times(h, dt)), m) == Times(Square(h), Square(Times(n, dt)))
  {
    assert Times(Times(Times(h, dt), Times(h, dt)), m) == Times(Times(Times(h, dt), Times(h, dt)), n * n);
  }

  /** For every step forward in time the division is by a positive number. */
  lemma TurnDefined(e: Elementary, dt: real, omega: Vec3)
    requires Lawful(e) && dt >= 0.0
    ensures NormSq(Delta(e, dt, omega)) > 0.0
    ensures Times(Norm3(e, omega), dt) > SMALL_ANGLE ==> NormSq(Delta(e, dt, omega)) == 1.0
  {
    var theta := Times(Norm3(e, omega), dt);
    assert RootOf(e, NormSq3(omega));
    NonNegativeProduct(Norm3(e, omega), dt);
    DeltaNorm(e, dt, omega);
    var c := e.cos(Half(theta));
    assert OnCircle(e, Half(theta));
    hide NormSq, Delta, Norm3;
    if theta > SMALL_ANGLE {
      CancelAngle(e.sin(Half(theta)), theta);
    } else if theta > 0.0 {
      SmallAngle(theta);
      PositiveProduct(Square(HalfSinc(e, theta)), Square(theta));
    } else {
      assert Half(theta) == 0.0;
      CosineAtZero(c, HalfSinc(e, theta), theta);
    }
  }

  lemma CancelAngle(s: real, theta: real)
    requires theta != 0.0
    ensures Times(Square(Quot(s, theta)), Square(theta)) == Square(s)
  {
    var k := Quot(s, theta);
    assert k * theta == s;
    SquareTimes(k, theta);
    assert Times(k, theta) == s;
  }

  lemma SmallAngle(theta: real)
    requires 0.0 < theta <= SMALL_ANGLE
    ensures 0.5 - Square(theta) / 48.0 > 0.0
  {
    PositiveProduct(theta, 1.0 - theta);
    assert Times(theta, 1.0 - theta) == theta - Times(theta, theta);
  }

  lemma CosineAtZero(c: real, h: real, theta: real)
    requires c == 1.0 && theta == 0.0
    ensures Times(Square(h), Square(theta)) + Square(c) == 1.0
  {
    assert Square(theta) == 0.0 && Square(c) == 1.0;
  }

  /** Beyond small angles normalising changes nothing: the step is the exact rotation about the rate. */
  lemma TurnIsRotation(e: Elementary, dt: real, omega: Vec3)
    requires Lawful(e) && dt >= 0.0 && Times(Norm3(e, omega), dt) > SMALL_ANGLE
    ensures Norm3(e, omega) != 0.0
    ensures Turn(e, dt, omega) == RotationBy(e, omega, Times(Norm3(e, omega), dt))
  {
    var n, theta := Norm3(e, omega), Times(Norm3(e, omega), dt);
    TurnDefined(e, dt, omega);
    NormalizeByRoot(e, Delta(e, dt, omega));
    CancelStep(e.sin(Half(theta)), n, dt);
    hide Times, Quot, NormSq, Normalize, Norm3, Lawful, Half;
  }

  lemma CancelStep(s: real, n: real, dt: real)
    requires Times(n, dt) != 0.0
    ensures n != 0.0 && Times(Quot(s, Times(n, dt)), dt) == Quot(s, n)
  {
    var q := s / (n * dt);
    assert q * (n * dt) == s;
    CancelReal(q * dt, s / n, n) by {
      assert Times(q * dt, n) == q * (n * dt);
      assert Times(s / n, n) == s;
    }
  }

  // ----- corrections -----

  function Radians(e: Elementary, degrees: real): real
  {
    degrees * e.pi / 180.0
  }

  /** `axis_angle_to_quaternion`, which takes its angle in degrees. */
  function AxisAngle(e: Elementary, axis: Vec3, degrees: real): Quat
    requires Lawful(e) && NormSq3(axis) > 0.0
  {
    RootPositive(e, NormSq3(axis));
    var q := RotationBy(e, axis, Radians(e, degrees));
    RotationUnit(e, axis, Radians(e, degrees));
    NormalizeByRoot(e, q);
    Normalize(q, e.root(NormSq(q)))
  }

  lemma RotationUnit(e: Elementary, v: Vec3, angle: real)
    requires Lawful(e) && NormSq3(v) > 0.0
    ensures Norm3(e, v) > 0.0 && NormSq(RotationBy(e, v, angle)) == 1.0
  {
    RootPositive(e, NormSq3(v));
    assert OnCircle(e, Half(angle));
    AlongUnit(e.sin(Half(angle)), v, e.cos(Half(angle)), Norm3(e, v));
  }

  /** The rotation of a correction: its angle, in radians, is handed on as degrees. */
  function Rotation(e: Elementary, dTheta: Vec3): UnitQuat
    requires Lawful(e)
  {
    var theta := Norm3(e, dTheta);
    if theta < SMALL_CORRECTION then Quat(0.0, 0.0, 0.0, 1.0)
    else
      var axis := Scaled(Quot(1.0, theta), dTheta);
      UnitAxis(e, dTheta);
      AxisAngleIs(e, axis, theta);
      AxisAngle(e, axis, theta)
  }

  lemma UnitAxis(e: Elementary, v: Vec3)
    requires Lawful(e) && Norm3(e, v) > 0.0
    ensures NormSq3(Scaled(Quot(1.0, Norm3(e, v)), v)) == 1.0
  {
    hide Square, Times, Scaled, NormSq3, Norm3, Lawful, Quot;
    NormIsRoot(e, v);
    NormScaled(Quot(1.0, Norm3(e, v)), v);
    QuotientSquare(1.0, Norm3(e, v), NormSq3(v));
    SquareOfOne();
  }

  lemma SquareOfOne()
    ensures Square(1.0) == 1.0
  {
  }

  lemma AxisAngleIs(e: Elementary, axis: Vec3, degrees: real)
    requires Lawful(e) && NormSq3(axis) == 1.0
    ensures Norm3(e, axis) == 1.0
    ensures AxisAngle(e, axis, degrees) == RotationBy(e, axis, Radians(e, degrees)) && Unit(AxisAngle(e, axis, degrees))
  {
    RootOfOne(e);
    RotationUnit(e, axis, Radians(e, degrees));
    NormalizeByRoot(e, RotationBy(e, axis, Radians(e, degrees)));
    hide Lawful, NormSq3, RotationBy, NormSq, Normalize, Radians;
  }

  /** A correction by theta radians rotates by theta degrees. */
  lemma CorrectionRotatesByDegrees(e: Elementary, dTheta: Vec3)
    requires Lawful(e) && Norm3(e, dTheta) >= SMALL_CORRECTION
    ensures Rotation(e, dTheta) == RotationBy(e, dTheta, Radians(e, Norm3(e, dTheta)))
  {
    hide Lawful, NormSq3, AxisAngle, Norm3, Times, Scaled, Along, Radians, Quot, Half;
    var theta := Norm3(e, dTheta);
    UnitAxis(e, dTheta);
    AxisAngleIs(e, Scaled(Quot(1.0, theta), dTheta), theta);
    var half := Half(Radians(e, theta));
    DivideByOne(e.sin(half), Norm3(e, Scaled(Quot(1.0, theta), dTheta)));
    AlongScaled(e.sin(half), theta, dTheta, e.cos(half));
  }

  lemma DivideByOne(a: real, n: real)
    requires n == 1.0
    ensures Quot(a, n) == a
  {
  }

  lemma AlongScaled(s: real, n: real, v: Vec3, c: real)
    requires n != 0.0
    ensures Along(s, Scaled(Quot(1.0, n), v), c) == Along(Quot(s, n), v, c)
  {
    ScaleTwice(s, n, v.x);
    ScaleTwice(s, n, v.y);
    ScaleTwice(s, n, v.z);
    hide Times, Quot;
  }

  lemma ScaleTwice(s: real, n: real, x: real)
    requires n != 0.0
    ensures Times(s, Times(Quot(1.0, n), x)) == Times(Quot(s, n), x)
  {
    assert s * (1.0 / n) == s / n;
  }

  /** Two angles with the same sine and cosine, and two with opposite ones. */
  predicate SameAngle(e: Elementary, x: real, y: real)
  {
    e.sin(x) == e.sin(y) && e.cos(x) == e.cos(y)
  }

  predicate OppositeAngle(e: Elementary, x: real, y: real)
  {
    e.sin(x) == -e.sin(y) && e.cos(x) == -e.cos(y)
  }

  predicate TurnsApart(e: Elementary, x: real, y: real, k: int)
  {
    x - y == Times(2.0 * e.pi, k as real)
  }

  /** Sine and cosine agree exactly at angles whole turns apart, and change sign after half a turn. */
  ghost predicate Periodic(e: Elementary)
  {
    (forall x, y :: SameAngle(e, x, y) <==> exists k: int :: TurnsApart(e, x, y, k)) &&
    forall x :: HalfTurnNegates(e, x)
  }

  predicate HalfTurnNegates(e: Elementary, x: real)
  {
    OppositeAngle(e, x + e.pi, x)
  }

  /** Taking theta radians for degrees loses k half turns. */
  predicate LosesHalfTurns(e: Elementary, theta: real, k: int)
  {
    Times(theta, 180.0 - e.pi) == Times(360.0 * e.pi, k as real)
  }

  lemma LossOf(e: Elementary, theta: real, k: int)
    ensures TurnsApart(e, Half(theta), Half(Radians(e, theta)), k) <==> LosesHalfTurns(e, theta, 2 * k)
    ensures TurnsApart(e, Half(theta), Half(Radians(e, theta)) + e.pi, k) <==> LosesHalfTurns(e, theta, 2 * k + 1)
  {
    var t, p, n := Times(theta, e.pi), e.pi, k as real;
    assert Half(Radians(e, theta)) == t / 360.0;
    assert Times(theta, 180.0 - p) == 180.0 * theta - t;
    assert Times(2.0 * p, n) == 2.0 * Times(p, n);
    assert (2 * k) as real == 2.0 * n && (2 * k + 1) as real == 2.0 * n + 1.0;
    MultipleOfPi(p, n);
  }

  lemma MultipleOfPi(p: real, n: real)
    ensures Times(360.0 * p, 2.0 * n) == 720.0 * Times(p, n)
    ensures Times(360.0 * p, 2.0 * n + 1.0) == 720.0 * Times(p, n) + 360.0 * p
  {
  }

  lemma HalfTurnsLost(e: Elementary, theta: real)
    requires Lawful(e) && Periodic(e)
    ensures var (x, y) := (Half(theta), Half(Radians(e, theta)));
      (SameAngle(e, x, y) <==> exists k: int :: LosesHalfTurns(e, theta, 2 * k)) &&
      (OppositeAngle(e, x, y) <==> exists k: int :: LosesHalfTurns(e, theta, 2 * k + 1))
  {
    var x, y := Half(theta), Half(Radians(e, theta));
    hide Lawful, Half, Radians, TurnsApart, LosesHalfTurns;
    assert HalfTurnNegates(e, y);
    assert OppositeAngle(e, x, y) <==> SameAngle(e, x, y + e.pi);
    forall k: int
      ensures TurnsApart(e, x, y, k) <==> LosesHalfTurns(e, theta, 2 * k)
      ensures TurnsApart(e, x, y + e.pi, k) <==> LosesHalfTurns(e, theta, 2 * k + 1)
    {
      LossOf(e, theta, k);
    }
    if OppositeAngle(e, x, y) {
      var k: int :| TurnsApart(e, x, y + e.pi, k);
      assert LosesHalfTurns(e, theta, 2 * k + 1);
    }
    if k: int :| LosesHalfTurns(e, theta, 2 * k + 1) {
      assert TurnsApart(e, x, y + e.pi, k);
    }
  }

  /** Two quaternions along one vector are equal, or opposite, as their factors and scalars are. */
  lemma AlongAgree(a: real, b: real, n: real, v: Vec3, c: real, d: real, x: real)
    requires n != 0.0 && x != 0.0 && (x == v.x || x == v.y || x == v.z)
    ensures Along(Quot(a, n), v, c) == Along(Quot(b, n), v, d) <==> a == b && c == d
    ensures Along(Quot(a, n), v, c) == Negate(Along(Quot(b, n), v, d)) <==> a == -b && c == -d
  {
    hide Times, Quot;
    CancelScaled(a, b, n, x);
    CancelScaled(a, -b, n, x);
    NegatedScaled(b, n, v.x);
    NegatedScaled(b, n, v.y);
    NegatedScaled(b, n, v.z);
  }

  /** The correction's quaternion is the one asked for, or its negation, as its sine and cosine are. */
  lemma CorrectionAgrees(e: Elementary, dTheta: Vec3)
    requires Lawful(e) && Norm3(e, dTheta) >= SMALL_CORRECTION
    ensures var theta := Norm3(e, dTheta);
      var (x, y) := (Half(theta), Half(Radians(e, theta)));
      (Rotation(e, dTheta) == RotationBy(e, dTheta, theta) <==> SameAngle(e, x, y)) &&
      (Rotation(e, dTheta) == Negate(RotationBy(e, dTheta, theta)) <==> OppositeAngle(e, x, y))
  {
    hide Lawful, NormSq3, Rotation, Norm3, Times, Quot, Radians, Half, Along, Negate;
    var theta := Norm3(e, dTheta);
    CorrectionRotatesByDegrees(e, dTheta);
    var x := NonZero(e, dTheta);
    var y := Half(Radians(e, theta));
    AlongAgree(e.sin(y), e.sin(Half(theta)), theta, dTheta, e.cos(y), e.cos(Half(theta)), x);
  }

  lemma NegatedScaled(t: real, n: real, x: real)
    requires n != 0.0
    ensures Times(Quot(-t, n), x) == -Times(Quot(t, n), x)
  {
  }

  /**
   So it is the rotation the increment asks for exactly when the angle it loses, by taking radians for
   degrees, is a multiple of half a turn of the quaternion; and the quaternion itself for whole ones.
   */
  lemma CorrectionRightIff(e: Elementary, dTheta: Vec3)
    requires Lawful(e) && Periodic(e) && Norm3(e, dTheta) >= SMALL_CORRECTION
    ensures var (theta, q) := (Norm3(e, dTheta), Rotation(e, dTheta));
      var asked := RotationBy(e, dTheta, theta);
      (Attitude(q) == Attitude(asked) <==> exists k: int :: LosesHalfTurns(e, theta, k)) &&
      (q == asked <==> exists k: int :: LosesHalfTurns(e, theta, 2 * k))
  {
    var theta := Norm3(e, dTheta);
    CorrectionAgrees(e, dTheta);
    HalfTurnsLost(e, theta);
    AskedUnit(e, dTheta);
    SameAttitudeIff(Rotation(e, dTheta), RotationBy(e, dTheta, theta));
    hide Lawful, Periodic, Rotation, RotationBy, Attitude, LosesHalfTurns, Norm3, SameAngle, OppositeAngle;
    EvenOrOdd(e, theta);
  }

  lemma AskedUnit(e: Elementary, dTheta: Vec3)
    requires Lawful(e) && Norm3(e, dTheta) > 0.0
    ensures Unit(RotationBy(e, dTheta, Norm3(e, dTheta)))
  {
    NormIsRoot(e, dTheta);
    assert OnCircle(e, Half(Norm3(e, dTheta)));
    hide Lawful, NormSq, NormSq3, Norm3, Square;
    AlongUnit(e.sin(Half(Norm3(e, dTheta))), dTheta, e.cos(Half(Norm3(e, dTheta))), Norm3(e, dTheta));
  }

  lemma EvenOrOdd(e: Elementary, theta: real)
    ensures (exists k: int :: LosesHalfTurns(e, theta, k)) <==>
              (exists k: int :: LosesHalfTurns(e, theta, 2 * k)) ||
              (exists k: int :: LosesHalfTurns(e, theta, 2 * k + 1))
  {
    hide LosesHalfTurns;
    if k: int :| LosesHalfTurns(e, theta, k) {
      assert k == 2 * (k / 2) || k == 2 * (k / 2) + 1;
    }
  }

  /** Some component of a vector of positive norm is not zero. */
  lemma NonZero(e: Elementary, v: Vec3) returns (x: real)
    requires Lawful(e) && Norm3(e, v) > 0.0
    ensures x != 0.0 && (x == v.x || x == v.y || x == v.z)
  {
    assert RootOf(e, NormSq3(v));
    x := if v.x != 0.0 then v.x else if v.y != 0.0 then v.y else v.z;
    ZeroNorm(v, Norm3(e, v));
  }

  lemma ZeroNorm(v: Vec3, n: real)
    requires n > 0.0 && n * n == NormSq3(v)
    ensures v.x != 0.0 || v.y != 0.0 || v.z != 0.0
  {
    PositiveProduct(n, n);
    assert Times(n, n) == n * n;
  }

  lemma CancelScaled(a: real, b: real, n: real, x: real)
    requires n != 0.0 && x != 0.0
    ensures Times(Quot(a, n), x) == Times(Quot(b, n), x) <==> a == b
  {
    if Times(Quot(a, n), x) == Times(Quot(b, n), x) {
      CancelReal(a / n, b / n, x);
      assert a / n * n == b / n * n;
    }
  }

  /**
   It never is for an increment of up to a whole turn, for even half a turn of the quaternion is lost only
   by more; and the quaternion is not for one of up to two turns.
   */
  lemma CorrectionRotatesTooLittle(e: Elementary, dTheta: Vec3)
    requires Lawful(e) && Periodic(e)
    requires SMALL_CORRECTION <= Norm3(e, dTheta) <= Times(2.0 * e.pi, 2.0)
    ensures var asked := RotationBy(e, dTheta, Norm3(e, dTheta));
      Rotation(e, dTheta) != asked &&
      (Norm3(e, dTheta) <= Times(2.0 * e.pi, 1.0) ==> Attitude(Rotation(e, dTheta)) != Attitude(asked))
  {
    var theta := Norm3(e, dTheta);
    CorrectionRightIff(e, dTheta);
    forall k: int
      ensures LosesHalfTurns(e, theta, k) ==> k == 1 && theta > Times(2.0 * e.pi, 1.0)
    {
      if LosesHalfTurns(e, theta, k) {
        LosesPart(e.pi, theta, 2, k);
        if theta <= Times(2.0 * e.pi, 1.0) {
          LosesPart(e.pi, theta, 1, k);
        }
      }
    }
    hide Lawful, Periodic, Norm3, Attitude, Rotation, RotationBy, LosesHalfTurns;
  }

  lemma LosesPart(p: real, theta: real, m: nat, k: int)
    requires 0.0 < p < 180.0 && 0.0 < theta <= Times(2.0 * p, m as real) && m >= 1
    requires Times(theta, 180.0 - p) == Times(360.0 * p, k as real)
    ensures 0 < k < m
  {
    var n, b := k as real, m as real;
    PositiveProduct(theta, 180.0 - p);
    if k <= 0 {
      NonPositiveProduct(360.0 * p, n);
    }
    if k >= m {
      NonNegativeProduct(360.0 * p, n - b);
      assert Times(360.0 * p, n - b) == Times(360.0 * p, n) - Times(360.0 * p, b);
      NonNegativeProduct(Times(2.0 * p, b) - theta, 180.0 - p);
      PositiveProduct(2.0 * p, b);
      PositiveProduct(Times(2.0 * p, b), p);
      TurnLess(p, theta, Times(2.0 * p, b), b);
    }
  }

  lemma NonPositiveProduct(a: real, b: real)
    requires a >= 0.0 && b <= 0.0
    ensures Times(a, b) <= 0.0
  {
    NonNegativeProduct(a, -b);
    assert Times(a, -b) == -Times(a, b);
  }

  lemma TurnLess(p: real, theta: real, t: real, b: real)
    requires t == Times(2.0 * p, b)
    ensures Times(t - theta, 180.0 - p) == Times(360.0 * p, b) - Times(t, p) - Times(theta, 180.0 - p)
  {
    assert Times(360.0 * p, b) == 180.0 * t;
  }

  // ----- the covariance turns with the attitude -----

  predicate DoubleAngle(e: Elementary, theta: real)
  {
    var s, c := e.sin(Half(theta)), e.cos(Half(theta));
    e.sin(theta) == 2.0 * Times(s, c) && e.cos(theta) == Square(c) - Square(s)
  }

  function Entries(d: Dcm): (m: Matrix)
    ensures Dim(m, 3, 3)
  {
    [[d.m00, d.m01, d.m02], [d.m10, d.m11, d.m12], [d.m20, d.m21, d.m22]]
  }

  /** The entries of a cross-product matrix and of its square. */
  function SkewAt(v: Vec3, i: int, j: int): real
  {
    if i == 0 && j == 1 then -v.z else if i == 1 && j == 0 then v.z
    else if i == 1 && j == 2 then -v.x else if i == 2 && j == 1 then v.x
    else if i == 2 && j == 0 then -v.y else if i == 0 && j == 2 then v.y
    else 0.0
  }

  function SkewSquaredAt(v: Vec3, i: int, j: int): real
  {
    if i == 0 && j == 0 then -Square(v.y) - Square(v.z)
    else if i == 1 && j == 1 then -Square(v.z) - Square(v.x)
    else if i == j then -Square(v.x) - Square(v.y)
    else if i + j == 1 then Times(v.x, v.y)
    else if i + j == 2 then Times(v.z, v.x)
    else Times(v.y, v.z)
  }

  lemma SkewEntry(v: Vec3, i: int, j: int)
    requires 0 <= i < 3 && 0 <= j < 3
    ensures At(Skew(v), i, j) == SkewAt(v, i, j)
  {
  }

  lemma MulEntry(s: Matrix, i: int, j: int)
    requires Dim(s, 3, 3) && 0 <= i < 3 && 0 <= j < 3
    ensures At(Mul(s, s), i, j) ==
            Times(At(s, i, 0), At(s, 0, j)) + Times(At(s, i, 1), At(s, 1, j)) + Times(At(s, i, 2), At(s, 2, j))
  {
    SumOfThree(Term(s, s, i, j));
  }

  lemma SkewSquared(v: Vec3, i: int, j: int)
    requires 0 <= i < 3 && 0 <= j < 3
    ensures At(Mul(Skew(v), Skew(v)), i, j) == SkewSquaredAt(v, i, j)
  {
    hide Skew, Mul, At, Times, SkewAt, SkewSquaredAt;
    MulEntry(Skew(v), i, j);
    forall k | 0 <= k < 3
      ensures At(Skew(v), i, k) == SkewAt(v, i, k) && At(Skew(v), k, j) == SkewAt(v, k, j)
    {
      SkewEntry(v, i, k);
      SkewEntry(v, k, j);
    }
    SkewProducts(v, i, j);
  }

  lemma SkewProducts(v: Vec3, i: int, j: int)
    requires 0 <= i < 3 && 0 <= j < 3
    ensures Times(SkewAt(v, i, 0), SkewAt(v, 0, j)) + Times(SkewAt(v, i, 1), SkewAt(v, 1, j)) +
            Times(SkewAt(v, i, 2), SkewAt(v, 2, j)) == SkewSquaredAt(v, i, j)
  {
    ProductSigns(v.x, v.y);
    ProductSigns(v.y, v.z);
    ProductSigns(v.z, v.x);
    hide Times;
  }

  /** Products of entries, as functions of the components. */
  lemma ProductSigns(x: real, y: real)
    ensures Times(-x, x) == -Square(x) == Times(x, -x) && Times(-y, y) == -Square(y) == Times(y, -y)
    ensures Times(-x, -y) == Times(-y, -x) == Times(x, y) == Times(y, x)
    ensures Times(0.0, x) == 0.0 == Times(x, 0.0) && Times(0.0, -x) == 0.0 == Times(-x, 0.0) && Times(0.0, 0.0) == 0.0
  {
  }

  /** The factors of the Rodrigues formula by half angles: with k = sin(h) / w, they are 2 k cos(h) and 2 k k. */
  lemma HalfAngleFactors(sin: real, cos: real, s: real, c: real, w: real)
    requires w != 0.0 && Square(s) + Square(c) == 1.0
    requires sin == 2.0 * Times(s, c) && cos == Square(c) - Square(s)
    ensures var k := Quot(s, w);
      Quot(sin, w) == 2.0 * Times(k, c) && Quot(1.0 - cos, Square(w)) == 2.0 * Times(k, k)
  {
    var k := Quot(s, w);
    SineFactor(sin, s, c, w, k);
    CosineFactor(1.0 - cos, s, w, k);
  }

  lemma SineFactor(sin: real, s: real, c: real, w: real, k: real)
    requires w != 0.0 && k == s / w && sin == 2.0 * Times(s, c)
    ensures Quot(sin, w) == 2.0 * Times(k, c)
  {
    assert k * w == s;
    assert Times(k * w, c) == Times(k, c) * w;
    CancelFactor(Quot(sin, w), 2.0 * Times(k, c), w, sin);
  }

  lemma CosineFactor(m: real, s: real, w: real, k: real)
    requires w != 0.0 && k == s / w && m == 2.0 * Square(s)
    ensures Quot(m, Square(w)) == 2.0 * Times(k, k)
  {
    assert k * w == s;
    assert Times(k * w, k * w) == Times(k, k) * Square(w);
    CancelFactor(Quot(m, Square(w)), 2.0 * Times(k, k), Square(w), m);
  }

  lemma CancelFactor(a: real, b: real, w: real, m: real)
    requires w != 0.0 && a * w == m && b * w == m
    ensures a == b
  {
    CancelReal(a, b, w) by {
      assert Times(a, w) == Times(b, w);
    }
  }

  lemma DiagonalEntry(a: real, b: real, k: real, x: real, y: real, z: real, c: real)
    requires b == 2.0 * Times(k, k) && Times(Times(k, k), Square(x) + Square(y) + Square(z)) + Square(c) == 1.0
    ensures 1.0 - Times(a, 0.0) + Times(b, -Square(y) - Square(z)) == Diagonal(Times(k, x), Times(k, y), Times(k, z), c)
  {
    DistributeThree(Times(k, k), Square(x), Square(y), Square(z));
    SquareTimes(k, x);
    SquareTimes(k, y);
    SquareTimes(k, z);
    TwiceDistributes(b, Times(k, k), Square(y), Square(z));
    DiagonalOfSquares(Times(k, x), Times(k, y), Times(k, z), c);
    hide Times, Square, Diagonal;
    assert Times(a, 0.0) == 0.0 by { ZeroTimes(a); }
  }

  lemma ZeroTimes(a: real)
    ensures Times(a, 0.0) == 0.0
  {
  }

  lemma TwiceDistributes(b: real, q: real, y: real, z: real)
    requires b == 2.0 * q
    ensures Times(b, -y - z) == -2.0 * Times(q, y) - 2.0 * Times(q, z)
  {
  }

  lemma DiagonalOfSquares(x: real, y: real, z: real, c: real)
    ensures Diagonal(x, y, z, c) == Square(c) + Times(x, x) - Times(y, y) - Times(z, z)
  {
  }

  lemma OffDiagonalEntries(a: real, b: real, k: real, x: real, y: real, z: real, c: real)
    requires a == 2.0 * Times(k, c) && b == 2.0 * Times(k, k)
    ensures 0.0 - Times(a, -z) + Times(b, Times(x, y)) == Upper(Times(k, x), Times(k, y), Times(k, z), c)
    ensures 0.0 - Times(a, z) + Times(b, Times(x, y)) == Lower(Times(k, x), Times(k, y), Times(k, z), c)
  {
    assert Times(b, Times(x, y)) == 2.0 * Times(Times(k, x), Times(k, y));
    assert Times(a, z) == 2.0 * Times(c, Times(k, z)) && Times(a, -z) == -Times(a, z);
  }

  lemma RodriguesEntry(a: real, b: real, s: Matrix, i: int, j: int)
    requires Dim(s, 3, 3) && 0 <= i < 3 && 0 <= j < 3
    ensures At(Rodrigues(a, b, s), i, j) ==
            (if i == j then 1.0 else 0.0) - Times(a, At(s, i, j)) + Times(b, At(Mul(s, s), i, j))
  {
    hide Mul, At;
  }

  /** The Rodrigues matrix with those factors is the attitude matrix of the quaternion along v. */
  lemma RodriguesIsAttitude(a: real, b: real, k: real, v: Vec3, c: real, i: int, j: int)
    requires 0 <= i < 3 && 0 <= j < 3 && a == 2.0 * Times(k, c) && b == 2.0 * Times(k, k)
    requires Times(Times(k, k), NormSq3(v)) + Square(c) == 1.0
    ensures At(Rodrigues(a, b, Skew(v)), i, j) == At(Entries(Attitude(Along(k, v, c))), i, j)
  {
    hide Rodrigues, Skew, Mul, Times, Square, Diagonal, Upper, Lower;
    RodriguesEntry(a, b, Skew(v), i, j);
    SkewSquared(v, i, j);
    SkewEntry(v, i, j);
    DiagonalEntry(a, b, k, v.x, v.y, v.z, c);
    DiagonalEntry(a, b, k, v.y, v.z, v.x, c);
    DiagonalEntry(a, b, k, v.z, v.x, v.y, c);
    OffDiagonalEntries(a, b, k, v.x, v.y, v.z, c);
    OffDiagonalEntries(a, b, k, v.y, v.z, v.x, c);
    OffDiagonalEntries(a, b, k, v.z, v.x, v.y, c);
  }

  /**
   Beyond small rates and angles the rotation block of the transition matrix is the attitude matrix of
   the propagation quaternion: covariance and attitude turn together.
   */
  lemma TransitionMatchesTurn(e: Elementary, dt: real, omega: Vec3, i: int, j: int)
    requires Lawful(e) && dt >= 0.0 && Norm3(e, omega) >= SMALL_RATE && 0 <= i < 3 && 0 <= j < 3
    requires Times(Norm3(e, omega), dt) > SMALL_ANGLE && DoubleAngle(e, Times(Norm3(e, omega), dt))
    ensures At(Phi(e, dt, omega), i, j) == At(Entries(Attitude(Turn(e, dt, omega))), i, j)
  {
    hide Times, Square, Quot, Half, Norm3, NormSq3, Lawful, Attitude, Rodrigues, Drift, Entries, Turn;
    var w, theta := Norm3(e, omega), Times(Norm3(e, omega), dt);
    var s, c := e.sin(Half(theta)), e.cos(Half(theta));
    TurnIsRotation(e, dt, omega);
    NormIsRoot(e, omega);
    CircleAt(e, Half(theta));
    HalfAngleFactors(e.sin(theta), e.cos(theta), s, c, w);
    QuotientSquare(s, w, NormSq3(omega));
    RodriguesIsAttitude(Quot(e.sin(theta), w), Quot(1.0 - e.cos(theta), Square(w)), Quot(s, w), omega, c, i, j);
  }

  lemma CircleAt(e: Elementary, x: real)
    requires Lawful(e)
    ensures Square(e.sin(x)) + Square(e.cos(x)) == 1.0
  {
    assert OnCircle(e, x);
  }

  /** The filter's trigonometry as the source has it. */
  function SourceTrig(e: Elementary): Trig
    requires Lawful(e)
  {
    Trig((dt, w) => Phi(e, dt, w), (dt, w) => Turn(e, dt, w), d => Rotation(e, d))
  }
}
