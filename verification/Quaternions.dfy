/**
 Scalar-last quaternions over the reals. Square roots are supplied as witnesses: a non-negative
 number whose square is the argument.
 */
module Quaternions {
  import opened Products

  datatype Quat = Quat(x: real, y: real, z: real, s: real)

  function NormSq(q: Quat): real
  {
    q.x * q.x + q.y * q.y + q.z * q.z + q.s * q.s
  }

  predicate Unit(q: Quat)
  {
    NormSq(q) == 1.0
  }

  type UnitQuat = q: Quat | Unit(q) witness Quat(0.0, 0.0, 0.0, 1.0)

  /** n is the non-negative square root of a. */
  predicate IsSqrt(n: real, a: real)
  {
    n >= 0.0 && n * n == a
  }

  lemma SqrtOfOne(n: real)
    requires IsSqrt(n, 1.0)
    ensures n == 1.0
  {
    CancelReal(n - 1.0, 0.0, n + 1.0) by {
      assert Times(n - 1.0, n + 1.0) == n * n - 1.0;
    }
  }

  function Conjugate(q: Quat): Quat
  {
    Quat(-q.x, -q.y, -q.z, q.s)
  }

  function Negate(q: Quat): Quat
  {
    Quat(-q.x, -q.y, -q.z, -q.s)
  }

  function Hemi(q: Quat): Quat
  {
    if q.s >= 0.0 then q else Negate(q)
  }

  /** Division by the norm n. */
  function Normalize(q: Quat, n: real): Quat
    requires n > 0.0
  {
    Quat(q.x / n, q.y / n, q.z / n, q.s / n)
  }

  /** The first vector component of a product; the others follow by rotating the axes. */
  function ProductVector(x: real, y: real, z: real, s: real, u: real, v: real, w: real, t: real): real
  {
    s * u + x * t - y * w + z * v
  }

  function ProductScalar(x: real, y: real, z: real, s: real, u: real, v: real, w: real, t: real): real
  {
    s * t - x * u - y * v - z * w
  }

  /** The components of the product before normalisation. */
  function RawProduct(a: Quat, b: Quat): Quat
  {
    Quat(
      ProductVector(a.x, a.y, a.z, a.s, b.x, b.y, b.z, b.s),
      ProductVector(a.y, a.z, a.x, a.s, b.y, b.z, b.x, b.s),
      ProductVector(a.z, a.x, a.y, a.s, b.z, b.x, b.y, b.s),
      ProductScalar(a.x, a.y, a.z, a.s, b.x, b.y, b.z, b.s))
  }

  /** `quat_mult`, given the norm of the raw product. */
  function Multiply(a: Quat, b: Quat, n: real): Quat
    requires n > 0.0
  {
    Normalize(RawProduct(a, b), n)
  }

  /** `quat_error`: the rotation from target to current. */
  function Error(target: Quat, current: Quat, n: real): Quat
    requires n > 0.0
  {
    Multiply(current, Conjugate(target), n)
  }

  // ----- direction cosine matrices -----

  datatype Dcm = Dcm(
    m00: real, m01: real, m02: real, m10: real, m11: real, m12: real, m20: real, m21: real, m22: real)

  /** Entry (0, 0) of an attitude matrix; (1, 1) and (2, 2) follow by rotating the axes. */
  function Diagonal(x: real, y: real, z: real, s: real): real
  {
    s * s + x * x - y * y - z * z
  }

  /** Entry (0, 1); (1, 2) and (2, 0) follow by rotating the axes. */
  function Upper(x: real, y: real, z: real, s: real): real
  {
    2.0 * (x * y + s * z)
  }

  /** Entry (1, 0); (2, 1) and (0, 2) follow by rotating the axes. */
  function Lower(x: real, y: real, z: real, s: real): real
  {
    2.0 * (x * y - s * z)
  }

  /** The attitude matrix (inertial to body) of a quaternion. */
  function Attitude(q: Quat): Dcm
  {
    var Quat(x, y, z, s) := q;
    Dcm(Diagonal(x, y, z, s), Upper(x, y, z, s), Lower(z, x, y, s),
        Lower(x, y, z, s), Diagonal(y, z, x, s), Upper(y, z, x, s),
        Upper(z, x, y, s), Lower(y, z, x, s), Diagonal(z, x, y, s))
  }

  function DcmProduct(a: Dcm, b: Dcm): Dcm
  {
    Dcm(Times(a.m00, b.m00) + Times(a.m01, b.m10) + Times(a.m02, b.m20),
        Times(a.m00, b.m01) + Times(a.m01, b.m11) + Times(a.m02, b.m21),
        Times(a.m00, b.m02) + Times(a.m01, b.m12) + Times(a.m02, b.m22),
        Times(a.m10, b.m00) + Times(a.m11, b.m10) + Times(a.m12, b.m20),
        Times(a.m10, b.m01) + Times(a.m11, b.m11) + Times(a.m12, b.m21),
        Times(a.m10, b.m02) + Times(a.m11, b.m12) + Times(a.m12, b.m22),
        Times(a.m20, b.m00) + Times(a.m21, b.m10) + Times(a.m22, b.m20),
        Times(a.m20, b.m01) + Times(a.m21, b.m11) + Times(a.m22, b.m21),
        Times(a.m20, b.m02) + Times(a.m21, b.m12) + Times(a.m22, b.m22))
  }

  datatype Branch = ScalarLargest | XLargest | YLargest | ZLargest

  /** Which of the four formulas `quat_from_dcm_scalar_last` uses. */
  function BranchOf(m: Dcm): Branch
  {
    var trace := m.m00 + m.m11 + m.m22;
    if trace > m.m00 && trace > m.m11 && trace > m.m22 then ScalarLargest
    else if m.m00 > m.m11 && m.m00 > m.m22 then XLargest
    else if m.m11 > m.m22 then YLargest
    else ZLargest
  }

  /** The argument of the branch's square root. */
  function RootArgument(m: Dcm): real
  {
    match BranchOf(m)
    case ScalarLargest => (1.0 + m.m00 + m.m11 + m.m22) / 4.0
    case XLargest => (1.0 + m.m00 - m.m11 - m.m22) / 4.0
    case YLargest => (1.0 - m.m00 + m.m11 - m.m22) / 4.0
    case ZLargest => (1.0 - m.m00 - m.m11 + m.m22) / 4.0
  }

  /** The components before the final normalisation, given the branch's root r. */
  function RawFromDcm(m: Dcm, r: real): Quat
    requires r > 0.0
  {
    var d := 4.0 * r;
    match BranchOf(m)
    case ScalarLargest => Quat((m.m12 - m.m21) / d, (m.m20 - m.m02) / d, (m.m01 - m.m10) / d, r)
    case XLargest => Quat(r, (m.m01 + m.m10) / d, (m.m20 + m.m02) / d, (m.m12 - m.m21) / d)
    case YLargest => Quat((m.m01 + m.m10) / d, r, (m.m12 + m.m21) / d, (m.m20 - m.m02) / d)
    case ZLargest => Quat((m.m20 + m.m02) / d, (m.m12 + m.m21) / d, r, (m.m01 - m.m10) / d)
  }

  /** `quat_from_dcm_scalar_last`, given its two square roots. */
  function FromDcm(m: Dcm, r: real, n: real): Quat
    requires r > 0.0 && n > 0.0
  {
    Normalize(RawFromDcm(m, r), n)
  }

  // ----- products -----

  /** Euler's four-square identity. */
  lemma ProductNorm(a: Quat, b: Quat)
    ensures NormSq(RawProduct(a, b)) == Times(NormSq(a), NormSq(b))
  {
    var p := RawProduct(a, b);
    FourSquares(a.x, a.y, a.z, a.s, b.x, b.y, b.z, b.s, p.x, p.y, p.z, p.s, NormSq(a), NormSq(b));
  }

  lemma FourSquares(x: real, y: real, z: real, s: real, u: real, v: real, w: real, t: real,
                    px: real, py: real, pz: real, ps: real, m: real, n: real)
    requires px == s * u + x * t - y * w + z * v && py == s * v + y * t - z * u + x * w
    requires pz == s * w + z * t - x * v + y * u && ps == s * t - x * u - y * v - z * w
    requires m == x * x + y * y + z * z + s * s && n == u * u + v * v + w * w + t * t
    ensures px * px + py * py + pz * pz + ps * ps == Times(m, n)
  {
    VectorSquare(x, y, z, s, u, v, w, t, px, px);
    VectorSquare(y, z, x, s, v, w, u, t, py, py);
    VectorSquare(z, x, y, s, w, u, v, t, pz, pz);
    ScalarSquare(x, y, z, s, u, v, w, t, ps, ps);
    NormTimes(x, y, z, s, u, v, w, t, m, n);
  }

  lemma NormTimes(x: real, y: real, z: real, s: real, u: real, v: real, w: real, t: real, m: real, n: real)
    requires m == x * x + y * y + z * z + s * s && n == u * u + v * v + w * w + t * t
    ensures Times(m, n) == (x * x + y * y + z * z + s * s) * (u * u + v * v + w * w + t * t)
  {
    assert Times(m, n) == Times(x * x + y * y + z * z + s * s, u * u + v * v + w * w + t * t);
  }

  lemma NormalizeUnit(q: Quat, n: real)
    requires n > 0.0 && IsSqrt(n, NormSq(q))
    ensures Unit(Normalize(q, n))
  {
    var c := Normalize(q, n);
    var m := Times(n, n);
    SumOfSquaresScaled(q, c, n, m);
    UnitFromScaled(NormSq(c), m);
  }

  lemma UnitFromScaled(a: real, m: real)
    requires m > 0.0 && m == Times(a, m)
    ensures a == 1.0
  {
    assert Times(1.0, m) == m;
    CancelReal(a, 1.0, m);
  }

  lemma SumOfSquaresScaled(q: Quat, c: Quat, n: real, m: real)
    requires n > 0.0 && m == Times(n, n)
    requires q.x == c.x * n && q.y == c.y * n && q.z == c.z * n && q.s == c.s * n
    ensures m > 0.0 && NormSq(q) == Times(NormSq(c), m)
  {
    PositiveProduct(n, n);
    SquareOfProduct(q.x, c.x, n, m);
    SquareOfProduct(q.y, c.y, n, m);
    SquareOfProduct(q.z, c.z, n, m);
    SquareOfProduct(q.s, c.s, n, m);
    var x2, y2, z2, s2 := c.x * c.x, c.y * c.y, c.z * c.z, c.s * c.s;
    DistributeFour(x2, y2, z2, s2, m);
    assert NormSq(c) == x2 + y2 + z2 + s2;
  }

  lemma SquareOfProduct(b: real, a: real, n: real, m: real)
    requires b == a * n && m == Times(n, n)
    ensures b * b == Times(a * a, m)
  {
    assert Times(b, b) == Times(a * n, a * n);
    assert Times(a * a, m) == Times(a * a, n * n);
  }

  lemma DistributeFour(a: real, b: real, c: real, d: real, m: real)
    ensures Times(a + b + c + d, m) == Times(a, m) + Times(b, m) + Times(c, m) + Times(d, m)
  {
  }

  lemma ProductOfUnits(a: Quat, b: Quat, n: real)
    requires Unit(a) && Unit(b) && IsSqrt(n, NormSq(RawProduct(a, b)))
    ensures n == 1.0 && Unit(Multiply(a, b, n)) && Multiply(a, b, n) == RawProduct(a, b)
  {
    ProductOfUnitsUnit(a, b);
    SqrtOfOne(n);
    NormalizeByOne(RawProduct(a, b));
  }

  lemma ProductOfUnitsUnit(a: Quat, b: Quat)
    requires Unit(a) && Unit(b)
    ensures Unit(RawProduct(a, b))
  {
    ProductNorm(a, b);
    assert Times(NormSq(a), NormSq(b)) == Times(1.0, 1.0);
  }

  /** The attitude of a product is the product of the attitudes. */
  lemma AttitudeOfProduct(a: Quat, b: Quat)
    ensures Attitude(RawProduct(a, b)) == DcmProduct(Attitude(a), Attitude(b))
  {
    var Quat(x, y, z, s) := a;
    var Quat(u, v, w, t) := b;
    AxisEntries(x, y, z, s, u, v, w, t);
    AxisEntries(y, z, x, s, v, w, u, t);
    AxisEntries(z, x, y, s, w, u, v, t);
  }

  /** The three entries of one axis, as an attitude matrix and as a product of attitude matrices. */
  lemma AxisEntries(x: real, y: real, z: real, s: real, u: real, v: real, w: real, t: real)
    ensures var px := ProductVector(x, y, z, s, u, v, w, t);
      var py := ProductVector(y, z, x, s, v, w, u, t);
      var pz := ProductVector(z, x, y, s, w, u, v, t);
      var ps := ProductScalar(x, y, z, s, u, v, w, t);
      Diagonal(px, py, pz, ps) == Times(Diagonal(x, y, z, s), Diagonal(u, v, w, t)) +
        Times(Upper(x, y, z, s), Lower(u, v, w, t)) + Times(Lower(z, x, y, s), Upper(w, u, v, t)) &&
      Upper(px, py, pz, ps) == Times(Diagonal(x, y, z, s), Upper(u, v, w, t)) +
        Times(Upper(x, y, z, s), Diagonal(v, w, u, t)) + Times(Lower(z, x, y, s), Lower(v, w, u, t)) &&
      Lower(px, py, pz, ps) == Times(Lower(x, y, z, s), Diagonal(u, v, w, t)) +
        Times(Diagonal(y, z, x, s), Lower(u, v, w, t)) + Times(Upper(y, z, x, s), Upper(w, u, v, t))
  {
    var px := ProductVector(x, y, z, s, u, v, w, t);
    var py := ProductVector(y, z, x, s, v, w, u, t);
    var pz := ProductVector(z, x, y, s, w, u, v, t);
    var ps := ProductScalar(x, y, z, s, u, v, w, t);
    DiagonalEntry(x, y, z, s, u, v, w, t, px, py, pz, ps, Diagonal(x, y, z, s), Upper(x, y, z, s), Lower(z, x, y, s),
                  Diagonal(u, v, w, t), Lower(u, v, w, t), Upper(w, u, v, t));
    UpperEntry(x, y, z, s, u, v, w, t, px, py, pz, ps, Diagonal(x, y, z, s), Upper(x, y, z, s), Lower(z, x, y, s),
               Upper(u, v, w, t), Diagonal(v, w, u, t), Lower(v, w, u, t));
    LowerEntry(x, y, z, s, u, v, w, t, px, py, pz, ps, Lower(x, y, z, s), Diagonal(y, z, x, s), Upper(y, z, x, s),
               Diagonal(u, v, w, t), Lower(u, v, w, t), Upper(w, u, v, t));
  }

  /** Entry (0, 0) of the attitude of a product; rotating the axes gives (1, 1) and (2, 2). */
  lemma DiagonalEntry(x: real, y: real, z: real, s: real, u: real, v: real, w: real, t: real,
      px: real, py: real, pz: real, ps: real,
      a0: real, a1: real, a2: real, b0: real, b1: real, b2: real)
    requires px == s * u + x * t - y * w + z * v && py == s * v + y * t - z * u + x * w
    requires pz == s * w + z * t - x * v + y * u && ps == s * t - x * u - y * v - z * w
    requires a0 == s * s + x * x - y * y - z * z && a1 == 2.0 * (x * y + s * z) && a2 == 2.0 * (x * z - s * y)
    requires b0 == t * t + u * u - v * v - w * w && b1 == 2.0 * (u * v - t * w) && b2 == 2.0 * (u * w + t * v)
    ensures ps * ps + px * px - py * py - pz * pz == a0 * b0 + a1 * b1 + a2 * b2
  {
    VectorSquare(x, y, z, s, u, v, w, t, px, px);
    VectorSquare(y, z, x, s, v, w, u, t, py, py);
    VectorSquare(z, x, y, s, w, u, v, t, pz, pz);
    ScalarSquare(x, y, z, s, u, v, w, t, ps, ps);
    DiagonalTerm0(x, y, z, s, u, v, w, t, a0, b0);
    DiagonalTerm1(x, y, z, s, u, v, w, t, a1, b1);
    DiagonalTerm2(x, y, z, s, u, v, w, t, a2, b2);
  }

  lemma DiagonalTerm0(x: real, y: real, z: real, s: real, u: real, v: real, w: real, t: real, a: real, b: real)
    requires a == s * s + x * x - y * y - z * z && b == t * t + u * u - v * v - w * w
    ensures a * b == (s * s + x * x - y * y - z * z) * (t * t + u * u - v * v - w * w)
  {
    assert Times(a, b) == Times(s * s + x * x - y * y - z * z, t * t + u * u - v * v - w * w);
  }

  lemma DiagonalTerm1(x: real, y: real, z: real, s: real, u: real, v: real, w: real, t: real, a: real, b: real)
    requires a == 2.0 * (x * y + s * z) && b == 2.0 * (u * v - t * w)
    ensures a * b == (2.0 * (x * y + s * z)) * (2.0 * (u * v - t * w))
  {
    assert Times(a, b) == Times(2.0 * (x * y + s * z), 2.0 * (u * v - t * w));
  }

  lemma DiagonalTerm2(x: real, y: real, z: real, s: real, u: real, v: real, w: real, t: real, a: real, b: real)
    requires a == 2.0 * (x * z - s * y) && b == 2.0 * (u * w + t * v)
    ensures a * b == (2.0 * (x * z - s * y)) * (2.0 * (u * w + t * v))
  {
    assert Times(a, b) == Times(2.0 * (x * z - s * y), 2.0 * (u * w + t * v));
  }

  /** Entry (0, 1), and (1, 2) and (2, 0). */
  lemma UpperEntry(x: real, y: real, z: real, s: real, u: real, v: real, w: real, t: real,
      px: real, py: real, pz: real, ps: real,
      a0: real, a1: real, a2: real, b0: real, b1: real, b2: real)
    requires px == s * u + x * t - y * w + z * v && py == s * v + y * t - z * u + x * w
    requires pz == s * w + z * t - x * v + y * u && ps == s * t - x * u - y * v - z * w
    requires a0 == s * s + x * x - y * y - z * z && a1 == 2.0 * (x * y + s * z) && a2 == 2.0 * (x * z - s * y)
    requires b0 == 2.0 * (u * v + t * w) && b1 == t * t - u * u + v * v - w * w && b2 == 2.0 * (v * w - t * u)
    ensures 2.0 * (px * py + ps * pz) == a0 * b0 + a1 * b1 + a2 * b2
  {
    VectorPair(x, y, z, s, u, v, w, t, px, py);
    ScalarPair(x, y, z, s, u, v, w, t, ps, pz);
    UpperTerm0(x, y, z, s, u, v, w, t, a0, b0);
    UpperTerm1(x, y, z, s, u, v, w, t, a1, b1);
    UpperTerm2(x, y, z, s, u, v, w, t, a2, b2);
  }

  lemma UpperTerm0(x: real, y: real, z: real, s: real, u: real, v: real, w: real, t: real, a: real, b: real)
    requires a == s * s + x * x - y * y - z * z && b == 2.0 * (u * v + t * w)
    ensures a * b == (s * s + x * x - y * y - z * z) * (2.0 * (u * v + t * w))
  {
    assert Times(a, b) == Times(s * s + x * x - y * y - z * z, 2.0 * (u * v + t * w));
  }

  lemma UpperTerm1(x: real, y: real, z: real, s: real, u: real, v: real, w: real, t: real, a: real, b: real)
    requires a == 2.0 * (x * y + s * z) && b == t * t - u * u + v * v - w * w
    ensures a * b == (2.0 * (x * y + s * z)) * (t * t - u * u + v * v - w * w)
  {
    assert Times(a, b) == Times(2.0 * (x * y + s * z), t * t - u * u + v * v - w * w);
  }

  lemma UpperTerm2(x: real, y: real, z: real, s: real, u: real, v: real, w: real, t: real, a: real, b: real)
    requires a == 2.0 * (x * z - s * y) && b == 2.0 * (v * w - t * u)
    ensures a * b == (2.0 * (x * z - s * y)) * (2.0 * (v * w - t * u))
  {
    assert Times(a, b) == Times(2.0 * (x * z - s * y), 2.0 * (v * w - t * u));
  }

  /** Entry (1, 0), and (2, 1) and (0, 2). */
  lemma LowerEntry(x: real, y: real, z: real, s: real, u: real, v: real, w: real, t: real,
      px: real, py: real, pz: real, ps: real,
      a0: real, a1: real, a2: real, b0: real, b1: real, b2: real)
    requires px == s * u + x * t - y * w + z * v && py == s * v + y * t - z * u + x * w
    requires pz == s * w + z * t - x * v + y * u && ps == s * t - x * u - y * v - z * w
    requires a0 == 2.0 * (x * y - s * z) && a1 == s * s - x * x + y * y - z * z && a2 == 2.0 * (y * z + s * x)
    requires b0 == t * t + u * u - v * v - w * w && b1 == 2.0 * (u * v - t * w) && b2 == 2.0 * (u * w + t * v)
    ensures 2.0 * (px * py - ps * pz) == a0 * b0 + a1 * b1 + a2 * b2
  {
    VectorPair(x, y, z, s, u, v, w, t, px, py);
    ScalarPair(x, y, z, s, u, v, w, t, ps, pz);
    LowerTerm0(x, y, z, s, u, v, w, t, a0, b0);
    LowerTerm1(x, y, z, s, u, v, w, t, a1, b1);
    LowerTerm2(x, y, z, s, u, v, w, t, a2, b2);
  }

  lemma LowerTerm0(x: real, y: real, z: real, s: real, u: real, v: real, w: real, t: real, a: real, b: real)
    requires a == 2.0 * (x * y - s * z) && b == t * t + u * u - v * v - w * w
    ensures a * b == (2.0 * (x * y - s * z)) * (t * t + u * u - v * v - w * w)
  {
    assert Times(a, b) == Times(2.0 * (x * y - s * z), t * t + u * u - v * v - w * w);
  }

  lemma LowerTerm1(x: real, y: real, z: real, s: real, u: real, v: real, w: real, t: real, a: real, b: real)
    requires a == s * s - x * x + y * y - z * z && b == 2.0 * (u * v - t * w)
    ensures a * b == (s * s - x * x + y * y - z * z) * (2.0 * (u * v - t * w))
  {
    assert Times(a, b) == Times(s * s - x * x + y * y - z * z, 2.0 * (u * v - t * w));
  }

  lemma LowerTerm2(x: real, y: real, z: real, s: real, u: real, v: real, w: real, t: real, a: real, b: real)
    requires a == 2.0 * (y * z + s * x) && b == 2.0 * (u * w + t * v)
    ensures a * b == (2.0 * (y * z + s * x)) * (2.0 * (u * w + t * v))
  {
    assert Times(a, b) == Times(2.0 * (y * z + s * x), 2.0 * (u * w + t * v));
  }

  lemma VectorSquare(x: real, y: real, z: real, s: real, u: real, v: real, w: real, t: real, a: real, b: real)
    requires a == s * u + x * t - y * w + z * v && b == s * u + x * t - y * w + z * v
    ensures a * b == (s * u + x * t - y * w + z * v) * (s * u + x * t - y * w + z * v)
  {
    assert Times(a, b) == Times(s * u + x * t - y * w + z * v, s * u + x * t - y * w + z * v);
  }

  lemma ScalarSquare(x: real, y: real, z: real, s: real, u: real, v: real, w: real, t: real, a: real, b: real)
    requires a == s * t - x * u - y * v - z * w && b == s * t - x * u - y * v - z * w
    ensures a * b == (s * t - x * u - y * v - z * w) * (s * t - x * u - y * v - z * w)
  {
    assert Times(a, b) == Times(s * t - x * u - y * v - z * w, s * t - x * u - y * v - z * w);
  }

  lemma VectorPair(x: real, y: real, z: real, s: real, u: real, v: real, w: real, t: real, a: real, b: real)
    requires a == s * u + x * t - y * w + z * v && b == s * v + y * t - z * u + x * w
    ensures a * b == (s * u + x * t - y * w + z * v) * (s * v + y * t - z * u + x * w)
  {
    assert Times(a, b) == Times(s * u + x * t - y * w + z * v, s * v + y * t - z * u + x * w);
  }

  lemma ScalarPair(x: real, y: real, z: real, s: real, u: real, v: real, w: real, t: real, a: real, b: real)
    requires a == s * t - x * u - y * v - z * w && b == s * w + z * t - x * v + y * u
    ensures a * b == (s * t - x * u - y * v - z * w) * (s * w + z * t - x * v + y * u)
  {
    assert Times(a, b) == Times(s * t - x * u - y * v - z * w, s * w + z * t - x * v + y * u);
  }

  /** Hemisphere selection keeps the attitude and makes the scalar non-negative. */
  lemma HemiSameAttitude(q: Quat)
    ensures Attitude(Hemi(q)) == Attitude(q) && Hemi(q).s >= 0.0 && NormSq(Hemi(q)) == NormSq(q)
  {
    NegateNorm(q);
    NegateEntries(q.x, q.y, q.z, q.s);
    NegateEntries(q.y, q.z, q.x, q.s);
    NegateEntries(q.z, q.x, q.y, q.s);
  }

  lemma NegateEntries(x: real, y: real, z: real, s: real)
    ensures Diagonal(-x, -y, -z, -s) == Diagonal(x, y, z, s)
    ensures Upper(-x, -y, -z, -s) == Upper(x, y, z, s)
    ensures Lower(-x, -y, -z, -s) == Lower(x, y, z, s)
  {
  }

  /** Rotating the target by the error gives the current attitude. */
  lemma ErrorTakesTargetToCurrent(target: Quat, current: Quat, n: real)
    requires Unit(target) && Unit(current)
    requires IsSqrt(n, NormSq(RawProduct(current, Conjugate(target))))
    ensures n == 1.0 && RawProduct(Error(target, current, n), target) == current
  {
    ConjugateUnit(target);
    ProductOfUnits(current, Conjugate(target), n);
    ProductWithConjugate(current, target);
  }

  /**
   The error is in the upper hemisphere, as its documentation says it always is, exactly when target
   and current are in the same one.
   */
  lemma ErrorUpperHemisphereIff(target: Quat, current: Quat, n: real)
    requires Unit(target) && Unit(current)
    requires IsSqrt(n, NormSq(RawProduct(current, Conjugate(target))))
    ensures n == 1.0
    ensures Error(target, current, n).s >= 0.0 <==>
      target.x * current.x + target.y * current.y + target.z * current.z + target.s * current.s >= 0.0
  {
    hide Unit, NormSq, IsSqrt, Multiply, ProductVector, ProductScalar;
    ConjugateUnit(target);
    ProductOfUnits(current, Conjugate(target), n);
    ScalarWithConjugate(target.x, target.y, target.z, target.s, current.x, current.y, current.z, current.s);
  }

  lemma ScalarWithConjugate(x: real, y: real, z: real, s: real, u: real, v: real, w: real, t: real)
    ensures ProductScalar(u, v, w, t, -x, -y, -z, s) == x * u + y * v + z * w + s * t
  {
  }

  /** It is not whenever they are the two quaternions of one attitude, such as (0, 0, 0, 1) and its negation. */
  lemma ErrorInLowerHemisphere(q: UnitQuat)
    ensures var current := Negate(q);
      Attitude(current) == Attitude(q) && Unit(current) &&
      IsSqrt(1.0, NormSq(RawProduct(current, Conjugate(q)))) && Error(q, current, 1.0).s == -1.0
  {
    var current := Negate(q);
    NegateNorm(q);
    NegateEntries(q.x, q.y, q.z, q.s);
    NegateEntries(q.y, q.z, q.x, q.s);
    NegateEntries(q.z, q.x, q.y, q.s);
    ConjugateUnit(q);
    ProductNorm(current, Conjugate(q));
    assert Times(1.0, 1.0) == 1.0;
    hide NormSq, ProductVector, Normalize;
    NormalizeByOne(RawProduct(current, Conjugate(q)));
    NegatedDot(q);
  }

  lemma NegatedDot(q: UnitQuat)
    ensures ProductScalar(-q.x, -q.y, -q.z, -q.s, -q.x, -q.y, -q.z, q.s) == -1.0
  {
  }

  lemma ConjugateUnit(q: Quat)
    requires Unit(q)
    ensures Unit(Conjugate(q))
  {
    NegationsCancel(q.x, q.x);
    NegationsCancel(q.y, q.y);
    NegationsCancel(q.z, q.z);
  }

  lemma ProductWithConjugate(a: Quat, b: Quat)
    requires Unit(b)
    ensures RawProduct(RawProduct(a, Conjugate(b)), b) == a
  {
    UndoX(a, b);
    UndoY(a, b);
    UndoZ(a, b);
    UndoS(a, b);
    assert Times(a.x, NormSq(b)) == a.x && Times(a.y, NormSq(b)) == a.y;
    assert Times(a.z, NormSq(b)) == a.z && Times(a.s, NormSq(b)) == a.s;
  }

  lemma UndoX(a: Quat, b: Quat)
    ensures RawProduct(RawProduct(a, Conjugate(b)), b).x == Times(a.x, NormSq(b))
  {
    var r := RawProduct(a, Conjugate(b));
    UndoVector(a.x, a.y, a.z, a.s, b.x, b.y, b.z, b.s, r.x, r.y, r.z, r.s);
  }

  lemma UndoY(a: Quat, b: Quat)
    ensures RawProduct(RawProduct(a, Conjugate(b)), b).y == Times(a.y, NormSq(b))
  {
    var r := RawProduct(a, Conjugate(b));
    UndoVector(a.y, a.z, a.x, a.s, b.y, b.z, b.x, b.s, r.y, r.z, r.x, r.s);
  }

  lemma UndoZ(a: Quat, b: Quat)
    ensures RawProduct(RawProduct(a, Conjugate(b)), b).z == Times(a.z, NormSq(b))
  {
    var r := RawProduct(a, Conjugate(b));
    UndoVector(a.z, a.x, a.y, a.s, b.z, b.x, b.y, b.s, r.z, r.x, r.y, r.s);
  }

  lemma UndoS(a: Quat, b: Quat)
    ensures RawProduct(RawProduct(a, Conjugate(b)), b).s == Times(a.s, NormSq(b))
  {
    var r := RawProduct(a, Conjugate(b));
    UndoScalar(a.x, a.y, a.z, a.s, b.x, b.y, b.z, b.s, r.x, r.y, r.z, r.s);
    assert NormSq(b) == b.x * b.x + b.y * b.y + b.z * b.z + b.s * b.s;
  }

  lemma UndoVector(x: real, y: real, z: real, s: real, u: real, v: real, w: real, t: real,
                   px: real, py: real, pz: real, ps: real)
    requires px == -s * u + x * t + y * w - z * v && py == -s * v + y * t + z * u - x * w
    requires pz == -s * w + z * t + x * v - y * u && ps == s * t + x * u + y * v + z * w
    ensures ps * u + px * t - py * w + pz * v == Times(x, u * u + v * v + w * w + t * t)
  {
    assert Times(ps, u) == Times(s * t + x * u + y * v + z * w, u);
    assert Times(px, t) == Times(-s * u + x * t + y * w - z * v, t);
    assert Times(py, w) == Times(-s * v + y * t + z * u - x * w, w);
    assert Times(pz, v) == Times(-s * w + z * t + x * v - y * u, v);
  }

  lemma UndoScalar(x: real, y: real, z: real, s: real, u: real, v: real, w: real, t: real,
                   px: real, py: real, pz: real, ps: real)
    requires px == -s * u + x * t + y * w - z * v && py == -s * v + y * t + z * u - x * w
    requires pz == -s * w + z * t + x * v - y * u && ps == s * t + x * u + y * v + z * w
    ensures ps * t - px * u - py * v - pz * w == Times(s, u * u + v * v + w * w + t * t)
  {
    assert Times(ps, t) == Times(s * t + x * u + y * v + z * w, t);
    assert Times(px, u) == Times(-s * u + x * t + y * w - z * v, u);
    assert Times(py, v) == Times(-s * v + y * t + z * u - x * w, v);
    assert Times(pz, w) == Times(-s * w + z * t + x * v - y * u, w);
  }

  /** One component of a vector as the attitude matrix expresses it; the others follow by rotating the axes. */
  lemma ActsOn(x: real, y: real, z: real, s: real, u: real, v: real, w: real, k: real, d: real, c: real)
    requires k == s * s - x * x - y * y - z * z && d == x * u + y * v + z * w && c == y * w - z * v
    ensures Times(Diagonal(x, y, z, s), u) + Times(Upper(x, y, z, s), v) + Times(Lower(z, x, y, s), w) ==
            Times(k, u) + 2.0 * Times(x, d) - 2.0 * Times(s, c)
  {
  }

  /**
   What an attitude matrix does to a vector r, with v the quaternion's vector part and s its scalar: it is
   (s s - v.v) r + 2 (v.r) v - 2 s (v x r), the vector seen from a frame that was turned.
   */
  lemma AttitudeActs(q: Quat, u: real, v: real, w: real, k: real, d: real, cx: real, cy: real, cz: real)
    requires k == q.s * q.s - q.x * q.x - q.y * q.y - q.z * q.z && d == q.x * u + q.y * v + q.z * w
    requires cx == q.y * w - q.z * v && cy == q.z * u - q.x * w && cz == q.x * v - q.y * u
    ensures var m := Attitude(q);
      Times(m.m00, u) + Times(m.m01, v) + Times(m.m02, w) == Times(k, u) + 2.0 * Times(q.x, d) - 2.0 * Times(q.s, cx) &&
      Times(m.m10, u) + Times(m.m11, v) + Times(m.m12, w) == Times(k, v) + 2.0 * Times(q.y, d) - 2.0 * Times(q.s, cy) &&
      Times(m.m20, u) + Times(m.m21, v) + Times(m.m22, w) == Times(k, w) + 2.0 * Times(q.z, d) - 2.0 * Times(q.s, cz)
  {
    hide Times, Diagonal, Upper, Lower;
    ActsOn(q.x, q.y, q.z, q.s, u, v, w, k, d, cx);
    ActsOn(q.y, q.z, q.x, q.s, v, w, u, k, d, cy);
    ActsOn(q.z, q.x, q.y, q.s, w, u, v, k, d, cz);
  }

  // ----- recovering the quaternion from its attitude matrix -----

  /** The component each branch computes by its square root. */
  function Dominant(q: Quat, branch: Branch): real
  {
    match branch
    case ScalarLargest => q.s
    case XLargest => q.x
    case YLargest => q.y
    case ZLargest => q.z
  }

  /** The branch taken roots the square of a component no smaller than the others. */
  lemma BranchPicksDominant(q: Quat, m: Dcm)
    requires Unit(q) && m.m00 == Diagonal(q.x, q.y, q.z, q.s)
    requires m.m11 == Diagonal(q.y, q.z, q.x, q.s) && m.m22 == Diagonal(q.z, q.x, q.y, q.s)
    ensures var c := Dominant(q, BranchOf(m)); RootArgument(m) == c * c && c * c >= 0.25
  {
    BranchOnSquares(m, q.x * q.x, q.y * q.y, q.z * q.z, q.s * q.s);
  }

  lemma BranchOnSquares(m: Dcm, x2: real, y2: real, z2: real, s2: real)
    requires x2 + y2 + z2 + s2 == 1.0
    requires m.m00 == s2 + x2 - y2 - z2 && m.m11 == s2 - x2 + y2 - z2 && m.m22 == s2 - x2 - y2 + z2
    ensures RootArgument(m) >= 0.25
    ensures RootArgument(m) == match BranchOf(m)
                               case ScalarLargest => s2 case XLargest => x2
                               case YLargest => y2 case ZLargest => z2
  {
  }

  lemma RootIsComponent(r: real, c: real)
    requires IsSqrt(r, c * c) && c * c >= 0.25
    ensures r >= 0.5 && (r == c || r == -c)
  {
    if r < 0.5 {
      SmallSquare(r);
    }
    if r + c != 0.0 {
      assert Times(r - c, r + c) == Times(0.0, r + c);
      CancelReal(r - c, 0.0, r + c);
    }
  }

  lemma SmallSquare(r: real)
    requires 0.0 <= r < 0.5
    ensures r * r < 0.25
  {
    NonNegativeProduct(0.5 - r, r);
    assert Times(0.5 - r, r) == 0.5 * r - r * r;
  }

  lemma DivideByRoot(c: real, d: real, r: real, e: real)
    requires r > 0.0 && (r == c || r == -c) && e == 4.0 * (c * d)
    ensures e / (4.0 * r) == if r == c then d else -d
  {
    var v := if r == c then d else -d;
    assert Times(v, 4.0 * r) == e;
  }

  /**
   From the attitude matrix of any unit quaternion the routine returns that quaternion or its
   negation: no branch divides by less than 2, and the final normalisation changes nothing.
   */
  lemma FromDcmInverts(q: Quat, r: real, n: real)
    requires Unit(q) && IsSqrt(r, RootArgument(Attitude(q)))
    requires r > 0.0 ==> IsSqrt(n, NormSq(RawFromDcm(Attitude(q), r)))
    ensures r >= 0.5 && n == 1.0
    ensures FromDcm(Attitude(q), r, n) == q || FromDcm(Attitude(q), r, n) == Negate(q)
  {
    RawFromDcmInverts(q, r);
    NegateNorm(q);
    SqrtOfOne(n);
    NormalizeByOne(RawFromDcm(Attitude(q), r));
  }

  lemma NegateNorm(q: Quat)
    ensures NormSq(Negate(q)) == NormSq(q)
  {
    NegationsCancel(q.x, q.x);
    NegationsCancel(q.y, q.y);
    NegationsCancel(q.z, q.z);
    NegationsCancel(q.s, q.s);
  }

  lemma NormalizeByOne(q: Quat)
    ensures Normalize(q, 1.0) == q
  {
  }

  lemma DominantRoot(q: Quat, m: Dcm, r: real)
    requires Unit(q) && m.m00 == Diagonal(q.x, q.y, q.z, q.s)
    requires m.m11 == Diagonal(q.y, q.z, q.x, q.s) && m.m22 == Diagonal(q.z, q.x, q.y, q.s)
    requires IsSqrt(r, RootArgument(m))
    ensures var c := Dominant(q, BranchOf(m)); r >= 0.5 && (r == c || r == -c)
  {
    hide RootArgument, Diagonal, BranchOf;
    BranchPicksDominant(q, m);
    RootIsComponent(r, Dominant(q, BranchOf(m)));
  }

  lemma RawFromDcmInverts(q: Quat, r: real)
    requires Unit(q) && IsSqrt(r, RootArgument(Attitude(q)))
    ensures r >= 0.5
    ensures RawFromDcm(Attitude(q), r) == q || RawFromDcm(Attitude(q), r) == Negate(q)
  {
    var m := Attitude(q);
    DominantRoot(q, m, r);
    match BranchOf(m)
    case ScalarLargest => FromScalar(q, m, r);
    case XLargest => FromX(q, m, r);
    case YLargest => FromY(q, m, r);
    case ZLargest => FromZ(q, m, r);
  }

  /** Two unit quaternions have the same attitude exactly when they are equal or opposite. */
  lemma SameAttitudeIff(p: Quat, q: Quat)
    requires Unit(p) && Unit(q)
    ensures Attitude(p) == Attitude(q) <==> p == q || p == Negate(q)
  {
    hide BranchOf, RootArgument, RawFromDcm, NormSq;
    NegateEntries(q.x, q.y, q.z, q.s);
    NegateEntries(q.y, q.z, q.x, q.s);
    NegateEntries(q.z, q.x, q.y, q.s);
    hide Diagonal, Upper, Lower;
    if Attitude(p) == Attitude(q) {
      var m := Attitude(q);
      BranchPicksDominant(q, m);
      var c := Dominant(q, BranchOf(m));
      var r := if c >= 0.0 then c else -c;
      NegationsCancel(c, c);
      RawFromDcmInverts(q, r);
      RawFromDcmInverts(p, r);
      NegateTwice(p, q);
    }
  }

  lemma NegateTwice(p: Quat, q: Quat)
    ensures Negate(Negate(p)) == p && (Negate(p) == q ==> p == Negate(q))
  {
  }

  /** The off-diagonal entries of m are those of q's attitude. */
  predicate OffDiagonal(m: Dcm, q: Quat)
  {
    m.m01 == Upper(q.x, q.y, q.z, q.s) && m.m12 == Upper(q.y, q.z, q.x, q.s) &&
    m.m20 == Upper(q.z, q.x, q.y, q.s) && m.m10 == Lower(q.x, q.y, q.z, q.s) &&
    m.m21 == Lower(q.y, q.z, q.x, q.s) && m.m02 == Lower(q.z, q.x, q.y, q.s)
  }

  lemma FromScalar(q: Quat, m: Dcm, r: real)
    requires OffDiagonal(m, q) && BranchOf(m) == ScalarLargest && r > 0.0 && (r == q.s || r == -q.s)
    ensures RawFromDcm(m, r) == if r == q.s then q else Negate(q)
  {
    DivideByRoot(q.s, q.x, r, m.m12 - m.m21);
    DivideByRoot(q.s, q.y, r, m.m20 - m.m02);
    DivideByRoot(q.s, q.z, r, m.m01 - m.m10);
  }

  lemma FromX(q: Quat, m: Dcm, r: real)
    requires OffDiagonal(m, q) && BranchOf(m) == XLargest && r > 0.0 && (r == q.x || r == -q.x)
    ensures RawFromDcm(m, r) == if r == q.x then q else Negate(q)
  {
    DivideByRoot(q.x, q.s, r, m.m12 - m.m21);
    DivideByRoot(q.x, q.z, r, m.m20 + m.m02);
    DivideByRoot(q.x, q.y, r, m.m01 + m.m10);
  }

  lemma FromY(q: Quat, m: Dcm, r: real)
    requires OffDiagonal(m, q) && BranchOf(m) == YLargest && r > 0.0 && (r == q.y || r == -q.y)
    ensures RawFromDcm(m, r) == if r == q.y then q else Negate(q)
  {
    DivideByRoot(q.y, q.z, r, m.m12 + m.m21);
    DivideByRoot(q.y, q.s, r, m.m20 - m.m02);
    DivideByRoot(q.y, q.x, r, m.m01 + m.m10);
  }

  lemma FromZ(q: Quat, m: Dcm, r: real)
    requires OffDiagonal(m, q) && BranchOf(m) == ZLargest && r > 0.0 && (r == q.z || r == -q.z)
    ensures RawFromDcm(m, r) == if r == q.z then q else Negate(q)
  {
    DivideByRoot(q.z, q.y, r, m.m12 + m.m21);
    DivideByRoot(q.z, q.x, r, m.m20 + m.m02);
    DivideByRoot(q.z, q.s, r, m.m01 - m.m10);
  }
}
