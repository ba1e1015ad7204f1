/** Real matrices by rows, and the algebra the covariance update rests on. */
module Matrices {
  type Matrix = seq<seq<real>>

  predicate Dim(m: Matrix, r: nat, c: nat)
  {
    |m| == r && forall i :: 0 <= i < r ==> |m[i]| == c
  }

  /** Entry (i, j), and 0 outside the matrix. */
  function At(m: Matrix, i: int, j: int): real
  {
    if 0 <= i < |m| && 0 <= j < |m[i]| then m[i][j] else 0.0
  }

  function Build(r: nat, c: nat, f: (int, int) -> real): (m: Matrix)
    ensures Dim(m, r, c)
    ensures forall i, j :: 0 <= i < r && 0 <= j < c ==> At(m, i, j) == f(i, j)
  {
    seq(r, i => seq(c, j => f(i, j)))
  }

  lemma Extensional(a: Matrix, b: Matrix, r: nat, c: nat)
    requires Dim(a, r, c) && Dim(b, r, c)
    requires forall i, j :: 0 <= i < r && 0 <= j < c ==> At(a, i, j) == At(b, i, j)
    ensures a == b
  {
    forall i | 0 <= i < r
      ensures a[i] == b[i]
    {
      forall j | 0 <= j < c
        ensures a[i][j] == b[i][j]
      {
        assert At(a, i, j) == At(b, i, j);
      }
    }
  }

  // ----- finite sums -----

  function Sum(f: int -> real, n: nat): real
  {
    if n == 0 then 0.0 else Sum(f, n - 1) + f(n - 1)
  }

  lemma {:induction false} SumEqual(f: int -> real, g: int -> real, n: nat)
    requires forall k :: 0 <= k < n ==> f(k) == g(k)
    ensures Sum(f, n) == Sum(g, n)
  {
    if n == 0 {
    } else {
      SumEqual(f, g, n - 1);
    }
  }

  lemma {:induction false} SumAdd(f: int -> real, g: int -> real, h: int -> real, n: nat)
    requires forall k :: 0 <= k < n ==> h(k) == f(k) + g(k)
    ensures Sum(h, n) == Sum(f, n) + Sum(g, n)
  {
    if n == 0 {
    } else {
      SumAdd(f, g, h, n - 1);
    }
  }

  lemma {:induction false} SumScale(c: real, f: int -> real, h: int -> real, n: nat)
    requires forall k :: 0 <= k < n ==> h(k) == c * f(k)
    ensures Sum(h, n) == c * Sum(f, n)
  {
    if n == 0 {
    } else {
      SumScale(c, f, h, n - 1);
    }
  }

  lemma {:induction false} SumZero(f: int -> real, n: nat)
    requires forall k :: 0 <= k < n ==> f(k) == 0.0
    ensures Sum(f, n) == 0.0
  {
    if n == 0 {
    } else {
      SumZero(f, n - 1);
    }
  }

  /** A sum with one non-zero term. */
  lemma {:induction false} SumSingle(f: int -> real, n: nat, i: int)
    requires 0 <= i < n && forall k :: 0 <= k < n && k != i ==> f(k) == 0.0
    ensures Sum(f, n) == f(i)
  {
    if i == n - 1 {
      SumZero(f, n - 1);
    } else {
      SumSingle(f, n - 1, i);
    }
  }

  /** A sum with two non-zero terms. */
  lemma {:induction false} SumPair(f: int -> real, n: nat, i: int, j: int)
    requires 0 <= i < j < n && forall k :: 0 <= k < n && k != i && k != j ==> f(k) == 0.0
    ensures Sum(f, n) == f(i) + f(j)
  {
    if j == n - 1 {
      SumSingle(f, n - 1, i);
    } else {
      SumPair(f, n - 1, i, j);
    }
  }

  function RowSums(f: (int, int) -> real, m: nat): int -> real
  {
    i => Sum(j => f(i, j), m)
  }

  function Flip(f: (int, int) -> real): (int, int) -> real
  {
    (i, j) => f(j, i)
  }

  lemma {:induction false} SumSwap(f: (int, int) -> real, n: nat, m: nat)
    ensures Sum(RowSums(f, m), n) == Sum(RowSums(Flip(f), n), m)
  {
    if n == 0 {
      SumZero(RowSums(Flip(f), 0), m);
    } else {
      SumSwap(f, n - 1, m);
      SumEqual(j => f(n - 1, j), j => Flip(f)(j, n - 1), m);
      forall j | 0 <= j < m
        ensures RowSums(Flip(f), n)(j) == RowSums(Flip(f), n - 1)(j) + f(n - 1, j)
      {
        SumEqual(i => Flip(f)(j, i), i => Flip(f)(j, i), n - 1);
      }
      SumAdd(RowSums(Flip(f), n - 1), j => f(n - 1, j), RowSums(Flip(f), n), m);
    }
  }

  // ----- operations -----

  type pos = n: nat | n > 0 witness 1

  function Cols(m: Matrix): nat
  {
    if m == [] then 0 else |m[0]|
  }

  function Transpose(m: Matrix): (t: Matrix)
    ensures Dim(t, Cols(m), |m|)
    ensures forall i, j :: 0 <= i < Cols(m) && 0 <= j < |m| ==> At(t, i, j) == At(m, j, i)
  {
    Build(Cols(m), |m|, (i, j) => At(m, j, i))
  }

  function Add(a: Matrix, b: Matrix): (m: Matrix)
    ensures Dim(m, |a|, Cols(a))
    ensures forall i, j :: 0 <= i < |a| && 0 <= j < Cols(a) ==> At(m, i, j) == At(a, i, j) + At(b, i, j)
  {
    Build(|a|, Cols(a), (i, j) => At(a, i, j) + At(b, i, j))
  }

  function Scale(c: real, a: Matrix): (m: Matrix)
    ensures Dim(m, |a|, Cols(a))
    ensures forall i, j :: 0 <= i < |a| && 0 <= j < Cols(a) ==> At(m, i, j) == c * At(a, i, j)
  {
    Build(|a|, Cols(a), (i, j) => c * At(a, i, j))
  }

  function Sub(a: Matrix, b: Matrix): (m: Matrix)
    ensures Dim(m, |a|, Cols(a))
  {
    Add(a, Scale(-1.0, b))
  }

  function Identity(n: nat): (m: Matrix)
    ensures Dim(m, n, n)
    ensures forall i, j :: 0 <= i < n && 0 <= j < n ==> At(m, i, j) == if i == j then 1.0 else 0.0
  {
    Build(n, n, (i, j) => if i == j then 1.0 else 0.0)
  }

  function Term(a: Matrix, b: Matrix, i: int, j: int): int -> real
  {
    k => At(a, i, k) * At(b, k, j)
  }

  function Mul(a: Matrix, b: Matrix): (m: Matrix)
    ensures Dim(m, |a|, Cols(b))
    ensures forall i, j :: 0 <= i < |a| && 0 <= j < Cols(b) ==> At(m, i, j) == Sum(Term(a, b, i, j), |b|)
  {
    Build(|a|, Cols(b), (i, j) => Sum(Term(a, b, i, j), |b|))
  }

  // ----- algebra -----

  lemma TransposeTwice(m: Matrix, r: pos, c: pos)
    requires Dim(m, r, c)
    ensures Transpose(Transpose(m)) == m
  {
    Extensional(Transpose(Transpose(m)), m, r, c);
  }

  lemma TransposeMul(a: Matrix, b: Matrix, r: pos, n: pos, c: pos)
    requires Dim(a, r, n) && Dim(b, n, c)
    ensures Transpose(Mul(a, b)) == Mul(Transpose(b), Transpose(a))
  {
    var x, y := Transpose(Mul(a, b)), Mul(Transpose(b), Transpose(a));
    forall i, j | 0 <= i < c && 0 <= j < r
      ensures At(x, i, j) == At(y, i, j)
    {
      SumEqual(Term(a, b, j, i), Term(Transpose(b), Transpose(a), i, j), n);
    }
    Extensional(x, y, c, r);
  }

  lemma TransposeAdd(a: Matrix, b: Matrix, r: pos, c: pos)
    requires Dim(a, r, c) && Dim(b, r, c)
    ensures Transpose(Add(a, b)) == Add(Transpose(a), Transpose(b))
  {
    Extensional(Transpose(Add(a, b)), Add(Transpose(a), Transpose(b)), c, r);
  }

  lemma TransposeScale(c: real, a: Matrix, r: pos, n: pos)
    requires Dim(a, r, n)
    ensures Transpose(Scale(c, a)) == Scale(c, Transpose(a))
  {
    Extensional(Transpose(Scale(c, a)), Scale(c, Transpose(a)), n, r);
  }

  /** The terms of entry (i, l) of a triple product. */
  function Triple(a: Matrix, b: Matrix, c: Matrix, i: int, l: int): (int, int) -> real
  {
    (j, k) => At(a, i, j) * At(b, j, k) * At(c, k, l)
  }

  lemma TripleLeft(a: Matrix, b: Matrix, c: Matrix, i: int, k: int, l: int, n: pos)
    requires Dim(b, n, Cols(b)) && 0 <= i < |a| && 0 <= k < Cols(b)
    ensures Term(Mul(a, b), c, i, l)(k) == RowSums(Flip(Triple(a, b, c, i, l)), n)(k)
  {
    var t := Triple(a, b, c, i, l);
    forall j | 0 <= j < n
      ensures Flip(t)(k, j) == At(c, k, l) * Term(a, b, i, k)(j)
    {
      Commute(At(a, i, j), At(b, j, k), At(c, k, l));
    }
    SumScale(At(c, k, l), Term(a, b, i, k), j => Flip(t)(k, j), n);
    SumEqual(j => Flip(t)(k, j), j => Flip(t)(k, j), n);
  }

  lemma TripleRight(a: Matrix, b: Matrix, c: Matrix, i: int, j: int, l: int, m: pos)
    requires Dim(c, m, Cols(c)) && 0 <= j < |b| && 0 <= l < Cols(c)
    ensures Term(a, Mul(b, c), i, l)(j) == RowSums(Triple(a, b, c, i, l), m)(j)
  {
    var t := Triple(a, b, c, i, l);
    forall k | 0 <= k < m
      ensures t(j, k) == At(a, i, j) * Term(b, c, j, l)(k)
    {
      Commute(At(a, i, j), At(b, j, k), At(c, k, l));
    }
    SumScale(At(a, i, j), Term(b, c, j, l), k => t(j, k), m);
    SumEqual(k => t(j, k), k => t(j, k), m);
  }

  lemma MulAssoc(a: Matrix, b: Matrix, c: Matrix, r: pos, n: pos, m: pos, q: pos)
    requires Dim(a, r, n) && Dim(b, n, m) && Dim(c, m, q)
    ensures Mul(Mul(a, b), c) == Mul(a, Mul(b, c))
  {
    var x, y := Mul(Mul(a, b), c), Mul(a, Mul(b, c));
    forall i, l | 0 <= i < r && 0 <= l < q
      ensures At(x, i, l) == At(y, i, l)
    {
      var t := Triple(a, b, c, i, l);
      forall k | 0 <= k < m
        ensures Term(Mul(a, b), c, i, l)(k) == RowSums(Flip(t), n)(k)
      {
        TripleLeft(a, b, c, i, k, l, n);
      }
      SumEqual(Term(Mul(a, b), c, i, l), RowSums(Flip(t), n), m);
      forall j | 0 <= j < n
        ensures Term(a, Mul(b, c), i, l)(j) == RowSums(t, m)(j)
      {
        TripleRight(a, b, c, i, j, l, m);
      }
      SumEqual(Term(a, Mul(b, c), i, l), RowSums(t, m), n);
      SumSwap(t, n, m);
    }
    Extensional(x, y, r, q);
  }

  lemma MulAddLeft(a: Matrix, b: Matrix, c: Matrix, r: pos, n: pos, q: pos)
    requires Dim(a, r, n) && Dim(b, r, n) && Dim(c, n, q)
    ensures Mul(Add(a, b), c) == Add(Mul(a, c), Mul(b, c))
  {
    var x, y := Mul(Add(a, b), c), Add(Mul(a, c), Mul(b, c));
    forall i, j | 0 <= i < r && 0 <= j < q
      ensures At(x, i, j) == At(y, i, j)
    {
      SumAdd(Term(a, c, i, j), Term(b, c, i, j), Term(Add(a, b), c, i, j), n);
    }
    Extensional(x, y, r, q);
  }

  lemma MulAddRight(a: Matrix, b: Matrix, c: Matrix, r: pos, n: pos, q: pos)
    requires Dim(a, r, n) && Dim(b, n, q) && Dim(c, n, q)
    ensures Mul(a, Add(b, c)) == Add(Mul(a, b), Mul(a, c))
  {
    var x, y := Mul(a, Add(b, c)), Add(Mul(a, b), Mul(a, c));
    forall i, j | 0 <= i < r && 0 <= j < q
      ensures At(x, i, j) == At(y, i, j)
    {
      SumAdd(Term(a, b, i, j), Term(a, c, i, j), Term(a, Add(b, c), i, j), n);
    }
    Extensional(x, y, r, q);
  }

  lemma Commute(a: real, b: real, c: real)
    ensures a * b * c == c * (a * b) == a * (b * c) == b * (a * c)
  {
  }

  lemma ScaledLeftTerm(s: real, a: Matrix, b: Matrix, i: int, j: int, k: int)
    requires 0 <= i < |a| && 0 <= k < Cols(a)
    ensures Term(Scale(s, a), b, i, j)(k) == s * Term(a, b, i, j)(k)
  {
    Commute(s, At(a, i, k), At(b, k, j));
  }

  lemma ScaledRightTerm(s: real, a: Matrix, b: Matrix, i: int, j: int, k: int)
    requires 0 <= k < |b| && 0 <= j < Cols(b)
    ensures Term(a, Scale(s, b), i, j)(k) == s * Term(a, b, i, j)(k)
  {
    Commute(At(a, i, k), s, At(b, k, j));
  }

  lemma MulScaleLeft(s: real, a: Matrix, b: Matrix, r: pos, n: pos, q: pos)
    requires Dim(a, r, n) && Dim(b, n, q)
    ensures Mul(Scale(s, a), b) == Scale(s, Mul(a, b))
  {
    var x, y := Mul(Scale(s, a), b), Scale(s, Mul(a, b));
    forall i, j | 0 <= i < r && 0 <= j < q
      ensures At(x, i, j) == At(y, i, j)
    {
      forall k | 0 <= k < n
        ensures Term(Scale(s, a), b, i, j)(k) == s * Term(a, b, i, j)(k)
      {
        ScaledLeftTerm(s, a, b, i, j, k);
      }
      SumScale(s, Term(a, b, i, j), Term(Scale(s, a), b, i, j), n);
    }
    Extensional(x, y, r, q);
  }

  lemma MulScaleRight(s: real, a: Matrix, b: Matrix, r: pos, n: pos, q: pos)
    requires Dim(a, r, n) && Dim(b, n, q)
    ensures Mul(a, Scale(s, b)) == Scale(s, Mul(a, b))
  {
    var x, y := Mul(a, Scale(s, b)), Scale(s, Mul(a, b));
    forall i, j | 0 <= i < r && 0 <= j < q
      ensures At(x, i, j) == At(y, i, j)
    {
      forall k | 0 <= k < n
        ensures Term(a, Scale(s, b), i, j)(k) == s * Term(a, b, i, j)(k)
      {
        ScaledRightTerm(s, a, b, i, j, k);
      }
      SumScale(s, Term(a, b, i, j), Term(a, Scale(s, b), i, j), n);
    }
    Extensional(x, y, r, q);
  }

  lemma MulIdentity(a: Matrix, r: pos, n: pos)
    requires Dim(a, r, n)
    ensures Mul(Identity(r), a) == a == Mul(a, Identity(n))
  {
    var x, y := Mul(Identity(r), a), Mul(a, Identity(n));
    forall i, j | 0 <= i < r && 0 <= j < n
      ensures At(x, i, j) == At(a, i, j) == At(y, i, j)
    {
      SumSingle(Term(Identity(r), a, i, j), r, i);
      SumSingle(Term(a, Identity(n), i, j), n, j);
    }
    Extensional(x, a, r, n);
    Extensional(y, a, r, n);
  }

  lemma TransposeIdentity(n: pos)
    ensures Transpose(Identity(n)) == Identity(n)
  {
    Extensional(Transpose(Identity(n)), Identity(n), n, n);
  }

  // ----- quadratic forms -----

  /** `x.T @ p @ x` for a column x. */
  function Quad(x: Matrix, p: Matrix): real
  {
    At(Mul(Mul(Transpose(x), p), x), 0, 0)
  }

  predicate Symmetric(p: Matrix, n: nat)
  {
    Dim(p, n, n) && Transpose(p) == p
  }

  /** Symmetric positive semidefinite. */
  ghost predicate Psd(p: Matrix, n: nat)
  {
    Symmetric(p, n) && forall x :: Dim(x, n, 1) ==> Quad(x, p) >= 0.0
  }

  ghost predicate PositiveDefinite(p: Matrix, n: nat)
  {
    Symmetric(p, n) &&
    forall x :: Dim(x, n, 1) && (exists i :: 0 <= i < n && At(x, i, 0) != 0.0) ==> Quad(x, p) > 0.0
  }

  /** `a @ p @ a.T`. */
  function Congruence(a: Matrix, p: Matrix): (m: Matrix)
    ensures Cols(a) > 0 ==> Dim(m, |a|, |a|)
  {
    Mul(Mul(a, p), Transpose(a))
  }

  lemma CongruenceSymmetric(a: Matrix, p: Matrix, r: pos, n: pos)
    requires Dim(a, r, n) && Symmetric(p, n)
    ensures Symmetric(Congruence(a, p), r)
  {
    TransposeMul(Mul(a, p), Transpose(a), r, n, r);
    TransposeMul(a, p, r, n, n);
    TransposeTwice(a, r, n);
    MulAssoc(a, p, Transpose(a), r, n, n, r);
  }

  lemma QuadCongruence(x: Matrix, a: Matrix, p: Matrix, r: pos, n: pos)
    requires Dim(x, r, 1) && Dim(a, r, n) && Dim(p, n, n)
    ensures Quad(x, Congruence(a, p)) == Quad(Mul(Transpose(a), x), p)
  {
    var xt, at := Transpose(x), Transpose(a);
    TransposeMul(at, x, n, r, 1);
    TransposeTwice(a, r, n);
    calc {
      Mul(Mul(xt, Mul(Mul(a, p), at)), x);
      { MulAssoc(xt, Mul(a, p), at, 1, r, n, r); }
      Mul(Mul(Mul(xt, Mul(a, p)), at), x);
      { MulAssoc(Mul(xt, Mul(a, p)), at, x, 1, n, r, 1); }
      Mul(Mul(xt, Mul(a, p)), Mul(at, x));
      { MulAssoc(xt, a, p, 1, r, n, n); }
      Mul(Mul(Mul(xt, a), p), Mul(at, x));
    }
  }

  /** A congruence of a positive semidefinite matrix is one. */
  lemma CongruencePsd(a: Matrix, p: Matrix, r: pos, n: pos)
    requires Dim(a, r, n) && Psd(p, n)
    ensures Psd(Congruence(a, p), r)
  {
    CongruenceSymmetric(a, p, r, n);
    forall x | Dim(x, r, 1)
      ensures Quad(x, Congruence(a, p)) >= 0.0
    {
      QuadCongruence(x, a, p, r, n);
    }
  }

  lemma QuadAdd(x: Matrix, p: Matrix, q: Matrix, n: pos)
    requires Dim(x, n, 1) && Dim(p, n, n) && Dim(q, n, n)
    ensures Quad(x, Add(p, q)) == Quad(x, p) + Quad(x, q)
  {
    var xt := Transpose(x);
    MulAddRight(xt, p, q, 1, n, n);
    MulAddLeft(Mul(xt, p), Mul(xt, q), x, 1, n, 1);
  }

  lemma QuadScale(x: Matrix, s: real, p: Matrix, n: pos)
    requires Dim(x, n, 1) && Dim(p, n, n)
    ensures Quad(x, Scale(s, p)) == s * Quad(x, p)
  {
    var xt := Transpose(x);
    MulScaleRight(s, xt, p, 1, n, n);
    MulScaleLeft(s, Mul(xt, p), x, 1, n, 1);
  }

  lemma AddPsd(p: Matrix, q: Matrix, n: pos)
    requires Psd(p, n) && Psd(q, n)
    ensures Psd(Add(p, q), n)
  {
    TransposeAdd(p, q, n, n);
    forall x | Dim(x, n, 1)
      ensures Quad(x, Add(p, q)) >= 0.0
    {
      QuadAdd(x, p, q, n);
    }
  }

  /** Over the reals, averaging a symmetric matrix with its transpose changes nothing. */
  lemma SymmetrizeIsIdentity(p: Matrix, n: pos)
    requires Symmetric(p, n)
    ensures Scale(0.5, Add(p, Transpose(p))) == p
  {
    Extensional(Scale(0.5, Add(p, Transpose(p))), p, n, n);
  }

  // ----- congruences -----

  lemma CongruenceAdd(k: Matrix, p: Matrix, q: Matrix, r: pos, n: pos)
    requires Dim(k, r, n) && Dim(p, n, n) && Dim(q, n, n)
    ensures Congruence(k, Add(p, q)) == Add(Congruence(k, p), Congruence(k, q))
  {
    MulAddRight(k, p, q, r, n, n);
    MulAddLeft(Mul(k, p), Mul(k, q), Transpose(k), r, n, r);
  }

  lemma CongruenceOfProduct(a: Matrix, b: Matrix, p: Matrix, r: pos, m: pos, n: pos)
    requires Dim(a, r, m) && Dim(b, m, n) && Dim(p, n, n)
    ensures Congruence(Mul(a, b), p) == Congruence(a, Congruence(b, p))
  {
    TransposeMul(a, b, r, m, n);
    var at, bt := Transpose(a), Transpose(b);
    calc {
      Mul(Mul(Mul(a, b), p), Mul(bt, at));
      { MulAssoc(a, b, p, r, m, n, n); }
      Mul(Mul(a, Mul(b, p)), Mul(bt, at));
      { MulAssoc(Mul(a, Mul(b, p)), bt, at, r, n, m, r); }
      Mul(Mul(Mul(a, Mul(b, p)), bt), at);
      { MulAssoc(a, Mul(b, p), bt, r, m, n, m); }
      Mul(Mul(a, Mul(Mul(b, p), bt)), at);
    }
  }

  /** `(I - m) p (I - m).T`, multiplied out. */
  lemma CongruenceOfComplement(m: Matrix, p: Matrix, n: pos)
    requires Dim(m, n, n) && Dim(p, n, n)
    ensures Congruence(Sub(Identity(n), m), p) ==
      Add(Sub(p, Mul(m, p)), Sub(Congruence(m, p), Mul(p, Transpose(m))))
  {
    var i, mt := Identity(n), Transpose(m);
    var a, at := Sub(i, m), Sub(i, mt);
    assert Transpose(a) == at by {
      TransposeAdd(i, Scale(-1.0, m), n, n);
      TransposeScale(-1.0, m, n, n);
      TransposeIdentity(n);
    }
    var ap := Sub(p, Mul(m, p));
    assert Mul(a, p) == ap by {
      ComplementTimes(m, p, n, n);
    }
    TimesComplement(ap, mt, n);
    assert Mul(ap, mt) == Sub(Mul(p, mt), Mul(Mul(m, p), mt)) by {
      MulAddLeft(p, Scale(-1.0, Mul(m, p)), mt, n, n, n);
      MulScaleLeft(-1.0, Mul(m, p), mt, n, n, n);
    }
    Extensional(Sub(ap, Mul(ap, mt)), Add(ap, Sub(Mul(Mul(m, p), mt), Mul(p, mt))), n, n);
  }

  lemma ComplementTimes(m: Matrix, b: Matrix, n: pos, c: pos)
    requires Dim(m, n, n) && Dim(b, n, c)
    ensures Mul(Sub(Identity(n), m), b) == Sub(b, Mul(m, b))
  {
    MulAddLeft(Identity(n), Scale(-1.0, m), b, n, n, c);
    MulScaleLeft(-1.0, m, b, n, n, c);
    MulIdentity(b, n, c);
  }

  lemma TimesComplement(a: Matrix, m: Matrix, n: pos)
    requires Dim(a, n, n) && Dim(m, n, n)
    ensures Mul(a, Sub(Identity(n), m)) == Sub(a, Mul(a, m))
  {
    MulAddRight(a, Identity(n), Scale(-1.0, m), n, n, n);
    MulScaleRight(-1.0, a, m, n, n, n);
    MulIdentity(a, n, n);
  }
}
