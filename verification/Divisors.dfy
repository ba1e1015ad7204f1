/** Greatest common divisors with the identities the divider calculation rests on. */
module Divisors {
  import opened Algebra

  ghost predicate Divides(d: int, n: int)
  {
    exists k: int :: n == k * d
  }

  /** `math.gcd` of two natural numbers. */
  function Gcd(a: nat, b: nat): (g: nat)
    ensures g == 0 <==> a == 0 && b == 0
    decreases b
  {
    if b == 0 then a else Gcd(b, a % b)
  }

  /** Bezout coefficients of a and b. */
  function Bezout(a: nat, b: nat): (c: (int, int))
    decreases b
  {
    if b == 0 then (1, 0)
    else var (x, y) := Bezout(b, a % b); (y, x - a / b * y)
  }

  /** The quotients of a and b by their gcd. */
  function Cofactors(a: nat, b: nat): (c: (nat, nat))
    decreases b
  {
    if b == 0 then (1, 0)
    else var (p, q) := Cofactors(b, a % b); (a / b * p + q, p)
  }

  lemma {:induction false} CofactorsOfGcd(a: nat, b: nat)
    ensures var (p, q) := Cofactors(a, b); p * Gcd(a, b) == a && q * Gcd(a, b) == b
    decreases b
  {
    if b == 0 {
    } else {
      var g := Gcd(b, a % b);
      var (p, q) := Cofactors(b, a % b);
      CofactorsOfGcd(b, a % b);
      Distribute(a / b, p, q, g);
    }
  }

  lemma {:induction false} BezoutIdentity(a: nat, b: nat)
    ensures var (x, y) := Bezout(a, b); a * x + b * y == Gcd(a, b)
    decreases b
  {
    if b == 0 {
    } else {
      var (x, y) := Bezout(b, a % b);
      BezoutIdentity(b, a % b);
      BezoutStep(a, b, a / b, a % b, x, y);
    }
  }

  lemma BezoutStep(a: int, b: int, k: int, r: int, x: int, y: int)
    requires a == k * b + r
    ensures a * y + b * (x - k * y) == b * x + r * y
  {
    Distribute(k, b, r, y);
    Regroup(b, k, y);
  }

  /** Gcd is the greatest of the common divisors: it is one, and every other divides it. */
  lemma GcdIsGreatest(a: nat, b: nat, d: int)
    requires Divides(d, a) && Divides(d, b)
    ensures Divides(Gcd(a, b), a) && Divides(Gcd(a, b), b) && Divides(d, Gcd(a, b))
  {
    var (p, q) := Cofactors(a, b);
    CofactorsOfGcd(a, b);
    assert a == p * Gcd(a, b) && b == q * Gcd(a, b);
    var (x, y) := Bezout(a, b);
    BezoutIdentity(a, b);
    var i: int :| a == i * d;
    var j: int :| b == j * d;
    Combine(i, j, d, x, y);
    assert Gcd(a, b) == (i * x + j * y) * d;
  }

  lemma Combine(i: int, j: int, d: int, x: int, y: int)
    ensures i * d * x + j * d * y == (i * x + j * y) * d
  {
    Regroup(i, d, x);
    Regroup(j, d, y);
  }
}
