/** The Si41xx synthesizer driver: divider calculation, serial transmitter and register writes. */
module Si41xxDividers {
  import opened Algebra
  import opened Octets
  import opened Divisors

  const MAX_PHASEDET := 1_000_000
  const MIN_PHASEDET := 10_000
  const MAX_NDIV := 0xFFFF
  const MAX_RDIV := 0x1FFF

  datatype Error = ZeroFrequency | NoPhaseDetector | OutOfBounds | DataTooWide | BadDivider | AlreadyStarted

  // ----- dividers -----

  /** Python's floor division by a positive divisor. */
  function FloorDiv(a: int, b: nat): int
    requires b > 0
  {
    a / b
  }

  function Abs(a: int): nat
  {
    if a < 0 then -a else a
  }

  /** The phase detector frequency: halved, rounding down, until below the maximum. */
  function PhaseDet(p: nat): nat
  {
    if p >= MAX_PHASEDET then PhaseDet(p / 2) else p
  }

  function Halvings(p: nat): nat
  {
    if p >= MAX_PHASEDET then 1 + Halvings(p / 2) else 0
  }

  /** What calc_div returns or raises. */
  function Dividers(refFreq: int, freq: int): Result<(int, int), Error>
  {
    if freq == 0 then Err(ZeroFrequency)
    else
      var p := PhaseDet(Gcd(Abs(refFreq), Abs(freq)));
      if p < MIN_PHASEDET then Err(NoPhaseDetector)
      else
        var n, r := FloorDiv(freq, p), FloorDiv(refFreq, p);
        if n > MAX_NDIV || r > MAX_RDIV then Err(OutOfBounds) else Ok((n, r))
  }

  method CalcDiv(refFreq: int, freq: int) returns (r: Result<(int, int), Error>)
    ensures r == Dividers(refFreq, freq)
    ensures freq > 0 && refFreq > 0 && r.Ok? ==>
      r.value.0 * refFreq == r.value.1 * freq && 0 < r.value.0 <= MAX_NDIV && 0 < r.value.1 <= MAX_RDIV
  {
    if freq == 0 { return Err(ZeroFrequency); }
    var phasedet := Gcd(Abs(refFreq), Abs(freq));
    ghost var g := phasedet;
    while phasedet >= MAX_PHASEDET
      invariant phasedet > 0 && PhaseDet(phasedet) == PhaseDet(g)
      decreases phasedet
    {
      phasedet := phasedet / 2;
    }
    if phasedet < MIN_PHASEDET { return Err(NoPhaseDetector); }
    var ndiv, rdiv := FloorDiv(freq, phasedet), FloorDiv(refFreq, phasedet);
    if ndiv > MAX_NDIV || rdiv > MAX_RDIV { return Err(OutOfBounds); }
    if freq > 0 && refFreq > 0 {
      DividersExact(refFreq, freq);
    }
    return Ok((ndiv, rdiv));
  }

  /**
   Halving loses less than one part in 2^k, and after any halving the result is at least half the
   maximum: so it exceeds every accepted divider.
   */
  lemma {:induction false} HalvingBounds(p: nat)
    ensures var k, d := Halvings(p), PhaseDet(p);
      d * Pow2(k) <= p < (d + 1) * Pow2(k) && d < MAX_PHASEDET &&
      (k > 0 ==> d >= MAX_PHASEDET / 2)
    decreases p
  {
    if p < MAX_PHASEDET {
    } else {
      HalvingBounds(p / 2);
      var k, d := Halvings(p / 2), PhaseDet(p / 2);
      assert (d * Pow2(k)) * 2 == d * Pow2(k + 1);
      assert ((d + 1) * Pow2(k)) * 2 == (d + 1) * Pow2(k + 1);
    }
  }

  /** A quotient by the truncated divisor that stays below the divisor is the exact multiple. */
  lemma QuotientExact(c: nat, g: nat, d: nat, w: nat, bound: nat)
    requires d > 0 && d * w <= g < (d + 1) * w && (w == 1 || bound < d)
    requires c * g / d <= bound
    ensures c * g / d == c * w
  {
    var e := g - d * w;
    assert c * g == (c * w) * d + c * e by {
      assert g == d * w + e;
      Regroup(c, w, d);
    }
    MulMonotone(c, 0, e);
    QuotientAtLeast(c * g, d, c * w);
    MulMonotone(c, e, w);
    if w == 1 {
      assert e == 0;
    }
    QuotientUnique(c * g, d, c * w);
  }

  /** Whenever dividers are returned for positive frequencies, they synthesize freq exactly. */
  lemma DividersExact(refFreq: nat, freq: nat)
    requires refFreq > 0 && freq > 0 && Dividers(refFreq, freq).Ok?
    ensures var (n, r) := Dividers(refFreq, freq).value;
      n * refFreq == r * freq && 0 < n && 0 < r
  {
    var g := Gcd(refFreq, freq);
    var (r', f') := Cofactors(refFreq, freq);
    CofactorsOfGcd(refFreq, freq);
    HalvingBounds(g);
    var w := Pow2(Halvings(g));
    QuotientExact(f', g, PhaseDet(g), w, MAX_NDIV);
    QuotientExact(r', g, PhaseDet(g), w, MAX_RDIV);
    CrossMultiply(f', r', w, g);
    PositiveFactor(f', g);
    PositiveFactor(r', g);
    MulMonotone(w, 1, f');
    MulMonotone(w, 1, r');
  }

  lemma CrossMultiply(f: int, r: int, w: int, g: int)
    ensures (f * w) * (r * g) == (r * w) * (f * g)
  {
    calc {
      (f * w) * (r * g);
      { Regroup(f, w, r * g); Regroup(w, r, g); Regroup(r, w, g); }
      f * (r * (w * g));
      { Regroup(f, r, w * g); }
      r * (f * (w * g));
      { Regroup(f, w, g); Regroup(r, w, f * g); }
      (r * w) * (f * g);
    }
  }

  /** The reduced pair has Bezout coefficients summing to one. */
  lemma CofactorsCoprime(a: nat, b: nat)
    requires a > 0
    ensures var ((p, q), (x, y)) := (Cofactors(a, b), Bezout(a, b)); p * x + q * y == 1
  {
    var ((p, q), (x, y)) := (Cofactors(a, b), Bezout(a, b));
    var g := Gcd(a, b);
    CofactorsOfGcd(a, b);
    BezoutIdentity(a, b);
    Regroup(p, g, x);
    Regroup(q, g, y);
    Distribute(1, p * x, q * y, g);
    CancelFactor(p * x + q * y, 1, g);
  }

  /** Any pair with the right ratio is a common multiple of the reduced pair. */
  lemma RatioReduces(refFreq: nat, freq: nat, n: nat, r: nat) returns (m: int)
    requires refFreq > 0 && freq > 0 && n * refFreq == r * freq
    ensures var (r', f') := Cofactors(refFreq, freq); n == m * f' && r == m * r'
  {
    var g := Gcd(refFreq, freq);
    var (r', f') := Cofactors(refFreq, freq);
    var (x, y) := Bezout(refFreq, freq);
    CofactorsOfGcd(refFreq, freq);
    CofactorsCoprime(refFreq, freq);
    Regroup(n, r', g);
    Regroup(r, f', g);
    CancelFactor(n * r', r * f', g);
    m := r * x + n * y;
    MultipleOfReduced(n, r, r', f', x, y);
  }

  lemma MultipleOfReduced(n: int, r: int, p: int, q: int, x: int, y: int)
    requires n * p == r * q && p * x + q * y == 1
    ensures n == (r * x + n * y) * q && r == (r * x + n * y) * p
  {
    calc {
      (r * x + n * y) * q;
      { Distribute(r, x, n * y, q); Regroup(r, x, q); Regroup(n, y, q); }
      (r * q) * x + n * (q * y);
      (n * p) * x + n * (q * y);
      { Regroup(n, p, x); Distribute(1, p * x, q * y, n); }
      n * (p * x + q * y);
      n;
    }
    calc {
      (r * x + n * y) * p;
      { Distribute(r, x, n * y, p); Regroup(r, x, p); Regroup(n, y, p); }
      r * (p * x) + (n * p) * y;
      r * (p * x) + (r * q) * y;
      { Regroup(r, q, y); Distribute(1, p * x, q * y, r); }
      r * (p * x + q * y);
      r;
    }
  }

  /** Conversely, a multiple within its bound is the quotient. */
  lemma MultipleIsQuotient(c: nat, g: nat, d: nat, w: nat, bound: nat)
    requires d > 0 && d * w <= g < (d + 1) * w && (w == 1 || bound < d)
    requires c * w <= bound
    ensures c * g / d == c * w
  {
    var e := g - d * w;
    assert c * g == (c * w) * d + c * e by {
      assert g == d * w + e;
      Regroup(c, w, d);
    }
    MulMonotone(c, 0, e);
    MulMonotone(c, e, w);
    if w == 1 {
      assert e == 0;
    }
    QuotientUnique(c * g, d, c * w);
  }

  /**
   Exactly when dividers are returned, and which: with (r, f) the frequencies in lowest terms, they
   are f and r scaled by the power of two that halving put back, and must fit as such.
   */
  lemma AcceptedIff(refFreq: nat, freq: nat)
    requires refFreq > 0 && freq > 0
    ensures var g := Gcd(refFreq, freq);
      var (r, f) := Cofactors(refFreq, freq);
      var w := Pow2(Halvings(g));
      (Dividers(refFreq, freq).Ok? <==> g >= 10_000 && f * w <= 0xFFFF && r * w <= 0x1FFF) &&
      (Dividers(refFreq, freq).Ok? ==> Dividers(refFreq, freq).value == (f * w, r * w)) &&
      (Dividers(refFreq, freq) == Err(OutOfBounds) <==>
         g >= 10_000 && !(f * w <= 0xFFFF && r * w <= 0x1FFF))
  {
    var g := Gcd(refFreq, freq);
    var (r, f) := Cofactors(refFreq, freq);
    CofactorsOfGcd(refFreq, freq);
    HalvingBounds(g);
    var d, w := PhaseDet(g), Pow2(Halvings(g));
    assert d >= MIN_PHASEDET <==> g >= MIN_PHASEDET;
    if d >= MIN_PHASEDET {
      QuotientAcceptedIff(f, g, d, w, MAX_NDIV);
      QuotientAcceptedIff(r, g, d, w, MAX_RDIV);
    }
  }

  lemma QuotientAcceptedIff(c: nat, g: nat, d: nat, w: nat, bound: nat)
    requires d > 0 && d * w <= g < (d + 1) * w && (w == 1 || bound < d)
    ensures c * g / d <= bound <==> c * w <= bound
    ensures c * g / d <= bound ==> c * g / d == c * w
  {
    if c * g / d <= bound {
      QuotientExact(c, g, d, w, bound);
    }
    if c * w <= bound {
      MultipleIsQuotient(c, g, d, w, bound);
    }
  }

  // ----- what could have been programmed -----

  /** A pair of register values whose ratio is the requested one. */
  predicate HasRatio(refFreq: nat, freq: nat, n: nat, r: nat)
  {
    0 < n <= 0xFFFF && 0 < r <= 0x1FFF && n * refFreq == r * freq
  }

  /** The phase detector runs at the reference divided by r, within its limits. */
  predicate InLimits(refFreq: nat, r: nat)
  {
    10_000 * r <= refFreq < 1_000_000 * r
  }

  /** Some pair of dividers the chip can be given has the requested ratio. */
  ghost predicate Programmable(refFreq: nat, freq: nat)
  {
    exists n: nat, r: nat :: HasRatio(refFreq, freq, n, r) && InLimits(refFreq, r)
  }

  /** The least divisor that brings the greatest common divisor below the detector's maximum. */
  function LeastScale(g: nat): (m: nat)
    ensures m > 0 && (m - 1) * 1_000_000 <= g < m * 1_000_000
  {
    g / 1_000_000 + 1
  }

  lemma ScaledLimits(g: nat, r: nat, k: nat)
    requires r > 0
    ensures InLimits(r * g, k * r) <==> 10_000 * k <= g < 1_000_000 * k
  {
    Regroup(MIN_PHASEDET, k, r);
    Regroup(MAX_PHASEDET, k, r);
    Scaling(MIN_PHASEDET * k, g, r);
    Scaling(g + 1, MAX_PHASEDET * k, r);
    Scaling(MAX_PHASEDET * k, g, r);
  }

  lemma Scaling(a: int, b: int, r: nat)
    requires r > 0
    ensures a <= b <==> a * r <= b * r
  {
    if a <= b {
      MulMonotone(r, a, b);
    } else {
      MulMonotone(r, b + 1, a);
    }
  }

  /**
   A ratio can be programmed, with the detector within its limits, exactly when the frequencies in lowest
   terms fit once they are scaled to bring their greatest common divisor below the detector's maximum.
   */
  lemma ProgrammableIff(refFreq: nat, freq: nat)
    requires refFreq > 0 && freq > 0
    ensures var g := Gcd(refFreq, freq);
      var (r, f) := Cofactors(refFreq, freq);
      Programmable(refFreq, freq) <==>
        g >= MIN_PHASEDET && LeastScale(g) * f <= MAX_NDIV && LeastScale(g) * r <= MAX_RDIV
  {
    var g := Gcd(refFreq, freq);
    var (r', f') := Cofactors(refFreq, freq);
    var m := LeastScale(g);
    CofactorsOfGcd(refFreq, freq);
    PositiveFactor(r', g);
    PositiveFactor(f', g);
    forall n: nat, r: nat | HasRatio(refFreq, freq, n, r) && InLimits(refFreq, r)
      ensures g >= MIN_PHASEDET && m * f' <= MAX_NDIV && m * r' <= MAX_RDIV
    {
      var k := RatioReduces(refFreq, freq, n, r);
      PositiveFactor(k, f');
      ScaledLimits(g, r', k);
      MulMonotone(f', m, k);
      MulMonotone(r', m, k);
    }
    if g >= MIN_PHASEDET && m * f' <= MAX_NDIV && m * r' <= MAX_RDIV {
      CrossMultiply(f', r', m, g);
      MulMonotone(m, 1, f');
      MulMonotone(m, 1, r');
      ScaledLimits(g, r', m);
      assert HasRatio(refFreq, freq, m * f', m * r') && InLimits(refFreq, m * r');
    }
  }

  /** Halving never scales by less than that, and below twice the maximum by no more. */
  lemma HalvingOvershoots(g: nat)
    ensures LeastScale(g) <= Pow2(Halvings(g))
    ensures g < 2 * MAX_PHASEDET ==> LeastScale(g) == Pow2(Halvings(g))
  {
    HalvingBounds(g);
    var w := Pow2(Halvings(g));
    MulMonotone(w, PhaseDet(g) + 1, MAX_PHASEDET);
  }

  /**
   Giving up is unjustified, for a pair within every limit has the ratio, exactly when the frequencies in
   lowest terms fit scaled by the least that would do, but not scaled by the power of two of the halvings.
   */
  lemma UnjustifiedIff(refFreq: nat, freq: nat)
    requires refFreq > 0 && freq > 0
    ensures var g := Gcd(refFreq, freq);
      var (r, f) := Cofactors(refFreq, freq);
      var (m, w) := (LeastScale(g), Pow2(Halvings(g)));
      Dividers(refFreq, freq).Err? && Programmable(refFreq, freq) <==>
        g >= MIN_PHASEDET && m * f <= MAX_NDIV && m * r <= MAX_RDIV && (f * w > MAX_NDIV || r * w > MAX_RDIV)
  {
    ProgrammableIff(refFreq, freq);
    AcceptedIff(refFreq, freq);
  }

  /** So the bounds error is justified exactly when the least scale is too much, and below twice the maximum. */
  lemma BoundsErrorJustified(refFreq: nat, freq: nat)
    requires refFreq > 0 && freq > 0 && Dividers(refFreq, freq) == Err(OutOfBounds)
    ensures var (r, f) := Cofactors(refFreq, freq);
      var m := LeastScale(Gcd(refFreq, freq));
      !Programmable(refFreq, freq) <==> m * f > MAX_NDIV || m * r > MAX_RDIV
    ensures Gcd(refFreq, freq) < 2 * MAX_PHASEDET ==> !Programmable(refFreq, freq)
  {
    ProgrammableIff(refFreq, freq);
    AcceptedIff(refFreq, freq);
    HalvingOvershoots(Gcd(refFreq, freq));
  }

  /** The error of no detector frequency always is. */
  lemma NoDetectorJustified(refFreq: nat, freq: nat)
    requires refFreq > 0 && freq > 0 && Dividers(refFreq, freq) == Err(NoPhaseDetector)
    ensures !Programmable(refFreq, freq)
  {
    ProgrammableIff(refFreq, freq);
    AcceptedIff(refFreq, freq);
  }

  /** A bounds error that is not: this ratio is 60000 to 3, with a phase detector at 700 kHz. */
  lemma BoundsErrorUnjustified()
    ensures Dividers(2_100_000, 42_000_000_000) == Err(OutOfBounds)
    ensures HasRatio(2_100_000, 42_000_000_000, 60_000, 3) && InLimits(2_100_000, 3)
    ensures Programmable(2_100_000, 42_000_000_000)
    ensures 42_000_000_000 / 60_000 == 2_100_000 / 3 == 700_000
  {
    assert Gcd(2_100_000, 42_000_000_000) == 2_100_000;
    assert PhaseDet(525_000) == 525_000 && PhaseDet(1_050_000) == 525_000 && PhaseDet(2_100_000) == 525_000;
    assert HasRatio(2_100_000, 42_000_000_000, 60_000, 3) && InLimits(2_100_000, 3);
  }

  /** One that is, although the ratio fits in lowest terms, 2000 to 1: the detector would run at 60 MHz. */
  lemma RatioAloneIsNotEnough()
    ensures Dividers(60_000_000, 120_000_000_000) == Err(OutOfBounds)
    ensures HasRatio(60_000_000, 120_000_000_000, 2000, 1) && !Programmable(60_000_000, 120_000_000_000)
  {
    assert Gcd(60_000_000, 120_000_000_000) == 60_000_000;
    assert Cofactors(60_000_000, 120_000_000_000) == (1, 2000);
    assert LeastScale(60_000_000) == 61;
    ProgrammableIff(60_000_000, 120_000_000_000);
    assert Halvings(937_500) == 0 && Halvings(1_875_000) == 1 && Halvings(3_750_000) == 2;
    assert Halvings(7_500_000) == 3 && Halvings(15_000_000) == 4 && Halvings(30_000_000) == 5;
    AcceptedIff(60_000_000, 120_000_000_000);
  }
}
