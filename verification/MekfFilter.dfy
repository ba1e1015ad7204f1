/** The filter object: reset, prediction, correction and update, and every run of them. */
module MekfFilter {
  import opened Octets
  import opened Matrices
  import opened Innovation
  import opened Quaternions
  import opened Mekf
  import opened MekfTrig
  import Products

  /** A call of `update`; `norm` is the norm of the measured quaternion. */
  datatype Event = Event(time: real, omega: Option<Vec3>, measured: Option<Quat>, norm: real)

  predicate EventOk(e: Event)
  {
    e.norm > 0.0 && (e.measured.Some? ==> IsSqrt(e.norm, NormSq(e.measured.value)))
  }

  predicate ConfigOk(c: Config)
  {
    c.sigmaStar != 0.0 && c.pTheta0 >= 0.0 && c.pBias0 >= 0.0
  }

  /** Covariance symmetric positive semidefinite, and the recorded norm that of the quaternion. */
  ghost predicate Inv(f: Filter)
  {
    Psd(f.p, 6) && f.qNorm > 0.0 && IsSqrt(f.qNorm, NormSq(f.q))
  }

  function Reset(c: Config, q: Quat, qNorm: real, omega: Vec3, time: real): Filter
  {
    Filter(InitialCovariance(c), q, qNorm, omega, Vec3(0.0, 0.0, 0.0), time, true)
  }

  function Predicted(c: Config, f: Filter, dt: real, omega: Vec3): Filter
    requires f.qNorm > 0.0
  {
    var w := Plus(omega, Times3(-1.0, f.b));
    f.(q := Multiply(c.trig.turn(dt, w), f.q, f.qNorm), qNorm := 1.0,
       p := Add(Congruence(c.trig.phi(dt, w), f.p), Q(c, dt)))
  }

  /** Twice the vector part of the innovation quaternion, as a column. */
  function Innovation3(f: Filter, measured: Quat, norm: real): (y: Matrix)
    requires norm > 0.0
    ensures Dim(y, 3, 1)
  {
    var q := Hemi(Multiply(measured, Conjugate(f.q), norm));
    [[2.0 * q.x], [2.0 * q.y], [2.0 * q.z]]
  }

  /** The state increment `K y`, rotation first and bias second. */
  function Increment(c: Config, f: Filter, measured: Quat, norm: real): (Vec3, Vec3)
    requires Dim(f.p, 6, 6) && Det3(InnovationCovariance(c, f.p)) != 0.0 && norm > 0.0
  {
    var dx := Mul(Gain(c, f.p), Innovation3(f, measured, norm));
    (Vec3(At(dx, 0, 0), At(dx, 1, 0), At(dx, 2, 0)), Vec3(At(dx, 3, 0), At(dx, 4, 0), At(dx, 5, 0)))
  }

  function Corrected(c: Config, f: Filter, measured: Quat, norm: real): Filter
    requires Dim(f.p, 6, 6) && Det3(InnovationCovariance(c, f.p)) != 0.0 && norm > 0.0 && f.qNorm > 0.0
  {
    var (dTheta, db) := Increment(c, f, measured, norm);
    f.(q := Hemi(Multiply(c.trig.rotation(dTheta), f.q, f.qNorm)), qNorm := 1.0,
       b := Plus(f.b, db), p := CorrectedCovariance(c, f.p, Gain(c, f.p), dTheta))
  }

  /** The rate a prediction uses: the midpoint when the last step had a gyro rate too. */
  function Rate(f: Filter, omega: Option<Vec3>): Vec3
  {
    if omega.Some? && f.prevUsedImu then Times3(0.5, Plus(f.lastOmega, omega.value)) else f.lastOmega
  }

  function AfterPrediction(c: Config, f: Filter, e: Event): Filter
    requires f.qNorm > 0.0
  {
    var g := Predicted(c, f, e.time - f.lastTime, Rate(f, e.omega));
    if e.omega.Some? then g.(lastOmega := e.omega.value, prevUsedImu := true) else g.(prevUsedImu := false)
  }

  ghost function Updated(c: Config, f: Filter, e: Event): Filter
    requires ConfigOk(c) && Inv(f) && e.time >= f.lastTime && EventOk(e)
  {
    PredictionKeepsInv(c, f, e);
    var g := AfterPrediction(c, f, e);
    InnovationPositive(c, g.p);
    var h := if e.measured.Some? then Corrected(c, g, e.measured.value, e.norm) else g;
    if e.omega.Some? || e.measured.Some? then h.(lastTime := e.time) else h
  }

  // ----- what each step keeps -----

  lemma ResetInv(c: Config, q: Quat, qNorm: real, omega: Vec3, time: real)
    requires ConfigOk(c) && qNorm > 0.0 && IsSqrt(qNorm, NormSq(q))
    ensures Inv(Reset(c, q, qNorm, omega, time))
  {
    InitialCovariancePsd(c);
  }

  /** Multiplying by a unit quaternion and dividing by the norm gives a unit quaternion. */
  lemma TurnIsUnit(u: Quat, q: Quat, n: real)
    requires Unit(u) && n > 0.0 && IsSqrt(n, NormSq(q))
    ensures Unit(Multiply(u, q, n))
  {
    ProductNorm(u, q);
    assert Products.Times(NormSq(u), NormSq(q)) == Products.Times(1.0, NormSq(q)) == NormSq(q);
    NormalizeUnit(RawProduct(u, q), n);
  }

  /** Propagation through any transition matrix, with process noise for a non-negative step. */
  lemma PropagationKeepsPsd(c: Config, p: Matrix, phi: Matrix66, dt: real)
    requires Psd(p, 6) && dt >= 0.0
    ensures Psd(Add(Congruence(phi, p), Q(c, dt)), 6)
  {
    CongruencePsd(phi, p, 6, 6);
    ProcessNoisePsd(c, dt);
    AddPsd(Congruence(phi, p), Q(c, dt), 6);
  }

  lemma PredictionKeepsInv(c: Config, f: Filter, e: Event)
    requires Inv(f) && e.time >= f.lastTime
    ensures Inv(AfterPrediction(c, f, e)) && Unit(AfterPrediction(c, f, e).q)
  {
    hide Multiply, Plus, Times3, Add, Congruence, Q, Rate, NormSq, Psd;
    var dt := e.time - f.lastTime;
    var w := Plus(Rate(f, e.omega), Times3(-1.0, f.b));
    PropagationKeepsPsd(c, f.p, c.trig.phi(dt, w), dt);
    TurnIsUnit(c.trig.turn(dt, w), f.q, f.qNorm);
  }

  lemma CorrectionKeepsInv(c: Config, f: Filter, measured: Quat, norm: real)
    requires ConfigOk(c) && Inv(f) && norm > 0.0
    ensures Det3(InnovationCovariance(c, f.p)) != 0.0
    ensures var g := Corrected(c, f, measured, norm); Inv(g) && Unit(g.q) && g.q.s >= 0.0
  {
    hide Multiply, NormSq, Gain, CorrectedCovariance, InnovationCovariance, Det3, Mul, Increment, Attitude, Hemi;
    InnovationPositive(c, f.p);
    var (dTheta, _) := Increment(c, f, measured, norm);
    CorrectionKeepsPsd(c, f.p, Gain(c, f.p), dTheta);
    TurnIsUnit(c.trig.rotation(dTheta), f.q, f.qNorm);
    HemiSameAttitude(Multiply(c.trig.rotation(dTheta), f.q, f.qNorm));
  }

  lemma UpdateKeepsInv(c: Config, f: Filter, e: Event)
    requires ConfigOk(c) && Inv(f) && e.time >= f.lastTime && EventOk(e)
    ensures var g := Updated(c, f, e);
      Inv(g) && Unit(g.q) && g.lastTime <= e.time && (e.measured.Some? ==> g.q.s >= 0.0)
  {
    PredictionKeepsInv(c, f, e);
    if e.measured.Some? {
      CorrectionKeepsInv(c, AfterPrediction(c, f, e), e.measured.value, e.norm);
    }
  }

  // ----- runs -----

  predicate TimesOrdered(start: real, events: seq<Event>)
  {
    (forall i :: 0 <= i < |events| ==> EventOk(events[i]) && events[i].time >= start) &&
    forall i, j :: 0 <= i < j < |events| ==> events[i].time <= events[j].time
  }

  /** The filter after a run of updates at non-decreasing times. */
  ghost function Run(c: Config, f: Filter, events: seq<Event>): (g: Filter)
    requires ConfigOk(c) && Inv(f) && TimesOrdered(f.lastTime, events)
    ensures Inv(g) && (events != [] ==> Unit(g.q))
    ensures events != [] ==> g.lastTime <= events[|events| - 1].time
    ensures events == [] ==> g == f
    decreases |events|
  {
    if events == [] then f
    else
      var n := |events| - 1;
      var g := Run(c, f, events[..n]);
      UpdateKeepsInv(c, g, events[n]);
      Updated(c, g, events[n])
  }

  /**
   For every run after a reset the covariance is symmetric positive semidefinite, the matrix the next
   correction inverts is positive definite, and the quaternion is a unit quaternion once updated.
   */
  lemma EveryRunIsSound(c: Config, q: Quat, qNorm: real, omega: Vec3, time: real, events: seq<Event>)
    requires ConfigOk(c) && qNorm > 0.0 && IsSqrt(qNorm, NormSq(q)) && TimesOrdered(time, events)
    ensures Inv(Reset(c, q, qNorm, omega, time))
    ensures var g := Run(c, Reset(c, q, qNorm, omega, time), events);
      Psd(g.p, 6) && PositiveDefinite(InnovationCovariance(c, g.p), 3) &&
      Det3(InnovationCovariance(c, g.p)) > 0.0 && (events != [] ==> Unit(g.q))
  {
    hide Unit, Run, InnovationCovariance, Det3, Psd;
    ResetInv(c, q, qNorm, omega, time);
    InnovationPositive(c, Run(c, Reset(c, q, qNorm, omega, time), events).p);
  }

  // ----- the object -----

  class MEKF {
    const config: Config
    const e: Elementary
    var p: Matrix
    var q: Quat
    var qNorm: real
    var lastOmega: Vec3
    var b: Vec3
    var lastTime: real
    var prevUsedImu: bool

    function View(): Filter
      reads this
    {
      Filter(p, q, qNorm, lastOmega, b, lastTime, prevUsedImu)
    }

    /** The noises are usable, and the trigonometry is that of sine, cosine and square root. */
    ghost predicate Valid()
    {
      ConfigOk(config) && Lawful(e) && config.trig == SourceTrig(e)
    }

    /** The filter after construction and its first reset. */
    constructor (sigmaStar: real, sigmaGyro: real, sigmaBias: real, pTheta0: real, pBias0: real, e: Elementary,
                 qInit: Quat, norm: real, omegaInit: Vec3, timeInit: real)
      requires Lawful(e) && sigmaStar != 0.0 && pTheta0 >= 0.0 && pBias0 >= 0.0
      requires norm > 0.0 && IsSqrt(norm, NormSq(qInit))
      ensures config == Config(sigmaStar, sigmaGyro, sigmaBias, pTheta0, pBias0, SourceTrig(e)) && this.e == e
      ensures Valid() && View() == Reset(config, qInit, norm, omegaInit, timeInit) && Inv(View())
    {
      var c := Config(sigmaStar, sigmaGyro, sigmaBias, pTheta0, pBias0, SourceTrig(e));
      config, this.e := c, e;
      q, qNorm, lastOmega, lastTime, prevUsedImu := qInit, norm, omegaInit, timeInit, true;
      b := Vec3(0.0, 0.0, 0.0);
      p := InitialCovariance(c);
      new;
      ResetInv(c, qInit, norm, omegaInit, timeInit);
    }

    method ResetState(qInit: Quat, norm: real, omegaInit: Vec3, timeInit: real)
      requires Valid() && norm > 0.0 && IsSqrt(norm, NormSq(qInit))
      modifies this
      ensures View() == Reset(config, qInit, norm, omegaInit, timeInit) && Inv(View())
    {
      q, qNorm, lastOmega, lastTime, prevUsedImu := qInit, norm, omegaInit, timeInit, true;
      b := Vec3(0.0, 0.0, 0.0);
      p := InitialCovariance(config);
      ResetInv(config, qInit, norm, omegaInit, timeInit);
    }

    method Prediction(dt: real, omega: Vec3)
      requires Valid() && qNorm > 0.0
      modifies this
      ensures View() == Predicted(config, old(View()), dt, omega)
      ensures var w := Plus(omega, Times3(-1.0, b));
        q == Multiply(Turn(e, dt, w), old(q), old(qNorm)) &&
        p == Add(Congruence(Phi(e, dt, w), old(p)), Q(config, dt))
    {
      hide Multiply, Plus, Times3, Add, Congruence, Q, Turn, Phi;
      var w := Plus(omega, Times3(-1.0, b));
      var phi := Phi(e, dt, w);
      q, qNorm := Multiply(Turn(e, dt, w), q, qNorm), 1.0;
      p := Add(Congruence(phi, p), Q(config, dt));
    }

    method Correction(measured: Quat, norm: real)
      requires Valid() && Dim(p, 6, 6) && Det3(InnovationCovariance(config, p)) != 0.0 && norm > 0.0 && qNorm > 0.0
      modifies this
      ensures View() == Corrected(config, old(View()), measured, norm)
    {
      hide Multiply, Hemi, Plus, Joseph, Gain, Mul, Scale, Add, Congruence, Rotation, Lawful;
      var k := Gain(config, p);
      var dx := Mul(k, Innovation3(View(), measured, norm));
      var dTheta := Vec3(At(dx, 0, 0), At(dx, 1, 0), At(dx, 2, 0));
      var db := Vec3(At(dx, 3, 0), At(dx, 4, 0), At(dx, 5, 0));
      q, qNorm := Hemi(Multiply(Rotation(e, dTheta), q, qNorm)), 1.0;
      b := Plus(b, db);
      var joseph := Joseph(config, p, k);
      var symmetric := Scale(0.5, Add(joseph, Transpose(joseph)));
      p := Congruence(ResetMap(dTheta), symmetric);
    }

    /** The prediction half of an update. */
    method PredictionFor(event: Event)
      requires Valid() && qNorm > 0.0
      modifies this
      ensures View() == AfterPrediction(config, old(View()), event)
    {
      hide Multiply, Plus, Times3, Add, Congruence, Q, Turn, Phi, Lawful;
      var dt := event.time - lastTime;
      if event.omega.Some? {
        if prevUsedImu {
          Prediction(dt, Times3(0.5, Plus(lastOmega, event.omega.value)));
        } else {
          Prediction(dt, lastOmega);
        }
        lastOmega := event.omega.value;
        prevUsedImu := true;
      } else {
        Prediction(dt, lastOmega);
        prevUsedImu := false;
      }
    }

    method Update(event: Event) returns (attitude: Quat, rate: Vec3)
      requires Valid() && Inv(View()) && event.time >= lastTime && EventOk(event)
      modifies this
      ensures View() == Updated(config, old(View()), event) && Inv(View()) && Unit(q)
      ensures attitude == q && rate == Plus(lastOmega, Times3(-1.0, b))
    {
      hide Multiply, Plus, Times3, Add, Congruence, Q, Unit, CorrectedCovariance, Increment, Psd, NormSq,
        InnovationCovariance, Det3, Lawful, Turn, Phi, Rotation;
      ghost var f := View();
      UpdateKeepsInv(config, f, event);
      PredictionKeepsInv(config, f, event);
      PredictionFor(event);
      InnovationPositive(config, p);
      if event.measured.Some? {
        Correction(event.measured.value, event.norm);
      }
      if event.omega.Some? || event.measured.Some? {
        lastTime := event.time;
      }
      return q, Plus(lastOmega, Times3(-1.0, b));
    }
  }
}
