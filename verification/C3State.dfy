/** The C3 state machine: one loop step over clock readings, and the antenna deployment it guards. */
module C3State {

  const OFFLINE := 65
  const PRE_DEPLOY := 66
  const DEPLOY := 67
  const STANDBY := 68
  const BEACON := 69
  const EDL := 70

  const DETUMBLE := 3

  predicate IsState(v: int)
  {
    OFFLINE <= v <= EDL
  }

  /** One firing of the antennas, with the reattempt timeout it was checked against. */
  datatype Firing = Firing(start: real, end: real, timeout: int)

  /** What one loop reads from outside: clocks, and objects other parts of the system may write. */
  datatype Readings = Readings(
    wall: real,
    now: real,
    after: real,
    attempts: int,
    preDeployTimeout: int,
    reattemptTimeout: int,
    txTimeout: int,
    lastEdl: int,
    edlTimeout: int,
    resetTimeout: int,
    mayReset: bool,
    updating: bool)

  datatype C3 = C3(
    state: int,
    lastState: int,
    deployed: bool,
    attempts: nat,
    lastDeploy: real,
    startTime: real,
    txEnable: bool,
    lastTxEnable: int,
    controlMode: int,
    loops: nat,
    fired: seq<Firing>,
    resets: nat,
    stores: nat)

  /** Something that happens to the machine; a raised loop may or may not be followed by others. */
  datatype Event = Loop(r: Readings) | WriteState(v: int) | WriteTxEnable(on: bool, wall: real)

  function Trunc(x: real): int
  {
    if x >= 0.0 then x.Floor else -(-x).Floor
  }

  predicate TxTimedOut(s: C3, r: Readings)
  {
    r.wall - s.lastTxEnable as real > r.txTimeout as real
  }

  /** `has_edl_timed_out`: despite its name, a telecommand came recently. */
  predicate EdlRecent(r: Readings)
  {
    r.wall - r.lastEdl as real < r.edlTimeout as real
  }

  predicate ResetTimedOut(s: C3, r: Readings)
  {
    r.mayReset && r.now - s.startTime > r.resetTimeout as real
  }

  function RequestReset(s: C3, r: Readings): C3
  {
    if r.updating then s else s.(resets := s.resets + 1)
  }

  function PreDeployed(s: C3, r: Readings): C3
  {
    if r.now - s.startTime < r.preDeployTimeout as real then
      if s.txEnable then s else s.(txEnable := true, lastTxEnable := Trunc(r.wall))
    else s.(state := DEPLOY)
  }

  function Deployed(s: C3, r: Readings): C3
  {
    if !s.deployed && s.attempts < r.attempts then
      if r.now > s.lastDeploy + r.reattemptTimeout as real then
        s.(fired := s.fired + [Firing(r.now, r.after, r.reattemptTimeout)],
           lastDeploy := r.after,
           attempts := s.attempts + 1)
      else s
    else s.(controlMode := DETUMBLE, state := STANDBY, deployed := true, attempts := 0)
  }

  function StoodBy(s: C3, r: Readings): C3
  {
    if EdlRecent(r) then s.(state := EDL)
    else if ResetTimedOut(s, r) then RequestReset(s, r)
    else if !TxTimedOut(s, r) then s.(state := BEACON)
    else s
  }

  function Beaconed(s: C3, r: Readings): C3
  {
    if EdlRecent(r) then s.(state := EDL)
    else if ResetTimedOut(s, r) then RequestReset(s, r)
    else if TxTimedOut(s, r) then s.(state := STANDBY)
    else s
  }

  function LinkHeld(s: C3, r: Readings): C3
  {
    if EdlRecent(r) then s
    else s.(state := if TxTimedOut(s, r) then STANDBY else BEACON)
  }

  function TxChecked(s: C3, r: Readings): C3
  {
    if TxTimedOut(s, r) then s.(txEnable := false) else s
  }

  /** Logging a change of state looks both states up, and raises for a value that names none. */
  predicate Raises(s: C3)
  {
    s.state != s.lastState && !(IsState(s.state) && IsState(s.lastState))
  }

  function Dispatched(s: C3, r: Readings): C3
  {
    if s.state == PRE_DEPLOY then PreDeployed(s, r)
    else if s.state == DEPLOY then Deployed(s, r)
    else if s.state == STANDBY then StoodBy(s, r)
    else if s.state == BEACON then Beaconed(s, r)
    else LinkHeld(s, r)
  }

  /** The machine after one loop. */
  function AfterLoop(s0: C3, r: Readings): C3
  {
    var s := TxChecked(s0, r);
    if Raises(s) then s
    else if !(PRE_DEPLOY <= s.state <= EDL) then s.(state := PRE_DEPLOY, lastState := PRE_DEPLOY)
    else
      var d := Dispatched(s, r);
      var loops := (d.loops + 1) % 10;
      d.(lastState := d.state, loops := loops, stores := d.stores + if loops == 0 then 1 else 0)
  }

  function Step(s: C3, e: Event): C3
  {
    match e
    case Loop(r) => AfterLoop(s, r)
    case WriteState(v) => s.(state := v)
    case WriteTxEnable(on, wall) => s.(txEnable := on, lastTxEnable := if on then Trunc(wall) else 0)
  }

  function Run(s: C3, events: seq<Event>): C3
  {
    if events == [] then s else Step(Run(s, events[..|events| - 1]), events[|events| - 1])
  }

  /** The machine as the service starts it from the restored objects. */
  function Started(status: int, deployed: bool, txEnable: bool, lastTxEnable: int, controlMode: int, now: real): C3
  {
    var state := if status == EDL then STANDBY else if IsState(status) then status else PRE_DEPLOY;
    C3(state, state, deployed, 0, 0.0, now, txEnable, if txEnable then lastTxEnable else 0, controlMode, 0, [], 0, 0)
  }

  // ----- antenna deployment over every run -----

  predicate LimitedTo(events: seq<Event>, n: int)
  {
    forall e :: e in events && e.Loop? ==> e.r.attempts <= n
  }

  function AtLeastZero(n: int): nat
  {
    if n < 0 then 0 else n
  }

  /** When the firing before number k ended. */
  function EndBefore(fired: seq<Firing>, k: nat): real
    requires k <= |fired|
  {
    if k == 0 then 0.0 else fired[k - 1].end
  }

  /** Each firing began more than the timeout after the one before ended, the first after time 0. */
  predicate Spaced(fired: seq<Firing>)
  {
    forall k :: 0 <= k < |fired| ==>
      fired[k].start > EndBefore(fired, k) + fired[k].timeout as real
  }

  ghost predicate FiringInv(s: C3, n: int)
  {
    && IsState(s.lastState)
    && Spaced(s.fired)
    && s.lastDeploy == EndBefore(s.fired, |s.fired|)
    && |s.fired| <= AtLeastZero(n)
    && (!s.deployed ==> s.attempts == |s.fired|)
  }

  lemma StepKeepsFiringInv(s: C3, e: Event, n: int)
    requires FiringInv(s, n) && (e.Loop? ==> e.r.attempts <= n)
    ensures FiringInv(Step(s, e), n)
    ensures s.deployed ==> Step(s, e).deployed && Step(s, e).fired == s.fired
  {
    OnlyDeployFires(s, e);
    LastStateKept(s, e);
    hide Step, IsState;
    var t := Step(s, e);
    if t.fired != s.fired {
      SpacedAppend(s.fired, t.fired[|s.fired|]);
      assert t.fired == s.fired + [t.fired[|s.fired|]];
    }
  }

  lemma SpacedAppend(fired: seq<Firing>, f: Firing)
    requires Spaced(fired)
    requires f.start > EndBefore(fired, |fired|) + f.timeout as real
    ensures Spaced(fired + [f])
  {
    var t := fired + [f];
    forall k | 0 <= k < |t|
      ensures t[k].start > EndBefore(t, k) + t[k].timeout as real
    {
      assert EndBefore(t, k) == EndBefore(fired, k);
      if k < |fired| {
        assert t[k] == fired[k];
      } else {
        assert t[k] == f;
      }
    }
  }

  lemma LastStateKept(s: C3, e: Event)
    requires IsState(s.lastState)
    ensures IsState(Step(s, e).lastState)
  {
    hide EdlRecent, TxTimedOut, ResetTimedOut, Trunc;
  }

  /** Firing happens in one place: its time is checked against the end of the last one. */
  lemma OnlyDeployFires(s: C3, e: Event)
    ensures var t := Step(s, e);
      if t.fired != s.fired then
        e.Loop? && t.fired == s.fired + [Firing(e.r.now, e.r.after, e.r.reattemptTimeout)] &&
        e.r.now > s.lastDeploy + e.r.reattemptTimeout as real && t.lastDeploy == e.r.after &&
        !s.deployed && !t.deployed && s.attempts < e.r.attempts && t.attempts == s.attempts + 1
      else
        t.lastDeploy == s.lastDeploy &&
        if t.deployed != s.deployed then t.deployed && e.Loop? && s.attempts >= e.r.attempts
        else s.deployed || t.attempts == s.attempts
  {
    hide EdlRecent, TxTimedOut, ResetTimedOut, Trunc, IsState, Dispatched;
    if e.Loop? {
      DispatchFires(TxChecked(s, e.r), e.r);
    }
  }

  lemma DispatchFires(s: C3, r: Readings)
    ensures var t := Dispatched(s, r);
      if t.fired != s.fired then
        t.fired == s.fired + [Firing(r.now, r.after, r.reattemptTimeout)] &&
        r.now > s.lastDeploy + r.reattemptTimeout as real && t.lastDeploy == r.after &&
        !s.deployed && !t.deployed && s.attempts < r.attempts && t.attempts == s.attempts + 1
      else
        t.lastDeploy == s.lastDeploy &&
        if t.deployed != s.deployed then t.deployed && s.attempts >= r.attempts
        else s.deployed || t.attempts == s.attempts
  {
    hide EdlRecent, TxTimedOut, ResetTimedOut, Trunc;
  }

  lemma {:induction false} RunKeepsFiringInv(s: C3, events: seq<Event>, n: int)
    requires FiringInv(s, n) && LimitedTo(events, n)
    ensures FiringInv(Run(s, events), n)
    ensures s.deployed ==> Run(s, events).deployed && Run(s, events).fired == s.fired
  {
    hide FiringInv, Step;
    if events == [] {
    } else {
      var before, e := events[..|events| - 1], events[|events| - 1];
      assert e in events;
      RunKeepsFiringInv(s, before, n);
      StepKeepsFiringInv(Run(s, before), e, n);
    }
  }

  /**
   Over every run, with the state variable written at will: the antennas fire at most as often as the
   attempts allow, each firing more than the reattempt timeout after the last, and none once deployed.
   */
  lemma AntennasFireSafely(status: int, txEnable: bool, lastTxEnable: int, controlMode: int, now: real,
                           events: seq<Event>, more: seq<Event>, n: int)
    requires LimitedTo(events, n) && LimitedTo(more, n)
    ensures var s := Run(Started(status, false, txEnable, lastTxEnable, controlMode, now), events);
      |s.fired| <= AtLeastZero(n) && Spaced(s.fired) &&
      (s.deployed ==> Run(s, more).deployed && Run(s, more).fired == s.fired)
  {
    var s0 := Started(status, false, txEnable, lastTxEnable, controlMode, now);
    RunKeepsFiringInv(s0, events, n);
    RunKeepsFiringInv(Run(s0, events), more, n);
  }

  predicate AllAllow(events: seq<Event>, n: int)
  {
    forall e :: e in events && e.Loop? ==> e.r.attempts == n
  }

  /** With a fixed limit, the satellite counts as deployed only once every attempt has been made. */
  lemma {:induction false} DeployedAfterAllAttempts(s: C3, events: seq<Event>, n: int)
    requires AllAllow(events, n)
    requires !s.deployed && s.attempts == 0 && s.fired == []
    ensures var t := Run(s, events);
      if t.deployed then |t.fired| == AtLeastZero(n)
      else t.attempts == |t.fired| && |t.fired| <= AtLeastZero(n)
  {
    hide Step;
    if events == [] {
    } else {
      var before, e := events[..|events| - 1], events[|events| - 1];
      assert e in events;
      DeployedAfterAllAttempts(s, before, n);
      OnlyDeployFires(Run(s, before), e);
    }
  }

  // ----- states -----

  /** The transitions of the state diagram, with staying put. */
  predicate Documented(a: int, b: int)
  {
    a == b || (a == OFFLINE && b == PRE_DEPLOY) || (a == PRE_DEPLOY && b == DEPLOY) ||
    (a == DEPLOY && b == STANDBY) || (a == STANDBY && (b == BEACON || b == EDL)) ||
    (a == BEACON && (b == EDL || b == STANDBY)) || (a == EDL && (b == BEACON || b == STANDBY))
  }

  /**
   A loop changes the state only along the diagram. It ends in BEACON only if the transmitter has not
   timed out, or if a reset was due and a beaconing satellite stayed as it was.
   */
  lemma LoopsFollowDiagram(s: C3, r: Readings)
    requires IsState(s.lastState)
    ensures var t := AfterLoop(s, r);
      Documented(s.state, t.state) &&
      (t.state == BEACON ==> !TxTimedOut(s, r) || (s.state == BEACON && ResetTimedOut(s, r)))
  {
  }

  /** The last state a loop saw always names a state. */
  lemma {:induction false} LastStateNamed(s: C3, events: seq<Event>)
    requires IsState(s.lastState)
    ensures IsState(Run(s, events).lastState)
  {
    hide Step, IsState;
    if events == [] {
    } else {
      LastStateNamed(s, events[..|events| - 1]);
      LastStateKept(Run(s, events[..|events| - 1]), events[|events| - 1]);
    }
  }

  predicate OnlyLoops(events: seq<Event>)
  {
    forall e :: e in events ==> e.Loop?
  }

  /**
   The branch that resets an unknown state to PRE_DEPLOY is taken from OFFLINE alone: any value that
   names no state raises before it.
   */
  lemma FallbackIffOffline(s: C3)
    requires IsState(s.lastState)
    ensures !Raises(s) && !(PRE_DEPLOY <= s.state <= EDL) <==> s.state == OFFLINE
    ensures Raises(s) <==> !IsState(s.state)
  {
  }

  /** So a value written from outside that names no state is never repaired: every loop raises. */
  lemma {:induction false} InvalidStateStays(s: C3, events: seq<Event>)
    requires IsState(s.lastState) && !IsState(s.state) && OnlyLoops(events)
    ensures var t := Run(s, events);
      t.state == s.state && t.lastState == s.lastState && t.fired == s.fired && t.stores == s.stores && Raises(t)
  {
    if events == [] {
    } else {
      var before, e := events[..|events| - 1], events[|events| - 1];
      assert e in events;
      InvalidStateStays(s, before);
    }
  }

  // ----- what a loop does, and exactly when -----

  /** A loop fires the antennas exactly in DEPLOY, with attempts left and the timeout passed. */
  lemma FiresIff(s: C3, r: Readings)
    requires IsState(s.state) && IsState(s.lastState)
    ensures AfterLoop(s, r).fired != s.fired <==>
              s.state == 67 && !s.deployed && s.attempts < r.attempts &&
              r.now > s.lastDeploy + r.reattemptTimeout as real
  {
  }

  /** Which state a loop ends in, from the state, the clocks and the timeouts alone. */
  lemma EndsIn(s: C3, r: Readings)
    requires IsState(s.state) && IsState(s.lastState)
    ensures var (t, spent) := (AfterLoop(s, r), s.deployed || s.attempts >= r.attempts);
      var waited := r.now - s.startTime;
      var silent := r.wall - s.lastTxEnable as real > r.txTimeout as real;
      var linked := r.wall - r.lastEdl as real < r.edlTimeout as real;
      var due := r.mayReset && waited > r.resetTimeout as real;
      var up := s.state == 68 || s.state == 69 || s.state == 70;
      (t.state == 66 <==> s.state == 65 || (s.state == 66 && waited < r.preDeployTimeout as real)) &&
      (t.state == 67 <==> (s.state == 66 && waited >= r.preDeployTimeout as real) || (s.state == 67 && !spent)) &&
      (t.state == 70 <==> up && linked) &&
      (t.state == 69 <==>
         up && !linked && (if s.state == 69 then due || !silent else (s.state == 68 ==> !due) && !silent)) &&
      (t.state == 68 <==>
         (s.state == 67 && spent) ||
         (up && !linked && (if s.state == 69 then !due && silent else (s.state == 68 && due) || silent))) &&
      66 <= t.state <= 70
  {
  }

  /** A reset is requested exactly by a loop in STANDBY or BEACON that is due for one, without a link or an update. */
  lemma ResetsIff(s: C3, r: Readings)
    requires IsState(s.state) && IsState(s.lastState)
    ensures var linked := r.wall - r.lastEdl as real < r.edlTimeout as real;
      AfterLoop(s, r).resets == s.resets +
        if (s.state == 68 || s.state == 69) && !linked && r.mayReset &&
           r.now - s.startTime > r.resetTimeout as real && !r.updating then 1 else 0
  {
    hide TxTimedOut;
  }

  /** The transmitter is on after a loop exactly if PRE_DEPLOY starts it, or it was and has not timed out. */
  lemma TransmitsIff(s: C3, r: Readings)
    requires IsState(s.state) && IsState(s.lastState)
    ensures var t := AfterLoop(s, r);
      var silent := r.wall - s.lastTxEnable as real > r.txTimeout as real;
      var starts := s.state == 66 && r.now - s.startTime < r.preDeployTimeout as real && (silent || !s.txEnable);
      (t.txEnable <==> starts || (s.txEnable && !silent)) &&
      t.lastTxEnable == if starts then Trunc(r.wall) else s.lastTxEnable
  {
    hide Trunc, ResetTimedOut, EdlRecent;
  }

  /** The loop that ends the deployment sets the control mode and the flag, and no other loop does. */
  lemma DeploymentEnds(s: C3, r: Readings)
    requires IsState(s.state) && IsState(s.lastState)
    ensures var t := AfterLoop(s, r);
      (if s.state == 67 && t.state == 68
       then t.controlMode == 3 && t.deployed && t.attempts == 0
       else t.controlMode == s.controlMode && t.deployed == s.deployed &&
            t.attempts - s.attempts == |t.fired| - |s.fired|) &&
      t.startTime == s.startTime && t.lastState == t.state
  {
    hide Trunc, ResetTimedOut, EdlRecent, TxTimedOut;
  }

  /** Truncation drops the fraction, towards zero. */
  lemma TruncIs(x: real)
    ensures x >= 0.0 ==> Trunc(x) as real <= x < Trunc(x) as real + 1.0
    ensures x <= 0.0 ==> Trunc(x) as real - 1.0 < x <= Trunc(x) as real
  {
  }

  /** What is written from outside: the state alone, or the transmitter with its second of being switched on, or 0. */
  lemma WritesChange(s: C3, v: int, on: bool, wall: real)
    ensures Step(s, WriteState(v)) == s.(state := v)
    ensures var t := Step(s, WriteTxEnable(on, wall));
      t == s.(txEnable := on, lastTxEnable := t.lastTxEnable) &&
      (if !on then t.lastTxEnable == 0
       else wall >= 0.0 ==> t.lastTxEnable as real <= wall < t.lastTxEnable as real + 1.0)
  {
    TruncIs(wall);
  }

  function Loops(rs: seq<Readings>): seq<Event>
  {
    seq(|rs|, i requires 0 <= i < |rs| => Loop(rs[i]))
  }

  lemma LoopsGrow(rs: seq<Readings>)
    requires rs != []
    ensures var n := |rs| - 1; Loops(rs) == Loops(rs[..n]) + [Loop(rs[n])]
    ensures var n := |rs| - 1;
      Loops(rs)[..|Loops(rs)| - 1] == Loops(rs[..n]) && Loops(rs)[|Loops(rs)| - 1] == Loop(rs[n])
  {
  }

  /** The firings of attempts made at these readings. */
  function Firings(rs: seq<Readings>): seq<Firing>
  {
    seq(|rs|, i requires 0 <= i < |rs| => Firing(rs[i].now, rs[i].after, rs[i].reattemptTimeout))
  }

  /** Each loop comes more than the timeout after the firing before it ended, the first after a given time. */
  predicate TimeoutsPass(last: real, rs: seq<Readings>)
  {
    forall i :: 0 <= i < |rs| ==> TimeoutPasses(last, rs, i)
  }

  predicate TimeoutPasses(last: real, rs: seq<Readings>, i: nat)
    requires i < |rs|
  {
    rs[i].now > (if i == 0 then last else rs[i - 1].after) + rs[i].reattemptTimeout as real
  }

  /** Every attempt is made: while attempts are left, each loop past its timeout fires once. */
  lemma {:induction false} EveryAttemptIsMade(s: C3, rs: seq<Readings>, n: nat)
    requires s.state == 67 && IsState(s.lastState) && !s.deployed && s.attempts == 0
    requires |rs| <= n && TimeoutsPass(s.lastDeploy, rs) && forall r :: r in rs ==> r.attempts == n
    ensures var t := Run(s, Loops(rs));
      t.state == 67 && IsState(t.lastState) && !t.deployed && t.attempts == |rs| &&
      t.fired == s.fired + Firings(rs) && t.startTime == s.startTime &&
      t.lastDeploy == (if rs == [] then s.lastDeploy else rs[|rs| - 1].after)
  {
    if rs == [] {
      assert Loops(rs) == [] && Firings(rs) == [];
    } else {
      hide AfterLoop, TimeoutsPass;
      var k := |rs| - 1;
      TimeoutsPassBefore(s.lastDeploy, rs);
      EveryAttemptIsMade(s, rs[..k], n);
      LoopsGrow(rs);
      assert rs[k] in rs;
      OneAttempt(Run(s, Loops(rs[..k])), rs[k]);
      assert Firings(rs) == Firings(rs[..k]) + [Firing(rs[k].now, rs[k].after, rs[k].reattemptTimeout)];
    }
  }

  lemma TimeoutsPassBefore(last: real, rs: seq<Readings>)
    requires rs != [] && TimeoutsPass(last, rs)
    ensures var k := |rs| - 1;
      TimeoutsPass(last, rs[..k]) &&
      rs[k].now > (if k == 0 then last else rs[k - 1].after) + rs[k].reattemptTimeout as real
  {
    var k := |rs| - 1;
    assert TimeoutPasses(last, rs, k);
    forall i | 0 <= i < k
      ensures TimeoutPasses(last, rs[..k], i)
    {
      assert TimeoutPasses(last, rs, i);
    }
  }

  lemma OneAttempt(s: C3, r: Readings)
    requires s.state == 67 && IsState(s.lastState) && !s.deployed && s.attempts < r.attempts
    requires r.now > s.lastDeploy + r.reattemptTimeout as real
    ensures var t := AfterLoop(s, r);
      t.state == 67 && IsState(t.lastState) && !t.deployed && t.attempts == s.attempts + 1 &&
      t.fired == s.fired + [Firing(r.now, r.after, r.reattemptTimeout)] && t.startTime == s.startTime &&
      t.lastDeploy == r.after
  {
    FiresIff(s, r);
    EndsIn(s, r);
    DeploymentEnds(s, r);
    OnlyDeployFires(s, Loop(r));
    hide AfterLoop;
  }

  /**
   From PRE_DEPLOY: the first loop past the timeout begins the deployment, each loop past its own timeout
   fires once, as often as the limit, and the next ends it in STANDBY, deployed.
   */
  lemma DeploymentCompletes(s: C3, first: Readings, rs: seq<Readings>, last: Readings)
    requires s.state == 66 && IsState(s.lastState) && !s.deployed && s.attempts == 0
    requires first.now - s.startTime >= first.preDeployTimeout as real
    requires TimeoutsPass(s.lastDeploy, rs) && forall r :: r in rs ==> r.attempts == |rs|
    requires last.attempts == |rs|
    ensures var t := Run(s, [Loop(first)] + Loops(rs) + [Loop(last)]);
      t.state == 68 && t.deployed && t.controlMode == 3 && t.fired == s.fired + Firings(rs)
  {
    var a := AfterLoop(s, first);
    EndsIn(s, first);
    DeploymentEnds(s, first);
    FiresIff(s, first);
    OnlyDeployFires(s, Loop(first));
    EveryAttemptIsMade(a, rs, |rs|);
    var b := Run(a, Loops(rs));
    EndsIn(b, last);
    DeploymentEnds(b, last);
    FiresIff(b, last);
    hide AfterLoop;
    RunOn(s, [Loop(first)], Loops(rs));
    assert Run(s, [Loop(first)]) == a by { assert [Loop(first)][..0] == []; }
    RunOn(s, [Loop(first)] + Loops(rs), [Loop(last)]);
    assert Run(b, [Loop(last)]) == AfterLoop(b, last) by { assert [Loop(last)][..0] == []; }
  }

  /** Running on from where a run ended. */
  lemma {:induction false} RunOn(s: C3, first: seq<Event>, more: seq<Event>)
    ensures Run(s, first + more) == Run(Run(s, first), more)
  {
    hide Step;
    if more == [] {
      assert first + more == first;
    } else {
      var n := |more| - 1;
      RunOn(s, first, more[..n]);
      assert (first + more)[..|first| + n] == first + more[..n];
    }
  }

  /** The state is stored with every tenth loop, from wherever the count stands. */
  lemma {:induction false} StoredEveryTenth(s: C3, rs: seq<Readings>)
    requires 66 <= s.state <= 70 && IsState(s.lastState) && s.loops < 10
    ensures var t := Run(s, Loops(rs));
      66 <= t.state <= 70 && IsState(t.lastState) &&
      t.loops == (s.loops + |rs|) % 10 && t.stores == s.stores + (s.loops + |rs|) / 10
  {
    hide AfterLoop;
    if rs == [] {
      assert Loops(rs) == [];
    } else {
      var k := |rs| - 1;
      StoredEveryTenth(s, rs[..k]);
      LoopsGrow(rs);
      EndsIn(Run(s, Loops(rs[..k])), rs[k]);
      CountsOn(Run(s, Loops(rs[..k])), rs[k]);
      hide AfterLoop;
      NextTenth(s.loops + k);
    }
  }

  lemma CountsOn(s: C3, r: Readings)
    requires 66 <= s.state <= 70 && IsState(s.lastState)
    ensures var t := AfterLoop(s, r);
      IsState(t.lastState) && t.loops == (s.loops + 1) % 10 &&
      t.stores == s.stores + if (s.loops + 1) % 10 == 0 then 1 else 0
  {
    hide Trunc, ResetTimedOut, EdlRecent, TxTimedOut;
  }

  lemma NextTenth(n: nat)
    ensures (n % 10 + 1) % 10 == (n + 1) % 10 && (n + 1) / 10 == n / 10 + if (n + 1) % 10 == 0 then 1 else 0
  {
  }

  /** A service starts in the state it restored, but never in EDL, nor in a state that names none. */
  lemma StartsIn(status: int, deployed: bool, txEnable: bool, lastTxEnable: int, controlMode: int, now: real)
    ensures var s := Started(status, deployed, txEnable, lastTxEnable, controlMode, now);
      IsState(s.state) && s.state != 70 && s.lastState == s.state && s.startTime == now &&
      s.deployed == deployed && s.txEnable == txEnable && s.controlMode == controlMode &&
      s.attempts == 0 && s.lastDeploy == 0.0 && s.fired == [] && s.loops == 0 &&
      s.lastTxEnable == (if txEnable then lastTxEnable else 0) &&
      (65 <= status < 70 ==> s.state == status) && (status == 70 ==> s.state == 68) &&
      (status < 65 || status > 70 ==> s.state == 66)
  {
  }

  // ----- the service -----

  class StateService {
    var state: int
    var lastState: int
    var deployed: bool
    var attempts: nat
    var lastDeploy: real
    var startTime: real
    var txEnable: bool
    var lastTxEnable: int
    var controlMode: int
    var loops: nat
    var resets: nat
    var stores: nat
    ghost var fired: seq<Firing>

    ghost function View(): C3
      reads this
    {
      C3(state, lastState, deployed, attempts, lastDeploy, startTime, txEnable, lastTxEnable, controlMode,
         loops, fired, resets, stores)
    }

    /** Starting from the objects as they were restored. */
    constructor (status: int, deployed: bool, txEnable: bool, lastTxEnable: int, controlMode: int, now: real)
      ensures View() == Started(status, deployed, txEnable, lastTxEnable, controlMode, now)
    {
      this.deployed, this.txEnable, this.lastTxEnable := deployed, txEnable, lastTxEnable;
      this.controlMode, startTime := controlMode, now;
      attempts, lastDeploy, loops, resets, stores, fired := 0, 0.0, 0, 0, 0, [];
      state, lastState := status, status;
      new;
      if !txEnable {
        this.lastTxEnable := 0;
      }
      if state == EDL {
        state := STANDBY;
      }
      if !(OFFLINE <= state <= EDL) {
        state := PRE_DEPLOY;
      }
      lastState := state;
    }

    method OnWriteTxEnable(on: bool, wall: real)
      modifies this
      ensures View() == Step(old(View()), WriteTxEnable(on, wall))
    {
      txEnable := on;
      lastTxEnable := if on then Trunc(wall) else 0;
    }

    method PreDeploy(r: Readings)
      modifies this
      ensures View() == PreDeployed(old(View()), r)
    {
      if r.now - startTime < r.preDeployTimeout as real {
        if !txEnable {
          txEnable, lastTxEnable := true, Trunc(r.wall);
        }
      } else {
        state := DEPLOY;
      }
    }

    method Deploy(r: Readings)
      modifies this
      ensures View() == Deployed(old(View()), r)
    {
      if !deployed && attempts < r.attempts {
        if r.now > lastDeploy + r.reattemptTimeout as real {
          fired := fired + [Firing(r.now, r.after, r.reattemptTimeout)];
          lastDeploy := r.after;
          attempts := attempts + 1;
        }
      } else {
        controlMode, state, deployed, attempts := DETUMBLE, STANDBY, true, 0;
      }
    }

    method Standby(r: Readings)
      modifies this
      ensures View() == StoodBy(old(View()), r)
    {
      if EdlRecent(r) {
        state := EDL;
      } else if r.mayReset && r.now - startTime > r.resetTimeout as real {
        Reset(r);
      } else if r.wall - lastTxEnable as real <= r.txTimeout as real {
        state := BEACON;
      }
    }

    method Beacon(r: Readings)
      modifies this
      ensures View() == Beaconed(old(View()), r)
    {
      if EdlRecent(r) {
        state := EDL;
      } else if r.mayReset && r.now - startTime > r.resetTimeout as real {
        Reset(r);
      } else if r.wall - lastTxEnable as real > r.txTimeout as real {
        state := STANDBY;
      }
    }

    method Edl(r: Readings)
      modifies this
      ensures View() == LinkHeld(old(View()), r)
    {
      if !EdlRecent(r) {
        state := if r.wall - lastTxEnable as real <= r.txTimeout as real then BEACON else STANDBY;
      }
    }

    method Reset(r: Readings)
      modifies this`resets
      ensures View() == RequestReset(old(View()), r)
    {
      if !r.updating {
        resets := resets + 1;
      }
    }

    method Dispatch(r: Readings)
      requires PRE_DEPLOY <= state <= EDL
      modifies this
      ensures View() == Dispatched(old(View()), r)
    {
      hide PreDeployed, Deployed, StoodBy, Beaconed, LinkHeld;
      if state == PRE_DEPLOY {
        PreDeploy(r);
      } else if state == DEPLOY {
        Deploy(r);
      } else if state == STANDBY {
        Standby(r);
      } else if state == BEACON {
        Beacon(r);
      } else {
        Edl(r);
      }
    }

    method OnLoop(r: Readings) returns (raised: bool)
      modifies this
      ensures View() == AfterLoop(old(View()), r)
      ensures raised <==> Raises(old(View()))
    {
      hide Dispatched;
      if r.wall - lastTxEnable as real > r.txTimeout as real && txEnable {
        txEnable := false;
      }
      assert View() == TxChecked(old(View()), r);
      hide TxChecked, TxTimedOut, ResetTimedOut;
      var before := state;
      if before != lastState && (!IsState(lastState) || !IsState(before)) { return true; }
      if PRE_DEPLOY <= state <= EDL {
        Dispatch(r);
      } else {
        state := PRE_DEPLOY;
        lastState := PRE_DEPLOY;
        return false;
      }
      lastState := state;
      loops := (loops + 1) % 10;
      if loops == 0 {
        stores := stores + 1;
      }
      raised := false;
    }
  }
}
