/** What a loop of the supervisor finds and does, from its readings and the cards' registers alone. */
module NodeManagerStates {
  import opened Octets
  import opened Max7310s
  import Opds
  import opened OpdPins
  import opened NodeManagers

  // ----- the status of a card -----

  /** The breaker is on: pin 3 of the output register. */
  predicate BreakerOn(c: Opds.Card)
  {
    c.regs[1] & 0x08 != 0
  }

  /** The fault line is low: pin 2 of the input register, which two addresses do not have. */
  predicate FaultLow(c: Opds.Card)
  {
    c.addr != 0x18 && c.addr != 0x1F && c.regs[0] & 0x04 == 0
  }

  /** An STM32 card with its boot pin, pin 5, high. */
  predicate BootHigh(c: Opds.Card)
  {
    c.kind.Stm32? && c.regs[1] & 0x20 != 0
  }

  /** The status a card is read as. */
  function AsRead(c: Opds.Card): Opds.NodeStatus
  {
    if c.kind.Spr8? then c.status
    else if !c.responding then Opds.NOT_FOUND
    else if BreakerOn(c) && FaultLow(c) then Opds.FAULT
    else c.status
  }

  lemma StatusReadIs(c: Opds.Card)
    ensures Opds.StatusRead(c) == c.(status := AsRead(c))
    ensures Bit(Opds.Output(c), Opds.BOOT_PIN) <==> c.regs[1] & 0x20 != 0
    ensures Bit(Opds.Output(c), Opds.ENABLE_PIN) <==> BreakerOn(c)
  {
  }

  // ----- the state a loop finds -----

  lemma LoopStatus(m: Manager, order: seq<string>, r: Readings, n: string)
    requires Configured(m, order) && n in m.opd.cards
    ensures n in m.data && n in Looped(m, order, r).data
    ensures Looped(m, order, r).data[n].status == StateOf(m.data[n], n, m.opd, r)
  {
    hide Configured, AfterFirstPass, ActedAll, ActedNode, StateOf, SameConfiguration, Distinct;
    ConfiguredOrder(m, order, n);
    FirstPassConfigured(m, order, r);
    FirstPassState(m, order, r, n);
    LoopedConfigured(m, order, r);
    var m1 := AfterFirstPass(m, order, r);
    if OpdUp(m1) {
      ActedAllOne(m1, order, order, r, n);
      ActedKeepsStatus(m1.data[n], Looped(m, order, r).data[n], r.now);
    }
  }

  /** No heartbeat for five seconds. */
  predicate Silent(r: Readings, n: string)
  {
    r.now > (if n in r.heartbeat then r.heartbeat[n] else 0.0) + 5.0
  }

  /** Within ten seconds of the last enable for a microcontroller, and 90 for any other processor. */
  predicate Booting(a: Node, r: Readings)
  {
    a.lastEnable + (if a.info.microcontroller then 10.0 else 90.0) > r.now
  }

  /** The card is on and runs its application. */
  predicate Running(c: Opds.Card)
  {
    AsRead(c) == Opds.ENABLED && !BootHigh(c)
  }

  /** And it is a CANopen node that is not being updated, and was not dead. */
  predicate Watched(a: Node, c: Opds.Card)
  {
    Running(c) && a.info.nodeId != 0 && !a.updating && a.status != Dead
  }

  /** Silent in flight on a network that is up. */
  predicate Missed(r: Readings, n: string)
  {
    r.flightMode && r.networkUp && Silent(r, n)
  }

  /** Exactly one state, by the card's registers, the clock and the last heartbeat. */
  predicate Found(s: NodeState, a: Node, c: Opds.Card, r: Readings, n: string)
  {
    (s == NotFound <==> AsRead(c) == Opds.NOT_FOUND) && (s == Off <==> AsRead(c) == Opds.DISABLED) &&
    (s == Bootloader <==> AsRead(c) == Opds.ENABLED && BootHigh(c)) &&
    (s == Updating <==> Running(c) && a.info.nodeId != 0 && a.updating) &&
    (s == Boot <==> Watched(a, c) && Booting(a, r) && Silent(r, n)) &&
    (s == Error <==>
       AsRead(c) == Opds.FAULT || (Watched(a, c) && !Booting(a, r) && (a.status == Error || Missed(r, n)))) &&
    (Watched(a, c) ==>
       (s == On <==> if Booting(a, r) then !Silent(r, n) else a.status != Error && !Missed(r, n))) &&
    (Running(c) && a.info.nodeId == 0 ==> s == On)
  }

  lemma CanOpenFinds(a: Node, n: string, r: Readings)
    ensures var s := CanOpenState(a, n, r);
      s == if a.updating then Updating
           else if a.status == Dead then if Silent(r, n) then On else Dead
           else if Booting(a, r) then if Silent(r, n) then Boot else On
           else if a.status == Error || Missed(r, n) then Error else On
  {
  }

  lemma CardFinds(a: Node, n: string, c: Opds.Card, r: Readings)
    requires c.status != Opds.DEAD
    ensures Found(CardState(a, n, Opds.StatusRead(c), r), a, c, r, n)
  {
    StatusReadIs(c);
    CanOpenFinds(a, n, r);
    BootIs(Opds.StatusRead(c));
    hide CanOpenState, Opds.StatusRead, BreakerOn, FaultLow, Bit, Silent, Booting;
  }

  lemma BootIs(c: Opds.Card)
    ensures c.kind.Stm32? ==> (Bit(Opds.Output(c), Opds.BOOT_PIN) <==> BootHigh(c))
  {
    StatusReadIs(c);
  }

  /** Which state a loop with the domain on finds a card in that has resets left. */
  lemma LoopFinds(m: Manager, order: seq<string>, r: Readings, n: string)
    requires Configured(m, order) && OpdUp(m) && n in m.opd.cards && n in m.data && m.data[n].resets < 3
    requires m.opd.cards[n].status != Opds.DEAD
    ensures n in Looped(m, order, r).data
    ensures Found(Looped(m, order, r).data[n].status, m.data[n], m.opd.cards[n], r, n)
  {
    hide Configured, Looped, CardState, Found, Distinct, Opds.StatusRead;
    ConfiguredOrder(m, order, n);
    LoopStatus(m, order, r, n);
    CardFinds(m.data[n], n, m.opd.cards[n], r);
  }

  /** What a loop finds of the others: a node off the domain by its heartbeats, and the C3 as it was. */
  lemma LoopFindsOthers(m: Manager, order: seq<string>, r: Readings, n: string)
    requires Configured(m, order) && n in m.data && n !in m.opd.cards
    ensures n in Looped(m, order, r).data
    ensures var (a, b) := (m.data[n], Looped(m, order, r).data[n]);
      b == a.(status := if n == C3 then a.status else if a.updating then Updating else if Silent(r, n) then Off else On)
  {
    hide Configured, AfterFirstPass, ActedAll, ActedNode, SameConfiguration, Distinct, ObservedAll;
    OtherOrder(m, order, n);
    CountedConfigured(m, order);
    FirstPassConfigured(m, order, r);
    LoopedConfigured(m, order, r);
    OthersFirstPass(m, order, r, n);
    if OpdUp(AfterFirstPass(m, order, r)) {
      ActedAllOne(AfterFirstPass(m, order, r), order, order, r, n);
    }
  }

  lemma OtherOrder(m: Manager, order: seq<string>, n: string)
    requires Configured(m, order) && n in m.data && n !in m.opd.cards
    ensures Distinct(order) && n in order && m.data[n].info.opdAddress == 0 && forall x :: x in order ==> x in m.data
  {
  }

  lemma OthersFirstPass(m: Manager, order: seq<string>, r: Readings, n: string)
    requires Configured(m, order) && n in m.data && n !in m.opd.cards
    ensures n in AfterFirstPass(m, order, r).data
    ensures var (a, b) := (m.data[n], AfterFirstPass(m, order, r).data[n]);
      b == a.(status := if n == C3 then a.status else if a.updating then Updating else if Silent(r, n) then Off else On)
  {
    hide Configured, ObservedAll, SameConfiguration, Distinct;
    OtherOrder(m, order, n);
    CountedConfigured(m, order);
    FirstPassConfigured(m, order, r);
    ObservedAllOne(Counted(m), order, order, r, n);
    if n != C3 {
      ObservedAllState(Counted(m), order, order, r, n);
    }
  }

  // ----- what a loop does to a card -----

  lemma ObservedCard(m: Manager, p: string, r: Readings, n: string)
    requires p in m.data && (m.data[p].info.opdAddress != 0 ==> p in m.opd.cards) && n in m.opd.cards && n in m.data
    requires p == n ==> n != C3
    ensures var (a, b) := (m.opd.cards[n], Observed(m, p, r).opd.cards[n]);
      b == if p == n && ReadsCard(m.data[n], m.opd) then Opds.StatusRead(a) else a
    ensures p != n ==> ReadsCard(Observed(m, p, r).data[n], Observed(m, p, r).opd) == ReadsCard(m.data[n], m.opd)
  {
    hide StateOf, Opds.StatusRead;
  }

  lemma ReadsOrNot(m: Manager, p: string, r: Readings, n: string)
    requires p in m.data && (m.data[p].info.opdAddress != 0 ==> p in m.opd.cards) && n in m.data
    ensures n in Observed(m, p, r).data
    ensures ReadsCard(Observed(m, p, r).data[n], Observed(m, p, r).opd) == ReadsCard(m.data[n], m.opd)
  {
    hide StateOf, Opds.StatusRead;
  }

  /** The first pass reads a card once, if it reads it at all. */
  lemma {:induction false} ObservedAllCard(m: Manager, order: seq<string>, names: seq<string>, r: Readings, n: string)
    requires Configured(m, order) && Distinct(names) && n in m.opd.cards && n in m.data && n != C3
    requires forall x :: x in names ==> x in m.data
    ensures var (a, b) := (m.opd.cards[n], ObservedAll(m, order, names, r).opd.cards[n]);
      b == if n in names && ReadsCard(m.data[n], m.opd) then Opds.StatusRead(a) else a
    decreases |names|
  {
    hide Observed, Configured, ReadsCard, Opds.StatusRead, Distinct;
    if names == [] {
    } else {
      DistinctRest(names);
      ConfiguredName(m, order, names[0]);
      ObservedCard(m, names[0], r, n);
      ReadsOrNot(m, names[0], r, n);
      ObservedKeepsConfiguration(m, names[0], r);
      ConfigurationKept(m, Observed(m, names[0], r), order);
      ObservedAllCard(Observed(m, names[0], r), order, names[1..], r, n);
    }
  }

  /** With the domain off every node on it is found missing, and no card is touched. */
  lemma LoopFindsNothing(m: Manager, order: seq<string>, r: Readings, n: string)
    requires Configured(m, order) && m.opd.status == Opds.OpdDisabled && n in m.opd.cards
    ensures n in Looped(m, order, r).data && Looped(m, order, r).data[n].status == NotFound
    ensures n in Looped(m, order, r).opd.cards && Looped(m, order, r).opd.cards[n] == m.opd.cards[n]
    ensures Looped(m, order, r).loops == -1
  {
    LoopStatus(m, order, r, n);
    hide Configured, ObservedAll, ActedAll, Distinct, SameConfiguration;
    ConfiguredOrder(m, order, n);
    CountedConfigured(m, order);
    FirstPassConfigured(m, order, r);
    ObservedAllCard(Counted(m), order, order, r, n);
  }

  /** What the first pass reads of a card. */
  function Reads(a: Node, c: Opds.Card): Opds.Card
  {
    if a.resets < 3 then Opds.StatusRead(c) else c
  }

  lemma FirstPassReads(m: Manager, order: seq<string>, r: Readings, n: string)
    requires Configured(m, order) && OpdUp(m) && n in m.opd.cards
    ensures n in m.data
    ensures var m1 := AfterFirstPass(m, order, r);
      OpdUp(m1) && n in m1.opd.cards && n in m1.data && m1.opd.cards[n] == Reads(m.data[n], m.opd.cards[n]) &&
      m1.loops == m.loops + 1 && m1.data[n] == m.data[n].(status := m1.data[n].status)
  {
    hide Configured, Distinct, Opds.StatusRead, ObservedAll;
    ConfiguredOrder(m, order, n);
    CountedConfigured(m, order);
    FirstPassConfigured(m, order, r);
    FirstPassOne(m, order, r, n);
    ObservedAllCard(Counted(m), order, order, r, n);
  }

  lemma SecondPass(m: Manager, order: seq<string>, r: Readings)
    requires Configured(m, order) && OpdUp(m)
    ensures var m1 := AfterFirstPass(m, order, r);
      Configured(m1, order) && OpdUp(m1) && Distinct(order) && (forall x :: x in order ==> x in m1.data) &&
      Looped(m, order, r) == ActedAll(m1, order, order, r) && Looped(m, order, r).loops == m1.loops
  {
    hide Configured, Distinct, ActedAll, AfterFirstPass;
    FirstPassConfigured(m, order, r);
    var m1 := AfterFirstPass(m, order, r);
    SameLoops(m1, ActedAll(m1, order, order, r));
  }

  /** A card after a loop: read, then enabled by the parents found off, between which its node acts. */
  lemma LoopedCard(m: Manager, order: seq<string>, r: Readings, n: string, k: nat)
    requires Configured(m, order) && OpdUp(m) && n in m.opd.cards && k < |order| && order[k] == n
    ensures n in m.data && n in Looped(m, order, r).data && n in Looped(m, order, r).opd.cards
    ensures var (a, b) := (m.data[n], Looped(m, order, r));
      b.opd.cards[n] ==
        PassCard(a.(status := b.data[n].status), (m.loops + 1) % 10 == 0, Reads(a, m.opd.cards[n]),
                 ParentWillEnable(m, r, order[..k], n), ParentWillEnable(m, r, order[k + 1..], n)) &&
      b.loops == m.loops + 1
  {
    hide Configured, ActedAll, Distinct, SomeParent, ParentWillEnable, PassCard, Reads, StateOf, AfterFirstPass, Looped,
      OpdUp;
    ConfiguredOrder(m, order, n);
    LoopedConfigured(m, order, r);
    SecondPass(m, order, r);
    FirstPassReads(m, order, r, n);
    FirstPassState(m, order, r, n);
    LoopStatus(m, order, r, n);
    FirstPassParents(m, order, r, order[..k], n);
    FirstPassParents(m, order, r, order[k + 1..], n);
    PassActs(AfterFirstPass(m, order, r), order, order, r, n, k);
  }

  /** A node after a loop with the domain on: what it was found as, its count, and when it was last switched on. */
  lemma LoopedNode(m: Manager, order: seq<string>, r: Readings, n: string)
    requires Configured(m, order) && OpdUp(m) && n in m.opd.cards
    ensures n in m.data && n in Looped(m, order, r).data
    ensures var (a, s) := (m.data[n], Looped(m, order, r).data[n].status);
      Looped(m, order, r).data[n] ==
        a.(status := s,
           lastEnable := if s == Error || (s == Off && a.info.alwaysOn) then r.now else a.lastEnable,
           resets := if s == Error then a.resets + 1 else if s == On || s == Off then 0 else a.resets)
    ensures m.data[n].resets >= 3 ==> Looped(m, order, r).data[n].status == Dead
  {
    hide Configured, Looped, OpdUp;
    LoopedConfigured(m, order, r);
    LoopedOne(m, order, r, n);
  }

  // ----- a card that hangs -----

  /** No node has n as its child. */
  predicate NoParents(m: Manager, n: string)
  {
    forall p :: p in m.data ==> m.data[p].info.child != Some(n)
  }

  /** Its chip answers and reports no fault, its breaker is on, and it runs a CANopen application. */
  predicate Runs(m: Manager, n: string)
  {
    n in m.opd.cards && n in m.data && OpdUp(m) && NoParents(m, n) &&
    var (a, c) := (m.data[n], m.opd.cards[n]);
    HasChip(c) && c.responding && c.status == Opds.ENABLED && BreakerOn(c) && !FaultLow(c) && !BootHigh(c) &&
    a.info.nodeId != 0 && !a.updating
  }

  lemma RunsOn(m: Manager, n: string)
    requires Runs(m, n) && m.data[n].status != Dead
    ensures Watched(m.data[n], m.opd.cards[n]) && AsRead(m.opd.cards[n]) == Opds.ENABLED
    ensures Opds.StatusRead(m.opd.cards[n]) == m.opd.cards[n]
  {
    StatusReadIs(m.opd.cards[n]);
  }

  lemma NeverEnabled(m: Manager, r: Readings, names: seq<string>, n: string)
    requires NoParents(m, n)
    ensures !ParentWillEnable(m, r, names, n)
  {
    hide StateOf;
  }

  /** A reset leaves such a card running. */
  lemma ResetKeepsRunning(c: Opds.Card)
    requires HasChip(c) && c.responding && BreakerOn(c) && !FaultLow(c) && !BootHigh(c)
    ensures var a := Opds.ResetNode(c, 1);
      HasChip(a) && a.responding && a.status == Opds.ENABLED && BreakerOn(a) && !FaultLow(a) && !BootHigh(a) &&
      a.resets == c.resets + 1
  {
    PinsAre(c);
    ResetChip(c, 1, 3);
    ResetChip(c, 1, 5);
    PinsAre(Opds.ResetNode(c, 1));
    hide Opds.ResetNode, Bit;
  }

  lemma PinsAre(c: Opds.Card)
    ensures (Pin(c, 3) <==> BreakerOn(c)) && (Pin(c, 5) <==> c.regs[1] & 0x20 != 0)
    ensures Bit(c.regs[0], 2) <==> c.regs[0] & 0x04 != 0
  {
  }

  /**
   A loop that misses a running card's heartbeats, past its time to boot, finds it in error and resets it:
   once in its card, once in its count; and it runs on.
   */
  lemma HungCardIsReset(m: Manager, order: seq<string>, r: Readings, n: string)
    requires Configured(m, order) && Runs(m, n) && m.data[n].status != Dead && m.data[n].resets < 3
    requires Missed(r, n) && !Booting(m.data[n], r)
    ensures var t := Looped(m, order, r);
      Runs(t, n) &&
      t.data[n] == m.data[n].(status := Error, resets := m.data[n].resets + 1, lastEnable := r.now) &&
      t.opd.cards[n].resets == m.opd.cards[n].resets + 1
  {
    hide Configured, Looped, Found, OwnTurn, Opds.StatusRead, Opds.ResetNode, BreakerOn, FaultLow, BootHigh, Missed,
      Booting, AsRead, OpdUp, NoParents, ParentWillEnable;
    RunsOn(m, n);
    LoopFinds(m, order, r, n);
    ErrorFound(Looped(m, order, r).data[n].status, m.data[n], m.opd.cards[n], r, n);
    LoopedNode(m, order, r, n);
    var k := PlaceOf(m, order, n);
    LoopedCard(m, order, r, n, k);
    NeverEnabled(m, r, order[..k], n);
    NeverEnabled(m, r, order[k + 1..], n);
    ResetKeepsRunning(m.opd.cards[n]);
    ErrorTurn(m.data[n].(status := Error), (m.loops + 1) % 10 == 0, m.opd.cards[n]);
    LoopKeepsDomain(m, order, r, n);
  }

  lemma ErrorFound(s: NodeState, a: Node, c: Opds.Card, r: Readings, n: string)
    requires Found(s, a, c, r, n) && Watched(a, c) && !Booting(a, r) && Missed(r, n)
    ensures s == Error
  {
    hide Watched, Booting, Missed, AsRead, Running, BootHigh;
  }

  lemma ErrorTurn(n: Node, tenth: bool, c: Opds.Card)
    requires n.status == Error
    ensures OwnTurn(n, tenth, c) == Opds.ResetNode(c, 1)
  {
  }

  lemma PlaceOf(m: Manager, order: seq<string>, n: string) returns (k: nat)
    requires Configured(m, order) && n in m.data
    ensures k < |order| && order[k] == n
  {
    assert n in order;
    k :| 0 <= k < |order| && order[k] == n;
  }

  lemma LoopKeepsDomain(m: Manager, order: seq<string>, r: Readings, n: string)
    requires Configured(m, order) && NoParents(m, n) && OpdUp(m)
    ensures NoParents(Looped(m, order, r), n) && OpdUp(Looped(m, order, r))
    ensures Looped(m, order, r).data.Keys == m.data.Keys
  {
    hide Configured, ObservedAll, ActedAll, Distinct;
    LoopSteps(m, order, r);
    SecondPass(m, order, r);
    LoopedConfigured(m, order, r);
  }

  function LoopsOf(rs: seq<Readings>): seq<Event>
  {
    seq(|rs|, i requires 0 <= i < |rs| => Loop(rs[i]))
  }

  lemma LoopsGrow(rs: seq<Readings>)
    requires rs != []
    ensures var k := |rs| - 1;
      LoopsOf(rs)[..|LoopsOf(rs)| - 1] == LoopsOf(rs[..k]) && LoopsOf(rs)[|LoopsOf(rs)| - 1] == Loop(rs[k])
  {
  }

  /** Each loop misses the card's heartbeats and comes past its time to boot after the one before. */
  predicate AllMiss(a: Node, rs: seq<Readings>, n: string)
  {
    forall i :: 0 <= i < |rs| ==> MissesAt(a, rs, n, i)
  }

  predicate MissesAt(a: Node, rs: seq<Readings>, n: string, i: nat)
    requires i < |rs|
  {
    Missed(rs[i], n) && !Booting(if i == 0 then a else a.(lastEnable := rs[i - 1].now), rs[i])
  }

  lemma AllMissBefore(a: Node, rs: seq<Readings>, n: string)
    requires rs != [] && AllMiss(a, rs, n)
    ensures AllMiss(a, rs[..|rs| - 1], n) && MissesAt(a, rs, n, |rs| - 1)
  {
    hide Missed, Booting;
    var before := rs[..|rs| - 1];
    forall i | 0 <= i < |before|
      ensures MissesAt(a, before, n, i)
    {
      assert MissesAt(a, rs, n, i);
    }
  }

  /** A card that stays hung is reset by each such loop, up to three times. */
  lemma {:induction false} HungCardIsResetAgain(m: Manager, order: seq<string>, rs: seq<Readings>, n: string)
    requires Configured(m, order) && Runs(m, n) && m.data[n].status != Dead && m.data[n].resets == 0
    requires |rs| <= 3 && AllMiss(m.data[n], rs, n)
    ensures var t := Run(m, order, LoopsOf(rs));
      Runs(t, n) && t.opd.cards[n].resets == m.opd.cards[n].resets + |rs| && t.data[n].resets == |rs| &&
      t.data[n].status != Dead && t.data[n].info == m.data[n].info &&
      t.data[n].lastEnable == if rs == [] then m.data[n].lastEnable else rs[|rs| - 1].now
  {
    hide Configured, Looped, Runs, Missed, Booting, AllMiss;
    RunsHere(m, n);
    if rs == [] {
      assert LoopsOf(rs) == [];
    } else {
      var k := |rs| - 1;
      AllMissBefore(m.data[n], rs, n);
      HungCardIsResetAgain(m, order, rs[..k], n);
      LoopsGrow(rs);
      var t := Run(m, order, LoopsOf(rs[..k]));
      RunsHere(t, n);
      SameBoot(m.data[n].(lastEnable := t.data[n].lastEnable), t.data[n], rs[k]);
      HungCardIsReset(t, order, rs[k], n);
      RunsHere(Looped(t, order, rs[k]), n);
    }
  }

  lemma RunsHere(m: Manager, n: string)
    requires Runs(m, n)
    ensures n in m.opd.cards && n in m.data
  {
  }

  lemma SameBoot(a: Node, b: Node, r: Readings)
    requires a.info == b.info && a.lastEnable == b.lastEnable
    ensures Booting(a, r) <==> Booting(b, r)
  {
  }

  /** And is given up by the fourth, which finds it dead and switches it off. */
  lemma HungCardIsGivenUp(m: Manager, order: seq<string>, rs: seq<Readings>, last: Readings, n: string)
    requires Configured(m, order) && Runs(m, n) && m.data[n].status != Dead && m.data[n].resets == 0
    requires |rs| == 3 && AllMiss(m.data[n], rs, n)
    ensures var t := Looped(Run(m, order, LoopsOf(rs)), order, last);
      n in t.data && t.data[n].status == Dead && n in t.opd.cards && !Pin(t.opd.cards[n], 3) &&
      t.opd.cards[n].status == Opds.DISABLED && t.opd.cards[n].resets == m.opd.cards[n].resets + 3
  {
    hide Configured, Looped, AllMiss, PassCard, OwnTurn, ParentWillEnable, Opds.Disabled, Opds.StatusRead, Bit;
    HungCardIsResetAgain(m, order, rs, n);
    hide Run;
    var u := Run(m, order, LoopsOf(rs));
    var k := PlaceOf(u, order, n);
    LoopedNode(u, order, last, n);
    LoopedCard(u, order, last, n, k);
    NeverEnabled(u, last, order[..k], n);
    NeverEnabled(u, last, order[k + 1..], n);
    var c := u.opd.cards[n];
    ReadChip(c);
    PinsAre(c);
    DisabledChip(c, 3);
    DeadPassIs(u.data[n].(status := Dead), (u.loops + 1) % 10 == 0, c, false, false);
  }

  // ----- requests -----

  /** A request to switch a node on, or into its bootloader, is met only for a card found off. */
  predicate SwitchesOn(m: Manager, name: string, value: int)
  {
    name in m.data && name in m.opd.cards && (value == 2 || value == 5) && m.data[name].status == Off
  }

  predicate SwitchesOff(m: Manager, name: string, value: int)
  {
    name in m.data && name in m.opd.cards && value == 0 && m.data[name].status != Off && m.data[name].status != Dead
  }

  predicate IsChildOf(m: Manager, name: string, child: string)
  {
    name in m.data && m.data[name].info.child == Some(child)
  }

  /** What a request for a node does to each card: its own and its child's, which boots as its parent does. */
  lemma RequestActs(m: Manager, order: seq<string>, name: string, value: int, now: real, x: string)
    requires Configured(m, order) && x in m.opd.cards && !IsChildOf(m, name, name)
    ensures x in StatusSet(m, order, name, value, now).opd.cards
    ensures var (c, a) := (m.opd.cards[x], StatusSet(m, order, name, value, now).opd.cards[x]);
      a == if x == name && SwitchesOn(m, name, value) then Opds.Enabled(c, value == 5 && c.kind.Stm32?)
           else if IsChildOf(m, name, x) && SwitchesOn(m, name, value)
           then Opds.Enabled(c, value == 5 && m.opd.cards[name].kind.Stm32? && c.kind.Stm32?)
           else if (x == name || IsChildOf(m, name, x)) && SwitchesOff(m, name, value) then Opds.Disabled(c)
           else c
  {
    hide Opds.Enabled, Opds.Disabled, Configured;
    StatusKeepsConfigured(m, order, name, value, now);
    if name in m.data {
      ConfiguredName(m, order, name);
    }
  }

  /** And to each node: only when its card is switched on is the time noted. */
  lemma RequestNotes(m: Manager, order: seq<string>, name: string, value: int, now: real)
    requires Configured(m, order)
    ensures var t := StatusSet(m, order, name, value, now);
      t.data == (if SwitchesOn(m, name, value) then m.data[name := m.data[name].(lastEnable := now)] else m.data) &&
      t.opd.uart == m.opd.uart && t.opd.status == m.opd.status && t.loops == m.loops
  {
    hide Opds.Enabled, Opds.Disabled, Configured;
    if name in m.data {
      ConfiguredName(m, order, name);
    }
  }

  /**
   A request met by a card that answers leaves it and its child as asked: on, and an STM32 card in the
   bootloader exactly when that was asked for; or off.
   */
  lemma RequestPowers(m: Manager, order: seq<string>, name: string, value: int, now: real, x: string)
    requires Configured(m, order) && x in m.opd.cards && !IsChildOf(m, name, name)
    requires x == name || IsChildOf(m, name, x)
    requires m.opd.cards[x].responding && HasChip(m.opd.cards[x])
    ensures x in StatusSet(m, order, name, value, now).opd.cards
    ensures var (c, a) := (m.opd.cards[x], StatusSet(m, order, name, value, now).opd.cards[x]);
      (SwitchesOff(m, name, value) ==> !Pin(a, 3) && a.status == Opds.DISABLED) &&
      (SwitchesOn(m, name, value) && c.status != Opds.NOT_FOUND ==>
         Pin(a, 3) && a.status == Opds.ENABLED &&
         (c.kind.Stm32? ==> (Pin(a, 5) <==> value == 5 && m.opd.cards[name].kind.Stm32?)) &&
         (c.kind.Mcxn? ==> Pin(a, 5)))
  {
    hide Opds.Enabled, Opds.Disabled, Configured, Bit, StatusSet;
    var c := m.opd.cards[x];
    RequestActs(m, order, name, value, now, x);
    forall b: bool
      ensures var a := Opds.Enabled(c, b);
        c.status != Opds.NOT_FOUND ==>
          Pin(a, 3) && a.status == Opds.ENABLED && (c.kind.Stm32? ==> (Pin(a, 5) <==> b)) &&
          (c.kind.Mcxn? ==> (Pin(a, 5) <==> !b))
    {
      EnabledChip(c, b, 3);
      EnabledChip(c, b, 5);
    }
    DisabledChip(c, 3);
  }

  /** Marking a node as being updated, and no longer so, which restarts its time to boot. */
  lemma UpdatingActs(m: Manager, name: string, updating: bool, now: real)
    ensures var t := UpdatingSet(m, name, updating, now);
      t.opd == m.opd && t.loops == m.loops && t.data.Keys == m.data.Keys &&
      forall x :: x in m.data ==>
        t.data[x] == if x != name then m.data[x]
                     else if updating then m.data[x].(updating := true, status := Updating)
                     else m.data[x].(updating := false, lastEnable := now)
  {
  }

  /** A node being updated is left alone by every loop, whatever its heartbeats, unless its card reports a fault. */
  lemma UpdatingIsLeftAlone(m: Manager, order: seq<string>, r: Readings, n: string)
    requires Configured(m, order) && OpdUp(m) && n in m.opd.cards && n in m.data && m.data[n].resets < 3
    requires m.data[n].updating && m.data[n].info.nodeId != 0 && Running(m.opd.cards[n])
    ensures var t := Looped(m, order, r);
      n in t.data && n in t.opd.cards && t.data[n] == m.data[n].(status := Updating) &&
      t.opd.cards[n].resets == m.opd.cards[n].resets
  {
    hide Configured, Looped, OpdUp, AsRead;
    RunningCard(m.opd.cards[n]);
    LoopFinds(m, order, r, n);
    LoopedNode(m, order, r, n);
    LoopedResets(m, order, r, n);
  }

  lemma RunningCard(c: Opds.Card)
    requires Running(c)
    ensures c.status != Opds.DEAD
  {
  }

  /** Switching the domain by request: off marks every node on it missing, on from off restarts every time to boot. */
  lemma OpdRequestActs(m: Manager, value: int, now: real, x: string)
    requires Opds.ValidDomain(m.opd) && x in m.data
    ensures var t := OpdStatusSet(m, value, now);
      x in t.data && t.loops == m.loops &&
      t.opd == (if value == 0 then Opds.PoweredDown(m.opd) else if value == 1 then Opds.PoweredUp(m.opd) else m.opd) &&
      t.data[x] ==
        if value == 0 && m.data[x].info.opdAddress != 0 then m.data[x].(status := NotFound)
        else if value == 1 && m.opd.status == Opds.OpdDisabled then m.data[x].(lastEnable := now)
        else m.data[x]
  {
    hide Opds.PoweredDown, Opds.PoweredUp;
  }

  // ----- cards that come and go -----

  /** A card that stops answering is found missing, and kept as it is, but for a probe in every tenth loop. */
  lemma SilentCardIsMissing(m: Manager, order: seq<string>, r: Readings, n: string)
    requires Configured(m, order) && OpdUp(m) && NoParents(m, n) && n in m.opd.cards && n in m.data
    requires m.data[n].resets < 3 && HasChip(m.opd.cards[n]) && !m.opd.cards[n].responding
    requires m.opd.cards[n].status != Opds.DEAD
    ensures var t := Looped(m, order, r);
      n in t.data && n in t.opd.cards && t.data[n] == m.data[n].(status := NotFound) &&
      t.opd.cards[n] == m.opd.cards[n].(status := Opds.NOT_FOUND)
  {
    hide Configured, Looped, OpdUp, ParentWillEnable, Opds.Probed, BreakerOn, FaultLow, Watched, Running, BootHigh;
    LoopFinds(m, order, r, n);
    LoopedNode(m, order, r, n);
    var k := PlaceOf(m, order, n);
    LoopedCard(m, order, r, n, k);
    NeverEnabled(m, r, order[..k], n);
    NeverEnabled(m, r, order[k + 1..], n);
    StatusReadIs(m.opd.cards[n]);
    ProbedChip(Opds.StatusRead(m.opd.cards[n]), true);
  }

  /** One that answers again is configured by the next tenth loop, and found off by the loop after it. */
  lemma MissingCardIsFound(m: Manager, order: seq<string>, r: Readings, n: string)
    requires Configured(m, order) && OpdUp(m) && NoParents(m, n) && n in m.opd.cards && n in m.data
    requires m.data[n].resets < 3 && HasChip(m.opd.cards[n]) && m.opd.cards[n].responding
    requires m.opd.cards[n].status == Opds.NOT_FOUND && !(BreakerOn(m.opd.cards[n]) && FaultLow(m.opd.cards[n]))
    ensures var t := Looped(m, order, r);
      n in t.data && n in t.opd.cards && t.data[n].status == NotFound &&
      t.opd.cards[n] ==
        if (m.loops + 1) % 10 == 0 then Fresh(m.opd.cards[n]) else m.opd.cards[n]
  {
    hide Configured, Looped, OpdUp, ParentWillEnable, Opds.Probed, BreakerOn, FaultLow, Watched, Running, BootHigh;
    LoopFinds(m, order, r, n);
    LoopedNode(m, order, r, n);
    var k := PlaceOf(m, order, n);
    LoopedCard(m, order, r, n, k);
    NeverEnabled(m, r, order[..k], n);
    NeverEnabled(m, r, order[k + 1..], n);
    StatusReadIs(m.opd.cards[n]);
    ProbedChip(m.opd.cards[n], true);
  }

  /** An always-on card that is found off is switched on by that loop. */
  lemma AlwaysOnIsSwitchedOn(m: Manager, order: seq<string>, r: Readings, n: string)
    requires Configured(m, order) && OpdUp(m) && NoParents(m, n) && n in m.opd.cards && n in m.data
    requires m.data[n].resets < 3 && HasChip(m.opd.cards[n]) && m.opd.cards[n].responding
    requires m.opd.cards[n].status == Opds.DISABLED && !(BreakerOn(m.opd.cards[n]) && FaultLow(m.opd.cards[n]))
    ensures var t := Looped(m, order, r);
      n in t.data && n in t.opd.cards && t.data[n].status == Off && t.data[n].resets == 0 &&
      (if m.data[n].info.alwaysOn
       then Pin(t.opd.cards[n], 3) && t.opd.cards[n].status == Opds.ENABLED && t.data[n].lastEnable == r.now
       else t.opd.cards[n] == m.opd.cards[n] && t.data[n].lastEnable == m.data[n].lastEnable)
  {
    hide Configured, Looped, OpdUp, ParentWillEnable, Opds.Enabled, BreakerOn, FaultLow, Watched, Running, BootHigh,
      Bit;
    LoopFinds(m, order, r, n);
    LoopedNode(m, order, r, n);
    var k := PlaceOf(m, order, n);
    LoopedCard(m, order, r, n, k);
    NeverEnabled(m, r, order[..k], n);
    NeverEnabled(m, r, order[k + 1..], n);
    StatusReadIs(m.opd.cards[n]);
    EnabledChip(m.opd.cards[n], false, 3);
  }
}
