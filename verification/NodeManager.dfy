/**
 The supervisor of the satellite's cards: every loop it decides each card's state, resets cards in
 error at most three times in a row, and switches off the cards it gave up on, which are called dead.
 */
module NodeManagers {
  import opened Octets
  import opened Max7310s
  import Opds

  const MAX_CO_RESETS := 3
  const RESET_TIMEOUT_S := 5.0
  const STM32_BOOT_TIMEOUT := 10.0
  const OCTAVO_BOOT_TIMEOUT := 90.0
  const HB_TIMEOUT := 5.0
  const C3 := "c3"

  datatype NodeState = Off | Boot | On | Error | NotFound | Bootloader | Updating | Dead

  /** What a configuration says of a card; an OPD address or node id of 0 stands for none. */
  datatype Info = Info(
    nodeId: int,
    opdAddress: int,
    microcontroller: bool,
    alwaysOn: bool,
    child: Option<string>)

  datatype Node = Node(
    info: Info,
    resets: int,
    lastEnable: real,
    status: NodeState,
    updating: bool)

  datatype Manager = Manager(data: map<string, Node>, opd: Opds.Domain, loops: int)

  /** What one loop reads: the clock, each node's last heartbeat, and the flight mode and bus. */
  datatype Readings = Readings(now: real, heartbeat: map<string, real>, flightMode: bool, networkUp: bool)

  /** The configurations the service runs with: cards with an OPD address, and only they, are on the OPD. */
  ghost predicate Configured(m: Manager, order: seq<string>)
  {
    && (forall n :: n in m.data <==> n in order)
    && (forall i, j :: 0 <= i < j < |order| ==> order[i] != order[j])
    && C3 in m.data && m.data[C3].info.opdAddress == 0
    && (forall n :: n in m.opd.cards <==> n in m.data && m.data[n].info.opdAddress != 0)
    && (forall n :: n in m.data && m.data[n].info.child.Some? ==> m.data[n].info.child.value in m.opd.cards)
    && Opds.ValidDomain(m.opd)
  }

  /** What a service knows of a card when it is constructed: nothing, but that the C3 itself runs. */
  function StartNode(name: string, info: Info): Node
  {
    Node(info, 0, 0.0, if name == C3 then On else NotFound, false)
  }

  function Constructed(infos: map<string, Info>, opd: Opds.Domain): Manager
  {
    Manager(map n | n in infos :: StartNode(n, infos[n]), opd, -1)
  }

  // ----- deciding states -----

  function Heartbeat(r: Readings, name: string): real
  {
    if name in r.heartbeat then r.heartbeat[name] else 0.0
  }

  /** The state of a CANopen node whose card is switched on. */
  function CanOpenState(n: Node, name: string, r: Readings): NodeState
  {
    var silent := r.now > Heartbeat(r, name) + RESET_TIMEOUT_S;
    if n.updating then Updating
    else if n.status == Dead then if silent then On else Dead
    else if n.lastEnable + (if n.info.microcontroller then STM32_BOOT_TIMEOUT else OCTAVO_BOOT_TIMEOUT) > r.now then
      if silent then Boot else On
    else if n.status == Error then Error
    else if r.flightMode && r.networkUp && silent then Error
    else On
  }

  /** The state of a node by its card, once the card's status has been read. */
  function CardState(n: Node, name: string, c: Opds.Card, r: Readings): NodeState
  {
    match c.status
    case FAULT => Error
    case NOT_FOUND => NotFound
    case DISABLED => Off
    case ENABLED =>
      if c.kind.Stm32? && Bit(Opds.Output(c), Opds.BOOT_PIN) then Bootloader
      else if n.info.nodeId != 0 then CanOpenState(n, name, r)
      else On
    case DEAD => n.status
  }

  /** Whether deciding a node's state reads its card. */
  predicate ReadsCard(n: Node, opd: Opds.Domain)
  {
    n.info.opdAddress != 0 && opd.status != Opds.OpdDisabled && opd.status != Opds.OpdDead && n.resets < MAX_CO_RESETS
  }

  function StateOf(n: Node, name: string, opd: Opds.Domain, r: Readings): NodeState
    requires n.info.opdAddress != 0 ==> name in opd.cards
  {
    if n.info.opdAddress == 0 then
      if n.updating then Updating else if r.now > Heartbeat(r, name) + HB_TIMEOUT then Off else On
    else if opd.status == Opds.OpdDisabled then NotFound
    else if opd.status == Opds.OpdDead then Dead
    else if n.resets >= MAX_CO_RESETS then Dead
    else CardState(n, name, Opds.StatusRead(opd.cards[name]), r)
  }

  function Put(m: Manager, name: string, n: Node): Manager
  {
    m.(data := m.data[name := n])
  }

  function PutCard(m: Manager, name: string, c: Opds.Card): Manager
  {
    m.(opd := Opds.OnCard(m.opd, name, c))
  }

  /** One turn of the first pass. */
  function Observed(m: Manager, name: string, r: Readings): Manager
    requires name in m.data && (m.data[name].info.opdAddress != 0 ==> name in m.opd.cards)
  {
    if name == C3 then m
    else
      var n := m.data[name];
      var s := StateOf(n, name, m.opd, r);
      var m' := if ReadsCard(n, m.opd) then PutCard(m, name, Opds.StatusRead(m.opd.cards[name])) else m;
      Put(m', name, n.(status := s))
  }

  // ----- acting on states -----

  /** Switching on a card that is off, with its child, when it is asked for by name. */
  function EnabledNode(m: Manager, name: string, bootloader: bool, now: real): Manager
    requires name in m.data && (m.data[name].info.opdAddress != 0 ==> name in m.opd.cards)
    requires m.data[name].info.child.Some? ==> m.data[name].info.child.value in m.opd.cards
  {
    var n := m.data[name];
    if n.info.opdAddress == 0 || n.status != Off then m
    else
      var boot := bootloader && m.opd.cards[name].kind.Stm32?;
      var m1 := PutCard(m, name, Opds.Enabled(m.opd.cards[name], boot));
      var m2 := if n.info.child.None? then m1 else EnabledChild(m1, n.info.child.value, boot);
      Put(m2, name, n.(lastEnable := now))
  }

  function EnabledChild(m: Manager, child: string, bootloader: bool): Manager
    requires child in m.opd.cards
  {
    var c := m.opd.cards[child];
    PutCard(m, child, Opds.Enabled(c, bootloader && c.kind.Stm32?))
  }

  function DisabledNode(m: Manager, name: string): Manager
    requires name in m.data && (m.data[name].info.opdAddress != 0 ==> name in m.opd.cards)
    requires m.data[name].info.child.Some? ==> m.data[name].info.child.value in m.opd.cards
  {
    var n := m.data[name];
    if n.info.opdAddress == 0 || n.status == Off || n.status == Dead then m
    else
      var m1 := if n.info.child.None? then m
                else PutCard(m, n.info.child.value, Opds.Disabled(m.opd.cards[n.info.child.value]));
      PutCard(m1, name, Opds.Disabled(m1.opd.cards[name]))
  }

  function Prepared(m: Manager, name: string, r: Readings): Manager
    requires name in m.data && name in m.opd.cards && m.data[name].info.opdAddress != 0
    requires m.data[name].info.child.Some? ==> m.data[name].info.child.value in m.opd.cards
  {
    var n := m.data[name];
    var m1 := if m.loops % 10 == 0 && n.status == NotFound
              then PutCard(m, name, Opds.Probed(m.opd.cards[name], true)) else m;
    if n.info.alwaysOn && n.status == Off then EnabledNode(m1, name, false, r.now) else m1
  }

  function Resolved(m: Manager, name: string, r: Readings): Manager
    requires name in m.data && name in m.opd.cards
  {
    var n, c := m.data[name], m.opd.cards[name];
    if n.status == Dead then
      PutCard(m, name, if Opds.IsEnabled(c) then Opds.Disabled(c) else Opds.EnabledRead(c))
    else if n.status == Error then
      Put(PutCard(m, name, Opds.ResetNode(c, 1)), name,
          n.(lastEnable := r.now, resets := n.resets + 1))
    else if n.status == On || n.status == Off then Put(m, name, n.(resets := 0))
    else m
  }

  /** One turn of the second pass. */
  function Acted(m: Manager, name: string, r: Readings): Manager
    requires name in m.data && (name in m.opd.cards ==> m.data[name].info.opdAddress != 0)
    requires m.data[name].info.child.Some? ==> m.data[name].info.child.value in m.opd.cards
  {
    if name !in m.opd.cards then m else Resolved(Prepared(m, name, r), name, r)
  }

  /** Nothing a turn does changes the configuration. */
  predicate SameConfiguration(a: Manager, b: Manager)
  {
    && a.data.Keys == b.data.Keys && a.opd.cards.Keys == b.opd.cards.Keys && a.opd.uart == b.opd.uart
    && a.opd.status == b.opd.status && a.loops == b.loops
    && forall n :: n in a.data ==> a.data[n].info == b.data[n].info
  }

  lemma ConfigurationKept(a: Manager, b: Manager, order: seq<string>)
    requires Configured(a, order) && SameConfiguration(a, b)
    ensures Configured(b, order)
  {
  }

  lemma ObservedKeepsConfiguration(m: Manager, name: string, r: Readings)
    requires name in m.data && (m.data[name].info.opdAddress != 0 ==> name in m.opd.cards)
    ensures SameConfiguration(m, Observed(m, name, r))
  {
    hide StateOf, ReadsCard;
    if name != C3 && ReadsCard(m.data[name], m.opd) {
      CardIsRead(m.data[name], m.opd);
    }
  }

  lemma CardIsRead(n: Node, opd: Opds.Domain)
    requires ReadsCard(n, opd)
    ensures n.info.opdAddress != 0
  {
  }

  lemma EnabledKeepsConfiguration(m: Manager, name: string, bootloader: bool, now: real)
    requires name in m.data && (m.data[name].info.opdAddress != 0 ==> name in m.opd.cards)
    requires m.data[name].info.child.Some? ==> m.data[name].info.child.value in m.opd.cards
    ensures SameConfiguration(m, EnabledNode(m, name, bootloader, now))
  {
  }

  lemma ActedKeepsConfiguration(m: Manager, name: string, r: Readings)
    requires name in m.data && (name in m.opd.cards ==> m.data[name].info.opdAddress != 0)
    requires m.data[name].info.child.Some? ==> m.data[name].info.child.value in m.opd.cards
    ensures SameConfiguration(m, Acted(m, name, r))
  {
    hide Prepared, Resolved, SameConfiguration;
    if name in m.opd.cards {
      PreparedKeeps(m, name, r);
      SameDomain(m, Prepared(m, name, r));
      ResolvedKeeps(Prepared(m, name, r), name, r);
      KeptTwice(m, Prepared(m, name, r), Resolved(Prepared(m, name, r), name, r));
    } else {
      KeptAtAll(m);
    }
  }

  lemma ResolvedKeeps(m: Manager, name: string, r: Readings)
    requires name in m.data && name in m.opd.cards
    ensures SameConfiguration(m, Resolved(m, name, r))
  {
    hide Opds.Disabled, Opds.ResetNode, Opds.IsEnabled, Opds.EnabledRead;
  }

  lemma KeptTwice(a: Manager, b: Manager, c: Manager)
    requires SameConfiguration(a, b) && SameConfiguration(b, c)
    ensures SameConfiguration(a, c)
  {
  }

  lemma KeptAtAll(m: Manager)
    ensures SameConfiguration(m, m)
  {
  }

  lemma SameDomain(a: Manager, b: Manager)
    requires SameConfiguration(a, b)
    ensures b.opd.status == a.opd.status && b.opd.cards.Keys == a.opd.cards.Keys && b.data.Keys == a.data.Keys
  {
  }

  lemma PreparedKeeps(m: Manager, name: string, r: Readings)
    requires name in m.data && name in m.opd.cards && m.data[name].info.opdAddress != 0
    requires m.data[name].info.child.Some? ==> m.data[name].info.child.value in m.opd.cards
    ensures SameConfiguration(m, Prepared(m, name, r))
  {
    hide EnabledNode;
    var m1 := if m.loops % 10 == 0 && m.data[name].status == NotFound
              then PutCard(m, name, Opds.Probed(m.opd.cards[name], true)) else m;
    EnabledKeepsConfiguration(m1, name, false, r.now);
  }

  /** The first pass over the names. */
  function ObservedAll(m: Manager, order: seq<string>, names: seq<string>, r: Readings): (r': Manager)
    requires Configured(m, order) && forall n :: n in names ==> n in m.data
    ensures Configured(r', order) && SameConfiguration(m, r')
    decreases |names|
  {
    if names == [] then m
    else
      var m' := Observed(m, names[0], r);
      ObservedKeepsConfiguration(m, names[0], r);
      ConfigurationKept(m, m', order);
      assert forall n :: n in names[1..] ==> n in names;
      ObservedAll(m', order, names[1..], r)
  }

  /** The second pass over the names. */
  function ActedAll(m: Manager, order: seq<string>, names: seq<string>, r: Readings): (r': Manager)
    requires Configured(m, order) && forall n :: n in names ==> n in m.data
    ensures Configured(r', order) && SameConfiguration(m, r')
    decreases |names|
  {
    if names == [] then m
    else
      var m' := Acted(m, names[0], r);
      ActedKeepsConfiguration(m, names[0], r);
      ConfigurationKept(m, m', order);
      assert forall n :: n in names[1..] ==> n in names;
      ActedAll(m', order, names[1..], r)
  }

  /** The domain is on: only then does a loop go on to its second pass. */
  predicate OpdUp(m: Manager)
  {
    m.opd.status != Opds.OpdDisabled && m.opd.status != Opds.OpdDead
  }

  function Counted(m: Manager): Manager
  {
    m.(loops := m.loops + 1)
  }

  lemma CountedConfigured(m: Manager, order: seq<string>)
    requires Configured(m, order)
    ensures Counted(m).data == m.data && Counted(m).opd == m.opd
    ensures Configured(Counted(m), order) && Distinct(order) && forall x :: x in order ==> x in m.data
  {
  }

  predicate Distinct(names: seq<string>)
  {
    forall i, j :: 0 <= i < j < |names| ==> names[i] != names[j]
  }

  /** Where a loop stands between its passes. */
  function AfterFirstPass(m: Manager, order: seq<string>, r: Readings): (r': Manager)
    requires Configured(m, order)
  {
    CountedConfigured(m, order);
    ObservedAll(Counted(m), order, order, r)
  }

  lemma FirstPassConfigured(m: Manager, order: seq<string>, r: Readings)
    requires Configured(m, order)
    ensures var m1 := AfterFirstPass(m, order, r);
      Configured(m1, order) && Distinct(order) && (forall x :: x in order ==> x in m1.data) &&
      m1.opd.status == m.opd.status && m1.opd.cards.Keys == m.opd.cards.Keys && m1.data.Keys == m.data.Keys
  {
    hide Configured, ObservedAll, Distinct;
    CountedConfigured(m, order);
  }

  /** The manager after one loop. */
  function Looped(m: Manager, order: seq<string>, r: Readings): Manager
    requires Configured(m, order)
  {
    var m1 := AfterFirstPass(m, order, r);
    FirstPassConfigured(m, order, r);
    if OpdUp(m1) then ActedAll(m1, order, order, r) else m1.(loops := -1)
  }

  lemma LoopedConfigured(m: Manager, order: seq<string>, r: Readings)
    requires Configured(m, order)
    ensures var b := Looped(m, order, r);
      Configured(b, order) && b.opd.cards.Keys == m.opd.cards.Keys && b.data.Keys == m.data.Keys
  {
    hide Configured, AfterFirstPass, ActedAll, Distinct;
    FirstPassConfigured(m, order, r);
    var m1 := AfterFirstPass(m, order, r);
    if !OpdUp(m1) {
      ConfigurationLooped(m1, m1.(loops := -1), order);
    }
  }

  lemma ConfigurationLooped(m: Manager, m0: Manager, order: seq<string>)
    requires Configured(m, order) && m0.data == m.data && m0.opd == m.opd
    ensures Configured(m0, order)
  {
  }

  // ----- what a loop does to one node -----

  /** The states of a node whose domain is off or dead. */
  predicate IsDown(s: NodeState)
  {
    s == NotFound || s == Dead
  }

  /** A node with resets left that was not found dead, in a domain that is not. */
  predicate NotYetDead(n: Node, opd: Opds.Domain)
  {
    n.status != Dead && n.resets < MAX_CO_RESETS && opd.status != Opds.OpdDead
  }

  lemma StateNotDead(n: Node, name: string, opd: Opds.Domain, r: Readings)
    requires NotYetDead(n, opd) && (n.info.opdAddress != 0 ==> name in opd.cards)
    ensures StateOf(n, name, opd, r) != Dead
  {
    hide Bit, Opds.StatusRead;
  }

  lemma ObservedOne(m: Manager, name: string, r: Readings, n: string)
    requires name in m.data && n in m.data && (m.data[name].info.opdAddress != 0 ==> name in m.opd.cards)
    ensures var a, b := m.data[n], Observed(m, name, r).data[n];
      if n != name || n == C3 then b == a else b == a.(status := b.status)
    ensures n == name != C3 && m.data[n].info.opdAddress != 0 && OpdUp(m) ==>
              (m.data[n].resets >= MAX_CO_RESETS ==> Observed(m, name, r).data[n].status == Dead)
    ensures n == name != C3 && m.data[n].info.opdAddress != 0 && !OpdUp(m) ==>
              IsDown(Observed(m, name, r).data[n].status)
    ensures NotYetDead(m.data[n], m.opd) ==> NotYetDead(Observed(m, name, r).data[n], m.opd)
  {
    hide CardState;
    if NotYetDead(m.data[name], m.opd) {
      StateNotDead(m.data[name], name, m.opd, r);
    }
  }

  lemma DistinctRest(names: seq<string>)
    requires Distinct(names) && names != []
    ensures Distinct(names[1..]) && names[0] !in names[1..] && names == [names[0]] + names[1..]
  {
  }

  /** The first pass sees every node once, and finds each that used up its resets dead. */
  lemma {:induction false} ObservedAllOne(m: Manager, order: seq<string>, names: seq<string>, r: Readings, n: string)
    requires Configured(m, order) && Distinct(names) && n in m.data && forall x :: x in names ==> x in m.data
    ensures var a, b := m.data[n], ObservedAll(m, order, names, r).data[n];
      if n !in names || n == C3 then b == a
      else
        b == a.(status := b.status) &&
        (a.info.opdAddress != 0 ==>
           if OpdUp(m) then a.resets >= MAX_CO_RESETS ==> b.status == Dead else IsDown(b.status)) &&
        (NotYetDead(a, m.opd) ==> NotYetDead(b, m.opd))
    decreases |names|
  {
    hide Observed, Configured;
    if names == [] {
    } else {
      DistinctRest(names);
      ConfiguredName(m, order, names[0]);
      ObservedOne(m, names[0], r, n);
      ObservedKeepsConfiguration(m, names[0], r);
      ConfigurationKept(m, Observed(m, names[0], r), order);
      ObservedAllOne(Observed(m, names[0], r), order, names[1..], r, n);
    }
  }

  lemma ConfiguredName(m: Manager, order: seq<string>, name: string)
    requires Configured(m, order) && name in m.data
    ensures name in m.opd.cards <==> m.data[name].info.opdAddress != 0
    ensures m.data[name].info.child.Some? ==> m.data[name].info.child.value in m.opd.cards
    ensures name in order && C3 !in m.opd.cards
  {
  }

  /** What the second pass makes of a node on the OPD. */
  function ActedNode(a: Node, now: real): Node
  {
    a.(lastEnable := if a.status == Error || (a.status == Off && a.info.alwaysOn) then now else a.lastEnable,
       resets := if a.status == Error then a.resets + 1 else if a.status == On || a.status == Off then 0 else a.resets)
  }

  /** Equal but for the time of the last enable. */
  predicate SameButTime(a: Node, b: Node)
  {
    a == b.(lastEnable := a.lastEnable)
  }

  lemma ActedOne(m: Manager, name: string, r: Readings, n: string)
    requires name in m.data && n in m.data && (name in m.opd.cards ==> m.data[name].info.opdAddress != 0)
    requires m.data[name].info.child.Some? ==> m.data[name].info.child.value in m.opd.cards
    ensures var a, b := m.data[n], Acted(m, name, r).data[n];
      b == if n != name || n !in m.opd.cards then a else ActedNode(a, r.now)
  {
    hide EnabledChild;
    if name in m.opd.cards {
      PreparedOne(m, name, r, n);
      PreparedKeeps(m, name, r);
      hide Prepared;
    }
  }

  lemma PreparedOne(m: Manager, name: string, r: Readings, n: string)
    requires name in m.data && name in m.opd.cards && n in m.data && m.data[name].info.opdAddress != 0
    requires m.data[name].info.child.Some? ==> m.data[name].info.child.value in m.opd.cards
    ensures var a, b := m.data[n], Prepared(m, name, r).data[n];
      b == if n == name && a.info.alwaysOn && a.status == Off then a.(lastEnable := r.now) else a
  {
  }

  lemma {:induction false} ActedAllOne(m: Manager, order: seq<string>, names: seq<string>, r: Readings, n: string)
    requires Configured(m, order) && Distinct(names) && n in m.data && forall x :: x in names ==> x in m.data
    ensures var a, b := m.data[n], ActedAll(m, order, names, r).data[n];
      b == if n !in names || n !in m.opd.cards then a else ActedNode(a, r.now)
    decreases |names|
  {
    hide Acted, Configured, ActedNode;
    if names == [] {
    } else {
      DistinctRest(names);
      ConfiguredName(m, order, names[0]);
      ActedOne(m, names[0], r, n);
      ActedKeepsConfiguration(m, names[0], r);
      ConfigurationKept(m, Acted(m, names[0], r), order);
      ActedAllOne(Acted(m, names[0], r), order, names[1..], r, n);
    }
  }

  /** One loop, seen from one node on the OPD. */
  lemma LoopedOne(m: Manager, order: seq<string>, r: Readings, n: string)
    requires Configured(m, order) && n in m.opd.cards
    ensures n in m.data
    ensures var a, b := m.data[n], Looped(m, order, r).data[n];
      var seen := a.(status := b.status);
      if OpdUp(m) then
        b == ActedNode(seen, r.now) && (a.resets >= MAX_CO_RESETS ==> b.status == Dead)
      else b == seen && IsDown(b.status)
    ensures NotYetDead(m.data[n], m.opd) ==> Looped(m, order, r).data[n].status != Dead
  {
    hide AfterFirstPass, ActedAll, ActedNode, Configured, SameConfiguration, IsDown, Distinct;
    ConfiguredOrder(m, order, n);
    FirstPassConfigured(m, order, r);
    LoopedConfigured(m, order, r);
    var m1 := AfterFirstPass(m, order, r);
    FirstPassOne(m, order, r, n);
    if OpdUp(m) {
      ActedAllOne(m1, order, order, r, n);
      ActedKeepsStatus(m1.data[n], Looped(m, order, r).data[n], r.now);
    }
  }

  lemma FirstPassOne(m: Manager, order: seq<string>, r: Readings, n: string)
    requires Configured(m, order) && n in m.opd.cards
    ensures n in m.data && n in AfterFirstPass(m, order, r).data
    ensures var a, b := m.data[n], AfterFirstPass(m, order, r).data[n];
      b == a.(status := b.status) &&
      (if OpdUp(m) then a.resets >= MAX_CO_RESETS ==> b.status == Dead else IsDown(b.status)) &&
      (NotYetDead(a, m.opd) ==> b.status != Dead)
  {
    hide ObservedAll, Configured, IsDown, Distinct, SameConfiguration, Counted;
    ConfiguredOrder(m, order, n);
    CountedConfigured(m, order);
    FirstPassConfigured(m, order, r);
    ObservedAllOne(Counted(m), order, order, r, n);
  }

  lemma ActedKeepsStatus(a: Node, b: Node, now: real)
    requires b == ActedNode(a, now)
    ensures b.status == a.status
  {
  }

  lemma ActedNodeKeepsStatus(a: Node, now: real)
    ensures ActedNode(a, now).status == a.status
  {
  }

  lemma ConfiguredOrder(m: Manager, order: seq<string>, n: string)
    requires Configured(m, order) && n in m.opd.cards
    ensures Distinct(order) && n in m.data && n in order && n != C3 && m.data[n].info.opdAddress != 0
    ensures forall x :: x in order ==> x in m.data
  {
  }

  // ----- every run -----

  /** Requests from outside arrive between loops; a power domain event is any of that module's. */
  datatype Event =
    | Loop(r: Readings)
    | SetUpdating(name: string, updating: bool, now: real)
    | SetStatus(name: string, value: int, now: real)
    | SetOpdStatus(value: int, now: real)
    | OpdEvent(e: Opds.Event)

  function UpdatingSet(m: Manager, name: string, updating: bool, now: real): Manager
  {
    if name !in m.data then m
    else
      var n := m.data[name].(updating := updating);
      Put(m, name, if updating then n.(status := Updating) else n.(lastEnable := now))
  }

  /** The requests `_set_node_status` knows: on, off and bootloader. */
  function StatusSet(m: Manager, order: seq<string>, name: string, value: int, now: real): Manager
    requires Configured(m, order)
  {
    if name !in m.data then m
    else if value == 2 then EnabledNode(m, name, false, now)
    else if value == 0 then DisabledNode(m, name)
    else if value == 5 then EnabledNode(m, name, true, now)
    else m
  }

  function OpdStatusSet(m: Manager, value: int, now: real): Manager
    requires Opds.ValidDomain(m.opd)
  {
    if value == 0 then
      m.(opd := Opds.PoweredDown(m.opd),
         data := map n | n in m.data ::
           if m.data[n].info.opdAddress != 0 then m.data[n].(status := NotFound) else m.data[n])
    else if value == 1 then
      m.(opd := Opds.PoweredUp(m.opd),
         data := if m.opd.status == Opds.OpdDisabled then map n | n in m.data :: m.data[n].(lastEnable := now)
                 else m.data)
    else m
  }

  function Step(m: Manager, order: seq<string>, e: Event): Manager
    requires Configured(m, order)
  {
    match e
    case Loop(r) => Looped(m, order, r)
    case SetUpdating(name, updating, now) => UpdatingSet(m, name, updating, now)
    case SetStatus(name, value, now) => StatusSet(m, order, name, value, now)
    case SetOpdStatus(value, now) => OpdStatusSet(m, value, now)
    case OpdEvent(o) => m.(opd := Opds.Step(m.opd, o))
  }

  lemma StepKeepsConfigured(m: Manager, order: seq<string>, e: Event)
    requires Configured(m, order)
    ensures Configured(Step(m, order, e), order) && Step(m, order, e).opd.cards.Keys == m.opd.cards.Keys
    ensures Step(m, order, e).data.Keys == m.data.Keys
  {
    hide Looped, UpdatingSet, StatusSet, OpdStatusSet, Opds.Step, Configured;
    match e
    case Loop(r) => LoopedConfigured(m, order, r);
    case SetUpdating(name, updating, now) => UpdatingKeepsConfigured(m, order, name, updating, now);
    case SetStatus(name, value, now) => StatusKeepsConfigured(m, order, name, value, now);
    case SetOpdStatus(value, now) => OpdStatusKeepsConfigured(m, order, value, now);
    case OpdEvent(o) => OpdKeepsConfigured(m, order, o);
  }

  lemma UpdatingKeepsConfigured(m: Manager, order: seq<string>, name: string, updating: bool, now: real)
    requires Configured(m, order)
    ensures var b := UpdatingSet(m, name, updating, now);
      Configured(b, order) && b.opd == m.opd && b.data.Keys == m.data.Keys
  {
    hide Configured;
    ConfigurationKept(m, UpdatingSet(m, name, updating, now), order);
  }

  lemma StatusKeepsConfigured(m: Manager, order: seq<string>, name: string, value: int, now: real)
    requires Configured(m, order)
    ensures var b := StatusSet(m, order, name, value, now);
      Configured(b, order) && b.opd.cards.Keys == m.opd.cards.Keys && b.data.Keys == m.data.Keys
  {
    hide EnabledNode, DisabledNode, Configured;
    if name in m.data {
      ConfiguredName(m, order, name);
      EnabledKeepsConfiguration(m, name, value == 5, now);
      DisabledKeepsConfiguration(m, name);
    }
    var b := StatusSet(m, order, name, value, now);
    if b != m {
      ConfigurationKept(m, b, order);
    }
  }

  lemma DisabledKeepsConfiguration(m: Manager, name: string)
    requires name in m.data && (m.data[name].info.opdAddress != 0 ==> name in m.opd.cards)
    requires m.data[name].info.child.Some? ==> m.data[name].info.child.value in m.opd.cards
    ensures SameConfiguration(m, DisabledNode(m, name)) && DisabledNode(m, name).data == m.data
  {
    hide Opds.Disabled;
  }

  lemma OpdStatusKeepsConfigured(m: Manager, order: seq<string>, value: int, now: real)
    requires Configured(m, order)
    ensures var b := OpdStatusSet(m, value, now);
      Configured(b, order) && b.opd.cards.Keys == m.opd.cards.Keys && b.data.Keys == m.data.Keys
  {
    hide Opds.PoweredDown, Opds.PoweredUp;
    PowerKeepsValid(m.opd);
    var b := OpdStatusSet(m, value, now);
    assert b.data.Keys == m.data.Keys && forall n :: n in m.data ==> b.data[n].info == m.data[n].info;
    SameKeysConfigured(m, b, order);
  }

  lemma SameKeysConfigured(m: Manager, b: Manager, order: seq<string>)
    requires Configured(m, order) && b.opd.cards.Keys == m.opd.cards.Keys && b.data.Keys == m.data.Keys
    requires Opds.ValidDomain(b.opd) && forall n :: n in m.data ==> b.data[n].info == m.data[n].info
    ensures Configured(b, order)
  {
  }

  lemma OpdKeepsConfigured(m: Manager, order: seq<string>, o: Opds.Event)
    requires Configured(m, order)
    ensures var b := m.(opd := Opds.Step(m.opd, o));
      Configured(b, order) && b.opd.cards.Keys == m.opd.cards.Keys
  {
    hide Opds.Step;
    Opds.StepKeepsValid(m.opd, o);
    SameKeysConfigured(m, m.(opd := Opds.Step(m.opd, o)), order);
  }

  lemma PowerKeepsValid(d: Opds.Domain)
    requires Opds.ValidDomain(d)
    ensures Opds.ValidDomain(Opds.PoweredDown(d)) && Opds.PoweredDown(d).cards.Keys == d.cards.Keys
    ensures Opds.ValidDomain(Opds.PoweredUp(d)) && Opds.PoweredUp(d).cards.Keys == d.cards.Keys
  {
    hide Opds.PoweredDown, Opds.PoweredUp;
    Opds.StepKeepsValid(d, Opds.PowerDown);
    Opds.StepKeepsValid(d, Opds.PowerUp);
  }

  function Run(m: Manager, order: seq<string>, events: seq<Event>): (r: Manager)
    requires Configured(m, order)
    ensures Configured(r, order) && r.opd.cards.Keys == m.opd.cards.Keys
  {
    if events == [] then m
    else
      var before := Run(m, order, events[..|events| - 1]);
      StepKeepsConfigured(before, order, events[|events| - 1]);
      Step(before, order, events[|events| - 1])
  }

  /** Between loops nothing changes a node's count of resets. */
  lemma OnlyLoopsCount(m: Manager, order: seq<string>, e: Event, n: string)
    requires Configured(m, order) && n in m.data && !e.Loop?
    ensures n in Step(m, order, e).data
    ensures var a, b := m.data[n], Step(m, order, e).data[n]; b.resets == a.resets && b.info == a.info
  {
    hide Opds.PoweredDown, Opds.PoweredUp, Opds.Step, StatusSet, Configured;
    StepKeepsConfigured(m, order, e);
    if e.SetStatus? {
      StatusKeepsNode(m, order, e.name, e.value, e.now, n);
    }
  }

  lemma StatusKeepsNode(m: Manager, order: seq<string>, name: string, value: int, now: real, n: string)
    requires Configured(m, order) && n in m.data
    ensures var b := StatusSet(m, order, name, value, now);
      n in b.data && SameButTime(b.data[n], m.data[n])
  {
    hide EnabledNode, DisabledNode, Configured;
    if name in m.data {
      ConfiguredName(m, order, name);
      EnabledKeepsNode(m, name, value == 5, now, n);
      DisabledKeepsConfiguration(m, name);
    }
  }

  lemma EnabledKeepsNode(m: Manager, name: string, bootloader: bool, now: real, n: string)
    requires name in m.data && (m.data[name].info.opdAddress != 0 ==> name in m.opd.cards) && n in m.data
    requires m.data[name].info.child.Some? ==> m.data[name].info.child.value in m.opd.cards
    ensures var b := EnabledNode(m, name, bootloader, now); n in b.data && SameButTime(b.data[n], m.data[n])
  {
    hide Opds.Enabled;
  }

  // ----- bounded resets -----

  lemma ObservedResets(m: Manager, name: string, r: Readings, n: string)
    requires name in m.data && n in m.opd.cards && (m.data[name].info.opdAddress != 0 ==> name in m.opd.cards)
    ensures Observed(m, name, r).opd.cards[n].resets == m.opd.cards[n].resets
  {
    hide StateOf, Opds.StatusRead;
    Opds.CardKeepsResets(m.opd.cards[n], true);
  }

  lemma {:induction false} ObservedAllResets(m: Manager, order: seq<string>, names: seq<string>, r: Readings, n: string)
    requires Configured(m, order) && n in m.opd.cards && forall x :: x in names ==> x in m.data
    ensures ObservedAll(m, order, names, r).opd.cards[n].resets == m.opd.cards[n].resets
    decreases |names|
  {
    hide Observed, Configured;
    if names == [] {
    } else {
      assert names[0] in names;
      ConfiguredName(m, order, names[0]);
      ObservedResets(m, names[0], r, n);
      ObservedKeepsConfiguration(m, names[0], r);
      ConfigurationKept(m, Observed(m, names[0], r), order);
      ObservedAllResets(Observed(m, names[0], r), order, names[1..], r, n);
    }
  }

  lemma EnabledResets(m: Manager, name: string, bootloader: bool, now: real, n: string)
    requires name in m.data && (m.data[name].info.opdAddress != 0 ==> name in m.opd.cards) && n in m.opd.cards
    requires m.data[name].info.child.Some? ==> m.data[name].info.child.value in m.opd.cards
    ensures EnabledNode(m, name, bootloader, now).opd.cards[n].resets == m.opd.cards[n].resets
  {
    hide Opds.Enabled;
    if name in m.opd.cards {
      var boot := bootloader && m.opd.cards[name].kind.Stm32?;
      Opds.CardCountsResets(m.opd.cards[n], Opds.Enable(n, boot));
      var c := Opds.OnCard(m.opd, name, Opds.Enabled(m.opd.cards[name], boot)).cards[n];
      Opds.CardCountsResets(c, Opds.Enable(n, boot && c.kind.Stm32?));
    }
  }

  lemma DisabledResets(m: Manager, name: string, n: string)
    requires name in m.data && (m.data[name].info.opdAddress != 0 ==> name in m.opd.cards) && n in m.opd.cards
    requires m.data[name].info.child.Some? ==> m.data[name].info.child.value in m.opd.cards
    ensures DisabledNode(m, name).opd.cards[n].resets == m.opd.cards[n].resets
  {
    hide Opds.Disabled;
    var c := m.opd.cards[n];
    Opds.CardCountsResets(c, Opds.Disable(n));
    Opds.CardCountsResets(Opds.Disabled(c), Opds.Disable(n));
  }

  lemma PreparedResets(m: Manager, name: string, r: Readings, n: string)
    requires name in m.data && name in m.opd.cards && m.data[name].info.opdAddress != 0 && n in m.opd.cards
    requires m.data[name].info.child.Some? ==> m.data[name].info.child.value in m.opd.cards
    ensures n in Prepared(m, name, r).opd.cards
    ensures Prepared(m, name, r).opd.cards[n].resets == m.opd.cards[n].resets
  {
    hide EnabledNode, Opds.Probed;
    var m1 := if m.loops % 10 == 0 && m.data[name].status == NotFound
              then PutCard(m, name, Opds.Probed(m.opd.cards[name], true)) else m;
    Opds.CardKeepsResets(m.opd.cards[n], true);
    EnabledResets(m1, name, false, r.now, n);
    EnabledKeepsConfiguration(m1, name, false, r.now);
  }

  lemma ResolvedResets(m: Manager, name: string, r: Readings, n: string)
    requires name in m.data && name in m.opd.cards && n in m.opd.cards
    ensures Resolved(m, name, r).opd.cards[n].resets ==
              m.opd.cards[n].resets + if n == name && m.data[n].status == Error then 1 else 0
  {
    hide Opds.Disabled, Opds.ResetNode, Opds.EnabledRead;
    Opds.CardCountsResets(m.opd.cards[n], Opds.Disable(n));
    Opds.CardCountsResets(m.opd.cards[n], Opds.Reset(n, 1));
    Opds.CardKeepsResets(m.opd.cards[n], true);
  }

  lemma ActedResets(m: Manager, name: string, r: Readings, n: string)
    requires name in m.data && (name in m.opd.cards ==> m.data[name].info.opdAddress != 0)
    requires m.data[name].info.child.Some? ==> m.data[name].info.child.value in m.opd.cards
    requires n in m.opd.cards && n in m.data
    ensures Acted(m, name, r).opd.cards[n].resets ==
              m.opd.cards[n].resets + if n == name && m.data[n].status == Error then 1 else 0
  {
    hide Prepared, Resolved;
    if name in m.opd.cards {
      PreparedKeeps(m, name, r);
      PreparedResets(m, name, r, n);
      PreparedOne(m, name, r, n);
      ResolvedResets(Prepared(m, name, r), name, r, n);
    }
  }

  /** Over the second pass a card is reset once if its node was found in error. */
  lemma {:induction false} ActedAllResets(m: Manager, order: seq<string>, names: seq<string>, r: Readings, n: string)
    requires Configured(m, order) && Distinct(names) && forall x :: x in names ==> x in m.data
    requires n in m.opd.cards && n in m.data
    ensures ActedAll(m, order, names, r).opd.cards[n].resets ==
              m.opd.cards[n].resets + if n in names && m.data[n].status == Error then 1 else 0
    decreases |names|
  {
    hide Acted, Configured, ActedNode, SameConfiguration, Distinct;
    if names == [] {
    } else {
      var p := names[0];
      DistinctRest(names);
      ConfiguredName(m, order, p);
      ActedResets(m, p, r, n);
      ActedOne(m, p, r, n);
      ActedKeepsConfiguration(m, p, r);
      ConfigurationKept(m, Acted(m, p, r), order);
      SameDomain(m, Acted(m, p, r));
      ActedNodeKeepsStatus(m.data[n], r.now);
      ActedAllResets(Acted(m, p, r), order, names[1..], r, n);
    }
  }

  lemma LoopedResets(m: Manager, order: seq<string>, r: Readings, n: string)
    requires Configured(m, order) && n in m.opd.cards
    ensures n in Looped(m, order, r).opd.cards && n in Looped(m, order, r).data
    ensures var b := Looped(m, order, r);
      b.opd.cards[n].resets == m.opd.cards[n].resets + if b.data[n].status == Error then 1 else 0
  {
    hide ObservedAll, ActedAll, ActedNode, Configured, SameConfiguration, Distinct;
    ConfiguredOrder(m, order, n);
    CountedConfigured(m, order);
    ObservedAllResets(Counted(m), order, order, r, n);
    FirstPassConfigured(m, order, r);
    LoopedConfigured(m, order, r);
    LoopedOne(m, order, r, n);
    var m1 := AfterFirstPass(m, order, r);
    if OpdUp(m1) {
      ActedAllResets(m1, order, order, r, n);
      ActedAllOne(m1, order, order, r, n);
      ActedKeepsStatus(m1.data[n], Looped(m, order, r).data[n], r.now);
    }
  }

  /** The operator resets the card, by the EDL command that calls the card's own reset. */
  predicate OperatorReset(e: Event, n: string)
  {
    e.OpdEvent? && e.e.Reset? && e.e.name == n
  }

  /** A loop that finds the node on or off. */
  predicate Settles(e: Event, after: NodeState)
  {
    e.Loop? && (after == On || after == Off)
  }

  /**
   Which steps reset a card: a loop that finds it in error, with the OPD enabled, and the operator. The
   node counts the former alone, and forgets them when a loop with the OPD enabled finds it on or off.
   */
  lemma WhoResets(m: Manager, order: seq<string>, e: Event, n: string)
    requires Configured(m, order) && n in m.opd.cards && n in m.data
    ensures n in Step(m, order, e).opd.cards && n in Step(m, order, e).data
    ensures var t := Step(m, order, e);
      var byLoop := e.Loop? && t.data[n].status == Error;
      t.opd.cards[n].resets ==
        m.opd.cards[n].resets + (if byLoop then 1 else 0) + (if OperatorReset(e, n) then 1 else 0) &&
      t.data[n].resets ==
        (if byLoop then m.data[n].resets + 1 else if Settles(e, t.data[n].status) then 0 else m.data[n].resets) &&
      (byLoop ==> OpdUp(m) && m.data[n].resets < MAX_CO_RESETS)
  {
    hide Looped, StatusSet, Opds.Step, Configured, UpdatingSet, OpdStatusSet;
    StepKeepsConfigured(m, order, e);
    ConfiguredDomain(m, order);
    if e.Loop? {
      LoopedOne(m, order, e.r, n);
      LoopedResets(m, order, e.r, n);
    } else {
      OnlyLoopsCount(m, order, e, n);
      BetweenLoopsResets(m, order, e, n);
    }
  }

  lemma BetweenLoopsResets(m: Manager, order: seq<string>, e: Event, n: string)
    requires Configured(m, order) && n in m.opd.cards && !e.Loop?
    ensures n in Step(m, order, e).opd.cards
    ensures Step(m, order, e).opd.cards[n].resets ==
              m.opd.cards[n].resets + if OperatorReset(e, n) then 1 else 0
  {
    hide Configured, EnabledNode, DisabledNode, Opds.Step, Opds.PoweredUp, Opds.PoweredDown, Looped;
    StepKeepsConfigured(m, order, e);
    ConfiguredDomain(m, order);
    match e
    case SetUpdating(_, _, _) =>
    case SetStatus(name, value, now) =>
      if name in m.data {
        ConfiguredName(m, order, name);
        EnabledResets(m, name, value == 5, now, n);
        DisabledResets(m, name, n);
      }
    case SetOpdStatus(_, _) =>
      PowerSteps(m.opd);
      Opds.ResetsCounted(m.opd, Opds.PowerDown, n);
      Opds.ResetsCounted(m.opd, Opds.PowerUp, n);
    case OpdEvent(o) => Opds.ResetsCounted(m.opd, o, n);
  }

  predicate NodeInv(n: Node)
  {
    0 <= n.resets <= MAX_CO_RESETS
  }

  lemma StepKeepsNodeInv(m: Manager, order: seq<string>, e: Event, n: string)
    requires Configured(m, order) && n in m.opd.cards && n in m.data && NodeInv(m.data[n])
    ensures n in Step(m, order, e).data && NodeInv(Step(m, order, e).data[n])
  {
    hide Step, Configured;
    WhoResets(m, order, e, n);
  }

  /** How often the operator resets the card. */
  function OperatorResets(events: seq<Event>, n: string): nat
  {
    if events == [] then 0
    else
      OperatorResets(events[..|events| - 1], n) + if OperatorReset(events[|events| - 1], n) then 1 else 0
  }

  /** No loop of the run finds the node on or off. */
  predicate NeverSettled(m: Manager, order: seq<string>, events: seq<Event>, n: string)
    requires Configured(m, order)
  {
    if events == [] then true
    else
      var t := Run(m, order, events);
      NeverSettled(m, order, events[..|events| - 1], n) &&
      (n in t.data ==> !Settles(events[|events| - 1], t.data[n].status))
  }

  /**
   Over every run the loops' count stays within three, and between two loops that find the node on or off
   its card is reset as often as the count grows, at most three times, and as often as the operator resets it.
   */
  lemma {:induction false} ResetsBetween(m: Manager, order: seq<string>, events: seq<Event>, n: string)
    requires Configured(m, order) && n in m.opd.cards && n in m.data && NodeInv(m.data[n])
    ensures n in Run(m, order, events).data && NodeInv(Run(m, order, events).data[n])
    ensures NeverSettled(m, order, events, n) ==>
              var t := Run(m, order, events);
              t.opd.cards[n].resets - m.opd.cards[n].resets ==
                t.data[n].resets - m.data[n].resets + OperatorResets(events, n) <=
                MAX_CO_RESETS + OperatorResets(events, n)
  {
    hide Step, Configured, OperatorReset, Settles;
    if events == [] {
    } else {
      var before, e := events[..|events| - 1], events[|events| - 1];
      ResetsBetween(m, order, before, n);
      WhoResets(Run(m, order, before), order, e, n);
    }
  }

  /** Once the loops have reset a card three times over, over every run only the operator resets it. */
  lemma {:induction false} ResetsBounded(m: Manager, order: seq<string>, events: seq<Event>, n: string)
    requires Configured(m, order) && n in m.opd.cards && n in m.data && m.data[n].resets == MAX_CO_RESETS
    ensures n in Run(m, order, events).data
    ensures var t := Run(m, order, events);
      t.data[n].resets == MAX_CO_RESETS &&
      t.opd.cards[n].resets == m.opd.cards[n].resets + OperatorResets(events, n)
  {
    hide Step, Configured, OperatorReset;
    if events == [] {
    } else {
      var before, e := events[..|events| - 1], events[|events| - 1];
      ResetsBounded(m, order, before, n);
      UsedUpStays(Run(m, order, before), order, e, n);
    }
  }

  lemma UsedUpStays(m: Manager, order: seq<string>, e: Event, n: string)
    requires Configured(m, order) && n in m.opd.cards && n in m.data && m.data[n].resets == MAX_CO_RESETS
    ensures n in Step(m, order, e).opd.cards && n in Step(m, order, e).data
    ensures var t := Step(m, order, e);
      t.data[n].resets == MAX_CO_RESETS &&
      t.opd.cards[n].resets == m.opd.cards[n].resets + if OperatorReset(e, n) then 1 else 0
  {
    hide Looped, StatusSet, Opds.Step, Configured, UpdatingSet, OpdStatusSet;
    WhoResets(m, order, e, n);
    if e.Loop? {
      LoopedOne(m, order, e.r, n);
    }
  }

  // ----- dead nodes -----

  /** A node is dead only once its resets are used up; the domain itself is only ever off or on. */
  predicate DeadInv(m: Manager, n: Node)
  {
    (n.status == Dead ==> n.resets >= MAX_CO_RESETS) && Opds.NeverFaulted(m.opd)
  }

  lemma StepKeepsDeadInv(m: Manager, order: seq<string>, e: Event, n: string)
    requires Configured(m, order) && n in m.opd.cards && n in m.data
    requires NodeInv(m.data[n]) && DeadInv(m, m.data[n])
    ensures n in Step(m, order, e).data && DeadInv(Step(m, order, e), Step(m, order, e).data[n])
    ensures e.Loop? && OpdUp(m) ==>
              (Step(m, order, e).data[n].status == Dead <==> m.data[n].resets == MAX_CO_RESETS)
  {
    hide Configured;
    StepKeepsConfigured(m, order, e);
    StepKeepsNodeInv(m, order, e, n);
    StepKeepsDomain(m, order, e);
    if e.Loop? {
      LoopedOne(m, order, e.r, n);
      hide Looped;
    } else {
      OnlyLoopsCount(m, order, e, n);
      RequestsKillNothing(m, order, e, n);
      hide Step;
    }
  }

  lemma StepKeepsDomain(m: Manager, order: seq<string>, e: Event)
    requires Configured(m, order) && Opds.NeverFaulted(m.opd)
    ensures Opds.NeverFaulted(Step(m, order, e).opd)
  {
    hide Configured, Opds.Step, StatusSet, UpdatingSet, AfterFirstPass, ActedAll, Opds.PoweredUp, Opds.PoweredDown;
    ConfiguredDomain(m, order);
    match e
    case Loop(r) => FirstPassConfigured(m, order, r);
    case SetUpdating(name, updating, now) => UpdatingKeepsConfigured(m, order, name, updating, now);
    case SetStatus(name, value, now) => StatusKeepsDomain(m, order, name, value, now);
    case SetOpdStatus(_, _) => PowerNeverFaults(m.opd);
    case OpdEvent(o) => Opds.StepNeverFaults(m.opd, o);
  }

  lemma PowerNeverFaults(d: Opds.Domain)
    requires Opds.ValidDomain(d) && Opds.NeverFaulted(d)
    ensures Opds.NeverFaulted(Opds.PoweredUp(d)) && Opds.NeverFaulted(Opds.PoweredDown(d))
  {
    hide Opds.PoweredUp, Opds.PoweredDown;
    Opds.StepNeverFaults(d, Opds.PowerUp);
    Opds.StepNeverFaults(d, Opds.PowerDown);
  }

  lemma StatusKeepsDomain(m: Manager, order: seq<string>, name: string, value: int, now: real)
    requires Configured(m, order)
    ensures StatusSet(m, order, name, value, now).opd.status == m.opd.status
  {
    hide EnabledNode, DisabledNode, Configured;
    if name in m.data {
      ConfiguredName(m, order, name);
      EnabledKeepsConfiguration(m, name, value == 5, now);
      DisabledKeepsConfiguration(m, name);
    }
  }

  /** No request makes a node dead. */
  lemma RequestsKillNothing(m: Manager, order: seq<string>, e: Event, n: string)
    requires Configured(m, order) && n in m.data && !e.Loop?
    ensures n in Step(m, order, e).data
    ensures Step(m, order, e).data[n].status == Dead ==> m.data[n].status == Dead
  {
    hide Opds.PoweredDown, Opds.PoweredUp, Opds.Step, StatusSet, Configured;
    StepKeepsConfigured(m, order, e);
    if e.SetStatus? {
      StatusKeepsNode(m, order, e.name, e.value, e.now, n);
    }
  }

  /**
   Over every run: a card is found dead only when its three resets are used up, and then by every loop
   with the domain on. So no dead card has resets left, and none comes back by its heartbeats.
   */
  lemma {:induction false} DeadIffUsedUp(m: Manager, order: seq<string>, events: seq<Event>, r: Readings, n: string)
    requires Configured(m, order) && n in m.opd.cards && n in m.data
    requires NodeInv(m.data[n]) && DeadInv(m, m.data[n])
    ensures var t := Run(m, order, events);
      n in t.data && NodeInv(t.data[n]) && DeadInv(t, t.data[n]) && n in Looped(t, order, r).data &&
      (OpdUp(t) ==> (Looped(t, order, r).data[n].status == Dead <==> t.data[n].resets == MAX_CO_RESETS))
  {
    hide Configured, NodeInv, DeadInv, OpdUp, Looped;
    if events == [] {
    } else {
      var before, e := events[..|events| - 1], events[|events| - 1];
      DeadIffUsedUp(m, order, before, r, n);
      hide Step;
      StepKeepsNodeInv(Run(m, order, before), order, e, n);
      StepKeepsDeadInv(Run(m, order, before), order, e, n);
    }
    LastLoop(Run(m, order, events), order, r, n);
  }

  lemma LastLoop(t: Manager, order: seq<string>, r: Readings, n: string)
    requires Configured(t, order) && n in t.opd.cards && n in t.data
    requires NodeInv(t.data[n]) && DeadInv(t, t.data[n])
    ensures n in Looped(t, order, r).data
    ensures OpdUp(t) ==> (Looped(t, order, r).data[n].status == Dead <==> t.data[n].resets == MAX_CO_RESETS)
  {
    hide Configured, NodeInv, DeadInv, OpdUp, Looped;
    StepKeepsDeadInv(t, order, Loop(r), n);
  }

  /** An always-on card that is off switches its child on in its turn. */
  predicate ReEnables(m: Manager, p: string, child: string)
  {
    p in m.opd.cards && p in m.data && p != child && m.data[p].info.alwaysOn && m.data[p].status == Off &&
    m.data[p].info.child == Some(child)
  }

  predicate SomeParent(m: Manager, names: seq<string>, child: string)
  {
    exists p :: p in names && ReEnables(m, p, child)
  }

  function EnabledIf(c: Opds.Card, yes: bool): Opds.Card
  {
    if yes then Opds.Enabled(c, false) else c
  }

  /** What a dead node's turn makes of its card. */
  function DeadTurn(c: Opds.Card): Opds.Card
  {
    if Opds.IsEnabled(c) then Opds.Disabled(c) else Opds.EnabledRead(c)
  }

  lemma OrTwice(v: bv8, a: bv8)
    ensures (v | a) | a == v | a
  {
  }

  lemma AndTwice(v: bv8, a: bv8)
    ensures (v & !a) & !a == v & !a
  {
  }

  lemma OrOrTwice(v: bv8, a: bv8, b: bv8)
    ensures (((v | a) | b) | a) | b == (v | a) | b
  {
  }

  lemma AndOrTwice(v: bv8, a: bv8, b: bv8)
    ensures (((v & !a) | b) & !a) | b == (v & !a) | b
  {
  }

  /** Driving the pins again leaves the same output. */
  lemma SetTwice(v: bv8, pins: seq<int>)
    requires ArePins(pins)
    ensures Set(Set(v, pins), pins) == Set(v, pins)
  {
    hide MaskOf;
    OrTwice(v, MaskOf(pins));
  }

  lemma ClearTwice(v: bv8, pins: seq<int>)
    requires ArePins(pins)
    ensures Clear(Clear(v, pins), pins) == Clear(v, pins)
  {
    hide MaskOf;
    AndTwice(v, MaskOf(pins));
  }

  lemma SetSetTwice(v: bv8, boot: seq<int>, enable: seq<int>)
    requires ArePins(boot) && ArePins(enable)
    ensures Set(Set(Set(Set(v, boot), enable), boot), enable) == Set(Set(v, boot), enable)
  {
    hide MaskOf;
    OrOrTwice(v, MaskOf(boot), MaskOf(enable));
  }

  lemma ClearSetTwice(v: bv8, boot: seq<int>, enable: seq<int>)
    requires ArePins(boot) && ArePins(enable)
    ensures Set(Clear(Set(Clear(v, boot), enable), boot), enable) == Set(Clear(v, boot), enable)
  {
    hide MaskOf;
    AndOrTwice(v, MaskOf(boot), MaskOf(enable));
  }

  lemma EnabledOutputTwice(kind: Opds.Kind, v: bv8, found: bool)
    ensures Opds.EnabledOutput(kind, false, Opds.EnabledOutput(kind, false, v, found), found) ==
            Opds.EnabledOutput(kind, false, v, found)
  {
    hide Set, Clear;
    SetTwice(v, [Opds.ENABLE_PIN]);
    SetTwice(v, [Opds.BOOT_PIN]);
    ClearTwice(v, [Opds.BOOT_PIN]);
    SetSetTwice(v, [Opds.BOOT_PIN], [Opds.ENABLE_PIN]);
    ClearSetTwice(v, [Opds.BOOT_PIN], [Opds.ENABLE_PIN]);
  }

  /** Enabling a card again changes nothing. */
  lemma EnabledTwice(c: Opds.Card)
    ensures EnabledIf(EnabledIf(c, true), true) == EnabledIf(c, true)
  {
    hide Set, Clear;
    if c.responding && c.kind != Opds.Spr8 {
      Opds.EnabledForm(c, false);
      EnabledOutputTwice(c.kind, Opds.Output(c), c.status != Opds.NOT_FOUND);
      hide Opds.Enabled, Opds.EnabledOutput;
      Opds.EnabledForm(EnabledIf(c, true), false);
    }
  }

  /** Another node's turn changes a card only by switching it on as a child. */
  lemma ActedOtherCard(m: Manager, p: string, r: Readings, name: string)
    requires p in m.data && (p in m.opd.cards ==> m.data[p].info.opdAddress != 0)
    requires m.data[p].info.child.Some? ==> m.data[p].info.child.value in m.opd.cards
    requires name in m.opd.cards && p != name
    ensures Acted(m, p, r).opd.cards[name] ==
              if ReEnables(m, p, name) then Opds.Enabled(m.opd.cards[name], false) else m.opd.cards[name]
  {
    hide Opds.Enabled, Opds.Probed, Opds.Disabled, Opds.ResetNode, Opds.IsEnabled;
    if p in m.opd.cards {
      PreparedOtherCard(m, p, r, name);
      PreparedKeeps(m, p, r);
      hide Prepared;
    }
  }

  lemma PreparedOtherCard(m: Manager, p: string, r: Readings, name: string)
    requires p in m.data && p in m.opd.cards && m.data[p].info.opdAddress != 0
    requires m.data[p].info.child.Some? ==> m.data[p].info.child.value in m.opd.cards
    requires name in m.opd.cards && p != name
    ensures Prepared(m, p, r).opd.cards[name] ==
              if ReEnables(m, p, name) then Opds.Enabled(m.opd.cards[name], false) else m.opd.cards[name]
  {
    hide Opds.Enabled, Opds.Probed;
  }

  lemma TurnKeepsParents(m: Manager, p: string, r: Readings, names: seq<string>, name: string)
    requires p in m.data && (p in m.opd.cards ==> m.data[p].info.opdAddress != 0)
    requires m.data[p].info.child.Some? ==> m.data[p].info.child.value in m.opd.cards
    requires forall x :: x in names ==> x in m.data
    ensures SomeParent(Acted(m, p, r), names, name) <==> SomeParent(m, names, name)
  {
    hide Acted, ActedNode;
    ActedKeepsConfiguration(m, p, r);
    forall x | x in names
      ensures ReEnables(Acted(m, p, r), x, name) <==> ReEnables(m, x, name)
    {
      ActedOne(m, p, r, x);
      ActedNodeKeepsStatus(m.data[x], r.now);
    }
  }

  /** A parent is the first of the names or among the rest. */
  lemma FirstOrLaterParent(m: Manager, names: seq<string>, name: string)
    requires names != []
    ensures SomeParent(m, names, name) <==> ReEnables(m, names[0], name) || SomeParent(m, names[1..], name)
  {
    hide ReEnables;
    assert names == [names[0]] + names[1..];
    if SomeParent(m, names[1..], name) {
      var p :| p in names[1..] && ReEnables(m, p, name);
      assert p in names;
    }
  }

  /** The turns of other nodes enable a card, if one is a parent that enables it, and do nothing else to it. */
  lemma {:induction false} ActedAllCard(m: Manager, order: seq<string>, names: seq<string>, r: Readings, name: string)
    requires Configured(m, order) && forall x :: x in names ==> x in m.data
    requires Distinct(names) && name in m.opd.cards && name !in names
    ensures ActedAll(m, order, names, r).opd.cards[name] == EnabledIf(m.opd.cards[name], SomeParent(m, names, name))
    decreases |names|
  {
    hide Acted, Configured, Opds.Enabled, ReEnables, SameConfiguration;
    if names == [] {
    } else {
      hide SomeParent;
      var p := names[0];
      DistinctRest(names);
      ConfiguredName(m, order, p);
      var m' := Acted(m, p, r);
      ActedOtherCard(m, p, r, name);
      EnabledTwice(m.opd.cards[name]);
      ActedKeepsConfiguration(m, p, r);
      ConfigurationKept(m, m', order);
      SameDomain(m, m');
      TurnKeepsParents(m, p, r, names[1..], name);
      FirstOrLaterParent(m, names, name);
      ActedAllCard(m', order, names[1..], r, name);
    }
  }

  /** What a node's own turn makes of its card: at most one of four things, by the state it was found in. */
  function OwnTurn(n: Node, tenth: bool, c: Opds.Card): Opds.Card
  {
    if n.status == Dead then DeadTurn(c)
    else if n.status == Error then Opds.ResetNode(c, 1)
    else if n.status == NotFound && tenth then Opds.Probed(c, true)
    else EnabledIf(c, n.status == Off && n.info.alwaysOn)
  }

  lemma OwnTurnActs(m: Manager, name: string, r: Readings)
    requires name in m.data && name in m.opd.cards && m.data[name].info.opdAddress != 0
    requires m.data[name].info.child.Some? ==> m.data[name].info.child.value in m.opd.cards
    ensures Acted(m, name, r).opd.cards[name] == OwnTurn(m.data[name], m.loops % 10 == 0, m.opd.cards[name])
  {
    hide Opds.Disabled, Opds.EnabledRead, Opds.IsEnabled, Opds.Enabled, Opds.Probed, Opds.ResetNode;
    EnabledTwice(m.opd.cards[name]);
  }

  /** What a whole pass makes of a card, between the parents before its node and those after it. */
  function PassCard(n: Node, tenth: bool, c: Opds.Card, before: bool, after: bool): Opds.Card
  {
    EnabledIf(OwnTurn(n, tenth, EnabledIf(c, before)), after)
  }

  /** A dead node's card, in particular. */
  function DeadPass(c: Opds.Card, before: bool, after: bool): Opds.Card
  {
    EnabledIf(DeadTurn(EnabledIf(c, before)), after)
  }

  lemma DeadPassIs(n: Node, tenth: bool, c: Opds.Card, before: bool, after: bool)
    requires n.status == Dead
    ensures PassCard(n, tenth, c, before, after) == DeadPass(c, before, after)
  {
  }

  lemma TurnKeepsNode(m: Manager, p: string, r: Readings, name: string)
    requires p in m.data && (p in m.opd.cards ==> m.data[p].info.opdAddress != 0)
    requires m.data[p].info.child.Some? ==> m.data[p].info.child.value in m.opd.cards
    requires name in m.data && p != name
    ensures name in Acted(m, p, r).data && Acted(m, p, r).data[name] == m.data[name]
  {
    hide Acted;
    ActedKeepsConfiguration(m, p, r);
    ActedOne(m, p, r, name);
  }

  lemma LaterNames(names: seq<string>, k: nat)
    requires 0 < k < |names|
    ensures names[1..][k - 1] == names[k] && names[1..][k..] == names[k + 1..]
    ensures names[..k][1..] == names[1..][..k - 1] && names[..k][0] == names[0]
    ensures forall x :: x in names[1..][..k - 1] ==> x in names
  {
  }

  /** Over the whole pass: the parents before a node enable its card, its turn acts, those after enable it. */
  lemma {:induction false} PassActs(m: Manager, order: seq<string>, names: seq<string>, r: Readings,
                                    name: string, k: nat)
    requires Configured(m, order) && forall x :: x in names ==> x in m.data
    requires Distinct(names) && k < |names| && names[k] == name && name in m.opd.cards
    ensures ActedAll(m, order, names, r).opd.cards[name] ==
              PassCard(m.data[name], m.loops % 10 == 0, m.opd.cards[name],
                       SomeParent(m, names[..k], name), SomeParent(m, names[k + 1..], name))
    decreases |names|
  {
    hide Acted, Configured, Opds.Enabled, ActedNode, SomeParent, SameConfiguration, Distinct, OwnTurn, ReEnables;
    var p := names[0];
    assert p in names;
    DistinctRest(names);
    ConfiguredName(m, order, p);
    var m' := Acted(m, p, r);
    ActedKeepsConfiguration(m, p, r);
    ConfigurationKept(m, m', order);
    SameDomain(m, m');
    SameLoops(m, m');
    TurnKeepsParents(m, p, r, names[k + 1..], name);
    if k == 0 {
      NoParent(m, name);
      OwnTurnActs(m, name, r);
      ActedAllCard(m', order, names[1..], r, name);
    } else {
      LaterNames(names, k);
      FirstOrLaterParent(m, names[..k], name);
      TurnKeepsParents(m, p, r, names[1..][..k - 1], name);
      ActedOtherCard(m, p, r, name);
      EnabledTwice(m.opd.cards[name]);
      TurnKeepsNode(m, p, r, name);
      PassActs(m', order, names[1..], r, name, k - 1);
    }
  }

  lemma SameLoops(a: Manager, b: Manager)
    requires SameConfiguration(a, b)
    ensures b.loops == a.loops
  {
  }

  lemma NoParent(m: Manager, child: string)
    ensures !SomeParent(m, [], child)
  {
  }

  /** Whether the card gets power: by its enable pin, or SPARE_8 by its own line. */
  predicate Powered(c: Opds.Card)
  {
    if c.kind == Opds.Spr8 then c.active else Opds.EnablePinSet(c)
  }

  /** Whether enabling the card would power it, now or once it has been disabled. */
  predicate Switchable(c: Opds.Card)
  {
    c.status != Opds.NOT_FOUND || Opds.EnablePinSet(c)
  }

  lemma EnabledPower(c: Opds.Card)
    ensures var a := Opds.Enabled(c, false);
      a.responding == c.responding && a.kind == c.kind && (c.kind == Opds.Spr8 ==> a.active && a.status == Opds.ENABLED)
    ensures c.kind != Opds.Spr8 ==>
              var a := Opds.Enabled(c, false);
              if c.responding then
                (a.status == Opds.NOT_FOUND <==> c.status == Opds.NOT_FOUND) &&
                (Opds.EnablePinSet(a) <==> Opds.EnablePinSet(c) || c.status != Opds.NOT_FOUND)
              else a.regs == c.regs
  {
    hide Set, Clear, Bit, Opds.Inputs, Opds.BootloaderInputs;
    var v := Opds.Output(c);
    SetAndClearBits(v, [Opds.BOOT_PIN], Opds.ENABLE_PIN);
    SetAndClearBits(v, [Opds.ENABLE_PIN], Opds.ENABLE_PIN);
    SetAndClearBits(Set(v, [Opds.BOOT_PIN]), [Opds.ENABLE_PIN], Opds.ENABLE_PIN);
    SetAndClearBits(Clear(v, [Opds.BOOT_PIN]), [Opds.ENABLE_PIN], Opds.ENABLE_PIN);
  }

  lemma DeadTurnPower(c: Opds.Card)
    ensures DeadTurn(c).responding == c.responding && DeadTurn(c).kind == c.kind
    ensures c.kind == Opds.Spr8 ==> (DeadTurn(c).active <==> c.active && c.status != Opds.ENABLED)
    ensures c.kind != Opds.Spr8 ==>
              var a := DeadTurn(c);
              if c.responding then !Opds.EnablePinSet(a) && (a.status != Opds.NOT_FOUND <==> Switchable(c))
              else a.regs == c.regs
  {
    hide Set, Clear, Bit;
    var v := Opds.Output(c);
    SetAndClearBits(v, [Opds.ENABLE_PIN], Opds.ENABLE_PIN);
    SetAndClearBits(Set(v, [Opds.BOOT_PIN]), [Opds.ENABLE_PIN], Opds.ENABLE_PIN);
    SetAndClearBits(Clear(v, [Opds.BOOT_PIN]), [Opds.ENABLE_PIN], Opds.ENABLE_PIN);
  }

  /** A card that does not answer keeps its power; one that does has it exactly when a parent after it gives it. */
  lemma DeadPassPower(c: Opds.Card, before: bool, after: bool)
    ensures Powered(DeadPass(c, before, after)) <==>
              if c.kind == Opds.Spr8 then after || (c.active && c.status != Opds.ENABLED && !before)
              else if c.responding then after && Switchable(c)
              else Powered(c)
  {
    hide Opds.Enabled, DeadTurn, Bit;
    EnabledPower(c);
    DeadTurnPower(EnabledIf(c, before));
    EnabledPower(DeadTurn(EnabledIf(c, before)));
  }

  // ----- a whole loop, from its start -----

  /** A turn of the first pass: the state is decided from the start, and other nodes are not touched. */
  lemma ObservedState(m: Manager, name: string, r: Readings, n: string)
    requires name in m.data && n in m.data && (m.data[name].info.opdAddress != 0 ==> name in m.opd.cards)
    requires m.data[n].info.opdAddress != 0 ==> n in m.opd.cards
    ensures n == name != C3 ==> Observed(m, name, r).data[n].status == StateOf(m.data[n], n, m.opd, r)
    ensures n != name ==>
              StateOf(Observed(m, name, r).data[n], n, Observed(m, name, r).opd, r) == StateOf(m.data[n], n, m.opd, r)
  {
    hide CardState, Opds.StatusRead;
  }

  /** The first pass decides every state from what the loop began with. */
  lemma {:induction false} ObservedAllState(m: Manager, order: seq<string>, names: seq<string>, r: Readings, n: string)
    requires Configured(m, order) && Distinct(names) && n in names && n != C3 && forall x :: x in names ==> x in m.data
    requires m.data[n].info.opdAddress != 0 ==> n in m.opd.cards
    ensures ObservedAll(m, order, names, r).data[n].status == StateOf(m.data[n], n, m.opd, r)
    decreases |names|
  {
    hide Observed, Configured, StateOf;
    DistinctRest(names);
    var p := names[0];
    assert p in names;
    ConfiguredName(m, order, p);
    ObservedState(m, p, r, n);
    ObservedOne(m, p, r, n);
    ObservedKeepsConfiguration(m, p, r);
    ConfigurationKept(m, Observed(m, p, r), order);
    if n == p {
      ObservedAllOne(Observed(m, p, r), order, names[1..], r, n);
    } else {
      ObservedAllState(Observed(m, p, r), order, names[1..], r, n);
    }
  }

  /** The first pass does not read the card of a node that used up its resets. */
  lemma ObservedKeepsUsedUpCard(m: Manager, p: string, r: Readings, name: string)
    requires p in m.data && (m.data[p].info.opdAddress != 0 ==> p in m.opd.cards)
    requires name in m.opd.cards && name in m.data && m.data[name].resets >= MAX_CO_RESETS
    ensures Observed(m, p, r).opd.cards[name] == m.opd.cards[name]
  {
    hide StateOf, Opds.StatusRead;
  }

  lemma {:induction false} ObservedAllKeepsUsedUpCard(m: Manager, order: seq<string>, names: seq<string>, r: Readings,
                                                      name: string)
    requires Configured(m, order) && name in m.opd.cards && forall x :: x in names ==> x in m.data
    requires name in m.data && m.data[name].resets >= MAX_CO_RESETS
    ensures ObservedAll(m, order, names, r).opd.cards[name] == m.opd.cards[name]
    decreases |names|
  {
    hide Observed, Configured;
    if names == [] {
    } else {
      assert names[0] in names;
      ConfiguredName(m, order, names[0]);
      ObservedKeepsUsedUpCard(m, names[0], r, name);
      ObservedOne(m, names[0], r, name);
      ObservedKeepsConfiguration(m, names[0], r);
      ConfigurationKept(m, Observed(m, names[0], r), order);
      ObservedAllKeepsUsedUpCard(Observed(m, names[0], r), order, names[1..], r, name);
    }
  }

  lemma FirstPassCard(m: Manager, order: seq<string>, r: Readings, name: string)
    requires Configured(m, order) && name in m.opd.cards && name in m.data && m.data[name].resets >= MAX_CO_RESETS
    ensures AfterFirstPass(m, order, r).opd.cards[name] == m.opd.cards[name]
  {
    hide ObservedAll, Configured, Distinct, SameConfiguration, Counted;
    CountedConfigured(m, order);
    ObservedAllKeepsUsedUpCard(Counted(m), order, order, r, name);
  }

  lemma FirstPassState(m: Manager, order: seq<string>, r: Readings, n: string)
    requires Configured(m, order) && n in m.opd.cards
    ensures n in m.data && n in AfterFirstPass(m, order, r).data
    ensures AfterFirstPass(m, order, r).data[n].status == StateOf(m.data[n], n, m.opd, r)
    ensures AfterFirstPass(m, order, r).data[n].info == m.data[n].info
  {
    hide ObservedAll, Configured, Distinct, SameConfiguration, Counted, StateOf;
    ConfiguredOrder(m, order, n);
    CountedConfigured(m, order);
    FirstPassOne(m, order, r, n);
    ObservedAllState(Counted(m), order, order, r, n);
  }

  /** Before a loop: it will find p off, always on, and the parent of child. */
  predicate WillEnable(m: Manager, r: Readings, p: string, child: string)
  {
    p in m.opd.cards && p in m.data && p != child && m.data[p].info.alwaysOn &&
    m.data[p].info.child == Some(child) && StateOf(m.data[p], p, m.opd, r) == Off
  }

  predicate ParentWillEnable(m: Manager, r: Readings, names: seq<string>, child: string)
  {
    exists p :: p in names && WillEnable(m, r, p, child)
  }

  lemma FirstPassParents(m: Manager, order: seq<string>, r: Readings, names: seq<string>, child: string)
    requires Configured(m, order)
    ensures SomeParent(AfterFirstPass(m, order, r), names, child) <==> ParentWillEnable(m, r, names, child)
  {
    hide Configured, AfterFirstPass, StateOf, Distinct;
    FirstPassConfigured(m, order, r);
    forall p | p in names
      ensures ReEnables(AfterFirstPass(m, order, r), p, child) <==> WillEnable(m, r, p, child)
    {
      if p in m.opd.cards {
        FirstPassState(m, order, r, p);
      }
    }
  }

  /**
   Once a node used up its resets, every loop with the OPD enabled finds it dead and switches its card off
   between the always-on parents found off that come before it in the order and those that come after, which
   switch it on. So the loop leaves a card that answers with power exactly when such a parent comes after the
   node and the card was found or was on, and one that does not answer as it was. SPARE_8's line is then high
   exactly when a parent comes after it, but for a line that was high while its status said otherwise.
   */
  lemma DeadStaysOff(m: Manager, order: seq<string>, r: Readings, name: string, k: nat)
    requires Configured(m, order) && OpdUp(m) && name in m.opd.cards && k < |order| && order[k] == name
    requires name in m.data && m.data[name].resets >= MAX_CO_RESETS
    ensures var after, c := Looped(m, order, r), m.opd.cards[name];
      var earlier, later := ParentWillEnable(m, r, order[..k], name), ParentWillEnable(m, r, order[k + 1..], name);
      name in after.data && after.data[name].status == Dead && name in after.opd.cards &&
      after.opd.cards[name] == DeadPass(c, earlier, later) &&
      (Powered(after.opd.cards[name]) <==>
         if c.kind == Opds.Spr8 then later || (c.active && c.status != Opds.ENABLED && !earlier)
         else if c.responding then later && Switchable(c)
         else Powered(c))
  {
    hide ActedAll, ActedNode, Opds.EnablePinSet, Configured, AfterFirstPass, Distinct, Switchable, ParentWillEnable,
      SomeParent, DeadPass, PassCard, Powered;
    LoopedOne(m, order, r, name);
    LoopedConfigured(m, order, r);
    FirstPassConfigured(m, order, r);
    FirstPassOne(m, order, r, name);
    FirstPassCard(m, order, r, name);
    var earlier, later := ParentWillEnable(m, r, order[..k], name), ParentWillEnable(m, r, order[k + 1..], name);
    FirstPassParents(m, order, r, order[..k], name);
    FirstPassParents(m, order, r, order[k + 1..], name);
    var m1 := AfterFirstPass(m, order, r);
    PassActs(m1, order, order, r, name, k);
    DeadPassIs(m1.data[name], m1.loops % 10 == 0, m1.opd.cards[name], earlier, later);
    DeadPassPower(m.opd.cards[name], earlier, later);
  }

  // ----- the supervisor and the UART -----

  /** At most the selected card is connected; if the bus is to be relied on, every card answers. */
  predicate UartSafe(d: Opds.Domain, works: bool)
  {
    Opds.Exclusive(d) && Opds.OnlyUartCards(d) && (works ==> Opds.AllRespond(d))
  }

  lemma CardEventKeepsUart(d: Opds.Domain, name: string, e: Opds.Event, works: bool)
    requires UartSafe(d, works) && name in d.cards && !e.Outside?
    ensures UartSafe(Opds.OnCard(d, name, Opds.OneCard(d.cards[name], e)), works)
  {
    hide Opds.OneCard, Opds.UartPinSet;
    if works {
      Opds.CardKeepsResponding(d.cards[name], e);
    }
    Opds.NoOtherSetsUartPin(d.cards[name], e);
    Opds.OneCardKeeps(d, name, Opds.OneCard(d.cards[name], e));
  }

  lemma EnabledReadKeepsUart(d: Opds.Domain, name: string, works: bool)
    requires UartSafe(d, works) && name in d.cards
    ensures UartSafe(Opds.OnCard(d, name, Opds.EnabledRead(d.cards[name])), works)
  {
    Opds.SameConnection(d.cards[name], Opds.EnabledRead(d.cards[name]));
    Opds.OneCardKeeps(d, name, Opds.EnabledRead(d.cards[name]));
  }

  lemma ObservedKeepsUart(m: Manager, name: string, r: Readings, works: bool)
    requires name in m.data && (m.data[name].info.opdAddress != 0 ==> name in m.opd.cards) && UartSafe(m.opd, works)
    ensures UartSafe(Observed(m, name, r).opd, works)
  {
    hide UartSafe, StateOf, Opds.StatusRead;
    if name in m.opd.cards {
      CardEventKeepsUart(m.opd, name, Opds.ReadStatus(name), works);
    }
  }

  lemma EnabledKeepsUart(m: Manager, name: string, bootloader: bool, now: real, works: bool)
    requires name in m.data && (m.data[name].info.opdAddress != 0 ==> name in m.opd.cards) && UartSafe(m.opd, works)
    requires m.data[name].info.child.Some? ==> m.data[name].info.child.value in m.opd.cards
    ensures UartSafe(EnabledNode(m, name, bootloader, now).opd, works)
  {
    hide UartSafe, Opds.Enabled;
    var n := m.data[name];
    if n.info.opdAddress != 0 && n.status == Off {
      var boot := bootloader && m.opd.cards[name].kind.Stm32?;
      CardEventKeepsUart(m.opd, name, Opds.Enable(name, boot), works);
      if n.info.child.Some? {
        var child := n.info.child.value;
        var d := Opds.OnCard(m.opd, name, Opds.Enabled(m.opd.cards[name], boot));
        CardEventKeepsUart(d, child, Opds.Enable(child, boot && d.cards[child].kind.Stm32?), works);
      }
    }
  }

  lemma DisabledKeepsUart(m: Manager, name: string, works: bool)
    requires name in m.data && (m.data[name].info.opdAddress != 0 ==> name in m.opd.cards) && UartSafe(m.opd, works)
    requires m.data[name].info.child.Some? ==> m.data[name].info.child.value in m.opd.cards
    ensures UartSafe(DisabledNode(m, name).opd, works)
  {
    hide UartSafe, Opds.Disabled;
    var n := m.data[name];
    if n.info.opdAddress != 0 && n.status != Off && n.status != Dead {
      var d := m.opd;
      if n.info.child.Some? {
        var child := n.info.child.value;
        CardEventKeepsUart(d, child, Opds.Disable(child), works);
        d := Opds.OnCard(d, child, Opds.Disabled(d.cards[child]));
      }
      CardEventKeepsUart(d, name, Opds.Disable(name), works);
    }
  }

  lemma ActedKeepsUart(m: Manager, name: string, r: Readings, works: bool)
    requires name in m.data && (name in m.opd.cards ==> m.data[name].info.opdAddress != 0) && UartSafe(m.opd, works)
    requires m.data[name].info.child.Some? ==> m.data[name].info.child.value in m.opd.cards
    ensures UartSafe(Acted(m, name, r).opd, works)
  {
    hide UartSafe, EnabledNode, Opds.IsEnabled, Opds.EnabledRead, Opds.Probed, Opds.Disabled, Opds.ResetNode,
      SameConfiguration;
    if name in m.opd.cards {
      CardEventKeepsUart(m.opd, name, Opds.Probe(name, true), works);
      var m1 := if m.loops % 10 == 0 && m.data[name].status == NotFound
                then PutCard(m, name, Opds.Probed(m.opd.cards[name], true)) else m;
      EnabledKeepsUart(m1, name, false, r.now, works);
      PreparedKeeps(m, name, r);
      var m2 := Prepared(m, name, r);
      SameDomain(m, m2);
      hide Prepared;
      CardEventKeepsUart(m2.opd, name, Opds.Disable(name), works);
      CardEventKeepsUart(m2.opd, name, Opds.Reset(name, 1), works);
      EnabledReadKeepsUart(m2.opd, name, works);
    }
  }

  lemma {:induction false} ObservedAllKeepsUart(m: Manager, order: seq<string>, names: seq<string>, r: Readings,
                                                works: bool)
    requires Configured(m, order) && UartSafe(m.opd, works) && forall x :: x in names ==> x in m.data
    ensures UartSafe(ObservedAll(m, order, names, r).opd, works)
    decreases |names|
  {
    hide Observed, Configured, UartSafe;
    if names == [] {
    } else {
      assert names[0] in names;
      ConfiguredName(m, order, names[0]);
      ObservedKeepsUart(m, names[0], r, works);
      ObservedKeepsConfiguration(m, names[0], r);
      ConfigurationKept(m, Observed(m, names[0], r), order);
      ObservedAllKeepsUart(Observed(m, names[0], r), order, names[1..], r, works);
    }
  }

  lemma {:induction false} ActedAllKeepsUart(m: Manager, order: seq<string>, names: seq<string>, r: Readings,
                                             works: bool)
    requires Configured(m, order) && UartSafe(m.opd, works) && forall x :: x in names ==> x in m.data
    ensures UartSafe(ActedAll(m, order, names, r).opd, works)
    decreases |names|
  {
    hide Acted, Configured, UartSafe;
    if names == [] {
    } else {
      assert names[0] in names;
      ConfiguredName(m, order, names[0]);
      ActedKeepsUart(m, names[0], r, works);
      ActedKeepsConfiguration(m, names[0], r);
      ConfigurationKept(m, Acted(m, names[0], r), order);
      ActedAllKeepsUart(Acted(m, names[0], r), order, names[1..], r, works);
    }
  }

  /** The event lets go of a connected card that does not answer. */
  predicate LetsGo(m: Manager, e: Event)
    requires Opds.ValidDomain(m.opd)
  {
    match e
    case OpdEvent(o) => Opds.Leaks(m.opd, o)
    case SetOpdStatus(value, _) => value == 0 && Opds.Leaks(m.opd, Opds.PowerDown)
    case _ => false
  }

  /** A card that stops answering is the only harm the event could do to the bus. */
  predicate KeepsBus(e: Event)
  {
    e.OpdEvent? && e.e.Outside? ==> e.e.responding
  }

  lemma LoopKeepsUart(m: Manager, order: seq<string>, r: Readings, works: bool)
    requires Configured(m, order) && UartSafe(m.opd, works)
    ensures UartSafe(Looped(m, order, r).opd, works)
  {
    hide Configured, ObservedAll, ActedAll, UartSafe, Distinct;
    CountedConfigured(m, order);
    ObservedAllKeepsUart(Counted(m), order, order, r, works);
    FirstPassConfigured(m, order, r);
    ActedAllKeepsUart(AfterFirstPass(m, order, r), order, order, r, works);
  }

  lemma RequestKeepsUart(m: Manager, order: seq<string>, name: string, value: int, now: real, works: bool)
    requires Configured(m, order) && UartSafe(m.opd, works)
    ensures UartSafe(StatusSet(m, order, name, value, now).opd, works)
  {
    hide Configured, UartSafe, EnabledNode, DisabledNode;
    if name in m.data {
      ConfiguredName(m, order, name);
      EnabledKeepsUart(m, name, value == 5, now, works);
      DisabledKeepsUart(m, name, works);
    }
  }

  /** Switching the domain, or one of its own events. */
  lemma DomainKeepsUart(d: Opds.Domain, o: Opds.Event, works: bool)
    requires Opds.ValidDomain(d) && UartSafe(d, works) && (works && o.Outside? ==> o.responding)
    ensures Opds.OnlyUartCards(Opds.Step(d, o)) && (Opds.Exclusive(Opds.Step(d, o)) <==> !Opds.Leaks(d, o))
    ensures works ==> !Opds.Leaks(d, o) && Opds.AllRespond(Opds.Step(d, o))
  {
    hide Opds.Step, Opds.Exclusive, Opds.OnlyUartCards;
    Opds.ExclusiveKeptIff(d, o);
    if works {
      Opds.StepKeepsResponding(d, o);
    }
  }

  /**
   Whatever the supervisor does, its own loops included, at most the selected card stays connected to
   the UART, exactly unless a connected card that does not answer is let go of.
   */
  lemma SupervisorKeepsUart(m: Manager, order: seq<string>, e: Event, works: bool)
    requires Configured(m, order) && UartSafe(m.opd, works) && (works ==> KeepsBus(e))
    ensures Opds.OnlyUartCards(Step(m, order, e).opd)
    ensures Opds.ValidDomain(m.opd) && (Opds.Exclusive(Step(m, order, e).opd) <==> !LetsGo(m, e))
    ensures works ==> UartSafe(Step(m, order, e).opd, works)
  {
    ConfiguredDomain(m, order);
    hide Configured, Looped, StatusSet, Opds.Step, Opds.Leaks, Opds.Exclusive, Opds.OnlyUartCards, Opds.AllRespond,
      Opds.PoweredDown, Opds.PoweredUp;
    match e
    case Loop(r) => LoopKeepsUart(m, order, r, works);
    case SetUpdating(_, _, _) =>
    case SetStatus(name, value, now) => RequestKeepsUart(m, order, name, value, now, works);
    case SetOpdStatus(value, _) =>
      DomainKeepsUart(m.opd, Opds.PowerDown, works);
      DomainKeepsUart(m.opd, Opds.PowerUp, works);
      PowerSteps(m.opd);
    case OpdEvent(o) => DomainKeepsUart(m.opd, o, works);
  }

  lemma PowerSteps(d: Opds.Domain)
    requires Opds.ValidDomain(d)
    ensures Opds.Step(d, Opds.PowerDown) == Opds.PoweredDown(d) && Opds.Step(d, Opds.PowerUp) == Opds.PoweredUp(d)
    ensures !Opds.Leaks(d, Opds.PowerUp)
  {
    hide Opds.PoweredDown, Opds.PoweredUp;
  }

  /** No event of the run lets go of a silent card. */
  predicate NeverLetsGo(m: Manager, order: seq<string>, events: seq<Event>)
    requires Configured(m, order)
  {
    if events == [] then true
    else
      var before := events[..|events| - 1];
      ConfiguredDomain(Run(m, order, before), order);
      NeverLetsGo(m, order, before) && !LetsGo(Run(m, order, before), events[|events| - 1])
  }

  /** Over every run of the supervisor that lets go of no silent card, at most the selected one is connected. */
  lemma {:induction false} SupervisorRunKeepsUart(m: Manager, order: seq<string>, events: seq<Event>)
    requires Configured(m, order) && UartSafe(m.opd, false) && NeverLetsGo(m, order, events)
    ensures UartSafe(Run(m, order, events).opd, false)
  {
    hide Configured, Step, LetsGo, Opds.Exclusive, Opds.OnlyUartCards;
    if events == [] {
    } else {
      var before := events[..|events| - 1];
      SupervisorRunKeepsUart(m, order, before);
      SupervisorKeepsUart(Run(m, order, before), order, events[|events| - 1], false);
    }
  }

  lemma {:induction false} WorkingRunKeepsUart(m: Manager, order: seq<string>, events: seq<Event>)
    requires Configured(m, order) && UartSafe(m.opd, true) && forall e :: e in events ==> KeepsBus(e)
    ensures UartSafe(Run(m, order, events).opd, true)
  {
    hide Configured, Step, UartSafe, KeepsBus, LetsGo;
    if events == [] {
    } else {
      var before, e := events[..|events| - 1], events[|events| - 1];
      assert e in events;
      WorkingRunKeepsUart(m, order, before);
      SupervisorKeepsUart(Run(m, order, before), order, e, true);
    }
  }

  /**
   With a working bus, over every run of the supervisor, with its loops, requests and the domain's own
   operations in any order: a connected card is the selected one, so no two are connected.
   */
  lemma SupervisorUartExclusive(m: Manager, order: seq<string>, events: seq<Event>, a: string, b: string)
    requires Configured(m, order) && UartSafe(m.opd, true) && forall e :: e in events ==> KeepsBus(e)
    requires a in m.opd.cards && b in m.opd.cards
    ensures var d := Run(m, order, events).opd;
      a in d.cards && b in d.cards && (Opds.Connected(d.cards[a]) ==> d.uart == Some(a)) &&
      (Opds.Connected(d.cards[a]) && Opds.Connected(d.cards[b]) ==> a == b)
  {
    hide Configured, Opds.Connected;
    WorkingRunKeepsUart(m, order, events);
  }

  lemma ConfiguredDomain(m: Manager, order: seq<string>)
    requires Configured(m, order)
    ensures Opds.ValidDomain(m.opd)
  {
  }

  // ----- the service -----

  lemma ObservedHead(m: Manager, order: seq<string>, i: nat, r: Readings)
    requires Configured(m, order) && i < |order|
    ensures order[i] in m.data && (m.data[order[i]].info.opdAddress != 0 ==> order[i] in m.opd.cards)
    ensures var m' := Observed(m, order[i], r);
      Configured(m', order) && (forall n :: n in order[i..] + order[i + 1..] ==> n in m.data && n in m'.data) &&
      ObservedAll(m, order, order[i..], r) == ObservedAll(m', order, order[i + 1..], r)
  {
    hide Observed, Configured;
    var names := order[i..];
    assert names[0] == order[i] && names[1..] == order[i + 1..];
    OrderNames(m, order, i);
    ConfiguredName(m, order, order[i]);
    ObservedKeepsConfiguration(m, order[i], r);
    ConfigurationKept(m, Observed(m, order[i], r), order);
  }

  lemma ActedHead(m: Manager, order: seq<string>, i: nat, r: Readings)
    requires Configured(m, order) && i < |order|
    ensures order[i] in m.data && (order[i] in m.opd.cards ==> m.data[order[i]].info.opdAddress != 0)
    ensures m.data[order[i]].info.child.Some? ==> m.data[order[i]].info.child.value in m.opd.cards
    ensures var m' := Acted(m, order[i], r);
      Configured(m', order) && (forall n :: n in order[i..] + order[i + 1..] ==> n in m.data && n in m'.data) &&
      ActedAll(m, order, order[i..], r) == ActedAll(m', order, order[i + 1..], r)
  {
    hide Acted, Configured;
    var names := order[i..];
    assert names[0] == order[i] && names[1..] == order[i + 1..];
    OrderNames(m, order, i);
    ConfiguredName(m, order, order[i]);
    ActedKeepsConfiguration(m, order[i], r);
    ConfigurationKept(m, Acted(m, order[i], r), order);
  }

  lemma OrderNames(m: Manager, order: seq<string>, i: nat)
    requires Configured(m, order) && i <= |order|
    ensures (i < |order| ==> order[i] in m.data) && forall n :: n in order[i..] ==> n in m.data
    ensures order[0..] == order && order[|order|..] == []
    ensures C3 in order
  {
  }

  lemma PassesEnd(m: Manager, order: seq<string>, r: Readings)
    requires Configured(m, order)
    ensures ObservedAll(m, order, [], r) == m == ActedAll(m, order, [], r)
  {
  }

  lemma LoopSteps(m: Manager, order: seq<string>, r: Readings)
    requires Configured(m, order)
    ensures Configured(Counted(m), order) && forall x :: x in order ==> x in m.data
    ensures var m1 := ObservedAll(Counted(m), order, order, r);
      Configured(m1, order) && (forall x :: x in order ==> x in m1.data) &&
      Looped(m, order, r) == if OpdUp(m1) then ActedAll(m1, order, order, r) else m1.(loops := -1)
  {
    hide Configured, ObservedAll, ActedAll, SameConfiguration, Distinct;
    CountedConfigured(m, order);
    FirstPassConfigured(m, order, r);
  }
}
