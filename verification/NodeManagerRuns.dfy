/** Where the supervisor starts, what holds of every run from there, and a run that powers a dead card. */
module NodeManagerRuns {
  import opened Octets
  import opened Max7310s
  import Opds
  import opened NodeManagers

  // ----- the start -----

  /** A service that was started: constructed, and the domain switched on. */
  function Started(infos: map<string, Info>, d: Opds.Domain): Manager
    requires Opds.ValidDomain(d)
  {
    var m := Constructed(infos, d);
    m.(opd := Opds.PoweredUp(d))
  }

  lemma StartedConfigured(infos: map<string, Info>, d: Opds.Domain, order: seq<string>)
    requires Opds.ValidDomain(d) && Configured(Constructed(infos, d), order)
    ensures Configured(Started(infos, d), order) && Started(infos, d).opd.cards.Keys == d.cards.Keys
    ensures forall n :: n in d.cards ==> n in infos && n in Started(infos, d).data
  {
    hide Opds.PoweredUp;
    PowerKeepsValid(d);
    SameKeysConfigured(Constructed(infos, d), Started(infos, d), order);
  }

  /** No card is dead and none that does not answer is connected, as when the cards are added. */
  predicate Unconnected(d: Opds.Domain)
  {
    forall n :: n in d.cards ==>
      d.cards[n].status != Opds.DEAD && (Opds.Connected(d.cards[n]) ==> d.cards[n].responding)
  }

  /** The service starts in a state that meets what the claims about its runs ask for. */
  lemma StartIsSound(infos: map<string, Info>, d: Opds.Domain, order: seq<string>, n: string)
    requires Opds.ValidDomain(d) && Configured(Constructed(infos, d), order)
    requires d.status == Opds.OpdDisabled && n in d.cards
    ensures var m := Started(infos, d);
      n in m.data && NodeInv(m.data[n]) && DeadInv(m, m.data[n]) &&
      (Unconnected(d) ==> UartSafe(m.opd, false)) && (Unconnected(d) && Opds.AllRespond(d) ==> UartSafe(m.opd, true))
  {
    hide Configured, Opds.PoweredUp, Opds.Connected;
    StartedConfigured(infos, d, order);
    PowerNeverFaults(d);
    if Unconnected(d) {
      forall x | x in d.cards
        ensures !Opds.Connected(Opds.PoweredUp(d).cards[x])
      {
        Opds.PowerUpDisconnects(d, x);
      }
      if Opds.AllRespond(d) {
        PowerSteps(d);
        Opds.StepKeepsResponding(d, Opds.PowerUp);
      }
    }
  }

  /**
   Over every run from the start: a card's resets are counted within three, it is dead only when they are
   used up, and with a working bus a connected card is the selected one.
   */
  lemma StartedRunIsSound(infos: map<string, Info>, d: Opds.Domain, order: seq<string>, events: seq<Event>, n: string)
    requires Opds.ValidDomain(d) && Configured(Constructed(infos, d), order)
    requires d.status == Opds.OpdDisabled && n in d.cards
    ensures Configured(Started(infos, d), order)
    ensures var t := Run(Started(infos, d), order, events);
      n in t.data && NodeInv(t.data[n]) && DeadInv(t, t.data[n]) &&
      (Unconnected(d) && Opds.AllRespond(d) && (forall e :: e in events ==> KeepsBus(e)) ==> UartSafe(t.opd, true))
  {
    hide Configured, Started, NodeInv, DeadInv, UartSafe, Unconnected, KeepsBus;
    var m := Started(infos, d);
    StartedConfigured(infos, d, order);
    StartIsSound(infos, d, order, n);
    DeadIffUsedUp(m, order, events, Readings(0.0, map[], false, false), n);
    if Unconnected(d) && Opds.AllRespond(d) && forall e :: e in events ==> KeepsBus(e) {
      WorkingRunKeepsUart(m, order, events);
    }
  }

  // ----- a run that powers a dead card -----

  const ORDER := [C3, "child", "parent"]
  const POWERED := Mask(Opds.ENABLE_PIN)

  /** The parent is always on. */
  function Infos(): map<string, Info>
  {
    map[C3 := Info(1, 0, false, false, None),
        "child" := Info(0, 0x20, false, false, None),
        "parent" := Info(0, 0x21, false, true, Some("child"))]
  }

  function Child(resets: int, lastEnable: real, status: NodeState): Node
  {
    Node(Infos()["child"], resets, lastEnable, status, false)
  }

  function Parent(lastEnable: real, status: NodeState): Node
  {
    Node(Infos()["parent"], 0, lastEnable, status, false)
  }

  /** The child's fault line is low. */
  function ChildCard(status: Opds.NodeStatus, output: bv8, resets: nat): Opds.Card
  {
    Opds.Card(Opds.Plain, 0x20, status, [0x00, output, 0, 0x04, 0x01], true, false, resets)
  }

  function ParentCard(status: Opds.NodeStatus, output: bv8): Opds.Card
  {
    Opds.Card(Opds.Plain, 0x21, status, [Mask(Opds.NOT_FAULT_PIN), output, 0, 0x04, 0x01], true, false, 0)
  }

  /** Two cards on a domain that is off, as they are added to it. */
  function Added(): Opds.Domain
  {
    Opds.Domain(
      map["child" := ChildCard(Opds.NOT_FOUND, 0x00, 0).(regs := [0x00, 0x00, 0xF0, 0xFF, 0x01]),
          "parent" := ParentCard(Opds.NOT_FOUND, 0x00).(regs := [Mask(Opds.NOT_FAULT_PIN), 0x00, 0xF0, 0xFF, 0x01])],
      None, Opds.OpdDisabled)
  }

  function At(child: Node, childCard: Opds.Card, parent: Node, parentCard: Opds.Card, loops: int): Manager
  {
    Manager(map[C3 := StartNode(C3, Infos()[C3]), "child" := child, "parent" := parent],
            Opds.Domain(map["child" := childCard, "parent" := parentCard], None, Opds.OpdEnabled), loops)
  }

  /** A state of this configuration with the domain on. */
  predicate Example(m: Manager)
  {
    m.data.Keys == m.opd.cards.Keys + {C3} && "child" in m.opd.cards && "parent" in m.opd.cards &&
    (forall n :: n in m.opd.cards ==> n == "child" || n == "parent") &&
    (forall n :: n in m.data ==> n in Infos() && m.data[n].info == Infos()[n]) &&
    m.opd.uart == None && m.opd.status == Opds.OpdEnabled
  }

  lemma ExampleConfigured(m: Manager)
    requires Example(m)
    ensures Configured(m, ORDER) && OpdUp(m)
  {
    assert ORDER[0] == C3 && ORDER[1] == "child" && ORDER[2] == "parent";
  }

  lemma AtIsExample(child: Node, childCard: Opds.Card, parent: Node, parentCard: Opds.Card, loops: int)
    requires child.info == Infos()["child"] && parent.info == Infos()["parent"]
    ensures Example(At(child, childCard, parent, parentCard, loops))
  {
  }

  lemma AllExamples()
    ensures forall a: Node, c: Opds.Card, b: Node, d: Opds.Card, loops: int ::
              a.info == Infos()["child"] && b.info == Infos()["parent"] ==>
              Example(At(a, c, b, d, loops))
  {
    forall a: Node, c: Opds.Card, b: Node, d: Opds.Card, loops: int |
      a.info == Infos()["child"] && b.info == Infos()["parent"]
      ensures Example(At(a, c, b, d, loops))
    {
      AtIsExample(a, c, b, d, loops);
    }
  }

  /** The levels the pins go through. */
  lemma Levels()
    ensures Set(0x00, [Opds.ENABLE_PIN]) == POWERED && Clear(POWERED, [Opds.ENABLE_PIN]) == 0x00
    ensures Clear(Set(POWERED, [Opds.CB_RESET_PIN]), [Opds.CB_RESET_PIN]) == POWERED
    ensures Bit(POWERED, Opds.ENABLE_PIN) && !Bit(0x00, Opds.ENABLE_PIN)
    ensures Bit(Mask(Opds.NOT_FAULT_PIN), Opds.NOT_FAULT_PIN) && !Bit(0x00, Opds.NOT_FAULT_PIN)
  {
    assert MaskOf([Opds.ENABLE_PIN]) == Mask(Opds.ENABLE_PIN);
    assert MaskOf([Opds.CB_RESET_PIN]) == Mask(Opds.CB_RESET_PIN);
  }

  /** A loop, turn by turn. */
  lemma LoopTurns(m: Manager, m1: Manager, m2: Manager, m3: Manager, m4: Manager, r: Readings)
    requires Example(m) && Example(m1) && Example(m2) && Example(m3) && Example(m4)
    requires m1 == Observed(Counted(m), "child", r) && m2 == Observed(m1, "parent", r)
    requires m3 == Acted(m2, "child", r) && m4 == Acted(m3, "parent", r)
    ensures Configured(m, ORDER) && Looped(m, ORDER, r) == m4
  {
    hide Configured, Looped, Observed, Acted, ObservedAll, ActedAll, SameConfiguration, Counted;
    ExampleConfigured(m);
    LoopSteps(m, ORDER, r);
    CountedExample(m);
    FirstPassTurns(Counted(m), m1, m2, r);
    SecondPassTurns(m2, m3, m4, r);
  }

  lemma OwnTurn(m: Manager, r: Readings)
    requires Example(m)
    ensures Observed(m, C3, r) == m == Acted(m, C3, r)
  {
  }

  lemma Places()
    ensures |ORDER| == 3 && ORDER[0] == C3 && ORDER[1] == "child" && ORDER[2] == "parent"
    ensures ORDER[0..] == ORDER && ORDER[3..] == []
    ensures C3 in ORDER && "child" in ORDER && "parent" in ORDER && forall x :: x in ORDER ==> x in Infos()
  {
    var o := ORDER;
    assert o[0] == C3 && o[1] == "child" && o[2] == "parent";
  }

  lemma CountedExample(m: Manager)
    requires Example(m)
    ensures Example(Counted(m)) && Counted(m).data == m.data
    ensures C3 in m.data && "child" in m.data && "parent" in m.data
  {
  }

  lemma FirstPassTurns(m0: Manager, m1: Manager, m2: Manager, r: Readings)
    requires Example(m0) && Example(m1) && Example(m2)
    requires m1 == Observed(m0, "child", r) && m2 == Observed(m1, "parent", r)
    ensures Configured(m0, ORDER) && forall x :: x in ORDER ==> x in m0.data
    ensures ObservedAll(m0, ORDER, ORDER, r) == m2
  {
    OwnTurn(m0, r);
    ExampleConfigured(m0);
    ExampleConfigured(m1);
    ExampleConfigured(m2);
    hide Configured, Observed, ObservedAll, SameConfiguration, Example, OpdUp;
    Places();
    OrderNames(m0, ORDER, 0);
    hide ORDER;
    ObservedHead(m0, ORDER, 0, r);
    ObservedHead(m0, ORDER, 1, r);
    ObservedHead(m1, ORDER, 2, r);
    PassesEnd(m2, ORDER, r);
  }

  lemma SecondPassTurns(m2: Manager, m3: Manager, m4: Manager, r: Readings)
    requires Example(m2) && Example(m3) && Example(m4)
    requires m3 == Acted(m2, "child", r) && m4 == Acted(m3, "parent", r)
    ensures Configured(m2, ORDER) && forall x :: x in ORDER ==> x in m2.data
    ensures ActedAll(m2, ORDER, ORDER, r) == m4
  {
    OwnTurn(m2, r);
    ExampleConfigured(m2);
    ExampleConfigured(m3);
    ExampleConfigured(m4);
    hide Configured, Acted, ActedAll, SameConfiguration, Example, OpdUp;
    Places();
    OrderNames(m2, ORDER, 0);
    hide ORDER;
    ActedHead(m2, ORDER, 0, r);
    ActedHead(m2, ORDER, 1, r);
    ActedHead(m3, ORDER, 2, r);
    PassesEnd(m4, ORDER, r);
  }


  function AtStart(): Manager
  {
    At(Child(0, 0.0, NotFound), ChildCard(Opds.DISABLED, 0x00, 0),
       Parent(0.0, NotFound), ParentCard(Opds.DISABLED, 0x00), -1)
  }

  lemma StartNodes()
    ensures Constructed(Infos(), Added()).data == AtStart().data
  {
    hide Added, ChildCard, ParentCard;
  }

  lemma StartCards()
    ensures Opds.PoweredUp(Added()) == AtStart().opd && Added().cards.Keys == AtStart().opd.cards.Keys
  {
    hide Infos, Mask;
    var c, d := Added().cards["child"], Added().cards["parent"];
    assert Opds.Probed(c, true) == ChildCard(Opds.DISABLED, 0x00, 0);
    assert Opds.Probed(d, true) == ParentCard(Opds.DISABLED, 0x00);
  }

  lemma StartsHere()
    ensures Configured(Constructed(Infos(), Added()), ORDER) && Configured(AtStart(), ORDER)
    ensures Started(Infos(), Added()) == AtStart()
  {
    AtIsExample(Child(0, 0.0, NotFound), ChildCard(Opds.DISABLED, 0x00, 0),
                Parent(0.0, NotFound), ParentCard(Opds.DISABLED, 0x00), -1);
    ExampleConfigured(AtStart());
    StartNodes();
    StartCards();
    hide Configured, Example, Infos, ChildCard, ParentCard;
    SameKeysConfigured(AtStart(), Constructed(Infos(), Added()), ORDER);
  }

  lemma ObservedChild(a: Node, c: Opds.Card, b: Node, d: Opds.Card, loops: int, r: Readings, s: NodeState)
    requires a.info == Infos()["child"] && a.resets < MAX_CO_RESETS
    requires s == CardState(a, "child", Opds.StatusRead(c), r)
    ensures Observed(At(a, c, b, d, loops), "child", r) == At(a.(status := s), Opds.StatusRead(c), b, d, loops)
  {
    hide CardState, Opds.StatusRead;
  }

  lemma ObservedParent(a: Node, c: Opds.Card, b: Node, d: Opds.Card, loops: int, r: Readings, s: NodeState)
    requires b.info == Infos()["parent"] && b.resets < MAX_CO_RESETS
    requires s == CardState(b, "parent", Opds.StatusRead(d), r)
    ensures Observed(At(a, c, b, d, loops), "parent", r) == At(a, c, b.(status := s), Opds.StatusRead(d), loops)
  {
    hide CardState, Opds.StatusRead;
  }

  lemma PutChild(a: Node, c: Opds.Card, b: Node, d: Opds.Card, loops: int, a': Node, c': Opds.Card)
    ensures Put(At(a, c, b, d, loops), "child", a') == At(a', c, b, d, loops)
    ensures PutCard(At(a, c, b, d, loops), "child", c') == At(a, c', b, d, loops)
  {
  }

  lemma ActedChild(a: Node, c: Opds.Card, b: Node, d: Opds.Card, loops: int, r: Readings)
    requires a.info == Infos()["child"] && (a.status == Off || a.status == Error)
    ensures Acted(At(a, c, b, d, loops), "child", r) ==
              if a.status == Off then At(a.(resets := 0), c, b, d, loops)
              else At(a.(resets := a.resets + 1, lastEnable := r.now), Opds.ResetNode(c, 1), b, d, loops)
  {
    hide Opds.ResetNode, Opds.Probed, Opds.Disabled, Opds.IsEnabled, Opds.EnabledRead, EnabledNode, Put, PutCard;
    var c' := Opds.ResetNode(c, 1);
    PutChild(a, c, b, d, loops, a.(resets := 0), c');
    PutChild(a, c', b, d, loops, a.(resets := a.resets + 1, lastEnable := r.now), c');
  }

  lemma ActedParent(a: Node, c: Opds.Card, b: Node, d: Opds.Card, loops: int, r: Readings)
    requires b.info == Infos()["parent"] && (b.status == Off || b.status == On)
    requires d.kind == Opds.Plain && c.kind == Opds.Plain
    ensures Acted(At(a, c, b, d, loops), "parent", r) ==
              if b.status == On then At(a, c, b.(resets := 0), d, loops)
              else At(a, Opds.Enabled(c, false), b.(resets := 0, lastEnable := r.now), Opds.Enabled(d, false), loops)
  {
    hide Opds.Enabled, Opds.Probed, Opds.Disabled, Opds.IsEnabled, Opds.EnabledRead, Opds.ResetNode;
  }

  /** After the parent was enabled with its child, and k loops reset the child in vain. */
  function Faulting(k: nat, now: real): Manager
  {
    if k == 0 then
      At(Child(0, 0.0, Off), ChildCard(Opds.ENABLED, POWERED, 0),
         Parent(now, Off), ParentCard(Opds.ENABLED, POWERED), 0)
    else
      At(Child(k, now, Error), ChildCard(Opds.FAULT, POWERED, k),
         Parent(now, On), ParentCard(Opds.ENABLED, POWERED), k)
  }

  lemma CardsRead()
    ensures Opds.StatusRead(ChildCard(Opds.DISABLED, 0x00, 0)) == ChildCard(Opds.DISABLED, 0x00, 0)
    ensures Opds.StatusRead(ParentCard(Opds.DISABLED, 0x00)) == ParentCard(Opds.DISABLED, 0x00)
    ensures forall k: nat ::
              Opds.StatusRead(ChildCard(Opds.ENABLED, POWERED, k)) == ChildCard(Opds.FAULT, POWERED, k) ==
              Opds.StatusRead(ChildCard(Opds.FAULT, POWERED, k))
    ensures Opds.StatusRead(ParentCard(Opds.ENABLED, POWERED)) == ParentCard(Opds.ENABLED, POWERED)
  {
    Levels();
    hide Bit, Mask;
  }

  lemma CardsSwitched()
    ensures Opds.Enabled(ChildCard(Opds.DISABLED, 0x00, 0), false) == ChildCard(Opds.ENABLED, POWERED, 0)
    ensures Opds.Enabled(ParentCard(Opds.DISABLED, 0x00), false) == ParentCard(Opds.ENABLED, POWERED)
    ensures forall k: nat ::
              Opds.Disabled(ChildCard(Opds.FAULT, POWERED, k)) == ChildCard(Opds.DISABLED, 0x00, k)
    ensures Opds.Disabled(ParentCard(Opds.ENABLED, POWERED)) == ParentCard(Opds.DISABLED, 0x00)
  {
    Levels();
    hide Bit, Mask, Set, Clear;
  }

  lemma ChildReset(k: nat)
    ensures Opds.ResetNode(ChildCard(Opds.FAULT, POWERED, k), 1) == ChildCard(Opds.FAULT, POWERED, k + 1)
  {
    Levels();
    hide Bit, Mask, Set, Clear;
  }

  /** One loop over the two cards, the child found off or in error, its parent off or on. */
  lemma LoopAt(a: Node, c: Opds.Card, b: Node, d: Opds.Card, loops: int, r: Readings, s: NodeState, t: NodeState)
    requires a.info == Infos()["child"] && a.resets < MAX_CO_RESETS && c.kind == Opds.Plain && (s == Off || s == Error)
    requires b.info == Infos()["parent"] && b.resets < MAX_CO_RESETS && d.kind == Opds.Plain && (t == Off || t == On)
    requires s == CardState(a, "child", Opds.StatusRead(c), r) && t == CardState(b, "parent", Opds.StatusRead(d), r)
    ensures Configured(At(a, c, b, d, loops), ORDER)
    ensures var c1, d1 := Opds.StatusRead(c), Opds.StatusRead(d);
      var a2 := if s == Off then a.(status := s, resets := 0)
                else a.(status := s, resets := a.resets + 1, lastEnable := r.now);
      var c2 := if s == Off then c1 else Opds.ResetNode(c1, 1);
      Looped(At(a, c, b, d, loops), ORDER, r) ==
        if t == On then At(a2, c2, b.(status := t, resets := 0), d1, loops + 1)
        else At(a2, Opds.Enabled(c2, false), b.(status := t, resets := 0, lastEnable := r.now),
                Opds.Enabled(d1, false), loops + 1)
  {
    var c1, d1 := Opds.StatusRead(c), Opds.StatusRead(d);
    var a1, b1 := a.(status := s), b.(status := t);
    var a2 := if s == Off then a1.(resets := 0) else a1.(resets := a.resets + 1, lastEnable := r.now);
    var c2 := if s == Off then c1 else Opds.ResetNode(c1, 1);
    SameKind(c);
    SameKind(d);
    SameKind(c1);
    hide Opds.StatusRead, Opds.Enabled, Opds.ResetNode, CardState, Infos, Configured, Looped, Observed, Acted, Example,
      Counted;
    var m2 := At(a1, c1, b1, d1, loops + 1);
    var m3 := At(a2, c2, b1, d1, loops + 1);
    var m4 := if t == On then At(a2, c2, b1.(resets := 0), d1, loops + 1)
              else At(a2, Opds.Enabled(c2, false), b1.(resets := 0, lastEnable := r.now),
                      Opds.Enabled(d1, false), loops + 1);
    CountedAt(a, c, b, d, loops);
    ObservedChild(a, c, b, d, loops + 1, r, s);
    ObservedParent(a1, c1, b, d, loops + 1, r, t);
    ActedChild(a1, c1, b1, d1, loops + 1, r);
    ActedParent(a2, c2, b1, d1, loops + 1, r);
    AllExamples();
    hide At;
    LoopTurns(At(a, c, b, d, loops), At(a1, c1, b, d, loops + 1), m2, m3, m4, r);
  }

  lemma SameKind(c: Opds.Card)
    ensures Opds.StatusRead(c).kind == Opds.ResetNode(c, 1).kind == c.kind
  {
  }

  lemma CountedAt(a: Node, c: Opds.Card, b: Node, d: Opds.Card, loops: int)
    ensures Counted(At(a, c, b, d, loops)) == At(a, c, b, d, loops + 1)
  {
  }


  lemma FirstLoop(r: Readings)
    ensures Configured(AtStart(), ORDER) && Looped(AtStart(), ORDER, r) == Faulting(0, r.now)
  {
    CardsRead();
    CardsSwitched();
    hide Configured, Looped, Opds.StatusRead, Opds.Enabled, Opds.ResetNode, At, Infos;
    LoopAt(Child(0, 0.0, NotFound), ChildCard(Opds.DISABLED, 0x00, 0), Parent(0.0, NotFound),
           ParentCard(Opds.DISABLED, 0x00), -1, r, Off, Off);
  }

  lemma NextLoop(k: nat, r: Readings)
    requires k < MAX_CO_RESETS
    ensures Configured(Faulting(k, r.now), ORDER) && Looped(Faulting(k, r.now), ORDER, r) == Faulting(k + 1, r.now)
  {
    CardsRead();
    ChildReset(k);
    hide Configured, Looped, Opds.StatusRead, Opds.Enabled, Opds.ResetNode, At, Bit;
    if k == 0 {
      LoopAt(Child(0, 0.0, Off), ChildCard(Opds.ENABLED, POWERED, 0), Parent(r.now, Off),
             ParentCard(Opds.ENABLED, POWERED), 0, r, Error, On);
    } else {
      LoopAt(Child(k, r.now, Error), ChildCard(Opds.FAULT, POWERED, k), Parent(r.now, On),
             ParentCard(Opds.ENABLED, POWERED), k, r, Error, On);
    }
  }

  /** The child's resets used up, and the parent switched off with it by request. */
  function UsedUp(now: real): Manager
  {
    At(Child(3, now, Error), ChildCard(Opds.DISABLED, 0x00, 3), Parent(now, On), ParentCard(Opds.DISABLED, 0x00), 3)
  }

  lemma DisabledParent(a: Node, c: Opds.Card, b: Node, d: Opds.Card, loops: int)
    requires b.info == Infos()["parent"] && b.status == On
    ensures DisabledNode(At(a, c, b, d, loops), "parent") == At(a, Opds.Disabled(c), b, Opds.Disabled(d), loops)
  {
    hide Opds.Disabled;
  }

  lemma SwitchedOff(now: real)
    ensures Configured(Faulting(3, now), ORDER)
    ensures StatusSet(Faulting(3, now), ORDER, "parent", 0, now) == UsedUp(now)
  {
    var a, c := Child(3, now, Error), ChildCard(Opds.FAULT, POWERED, 3);
    var b, d := Parent(now, On), ParentCard(Opds.ENABLED, POWERED);
    AtIsExample(a, c, b, d, 3);
    ExampleConfigured(At(a, c, b, d, 3));
    CardsSwitched();
    DisabledParent(a, c, b, d, 3);
    assert "parent" in At(a, c, b, d, 3).data;
    hide Configured, Opds.Disabled, DisabledNode, At, Infos, Example, OpdUp;
  }

  lemma ParentComesOn(r: Readings)
    ensures ParentWillEnable(UsedUp(r.now), r, ORDER[2..], "child")
  {
    CardsRead();
    hide Opds.StatusRead, Bit;
    assert ORDER[2..] == ["parent"] && "parent" in ["parent"];
    assert WillEnable(UsedUp(r.now), r, "parent", "child");
  }

  /** The next loop finds the child dead and its parent off, and powers both. */
  lemma LastLoop(r: Readings)
    ensures Configured(UsedUp(r.now), ORDER)
    ensures var t := Looped(UsedUp(r.now), ORDER, r);
      "child" in t.data && t.data["child"].status == Dead &&
      "child" in t.opd.cards && Powered(t.opd.cards["child"])
  {
    var m := UsedUp(r.now);
    AtIsExample(Child(3, r.now, Error), ChildCard(Opds.DISABLED, 0x00, 3),
                Parent(r.now, On), ParentCard(Opds.DISABLED, 0x00), 3);
    ExampleConfigured(m);
    ParentComesOn(r);
    Places();
    hide Configured, Looped, Bit, ParentWillEnable, Powered, DeadPass, Example;
    DeadStaysOff(m, ORDER, r, "child", 1);
  }

  lemma LastEvent(events: seq<Event>, e: Event)
    ensures (events + [e])[..|events|] == events && (events + [e])[|events|] == e && |events + [e]| == |events| + 1
  {
  }

  /** What a run comes to when one more event follows it. */
  lemma RunGrows(m: Manager, order: seq<string>, events: seq<Event>, e: Event)
    requires Configured(m, order)
    ensures Run(m, order, events + [e]) == Step(Run(m, order, events), order, e)
  {
    hide Configured, Step;
    LastEvent(events, e);
  }

  lemma RunLoops(m: Manager, order: seq<string>, events: seq<Event>, t: Manager, r: Readings)
    requires Configured(m, order) && Configured(t, order) && Run(m, order, events) == t
    ensures Run(m, order, events + [Loop(r)]) == Looped(t, order, r)
  {
    hide Configured, Looped, Run;
    RunGrows(m, order, events, Loop(r));
  }

  lemma RunRequests(m: Manager, order: seq<string>, events: seq<Event>, t: Manager, name: string, value: int, now: real)
    requires Configured(m, order) && Configured(t, order) && Run(m, order, events) == t
    ensures Run(m, order, events + [SetStatus(name, value, now)]) == StatusSet(t, order, name, value, now)
  {
    hide Configured, StatusSet, Run;
    RunGrows(m, order, events, SetStatus(name, value, now));
  }

  function Loops(k: nat, r: Readings): seq<Event>
  {
    if k == 0 then [] else Loops(k - 1, r) + [Loop(r)]
  }

  lemma {:induction false} ResetInVain(k: nat, r: Readings)
    requires k <= MAX_CO_RESETS
    ensures Configured(AtStart(), ORDER)
    ensures Run(AtStart(), ORDER, Loops(k + 1, r)) == Faulting(k, r.now)
  {
    hide Faulting, AtStart, Looped, Configured;
    FirstLoop(r);
    if k == 0 {
      assert Run(AtStart(), ORDER, []) == AtStart();
      RunLoops(AtStart(), ORDER, [], AtStart(), r);
    } else {
      ResetInVain(k - 1, r);
      NextLoop(k - 1, r);
      RunLoops(AtStart(), ORDER, Loops(k, r), Faulting(k - 1, r.now), r);
    }
  }

  /**
   From the start, with a card whose fault line is low and its always-on parent: four loops, a request that
   switches the parent off, and one more loop leave the card dead and powered.
   */
  lemma DeadNodeSwitchedOn(r: Readings)
    ensures Configured(Started(Infos(), Added()), ORDER)
    ensures var events := Loops(4, r) + [SetStatus("parent", 0, r.now)] + [Loop(r)];
      var t := Run(Started(Infos(), Added()), ORDER, events);
      "child" in t.data && t.data["child"].status == Dead &&
      "child" in t.opd.cards && Powered(t.opd.cards["child"])
  {
    StartsHere();
    ResetInVain(3, r);
    SwitchedOff(r.now);
    LastLoop(r);
    hide Configured, Started, Faulting, AtStart, UsedUp, Looped, StatusSet, Powered, Run, Infos, Added, Loops;
    var m, b := AtStart(), SetStatus("parent", 0, r.now);
    RunRequests(m, ORDER, Loops(4, r), Faulting(3, r.now), "parent", 0, r.now);
    RunLoops(m, ORDER, Loops(4, r) + [b], UsedUp(r.now), r);
  }
}
