/** The supervisor's object, over the power domain's objects: each method does what the model says. */
module NodeManagerServices {
  import opened Octets
  import opened Max7310s
  import Opds
  import OpdNodes
  import opened NodeManagers

  class NodeManagerService {
    const order: seq<string>
    const opd: OpdNodes.Opd
    var data: map<string, Node>
    var loops: int

    ghost predicate Working()
      reads opd
    {
      opd.Valid()
    }

    ghost function View(): (m: Manager)
      requires Working()
      reads this, opd, opd.nodes.Values, opd.Chips(), opd.Buffers()
      ensures m.data == data && m.loops == loops && m.opd == opd.View()
    {
      Manager(data, opd.View(), loops)
    }

    ghost predicate Valid()
      reads this, opd, opd.nodes.Values, opd.Chips(), opd.Buffers()
    {
      Working() && Configured(View(), order)
    }

    /** Nothing is known of any card yet. */
    constructor (order: seq<string>, infos: map<string, Info>, opd: OpdNodes.Opd)
      requires opd.Valid() && Configured(Constructed(infos, opd.View()), order)
      ensures Valid() && this.order == order && this.opd == opd && View() == Constructed(infos, opd.View())
    {
      this.order, this.opd, loops := order, opd, -1;
      data := map n | n in infos :: StartNode(n, infos[n]);
      new;
      hide Configured;
      opd.NoCardChanged();
    }

    /** Starting switches the domain on. */
    method OnStart()
      requires Valid()
      modifies this`loops, opd, opd.nodes.Values, opd.Buffers()
      ensures Valid() && View() == old(View()).(opd := Opds.PoweredUp(old(opd.View())), loops := -1)
    {
      hide Configured, Opds.PoweredUp, OpdNodes.Opd.View, OpdNodes.Opd.Apart, OpdNodes.Opd.Ordered,
        OpdNodes.Opd.NodesValid;
      ghost var m := View();
      SetLoops(-1);
      var e := opd.Enable();
      ConfiguredDomain(m, order);
      PowerKeepsValid(m.opd);
      SameKeysConfigured(m, View(), order);
    }

    /** Writing a node's data or the count of loops touches no card. */
    method Store(name: string, node: Node)
      requires Working()
      modifies this`data
      ensures Working() && View() == Put(old(View()), name, node)
    {
      data := data[name := node];
      opd.NoCardChanged();
    }

    method SetLoops(n: int)
      requires Working()
      modifies this`loops
      ensures Working() && View() == old(View()).(loops := n)
    {
      loops := n;
      opd.NoCardChanged();
    }

    predicate Known(name: string)
      reads this
    {
      name in data && (data[name].info.opdAddress != 0 ==> name in opd.nodes) &&
      (data[name].info.child.Some? ==> data[name].info.child.value in opd.nodes)
    }

    /** The state a loop decides on; deciding may read the card's status, which updates it. */
    method GetNodeState(name: string, r: Readings) returns (s: NodeState)
      requires Working() && Known(name)
      modifies opd.nodes.Values, opd.Buffers()
      ensures Working() && s == StateOf(data[name], name, old(opd.View()), r)
      ensures opd.View() == if ReadsCard(data[name], old(opd.View()))
                            then Opds.OnCard(old(opd.View()), name, Opds.StatusRead(old(opd.View()).cards[name]))
                            else old(opd.View())
    {
      var co := data[name];
      if co.info.opdAddress == 0 {
        if co.updating { return Updating; }
        return if r.now > Heartbeat(r, name) + HB_TIMEOUT then Off else On;
      }
      if opd.status == Opds.OpdDisabled { return NotFound; }
      if opd.status == Opds.OpdDead { return Dead; }
      if co.resets >= MAX_CO_RESETS { return Dead; }
      hide Opds.StatusRead, CardState, CanOpenState, Bit, OpdNodes.Opd.View, OpdNodes.Opd.Apart,
        OpdNodes.Opd.Ordered, OpdNodes.Opd.NodesValid;
      ghost var before := opd.View().cards[name];
      var status := opd.ReadStatus(name);
      StatusReadAnswers(before);
      s := CardStateOf(co, name, status, r);
    }

    /** The state by a card whose status was just read. */
    method CardStateOf(co: Node, name: string, status: Opds.NodeStatus, r: Readings) returns (s: NodeState)
      requires Working() && name in opd.nodes && opd.View().cards[name].status == status
      requires status == Opds.ENABLED && opd.nodes[name].kind.Stm32? ==> opd.View().cards[name].responding
      ensures s == CardState(co, name, opd.View().cards[name], r)
    {
      hide CanOpenState, Bit;
      match status
      case FAULT => s := Error;
      case NOT_FOUND => s := NotFound;
      case DISABLED => s := Off;
      case DEAD => s := co.status;
      case ENABLED =>
        if opd.nodes[name].kind.Stm32? {
          var bootloader := opd.ReadBootPin(name);
          if bootloader { return Bootloader; }
        }
        s := if co.info.nodeId != 0 then CanOpenState(co, name, r) else On;
    }

    method Enable(name: string, bootloader: bool, now: real)
      requires Working() && Known(name)
      modifies this`data, opd.nodes.Values, opd.Buffers()
      ensures Working() && View() == EnabledNode(old(View()), name, bootloader, now)
    {
      hide OpdNodes.Opd.View, OpdNodes.Opd.Apart, OpdNodes.Opd.Ordered, OpdNodes.Opd.NodesValid,
        Opds.Enabled;
      var node := data[name];
      if node.info.opdAddress == 0 { return; }
      if node.status != Off { return; }
      opd.CardKind(name);
      var boot := bootloader && opd.nodes[name].kind.Stm32?;
      opd.EnableCard(name, boot);
      if node.info.child.Some? {
        var child := node.info.child.value;
        opd.CardKind(child);
        opd.EnableCard(child, boot && opd.nodes[child].kind.Stm32?);
      }
      Store(name, node.(lastEnable := now));
    }

    method Disable(name: string)
      requires Working() && Known(name)
      modifies opd.nodes.Values, opd.Buffers()
      ensures Working() && View() == DisabledNode(old(View()), name)
    {
      hide OpdNodes.Opd.View, OpdNodes.Opd.Apart, OpdNodes.Opd.Ordered, OpdNodes.Opd.NodesValid,
        Opds.Disabled;
      var node := data[name];
      if node.info.opdAddress == 0 || node.status == Off || node.status == Dead { return; }
      if node.info.child.Some? {
        opd.DisableCard(node.info.child.value);
      }
      opd.DisableCard(name);
    }

    /** One node's turn in the second pass. */
    method ActOn(name: string, r: Readings)
      requires Working() && Known(name) && (name in opd.nodes ==> data[name].info.opdAddress != 0)
      modifies this`data, opd.nodes.Values, opd.Buffers()
      ensures Working() && View() == Acted(old(View()), name, r)
    {
      hide Prepared, Resolved;
      if name !in opd.nodes { return; }
      PreparedKeeps(View(), name, r);
      Prepare(name, r);
      Resolve(name, r);
    }

    method Prepare(name: string, r: Readings)
      requires Working() && Known(name) && name in opd.nodes && data[name].info.opdAddress != 0
      modifies this`data, opd.nodes.Values, opd.Buffers()
      ensures Working() && View() == Prepared(old(View()), name, r)
    {
      hide EnabledNode, Opds.Probed;
      if loops % 10 == 0 && data[name].status == NotFound {
        opd.FindCard(name);
      }
      if data[name].info.alwaysOn && data[name].status == Off {
        Enable(name, false, r.now);
      }
    }

    method Resolve(name: string, r: Readings)
      requires Working() && name in data && name in opd.nodes
      modifies this`data, opd.nodes.Values, opd.Buffers()
      ensures Working() && View() == Resolved(old(View()), name, r)
    {
      hide Opds.Disabled, Opds.ResetNode, Opds.EnabledRead, Opds.IsEnabled, OpdNodes.Opd.View, OpdNodes.Opd.Apart,
        OpdNodes.Opd.Ordered, OpdNodes.Opd.NodesValid;
      var node := data[name];
      if node.status == Dead {
        KeepOff(name);
      } else if node.status == Error {
        opd.ResetCard(name, 1);
        Store(name, node.(lastEnable := r.now, resets := node.resets + 1));
      } else if node.status == On || node.status == Off {
        Store(name, node.(resets := 0));
      }
    }

    /** A dead node's card is switched off if it reads as on. */
    method KeepOff(name: string)
      requires Working() && name in opd.nodes
      modifies opd.nodes.Values, opd.Buffers()
      ensures Working()
      ensures var d := old(opd.View());
        opd.View() == Opds.OnCard(d, name, if Opds.IsEnabled(d.cards[name]) then Opds.Disabled(d.cards[name])
                                           else Opds.EnabledRead(d.cards[name]))
    {
      hide Opds.Disabled, Opds.EnabledRead, Opds.IsEnabled, OpdNodes.Opd.View, OpdNodes.Opd.Apart,
        OpdNodes.Opd.Ordered, OpdNodes.Opd.NodesValid;
      ghost var c, d := opd.View().cards[name], opd.View();
      var enabled := opd.ReadEnabled(name);
      if enabled {
        EnabledReadOfOn(c);
        opd.DisableCard(name);
        OpdNodes.UpdatedTwice(d, name, c, Opds.Disabled(c));
      }
    }

    /** The branch for a satellite with no card found is never taken: the C3 itself is not counted. */
    method OnLoop(r: Readings)
      requires Valid()
      modifies this`data, this`loops, opd.nodes.Values, opd.Buffers()
      ensures Valid() && View() == Looped(old(View()), order, r)
    {
      hide Configured, ObservedAll, ActedAll, SameConfiguration, Looped, AfterFirstPass, Distinct;
      LoopSteps(View(), order, r);
      LoopedConfigured(View(), order, r);
      SetLoops(loops + 1);
      OrderNames(View(), order, 0);
      var notFound := FirstPass(r);
      if opd.status == Opds.OpdDead || opd.status == Opds.OpdDisabled {
        SetLoops(-1);
        return;
      }
      if notFound == |order| {
        assert false;
      }
      SecondPass(r);
    }

    method FirstPass(r: Readings) returns (notFound: nat)
      requires Valid() && order[0..] == order && forall n :: n in order ==> n in data
      modifies this`data, opd.nodes.Values, opd.Buffers()
      ensures Valid() && View() == ObservedAll(old(View()), order, order, r)
      ensures notFound < |order|
    {
      hide Configured, Observed, ObservedAll, SameConfiguration;
      notFound := 0;
      for i := 0 to |order|
        invariant Valid() && (forall n :: n in order[i..] ==> n in data)
        invariant ObservedAll(View(), order, order[i..], r) == ObservedAll(old(View()), order, order, r)
        invariant notFound <= i && (C3 in order[..i] ==> notFound < i)
      {
        var name := order[i];
        ObservedHead(View(), order, i, r);
        ConfiguredName(View(), order, name);
        assert order[..i + 1] == order[..i] + [name];
        var s := Observe(name, r);
        if name != C3 && s == NotFound {
          notFound := notFound + 1;
        }
      }
      OrderNames(View(), order, |order|);
      PassesEnd(View(), order, r);
      assert order[..|order|] == order;
    }

    /** One node's turn in the first pass. */
    method Observe(name: string, r: Readings) returns (s: NodeState)
      requires Working() && Known(name)
      modifies this`data, opd.nodes.Values, opd.Buffers()
      ensures Working() && View() == Observed(old(View()), name, r) && s == data[name].status
    {
      hide StateOf, ReadsCard, Opds.StatusRead;
      if name == C3 { return data[name].status; }
      s := GetNodeState(name, r);
      Store(name, data[name].(status := s));
    }

    method SecondPass(r: Readings)
      requires Valid() && order[0..] == order && forall n :: n in order ==> n in data
      modifies this`data, opd.nodes.Values, opd.Buffers()
      ensures Valid() && View() == ActedAll(old(View()), order, order, r)
    {
      hide Configured, Acted, ActedAll, SameConfiguration;
      for i := 0 to |order|
        invariant Valid() && (forall n :: n in order[i..] ==> n in data)
        invariant ActedAll(View(), order, order[i..], r) == ActedAll(old(View()), order, order, r)
      {
        ActedHead(View(), order, i, r);
        ConfiguredName(View(), order, order[i]);
        ActOn(order[i], r);
      }
      OrderNames(View(), order, |order|);
      PassesEnd(View(), order, r);
    }

    /** Requests other than on, off and bootloader change nothing. */
    method SetNodeStatus(name: string, value: int, now: real)
      requires Valid()
      modifies this`data, opd.nodes.Values, opd.Buffers()
      ensures Valid() && View() == StatusSet(old(View()), order, name, value, now)
    {
      hide Configured, EnabledNode, DisabledNode;
      StatusKeepsConfigured(View(), order, name, value, now);
      if name !in data { return; }
      ConfiguredName(View(), order, name);
      if value == 2 {
        Enable(name, false, now);
      } else if value == 0 {
        Disable(name);
      } else if value == 5 {
        Enable(name, true, now);
      }
    }

    method SetNodeUpdating(name: string, updating: bool, now: real)
      requires Valid()
      modifies this`data
      ensures Valid() && View() == UpdatingSet(old(View()), name, updating, now)
    {
      hide Configured;
      UpdatingKeepsConfigured(View(), order, name, updating, now);
      if name in data {
        var node := data[name].(updating := updating);
        if updating {
          node := node.(status := Updating);
        } else {
          node := node.(lastEnable := now);
        }
        Store(name, node);
      }
    }

    /** Switching the domain off marks its nodes not found; switching it on from off restarts their timeouts. */
    method SetOpdStatus(value: int, now: real)
      requires Valid()
      modifies this`data, opd, opd.nodes.Values, opd.Buffers()
      ensures Valid() && View() == OpdStatusSet(old(View()), value, now)
    {
      hide OpdNodes.Opd.View, OpdNodes.Opd.Apart, OpdNodes.Opd.Ordered, OpdNodes.Opd.NodesValid,
        Configured, Opds.PoweredUp, Opds.PoweredDown;
      OpdStatusKeepsConfigured(View(), order, value, now);
      if value == 0 {
        opd.Disable();
        Replace(map n | n in data :: if data[n].info.opdAddress != 0 then data[n].(status := NotFound) else data[n]);
      } else if value == 1 {
        if opd.status == Opds.OpdDisabled {
          Replace(map n | n in data :: data[n].(lastEnable := now));
        }
        var e := opd.Enable();
      }
    }

    method Replace(data: map<string, Node>)
      requires Working()
      modifies this`data
      ensures Working() && View() == old(View()).(data := data)
    {
      this.data := data;
      opd.NoCardChanged();
    }
  }

  /** A card that reads as switched on and has a chip answers. */
  lemma StatusReadAnswers(c: Opds.Card)
    ensures var a := Opds.StatusRead(c);
      a.kind == c.kind && (a.status == Opds.ENABLED && a.kind != Opds.Spr8 ==> a.responding)
  {
  }

  lemma EnabledReadOfOn(c: Opds.Card)
    requires Opds.IsEnabled(c)
    ensures Opds.EnabledRead(c) == c
  {
  }
}
