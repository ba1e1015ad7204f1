/** The power domain's objects: each operation of a card, and of the domain, as its specification says. */
module OpdNodes {
  import opened Octets
  import opened Max7310s
  import opened Opds

  class OpdNode {
    const kind: Kind
    const addr: int
    const chip: Max7310
    var status: NodeStatus
    var active: bool
    ghost var resets: nat

    ghost predicate Valid()
    {
      chip.Valid()
    }

    ghost function View(): Card
      requires Valid()
      reads this, chip, chip.regs
    {
      Card(kind, addr, status, chip.Values(), chip.responding, active, resets)
    }

    constructor (kind: Kind, addr: int, responding: bool)
      ensures Valid() && fresh(chip) && fresh(chip.regs)
      ensures View() == Card(kind, addr, if kind == Spr8 then DISABLED else NOT_FOUND,
                             [Mask(NOT_FAULT_PIN), 0x00, 0xF0, 0xFF, 0x01], responding, false, 0)
    {
      this.kind, this.addr, active, resets := kind, addr, false, 0;
      chip := new Max7310(Mask(NOT_FAULT_PIN), responding);
      status := if kind == Spr8 then DISABLED else NOT_FOUND;
    }

    method Configure()
      requires Valid()
      modifies this`status, this`active, chip.regs
      ensures Valid() && View() == Configured(old(View()))
    {
      if kind == Spr8 {
        active, status := false, DISABLED;
        return;
      }
      var e := chip.Configure(0, 0, Inputs(kind), 1);
      status := if e.None? then DISABLED else FAULT;
    }

    method Probe(reset: bool) returns (found: bool)
      requires Valid()
      modifies this`status, this`active, chip.regs
      ensures Valid() && View() == Probed(old(View()), reset) && found == Found(old(View()), View())
    {
      if kind == Spr8 { return true; }
      if status == DEAD { return false; }
      if chip.responding {
        if status == NOT_FOUND {
          Configure();
        }
        if reset {
          var e := chip.Reset();
          Configure();
        }
        status := DISABLED;
      } else if status != NOT_FOUND {
        status := NOT_FOUND;
      }
      found := status != NOT_FOUND;
    }

    /** What every card on the expander does to switch on. */
    method SwitchOn()
      requires Valid()
      modifies this`status, chip.regs
      ensures Valid() && View() == SwitchedOn(old(View()))
    {
      hide Set, Clear;
      if status == NOT_FOUND { return; }
      var e := chip.OutputSet([ENABLE_PIN]);
      status := if e.None? then ENABLED else FAULT;
    }

    method SwitchOff()
      requires Valid()
      modifies this`status, chip.regs
      ensures Valid() && View() == SwitchedOff(old(View()))
    {
      hide Set, Clear;
      var e := chip.OutputClear([ENABLE_PIN]);
      status := if e.None? then DISABLED else FAULT;
    }

    method SelectBoot(bootloader: bool) returns (e: Option<Error>)
      requires Valid() && (kind.Stm32? || kind.Mcxn?)
      modifies chip.regs
      ensures Valid() && e == if chip.responding then None else Some(NoResponse)
      ensures View() == if e.None? then BootSelected(old(View()), bootloader) else old(View())
    {
      hide Set, Clear;
      var configuration := if bootloader then BootloaderInputs(kind) else Inputs(kind);
      if kind.Stm32? && bootloader {
        e := chip.WriteReg(CONFIGURATION, configuration);
        if e.Some? { return; }
        e := chip.OutputSet([BOOT_PIN]);
      } else if kind.Stm32? || bootloader {
        e := chip.OutputClear([BOOT_PIN]);
        if e.Some? { return; }
        e := chip.WriteReg(CONFIGURATION, configuration);
      } else {
        e := chip.WriteReg(CONFIGURATION, configuration);
        if e.Some? { return; }
        e := chip.OutputSet([BOOT_PIN]);
      }
    }

    /** The bootloader flag matters to STM32 and MCXN cards only. */
    method Enable(bootloader: bool)
      requires Valid()
      modifies this`status, this`active, chip.regs
      ensures Valid() && View() == Enabled(old(View()), bootloader)
    {
      hide Set, Clear, BootSelected;
      if kind == Spr8 {
        active, status := true, ENABLED;
        return;
      }
      if kind == Octavo {
        var e := chip.OutputSet([BOOT_PIN]);
        if e.Some? {
          status := FAULT;
          return;
        }
      } else if kind.Stm32? || kind.Mcxn? {
        var e := SelectBoot(bootloader);
        if e.Some? {
          status := FAULT;
          return;
        }
      }
      SwitchOn();
    }

    method Disable()
      requires Valid()
      modifies this`status, this`active, chip.regs
      ensures Valid() && View() == Disabled(old(View()))
    {
      hide Set, Clear, BootSelected;
      if kind == Spr8 {
        active, status := false, DISABLED;
        return;
      }
      if kind.Stm32? || kind.Mcxn? {
        var e := SelectBoot(false);
      }
      SwitchOff();
    }

    method Reset(attempts: int)
      requires Valid()
      modifies this`status, this`active, this`resets, chip.regs
      ensures Valid() && View() == ResetNode(old(View()), attempts)
    {
      hide Set, Clear, Bit;
      resets := resets + 1;
      if kind == Spr8 {
        active, status := true, ENABLED;
        return;
      }
      ghost var c := View();
      PulseOnce(Output(c));
      var i := 0;
      while i < attempts
        invariant 0 <= i && Valid() && active == old(active)
        invariant i > attempts ==> i == 0
        invariant View() == ResetNode(old(View()), i)
        invariant i > 0 ==> View().status == FAULT
      {
        var e := chip.OutputSet([CB_RESET_PIN]);
        if e.None? {
          e := chip.OutputClear([CB_RESET_PIN]);
          assert View().regs == WithOutput(c, Clear(Set(Output(c), [CB_RESET_PIN]), [CB_RESET_PIN])).regs;
          var fault := Fault();
          if fault {
            status := FAULT;
          } else {
            status := ENABLED;
            return;
          }
        } else {
          status := FAULT;
        }
        i := i + 1;
      }
    }

    method Fault() returns (fault: bool)
      requires Valid() && chip.responding
      ensures fault == Faulted(View())
    {
      if addr == 0x18 || addr == 0x1F { return false; }
      var input := chip.InputStatus(NOT_FAULT_PIN);
      fault := !input.value;
    }

    method EnableUart()
      requires Valid()
      modifies this`status, chip.regs
      ensures Valid() && View() == UartEnabled(old(View()))
    {
      hide Set, Clear;
      if HasUart(kind) {
        var e := chip.OutputSet([UART_PIN]);
        if e.Some? {
          status := FAULT;
        }
      }
    }

    method DisableUart()
      requires Valid()
      modifies this`status, chip.regs
      ensures Valid() && View() == UartDisabled(old(View()))
    {
      hide Set, Clear;
      if HasUart(kind) {
        var e := chip.OutputClear([UART_PIN]);
        if e.Some? {
          status := FAULT;
        }
      }
    }

    /** `is_enabled`: reading it from a card that does not answer marks the card. */
    method IsOn() returns (enabled: bool)
      requires Valid()
      modifies this`status
      ensures Valid() && View() == EnabledRead(old(View())) && enabled == IsEnabled(old(View()))
    {
      hide Bit;
      if kind == Spr8 { return status == ENABLED; }
      var pin := chip.OutputStatus(ENABLE_PIN);
      enabled := pin.Ok? && pin.value;
      if pin.Err? && status != NOT_FOUND {
        status := FAULT;
      }
    }

    method Status() returns (s: NodeStatus)
      requires Valid()
      modifies this`status
      ensures Valid() && View() == StatusRead(old(View())) && s == View().status
    {
      hide Bit;
      if kind != Spr8 {
        if !chip.responding {
          status := NOT_FOUND;
        } else {
          var enabled := chip.OutputStatus(ENABLE_PIN);
          if enabled.value {
            var fault := Fault();
            if fault {
              status := FAULT;
            }
          }
        }
      }
      s := status;
    }
  }

  /** Pulsing the reset pin again leaves the same output. */
  lemma PulseOnce(output: bv8)
    ensures var p := Clear(Set(output, [CB_RESET_PIN]), [CB_RESET_PIN]);
      Clear(Set(p, [CB_RESET_PIN]), [CB_RESET_PIN]) == p
  {
    hide MaskOf;
    SetClearTwice(output, MaskOf([CB_RESET_PIN]));
  }

  lemma SetClearTwice(output: bv8, m: bv8)
    ensures (((output | m) & !m) | m) & !m == (output | m) & !m
  {
  }

  /** A card after each name of a list has been visited. */
  function Visited(cards: map<string, Card>, names: seq<string>, visit: Card -> Card): (r: map<string, Card>)
    requires forall n :: n in names ==> n in cards
    ensures r.Keys == cards.Keys
  {
    if names == [] then cards
    else
      var n := names[|names| - 1];
      assert n in names;
      var before := Visited(cards, names[..|names| - 1], visit);
      before[n := visit(before[n])]
  }

  lemma {:induction false} VisitedEach(cards: map<string, Card>, names: seq<string>, visit: Card -> Card)
    requires forall n :: n in names ==> n in cards
    requires forall i, j :: 0 <= i < j < |names| ==> names[i] != names[j]
    ensures forall n :: n in cards ==>
              Visited(cards, names, visit)[n] == if n in names then visit(cards[n]) else cards[n]
  {
    if names == [] {
    } else {
      var k := |names| - 1;
      VisitedEach(cards, names[..k], visit);
      assert names == names[..k] + [names[k]];
      assert names[k] !in names[..k];
    }
  }

  function ProbeWith(reset: bool): Card -> Card
  {
    c => Probed(c, reset)
  }

  /** How many of the named cards a scan finds. */
  function FoundCount(cards: map<string, Card>, names: seq<string>, reset: bool): nat
    requires forall n :: n in names ==> n in cards
  {
    if names == [] then 0
    else
      var n := names[|names| - 1];
      assert n in names;
      FoundCount(cards, names[..|names| - 1], reset) + if Found(cards[n], Probed(cards[n], reset)) then 1 else 0
  }

  /** SPARE_8, and every card that answers and was not given up as dead. */
  predicate Answers(c: Card)
  {
    c.kind == Spr8 || (c.responding && c.status != DEAD)
  }

  lemma FoundIff(c: Card, reset: bool)
    ensures Found(c, Probed(c, reset)) <==> Answers(c)
  {
  }

  function Answering(cards: map<string, Card>, names: seq<string>): set<string>
    requires forall n :: n in names ==> n in cards
  {
    set n | n in names && Answers(cards[n])
  }

  lemma AnsweringGrows(cards: map<string, Card>, names: seq<string>)
    requires names != [] && forall n :: n in names ==> n in cards
    requires forall i, j :: 0 <= i < j < |names| ==> names[i] != names[j]
    ensures var k := |names| - 1;
      (forall n :: n in names[..k] ==> n in cards) && names[k] !in Answering(cards, names[..k]) &&
      Answering(cards, names) ==
        if Answers(cards[names[k]]) then Answering(cards, names[..k]) + {names[k]} else Answering(cards, names[..k])
  {
    hide Answers;
    assert names == names[..|names| - 1] + [names[|names| - 1]];
  }

  /** A scan counts the cards that answer. */
  lemma {:induction false} FoundCountIs(cards: map<string, Card>, names: seq<string>, reset: bool)
    requires forall n :: n in names ==> n in cards
    requires forall i, j :: 0 <= i < j < |names| ==> names[i] != names[j]
    ensures FoundCount(cards, names, reset) == |Answering(cards, names)|
  {
    hide Found, Probed, Answers;
    if names == [] {
    } else {
      hide Answering;
      AnsweringGrows(cards, names);
      FoundCountIs(cards, names[..|names| - 1], reset);
      FoundIff(cards[names[|names| - 1]], reset);
    }
  }

  lemma UpdatedTwice(d: Domain, name: string, a: Card, b: Card)
    ensures OnCard(OnCard(d, name, a), name, b) == OnCard(d, name, b)
  {
  }

  class Opd {
    const nodes: map<string, OpdNode>
    const order: seq<string>
    var uartNode: Option<string>
    var status: OpdState

    /** No two cards share an object. */
    ghost predicate Apart()
    {
      forall a, b :: a in nodes && b in nodes && a != b ==>
        nodes[a] != nodes[b] && nodes[a].chip != nodes[b].chip && nodes[a].chip.regs != nodes[b].chip.regs
    }

    /** The cards are visited in the order they were added. */
    ghost predicate Ordered()
    {
      (forall n :: n in nodes <==> n in order) && forall i, j :: 0 <= i < j < |order| ==> order[i] != order[j]
    }

    ghost predicate NodesValid()
    {
      forall n :: n in nodes ==> nodes[n].Valid()
    }

    ghost predicate Valid()
      reads this
    {
      NodesValid() && Apart() && Ordered() && (uartNode.Some? ==> uartNode.value in nodes)
    }

    ghost function Chips(): set<object>
    {
      set n | n in nodes :: nodes[n].chip
    }

    ghost function Buffers(): set<object>
    {
      set n | n in nodes :: nodes[n].chip.regs
    }

    ghost function Cards(): (r: map<string, Card>)
      requires NodesValid()
      reads nodes.Values, Chips(), Buffers()
      ensures r.Keys == nodes.Keys && forall n :: n in nodes ==> r[n] == nodes[n].View()
    {
      map n | n in nodes :: nodes[n].View()
    }

    ghost function View(): (d: Domain)
      requires Valid()
      reads this, nodes.Values, Chips(), Buffers()
      ensures ValidDomain(d) && d.cards.Keys == nodes.Keys && d.uart == uartNode && d.status == status
    {
      Domain(Cards(), uartNode, status)
    }

    /** The cards of a configuration, each under its name, in the order they were added. */
    constructor (nodes: map<string, OpdNode>, order: seq<string>)
      requires forall n :: n in nodes ==> nodes[n].Valid()
      requires forall a, b :: a in nodes && b in nodes && a != b ==>
                 nodes[a] != nodes[b] && nodes[a].chip != nodes[b].chip && nodes[a].chip.regs != nodes[b].chip.regs
      requires forall n :: n in nodes <==> n in order
      requires forall i, j :: 0 <= i < j < |order| ==> order[i] != order[j]
      ensures Valid() && this.nodes == nodes && this.order == order
      ensures View().uart == None && View().status == OpdDisabled
    {
      this.nodes, this.order, uartNode, status := nodes, order, None, OpdDisabled;
    }

    /** An operation on one card's objects changes that card and no other. */
    twostate lemma OneCardChanged(name: string)
      requires NodesValid() && Apart() && name in nodes
      requires forall n :: n in nodes && n != name ==>
                 unchanged(nodes[n]) && unchanged(nodes[n].chip) && unchanged(nodes[n].chip.regs)
      ensures NodesValid() && Cards() == old(Cards())[name := nodes[name].View()]
    {
      forall n | n in nodes && n != name
        ensures nodes[n].View() == old(nodes[n].View())
      {
      }
    }

    /** Selecting a card or switching the domain touches no card. */
    twostate lemma NoCardChanged()
      requires NodesValid()
      requires forall n :: n in nodes ==>
                 unchanged(nodes[n]) && unchanged(nodes[n].chip) && unchanged(nodes[n].chip.regs)
      ensures Cards() == old(Cards())
    {
      forall n | n in nodes
        ensures nodes[n].View() == old(nodes[n].View())
      {
      }
    }

    /** The selection changes, and nothing else. */
    method Select(name: Option<string>)
      requires Valid() && (name.Some? ==> name.value in nodes)
      modifies this`uartNode
      ensures Valid() && View() == old(View()).(uart := name)
    {
      uartNode := name;
      NoCardChanged();
    }

    method Switch(to: OpdState)
      requires Valid()
      modifies this`status
      ensures Valid() && View() == old(View()).(status := to)
    {
      status := to;
      NoCardChanged();
    }

    lemma CardKind(name: string)
      requires Valid() && name in nodes
      ensures View().cards[name].kind == nodes[name].kind
    {
    }

    method ProbeCard(name: string, reset: bool) returns (found: bool)
      requires NodesValid() && Apart() && name in nodes
      modifies nodes[name], nodes[name].chip.regs
      ensures NodesValid() && Cards() == old(Cards())[name := Probed(old(Cards())[name], reset)]
      ensures found == Found(old(Cards())[name], Probed(old(Cards())[name], reset))
    {
      hide Probed, Found;
      found := nodes[name].Probe(reset);
      OneCardChanged(name);
    }

    method DisableIfFound(name: string)
      requires NodesValid() && Apart() && name in nodes
      modifies nodes[name], nodes[name].chip.regs
      ensures NodesValid() && Cards() == old(Cards())[name := DisabledIfFound(old(Cards())[name])]
    {
      hide StatusRead, Disabled;
      var s := nodes[name].Status();
      if s != NOT_FOUND {
        nodes[name].Disable();
      }
      OneCardChanged(name);
    }

    method ReadStatus(name: string) returns (s: NodeStatus)
      requires Valid() && name in nodes
      modifies nodes[name]
      ensures Valid() && View() == OnCard(old(View()), name, StatusRead(old(View()).cards[name]))
      ensures s == View().cards[name].status
    {
      hide StatusRead, Cards;
      s := nodes[name].Status();
      OneCardChanged(name);
    }

    method EnableCard(name: string, bootloader: bool)
      requires Valid() && name in nodes
      modifies nodes[name], nodes[name].chip.regs
      ensures Valid() && View() == OnCard(old(View()), name, Enabled(old(View()).cards[name], bootloader))
    {
      hide Enabled, Cards;
      nodes[name].Enable(bootloader);
      OneCardChanged(name);
    }

    method DisableCard(name: string)
      requires Valid() && name in nodes
      modifies nodes[name], nodes[name].chip.regs
      ensures Valid() && View() == OnCard(old(View()), name, Disabled(old(View()).cards[name]))
    {
      hide Disabled, Cards;
      nodes[name].Disable();
      OneCardChanged(name);
    }

    method ResetCard(name: string, attempts: int)
      requires Valid() && name in nodes
      modifies nodes[name], nodes[name].chip.regs
      ensures Valid() && View() == OnCard(old(View()), name, ResetNode(old(View()).cards[name], attempts))
    {
      hide ResetNode, Cards;
      nodes[name].Reset(attempts);
      OneCardChanged(name);
    }

    method FindCard(name: string)
      requires Valid() && name in nodes
      modifies nodes[name], nodes[name].chip.regs
      ensures Valid() && View() == OnCard(old(View()), name, Probed(old(View()).cards[name], true))
    {
      hide Probed, Found, Cards;
      var found := nodes[name].Probe(true);
      OneCardChanged(name);
    }

    method ReadEnabled(name: string) returns (enabled: bool)
      requires Valid() && name in nodes
      modifies nodes[name]
      ensures Valid() && View() == OnCard(old(View()), name, EnabledRead(old(View()).cards[name]))
      ensures enabled == IsEnabled(old(View()).cards[name])
    {
      hide EnabledRead, IsEnabled, Cards;
      enabled := nodes[name].IsOn();
      OneCardChanged(name);
    }

    /** `in_bootloader_mode` of an STM32 card that answers. */
    method ReadBootPin(name: string) returns (high: bool)
      requires Valid() && name in nodes && View().cards[name].responding
      ensures high == Bit(Output(View().cards[name]), BOOT_PIN)
    {
      var pin := nodes[name].chip.OutputStatus(BOOT_PIN);
      high := pin.value;
    }

    method Connect(name: string)
      requires Valid() && name in nodes
      modifies nodes[name], nodes[name].chip.regs
      ensures Valid() && View() == OnCard(old(View()), name, UartEnabled(old(View()).cards[name]))
    {
      hide UartEnabled, Cards;
      nodes[name].EnableUart();
      OneCardChanged(name);
    }

    method Release(name: string)
      requires Valid() && name in nodes
      modifies nodes[name], nodes[name].chip.regs
      ensures Valid() && View() == OnCard(old(View()), name, UartDisabled(old(View()).cards[name]))
    {
      hide UartDisabled, Cards;
      nodes[name].DisableUart();
      OneCardChanged(name);
    }

    lemma InOrder(i: nat)
      requires Ordered() && i < |order|
      ensures order[i] in nodes && nodes[order[i]] in nodes.Values && nodes[order[i]].chip.regs in Buffers()
      ensures forall n :: n in order[..i] ==> n in nodes
      ensures order[..i + 1][..i] == order[..i] && forall n :: n in order[..i + 1] ==> n in nodes
    {
      assert order[i] in order;
    }

    lemma ProbedAll(cards: map<string, Card>, reset: bool)
      requires Ordered() && cards.Keys == nodes.Keys
      ensures (forall n :: n in order ==> n in cards) && order[..|order|] == order
      ensures Visited(cards, order, ProbeWith(reset)) == AllProbed(cards, reset)
    {
      hide Probed, Visited;
      VisitedEach(cards, order, ProbeWith(reset));
    }

    lemma DisabledAll(cards: map<string, Card>)
      requires Ordered() && cards.Keys == nodes.Keys
      ensures (forall n :: n in order ==> n in cards) && order[..|order|] == order
      ensures Visited(cards, order, Opds.DisabledIfFound) == AllDisabled(cards)
    {
      hide DisabledIfFound, Visited;
      VisitedEach(cards, order, Opds.DisabledIfFound);
    }

    lemma NotYetVisited(cards: map<string, Card>, i: nat, visit: Card -> Card)
      requires Ordered() && cards.Keys == nodes.Keys && i < |order|
      ensures (forall n :: n in order[..i] ==> n in cards) && order[i] in cards
      ensures Visited(cards, order[..i], visit)[order[i]] == cards[order[i]]
    {
      VisitedEach(cards, order[..i], visit);
    }

    method Scan(reset: bool) returns (count: nat)
      requires Valid()
      modifies nodes.Values, Buffers()
      ensures Valid() && View() == Scanned(old(View()), reset)
      ensures (forall n :: n in order ==> n in nodes) && count == FoundCount(old(View()).cards, order, reset)
    {
      hide Probed, Found, Apart, Ordered, NodesValid, Cards, AllProbed;
      count := 0;
      ghost var before := Cards();
      ghost var visit := ProbeWith(reset);
      for i := 0 to |order|
        invariant NodesValid()
        invariant forall n :: n in order[..i] ==> n in before
        invariant count == FoundCount(before, order[..i], reset)
        invariant Cards() == Visited(before, order[..i], visit)
      {
        InOrder(i);
        NotYetVisited(before, i, visit);
        var found := ProbeCard(order[i], reset);
        if found {
          count := count + 1;
        }
      }
      ProbedAll(before, reset);
    }

    method Enable() returns (e: Option<OpdError>)
      requires Valid()
      modifies this`status, nodes.Values, Buffers()
      ensures Valid() && View() == PoweredUp(old(View()))
      ensures e == if old(status) == OpdDead then Some(SubsystemDead) else None
    {
      hide Scanned, Apart, Ordered, NodesValid, Cards;
      if status == OpdDead { return Some(SubsystemDead); }
      e := None;
      if status == OpdEnabled || status == OpdFault { return; }
      Switch(OpdEnabled);
      var count := Scan(true);
    }

    method DisableCards()
      requires Valid()
      modifies nodes.Values, Buffers()
      ensures Valid() && View() == old(View()).(cards := AllDisabled(old(View()).cards))
    {
      hide DisabledIfFound, AllDisabled, Apart, Ordered, NodesValid, Cards;
      ghost var before := Cards();
      for i := 0 to |order|
        invariant NodesValid()
        invariant forall n :: n in order[..i] ==> n in before
        invariant Cards() == Visited(before, order[..i], Opds.DisabledIfFound)
      {
        InOrder(i);
        DisableIfFound(order[i]);
      }
      DisabledAll(before);
    }

    method Disable()
      requires Valid()
      modifies this`status, this`uartNode, nodes.Values, Buffers()
      ensures Valid() && View() == PoweredDown(old(View()))
    {
      hide Disconnected, AllDisabled, View, Apart, Ordered, NodesValid, Cards;
      DisableCards();
      UartDisconnect();
      Switch(OpdDisabled);
    }

    method UartDisconnect()
      requires Valid()
      modifies this`uartNode, nodes.Values, Buffers()
      ensures Valid() && View() == Disconnected(old(View()))
    {
      hide UartDisabled, View, Apart, Ordered, NodesValid;
      if uartNode.Some? {
        Release(uartNode.value);
        Select(None);
      }
    }

    method UartNode() returns (name: Option<string>)
      requires Valid()
      modifies this`uartNode, nodes.Values, Buffers()
      ensures Valid() && View() == UartRead(old(View())) && name == uartNode
    {
      hide StatusRead, Disconnected, View, Apart, Ordered, NodesValid;
      if uartNode.Some? {
        var s := ReadStatus(uartNode.value);
        if s == NOT_FOUND {
          UartDisconnect();
        }
      }
      name := uartNode;
    }

    /** An unknown name raises, after the selected card has been let go. */
    method SetUartNode(name: Option<string>) returns (e: Option<OpdError>)
      requires Valid()
      modifies this`uartNode, nodes.Values, Buffers()
      ensures Valid() && View() == UartSelected(old(View()), name)
      ensures e == if name.Some? && name.value !in nodes then Some(NoSuchCard) else None
    {
      hide StatusRead, UartEnabled, Disconnected, View, Apart, Ordered, NodesValid;
      UartDisconnect();
      ghost var d := View();
      if name.None? { return None; }
      if name.value !in nodes { return Some(NoSuchCard); }
      e := None;
      var s := ReadStatus(name.value);
      if s == NOT_FOUND { return; }
      Connect(name.value);
      UpdatedTwice(d, name.value, StatusRead(d.cards[name.value]), View().cards[name.value]);
      Select(name);
    }
  }
}
