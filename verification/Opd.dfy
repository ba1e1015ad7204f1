/**
 The OreSat power domain: cards that are switched through their GPIO expanders, of which at most one
 may be connected to the C3's UART.
 */
module Opds {
  import opened Octets
  import opened Max7310s

  const NOT_FAULT_PIN := 2
  const ENABLE_PIN := 3
  const CB_RESET_PIN := 4
  const BOOT_PIN := 5
  const UART_PIN := 7

  datatype Kind = Plain | Stm32 | Mcxn | Octavo | Spr8
  datatype NodeStatus = DISABLED | ENABLED | FAULT | DEAD | NOT_FOUND
  datatype OpdState = OpdDisabled | OpdEnabled | OpdFault | OpdDead
  datatype OpdError = NoSuchCard | SubsystemDead

  // ----- one card -----

  /** A card: its status, its chip's registers, for SPARE_8 the line that switches it, and how often it was reset. */
  datatype Card = Card(
    kind: Kind,
    addr: int,
    status: NodeStatus,
    regs: Regs,
    responding: bool,
    active: bool,
    resets: nat)

  function Output(c: Card): bv8
  {
    c.regs[OUTPUT_PORT]
  }

  function WithOutput(c: Card, value: bv8): Card
  {
    c.(regs := c.regs[OUTPUT_PORT := value])
  }

  function WithConfiguration(c: Card, value: bv8): Card
  {
    c.(regs := c.regs[CONFIGURATION := value])
  }

  /** The pins that are inputs while the card runs its application. */
  function Inputs(kind: Kind): bv8
  {
    match kind
    case Stm32 => 0x27
    case Mcxn => 0x07
    case _ => 0x04
  }

  function BootloaderInputs(kind: Kind): bv8
  {
    if kind == Stm32 then 0x07 else 0x27
  }

  predicate HasUart(kind: Kind)
  {
    kind.Stm32? || kind.Mcxn? || kind.Octavo?
  }

  predicate EnablePinSet(c: Card)
  {
    Bit(Output(c), ENABLE_PIN)
  }

  predicate UartPinSet(c: Card)
  {
    Bit(Output(c), UART_PIN)
  }

  /** `fault` of a card that answers: two addresses never report one. */
  predicate Faulted(c: Card)
  {
    c.addr != 0x18 && c.addr != 0x1F && !Bit(c.regs[INPUT_PORT], NOT_FAULT_PIN)
  }

  function Configured(c: Card): Card
  {
    if c.kind == Spr8 then c.(active := false, status := DISABLED)
    else if c.responding then c.(regs := [c.regs[0], 0, 0, Inputs(c.kind), 1], status := DISABLED)
    else c.(status := FAULT)
  }

  function Probed(c: Card, reset: bool): Card
  {
    if c.kind == Spr8 || c.status == DEAD then c
    else if c.responding then
      if reset || c.status == NOT_FOUND then Configured(c) else c.(status := DISABLED)
    else c.(status := NOT_FOUND)
  }

  predicate Found(c: Card, after: Card)
  {
    c.kind == Spr8 || (c.status != DEAD && after.status != NOT_FOUND)
  }

  function SwitchedOn(c: Card): Card
  {
    if c.status == NOT_FOUND then c
    else if c.responding then WithOutput(c, Set(Output(c), [ENABLE_PIN])).(status := ENABLED)
    else c.(status := FAULT)
  }

  /** The boot pin's level and direction: driven high to boot an STM32's bootloader or an MCXN's application. */
  function BootSelected(c: Card, bootloader: bool): Card
    requires c.kind.Stm32? || c.kind.Mcxn?
  {
    var high := c.kind.Stm32? <==> bootloader;
    WithConfiguration(WithOutput(c, if high then Set(Output(c), [BOOT_PIN]) else Clear(Output(c), [BOOT_PIN])),
                      if bootloader then BootloaderInputs(c.kind) else Inputs(c.kind))
  }

  function Enabled(c: Card, bootloader: bool): Card
  {
    match c.kind
    case Spr8 => c.(active := true, status := ENABLED)
    case Plain => SwitchedOn(c)
    case Octavo =>
      if !c.responding then c.(status := FAULT)
      else SwitchedOn(WithOutput(c, Set(Output(c), [BOOT_PIN])))
    case _ =>
      if !c.responding then c.(status := FAULT) else SwitchedOn(BootSelected(c, bootloader))
  }

  function SwitchedOff(c: Card): Card
  {
    if c.responding then WithOutput(c, Clear(Output(c), [ENABLE_PIN])).(status := DISABLED)
    else c.(status := FAULT)
  }

  function Disabled(c: Card): Card
  {
    if c.kind == Spr8 then c.(active := false, status := DISABLED)
    else SwitchedOff(if c.responding && (c.kind.Stm32? || c.kind.Mcxn?) then BootSelected(c, false) else c)
  }

  function ResetNode(c: Card, attempts: int): Card
  {
    Pulsed(c.(resets := c.resets + 1), attempts)
  }

  /** A reset pulses the circuit breaker's pin; its attempts end at the first without a fault. */
  function Pulsed(c: Card, attempts: int): Card
  {
    if c.kind == Spr8 then c.(active := true, status := ENABLED)
    else if attempts <= 0 then c
    else if !c.responding then c.(status := FAULT)
    else WithOutput(c, Clear(Set(Output(c), [CB_RESET_PIN]), [CB_RESET_PIN]))
           .(status := if Faulted(c) then FAULT else ENABLED)
  }

  function UartEnabled(c: Card): Card
  {
    if !HasUart(c.kind) then c
    else if c.responding then WithOutput(c, Set(Output(c), [UART_PIN]))
    else c.(status := FAULT)
  }

  function UartDisabled(c: Card): Card
  {
    if !HasUart(c.kind) then c
    else if c.responding then WithOutput(c, Clear(Output(c), [UART_PIN]))
    else c.(status := FAULT)
  }

  /** Reading a card's status also brings it up to date. */
  function StatusRead(c: Card): Card
  {
    if c.kind == Spr8 then c
    else if !c.responding then c.(status := NOT_FOUND)
    else if EnablePinSet(c) && Faulted(c) then c.(status := FAULT)
    else c
  }

  /** `is_enabled`: a card that does not answer reads as off. */
  predicate IsEnabled(c: Card)
  {
    if c.kind.Spr8? then c.status == ENABLED else c.responding && EnablePinSet(c)
  }

  /** What reading `is_enabled` leaves of the card. */
  function EnabledRead(c: Card): Card
  {
    if c.kind.Spr8? || c.responding || c.status == NOT_FOUND then c else c.(status := FAULT)
  }

  // ----- the domain -----

  datatype Domain = Domain(cards: map<string, Card>, uart: Option<string>, status: OpdState)

  /** The selected card is one of the domain's. */
  predicate ValidDomain(d: Domain)
  {
    d.uart.Some? ==> d.uart.value in d.cards
  }

  function OnCard(d: Domain, name: string, card: Card): Domain
  {
    d.(cards := d.cards[name := card])
  }

  function Disconnected(d: Domain): Domain
    requires ValidDomain(d)
  {
    if d.uart.None? then d
    else OnCard(d, d.uart.value, UartDisabled(d.cards[d.uart.value])).(uart := None)
  }

  function UartRead(d: Domain): Domain
    requires ValidDomain(d)
  {
    if d.uart.None? then d
    else
      var c := StatusRead(d.cards[d.uart.value]);
      var e := OnCard(d, d.uart.value, c);
      if c.status == NOT_FOUND then Disconnected(e) else e
  }

  function UartSelected(d0: Domain, name: Option<string>): Domain
    requires ValidDomain(d0)
  {
    var d := Disconnected(d0);
    if name.None? || name.value !in d.cards then d
    else
      var c := StatusRead(d.cards[name.value]);
      if c.status == NOT_FOUND then OnCard(d, name.value, c)
      else OnCard(d, name.value, UartEnabled(c)).(uart := name)
  }

  function DisabledIfFound(c: Card): Card
  {
    var r := StatusRead(c);
    if r.status != NOT_FOUND then Disabled(r) else r
  }

  function AllProbed(cards: map<string, Card>, reset: bool): map<string, Card>
  {
    map n | n in cards :: Probed(cards[n], reset)
  }

  function AllDisabled(cards: map<string, Card>): map<string, Card>
  {
    map n | n in cards :: DisabledIfFound(cards[n])
  }

  function Scanned(d: Domain, reset: bool): Domain
  {
    d.(cards := AllProbed(d.cards, reset))
  }

  function PoweredDown(d: Domain): Domain
    requires ValidDomain(d)
  {
    Disconnected(d.(cards := AllDisabled(d.cards))).(status := OpdDisabled)
  }

  function PoweredUp(d: Domain): Domain
  {
    if d.status == OpdDisabled then Scanned(d.(status := OpdEnabled), true) else d
  }

  // ----- every run -----

  /** Outside: a chip starts or stops answering, or its input lines change. */
  datatype Event =
    | PowerUp
    | PowerDown
    | Scan(reset: bool)
    | SelectUart(card: Option<string>)
    | ReadUart
    | Configure(name: string)
    | Probe(name: string, reset: bool)
    | Enable(name: string, bootloader: bool)
    | Disable(name: string)
    | Reset(name: string, attempts: int)
    | ReadStatus(name: string)
    | Outside(name: string, responding: bool, input: bv8)

  function OneCard(c: Card, e: Event): Card
  {
    match e
    case Configure(_) => Configured(c)
    case Probe(_, reset) => Probed(c, reset)
    case Enable(_, bootloader) => Enabled(c, bootloader)
    case Disable(_) => Disabled(c)
    case Reset(_, attempts) => ResetNode(c, attempts)
    case ReadStatus(_) => StatusRead(c)
    case Outside(_, responding, input) => c.(responding := responding, regs := c.regs[INPUT_PORT := input])
    case _ => c
  }

  function Step(d: Domain, e: Event): Domain
    requires ValidDomain(d)
  {
    match e
    case PowerUp => PoweredUp(d)
    case PowerDown => PoweredDown(d)
    case Scan(reset) => Scanned(d, reset)
    case SelectUart(name) => UartSelected(d, name)
    case ReadUart => UartRead(d)
    case _ => if e.name in d.cards then OnCard(d, e.name, OneCard(d.cards[e.name], e)) else d
  }

  function Run(d: Domain, events: seq<Event>): (r: Domain)
    requires ValidDomain(d)
    ensures ValidDomain(r)
  {
    if events == [] then d
    else
      var before := Run(d, events[..|events| - 1]);
      StepKeepsValid(before, events[|events| - 1]);
      Step(before, events[|events| - 1])
  }

  lemma StepKeepsValid(d: Domain, e: Event)
    requires ValidDomain(d)
    ensures ValidDomain(Step(d, e)) && Step(d, e).cards.Keys == d.cards.Keys
  {
    hide Probed, DisabledIfFound, OneCard, UartDisabled, UartEnabled, StatusRead;
  }

  // ----- UART exclusivity -----

  predicate Connected(c: Card)
  {
    c.kind != Spr8 && UartPinSet(c)
  }

  /** Every connected card is the selected one. */
  predicate Exclusive(d: Domain)
  {
    forall n :: n in d.cards && Connected(d.cards[n]) ==> d.uart == Some(n)
  }

  /** A card that cannot be on the UART has its pin clear. */
  predicate OnlyUartCards(d: Domain)
  {
    forall n :: n in d.cards && Connected(d.cards[n]) ==> HasUart(d.cards[n].kind)
  }

  /** The event lets go of a connected card that does not answer. */
  predicate Leaks(d: Domain, e: Event)
    requires ValidDomain(d)
  {
    (e.SelectUart? || e.ReadUart? || e.PowerDown?) && d.uart.Some? &&
    Connected(d.cards[d.uart.value]) && !d.cards[d.uart.value].responding
  }

  lemma PinsApart(value: bv8, pin: int)
    requires IsPin(pin) && pin != UART_PIN
    ensures Bit(Set(value, [pin]), UART_PIN) == Bit(value, UART_PIN) == Bit(Clear(value, [pin]), UART_PIN)
  {
    hide Set, Clear, Bit;
    SetAndClearBits(value, [pin], UART_PIN);
  }

  lemma UartPin(value: bv8)
    ensures Bit(Set(value, [UART_PIN]), UART_PIN) && !Bit(Clear(value, [UART_PIN]), UART_PIN)
  {
    hide Set, Clear, Bit;
    SetAndClearBits(value, [UART_PIN], UART_PIN);
  }

  /** No operation on one card, other than those of the UART, sets its UART pin. */
  lemma NoOtherSetsUartPin(c: Card, e: Event)
    ensures var a := OneCard(c, e);
      a.kind == c.kind && a.addr == c.addr && (UartPinSet(a) ==> UartPinSet(c))
  {
    match e
    case Enable(_, bootloader) => EnableKeepsUartPin(c, bootloader);
    case Disable(_) => DisableKeepsUartPin(c);
    case Reset(_, attempts) => ResetKeepsUartPin(c, attempts);
    case Configure(_) => ConfigureClearsUartPin(c);
    case Probe(_, reset) => ProbeKeepsUartPin(c, reset);
    case _ =>
  }

  lemma ConfigureClearsUartPin(c: Card)
    ensures UartPinSet(Configured(c)) ==> UartPinSet(c)
    ensures c.kind != Spr8 && c.responding ==> !UartPinSet(Configured(c))
  {
  }

  lemma ProbeKeepsUartPin(c: Card, reset: bool)
    ensures UartPinSet(Probed(c, reset)) ==> UartPinSet(c)
    ensures Probed(c, reset).kind == c.kind && Probed(c, reset).responding == c.responding
    ensures c.kind != Spr8 && c.responding && reset && c.status != DEAD ==> !UartPinSet(Probed(c, reset))
  {
    hide Bit;
    ConfigureClearsUartPin(c);
  }

  lemma SwitchKeepsUartPin(c: Card)
    ensures UartPinSet(SwitchedOn(c)) == UartPinSet(c) == UartPinSet(SwitchedOff(c))
  {
    hide Set, Clear, Bit;
    PinsApart(Output(c), ENABLE_PIN);
  }

  lemma BootKeepsUartPin(c: Card, bootloader: bool)
    requires c.kind.Stm32? || c.kind.Mcxn?
    ensures UartPinSet(BootSelected(c, bootloader)) == UartPinSet(c)
  {
    hide Set, Clear, Bit;
    PinsApart(Output(c), BOOT_PIN);
  }

  lemma EnableKeepsUartPin(c: Card, bootloader: bool)
    ensures UartPinSet(Enabled(c, bootloader)) == UartPinSet(c)
    ensures Enabled(c, bootloader).kind == c.kind && Enabled(c, bootloader).addr == c.addr
  {
    hide Set, Clear, Bit;
    if c.kind.Stm32? || c.kind.Mcxn? {
      BootKeepsUartPin(c, bootloader);
      SwitchKeepsUartPin(BootSelected(c, bootloader));
    }
    PinsApart(Output(c), BOOT_PIN);
    SwitchKeepsUartPin(WithOutput(c, Set(Output(c), [BOOT_PIN])));
    SwitchKeepsUartPin(c);
  }

  lemma DisableKeepsUartPin(c: Card)
    ensures UartPinSet(Disabled(c)) == UartPinSet(c)
    ensures Disabled(c).kind == c.kind && Disabled(c).addr == c.addr && Disabled(c).responding == c.responding
  {
    hide Set, Clear, Bit;
    if c.kind.Stm32? || c.kind.Mcxn? {
      BootKeepsUartPin(c, false);
      SwitchKeepsUartPin(BootSelected(c, false));
    }
    SwitchKeepsUartPin(c);
  }

  lemma ResetKeepsUartPin(c: Card, attempts: int)
    ensures UartPinSet(ResetNode(c, attempts)) == UartPinSet(c)
  {
    hide Set, Clear, Bit;
    PinsApart(Output(c), CB_RESET_PIN);
    PinsApart(Set(Output(c), [CB_RESET_PIN]), CB_RESET_PIN);
  }

  lemma DisableIfFoundKeepsUartPin(c: Card)
    ensures var a := DisabledIfFound(c);
      UartPinSet(a) == UartPinSet(c) && a.kind == c.kind && a.responding == c.responding
  {
    hide Bit, Disabled;
    DisableKeepsUartPin(StatusRead(c));
  }

  /** What releasing a card does to its connection. */
  lemma ReleaseClears(c: Card)
    requires Connected(c) ==> HasUart(c.kind)
    ensures Connected(UartDisabled(c)) <==> Connected(c) && !c.responding
    ensures UartDisabled(c).kind == c.kind
  {
    hide Set, Clear, Bit;
    UartPin(Output(c));
  }

  lemma SelectConnects(c: Card)
    requires Connected(c) ==> HasUart(c.kind)
    ensures Connected(UartEnabled(c)) <==> Connected(c) || (HasUart(c.kind) && c.responding)
    ensures UartEnabled(c).kind == c.kind
  {
    hide Set, Clear, Bit;
    UartPin(Output(c));
  }

  lemma StatusReadKeeps(c: Card)
    ensures var r := StatusRead(c); r.kind == c.kind && r.regs == c.regs && r.responding == c.responding
    ensures c.kind != Spr8 && !c.responding ==> StatusRead(c).status == NOT_FOUND
  {
  }

  /** Letting go of the selected card leaves no card connected unless it did not answer. */
  lemma DisconnectedExclusive(d: Domain)
    requires ValidDomain(d) && Exclusive(d) && OnlyUartCards(d)
    ensures var r := Disconnected(d);
      r.cards.Keys == d.cards.Keys && OnlyUartCards(r) && r.uart == None &&
      (Exclusive(r) <==> d.uart.None? || !Connected(d.cards[d.uart.value]) || d.cards[d.uart.value].responding)
  {
    hide Connected, UartDisabled, HasUart;
    var r := Disconnected(d);
    if d.uart.Some? {
      var u := d.uart.value;
      ReleaseClears(d.cards[u]);
      assert r.cards[u] == UartDisabled(d.cards[u]);
      forall n | n in r.cards && n != u
        ensures !Connected(r.cards[n])
      {
        assert r.cards[n] == d.cards[n];
      }
    }
  }

  /** A change to one card that connects nothing keeps both facts. */
  lemma OneCardKeeps(d: Domain, name: string, card: Card)
    requires Exclusive(d) && OnlyUartCards(d) && name in d.cards
    requires card.kind == d.cards[name].kind && (Connected(card) ==> Connected(d.cards[name]))
    ensures Exclusive(OnCard(d, name, card)) && OnlyUartCards(OnCard(d, name, card))
  {
    hide Connected, HasUart;
    var r := OnCard(d, name, card);
    forall n | n in r.cards && Connected(r.cards[n])
      ensures d.uart == Some(n) && HasUart(r.cards[n].kind)
    {
      assert n != name ==> r.cards[n] == d.cards[n];
    }
  }

  lemma EachCardKeeps(d: Domain, cards: map<string, Card>)
    requires Exclusive(d) && OnlyUartCards(d) && cards.Keys == d.cards.Keys
    requires forall n :: n in cards ==>
               cards[n].kind == d.cards[n].kind && (Connected(cards[n]) ==> Connected(d.cards[n]))
    ensures Exclusive(d.(cards := cards)) && OnlyUartCards(d.(cards := cards))
  {
    hide Connected, HasUart;
  }

  lemma ScanKeeps(d: Domain, reset: bool)
    requires Exclusive(d) && OnlyUartCards(d)
    ensures Exclusive(Scanned(d, reset)) && OnlyUartCards(Scanned(d, reset))
  {
    hide Probed, Bit, Exclusive, OnlyUartCards;
    var cards := AllProbed(d.cards, reset);
    forall n | n in cards
      ensures cards[n].kind == d.cards[n].kind && (Connected(cards[n]) ==> Connected(d.cards[n]))
    {
      ProbeKeepsUartPin(d.cards[n], reset);
    }
    EachCardKeeps(d, cards);
  }

  lemma PowerDownKeepsIff(d: Domain)
    requires ValidDomain(d) && Exclusive(d) && OnlyUartCards(d)
    ensures OnlyUartCards(PoweredDown(d)) && (Exclusive(PoweredDown(d)) <==> !Leaks(d, PowerDown))
  {
    hide DisabledIfFound, Bit, UartPinSet, UartDisabled;
    var cards := AllDisabled(d.cards);
    forall n | n in cards
      ensures cards[n].kind == d.cards[n].kind && (Connected(cards[n]) <==> Connected(d.cards[n])) &&
              cards[n].responding == d.cards[n].responding
    {
      DisableIfFoundKeepsUartPin(d.cards[n]);
    }
    EachCardKeeps(d, cards);
    DisconnectedExclusive(d.(cards := cards));
  }

  lemma ReadKeepsIff(d: Domain)
    requires ValidDomain(d) && Exclusive(d) && OnlyUartCards(d)
    ensures OnlyUartCards(UartRead(d)) && (Exclusive(UartRead(d)) <==> !Leaks(d, ReadUart))
  {
    hide StatusRead, UartDisabled, Bit, Exclusive, OnlyUartCards, Disconnected;
    if d.uart.Some? {
      var u := d.uart.value;
      var c := StatusRead(d.cards[u]);
      StatusReadKeeps(d.cards[u]);
      OneCardKeeps(d, u, c);
      DisconnectedExclusive(OnCard(d, u, c));
    }
  }

  lemma SelectKeepsIff(d0: Domain, name: Option<string>)
    requires ValidDomain(d0) && Exclusive(d0) && OnlyUartCards(d0)
    ensures OnlyUartCards(UartSelected(d0, name))
    ensures Exclusive(UartSelected(d0, name)) <==> !Leaks(d0, SelectUart(name))
  {
    hide StatusRead, UartDisabled, UartEnabled, Connected, Disconnected, HasUart;
    DisconnectedExclusive(d0);
    var d := Disconnected(d0);
    var r := UartSelected(d0, name);
    if name.Some? && name.value in d.cards {
      var c := StatusRead(d.cards[name.value]);
      StatusReadKeeps(d.cards[name.value]);
      SameConnection(d.cards[name.value], c);
      SelectConnects(c);
      Selected(d, name.value, c);
      if Leaks(d0, SelectUart(name)) {
        LeakedStays(d0, name.value);
      }
    }
  }

  lemma SameConnection(a: Card, b: Card)
    requires a.kind == b.kind && a.regs == b.regs
    ensures Connected(a) == Connected(b)
  {
  }

  /** From a domain with no card selected: choosing one connects at most that one. */
  lemma Selected(d: Domain, name: string, c: Card)
    requires d.uart == None && OnlyUartCards(d) && name in d.cards
    requires c.kind == d.cards[name].kind && Connected(c) == Connected(d.cards[name])
    ensures var r := if c.status == NOT_FOUND then OnCard(d, name, c)
                     else OnCard(d, name, UartEnabled(c)).(uart := Some(name));
      OnlyUartCards(r) && (Exclusive(d) ==> Exclusive(r)) &&
      (Exclusive(r) && (c.status == NOT_FOUND || !Connected(c)) ==> Exclusive(d))
  {
    hide Connected, HasUart, UartEnabled;
    SelectConnects(c);
    var r := if c.status == NOT_FOUND then OnCard(d, name, c)
             else OnCard(d, name, UartEnabled(c)).(uart := Some(name));
    forall n | n in d.cards && n != name
      ensures r.cards[n] == d.cards[n]
    {
    }
    if Connected(UartEnabled(c)) {
      ConnectedHasUart(c);
    }
  }

  lemma ConnectedHasUart(c: Card)
    requires (Connected(c) ==> HasUart(c.kind)) && Connected(UartEnabled(c))
    ensures HasUart(c.kind)
  {
  }

  /** A card that was let go of while it did not answer stays connected, and is not selected again. */
  lemma LeakedStays(d0: Domain, name: string)
    requires ValidDomain(d0) && Exclusive(d0) && OnlyUartCards(d0)
    requires name in d0.cards && Leaks(d0, SelectUart(Some(name)))
    ensures !Exclusive(UartSelected(d0, Some(name)))
  {
    hide Bit;
    var u := d0.uart.value;
    var d := Disconnected(d0);
    assert d.cards[u] == UartDisabled(d0.cards[u]) && Connected(d.cards[u]) && !d.cards[u].responding;
    var r := UartSelected(d0, Some(name));
    if u != name {
      assert r.cards[u] == d.cards[u];
    }
    assert u in r.cards && Connected(r.cards[u]);
  }

  /** One event keeps the UART exclusive exactly when it lets go of no connected card that is silent. */
  lemma ExclusiveKeptIff(d: Domain, e: Event)
    requires ValidDomain(d) && Exclusive(d) && OnlyUartCards(d)
    ensures OnlyUartCards(Step(d, e)) && (Exclusive(Step(d, e)) <==> !Leaks(d, e))
  {
    hide UartSelected, UartRead, PoweredDown, Scanned, OneCard, Exclusive, OnlyUartCards;
    match e
    case PowerUp =>
      SameCards(d, d.(status := OpdEnabled));
      ScanKeeps(d.(status := OpdEnabled), true);
    case PowerDown => PowerDownKeepsIff(d);
    case Scan(reset) => ScanKeeps(d, reset);
    case SelectUart(name) => SelectKeepsIff(d, name);
    case ReadUart => ReadKeepsIff(d);
    case _ =>
      if e.name in d.cards {
        NoOtherSetsUartPin(d.cards[e.name], e);
        OneCardKeeps(d, e.name, OneCard(d.cards[e.name], e));
      }
  }

  lemma SameCards(a: Domain, b: Domain)
    requires a.cards == b.cards && a.uart == b.uart
    ensures Exclusive(a) == Exclusive(b) && OnlyUartCards(a) == OnlyUartCards(b)
  {
  }

  /** No event of the run lets go of a silent card. */
  predicate NoLeaks(d: Domain, events: seq<Event>)
    requires ValidDomain(d)
  {
    events == [] ||
    (NoLeaks(d, events[..|events| - 1]) && !Leaks(Run(d, events[..|events| - 1]), events[|events| - 1]))
  }

  lemma {:induction false} RunExclusive(d: Domain, events: seq<Event>)
    requires ValidDomain(d) && Exclusive(d) && OnlyUartCards(d) && NoLeaks(d, events)
    ensures Exclusive(Run(d, events)) && OnlyUartCards(Run(d, events))
  {
    hide Step, Leaks, Exclusive, OnlyUartCards;
    if events == [] {
    } else {
      var before := events[..|events| - 1];
      RunExclusive(d, before);
      ExclusiveKeptIff(Run(d, before), events[|events| - 1]);
    }
  }

  predicate AllRespond(d: Domain)
  {
    forall n :: n in d.cards ==> d.cards[n].responding
  }

  predicate BusWorks(events: seq<Event>)
  {
    forall e :: e in events && e.Outside? ==> e.responding
  }

  lemma CardKeepsResponding(c: Card, e: Event)
    requires c.responding && (e.Outside? ==> e.responding)
    ensures OneCard(c, e).responding
  {
    hide Set, Clear, Bit;
  }

  lemma UartKeepsResponding(c: Card)
    ensures UartEnabled(c).responding == UartDisabled(c).responding == StatusRead(c).responding == c.responding
  {
    hide Set, Clear, Bit;
  }

  lemma OthersKeepResponding(c: Card, reset: bool)
    ensures Probed(c, reset).responding == DisabledIfFound(c).responding == c.responding
  {
    hide Set, Clear, Bit;
  }

  lemma DisconnectKeepsResponding(d: Domain)
    requires ValidDomain(d) && AllRespond(d)
    ensures AllRespond(Disconnected(d)) && Disconnected(d).cards.Keys == d.cards.Keys
  {
    hide UartDisabled;
    if d.uart.Some? {
      UartKeepsResponding(d.cards[d.uart.value]);
    }
  }

  lemma CardChangeKeepsResponding(d: Domain, name: string, c: Card)
    requires AllRespond(d) && c.responding
    ensures AllRespond(OnCard(d, name, c))
  {
  }

  lemma StepKeepsResponding(d: Domain, e: Event)
    requires ValidDomain(d) && AllRespond(d) && (e.Outside? ==> e.responding)
    ensures AllRespond(Step(d, e))
  {
    hide UartEnabled, UartDisabled, StatusRead, Probed, DisabledIfFound, OneCard, Disconnected, OnCard;
    forall c: Card, reset: bool
      ensures Probed(c, reset).responding == c.responding
    {
      OthersKeepResponding(c, reset);
    }
    forall c: Card
      ensures DisabledIfFound(c).responding == c.responding
    {
      OthersKeepResponding(c, false);
    }
    match e
    case PowerUp =>
    case PowerDown =>
      DisconnectKeepsResponding(d.(cards := AllDisabled(d.cards)));
    case Scan(_) =>
    case SelectUart(name) =>
      DisconnectKeepsResponding(d);
      if name.Some? && name.value in d.cards {
        var r := StatusRead(Disconnected(d).cards[name.value]);
        UartKeepsResponding(Disconnected(d).cards[name.value]);
        UartKeepsResponding(r);
        CardChangeKeepsResponding(Disconnected(d), name.value, r);
        CardChangeKeepsResponding(Disconnected(d), name.value, UartEnabled(r));
      }
    case ReadUart =>
      if d.uart.Some? {
        var c := StatusRead(d.cards[d.uart.value]);
        UartKeepsResponding(d.cards[d.uart.value]);
        CardChangeKeepsResponding(d, d.uart.value, c);
        CardChangeKeepsValid(d, d.uart.value, c);
        DisconnectKeepsResponding(OnCard(d, d.uart.value, c));
      }
    case _ =>
      if e.name in d.cards {
        CardKeepsResponding(d.cards[e.name], e);
        CardChangeKeepsResponding(d, e.name, OneCard(d.cards[e.name], e));
      }
  }

  lemma CardChangeKeepsValid(d: Domain, name: string, c: Card)
    requires ValidDomain(d)
    ensures ValidDomain(OnCard(d, name, c))
  {
  }

  lemma {:induction false} RunKeepsResponding(d: Domain, events: seq<Event>)
    requires ValidDomain(d) && AllRespond(d) && BusWorks(events)
    ensures AllRespond(Run(d, events)) && NoLeaks(d, events)
  {
    hide Step;
    if events == [] {
    } else {
      var before, e := events[..|events| - 1], events[|events| - 1];
      assert e in events;
      RunKeepsResponding(d, before);
      StepKeepsResponding(Run(d, before), e);
    }
  }

  /**
   With a working bus, over every sequence of operations on the domain and its cards: a card whose
   UART pin is set is the selected one, so no two cards are ever connected together.
   */
  lemma UartExclusive(d: Domain, events: seq<Event>, a: string, b: string)
    requires ValidDomain(d) && Exclusive(d) && OnlyUartCards(d) && AllRespond(d) && BusWorks(events)
    requires a in d.cards && b in d.cards
    ensures var r := Run(d, events);
      a in r.cards && b in r.cards &&
      (Connected(r.cards[a]) ==> r.uart == Some(a)) && (Connected(r.cards[a]) && Connected(r.cards[b]) ==> a == b)
  {
    hide Connected;
    RunKeepsResponding(d, events);
    RunExclusive(d, events);
    RunKeepsCards(d, events);
  }

  lemma {:induction false} RunKeepsCards(d: Domain, events: seq<Event>)
    requires ValidDomain(d)
    ensures Run(d, events).cards.Keys == d.cards.Keys
  {
    hide Step;
    if events == [] {
    } else {
      RunKeepsCards(d, events[..|events| - 1]);
      StepKeepsValid(Run(d, events[..|events| - 1]), events[|events| - 1]);
    }
  }

  /**
   Whatever the chips hold when the domain is switched on, its scan disconnects every card, except that
   one that does not answer or is given up as dead stays as it was.
   */
  lemma PowerUpDisconnects(d: Domain, n: string)
    requires d.status == OpdDisabled && n in d.cards
    ensures n in PoweredUp(d).cards
    ensures Connected(PoweredUp(d).cards[n]) <==>
              Connected(d.cards[n]) && (!d.cards[n].responding || d.cards[n].status == DEAD)
  {
    ProbeConnection(d.cards[n]);
  }

  lemma ProbeConnection(c: Card)
    ensures Connected(Probed(c, true)) <==> Connected(c) && (!c.responding || c.status == DEAD)
  {
    hide Bit;
    ClearOutput(0);
  }

  lemma ClearOutput(output: bv8)
    requires output == 0
    ensures !Bit(output, UART_PIN)
  {
  }

  /** So with a working bus and no dead card it leaves the UART free. */
  lemma PowerUpExclusive(d: Domain)
    requires d.status == OpdDisabled && AllRespond(d) && forall n :: n in d.cards ==> d.cards[n].status != DEAD
    ensures Exclusive(PoweredUp(d)) && OnlyUartCards(PoweredUp(d))
  {
    hide PoweredUp, Connected;
    PoweredUpKeys(d);
    forall n | n in d.cards
      ensures !Connected(PoweredUp(d).cards[n])
    {
      PowerUpDisconnects(d, n);
    }
  }

  lemma PoweredUpKeys(d: Domain)
    ensures PoweredUp(d).cards.Keys == d.cards.Keys
  {
    hide Probed;
  }

  // ----- enabling, in one step -----

  /** The output of a card that answers once it has been enabled. */
  function EnabledOutput(kind: Kind, bootloader: bool, v: bv8, found: bool): bv8
  {
    var boot := match kind
      case Plain => v
      case Octavo => Set(v, [BOOT_PIN])
      case _ => if kind.Stm32? <==> bootloader then Set(v, [BOOT_PIN]) else Clear(v, [BOOT_PIN]);
    if found then Set(boot, [ENABLE_PIN]) else boot
  }

  lemma EnabledForm(c: Card, bootloader: bool)
    requires c.responding && c.kind != Spr8
    ensures var found := c.status != NOT_FOUND;
      Enabled(c, bootloader) ==
      c.(regs := [c.regs[0], EnabledOutput(c.kind, bootloader, Output(c), found), c.regs[2],
                  if c.kind.Stm32? || c.kind.Mcxn?
                  then if bootloader then BootloaderInputs(c.kind) else Inputs(c.kind)
                  else c.regs[3],
                  c.regs[4]],
         status := if found then ENABLED else NOT_FOUND)
  {
    hide Set, Clear, Inputs, BootloaderInputs;
  }

  // ----- boot mode, and the domain's own state -----

  /** `in_bootloader_mode` of a card that answers: the pin's level means the opposite on the two processors. */
  predicate InBootloaderMode(c: Card)
  {
    if c.kind.Stm32? then Bit(Output(c), BOOT_PIN) else c.kind.Mcxn? && !Bit(Output(c), BOOT_PIN)
  }

  /** The pin is an input; otherwise the chip drives it. */
  predicate IsInput(c: Card, pin: int)
    requires IsPin(pin)
  {
    Bit(c.regs[CONFIGURATION], pin)
  }

  /**
   Enabling a card that was found puts it in the boot mode asked for, switched on, and leaves its boot
   pin driven exactly when it is high; the fault pin stays an input, and the other pins stay driven.
   */
  lemma EnableSelectsBootMode(c: Card, bootloader: bool)
    requires c.kind.Stm32? || c.kind.Mcxn?
    requires c.responding && c.status != NOT_FOUND
    ensures var a := Enabled(c, bootloader);
      a.status == ENABLED && EnablePinSet(a) && (InBootloaderMode(a) <==> bootloader) &&
      (IsInput(a, BOOT_PIN) <==> !Bit(Output(a), BOOT_PIN)) && IsInput(a, NOT_FAULT_PIN) &&
      !IsInput(a, ENABLE_PIN) && !IsInput(a, CB_RESET_PIN) && !IsInput(a, UART_PIN)
  {
    var b := BootSelected(c, bootloader);
    BootLevel(Output(c), Output(b), c.kind.Stm32? <==> bootloader);
    ConfigurationPins(c.kind, bootloader);
    hide Set, Clear, Bit, Inputs, BootloaderInputs;
    SetAndClearBits(Output(b), [ENABLE_PIN], ENABLE_PIN);
    SetAndClearBits(Output(b), [ENABLE_PIN], BOOT_PIN);
  }

  lemma BootLevel(before: bv8, after: bv8, high: bool)
    requires after == if high then Set(before, [BOOT_PIN]) else Clear(before, [BOOT_PIN])
    ensures Bit(after, BOOT_PIN) <==> high
  {
    hide Set, Clear, Bit;
    SetAndClearBits(before, [BOOT_PIN], BOOT_PIN);
  }

  lemma ConfigurationPins(kind: Kind, bootloader: bool)
    requires kind.Stm32? || kind.Mcxn?
    ensures var v := if bootloader then BootloaderInputs(kind) else Inputs(kind);
      (Bit(v, BOOT_PIN) <==> (kind.Stm32? <==> !bootloader)) && Bit(v, NOT_FAULT_PIN) &&
      !Bit(v, ENABLE_PIN) && !Bit(v, CB_RESET_PIN) && !Bit(v, UART_PIN)
  {
  }

  /** The domain is only ever off or on: only its own reset makes it FAULT or DEAD, and acts in FAULT alone. */
  predicate NeverFaulted(d: Domain)
  {
    d.status == OpdDisabled || d.status == OpdEnabled
  }

  lemma StepNeverFaults(d: Domain, e: Event)
    requires ValidDomain(d) && NeverFaulted(d)
    ensures NeverFaulted(Step(d, e))
  {
    hide OneCard, AllProbed, AllDisabled, StatusRead, UartDisabled, UartEnabled;
  }

  lemma {:induction false} RunNeverFaults(d: Domain, events: seq<Event>)
    requires ValidDomain(d) && NeverFaulted(d)
    ensures NeverFaulted(Run(d, events))
  {
    hide Step, NeverFaulted;
    if events == [] {
    } else {
      RunNeverFaults(d, events[..|events| - 1]);
      StepNeverFaults(Run(d, events[..|events| - 1]), events[|events| - 1]);
    }
  }

  // ----- resets -----

  lemma CardCountsResets(c: Card, e: Event)
    ensures OneCard(c, e).resets == c.resets + if e.Reset? then 1 else 0
  {
    hide Set, Clear, Bit, Faulted, EnablePinSet, BootloaderInputs, Inputs;
  }

  /** What the domain does to its cards by itself resets none. */
  lemma CardKeepsResets(c: Card, reset: bool)
    ensures StatusRead(c).resets == EnabledRead(c).resets == DisabledIfFound(c).resets == c.resets
    ensures UartDisabled(c).resets == UartEnabled(c).resets == Probed(c, reset).resets == c.resets
  {
    hide Set, Clear, Bit, Faulted, EnablePinSet, BootloaderInputs, Inputs;
  }

  /** A card is reset by its own `reset` and by nothing else the domain does. */
  lemma ResetsCounted(d: Domain, e: Event, n: string)
    requires ValidDomain(d) && n in d.cards
    ensures n in Step(d, e).cards
    ensures Step(d, e).cards[n].resets == d.cards[n].resets + if e.Reset? && e.name == n then 1 else 0
  {
    hide OneCard, DisabledIfFound, UartDisabled, UartEnabled, Probed, StatusRead;
    var c := d.cards[n];
    CardCountsResets(c, e);
    CardKeepsResets(c, e.Scan? && e.reset);
    CardKeepsResets(c, true);
    CardKeepsResets(StatusRead(c), true);
    CardKeepsResets(DisabledIfFound(c), true);
    CardKeepsResets(UartDisabled(c), true);
    CardKeepsResets(StatusRead(UartDisabled(c)), true);
  }
}
