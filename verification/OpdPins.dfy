/** What each operation on a card leaves of its chip, register by register and pin by pin, and of its status. */
module OpdPins {
  import opened Octets
  import opened Max7310s
  import opened Opds

  /** Pin i of the output register. */
  predicate Pin(c: Card, i: int)
    requires IsPin(i)
  {
    Bit(c.regs[1], i)
  }

  predicate HasChip(c: Card)
  {
    !c.kind.Spr8?
  }

  /** Only these may differ: the output register, the configuration register, and the status. */
  predicate OnlySwitched(c: Card, a: Card)
  {
    a.regs[0] == c.regs[0] && a.regs[2] == c.regs[2] && a.regs[4] == c.regs[4] && a.kind == c.kind &&
    a.addr == c.addr && a.responding == c.responding && a.active == c.active
  }

  /** The pins that are inputs, for each kind of card in its application and its bootloader. */
  function InputPins(kind: Kind, bootloader: bool): bv8
  {
    match kind
    case Stm32 => if bootloader then 0x07 else 0x27
    case Mcxn => if bootloader then 0x27 else 0x07
    case _ => 0x04
  }

  /** A card with the registers it is configured with: all outputs low, and its pins' directions. */
  function Fresh(c: Card): Card
  {
    c.(regs := [c.regs[0], 0x00, 0x00, InputPins(c.kind, false), 0x01], status := DISABLED)
  }

  /** The registers every operation starts from. */
  lemma ConfiguredChip(c: Card)
    requires HasChip(c)
    ensures Configured(c) == if c.responding
                             then Fresh(c) else c.(status := FAULT)
  {
  }

  /** A probe finds a card that answers, and configures it when it was missing or is to be reset. */
  lemma ProbedChip(c: Card, reset: bool)
    requires HasChip(c)
    ensures Probed(c, reset) ==
            if c.status == DEAD then c
            else if !c.responding then c.(status := NOT_FOUND)
            else if reset || c.status == NOT_FOUND
            then Fresh(c)
            else c.(status := DISABLED)
    ensures Found(c, Probed(c, reset)) <==> c.status != DEAD && c.responding
  {
  }

  lemma PinAfter(v: bv8, i: int)
    requires IsPin(i)
    ensures Bit(Set(v, [3]), i) <==> i == 3 || Bit(v, i)
    ensures Bit(Clear(v, [3]), i) <==> i != 3 && Bit(v, i)
    ensures Bit(Set(v, [4]), i) <==> i == 4 || Bit(v, i)
    ensures Bit(Clear(v, [4]), i) <==> i != 4 && Bit(v, i)
    ensures Bit(Set(v, [5]), i) <==> i == 5 || Bit(v, i)
    ensures Bit(Clear(v, [5]), i) <==> i != 5 && Bit(v, i)
    ensures Bit(Set(v, [7]), i) <==> i == 7 || Bit(v, i)
    ensures Bit(Clear(v, [7]), i) <==> i != 7 && Bit(v, i)
  {
    hide Set, Clear, Bit;
    SetAndClearBits(v, [3], i);
    SetAndClearBits(v, [4], i);
    SetAndClearBits(v, [5], i);
    SetAndClearBits(v, [7], i);
  }

  /** The level of the boot pin of a card that is enabled, where its kind drives it. */
  function BootLevelOf(kind: Kind, bootloader: bool, before: bool): bool
  {
    match kind
    case Stm32 => bootloader
    case Mcxn => !bootloader
    case Octavo => true
    case _ => before
  }

  lemma EnabledPin(kind: Kind, bootloader: bool, v: bv8, found: bool, i: int)
    requires !kind.Spr8? && IsPin(i)
    ensures Bit(EnabledOutput(kind, bootloader, v, found), i) <==>
              if i == 3 then Bit(v, 3) || found
              else if i == 5 then BootLevelOf(kind, bootloader, Bit(v, 5)) else Bit(v, i)
  {
    hide Set, Clear, Bit;
    PinAfter(v, i);
    PinAfter(Set(v, [5]), i);
    PinAfter(Clear(v, [5]), i);
  }

  /** Enabling: pin 3 goes high if the card was found, pin 5 selects what boots, and no other pin changes. */
  lemma EnabledChip(c: Card, bootloader: bool, i: int)
    requires HasChip(c) && c.responding && IsPin(i)
    ensures var a := Enabled(c, bootloader);
      OnlySwitched(c, a) && a.resets == c.resets &&
      a.status == (if c.status == NOT_FOUND then NOT_FOUND else ENABLED) &&
      (Pin(a, i) <==> if i == 3 then Pin(c, 3) || c.status != NOT_FOUND
                      else if i == 5 then BootLevelOf(c.kind, bootloader, Pin(c, 5)) else Pin(c, i)) &&
      a.regs[3] == if c.kind.Stm32? || c.kind.Mcxn? then InputPins(c.kind, bootloader) else c.regs[3]
  {
    hide Enabled, EnabledOutput, BootLevelOf, Bit;
    EnabledForm(c, bootloader);
    EnabledPin(c.kind, bootloader, c.regs[1], c.status != NOT_FOUND, i);
  }

  /** Disabling: pin 3 goes low, pin 5 goes back to the application, and no other pin changes. */
  lemma DisabledChip(c: Card, i: int)
    requires HasChip(c) && c.responding && IsPin(i)
    ensures var a := Disabled(c);
      OnlySwitched(c, a) && a.resets == c.resets && a.status == DISABLED &&
      (Pin(a, i) <==> if i == 3 then false
                      else if i == 5 && (c.kind.Stm32? || c.kind.Mcxn?) then c.kind.Mcxn? else Pin(c, i)) &&
      a.regs[3] == if c.kind.Stm32? || c.kind.Mcxn? then InputPins(c.kind, false) else c.regs[3]
  {
    hide Set, Clear, Bit;
    var v := Output(c);
    PinAfter(v, i);
    PinAfter(Set(v, [5]), i);
    PinAfter(Clear(v, [5]), i);
  }

  /** A reset ends with pin 4 low, every other pin as it was, and the status by the fault line. */
  lemma ResetChip(c: Card, attempts: int, i: int)
    requires HasChip(c) && c.responding && IsPin(i) && attempts > 0
    ensures var a := ResetNode(c, attempts);
      OnlySwitched(c, a) && a.resets == c.resets + 1 && a.regs[3] == c.regs[3] &&
      (Pin(a, i) <==> i != 4 && Pin(c, i)) &&
      a.status == if c.addr != 0x18 && c.addr != 0x1F && !Bit(c.regs[0], 2) then FAULT else ENABLED
  {
    hide Set, Clear, Bit;
    PinAfter(Output(c), i);
    PinAfter(Set(Output(c), [4]), i);
  }

  /** The UART's pin 7, on the kinds that have it. */
  lemma UartChip(c: Card, i: int)
    requires HasChip(c) && c.responding && IsPin(i)
    ensures var (a, b, has) := (UartEnabled(c), UartDisabled(c), !c.kind.Plain?);
      OnlySwitched(c, a) && OnlySwitched(c, b) && a.status == b.status == c.status &&
      a.regs[3] == b.regs[3] == c.regs[3] && a.resets == b.resets == c.resets &&
      (Pin(a, i) <==> (i == 7 && has) || Pin(c, i)) && (Pin(b, i) <==> !(i == 7 && has) && Pin(c, i))
  {
    hide Set, Clear, Bit;
    PinAfter(Output(c), i);
  }

  /** What a card that does not answer is left with: its registers, and a fault. */
  lemma SilentChip(c: Card, bootloader: bool, attempts: int)
    requires HasChip(c) && !c.responding
    ensures Enabled(c, bootloader) == c.(status := if c.kind.Plain? && c.status == NOT_FOUND then NOT_FOUND else FAULT)
    ensures Disabled(c) == c.(status := FAULT)
    ensures ResetNode(c, attempts) == c.(resets := c.resets + 1, status := if attempts > 0 then FAULT else c.status)
    ensures UartEnabled(c) == UartDisabled(c) == if c.kind.Plain? then c else c.(status := FAULT)
    ensures StatusRead(c) == c.(status := NOT_FOUND)
    ensures EnabledRead(c) == c.(status := if c.status == NOT_FOUND then NOT_FOUND else FAULT) && !IsEnabled(c)
  {
  }

  /** SPARE_8 has no chip: one line switches it, and its status follows the line. */
  lemma SpareCard(c: Card, bootloader: bool, attempts: int, reset: bool)
    requires c.kind.Spr8?
    ensures Configured(c) == Disabled(c) == c.(active := false, status := DISABLED)
    ensures Enabled(c, bootloader) == c.(active := true, status := ENABLED)
    ensures ResetNode(c, attempts) == c.(active := true, status := ENABLED, resets := c.resets + 1)
    ensures Probed(c, reset) == StatusRead(c) == EnabledRead(c) == UartEnabled(c) == UartDisabled(c) == c
    ensures Found(c, c) && (IsEnabled(c) <==> c.status == ENABLED)
  {
  }

  /** Reading the status of a card that answers: a fault is seen only while its breaker is on. */
  lemma ReadChip(c: Card)
    requires HasChip(c) && c.responding
    ensures StatusRead(c) ==
            if Pin(c, 3) && c.addr != 0x18 && c.addr != 0x1F && !Bit(c.regs[0], 2) then c.(status := FAULT) else c
    ensures (IsEnabled(c) <==> Pin(c, 3)) && EnabledRead(c) == c
  {
  }

  // ----- the domain -----

  /**
   Switching the domain off forgets the selection and switches off every card, but one that does not answer,
   or answers while it is marked missing: they keep their registers, but for the UART's pin.
   */
  lemma PowerDownCuts(d: Domain, n: string)
    requires ValidDomain(d) && n in d.cards
    ensures n in PoweredDown(d).cards && PoweredDown(d).status == OpdDisabled && PoweredDown(d).uart == None
    ensures var (c, a) := (d.cards[n], PoweredDown(d).cards[n]);
      if c.kind.Spr8? then c.status != NOT_FOUND ==> !a.active && a.status == DISABLED
      else if c.responding then Pin(a, 3) <==> Pin(c, 3) && StatusRead(c).status == NOT_FOUND
      else a.regs == c.regs
  {
    hide Set, Clear, Bit, Disabled, StatusRead, UartDisabled;
    CutOne(d.cards[n]);
  }

  lemma CutOne(c: Card)
    ensures var b := DisabledIfFound(c);
      if c.kind.Spr8? then (c.status != NOT_FOUND ==> !b.active && b.status == DISABLED) && UartDisabled(b) == b
      else if c.responding then
        (Pin(b, 3) <==> Pin(c, 3) && StatusRead(c).status == NOT_FOUND) && (Pin(UartDisabled(b), 3) <==> Pin(b, 3))
      else b.regs == c.regs == UartDisabled(b).regs
  {
    hide Set, Clear, Bit, Disabled, UartDisabled;
    if c.kind.Spr8? {
      SpareCard(c, false, 1, false);
      SpareCard(Disabled(c), false, 1, false);
    } else if c.responding {
      DisabledChip(StatusRead(c), 3);
      UartChip(DisabledIfFound(c), 3);
    } else {
      SilentChip(c, false, 1);
      SilentChip(DisabledIfFound(c), false, 1);
    }
  }

  /** Switching it on finds every card that answers, off and configured, and changes nothing if it is on. */
  lemma PowerUpFinds(d: Domain, n: string)
    requires ValidDomain(d) && n in d.cards
    ensures n in PoweredUp(d).cards && PoweredUp(d).uart == d.uart
    ensures d.status != OpdDisabled ==> PoweredUp(d) == d
    ensures d.status == OpdDisabled ==>
              PoweredUp(d).status == OpdEnabled &&
              var (c, a) := (d.cards[n], PoweredUp(d).cards[n]);
              if c.kind.Spr8? || c.status == DEAD then a == c
              else if c.responding
              then a == Fresh(c)
              else a == c.(status := NOT_FOUND)
  {
    hide Probed;
    if !d.cards[n].kind.Spr8? {
      ProbedChip(d.cards[n], true);
    } else {
      SpareCard(d.cards[n], false, 1, true);
    }
  }
}
