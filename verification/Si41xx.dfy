/**
 The Si41xx driver's serial transmitter against a model of the chip's receiver, and the register
 writes of the driver's operations.
 */
module Si41xx {
  import opened Octets
  import opened Si41xxDividers
  import Algebra

  const MSG_SIZE := 22
  const DATA_MASK := 0x3FFFF

  // Register addresses.
  const CONFIG := 0
  const PHASE_GAIN := 1
  const PWRDOWN := 2
  const IF_NDIV := 5
  const IF_RDIV := 8

  function Shr(w: nat, k: nat): nat
  {
    if k == 0 then w else Shr(w, k - 1) / 2
  }

  function Shl(w: nat, k: nat): nat
  {
    if k == 0 then w else 2 * Shl(w, k - 1)
  }

  lemma {:induction false} ShrDouble(w: nat, k: nat)
    ensures Shr(2 * w, k + 1) == Shr(w, k)
  {
    if k == 0 {
    } else {
      ShrDouble(w, k - 1);
    }
  }

  lemma {:induction false} ShrShl(w: nat, i: nat, k: nat)
    requires i <= k
    ensures Shr(Shl(w, i), k) == Shr(w, k - i)
  {
    if i == 0 {
    } else {
      ShrDouble(Shl(w, i - 1), k - 1);
      ShrShl(w, i - 1, k - 1);
    }
  }

  lemma {:induction false} ShrSmall(w: nat, k: nat)
    requires w < Pow2(k)
    ensures Shr(w, k) == 0
  {
    if k == 0 {
    } else {
      ShrBelow(w, k, 1);
    }
  }

  lemma {:induction false} ShrBelow(w: nat, k: nat, m: nat)
    requires w < m * Pow2(k)
    ensures Shr(w, k) < m
  {
    if k == 0 {
    } else {
      assert m * Pow2(k) == (2 * m) * Pow2(k - 1);
      ShrBelow(w, k - 1, 2 * m);
    }
  }

  /** Shifting one more bit in at the bottom. */
  lemma ShiftIn(w: nat, k: nat)
    requires k > 0
    ensures 2 * Shr(w, k) + B(Shr(w, k - 1) % 2 == 1) == Shr(w, k - 1)
  {
  }

  lemma Pow2Product(a: nat, b: nat)
    ensures Pow2(a) * Pow2(b) == Pow2(a + b)
  {
    if a > 0 {
      Pow2Product(a - 1, b);
      Algebra.Regroup(2, Pow2(a - 1), Pow2(b));
    }
  }

  lemma MessageWidth(message: nat)
    requires message < 0x40_0000
    ensures Shr(message, MSG_SIZE) == 0
  {
    assert Pow2(11) == 2048 by { assert Pow2(5) == 32; }
    Pow2Product(11, 11);
    ShrSmall(message, MSG_SIZE);
  }

  /** The low four bits address the register and the high eighteen are its data. */
  lemma MessageFields(reg: nat, field: nat)
    requires reg < 16 && field < 0x40000
    ensures var m := reg + field * 16; m < 0x40_0000 && m % 16 == reg && m / 16 == field
  {
  }

  /**
   The three serial lines and the chip at their far end. A falling SEN starts a message; while SEN
   is low each rising SCLK shifts SDATA in; a rising SEN latches a complete message of 22 bits into
   the register addressed by its low four bits.
   */
  class Bus {
    var sen: bool
    var sclk: bool
    var sdata: bool
    var count: nat
    var shift: nat
    var regs: map<nat, nat>

    /** The lines as the GPIO requests leave them, with nothing shifted in. */
    constructor (regs: map<nat, nat>)
      ensures Idle() && this.regs == regs
    {
      sen, sclk, sdata, count, shift := false, false, false, 0, 0;
      this.regs := regs;
    }

    /** Between messages: pulling SEN low next finds an empty shift register. */
    predicate Idle()
      reads this
    {
      sen || (count == 0 && shift == 0)
    }

    method SetSen(v: bool)
      modifies this
      ensures sen == v && sclk == old(sclk) && sdata == old(sdata)
      ensures if old(sen) && !v then count == 0 && shift == 0
              else count == old(count) && shift == old(shift)
      ensures regs == if !old(sen) && v && old(count) == MSG_SIZE
                      then old(regs)[old(shift) % 16 := old(shift) / 16] else old(regs)
    {
      if sen && !v {
        count, shift := 0, 0;
      } else if !sen && v && count == MSG_SIZE {
        regs := regs[shift % 16 := shift / 16];
      }
      sen := v;
    }

    method SetSclk(v: bool)
      modifies this
      ensures sclk == v && sen == old(sen) && sdata == old(sdata) && regs == old(regs)
      ensures if !old(sclk) && v && !sen
              then count == old(count) + 1 && shift == 2 * old(shift) + (if sdata then 1 else 0)
              else count == old(count) && shift == old(shift)
    {
      if !sclk && v && !sen {
        count, shift := count + 1, 2 * shift + (if sdata then 1 else 0);
      }
      sclk := v;
    }

    method SetSdata(v: bool)
      modifies this`sdata
      ensures sdata == v
    {
      sdata := v;
    }
  }

  /** Successive register writes, oldest first. */
  type WriteLog = seq<(nat, nat)>

  /** The register file after the writes of a log. */
  function Replay(regs: map<nat, nat>, log: WriteLog): map<nat, nat>
  {
    if log == [] then regs
    else Replay(regs, log[..|log| - 1])[log[|log| - 1].0 := log[|log| - 1].1]
  }

  /** A register holds the last value the log writes to it. */
  lemma {:induction false} ReplayLastWrite(regs: map<nat, nat>, log: WriteLog, i: nat)
    requires i < |log| && forall j :: i < j < |log| ==> log[j].0 != log[i].0
    ensures log[i].0 in Replay(regs, log) && Replay(regs, log)[log[i].0] == log[i].1
  {
    if i == |log| - 1 {
    } else {
      ReplayLastWrite(regs, log[..|log| - 1], i);
    }
  }

  /** A register the log never writes keeps its first value. */
  lemma {:induction false} ReplayUnwritten(regs: map<nat, nat>, log: WriteLog, reg: nat)
    requires forall j :: 0 <= j < |log| ==> log[j].0 != reg
    ensures reg in Replay(regs, log) <==> reg in regs
    ensures reg in regs ==> Replay(regs, log)[reg] == regs[reg]
  {
    if log == [] {
    } else {
      ReplayUnwritten(regs, log[..|log| - 1], reg);
    }
  }

  lemma ReplayAppend(regs: map<nat, nat>, log: WriteLog, reg: nat, data: nat)
    ensures Replay(regs, log + [(reg, data)]) == Replay(regs, log)[reg := data]
  {
    assert (log + [(reg, data)])[..|log|] == log;
  }

  // ----- register layouts -----

  datatype IfDiv = DIV1 | DIV2 | DIV4 | DIV8

  /** The enumeration's value, used both as a register field and as a shift count. */
  function Code(d: IfDiv): nat
  {
    match d case DIV1 => 0 case DIV2 => 1 case DIV4 => 3 case DIV8 => 4
  }

  /** The division the mode names. */
  function Ratio(d: IfDiv): nat
  {
    match d case DIV1 => 1 case DIV2 => 2 case DIV4 => 4 case DIV8 => 8
  }

  function B(b: bool): nat
  {
    if b then 1 else 0
  }

  /** The bitwise or of the shifted fields; bit 12 belongs to if_div's third bit and to aux_sel. */
  function ConfigWord(rfpwr: bool, autokp: bool, autopdb: bool, lprw: bool, d: IfDiv, aux: nat): (w: nat)
    requires aux < 4
    ensures w <= 0x3FFF
  {
    B(rfpwr) * 2 + B(autokp) * 4 + B(autopdb) * 8 + B(lprw) * 32 + Code(d) % 4 * 1024 +
    B(Code(d) / 4 == 1 || aux % 2 == 1) * 4096 + aux / 2 * 8192
  }

  /**
   The chip's two-bit divider and aux fields (bits 10-11 and 12-13) hold what was asked for unless
   the divider is DIV8, whose code does not fit: the divider field then reads 0, that is DIV1.
   */
  lemma ConfigFields(rfpwr: bool, autokp: bool, autopdb: bool, lprw: bool, d: IfDiv, aux: nat)
    requires aux < 4
    ensures var w := ConfigWord(rfpwr, autokp, autopdb, lprw, d, aux);
      (w / 1024 % 4 == Code(d) <==> d != DIV8) && (d == DIV8 ==> w / 1024 % 4 == Code(DIV1)) &&
      (w / 4096 % 4 == aux <==> d != DIV8 || aux % 2 == 1)
  {
    var low := B(rfpwr) * 2 + B(autokp) * 4 + B(autopdb) * 8 + B(lprw) * 32;
    var bit12 := B(Code(d) / 4 == 1 || aux % 2 == 1);
    HighFields(low, Code(d) % 4, bit12 + 2 * (aux / 2));
  }

  /** Bits 1, 2, 3 and 5 are RF power, automatic gain, automatic power-down and low power. */
  lemma ConfigFlags(rfpwr: bool, autokp: bool, autopdb: bool, lprw: bool, d: IfDiv, aux: nat)
    requires aux < 4
    ensures var w := ConfigWord(rfpwr, autokp, autopdb, lprw, d, aux);
      (w / 2 % 2 == 1 <==> rfpwr) && (w / 4 % 2 == 1 <==> autokp) && (w / 8 % 2 == 1 <==> autopdb) &&
      (w / 32 % 2 == 1 <==> lprw)
  {
    var w := ConfigWord(rfpwr, autokp, autopdb, lprw, d, aux);
    var high := Code(d) % 4 + 4 * (B(Code(d) / 4 == 1 || aux % 2 == 1) + 2 * (aux / 2));
    ConfigSum(w, B(rfpwr), B(autokp), B(autopdb), B(lprw), high);
  }

  lemma ConfigSum(w: nat, a: nat, b: nat, c: nat, d: nat, high: nat)
    requires a < 2 && b < 2 && c < 2 && d < 2 && w == a * 2 + b * 4 + c * 8 + d * 32 + 1024 * high
    ensures w / 2 % 2 == a && w / 4 % 2 == b && w / 8 % 2 == c && w / 32 % 2 == d
  {
    BitOf(w, 0, a, b + c * 2 + d * 8 + 256 * high, 2);
    BitOf(w, a * 2, b, c + d * 4 + 128 * high, 4);
    BitOf(w, a * 2 + b * 4, c, d * 2 + 64 * high, 8);
    BitOf(w, a * 2 + b * 4 + c * 8, d, 16 * high, 32);
  }

  lemma BitOf(w: nat, low: nat, bit: nat, half: nat, place: nat)
    requires low < place && bit < 2
    requires w == low + place * (bit + 2 * half)
    ensures w / place % 2 == bit
  {
    Algebra.QuotientUnique(w, place, bit + 2 * half);
    EvenAndBit(bit, half);
  }

  lemma EvenAndBit(bit: nat, half: nat)
    requires bit < 2
    ensures (bit + 2 * half) % 2 == bit
  {
  }

  lemma HighFields(low: nat, field: nat, aux: nat)
    requires low < 1024 && field < 4 && aux < 4
    ensures var w := low + 1024 * (field + 4 * aux); w / 1024 % 4 == field && w / 4096 % 4 == aux
  {
    var w := low + 1024 * (field + 4 * aux);
    assert w / 1024 == field + 4 * aux;
    assert w / 4096 == aux;
  }

  const LOCKDET := 3

  datatype State = Uninit | Stop | Ready

  class Si41xx {
    const bus: Bus
    const refFreq: int
    var state: State
    var ifDiv: IfDiv
    var ifN: int
    var ifR: int
    var pbib: bool
    var pbrb: bool
    ghost const initial: map<nat, nat>
    ghost var log: WriteLog

    /** The chip's register file is what the driver wrote, message by message. */
    ghost predicate Valid()
      reads this, bus
    {
      bus.Idle() && bus.regs == Replay(initial, log)
    }

    constructor (bus: Bus, refFreq: int, ifDiv: IfDiv, ifN: int, ifR: int)
      requires bus.Idle()
      ensures Valid() && this.bus == bus && this.refFreq == refFreq && log == [] && state == Uninit
      ensures this.ifDiv == ifDiv && this.ifN == ifN && this.ifR == ifR && !pbib && !pbrb
    {
      this.bus, this.refFreq, state := bus, refFreq, Uninit;
      this.ifDiv, this.ifN, this.ifR, pbib, pbrb := ifDiv, ifN, ifR, false, false;
      initial, log := bus.regs, [];
    }

    /**
     One message: exactly 22 bits reach the receiver and decode to the register and data given; the
     closing clock edge shifts nothing in.
     */
    method WriteReg(reg: nat, data: int) returns (e: Option<Error>)
      requires Valid() && reg < 16
      modifies bus, this`log
      ensures Valid()
      ensures e == if data > DATA_MASK then Some(DataTooWide) else None
      ensures e.Some? ==> log == old(log) && bus.regs == old(bus.regs)
      ensures e.None? ==>
        log == old(log) + [(reg, data % 0x40000)] &&
        bus.regs == old(bus.regs)[reg := data % 0x40000] && bus.count == MSG_SIZE && bus.sen && bus.sclk
    {
      if data > DATA_MASK { return Some(DataTooWide); }
      bus.SetSen(false);
      var field: nat := data % 0x40000;
      MessageFields(reg, field);
      SendWord(reg + field * 16);
      bus.SetSclk(false);
      bus.SetSen(true);
      bus.SetSclk(true);
      ReplayAppend(initial, log, reg, field);
      log := log + [(reg, field)];
      return None;
    }

    /** The clocked bits of one message, most significant first. */
    method SendWord(message: nat)
      requires !bus.sen && bus.count == 0 && bus.shift == 0 && message < 0x40_0000
      modifies bus
      ensures !bus.sen && bus.count == MSG_SIZE && bus.shift == message && bus.regs == old(bus.regs)
    {
      var word := message;
      MessageWidth(message);
      for i := 0 to MSG_SIZE
        invariant !bus.sen && bus.count == i && bus.regs == old(bus.regs)
        invariant word == Shl(message, i) && bus.shift == Shr(message, MSG_SIZE - i)
      {
        ShrShl(message, i, MSG_SIZE - 1);
        ShiftIn(message, MSG_SIZE - i);
        SendBit(Shr(word, MSG_SIZE - 1) % 2 == 1);
        word := word * 2;
      }
    }

    method SendBit(bit: bool)
      requires !bus.sen
      modifies bus
      ensures !bus.sen && bus.sclk && bus.regs == old(bus.regs)
      ensures bus.count == old(bus.count) + 1 && bus.shift == 2 * old(bus.shift) + B(bit)
    {
      bus.SetSclk(false);
      if bit {
        bus.SetSdata(true);
      } else {
        bus.SetSdata(false);
      }
      bus.SetSclk(true);
    }

    method SetPowerdown()
      requires Valid()
      modifies bus, this`log
      ensures Valid() && log == old(log) + [(PWRDOWN, B(pbrb) + 2 * B(pbib))]
    {
      var e := WriteReg(PWRDOWN, B(pbrb) + 2 * B(pbib));
    }

    method SetIfNdiv(value: int) returns (e: Option<Error>)
      requires Valid()
      modifies bus, this`log
      ensures Valid() && (e.None? <==> 0 <= value <= 0xFFFF) && (e.Some? ==> e.value == BadDivider)
      ensures log == if e.None? then old(log) + [(IF_NDIV, value)] else old(log)
    {
      if value < 0 || value > 0xFFFF { return Some(BadDivider); }
      e := WriteReg(IF_NDIV, value);
    }

    method SetIfRdiv(value: int) returns (e: Option<Error>)
      requires Valid()
      modifies bus, this`log
      ensures Valid() && (e.None? <==> 0 <= value <= 0x1FFFF) && (e.Some? ==> e.value == BadDivider)
      ensures log == if e.None? then old(log) + [(IF_RDIV, value)] else old(log)
    {
      if value < 0 || value > 0x1FFFF { return Some(BadDivider); }
      e := WriteReg(IF_RDIV, value);
    }

    /** Both dividers, stopping at the first that is out of range. */
    method SetDividers() returns (e: Option<Error>)
      requires Valid()
      modifies bus, this`log
      ensures Valid() && log == old(log) + DividerWrites(ifN, ifR)
      ensures e == if 0 <= ifN <= 0xFFFF && 0 <= ifR <= 0x1FFFF then None else Some(BadDivider)
    {
      e := SetIfNdiv(ifN);
      if e.None? {
        e := SetIfRdiv(ifR);
      }
    }

    method Start() returns (e: Option<Error>)
      requires Valid()
      modifies bus, this
      ensures Valid() && ifDiv == old(ifDiv) && ifN == old(ifN) && ifR == old(ifR)
      ensures e == if old(state) == Ready then Some(AlreadyStarted)
                   else if 0 <= ifN <= 0xFFFF && 0 <= ifR <= 0x1FFFF then None else Some(BadDivider)
      ensures e == Some(AlreadyStarted) ==> log == old(log) && pbib == old(pbib) && pbrb == old(pbrb)
      ensures e != Some(AlreadyStarted) ==> pbib && !pbrb
      ensures e != Some(AlreadyStarted) ==>
        log == old(log) + StartWrites(ifDiv) + DividerWrites(ifN, ifR) +
               (if e.None? then [(PWRDOWN, 2)] else [])
      ensures state == if e.None? then Ready else old(state)
    {
      hide Replay, ConfigWord;
      if state == Ready { return Some(AlreadyStarted); }
      pbib, pbrb := false, false;
      e := WriteReg(CONFIG, ConfigWord(false, true, false, false, ifDiv, LOCKDET));
      e := WriteReg(PHASE_GAIN, 0);
      SetPowerdown();
      assert log == old(log) + StartWrites(ifDiv);
      pbib := true;
      e := SetDividers();
      if e.None? {
        SetPowerdown();
        state := Ready;
      }
    }

    method StopChip()
      requires Valid()
      modifies bus, this
      ensures Valid() && state == Stop && !pbib && !pbrb
      ensures ifDiv == old(ifDiv) && ifN == old(ifN) && ifR == old(ifR)
      ensures log == old(log) + if old(state) == Ready then [(PWRDOWN, 0), (CONFIG, 0)] else []
    {
      hide Replay;
      pbib, pbrb := false, false;
      if state == Ready {
        SetPowerdown();
        var e := WriteReg(CONFIG, 0);
      }
      state := Stop;
    }

    /**
     For positive frequencies the dividers found are always programmed, and they synthesize the
     frequency shifted left by the divider code.
     */
    method SetIf(freq: int) returns (e: Option<Error>)
      requires Valid()
      modifies bus, this
      ensures Valid() && ifDiv == old(ifDiv) && state == old(state) && pbrb == old(pbrb)
      ensures var d := Dividers(refFreq, freq * Pow2(Code(ifDiv)));
        if d.Err? then
          e == Some(d.error) && log == old(log) && ifN == old(ifN) && ifR == old(ifR) && pbib == old(pbib)
        else
          (ifN, ifR) == d.value && (e.None? <==> pbib) && (e.Some? ==> e.value == BadDivider) &&
          log == old(log) + [(PWRDOWN, B(pbrb))] + DividerWrites(ifN, ifR) +
                 (if e.None? then [(PWRDOWN, B(pbrb) + 2)] else [])
      ensures freq > 0 && refFreq > 0 && Dividers(refFreq, freq * Pow2(Code(ifDiv))).Ok? ==>
        e.None? && ifN * refFreq == ifR * (freq * Pow2(Code(ifDiv))) && 0 < ifN && 0 < ifR
    {
      hide Replay, Dividers, Pow2;
      Pow2Codes();
      var d := CalcDiv(refFreq, freq * Pow2(Code(ifDiv)));
      if d.Err? { return Some(d.error); }
      ifN, ifR := d.value.0, d.value.1;
      pbib := false;
      SetPowerdown();
      e := SetDividers();
      if e.None? {
        pbib := true;
        SetPowerdown();
      }
    }

    method SetIfDiv(d: IfDiv)
      requires Valid()
      modifies bus, this`log, this`ifDiv
      ensures Valid() && ifDiv == d
      ensures log == old(log) + [(CONFIG, ConfigWord(false, false, false, false, d, 0))]
    {
      ifDiv := d;
      var e := WriteReg(CONFIG, ConfigWord(false, false, false, false, d, 0));
    }
  }

  /** The writes that begin a start: configuration, phase gain, and everything powered down. */
  function StartWrites(d: IfDiv): WriteLog
  {
    [(CONFIG, ConfigWord(false, true, false, false, d, LOCKDET)), (PHASE_GAIN, 0), (PWRDOWN, 0)]
  }

  /** The divider writes that are made before an out-of-range value stops them. */
  function DividerWrites(n: int, r: int): WriteLog
  {
    if !(0 <= n <= 0xFFFF) then []
    else if !(0 <= r <= 0x1FFFF) then [(IF_NDIV, n)]
    else [(IF_NDIV, n), (IF_RDIV, r)]
  }

  /**
   The writes of a start by their addresses, and what they leave in the chip: the configuration of the mode,
   both dividers, and power to the IF alone; until the dividers are written nothing has power.
   */
  lemma StartLeaves(regs: map<nat, nat>, d: IfDiv, n: nat, r: nat)
    requires n <= 0xFFFF && r <= 0x1FFFF
    ensures StartWrites(d) + DividerWrites(n, r) + [(PWRDOWN, 2)] ==
            [(0, ConfigWord(false, true, false, false, d, 3)), (1, 0), (2, 0), (5, n), (8, r), (2, 2)]
    ensures var after := Replay(regs, StartWrites(d) + DividerWrites(n, r) + [(PWRDOWN, 2)]);
      {0, 1, 2, 5, 8} <= after.Keys &&
      after[0] == ConfigWord(false, true, false, false, d, 3) && after[1] == 0 && after[2] == 2 &&
      after[5] == n && after[8] == r && after.Keys == regs.Keys + {0, 1, 2, 5, 8}
  {
    hide ConfigWord, Replay;
    var w := ConfigWord(false, true, false, false, d, 3);
    NoWrites(regs);
    ReplayAppend(regs, [], 0, w);
    ReplayAppend(regs, [(0, w)], 1, 0);
    ReplayAppend(regs, [(0, w), (1, 0)], 2, 0);
    ReplayAppend(regs, [(0, w), (1, 0), (2, 0)], 5, n);
    ReplayAppend(regs, [(0, w), (1, 0), (2, 0), (5, n)], 8, r);
    ReplayAppend(regs, [(0, w), (1, 0), (2, 0), (5, n), (8, r)], 2, 2);
    assert [] + [(0, w)] == [(0, w)] && [(0, w)] + [(1, 0)] == [(0, w), (1, 0)];
    assert [(0, w), (1, 0)] + [(2, 0)] == [(0, w), (1, 0), (2, 0)];
    assert [(0, w), (1, 0), (2, 0)] + [(5, n)] == [(0, w), (1, 0), (2, 0), (5, n)];
    assert [(0, w), (1, 0), (2, 0), (5, n)] + [(8, r)] == [(0, w), (1, 0), (2, 0), (5, n), (8, r)];
    assert [(0, w), (1, 0), (2, 0), (5, n), (8, r)] + [(2, 2)] == [(0, w), (1, 0), (2, 0), (5, n), (8, r), (2, 2)];
  }

  lemma NoWrites(regs: map<nat, nat>)
    ensures Replay(regs, []) == regs
  {
  }

  lemma Pow2Codes()
    ensures Pow2(0) == 1 && Pow2(1) == 2 && Pow2(3) == 8 && Pow2(4) == 16
  {
    assert Pow2(2) == 4;
  }

  /**
   Shifting by the divider's code is multiplying by its ratio only for DIV1 and DIV2: the programmed
   dividers, followed by the IF divider the mode names, give the requested frequency exactly then.
   */
  lemma SetIfFrequency(refFreq: nat, freq: nat, d: IfDiv, n: nat, r: nat)
    requires refFreq > 0 && freq > 0
    requires Dividers(refFreq, freq * Pow2(Code(d))) == Ok((n, r))
    ensures n * refFreq == r * (freq * Ratio(d)) <==> d == DIV1 || d == DIV2
  {
    Pow2Codes();
    DividersExact(refFreq, freq * Pow2(Code(d)));
    assert n * refFreq == r * (freq * Pow2(Code(d)));
    if n * refFreq == r * (freq * Ratio(d)) {
      Algebra.CancelFactor(freq * Ratio(d), freq * Pow2(Code(d)), r);
      Algebra.CancelFactor(Ratio(d), Pow2(Code(d)), freq);
    }
  }
}
