/** The MAX7310 GPIO expander driver over its five registers. */
module Max7310s {
  import opened Octets

  const INPUT_PORT := 0
  const OUTPUT_PORT := 1
  const POLARITY_INVERSION := 2
  const CONFIGURATION := 3
  const TIMEOUT := 4

  datatype Error = InvalidPin | NoResponse

  /** The register values of a chip, in the order of their addresses. */
  type Regs = r: seq<bv8> | |r| == 5 witness [0, 0, 0, 0, 0]

  predicate IsPin(pin: int)
  {
    0 <= pin < 8
  }

  /** `1 << pin`. */
  function Mask(pin: int): (m: bv8)
    requires IsPin(pin)
  {
    if pin == 0 then 0x01 else if pin == 1 then 0x02 else if pin == 2 then 0x04 else if pin == 3 then 0x08
    else if pin == 4 then 0x10 else if pin == 5 then 0x20 else if pin == 6 then 0x40 else 0x80
  }

  predicate Bit(value: bv8, pin: int)
    requires IsPin(pin)
  {
    value & Mask(pin) != 0
  }

  predicate ArePins(pins: seq<int>)
  {
    forall p :: p in pins ==> IsPin(p)
  }

  function MaskOf(pins: seq<int>): bv8
    requires ArePins(pins)
  {
    if pins == [] then 0 else MaskOf(pins[..|pins| - 1]) | Mask(pins[|pins| - 1])
  }

  function Set(value: bv8, pins: seq<int>): bv8
    requires ArePins(pins)
  {
    value | MaskOf(pins)
  }

  function Clear(value: bv8, pins: seq<int>): bv8
    requires ArePins(pins)
  {
    value & !MaskOf(pins)
  }

  lemma MaskBit(p: int, q: int)
    requires IsPin(p) && IsPin(q)
    ensures Mask(p) & Mask(q) != 0 <==> p == q
  {
  }

  lemma {:induction false} MaskOfBit(pins: seq<int>, p: int)
    requires ArePins(pins) && IsPin(p)
    ensures Bit(MaskOf(pins), p) <==> p in pins
  {
    if pins == [] {
    } else {
      var n := |pins| - 1;
      assert pins == pins[..n] + [pins[n]];
      MaskOfBit(pins[..n], p);
      MaskBit(pins[n], p);
      OrBits(MaskOf(pins[..n]), Mask(pins[n]), Mask(p));
    }
  }

  /** Setting and clearing pins changes those pins and no other. */
  lemma SetAndClearBits(value: bv8, pins: seq<int>, p: int)
    requires ArePins(pins) && IsPin(p)
    ensures Bit(Set(value, pins), p) <==> p in pins || Bit(value, p)
    ensures Bit(Clear(value, pins), p) <==> p !in pins && Bit(value, p)
  {
    hide Set, Clear, Bit, MaskOf;
    MaskOfBit(pins, p);
    SetBit(value, pins, p);
    ClearBit(value, pins, p);
  }

  lemma SetBit(value: bv8, pins: seq<int>, p: int)
    requires ArePins(pins) && IsPin(p)
    ensures Bit(Set(value, pins), p) <==> Bit(MaskOf(pins), p) || Bit(value, p)
  {
    hide MaskOf;
    OrBits(value, MaskOf(pins), Mask(p));
  }

  lemma ClearBit(value: bv8, pins: seq<int>, p: int)
    requires ArePins(pins) && IsPin(p)
    ensures Bit(Clear(value, pins), p) <==> !Bit(MaskOf(pins), p) && Bit(value, p)
  {
    hide MaskOf;
    AndNotBits(value, MaskOf(pins), Mask(p));
  }

  lemma OrBits(a: bv8, b: bv8, m: bv8)
    requires m == 1 || m == 2 || m == 4 || m == 8 || m == 16 || m == 32 || m == 64 || m == 128
    ensures (a | b) & m != 0 <==> b & m != 0 || a & m != 0
  {
  }

  lemma AndNotBits(a: bv8, b: bv8, m: bv8)
    requires m == 1 || m == 2 || m == 4 || m == 8 || m == 16 || m == 32 || m == 64 || m == 128
    ensures (a & !b) & m != 0 <==> a & m != 0 && b & m == 0
  {
  }

  /** A chip that answers on the bus or does not; every access to one that does not raises. */
  class Max7310 {
    const regs: array<bv8>
    var responding: bool

    ghost predicate Valid()
    {
      regs.Length == 5
    }

    ghost function Values(): (r: Regs)
      requires Valid()
      reads this, regs
    {
      regs[..]
    }

    constructor (input: bv8, responding: bool)
      ensures Valid() && fresh(regs) && this.responding == responding
      ensures Values() == [input, 0x00, 0xF0, 0xFF, 0x01]
    {
      regs := new bv8[5] [input, 0x00, 0xF0, 0xFF, 0x01];
      this.responding := responding;
    }

    method ReadReg(reg: int) returns (r: Result<bv8, Error>)
      requires Valid() && 0 <= reg < 5
      ensures r == if responding then Ok(Values()[reg]) else Err(NoResponse)
    {
      r := if responding then Ok(regs[reg]) else Err(NoResponse);
    }

    method WriteReg(reg: int, data: bv8) returns (e: Option<Error>)
      requires Valid() && 0 <= reg < 5
      modifies regs
      ensures e == if responding then None else Some(NoResponse)
      ensures Values() == if responding then old(Values())[reg := data] else old(Values())
    {
      if !responding { return Some(NoResponse); }
      regs[reg] := data;
      e := None;
    }

    method Configure(outputPort: bv8, polarityInversion: bv8, configuration: bv8, timeout: bv8)
      returns (e: Option<Error>)
      requires Valid()
      modifies regs
      ensures e == if responding then None else Some(NoResponse)
      ensures Values() == if responding then [old(Values())[0], outputPort, polarityInversion, configuration, timeout]
                          else old(Values())
    {
      e := WriteReg(TIMEOUT, timeout);
      if e.Some? { return; }
      e := WriteReg(POLARITY_INVERSION, polarityInversion);
      e := WriteReg(OUTPUT_PORT, outputPort);
      e := WriteReg(CONFIGURATION, configuration);
    }

    method Reset() returns (e: Option<Error>)
      requires Valid()
      modifies regs
      ensures e == if responding then None else Some(NoResponse)
      ensures Values() == if responding then [old(Values())[0], 0x00, 0xF0, 0xFF, 0x01] else old(Values())
    {
      e := WriteReg(CONFIGURATION, 0xFF);
      if e.Some? { return; }
      e := WriteReg(OUTPUT_PORT, 0x00);
      e := WriteReg(POLARITY_INVERSION, 0xF0);
      e := WriteReg(TIMEOUT, 0x01);
    }

    /** The mask of the pins, or an error for one that does not exist. */
    method PinMask(pins: seq<int>) returns (r: Result<bv8, Error>)
      ensures r == if ArePins(pins) then Ok(MaskOf(pins)) else Err(InvalidPin)
    {
      hide Mask;
      var value: bv8 := 0;
      for i := 0 to |pins|
        invariant ArePins(pins[..i]) && value == MaskOf(pins[..i])
      {
        if !IsPin(pins[i]) { return Err(InvalidPin); }
        assert pins[..i + 1][..i] == pins[..i];
        value := value | Mask(pins[i]);
      }
      assert pins[..|pins|] == pins;
      r := Ok(value);
    }

    method OutputSet(pins: seq<int>) returns (e: Option<Error>)
      requires Valid()
      modifies regs
      ensures e == if !ArePins(pins) then Some(InvalidPin) else if responding then None else Some(NoResponse)
      ensures Values() == if e.None? then old(Values())[OUTPUT_PORT := Set(old(Values())[OUTPUT_PORT], pins)]
                          else old(Values())
    {
      var value := PinMask(pins);
      if value.Err? { return Some(value.error); }
      var result := ReadReg(OUTPUT_PORT);
      if result.Err? { return Some(result.error); }
      e := WriteReg(OUTPUT_PORT, result.value | value.value);
    }

    method OutputClear(pins: seq<int>) returns (e: Option<Error>)
      requires Valid()
      modifies regs
      ensures e == if !ArePins(pins) then Some(InvalidPin) else if responding then None else Some(NoResponse)
      ensures Values() == if e.None? then old(Values())[OUTPUT_PORT := Clear(old(Values())[OUTPUT_PORT], pins)]
                          else old(Values())
    {
      var value := PinMask(pins);
      if value.Err? { return Some(value.error); }
      var result := ReadReg(OUTPUT_PORT);
      if result.Err? { return Some(result.error); }
      e := WriteReg(OUTPUT_PORT, result.value & !value.value);
    }

    method OutputStatus(pin: int) returns (r: Result<bool, Error>)
      requires Valid() && IsPin(pin)
      ensures r == if responding then Ok(Bit(Values()[OUTPUT_PORT], pin)) else Err(NoResponse)
    {
      var result := ReadReg(OUTPUT_PORT);
      r := if result.Ok? then Ok(Bit(result.value, pin)) else Err(result.error);
    }

    method InputStatus(pin: int) returns (r: Result<bool, Error>)
      requires Valid() && IsPin(pin)
      ensures r == if responding then Ok(Bit(Values()[INPUT_PORT], pin)) else Err(NoResponse)
    {
      var result := ReadReg(INPUT_PORT);
      r := if result.Ok? then Ok(Bit(result.value, pin)) else Err(result.error);
    }
  }
}
