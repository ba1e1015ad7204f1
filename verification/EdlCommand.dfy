/**
 The EDL C3 command codec: one octet of command code followed by the arguments of a request or
 the values of a response, laid out by a fixed format or by a callback with a variable tail.
 */
module EdlCommand {
  import opened Octets

  // struct format characters `?`, `B`, `H`, `I` and `f`.
  datatype Field = FBool | FU8 | FU16 | FU32 | FFloat

  type Float32 = s: bytes | |s| == 4 witness [0, 0, 0, 0]

  datatype Value =
    | VBool(flag: bool)
    | VInt(n: int)
    | VFloat(octets: Float32)   // the four octets of the IEEE 754 single
    | VText(utf8: bytes)        // a str, by its UTF-8 octets
    | VBytes(raw: bytes)

  /** Byte order of multi-octet fields: `<` is Little, `=` is the order of the host. */
  datatype Order = Little | Big

  datatype Error = StructError | IndexError | TypeError | UnknownCode

  // ----- struct.pack and struct.unpack with fixed-size fields -----

  function Width(f: Field): nat
  {
    match f case FBool => 1 case FU8 => 1 case FU16 => 2 case FU32 => 4 case FFloat => 4
  }

  function CalcSize(fmt: seq<Field>): nat
  {
    if fmt == [] then 0 else Width(fmt[0]) + CalcSize(fmt[1..])
  }

  function PutInt(order: Order, n: nat, k: nat): (s: bytes)
    ensures |s| == k
  {
    if order == Little then LittleEndian(n, k) else BigEndian(n, k)
  }

  function GetInt(order: Order, s: bytes): nat
  {
    if order == Little then FromLittleEndian(s) else FromBigEndian(s)
  }

  predicate Fits(f: Field, v: Value)
  {
    match f
    case FBool => v.VBool?
    case FFloat => v.VFloat?
    case _ => v.VInt? && 0 <= v.n < Pow256(Width(f))
  }

  function PutField(order: Order, f: Field, v: Value): (s: bytes)
    requires Fits(f, v)
    ensures |s| == Width(f)
  {
    match v
    case VBool(b) => [if b then 1 else 0]
    case VFloat(octets) => octets
    case VInt(n) => PutInt(order, n, Width(f))
  }

  function GetField(order: Order, f: Field, s: bytes): Value
    requires |s| == Width(f)
  {
    match f
    case FBool => VBool(s[0] != 0)
    case FFloat => VFloat(s)
    case _ => VInt(GetInt(order, s))
  }

  function StructPack(order: Order, fmt: seq<Field>, vs: seq<Value>): (r: Result<bytes, Error>)
    ensures r.Ok? <==> |fmt| == |vs| && forall i :: 0 <= i < |fmt| ==> Fits(fmt[i], vs[i])
    ensures r.Ok? ==> |r.value| == CalcSize(fmt)
    ensures r.Err? ==> r.error == StructError
  {
    if |fmt| != |vs| then Err(StructError)
    else if fmt == [] then Ok([])
    else if !Fits(fmt[0], vs[0]) then Err(StructError)
    else match StructPack(order, fmt[1..], vs[1..])
      case Err(e) => Err(e)
      case Ok(rest) => Ok(PutField(order, fmt[0], vs[0]) + rest)
  }

  function StructUnpack(order: Order, fmt: seq<Field>, raw: bytes): (r: Result<seq<Value>, Error>)
    ensures r.Ok? <==> |raw| == CalcSize(fmt)
    ensures r.Ok? ==> |r.value| == |fmt|
    ensures r.Err? ==> r.error == StructError
  {
    if |raw| != CalcSize(fmt) then Err(StructError)
    else if fmt == [] then Ok([])
    else match StructUnpack(order, fmt[1..], raw[Width(fmt[0])..])
      case Err(e) => Err(e)
      case Ok(rest) => Ok([GetField(order, fmt[0], raw[..Width(fmt[0])])] + rest)
  }

  lemma FieldRoundTrip(order: Order, f: Field, v: Value)
    requires Fits(f, v)
    ensures GetField(order, f, PutField(order, f, v)) == v
  {
    if v.VInt? {
      LittleEndianRoundTrip(v.n, Width(f));
      BigEndianRoundTrip(v.n, Width(f));
    }
  }

  lemma {:induction false} StructRoundTrip(order: Order, fmt: seq<Field>, vs: seq<Value>)
    requires StructPack(order, fmt, vs).Ok?
    ensures StructUnpack(order, fmt, StructPack(order, fmt, vs).value) == Ok(vs)
  {
    if fmt == [] {
    } else {
      FieldRoundTrip(order, fmt[0], vs[0]);
      StructRoundTrip(order, fmt[1..], vs[1..]);
      var raw := StructPack(order, fmt, vs).value;
      assert raw[Width(fmt[0])..] == StructPack(order, fmt[1..], vs[1..]).value;
      assert raw[..Width(fmt[0])] == PutField(order, fmt[0], vs[0]);
      assert vs == [vs[0]] + vs[1..];
    }
  }

  // ----- the command table -----

  type Code = c: int | 0 <= c <= 20

  datatype Kind = Request | Response

  /** What follows the code octet: nothing, a fixed format, or one of the three callback pairs. */
  datatype Layout =
    | Nothing
    | Fixed(fmt: seq<Field>)
    | SdoWrite
    | SdoRead
    | NodeFlash

  function RequestLayout(code: Code): Layout
  {
    if code in {0, 8} then Fixed([FBool])
    else if code in {5, 10, 12, 13} then Fixed([FU8])
    else if code == 6 then SdoWrite
    else if code == 11 then Fixed([FU8, FBool])
    else if code in {14, 17} then Fixed([FU32])
    else if code == 19 then Fixed([FU8, FU16, FU8])
    else if code == 20 then NodeFlash
    else Nothing
  }

  function ResponseLayout(code: Code): Layout
  {
    if code in {0, 7, 8, 10, 14, 15, 20} then Fixed([FBool])
    else if code in {5, 9, 11, 12, 13} then Fixed([FU8])
    else if code in {6, 17} then Fixed([FU32])
    else if code == 19 then SdoRead
    else Nothing
  }

  function LayoutOf(kind: Kind, code: Code): Layout
  {
    if kind == Request then RequestLayout(code) else ResponseLayout(code)
  }

  const SDO_WRITE_HEAD := [FU8, FU16, FU8, FU32]
  const SDO_READ_HEAD := [FU8, FU16, FU8, FU32, FU32]
  const FLASH_HEAD := [FU8, FFloat, FBool, FBool, FBool]

  // ----- the variable-tail callbacks -----

  /** A fixed little-endian head followed by the octets in the next value. */
  function PackHeadAndTail(head: seq<Field>, vs: seq<Value>): Result<bytes, Error>
  {
    var k := |head|;
    match StructPack(Little, head, if |vs| < k then vs else vs[..k])
    case Err(e) => Err(e)
    case Ok(raw) =>
      if |vs| <= k then Err(IndexError)
      else if !vs[k].VBytes? then Err(TypeError)
      else Ok(raw + vs[k].raw)
  }

  function UnpackHeadAndTail(head: seq<Field>, raw: bytes): Result<seq<Value>, Error>
  {
    var n := CalcSize(head);
    match StructUnpack(Little, head, Slice(raw, 0, n))
    case Err(e) => Err(e)
    case Ok(vs) => Ok(vs + [VBytes(Slice(raw, n, |raw|))])
  }

  /** `rstrip("\x00")`. */
  function StripNuls(s: bytes): (r: bytes)
    ensures r == [] || r[|r| - 1] != 0
    ensures r <= s && forall i :: |r| <= i < |s| ==> s[i] == 0
  {
    if s != [] && s[|s| - 1] == 0 then StripNuls(s[..|s| - 1]) else s
  }

  function Default(vs: seq<Value>, i: nat, d: Value): Value
  {
    if |vs| > i then vs[i] else d
  }

  /** The six flash arguments with the source's defaults for the last four. */
  function FlashArgs(vs: seq<Value>): (r: seq<Value>)
    requires |vs| >= 2
    ensures |r| == 6
  {
    [vs[0], vs[1],
     Default(vs, 2, VFloat([0, 0, 0, 0])), Default(vs, 3, VBool(true)),
     Default(vs, 4, VBool(true)), Default(vs, 5, VBool(false))]
  }

  function PackFlash(vs: seq<Value>): Result<bytes, Error>
  {
    if |vs| < 2 then Err(IndexError)
    else
      var a := FlashArgs(vs);
      match StructPack(Little, FLASH_HEAD, [a[0]] + a[2..])
      case Err(e) => Err(e)
      case Ok(raw) => if a[1].VText? then Ok(raw + a[1].utf8) else Err(TypeError)
  }

  function UnpackFlash(raw: bytes): Result<seq<Value>, Error>
  {
    var n := CalcSize(FLASH_HEAD);
    match StructUnpack(Little, FLASH_HEAD, Slice(raw, 0, n))
    case Err(e) => Err(e)
    case Ok(vs) => Ok([vs[0], VText(StripNuls(Slice(raw, n, |raw|)))] + vs[1..])
  }

  // ----- EdlCommandRequest and EdlCommandResponse -----

  /** A request's args or a response's values; the source allows a tuple or None. */
  datatype Message = Message(kind: Kind, code: Code, args: Option<seq<Value>>)

  function PackArgs(order: Order, layout: Layout, args: Option<seq<Value>>): Result<bytes, Error>
  {
    if layout.Nothing? then Ok([])
    else if args.None? then Err(TypeError)
    else match layout
      case Fixed(fmt) => StructPack(order, fmt, args.value)
      case SdoWrite => PackHeadAndTail(SDO_WRITE_HEAD, args.value)
      case SdoRead => PackHeadAndTail(SDO_READ_HEAD, args.value)
      case NodeFlash => PackFlash(args.value)
  }

  function UnpackArgs(order: Order, layout: Layout, raw: bytes): Result<seq<Value>, Error>
  {
    match layout
    case Nothing => Ok([])
    case Fixed(fmt) => StructUnpack(order, fmt, raw)
    case SdoWrite => UnpackHeadAndTail(SDO_WRITE_HEAD, raw)
    case SdoRead => UnpackHeadAndTail(SDO_READ_HEAD, raw)
    case NodeFlash => UnpackFlash(raw)
  }

  function Pack(order: Order, m: Message): Result<bytes, Error>
  {
    match PackArgs(order, LayoutOf(m.kind, m.code), m.args)
    case Err(e) => Err(e)
    case Ok(raw) => Ok([m.code] + raw)
  }

  function Unpack(order: Order, kind: Kind, raw: bytes): Result<Message, Error>
  {
    if raw == [] then Err(IndexError)
    else if raw[0] > 20 then Err(UnknownCode)
    else match UnpackArgs(order, LayoutOf(kind, raw[0]), raw[1..])
      case Err(e) => Err(e)
      case Ok(vs) => Ok(Message(kind, raw[0], Some(vs)))
  }

  // ----- the round trip -----

  /** The arguments the receiver ends up with for a message that packs. */
  function Received(layout: Layout, args: Option<seq<Value>>): seq<Value>
  {
    match layout
    case Nothing => []
    case Fixed(_) => args.GetOr([])
    case SdoWrite => TakeAtMost(args.GetOr([]), |SDO_WRITE_HEAD| + 1)
    case SdoRead => TakeAtMost(args.GetOr([]), |SDO_READ_HEAD| + 1)
    case NodeFlash =>
      var vs := args.GetOr([]);
      if |vs| < 2 then vs
      else
        var a := FlashArgs(vs);
        a[1 := if a[1].VText? then VText(StripNuls(a[1].utf8)) else a[1]]
  }

  function TakeAtMost(vs: seq<Value>, k: nat): seq<Value>
  {
    if |vs| <= k then vs else vs[..k]
  }

  /** What a caller checks before sending: nothing the layout would drop, fill in or strip. */
  predicate Canonical(m: Message)
  {
    m.args.Some? &&
    var vs := m.args.value;
    match LayoutOf(m.kind, m.code)
    case Nothing => vs == []
    case Fixed(_) => true
    case SdoWrite => |vs| == 5
    case SdoRead => |vs| == 6
    case NodeFlash =>
      |vs| == 6 && (vs[1].VText? ==> vs[1].utf8 == [] || vs[1].utf8[|vs[1].utf8| - 1] != 0)
  }

  lemma HeadAndTailRoundTrip(head: seq<Field>, vs: seq<Value>)
    requires PackHeadAndTail(head, vs).Ok?
    ensures |vs| > |head|
    ensures UnpackHeadAndTail(head, PackHeadAndTail(head, vs).value) ==
            Ok(TakeAtMost(vs, |head| + 1))
  {
    hide StructPack, StructUnpack, CalcSize;
    var k, n := |head|, CalcSize(head);
    var fixed := StructPack(Little, head, vs[..k]).value;
    var raw := PackHeadAndTail(head, vs).value;
    StructRoundTrip(Little, head, vs[..k]);
    assert Slice(raw, 0, n) == fixed;
    assert Slice(raw, n, |raw|) == vs[k].raw;
    assert vs[..k] + [VBytes(vs[k].raw)] == TakeAtMost(vs, k + 1);
  }

  lemma FlashRoundTrip(vs: seq<Value>)
    requires PackFlash(vs).Ok?
    ensures |vs| >= 2
    ensures UnpackFlash(PackFlash(vs).value) == Ok(Received(NodeFlash, Some(vs)))
  {
    hide StructPack, StructUnpack, CalcSize, StripNuls;
    var a, n := FlashArgs(vs), CalcSize(FLASH_HEAD);
    var fixed := [a[0]] + a[2..];
    var raw := PackFlash(vs).value;
    StructRoundTrip(Little, FLASH_HEAD, fixed);
    assert Slice(raw, 0, n) == StructPack(Little, FLASH_HEAD, fixed).value;
    assert Slice(raw, n, |raw|) == a[1].utf8;
    var name := VText(StripNuls(a[1].utf8));
    assert [fixed[0], name] + fixed[1..] == a[1 := name];
  }

  /** Every message that packs is read back, with the arguments the layout carries. */
  lemma RoundTrip(order: Order, m: Message)
    requires Pack(order, m).Ok?
    ensures Unpack(order, m.kind, Pack(order, m).value) ==
            Ok(m.(args := Some(Received(LayoutOf(m.kind, m.code), m.args))))
  {
    var layout := LayoutOf(m.kind, m.code);
    assert Pack(order, m).value[1..] == PackArgs(order, layout, m.args).value;
    match layout
    case Nothing =>
    case Fixed(fmt) => StructRoundTrip(order, fmt, m.args.value);
    case SdoWrite => HeadAndTailRoundTrip(SDO_WRITE_HEAD, m.args.value);
    case SdoRead => HeadAndTailRoundTrip(SDO_READ_HEAD, m.args.value);
    case NodeFlash => FlashRoundTrip(m.args.value);
  }

  /** A message comes back unchanged exactly when it is canonical. */
  lemma UnchangedIffCanonical(order: Order, m: Message)
    requires Pack(order, m).Ok?
    ensures Unpack(order, m.kind, Pack(order, m).value) == Ok(m) <==> Canonical(m)
  {
    RoundTrip(order, m);
    if m.args.Some? {
      var vs := m.args.value;
      match LayoutOf(m.kind, m.code)
      case Nothing =>
      case Fixed(_) =>
      case SdoWrite => HeadAndTailRoundTrip(SDO_WRITE_HEAD, vs);
      case SdoRead => HeadAndTailRoundTrip(SDO_READ_HEAD, vs);
      case NodeFlash => FlashUnchanged(vs);
    }
  }

  lemma FlashUnchanged(vs: seq<Value>)
    requires PackFlash(vs).Ok?
    ensures Received(NodeFlash, Some(vs)) == vs <==>
            |vs| == 6 && (vs[1].utf8 == [] || vs[1].utf8[|vs[1].utf8| - 1] != 0)
  {
    var a := FlashArgs(vs);
    StripNulsUnchanged(a[1].utf8);
    if |vs| == 6 {
      assert a == vs;
    }
  }

  lemma StripNulsUnchanged(s: bytes)
    ensures StripNuls(s) == s <==> s == [] || s[|s| - 1] != 0
  {
  }

  /** Every command with nothing in its layout is sent as its code alone, and loses any arguments. */
  lemma NullaryCommandDropsArguments(order: Order, m: Message)
    requires LayoutOf(m.kind, m.code).Nothing?
    ensures Pack(order, m) == Ok([m.code])
    ensures Unpack(order, m.kind, [m.code]) == Ok(m.(args := Some([])))
  {
    assert [m.code as byte] + [] == [m.code] && [m.code as byte][1..] == [];
  }

  // ----- octets on the wire -----

  /** One more field in front. */
  lemma PackCons(order: Order, f: Field, v: Value, fmt: seq<Field>, vs: seq<Value>)
    requires Fits(f, v) && StructPack(order, fmt, vs).Ok?
    ensures StructPack(order, [f] + fmt, [v] + vs) == Ok(PutField(order, f, v) + StructPack(order, fmt, vs).value)
  {
    assert ([f] + fmt)[1..] == fmt && ([v] + vs)[1..] == vs;
  }

  function U16(n: nat): bytes
  {
    [n % 256, n / 256 % 256]
  }

  function Octet(b: bool): byte
  {
    if b then 1 else 0
  }

  /** The three fields every SDO command begins with. */
  lemma SdoAddress(node: nat, index: nat, sub: nat, fmt: seq<Field>, rest: seq<Value>)
    requires node < 0x100 && index < 0x1_0000 && sub < 0x100 && StructPack(Little, fmt, rest).Ok?
    ensures StructPack(Little, [FU8, FU16, FU8] + fmt, [VInt(node), VInt(index), VInt(sub)] + rest) ==
            Ok([node] + U16(index) + [sub] + StructPack(Little, fmt, rest).value)
  {
    hide StructPack;
    Pow256Values();
    SmallOctets(node, index, sub);
    var f3, v3 := [FU8] + fmt, [VInt(sub)] + rest;
    var f2, v2 := [FU16] + f3, [VInt(index)] + v3;
    PackCons(Little, FU8, VInt(sub), fmt, rest);
    PackCons(Little, FU16, VInt(index), f3, v3);
    PackCons(Little, FU8, VInt(node), f2, v2);
    assert [FU8, FU16, FU8] + fmt == [FU8] + f2 && [VInt(node), VInt(index), VInt(sub)] + rest == [VInt(node)] + v2;
    assert [node] + (U16(index) + ([sub] + StructPack(Little, fmt, rest).value)) ==
           [node] + U16(index) + [sub] + StructPack(Little, fmt, rest).value;
  }

  lemma SmallOctets(node: nat, index: nat, sub: nat)
    requires node < 0x100 && index < 0x1_0000 && sub < 0x100
    ensures LittleEndian(node, 1) == [node] && LittleEndian(sub, 1) == [sub] && LittleEndian(index, 2) == U16(index)
  {
    OneOctet(node);
    OneOctet(sub);
    OneOctet(index / 256);
    hide LittleEndian;
    TwoOctets(index);
  }

  lemma OneOctet(n: nat)
    requires n < 0x100
    ensures LittleEndian(n, 1) == [n]
  {
  }

  lemma TwoOctets(n: nat)
    requires n < 0x1_0000 && LittleEndian(n / 256, 1) == [n / 256]
    ensures LittleEndian(n, 2) == U16(n)
  {
  }

  lemma OneWord(n: nat)
    requires n < 0x1_0000_0000
    ensures StructPack(Little, [FU32], [VInt(n)]) == Ok(LittleEndian(n, 4))
  {
    Pow256Values();
    hide LittleEndian;
    PackCons(Little, FU32, VInt(n), [], []);
    assert LittleEndian(n, 4) + [] == LittleEndian(n, 4);
  }

  lemma TwoWords(a: nat, b: nat)
    requires a < 0x1_0000_0000 && b < 0x1_0000_0000
    ensures StructPack(Little, [FU32, FU32], [VInt(a), VInt(b)]) == Ok(LittleEndian(a, 4) + LittleEndian(b, 4))
  {
    Pow256Values();
    hide LittleEndian, StructPack;
    OneWord(b);
    PackCons(Little, FU32, VInt(a), [FU32], [VInt(b)]);
    assert [FU32, FU32] == [FU32] + [FU32] && [VInt(a), VInt(b)] == [VInt(a)] + [VInt(b)];
  }

  /** The octets of an SDO write request, whatever the host's byte order. */
  lemma SdoWriteOnTheWire(order: Order, node: nat, index: nat, sub: nat, size: nat, buffer: bytes)
    requires node < 0x100 && index < 0x1_0000 && sub < 0x100 && size < 0x1_0000_0000
    ensures Pack(order, Message(Request, 6, Some([VInt(node), VInt(index), VInt(sub), VInt(size), VBytes(buffer)]))) ==
            Ok([6, node] + U16(index) + [sub] + LittleEndian(size, 4) + buffer)
  {
    hide StructPack, LittleEndian;
    var vs := [VInt(node), VInt(index), VInt(sub), VInt(size), VBytes(buffer)];
    OneWord(size);
    SdoAddress(node, index, sub, [FU32], [VInt(size)]);
    assert SDO_WRITE_HEAD == [FU8, FU16, FU8] + [FU32];
    assert vs[..4] == [VInt(node), VInt(index), VInt(sub)] + [VInt(size)];
    assert [6] + ([node] + U16(index) + [sub] + LittleEndian(size, 4) + buffer) ==
           [6, node] + U16(index) + [sub] + LittleEndian(size, 4) + buffer;
  }

  /** The octets of an SDO read response. */
  lemma SdoReadOnTheWire(order: Order, node: nat, index: nat, sub: nat, error: nat, size: nat, buffer: bytes)
    requires node < 0x100 && index < 0x1_0000 && sub < 0x100 && error < 0x1_0000_0000 && size < 0x1_0000_0000
    ensures Pack(order, Message(Response, 19,
              Some([VInt(node), VInt(index), VInt(sub), VInt(error), VInt(size), VBytes(buffer)]))) ==
            Ok([19, node] + U16(index) + [sub] + (LittleEndian(error, 4) + LittleEndian(size, 4)) + buffer)
  {
    hide StructPack, LittleEndian;
    var vs := [VInt(node), VInt(index), VInt(sub), VInt(error), VInt(size), VBytes(buffer)];
    TwoWords(error, size);
    SdoAddress(node, index, sub, [FU32, FU32], [VInt(error), VInt(size)]);
    assert SDO_READ_HEAD == [FU8, FU16, FU8] + [FU32, FU32];
    assert vs[..5] == [VInt(node), VInt(index), VInt(sub)] + [VInt(error), VInt(size)];
    assert [19] + ([node] + U16(index) + [sub] + (LittleEndian(error, 4) + LittleEndian(size, 4)) + buffer) ==
           [19, node] + U16(index) + [sub] + (LittleEndian(error, 4) + LittleEndian(size, 4)) + buffer;
  }

  /** The octets of a flash request: the file's name, given second, comes last. */
  lemma FlashOnTheWire(order: Order, node: nat, name: bytes, delay: Float32, block: bool, crc: bool, confirm: bool)
    requires node < 0x100
    ensures Pack(order, Message(Request, 20,
              Some([VInt(node), VText(name), VFloat(delay), VBool(block), VBool(crc), VBool(confirm)]))) ==
            Ok([20, node] + delay + [Octet(block), Octet(crc), Octet(confirm)] + name)
  {
    hide StructPack, LittleEndian, CalcSize, Octet;
    var vs := [VInt(node), VText(name), VFloat(delay), VBool(block), VBool(crc), VBool(confirm)];
    hide StructPack, LittleEndian;
    FlashHead(node, delay, block, crc, confirm);
    assert [vs[0]] + FlashArgs(vs)[2..] == [VInt(node), VFloat(delay), VBool(block), VBool(crc), VBool(confirm)];
    assert [20] + ([node] + delay + [Octet(block), Octet(crc), Octet(confirm)] + name) ==
           [20, node] + delay + [Octet(block), Octet(crc), Octet(confirm)] + name;
  }

  lemma FlashHead(node: nat, delay: Float32, block: bool, crc: bool, confirm: bool)
    requires node < 0x100
    ensures StructPack(Little, FLASH_HEAD, [VInt(node), VFloat(delay), VBool(block), VBool(crc), VBool(confirm)]) ==
            Ok([node] + delay + [Octet(block), Octet(crc), Octet(confirm)])
  {
    hide StructPack;
    Pow256Values();
    SmallOctets(node, 0, 0);
    FlashFlags(block, crc, confirm);
    var f, v := [FBool, FBool, FBool], [VBool(block), VBool(crc), VBool(confirm)];
    PackCons(Little, FFloat, VFloat(delay), f, v);
    PackCons(Little, FU8, VInt(node), [FFloat] + f, [VFloat(delay)] + v);
    assert FLASH_HEAD == [FU8] + ([FFloat] + f);
    assert [VInt(node), VFloat(delay), VBool(block), VBool(crc), VBool(confirm)] ==
           [VInt(node)] + ([VFloat(delay)] + v);
    assert [node] + (delay + [Octet(block), Octet(crc), Octet(confirm)]) ==
           [node] + delay + [Octet(block), Octet(crc), Octet(confirm)];
  }

  lemma FlashFlags(block: bool, crc: bool, confirm: bool)
    ensures StructPack(Little, [FBool, FBool, FBool], [VBool(block), VBool(crc), VBool(confirm)]) ==
            Ok([Octet(block), Octet(crc), Octet(confirm)])
  {
    hide StructPack;
    NoFields(Little);
    PackCons(Little, FBool, VBool(confirm), [], []);
    PackCons(Little, FBool, VBool(crc), [FBool] + [], [VBool(confirm)] + []);
    PackCons(Little, FBool, VBool(block), [FBool] + ([FBool] + []), [VBool(crc)] + ([VBool(confirm)] + []));
    assert [FBool, FBool, FBool] == [FBool] + ([FBool] + ([FBool] + []));
    assert [VBool(block), VBool(crc), VBool(confirm)] == [VBool(block)] + ([VBool(crc)] + ([VBool(confirm)] + []));
    assert [Octet(block)] + ([Octet(crc)] + ([Octet(confirm)] + [])) == [Octet(block), Octet(crc), Octet(confirm)];
  }

  lemma NoFields(order: Order)
    ensures StructPack(order, [], []) == Ok([])
  {
  }

  // ----- every fixed format -----

  lemma OneField(order: Order, f: Field, v: Value)
    requires Fits(f, v)
    ensures StructPack(order, [f], [v]) == Ok(PutField(order, f, v))
  {
    NoFields(order);
    PackCons(order, f, v, [], []);
    assert [f] + [] == [f] && [v] + [] == [v] && PutField(order, f, v) + [] == PutField(order, f, v);
  }

  lemma TwoFields(order: Order, f: Field, v: Value, g: Field, w: Value)
    requires Fits(f, v) && Fits(g, w)
    ensures StructPack(order, [f, g], [v, w]) == Ok(PutField(order, f, v) + PutField(order, g, w))
  {
    hide StructPack;
    OneField(order, g, w);
    PackCons(order, f, v, [g], [w]);
    assert [f] + [g] == [f, g] && [v] + [w] == [v, w];
  }

  /** An octet is packed as itself, in either byte order. */
  lemma OctetField(order: Order, n: nat)
    requires n < 0x100
    ensures Fits(FU8, VInt(n)) && PutField(order, FU8, VInt(n)) == [n]
  {
    Pow256Values();
    assert BigEndian(n, 1) == BigEndian(n / 256, 0) + [n % 256];
    assert LittleEndian(n, 1) == [n % 256] + LittleEndian(n / 256, 0);
  }

  /** A message whose layout is one flag, one octet, one word, or an octet and a flag. */
  predicate IsFlag(kind: Kind, code: Code)
  {
    if kind == Request then code == 0 || code == 8
    else code == 0 || code == 7 || code == 8 || code == 10 || code == 14 || code == 15 || code == 20
  }

  predicate IsOctet(kind: Kind, code: Code)
  {
    if kind == Request then code == 5 || code == 10 || code == 12 || code == 13
    else code == 5 || code == 9 || code == 11 || code == 12 || code == 13
  }

  predicate IsWord(kind: Kind, code: Code)
  {
    if kind == Request then code == 14 || code == 17 else code == 6 || code == 17
  }

  predicate IsEmpty(kind: Kind, code: Code)
  {
    if kind == Request then code in {1, 2, 3, 4, 7, 9, 15, 16, 18} else code in {1, 2, 3, 4, 16, 18}
  }

  /** Octets of the commands with one flag, and that nothing else than a flag packs. */
  lemma FlagOnTheWire(order: Order, kind: Kind, code: Code, args: Option<seq<Value>>)
    requires IsFlag(kind, code)
    ensures Pack(order, Message(kind, code, args)).Ok? <==> args.Some? && |args.value| == 1 && args.value[0].VBool?
    ensures Pack(order, Message(kind, code, args)).Ok? ==>
              Pack(order, Message(kind, code, args)) == Ok([code, if args.value[0].flag then 1 else 0])
  {
    if args.Some? && |args.value| == 1 && args.value[0].VBool? {
      OneField(order, FBool, args.value[0]);
      assert args.value == [args.value[0]];
      CodeFirst(code, if args.value[0].flag then 1 else 0);
    }
  }

  lemma CodeFirst(code: Code, x: byte)
    ensures [code as byte] + [x] == [code, x]
  {
  }

  lemma OctetOnTheWire(order: Order, kind: Kind, code: Code, args: Option<seq<Value>>)
    requires IsOctet(kind, code)
    ensures Pack(order, Message(kind, code, args)).Ok? <==>
              args.Some? && |args.value| == 1 && args.value[0].VInt? && 0 <= args.value[0].n < 256
    ensures Pack(order, Message(kind, code, args)).Ok? ==>
              Pack(order, Message(kind, code, args)) == Ok([code, args.value[0].n])
  {
    Pow256Values();
    if args.Some? && |args.value| == 1 && args.value[0].VInt? && 0 <= args.value[0].n < 256 {
      OctetField(order, args.value[0].n);
      OneField(order, FU8, args.value[0]);
      assert args.value == [args.value[0]];
      CodeFirst(code, args.value[0].n);
    }
  }

  /** A word goes out in the byte order of the host. */
  lemma WordOnTheWire(order: Order, kind: Kind, code: Code, args: Option<seq<Value>>)
    requires IsWord(kind, code)
    ensures Pack(order, Message(kind, code, args)).Ok? <==>
              args.Some? && |args.value| == 1 && args.value[0].VInt? && 0 <= args.value[0].n < 0x1_0000_0000
    ensures Pack(order, Message(kind, code, args)).Ok? ==>
              Pack(order, Message(kind, code, args)) ==
              Ok([code] + if order == Big then BigEndian(args.value[0].n, 4) else LittleEndian(args.value[0].n, 4))
  {
    Pow256Values();
    if args.Some? && |args.value| == 1 && args.value[0].VInt? && 0 <= args.value[0].n < 0x1_0000_0000 {
      OneField(order, FU32, args.value[0]);
      assert args.value == [args.value[0]];
    }
  }

  /** OPD_ENABLE: the address and the flag. */
  lemma OpdEnableOnTheWire(order: Order, n: nat, on: bool)
    requires n < 0x100
    ensures Pack(order, Message(Request, 11, Some([VInt(n), VBool(on)]))) == Ok([11, n, if on then 1 else 0])
  {
    OctetField(order, n);
    TwoFields(order, FU8, VInt(n), FBool, VBool(on));
    var x: byte := if on then 1 else 0;
    assert [11] + ([n] + [x]) == [11, n, x];
  }

  /** An SDO read request: unlike those with a buffer it goes out in the byte order of the host. */
  lemma SdoReadRequestOnTheWire(order: Order, node: nat, index: nat, sub: nat)
    requires node < 0x100 && index < 0x1_0000 && sub < 0x100
    ensures Pack(order, Message(Request, 19, Some([VInt(node), VInt(index), VInt(sub)]))) ==
            Ok([19, node] + (if order == Big then BigEndian(index, 2) else LittleEndian(index, 2)) + [sub])
  {
    hide StructPack, LittleEndian, BigEndian;
    Pow256Values();
    OctetField(order, node);
    OctetField(order, sub);
    TwoFields(order, FU16, VInt(index), FU8, VInt(sub));
    PackCons(order, FU8, VInt(node), [FU16, FU8], [VInt(index), VInt(sub)]);
    assert [FU8] + [FU16, FU8] == [FU8, FU16, FU8];
    assert [VInt(node)] + [VInt(index), VInt(sub)] == [VInt(node), VInt(index), VInt(sub)];
    assert [19] + ([node] + (PutInt(order, index, 2) + [sub])) == [19, node] + PutInt(order, index, 2) + [sub];
  }

  /** The commands with nothing but their code, and that the kinds of layout cover the whole table. */
  lemma EveryCommandHasItsLayout(kind: Kind, code: Code)
    ensures LayoutOf(kind, code).Nothing? <==> IsEmpty(kind, code)
    ensures IsEmpty(kind, code) || IsFlag(kind, code) || IsOctet(kind, code) || IsWord(kind, code) ||
            (if kind == Request then code in {6, 11, 19, 20} else code == 19)
  {
  }

  /**
   Which octets unpack: a known code, and then exactly the octets of its format, at least the octets of its
   head, or, for a code alone, anything at all.
   */
  lemma UnpacksIff(order: Order, kind: Kind, raw: bytes)
    ensures Unpack(order, kind, raw) == Err(IndexError) <==> raw == []
    ensures Unpack(order, kind, raw) == Err(UnknownCode) <==> raw != [] && raw[0] > 20
    ensures Unpack(order, kind, raw).Ok? <==>
              raw != [] && raw[0] <= 20 &&
              (if IsEmpty(kind, raw[0]) then true
               else if IsFlag(kind, raw[0]) || IsOctet(kind, raw[0]) then |raw| == 2
               else if IsWord(kind, raw[0]) then |raw| == 5
               else if raw[0] == 11 then |raw| == 3
               else if raw[0] == 19 && kind == Request then |raw| == 5
               else if raw[0] == 19 then |raw| >= 13
               else |raw| >= 9)
    ensures Unpack(order, kind, raw).Ok? ==>
              Unpack(order, kind, raw).value.kind == kind && Unpack(order, kind, raw).value.code == raw[0]
  {
    hide StructUnpack, StripNuls, CalcSize;
    Sizes();
    HeadSizes();
  }

  lemma Sizes()
    ensures CalcSize([FBool]) == CalcSize([FU8]) == 1 && CalcSize([FU8, FBool]) == 2 && CalcSize([FU32]) == 4
    ensures CalcSize([FU8, FU16, FU8]) == 4
  {
    SizeOf(FU8, [FU16, FU8]);
    SizeOf(FU16, [FU8]);
    SizeOf(FU8, [FBool]);
  }

  lemma HeadSizes()
    ensures CalcSize(FLASH_HEAD) == CalcSize(SDO_WRITE_HEAD) == 8 && CalcSize(SDO_READ_HEAD) == 12
  {
    hide CalcSize;
    Sizes();
    FlashHeadSize();
    SizeOfSdo([FU32]);
    SizeOfSdo([FU32, FU32]);
    SizeOf(FU32, [FU32]);
    assert SDO_WRITE_HEAD == [FU8, FU16, FU8] + [FU32] && SDO_READ_HEAD == [FU8, FU16, FU8] + [FU32, FU32];
    assert [FU32] + [FU32] == [FU32, FU32];
  }

  lemma FlashHeadSize()
    ensures CalcSize(FLASH_HEAD) == 8
  {
    SizeOf(FU8, [FFloat, FBool, FBool, FBool]);
    SizeOf(FFloat, [FBool, FBool, FBool]);
    SizeOf(FBool, [FBool, FBool]);
    SizeOf(FBool, [FBool]);
  }

  lemma SizeOfSdo(rest: seq<Field>)
    ensures CalcSize([FU8, FU16, FU8] + rest) == 4 + CalcSize(rest)
  {
    hide CalcSize;
    SizeOf(FU8, rest);
    SizeOf(FU16, [FU8] + rest);
    SizeOf(FU8, [FU16] + ([FU8] + rest));
    assert [FU8, FU16, FU8] + rest == [FU8] + ([FU16] + ([FU8] + rest));
  }

  lemma SizeOf(f: Field, rest: seq<Field>)
    ensures CalcSize([f] + rest) == Width(f) + CalcSize(rest)
  {
  }

  /** A flash request of a node and a file alone: no delay, a block transfer with its checksum, and no confirmation. */
  lemma FlashDefaultsOnTheWire(order: Order, node: nat, name: bytes)
    requires node < 0x100
    ensures Pack(order, Message(Request, 20, Some([VInt(node), VText(name)]))) ==
            Ok([20, node, 0, 0, 0, 0, 1, 1, 0] + name)
  {
    hide StructPack, LittleEndian;
    var zero: Float32 := [0, 0, 0, 0];
    FlashHead(node, zero, true, true, false);
    var vs := [VInt(node), VText(name)];
    assert [vs[0]] + FlashArgs(vs)[2..] == [VInt(node), VFloat(zero), VBool(true), VBool(true), VBool(false)];
    assert [20] + ([node] + zero + [Octet(true), Octet(true), Octet(false)] + name) ==
           [20, node, 0, 0, 0, 0, 1, 1, 0] + name;
  }

  lemma UnpackOne(order: Order, f: Field, raw: bytes)
    requires |raw| == Width(f)
    ensures StructUnpack(order, [f], raw) == Ok([GetField(order, f, raw)])
  {
    SizeOf(f, []);
    assert [f] + [] == [f] && [f][1..] == [] && raw[..|raw|] == raw && raw[|raw|..] == [];
    assert StructUnpack(order, [], []) == Ok([]);
    assert [GetField(order, f, raw)] + [] == [GetField(order, f, raw)];
  }

  /** Any octet but 0 is read as a flag that is set. */
  lemma FlagOffTheWire(order: Order, kind: Kind, code: Code, x: byte)
    requires IsFlag(kind, code)
    ensures Unpack(order, kind, [code, x]) == Ok(Message(kind, code, Some([VBool(x != 0)])))
  {
    assert [code as byte, x][1..] == [x];
    UnpackOne(order, FBool, [x]);
  }
}
