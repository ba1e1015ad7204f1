/** EDL packets: a command or a file-transfer PDU carried in one USLP frame. */
module EdlPackets {
  import opened Octets
  import opened TransferFrames
  import opened Sdls
  import opened Uslp
  import C = EdlCommand

  const SRC_DEST_ORESAT := Dest

  /** A command message, or a CFDP PDU by its packed octets. */
  datatype Payload = Command(message: C.Message) | Pdu(octets: bytes)

  datatype EdlPacket = EdlPacket(payload: Payload, seqNum: nat, srcDest: SourceOrDest, bypass: bool)

  datatype PacketError = CodecError(c: C.Error) | FrameError(f: Error) | BadPdu | UnknownVcid

  /** Packet equality in the source ignores the bypass flag. */
  predicate SamePacket(p: EdlPacket, q: EdlPacket)
  {
    p.(bypass := false) == q.(bypass := false)
  }

  function VcidOf(p: Payload): nat
  {
    if p.Command? then 0 else 1
  }

  function PackPayload(order: C.Order, p: Payload): Result<bytes, PacketError>
  {
    match p
    case Pdu(octets) => Ok(octets)
    case Command(m) =>
      match C.Pack(order, m)
      case Err(e) => Err(CodecError(e))
      case Ok(raw) => Ok(raw)
  }

  /** The frame arguments `pack` passes on: no frame count and, whatever is asked, no control word. */
  function ArgsFor(p: EdlPacket, raw: bytes, key: bytes): FrameArgs
  {
    FrameArgs(raw, VcidOf(p.payload), p.srcDest, Some(key), None, None, p.seqNum, p.bypass, false)
  }

  function Packed(order: C.Order, p: EdlPacket, key: bytes, controlWord: Option<Clcw>,
                  mac: MacFn, crc: Crc16): Result<bytes, PacketError>
  {
    match PackPayload(order, p.payload)
    case Err(e) => Err(e)
    case Ok(raw) =>
      match MadeFrame(ArgsFor(p, raw, key), mac)
      case Err(e) => Err(FrameError(e))
      case Ok(f) =>
        match PackFrame(f, crc)
        case Err(e) => Err(FrameError(e))
        case Ok(octets) => Ok(octets)
  }

  method Pack(order: C.Order, p: EdlPacket, key: bytes, controlWord: Option<Clcw>,
              mac: MacFn, crc: Crc16) returns (r: Result<bytes, PacketError>)
    ensures r == Packed(order, p, key, controlWord, mac, crc)
  {
    var raw := PackPayload(order, p.payload);
    if raw.Err? { return Err(raw.error); }
    var frame := MakeFrame(ArgsFor(p, raw.value, key), mac);
    if frame.Err? { return Err(FrameError(frame.error)); }
    var octets := PackFrame(frame.value.View(), crc);
    if octets.Err? { return Err(FrameError(octets.error)); }
    return Ok(octets.value);
  }

  function UnpackPayload(order: C.Order, vcid: nat, srcDest: SourceOrDest, raw: bytes,
                         isPdu: bytes -> bool): Result<Payload, PacketError>
  {
    if vcid == 0 then
      match C.Unpack(order, if srcDest == SRC_DEST_ORESAT then C.Request else C.Response, raw)
      case Err(e) => Err(CodecError(e))
      case Ok(m) => Ok(Command(m))
    else if vcid == 1 then
      if isPdu(raw) then Ok(Pdu(raw)) else Err(BadPdu)
    else Err(UnknownVcid)
  }

  /** What from_frame returns; `isPdu` says which octets the PDU factory accepts. */
  function Received(order: C.Order, f: Frame, key: bytes, mac: MacFn, isPdu: bytes -> bool)
    : Result<EdlPacket, PacketError>
    requires WellFormed(f) && FieldsFit(f.header)
  {
    match VerifyResult(f, Some(key), mac)
    case Err(e) => Err(FrameError(e))
    case Ok(seqNum) =>
      var raw := if SpiOf(f.header.vcid) == Some(SdlsOresat) then DropTail(f.tfdz, HMAC_LEN) else f.tfdz;
      match UnpackPayload(order, f.header.vcid, f.header.srcDest, raw, isPdu)
      case Err(e) => Err(e)
      case Ok(payload) => Ok(EdlPacket(payload, seqNum, f.header.srcDest, false))
  }

  /** The source's `ignore_hmac` parameter is never read, so the code is always checked. */
  method FromFrame(order: C.Order, frame: TransferFrame, key: bytes, ignoreHmac: bool,
                   mac: MacFn, isPdu: bytes -> bool) returns (r: Result<EdlPacket, PacketError>)
    requires WellFormed(frame.View()) && FieldsFit(frame.header)
    modifies frame
    ensures r == Received(order, old(frame.View()), key, mac, isPdu)
  {
    var seqNum := Verify(frame, Some(key), mac);
    if seqNum.Err? { return Err(FrameError(seqNum.error)); }
    var payload := UnpackPayload(order, frame.header.vcid, frame.header.srcDest, frame.tfdz, isPdu);
    if payload.Err? { return Err(payload.error); }
    return Ok(EdlPacket(payload.value, seqNum.value, frame.header.srcDest, false));
  }

  // ----- the end-to-end property -----

  /** Requests travel to the spacecraft and responses to the ground. */
  predicate DirectionMatches(p: EdlPacket)
  {
    p.payload.Command? ==> (p.payload.message.kind == C.Request <==> p.srcDest == SRC_DEST_ORESAT)
  }

  /** The packet the far end should see. */
  function Expected(p: EdlPacket): EdlPacket
  {
    match p.payload
    case Pdu(_) => p.(bypass := false)
    case Command(m) =>
      var args := C.Received(C.LayoutOf(m.kind, m.code), m.args);
      EdlPacket(Command(m.(args := Some(args))), p.seqNum, p.srcDest, false)
  }

  /**
   Packing, transmitting and unpacking a packet in its own direction yields the packet, with the
   arguments its command carries, and a frame without a control word.
   */
  lemma PacketEndToEnd(order: C.Order, p: EdlPacket, key: bytes, controlWord: Option<Clcw>,
                       mac: MacFn, crc: Crc16, isPdu: bytes -> bool)
    requires Packed(order, p, key, controlWord, mac, crc).Ok?
    requires p.payload.Pdu? ==> isPdu(p.payload.octets)
    ensures var f := Unpacked(Packed(order, p, key, controlWord, mac, crc).value, crc);
            f.Ok? && WellFormed(f.value) && FieldsFit(f.value.header) && f.value.ocf.None? &&
            (DirectionMatches(p) ==>
               Received(order, f.value, key, mac, isPdu) == Ok(Expected(p))) &&
            (!DirectionMatches(p) ==>
               Received(order, f.value, key, mac, isPdu) != Ok(p.(bypass := false)))
  {
    var raw := PackPayload(order, p.payload).value;
    var a := ArgsFor(p, raw, key);
    SendableIffPacks(a, mac, crc);
    SecureEndToEnd(a, mac, crc);
    if p.payload.Command? {
      C.RoundTrip(order, p.payload.message);
    }
  }

  /**
   A packet comes back equal to the one sent exactly when it travels in its own direction and its
   command is canonical.
   */
  lemma SamePacketIff(order: C.Order, p: EdlPacket, key: bytes, controlWord: Option<Clcw>,
                      mac: MacFn, crc: Crc16, isPdu: bytes -> bool)
    requires Packed(order, p, key, controlWord, mac, crc).Ok?
    requires p.payload.Pdu? ==> isPdu(p.payload.octets)
    ensures var f := Unpacked(Packed(order, p, key, controlWord, mac, crc).value, crc);
            f.Ok? && WellFormed(f.value) && FieldsFit(f.value.header) &&
            var q := Received(order, f.value, key, mac, isPdu);
            (q.Ok? && SamePacket(q.value, p) <==>
             DirectionMatches(p) && (p.payload.Command? ==> C.Canonical(p.payload.message)))
  {
    PacketEndToEnd(order, p, key, controlWord, mac, crc, isPdu);
    if p.payload.Command? {
      C.RoundTrip(order, p.payload.message);
      C.UnchangedIffCanonical(order, p.payload.message);
    }
  }

  // ----- octets on the wire -----

  /**
   The octets of a packet before its checksum: the link's spacecraft and channel 0 for a command or 1 for a file,
   one octet less than the length, the bypass flag, the sequence number, and the payload with its code.
   */
  function PacketOctets(p: EdlPacket, payload: bytes, key: bytes, mac: MacFn): bytes
    requires |payload| + 47 < 0x1_0000
  {
    var channel := if p.payload.Command? then 0 else 1;
    var zone := [0x00, 0x01] + BigEndian(p.seqNum, 4);
    [0xC4, 0xF5, 0x30 + (if p.srcDest.Dest? then 8 else 0), channel * 32] + BigEndian(|payload| + 47, 2) +
    [if p.bypass then 128 else 0] + zone + [0xE0] + payload +
    mac(key, [0, 0, 0, channel * 32, 0, 0, 0] + zone + [0xE0] + payload)
  }

  lemma PackedOnTheWire(order: C.Order, p: EdlPacket, key: bytes, controlWord: Option<Clcw>, mac: MacFn, crc: Crc16)
    requires Packed(order, p, key, controlWord, mac, crc).Ok?
    ensures PackPayload(order, p.payload).Ok? && |PackPayload(order, p.payload).value| + 47 < 0x1_0000
    ensures var covered := PacketOctets(p, PackPayload(order, p.payload).value, key, mac);
      Packed(order, p, key, controlWord, mac, crc) == Ok(covered + crc(covered))
  {
    var a := ArgsFor(p, PackPayload(order, p.payload).value, key);
    hide PackFrame, PackPayload, MadeFrame, CoveredOctetsOf, PacketOctets, ArgsFor;
    SendableIffPacks(a, mac, crc);
    MadeOnTheWire(a, mac, crc);
    ArgsOnTheWire(p, PackPayload(order, p.payload).value, key, mac);
  }

  lemma LengthOf(p: EdlPacket, payload: bytes, key: bytes)
    ensures WireLength(ArgsFor(p, payload, key)) == |payload| + 48
  {
  }

  lemma PacketHeader(p: EdlPacket, payload: bytes, key: bytes)
    requires Sendable(ArgsFor(p, payload, key))
    ensures |payload| + 47 < 0x1_0000
    ensures var channel := if p.payload.Command? then 0 else 1;
      HeaderOctetsOf(ArgsFor(p, payload, key)) ==
      [0xC4, 0xF5, 0x30 + (if p.srcDest.Dest? then 8 else 0), channel * 32] + BigEndian(|payload| + 47, 2) +
      [if p.bypass then 128 else 0]
  {
    LengthOf(p, payload, key);
    hide BigEndian, WireLength;
    var channel := if p.payload.Command? then 0 else 1;
    SmallChannel(channel);
    AppendNothing([0xC4, 0xF5, 0x30 + (if p.srcDest.Dest? then 8 else 0), channel * 32] +
                  BigEndian(|payload| + 47, 2) + [if p.bypass then 128 else 0]);
  }

  lemma SmallChannel(channel: nat)
    requires channel < 2
    ensures channel / 8 == 0 && channel % 8 == channel
  {
  }

  lemma AppendNothing(s: bytes)
    ensures s + [] == s
  {
  }

  lemma PacketData(p: EdlPacket, payload: bytes, key: bytes, mac: MacFn)
    requires Sendable(ArgsFor(p, payload, key))
    ensures var channel := if p.payload.Command? then 0 else 1;
      var zone := [0x00, 0x01] + BigEndian(p.seqNum, 4);
      ZoneOctetsOf(ArgsFor(p, payload, key)) == zone &&
      DataOctetsOf(ArgsFor(p, payload, key), mac) ==
        [0xE0] + payload + mac(key, [0, 0, 0, channel * 32, 0, 0, 0] + zone + [0xE0] + payload)
  {
    hide BigEndian, Sendable;
    var channel := if p.payload.Command? then 0 else 1;
    var zone := [0x00, 0x01] + BigEndian(p.seqNum, 4);
    var first := [0, 0, 0, channel * 32, 0, 0, 0];
    assert first + Zeros(0) + zone + ([0xE0] + payload) == first + zone + [0xE0] + payload;
  }

  lemma ArgsOnTheWire(p: EdlPacket, payload: bytes, key: bytes, mac: MacFn)
    requires Sendable(ArgsFor(p, payload, key))
    ensures |payload| + 47 < 0x1_0000
    ensures CoveredOctetsOf(ArgsFor(p, payload, key), mac) == PacketOctets(p, payload, key, mac)
  {
    hide BigEndian, Sendable, HeaderOctetsOf, ZoneOctetsOf, DataOctetsOf;
    PacketHeader(p, payload, key);
    PacketData(p, payload, key, mac);
  }

  // ----- what is refused -----

  /**
   A frame is received as a packet exactly when it is on a secured channel, has an insert zone, ends in the
   right code, and what is left of its data zone parses; the packet is then what was under the code.
   */
  lemma ReceivedIffAuthentic(order: C.Order, f: Frame, key: bytes, mac: MacFn, isPdu: bytes -> bool)
    requires WellFormed(f) && FieldsFit(f.header)
    ensures var n := |f.tfdz| - 32;
      Received(order, f, key, mac, isPdu).Ok? <==>
        f.header.vcid < 2 && f.insertZone.Some? && n >= 0 &&
        f.tfdz[n..] ==
          mac(key, OctetsUnderCode(f.header, f.insertZone.value, [f.rule * 32 + f.ident] + f.tfdz[..n])) &&
        if f.header.vcid == 1 then isPdu(f.tfdz[..n])
        else C.Unpack(order, if f.header.srcDest == Dest then C.Request else C.Response, f.tfdz[..n]).Ok?
    ensures var n := |f.tfdz| - 32;
      Received(order, f, key, mac, isPdu).Ok? ==>
        n >= 0 && f.insertZone.Some? &&
        var (p, zone) := (Received(order, f, key, mac, isPdu).value, f.insertZone.value);
        p.seqNum == FromBigEndian(Slice(zone, 2, |zone|)) && p.srcDest == f.header.srcDest &&
        if f.header.vcid == 1 then p.payload == Pdu(f.tfdz[..n])
        else p.payload.Command? &&
             C.Unpack(order, if f.header.srcDest == Dest then C.Request else C.Response, f.tfdz[..n]) ==
               Ok(p.payload.message)
  {
    hide VerifyResult, OctetsUnderCode, FieldsFit, C.Unpack;
    RefusedUnlessSecured(f, Some(key), mac);
    if f.header.vcid < 2 && f.insertZone.Some? {
      AcceptedIffAuthentic(f, key, mac);
    }
  }

  /** A packet that packs, with any other 32 octets in place of its code, is refused for its code. */
  lemma ForgedCodeRefused(order: C.Order, p: EdlPacket, key: bytes, controlWord: Option<Clcw>, mac: MacFn, crc: Crc16,
                          isPdu: bytes -> bool, forged: Mac)
    requires Packed(order, p, key, controlWord, mac, crc).Ok?
    ensures var f := Unpacked(Packed(order, p, key, controlWord, mac, crc).value, crc);
      f.Ok? && WellFormed(f.value) && FieldsFit(f.value.header) && |f.value.tfdz| >= 32 &&
      var (g, n) := (f.value, |f.value.tfdz| - 32);
      forged != g.tfdz[n..] ==>
        Received(order, g.(tfdz := g.tfdz[..n] + forged), key, mac, isPdu) == Err(FrameError(InvalidHmac))
  {
    SentIsSecured(order, p, key, controlWord, mac, crc);
    hide Packed, Unpacked, VerifyResult, FieldsFit;
    OtherCodeRefused(Unpacked(Packed(order, p, key, controlWord, mac, crc).value, crc).value, key, mac, forged);
  }

  lemma SentIsSecured(order: C.Order, p: EdlPacket, key: bytes, controlWord: Option<Clcw>, mac: MacFn, crc: Crc16)
    requires Packed(order, p, key, controlWord, mac, crc).Ok?
    ensures var f := Unpacked(Packed(order, p, key, controlWord, mac, crc).value, crc);
      f.Ok? && WellFormed(f.value) && FieldsFit(f.value.header) && f.value.header.vcid < 2 &&
      VerifyResult(f.value, Some(key), mac).Ok?
  {
    var a := ArgsFor(p, PackPayload(order, p.payload).value, key);
    hide PackFrame, VerifyResult, Unpacked, FieldsFit, PackPayload;
    SendableIffPacks(a, mac, crc);
    SecureEndToEnd(a, mac, crc);
    MadeFrameShape(a, mac);
  }
}
