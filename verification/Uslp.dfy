/** Making and unpacking the link's USLP frames. */
module Uslp {
  import opened Octets
  import opened TransferFrames
  import opened Sdls

  const SPACECRAFT_ID := 0x4F53
  const DFH_LEN := 1
  const FECF_LEN := 2
  const TC_MIN_LEN := PRIMARY_HEADER_LEN + DFH_LEN + FECF_LEN

  // Construction rule 0b111: no segmentation; protocol identifier 0: space packets.
  const VP_NO_SEGMENTATION := 7
  const SPACE_PACKETS := 0

  datatype FrameArgs = FrameArgs(
    payload: bytes, vcid: nat, srcDest: SourceOrDest, key: Option<bytes>, vcfCount: Option<nat>,
    controlWord: Option<Clcw>, seqNum: nat, bypass: bool, command: bool)

  /** The frame before any security is applied, with a given length field. */
  function PlainFrame(a: FrameArgs, frameLen: nat): (f: Frame)
    ensures WellFormed(f)
  {
    Frame(
      Header(SPACECRAFT_ID, a.srcDest, a.vcid, 0, frameLen, a.bypass, a.command,
             a.controlWord.Some?, if a.vcfCount.Some? then 1 else 0, a.vcfCount),
      None, VP_NO_SEGMENTATION, SPACE_PACKETS, a.payload, a.controlWord)
  }

  predicate Secured(a: FrameArgs)
  {
    !a.command && a.vcid < 2
  }

  /** Octets on the wire, counted field by field from the frame layout. */
  function WireLength(a: FrameArgs): nat
  {
    PRIMARY_HEADER_LEN + (if a.vcfCount.Some? then 1 else 0) + (if Secured(a) then 6 else 0) +
    DFH_LEN + |a.payload| + (if Secured(a) then 32 else 0) +
    (if a.controlWord.Some? then 4 else 0) + FECF_LEN
  }

  /** What make_frame builds, or the error it raises. */
  function MadeFrame(a: FrameArgs, mac: MacFn): Result<Frame, Error>
  {
    if !a.command && SpiOf(a.vcid).None? then Err(NoSpi)
    else
      var f := PlainFrame(a, WireLength(a) - 1);
      if a.command then Ok(f)
      else match ApplyError(f, a.seqNum, a.key)
        case Some(e) => Err(e)
        case None => Ok(if Secured(a) then Applied(f, a.seqNum, a.key.value, mac) else f)
  }

  method MakeFrame(a: FrameArgs, mac: MacFn) returns (r: Result<TransferFrame, Error>)
    ensures r.Ok? ==> fresh(r.value) && MadeFrame(a, mac) == Ok(r.value.View())
    ensures r.Err? ==> MadeFrame(a, mac) == Err(r.error)
  {
    var vcfLen := if a.vcfCount.Some? then 1 else 0;
    var frameLen := |a.payload| + PRIMARY_HEADER_LEN + vcfLen + DFH_LEN + FECF_LEN - 1;
    if a.controlWord.Some? {
      frameLen := frameLen + |a.controlWord.value|;
    }
    if !a.command {
      var sdlsLen := Len(a.vcid);
      if sdlsLen.Err? { return Err(sdlsLen.error); }
      frameLen := frameLen + sdlsLen.value;
    }
    var frame := new TransferFrame(PlainFrame(a, frameLen));
    if !a.command {
      var e := Apply(frame, a.seqNum, a.key, mac);
      if e.Some? { return Err(e.value); }
    }
    return Ok(frame);
  }

  /** What unpack_frame returns, or the error it raises, in the source's order of checks. */
  function Unpacked(raw: bytes, crc: Crc16): Result<Frame, Error>
  {
    if |raw| < PRIMARY_HEADER_LEN then Err(ShortIndex)
    else
      var vcid := raw[2] % 8 * 8 + raw[3] / 32 % 8;
      var isCommand := raw[6] / 64 % 2 == 1;
      if !isCommand && SpiOf(vcid).None? then Err(NoSpi)
      else
        var zoneLen := if isCommand then 0 else HeaderLen(vcid).value;
        if |raw| < TC_MIN_LEN then Err(BadLength)
        else match UnpackFrame(raw, zoneLen, crc)
          case Err(e) => Err(e)
          case Ok(f) => if f.header.scid != SPACECRAFT_ID then Err(WrongSpacecraft) else Ok(f)
  }

  // ----- properties -----

  /**
   The documented error for a packet below the minimum length is raised exactly when the octets
   indexed before the length check exist and name a channel with a security parameter index.
   */
  lemma ShortPacketError(raw: bytes, crc: Crc16)
    requires |raw| < TC_MIN_LEN
    ensures Unpacked(raw, crc) == Err(BadLength) <==>
            |raw| >= PRIMARY_HEADER_LEN &&
            (raw[6] / 64 % 2 == 1 || (raw[2] % 8 == 0 && raw[3] / 32 <= 2))
  {
  }

  /** What a caller checks before sending. */
  predicate Sendable(a: FrameArgs)
  {
    (a.command || a.vcid <= 2) && a.vcid < 64 &&
    (Secured(a) ==> a.key.Some? && a.seqNum < 0x1_0000_0000) &&
    (a.vcfCount.Some? ==> a.vcfCount.value < 256) &&
    WireLength(a) <= 0x1_0000
  }

  lemma SendableIffPacks(a: FrameArgs, mac: MacFn, crc: Crc16)
    ensures Sendable(a) <==>
            MadeFrame(a, mac).Ok? && PackFrame(MadeFrame(a, mac).value, crc).Ok?
  {
    Pow256Values();
  }

  /** The computed length field is the number of octets on the wire, minus one. */
  lemma LengthFieldCounts(a: FrameArgs, mac: MacFn, crc: Crc16)
    requires Sendable(a)
    ensures var f := MadeFrame(a, mac); var raw := PackFrame(f.value, crc);
            f.Ok? && raw.Ok? && |raw.value| == WireLength(a) == f.value.header.frameLen + 1 &&
            FromBigEndian(raw.value[4..6]) == |raw.value| - 1
  {
    SendableIffPacks(a, mac, crc);
    var f := MadeFrame(a, mac).value;
    var raw := PackFrame(f, crc).value;
    Pow256Values();
    BigEndianRoundTrip(f.header.frameLen, 2);
    assert raw[4..6] == BigEndian(f.header.frameLen, 2);
  }

  /**
   Every frame that can be sent is unpacked into the same frame: the same header, the same insert
   zone or none, the same data zone and control word.
   */
  lemma FrameEndToEnd(a: FrameArgs, mac: MacFn, crc: Crc16)
    requires Sendable(a)
    ensures MadeFrame(a, mac).Ok?
    ensures var f := MadeFrame(a, mac).value;
            PackFrame(f, crc).Ok? && Unpacked(PackFrame(f, crc).value, crc) == Ok(f) &&
            (f.insertZone.Some? <==> Secured(a)) && f.ocf == a.controlWord
  {
    hide WireLength, Applied, UnpackFrame, PackFrame, FieldsFit, MadeFrame;
    LengthFieldCounts(a, mac, crc);
    var f := MadeFrame(a, mac).value;
    MadeFrameShape(a, mac);
    ChannelOnWire(f, crc);
    FrameRoundTrip(f, crc, if Secured(a) then 6 else 0);
  }

  lemma MadeFrameShape(a: FrameArgs, mac: MacFn)
    requires MadeFrame(a, mac).Ok?
    ensures var f := MadeFrame(a, mac).value;
      WellFormed(f) && f.header == PlainFrame(a, WireLength(a) - 1).header && f.ocf == a.controlWord &&
      if Secured(a) then f.insertZone.Some? && |f.insertZone.value| == 6 else f.insertZone.None?
  {
  }

  /** The octets unpack_frame indexes itself give the channel and the command flag. */
  lemma ChannelOnWire(f: Frame, crc: Crc16)
    requires WellFormed(f) && PackFrame(f, crc).Ok?
    ensures var raw := PackFrame(f, crc).value;
      |raw| >= TC_MIN_LEN && raw[2] % 8 * 8 + raw[3] / 32 % 8 == f.header.vcid &&
      (raw[6] / 64 % 2 == 1 <==> f.header.command)
  {
    hide IdOctets, FlagOctet, FieldsFit, Body;
    FirstOctets(f, crc);
    ChannelOctets(f.header);
  }

  /** Where the octets of the primary header lie in a packed frame. */
  lemma FirstOctets(f: Frame, crc: Crc16)
    requires WellFormed(f) && PackFrame(f, crc).Ok?
    ensures FieldsFit(f.header)
    ensures var (h, raw) := (f.header, PackFrame(f, crc).value);
      |raw| >= TC_MIN_LEN && raw[2] == IdOctets(h)[2] && raw[3] == IdOctets(h)[3] && raw[6] == FlagOctet(h)
  {
    hide IdOctets, FlagOctet;
  }

  lemma ChannelOctets(h: Header)
    requires FieldsFit(h)
    ensures IdOctets(h)[2] % 8 * 8 + IdOctets(h)[3] / 32 % 8 == h.vcid
    ensures FlagOctet(h) / 64 % 2 == 1 <==> h.command
  {
    IdOctetsRoundTrip(h);
    FlagOctetRoundTrip(h);
  }

  /** Verification at the far end returns the sequence number, and leaves the payload behind. */
  lemma SecureEndToEnd(a: FrameArgs, mac: MacFn, crc: Crc16)
    requires Sendable(a) && !a.command
    ensures MadeFrame(a, mac).Ok?
    ensures var f := MadeFrame(a, mac).value;
            PackFrame(f, crc).Ok? && Unpacked(PackFrame(f, crc).value, crc) == Ok(f) &&
            FieldsFit(f.header) &&
            VerifyResult(f, a.key, mac) == Ok(if Secured(a) then a.seqNum else 0) &&
            (if Secured(a) then DropTail(f.tfdz, HMAC_LEN) else f.tfdz) == a.payload
  {
    FrameEndToEnd(a, mac, crc);
    if Secured(a) {
      VerifyAfterApply(PlainFrame(a, WireLength(a) - 1), a.seqNum, a.key.value, mac);
    }
  }

  // ----- octets on the wire -----

  /** The primary header of a frame that can be sent. */
  function HeaderOctetsOf(a: FrameArgs): bytes
    requires Sendable(a)
  {
    [0xC4, 0xF5, 0x30 + Bit(a.srcDest.Dest?) * 8 + a.vcid / 8, a.vcid % 8 * 32] + BigEndian(WireLength(a) - 1, 2) +
    [Bit(a.bypass) * 128 + Bit(a.command) * 64 + Bit(a.controlWord.Some?) * 8 + Bit(a.vcfCount.Some?)] +
    if a.vcfCount.Some? then [a.vcfCount.value] else []
  }

  function ZoneOctetsOf(a: FrameArgs): bytes
    requires Sendable(a)
  {
    if Secured(a) then [0x00, 0x01] + BigEndian(a.seqNum, 4) else []
  }

  /** The data field: no segmentation, space packets, the payload, and on a secured channel its code. */
  function DataOctetsOf(a: FrameArgs, mac: MacFn): bytes
    requires Sendable(a)
  {
    [0xE0] + a.payload +
    if Secured(a) then
      mac(a.key.value, [0, 0, a.vcid / 8, a.vcid % 8 * 32, 0, 0, 0] + Zeros(Bit(a.vcfCount.Some?)) +
                       ZoneOctetsOf(a) + ([0xE0] + a.payload))
    else []
  }

  function ControlOctetsOf(a: FrameArgs): bytes
  {
    if a.controlWord.Some? then a.controlWord.value else []
  }

  function CoveredOctetsOf(a: FrameArgs, mac: MacFn): bytes
    requires Sendable(a)
  {
    HeaderOctetsOf(a) + (ZoneOctetsOf(a) + DataOctetsOf(a, mac) + ControlOctetsOf(a))
  }

  lemma PlainHeaderOctets(a: FrameArgs)
    requires Sendable(a)
    ensures var h := PlainFrame(a, WireLength(a) - 1).header;
      FieldsFit(h) && PackHeader(h) == Ok(HeaderOctetsOf(a))
  {
    Pow256Values();
    hide WireLength, BigEndian;
    if a.vcfCount.Some? {
      OneBigEndian(a.vcfCount.value);
    } else {
      NoBigEndian();
    }
    SpacecraftOctets();
  }

  lemma SpacecraftOctets()
    ensures TFVN * 16 + SPACECRAFT_ID / 4096 == 0xC4 && SPACECRAFT_ID / 16 % 256 == 0xF5
    ensures SPACECRAFT_ID % 16 * 16 == 0x30
  {
  }

  lemma OneBigEndian(n: nat)
    requires n < 256
    ensures BigEndian(n, 1) == [n]
  {
    assert BigEndian(n / 256, 0) == [];
  }

  lemma NoBigEndian()
    ensures BigEndian(0, 0) == []
  {
  }

  /** Every octet of a frame that can be sent, from the arguments it is made of. */
  lemma MadeOnTheWire(a: FrameArgs, mac: MacFn, crc: Crc16)
    requires Sendable(a)
    ensures MadeFrame(a, mac).Ok?
    ensures var covered := CoveredOctetsOf(a, mac);
      PackFrame(MadeFrame(a, mac).value, crc) == Ok(covered + crc(covered))
  {
    hide WireLength, BigEndian, HeaderOctetsOf, PackHeader, FieldsFit, AuthenticatedData, OctetsUnderCode;
    PlainHeaderOctets(a);
    var f := PlainFrame(a, WireLength(a) - 1);
    var g := MadeFrame(a, mac).value;
    if Secured(a) {
      AuthenticatedAre(f.header, SdlsHeader(a.seqNum), PackTfdf(f));
      PlainUnderCode(a);
    }
    assert Body(g) == ZoneOctetsOf(a) + DataOctetsOf(a, mac) + ControlOctetsOf(a);
  }

  lemma PlainUnderCode(a: FrameArgs)
    requires Sendable(a) && Secured(a) && FieldsFit(PlainFrame(a, WireLength(a) - 1).header)
    ensures var f := PlainFrame(a, WireLength(a) - 1);
      OctetsUnderCode(f.header, SdlsHeader(a.seqNum), PackTfdf(f)) ==
      [0, 0, a.vcid / 8, a.vcid % 8 * 32, 0, 0, 0] + Zeros(Bit(a.vcfCount.Some?)) + ZoneOctetsOf(a) +
      ([0xE0] + a.payload)
  {
    hide WireLength, FieldsFit;
  }

  // ----- what is refused -----

  /** Octets that make a frame, whatever the spacecraft: version, flags, lengths and checksum. */
  predicate Framed(raw: bytes, crc: Crc16)
  {
    |raw| >= 10 && raw[0] / 16 == 12 && raw[3] % 2 == 0 &&
    var (command, vcid) := (raw[6] / 64 % 2 == 1, raw[2] % 8 * 8 + raw[3] / 32);
    (command || vcid <= 2) &&
    var start := 7 + raw[6] % 8 + if !command && vcid < 2 then 6 else 0;
    start + 1 + (if raw[6] / 8 % 2 == 1 then 4 else 0) + 2 <= |raw| == raw[4] as int * 256 + raw[5] + 1 &&
    raw[start] / 32 >= 3 && crc(raw[..|raw| - 2]) == raw[|raw| - 2..]
  }

  function SpacecraftOf(raw: bytes): nat
    requires |raw| >= 3
  {
    raw[0] as int % 16 * 4096 + raw[1] as int * 16 + raw[2] / 16
  }

  lemma TwoOctetsBigEndian(s: bytes)
    requires |s| == 2
    ensures FromBigEndian(s) == s[0] as int * 256 + s[1]
  {
    assert s[..1][..0] == [];
    assert FromBigEndian(s[..1]) == s[0];
  }

  /** Which octets are accepted as a frame, and which are refused for naming another spacecraft. */
  lemma AcceptedIff(raw: bytes, crc: Crc16)
    ensures Unpacked(raw, crc).Ok? <==> Framed(raw, crc) && SpacecraftOf(raw) == 0x4F53
    ensures Unpacked(raw, crc) == Err(WrongSpacecraft) <==> Framed(raw, crc) && SpacecraftOf(raw) != 0x4F53
  {
    if |raw| >= 10 {
      TwoOctetsBigEndian(raw[4..6]);
      hide FromBigEndian;
      assert raw[3] / 32 % 8 == raw[3] / 32;
    }
  }

  /**
   What an accepted frame holds: packed again it is the octets received, but for spare bits; and it has an
   insert zone of six octets exactly on a secured channel.
   */
  lemma AcceptedHolds(raw: bytes, crc: Crc16)
    requires Unpacked(raw, crc).Ok?
    ensures var f := Unpacked(raw, crc).value;
      WellFormed(f) && FieldsFit(f.header) && |raw| >= 10 &&
      (PackFrame(f, crc) == Ok(raw) <==> raw[6] / 16 % 4 == 0) &&
      (f.insertZone.Some? <==> !f.header.command && f.header.vcid < 2) &&
      (f.insertZone.Some? ==> |f.insertZone.value| == 6)
  {
    hide UnpackFrame, PackFrame, FieldsFit;
    var zoneLen := if raw[6] / 64 % 2 == 1 then 0 else HeaderLen(raw[2] % 8 * 8 + raw[3] / 32 % 8).value;
    RepackedIff(raw, zoneLen, crc);
    ZoneOf(raw, zoneLen, crc);
  }

  lemma ZoneOf(raw: bytes, zoneLen: nat, crc: Crc16)
    requires UnpackFrame(raw, zoneLen, crc).Ok?
    ensures var f := UnpackFrame(raw, zoneLen, crc).value;
      (f.insertZone.Some? <==> zoneLen > 0) && (f.insertZone.Some? ==> |f.insertZone.value| == zoneLen) &&
      |raw| >= 7 && (f.header.command <==> raw[6] / 64 % 2 == 1) &&
      f.header.vcid == raw[2] % 8 * 8 + raw[3] / 32 % 8
  {
    hide FromBigEndian;
    assert raw[3] / 32 % 8 == raw[3] / 32;
  }
}
