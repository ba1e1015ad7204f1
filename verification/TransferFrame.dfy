/**
 The USLP transfer frame of section 4.1 of CCSDS 732.1-B-2, as the driver's frame library packs
 and unpacks it for variable-length frames: primary header, insert zone, transfer frame data
 field, operational control field and frame error control field.
 */
module TransferFrames {
  import opened Octets

  /** The frame error control field: any function from octets to two octets. */
  type Fecf = s: bytes | |s| == 2 witness [0, 0]
  type Crc16 = bytes -> Fecf

  type Clcw = s: bytes | |s| == 4 witness [0, 0, 0, 0]

  datatype Error =
    | FieldRange            // a header field does not fit its width
    | Truncated             // truncated frames are not allowed for variable frames
    | BadVersion
    | BadLength
    | BadChecksum
    | BadConstructionRule   // a fixed-length rule in a variable-length frame
    | ShortIndex            // an index past the end of the raw octets
    | WrongSpacecraft
    | NoSpi                 // the VCID has no security parameter index
    | MissingKey
    | SequenceOverflow
    | InvalidHmac
    | NoInsertZone

  // Source is 0 and Dest is 1 on the wire (section 4.1.2.4).
  datatype SourceOrDest = Source | Dest

  datatype Header = Header(
    scid: nat, srcDest: SourceOrDest, vcid: nat, mapId: nat, frameLen: nat,
    bypass: bool, command: bool, ocfFlag: bool, vcfLen: nat, vcfCount: Option<nat>)

  datatype Frame = Frame(
    header: Header, insertZone: Option<bytes>, rule: nat, ident: nat, tfdz: bytes, ocf: Option<Clcw>)

  const PRIMARY_HEADER_LEN := 7
  const TFVN := 12

  function Bit(b: bool): (n: nat)
    ensures n <= 1
  {
    if b then 1 else 0
  }

  predicate FieldsFit(h: Header)
  {
    h.scid < 0x1_0000 && h.vcid < 64 && h.mapId < 16 && h.frameLen < 0x1_0000 && h.vcfLen < 8 &&
    (h.vcfCount.Some? <==> h.vcfLen > 0) &&
    (h.vcfCount.Some? ==> h.vcfCount.value < Pow256(h.vcfLen))
  }

  function PackHeader(h: Header): (r: Result<bytes, Error>)
    ensures r.Ok? <==> FieldsFit(h)
    ensures r.Ok? ==> |r.value| == PRIMARY_HEADER_LEN + h.vcfLen
    ensures r.Err? ==> r.error == FieldRange
  {
    if !FieldsFit(h) then Err(FieldRange)
    else
      Ok(IdOctets(h) + BigEndian(h.frameLen, 2) + [FlagOctet(h)] +
         BigEndian(h.vcfCount.GetOr(0), h.vcfLen))
  }

  /** Version, spacecraft, source or destination, VCID, MAP ID and a clear end-of-header flag. */
  function IdOctets(h: Header): (s: bytes)
    requires FieldsFit(h)
    ensures |s| == 4
  {
    [TFVN * 16 + h.scid / 4096,
     h.scid / 16 % 256,
     h.scid % 16 * 16 + Bit(h.srcDest.Dest?) * 8 + h.vcid / 8,
     h.vcid % 8 * 32 + h.mapId * 2]
  }

  function FlagOctet(h: Header): byte
    requires FieldsFit(h)
  {
    Bit(h.bypass) * 128 + Bit(h.command) * 64 + Bit(h.ocfFlag) * 8 + h.vcfLen
  }

  function ScidOf(a: int, b: int, c: int): int
  {
    a % 16 * 4096 + b * 16 + c / 16
  }

  function UnpackHeader(raw: bytes): (r: Result<Header, Error>)
  {
    if |raw| < PRIMARY_HEADER_LEN then Err(BadLength)
    else if raw[0] / 16 != TFVN then Err(BadVersion)
    else if raw[3] % 2 == 1 then Err(Truncated)
    else
      var vcfLen := raw[6] % 8;
      if |raw| < PRIMARY_HEADER_LEN + vcfLen then Err(BadLength)
      else
        var count := FromBigEndian(raw[7..7 + vcfLen]);
        Ok(Header(
             ScidOf(raw[0], raw[1], raw[2]),
             if raw[2] / 8 % 2 == 1 then Dest else Source,
             raw[2] % 8 * 8 + raw[3] / 32,
             raw[3] / 2 % 16,
             FromBigEndian(raw[4..6]),
             raw[6] / 128 == 1, raw[6] / 64 % 2 == 1, raw[6] / 8 % 2 == 1,
             vcfLen, if vcfLen == 0 then None else Some(count)))
  }

  /** The data field: construction rule and protocol identifier in one octet, then the data zone. */
  function PackTfdf(f: Frame): bytes
    requires f.rule < 8 && f.ident < 32
  {
    [f.rule * 32 + f.ident] + f.tfdz
  }

  predicate WellFormed(f: Frame)
  {
    3 <= f.rule < 8 && f.ident < 32 && (f.ocf.Some? <==> f.header.ocfFlag)
  }

  function Body(f: Frame): bytes
    requires f.rule < 8 && f.ident < 32
  {
    f.insertZone.GetOr([]) + PackTfdf(f) + (if f.ocf.Some? then f.ocf.value else [])
  }

  function PackFrame(f: Frame, crc: Crc16): Result<bytes, Error>
    requires WellFormed(f)
  {
    match PackHeader(f.header)
    case Err(e) => Err(e)
    case Ok(head) => var covered := head + Body(f); Ok(covered + crc(covered))
  }

  /** Unpacking is told the insert zone length (0 for none), which the frame does not carry. */
  function UnpackFrame(raw: bytes, insertZoneLen: nat, crc: Crc16): Result<Frame, Error>
  {
    match UnpackHeader(raw)
    case Err(e) => Err(e)
    case Ok(h) => UnpackBody(h, raw, insertZoneLen, crc)
  }

  function UnpackBody(h: Header, raw: bytes, insertZoneLen: nat, crc: Crc16): Result<Frame, Error>
  {
    var start := PRIMARY_HEADER_LEN + h.vcfLen + insertZoneLen;
    var end := |raw| - 2 - (if h.ocfFlag then 4 else 0);
    if |raw| != h.frameLen + 1 || end < start + 1 then Err(BadLength)
    else if raw[start] / 32 < 3 then Err(BadConstructionRule)
    else if crc(raw[..|raw| - 2]) != raw[|raw| - 2..] then Err(BadChecksum)
    else Ok(Frame(
              h,
              if insertZoneLen == 0 then None else Some(raw[start - insertZoneLen..start]),
              raw[start] / 32, raw[start] % 32, raw[start + 1..end],
              if h.ocfFlag then Some(raw[end..end + 4]) else None))
  }

  /** The frame the source builds and then rewrites in place. */
  class TransferFrame {
    const header: Header
    const rule: nat
    const ident: nat
    const ocf: Option<Clcw>
    var insertZone: Option<bytes>
    var tfdz: bytes

    constructor (f: Frame)
      ensures View() == f
    {
      header, rule, ident, ocf := f.header, f.rule, f.ident, f.ocf;
      insertZone, tfdz := f.insertZone, f.tfdz;
    }

    function View(): Frame
      reads this
    {
      Frame(header, insertZone, rule, ident, tfdz, ocf)
    }
  }

  // ----- round trips of the library layer -----

  lemma IdOctetsRoundTrip(h: Header)
    requires FieldsFit(h)
    ensures var o := IdOctets(h);
      o[0] / 16 == TFVN && o[3] % 2 == 0 && ScidOf(o[0], o[1], o[2]) == h.scid &&
      o[2] / 8 % 2 == Bit(h.srcDest.Dest?) && o[2] % 8 * 8 + o[3] / 32 == h.vcid &&
      o[3] / 2 % 16 == h.mapId
  {
    NibbleRoundTrip(TFVN, h.scid / 4096);
    ScidRoundTrip(h.scid);
    ThirdOctet(h.scid % 16, Bit(h.srcDest.Dest?), h.vcid / 8);
    FourthOctet(h.vcid % 8, h.mapId);
  }

  lemma NibbleRoundTrip(hi: nat, lo: nat)
    requires lo < 16
    ensures (hi * 16 + lo) / 16 == hi && (hi * 16 + lo) % 16 == lo
  {
  }

  lemma ScidRoundTrip(scid: nat)
    requires scid < 0x1_0000
    ensures scid / 4096 * 4096 + scid / 16 % 256 * 16 + scid % 16 == scid
  {
    assert scid / 16 / 256 == scid / 4096;
  }

  lemma ThirdOctet(a: nat, b: nat, c: nat)
    requires a < 16 && b < 2 && c < 8
    ensures var o := a * 16 + b * 8 + c; o / 16 == a && o / 8 % 2 == b && o % 8 == c
  {
  }

  lemma FourthOctet(a: nat, b: nat)
    requires a < 8 && b < 16
    ensures var o := a * 32 + b * 2; o / 32 == a && o / 2 % 16 == b && o % 2 == 0
  {
    assert (a * 32 + b * 2) / 2 == a * 16 + b;
  }

  lemma FlagOctetRoundTrip(h: Header)
    requires FieldsFit(h)
    ensures var o := FlagOctet(h);
      (o / 128 == 1 <==> h.bypass) && (o / 64 % 2 == 1 <==> h.command) &&
      (o / 8 % 2 == 1 <==> h.ocfFlag) && o % 8 == h.vcfLen
  {
  }

  /** Every header field is read back from the packed header, whatever follows it. */
  lemma HeaderRoundTrip(h: Header, rest: bytes)
    requires FieldsFit(h)
    ensures UnpackHeader(PackHeader(h).value + rest) == Ok(h)
  {
    hide IdOctets, FlagOctet, ScidOf, BigEndian, FromBigEndian, PackHeader;
    IdOctetsRoundTrip(h);
    FlagOctetRoundTrip(h);
    HeaderOctets(h, rest);
    HeaderNumbers(h);
  }

  lemma HeaderOctets(h: Header, rest: bytes)
    requires FieldsFit(h)
    ensures var raw, o := PackHeader(h).value + rest, IdOctets(h);
      |raw| >= 7 + h.vcfLen && raw[0] == o[0] && raw[1] == o[1] && raw[2] == o[2] && raw[3] == o[3] &&
      raw[4..6] == BigEndian(h.frameLen, 2) && raw[6] == FlagOctet(h) &&
      raw[7..7 + h.vcfLen] == BigEndian(h.vcfCount.GetOr(0), h.vcfLen)
  {
    hide IdOctets, FlagOctet, BigEndian;
    var raw := PackHeader(h).value + rest;
    assert raw[4..6] == BigEndian(h.frameLen, 2);
    assert raw[7..7 + h.vcfLen] == BigEndian(h.vcfCount.GetOr(0), h.vcfLen);
  }

  lemma HeaderNumbers(h: Header)
    requires FieldsFit(h)
    ensures FromBigEndian(BigEndian(h.frameLen, 2)) == h.frameLen
    ensures FromBigEndian(BigEndian(h.vcfCount.GetOr(0), h.vcfLen)) == h.vcfCount.GetOr(0)
  {
    Pow256Values();
    hide BigEndian, FromBigEndian;
    BigEndianRoundTrip(h.frameLen, 2);
    BigEndianRoundTrip(h.vcfCount.GetOr(0), h.vcfLen);
  }

  /** A frame whose length field is right is read back exactly as it was packed. */
  lemma FrameRoundTrip(f: Frame, crc: Crc16, insertZoneLen: nat)
    requires WellFormed(f) && PackFrame(f, crc).Ok?
    requires |f.insertZone.GetOr([])| == insertZoneLen
    requires f.insertZone.Some? <==> insertZoneLen > 0
    requires f.header.frameLen + 1 == |PackFrame(f, crc).value|
    ensures UnpackFrame(PackFrame(f, crc).value, insertZoneLen, crc) == Ok(f)
  {
    hide UnpackHeader, UnpackBody, PackHeader, Body, FieldsFit;
    var h := f.header;
    var head := PackHeader(h).value;
    var covered := head + Body(f);
    HeaderRoundTrip(h, Body(f) + crc(covered));
    assert covered + crc(covered) == head + (Body(f) + crc(covered));
    BodyRoundTrip(f, head, crc);
  }

  lemma BodyRoundTrip(f: Frame, head: bytes, crc: Crc16)
    requires WellFormed(f) && |head| == PRIMARY_HEADER_LEN + f.header.vcfLen
    requires f.insertZone.Some? ==> |f.insertZone.value| > 0
    requires f.header.frameLen == |head + Body(f)| + 1
    ensures var raw := head + Body(f) + crc(head + Body(f));
            UnpackBody(f.header, raw, |f.insertZone.GetOr([])|, crc) == Ok(f)
  {
    hide Body, PackTfdf;
    var zone, ocf := f.insertZone.GetOr([]), if f.ocf.Some? then f.ocf.value else [];
    var x := f.rule * 32 + f.ident;
    BodySections(f, head);
    Sections(head, zone, x, f.tfdz, ocf, crc(head + Body(f)));
    ThirdOctetOfTfdf(f.rule, f.ident);
  }

  lemma BodySections(f: Frame, head: bytes)
    requires WellFormed(f)
    ensures var ocf := if f.ocf.Some? then f.ocf.value else [];
      head + Body(f) == head + f.insertZone.GetOr([]) + [f.rule * 32 + f.ident] + f.tfdz + ocf
  {
  }

  lemma ThirdOctetOfTfdf(rule: nat, ident: nat)
    requires ident < 32
    ensures (rule * 32 + ident) / 32 == rule && (rule * 32 + ident) % 32 == ident
  {
  }

  lemma Sections(head: bytes, zone: bytes, x: byte, tfdz: bytes, ocf: bytes, fecf: Fecf)
    ensures var raw := head + zone + [x] + tfdz + ocf + fecf;
      var start := |head| + |zone|;
      var end := start + 1 + |tfdz|;
      raw[..|raw| - 2] == head + zone + [x] + tfdz + ocf && raw[|raw| - 2..] == fecf &&
      raw[|head|..start] == zone && raw[start] == x && raw[start + 1..end] == tfdz &&
      raw[end..end + |ocf|] == ocf
  {
    var raw := head + zone + [x] + tfdz + ocf + fecf;
    var start := |head| + |zone|;
    var end := start + 1 + |tfdz|;
    assert raw[..|raw| - 2] == head + zone + [x] + tfdz + ocf;
    assert raw[|head|..start] == zone;
    assert raw[start + 1..end] == tfdz;
    assert raw[end..end + |ocf|] == ocf;
  }

  // ----- the header on the wire -----

  /**
   The header as the standard lays it out, most significant bit first: 4 bits of version, 16 of
   spacecraft, 1 of source or destination, 6 of virtual channel, 4 of MAP and a clear end flag; the
   frame length; 1 bit each of bypass and command, 2 spare, 1 of control field flag, 3 of count length.
   */
  lemma HeaderOnTheWire(h: Header)
    requires FieldsFit(h)
    ensures var raw := PackHeader(h).value;
      FromBigEndian(raw[..4]) ==
        ((((TFVN * 0x1_0000 + h.scid) * 2 + Bit(h.srcDest.Dest?)) * 64 + h.vcid) * 16 + h.mapId) * 2 &&
      FromBigEndian(raw[4..6]) == h.frameLen &&
      raw[6] == ((Bit(h.bypass) * 2 + Bit(h.command)) * 4 * 2 + Bit(h.ocfFlag)) * 8 + h.vcfLen &&
      FromBigEndian(raw[7..]) == h.vcfCount.GetOr(0)
  {
    var raw := PackHeader(h).value;
    var id := IdOctets(h);
    Pow256Values();
    assert raw[..4] == id;
    assert raw[4..6] == BigEndian(h.frameLen, 2);
    assert raw[7..] == BigEndian(h.vcfCount.GetOr(0), h.vcfLen);
    hide BigEndian;
    BigEndianRoundTrip(h.frameLen, 2);
    BigEndianRoundTrip(h.vcfCount.GetOr(0), h.vcfLen);
    hide FromBigEndian;
    FourOctets(id);
    IdWord(h);
  }

  lemma IdWord(h: Header)
    requires FieldsFit(h)
    ensures var id := IdOctets(h);
      id[0] as int * 0x100_0000 + id[1] as int * 0x1_0000 + id[2] as int * 0x100 + id[3] ==
        ((((TFVN * 0x1_0000 + h.scid) * 2 + Bit(h.srcDest.Dest?)) * 64 + h.vcid) * 16 + h.mapId) * 2
  {
    hide Bit;
    ScidRoundTrip(h.scid);
    WordOf(h.scid / 4096, h.scid / 16 % 256, h.scid % 16, h.scid, Bit(h.srcDest.Dest?),
           h.vcid / 8, h.vcid % 8, h.vcid, h.mapId);
  }

  lemma WordOf(a: nat, b: nat, c: nat, scid: nat, d: nat, v: nat, w: nat, vcid: nat, mapId: nat)
    requires scid == a * 4096 + b * 16 + c && vcid == v * 8 + w
    ensures (TFVN * 16 + a) * 0x100_0000 + b * 0x1_0000 + (c * 16 + d * 8 + v) * 0x100 + (w * 32 + mapId * 2) ==
            ((((TFVN * 0x1_0000 + scid) * 2 + d) * 64 + vcid) * 16 + mapId) * 2
  {
  }

  // ----- packing again what was unpacked -----

  /** The first four octets of an unpacked header are packed again as they were. */
  lemma IdOctetsAgain(a: byte, b: byte, c: byte, d: byte)
    requires a / 16 == 12 && d % 2 == 0
    ensures var scid := ScidOf(a, b, c);
      12 * 16 + scid / 4096 == a && scid / 16 % 256 == b &&
      scid % 16 * 16 + c / 8 % 2 * 8 + (c % 8 * 8 + d / 32) / 8 == c &&
      (c % 8 * 8 + d / 32) % 8 * 32 + d / 2 % 16 * 2 == d
  {
    ScidDigits(a % 16, b, c / 16);
    ThirdDigits(c);
    FourthDigits(d);
    var v := c % 8 * 8 + d / 32;
    assert v / 8 == c % 8 && v % 8 == d / 32;
  }

  lemma ScidDigits(a: nat, b: nat, c: nat)
    requires a < 16 && b < 256 && c < 16
    ensures var scid := a * 4096 + b * 16 + c; scid / 4096 == a && scid / 16 % 256 == b && scid % 16 == c
  {
    assert (a * 4096 + b * 16 + c) / 16 == a * 256 + b;
  }

  lemma ThirdDigits(c: byte)
    ensures c / 16 * 16 + c / 8 % 2 * 8 + c % 8 == c
  {
  }

  lemma FourthDigits(d: byte)
    requires d % 2 == 0
    ensures d / 32 * 32 + d / 2 % 16 * 2 == d
  {
    assert d / 2 / 16 == d / 32;
  }

  lemma FlagOctetAgain(x: byte)
    ensures (if x / 128 == 1 then 1 else 0) * 128 + x / 64 % 2 * 64 + x / 16 % 4 * 16 + x / 8 % 2 * 8 + x % 8 == x
  {
  }

  lemma UnpackedFieldsFit(raw: bytes)
    requires UnpackHeader(raw).Ok?
    ensures FieldsFit(UnpackHeader(raw).value) && |raw| >= 7 + UnpackHeader(raw).value.vcfLen
  {
    Pow256Values();
    hide FromBigEndian, ScidOf;
    SmallScid(raw[0], raw[1], raw[2]);
  }

  lemma SmallScid(a: byte, b: byte, c: byte)
    ensures 0 <= ScidOf(a, b, c) < 0x1_0000
  {
  }

  lemma UnpackedNumbersAgain(raw: bytes)
    requires UnpackHeader(raw).Ok?
    ensures var h := UnpackHeader(raw).value;
      |raw| >= 7 + h.vcfLen && BigEndian(h.frameLen, 2) == raw[4..6] &&
      BigEndian(h.vcfCount.GetOr(0), h.vcfLen) == raw[7..7 + h.vcfLen]
  {
    hide ScidOf, FromBigEndian, BigEndian;
    BigEndianOfOctets(raw[4..6]);
    BigEndianOfOctets(raw[7..7 + raw[6] % 8]);
    NoOctets();
  }

  lemma NoOctets()
    ensures BigEndian(0, 0) == []
  {
  }

  lemma UnpackedOctetsAgain(raw: bytes)
    requires UnpackHeader(raw).Ok? && FieldsFit(UnpackHeader(raw).value)
    ensures var h := UnpackHeader(raw).value;
      IdOctets(h) == raw[..4] && FlagOctet(h) == raw[6] - raw[6] / 16 % 4 * 16
  {
    hide ScidOf, FromBigEndian, FieldsFit;
    IdOctetsAgain(raw[0], raw[1], raw[2], raw[3]);
    FlagOctetAgain(raw[6]);
    assert raw[..4] == [raw[0], raw[1], raw[2], raw[3]];
  }

  /** A header that unpacks is packed again as it was, but for its two spare bits, which are cleared. */
  lemma HeaderAgain(raw: bytes)
    requires UnpackHeader(raw).Ok?
    ensures var h := UnpackHeader(raw).value;
      FieldsFit(h) && |raw| >= 7 + h.vcfLen &&
      PackHeader(h) == Ok(raw[..6] + [raw[6] - raw[6] / 16 % 4 * 16] + raw[7..7 + h.vcfLen])
  {
    UnpackedFieldsFit(raw);
    UnpackedNumbersAgain(raw);
    UnpackedOctetsAgain(raw);
    hide UnpackHeader, FieldsFit, IdOctets, FlagOctet, BigEndian;
    assert raw[..4] + raw[4..6] == raw[..6];
  }

  lemma BodyAgain(h: Header, raw: bytes, insertZoneLen: nat, crc: Crc16)
    requires UnpackBody(h, raw, insertZoneLen, crc).Ok?
    ensures var f := UnpackBody(h, raw, insertZoneLen, crc).value;
      WellFormed(f) && f.header == h && 7 + h.vcfLen <= |raw| - 2 && Body(f) == raw[7 + h.vcfLen..|raw| - 2] &&
      crc(raw[..|raw| - 2]) == raw[|raw| - 2..]
  {
    var f := UnpackBody(h, raw, insertZoneLen, crc).value;
    var a := 7 + h.vcfLen;
    var start := a + insertZoneLen;
    var end := |raw| - 2 - if h.ocfFlag then 4 else 0;
    Cut(raw, a, start, |raw| - 2);
    Cut(raw, start, start + 1, |raw| - 2);
    Cut(raw, start + 1, end, |raw| - 2);
    assert raw[start..start + 1] == [raw[start]] == [f.rule * 32 + f.ident];
    assert f.insertZone.GetOr([]) == raw[a..start];
    assert (if f.ocf.Some? then f.ocf.value else []) == raw[end..|raw| - 2];
    assert PackTfdf(f) == raw[start..start + 1] + raw[start + 1..end];
    Joined(raw[a..start], raw[start..start + 1], raw[start + 1..end], raw[end..|raw| - 2]);
  }

  lemma Cut(s: bytes, a: nat, b: nat, c: nat)
    requires a <= b <= c <= |s|
    ensures s[a..c] == s[a..b] + s[b..c]
  {
  }

  lemma Joined(a: bytes, b: bytes, c: bytes, d: bytes)
    ensures a + (b + c) + d == a + (b + (c + d))
  {
  }

  lemma SixthOctet(raw: bytes, x: byte, v: nat)
    requires 7 + v <= |raw| - 2
    ensures raw[..6] + [x] + raw[7..7 + v] + raw[7 + v..|raw| - 2] == raw[..|raw| - 2] <==> x == raw[6]
  {
    var t := raw[..6] + [x] + raw[7..7 + v] + raw[7 + v..|raw| - 2];
    assert t[6] == x;
    if x == raw[6] {
      assert t == raw[..|raw| - 2];
    }
  }

  /**
   A frame that unpacks is packed again exactly as it was received, unless spare bits were set in it,
   which are lost.
   */
  lemma RepackedIff(raw: bytes, insertZoneLen: nat, crc: Crc16)
    requires UnpackFrame(raw, insertZoneLen, crc).Ok?
    ensures var f := UnpackFrame(raw, insertZoneLen, crc).value;
      WellFormed(f) && FieldsFit(f.header) && (PackFrame(f, crc) == Ok(raw) <==> raw[6] / 16 % 4 == 0)
  {
    HeaderAgain(raw);
    var h := UnpackHeader(raw).value;
    hide UnpackHeader, PackHeader, FieldsFit, Body, UnpackBody, WellFormed;
    BodyAgain(h, raw, insertZoneLen, crc);
    var f := UnpackFrame(raw, insertZoneLen, crc).value;
    var x := raw[6] - raw[6] / 16 % 4 * 16;
    SixthOctet(raw, x, h.vcfLen);
    var covered := PackHeader(h).value + Body(f);
    assert covered == raw[..6] + [x] + raw[7..7 + h.vcfLen] + raw[7 + h.vcfLen..|raw| - 2];
    SplitTail(raw, covered, crc(covered));
  }

  lemma SplitTail(raw: bytes, covered: bytes, tail: Fecf)
    requires |raw| >= 2
    ensures covered + tail == raw <==> covered == raw[..|raw| - 2] && tail == raw[|raw| - 2..]
  {
    if covered + tail == raw {
      assert (covered + tail)[..|raw| - 2] == covered;
      assert (covered + tail)[|raw| - 2..] == tail;
    }
  }
}
