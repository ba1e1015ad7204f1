/**
 The link's security layer: an authentication header in the insert zone and a 32-octet message
 authentication code at the end of the data zone, over a masked primary header.
 */
module Sdls {
  import opened Octets
  import opened TransferFrames

  const HMAC_LEN := 32
  const SPI_LEN := 2
  const SEQ_NUM_LEN := 4

  /** The keyed digest: any function from key and message to 32 octets. */
  type Mac = s: bytes | |s| == 32 witness Zeros(32)
  type MacFn = (bytes, bytes) -> Mac

  // ----- the security parameter index of each virtual channel -----

  datatype Spi = SdlsOresat | SdlsEmpty

  /** `SPI_LIST[vcid]`, or None for an index past its end. */
  function SpiOf(vcid: nat): Option<Spi>
  {
    if vcid < 2 then Some(SdlsOresat) else if vcid == 2 then Some(SdlsEmpty) else None
  }

  function Len(vcid: nat): Result<nat, Error>
  {
    match SpiOf(vcid)
    case None => Err(NoSpi)
    case Some(spi) => Ok(if spi == SdlsOresat then HMAC_LEN + SPI_LEN + SEQ_NUM_LEN else 0)
  }

  function HeaderLen(vcid: nat): Result<nat, Error>
  {
    match SpiOf(vcid)
    case None => Err(NoSpi)
    case Some(spi) => Ok(if spi == SdlsOresat then SPI_LEN + SEQ_NUM_LEN else 0)
  }

  // ----- what is authenticated -----

  /** Bitwise and of two w-bit numbers. */
  function And(a: nat, b: nat, w: nat): (r: nat)
    ensures r <= a && r <= b
  {
    if w == 0 then 0 else a % 2 * (b % 2) + 2 * And(a / 2, b / 2, w - 1)
  }

  /** Every mask octet is 0 but for the VCID and MAP ID bits of octets 2 and 3. */
  function HeaderMask(vcfLen: nat): bytes
  {
    [0x00, 0x00, 0x07, 0xfe, 0x00, 0x00, 0x00] + Zeros(vcfLen)
  }

  function Masked(data: bytes, mask: bytes): (r: bytes)
    requires |mask| <= |data|
    ensures |r| == |data|
  {
    seq(|data|, i requires 0 <= i < |data| => if i < |mask| then And(data[i], mask[i], 8) else data[i])
  }

  /** The octets under the code: masked header, insert zone and data field. */
  function AuthenticatedData(head: bytes, vcfLen: nat, zone: bytes, tfdf: bytes): bytes
    requires |head| == PRIMARY_HEADER_LEN + vcfLen
  {
    Masked(head + zone + tfdf, HeaderMask(vcfLen))
  }

  function SdlsHeader(seqNum: nat): bytes
  {
    [0x00, 0x01] + BigEndian(seqNum, SEQ_NUM_LEN)
  }

  method MaskInPlace(a: array<byte>, mask: bytes)
    requires |mask| <= a.Length
    modifies a
    ensures a[..] == Masked(old(a[..]), mask)
  {
    for i := 0 to |mask|
      invariant forall k :: 0 <= k < i ==> a[k] == And(old(a[k]), mask[k], 8)
      invariant forall k :: i <= k < a.Length ==> a[k] == old(a[k])
    {
      a[i] := And(a[i], mask[i], 8);
    }
  }

  /** `header.pack() + zone + tfdf` in a fresh buffer, with the header masked there. */
  method BuildAuthenticatedData(head: bytes, vcfLen: nat, zone: bytes, tfdf: bytes) returns (r: bytes)
    requires |head| == PRIMARY_HEADER_LEN + vcfLen
    ensures r == AuthenticatedData(head, vcfLen, zone, tfdf)
  {
    var data := head + zone + tfdf;
    var buffer := new byte[|data|](i requires 0 <= i < |data| => data[i]);
    assert buffer[..] == data;
    MaskInPlace(buffer, HeaderMask(vcfLen));
    r := buffer[..];
  }

  // ----- apply and verify -----

  /** The frame after `apply`. */
  function Applied(f: Frame, seqNum: nat, key: bytes, mac: MacFn): Frame
    requires WellFormed(f) && FieldsFit(f.header)
  {
    var head := PackHeader(f.header).value;
    var zone := SdlsHeader(seqNum);
    f.(insertZone := Some(zone),
       tfdz := f.tfdz + mac(key, AuthenticatedData(head, f.header.vcfLen, zone, PackTfdf(f))))
  }

  /** The error `apply` raises, in the order the source meets them. */
  function ApplyError(f: Frame, seqNum: nat, key: Option<bytes>): Option<Error>
  {
    match SpiOf(f.header.vcid)
    case None => Some(NoSpi)
    case Some(SdlsEmpty) => None
    case Some(SdlsOresat) =>
      if key.None? then Some(MissingKey)
      else if seqNum >= 0x1_0000_0000 then Some(SequenceOverflow)
      else if !FieldsFit(f.header) then Some(FieldRange)
      else None
  }

  method Apply(frame: TransferFrame, seqNum: nat, key: Option<bytes>, mac: MacFn)
    returns (r: Option<Error>)
    requires WellFormed(frame.View())
    modifies frame
    ensures r == ApplyError(old(frame.View()), seqNum, key)
    ensures r.None? ==>
      frame.View() == if SpiOf(frame.header.vcid) == Some(SdlsEmpty) then old(frame.View())
                      else Applied(old(frame.View()), seqNum, key.value, mac)
    ensures r.Some? ==>
      frame.View() == if r.value == FieldRange
                      then old(frame.View()).(insertZone := Some(SdlsHeader(seqNum)))
                      else old(frame.View())
  {
    var spi := SpiOf(frame.header.vcid);
    if spi.None? { return Some(NoSpi); }
    if spi.value == SdlsEmpty { return None; }
    if key.None? { return Some(MissingKey); }
    if seqNum >= 0x1_0000_0000 { return Some(SequenceOverflow); }
    frame.insertZone := Some(SdlsHeader(seqNum));
    var head := PackHeader(frame.header);
    if head.Err? { return Some(FieldRange); }
    var data := BuildAuthenticatedData(
      head.value, frame.header.vcfLen, frame.insertZone.value, PackTfdf(frame.View()));
    frame.tfdz := frame.tfdz + mac(key.value, data);
    return None;
  }

  /** The code a received frame should carry. */
  function ExpectedMac(f: Frame, key: bytes, mac: MacFn): Mac
    requires WellFormed(f) && FieldsFit(f.header) && f.insertZone.Some?
  {
    mac(key, AuthenticatedData(PackHeader(f.header).value, f.header.vcfLen, f.insertZone.value,
                               DropTail(PackTfdf(f), HMAC_LEN)))
  }

  /** What `verify` returns: the sequence number, or the error it raises. */
  function VerifyResult(f: Frame, key: Option<bytes>, mac: MacFn): Result<nat, Error>
    requires WellFormed(f) && FieldsFit(f.header)
  {
    match SpiOf(f.header.vcid)
    case None => Err(NoSpi)
    case Some(SdlsEmpty) => Ok(0)
    case Some(SdlsOresat) =>
      if key.None? then Err(MissingKey)
      else if f.insertZone.None? then Err(NoInsertZone)
      else if ExpectedMac(f, key.value, mac) != Tail(f.tfdz, HMAC_LEN) then Err(InvalidHmac)
      else Ok(FromBigEndian(Slice(f.insertZone.value, 2, |f.insertZone.value|)))
  }

  /** The code is stripped from the data zone whether or not it was right. */
  method Verify(frame: TransferFrame, key: Option<bytes>, mac: MacFn) returns (r: Result<nat, Error>)
    requires WellFormed(frame.View()) && FieldsFit(frame.header)
    modifies frame
    ensures r == VerifyResult(old(frame.View()), key, mac)
    ensures frame.View() ==
            if r == Err(InvalidHmac) || (r.Ok? && SpiOf(frame.header.vcid) == Some(SdlsOresat))
            then old(frame.View()).(tfdz := DropTail(old(frame.tfdz), HMAC_LEN))
            else old(frame.View())
  {
    var spi := SpiOf(frame.header.vcid);
    if spi.None? { return Err(NoSpi); }
    if spi.value == SdlsEmpty { return Ok(0); }
    if key.None? { return Err(MissingKey); }
    if frame.insertZone.None? { return Err(NoInsertZone); }
    var zone := frame.insertZone.value;
    var data := BuildAuthenticatedData(
      PackHeader(frame.header).value, frame.header.vcfLen, zone,
      DropTail(PackTfdf(frame.View()), HMAC_LEN));
    var expected := mac(key.value, data);
    var actual := Tail(frame.tfdz, HMAC_LEN);
    frame.tfdz := DropTail(frame.tfdz, HMAC_LEN);
    if expected != actual { return Err(InvalidHmac); }
    return Ok(FromBigEndian(Slice(zone, 2, |zone|)));
  }

  // ----- properties -----

  /** Whatever the frame, verifying what apply produced gives back its sequence number. */
  lemma VerifyAfterApply(f: Frame, seqNum: nat, key: bytes, mac: MacFn)
    requires WellFormed(f) && FieldsFit(f.header)
    requires SpiOf(f.header.vcid) == Some(SdlsOresat) && seqNum < 0x1_0000_0000
    ensures var g := Applied(f, seqNum, key, mac);
            VerifyResult(g, Some(key), mac) == Ok(seqNum) && DropTail(g.tfdz, HMAC_LEN) == f.tfdz
  {
    var g := Applied(f, seqNum, key, mac);
    var zone := SdlsHeader(seqNum);
    Pow256Values();
    BigEndianRoundTrip(seqNum, SEQ_NUM_LEN);
    assert Slice(zone, 2, |zone|) == BigEndian(seqNum, SEQ_NUM_LEN);
    assert DropTail(PackTfdf(g), HMAC_LEN) == PackTfdf(f);
    assert DropTail(g.tfdz, HMAC_LEN) == f.tfdz;
  }

  lemma AndZero(a: nat, w: nat)
    ensures And(a, 0, w) == 0
  {
  }

  lemma AndLow3(a: byte)
    ensures And(a, 7, 8) == a % 8
  {
    AndZero(a / 2 / 2 / 2, 5);
    assert And(a / 2 / 2, 1, 6) == a / 2 / 2 % 2;
    assert And(a / 2, 3, 7) == a / 2 % 2 + 2 * (a / 2 / 2 % 2);
  }

  lemma AndOnes(a: nat, w: nat)
    requires a < Pow2(w)
    ensures And(a, Pow2(w) - 1, w) == a
  {
    if w > 0 {
      assert (Pow2(w) - 1) / 2 == Pow2(w - 1) - 1;
      AndOnes(a / 2, w - 1);
    }
  }

  lemma AndHigh7(a: byte)
    ensures And(a, 0xfe, 8) == a - a % 2
  {
    assert Pow2(4) == 16 && Pow2(7) == 128;
    AndOnes(a / 2, 7);
  }

  /** The masked header is all zero but for the VCID and MAP ID. */
  lemma MaskedHeader(h: Header, rest: bytes)
    requires FieldsFit(h)
    ensures Masked(PackHeader(h).value + rest, HeaderMask(h.vcfLen)) ==
            [0, 0, h.vcid / 8, h.vcid % 8 * 32 + h.mapId * 2, 0, 0, 0] + Zeros(h.vcfLen) + rest
  {
    var head := PackHeader(h).value;
    var all := head + rest;
    var mask := HeaderMask(h.vcfLen);
    var want := [0, 0, h.vcid / 8, h.vcid % 8 * 32 + h.mapId * 2, 0, 0, 0] + Zeros(h.vcfLen) + rest;
    MaskedIdOctets(h);
    assert all[2] == IdOctets(h)[2] && all[3] == IdOctets(h)[3];
    forall i | 0 <= i < |mask| && i != 2 && i != 3
      ensures And(all[i], mask[i], 8) == 0
    {
      AndZero(all[i], 8);
    }
    assert forall i :: |mask| <= i < |all| ==> all[i] == want[i];
    assert forall i :: 0 <= i < |all| ==> Masked(all, mask)[i] == want[i];
  }

  lemma MaskedIdOctets(h: Header)
    requires FieldsFit(h)
    ensures And(IdOctets(h)[2], 7, 8) == h.vcid / 8
    ensures And(IdOctets(h)[3], 0xfe, 8) == h.vcid % 8 * 32 + h.mapId * 2
  {
    AndLow3(IdOctets(h)[2]);
    AndHigh7(IdOctets(h)[3]);
    ThirdOctet(h.scid % 16, Bit(h.srcDest.Dest?), h.vcid / 8);
    FourthOctet(h.vcid % 8, h.mapId);
  }

  /**
   The code authenticates the VCID, the MAP ID, the length of the frame count, the insert zone and the
   data field, and nothing else of the header: two frames with the link's security header have equal
   authenticated octets exactly when these agree.
   */
  lemma AuthenticatedExactly(h1: Header, s1: nat, tfdf1: bytes, h2: Header, s2: nat, tfdf2: bytes)
    requires FieldsFit(h1) && FieldsFit(h2)
    requires s1 < 0x1_0000_0000 && s2 < 0x1_0000_0000
    ensures AuthenticatedData(PackHeader(h1).value, h1.vcfLen, SdlsHeader(s1), tfdf1) ==
            AuthenticatedData(PackHeader(h2).value, h2.vcfLen, SdlsHeader(s2), tfdf2)
       <==> h1.vcid == h2.vcid && h1.mapId == h2.mapId && h1.vcfLen == h2.vcfLen &&
            s1 == s2 && tfdf1 == tfdf2
  {
    hide AuthenticatedData, PackHeader, SdlsHeader, FromBigEndian, HeaderMask;
    var a1 := AuthenticatedData(PackHeader(h1).value, h1.vcfLen, SdlsHeader(s1), tfdf1);
    var a2 := AuthenticatedData(PackHeader(h2).value, h2.vcfLen, SdlsHeader(s2), tfdf2);
    AuthenticatedOctets(h1, s1, tfdf1);
    AuthenticatedOctets(h2, s2, tfdf2);
    if a1 == a2 {
      SameCountLength(a1, h1.vcfLen, h2.vcfLen);
      var v := 7 + h1.vcfLen;
      assert BigEndian(s1, 4) == a1[v + 2..v + 6] == a2[v + 2..v + 6] == BigEndian(s2, 4);
      assert tfdf1 == a1[v + 6..] == a2[v + 6..] == tfdf2;
      Pow256Values();
      BigEndianRoundTrip(s1, 4);
      BigEndianRoundTrip(s2, 4);
      assert a1[2] == a2[2] && a1[3] == a2[3];
    }
  }

  /** The first octet that is not zero after the masked header marks where the frame count ends. */
  lemma SameCountLength(a: bytes, v1: nat, v2: nat)
    requires |a| >= 9 + v1 && |a| >= 9 + v2
    requires forall i :: 7 <= i <= 7 + v1 || 7 <= i <= 7 + v2 ==> a[i] == 0
    requires a[8 + v1] == 1 == a[8 + v2]
    ensures v1 == v2
  {
  }

  lemma AuthenticatedOctets(h: Header, seqNum: nat, tfdf: bytes)
    requires FieldsFit(h)
    ensures AuthenticatedData(PackHeader(h).value, h.vcfLen, SdlsHeader(seqNum), tfdf) ==
            [0, 0, h.vcid / 8, h.vcid % 8 * 32 + h.mapId * 2, 0, 0, 0] + Zeros(h.vcfLen) +
            [0x00, 0x01] + BigEndian(seqNum, 4) + tfdf
    ensures var a := AuthenticatedData(PackHeader(h).value, h.vcfLen, SdlsHeader(seqNum), tfdf);
      (forall i :: 7 <= i <= 7 + h.vcfLen ==> a[i] == 0) && a[8 + h.vcfLen] == 1
  {
    var head := PackHeader(h).value;
    MaskedHeader(h, SdlsHeader(seqNum) + tfdf);
    assert head + (SdlsHeader(seqNum) + tfdf) == head + SdlsHeader(seqNum) + tfdf;
  }

  /** The octets a frame is authenticated by, laid out for any insert zone. */
  function OctetsUnderCode(h: Header, zone: bytes, tfdf: bytes): bytes
    requires FieldsFit(h)
  {
    [0, 0, h.vcid / 8, h.vcid % 8 * 32 + h.mapId * 2, 0, 0, 0] + Zeros(h.vcfLen) + zone + tfdf
  }

  lemma AuthenticatedAre(h: Header, zone: bytes, tfdf: bytes)
    requires FieldsFit(h)
    ensures AuthenticatedData(PackHeader(h).value, h.vcfLen, zone, tfdf) == OctetsUnderCode(h, zone, tfdf)
  {
    hide Masked, PackHeader, FieldsFit;
    var head := PackHeader(h).value;
    MaskedHeader(h, zone + tfdf);
    assert head + (zone + tfdf) == head + zone + tfdf;
    var first := [0, 0, h.vcid / 8, h.vcid % 8 * 32 + h.mapId * 2, 0, 0, 0] + Zeros(h.vcfLen);
    assert first + (zone + tfdf) == first + zone + tfdf;
  }

  /**
   On a secured channel a frame is accepted exactly when its data zone ends in the 32 octets that the
   digest gives for the key and the octets under the code; on any other code, or none, it is refused.
   */
  lemma AcceptedIffAuthentic(f: Frame, key: bytes, mac: MacFn)
    requires WellFormed(f) && FieldsFit(f.header) && f.header.vcid < 2 && f.insertZone.Some?
    ensures var (zone, n) := (f.insertZone.value, |f.tfdz| - 32);
      VerifyResult(f, Some(key), mac) ==
        if n >= 0 &&
           f.tfdz[n..] == mac(key, OctetsUnderCode(f.header, zone, [f.rule * 32 + f.ident] + f.tfdz[..n]))
        then Ok(FromBigEndian(Slice(zone, 2, |zone|)))
        else Err(InvalidHmac)
  {
    hide AuthenticatedData, OctetsUnderCode, PackHeader, FieldsFit;
    var (zone, n) := (f.insertZone.value, |f.tfdz| - 32);
    if n >= 0 {
      assert DropTail(PackTfdf(f), HMAC_LEN) == [f.rule * 32 + f.ident] + f.tfdz[..n];
      AuthenticatedAre(f.header, zone, [f.rule * 32 + f.ident] + f.tfdz[..n]);
    }
  }

  /** Why securing a frame is refused, in the order the reasons are looked at. */
  lemma ApplyRefuses(f: Frame, seqNum: nat, key: Option<bytes>)
    ensures ApplyError(f, seqNum, key) ==
            if f.header.vcid > 2 then Some(NoSpi)
            else if f.header.vcid == 2 then None
            else if key == None then Some(MissingKey)
            else if seqNum > 0xFFFF_FFFF then Some(SequenceOverflow)
            else if !FieldsFit(f.header) then Some(FieldRange)
            else None
  {
  }

  /** Without a key, without an insert zone or on a channel of no index nothing is accepted. */
  lemma RefusedUnlessSecured(f: Frame, key: Option<bytes>, mac: MacFn)
    requires WellFormed(f) && FieldsFit(f.header)
    ensures VerifyResult(f, key, mac).Ok? ==>
              f.header.vcid == 2 || (f.header.vcid < 2 && key.Some? && f.insertZone.Some?)
    ensures f.header.vcid == 2 ==> VerifyResult(f, key, mac) == Ok(0)
    ensures f.header.vcid > 2 ==> VerifyResult(f, key, mac) == Err(NoSpi)
    ensures f.header.vcid < 2 && key.None? ==> VerifyResult(f, key, mac) == Err(MissingKey)
    ensures f.header.vcid < 2 && key.Some? && f.insertZone.None? ==> VerifyResult(f, key, mac) == Err(NoInsertZone)
  {
  }

  /** A frame that is accepted, with any other 32 octets in place of its code, is refused. */
  lemma OtherCodeRefused(f: Frame, key: bytes, mac: MacFn, forged: Mac)
    requires WellFormed(f) && FieldsFit(f.header) && f.header.vcid < 2 && VerifyResult(f, Some(key), mac).Ok?
    ensures |f.tfdz| >= 32
    ensures var n := |f.tfdz| - 32;
      forged != f.tfdz[n..] ==>
        VerifyResult(f.(tfdz := f.tfdz[..n] + forged), Some(key), mac) == Err(InvalidHmac)
  {
    hide OctetsUnderCode, FieldsFit;
    RefusedUnlessSecured(f, Some(key), mac);
    AcceptedIffAuthentic(f, key, mac);
    var n := |f.tfdz| - 32;
    var g := f.(tfdz := f.tfdz[..n] + forged);
    hide VerifyResult;
    AcceptedIffAuthentic(g, key, mac);
    assert g.tfdz[..n] == f.tfdz[..n] && g.tfdz[n..] == forged;
  }
}
