/** The modular checksum and the two CRCs of the file store. */
module Checksums {
  import opened Algebra
  import opened Octets
  import opened FileContents

  // ----- modular checksum -----

  /** The weight of the octet at offset i in a sum of big-endian 32-bit words. */
  function Weight(i: nat): nat
  {
    if i % 4 == 0 then 0x100_0000 else if i % 4 == 1 then 0x1_0000 else if i % 4 == 2 then 0x100 else 1
  }

  /** The position-weighted sum of octets that start at an offset of a file. */
  function WeightedSum(data: bytes, offset: nat): nat
  {
    if data == [] then 0 else data[0] * Weight(offset) + WeightedSum(data[1..], offset + 1)
  }

  /** The modular checksum of section 4.2 of CCSDS 727.0-B-5. */
  function ModularSpec(file: bytes): bytes
  {
    BigEndian(WeightedSum(file, 0) % 0x1_0000_0000, 4)
  }

  /** `data.ljust(4, b"\0")`. */
  function LeftJustify(data: bytes): (r: bytes)
    requires |data| <= 4
    ensures |r| == 4
  {
    data + Zeros(4 - |data|)
  }

  lemma {:induction false} WeightedSumAppend(a: bytes, b: bytes, offset: nat)
    ensures WeightedSum(a + b, offset) == WeightedSum(a, offset) + WeightedSum(b, offset + |a|)
  {
    if a == [] {
      assert a + b == b;
    } else {
      assert (a + b)[1..] == a[1..] + b;
      WeightedSumAppend(a[1..], b, offset + 1);
    }
  }

  /** A padded big-endian word is the weighted sum of the octets it was read from. */
  lemma WordIsWeightedSum(data: bytes, offset: nat)
    requires |data| <= 4 && offset % 4 == 0
    ensures FromBigEndian(LeftJustify(data)) == WeightedSum(data, offset)
  {
    var w := LeftJustify(data);
    FourOctets(w);
    WordWeights(w, offset);
    WeightedSumAppend(data, Zeros(4 - |data|), offset);
    ZerosWeighNothing(4 - |data|, offset + |data|);
  }

  lemma {:induction false} ZerosWeighNothing(n: nat, offset: nat)
    ensures WeightedSum(Zeros(n), offset) == 0
  {
    if n == 0 {
    } else {
      assert Zeros(n)[1..] == Zeros(n - 1);
      ZerosWeighNothing(n - 1, offset + 1);
    }
  }

  lemma WordWeights(w: bytes, offset: nat)
    requires |w| == 4 && offset % 4 == 0
    ensures WeightedSum(w, offset) == w[0] as int * 0x100_0000 + w[1] as int * 0x1_0000 + w[2] as int * 0x100 + w[3]
  {
    assert w[1..][1..] == w[2..] && w[2..][1..] == w[3..] && w[3..][1..] == [];
    assert WeightedSum(w[3..], offset + 3) == w[3];
    assert WeightedSum(w[2..], offset + 2) == w[2] as int * 0x100 + w[3];
    assert WeightedSum(w[1..], offset + 1) == w[1] as int * 0x1_0000 + w[2] as int * 0x100 + w[3];
  }

  // ----- checksums of segments, in any order -----

  /** The weighted sum of one segment of a file. */
  function Partial(file: bytes, s: Segment): nat
  {
    WeightedSum(ReadAt(file, s.offset, Some(s.len)), s.offset)
  }

  function SumOfPartials(file: bytes, segments: seq<Segment>): nat
  {
    if segments == [] then 0 else Partial(file, segments[0]) + SumOfPartials(file, segments[1..])
  }

  /** How many segments hold octet i. */
  function Multiplicity(file: bytes, segments: seq<Segment>, i: int): nat
  {
    if segments == [] then 0
    else (if Holds(segments[0], file, i) then 1 else 0) + Multiplicity(file, segments[1..], i)
  }

  /** The first n octets, each weighted and counted as often as segments hold it. */
  function CountedSum(file: bytes, segments: seq<Segment>, n: nat): nat
    requires n <= |file|
  {
    if n == 0 then 0
    else CountedSum(file, segments, n - 1) +
         Multiplicity(file, segments, n - 1) * Weighed(file, n - 1)
  }

  function Weighed(file: bytes, i: nat): nat
    requires i < |file|
  {
    file[i] * Weight(i)
  }

  lemma {:induction false} CountedSumSplits(file: bytes, segments: seq<Segment>, n: nat)
    requires n <= |file| && segments != []
    ensures CountedSum(file, segments, n) ==
            CountedSum(file, segments[..1], n) + CountedSum(file, segments[1..], n)
  {
    hide Weight, Holds;
    if n == 0 {
    } else {
      CountedSumSplits(file, segments, n - 1);
      MultiplicitySplits(file, segments, n - 1);
      Distribute(1, Multiplicity(file, segments[..1], n - 1), Multiplicity(file, segments[1..], n - 1),
                 Weighed(file, n - 1));
    }
  }

  lemma MultiplicitySplits(file: bytes, segments: seq<Segment>, i: int)
    requires segments != []
    ensures Multiplicity(file, segments, i) ==
            Multiplicity(file, segments[..1], i) + Multiplicity(file, segments[1..], i)
  {
    assert segments[..1][1..] == [];
  }

  /** Counting the octets of one segment sums the part of it below n. */
  lemma {:induction false} CountedSumOfOne(file: bytes, s: Segment, n: nat)
    requires n <= |file|
    ensures CountedSum(file, [s], n) == WeightedSum(Slice(file[..n], s.offset, s.offset + s.len), s.offset)
  {
    hide Weight, Holds, Slice, Multiplicity, Weighed, CountedSum, WeightedSum;
    if n == 0 {
      NothingCounted(file, s);
    } else {
      CountedSumOfOne(file, s, n - 1);
      CountedStep(file, s, n);
      SliceStep(file, s, n);
    }
  }

  lemma NothingCounted(file: bytes, s: Segment)
    ensures CountedSum(file, [s], 0) == WeightedSum(Slice(file[..0], s.offset, s.offset + s.len), s.offset)
  {
  }

  lemma CountedStep(file: bytes, s: Segment, n: nat)
    requires 0 < n <= |file|
    ensures CountedSum(file, [s], n) ==
            CountedSum(file, [s], n - 1) + if Holds(s, file, n - 1) then Weighed(file, n - 1) else 0
  {
    hide Weight, Holds, Weighed;
    assert [s][1..] == [];
    assert Multiplicity(file, [], n - 1) == 0;
  }

  lemma SliceStep(file: bytes, s: Segment, n: nat)
    requires 0 < n <= |file|
    ensures WeightedSum(Slice(file[..n], s.offset, s.offset + s.len), s.offset) ==
            WeightedSum(Slice(file[..n - 1], s.offset, s.offset + s.len), s.offset) +
            if Holds(s, file, n - 1) then Weighed(file, n - 1) else 0
  {
    hide Weight, Holds, Slice, Weighed, WeightedSum;
    SliceGrows(file, s, n);
    OneOctet(file, n - 1);
    WeightedSumAppend(Slice(file[..n - 1], s.offset, s.offset + s.len), [file[n - 1]], s.offset);
  }

  lemma SliceGrows(file: bytes, s: Segment, n: nat)
    requires 0 < n <= |file|
    ensures var before := Slice(file[..n - 1], s.offset, s.offset + s.len);
      Slice(file[..n], s.offset, s.offset + s.len) ==
        (if Holds(s, file, n - 1) then before + [file[n - 1]] else before) &&
      (Holds(s, file, n - 1) ==> s.offset + |before| == n - 1)
  {
  }

  lemma OneOctet(file: bytes, i: nat)
    requires i < |file|
    ensures WeightedSum([file[i]], i) == Weighed(file, i)
  {
    assert [file[i]][1..] == [];
  }

  lemma {:induction false} PartialsCount(file: bytes, segments: seq<Segment>)
    ensures SumOfPartials(file, segments) == CountedSum(file, segments, |file|)
  {
    if segments == [] {
      NoSegments(file, |file|);
    } else {
      PartialsCount(file, segments[1..]);
      CountedSumSplits(file, segments, |file|);
      CountedSumOfOne(file, segments[0], |file|);
      assert segments[..1] == [segments[0]] && file[..|file|] == file;
    }
  }

  lemma {:induction false} NoSegments(file: bytes, n: nat)
    requires n <= |file|
    ensures CountedSum(file, [], n) == 0
  {
    if n == 0 {
    } else {
      NoSegments(file, n - 1);
    }
  }

  lemma {:induction false} CountedOnce(file: bytes, segments: seq<Segment>, n: nat)
    requires n <= |file| && forall i :: 0 <= i < |file| ==> Multiplicity(file, segments, i) == 1
    ensures CountedSum(file, segments, n) == WeightedSum(file[..n], 0)
  {
    hide Weight, Multiplicity;
    if n == 0 {
    } else {
      CountedOnce(file, segments, n - 1);
      assert file[..n] == file[..n - 1] + [file[n - 1]];
      WeightedSumAppend(file[..n - 1], [file[n - 1]], 0);
      OneOctet(file, n - 1);
    }
  }

  /**
   The checksum can be taken in pieces: over any segments that hold each octet exactly once, aligned
   to four octets or not and in any order, the partial sums add up to the file's.
   */
  lemma PartitionChecksum(file: bytes, segments: seq<Segment>)
    requires forall i :: 0 <= i < |file| ==> Multiplicity(file, segments, i) == 1
    ensures SumOfPartials(file, segments) == WeightedSum(file, 0)
    ensures BigEndian(SumOfPartials(file, segments) % 0x1_0000_0000, 4) == ModularSpec(file)
  {
    PartialsCount(file, segments);
    CountedOnce(file, segments, |file|);
    assert file[..|file|] == file;
  }

  /** Modular checksums read the whole file: they equal a prefix's exactly when the rest weighs 0. */
  lemma ModularOfPrefixIff(file: bytes, n: nat)
    requires n <= |file|
    ensures ModularSpec(file) == ModularSpec(file[..n]) <==> WeightedSum(file[n..], n) % 0x1_0000_0000 == 0
  {
    hide WeightedSum, BigEndian, FromBigEndian;
    assert file == file[..n] + file[n..];
    WeightedSumAppend(file[..n], file[n..], 0);
    var a, b := WeightedSum(file[..n], 0), WeightedSum(file[n..], n);
    Pow256Values();
    BigEndianRoundTrip((a + b) % 0x1_0000_0000, 4);
    BigEndianRoundTrip(a % 0x1_0000_0000, 4);
    SameResidueIff(a, b);
  }

  lemma SameResidueIff(a: nat, b: nat)
    ensures (a + b) % 0x1_0000_0000 == a % 0x1_0000_0000 <==> b % 0x1_0000_0000 == 0
  {
  }

  // ----- cyclic redundancy checks -----

  /** The reflected polynomials of CRC-32 (ISO-HDLC) and CRC-32C (iSCSI). */
  const POLY_ISO_HDLC: bv32 := 0xEDB8_8320
  const POLY_ISCSI: bv32 := 0x82F6_3B78

  function ShiftBit(poly: bv32, r: bv32): bv32
  {
    if r & 1 == 1 then (r >> 1) ^ poly else r >> 1
  }

  function ShiftBits(poly: bv32, register: bv32, n: nat): bv32
  {
    if n == 0 then register else ShiftBit(poly, ShiftBits(poly, register, n - 1))
  }

  /** The register after one more octet. */
  function StepOctet(poly: bv32, register: bv32, octet: byte): bv32
  {
    ShiftBits(poly, register ^ (octet as bv32), 8)
  }

  /** The register after the octets of data. */
  function Feed(poly: bv32, register: bv32, data: bytes): bv32
  {
    if data == [] then register
    else
      var n := |data| - 1;
      StepOctet(poly, Feed(poly, register, data[..n]), data[n])
  }

  function Flip(register: bv32): bv32
  {
    register ^ 0xFFFF_FFFF
  }

  /** The checksum of data resumed from an earlier checksum; 0 is the checksum of no octets. */
  function Crc(poly: bv32, data: bytes, initial: bv32): bv32
  {
    Flip(Feed(poly, Flip(initial), data))
  }

  lemma {:induction false} FeedAppend(poly: bv32, register: bv32, a: bytes, b: bytes)
    ensures Feed(poly, register, a + b) == Feed(poly, Feed(poly, register, a), b)
  {
    hide ShiftBit, ShiftBits, StepOctet;
    if b == [] {
      assert a + b == a;
    } else {
      var n := |b| - 1;
      assert (a + b)[..|a + b| - 1] == a + b[..n];
      FeedAppend(poly, register, a, b[..n]);
    }
  }

  /** Resuming from the checksum of a gives the checksum of a followed by b. */
  lemma CrcResumes(poly: bv32, a: bytes, b: bytes, initial: bv32)
    ensures Crc(poly, a + b, initial) == Crc(poly, b, Crc(poly, a, initial))
  {
    hide Feed, ShiftBits, StepOctet, Flip;
    FeedAppend(poly, Flip(initial), a, b);
    FlipTwice(Feed(poly, Flip(initial), a));
  }

  lemma FlipTwice(x: bv32)
    ensures Flip(Flip(x)) == x
  {
  }

  // ----- check values -----

  /** The eight shifts of one octet, through registers given one by one. */
  lemma OctetSteps(poly: bv32, register: bv32, octet: byte, r: seq<bv32>)
    requires |r| == 9 && r[0] == register ^ (octet as bv32)
    requires r[1] == ShiftBit(poly, r[0]) && r[2] == ShiftBit(poly, r[1]) && r[3] == ShiftBit(poly, r[2])
    requires r[4] == ShiftBit(poly, r[3]) && r[5] == ShiftBit(poly, r[4]) && r[6] == ShiftBit(poly, r[5])
    requires r[7] == ShiftBit(poly, r[6]) && r[8] == ShiftBit(poly, r[7])
    ensures StepOctet(poly, register, octet) == r[8]
  {
    hide ShiftBit;
    var x := r[0];
    assert ShiftBits(poly, x, 0) == r[0];
    assert ShiftBits(poly, x, 1) == r[1];
    assert ShiftBits(poly, x, 2) == r[2];
    assert ShiftBits(poly, x, 3) == r[3];
    assert ShiftBits(poly, x, 4) == r[4];
    assert ShiftBits(poly, x, 5) == r[5];
    assert ShiftBits(poly, x, 6) == r[6];
    assert ShiftBits(poly, x, 7) == r[7];
    assert ShiftBits(poly, x, 8) == r[8];
  }

  lemma CrcOfOne(poly: bv32, octet: byte, r: bv32)
    requires StepOctet(poly, 0xFFFF_FFFF, octet) == r
    ensures Crc(poly, [octet], 0) == Flip(r)
  {
    hide StepOctet;
    assert Flip(0) == 0xFFFF_FFFF;
    assert [octet][..0] == [] && [octet][0] == octet;
    assert Feed(poly, Flip(0), [octet]) == StepOctet(poly, Feed(poly, Flip(0), []), octet);
  }

  /** The checksums of the one octet "a", as published for CRC-32 and CRC-32C. */
  lemma CheckValues()
    ensures Crc(POLY_ISO_HDLC, [0x61], 0) == 0xE8B7_BE43 && Crc(POLY_ISCSI, [0x61], 0) == 0xC1D0_4330
  {
    OctetSteps(POLY_ISO_HDLC, 0xFFFF_FFFF, 0x61,
               [0xFFFF_FF9E, 0x7FFF_FFCF, 0xD247_7CC7,
               0x849B_3D43, 0xAFF5_1D81, 0xBA42_0DE0,
               0x5D21_06F0, 0x2E90_8378, 0x1748_41BC]);
    OctetSteps(POLY_ISCSI, 0xFFFF_FFFF, 0x61,
               [0xFFFF_FF9E, 0x7FFF_FFCF, 0xBD09_C49F,
               0xDC72_D937, 0xECCF_57E3, 0xF491_9089,
               0xF8BE_F33C, 0x7C5F_799E, 0x3E2F_BCCF]);
    hide StepOctet, ShiftBit, Crc;
    CrcOfOne(POLY_ISO_HDLC, 0x61, 0x1748_41BC);
    CrcOfOne(POLY_ISCSI, 0x61, 0x3E2F_BCCF);
  }
}
