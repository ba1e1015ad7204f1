/** File contents under seek, read and write, and reassembly of a file from its segments. */
module FileContents {
  import opened Octets

  /** `seek(pos); read(len)`; a missing length reads to the end. */
  function ReadAt(file: bytes, pos: nat, len: Option<nat>): bytes
  {
    Slice(file, pos, if len.Some? then pos + len.value else |file|)
  }

  /** `seek(pos); write(data)`: a gap past the end is filled with zeros, unless nothing is written. */
  function WriteAt(file: bytes, pos: nat, data: bytes): (r: bytes)
    ensures |r| == if data != [] && pos + |data| > |file| then pos + |data| else |file|
    ensures forall i :: pos <= i < pos + |data| ==> r[i] == data[i - pos]
    ensures forall i :: 0 <= i < |r| && !(pos <= i < pos + |data|) ==>
              r[i] == if i < |file| then file[i] else 0
  {
    if data == [] then file
    else
      var head := if pos <= |file| then file[..pos] else file + Zeros(pos - |file|);
      head + data + Slice(file, pos + |data|, |file|)
  }

  datatype Segment = Segment(offset: nat, len: nat)

  /** The segment holds octet i of a file. */
  predicate Holds(s: Segment, file: bytes, i: int)
  {
    s.offset <= i < s.offset + s.len && i < |file|
  }

  predicate Covered(segments: seq<Segment>, file: bytes, i: int)
  {
    exists k :: 0 <= k < |segments| && Holds(segments[k], file, i)
  }

  /** The destination after each segment is read from the source and written at its offset. */
  function Assemble(source: bytes, segments: seq<Segment>): bytes
  {
    if segments == [] then []
    else
      var n := |segments| - 1;
      var s := segments[n];
      WriteAt(Assemble(source, segments[..n]), s.offset, ReadAt(source, s.offset, Some(s.len)))
  }

  /** d ends at its last covered octet, holds the source's octets where covered and zeros elsewhere. */
  predicate Matches(source: bytes, d: bytes, covered: int -> bool)
  {
    |d| <= |source| && (|d| > 0 ==> covered(|d| - 1)) &&
    forall i :: 0 <= i < |d| ==> d[i] == if covered(i) then source[i] else 0
  }

  /** Nothing past the end of d is covered. */
  ghost predicate Bounds(d: bytes, covered: int -> bool)
  {
    forall i :: covered(i) ==> 0 <= i < |d|
  }

  lemma WritePiece(source: bytes, d: bytes, s: Segment, before: int -> bool, after: int -> bool)
    requires Matches(source, d, before) && Bounds(d, before)
    requires forall i :: after(i) <==> before(i) || Holds(s, source, i)
    ensures var d' := WriteAt(d, s.offset, ReadAt(source, s.offset, Some(s.len)));
      Matches(source, d', after) && Bounds(d', after)
  {
    var piece := ReadAt(source, s.offset, Some(s.len));
    PieceOctets(source, s);
    hide ReadAt, WriteAt;
    var d' := WriteAt(d, s.offset, piece);
    if |piece| > 0 && |d'| == s.offset + |piece| {
      assert Holds(s, source, |d'| - 1);
    }
    forall i | 0 <= i < |d'|
      ensures d'[i] == if after(i) then source[i] else 0
    {
      if s.offset <= i < s.offset + |piece| {
        assert Holds(s, source, i) && d'[i] == piece[i - s.offset];
      } else {
        assert !Holds(s, source, i);
      }
    }
  }

  lemma PieceOctets(source: bytes, s: Segment)
    ensures var piece := ReadAt(source, s.offset, Some(s.len));
      (forall i :: Holds(s, source, i) <==> s.offset <= i < s.offset + |piece|) &&
      (piece != [] ==> s.offset + |piece| <= |source|) &&
      forall i :: 0 <= i < |piece| ==> piece[i] == source[s.offset + i]
  {
  }

  function Coverage(source: bytes, segments: seq<Segment>): int -> bool
  {
    i => Covered(segments, source, i)
  }

  /**
   Whatever the order and the repeats, every covered octet is the source's, every gap is zero, and
   the destination ends at its last covered octet.
   */
  lemma {:induction false} AssembledOctets(source: bytes, segments: seq<Segment>)
    ensures var d := Assemble(source, segments);
      Matches(source, d, Coverage(source, segments)) && Bounds(d, Coverage(source, segments))
  {
    hide Covered, Matches, Bounds, WriteAt, ReadAt;
    if segments == [] {
      NothingCovered(source);
    } else {
      var n := |segments| - 1;
      AssembledOctets(source, segments[..n]);
      forall i: int
        ensures Coverage(source, segments)(i) <==>
                Coverage(source, segments[..n])(i) || Holds(segments[n], source, i)
      {
        CoveredByLast(segments, source, i);
      }
      WritePiece(source, Assemble(source, segments[..n]), segments[n],
                 Coverage(source, segments[..n]), Coverage(source, segments));
    }
  }

  lemma NothingCovered(source: bytes)
    ensures Matches(source, [], Coverage(source, [])) && Bounds([], Coverage(source, []))
  {
  }

  lemma CoveredByLast(segments: seq<Segment>, file: bytes, i: int)
    requires segments != []
    ensures var n := |segments| - 1;
      Covered(segments, file, i) <==> Covered(segments[..n], file, i) || Holds(segments[n], file, i)
  {
    var n := |segments| - 1;
    if Covered(segments[..n], file, i) {
      var k :| 0 <= k < n && Holds(segments[..n][k], file, i);
      assert Holds(segments[k], file, i);
    }
    if Covered(segments, file, i) && !Holds(segments[n], file, i) {
      var k :| 0 <= k < |segments| && Holds(segments[k], file, i);
      assert Holds(segments[..n][k], file, i);
    }
  }

  /**
   The file is reassembled exactly when the segments cover its last octet and every octet they leave
   out is zero; covering every octet is enough.
   */
  lemma ReassembledIff(source: bytes, segments: seq<Segment>)
    ensures Assemble(source, segments) == source <==>
      (source != [] ==> Covered(segments, source, |source| - 1)) &&
      forall i :: 0 <= i < |source| && source[i] != 0 ==> Covered(segments, source, i)
    ensures (forall i :: 0 <= i < |source| ==> Covered(segments, source, i)) ==> Assemble(source, segments) == source
  {
    hide Covered, Assemble;
    AssembledOctets(source, segments);
    var c := Coverage(source, segments);
    assert forall i :: c(i) <==> Covered(segments, source, i);
  }

  /** Order and repetition do not matter: only which octets are covered. */
  lemma AssemblyDependsOnCoverage(source: bytes, a: seq<Segment>, b: seq<Segment>)
    requires forall i :: 0 <= i < |source| ==> (Covered(a, source, i) <==> Covered(b, source, i))
    ensures Assemble(source, a) == Assemble(source, b)
  {
    hide Covered, Assemble;
    AssembledOctets(source, a);
    AssembledOctets(source, b);
    var x, y := Assemble(source, a), Assemble(source, b);
    var ca, cb := Coverage(source, a), Coverage(source, b);
    assert forall i :: 0 <= i < |source| ==> (ca(i) <==> cb(i));
    assert |x| == |y|;
    assert forall i :: 0 <= i < |x| ==> x[i] == y[i];
  }
}
