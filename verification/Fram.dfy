/** The FM24CL64B F-RAM driver over its memory, an array overwritten in place. */
module Fram {
  import opened Octets

  const SIZE: nat := 8192

  datatype Error = ReadSize | OffsetRange | Overflow | NoData | NotBytes

  function Check(offset: int, size: nat): Option<Error>
  {
    if offset < 0 || offset > SIZE then Some(OffsetRange)
    else if offset + size > SIZE then Some(Overflow)
    else None
  }

  /** What a read of a memory gives. */
  function ReadOf(memory: bytes, offset: int, size: int): (r: Result<bytes, Error>)
    requires |memory| == SIZE
    ensures r.Ok? <==> 1 <= size && 0 <= offset <= SIZE - size
    ensures r.Ok? ==> r.value == memory[offset..offset + size]
  {
    if size < 1 then Err(ReadSize)
    else
      var e := Check(offset, size);
      if e.Some? then Err(e.value) else Ok(memory[offset..offset + size])
  }

  /** The memory after a write. */
  function Written(memory: bytes, offset: int, data: bytes): (r: Result<bytes, Error>)
    requires |memory| == SIZE
    ensures r.Ok? <==> data != [] && 0 <= offset <= SIZE - |data|
    ensures r.Ok? ==> |r.value| == SIZE
  {
    var e := Check(offset, |data|);
    if e.Some? then Err(e.value)
    else if data == [] then Err(NoData)
    else Ok(memory[..offset] + data + memory[offset + |data|..])
  }

  /** The memory after a clear: only the first half is wiped. */
  function Wiped(memory: bytes): (r: bytes)
    requires |memory| == SIZE
    ensures |r| == SIZE
  {
    Zeros(SIZE / 2) + memory[SIZE / 2..]
  }

  /** Which error a read or a write is refused with, in the order the checks come. */
  lemma Refusals(memory: bytes, offset: int, size: int, data: bytes)
    requires |memory| == SIZE
    ensures ReadOf(memory, offset, size) == Err(ReadSize) <==> size < 1
    ensures ReadOf(memory, offset, size) == Err(OffsetRange) <==> size >= 1 && (offset < 0 || offset > 8192)
    ensures ReadOf(memory, offset, size) == Err(Overflow) <==> size >= 1 && 0 <= offset <= 8192 < offset + size
    ensures Written(memory, offset, data) == Err(OffsetRange) <==> offset < 0 || offset > 8192
    ensures Written(memory, offset, data) == Err(Overflow) <==> 0 <= offset <= 8192 < offset + |data|
    ensures Written(memory, offset, data) == Err(NoData) <==> 0 <= offset <= 8192 && data == []
  {
  }

  /** A write changes the octets it covers and no other, and a clear only the first 4096. */
  lemma OctetAfter(memory: bytes, offset: int, data: bytes, i: nat)
    requires |memory| == SIZE && i < SIZE
    ensures Written(memory, offset, data).Ok? ==>
              Written(memory, offset, data).value[i] ==
                if offset <= i < offset + |data| then data[i - offset] else memory[i]
    ensures Wiped(memory)[i] == if i < 4096 then 0 else memory[i]
  {
  }

  lemma ReadBack(memory: bytes, offset: int, data: bytes)
    requires |memory| == SIZE && Written(memory, offset, data).Ok?
    ensures ReadOf(Written(memory, offset, data).value, offset, |data|) == Ok(data)
  {
    var m := Written(memory, offset, data).value;
    assert m[offset..offset + |data|] == data;
  }

  class Fm24cl64b {
    const memory: array<byte>

    ghost predicate Valid()
      reads this
    {
      memory.Length == SIZE
    }

    constructor ()
      ensures Valid() && fresh(memory) && memory[..] == Zeros(SIZE)
    {
      memory := new byte[SIZE](_ => 0);
    }

    method Read(offset: int, size: int) returns (r: Result<bytes, Error>)
      requires Valid()
      ensures r == ReadOf(memory[..], offset, size)
    {
      if size < 1 { return Err(ReadSize); }
      if offset < 0 || offset > SIZE { return Err(OffsetRange); }
      if offset + size > SIZE { return Err(Overflow); }
      r := Ok(memory[offset..offset + size]);
      assert memory[..][offset..offset + size] == memory[offset..offset + size];
    }

    /** A refused write changes nothing. */
    method Write(offset: int, data: bytes) returns (e: Option<Error>)
      requires Valid()
      modifies memory
      ensures var w := Written(old(memory[..]), offset, data);
        if w.Ok? then e.None? && memory[..] == w.value else e == Some(w.error) && memory[..] == old(memory[..])
    {
      if offset < 0 || offset > SIZE { return Some(OffsetRange); }
      if offset + |data| > SIZE { return Some(Overflow); }
      if |data| == 0 { return Some(NoData); }
      forall i | 0 <= i < |data| {
        memory[offset + i] := data[i];
      }
      e := None;
      WrittenFrom(old(memory[..]), offset, data, memory[..]);
    }

    method Clear()
      requires Valid()
      modifies memory
      ensures memory[..] == Wiped(old(memory[..]))
    {
      var e := Write(0, Zeros(SIZE / 2));
    }
  }

  lemma WrittenFrom(memory: bytes, offset: int, data: bytes, after: bytes)
    requires |memory| == SIZE == |after| && Written(memory, offset, data).Ok?
    requires forall i :: 0 <= i < |data| ==> after[offset + i] == data[i]
    requires forall i :: 0 <= i < SIZE && !(offset <= i < offset + |data|) ==> after[i] == memory[i]
    ensures Written(memory, offset, data) == Ok(after)
  {
    var w := Written(memory, offset, data).value;
    forall i | 0 <= i < SIZE
      ensures w[i] == after[i]
    {
      if offset <= i < offset + |data| {
        assert after[offset + (i - offset)] == data[i - offset];
      }
    }
    assert w == after;
  }
}
