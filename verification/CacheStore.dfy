/**
 The file cache: a sorted index of file names kept beside a directory, driven by the file-delivery
 filestore operations.
 */
module CacheStores {
  import opened Octets
  import opened FileContents
  import opened Checksums

  /** What the cache is told about file names: which are valid, and the rank that orders them. */
  datatype Names = Names(valid: string -> bool, rank: string -> int)

  type Directory = map<string, bytes>

  datatype Store = Store(index: seq<string>, dir: Directory)

  datatype Outcome =
    | CreateSuccess | CreateNotAllowed
    | DeleteSuccess | DeleteFileDoesNotExist
    | RenameSuccess | RenameNotPerformed | RenameOldFileDoesNotExist
    | ReplaceSuccess | ReplaceOneDoesNotExist | ReplaceTwoSourceNotExist
    | Done | FileNotFound | OsError

  /** A file that the index names may be missing from the directory. */
  datatype ReadError = NotInIndex | NotInDirectory | BadOffset | BadLength

  datatype Op =
    | Create(name: string)
    | Delete(name: string)
    | Rename(name: string, newName: string)
    | Replace(name: string, source: string)
    | Truncate(name: string)
    | Write(name: string, data: bytes, offset: Option<int>, whence: Option<int>)

  // ----- the index -----

  /** The position `insort_left` finds in a sorted index. */
  function BisectLeft(rank: string -> int, index: seq<string>, r: int): (k: nat)
    ensures k <= |index|
    ensures forall i :: 0 <= i < k ==> rank(index[i]) < r
    ensures k < |index| ==> rank(index[k]) >= r
  {
    if index == [] || rank(index[0]) >= r then 0 else 1 + BisectLeft(rank, index[1..], r)
  }

  function InsortLeft(rank: string -> int, index: seq<string>, name: string): seq<string>
  {
    var k := BisectLeft(rank, index, rank(name));
    index[..k] + [name] + index[k..]
  }

  /** `list.remove`: the first element with the name. */
  function RemoveFirst(index: seq<string>, name: string): seq<string>
  {
    if index == [] then []
    else if index[0] == name then index[1..]
    else [index[0]] + RemoveFirst(index[1..], name)
  }

  predicate Sorted(rank: string -> int, index: seq<string>)
  {
    forall i, j :: 0 <= i < j < |index| ==> rank(index[i]) <= rank(index[j])
  }

  predicate Distinct(index: seq<string>)
  {
    forall i, j :: 0 <= i < j < |index| ==> index[i] != index[j]
  }

  /** The index is sorted, has no duplicates, and names exactly the files of the directory. */
  predicate Agree(names: Names, s: Store)
  {
    Sorted(names.rank, s.index) && Distinct(s.index) && (set n | n in s.index) == s.dir.Keys
  }

  // ----- the operations -----

  /** The position a write starts at, if the seek succeeds. */
  function SeekPosition(size: nat, offset: Option<int>, whence: Option<int>): Option<nat>
  {
    if offset.None? then Some(0)
    else
      var w := whence.GetOr(0);
      var base := if w == 2 then size else 0;
      if w !in {0, 1, 2} || base + offset.value < 0 then None else Some(base + offset.value)
  }

  function Move(dir: Directory, from: string, to: string): Directory
    requires from in dir
  {
    (dir - {from})[to := dir[from]]
  }

  /** Each operation as the source performs it: it consults the index, then touches the directory. */
  function Apply(names: Names, s: Store, op: Op): (Store, Outcome)
  {
    match op
    case Create(n) =>
      if !names.valid(n) || n in s.index then (s, CreateNotAllowed)
      else (Store(InsortLeft(names.rank, s.index, n), if n in s.dir then s.dir else s.dir[n := []]), CreateSuccess)
    case Delete(n) =>
      if n !in s.index then (s, DeleteFileDoesNotExist)
      else if n !in s.dir then (s, OsError)
      else (Store(RemoveFirst(s.index, n), s.dir - {n}), DeleteSuccess)
    case Rename(from, to) =>
      if from !in s.index then (s, RenameOldFileDoesNotExist)
      else if !names.valid(to) then (s, RenameNotPerformed)
      else
        var index := RemoveFirst(s.index, from);
        if from !in s.dir then (Store(index, s.dir), OsError)
        else (Store(InsortLeft(names.rank, index, to), Move(s.dir, from, to)), RenameSuccess)
    case Replace(n, source) =>
      if n !in s.index then (s, ReplaceOneDoesNotExist)
      else if source !in s.index then (s, ReplaceTwoSourceNotExist)
      else
        var index := RemoveFirst(s.index, source);
        if source !in s.dir then (Store(index, s.dir), OsError)
        else (Store(index, Move(s.dir, source, n)), ReplaceSuccess)
    case Truncate(n) =>
      if n !in s.index then (s, FileNotFound) else (s.(dir := s.dir[n := []]), Done)
    case Write(n, data, offset, whence) =>
      if n !in s.index then (s, FileNotFound)
      else if n !in s.dir then (s, OsError)
      else match SeekPosition(|s.dir[n]|, offset, whence)
        case None => (s, OsError)
        case Some(pos) => (s.(dir := s.dir[n := WriteAt(s.dir[n], pos, data)]), Done)
  }

  /** The operations on a plain map from names to contents, with no index. */
  function OnMap(valid: string -> bool, m: Directory, op: Op): Directory
  {
    match op
    case Create(n) => if valid(n) && n !in m then m[n := []] else m
    case Delete(n) => m - {n}
    case Rename(from, to) => if from in m && valid(to) then Move(m, from, to) else m
    case Replace(n, source) => if n in m && source in m then Move(m, source, n) else m
    case Truncate(n) => if n in m then m[n := []] else m
    case Write(n, data, offset, whence) =>
      if n !in m then m
      else match SeekPosition(|m[n]|, offset, whence)
        case None => m
        case Some(pos) => m[n := WriteAt(m[n], pos, data)]
  }

  /** What a caller checks: no rename onto another existing file, no replacing a file by itself. */
  predicate Safe(names: Names, s: Store, op: Op)
  {
    match op
    case Rename(from, to) => from in s.dir && names.valid(to) && to in s.dir ==> to == from
    case Replace(n, source) => n in s.dir ==> n != source
    case _ => true
  }

  /** Which outcome each operation has, by the names alone, and in the order the source looks at them. */
  lemma Outcomes(names: Names, s: Store, a: string, b: string, data: bytes, offset: Option<int>, whence: Option<int>)
    ensures Apply(names, s, Create(a)).1 ==
            if names.valid(a) && a !in s.index then CreateSuccess else CreateNotAllowed
    ensures Apply(names, s, Delete(a)).1 ==
            if a !in s.index then DeleteFileDoesNotExist else if a in s.dir then DeleteSuccess else OsError
    ensures Apply(names, s, Rename(a, b)).1 ==
            if a !in s.index then RenameOldFileDoesNotExist
            else if !names.valid(b) then RenameNotPerformed
            else if a in s.dir then RenameSuccess else OsError
    ensures Apply(names, s, Replace(a, b)).1 ==
            if a !in s.index then ReplaceOneDoesNotExist
            else if b !in s.index then ReplaceTwoSourceNotExist
            else if b in s.dir then ReplaceSuccess else OsError
    ensures Apply(names, s, Truncate(a)).1 == if a in s.index then Done else FileNotFound
    ensures Apply(names, s, Write(a, data, offset, whence)).1 ==
            if a !in s.index then FileNotFound
            else if a in s.dir && SeekPosition(|s.dir[a]|, offset, whence).Some? then Done else OsError
  {
  }

  /** Where a write starts: from the start of the file, where it was opened, or from its end. */
  lemma SeekFrom(size: nat, offset: int, whence: int)
    ensures SeekPosition(size, None, Some(whence)) == Some(0)
    ensures SeekPosition(size, Some(offset), None) == SeekPosition(size, Some(offset), Some(0))
    ensures whence == 0 || whence == 1 ==>
              SeekPosition(size, Some(offset), Some(whence)) == if offset >= 0 then Some(offset) else None
    ensures SeekPosition(size, Some(offset), Some(2)) == if size + offset >= 0 then Some(size + offset) else None
    ensures whence < 0 || whence > 2 ==> SeekPosition(size, Some(offset), Some(whence)) == None
  {
  }

  /** Creating a file touches it: one that was left in the directory keeps its contents, and a new one has none. */
  lemma CreateTouches(names: Names, s: Store, n: string)
    requires Apply(names, s, Create(n)).1 == CreateSuccess
    ensures var d := Apply(names, s, Create(n)).0.dir;
      n in d && d[n] == (if n in s.dir then s.dir[n] else []) && forall x :: x in s.dir ==> x in d && d[x] == s.dir[x]
  {
  }

  // ----- lemmas about the index -----

  lemma {:induction false} RemoveFirstSubset(index: seq<string>, name: string)
    ensures forall n :: n in RemoveFirst(index, name) ==> n in index
    ensures name !in index ==> RemoveFirst(index, name) == index
  {
    if index == [] || index[0] == name {
    } else {
      RemoveFirstSubset(index[1..], name);
    }
  }

  lemma {:induction false} RemoveFirstSorted(rank: string -> int, index: seq<string>, name: string)
    requires Sorted(rank, index)
    ensures Sorted(rank, RemoveFirst(index, name))
  {
    if index == [] || index[0] == name {
    } else {
      var rest := RemoveFirst(index[1..], name);
      RemoveFirstSorted(rank, index[1..], name);
      RemoveFirstSubset(index[1..], name);
      forall j | 0 <= j < |rest|
        ensures rank(index[0]) <= rank(rest[j])
      {
        assert rest[j] in index[1..];
        var k :| 0 <= k < |index| - 1 && index[1..][k] == rest[j];
        assert index[k + 1] == rest[j];
      }
    }
  }

  lemma {:induction false} RemoveFirstMembers(index: seq<string>, name: string)
    requires Distinct(index)
    ensures var r := RemoveFirst(index, name);
      Distinct(r) && forall n :: n in r <==> n in index && n != name
  {
    if index == [] {
    } else {
      var first, tail := index[0], index[1..];
      assert forall n :: n in index <==> n == first || n in tail;
      assert first !in tail;
      if first != name {
        RemoveFirstMembers(tail, name);
      }
    }
  }

  lemma InsortLeftSorted(rank: string -> int, index: seq<string>, name: string)
    requires Sorted(rank, index)
    ensures Sorted(rank, InsortLeft(rank, index, name))
  {
    hide BisectLeft;
    var k := BisectLeft(rank, index, rank(name));
    var r := InsortLeft(rank, index, name);
    forall i, j | 0 <= i < j < |r|
      ensures rank(r[i]) <= rank(r[j])
    {
      var i', j' := if i < k then i else i - 1, if j < k then j else j - 1;
      if i == k && k < j {
        assert rank(index[k]) <= rank(index[j']);
      }
    }
  }

  lemma InsortLeftMembers(rank: string -> int, index: seq<string>, name: string)
    ensures var r := InsortLeft(rank, index, name);
      (forall n :: n in r <==> n in index || n == name) &&
      (Distinct(r) <==> Distinct(index) && name !in index)
  {
    hide BisectLeft;
    var k := BisectLeft(rank, index, rank(name));
    InsertMembers(index[..k], name, index[k..]);
    assert index == index[..k] + index[k..];
  }

  lemma InsertMembers(a: seq<string>, name: string, b: seq<string>)
    ensures forall n :: n in a + [name] + b <==> n in a + b || n == name
    ensures Distinct(a + [name] + b) <==> Distinct(a + b) && name !in a + b
  {
    var s, r := a + b, a + [name] + b;
    assert forall i :: 0 <= i < |s| ==> s[i] == r[if i < |a| then i else i + 1];
    assert r[|a|] == name;
    if name in s {
      var i :| 0 <= i < |s| && s[i] == name;
      var j := if i < |a| then i else i + 1;
      assert r[j] == r[|a|] && (j < |a| || |a| < j);
    }
    if Distinct(r) {
      forall i, j | 0 <= i < j < |s|
        ensures s[i] != s[j]
      {
        assert r[if i < |a| then i else i + 1] != r[if j < |a| then j else j + 1];
      }
    }
    if Distinct(s) && name !in s {
      forall i, j | 0 <= i < j < |r|
        ensures r[i] != r[j]
      {
        assert i < |a| ==> r[i] == s[i];
        assert j < |a| ==> r[j] == s[j];
        assert i > |a| ==> r[i] == s[i - 1];
        assert j > |a| ==> r[j] == s[j - 1];
      }
    }
  }

  // ----- the main theorems -----

  /** One operation keeps index and directory in agreement exactly when it is safe. */
  lemma AgreementKeptIffSafe(names: Names, s: Store, op: Op)
    requires Agree(names, s)
    ensures Agree(names, Apply(names, s, op).0) <==> Safe(names, s, op)
  {
    hide InsortLeft, RemoveFirst, Sorted, Distinct, WriteAt, SeekPosition;
    var t := Apply(names, s, op).0;
    match op
    case Create(n) =>
      InsortLeftSorted(names.rank, s.index, n);
      InsortLeftMembers(names.rank, s.index, n);
    case Delete(n) =>
      RemoveFirstSorted(names.rank, s.index, n);
      RemoveFirstMembers(s.index, n);
    case Rename(from, to) =>
      RemoveFirstSorted(names.rank, s.index, from);
      RemoveFirstMembers(s.index, from);
      InsortLeftSorted(names.rank, RemoveFirst(s.index, from), to);
      InsortLeftMembers(names.rank, RemoveFirst(s.index, from), to);
    case Replace(n, source) =>
      RemoveFirstSorted(names.rank, s.index, source);
      RemoveFirstMembers(s.index, source);
      if n == source && n in s.dir {
        assert n in t.dir.Keys && n !in t.index;
      }
    case Truncate(n) =>
    case Write(_, _, _, _) =>
  }

  /** While they agree, the store behaves as the plain map, and no operating-system error is raised. */
  lemma FollowsMap(names: Names, s: Store, op: Op)
    requires Agree(names, s)
    ensures var (t, r) := Apply(names, s, op);
      t.dir == OnMap(names.valid, s.dir, op) && (r == OsError ==> op.Write? && t == s)
  {
    assert forall n :: n in s.index <==> n in s.dir.Keys;
    if op.Delete? && op.name !in s.dir {
      assert s.dir - {op.name} == s.dir;
    }
  }

  function Run(names: Names, s: Store, ops: seq<Op>): Store
  {
    if ops == [] then s else Apply(names, Run(names, s, ops[..|ops| - 1]), ops[|ops| - 1]).0
  }

  function RunOnMap(valid: string -> bool, m: Directory, ops: seq<Op>): Directory
  {
    if ops == [] then m else OnMap(valid, RunOnMap(valid, m, ops[..|ops| - 1]), ops[|ops| - 1])
  }

  /** Over every run of safe operations index and directory agree and contents follow the plain map. */
  lemma {:induction false} RunAgrees(names: Names, s: Store, ops: seq<Op>)
    requires Agree(names, s)
    requires forall i :: 0 <= i < |ops| ==> Safe(names, Run(names, s, ops[..i]), ops[i])
    ensures Agree(names, Run(names, s, ops))
    ensures Run(names, s, ops).dir == RunOnMap(names.valid, s.dir, ops)
  {
    if ops == [] {
    } else {
      var n := |ops| - 1;
      forall i | 0 <= i < n
        ensures Safe(names, Run(names, s, ops[..n][..i]), ops[..n][i])
      {
        assert ops[..n][..i] == ops[..i];
      }
      RunAgrees(names, s, ops[..n]);
      AgreementKeptIffSafe(names, Run(names, s, ops[..n]), ops[n]);
      FollowsMap(names, Run(names, s, ops[..n]), ops[n]);
    }
  }

  // ----- the object -----

  datatype ChecksumType = NullChecksum | Modular | Crc32 | Crc32c | OtherChecksum

  datatype ChecksumError = SourceFileDoesNotExist | ZeroSegment | NotImplemented | ReadFailed(e: ReadError)

  /** Four more octets of a file add their padded word to the weighted sum. */
  lemma ModularStep(file: bytes, offset: nat)
    requires offset % 4 == 0 && offset < |file|
    ensures WeightedSum(Slice(file, 0, offset + 4), 0) ==
            WeightedSum(Slice(file, 0, offset), 0) + FromBigEndian(LeftJustify(Slice(file, offset, offset + 4)))
  {
    hide WeightedSum, LeftJustify, FromBigEndian;
    var data := Slice(file, offset, offset + 4);
    WordIsWeightedSum(data, offset);
    WeightedSumAppend(Slice(file, 0, offset), data, 0);
    assert Slice(file, 0, offset) + data == Slice(file, 0, offset + 4);
  }

  lemma WholeFile(file: bytes, offset: nat)
    requires Slice(file, offset, offset + 4) == []
    ensures Slice(file, 0, offset) == file
  {
  }

  /** Where the CRC loop stands after n segments. */
  function CrcOffset(sizeToVerify: int, segmentLen: int, n: nat): int
  {
    if n == 0 then 0
    else
      var offset := CrcOffset(sizeToVerify, segmentLen, n - 1);
      if offset >= sizeToVerify then offset
      else offset + if offset + segmentLen > sizeToVerify then sizeToVerify - offset else segmentLen
  }

  /** The loop ends exactly when there is nothing to verify or the segments have a positive length. */
  lemma CrcLoopReturnsIff(sizeToVerify: int, segmentLen: int)
    ensures (exists n: nat :: CrcOffset(sizeToVerify, segmentLen, n) >= sizeToVerify) <==>
              sizeToVerify <= 0 || segmentLen > 0
  {
    if sizeToVerify <= 0 {
      assert CrcOffset(sizeToVerify, segmentLen, 0) >= sizeToVerify;
    } else if segmentLen > 0 {
      CrcLoopAdvances(sizeToVerify, segmentLen, sizeToVerify);
    } else {
      forall n: nat
        ensures CrcOffset(sizeToVerify, segmentLen, n) < sizeToVerify
      {
        CrcLoopStuck(sizeToVerify, segmentLen, n);
      }
    }
  }

  lemma {:induction false} CrcLoopAdvances(sizeToVerify: int, segmentLen: int, n: nat)
    requires 0 < sizeToVerify && 0 < segmentLen
    ensures CrcOffset(sizeToVerify, segmentLen, n) >= if n < sizeToVerify then n else sizeToVerify
  {
    if n == 0 {
    } else {
      CrcLoopAdvances(sizeToVerify, segmentLen, n - 1);
    }
  }

  lemma {:induction false} CrcLoopStuck(sizeToVerify: int, segmentLen: int, n: nat)
    requires 0 < sizeToVerify && segmentLen <= 0
    ensures CrcOffset(sizeToVerify, segmentLen, n) <= 0
  {
    if n == 0 {
    } else {
      CrcLoopStuck(sizeToVerify, segmentLen, n - 1);
    }
  }

  class CacheStore {
    const names: Names
    var index: seq<string>
    var dir: Directory

    constructor (names: Names)
      ensures this.names == names && View() == Store([], map[]) && Agree(names, View())
    {
      this.names, index, dir := names, [], map[];
    }

    function View(): Store
      reads this
    {
      Store(index, dir)
    }

    /** The source's search loop: the index holds a file of this name. */
    method FileExists(name: string) returns (found: bool)
      ensures found <==> name in index
    {
      for i := 0 to |index|
        invariant name !in index[..i]
      {
        if index[i] == name { return true; }
      }
      return false;
    }

    method ReadData(name: string, offset: Option<int>, len: Option<int>) returns (r: Result<bytes, ReadError>)
      ensures r == if name !in index then Err(NotInIndex)
                   else if name !in dir then Err(NotInDirectory)
                   else if offset.GetOr(0) < 0 then Err(BadOffset)
                   else if len.GetOr(0) < -1 then Err(BadLength)
                   else Ok(ReadAt(dir[name], offset.GetOr(0),
                                  if len.Some? && len.value >= 0 then Some(len.value) else None))
    {
      var found := FileExists(name);
      if !found { return Err(NotInIndex); }
      if name !in dir { return Err(NotInDirectory); }
      if offset.GetOr(0) < 0 { return Err(BadOffset); }
      if len.GetOr(0) < -1 { return Err(BadLength); }
      return Ok(ReadAt(dir[name], offset.GetOr(0),
                       if len.Some? && len.value >= 0 then Some(len.value) else None));
    }

    method CreateFile(name: string) returns (r: Outcome)
      modifies this
      ensures (View(), r) == Apply(names, old(View()), Create(name))
    {
      if !names.valid(name) { return CreateNotAllowed; }
      var found := FileExists(name);
      if found { return CreateNotAllowed; }
      if name !in dir {
        dir := dir[name := []];
      }
      index := InsortLeft(names.rank, index, name);
      return CreateSuccess;
    }

    method DeleteFile(name: string) returns (r: Outcome)
      modifies this
      ensures (View(), r) == Apply(names, old(View()), Delete(name))
    {
      var found := FileExists(name);
      if !found { return DeleteFileDoesNotExist; }
      if name !in dir { return OsError; }
      dir := dir - {name};
      index := RemoveFirst(index, name);
      return DeleteSuccess;
    }

    method RenameFile(name: string, newName: string) returns (r: Outcome)
      modifies this
      ensures (View(), r) == Apply(names, old(View()), Rename(name, newName))
    {
      var found := FileExists(name);
      if !found { return RenameOldFileDoesNotExist; }
      if !names.valid(newName) { return RenameNotPerformed; }
      index := RemoveFirst(index, name);
      if name !in dir { return OsError; }
      dir := Move(dir, name, newName);
      index := InsortLeft(names.rank, index, newName);
      return RenameSuccess;
    }

    method ReplaceFile(name: string, source: string) returns (r: Outcome)
      modifies this
      ensures (View(), r) == Apply(names, old(View()), Replace(name, source))
    {
      var found := FileExists(name);
      if !found { return ReplaceOneDoesNotExist; }
      found := FileExists(source);
      if !found { return ReplaceTwoSourceNotExist; }
      index := RemoveFirst(index, source);
      if source !in dir { return OsError; }
      dir := Move(dir, source, name);
      return ReplaceSuccess;
    }

    method TruncateFile(name: string) returns (r: Outcome)
      modifies this
      ensures (View(), r) == Apply(names, old(View()), Truncate(name))
    {
      var found := FileExists(name);
      if !found { return FileNotFound; }
      dir := dir[name := []];
      return Done;
    }

    method WriteData(name: string, data: bytes, offset: Option<int>, whence: Option<int>) returns (r: Outcome)
      modifies this
      ensures (View(), r) == Apply(names, old(View()), Write(name, data, offset, whence))
    {
      var found := FileExists(name);
      if !found { return FileNotFound; }
      if name !in dir { return OsError; }
      var pos := SeekPosition(|dir[name]|, offset, whence);
      if pos.None? { return OsError; }
      dir := dir[name := WriteAt(dir[name], pos.value, data)];
      return Done;
    }

    /** Why a read from a place inside the file fails. */
    function Missing(name: string): Option<ReadError>
      reads this
    {
      if name !in index then Some(NotInIndex) else if name !in dir then Some(NotInDirectory) else None
    }

    /** Words of four octets summed until a read returns nothing. */
    method CalcModularChecksum(name: string) returns (r: Result<bytes, ReadError>)
      ensures r == if Missing(name).Some? then Err(Missing(name).value) else Ok(ModularSpec(dir[name]))
    {
      hide LeftJustify, FromBigEndian;
      ghost var file := if name in dir then dir[name] else [];
      var checksum: nat, offset: nat := 0, 0;
      while true
        invariant offset % 4 == 0 && checksum == WeightedSum(Slice(file, 0, offset), 0)
        decreases |file| - offset
      {
        var data := ReadData(name, Some(offset), Some(4));
        if data.Err? { return Err(data.error); }
        if data.value == [] {
          WholeFile(file, offset);
          break;
        }
        ModularStep(file, offset);
        offset := offset + 4;
        checksum := checksum + FromBigEndian(LeftJustify(data.value));
      }
      return Ok(BigEndian(checksum % 0x1_0000_0000, 4));
    }

    /**
     The checksum of the first sizeToVerify octets for the CRCs, whatever the segment length; of the
     whole file for the modular checksum. Stated for the calls that return: see CrcLoopReturnsIff.
     */
    method CalculateChecksum(kind: ChecksumType, name: string, sizeToVerify: int, segmentLen: int)
      returns (r: Result<bytes, ChecksumError>)
      requires kind in {Crc32, Crc32c} && name in index && segmentLen < 0 ==> sizeToVerify <= 0
      ensures kind == NullChecksum ==> r == Ok([0, 0, 0, 0])
      ensures kind != NullChecksum && name !in index ==> r == Err(SourceFileDoesNotExist)
      ensures kind == Modular && name in index ==>
        r == if name in dir then Ok(ModularSpec(dir[name])) else Err(ReadFailed(NotInDirectory))
      ensures kind !in {NullChecksum, Modular} && name in index ==>
        r == if segmentLen == 0 then Err(ZeroSegment)
             else if kind == OtherChecksum then Err(NotImplemented)
             else if sizeToVerify <= 0 then Ok(CrcOctets(PolyOf(kind), []))
             else if name in dir then Ok(CrcOctets(PolyOf(kind), Slice(dir[name], 0, sizeToVerify)))
             else Err(ReadFailed(NotInDirectory))
    {
      if kind == NullChecksum { return Ok([0, 0, 0, 0]); }
      var found := FileExists(name);
      if !found { return Err(SourceFileDoesNotExist); }
      if kind == Modular {
        var sum := CalcModularChecksum(name);
        return if sum.Ok? then Ok(sum.value) else Err(ReadFailed(sum.error));
      }
      if segmentLen == 0 { return Err(ZeroSegment); }
      if kind == OtherChecksum { return Err(NotImplemented); }
      var sum := CrcOfPrefix(PolyOf(kind), name, sizeToVerify, segmentLen);
      if sum.Err? { return Err(ReadFailed(sum.error)); }
      return Ok(BigEndian(sum.value as nat, 4));
    }

    /** The CRC of the first octets of a file, resumed from segment to segment. */
    method CrcOfPrefix(poly: bv32, name: string, sizeToVerify: int, segmentLen: int)
      returns (r: Result<bv32, ReadError>)
      requires segmentLen > 0 || sizeToVerify <= 0
      ensures r == if sizeToVerify <= 0 then Ok(Crc(poly, [], 0))
                   else if Missing(name).Some? then Err(Missing(name).value)
                   else Ok(Crc(poly, Slice(dir[name], 0, sizeToVerify), 0))
    {
      hide Crc;
      var current := Crc(poly, [], 0);
      var offset: nat := 0;
      ghost var file := if name in dir then dir[name] else [];
      while offset < sizeToVerify
        invariant offset > 0 ==> Missing(name).None? && offset <= sizeToVerify
        invariant current == Crc(poly, Slice(file, 0, offset), 0)
        decreases sizeToVerify - offset
      {
        var readLen := if offset + segmentLen > sizeToVerify then sizeToVerify - offset else segmentLen;
        if readLen > 0 {
          var data := ReadData(name, Some(offset), Some(readLen));
          if data.Err? { return Err(data.error); }
          CrcResumes(poly, Slice(file, 0, offset), data.value, 0);
          assert Slice(file, 0, offset) + data.value == Slice(file, 0, offset + readLen);
          current := Crc(poly, data.value, current);
        }
        offset := offset + readLen;
      }
      return Ok(current);
    }
  }

  function PolyOf(kind: ChecksumType): bv32
  {
    if kind == Crc32 then POLY_ISO_HDLC else POLY_ISCSI
  }

  function CrcOctets(poly: bv32, data: bytes): bytes
  {
    BigEndian(Crc(poly, data, 0) as nat, 4)
  }

  /** The two checksums are those published as CRC-32 and CRC-32C, most significant octet first. */
  lemma ChecksumKinds()
    ensures CrcOctets(PolyOf(Crc32), [0x61]) == [0xE8, 0xB7, 0xBE, 0x43]
    ensures CrcOctets(PolyOf(Crc32c), [0x61]) == [0xC1, 0xD0, 0x43, 0x30]
  {
    CheckValues();
    hide Crc;
    WordOctets(0xE8, 0xB7, 0xBE, 0x43);
    WordOctets(0xC1, 0xD0, 0x43, 0x30);
  }

  lemma WordOctets(a: byte, b: byte, c: byte, d: byte)
    ensures BigEndian(a as nat * 0x100_0000 + b as nat * 0x1_0000 + c as nat * 0x100 + d, 4) == [a, b, c, d]
  {
    FourOctets([a, b, c, d]);
    BigEndianOfOctets([a, b, c, d]);
  }
}
