/**
 Storing, restoring and clearing the satellite's state in F-RAM: three loops over one list of objects
 that must agree on where each object lies.
 */
module PersistentState {
  import opened Octets
  import opened Fram

  datatype Kind = Domain | OctetString | Scalar

  /** An object as its octets: those `encode_raw` gives for its default and for its value. */
  datatype Obj = Obj(name: string, kind: Kind, default: bytes, value: bytes)

  const KEY_PREFIX := "crypto_key"
  const PRE_DEPLOY: byte := 66

  predicate IsKey(o: Obj)
  {
    KEY_PREFIX <= o.name
  }

  /** The keys are the objects whose name begins with these ten characters. */
  lemma KeyNames(o: Obj)
    ensures IsKey(o) <==> |o.name| >= 10 && o.name[..10] == "crypto_key"
  {
  }

  // ----- what the three loops do -----

  /** The memory after the store loop, with the error that stopped it. */
  function Stored(memory: bytes, objs: seq<Obj>, offset: nat): (r: (bytes, Option<Error>))
    requires |memory| == SIZE
    ensures |r.0| == SIZE
    decreases |objs|
  {
    if objs == [] then (memory, None)
    else if objs[0].kind.Domain? then Stored(memory, objs[1..], offset)
    else
      var w := Written(memory, offset, objs[0].value);
      if w.Err? then (memory, Some(w.error))
      else
        var stride := if objs[0].kind.OctetString? then |objs[0].default| else |objs[0].value|;
        Stored(w.value, objs[1..], offset + stride)
  }

  /** The objects after the restore loop, with the error that stopped it. */
  function Restored(memory: bytes, objs: seq<Obj>, offset: nat): (r: (seq<Obj>, Option<Error>))
    requires |memory| == SIZE
    ensures |r.0| == |objs|
  {
    if objs == [] then ([], None)
    else if objs[0].kind.Domain? then
      var r := Restored(memory, objs[1..], offset);
      ([objs[0]] + r.0, r.1)
    else
      var size := |objs[0].default|;
      var data := ReadOf(memory, offset, size);
      if data.Err? then (objs, Some(data.error))
      else
        var r := Restored(memory, objs[1..], offset + size);
        ([objs[0].(value := data.value)] + r.0, r.1)
  }

  /** The memory after the loop that writes the keys back to a wiped memory. */
  function KeysStored(memory: bytes, objs: seq<Obj>, offset: nat): (r: (bytes, Option<Error>))
    requires |memory| == SIZE
    ensures |r.0| == SIZE
    decreases |objs|
  {
    if objs == [] then (memory, None)
    else if objs[0].kind.Domain? then KeysStored(memory, objs[1..], offset)
    else if !IsKey(objs[0]) then KeysStored(memory, objs[1..], offset + |objs[0].value|)
    else if objs[0].kind.Scalar? then (memory, Some(NotBytes))
    else
      var w := Written(memory, offset, objs[0].value);
      if w.Err? then (memory, Some(w.error))
      else KeysStored(w.value, objs[1..], offset + |objs[0].default|)
  }

  function Cleared(memory: bytes, objs: seq<Obj>): (r: (bytes, Option<Error>))
    requires |memory| == SIZE
    ensures |r.0| == SIZE
  {
    KeysStored(Wiped(memory), objs, 0)
  }

  /** One turn of each loop. */
  lemma StoredHead(memory: bytes, objs: seq<Obj>, i: nat, offset: nat)
    requires |memory| == SIZE && i < |objs|
    ensures var o, w := objs[i], Written(memory, offset, objs[i].value);
      Stored(memory, objs[i..], offset) ==
        if o.kind.Domain? then Stored(memory, objs[i + 1..], offset)
        else if w.Err? then (memory, Some(w.error))
        else Stored(w.value, objs[i + 1..], offset + if o.kind.OctetString? then |o.default| else |o.value|)
  {
    assert objs[i..][0] == objs[i] && objs[i..][1..] == objs[i + 1..];
  }

  lemma RestoredHead(memory: bytes, objs: seq<Obj>, i: nat, offset: nat)
    requires |memory| == SIZE && i < |objs|
    ensures var o, data := objs[i], ReadOf(memory, offset, |objs[i].default|);
      Restored(memory, objs[i..], offset) ==
        if o.kind.Domain? then
          var r := Restored(memory, objs[i + 1..], offset);
          ([o] + r.0, r.1)
        else if data.Err? then (objs[i..], Some(data.error))
        else
          var r := Restored(memory, objs[i + 1..], offset + |o.default|);
          ([o.(value := data.value)] + r.0, r.1)
  {
    assert objs[i..][0] == objs[i] && objs[i..][1..] == objs[i + 1..];
  }

  lemma KeysStoredHead(memory: bytes, objs: seq<Obj>, i: nat, offset: nat)
    requires |memory| == SIZE && i < |objs|
    ensures var o, w := objs[i], Written(memory, offset, objs[i].value);
      KeysStored(memory, objs[i..], offset) ==
        if o.kind.Domain? then KeysStored(memory, objs[i + 1..], offset)
        else if !IsKey(o) then KeysStored(memory, objs[i + 1..], offset + |o.value|)
        else if o.kind.Scalar? then (memory, Some(NotBytes))
        else if w.Err? then (memory, Some(w.error))
        else KeysStored(w.value, objs[i + 1..], offset + |o.default|)
  {
    assert objs[i..][0] == objs[i] && objs[i..][1..] == objs[i + 1..];
  }

  lemma EndOfList(memory: bytes, objs: seq<Obj>, offset: nat)
    requires |memory| == SIZE && objs == []
    ensures Stored(memory, objs, offset) == (memory, None) == KeysStored(memory, objs, offset)
    ensures Restored(memory, objs, offset) == ([], None)
  {
  }

  // ----- the layout -----

  /** Every stored object is as long as its default, and not empty. */
  predicate FixedSizes(objs: seq<Obj>)
  {
    forall o :: o in objs && !o.kind.Domain? ==> 0 < |o.default| == |o.value|
  }

  function Extent(o: Obj): nat
  {
    if o.kind.Domain? then 0 else |o.default|
  }

  /** Where the object after objs lies. */
  function Total(objs: seq<Obj>): nat
  {
    if objs == [] then 0 else Extent(objs[0]) + Total(objs[1..])
  }

  /** The stored values, one after the other. */
  function Image(objs: seq<Obj>): bytes
  {
    if objs == [] then []
    else (if objs[0].kind.Domain? then [] else objs[0].value) + Image(objs[1..])
  }

  predicate SameDefinitions(a: seq<Obj>, b: seq<Obj>)
  {
    |a| == |b| && forall i :: 0 <= i < |a| ==> a[i].(value := []) == b[i].(value := [])
  }

  /** Every object that is not a DOMAIN has in a the value it has in b. */
  predicate SameValues(a: seq<Obj>, b: seq<Obj>)
  {
    |a| == |b| && forall i :: 0 <= i < |a| && !a[i].kind.Domain? ==> a[i].value == b[i].value
  }

  /** memory[lo..hi] holds data. */
  predicate HoldsAt(memory: bytes, offset: nat, data: bytes)
  {
    offset + |data| <= |memory| && memory[offset..offset + |data|] == data
  }

  // ----- restore after store -----

  lemma {:induction false} ImageLength(objs: seq<Obj>)
    requires FixedSizes(objs)
    ensures |Image(objs)| == Total(objs)
  {
    if objs == [] {
    } else {
      RestFixed(objs);
      ImageLength(objs[1..]);
    }
  }

  lemma RestFixed(objs: seq<Obj>)
    requires FixedSizes(objs) && objs != []
    ensures FixedSizes(objs[1..]) && (!objs[0].kind.Domain? ==> 0 < |objs[0].default| == |objs[0].value|)
  {
    assert objs[0] in objs;
  }

  /** Storing fixed-size objects that fit puts their image at the offset and changes nothing else. */
  lemma {:induction false} StoredIsImage(memory: bytes, objs: seq<Obj>, offset: nat)
    requires |memory| == SIZE && FixedSizes(objs) && offset + Total(objs) <= SIZE
    ensures |Image(objs)| == Total(objs)
    ensures Stored(memory, objs, offset) ==
            (memory[..offset] + Image(objs) + memory[offset + Total(objs)..], None)
    decreases |objs|
  {
    ImageLength(objs);
    if objs == [] {
      assert memory[..offset] + [] + memory[offset..] == memory;
    } else {
      RestFixed(objs);
      if objs[0].kind.Domain? {
        StoredIsImage(memory, objs[1..], offset);
        assert [] + Image(objs[1..]) == Image(objs[1..]);
      } else {
        var w := Written(memory, offset, objs[0].value).value;
        StoredIsImage(w, objs[1..], offset + |objs[0].value|);
        SplitImage(memory, w, offset, objs[0].value, Image(objs[1..]));
      }
    }
  }

  lemma SplitImage(memory: bytes, w: bytes, offset: nat, first: bytes, rest: bytes)
    requires |memory| == SIZE && offset + |first| + |rest| <= SIZE
    requires w == memory[..offset] + first + memory[offset + |first|..]
    ensures w[..offset + |first|] + rest + w[offset + |first| + |rest|..] ==
            memory[..offset] + (first + rest) + memory[offset + |first + rest|..]
  {
  }

  /** Restoring from a memory that holds the image of objs gives their values. */
  lemma {:induction false} RestoredFromImage(memory: bytes, objs: seq<Obj>, now: seq<Obj>, offset: nat)
    requires |memory| == SIZE && FixedSizes(objs) && SameDefinitions(objs, now)
    requires HoldsAt(memory, offset, Image(objs))
    ensures var r := Restored(memory, now, offset); r.1.None? && SameValues(objs, r.0)
  {
    hide SameDefinitions, FixedSizes, HoldsAt, SameValues, Restored, ReadOf, Image;
    if objs == [] {
      NothingRestored(memory, objs, now, offset);
    } else {
      RestFixed(objs);
      FirstDefinition(objs, now);
      var rest := Image(objs[1..]);
      var r := Restored(memory, now, offset);
      RestoredHead(memory, now, 0, offset);
      assert now[0..] == now;
      ImageHead(objs);
      if objs[0].kind.Domain? {
        RestoredFromImage(memory, objs[1..], now[1..], offset);
        ConsValues(objs, r.0);
      } else {
        SplitHeld(memory, offset, objs[0].value, rest);
        ReadHeld(memory, offset, objs[0].value);
        RestoredFromImage(memory, objs[1..], now[1..], offset + |objs[0].value|);
        ConsValues(objs, r.0);
      }
    }
  }

  lemma NothingRestored(memory: bytes, objs: seq<Obj>, now: seq<Obj>, offset: nat)
    requires |memory| == SIZE && objs == [] && SameDefinitions(objs, now)
    ensures var r := Restored(memory, now, offset); r.1.None? && SameValues(objs, r.0)
  {
  }

  lemma ImageHead(objs: seq<Obj>)
    requires objs != []
    ensures Image(objs) == if objs[0].kind.Domain? then Image(objs[1..]) else objs[0].value + Image(objs[1..])
  {
  }

  lemma ReadHeld(memory: bytes, offset: nat, data: bytes)
    requires |memory| == SIZE && HoldsAt(memory, offset, data) && data != []
    ensures ReadOf(memory, offset, |data|) == Ok(data)
  {
  }

  lemma ConsValues(a: seq<Obj>, b: seq<Obj>)
    requires |a| == |b| > 0 && SameValues(a[1..], b[1..])
    requires !a[0].kind.Domain? ==> a[0].value == b[0].value
    ensures SameValues(a, b)
  {
    assert a == [a[0]] + a[1..] && b == [b[0]] + b[1..];
  }

  lemma FirstDefinition(objs: seq<Obj>, now: seq<Obj>)
    requires SameDefinitions(objs, now) && objs != []
    ensures |now| == |objs| && SameDefinitions(objs[1..], now[1..])
    ensures objs[0].name == now[0].name && objs[0].kind == now[0].kind && objs[0].default == now[0].default
  {
    assert objs[0].(value := []) == now[0].(value := []);
  }

  lemma SplitHeld(memory: bytes, offset: nat, first: bytes, rest: bytes)
    requires HoldsAt(memory, offset, first + rest)
    ensures HoldsAt(memory, offset, first) && HoldsAt(memory, offset + |first|, rest)
  {
    var all := memory[offset..offset + |first| + |rest|];
    assert all == first + rest;
    assert memory[offset..offset + |first|] == all[..|first|];
    assert memory[offset + |first|..offset + |first| + |rest|] == all[|first|..];
  }

  /** What a restore without error says about the layout. */
  lemma {:induction false} RestoredLayout(memory: bytes, objs: seq<Obj>, offset: nat)
    requires |memory| == SIZE && offset <= SIZE && Restored(memory, objs, offset).1.None?
    ensures offset + Total(objs) <= SIZE
    ensures forall i :: 0 <= i < |objs| && !objs[i].kind.Domain? ==>
              0 < |objs[i].default| == |Restored(memory, objs, offset).0[i].value|
  {
    if objs == [] {
    } else {
      RestoredLayout(memory, objs[1..], offset + Extent(objs[0]));
      var r := Restored(memory, objs, offset).0;
      assert r[1..] == Restored(memory, objs[1..], offset + Extent(objs[0])).0;
      forall i | 0 <= i < |objs| && !objs[i].kind.Domain?
        ensures 0 < |objs[i].default| == |r[i].value|
      {
        assert i > 0 ==> objs[i] == objs[1..][i - 1] && r[i] == r[1..][i - 1];
      }
    }
  }

  lemma {:induction false} SameTotal(objs: seq<Obj>, now: seq<Obj>)
    requires SameDefinitions(objs, now)
    ensures Total(objs) == Total(now)
  {
    if objs == [] {
    } else {
      FirstDefinition(objs, now);
      SameTotal(objs[1..], now[1..]);
    }
  }

  /**
   A store followed, perhaps after a restart, by a restore brings back every value that is not a
   DOMAIN exactly when all of them are as long as their defaults, none is empty, and they fit.
   */
  lemma StoreRestoreIff(memory: bytes, objs: seq<Obj>, now: seq<Obj>)
    requires |memory| == SIZE && SameDefinitions(objs, now)
    ensures var s := Stored(memory, objs, 0);
      var r := Restored(s.0, now, 0);
      s.1.None? && r.1.None? && SameValues(objs, r.0) <==> FixedSizes(objs) && Total(objs) <= SIZE
  {
    hide Stored, Restored, Image;
    var s := Stored(memory, objs, 0);
    var r := Restored(s.0, now, 0);
    SameTotal(objs, now);
    if FixedSizes(objs) && Total(objs) <= SIZE {
      StoredIsImage(memory, objs, 0);
      assert s.0[0..|Image(objs)|] == Image(objs);
      RestoredFromImage(s.0, objs, now, 0);
    }
    if r.1.None? && SameValues(objs, r.0) {
      RestoredLayout(s.0, now, 0);
      forall o | o in objs && !o.kind.Domain?
        ensures 0 < |o.default| == |o.value|
      {
        var i :| 0 <= i < |objs| && objs[i] == o;
        assert objs[i].(value := []) == now[i].(value := []);
        assert r.0[i].value == o.value;
      }
    }
  }

  // ----- octet strings shorter than their defaults -----

  /** An octet string may be shorter than its default; every other object is as long, and none is empty. */
  predicate Padded(objs: seq<Obj>)
  {
    forall o :: o in objs && !o.kind.Domain? ==> PaddedOne(o)
  }

  predicate PaddedOne(o: Obj)
  {
    0 < |o.value| <= |o.default| && (o.kind.Scalar? ==> |o.value| == |o.default|)
  }

  lemma RestPadded(objs: seq<Obj>)
    requires Padded(objs) && objs != []
    ensures Padded(objs[1..]) && (!objs[0].kind.Domain? ==> PaddedOne(objs[0]))
  {
    assert objs[0] in objs;
  }

  /** Storing such objects that fit meets no error, and touches nothing before the first. */
  lemma {:induction false} StoredAfter(memory: bytes, objs: seq<Obj>, offset: nat)
    requires |memory| == SIZE && Padded(objs) && offset + Total(objs) <= SIZE
    ensures Stored(memory, objs, offset).1.None? && Stored(memory, objs, offset).0[..offset] == memory[..offset]
    decreases |objs|
  {
    hide Padded;
    if objs == [] {
    } else {
      RestPadded(objs);
      if objs[0].kind.Domain? {
        StoredAfter(memory, objs[1..], offset);
      } else {
        var next := offset + |objs[0].default|;
        var w := Written(memory, offset, objs[0].value).value;
        StoredAfter(w, objs[1..], next);
        var s := Stored(w, objs[1..], next).0;
        assert s[..offset] == s[..next][..offset] == w[..next][..offset] == memory[..offset];
      }
    }
  }

  /** Every value comes back at the start of what is restored for it, so that a short one moves no other. */
  predicate StartWith(a: seq<Obj>, b: seq<Obj>)
  {
    |a| == |b| && forall i :: 0 <= i < |a| && !a[i].kind.Domain? ==>
      a[i].value <= b[i].value && |b[i].value| == |a[i].default|
  }

  lemma {:induction false} ShortStringsMoveNothing(memory: bytes, objs: seq<Obj>, now: seq<Obj>, offset: nat)
    requires |memory| == SIZE && Padded(objs) && SameDefinitions(objs, now) && offset + Total(objs) <= SIZE
    ensures var s := Stored(memory, objs, offset);
      var r := Restored(s.0, now, offset);
      s.1.None? && r.1.None? && StartWith(objs, r.0)
    decreases |objs|
  {
    hide Padded, SameDefinitions, StartWith, Stored, Restored, Written, ReadOf;
    if objs == [] {
      NothingStarts(memory, objs, now, offset);
    } else {
      RestPadded(objs);
      FirstDefinition(objs, now);
      StoredHead(memory, objs, 0, offset);
      assert objs[0..] == objs && now[0..] == now;
      if objs[0].kind.Domain? {
        ShortStringsMoveNothing(memory, objs[1..], now[1..], offset);
        RestoredHead(Stored(memory, objs, offset).0, now, 0, offset);
        ConsStarts(objs, Restored(Stored(memory, objs, offset).0, now, offset).0);
      } else {
        var next := offset + |objs[0].default|;
        WrittenAt(memory, offset, objs[0].value);
        var w := Written(memory, offset, objs[0].value).value;
        ShortStringsMoveNothing(w, objs[1..], now[1..], next);
        StoredAfter(w, objs[1..], next);
        var s := Stored(memory, objs, offset).0;
        RestoredHead(s, now, 0, offset);
        ReadStarts(memory, w, s, offset, objs[0].value, |objs[0].default|);
        ConsStarts(objs, Restored(s, now, offset).0);
      }
    }
  }

  lemma NothingStarts(memory: bytes, objs: seq<Obj>, now: seq<Obj>, offset: nat)
    requires |memory| == SIZE && objs == [] && SameDefinitions(objs, now)
    ensures Stored(memory, objs, offset) == (memory, None) && Restored(memory, now, offset) == ([], None)
    ensures StartWith(objs, [])
  {
  }

  lemma ReadStarts(memory: bytes, w: bytes, s: bytes, offset: nat, data: bytes, size: nat)
    requires |memory| == SIZE == |s| == |w| && 0 < |data| <= size && offset + size <= SIZE
    requires w == memory[..offset] + data + memory[offset + |data|..] && s[..offset + size] == w[..offset + size]
    ensures var r := ReadOf(s, offset, size); r.Ok? && data <= r.value && |r.value| == size
  {
    var r := s[offset..offset + size];
    forall i | 0 <= i < |data|
      ensures r[i] == data[i]
    {
      assert s[..offset + size][offset + i] == w[..offset + size][offset + i];
    }
    assert r[..|data|] == data;
  }

  lemma ConsStarts(a: seq<Obj>, b: seq<Obj>)
    requires |a| == |b| > 0 && StartWith(a[1..], b[1..])
    requires !a[0].kind.Domain? ==> a[0].value <= b[0].value && |b[0].value| == |a[0].default|
    ensures StartWith(a, b)
  {
    assert a == [a[0]] + a[1..] && b == [b[0]] + b[1..];
  }

  // ----- restore after clear -----

  /** What lies at an object's place once the keys are written back. */
  function Kept(memory: bytes, o: Obj, offset: nat): bytes
    requires |memory| == SIZE && offset + |o.default| <= SIZE
  {
    if IsKey(o) then o.value else memory[offset..offset + |o.default|]
  }

  /** The image after the keys are written back over a memory: other objects keep what lies there. */
  function KeyImage(memory: bytes, objs: seq<Obj>, offset: nat): (r: bytes)
    requires |memory| == SIZE && offset + Total(objs) <= SIZE
  {
    if objs == [] then []
    else if objs[0].kind.Domain? then KeyImage(memory, objs[1..], offset)
    else
      var n := |objs[0].default|;
      Kept(memory, objs[0], offset) + KeyImage(memory, objs[1..], offset + n)
  }

  /** The values a restore finds: keys as they were, and what memory holds for everything else. */
  function AfterClear(memory: bytes, objs: seq<Obj>, offset: nat): (r: seq<Obj>)
    requires |memory| == SIZE && offset + Total(objs) <= SIZE
    ensures |r| == |objs|
  {
    if objs == [] then []
    else
      var n := Extent(objs[0]);
      [if objs[0].kind.Domain? then objs[0] else objs[0].(value := Kept(memory, objs[0], offset))] +
      AfterClear(memory, objs[1..], offset + n)
  }

  predicate KeysAreOctetStrings(objs: seq<Obj>)
  {
    forall o :: o in objs && IsKey(o) ==> !o.kind.Scalar?
  }

  lemma {:induction false} AfterClearImage(memory: bytes, objs: seq<Obj>, offset: nat)
    requires |memory| == SIZE && FixedSizes(objs) && offset + Total(objs) <= SIZE
    ensures var a := AfterClear(memory, objs, offset);
      FixedSizes(a) && Total(a) == Total(objs) && SameDefinitions(objs, a) &&
      Image(a) == KeyImage(memory, objs, offset) && |Image(a)| == Total(objs)
  {
    hide AfterClear, KeyImage, IsKey, Image, FixedSizes, SameDefinitions;
    var a := AfterClear(memory, objs, offset);
    if objs == [] {
      NothingAfterClear(memory, objs, offset);
    } else {
      RestFixed(objs);
      AfterClearImage(memory, objs[1..], offset + Extent(objs[0]));
      ConsAfterClear(memory, objs, offset);
      ConsFixed(a, objs);
      ImageLength(a);
      SameTotal(objs, a);
    }
  }

  lemma NothingAfterClear(memory: bytes, objs: seq<Obj>, offset: nat)
    requires |memory| == SIZE && offset <= SIZE && objs == []
    ensures FixedSizes(objs) && AfterClear(memory, objs, offset) == [] && SameDefinitions(objs, objs)
    ensures KeyImage(memory, objs, offset) == [] == Image(objs)
  {
  }

  lemma KeptSize(memory: bytes, o: Obj, offset: nat)
    requires |memory| == SIZE && offset + |o.default| <= SIZE && |o.value| == |o.default|
    ensures |Kept(memory, o, offset)| == |o.default|
  {
  }

  /** One step of the three definitions. */
  lemma ConsAfterClear(memory: bytes, objs: seq<Obj>, offset: nat)
    requires |memory| == SIZE && offset + Total(objs) <= SIZE && objs != []
    requires !objs[0].kind.Domain? ==> 0 < |objs[0].default| == |objs[0].value|
    ensures var a := AfterClear(memory, objs, offset);
      var next := offset + Extent(objs[0]);
      a[1..] == AfterClear(memory, objs[1..], next) && a[0].(value := []) == objs[0].(value := []) &&
      (!a[0].kind.Domain? ==> 0 < |a[0].default| == |a[0].value|) &&
      (Image(a[1..]) == KeyImage(memory, objs[1..], next) ==> Image(a) == KeyImage(memory, objs, offset))
  {
    hide IsKey, Kept;
    if !objs[0].kind.Domain? {
      KeptSize(memory, objs[0], offset);
    }
    var a := AfterClear(memory, objs, offset);
    assert a[1..] == AfterClear(memory, objs[1..], offset + Extent(objs[0]));
    assert objs[0].kind.Domain? ==> [] + Image(a[1..]) == Image(a[1..]);
  }

  lemma ConsFixed(a: seq<Obj>, objs: seq<Obj>)
    requires a != [] && objs != []
    requires FixedSizes(a[1..]) && SameDefinitions(objs[1..], a[1..])
    requires !a[0].kind.Domain? ==> 0 < |a[0].default| == |a[0].value|
    requires a[0].(value := []) == objs[0].(value := [])
    ensures FixedSizes(a) && SameDefinitions(objs, a)
  {
    assert a == [a[0]] + a[1..] && objs == [objs[0]] + objs[1..];
  }

  /** Writing the keys puts their image at the offset and changes nothing else. */
  lemma {:induction false} KeysStoredIsImage(memory: bytes, objs: seq<Obj>, offset: nat)
    requires |memory| == SIZE && FixedSizes(objs) && KeysAreOctetStrings(objs) && offset + Total(objs) <= SIZE
    ensures |KeyImage(memory, objs, offset)| == Total(objs)
    ensures KeysStored(memory, objs, offset) ==
            (memory[..offset] + KeyImage(memory, objs, offset) + memory[offset + Total(objs)..], None)
    decreases |objs|
  {
    hide FixedSizes, KeysAreOctetStrings, SameDefinitions, Written, AfterClear, Image, KeyImage, KeysStored, IsKey,
      Kept, Check;
    AfterClearImage(memory, objs, offset);
    if objs == [] {
      NothingStored(memory, objs, offset);
    } else {
      RestFixed(objs);
      var n := Extent(objs[0]);
      KeysStoredHead(memory, objs, 0, offset);
      KeyImageHead(memory, objs, offset);
      RestKeys(objs);
      assert objs[0..] == objs;
      AfterClearImage(memory, objs[1..], offset + n);
      if objs[0].kind.Domain? {
        KeysStoredIsImage(memory, objs[1..], offset);
      } else if IsKey(objs[0]) {
        KeptIs(memory, objs[0], offset);
        var w := Written(memory, offset, objs[0].value).value;
        WrittenAt(memory, offset, objs[0].value);
        KeysStoredIsImage(w, objs[1..], offset + n);
        KeyImageBeyond(memory, w, objs[1..], offset + n);
        SplitImage(memory, w, offset, objs[0].value, KeyImage(memory, objs[1..], offset + n));
      } else {
        KeptIs(memory, objs[0], offset);
        KeysStoredIsImage(memory, objs[1..], offset + n);
        SplitKept(memory, offset, n, KeyImage(memory, objs[1..], offset + n));
      }
    }
  }

  lemma SplitKept(memory: bytes, offset: nat, n: nat, rest: bytes)
    requires |memory| == SIZE && offset + n + |rest| <= SIZE
    ensures var first := memory[offset..offset + n];
      memory[..offset + n] + rest + memory[offset + n + |rest|..] ==
      memory[..offset] + (first + rest) + memory[offset + n + |rest|..]
  {
  }

  lemma RestKeys(objs: seq<Obj>)
    requires KeysAreOctetStrings(objs) && objs != []
    ensures KeysAreOctetStrings(objs[1..]) && (IsKey(objs[0]) ==> !objs[0].kind.Scalar?)
  {
    assert objs[0] in objs;
  }

  lemma KeptIs(memory: bytes, o: Obj, offset: nat)
    requires |memory| == SIZE && offset + |o.default| <= SIZE
    ensures Kept(memory, o, offset) == if IsKey(o) then o.value else memory[offset..offset + |o.default|]
  {
  }

  lemma NothingStored(memory: bytes, objs: seq<Obj>, offset: nat)
    requires |memory| == SIZE && offset <= SIZE && objs == []
    ensures KeyImage(memory, objs, offset) == []
    ensures KeysStored(memory, objs, offset) == (memory[..offset] + [] + memory[offset..], None)
  {
    assert memory[..offset] + [] + memory[offset..] == memory;
  }

  lemma KeyImageHead(memory: bytes, objs: seq<Obj>, offset: nat)
    requires |memory| == SIZE && offset + Total(objs) <= SIZE && objs != []
    ensures var n := Extent(objs[0]);
      var rest := KeyImage(memory, objs[1..], offset + n);
      KeyImage(memory, objs, offset) ==
        if objs[0].kind.Domain? then rest
        else Kept(memory, objs[0], offset) + rest
  {
    hide Kept, IsKey;
  }

  lemma WrittenAt(memory: bytes, offset: nat, data: bytes)
    requires |memory| == SIZE && data != [] && offset + |data| <= SIZE
    ensures Written(memory, offset, data) == Ok(memory[..offset] + data + memory[offset + |data|..])
    ensures (memory[..offset] + data + memory[offset + |data|..])[offset + |data|..] == memory[offset + |data|..]
  {
  }

  lemma {:induction false} KeyImageBeyond(memory: bytes, w: bytes, objs: seq<Obj>, offset: nat)
    requires |memory| == SIZE == |w| && offset + Total(objs) <= SIZE
    requires memory[offset..] == w[offset..]
    ensures KeyImage(memory, objs, offset) == KeyImage(w, objs, offset)
  {
    if objs == [] {
    } else {
      var n := Extent(objs[0]);
      assert memory[offset + n..] == memory[offset..][n..] && w[offset + n..] == w[offset..][n..];
      assert memory[offset..offset + n] == memory[offset..][..n] && w[offset..offset + n] == w[offset..][..n];
      KeyImageBeyond(memory, w, objs[1..], offset + n);
    }
  }

  /**
   Clearing fixed-size objects that fit and then restoring them: keys come back unchanged, and every
   other object comes back as the wiped memory has it.
   */
  lemma ClearRestore(memory: bytes, objs: seq<Obj>, now: seq<Obj>)
    requires |memory| == SIZE && SameDefinitions(objs, now)
    requires FixedSizes(objs) && KeysAreOctetStrings(objs) && Total(objs) <= SIZE
    ensures var c := Cleared(memory, objs);
      var r := Restored(c.0, now, 0);
      c.1.None? && r.1.None? && SameValues(AfterClear(Wiped(memory), objs, 0), r.0)
  {
    hide Restored, KeysStored, Image, KeyImage, AfterClear, FixedSizes;
    var m := Wiped(memory);
    var a := AfterClear(m, objs, 0);
    AfterClearImage(m, objs, 0);
    KeysStoredIsImage(m, objs, 0);
    var c := Cleared(memory, objs);
    assert c.0[0..|Image(a)|] == Image(a);
    RestoredFromImage(c.0, a, now, 0);
  }

  /** The value AfterClear gives an object, by where the object lies. */
  lemma {:induction false} AfterClearValue(memory: bytes, objs: seq<Obj>, offset: nat, i: nat)
    requires |memory| == SIZE && offset + Total(objs) <= SIZE && i < |objs| && !objs[i].kind.Domain?
    ensures var at := offset + Total(objs[..i]);
      at + |objs[i].default| <= offset + Total(objs) &&
      AfterClear(memory, objs, offset)[i].value ==
        Kept(memory, objs[i], at)
  {
    hide Kept, IsKey;
    if i > 0 {
      AfterClearValue(memory, objs[1..], offset + Extent(objs[0]), i - 1);
      assert objs[..i][1..] == objs[1..][..i - 1];
    } else {
      assert objs[..0] == [];
    }
  }

  /**
   The whole of a clear and a restore, object by object. An object that is not a key comes back as
   zeros when the layout ends within the half that is wiped; one that lies past it survives.
   */
  lemma ClearKeepsOnlyKeys(memory: bytes, objs: seq<Obj>, now: seq<Obj>, i: nat)
    requires |memory| == SIZE && SameDefinitions(objs, now)
    requires FixedSizes(objs) && KeysAreOctetStrings(objs) && Total(objs) <= SIZE
    requires i < |objs| && !objs[i].kind.Domain?
    ensures var r := Restored(Cleared(memory, objs).0, now, 0);
      var at, n := Total(objs[..i]), |objs[i].default|;
      r.1.None? && at + n <= Total(objs) &&
      (IsKey(objs[i]) ==> r.0[i].value == objs[i].value) &&
      (!IsKey(objs[i]) ==> r.0[i].value == Wiped(memory)[at..at + n]) &&
      (!IsKey(objs[i]) && at + n <= SIZE / 2 ==> r.0[i].value == Zeros(n)) &&
      (!IsKey(objs[i]) && at >= SIZE / 2 ==> r.0[i].value == memory[at..at + n])
  {
    hide Restored, Cleared, AfterClear, FixedSizes, KeysAreOctetStrings;
    ClearRestore(memory, objs, now);
    AfterClearValue(Wiped(memory), objs, 0, i);
    SameKind(objs, Wiped(memory), 0, i);
    var at, n := Total(objs[..i]), |objs[i].default|;
    WipedParts(memory, at, n);
  }

  lemma {:induction false} SameKind(objs: seq<Obj>, memory: bytes, offset: nat, i: nat)
    requires |memory| == SIZE && offset + Total(objs) <= SIZE && i < |objs|
    ensures AfterClear(memory, objs, offset)[i].kind == objs[i].kind
  {
    if i == 0 {
    } else {
      SameKind(objs[1..], memory, offset + Extent(objs[0]), i - 1);
    }
  }

  lemma WipedParts(memory: bytes, at: nat, n: nat)
    requires |memory| == SIZE && at + n <= SIZE
    ensures at + n <= SIZE / 2 ==> Wiped(memory)[at..at + n] == Zeros(n)
    ensures at >= SIZE / 2 ==> Wiped(memory)[at..at + n] == memory[at..at + n]
  {
    if at >= SIZE / 2 {
      forall j | at <= j < at + n
        ensures Wiped(memory)[j] == memory[j]
      {
        assert Wiped(memory)[j] == memory[SIZE / 2..][j - SIZE / 2];
      }
    }
  }

  // ----- the service -----

  class Variable {
    const name: string
    const kind: Kind
    const default: bytes
    var value: bytes

    constructor (name: string, kind: Kind, default: bytes)
      ensures Snapshot() == Obj(name, kind, default, default)
    {
      this.name, this.kind, this.default, value := name, kind, default, default;
    }

    function Snapshot(): Obj
      reads this
    {
      Obj(name, kind, default, value)
    }
  }

  function Snapshots(vars: seq<Variable>): (r: seq<Obj>)
    reads vars
    ensures |r| == |vars| && forall i :: 0 <= i < |vars| ==> r[i] == vars[i].Snapshot()
  {
    if vars == [] then [] else [vars[0].Snapshot()] + Snapshots(vars[1..])
  }

  class StateStore {
    const fram: Fm24cl64b
    const framObjs: seq<Variable>
    const status: Variable

    ghost predicate Valid()
      reads this, fram
    {
      fram.Valid() && forall i, j :: 0 <= i < j < |framObjs| ==> framObjs[i] != framObjs[j]
    }

    constructor (fram: Fm24cl64b, framObjs: seq<Variable>, status: Variable)
      requires fram.Valid() && forall i, j :: 0 <= i < j < |framObjs| ==> framObjs[i] != framObjs[j]
      ensures Valid() && this.fram == fram && this.framObjs == framObjs && this.status == status
    {
      this.fram, this.framObjs, this.status := fram, framObjs, status;
    }

    predicate InPreDeploy()
      reads status
    {
      status.value == [PRE_DEPLOY]
    }

    /** Nothing is stored in PRE_DEPLOY; an error leaves the objects before it written. */
    method StoreState() returns (e: Option<Error>)
      requires Valid()
      modifies fram.memory
      ensures (fram.memory[..], e) ==
              if old(InPreDeploy()) then (old(fram.memory[..]), None)
              else Stored(old(fram.memory[..]), Snapshots(framObjs), 0)
    {
      hide Written, Stored, Snapshots, InPreDeploy;
      if InPreDeploy() { return None; }
      var offset, i := 0, 0;
      ghost var objs := Snapshots(framObjs);
      while i < |framObjs|
        invariant 0 <= i <= |framObjs| && 0 <= offset
        invariant Stored(fram.memory[..], objs[i..], offset) == Stored(old(fram.memory[..]), objs, 0)
      {
        var obj := framObjs[i];
        StoredHead(fram.memory[..], objs, i, offset);
        if !obj.kind.Domain? {
          var rawLen := if obj.kind.OctetString? then |obj.default| else |obj.value|;
          e := fram.Write(offset, obj.value);
          if e.Some? { return; }
          offset := offset + rawLen;
        }
        i := i + 1;
      }
      EndOfList(fram.memory[..], objs[i..], offset);
      e := None;
    }

    /** An error leaves the objects before it restored. The fallback for an empty status never applies. */
    method RestoreState() returns (e: Option<Error>)
      requires Valid()
      modifies set v | v in framObjs
      ensures (Snapshots(framObjs), e) == Restored(fram.memory[..], old(Snapshots(framObjs)), 0)
    {
      hide ReadOf, Restored, Snapshots;
      var offset, i := 0, 0;
      ghost var objs := Snapshots(framObjs);
      ghost var whole := Restored(fram.memory[..], objs, 0);
      while i < |framObjs|
        invariant 0 <= i <= |framObjs| && 0 <= offset
        invariant forall k :: i <= k < |framObjs| ==> framObjs[k].Snapshot() == objs[k]
        invariant forall k :: 0 <= k < i ==> framObjs[k].Snapshot() == whole.0[k]
        invariant whole.0[i..] == Restored(fram.memory[..], objs[i..], offset).0
        invariant whole.1 == Restored(fram.memory[..], objs[i..], offset).1
        invariant fram.memory[..] == old(fram.memory[..])
      {
        var obj := framObjs[i];
        RestoredHead(fram.memory[..], objs, i, offset);
        assert whole.0[i..][0] == whole.0[i] && whole.0[i..][1..] == whole.0[i + 1..];
        if !obj.kind.Domain? {
          var size := |obj.default|;
          var data := fram.Read(offset, size);
          if data.Err? {
            assert Snapshots(framObjs) == whole.0;
            return Some(data.error);
          }
          var raw := data.value;
          if obj.name == "status" && raw == [] {
            raw := [PRE_DEPLOY];
          }
          obj.value := raw;
          offset := offset + size;
        }
        i := i + 1;
      }
      EndOfList(fram.memory[..], objs[i..], offset);
      assert Snapshots(framObjs) == whole.0;
      e := None;
    }

    /** The real-time clock is not part of the memory. */
    method ClearState() returns (e: Option<Error>)
      requires Valid()
      modifies fram.memory
      ensures (fram.memory[..], e) == Cleared(old(fram.memory[..]), Snapshots(framObjs))
    {
      hide Written, Wiped, KeysStored, Snapshots;
      fram.Clear();
      var offset, i := 0, 0;
      ghost var objs := Snapshots(framObjs);
      while i < |framObjs|
        invariant 0 <= i <= |framObjs| && 0 <= offset
        invariant KeysStored(fram.memory[..], objs[i..], offset) == Cleared(old(fram.memory[..]), objs)
      {
        var obj := framObjs[i];
        KeysStoredHead(fram.memory[..], objs, i, offset);
        if !obj.kind.Domain? {
          if KEY_PREFIX <= obj.name {
            if obj.kind.Scalar? { return Some(NotBytes); }
            e := fram.Write(offset, obj.value);
            if e.Some? { return; }
            offset := offset + |obj.default|;
          } else {
            offset := offset + |obj.value|;
          }
        }
        i := i + 1;
      }
      EndOfList(fram.memory[..], objs[i..], offset);
      e := None;
    }
  }
}
