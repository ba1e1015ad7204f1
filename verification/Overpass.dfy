/**
 The overpass search: three nested scans over an abstract predicate "the spacecraft is within range
 at second dt from now".
 */
module Overpass {
  import opened Octets

  const LARGE_DT := 300
  const SMALL_DT := 5
  const MAXIMUM_WINDOW := 3600
  const LEAD_TIME := 100
  const MIN_WINDOW_TIME := 300
  const SKIP_AFTER_WINDOW := 2000

  type Sky = int -> bool

  function Max(a: int, b: int): int
  {
    if a > b then a else b
  }

  /** Membership of t in `range(lo, hi, step)` for t below hi. */
  predicate OnGrid(t: int, lo: int, step: nat): (b: bool)
    requires step > 0
    ensures b ==> t >= lo
    decreases t - lo
  {
    t == lo || (t > lo && OnGrid(t, lo + step, step))
  }

  lemma {:induction false} OnFineGrid(t: int, lo: int)
    ensures OnGrid(t, lo, SMALL_DT) <==> t >= lo && (t - lo) % SMALL_DT == 0
    decreases t - lo
  {
    if t <= lo {
    } else {
      OnFineGrid(t, lo + SMALL_DT);
    }
  }

  /** The first element of `range(lo, hi, step)` whose in-range status is `want`. */
  function Scan(inRange: Sky, want: bool, lo: int, hi: int, step: nat): (r: Option<int>)
    requires step > 0
    ensures r.Some? ==> lo <= r.value < hi && inRange(r.value) == want && OnGrid(r.value, lo, step)
    ensures forall t :: lo <= t < (if r.Some? then r.value else hi) && OnGrid(t, lo, step) ==>
              inRange(t) != want
    decreases hi - lo
  {
    if lo >= hi then None
    else if inRange(lo) == want then Some(lo)
    else Scan(inRange, want, lo + step, hi, step)
  }

  method ScanRange(inRange: Sky, want: bool, lo: int, hi: int, step: nat) returns (r: Option<int>)
    requires step > 0
    ensures r == Scan(inRange, want, lo, hi, step)
  {
    var dt := lo;
    while dt < hi
      invariant Scan(inRange, want, dt, hi, step) == Scan(inRange, want, lo, hi, step)
      decreases hi - dt
    {
      if inRange(dt) == want { return Some(dt); }
      dt := dt + step;
    }
    return None;
  }

  /** The coarse hit is on the fine scan's grid. */
  lemma {:induction false} CoarseHitOnFineGrid(hit: int, offset: int)
    requires OnGrid(hit, offset, LARGE_DT)
    ensures OnGrid(hit, Max(hit - LARGE_DT, offset), SMALL_DT)
    decreases hit - offset
  {
    OnFineGrid(hit, offset);
    if hit <= offset + LARGE_DT {
    } else {
      assert OnGrid(hit, offset + LARGE_DT + LARGE_DT, LARGE_DT);
      CoarseHitOnFineGrid(hit, offset + LARGE_DT);
    }
  }

  /** The window entry the fine scan finds before the coarse scan's hit, and 0 if it finds none. */
  function FineEntry(inRange: Sky, offset: int, hit: int): int
  {
    Scan(inRange, true, Max(hit - LARGE_DT, offset), hit + 1, SMALL_DT).GetOr(0)
  }

  function Exit(inRange: Sky, entry: int): Option<int>
  {
    Scan(inRange, false, entry, entry + MAXIMUM_WINDOW, SMALL_DT)
  }

  /** The fine scan never misses. */
  lemma FineScanFindsEntry(inRange: Sky, offset: int, tEnd: int)
    requires Scan(inRange, true, offset, tEnd, LARGE_DT).Some?
    ensures var hit := Scan(inRange, true, offset, tEnd, LARGE_DT).value;
      Scan(inRange, true, Max(hit - LARGE_DT, offset), hit + 1, SMALL_DT).Some? &&
      inRange(FineEntry(inRange, offset, hit)) && offset <= FineEntry(inRange, offset, hit) <= hit
  {
    CoarseHitOnFineGrid(Scan(inRange, true, offset, tEnd, LARGE_DT).value, offset);
  }

  /** A window [entry, end): in range at every 5 s sample of it, and out of range at its end. */
  predicate IsWindow(inRange: Sky, entry: int, end: int)
  {
    0 <= entry && inRange(entry) && !inRange(end) &&
    300 <= end - entry < 3600 && (end - entry) % 5 == 0 &&
    forall t :: entry <= t < end && OnGrid(t, entry, 5) ==> inRange(t)
  }

  /** What one pass of the outer loop finds. */
  datatype Pass = NoPass | Long(entry: int, exit: int) | Short(exit: int) | Unclosed

  function FindPass(inRange: Sky, offset: int, tEnd: int): (r: Pass)
    ensures r.Long? && offset >= 0 ==> IsWindow(inRange, r.entry, r.exit)
    ensures r.Short? ==> r.exit >= offset
  {
    match Scan(inRange, true, offset, tEnd, LARGE_DT)
    case None => NoPass
    case Some(hit) =>
      FineScanFindsEntry(inRange, offset, tEnd);
      var entry := FineEntry(inRange, offset, hit);
      match Exit(inRange, entry)
      case None => Unclosed
      case Some(exit) =>
        OnFineGrid(exit, entry);
        if exit - entry >= MIN_WINDOW_TIME then Long(entry, exit) else Short(exit)
  }

  function Finder(inRange: Sky, tEnd: int): int -> Pass
  {
    offset => FindPass(inRange, offset, tEnd)
  }

  /** A window begins where the range is entered: at the search's offset, or out of range one sample before. */
  lemma EntryIsRisingEdge(inRange: Sky, offset: int, tEnd: int)
    requires FindPass(inRange, offset, tEnd).Long?
    ensures var entry := FindPass(inRange, offset, tEnd).entry;
      entry == offset || !inRange(entry - SMALL_DT)
  {
    hide Scan, OnGrid, IsWindow;
    var hit := Scan(inRange, true, offset, tEnd, LARGE_DT).value;
    FineScanFindsEntry(inRange, offset, tEnd);
    CoarseHitRises(inRange, offset, tEnd);
    ScanRises(inRange, Max(hit - LARGE_DT, offset), hit + 1);
  }

  /** The sample before the first one found is out of range. */
  lemma ScanRises(inRange: Sky, lo: int, hi: int)
    requires Scan(inRange, true, lo, hi, SMALL_DT).Some?
    ensures var entry := Scan(inRange, true, lo, hi, SMALL_DT).value; entry == lo || !inRange(entry - SMALL_DT)
  {
    var entry := Scan(inRange, true, lo, hi, SMALL_DT).value;
    OnFineGrid(entry, lo);
    OnFineGrid(entry - SMALL_DT, lo);
    hide OnGrid;
  }

  lemma CoarseHitRises(inRange: Sky, offset: int, tEnd: int)
    requires Scan(inRange, true, offset, tEnd, LARGE_DT).Some?
    ensures var hit := Scan(inRange, true, offset, tEnd, LARGE_DT).value;
      hit == offset || (hit - LARGE_DT >= offset && !inRange(hit - LARGE_DT))
  {
    CoarseSampleBefore(Scan(inRange, true, offset, tEnd, LARGE_DT).value, offset);
  }

  /** A pass is skipped only if it lasts less than the minimum. */
  lemma SkippedPassIsShort(inRange: Sky, offset: int, tEnd: int)
    requires FindPass(inRange, offset, tEnd).Short?
    ensures Scan(inRange, true, offset, tEnd, LARGE_DT).Some?
    ensures var entry := FineEntry(inRange, offset, Scan(inRange, true, offset, tEnd, LARGE_DT).value);
      var exit := FindPass(inRange, offset, tEnd).exit;
      inRange(entry) && !inRange(exit) && entry < exit < entry + 300
  {
    FineScanFindsEntry(inRange, offset, tEnd);
  }

  /** A window that is not seen to close is in range at every fine sample of an hour. */
  lemma UnclosedStaysInRange(inRange: Sky, offset: int, tEnd: int, k: nat)
    requires FindPass(inRange, offset, tEnd).Unclosed? && 5 * k < 3600
    ensures Scan(inRange, true, offset, tEnd, LARGE_DT).Some?
    ensures inRange(FineEntry(inRange, offset, Scan(inRange, true, offset, tEnd, LARGE_DT).value) + 5 * k)
  {
    var entry := FineEntry(inRange, offset, Scan(inRange, true, offset, tEnd, LARGE_DT).value);
    OnFineGrid(entry + 5 * k, entry);
  }

  /** A coarse hit that is not the first sample has a coarse sample before it. */
  lemma {:induction false} CoarseSampleBefore(hit: int, offset: int)
    requires OnGrid(hit, offset, LARGE_DT)
    ensures hit == offset || OnGrid(hit - LARGE_DT, offset, LARGE_DT)
    decreases hit - offset
  {
    if hit == offset {
    } else {
      CoarseSampleBefore(hit, offset + LARGE_DT);
    }
  }

  /** When no pass is found, no five minutes of what is left are spent in range. */
  lemma NoPassMeansGaps(inRange: Sky, offset: int, tEnd: int, a: int)
    requires FindPass(inRange, offset, tEnd).NoPass? && offset <= a && a + LARGE_DT <= tEnd
    ensures exists t :: a <= t < a + LARGE_DT && !inRange(t)
  {
    var t := SampleIn(offset, a);
    assert !inRange(t);
  }

  /** Every five minutes hold a coarse sample. */
  lemma {:induction false} SampleIn(offset: int, a: int) returns (t: int)
    requires offset <= a
    ensures a <= t < a + LARGE_DT && OnGrid(t, offset, LARGE_DT)
    decreases a - offset
  {
    if a < offset + LARGE_DT {
      t := if a == offset then offset else offset + LARGE_DT;
      assert OnGrid(offset + LARGE_DT, offset + LARGE_DT, LARGE_DT);
    } else {
      t := SampleIn(offset + LARGE_DT, a);
    }
  }

  // ----- the outer loop over any pass finder -----

  /** A pass is found from its offset onwards. */
  ghost predicate Advances(find: int -> Pass)
  {
    forall offset :: find(offset).Short? ==> find(offset).exit >= offset
  }

  /** How the search ends from an offset, unless it meets a window that is not seen to close. */
  datatype Ending = Returns(start: int, end: Option<int>) | Open

  function Window(entry: int, exit: int): Ending
  {
    Returns(Max(0, entry - LEAD_TIME), Some(exit))
  }

  function Search(find: int -> Pass, offset: int, tEnd: int): Ending
    requires Advances(find) && offset >= 0
    decreases tEnd - offset
  {
    if offset >= tEnd then Returns(0, None)
    else match find(offset)
      case NoPass => Returns(0, None)
      case Long(entry, exit) => Window(entry, exit)
      case Short(exit) => Search(find, exit + SKIP_AFTER_WINDOW, tEnd)
      case Unclosed => Open
  }

  /** An unclosed window leaves the exit at 0, so the search restarts here whatever the offset. */
  const REWIND := SKIP_AFTER_WINDOW

  /** The search returns exactly under this condition: see ReturnsIffHalts. */
  predicate Halts(find: int -> Pass, tEnd: int)
    requires Advances(find)
  {
    Search(find, 0, tEnd).Returns? || Search(find, REWIND, tEnd).Returns?
  }

  function FinalEnding(find: int -> Pass, tEnd: int): Ending
    requires Advances(find)
  {
    var e := Search(find, 0, tEnd);
    if e.Returns? then e else Search(find, REWIND, tEnd)
  }

  /** Every ending is one of: the constant (0, None), or a long pass the finder found. */
  lemma {:induction false} SearchEnding(find: int -> Pass, offset: int, tEnd: int)
    requires Advances(find) && offset >= 0
    ensures var e := Search(find, offset, tEnd);
      e.Open? || e == Returns(0, None) ||
      exists o :: o >= 0 && find(o).Long? && e == Window(find(o).entry, find(o).exit)
    decreases tEnd - offset
  {
    if offset >= tEnd || !find(offset).Short? {
    } else {
      SearchEnding(find, find(offset).exit + SKIP_AFTER_WINDOW, tEnd);
    }
  }

  /** Where a search that ends without a window looked last. */
  function LastOffset(find: int -> Pass, offset: int, tEnd: int): int
    requires Advances(find) && offset >= 0
    decreases tEnd - offset
  {
    if offset < tEnd && find(offset).Short? then LastOffset(find, find(offset).exit + SKIP_AFTER_WINDOW, tEnd)
    else offset
  }

  /** A search that returns no window has reached the end, or has nothing but short stays in range left. */
  lemma {:induction false} NoneMeansGaps(inRange: Sky, offset: int, tEnd: int, a: int)
    requires Advances(Finder(inRange, tEnd)) && offset >= 0
    requires Search(Finder(inRange, tEnd), offset, tEnd) == Returns(0, None)
    requires LastOffset(Finder(inRange, tEnd), offset, tEnd) <= a && a + LARGE_DT <= tEnd
    ensures exists t :: a <= t < a + LARGE_DT && !inRange(t)
    decreases tEnd - offset
  {
    hide FindPass;
    var find := Finder(inRange, tEnd);
    if offset >= tEnd || !find(offset).Short? {
      NoPassMeansGaps(inRange, offset, tEnd, a);
    } else {
      NoneMeansGaps(inRange, find(offset).exit + SKIP_AFTER_WINDOW, tEnd, a);
    }
  }

  /** In range for five minutes from a, every second of them. */
  ghost predicate Stay(inRange: Sky, a: int)
  {
    forall t :: a <= t < a + 300 ==> inRange(t)
  }

  /** Every five seconds hold a sample of a fine scan. */
  lemma FineSampleIn(lo: int, a: int) returns (t: int)
    requires lo <= a
    ensures a <= t < a + SMALL_DT && OnGrid(t, lo, SMALL_DT)
  {
    t := a + (lo - a) % SMALL_DT;
    OnFineGrid(t, lo);
  }

  /** A short pass ends before any stay that begins after its search's offset. */
  lemma ShortPassEndsBefore(inRange: Sky, offset: int, tEnd: int, a: int)
    requires FindPass(inRange, offset, tEnd).Short? && offset <= a && Stay(inRange, a)
    ensures FindPass(inRange, offset, tEnd).exit <= a
  {
    SkippedPassIsShort(inRange, offset, tEnd);
    FineScanFindsEntry(inRange, offset, tEnd);
    var hit := Scan(inRange, true, offset, tEnd, LARGE_DT).value;
    var entry, exit := FineEntry(inRange, offset, hit), FindPass(inRange, offset, tEnd).exit;
    OnFineGrid(exit, entry);
    var t := SampleIn(offset, a);
    CoarseApart(hit, t, offset);
    assert hit <= t;
    if hit == t {
      var lo := Max(hit - LARGE_DT, offset);
      var s := FineSampleIn(lo, a);
      CoarseHitOnFineGrid(hit, offset);
      OnFineGrid(hit, lo);
      OnFineGrid(s, lo);
      assert entry <= s;
    }
  }

  /** Two coarse samples are the same or five minutes apart. */
  lemma {:induction false} CoarseApart(t: int, u: int, offset: int)
    requires OnGrid(t, offset, LARGE_DT) && OnGrid(u, offset, LARGE_DT)
    ensures t == u || t + LARGE_DT <= u || u + LARGE_DT <= t
    decreases t - offset
  {
    if t == offset || u == offset {
    } else {
      CoarseApart(t, u, offset + LARGE_DT);
    }
  }

  /** The second a falls in the time skipped after a short pass that the search visits. */
  predicate SkippedOver(find: int -> Pass, offset: int, tEnd: int, a: int)
    requires Advances(find) && offset >= 0
    decreases tEnd - offset
  {
    offset < tEnd && find(offset).Short? &&
    var exit := find(offset).exit;
    exit <= a < exit + 2000 || SkippedOver(find, exit + SKIP_AFTER_WINDOW, tEnd, a)
  }

  /** A search that returns no window misses a stay only if it begins in the time skipped after a short pass. */
  lemma {:induction false} MissedStays(inRange: Sky, offset: int, tEnd: int, a: int)
    requires Advances(Finder(inRange, tEnd)) && offset >= 0
    requires Search(Finder(inRange, tEnd), offset, tEnd) == Returns(0, None)
    requires offset <= a && a + LARGE_DT <= tEnd && Stay(inRange, a)
    ensures SkippedOver(Finder(inRange, tEnd), offset, tEnd, a)
    decreases tEnd - offset
  {
    hide FindPass;
    var find := Finder(inRange, tEnd);
    if find(offset).Short? {
      var next := find(offset).exit + SKIP_AFTER_WINDOW;
      ShortPassEndsBefore(inRange, offset, tEnd, a);
      if a >= next {
        MissedStays(inRange, next, tEnd, a);
      }
    } else {
      NoPassMeansGaps(inRange, offset, tEnd, a);
    }
  }

  /** Such a stay: ten seconds in range now, and five minutes ten minutes later, in an hour's search. */
  const BRIEF_THEN_STAY: Sky := t => 0 <= t < 10 || 600 <= t < 900

  lemma MissedStay()
    ensures Advances(Finder(BRIEF_THEN_STAY, 3600)) && Stay(BRIEF_THEN_STAY, 600)
    ensures Search(Finder(BRIEF_THEN_STAY, 3600), 0, 3600) == FinalEnding(Finder(BRIEF_THEN_STAY, 3600), 3600)
              == Returns(0, None)
  {
    var sky := BRIEF_THEN_STAY;
    assert Scan(sky, true, 0, 3600, LARGE_DT) == Some(0);
    assert FineEntry(sky, 0, 0) == 0;
    assert Exit(sky, 0) == Some(10) by {
      assert Scan(sky, false, 10, MAXIMUM_WINDOW, SMALL_DT) == Some(10);
      assert Scan(sky, false, 5, MAXIMUM_WINDOW, SMALL_DT) == Some(10);
    }
    assert FindPass(sky, 0, 3600) == Short(10);
    assert Scan(sky, true, 2010, 3600, LARGE_DT).None?;
    assert FindPass(sky, 2010, 3600) == NoPass;
  }

  /** What the source's loop has returned after at most n iterations from an offset. */
  function Iterate(find: int -> Pass, offset: int, tEnd: int, n: nat): Option<Ending>
    decreases n
  {
    if offset >= tEnd then Some(Returns(0, None))
    else if n == 0 then None
    else match find(offset)
      case NoPass => Some(Returns(0, None))
      case Long(entry, exit) => Some(Window(entry, exit))
      case Short(exit) => Iterate(find, exit + SKIP_AFTER_WINDOW, tEnd, n - 1)
      case Unclosed => Iterate(find, 0 + SKIP_AFTER_WINDOW, tEnd, n - 1)
  }

  /** A search that meets no unclosed window returns within as many iterations as seconds remain. */
  lemma {:induction false} ClosedSearchReturns(find: int -> Pass, offset: int, tEnd: int, n: nat)
    requires Advances(find) && offset >= 0
    requires Search(find, offset, tEnd).Returns? && n >= tEnd - offset
    ensures Iterate(find, offset, tEnd, n) == Some(Search(find, offset, tEnd))
    decreases n
  {
    if offset >= tEnd || !find(offset).Short? {
    } else {
      ClosedSearchReturns(find, find(offset).exit + SKIP_AFTER_WINDOW, tEnd, n - 1);
    }
  }

  /** A search that meets an unclosed window goes on, some iterations later, from the rewind point. */
  lemma {:induction false} OpenSearchRewinds(find: int -> Pass, offset: int, tEnd: int) returns (m: nat)
    requires Advances(find) && offset >= 0 && Search(find, offset, tEnd).Open?
    ensures 0 < m
    ensures forall n: nat :: Iterate(find, offset, tEnd, n) ==
                             if n < m then None else Iterate(find, REWIND, tEnd, n - m)
    decreases tEnd - offset
  {
    hide FindPass;
    if find(offset).Unclosed? {
      m := 1;
    } else {
      var m' := OpenSearchRewinds(find, find(offset).exit + SKIP_AFTER_WINDOW, tEnd);
      m := m' + 1;
    }
  }

  lemma {:induction false} NeverReturns(find: int -> Pass, tEnd: int, n: nat)
    requires Advances(find) && Search(find, REWIND, tEnd).Open?
    ensures Iterate(find, REWIND, tEnd, n).None?
  {
    var m := OpenSearchRewinds(find, REWIND, tEnd);
    if n < m {
    } else {
      NeverReturns(find, tEnd, n - m);
    }
  }

  lemma {:induction false} SameOutcome(find: int -> Pass, offset: int, tEnd: int, n: nat, n': nat)
    requires Iterate(find, offset, tEnd, n).Some? && Iterate(find, offset, tEnd, n').Some?
    ensures Iterate(find, offset, tEnd, n) == Iterate(find, offset, tEnd, n')
    decreases n
  {
    if offset >= tEnd {
    } else {
      match find(offset)
      case NoPass =>
      case Long(_, _) =>
      case Short(exit) => SameOutcome(find, exit + SKIP_AFTER_WINDOW, tEnd, n - 1, n' - 1);
      case Unclosed => SameOutcome(find, REWIND, tEnd, n - 1, n' - 1);
    }
  }

  /**
   The source's search returns if and only if one of its two possible runs, from 0 s or from 2000 s,
   meets no window that stays open for the whole exit scan; and it then returns that run's ending.
   */
  lemma ReturnsIffHalts(find: int -> Pass, tEnd: int)
    requires Advances(find)
    ensures (exists n: nat :: Iterate(find, 0, tEnd, n).Some?) <==> Halts(find, tEnd)
    ensures forall n: nat :: Iterate(find, 0, tEnd, n).Some? ==>
              Iterate(find, 0, tEnd, n).value == FinalEnding(find, tEnd)
  {
    var span: nat := if tEnd > 0 then tEnd else 0;
    if !Halts(find, tEnd) {
      var m := OpenSearchRewinds(find, 0, tEnd);
      forall n: nat
        ensures Iterate(find, 0, tEnd, n).None?
      {
        if n >= m {
          NeverReturns(find, tEnd, n - m);
        }
      }
    } else {
      var k := span;
      if Search(find, 0, tEnd).Returns? {
        ClosedSearchReturns(find, 0, tEnd, span);
      } else {
        var m := OpenSearchRewinds(find, 0, tEnd);
        ClosedSearchReturns(find, REWIND, tEnd, span);
        k := m + span;
      }
      assert Iterate(find, 0, tEnd, k) == Some(FinalEnding(find, tEnd));
      forall n: nat | Iterate(find, 0, tEnd, n).Some?
        ensures Iterate(find, 0, tEnd, n) == Iterate(find, 0, tEnd, k)
      {
        SameOutcome(find, 0, tEnd, n, k);
      }
    }
  }

  /** In particular it returns when every window it finds is seen to close. */
  lemma {:induction false} ClosingWindowsHalt(find: int -> Pass, offset: int, tEnd: int)
    requires Advances(find) && offset >= 0
    requires forall o :: 0 <= o < tEnd ==> !find(o).Unclosed?
    ensures Search(find, offset, tEnd).Returns?
    decreases tEnd - offset
  {
    if offset >= tEnd || !find(offset).Short? {
    } else {
      ClosingWindowsHalt(find, find(offset).exit + SKIP_AFTER_WINDOW, tEnd);
    }
  }

  // ----- the source's method -----

  /** The three scans of one pass of the outer loop. */
  method ScanPass(inRange: Sky, offset: int, tEnd: int)
    returns (overpassTime: Option<int>, windowStart: int, windowExit: int)
    ensures match FindPass(inRange, offset, tEnd)
            case NoPass => overpassTime.None?
            case Long(entry, exit) => overpassTime.Some? && windowStart == entry && windowExit == exit
            case Short(exit) => overpassTime.Some? && windowExit == exit
            case Unclosed => overpassTime.Some? && windowExit == 0
    ensures overpassTime.Some? && offset >= 0 ==>
      (windowExit - windowStart >= MIN_WINDOW_TIME <==> FindPass(inRange, offset, tEnd).Long?)
  {
    hide OnGrid, IsWindow, Scan;
    windowStart, windowExit := 0, 0;
    overpassTime := ScanRange(inRange, true, offset, tEnd, LARGE_DT);
    if overpassTime.None? { return; }
    var hit := overpassTime.value;
    FineScanFindsEntry(inRange, offset, tEnd);
    var fine := ScanRange(inRange, true, Max(hit - LARGE_DT, offset), hit + 1, SMALL_DT);
    if fine.Some? {
      windowStart := fine.value;
    }
    var exit := ScanRange(inRange, false, windowStart, windowStart + MAXIMUM_WINDOW, SMALL_DT);
    if exit.Some? {
      windowExit := exit.value;
    }
  }

  /** The outer loop: every way out of it is the search's final ending. */
  method SearchLoop(inRange: Sky, ghost find: int -> Pass, tEnd: int) returns (start: int, end: Option<int>)
    requires Advances(find) && Halts(find, tEnd)
    requires forall o :: find(o) == FindPass(inRange, o, tEnd)
    ensures Returns(start, end) == FinalEnding(find, tEnd)
  {
    hide FindPass, IsWindow;
    var offset := 0;
    ghost var rewound := false;
    while offset < tEnd
      invariant offset >= 0
      invariant !rewound ==> Search(find, offset, tEnd) == Search(find, 0, tEnd)
      invariant rewound ==> Search(find, 0, tEnd).Open? &&
                            Search(find, offset, tEnd) == Search(find, REWIND, tEnd)
      decreases !rewound, tEnd - offset
    {
      ghost var pass := find(offset);
      var overpassTime, windowStart, windowExit := ScanPass(inRange, offset, tEnd);
      if overpassTime.None? { return 0, None; }
      if windowExit - windowStart >= MIN_WINDOW_TIME {
        return Max(0, windowStart - LEAD_TIME), Some(windowExit);
      }
      rewound := rewound || pass.Unclosed?;
      offset := windowExit + SKIP_AFTER_WINDOW;
    }
    return 0, None;
  }

  method TimeToOverpass(inRange: Sky, timeRangeHours: int) returns (start: int, end: Option<int>)
    requires Halts(Finder(inRange, timeRangeHours * 3600), timeRangeHours * 3600)
    ensures Returns(start, end) == FinalEnding(Finder(inRange, timeRangeHours * 3600), timeRangeHours * 3600)
    ensures end.Some? ==> exists entry :: IsWindow(inRange, entry, end.value) &&
                                          start == Max(0, entry - 100)
    ensures end.None? ==> start == 0
  {
    ghost var find := Finder(inRange, timeRangeHours * 3600);
    start, end := SearchLoop(inRange, find, timeRangeHours * 3600);
    SearchEnding(find, 0, timeRangeHours * 3600);
    SearchEnding(find, REWIND, timeRangeHours * 3600);
  }

  /** A target that never leaves range is searched for without end, past the rewind point. */
  lemma AlwaysInRangeHaltsIff(tEnd: int)
    ensures var find := Finder(_ => true, tEnd); Advances(find) && (Halts(find, tEnd) <==> tEnd <= 2000)
  {
    var find := Finder(_ => true, tEnd);
    if tEnd > 0 {
      assert find(0).Unclosed?;
    }
    if tEnd > REWIND {
      assert find(REWIND).Unclosed?;
    }
  }
}
