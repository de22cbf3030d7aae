/** The loops that build a planner's grid: availability, events, local days, period sums, targets. */
module PlannerBuild {
  import opened Wrappers
  import opened PlanningModels
  import opened BlockLists
  import opened Masks
  import opened PlanningGrid
  import opened GridFacts
  import opened PlannerSpec

  // ----- Availability -----

  predicate DeclaredBy(windows: seq<Window>, k: nat, start: int, i: int)
    requires k <= |windows|
  {
    exists j :: 0 <= j < k && windows[j].start - start <= i < windows[j].end - start
  }

  /** Sets the declared minutes and then clears those before `floor`; refuses a window outside. */
  method PaintAvailability(windows: seq<Window>, start: int, size: nat, floor: nat)
      returns (available: array<bool>, inside: bool)
    requires floor <= size
    ensures fresh(available) && available.Length == size
    ensures inside <==> forall w :: w in windows ==> WindowInside(w, start, size)
    ensures inside ==> forall i :: 0 <= i < size ==> available[i] == (floor <= i && Declared(windows, start, i))
  {
    available := new bool[size](i => false);
    inside := true;
    for k := 0 to |windows|
      invariant forall j :: 0 <= j < k ==> WindowInside(windows[j], start, size)
      invariant forall i :: 0 <= i < size ==> available[i] == DeclaredBy(windows, k, start, i)
    {
      var left, right := windows[k].start - start, windows[k].end - start;
      if left < 0 || right > size {
        assert !WindowInside(windows[k], start, size) && windows[k] in windows;
        return available, false;
      }
      forall i | left <= i < right { available[i] := true; }
    }
    forall i | 0 <= i < floor { available[i] := false; }
    forall i | 0 <= i < size ensures DeclaredBy(windows, |windows|, start, i) == Declared(windows, start, i) {
      if j :| 0 <= j < |windows| && windows[j].start - start <= i < windows[j].end - start {
        assert windows[j] in windows;
      }
    }
  }

  // ----- Events -----

  /** Takes the sorted events out of the mask one by one. */
  method ClearEvents(available: array<bool>, events: seq<Event>, start: int, size: nat)
      returns (r: Result<seq<Interval>, Code>)
    requires available.Length == size
    modifies available
    ensures r == ClipEvents(events, start, size)
    ensures r.Success? ==>
      forall i :: 0 <= i < size ==> available[i] == (old(available[i]) && !Covered(r.value, i))
  {
    var busy: seq<Interval> := [];
    for k := 0 to |events|
      invariant ClipEvents(events[..k], start, size) == Success(busy)
      invariant forall i :: 0 <= i < size ==> available[i] == (old(available[i]) && !Covered(busy, i))
    {
      var left, right := Max(0, events[k].start - start), Min(size, events[k].end - start);
      assert events[..k + 1][..k] == events[..k];
      if left >= right {
        ClipStops(events, k + 1, start, size);
        return Failure(EventOutsideHorizon);
      }
      if busy != [] && left < busy[|busy| - 1].hi {
        ClipStops(events, k + 1, start, size);
        return Failure(FixedEventConflict);
      }
      CoveredAppend(busy, Interval(left, right));
      busy := busy + [Interval(left, right)];
      forall i | left <= i < right { available[i] := false; }
    }
    assert events[..|events|] == events;
    r := Success(busy);
  }

  lemma CoveredAppend(xs: seq<Interval>, x: Interval)
    ensures forall i :: Covered(xs + [x], i) <==> Covered(xs, i) || x.lo <= i < x.hi
  {
    forall i ensures Covered(xs + [x], i) <==> Covered(xs, i) || x.lo <= i < x.hi {
      if y :| y in xs && InInterval(y, i) { assert y in xs + [x]; }
      assert x in xs + [x];
      if InInterval(x, i) { assert Covered(xs + [x], i); }
    }
  }

  /** A refused prefix refuses the whole list with the same error. */
  lemma {:induction false} ClipStops(events: seq<Event>, k: nat, start: int, size: nat)
    requires k <= |events| && ClipEvents(events[..k], start, size).Failure?
    ensures ClipEvents(events, start, size) == ClipEvents(events[..k], start, size)
    decreases |events|
  {
    if k < |events| {
      var init := events[..|events| - 1];
      assert init[..k] == events[..k];
      ClipStops(init, k, start, size);
    } else {
      assert events[..k] == events;
    }
  }

  // ----- Local days and period sums -----

  /** `prefix[k]` counts the first `k` minutes outside a period. */
  ghost predicate PrefixSums(prefix: seq<nat>, periods: seq<Period>, p: Period, k: nat) {
    k <= |periods| && |prefix| == k + 1 && forall i :: 0 <= i <= k ==> prefix[i] == OffPeriod(periods, p, 0, i)
  }

  lemma PrefixGrows(prefix: seq<nat>, periods: seq<Period>, p: Period, k: nat)
    requires PrefixSums(prefix, periods, p, k) && k < |periods|
    ensures PrefixSums(prefix + [prefix[k] + if periods[k] != p then 1 else 0], periods, p, k + 1)
  {
  }

  /** The sums give the minutes outside a period for any stretch. */
  lemma {:induction false} PrefixDifference(periods: seq<Period>, p: Period, lo: nat, hi: nat)
    requires lo <= hi <= |periods|
    ensures OffPeriod(periods, p, 0, hi) - OffPeriod(periods, p, 0, lo) == OffPeriod(periods, p, lo, hi)
    decreases hi
  {
    if hi <= lo {
    } else {
      PrefixDifference(periods, p, lo, hi - 1);
    }
  }

  /** The ranges so far, the last one still open to the end of the horizon. */
  ghost predicate OpenRanges(ranges: seq<Interval>, days: seq<int>, k: nat)
    requires k <= |days|
  {
    var closed := DayRanges(days, k);
    |ranges| == |closed|
    && (forall j :: 0 <= j < |ranges| - 1 ==> ranges[j] == closed[j])
    && (ranges != [] ==> ranges[|ranges| - 1] == Interval(closed[|closed| - 1].lo, |days|))
  }

  lemma RangesSame(ranges: seq<Interval>, days: seq<int>, k: nat)
    requires 0 < k < |days| && days[k] == days[k - 1] && OpenRanges(ranges, days, k) && ranges != []
    ensures OpenRanges(ranges, days, k + 1)
  {
  }

  lemma RangesNew(ranges: seq<Interval>, days: seq<int>, k: nat)
    requires k < |days| && (k == 0 || days[k] != days[k - 1]) && OpenRanges(ranges, days, k)
    requires PartitionOf(DayRanges(days, k), k)
    ensures OpenRanges((if ranges == [] then [] else ranges[|ranges| - 1 := Interval(ranges[|ranges| - 1].lo, k)])
                       + [Interval(k, |days|)], days, k + 1)
  {
    hide *;
    RangesNewStep(ranges, days, k);
  }

  lemma RangesNewStep(ranges: seq<Interval>, days: seq<int>, k: nat)
    requires k < |days| && (k == 0 || days[k] != days[k - 1]) && OpenRanges(ranges, days, k)
    requires PartitionOf(DayRanges(days, k), k)
    ensures OpenRanges((if ranges == [] then [] else ranges[|ranges| - 1 := Interval(ranges[|ranges| - 1].lo, k)])
                       + [Interval(k, |days|)], days, k + 1)
  {
    var closed := DayRanges(days, k);
    assert DayRanges(days, k + 1) == closed + [Interval(k, k + 1)];
    assert k > 0 ==> closed[|closed| - 1].hi == k;
  }

  lemma RangesDone(ranges: seq<Interval>, days: seq<int>)
    requires OpenRanges(ranges, days, |days|) && PartitionOf(DayRanges(days, |days|), |days|)
    ensures ranges == DayRanges(days, |days|)
  {
  }

  lemma NothingSplit(days: seq<int>, periods: seq<Period>)
    ensures OpenRanges([], days, 0)
    ensures PrefixSums([0], periods, Morning, 0)
    ensures PrefixSums([0], periods, Afternoon, 0)
    ensures PrefixSums([0], periods, Evening, 0)
  {
  }

  /** One pass over the minutes: day ranges and the three period sums. */
  method SplitDays(zone: Zone, start: int, size: nat)
      returns (ranges: seq<Interval>, morning: seq<nat>, afternoon: seq<nat>, evening: seq<nat>)
    ensures ranges == DayRanges(LocalDays(zone, start, size), size)
    ensures PrefixSums(morning, PeriodsOf(zone, start, size), Morning, size)
    ensures PrefixSums(afternoon, PeriodsOf(zone, start, size), Afternoon, size)
    ensures PrefixSums(evening, PeriodsOf(zone, start, size), Evening, size)
  {
    hide OpenRanges, PrefixSums, DayRanges, OffPeriod, PartitionOf;
    ghost var days, periods := LocalDays(zone, start, size), PeriodsOf(zone, start, size);
    NothingSplit(days, periods);
    ranges, morning, afternoon, evening := [], [0], [0], [0];
    var previousDay: Option<int> := None;
    for index := 0 to size
      invariant OpenRanges(ranges, days, index)
      invariant index == 0 ==> ranges == []
      invariant index > 0 ==> ranges != [] && previousDay == Some(days[index - 1])
      invariant index == 0 ==> previousDay == None
      invariant |morning| == |afternoon| == |evening| == index + 1
      invariant PrefixSums(morning, periods, Morning, index)
      invariant PrefixSums(afternoon, periods, Afternoon, index)
      invariant PrefixSums(evening, periods, Evening, index)
    {
      var day := zone.localDate(InstantAt(start, index));
      var period := PeriodOf(zone.localHour(InstantAt(start, index)));
      DayRangesArePartition(days, index);
      if previousDay != Some(day) {
        RangesNew(ranges, days, index);
        if ranges != [] {
          ranges := ranges[|ranges| - 1 := Interval(ranges[|ranges| - 1].lo, index)];
        }
        ranges := ranges + [Interval(index, size)];
        previousDay := Some(day);
      } else {
        RangesSame(ranges, days, index);
      }
      PrefixGrows(morning, periods, Morning, index);
      PrefixGrows(afternoon, periods, Afternoon, index);
      PrefixGrows(evening, periods, Evening, index);
      morning := morning + [morning[index] + if period != Morning then 1 else 0];
      afternoon := afternoon + [afternoon[index] + if period != Afternoon then 1 else 0];
      evening := evening + [evening[index] + if period != Evening then 1 else 0];
    }
    DayRangesArePartition(days, size);
    RangesDone(ranges, days);
  }

  // ----- Targets -----

  method CountFree(mask: array<bool>, lo: nat, hi: nat) returns (n: nat)
    requires lo <= hi <= mask.Length
    ensures n == FreeCount(mask[..], lo, hi)
  {
    n := 0;
    for i := lo to hi
      invariant n == FreeCount(mask[..], lo, i)
    {
      if mask[i] { n := n + 1; }
    }
  }

  method DayTargets(mask: array<bool>, days: seq<Interval>, level: Level) returns (targets: seq<nat>)
    requires PartitionOf(days, mask.Length)
    ensures targets == Targets(mask[..], days, level)
  {
    targets := [];
    for k := 0 to |days|
      invariant |targets| == k
      invariant forall j :: 0 <= j < k ==> targets[j] == Targets(mask[..], days, level)[j]
    {
      var free := CountFree(mask, days[k].lo, days[k].hi);
      targets := targets + [Max(1, free * Fraction(level) / 100)];
    }
  }

  // ----- Previous blocks -----

  /** The previous blocks of pending tasks, and each such task's earliest start index. */
  method GroupPrevious(blocks: seq<Block>, pending: map<TaskId, Task>, start: int)
      returns (previous: seq<Block>, earliest: map<TaskId, int>)
    ensures previous == PreviousOf(blocks, pending)
    ensures EarliestStarts(earliest, previous, start)
  {
    previous, earliest := [], map[];
    for k := 0 to |blocks|
      invariant previous == PreviousOf(blocks[..k], pending)
      invariant EarliestStarts(earliest, previous, start)
    {
      assert blocks[..k + 1][..k] == blocks[..k];
      var b := blocks[k];
      if b.task in pending {
        EarliestGrows(earliest, previous, start, b);
        var index := b.start - start;
        earliest := earliest[b.task := if b.task in earliest then Min(earliest[b.task], index) else index];
        previous := previous + [b];
      }
    }
    assert blocks[..|blocks|] == blocks;
  }

  ghost predicate EarliestStarts(earliest: map<TaskId, int>, previous: seq<Block>, start: int) {
    forall id :: if Of(previous, id) == [] then id !in earliest
                 else id in earliest && earliest[id] == EarliestStart(Of(previous, id)) - start
  }

  lemma OfAppend(previous: seq<Block>, b: Block, id: TaskId)
    ensures Of(previous + [b], id) == if b.task == id then Of(previous, id) + [b] else Of(previous, id)
  {
    assert (previous + [b])[..|previous|] == previous;
  }

  lemma EarliestAppend(mine: seq<Block>, b: Block)
    ensures EarliestStart(mine + [b]) == if mine == [] then b.start else Min(EarliestStart(mine), b.start)
  {
    assert (mine + [b])[..|mine|] == mine;
  }

  lemma EarliestGrows(earliest: map<TaskId, int>, previous: seq<Block>, start: int, b: Block)
    requires EarliestStarts(earliest, previous, start)
    ensures EarliestStarts(
      earliest[b.task := if b.task in earliest then Min(earliest[b.task], b.start - start) else b.start - start],
      previous + [b], start)
  {
    hide Of, EarliestStart;
    EarliestAppend(Of(previous, b.task), b);
    forall id ensures Of(previous + [b], id) == if b.task == id then Of(previous, id) + [b] else Of(previous, id) {
      OfAppend(previous, b, id);
    }
    assert Of(previous + [b], b.task) != [];
  }
}
