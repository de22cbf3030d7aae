/** What a successfully built grid guarantees. */
module GridFacts {
  import opened Wrappers
  import opened PlanningModels
  import opened Sorting
  import opened PlanningGrid

  ghost predicate EventsOK(events: seq<Interval>, size: nat) {
    && (forall k :: 0 <= k < |events| ==> 0 <= events[k].lo < events[k].hi <= size)
    && (forall k, l :: 0 <= k < l < |events| ==> events[k].hi <= events[l].lo)
  }

  /** Consecutive, nonempty, covering `[0, size)`. */
  ghost predicate PartitionOf(days: seq<Interval>, size: nat) {
    && (days == [] <==> size == 0)
    && (days != [] ==> days[0].lo == 0 && days[|days| - 1].hi == size)
    && (forall k :: 0 <= k < |days| ==> 0 <= days[k].lo < days[k].hi <= size)
    && (forall k :: 0 < k < |days| ==> days[k - 1].hi == days[k].lo)
  }

  ghost predicate TasksOK(queue: seq<Task>, pending: map<TaskId, Task>) {
    && (forall t :: t in queue ==> t.id in pending && pending[t.id] == t)
    && (forall id :: id in pending ==> pending[id].id == id && pending[id] in queue && pending[id].duration >= 1)
    && (forall i, j :: 0 <= i < j < |queue| ==> queue[i].id != queue[j].id)
  }

  ghost predicate MaskOK(g: Grid) {
    && |g.avail| == g.size && g.floor <= g.size
    && (forall i :: 0 <= i < g.size && g.avail[i] ==> g.floor <= i && !Covered(g.events, i))
  }

  ghost predicate KnownBlocks(blocks: seq<Block>, pending: map<TaskId, Task>) {
    && ValidBlocks(blocks)
    && |blocks| <= MAX_BLOCKS
    && (forall b :: b in blocks ==> b.task in pending)
  }

  ghost predicate GridOK(g: Grid) {
    && MaskOK(g)
    && EventsOK(g.events, g.size)
    && PartitionOf(g.days, g.size) && |g.targets| == |g.days| && |g.periods| == g.size
    && TasksOK(g.queue, g.pending)
    && KnownBlocks(g.previous, g.pending)
    && ValidPreferences(g.prefs)
  }

  // ----- Tasks -----

  lemma {:induction false} PendingCounts(tasks: seq<Task>, t: Task)
    ensures multiset(PendingOnly(tasks))[t] == if t.status.Pending? then multiset(tasks)[t] else 0
  {
    if tasks == [] {
    } else {
      assert tasks == tasks[..|tasks| - 1] + [tasks[|tasks| - 1]];
      PendingCounts(tasks[..|tasks| - 1], t);
    }
  }

  lemma PendingMembers(tasks: seq<Task>)
    ensures forall t :: t in PendingOnly(tasks) <==> t in tasks && t.status.Pending?
  {
    forall t ensures t in PendingOnly(tasks) <==> t in tasks && t.status.Pending? {
      PendingCounts(tasks, t);
      assert t in tasks <==> t in multiset(tasks);
      assert t in PendingOnly(tasks) <==> t in multiset(PendingOnly(tasks));
    }
  }

  ghost predicate DistinctIds(tasks: seq<Task>) {
    forall i, j :: 0 <= i < j < |tasks| ==> tasks[i].id != tasks[j].id
  }

  lemma {:induction false} PendingDistinct(tasks: seq<Task>)
    requires DistinctIds(tasks)
    ensures DistinctIds(PendingOnly(tasks))
  {
    if tasks == [] {
    } else {
      var init := tasks[..|tasks| - 1];
      PendingDistinct(init);
      PendingMembers(init);
      forall t | t in PendingOnly(init) ensures t.id != tasks[|tasks| - 1].id {
        var i :| 0 <= i < |init| && init[i] == t;
        assert tasks[i] == t;
      }
    }
  }

  lemma {:induction false} ByIdFinds(tasks: seq<Task>)
    requires DistinctIds(tasks)
    ensures forall t :: t in tasks ==> t.id in ById(tasks) && ById(tasks)[t.id] == t
    ensures forall id :: id in ById(tasks) ==> ById(tasks)[id].id == id && ById(tasks)[id] in tasks
  {
    if tasks == [] {
    } else {
      ByIdFinds(tasks[..|tasks| - 1]);
      var init, last := tasks[..|tasks| - 1], tasks[|tasks| - 1];
      forall t | t in tasks ensures t.id in ById(tasks) && ById(tasks)[t.id] == t {
        var i :| 0 <= i < |tasks| && tasks[i] == t;
        if i < |init| { assert init[i] == t; }
      }
    }
  }

  lemma DistinctReordered(a: seq<Task>, b: seq<Task>)
    requires multiset(a) == multiset(b) && DistinctIds(a)
    ensures DistinctIds(b)
  {
    forall i, j | 0 <= i < j < |b| ensures b[i].id != b[j].id {
      CountedOnce(a, b[j]);
      OnceApart(b, i, j);
      assert b[i] in multiset(a) && b[j] in multiset(a);
      var k :| 0 <= k < |a| && a[k] == b[i];
      var l :| 0 <= l < |a| && a[l] == b[j];
      assert k < l || l < k;
    }
  }

  lemma QueueOK(tasks: seq<Task>, end: int)
    requires DistinctIds(tasks) && ValidTasks(tasks)
    ensures TasksOK(Queue(tasks, end), ById(PendingOnly(tasks)))
  {
    var pending := PendingOnly(tasks);
    PendingMembers(tasks);
    PendingDistinct(tasks);
    ByIdFinds(pending);
    SameMembers(pending, Queue(tasks, end));
    DistinctReordered(pending, Queue(tasks, end));
  }

  lemma TaskOrderTotal(end: int)
    ensures TotalOrder(TaskOrder(end))
  {
  }

  lemma {:induction false} PreviousMembers(blocks: seq<Block>, pending: map<TaskId, Task>)
    ensures forall b :: b in PreviousOf(blocks, pending) <==> b in blocks && b.task in pending
    ensures |PreviousOf(blocks, pending)| <= |blocks|
  {
    if blocks == [] {
    } else {
      PreviousMembers(blocks[..|blocks| - 1], pending);
      assert blocks == blocks[..|blocks| - 1] + [blocks[|blocks| - 1]];
    }
  }

  // ----- Events -----

  lemma ClipInside(e: Event, start: int, size: nat)
    ensures 0 <= Clip(e, start, size).lo && Clip(e, start, size).hi <= size
  {
  }

  lemma {:induction false} ClippedOK(events: seq<Event>, start: int, size: nat)
    requires ClipEvents(events, start, size).Success?
    ensures EventsOK(ClipEvents(events, start, size).value, size)
    ensures |ClipEvents(events, start, size).value| == |events|
    ensures forall k :: 0 <= k < |events| ==> ClipEvents(events, start, size).value[k] == Clip(events[k], start, size)
  {
    if events == [] {
    } else {
      hide Clip;
      ClipInside(events[|events| - 1], start, size);
      ClippedOK(events[..|events| - 1], start, size);
    }
  }

  ghost predicate Overlap(a: Interval, b: Interval) { a.lo < b.hi && b.lo < a.hi }

  /** With sorted events the neighbour check finds every conflict. */
  lemma {:induction false} ClippedComplete(events: seq<Event>, start: int, size: nat)
    requires Sorted(EventOrder(), events)
    requires forall k :: 0 <= k < |events| ==> Clip(events[k], start, size).lo < Clip(events[k], start, size).hi
    requires forall k, l :: 0 <= k < l < |events| ==>
      !Overlap(Clip(events[k], start, size), Clip(events[l], start, size))
    ensures ClipEvents(events, start, size).Success?
  {
    if events == [] {
    } else {
      var n := |events| - 1;
      ClippedComplete(events[..n], start, size);
      ClippedOK(events[..n], start, size);
      if n > 0 {
        assert EventOrder()(events[n - 1], events[n]);
        assert !Overlap(Clip(events[n - 1], start, size), Clip(events[n], start, size));
      }
    }
  }

  // ----- Days -----

  ghost predicate SameDay(days: seq<int>, r: Interval) {
    0 <= r.lo < r.hi <= |days| && forall i :: r.lo <= i < r.hi ==> days[i] == days[r.lo]
  }

  ghost predicate DayChanges(days: seq<int>, a: Interval, b: Interval) {
    0 < a.hi == b.lo < |days| && days[a.hi - 1] != days[b.lo]
  }

  /** Adding one minute to a partition, as a new range or at the end of the last one. */
  lemma PartitionGrows(ranges: seq<Interval>, size: nat)
    requires PartitionOf(ranges, size)
    ensures PartitionOf(ranges + [Interval(size, size + 1)], size + 1)
    ensures ranges != [] ==>
      PartitionOf(ranges[|ranges| - 1 := Interval(ranges[|ranges| - 1].lo, size + 1)], size + 1)
  {
  }

  lemma {:induction false} DayRangesArePartition(days: seq<int>, n: nat)
    requires n <= |days|
    ensures PartitionOf(DayRanges(days, n), n)
  {
    if n == 0 {
    } else {
      DayRangesArePartition(days, n - 1);
      PartitionGrows(DayRanges(days, n - 1), n - 1);
    }
  }

  /** Every range holds one local day. */
  lemma {:induction false} DayRangesSameDay(days: seq<int>, n: nat, k: nat)
    requires n <= |days| && k < |DayRanges(days, n)|
    ensures SameDay(days, DayRanges(days, n)[k])
  {
    if n <= 1 {
    } else {
      var before := DayRanges(days, n - 1);
      DayRangesArePartition(days, n - 1);
      if k < |before| {
        DayRangesSameDay(days, n - 1, k);
      }
    }
  }

  /** Neighbouring ranges hold different local days. */
  lemma {:induction false} DayRangesChange(days: seq<int>, n: nat, k: nat)
    requires n <= |days| && 0 < k < |DayRanges(days, n)|
    ensures DayChanges(days, DayRanges(days, n)[k - 1], DayRanges(days, n)[k])
  {
    if n <= 1 {
    } else {
      var before := DayRanges(days, n - 1);
      DayRangesArePartition(days, n - 1);
      if k < |before| {
        DayRangesChange(days, n - 1, k);
      }
    }
  }

  // ----- The grid -----

  lemma MaskFacts(windows: seq<Window>, events: seq<Interval>, start: int, size: nat, floor: nat)
    ensures forall i :: 0 <= i < size && AvailableMask(windows, events, start, size, floor)[i]
              ==> floor <= i && Declared(windows, start, i) && !Covered(events, i)
  {
  }

  lemma PreviousFacts(previous: seq<Block>, pending: map<TaskId, Task>)
    requires ValidBlocks(previous) && |previous| <= MAX_BLOCKS
    ensures KnownBlocks(PreviousOf(previous, pending), pending)
  {
    PreviousMembers(previous, pending);
  }

  /** A built grid is the one made from the clipped events of an accepted horizon. */
  lemma BuiltGridShape(w: PlanningWindow, previous: seq<Block>, tasks: seq<Task>, prefs: Preferences, zone: Zone,
                       now: int)
      returns (h: Horizon, events: seq<Interval>)
    requires BuildGrid(w, previous, tasks, prefs, zone, now).Success?
    ensures HorizonOf(w.startDate, w.days, zone, now) == Success(h)
    ensures SnapshotMatches(tasks, w.taskIds)
    ensures ClipEvents(Sort(EventOrder(), w.events), h.start, h.size) == Success(events)
    ensures BuildGrid(w, previous, tasks, prefs, zone, now).value
            == MakeGrid(h, w, previous, tasks, prefs, zone, now, events)
  {
    h := HorizonOf(w.startDate, w.days, zone, now).value;
    events := ClipEvents(Sort(EventOrder(), w.events), h.start, h.size).value;
  }

  lemma MadeMaskOK(h: Horizon, w: PlanningWindow, previous: seq<Block>, tasks: seq<Task>, prefs: Preferences,
                   zone: Zone, now: int, events: seq<Interval>)
    ensures MaskOK(MakeGrid(h, w, previous, tasks, prefs, zone, now, events))
  {
    var g := MakeGrid(h, w, previous, tasks, prefs, zone, now, events);
    MaskFacts(w.availability, events, h.start, h.size, g.floor);
  }

  lemma MadeDaysOK(h: Horizon, w: PlanningWindow, previous: seq<Block>, tasks: seq<Task>, prefs: Preferences,
                   zone: Zone, now: int, events: seq<Interval>)
    ensures var g := MakeGrid(h, w, previous, tasks, prefs, zone, now, events);
      PartitionOf(g.days, g.size) && |g.targets| == |g.days| && |g.periods| == g.size
  {
    DayRangesArePartition(LocalDays(zone, h.start, h.size), h.size);
  }

  lemma MadeTasksOK(h: Horizon, w: PlanningWindow, previous: seq<Block>, tasks: seq<Task>, prefs: Preferences,
                    zone: Zone,
                   now: int, events: seq<Interval>)
    requires DistinctIds(tasks) && ValidTasks(tasks)
    ensures var g := MakeGrid(h, w, previous, tasks, prefs, zone, now, events);
      TasksOK(g.queue, g.pending)
  {
    hide TasksOK, Queue, ById, PendingOnly, PreviousOf, DayRanges, DistinctIds, ValidTasks;
    var queue, pending := Queue(tasks, h.start + h.size), ById(PendingOnly(tasks));
    QueueOK(tasks, h.start + h.size);
    var g := MakeGrid(h, w, previous, tasks, prefs, zone, now, events);
    assert g.queue == queue && g.pending == pending;
  }

  lemma MadePreviousOK(h: Horizon, w: PlanningWindow, previous: seq<Block>, tasks: seq<Task>, prefs: Preferences,
                       zone: Zone,
                   now: int, events: seq<Interval>)
    requires ValidBlocks(previous) && |previous| <= MAX_BLOCKS
    ensures var g := MakeGrid(h, w, previous, tasks, prefs, zone, now, events);
      KnownBlocks(g.previous, g.pending)
  {
    PreviousFacts(previous, ById(PendingOnly(tasks)));
  }

  lemma MadeGridOK(h: Horizon, w: PlanningWindow, previous: seq<Block>, tasks: seq<Task>, prefs: Preferences,
                   zone: Zone, now: int, events: seq<Interval>)
    requires EventsOK(events, h.size) && DistinctIds(tasks)
    requires ValidTasks(tasks) && ValidPreferences(prefs) && ValidBlocks(previous) && |previous| <= MAX_BLOCKS
    ensures GridOK(MakeGrid(h, w, previous, tasks, prefs, zone, now, events))
  {
    MadeMaskOK(h, w, previous, tasks, prefs, zone, now, events);
    MadeDaysOK(h, w, previous, tasks, prefs, zone, now, events);
    MadeTasksOK(h, w, previous, tasks, prefs, zone, now, events);
    MadePreviousOK(h, w, previous, tasks, prefs, zone, now, events);
  }

  lemma BuiltGridOK(w: PlanningWindow, previous: seq<Block>, tasks: seq<Task>, prefs: Preferences, zone: Zone, now: int)
    requires BuildGrid(w, previous, tasks, prefs, zone, now).Success?
    requires ValidTasks(tasks) && ValidPreferences(prefs) && ValidBlocks(previous) && |previous| <= MAX_BLOCKS
    ensures GridOK(BuildGrid(w, previous, tasks, prefs, zone, now).value)
  {
    var h, events := BuiltGridShape(w, previous, tasks, prefs, zone, now);
    ClippedOK(Sort(EventOrder(), w.events), h.start, h.size);
    MadeGridOK(h, w, previous, tasks, prefs, zone, now, events);
  }
}
