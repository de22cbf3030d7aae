/** The order in which a request lists tasks, windows and events does not matter, and the
    request is accepted exactly when its horizon, snapshot, windows and events are sound. */
module InputOrder {
  import opened Wrappers
  import opened PlanningModels
  import opened Sorting
  import opened BlockLists
  import opened PlanningGrid
  import opened GridFacts
  import opened PlannerSpec
  import opened Previews
  import opened PreviewTheorems
  import opened PlannerAgreement
  import opened PreviousOrder

  // ----- Events -----

  /** Every event meets the horizon, and no two meet each other inside it. */
  ghost predicate EventsFit(events: seq<Event>, start: int, size: nat) {
    && (forall k :: 0 <= k < |events| ==> Meets(events[k], start, size))
    && (forall i, j :: 0 <= i < j < |events| ==> !Clash(events[i], events[j], start, size))
  }

  ghost predicate Meets(e: Event, start: int, size: nat) { Clip(e, start, size).lo < Clip(e, start, size).hi }

  ghost predicate Clash(a: Event, b: Event, start: int, size: nat) {
    Overlap(Clip(a, start, size), Clip(b, start, size))
  }

  lemma FitReordered(a: seq<Event>, b: seq<Event>, start: int, size: nat)
    requires EventsFit(a, start, size) && multiset(a) == multiset(b)
    ensures EventsFit(b, start, size)
  {
    SameMembers(a, b);
    forall k | 0 <= k < |b| ensures Meets(b[k], start, size) {
      assert b[k] in a;
    }
    forall i, j | 0 <= i < j < |b| ensures !Clash(b[i], b[j], start, size) {
      forall k, l | 0 <= k < l < |a| ensures a[k] != a[l] {
        assert Meets(a[k], start, size) && !Clash(a[k], a[l], start, size);
      }
      CountedOnce(a, b[j]);
      OnceApart(b, i, j);
      assert b[i] in a && b[j] in a;
      var k :| 0 <= k < |a| && a[k] == b[i];
      var l :| 0 <= l < |a| && a[l] == b[j];
      if k < l {
        assert !Clash(a[k], a[l], start, size);
      } else {
        assert !Clash(a[l], a[k], start, size);
      }
    }
  }

  lemma EventOrderTotal()
    ensures TotalOrder(EventOrder())
  {
    forall a: Event, b: Event ensures EventOrder()(a, b) || EventOrder()(b, a) { TitleTotal(a.title, b.title); }
    forall a: Event, b: Event, c: Event | EventOrder()(a, b) && EventOrder()(b, c) ensures EventOrder()(a, c) {
      if TitleFirst(a.title, b.title) && TitleFirst(b.title, c.title) { TitleTransitive(a.title, b.title, c.title); }
    }
  }

  lemma {:induction false} TitleTotal(a: string, b: string)
    ensures TitleFirst(a, b) || TitleFirst(b, a)
  {
    if a == [] || b == [] {
    } else {
      TitleTotal(a[1..], b[1..]);
    }
  }

  lemma {:induction false} TitleTransitive(a: string, b: string, c: string)
    requires TitleFirst(a, b) && TitleFirst(b, c)
    ensures TitleFirst(a, c)
  {
    if a == [] || a[0] != b[0] || b[0] != c[0] {
    } else {
      TitleTransitive(a[1..], b[1..], c[1..]);
    }
  }

  lemma {:induction false} TitleSame(a: string, b: string)
    requires TitleFirst(a, b) && TitleFirst(b, a)
    ensures a == b
  {
    if a == [] || b == [] {
    } else {
      TitleSame(a[1..], b[1..]);
      assert a == [a[0]] + a[1..] && b == [b[0]] + b[1..];
    }
  }

  lemma {:induction false} ClipsFit(events: seq<Event>, start: int, size: nat)
    requires ClipEvents(events, start, size).Success?
    ensures EventsFit(events, start, size)
  {
    ClippedOK(events, start, size);
    var clipped := ClipEvents(events, start, size).value;
    forall i, j | 0 <= i < j < |events| ensures !Clash(events[i], events[j], start, size) {
      assert clipped[i] == Clip(events[i], start, size) && clipped[j] == Clip(events[j], start, size);
    }
    forall k | 0 <= k < |events| ensures Meets(events[k], start, size) {
      assert clipped[k] == Clip(events[k], start, size);
    }
  }

  /** Comparing each event with the one before it, after sorting, finds every conflict. */
  lemma EventsAcceptedExactly(events: seq<Event>, start: int, size: nat)
    ensures ClipEvents(Sort(EventOrder(), events), start, size).Success? <==> EventsFit(events, start, size)
  {
    var sorted := Sort(EventOrder(), events);
    EventOrderTotal();
    SortSorts(EventOrder(), events);
    if ClipEvents(sorted, start, size).Success? {
      ClipsFit(sorted, start, size);
      FitReordered(sorted, events, start, size);
    }
    if EventsFit(events, start, size) {
      FitReordered(events, sorted, start, size);
      forall k | 0 <= k < |sorted| ensures Clip(sorted[k], start, size).lo < Clip(sorted[k], start, size).hi {
        assert Meets(sorted[k], start, size);
      }
      forall k, l | 0 <= k < l < |sorted| ensures !Overlap(Clip(sorted[k], start, size), Clip(sorted[l], start, size)) {
        assert !Clash(sorted[k], sorted[l], start, size);
      }
      ClippedComplete(sorted, start, size);
    }
  }

  // ----- Acceptance -----

  /** Planning starts exactly when the local days exist and are not past, the snapshot holds each
      selected task once, every window lies inside the horizon, and the events fit in it. */
  lemma RequestAcceptedExactly(w: PlanningWindow, previous: seq<Block>, tasks: seq<Task>, prefs: Preferences,
                               zone: Zone, now: int)
    ensures var horizon := HorizonOf(w.startDate, w.days, zone, now);
      BuildGrid(w, previous, tasks, prefs, zone, now).Success? <==>
        horizon.Success? && SnapshotMatches(tasks, w.taskIds)
        && (forall a :: a in w.availability ==> WindowInside(a, horizon.value.start, horizon.value.size))
        && EventsFit(w.events, horizon.value.start, horizon.value.size)
  {
    var horizon := HorizonOf(w.startDate, w.days, zone, now);
    hide HorizonOf, MakeGrid, ClipEvents, SnapshotMatches, EventsFit;
    if horizon.Success? { EventsAcceptedExactly(w.events, horizon.value.start, horizon.value.size); }
  }

  // ----- Order of the input -----

  ghost predicate SameInput(w: PlanningWindow, w': PlanningWindow) {
    && w.startDate == w'.startDate && w.days == w'.days
    && multiset(w.taskIds) == multiset(w'.taskIds)
    && multiset(w.availability) == multiset(w'.availability) && multiset(w.events) == multiset(w'.events)
  }

  lemma EventsUnordered(a: seq<Event>, b: seq<Event>)
    requires multiset(a) == multiset(b)
    ensures Sort(EventOrder(), a) == Sort(EventOrder(), b)
  {
    EventOrderTotal();
    forall x: Event, y: Event | EventOrder()(x, y) && EventOrder()(y, x) ensures x == y { TitleSame(x.title, y.title); }
    SortIgnoresOrder(EventOrder(), a, b);
  }

  lemma PendingUnordered(a: seq<Task>, b: seq<Task>)
    requires multiset(a) == multiset(b)
    ensures multiset(PendingOnly(a)) == multiset(PendingOnly(b))
  {
    forall t: Task ensures multiset(PendingOnly(a))[t] == multiset(PendingOnly(b))[t] {
      PendingCounts(a, t);
      PendingCounts(b, t);
    }
  }

  lemma IndexUnordered(a: seq<Task>, b: seq<Task>)
    requires multiset(a) == multiset(b) && DistinctIds(a)
    ensures ById(a) == ById(b)
  {
    DistinctReordered(a, b);
    SameMembers(a, b);
    ByIdFinds(a);
    ByIdFinds(b);
    hide ById;
    forall id ensures id in ById(a) <==> id in ById(b) {
      if id in ById(a) { assert ById(a)[id] in b; }
      if id in ById(b) { assert ById(b)[id] in a; }
    }
    forall id | id in ById(a) ensures ById(a)[id] == ById(b)[id] {
      assert ById(a)[id] in b;
    }
  }

  lemma IdsTellApart(tasks: seq<Task>, end: int)
    requires DistinctIds(tasks)
    ensures Antisymmetric(TaskOrder(end), multiset(tasks))
  {
    forall x, y | x in multiset(tasks) && y in multiset(tasks) && TaskOrder(end)(x, y) && TaskOrder(end)(y, x)
      ensures x == y
    {
      assert x.id == y.id;
      var i :| 0 <= i < |tasks| && tasks[i] == x;
      var j :| 0 <= j < |tasks| && tasks[j] == y;
      assert i < j || j < i || i == j;
    }
  }

  lemma QueueUnordered(a: seq<Task>, b: seq<Task>, end: int)
    requires multiset(a) == multiset(b) && DistinctIds(a)
    ensures Queue(a, end) == Queue(b, end)
  {
    hide PendingOnly, DistinctIds, TaskOrder, Sort;
    PendingUnordered(a, b);
    PendingDistinct(a);
    TaskOrderTotal(end);
    IdsTellApart(PendingOnly(a), end);
    SortIgnoresOrder(TaskOrder(end), PendingOnly(a), PendingOnly(b));
  }

  /** The instant by which a task is due inside the horizon. */
  function DueBy(t: Task, end: int): int {
    if t.deadline.Some? && t.deadline.value < end * MINUTE then t.deadline.value else end * MINUTE
  }

  /** Tasks are planned by the instant they are due inside the horizon, then by higher priority, then by
      identifier: every pending task once and no other. */
  lemma QueueExact(tasks: seq<Task>, end: int, t: Task)
    ensures var queue := Queue(tasks, end);
      forall i, j :: 0 <= i < j < |queue| ==>
        && DueBy(queue[i], end) <= DueBy(queue[j], end)
        && (DueBy(queue[i], end) == DueBy(queue[j], end) ==> queue[i].priority >= queue[j].priority)
        && (DueBy(queue[i], end) == DueBy(queue[j], end) && queue[i].priority == queue[j].priority ==>
              queue[i].id <= queue[j].id)
    ensures multiset(Queue(tasks, end))[t] == if t.status.Pending? then multiset(tasks)[t] else 0
  {
    var queue := Queue(tasks, end);
    TaskOrderTotal(end);
    SortSorts(TaskOrder(end), PendingOnly(tasks));
    PendingCounts(tasks, t);
    forall i, j | 0 <= i < j < |queue| ensures ComesFirst(end, queue[i], queue[j]) {
      assert TaskOrder(end)(queue[i], queue[j]);
    }
  }

  lemma SnapshotUnordered(a: seq<Task>, b: seq<Task>, ids: seq<TaskId>, ids': seq<TaskId>)
    requires multiset(a) == multiset(b) && multiset(ids) == multiset(ids')
    ensures SnapshotMatches(a, ids) <==> SnapshotMatches(b, ids')
  {
    SameMembers(a, b);
    SameMembers(ids, ids');
    assert (set t | t in a :: t.id) == (set t | t in b :: t.id);
    assert (set id | id in ids) == (set id | id in ids');
    if DistinctIds(a) { DistinctReordered(a, b); }
    if DistinctIds(b) { DistinctReordered(b, a); }
  }

  lemma MaskUnordered(a: seq<Window>, b: seq<Window>, events: seq<Interval>, start: int, size: nat, floor: nat)
    requires multiset(a) == multiset(b)
    ensures AvailableMask(a, events, start, size, floor) == AvailableMask(b, events, start, size, floor)
  {
    SameMembers(a, b);
    forall i ensures Declared(a, start, i) == Declared(b, start, i) {
      if w :| w in a && w.start - start <= i < w.end - start { assert w in b; }
      if w :| w in b && w.start - start <= i < w.end - start { assert w in a; }
    }
  }

  lemma GridUnordered(h: Horizon, w: PlanningWindow, w': PlanningWindow, previous: seq<Block>, tasks: seq<Task>,
                      tasks': seq<Task>, prefs: Preferences, zone: Zone, now: int, events: seq<Interval>)
    requires SameInput(w, w') && multiset(tasks) == multiset(tasks') && DistinctIds(tasks)
    ensures MakeGrid(h, w, previous, tasks, prefs, zone, now, events)
            == MakeGrid(h, w', previous, tasks', prefs, zone, now, events)
  {
    hide AvailableMask, DayRanges, Targets, Queue, PreviousOf, PendingOnly, ById, FloorIndex, DistinctIds;
    MaskUnordered(w.availability, w'.availability, events, h.start, h.size, FloorIndex(h.start, h.size, now));
    QueueUnordered(tasks, tasks', h.start + h.size);
    PendingUnordered(tasks, tasks');
    PendingDistinct(tasks);
    IndexUnordered(PendingOnly(tasks), PendingOnly(tasks'));
  }

  /** Listing the same tasks, windows and events in another order gives the same grid or error. */
  lemma BuildUnordered(w: PlanningWindow, w': PlanningWindow, previous: seq<Block>, tasks: seq<Task>, tasks': seq<Task>,
                       prefs: Preferences, zone: Zone, now: int)
    requires SameInput(w, w') && multiset(tasks) == multiset(tasks')
    ensures BuildGrid(w, previous, tasks, prefs, zone, now) == BuildGrid(w', previous, tasks', prefs, zone, now)
  {
    SnapshotUnordered(tasks, tasks', w.taskIds, w'.taskIds);
    EventsUnordered(w.events, w'.events);
    SameMembers(w.availability, w'.availability);
    var horizon := HorizonOf(w.startDate, w.days, zone, now);
    if horizon.Success? && SnapshotMatches(tasks, w.taskIds) {
      var clipped := ClipEvents(Sort(EventOrder(), w.events), horizon.value.start, horizon.value.size);
      assert DistinctIds(tasks);
      if clipped.Success? {
        GridUnordered(horizon.value, w, w', previous, tasks, tasks', prefs, zone, now, clipped.value);
      }
    }
    hide HorizonOf, MakeGrid, ClipEvents, SnapshotMatches, DistinctIds, Sort;
  }

  lemma {:induction false} PreviousCounts(blocks: seq<Block>, pending: map<TaskId, Task>, b: Block)
    ensures multiset(PreviousOf(blocks, pending))[b] == if b.task in pending then multiset(blocks)[b] else 0
  {
    if blocks == [] {
    } else {
      var init, last := blocks[..|blocks| - 1], blocks[|blocks| - 1];
      assert blocks == init + [last];
      PreviousCounts(init, pending, b);
    }
  }

  lemma BuildTwins(w: PlanningWindow, a: seq<Block>, b: seq<Block>, tasks: seq<Task>, prefs: Preferences, zone: Zone,
                   now: int)
    requires multiset(a) == multiset(b) && BuildGrid(w, a, tasks, prefs, zone, now).Success?
    ensures BuildGrid(w, b, tasks, prefs, zone, now).Success?
    ensures Twins(BuildGrid(w, a, tasks, prefs, zone, now).value, BuildGrid(w, b, tasks, prefs, zone, now).value)
  {
    hide HorizonOf, ClipEvents, SnapshotMatches, AvailableMask, DayRanges, Targets, Queue, PendingOnly, ById,
         PeriodsOf, LocalDays, PreviousOf;
    var pending := ById(PendingOnly(tasks));
    forall x: Block ensures multiset(PreviousOf(a, pending))[x] == multiset(PreviousOf(b, pending))[x] {
      PreviousCounts(a, pending, x);
      PreviousCounts(b, pending, x);
    }
  }

  lemma PreviewSamePrevious(r: Request, previous: seq<Block>, tasks: seq<Task>, prefs: Preferences, zone: Zone,
                            now: int, budget: int)
    requires ValidInputs(r.window, r.previous, tasks, prefs) && ValidInputs(r.window, previous, tasks, prefs)
    requires multiset(r.previous) == multiset(previous)
    ensures BuildPreview(r, tasks, prefs, zone, now, budget)
            == BuildPreview(Request(r.window, previous), tasks, prefs, zone, now, budget)
  {
    hide BuildGrid, PlanGrid, ValidTasks, ValidBlocks, ValidPreferences, ValidWindow, GridOK;
    PreviousIrrelevant(r.window, r.previous, previous, tasks, prefs, zone, now);
    if BuildGrid(r.window, r.previous, tasks, prefs, zone, now).Success? {
      BuildTwins(r.window, r.previous, previous, tasks, prefs, zone, now);
      BuiltGridOK(r.window, r.previous, tasks, prefs, zone, now);
      BuiltGridOK(r.window, previous, tasks, prefs, zone, now);
      PlanSame(BuildGrid(r.window, r.previous, tasks, prefs, zone, now).value,
               BuildGrid(r.window, previous, tasks, prefs, zone, now).value, budget);
    }
  }

  lemma SameInputValid(w: PlanningWindow, a: seq<Block>, b: seq<Block>, tasks: seq<Task>, prefs: Preferences)
    requires multiset(a) == multiset(b) && ValidInputs(w, b, tasks, prefs)
    ensures ValidInputs(w, a, tasks, prefs)
  {
    SameMembers(a, b);
    SameLength(a, b);
  }

  /** A preview depends on which tasks, windows, events and previous blocks it is given, never on
      their order. */
  lemma PreviewIgnoresOrder(r: Request, r': Request, tasks: seq<Task>, tasks': seq<Task>, prefs: Preferences,
                            zone: Zone, now: int, budget: int)
    requires ValidInputs(r.window, r.previous, tasks, prefs) && ValidInputs(r'.window, r'.previous, tasks', prefs)
    requires SameInput(r.window, r'.window) && multiset(r.previous) == multiset(r'.previous)
    requires multiset(tasks) == multiset(tasks')
    ensures BuildPreview(r, tasks, prefs, zone, now, budget) == BuildPreview(r', tasks', prefs, zone, now, budget)
  {
    hide BuildGrid, PlanGrid, ValidInputs;
    SameInputValid(r'.window, r.previous, r'.previous, tasks', prefs);
    PreviewSamePrevious(r', r.previous, tasks', prefs, zone, now, budget);
    BuildUnordered(r.window, r'.window, r.previous, tasks, tasks', prefs, zone, now);
  }

  // ----- Order of an inspection -----

  lemma AllPendingUnordered(a: seq<Block>, b: seq<Block>, tasks: seq<Task>, tasks': seq<Task>)
    requires multiset(a) == multiset(b) && multiset(tasks) == multiset(tasks')
    ensures AllPending(a, tasks) <==> AllPending(b, tasks')
  {
    SameMembers(a, b);
    SameMembers(tasks, tasks');
  }

  lemma {:induction false} ReportSame(queue: seq<Task>, a: seq<Block>, b: seq<Block>)
    requires forall id :: Minutes(a, id) == Minutes(b, id)
    ensures ReportMissing(queue, a) == ReportMissing(queue, b)
  {
    hide Minutes;
    if queue == [] {
    } else {
      ReportSame(queue[1..], a, b);
    }
  }

  /** The same window with the blocks in another order. */
  lemma InspectSameBlocks(w: PlanningWindow, a: seq<Block>, b: seq<Block>, tasks: seq<Task>, prefs: Preferences,
                          zone: Zone)
    requires ValidInputs(w, a, tasks, prefs) && ValidInputs(w, b, tasks, prefs) && multiset(a) == multiset(b)
    ensures Inspect(w, a, tasks, prefs, zone) == Inspect(w, b, tasks, prefs, zone)
  {
    hide *;
    AllPendingUnordered(a, b, tasks, tasks);
    if WindowAccepted(w, tasks, prefs, zone) {
      var h := WindowHorizon(w, tasks, prefs, zone);
      InspectExact(w, a, tasks, prefs, zone);
      InspectExact(w, b, tasks, prefs, zone);
      ExactBoth(w, h.start, h.start + h.size, tasks, a, b);
      forall id ensures Minutes(a, id) == Minutes(b, id) { OfReordered(a, b, id); }
      ReportSame(Queue(tasks, h.start + h.size), a, b);
      SameVerdict(h, w, a, b, tasks, prefs, zone);
    } else if AllPending(a, tasks) {
      InspectRefusesWindow(w, a, tasks, prefs, zone);
      InspectRefusesWindow(w, b, tasks, prefs, zone);
    } else {
      InspectInactive(w, a, tasks, prefs, zone);
      InspectInactive(w, b, tasks, prefs, zone);
    }
  }

  lemma SameVerdict(h: Horizon, w: PlanningWindow, a: seq<Block>, b: seq<Block>, tasks: seq<Task>, prefs: Preferences,
                    zone: Zone)
    requires ValidInputs(w, a, tasks, prefs) && ValidInputs(w, b, tasks, prefs)
    requires (AllPending(a, tasks) <==> AllPending(b, tasks))
    requires ReportMissing(Queue(tasks, h.start + h.size), a) == ReportMissing(Queue(tasks, h.start + h.size), b)
    requires var x, y := Inspect(w, a, tasks, prefs, zone), Inspect(w, b, tasks, prefs, zone);
      && (x.Success? <==> y.Success?)
      && (x.Success? ==> Accepted(h, w, a, tasks, x.value) && Accepted(h, w, b, tasks, y.value))
      && (x.Failure? ==> x.error == if AllPending(a, tasks) then InvalidScheduleLayout else InactiveTaskBlock)
      && (y.Failure? ==> y.error == if AllPending(b, tasks) then InvalidScheduleLayout else InactiveTaskBlock)
    ensures Inspect(w, a, tasks, prefs, zone) == Inspect(w, b, tasks, prefs, zone)
  {
    hide Inspect, AllPending, ReportMissing, Queue, ExactLayout, ExactTotals, ValidInputs;
  }

  lemma InspectInactive(w: PlanningWindow, blocks: seq<Block>, tasks: seq<Task>, prefs: Preferences, zone: Zone)
    requires ValidInputs(w, blocks, tasks, prefs) && !AllPending(blocks, tasks)
    ensures Inspect(w, blocks, tasks, prefs, zone) == Failure(InactiveTaskBlock)
  {
    hide BuildGrid, AllPending, ValidInputs;
  }

  /** The same blocks with everything else in another order. */
  lemma InspectSameWindow(w: PlanningWindow, w': PlanningWindow, blocks: seq<Block>, tasks: seq<Task>,
                          tasks': seq<Task>, prefs: Preferences, zone: Zone)
    requires ValidInputs(w, blocks, tasks, prefs) && ValidInputs(w', blocks, tasks', prefs)
    requires SameInput(w, w') && multiset(tasks) == multiset(tasks')
    ensures Inspect(w, blocks, tasks, prefs, zone) == Inspect(w', blocks, tasks', prefs, zone)
  {
    hide BuildGrid, Preserve, AllPending, ValidInputs, GridOK, ReportMissing, LocksKnown, MovableKnown, LockAll;
    AllPendingUnordered(blocks, blocks, tasks, tasks');
    BuildUnordered(w, w', LockAll(blocks), tasks, tasks', prefs, zone, HorizonInstant(w, zone));
    assert HorizonInstant(w, zone) == HorizonInstant(w', zone);
  }

  /** An inspection's whole answer, missing minutes and error included, depends on which blocks,
      tasks, windows and events it is given, never on their order. */
  lemma InspectIgnoresOrder(w: PlanningWindow, w': PlanningWindow, a: seq<Block>, b: seq<Block>, tasks: seq<Task>,
                            tasks': seq<Task>, prefs: Preferences, zone: Zone)
    requires ValidInputs(w, a, tasks, prefs) && ValidInputs(w', b, tasks', prefs) && SameInput(w, w')
    requires multiset(a) == multiset(b) && multiset(tasks) == multiset(tasks')
    ensures Inspect(w, a, tasks, prefs, zone) == Inspect(w', b, tasks', prefs, zone)
  {
    hide *;
    SameInputValid(w', a, b, tasks', prefs);
    InspectSameBlocks(w', a, b, tasks', prefs, zone);
    InspectSameWindow(w, w', a, tasks, tasks', prefs, zone);
  }
}
