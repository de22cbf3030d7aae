/** What a preview says beside its blocks: the order of the blocks, why a task was left out, why locked
    work was refused, and the warnings, each against the clock and the final layout. */
module ReportTheorems {
  import opened Wrappers
  import opened PlanningModels
  import opened Sorting
  import opened BlockLists
  import opened PlanningGrid
  import opened GridFacts
  import opened PlannerSpec
  import opened PlaceFacts
  import opened LockPhase
  import opened AllocatePhase
  import opened ExactConstraints
  import opened SlotTheorems
  import opened PlanNotes
  import opened CostTheorems
  import opened Previews
  import opened PreviewTheorems
  import opened InputOrder
  import opened RequestTheorems
  import opened Replanning
  import opened PlannerRuns

  // ----- The order of the blocks -----

  /** The blocks of a preview follow one another in time. */
  lemma PreviewInOrder(r: Request, tasks: seq<Task>, prefs: Preferences, zone: Zone, now: int, budget: int, i: nat,
                       j: nat)
    requires ValidInputs(r.window, r.previous, tasks, prefs)
    requires BuildPreview(r, tasks, prefs, zone, now, budget).Success?
    requires i < j < |BuildPreview(r, tasks, prefs, zone, now, budget).value.blocks|
    ensures var blocks := BuildPreview(r, tasks, prefs, zone, now, budget).value.blocks;
      blocks[i].end <= blocks[j].start
  {
    hide BuildPreview, GridOK, PlanGrid, Sort, OwnedBy, MakeGrid, ClipEvents, HorizonOf, Queue, ValidInputs;
    var h, events, g, w := PreviewParts(r, tasks, prefs, zone, now, budget);
    var blocks := Sort(BlockOrder(), w.blocks);
    PlannedKnown(g, budget);
    BlockOrderTotal();
    SortSorts(BlockOrder(), w.blocks);
    SameMembers(blocks, w.blocks);
    DisjointReordered(w.blocks, blocks);
    assert blocks[i] in w.blocks && blocks[j] in w.blocks;
    assert BlockOrder()(blocks[i], blocks[j]) && Apart(blocks[i], blocks[j]);
  }

  /** A preview spans its local days. */
  lemma PreviewHorizon(r: Request, tasks: seq<Task>, prefs: Preferences, zone: Zone, now: int, budget: int)
    requires ValidInputs(r.window, r.previous, tasks, prefs)
    requires BuildPreview(r, tasks, prefs, zone, now, budget).Success?
    ensures var p := BuildPreview(r, tasks, prefs, zone, now, budget).value;
      && zone.localDate(now) <= r.window.startDate && p.start < p.end
      && p.start * 60 == zone.midnight(r.window.startDate)
      && p.end * 60 == zone.midnight(r.window.startDate + r.window.days)
  {
    hide BuildPreview, GridOK, PlanGrid, Sort, MakeGrid, ClipEvents, HorizonOf, Queue, ValidInputs;
    var h, events, g, w := PreviewParts(r, tasks, prefs, zone, now, budget);
    HorizonExact(r.window.startDate, r.window.days, zone, now, h);
  }

  // ----- Why a task was left out -----

  /** A placement stops at a limit only when the budget is spent or the block count could pass the cap. */
  lemma {:induction false} LimitedMeans(g: Grid, t: Task, remaining: nat, busy: seq<Interval>,
                                        intervals: seq<Interval>, budget: int)
    requires Searchable(g) && Nonempty(busy) && Place(g, t, remaining, busy, intervals, budget).Limited?
    ensures Place(g, t, remaining, busy, intervals, budget).budget <= 0 || |intervals| + remaining > 512
    decreases remaining
  {
    if remaining == 0 {
    } else {
      hide Place, FindSlot, Usage, Room, LongestAllowed, Cheapest, Starts, PieceFits;
      var used := Usage(g.days, intervals);
      var r := PlaceRound(g, t, remaining, busy, intervals, budget);
      SlotExact(g, t, remaining, busy, used, budget);
      if |intervals| < MAX_BLOCKS && r.Found? {
        FoundFits(g, t, remaining, busy, used, budget);
        var piece := Interval(r.start, r.start + r.length);
        FoundPositive(g, t, remaining, busy, used, budget);
        LimitedMeans(g, t, remaining - r.length, busy + [piece], intervals + [piece], r.budget);
      }
    }
  }

  lemma FoundPositive(g: Grid, t: Task, remaining: nat, busy: seq<Interval>, used: seq<nat>, budget: int)
    requires Searchable(g) && |used| == |g.days| && remaining > 0
    ensures FindSlot(g, t, remaining, busy, used, budget).Found? ==>
      1 <= FindSlot(g, t, remaining, busy, used, budget).length <= remaining
  {
  }

  /** Not one whole minute of the horizon, from the clock on, lies between earliest start and deadline. */
  ghost predicate NoMinuteLeft(t: Task, start: int, end: int, now: int) {
    t.deadline.Some? && forall m :: start <= m < end && OpenMinute(t, m) ==> m * MINUTE < now
  }

  predicate OpenMinute(t: Task, m: int) {
    && (t.earliest.Some? ==> t.earliest.value <= m * MINUTE)
    && (t.deadline.Some? ==> (m + 1) * MINUTE <= t.deadline.value)
  }

  lemma BoundsCrossed(g: Grid, t: Task, now: int)
    requires g.floor == FloorIndex(g.start, g.size, now) && t.deadline.Some?
    ensures LatestIndex(g, t) <= EarliestIndex(g, t) <==> NoMinuteLeft(t, g.start, g.start + g.size, now)
  {
    hide EarliestAt, LatestAt, FloorIndex, OpenMinute;
    var lo, hi := EarliestIndex(g, t), LatestIndex(g, t);
    forall m | g.start <= m < g.start + g.size
      ensures lo <= m - g.start && m - g.start + 1 <= hi <==> now <= m * MINUTE && OpenMinute(t, m)
    {
      MinuteOpen(g, t, now, m);
    }
    if lo < hi {
      MinuteOpen(g, t, now, g.start + lo);
      assert now <= (g.start + lo) * MINUTE && OpenMinute(t, g.start + lo);
    }
  }

  lemma MinuteOpen(g: Grid, t: Task, now: int, m: int)
    requires g.floor == FloorIndex(g.start, g.size, now) && g.start <= m < g.start + g.size
    ensures EarliestIndex(g, t) <= m - g.start && m - g.start + 1 <= LatestIndex(g, t) <==>
      now <= m * MINUTE && OpenMinute(t, m)
  {
    hide EarliestAt, LatestAt, FloorIndex;
    BoundsExact(g, t, m - g.start, m - g.start + 1);
    FloorIndexExact(g.start, g.size, now, m - g.start);
  }

  /** What the reason of a report entry means for the work when it was written. */
  ghost predicate ReasonFits(g: Grid, e: Unscheduled, blocks: seq<Block>, budget: int)
    requires |g.avail| == g.size
  {
    && e.task in g.pending && var t := g.pending[e.task];
    && (e.reason == DeadlinePassed <==> t.deadline.Some? && LatestIndex(g, t) <= EarliestIndex(g, t))
    && (e.reason == SearchLimit ==> budget <= 0 || |blocks| + e.remaining > 512)
    && (e.reason == NoSlotFound ==> Capacity(g, t, Busy(g, blocks)) < e.remaining)
    && e.reason != NotScheduled
  }

  lemma BusyNonempty(g: Grid, blocks: seq<Block>)
    requires GridOK(g) && ValidBlocks(blocks)
    ensures Nonempty(Busy(g, blocks)) && |Indices(g, blocks)| == |blocks|
  {
    hide Busy, Indices;
    forall x | x in Busy(g, blocks) ensures x.lo < x.hi { BusyMembers(g, blocks, x); }
  }

  lemma ReasonStep(g: Grid, t: Task, w: Work)
    requires GridOK(g) && Plannable(g) && t.id in g.pending && g.pending[t.id] == t && ValidBlocks(w.blocks)
    requires Minutes(w.blocks, t.id) < t.duration && !Succeeds(g, t, w)
    ensures var after := Allocate(g, t, w);
      && |after.unscheduled| == |w.unscheduled| + 1 && after.blocks == w.blocks
      && ReasonFits(g, after.unscheduled[|w.unscheduled|], w.blocks, after.budget)
  {
    hide Place, Busy, Indices, Of, Total, Capacity, EarliestAt, LatestAt, GridOK;
    var remaining := t.duration - Minutes(w.blocks, t.id);
    assert Searchable(g) by { SearchableHere(g); }
    BusyNonempty(g, w.blocks);
    var p := Place(g, t, remaining, Busy(g, w.blocks), Indices(g, w.blocks), w.budget);
    if p.Limited? {
      LimitedMeans(g, t, remaining, Busy(g, w.blocks), Indices(g, w.blocks), w.budget);
    } else {
      PlaceExact(g, t, remaining, Busy(g, w.blocks), Indices(g, w.blocks), w.budget);
    }
  }

  lemma SearchableHere(g: Grid)
    requires GridOK(g)
    ensures Searchable(g)
  {
  }

  lemma ReasonLater(g: Grid, e: Unscheduled, blocks: seq<Block>, budget: int, more: seq<Block>, less: int)
    requires |g.avail| == g.size && ReasonFits(g, e, blocks, budget) && blocks <= more && less <= budget
    ensures ReasonFits(g, e, more, less)
  {
    hide Busy, Capacity, EarliestAt, LatestAt;
    BusyGrows(g, blocks, more);
    CapacityShrinks(g, g, g.pending[e.task], Busy(g, blocks), Busy(g, more));
  }

  /** Every entry a run adds to the report is explained by the final layout and budget. */
  lemma {:induction false} ReasonsFit(g: Grid, queue: seq<Task>, w: Work, k: nat)
    requires GridOK(g) && QueueKnown(g, queue) && LayoutOK(g, w.blocks)
    requires |w.unscheduled| <= k < |AllocateAll(g, queue, w).unscheduled|
    ensures var final := AllocateAll(g, queue, w); ReasonFits(g, final.unscheduled[k], final.blocks, final.budget)
    decreases |queue|
  {
    hide LayoutOK, ReasonFits, Capacity, Place, Of, Total, BlocksFor, GridOK, Busy, Indices;
    assert MaskOK(g) && Searchable(g) by { SearchableHere(g); MaskHere(g); }
    var t, after, final := queue[0], Allocate(g, queue[0], w), AllocateAll(g, queue, w);
    FitsBounds(g, t, w.blocks);
    AllocateKeepsLayout(g, t, w);
    AllocateAllExtends(g, queue[1..], after);
    AllocateAllBudget(g, queue[1..], after);
    AllocateOutcome(g, t, w);
    if k < |after.unscheduled| {
      LayoutValid(g, w.blocks);
      ReasonStep(g, t, w);
      assert final.unscheduled[k] == after.unscheduled[k];
      ReasonLater(g, after.unscheduled[k], after.blocks, after.budget, final.blocks, final.budget);
    } else {
      ReasonsFit(g, queue[1..], after, k);
    }
  }

  lemma MaskHere(g: Grid)
    requires GridOK(g)
    ensures MaskOK(g)
  {
  }

  lemma LayoutValid(g: Grid, blocks: seq<Block>)
    requires |g.avail| == g.size && LayoutOK(g, blocks)
    ensures ValidBlocks(blocks)
  {
  }

  lemma PlanReasons(g: Grid, budget: int, k: nat)
    requires GridOK(g) && PlanGrid(g, budget).Success? && k < |PlanGrid(g, budget).value.unscheduled|
    ensures var final := PlanGrid(g, budget).value; ReasonFits(g, final.unscheduled[k], final.blocks, final.budget)
  {
    hide LayoutOK, ReasonFits, AllocateAll, Preserve;
    KnownHere(g);
    PreserveLayout(g);
    QueueHere(g);
    ReasonsFit(g, g.queue, Work(Preserve(g).value, [], budget), k);
  }

  lemma QueueHere(g: Grid)
    requires GridOK(g)
    ensures QueueKnown(g, g.queue)
  {
  }

  /** The reasons of a preview: `DeadlinePassed` exactly when the task has a deadline and no whole minute
      of the horizon from the clock on lies between its bounds; `SearchLimit` only when the search budget
      is spent or the missing minutes could take the layout past 512 blocks; no other reason but
      `NoSlotFound`. */
  lemma ReasonsExact(r: Request, tasks: seq<Task>, prefs: Preferences, zone: Zone, now: int, budget: int, k: nat)
    requires ValidInputs(r.window, r.previous, tasks, prefs)
    requires BuildPreview(r, tasks, prefs, zone, now, budget).Success?
    requires k < |BuildPreview(r, tasks, prefs, zone, now, budget).value.unscheduled|
    ensures var p := BuildPreview(r, tasks, prefs, zone, now, budget).value;
      var e := p.unscheduled[k];
      exists t :: t in tasks && t.id == e.task && t.status.Pending?
        && (e.reason == DeadlinePassed <==> NoMinuteLeft(t, p.start, p.end, now))
        && (e.reason == SearchLimit ==> p.budget <= 0 || |p.blocks| + e.remaining > 512)
        && (e.reason == DeadlinePassed || e.reason == SearchLimit || e.reason == NoSlotFound)
  {
    hide BuildPreview, GridOK, PlanGrid, Sort, ClipEvents, HorizonOf, Queue, ValidInputs, Capacity, Busy,
         NoMinuteLeft, EarliestAt, LatestAt, AvailableMask, FloorIndex, ById, PendingOnly;
    var h, events, g, w := PreviewParts(r, tasks, prefs, zone, now, budget);
    PlanReasons(g, budget, k);
    var e := w.unscheduled[k];
    assert |g.avail| == g.size && ReasonFits(g, e, w.blocks, w.budget);
    PendingLookup(tasks, e.task);
    var t := g.pending[e.task];
    if t.deadline.Some? { BoundsCrossed(g, t, now); }
    NoDeadline(t, g.start, g.start + g.size, now);
    assert t in tasks && t.id == e.task && t.status.Pending?;
  }

  lemma NoDeadline(t: Task, start: int, end: int, now: int)
    ensures NoMinuteLeft(t, start, end, now) ==> t.deadline.Some?
  {
  }

  // ----- Why locked work was refused -----

  lemma {:induction false} LocksRefused(g: Grid, keys: seq<TaskId>, blocks: seq<Block>)
    requires MaskOK(g) && LocksKnown(g, keys) && Sound(g, blocks) && ReserveLocks(g, keys, blocks).Failure?
    ensures var code := ReserveLocks(g, keys, blocks).error;
      || (code == LockedDurationConflict && !DurationsFit(g, keys))
      || (code == LockedBlockConflict && !Sound(g, blocks + LockSequence(g.previous, keys)))
    decreases |keys|
  {
    hide Sound, LockDurationConflict, LocksOf, MaskOK, ReserveEach;
    assert |g.avail| == g.size;
    var locks := LocksOf(g.previous, keys[0]);
    var rest := LockSequence(g.previous, keys[1..]);
    DurationsFitCons(g, keys);
    EachRefused(g, locks, blocks);
    ReserveEachExact(g, locks, blocks);
    SoundRegroup(g, blocks, locks, rest);
    if ReserveEach(g, locks, blocks).Success? && !LockDurationConflict(g.pending[keys[0]], locks) {
      LocksRefused(g, keys[1..], blocks + locks);
    }
  }

  lemma {:induction false} EachRefused(g: Grid, locks: seq<Block>, blocks: seq<Block>)
    requires |g.avail| == g.size && forall b :: b in locks ==> b.task in g.pending
    ensures ReserveEach(g, locks, blocks).Failure? ==> ReserveEach(g, locks, blocks).error == LockedBlockConflict
    decreases |locks|
  {
    if locks == [] {
    } else {
      hide ValidBlock, Busy, FreeMask;
      EachRefused(g, locks[1..], blocks + [locks[0]]);
    }
  }

  /** Locked work is refused for its durations only when some task's locks do not fit its duration, and
      for its placement only when the locks together are not a sound layout. */
  lemma PreserveRefused(g: Grid)
    requires GridOK(g) && LocksKnown(g, Keys(g.previous)) && MovableKnown(g, g.queue) && Preserve(g).Failure?
    ensures var code := Preserve(g).error;
      || (code == LockedDurationConflict && !LocksFit(g))
      || (code == LockedBlockConflict && !Sound(g, LockedOnly(g.previous)))
  {
    hide Sound, LocksFit, MovableKnown, LocksKnown, DurationsFit, LockSequence;
    var all := LockSequence(g.previous, Keys(g.previous));
    assert Sound(g, []) by { NothingSound(g); }
    LocksRefused(g, Keys(g.previous), []);
    LocksFitIsDurationsFit(g);
    LockSequenceComplete(g.previous);
    assert [] + all == all;
    if Sound(g, LockedOnly(g.previous)) { SoundReordered(g, LockedOnly(g.previous), all); }
  }

  lemma NothingSound(g: Grid)
    requires |g.avail| == g.size
    ensures Sound(g, [])
  {
  }

  // ----- Notes -----

  lemma SameLoad(g: Grid, a: seq<Block>, b: seq<Block>)
    requires multiset(a) == multiset(b)
    ensures forall day :: PlacedOn(g, a, day) == PlacedOn(g, b, day)
    ensures forall x :: x in a <==> x in b
  {
    SameMembers(a, b);
    forall m ensures Taken(g, a, m) <==> Taken(g, b, m) {
      if x :| x in a && Holds(x, g.start + m) { assert x in b; }
      if x :| x in b && Holds(x, g.start + m) { assert x in a; }
    }
  }

  /** Some placed task of the list may not be split and is longer than the focus length. */
  ghost predicate LongTaskPlaced(tasks: seq<Task>, focus: int, blocks: seq<Block>) {
    exists b, t :: b in blocks && t in tasks && t.id == b.task && !t.splittable && t.duration > focus
  }

  lemma LongTaskExact(g: Grid, tasks: seq<Task>, blocks: seq<Block>)
    requires DistinctIds(tasks) && g.pending == ById(PendingOnly(tasks))
    requires forall b :: b in blocks ==> b.task in g.pending
    ensures LongTaskPlaced(tasks, g.prefs.focus, blocks) <==>
      exists b :: b in blocks && b.task in g.pending && !g.pending[b.task].splittable
                  && g.pending[b.task].duration > g.prefs.focus
  {
    PendingMembers(tasks);
    PendingDistinct(tasks);
    ByIdFinds(PendingOnly(tasks));
    hide ById, PendingOnly;
    forall b, t | b in blocks && t in tasks && t.id == b.task ensures g.pending[b.task] == t {
      var i :| 0 <= i < |tasks| && tasks[i] == t;
      var j :| 0 <= j < |tasks| && tasks[j] == g.pending[b.task];
      assert i < j || j < i || i == j;
    }
  }

  lemma VersionsExact(tasks: seq<Task>)
    requires DistinctIds(tasks)
    ensures Versions(tasks).Keys == (set t | t in tasks :: t.id)
    ensures forall t :: t in tasks ==> t.id in Versions(tasks) && Versions(tasks)[t.id] == t.version
  {
    ByIdFinds(tasks);
    hide ById;
    forall t | t in tasks ensures t.id in Versions(tasks) { }
  }

  ghost predicate ListedByTime(events: seq<Event>) {
    forall i, j :: 0 <= i < j < |events| ==>
      events[i].start < events[j].start || (events[i].start == events[j].start && events[i].end <= events[j].end)
  }

  lemma EventsListed(events: seq<Event>)
    ensures ListedByTime(Sort(EventOrder(), events))
  {
    EventOrderTotal();
    SortSorts(EventOrder(), events);
    var sorted := Sort(EventOrder(), events);
    forall i, j | 0 <= i < j < |sorted| ensures EventFirst(sorted[i], sorted[j]) {
      assert EventOrder()(sorted[i], sorted[j]);
    }
  }

  lemma NotesParts(r: Request, tasks: seq<Task>, prefs: Preferences, zone: Zone, now: int, budget: int, g: Grid,
                   w: Work)
    requires ValidInputs(r.window, r.previous, tasks, prefs)
    requires BuildPreview(r, tasks, prefs, zone, now, budget).Success?
    requires BuildGrid(r.window, r.previous, tasks, prefs, zone, now) == Success(g) && GridOK(g)
    requires PlanGrid(g, budget) == Success(w)
    ensures var notes := PreviewNotes(r, tasks, prefs, zone, now, budget);
      notes.warnings == WarningsOf(g, w.blocks) && notes.versions == Versions(tasks)
      && notes.events == Sort(EventOrder(), r.window.events)
  {
    hide BuildPreview, GridOK, PlanGrid, Sort, ValidInputs, WarningsOf, Versions, NotPending, BuildGrid;
  }

  /** The notes of a preview: the workload warning says that a local day holds more placed minutes than
      its target, the focus warning that a placed task which may not be split is longer than the focus
      length; the versions are those of the tasks, and the events are listed by start and then end. */
  lemma NotesExact(r: Request, tasks: seq<Task>, prefs: Preferences, zone: Zone, now: int, budget: int)
    requires ValidInputs(r.window, r.previous, tasks, prefs)
    requires BuildPreview(r, tasks, prefs, zone, now, budget).Success?
    ensures BuildGrid(r.window, r.previous, tasks, prefs, zone, now).Success?
    ensures var notes := PreviewNotes(r, tasks, prefs, zone, now, budget);
      var g := BuildGrid(r.window, r.previous, tasks, prefs, zone, now).value;
      var blocks := BuildPreview(r, tasks, prefs, zone, now, budget).value.blocks;
      && |g.days| == |g.targets|
      && (WorkloadNotMet in notes.warnings <==>
            exists k :: 0 <= k < |g.days| && |PlacedOn(g, blocks, g.days[k])| > g.targets[k])
      && (FocusExceeded in notes.warnings <==> LongTaskPlaced(tasks, prefs.focus, blocks))
      && notes.versions.Keys == (set t | t in tasks :: t.id)
      && (forall t :: t in tasks ==> t.id in notes.versions && notes.versions[t.id] == t.version)
      && multiset(notes.events) == multiset(r.window.events) && ListedByTime(notes.events)
  {
    hide BuildPreview, GridOK, PlanGrid, Sort, ClipEvents, HorizonOf, Queue, ValidInputs, WarningsOf, PlacedOn,
         Versions, NotPending, DistinctIds, BuildGrid, PreviewNotes, LongTaskPlaced, ListedByTime, ById, PendingOnly,
         Disjoint, AvailableMask, Targets, DayRanges;
    var h, events, g, w := PreviewParts(r, tasks, prefs, zone, now, budget);
    var blocks := Sort(BlockOrder(), w.blocks);
    NotesParts(r, tasks, prefs, zone, now, budget, g, w);
    PlannedKnown(g, budget);
    LoadWarningsExact(g, w.blocks);
    SameLoad(g, w.blocks, blocks);
    LongTaskExact(g, tasks, blocks);
    VersionsExact(tasks);
    EventsListed(r.window.events);
    assert |g.days| == |g.targets| by { DaysTargeted(g); }
  }

  lemma DaysTargeted(g: Grid)
    requires GridOK(g)
    ensures |g.days| == |g.targets|
  {
  }
}
