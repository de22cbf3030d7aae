/** Every successful preview meets all hard constraints, conserves minutes and respects its caps. */
module PreviewTheorems {
  import opened Wrappers
  import opened PlanningModels
  import opened Sorting
  import opened BlockLists
  import opened PlanningGrid
  import opened GridFacts
  import opened PlannerSpec
  import opened PlaceFacts
  import opened LockPhase
  import opened KeepPhase
  import opened AllocatePhase
  import opened ExactConstraints
  import opened Previews

  /** A layout that meets every hard constraint exactly, judged without any grid. */
  ghost predicate ExactLayout(w: PlanningWindow, start: int, end: int, tasks: seq<Task>, blocks: seq<Block>) {
    && (forall b :: b in blocks ==> exists t :: t in tasks && OwnedBy(w, start, end, t, b))
    && Disjoint(blocks)
  }

  ghost predicate OwnedBy(w: PlanningWindow, start: int, end: int, t: Task, b: Block) {
    t.id == b.task && t.status.Pending? && Respects(w, start, end, t, b)
  }

  /** Totals: no task exceeds its duration, and an unsplittable task has no block or one full block. */
  ghost predicate ExactTotals(tasks: seq<Task>, blocks: seq<Block>) {
    forall t :: t in tasks && t.status.Pending? ==> FitsDuration(t, Of(blocks, t.id))
  }

  lemma PendingLookup(tasks: seq<Task>, id: TaskId)
    requires DistinctIds(tasks)
    ensures id in ById(PendingOnly(tasks)) <==> exists t :: t in tasks && t.id == id && t.status.Pending?
    ensures id in ById(PendingOnly(tasks)) ==>
      var t := ById(PendingOnly(tasks))[id]; t in tasks && t.id == id && t.status.Pending?
    ensures forall t :: t in tasks && t.id == id && t.status.Pending? ==>
      id in ById(PendingOnly(tasks)) && ById(PendingOnly(tasks))[id] == t
  {
    PendingMembers(tasks);
    PendingDistinct(tasks);
    ByIdFinds(PendingOnly(tasks));
  }

  /** Sound on a built grid means exact, and starting no earlier than the clock. */
  lemma SoundIsExact(h: Horizon, w: PlanningWindow, previous: seq<Block>, tasks: seq<Task>, prefs: Preferences,
                     zone: Zone, now: int, events: seq<Interval>, blocks: seq<Block>)
    requires ClipEvents(Sort(EventOrder(), w.events), h.start, h.size) == Success(events) && DistinctIds(tasks)
    ensures var g := MakeGrid(h, w, previous, tasks, prefs, zone, now, events);
      Sound(g, blocks) <==>
        ExactLayout(w, h.start, h.start + h.size, tasks, blocks) && forall b :: b in blocks ==> now <= b.start * MINUTE
  {
    var g := MakeGrid(h, w, previous, tasks, prefs, zone, now, events);
    assert g.pending == ById(PendingOnly(tasks));
    forall b | b in blocks
      ensures Hard(g, b) <==>
        (exists t :: t in tasks && OwnedBy(w, h.start, h.start + h.size, t, b)) && now <= b.start * MINUTE
    {
      HardExact(h, w, previous, tasks, prefs, zone, now, events, b);
      PendingLookup(tasks, b.task);
      if b.task in g.pending && Respects(w, h.start, h.start + h.size, g.pending[b.task], b) {
        assert OwnedBy(w, h.start, h.start + h.size, g.pending[b.task], b);
      }
    }
  }

  lemma FitsIsExact(h: Horizon, w: PlanningWindow, previous: seq<Block>, tasks: seq<Task>, prefs: Preferences,
                    zone: Zone, now: int, events: seq<Interval>, blocks: seq<Block>)
    requires DistinctIds(tasks)
    ensures EachFits(MakeGrid(h, w, previous, tasks, prefs, zone, now, events), blocks) <==> ExactTotals(tasks, blocks)
  {
    var pending := ById(PendingOnly(tasks));
    assert MakeGrid(h, w, previous, tasks, prefs, zone, now, events).pending == pending;
    forall t | t in tasks && t.status.Pending? ensures t.id in pending && pending[t.id] == t {
      PendingLookup(tasks, t.id);
    }
    forall id | id in pending ensures pending[id] in tasks && pending[id].status.Pending? && pending[id].id == id {
      PendingLookup(tasks, id);
    }
  }

  lemma ExactReordered(w: PlanningWindow, start: int, end: int, tasks: seq<Task>, a: seq<Block>, b: seq<Block>)
    requires multiset(a) == multiset(b) && ExactLayout(w, start, end, tasks, a)
    ensures ExactLayout(w, start, end, tasks, b)
  {
    SameMembers(a, b);
    DisjointReordered(a, b);
  }

  lemma TotalsReordered(tasks: seq<Task>, a: seq<Block>, b: seq<Block>)
    requires multiset(a) == multiset(b) && ExactTotals(tasks, a)
    ensures ExactTotals(tasks, b)
  {
    forall t | t in tasks && t.status.Pending? ensures FitsDuration(t, Of(b, t.id)) {
      OfReordered(a, b, t.id);
    }
  }

  lemma {:induction false} MissingSame(queue: seq<Task>, a: seq<Block>, b: seq<Block>)
    requires forall id :: Minutes(a, id) == Minutes(b, id)
    ensures Missing(queue, a) == Missing(queue, b)
  {
    hide Minutes;
    if queue == [] {
    } else {
      MissingSame(queue[1..], a, b);
    }
  }

  lemma MissingReordered(queue: seq<Task>, a: seq<Block>, b: seq<Block>)
    requires multiset(a) == multiset(b)
    ensures Missing(queue, a) == Missing(queue, b)
  {
    hide *;
    forall id ensures Minutes(a, id) == Minutes(b, id) {
      OfReordered(a, b, id);
    }
    MissingSame(queue, a, b);
  }

  /** The work behind a successful preview. */
  lemma PreviewParts(r: Request, tasks: seq<Task>, prefs: Preferences, zone: Zone, now: int, budget: int)
      returns (h: Horizon, events: seq<Interval>, g: Grid, w: Work)
    requires ValidInputs(r.window, r.previous, tasks, prefs)
    requires BuildPreview(r, tasks, prefs, zone, now, budget).Success?
    ensures ClipEvents(Sort(EventOrder(), r.window.events), h.start, h.size) == Success(events)
    ensures HorizonOf(r.window.startDate, r.window.days, zone, now) == Success(h)
    ensures DistinctIds(tasks) && SnapshotMatches(tasks, r.window.taskIds)
    ensures g == MakeGrid(h, r.window, r.previous, tasks, prefs, zone, now, events) && GridOK(g)
    ensures g.queue == Queue(tasks, h.start + h.size)
    ensures BuildGrid(r.window, r.previous, tasks, prefs, zone, now) == Success(g)
    ensures PlanGrid(g, budget) == Success(w)
    ensures BuildPreview(r, tasks, prefs, zone, now, budget).value
            == Preview(h.start, h.start + h.size, Sort(BlockOrder(), w.blocks), w.unscheduled, w.budget)
  {
    hide ClipEvents, HorizonOf, GridOK, Queue, Sort, PreviousOf, PendingOnly, AvailableMask, DayRanges, Targets;
    h, events := BuiltGridShape(r.window, r.previous, tasks, prefs, zone, now);
    BuiltGridOK(r.window, r.previous, tasks, prefs, zone, now);
    g := MakeGrid(h, r.window, r.previous, tasks, prefs, zone, now, events);
    w := PlanGrid(g, budget).value;
  }

  ghost predicate MeetsAll(w: PlanningWindow, start: int, end: int, tasks: seq<Task>, now: int, blocks: seq<Block>) {
    && ExactLayout(w, start, end, tasks, blocks)
    && (forall b :: b in blocks ==> now <= b.start * MINUTE)
    && ExactTotals(tasks, blocks)
    && |blocks| <= 512
  }

  lemma MeetsAllReordered(w: PlanningWindow, start: int, end: int, tasks: seq<Task>, now: int, a: seq<Block>,
                          b: seq<Block>)
    requires multiset(a) == multiset(b) && MeetsAll(w, start, end, tasks, now, a)
    ensures MeetsAll(w, start, end, tasks, now, b)
  {
    ExactReordered(w, start, end, tasks, a, b);
    TotalsReordered(tasks, a, b);
    SameMembers(a, b);
    assert |multiset(a)| == |multiset(b)|;
  }

  lemma LayoutMeetsAll(h: Horizon, w: PlanningWindow, previous: seq<Block>, tasks: seq<Task>, prefs: Preferences,
                       zone: Zone, now: int, events: seq<Interval>, blocks: seq<Block>)
    requires ClipEvents(Sort(EventOrder(), w.events), h.start, h.size) == Success(events) && DistinctIds(tasks)
    requires LayoutOK(MakeGrid(h, w, previous, tasks, prefs, zone, now, events), blocks)
    ensures MeetsAll(w, h.start, h.start + h.size, tasks, now, blocks)
  {
    SoundIsExact(h, w, previous, tasks, prefs, zone, now, events, blocks);
    FitsIsExact(h, w, previous, tasks, prefs, zone, now, events, blocks);
  }

  /** All hard constraints hold, and the report lists exactly the shortfalls in queue order. */
  ghost predicate GoodPreview(w: PlanningWindow, tasks: seq<Task>, now: int, p: Preview) {
    MeetsAll(w, p.start, p.end, tasks, now, p.blocks) && Accounts(p.unscheduled, Queue(tasks, p.end), p.blocks)
  }

  lemma PlannedMeetsAll(h: Horizon, w: PlanningWindow, previous: seq<Block>, tasks: seq<Task>, prefs: Preferences,
                        zone: Zone, now: int, events: seq<Interval>, g: Grid, budget: int)
    requires ClipEvents(Sort(EventOrder(), w.events), h.start, h.size) == Success(events) && DistinctIds(tasks)
    requires g == MakeGrid(h, w, previous, tasks, prefs, zone, now, events) && GridOK(g)
    requires PlanGrid(g, budget).Success?
    ensures MeetsAll(w, h.start, h.start + h.size, tasks, now, PlanGrid(g, budget).value.blocks)
  {
    PlanLayout(g, budget);
    LayoutMeetsAll(h, w, previous, tasks, prefs, zone, now, events, PlanGrid(g, budget).value.blocks);
  }

  lemma SortedGood(w: PlanningWindow, start: int, end: int, tasks: seq<Task>, now: int, done: Work)
    requires MeetsAll(w, start, end, tasks, now, done.blocks)
    requires Accounts(done.unscheduled, Queue(tasks, end), done.blocks)
    ensures GoodPreview(w, tasks, now,
      Preview(start, end, Sort(BlockOrder(), done.blocks), done.unscheduled, done.budget))
  {
    MeetsAllReordered(w, start, end, tasks, now, done.blocks, Sort(BlockOrder(), done.blocks));
    MissingReordered(Queue(tasks, end), done.blocks, Sort(BlockOrder(), done.blocks));
  }

  lemma PlanReports(g: Grid, budget: int)
    requires GridOK(g) && PlanGrid(g, budget).Success?
    ensures Accounts(PlanGrid(g, budget).value.unscheduled, g.queue, PlanGrid(g, budget).value.blocks)
  {
    PlanLayout(g, budget);
  }

  lemma PlannedGood(h: Horizon, w: PlanningWindow, previous: seq<Block>, tasks: seq<Task>, prefs: Preferences,
                    zone: Zone, now: int, events: seq<Interval>, g: Grid, budget: int, done: Work)
    requires ClipEvents(Sort(EventOrder(), w.events), h.start, h.size) == Success(events) && DistinctIds(tasks)
    requires g == MakeGrid(h, w, previous, tasks, prefs, zone, now, events) && GridOK(g)
    requires g.queue == Queue(tasks, h.start + h.size)
    requires PlanGrid(g, budget) == Success(done)
    ensures GoodPreview(w, tasks, now,
                        Preview(h.start, h.start + h.size, Sort(BlockOrder(), done.blocks), done.unscheduled,
                                done.budget))
  {
    hide *;
    PlannedMeetsAll(h, w, previous, tasks, prefs, zone, now, events, g, budget);
    PlanReports(g, budget);
    SortedGood(w, h.start, h.start + h.size, tasks, now, done);
  }

  /** Every successful preview: disjoint blocks of pending tasks, only in declared availability,
      missing every event, not before `now`, within exact earliest starts and deadlines, at most
      512 of them; no task over its duration; and the report lists exactly the shortfalls. */
  lemma PreviewSound(r: Request, tasks: seq<Task>, prefs: Preferences, zone: Zone, now: int, budget: int)
    requires ValidInputs(r.window, r.previous, tasks, prefs)
    requires BuildPreview(r, tasks, prefs, zone, now, budget).Success?
    ensures GoodPreview(r.window, tasks, now, BuildPreview(r, tasks, prefs, zone, now, budget).value)
  {
    var h, events, g, w := PreviewParts(r, tasks, prefs, zone, now, budget);
    PlannedGood(h, r.window, r.previous, tasks, prefs, zone, now, events, g, budget, w);
  }

  // ----- Minutes -----

  lemma {:induction false} MissingMeaning(queue: seq<Task>, blocks: seq<Block>, t: Task)
    requires DistinctIds(queue) && t in queue
    ensures forall m :: (t.id, m) in Missing(queue, blocks) <==> m == t.duration - Minutes(blocks, t.id) && 0 < m
    decreases |queue|
  {
    var rest := Missing(queue[1..], blocks);
    if t == queue[0] {
      MissingOthers(queue[1..], blocks, t.id);
    } else {
      assert t in queue[1..] by {
        var i :| 0 <= i < |queue| && queue[i] == t;
        assert queue[1..][i - 1] == t;
      }
      assert t.id != queue[0].id;
      MissingMeaning(queue[1..], blocks, t);
    }
  }

  lemma {:induction false} MissingOthers(queue: seq<Task>, blocks: seq<Block>, id: TaskId)
    requires forall t :: t in queue ==> t.id != id
    ensures forall m :: (id, m) !in Missing(queue, blocks)
  {
    if queue == [] {
    } else {
      MissingOthers(queue[1..], blocks, id);
    }
  }

  lemma QueueMembers(tasks: seq<Task>, end: int)
    requires DistinctIds(tasks)
    ensures DistinctIds(Queue(tasks, end))
    ensures forall t :: t in Queue(tasks, end) <==> t in tasks && t.status.Pending?
  {
    PendingMembers(tasks);
    PendingDistinct(tasks);
    SameMembers(PendingOnly(tasks), Queue(tasks, end));
    DistinctReordered(PendingOnly(tasks), Queue(tasks, end));
  }

  /** A pending task is reported with `m` missing minutes exactly when `m > 0` and its placed
      minutes plus `m` equal its duration. */
  lemma MinutesConserved(r: Request, tasks: seq<Task>, prefs: Preferences, zone: Zone, now: int, budget: int, t: Task)
    requires ValidInputs(r.window, r.previous, tasks, prefs)
    requires BuildPreview(r, tasks, prefs, zone, now, budget).Success?
    requires t in tasks && t.status.Pending?
    ensures var p := BuildPreview(r, tasks, prefs, zone, now, budget).value;
      && Minutes(p.blocks, t.id) <= t.duration
      && (forall m :: (t.id, m) in Shortfalls(p.unscheduled) <==> 0 < m && Minutes(p.blocks, t.id) + m == t.duration)
  {
    PreviewSound(r, tasks, prefs, zone, now, budget);
    var p := BuildPreview(r, tasks, prefs, zone, now, budget).value;
    var h, events, g, w := PreviewParts(r, tasks, prefs, zone, now, budget);
    QueueMembers(tasks, p.end);
    MissingMeaning(Queue(tasks, p.end), p.blocks, t);
    assert FitsDuration(t, Of(p.blocks, t.id));
  }

  // ----- New pieces -----

  /** Added pieces are unlocked, and no longer than the focus length when their task may be split. */
  ghost predicate NewPiecesFocused(g: Grid, before: seq<Block>, after: seq<Block>) {
    forall b :: b in after && b !in before ==>
      !b.locked && (b.task in g.pending && g.pending[b.task].splittable ==> b.end - b.start <= g.prefs.focus)
  }

  lemma AllocateFocused(g: Grid, t: Task, w: Work)
    requires Searchable(g) && t.id in g.pending && g.pending[t.id] == t
    ensures NewPiecesFocused(g, w.blocks, Allocate(g, t, w).blocks)
  {
    hide Place, Busy, Indices, Of, Total, BlocksFor;
    if Succeeds(g, t, w) {
      var pieces := PiecesOf(g, t, w);
      PlacedPiecesShape(g, t, t.duration - Minutes(w.blocks, t.id), Busy(g, w.blocks), Indices(g, w.blocks), w.budget);
      BlocksForMembers(g, t, pieces);
      forall b | b in BlocksFor(g, t, pieces)
        ensures b.task == t.id && !b.locked && (t.splittable ==> b.end - b.start <= g.prefs.focus)
      {
        var k :| 0 <= k < |pieces| && BlocksFor(g, t, pieces)[k] == b;
        assert pieces[k] in pieces;
      }
    }
  }

  /** Every piece added by the whole run is unlocked and respects the focus length when its task
      may be split. */
  lemma {:induction false} AllocateAllFocused(g: Grid, queue: seq<Task>, w: Work)
    requires Searchable(g) && QueueKnown(g, queue)
    ensures NewPiecesFocused(g, w.blocks, AllocateAll(g, queue, w).blocks)
    decreases |queue|
  {
    if queue == [] {
    } else {
      AllocateFocused(g, queue[0], w);
      AllocateAllFocused(g, queue[1..], Allocate(g, queue[0], w));
    }
  }

  lemma {:induction false} KeepMovableOrigins(g: Grid, queue: seq<Task>, blocks: seq<Block>)
    requires MovableKnown(g, queue)
    ensures blocks <= KeepMovable(g, queue, blocks)
    ensures forall b :: b in KeepMovable(g, queue, blocks) ==> b in blocks || b in g.previous
    decreases |queue|
  {
    if queue == [] {
    } else {
      MovableOfMembers(g.previous, queue[0].id);
      KeepMovableOrigins(g, queue[1..], KeepTask(g, queue[0], blocks));
    }
  }

  /** Where the planned blocks come from, on the grid. */
  lemma PlanOrigins(g: Grid, budget: int)
    requires GridOK(g) && PlanGrid(g, budget).Success?
    ensures forall b :: b in PlanGrid(g, budget).value.blocks && b !in g.previous ==>
      !b.locked && (b.task in g.pending && g.pending[b.task].splittable ==> b.end - b.start <= g.prefs.focus)
    ensures forall b :: b in g.previous && b.locked ==> b in PlanGrid(g, budget).value.blocks
  {
    hide GridOK, LocksKnown, MovableKnown, AllocateAll, KeepMovable, ReserveLocks, Sound, LocksFit;
    KnownHere(g);
    LockPhaseExact(g);
    var locks := ReserveLocks(g, Keys(g.previous), []).value;
    SameMembers(locks, LockedOnly(g.previous));
    LockedMembers(g.previous);
    KeepMovableOrigins(g, g.queue, locks);
    PlanSearchable(g);
    AllocateAllFocused(g, g.queue, Work(Preserve(g).value, [], budget));
    AllocateAllExtends(g, g.queue, Work(Preserve(g).value, [], budget));
  }

  lemma PlanSearchable(g: Grid)
    requires GridOK(g)
    ensures Searchable(g) && QueueKnown(g, g.queue)
  {
  }

  /** A preview holds every locked block of a pending task exactly where it was; a block that was
      not there before is unlocked and, when its task may be split, no longer than the focus length. */
  lemma PreviewOrigins(r: Request, tasks: seq<Task>, prefs: Preferences, zone: Zone, now: int, budget: int, t: Task,
                       b: Block)
    requires ValidInputs(r.window, r.previous, tasks, prefs)
    requires BuildPreview(r, tasks, prefs, zone, now, budget).Success?
    requires t in tasks && t.status.Pending? && b.task == t.id
    ensures var blocks := BuildPreview(r, tasks, prefs, zone, now, budget).value.blocks;
      && (b in r.previous && b.locked ==> b in blocks)
      && (b in blocks && b !in r.previous ==> !b.locked && (t.splittable ==> b.end - b.start <= prefs.focus))
  {
    hide BuildPreview, PlanGrid, GridOK;
    var h, events, g, w := PreviewParts(r, tasks, prefs, zone, now, budget);
    PlanOrigins(g, budget);
    SameMembers(w.blocks, Sort(BlockOrder(), w.blocks));
    PendingLookup(tasks, t.id);
    PreviousMembers(r.previous, g.pending);
  }
}
