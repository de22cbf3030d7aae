/** Re-planning is stable: feeding a preview back keeps every block, and changes nothing at all
    unless the first run stopped at its search limit. */
module Replanning {
  import opened Wrappers
  import opened PlanningModels
  import opened Sorting
  import opened BlockLists
  import opened PlanningGrid
  import opened GridFacts
  import opened PlannerSpec
  import opened PlaceFacts
  import opened LockPhase
  import opened KeepPhase
  import opened AllocatePhase
  import opened Previews
  import opened PreviewTheorems
  import opened PlannerAgreement

  // ----- Unlocked blocks belong to complete tasks -----

  /** A task that owns an unlocked block is placed completely. */
  ghost predicate UnlockedComplete(g: Grid, blocks: seq<Block>) {
    forall b :: b in blocks && !b.locked && b.task in g.pending
      ==> Minutes(blocks, b.task) == g.pending[b.task].duration
  }

  lemma PreservedUnlocked(g: Grid, b: Block)
    requires GridOK(g) && LocksKnown(g, Keys(g.previous)) && MovableKnown(g, g.queue) && Preserve(g).Success?
    requires b in Preserve(g).value && !b.locked && b.task in g.pending
    ensures Minutes(Preserve(g).value, b.task) == g.pending[b.task].duration
  {
    hide Preserve, LocksKnown, MovableKnown, FitsDuration;
    var blocks, t := Preserve(g).value, g.pending[b.task];
    PreserveHolds(g, t);
    OfMembers(blocks, t.id);
    LockedMembers(Of(g.previous, t.id));
    assert b in multiset(Of(blocks, t.id));
    TotalReordered(Of(blocks, t.id), Of(g.previous, t.id));
  }

  lemma AllocateUnlocked(g: Grid, t: Task, w: Work)
    requires Searchable(g) && t.id in g.pending && g.pending[t.id] == t && Minutes(w.blocks, t.id) <= t.duration
    requires UnlockedComplete(g, w.blocks)
    ensures UnlockedComplete(g, Allocate(g, t, w).blocks)
  {
    var after := Allocate(g, t, w).blocks;
    AllocateOutcome(g, t, w);
    if Succeeds(g, t, w) {
      var added := BlocksFor(g, t, PiecesOf(g, t, w));
      BlocksForMembers(g, t, PiecesOf(g, t, w));
      forall b | b in after && !b.locked && b.task in g.pending
        ensures Minutes(after, b.task) == g.pending[b.task].duration
      {
        if b.task != t.id {
          AllocateOthers(g, t, w, b.task);
          assert b !in added by {
            forall k | 0 <= k < |added| ensures added[k] != b { }
          }
        }
      }
    }
  }

  lemma {:induction false} AllocateAllUnlocked(g: Grid, queue: seq<Task>, w: Work)
    requires MaskOK(g) && Searchable(g) && QueueKnown(g, queue) && LayoutOK(g, w.blocks)
    requires UnlockedComplete(g, w.blocks)
    ensures UnlockedComplete(g, AllocateAll(g, queue, w).blocks)
    decreases |queue|
  {
    if queue == [] {
    } else {
      FitsBounds(g, queue[0], w.blocks);
      AllocateUnlocked(g, queue[0], w);
      AllocateKeepsLayout(g, queue[0], w);
      AllocateAllUnlocked(g, queue[1..], Allocate(g, queue[0], w));
    }
  }

  lemma PlanUnlocked(g: Grid, budget: int)
    requires GridOK(g) && PlanGrid(g, budget).Success?
    ensures UnlockedComplete(g, PlanGrid(g, budget).value.blocks)
  {
    KnownHere(g);
    PreserveLayout(g);
    forall b | b in Preserve(g).value && !b.locked && b.task in g.pending
      ensures Minutes(Preserve(g).value, b.task) == g.pending[b.task].duration
    {
      PreservedUnlocked(g, b);
    }
    AllocateAllUnlocked(g, g.queue, Work(Preserve(g).value, [], budget));
  }

  // ----- Failures that stay failures -----

  /** The failure of an entry is explained by the final layout alone. */
  ghost predicate Hopeless(g: Grid, blocks: seq<Block>, e: Unscheduled)
    requires |g.avail| == g.size
  {
    e.reason != SearchLimit ==> e.task in g.pending && Capacity(g, g.pending[e.task], Busy(g, blocks)) < e.remaining
  }

  lemma BusyGrows(g: Grid, blocks: seq<Block>, more: seq<Block>)
    requires forall b :: b in blocks ==> b in more
    ensures forall x :: x in Busy(g, blocks) ==> x in Busy(g, more)
  {
    forall x | x in Busy(g, blocks) ensures x in Busy(g, more) {
      BusyMembers(g, blocks, x);
      BusyMembers(g, more, x);
    }
  }

  lemma HopelessLater(g: Grid, h: Grid, blocks: seq<Block>, more: seq<Block>, e: Unscheduled)
    requires |g.avail| == g.size && Hopeless(g, blocks, e)
    requires h == g.(previous := h.previous)
    requires forall b :: b in blocks ==> b in more
    ensures Hopeless(h, more, e)
  {
    if e.reason != SearchLimit {
      BusyGrows(g, blocks, more);
      assert Busy(h, more) == Busy(g, more) by { SameBusy(g, h, more); }
      CapacityShrinks(g, h, g.pending[e.task], Busy(g, blocks), Busy(g, more));
    }
  }

  lemma {:induction false} SameBusy(g: Grid, h: Grid, blocks: seq<Block>)
    requires h.start == g.start && h.events == g.events
    ensures Indices(h, blocks) == Indices(g, blocks) && Busy(h, blocks) == Busy(g, blocks)
  {
    if blocks == [] {
    } else {
      SameBusy(g, h, blocks[..|blocks| - 1]);
    }
  }

  lemma NoBoundsNoCapacity(g: Grid, t: Task, busy: seq<Interval>)
    requires |g.avail| == g.size && LatestIndex(g, t) <= EarliestIndex(g, t)
    ensures Capacity(g, t, busy) == 0
  {
  }

  /** A task that fails without the search limit had no capacity for its missing minutes. */
  lemma AllocateHopeless(g: Grid, t: Task, w: Work)
    requires Searchable(g) && t.id in g.pending && g.pending[t.id] == t
    requires Minutes(w.blocks, t.id) < t.duration && !Succeeds(g, t, w)
    ensures Hopeless(g, w.blocks, Allocate(g, t, w).unscheduled[|w.unscheduled|])
  {
    PlaceExact(g, t, t.duration - Minutes(w.blocks, t.id), Busy(g, w.blocks), Indices(g, w.blocks), w.budget);
    if LatestIndex(g, t) <= EarliestIndex(g, t) { NoBoundsNoCapacity(g, t, Busy(g, w.blocks)); }
  }

  lemma {:induction false} AllocateAllHopeless(g: Grid, queue: seq<Task>, w: Work, k: nat)
    requires MaskOK(g) && Searchable(g) && QueueKnown(g, queue) && LayoutOK(g, w.blocks)
    requires |w.unscheduled| <= k < |AllocateAll(g, queue, w).unscheduled|
    ensures Hopeless(g, AllocateAll(g, queue, w).blocks, AllocateAll(g, queue, w).unscheduled[k])
    decreases |queue|
  {
    hide LayoutOK, Hopeless, Capacity, Place, ValidPreferences, Of, Total, BlocksFor, MaskOK;
    var t, after, final := queue[0], Allocate(g, queue[0], w), AllocateAll(g, queue, w);
    FitsBounds(g, t, w.blocks);
    AllocateKeepsLayout(g, t, w);
    AllocateAllExtends(g, queue[1..], after);
    AllocateOutcome(g, t, w);
    if k < |after.unscheduled| {
      AllocateHopeless(g, t, w);
      assert final.unscheduled[k] == after.unscheduled[k];
      AllocateExtends(g, t, w);
      HopelessLater(g, g, w.blocks, final.blocks, after.unscheduled[k]);
    } else {
      AllocateAllHopeless(g, queue[1..], after, k);
    }
  }

  lemma PlanHopeless(g: Grid, budget: int, k: nat)
    requires GridOK(g) && PlanGrid(g, budget).Success? && k < |PlanGrid(g, budget).value.unscheduled|
    ensures Hopeless(g, PlanGrid(g, budget).value.blocks, PlanGrid(g, budget).value.unscheduled[k])
  {
    hide Preserve, AllocateAll, LayoutOK, Hopeless;
    KnownHere(g);
    PreserveLayout(g);
    AllocateAllHopeless(g, g.queue, Work(Preserve(g).value, [], budget), k);
  }

  // ----- The second run keeps everything -----

  lemma {:induction false} LockedPart(blocks: seq<Block>)
    requires ValidBlocks(blocks)
    ensures |LockedOnly(blocks)| <= |blocks| && Total(LockedOnly(blocks)) <= Total(blocks)
    ensures |LockedOnly(blocks)| == |blocks| ==> LockedOnly(blocks) == blocks
  {
    if blocks == [] {
    } else {
      var init, last := blocks[..|blocks| - 1], blocks[|blocks| - 1];
      LockedPart(init);
      assert last in blocks;
      if last.locked {
        assert LockedOnly(blocks)[..|LockedOnly(init)|] == LockedOnly(init);
      } else {
        assert LockedOnly(blocks) == LockedOnly(init);
      }
    }
  }

  lemma LockedFits(t: Task, mine: seq<Block>)
    requires ValidBlocks(mine) && FitsDuration(t, mine)
    ensures FitsDuration(t, LockedOnly(mine))
  {
    LockedPart(mine);
  }

  lemma SoundByLock(g: Grid, blocks: seq<Block>)
    requires |g.avail| == g.size && Sound(g, blocks)
    ensures Sound(g, LockedOnly(blocks))
  {
    SplitByLock(blocks);
    SoundReordered(g, blocks, LockedOnly(blocks) + MovableOnly(blocks));
    SoundPrefix(g, LockedOnly(blocks), MovableOnly(blocks));
  }

  /** Everything in a finished layout is ready to be kept again. */
  lemma ReadyAgain(g: Grid)
    requires GridOK(g) && LayoutOK(g, g.previous) && UnlockedComplete(g, g.previous)
    ensures LocksFit(g) && Sound(g, LockedOnly(g.previous)) && EachWhole(g, g.queue)
  {
    forall id | id in g.pending ensures FitsDuration(g.pending[id], LockedOnly(Of(g.previous, id))) {
      OfMembers(g.previous, id);
      LockedFits(g.pending[id], Of(g.previous, id));
    }
    SoundByLock(g, g.previous);
    forall t | t in g.queue ensures MovableOf(g.previous, t.id) == [] || WholePlacement(t, Of(g.previous, t.id)) {
      MovableOfMembers(g.previous, t.id);
      OfMembers(g.previous, t.id);
      if MovableOf(g.previous, t.id) != [] {
        var b := MovableOf(g.previous, t.id)[0];
        assert b in MovableOf(g.previous, t.id);
        assert b in Of(g.previous, t.id);
      }
    }
  }

  /** A finished layout given back as previous blocks is preserved whole. */
  lemma PreservesFinished(g: Grid)
    requires GridOK(g) && LocksKnown(g, Keys(g.previous)) && MovableKnown(g, g.queue)
    requires LayoutOK(g, g.previous) && UnlockedComplete(g, g.previous)
    ensures Preserve(g).Success? && multiset(Preserve(g).value) == multiset(g.previous)
  {
    hide LocksKnown, MovableKnown, LayoutOK, UnlockedComplete, ReserveLocks, KeepMovable, Sound, LocksFit, EachWhole,
         LockedOnly, MovableSequence, Keys;
    ReadyAgain(g);
    LockPhaseExact(g);
    var locks := ReserveLocks(g, Keys(g.previous), []).value;
    var movable := MovableSequence(g.previous, g.queue);
    PreviousRegrouped(g);
    assert multiset(locks + movable) == multiset(g.previous);
    LayoutSound(g, g.previous);
    SoundReordered(g, g.previous, locks + movable);
    KeepsEverything(g, g.queue, locks);
  }

  // ----- ... and adds nothing -----

  /** Each task of the queue is complete or has no capacity for what it misses. */
  ghost predicate NothingFits(g: Grid, queue: seq<Task>, blocks: seq<Block>)
    requires |g.avail| == g.size
  {
    forall t :: t in queue ==>
      Minutes(blocks, t.id) >= t.duration || Capacity(g, t, Busy(g, blocks)) < t.duration - Minutes(blocks, t.id)
  }

  lemma FullAddsNothing(g: Grid, t: Task, w: Work)
    requires Searchable(g)
    requires Minutes(w.blocks, t.id) >= t.duration
             || Capacity(g, t, Busy(g, w.blocks)) < t.duration - Minutes(w.blocks, t.id)
    ensures Allocate(g, t, w).blocks == w.blocks
  {
    hide Capacity, Busy, Of, Total, FailureReason;
    if Minutes(w.blocks, t.id) < t.duration {
      PlaceExact(g, t, t.duration - Minutes(w.blocks, t.id), Busy(g, w.blocks), Indices(g, w.blocks), w.budget);
    }
  }

  lemma {:induction false} NothingAdded(g: Grid, queue: seq<Task>, w: Work)
    requires Searchable(g) && NothingFits(g, queue, w.blocks)
    ensures AllocateAll(g, queue, w).blocks == w.blocks
    decreases |queue|
  {
    hide Capacity, Busy, Of, Total, Allocate;
    if queue == [] {
    } else {
      FullAddsNothing(g, queue[0], w);
      NothingAdded(g, queue[1..], Allocate(g, queue[0], w));
    }
  }

  lemma {:induction false} ShortfallAt(entries: seq<Unscheduled>, id: TaskId, m: int) returns (k: nat)
    requires (id, m) in Shortfalls(entries)
    ensures k < |entries| && entries[k].task == id && entries[k].remaining == m
  {
    var n := |entries| - 1;
    if (id, m) == (entries[n].task, entries[n].remaining) {
      k := n;
    } else {
      k := ShortfallAt(entries[..n], id, m);
    }
  }

  ghost predicate NoSearchLimit(entries: seq<Unscheduled>) {
    forall e :: e in entries ==> e.reason != SearchLimit
  }

  /** Without a search limit, every task the first run left out stays left out. */
  lemma LeftOut(g: Grid, budget: int, t: Task)
    requires GridOK(g) && PlanGrid(g, budget).Success? && t in g.queue
    requires NoSearchLimit(PlanGrid(g, budget).value.unscheduled)
    ensures var blocks := PlanGrid(g, budget).value.blocks;
      Minutes(blocks, t.id) >= t.duration || Capacity(g, t, Busy(g, blocks)) < t.duration - Minutes(blocks, t.id)
  {
    hide PlanGrid, Capacity, Busy, Shortfalls, Missing, Of, Total;
    var done := PlanGrid(g, budget).value;
    PlanReports(g, budget);
    MissingMeaning(g.queue, done.blocks, t);
    if Minutes(done.blocks, t.id) < t.duration {
      var k := ShortfallAt(done.unscheduled, t.id, t.duration - Minutes(done.blocks, t.id));
      PlanHopeless(g, budget, k);
      assert done.unscheduled[k] in done.unscheduled;
    }
  }

  lemma SameLayout(g: Grid, h: Grid, a: seq<Block>, b: seq<Block>)
    requires |g.avail| == g.size && h == g.(previous := h.previous) && multiset(a) == multiset(b) && LayoutOK(g, a)
    ensures LayoutOK(h, b)
  {
    SoundReordered(g, a, b);
    assert Sound(h, b);
    forall id | id in h.pending ensures FitsDuration(h.pending[id], Of(b, id)) {
      OfReordered(a, b, id);
      assert FitsDuration(g.pending[id], Of(a, id));
    }
    assert |multiset(a)| == |multiset(b)|;
  }

  lemma SameUnlocked(g: Grid, h: Grid, a: seq<Block>, b: seq<Block>)
    requires h == g.(previous := h.previous) && multiset(a) == multiset(b) && UnlockedComplete(g, a)
    ensures UnlockedComplete(h, b)
  {
    SameMembers(a, b);
    forall x | x in b && !x.locked && x.task in h.pending ensures Minutes(b, x.task) == h.pending[x.task].duration {
      OfReordered(a, b, x.task);
    }
  }

  lemma NothingFitsAgain(g: Grid, h: Grid, a: seq<Block>, b: seq<Block>)
    requires |g.avail| == g.size && h == g.(previous := h.previous) && multiset(a) == multiset(b)
    requires NothingFits(g, g.queue, a)
    ensures NothingFits(h, h.queue, b)
  {
    SameMembers(a, b);
    forall t | t in h.queue
      ensures Minutes(b, t.id) >= t.duration || Capacity(h, t, Busy(h, b)) < t.duration - Minutes(b, t.id)
    {
      OfReordered(a, b, t.id);
      BusyGrows(g, a, b);
      SameBusy(g, h, b);
      CapacityShrinks(g, h, t, Busy(g, a), Busy(g, b));
    }
  }

  /** The second run on the finished layout of the first, in terms of their grids. */
  lemma SecondRun(g: Grid, h: Grid, budget: int, budget': int)
    requires GridOK(g) && GridOK(h) && h == g.(previous := h.previous)
    requires PlanGrid(g, budget).Success? && multiset(h.previous) == multiset(PlanGrid(g, budget).value.blocks)
    ensures PlanGrid(h, budget').Success?
    ensures multiset(PlanGrid(g, budget).value.blocks) <= multiset(PlanGrid(h, budget').value.blocks)
    ensures NoSearchLimit(PlanGrid(g, budget).value.unscheduled) ==>
      multiset(PlanGrid(h, budget').value.blocks) == multiset(PlanGrid(g, budget).value.blocks)
  {
    hide LayoutOK, UnlockedComplete, Preserve, LocksKnown, MovableKnown, AllocateAll, Accounts;
    var done := PlanGrid(g, budget).value;
    PlanLayout(g, budget);
    PlanUnlocked(g, budget);
    SameLayout(g, h, done.blocks, h.previous);
    SameUnlocked(g, h, done.blocks, h.previous);
    KnownHere(h);
    PreservesFinished(h);
    var kept := Work(Preserve(h).value, [], budget');
    AllocateAllExtends(h, h.queue, kept);
    PrefixCounts(kept.blocks, AllocateAll(h, h.queue, kept).blocks);
    if NoSearchLimit(done.unscheduled) {
      SecondRunAddsNothing(g, h, budget, kept);
    }
  }

  lemma PrefixCounts(a: seq<Block>, b: seq<Block>)
    requires a <= b
    ensures multiset(a) <= multiset(b)
  {
    assert b == a + b[|a|..];
  }

  lemma SecondRunAddsNothing(g: Grid, h: Grid, budget: int, kept: Work)
    requires GridOK(g) && GridOK(h) && h == g.(previous := h.previous)
    requires PlanGrid(g, budget).Success? && multiset(kept.blocks) == multiset(PlanGrid(g, budget).value.blocks)
    requires NoSearchLimit(PlanGrid(g, budget).value.unscheduled)
    ensures AllocateAll(h, h.queue, kept).blocks == kept.blocks
  {
    hide PlanGrid, Capacity, Busy, Of, Total, AllocateAll;
    var blocks := PlanGrid(g, budget).value.blocks;
    forall t | t in g.queue
      ensures Minutes(blocks, t.id) >= t.duration
              || Capacity(g, t, Busy(g, blocks)) < t.duration - Minutes(blocks, t.id)
    {
      LeftOut(g, budget, t);
    }
    NothingFitsAgain(g, h, blocks, kept.blocks);
    NothingAdded(h, h.queue, kept);
  }

  // ----- Previews -----

  lemma BlockOrderTotal()
    ensures TotalOrder(BlockOrder())
  {
  }

  /** Disjoint blocks are told apart by start and task. */
  lemma BlockOrderStrict(blocks: seq<Block>)
    requires ValidBlocks(blocks) && Disjoint(blocks)
    ensures Antisymmetric(BlockOrder(), multiset(blocks))
  {
    forall x, y | x in multiset(blocks) && y in multiset(blocks) && BlockOrder()(x, y) && BlockOrder()(y, x)
      ensures x == y
    {
      var i :| 0 <= i < |blocks| && blocks[i] == x;
      var j :| 0 <= j < |blocks| && blocks[j] == y;
      assert blocks[i] in blocks && blocks[j] in blocks;
    }
  }

  lemma SortedAlike(a: seq<Block>, b: seq<Block>)
    requires multiset(a) == multiset(b) && ValidBlocks(a) && Disjoint(a)
    ensures Sort(BlockOrder(), a) == Sort(BlockOrder(), b)
  {
    BlockOrderTotal();
    BlockOrderStrict(a);
    SortIgnoresOrder(BlockOrder(), a, b);
  }

  lemma SecondGrid(r: Request, blocks: seq<Block>, tasks: seq<Task>, prefs: Preferences, zone: Zone, now: int, g: Grid)
      returns (h: Grid)
    requires ValidInputs(r.window, r.previous, tasks, prefs) && ValidBlocks(blocks) && |blocks| <= MAX_BLOCKS
    requires BuildGrid(r.window, r.previous, tasks, prefs, zone, now) == Success(g)
    requires forall b :: b in blocks ==> b.task in g.pending
    ensures BuildGrid(r.window, blocks, tasks, prefs, zone, now) == Success(h)
    ensures GridOK(h) && h == g.(previous := h.previous) && h.previous == blocks
  {
    hide ClipEvents, HorizonOf, GridOK, Queue, DayRanges, Targets, AvailableMask, PendingOnly, ById, PeriodsOf,
         LocalDays, SnapshotMatches, PreviousOf;
    PreviousOfAll(blocks, g.pending);
    h := BuildGrid(r.window, blocks, tasks, prefs, zone, now).value;
    BuiltGridOK(r.window, blocks, tasks, prefs, zone, now);
  }

  lemma PlannedKnown(g: Grid, budget: int)
    requires GridOK(g) && PlanGrid(g, budget).Success?
    ensures var blocks := PlanGrid(g, budget).value.blocks;
      && ValidBlocks(blocks) && Disjoint(blocks) && |blocks| <= MAX_BLOCKS
      && forall b :: b in blocks ==> b.task in g.pending
  {
    PlanLayout(g, budget);
  }

  lemma PreviewOf(r: Request, tasks: seq<Task>, prefs: Preferences, zone: Zone, now: int, budget: int, g: Grid)
    requires ValidInputs(r.window, r.previous, tasks, prefs)
    requires BuildGrid(r.window, r.previous, tasks, prefs, zone, now) == Success(g) && GridOK(g)
    ensures BuildPreview(r, tasks, prefs, zone, now, budget) ==
      match PlanGrid(g, budget)
      case Failure(e) => Failure(e)
      case Success(w) => Success(Preview(g.start, g.start + g.size, Sort(BlockOrder(), w.blocks), w.unscheduled,
                                         w.budget))
  {
    hide BuildGrid, PlanGrid, GridOK, Sort;
  }

  /** The two runs behind a replan. */
  lemma ReplanRuns(r: Request, tasks: seq<Task>, prefs: Preferences, zone: Zone, now: int, budget: int, budget': int)
      returns (g: Grid, h: Grid, first: Work, second: Work)
    requires ValidInputs(r.window, r.previous, tasks, prefs)
    requires BuildPreview(r, tasks, prefs, zone, now, budget).Success?
    ensures var p := BuildPreview(r, tasks, prefs, zone, now, budget).value;
      var again := Request(r.window, p.blocks);
      && p.blocks == Sort(BlockOrder(), first.blocks) && p.unscheduled == first.unscheduled
      && ValidInputs(again.window, again.previous, tasks, prefs)
      && BuildPreview(again, tasks, prefs, zone, now, budget').Success?
      && BuildPreview(again, tasks, prefs, zone, now, budget').value.blocks == Sort(BlockOrder(), second.blocks)
      && BuildPreview(again, tasks, prefs, zone, now, budget').value.unscheduled == second.unscheduled
    ensures GridOK(g) && GridOK(h) && h == g.(previous := h.previous)
    ensures PlanGrid(g, budget) == Success(first) && PlanGrid(h, budget') == Success(second)
    ensures multiset(h.previous) == multiset(first.blocks)
  {
    hide BuildGrid, BuildPreview, PlanGrid, GridOK, Sort, Disjoint, ValidTasks, ValidWindow, ValidPreferences, MakeGrid,
         ClipEvents, HorizonOf, SnapshotMatches, Queue;
    var horizon, events;
    horizon, events, g, first := PreviewParts(r, tasks, prefs, zone, now, budget);
    var blocks := Sort(BlockOrder(), first.blocks);
    PlannedKnown(g, budget);
    SameMembers(first.blocks, blocks);
    h := SecondGrid(r, blocks, tasks, prefs, zone, now, g);
    SecondRun(g, h, budget, budget');
    PreviewOf(Request(r.window, blocks), tasks, prefs, zone, now, budget', h);
    second := PlanGrid(h, budget').value;
  }

  /** Feeding a preview back as previous blocks, with everything else unchanged, always succeeds
      and keeps every one of its blocks, whatever the new search budget. */
  lemma ReplanKeepsEveryBlock(r: Request, tasks: seq<Task>, prefs: Preferences, zone: Zone, now: int, budget: int,
                              budget': int)
    requires ValidInputs(r.window, r.previous, tasks, prefs)
    requires BuildPreview(r, tasks, prefs, zone, now, budget).Success?
    ensures var p := BuildPreview(r, tasks, prefs, zone, now, budget).value;
      var again := Request(r.window, p.blocks);
      && ValidInputs(again.window, again.previous, tasks, prefs)
      && BuildPreview(again, tasks, prefs, zone, now, budget').Success?
      && multiset(p.blocks) <= multiset(BuildPreview(again, tasks, prefs, zone, now, budget').value.blocks)
  {
    hide *;
    var g, h, first, second := ReplanRuns(r, tasks, prefs, zone, now, budget, budget');
    SecondRun(g, h, budget, budget');
  }

  /** When the first run reported no search limit, the second returns exactly the same blocks
      and the same shortfalls. */
  lemma ReplanIsStable(r: Request, tasks: seq<Task>, prefs: Preferences, zone: Zone, now: int, budget: int,
                       budget': int)
    requires ValidInputs(r.window, r.previous, tasks, prefs)
    requires BuildPreview(r, tasks, prefs, zone, now, budget).Success?
    requires NoSearchLimit(BuildPreview(r, tasks, prefs, zone, now, budget).value.unscheduled)
    ensures var p := BuildPreview(r, tasks, prefs, zone, now, budget).value;
      var again := Request(r.window, p.blocks);
      && ValidInputs(again.window, again.previous, tasks, prefs)
      && BuildPreview(again, tasks, prefs, zone, now, budget').Success?
      && BuildPreview(again, tasks, prefs, zone, now, budget').value.blocks == p.blocks
      && Shortfalls(BuildPreview(again, tasks, prefs, zone, now, budget').value.unscheduled)
        == Shortfalls(p.unscheduled)
  {
    hide *;
    var g, h, first, second := ReplanRuns(r, tasks, prefs, zone, now, budget, budget');
    SecondRun(g, h, budget, budget');
    PlannedKnown(g, budget);
    SortedAlike(first.blocks, second.blocks);
    SameShortfalls(g, h, budget, budget');
  }

  lemma SameShortfalls(g: Grid, h: Grid, budget: int, budget': int)
    requires GridOK(g) && GridOK(h) && h == g.(previous := h.previous)
    requires PlanGrid(g, budget).Success? && PlanGrid(h, budget').Success?
    requires multiset(PlanGrid(h, budget').value.blocks) == multiset(PlanGrid(g, budget).value.blocks)
    ensures Shortfalls(PlanGrid(h, budget').value.unscheduled) == Shortfalls(PlanGrid(g, budget).value.unscheduled)
  {
    hide PlanGrid, GridOK, Shortfalls, Missing;
    PlanReports(g, budget);
    PlanReports(h, budget');
    MissingReordered(g.queue, PlanGrid(g, budget).value.blocks, PlanGrid(h, budget').value.blocks);
  }
}
