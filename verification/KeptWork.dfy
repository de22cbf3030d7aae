/** Which tasks keep their previous placement: each is judged on its own, against the locks and the
    tasks kept before it, and a refusal of one says nothing about the others. */
module KeptWork {
  import opened Wrappers
  import opened PlanningModels
  import opened Sorting
  import opened BlockLists
  import opened PlanningGrid
  import opened GridFacts
  import opened PlannerSpec
  import opened LockPhase
  import opened KeepPhase
  import opened AllocatePhase
  import opened ExactConstraints
  import opened Previews
  import opened PreviewTheorems

  // ----- The phase cut at one task -----

  lemma {:induction false} KeepSplit(g: Grid, queue: seq<Task>, blocks: seq<Block>, k: nat)
    requires MovableKnown(g, queue) && k <= |queue|
    ensures MovableKnown(g, queue[..k]) && MovableKnown(g, queue[k..])
    ensures KeepMovable(g, queue, blocks) == KeepMovable(g, queue[k..], KeepMovable(g, queue[..k], blocks))
    decreases k
  {
    hide KeepTask, MovableOf;
    if k == 0 {
      assert queue[0..] == queue;
    } else {
      KeepSplit(g, queue[1..], KeepTask(g, queue[0], blocks), k - 1);
      assert queue[..k][1..] == queue[1..][..k - 1] && queue[1..][k - 1..] == queue[k..];
    }
  }

  ghost predicate OwnedIn(queue: seq<Task>, x: Block) { exists i :: 0 <= i < |queue| && queue[i].id == x.task }

  /** The block `x` is a movable previous block of one of these tasks. */
  ghost predicate MovedIn(g: Grid, queue: seq<Task>, x: Block) {
    x in g.previous && !x.locked && OwnedIn(queue, x)
  }

  lemma KeepTaskAdds(g: Grid, queue: seq<Task>, blocks: seq<Block>)
    requires MovableKnown(g, queue) && queue != []
    ensures blocks <= KeepTask(g, queue[0], blocks)
    ensures forall x :: x in KeepTask(g, queue[0], blocks) ==> x in blocks || MovedIn(g, queue, x)
  {
    hide AllKept, WholePlacement, Busy, FreeMask, MovableOf;
    MovableOfMembers(g.previous, queue[0].id);
    assert forall x: Block :: x.task == queue[0].id ==> OwnedIn(queue, x);
  }

  lemma MovedLater(g: Grid, queue: seq<Task>, x: Block)
    requires queue != [] && MovedIn(g, queue[1..], x)
    ensures MovedIn(g, queue, x)
  {
    var i :| 0 <= i < |queue[1..]| && queue[1..][i].id == x.task;
    assert queue[i + 1].id == x.task;
  }

  /** The phase only adds, and only movable previous blocks of its tasks. */
  lemma {:induction false} KeepAdds(g: Grid, queue: seq<Task>, blocks: seq<Block>)
    requires MovableKnown(g, queue)
    ensures blocks <= KeepMovable(g, queue, blocks)
    ensures forall x :: x in KeepMovable(g, queue, blocks) ==> x in blocks || MovedIn(g, queue, x)
    decreases |queue|
  {
    if queue == [] {
    } else {
      hide KeepTask, MovedIn, MovableOf;
      KeepTaskAdds(g, queue, blocks);
      KeepAdds(g, queue[1..], KeepTask(g, queue[0], blocks));
      forall x | MovedIn(g, queue[1..], x) ensures MovedIn(g, queue, x) { MovedLater(g, queue, x); }
    }
  }

  /** What the phase holds when it comes to task `k`: the blocks of the final layout that were there at
      the start or belong to an earlier task. */
  lemma HeldBefore(g: Grid, queue: seq<Task>, blocks: seq<Block>, k: nat, x: Block)
    requires MovableKnown(g, queue) && DistinctIds(queue) && k <= |queue|
    ensures MovableKnown(g, queue[..k])
    ensures x in KeepMovable(g, queue[..k], blocks) <==>
      x in KeepMovable(g, queue, blocks) && (x in blocks || OwnedIn(queue[..k], x))
  {
    hide MovableOf, KeepMovable, KeepTask;
    KeepSplit(g, queue, blocks, k);
    var before, after := KeepMovable(g, queue[..k], blocks), KeepMovable(g, queue, blocks);
    KeepAdds(g, queue[..k], blocks);
    KeepAdds(g, queue[k..], before);
    if x in after && OwnedIn(queue[..k], x) {
      KeepMovableOthers(g, queue[k..], before, x.task);
      OfMembers(before, x.task);
      OfMembers(after, x.task);
    }
  }

  // ----- One task -----

  /** The task's previous placement is whole: its blocks add up to the duration, in one block unless the
      task may be split. */
  ghost predicate Whole(g: Grid, t: Task) {
    var mine := Of(g.previous, t.id);
    Total(mine) == t.duration && (t.splittable || |mine| == 1)
  }

  ghost predicate KeepsAll(g: Grid, t: Task, blocks: seq<Block>) {
    multiset(Of(blocks, t.id)) == multiset(Of(g.previous, t.id))
  }

  ghost function MovableBlocks(g: Grid, t: Task): seq<Block> { MovableOnly(Of(g.previous, t.id)) }

  lemma MovableSound(g: Grid, t: Task, held: seq<Block>)
    requires |g.avail| == g.size
    ensures Sound(g, held + MovableOf(g.previous, t.id)) <==> Sound(g, held + MovableBlocks(g, t))
  {
    var a, b := held + MovableOf(g.previous, t.id), held + MovableBlocks(g, t);
    hide Sound, MovableOnly;
    if Sound(g, a) { SoundReordered(g, a, b); }
    if Sound(g, b) { SoundReordered(g, b, a); }
  }

  lemma SoundJoins(g: Grid, held: seq<Block>, more: seq<Block>)
    requires |g.avail| == g.size && Sound(g, held)
    ensures Sound(g, held + more) <==> Sound(g, more) && ApartFrom(held, more)
  {
    DisjointConcat(held, more);
  }

  lemma MineSplit(g: Grid, t: Task, held: seq<Block>)
    requires HoldsLocks(g, t, held)
    ensures KeepsAll(g, t, held) <==> MovableBlocks(g, t) == []
  {
    var mine := Of(g.previous, t.id);
    SplitByLock(mine);
    assert MovableOnly(mine) == [] <==> multiset(MovableOnly(mine)) == multiset{} by {
      assert |multiset(MovableOnly(mine))| == |MovableOnly(mine)|;
    }
  }

  lemma KeepAdded(g: Grid, t: Task, held: seq<Block>)
    requires HoldsLocks(g, t, held)
    ensures KeepsAll(g, t, held + MovableOf(g.previous, t.id))
  {
    hide Total, MovableOnly, LockedOnly;
    var movable := MovableOf(g.previous, t.id);
    MovableOfMembers(g.previous, t.id);
    OfAll(movable, t.id);
    OfConcat(held, movable, t.id);
    SplitByLock(Of(g.previous, t.id));
  }

  lemma KeepTaskExact(g: Grid, t: Task, held: seq<Block>)
    requires MaskOK(g) && Sound(g, held) && HoldsLocks(g, t, held)
    requires forall b :: b in MovableOf(g.previous, t.id) ==> b.task in g.pending
    ensures KeepsAll(g, t, KeepTask(g, t, held)) <==>
      MovableBlocks(g, t) == []
      || (Whole(g, t) && Sound(g, MovableBlocks(g, t)) && ApartFrom(held, MovableBlocks(g, t)))
    ensures !KeepsAll(g, t, KeepTask(g, t, held)) ==> HoldsLocks(g, t, KeepTask(g, t, held))
  {
    assert |g.avail| == g.size;
    hide AllKept, FreeMask, Busy, Sound, Total, MaskOK, MovableBlocks, HoldsLocks, KeepsAll, MovableOf, Of, ApartFrom;
    AllKeptExact(g, MovableOf(g.previous, t.id), held);
    MovableSound(g, t, held);
    SoundJoins(g, held, MovableBlocks(g, t));
    MineSplit(g, t, held);
    KeepAdded(g, t, held);
  }

  // ----- The whole phase -----

  /** The movable blocks of task `k` are possible where they are and clear of everything in the final
      layout that is locked or belongs to an earlier task. */
  ghost predicate Undisturbed(g: Grid, queue: seq<Task>, after: seq<Block>, k: nat)
    requires |g.avail| == g.size && k < |queue|
  {
    var movable := MovableBlocks(g, queue[k]);
    && Sound(g, movable)
    && forall b, x :: b in movable && x in after && (x.locked || OwnedIn(queue[..k], x)) ==> Apart(x, b)
  }

  lemma HeldIsEarlier(g: Grid, queue: seq<Task>, locks: seq<Block>, k: nat)
    requires MovableKnown(g, queue) && DistinctIds(queue) && k < |queue| && forall x :: x in locks ==> x.locked
    ensures MovableKnown(g, queue[..k])
    ensures Undisturbed(g, queue, KeepMovable(g, queue, locks), k) <==>
      Sound(g, MovableBlocks(g, queue[k]))
      && ApartFrom(KeepMovable(g, queue[..k], locks), MovableBlocks(g, queue[k]))
  {
    hide KeepMovable, Sound, MovableOf, OwnedIn, Apart, MovableOnly, Of, DistinctIds;
    HeldBefore(g, queue, locks, k, Block(0, 0, 0, false));
    KeepAdds(g, queue, locks);
    forall x ensures x in KeepMovable(g, queue[..k], locks) <==>
      x in KeepMovable(g, queue, locks) && (x.locked || OwnedIn(queue[..k], x))
    {
      HeldBefore(g, queue, locks, k, x);
    }
  }

  /** After the phase, every task holds all its previous blocks or its locked ones only, and all of them
      exactly when nothing of it is movable or its placement is whole and undisturbed. */
  lemma KeepMovableExact(g: Grid, queue: seq<Task>, locks: seq<Block>, k: nat)
    requires MaskOK(g) && MovableKnown(g, queue) && DistinctIds(queue) && k < |queue|
    requires Sound(g, locks) && HoldsLocks(g, queue[k], locks) && forall x :: x in locks ==> x.locked
    ensures var after, t := KeepMovable(g, queue, locks), queue[k];
      && (KeepsAll(g, t, after) <==>
            MovableBlocks(g, t) == [] || (Whole(g, t) && Undisturbed(g, queue, after, k)))
      && (!KeepsAll(g, t, after) ==> HoldsLocks(g, t, after))
  {
    hide Sound, MovableOf, Undisturbed, Whole, MovableOnly, LockedOnly, MaskOK, Of, KeepTask;
    var t, held := queue[k], KeepMovable(g, queue[..k], locks);
    KeepSplit(g, queue, locks, k);
    KeepMovableOthers(g, queue[..k], locks, t.id);
    KeepMovableSound(g, queue[..k], locks);
    assert queue[k..][0] == t;
    KeepMovableOthers(g, queue[k..][1..], KeepTask(g, t, held), t.id);
    KeepTaskExact(g, t, held);
    HeldIsEarlier(g, queue, locks, k);
  }

  /** `preserve_previous`, task by task: after it, a task holds all its previous blocks if and only if
      none of them is movable, or together they are whole and its movable ones are possible where they
      are and clear of every locked block and every block kept for a task before it. Otherwise it
      holds its locked blocks. */
  lemma PreserveExact(g: Grid, k: nat)
    requires GridOK(g) && LocksKnown(g, Keys(g.previous)) && MovableKnown(g, g.queue) && Preserve(g).Success?
    requires k < |g.queue|
    ensures var after, t := Preserve(g).value, g.queue[k];
      && (KeepsAll(g, t, after) <==>
            MovableBlocks(g, t) == [] || (Whole(g, t) && Undisturbed(g, g.queue, after, k)))
      && (!KeepsAll(g, t, after) ==> multiset(Of(after, t.id)) == multiset(LockedOnly(Of(g.previous, t.id))))
  {
    hide MovableKnown, LocksKnown, Sound, Undisturbed, Whole, KeepsAll, ReserveLocks, KeepMovable, MovableOnly;
    LockPhaseExact(g);
    var locks := ReserveLocks(g, Keys(g.previous), []).value;
    LocksHeld(g, locks, g.queue[k].id);
    SoundReordered(g, LockedOnly(g.previous), locks);
    SameMembers(locks, LockedOnly(g.previous));
    LockedMembers(g.previous);
    KeepMovableExact(g, g.queue, locks, k);
  }

  // ----- A placement nothing stands against -----

  lemma PreservedFromPrevious(g: Grid, x: Block)
    requires GridOK(g) && LocksKnown(g, Keys(g.previous)) && MovableKnown(g, g.queue) && Preserve(g).Success?
    requires x in Preserve(g).value
    ensures x in g.previous
  {
    hide MovableOf, KeepTask, Sound;
    LockPhaseExact(g);
    var locks := ReserveLocks(g, Keys(g.previous), []).value;
    SameMembers(locks, LockedOnly(g.previous));
    LockedMembers(g.previous);
    KeepAdds(g, g.queue, locks);
  }

  /** The blocks of one task are sound and clear of all previous blocks of other tasks. */
  ghost predicate ClearOfOthers(g: Grid, t: Task)
    requires |g.avail| == g.size
  {
    var mine := Of(g.previous, t.id);
    Sound(g, mine) && forall b, x :: b in mine && x in g.previous && x.task != t.id ==> Apart(x, b)
  }

  lemma MovablePart(g: Grid, mine: seq<Block>)
    requires |g.avail| == g.size && Sound(g, mine)
    ensures Sound(g, MovableOnly(mine)) && ApartFrom(LockedOnly(mine), MovableOnly(mine))
  {
    SplitByLock(mine);
    SoundReordered(g, mine, LockedOnly(mine) + MovableOnly(mine));
    DisjointConcat(LockedOnly(mine), MovableOnly(mine));
  }

  lemma ClearIsUndisturbed(g: Grid, k: nat)
    requires GridOK(g) && LocksKnown(g, Keys(g.previous)) && MovableKnown(g, g.queue) && Preserve(g).Success?
    requires k < |g.queue| && ClearOfOthers(g, g.queue[k])
    ensures Undisturbed(g, g.queue, Preserve(g).value, k)
  {
    hide Preserve, LocksKnown, MovableKnown, Sound, Apart;
    var t, after := g.queue[k], Preserve(g).value;
    var mine := Of(g.previous, t.id);
    MovablePart(g, mine);
    OfMembers(g.previous, t.id);
    MovableMembers(mine);
    LockedMembers(mine);
    forall b, x | b in MovableBlocks(g, t) && x in after && (x.locked || OwnedIn(g.queue[..k], x)) ensures Apart(x, b) {
      PreservedFromPrevious(g, x);
      if x.task == t.id {
        assert !OwnedIn(g.queue[..k], x);
        assert x in LockedOnly(mine);
      }
    }
  }

  ghost predicate PendingOwner(tasks: seq<Task>, x: Block) {
    exists u :: u in tasks && u.id == x.task && u.status.Pending?
  }

  /** The blocks of one task meet no previous block of another pending task. */
  ghost predicate ClearOfPending(previous: seq<Block>, tasks: seq<Task>, id: TaskId) {
    forall b, x :: b in previous && b.task == id && x in previous && x.task != id && PendingOwner(tasks, x) ==>
      Apart(x, b)
  }

  /** A task's previous placement, judged without any grid: whole, exact, not before the clock, and clear
      of the previous blocks of other pending tasks. */
  ghost predicate WholeAndClear(w: PlanningWindow, start: int, end: int, tasks: seq<Task>, now: int,
                                previous: seq<Block>, t: Task)
  {
    var mine := Of(previous, t.id);
    && Total(mine) == t.duration && (t.splittable || |mine| == 1) && Disjoint(mine)
    && (forall b :: b in mine ==> Respects(w, start, end, t, b) && now <= b.start * MINUTE)
    && ClearOfPending(previous, tasks, t.id)
  }

  /** A whole placement of a pending task that meets every exact constraint and is clear of all previous
      blocks of other pending tasks is in the preview, whatever becomes of the other tasks. */
  lemma PreviewKeepsWhole(r: Request, tasks: seq<Task>, prefs: Preferences, zone: Zone, now: int, budget: int, t: Task)
    requires ValidInputs(r.window, r.previous, tasks, prefs)
    requires BuildPreview(r, tasks, prefs, zone, now, budget).Success?
    requires t in tasks && t.status.Pending?
    requires var p := BuildPreview(r, tasks, prefs, zone, now, budget).value;
      WholeAndClear(r.window, p.start, p.end, tasks, now, r.previous, t)
    ensures forall b :: b in r.previous && b.task == t.id ==>
      b in BuildPreview(r, tasks, prefs, zone, now, budget).value.blocks
  {
    hide BuildPreview, BuildGrid, Respects, GridOK, MakeGrid, PlanGrid, Sound, ClipEvents, HorizonOf, Queue, Apart;
    var h, events, g, w := PreviewParts(r, tasks, prefs, zone, now, budget);
    WholeOnGrid(h, r.window, r.previous, tasks, prefs, zone, now, events, g, t);
    KeptInPlan(g, budget, t);
    OfMembers(r.previous, t.id);
    SameMembers(Sort(BlockOrder(), w.blocks), w.blocks);
  }

  lemma {:induction false} SamePrevious(blocks: seq<Block>, pending: map<TaskId, Task>, id: TaskId)
    requires id in pending
    ensures Of(PreviousOf(blocks, pending), id) == Of(blocks, id)
  {
    if blocks == [] {
    } else {
      var init, last := blocks[..|blocks| - 1], blocks[|blocks| - 1];
      SamePrevious(init, pending, id);
      OfConcat(PreviousOf(init, pending), if last.task in pending then [last] else [], id);
      assert Of([last], id) == if last.task == id then [last] else [] by { assert [last][..0] == []; }
    }
  }

  lemma PendingOnGrid(h: Horizon, w: PlanningWindow, previous: seq<Block>, tasks: seq<Task>, prefs: Preferences,
                      zone: Zone, now: int, events: seq<Interval>, g: Grid, t: Task)
    requires DistinctIds(tasks) && g == MakeGrid(h, w, previous, tasks, prefs, zone, now, events)
    requires t in tasks && t.status.Pending?
    ensures t.id in g.pending && g.pending[t.id] == t && g.previous == PreviousOf(previous, g.pending)
    ensures Of(g.previous, t.id) == Of(previous, t.id)
    ensures forall x :: x in g.previous ==> x in previous && PendingOwner(tasks, x)
  {
    assert g.pending == ById(PendingOnly(tasks)) && g.previous == PreviousOf(previous, g.pending);
    hide MakeGrid, ById, PendingOnly, PreviousOf, Of;
    PendingLookup(tasks, t.id);
    SamePrevious(previous, g.pending, t.id);
    PreviousMembers(previous, g.pending);
    forall x | x in g.previous ensures PendingOwner(tasks, x) { PendingLookup(tasks, x.task); }
  }

  lemma HardOnGrid(h: Horizon, w: PlanningWindow, previous: seq<Block>, tasks: seq<Task>, prefs: Preferences,
                   zone: Zone, now: int, events: seq<Interval>, g: Grid, t: Task, blocks: seq<Block>)
    requires ClipEvents(Sort(EventOrder(), w.events), h.start, h.size) == Success(events)
    requires g == MakeGrid(h, w, previous, tasks, prefs, zone, now, events)
    requires t.id in g.pending && g.pending[t.id] == t
    requires forall b :: b in blocks ==>
      b.task == t.id && Respects(w, h.start, h.start + h.size, t, b) && now <= b.start * MINUTE
    ensures |g.avail| == g.size && forall b :: b in blocks ==> Hard(g, b)
  {
    assert |g.avail| == g.size;
    hide MakeGrid, Respects, ClipEvents, Hard;
    forall b | b in blocks ensures Hard(g, b) {
      HardExact(h, w, previous, tasks, prefs, zone, now, events, b);
    }
  }

  lemma WholeOnGrid(h: Horizon, w: PlanningWindow, previous: seq<Block>, tasks: seq<Task>, prefs: Preferences,
                    zone: Zone, now: int, events: seq<Interval>, g: Grid, t: Task)
    requires ClipEvents(Sort(EventOrder(), w.events), h.start, h.size) == Success(events) && DistinctIds(tasks)
    requires g == MakeGrid(h, w, previous, tasks, prefs, zone, now, events)
    requires t in tasks && t.status.Pending?
    requires WholeAndClear(w, h.start, h.start + h.size, tasks, now, previous, t)
    ensures t.id in g.pending && g.pending[t.id] == t && Of(g.previous, t.id) == Of(previous, t.id)
    ensures |g.avail| == g.size && Whole(g, t) && ClearOfOthers(g, t)
  {
    hide MakeGrid, Respects, ClipEvents, Total, Apart, Of, Hard, PreviousOf, PendingOwner;
    PendingOnGrid(h, w, previous, tasks, prefs, zone, now, events, g, t);
    OfMembers(previous, t.id);
    HardOnGrid(h, w, previous, tasks, prefs, zone, now, events, g, t, Of(previous, t.id));
  }

  lemma KeptInPlan(g: Grid, budget: int, t: Task)
    requires GridOK(g) && PlanGrid(g, budget).Success? && t.id in g.pending && g.pending[t.id] == t
    requires Whole(g, t) && ClearOfOthers(g, t)
    ensures forall b :: b in Of(g.previous, t.id) ==> b in PlanGrid(g, budget).value.blocks
  {
    hide Preserve, LocksKnown, MovableKnown, Whole, ClearOfOthers, Undisturbed, AllocateAll, MovableOnly, LockedOnly;
    KnownHere(g);
    var k :| 0 <= k < |g.queue| && g.queue[k] == t;
    ClearIsUndisturbed(g, k);
    PreserveExact(g, k);
    var kept := Work(Preserve(g).value, [], budget);
    AllocateAllExtends(g, g.queue, kept);
    SameMembers(Of(kept.blocks, t.id), Of(g.previous, t.id));
    OfMembers(kept.blocks, t.id);
  }
}
