/** The order in which previous blocks are listed never changes a plan. */
module PreviousOrder {
  import opened PlanningModels
  import opened Sorting
  import opened BlockLists
  import opened Masks
  import opened PlanningGrid
  import opened GridFacts
  import opened PlannerSpec
  import opened PlaceFacts
  import opened LockPhase
  import opened KeepPhase
  import opened Previews

  /** Two grids that differ only in the order of their previous blocks. */
  ghost predicate Twins(g: Grid, h: Grid) {
    h == g.(previous := h.previous) && multiset(g.previous) == multiset(h.previous)
  }

  // ----- One task's blocks -----

  lemma StartOrderTotal()
    ensures TotalOrder(ByStart())
  {
  }

  /** Disjoint blocks that start together are one block. */
  lemma SameStartSame(blocks: seq<Block>)
    requires ValidBlocks(blocks) && Disjoint(blocks)
    ensures Antisymmetric(ByStart(), multiset(blocks))
  {
    forall x, y | x in multiset(blocks) && y in multiset(blocks) && ByStart()(x, y) && ByStart()(y, x) ensures x == y {
      var i :| 0 <= i < |blocks| && blocks[i] == x;
      var j :| 0 <= j < |blocks| && blocks[j] == y;
      assert blocks[i] in blocks && blocks[j] in blocks;
    }
  }

  lemma SortedSame(a: seq<Block>, b: seq<Block>)
    requires multiset(a) == multiset(b) && ValidBlocks(a) && Disjoint(a)
    ensures Sort(ByStart(), a) == Sort(ByStart(), b)
  {
    StartOrderTotal();
    SameStartSame(a);
    SortIgnoresOrder(ByStart(), a, b);
  }

  lemma LockedReordered(a: seq<Block>, b: seq<Block>)
    requires multiset(a) == multiset(b)
    ensures multiset(LockedOnly(a)) == multiset(LockedOnly(b)) && multiset(MovableOnly(a)) == multiset(MovableOnly(b))
  {
    forall x: Block
      ensures multiset(LockedOnly(a))[x] == multiset(LockedOnly(b))[x]
      ensures multiset(MovableOnly(a))[x] == multiset(MovableOnly(b))[x]
    {
      LockedCounts(a, x);
      LockedCounts(b, x);
      MovableCounts(a, x);
      MovableCounts(b, x);
    }
  }

  lemma MineReordered(a: seq<Block>, b: seq<Block>, id: TaskId)
    requires multiset(a) == multiset(b)
    ensures multiset(LocksOf(a, id)) == multiset(LocksOf(b, id)) && Total(LocksOf(a, id)) == Total(LocksOf(b, id))
    ensures |LocksOf(a, id)| == |LocksOf(b, id)|
    ensures multiset(MovableOf(a, id)) == multiset(MovableOf(b, id))
    ensures multiset(Of(a, id)) == multiset(Of(b, id)) && Total(Of(a, id)) == Total(Of(b, id))
    ensures |Of(a, id)| == |Of(b, id)|
  {
    hide Of, Total, LockedOnly, MovableOnly;
    OfReordered(a, b, id);
    TotalReordered(Of(a, id), Of(b, id));
    LockedReordered(Of(a, id), Of(b, id));
    TotalReordered(LocksOf(a, id), LocksOf(b, id));
    SameLength(LocksOf(a, id), LocksOf(b, id));
  }

  // ----- Locks -----

  lemma {:induction false} AscendingUnique(a: seq<TaskId>, b: seq<TaskId>)
    requires Ascending(a) && Ascending(b) && forall k :: k in a <==> k in b
    ensures a == b
  {
    var first := if a != [] then a[0] else if b != [] then b[0] else 0;
    assert first in a <==> first in b;
    if a == [] {
    } else {
      assert a[0] in b && b[0] in a;
      assert a[0] == b[0];
      forall k ensures k in a[1..] <==> k in b[1..] {
        assert k in a <==> k == a[0] || k in a[1..];
        assert k in b <==> k == b[0] || k in b[1..];
      }
      AscendingUnique(a[1..], b[1..]);
    }
  }

  lemma KeysSame(a: seq<Block>, b: seq<Block>)
    requires multiset(a) == multiset(b)
    ensures Keys(a) == Keys(b)
  {
    hide Keys;
    KeysFacts(a);
    KeysFacts(b);
    SameMembers(a, b);
    AscendingUnique(Keys(a), Keys(b));
  }

  lemma {:induction false} TwinBusy(g: Grid, h: Grid, blocks: seq<Block>)
    requires Twins(g, h)
    ensures Indices(g, blocks) == Indices(h, blocks) && Busy(g, blocks) == Busy(h, blocks)
  {
    if blocks == [] {
    } else {
      TwinBusy(g, h, blocks[..|blocks| - 1]);
    }
  }

  lemma {:induction false} TwinReserve(g: Grid, h: Grid, locks: seq<Block>, blocks: seq<Block>)
    requires Twins(g, h) && |g.avail| == g.size && forall b :: b in locks ==> b.task in g.pending
    ensures ReserveEach(g, locks, blocks) == ReserveEach(h, locks, blocks)
    ensures ReserveEach(g, locks, blocks).Failure? ==> ReserveEach(g, locks, blocks).error == LockedBlockConflict
    decreases |locks|
  {
    if locks == [] {
    } else {
      hide Busy, FreeMask;
      TwinBusy(g, h, blocks);
      TwinReserve(g, h, locks[1..], blocks + [locks[0]]);
    }
  }

  /** One task's locks are reserved alike, in whatever order they were listed. */
  lemma TaskLocksSame(g: Grid, h: Grid, id: TaskId, blocks: seq<Block>)
    requires MaskOK(g) && Twins(g, h) && Sound(g, blocks)
    requires forall b :: b in LocksOf(g.previous, id) ==> b.task in g.pending
    requires forall b :: b in LocksOf(h.previous, id) ==> b.task in h.pending
    ensures ReserveEach(g, LocksOf(g.previous, id), blocks) == ReserveEach(h, LocksOf(h.previous, id), blocks)
  {
    hide ReserveEach, LocksOf;
    var a, b := LocksOf(g.previous, id), LocksOf(h.previous, id);
    MineReordered(g.previous, h.previous, id);
    ReserveEachExact(g, a, blocks);
    ReserveEachExact(g, b, blocks);
    TwinReserve(g, h, a, blocks);
    TwinReserve(g, h, b, blocks);
    assert multiset(blocks + a) == multiset(blocks + b);
    if Sound(g, blocks + a) {
      SoundReordered(g, blocks + a, blocks + b);
      LocksSortedSame(g, h, id, blocks);
    } else if Sound(g, blocks + b) {
      SoundReordered(g, blocks + b, blocks + a);
    }
  }

  lemma LocksSortedSame(g: Grid, h: Grid, id: TaskId, blocks: seq<Block>)
    requires |g.avail| == g.size && Twins(g, h) && Sound(g, blocks + LocksOf(g.previous, id))
    ensures LocksOf(g.previous, id) == LocksOf(h.previous, id)
  {
    hide Of;
    var a, b := LockedOnly(Of(g.previous, id)), LockedOnly(Of(h.previous, id));
    OfReordered(g.previous, h.previous, id);
    LockedReordered(Of(g.previous, id), Of(h.previous, id));
    SoundSecond(g, blocks, LocksOf(g.previous, id));
    SoundReordered(g, LocksOf(g.previous, id), a);
    SortedSame(a, b);
  }

  lemma SoundSecond(g: Grid, a: seq<Block>, b: seq<Block>)
    requires |g.avail| == g.size && Sound(g, a + b)
    ensures Sound(g, b)
  {
    DisjointConcat(a, b);
    forall x | x in b ensures Hard(g, x) { assert x in a + b; }
  }

  lemma ConflictSame(g: Grid, h: Grid, t: Task)
    requires Twins(g, h)
    ensures LockDurationConflict(t, LocksOf(g.previous, t.id)) == LockDurationConflict(t, LocksOf(h.previous, t.id))
  {
    hide LocksOf, Total;
    MineReordered(g.previous, h.previous, t.id);
  }

  lemma LocksKnownParts(g: Grid, keys: seq<TaskId>)
    requires LocksKnown(g, keys) && keys != []
    ensures keys[0] in g.pending && LocksKnown(g, keys[1..])
    ensures forall b :: b in LocksOf(g.previous, keys[0]) ==> b.task in g.pending
  {
    hide LocksOf;
  }

  lemma {:induction false} LocksSame(g: Grid, h: Grid, keys: seq<TaskId>, blocks: seq<Block>)
    requires MaskOK(g) && Twins(g, h) && LocksKnown(g, keys) && LocksKnown(h, keys) && Sound(g, blocks)
    requires forall id :: id in g.pending ==> g.pending[id].id == id
    ensures ReserveLocks(g, keys, blocks) == ReserveLocks(h, keys, blocks)
    decreases |keys|
  {
    if keys == [] {
    } else {
      hide LocksOf, ReserveEach, MaskOK, Sound, LockDurationConflict, LocksKnown;
      LocksKnownParts(g, keys);
      LocksKnownParts(h, keys);
      ConflictSame(g, h, g.pending[keys[0]]);
      TaskLocksSame(g, h, keys[0], blocks);
      ReserveEachExact(g, LocksOf(g.previous, keys[0]), blocks);
      if ReserveEach(g, LocksOf(g.previous, keys[0]), blocks).Success? {
        LocksSame(g, h, keys[1..], blocks + LocksOf(g.previous, keys[0]));
      }
    }
  }

  // ----- Movable blocks -----

  lemma {:induction false} TwinKept(g: Grid, h: Grid, blocks: seq<Block>, mask: seq<bool>)
    requires Twins(g, h) && |mask| == g.size && forall b :: b in blocks ==> b.task in g.pending
    ensures AllKept(g, blocks, mask) == AllKept(h, blocks, mask)
    decreases |blocks|
  {
    if blocks == [] {
    } else {
      hide Cleared;
      TwinKept(g, h, blocks[1..], Cleared(mask, IndexOf(g, blocks[0]).lo, IndexOf(g, blocks[0]).hi));
    }
  }

  lemma MovableSortedSame(g: Grid, h: Grid, id: TaskId, blocks: seq<Block>)
    requires |g.avail| == g.size && Twins(g, h) && Sound(g, blocks + MovableOf(g.previous, id))
    ensures MovableOf(g.previous, id) == MovableOf(h.previous, id)
  {
    hide Of;
    var a, b := MovableOnly(Of(g.previous, id)), MovableOnly(Of(h.previous, id));
    OfReordered(g.previous, h.previous, id);
    LockedReordered(Of(g.previous, id), Of(h.previous, id));
    SoundSecond(g, blocks, MovableOf(g.previous, id));
    SoundReordered(g, MovableOf(g.previous, id), a);
    SortedSame(a, b);
  }

  lemma KeepTaskSame(g: Grid, h: Grid, t: Task, blocks: seq<Block>)
    requires MaskOK(g) && Twins(g, h) && Sound(g, blocks)
    requires forall b :: b in MovableOf(g.previous, t.id) ==> b.task in g.pending
    requires forall b :: b in MovableOf(h.previous, t.id) ==> b.task in h.pending
    ensures KeepTask(g, t, blocks) == KeepTask(h, t, blocks)
  {
    hide AllKept, MovableOf, FreeMask, Busy, Of, Total;
    var a, b := MovableOf(g.previous, t.id), MovableOf(h.previous, t.id);
    var mask := FreeMask(g.avail, Busy(g, blocks), 0);
    MineReordered(g.previous, h.previous, t.id);
    TwinBusy(g, h, blocks);
    AllKeptExact(g, a, blocks);
    AllKeptExact(g, b, blocks);
    TwinKept(g, h, b, mask);
    assert multiset(blocks + a) == multiset(blocks + b);
    if Sound(g, blocks + a) {
      SoundReordered(g, blocks + a, blocks + b);
      MovableSortedSame(g, h, t.id, blocks);
    } else if Sound(g, blocks + b) {
      SoundReordered(g, blocks + b, blocks + a);
    }
  }

  lemma {:induction false} KeepSame(g: Grid, h: Grid, queue: seq<Task>, blocks: seq<Block>)
    requires MaskOK(g) && Twins(g, h) && MovableKnown(g, queue) && MovableKnown(h, queue) && Sound(g, blocks)
    ensures KeepMovable(g, queue, blocks) == KeepMovable(h, queue, blocks)
    decreases |queue|
  {
    if queue == [] {
    } else {
      hide KeepTask, MovableOf, MaskOK, Sound;
      KeepTaskSame(g, h, queue[0], blocks);
      KeepTaskSound(g, queue[0], blocks);
      KeepSame(g, h, queue[1..], KeepTask(g, queue[0], blocks));
    }
  }

  lemma KeepTaskSound(g: Grid, t: Task, blocks: seq<Block>)
    requires MaskOK(g) && Sound(g, blocks) && forall b :: b in MovableOf(g.previous, t.id) ==> b.task in g.pending
    ensures Sound(g, KeepTask(g, t, blocks))
  {
    hide MovableOf, AllKept, FreeMask, Busy, WholePlacement;
    AllKeptExact(g, MovableOf(g.previous, t.id), blocks);
  }

  lemma PreserveSame(g: Grid, h: Grid)
    requires GridOK(g) && GridOK(h) && Twins(g, h)
    requires LocksKnown(g, Keys(g.previous)) && MovableKnown(g, g.queue)
    requires LocksKnown(h, Keys(h.previous)) && MovableKnown(h, h.queue)
    ensures Preserve(g) == Preserve(h)
  {
    hide ReserveLocks, KeepMovable, Keys, LocksKnown, MovableKnown, Sound, LocksFit;
    KeysSame(g.previous, h.previous);
    NothingSound(g);
    LocksSame(g, h, Keys(g.previous), []);
    LockPhaseExact(g);
    if ReserveLocks(g, Keys(g.previous), []).Success? {
      var locks := ReserveLocks(g, Keys(g.previous), []).value;
      SoundReordered(g, LockedOnly(g.previous), locks);
      KeepSame(g, h, g.queue, locks);
    }
  }

  lemma NothingSound(g: Grid)
    requires |g.avail| == g.size
    ensures Sound(g, [])
  {
  }

  // ----- Placement -----

  lemma {:induction false} EarliestStartIs(blocks: seq<Block>)
    requires blocks != []
    ensures forall b :: b in blocks ==> EarliestStart(blocks) <= b.start
    ensures exists b :: b in blocks && b.start == EarliestStart(blocks)
  {
    if |blocks| == 1 {
      assert blocks[0] in blocks;
    } else {
      var init, last := blocks[..|blocks| - 1], blocks[|blocks| - 1];
      EarliestStartIs(init);
      assert last in blocks;
      var b :| b in init && b.start == EarliestStart(init);
      assert b in blocks;
    }
  }

  lemma MoveCostSame(g: Grid, h: Grid, t: Task, start: nat)
    requires Twins(g, h)
    ensures MoveCost(g, t, start) == MoveCost(h, t, start)
  {
    hide EarliestStart, Of;
    var a, b := Of(g.previous, t.id), Of(h.previous, t.id);
    OfReordered(g.previous, h.previous, t.id);
    SameMembers(a, b);
    if a != [] {
      EarliestStartIs(a);
      EarliestStartIs(b);
    }
  }

  lemma CostSame(g: Grid, h: Grid, t: Task, used: seq<nat>, start: nat, length: nat)
    requires Twins(g, h) && Scorable(g, used) && length > 0 && start + length <= g.size
    ensures Cost(g, t, used, start, length) == Cost(h, t, used, start, length)
  {
    hide MoveCost, PeriodCost, OverloadCost, Per;
    MoveCostSame(g, h, t, start);
  }

  lemma {:induction false} BestSame(g: Grid, h: Grid, t: Task, used: seq<nat>, mask: seq<bool>, lo: nat, hi: nat,
                                    length: nat, upto: nat)
    requires Twins(g, h) && Scorable(g, used) && hi <= |mask| == g.size && length > 0
    ensures BestBelow(g, t, used, mask, lo, hi, length, upto) == BestBelow(h, t, used, mask, lo, hi, length, upto)
  {
    hide Cost, Legal, Scorable;
    if upto == 0 {
    } else {
      BestSame(g, h, t, used, mask, lo, hi, length, upto - 1);
      var before := BestBelow(g, t, used, mask, lo, hi, length, upto - 1);
      if Legal(mask, lo, hi, length, upto - 1) {
        LegalFits(mask, lo, hi, length, upto - 1);
        CostSame(g, h, t, used, upto - 1, length);
      }
      if before.Some? {
        LegalFits(mask, lo, hi, length, before.value);
        CostSame(g, h, t, used, before.value, length);
      }
    }
  }

  lemma SlotSame(g: Grid, h: Grid, t: Task, remaining: nat, busy: seq<Interval>, used: seq<nat>, budget: int)
    requires Twins(g, h) && Scorable(g, used) && |g.avail| == g.size
    ensures FindSlot(g, t, remaining, busy, used, budget) == FindSlot(h, t, remaining, busy, used, budget)
  {
    hide BestBelow, CountLegal, Longest, FreeMask, EarliestAt, LatestAt;
    var lo, hi := EarliestIndex(g, t), LatestIndex(g, t);
    var target := Target(g, t, remaining);
    var paused, tight := FreeMask(g.avail, busy, g.prefs.pause), FreeMask(g.avail, busy, 0);
    var first := PieceLength(t.splittable, target, Longest(paused, lo, hi));
    var second := PieceLength(t.splittable, target, Longest(tight, lo, hi));
    if first > 0 { BestSame(g, h, t, used, paused, lo, hi, first, g.size); }
    if second > 0 { BestSame(g, h, t, used, tight, lo, hi, second, g.size); }
  }

  lemma TwinFacts(g: Grid, h: Grid)
    requires Twins(g, h) && Searchable(g)
    ensures Searchable(h) && Plannable(g) && Plannable(h) && h.days == g.days
    ensures |g.periods| == g.size == |g.avail| && |g.targets| == |g.days|
    ensures |h.periods| == h.size == |h.avail| && |h.targets| == |h.days|
  {
  }

  lemma SlotTwin(g: Grid, h: Grid, t: Task, remaining: nat, busy: seq<Interval>, intervals: seq<Interval>, budget: int)
    requires Twins(g, h) && Searchable(g)
    ensures Searchable(h)
    ensures FindSlot(g, t, remaining, busy, Usage(g.days, intervals), budget)
            == FindSlot(h, t, remaining, busy, Usage(h.days, intervals), budget)
  {
    hide FindSlot, Usage;
    SlotSame(g, h, t, remaining, busy, Usage(g.days, intervals), budget);
  }

  lemma PlaceNothing(g: Grid, t: Task, busy: seq<Interval>, intervals: seq<Interval>, budget: int)
    requires Plannable(g)
    ensures Place(g, t, 0, busy, intervals, budget) == Placed([], budget)
  {
  }

  /** Equal slots and equal placements after them make equal placements. */
  lemma RoundTwin(g: Grid, h: Grid, t: Task, remaining: nat, busy: seq<Interval>, intervals: seq<Interval>, budget: int,
                  r: Search)
    requires Searchable(g) && Searchable(h) && remaining > 0
    requires r == FindSlot(g, t, remaining, busy, Usage(g.days, intervals), budget)
    requires r == FindSlot(h, t, remaining, busy, Usage(h.days, intervals), budget)
    requires |intervals| < MAX_BLOCKS && r.Found? ==>
      var piece := Interval(r.start, r.start + r.length);
      Place(g, t, remaining - r.length, busy + [piece], intervals + [piece], r.budget)
      == Place(h, t, remaining - r.length, busy + [piece], intervals + [piece], r.budget)
    ensures Place(g, t, remaining, busy, intervals, budget) == Place(h, t, remaining, busy, intervals, budget)
  {
    hide *;
    var a := PlaceRound(g, t, remaining, busy, intervals, budget);
    var b := PlaceRound(h, t, remaining, busy, intervals, budget);
  }

  lemma {:induction false} PlaceSame(g: Grid, h: Grid, t: Task, remaining: nat, busy: seq<Interval>,
                                     intervals: seq<Interval>, budget: int)
    requires Twins(g, h) && Searchable(g)
    ensures Plannable(h)
    ensures Place(g, t, remaining, busy, intervals, budget) == Place(h, t, remaining, busy, intervals, budget)
    decreases remaining
  {
    TwinFacts(g, h);
    hide *;
    if remaining == 0 {
      PlaceNothing(g, t, busy, intervals, budget);
      PlaceNothing(h, t, busy, intervals, budget);
    } else {
      SlotTwin(g, h, t, remaining, busy, intervals, budget);
      var r := FindSlot(g, t, remaining, busy, Usage(g.days, intervals), budget);
      if |intervals| < MAX_BLOCKS && r.Found? {
        var piece := Interval(r.start, r.start + r.length);
        PlaceSame(g, h, t, remaining - r.length, busy + [piece], intervals + [piece], r.budget);
      }
      RoundTwin(g, h, t, remaining, busy, intervals, budget, r);
    }
  }

  lemma {:induction false} BlocksForSame(g: Grid, h: Grid, t: Task, pieces: seq<Interval>)
    requires Twins(g, h)
    ensures BlocksFor(g, t, pieces) == BlocksFor(h, t, pieces)
  {
    if pieces == [] {
    } else {
      BlocksForSame(g, h, t, pieces[..|pieces| - 1]);
    }
  }

  lemma AllocateSame(g: Grid, h: Grid, t: Task, w: Work)
    requires Twins(g, h) && Searchable(g)
    ensures Allocate(g, t, w) == Allocate(h, t, w)
  {
    hide Place, Busy, Indices, Minutes, BlocksFor;
    TwinBusy(g, h, w.blocks);
    if Minutes(w.blocks, t.id) < t.duration {
      var remaining := t.duration - Minutes(w.blocks, t.id);
      PlaceSame(g, h, t, remaining, Busy(g, w.blocks), Indices(g, w.blocks), w.budget);
      var p := Place(g, t, remaining, Busy(g, w.blocks), Indices(g, w.blocks), w.budget);
      if p.Placed? { BlocksForSame(g, h, t, p.pieces); }
    }
  }

  lemma {:induction false} AllocateAllSame(g: Grid, h: Grid, queue: seq<Task>, w: Work)
    requires Twins(g, h) && Searchable(g)
    ensures AllocateAll(g, queue, w) == AllocateAll(h, queue, w)
    decreases |queue|
  {
    if queue == [] {
    } else {
      hide Allocate;
      AllocateSame(g, h, queue[0], w);
      AllocateAllSame(g, h, queue[1..], Allocate(g, queue[0], w));
    }
  }

  /** Planning ignores the order of the previous blocks. */
  lemma PlanSame(g: Grid, h: Grid, budget: int)
    requires GridOK(g) && GridOK(h) && Twins(g, h)
    ensures PlanGrid(g, budget) == PlanGrid(h, budget)
  {
    hide Preserve, AllocateAll, LocksKnown, MovableKnown;
    KnownHere(g);
    KnownHere(h);
    PreserveSame(g, h);
    if Preserve(g).Success? { AllocateAllSame(g, h, g.queue, Work(Preserve(g).value, [], budget)); }
  }
}
