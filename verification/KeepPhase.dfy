/** Valid previous placements are kept task by task, soundly, and all of them when they still fit. */
module KeepPhase {
  import opened PlanningModels
  import opened Sorting
  import opened BlockLists
  import opened PlanningGrid
  import opened GridFacts
  import opened PlannerSpec
  import opened PlaceFacts
  import opened LockPhase

  lemma IndicesAppend(g: Grid, blocks: seq<Block>, b: Block)
    ensures Busy(g, blocks + [b]) == Busy(g, blocks) + [IndexOf(g, b)]
  {
    assert (blocks + [b])[..|blocks|] == blocks;
    assert g.events + (Indices(g, blocks) + [IndexOf(g, b)]) == g.events + Indices(g, blocks) + [IndexOf(g, b)];
  }

  lemma ClearedIsFree(g: Grid, blocks: seq<Block>, b: Block)
    requires MaskOK(g)
    ensures Cleared(FreeMask(g.avail, Busy(g, blocks), 0), IndexOf(g, b).lo, IndexOf(g, b).hi)
            == FreeMask(g.avail, Busy(g, blocks + [b]), 0)
  {
    IndicesAppend(g, blocks, b);
    MaskAfterPiece(g.avail, Busy(g, blocks), IndexOf(g, b));
  }

  /** The running-mask check accepts exactly the lists that extend the layout soundly. */
  lemma {:induction false} AllKeptExact(g: Grid, movable: seq<Block>, blocks: seq<Block>)
    requires MaskOK(g) && Sound(g, blocks) && forall b :: b in movable ==> b.task in g.pending
    ensures AllKept(g, movable, FreeMask(g.avail, Busy(g, blocks), 0)) <==> Sound(g, blocks + movable)
    decreases |movable|
  {
    if movable == [] {
      assert blocks + movable == blocks;
    } else {
      ValidAgainst(g, blocks, movable[0]);
      SoundExtends(g, blocks, movable[0]);
      ClearedIsFree(g, blocks, movable[0]);
      SoundRegroup(g, blocks, [movable[0]], movable[1..]);
      assert [movable[0]] + movable[1..] == movable;
      if Sound(g, blocks + [movable[0]]) { AllKeptExact(g, movable[1..], blocks + [movable[0]]); }
    }
  }

  lemma MovableKnownHere(g: Grid)
    requires GridOK(g)
    ensures MovableKnown(g, g.queue)
  {
    forall t, b | t in g.queue && b in MovableOf(g.previous, t.id) ensures b.task in g.pending {
      MovableOfMembers(g.previous, t.id);
    }
  }

  lemma MovableOfMembers(previous: seq<Block>, id: TaskId)
    ensures forall b :: b in MovableOf(previous, id) <==> b in previous && b.task == id && !b.locked
  {
    SameMembers(MovableOf(previous, id), MovableOnly(Of(previous, id)));
    MovableMembers(Of(previous, id));
    OfMembers(previous, id);
  }

  lemma {:induction false} KeepMovableSound(g: Grid, queue: seq<Task>, blocks: seq<Block>)
    requires MaskOK(g) && MovableKnown(g, queue) && Sound(g, blocks)
    ensures Sound(g, KeepMovable(g, queue, blocks))
    decreases |queue|
  {
    if queue == [] {
    } else {
      AllKeptExact(g, MovableOf(g.previous, queue[0].id), blocks);
      KeepMovableSound(g, queue[1..], KeepTask(g, queue[0], blocks));
    }
  }

  // ----- What each task holds after the phase -----

  /** A task holds either all its previous blocks, which place it wholly, or only its locked ones. */
  ghost predicate HoldsAllOrLocks(g: Grid, t: Task, blocks: seq<Block>) {
    var previous := Of(g.previous, t.id);
    || (multiset(Of(blocks, t.id)) == multiset(previous) && WholePlacement(t, previous))
    || multiset(Of(blocks, t.id)) == multiset(LockedOnly(previous))
  }

  ghost predicate HoldsLocks(g: Grid, t: Task, blocks: seq<Block>) {
    multiset(Of(blocks, t.id)) == multiset(LockedOnly(Of(g.previous, t.id)))
  }

  lemma KeepTaskOthers(g: Grid, t: Task, blocks: seq<Block>, id: TaskId)
    requires |g.avail| == g.size && id != t.id
    requires forall b :: b in MovableOf(g.previous, t.id) ==> b.task in g.pending
    ensures Of(KeepTask(g, t, blocks), id) == Of(blocks, id)
  {
    var movable := MovableOf(g.previous, t.id);
    MovableOfMembers(g.previous, t.id);
    OfNone(movable, id);
    OfConcat(blocks, movable, id);
  }

  lemma KeepTaskHolds(g: Grid, t: Task, blocks: seq<Block>)
    requires |g.avail| == g.size && HoldsLocks(g, t, blocks)
    requires forall b :: b in MovableOf(g.previous, t.id) ==> b.task in g.pending
    ensures HoldsAllOrLocks(g, t, KeepTask(g, t, blocks))
  {
    var movable := MovableOf(g.previous, t.id);
    MovableOfMembers(g.previous, t.id);
    OfAll(movable, t.id);
    OfConcat(blocks, movable, t.id);
    SplitByLock(Of(g.previous, t.id));
  }

  lemma {:induction false} KeepMovableOthers(g: Grid, queue: seq<Task>, blocks: seq<Block>, id: TaskId)
    requires MovableKnown(g, queue) && forall t :: t in queue ==> t.id != id
    ensures Of(KeepMovable(g, queue, blocks), id) == Of(blocks, id)
    decreases |queue|
  {
    if queue == [] {
    } else {
      KeepTaskOthers(g, queue[0], blocks, id);
      KeepMovableOthers(g, queue[1..], KeepTask(g, queue[0], blocks), id);
    }
  }

  lemma KeepFirstHolds(g: Grid, queue: seq<Task>, blocks: seq<Block>)
    requires MovableKnown(g, queue) && DistinctIds(queue) && queue != []
    requires HoldsLocks(g, queue[0], blocks)
    ensures HoldsAllOrLocks(g, queue[0], KeepMovable(g, queue, blocks))
  {
    KeepTaskHolds(g, queue[0], blocks);
    KeepMovableOthers(g, queue[1..], KeepTask(g, queue[0], blocks), queue[0].id);
  }

  lemma KeepOtherHolds(g: Grid, queue: seq<Task>, blocks: seq<Block>, k: nat)
    requires MovableKnown(g, queue) && DistinctIds(queue) && 0 < k < |queue| && HoldsLocks(g, queue[k], blocks)
    ensures MovableKnown(g, queue[1..]) && DistinctIds(queue[1..])
    ensures HoldsLocks(g, queue[1..][k - 1], KeepTask(g, queue[0], blocks))
  {
    hide KeepTask, MovableOf;
    KeepTaskOthers(g, queue[0], blocks, queue[k].id);
  }

  lemma {:induction false} KeepMovableHolds(g: Grid, queue: seq<Task>, blocks: seq<Block>, k: nat)
    requires MovableKnown(g, queue) && DistinctIds(queue) && k < |queue|
    requires HoldsLocks(g, queue[k], blocks)
    ensures HoldsAllOrLocks(g, queue[k], KeepMovable(g, queue, blocks))
    decreases |queue|
  {
    hide KeepTask, MovableOf, HoldsLocks, HoldsAllOrLocks;
    if k == 0 {
      KeepFirstHolds(g, queue, blocks);
    } else {
      KeepOtherHolds(g, queue, blocks, k);
      KeepMovableHolds(g, queue[1..], KeepTask(g, queue[0], blocks), k - 1);
    }
  }

  // ----- When everything still fits -----

  function MovableSequence(previous: seq<Block>, queue: seq<Task>): seq<Block> {
    if queue == [] then [] else MovableOf(previous, queue[0].id) + MovableSequence(previous, queue[1..])
  }

  ghost predicate EachWhole(g: Grid, queue: seq<Task>) {
    forall t :: t in queue ==> MovableOf(g.previous, t.id) == [] || WholePlacement(t, Of(g.previous, t.id))
  }

  /** Placements that are whole and jointly sound are all kept. */
  lemma {:induction false} KeepsEverything(g: Grid, queue: seq<Task>, blocks: seq<Block>)
    requires MaskOK(g) && MovableKnown(g, queue) && EachWhole(g, queue)
    requires Sound(g, blocks + MovableSequence(g.previous, queue))
    ensures KeepMovable(g, queue, blocks) == blocks + MovableSequence(g.previous, queue)
    decreases |queue|
  {
    if queue == [] {
    } else {
      var movable, rest := MovableOf(g.previous, queue[0].id), MovableSequence(g.previous, queue[1..]);
      SoundRegroup(g, blocks, movable, rest);
      SoundPrefix(g, blocks, movable + rest);
      AllKeptExact(g, movable, blocks);
      if movable == [] { assert blocks + movable == blocks; }
      assert KeepTask(g, queue[0], blocks) == blocks + movable;
      KeepsEverything(g, queue[1..], blocks + movable);
    }
  }

  lemma {:induction false} MovableSequenceCounts(previous: seq<Block>, queue: seq<Task>, b: Block)
    requires DistinctIds(queue)
    ensures multiset(MovableSequence(previous, queue))[b] ==
      if !b.locked && (exists t :: t in queue && t.id == b.task) then multiset(previous)[b] else 0
  {
    if queue == [] {
    } else {
      assert queue == [queue[0]] + queue[1..];
      MovableSequenceCounts(previous, queue[1..], b);
      MovableCounts(Of(previous, queue[0].id), b);
      OfCounts(previous, queue[0].id, b);
      if b.task == queue[0].id {
        assert queue[0] in queue;
        forall t | t in queue[1..] ensures t.id != b.task {
          var i :| 0 <= i < |queue[1..]| && queue[1..][i] == t;
        }
      }
    }
  }

  /** Locks first, then movable blocks: every previous block exactly once. */
  lemma PreviousRegrouped(g: Grid)
    requires GridOK(g)
    ensures multiset(LockedOnly(g.previous)) + multiset(MovableSequence(g.previous, g.queue)) == multiset(g.previous)
  {
    forall b
      ensures (multiset(LockedOnly(g.previous)) + multiset(MovableSequence(g.previous, g.queue)))[b]
              == multiset(g.previous)[b]
    {
      LockedCounts(g.previous, b);
      MovableSequenceCounts(g.previous, g.queue, b);
      if b in multiset(g.previous) {
        assert b in g.previous;
        assert g.pending[b.task] in g.queue;
      }
    }
  }
}
