/** The lock phase accepts exactly the sound layouts, whatever the processing order. */
module LockPhase {
  import opened PlanningModels
  import opened Sorting
  import opened BlockLists
  import opened Masks
  import opened PlanningGrid
  import opened GridFacts
  import opened PlannerSpec

  /** One block against the fixed constraints: known pending task, its bounds, available minutes. */
  predicate Hard(g: Grid, b: Block)
    requires |g.avail| == g.size
  {
    && b.task in g.pending
    && EarliestIndex(g, g.pending[b.task]) <= b.start - g.start < b.end - g.start <= LatestIndex(g, g.pending[b.task])
    && AllFree(g.avail, b.start - g.start, b.end - g.start)
  }

  predicate Sound(g: Grid, blocks: seq<Block>)
    requires |g.avail| == g.size
  {
    (forall b :: b in blocks ==> Hard(g, b)) && Disjoint(blocks)
  }

  /** What one task's own blocks must add up to. */
  predicate FitsDuration(t: Task, mine: seq<Block>) {
    Total(mine) <= t.duration && (t.splittable || mine == [] || (|mine| == 1 && Total(mine) == t.duration))
  }

  lemma {:induction false} IndicesAre(g: Grid, blocks: seq<Block>)
    ensures forall k :: 0 <= k < |blocks| ==> Indices(g, blocks)[k] == IndexOf(g, blocks[k])
  {
    if blocks == [] {
    } else {
      IndicesAre(g, blocks[..|blocks| - 1]);
    }
  }

  lemma BusyMembers(g: Grid, blocks: seq<Block>, x: Interval)
    ensures x in Busy(g, blocks) <==> x in g.events || exists b :: b in blocks && x == IndexOf(g, b)
  {
    IndicesAre(g, blocks);
    if x in Indices(g, blocks) {
      var k :| 0 <= k < |blocks| && Indices(g, blocks)[k] == x;
      assert blocks[k] in blocks;
    }
    if b :| b in blocks && x == IndexOf(g, b) {
      var k :| 0 <= k < |blocks| && blocks[k] == b;
      assert Indices(g, blocks)[k] == x;
    }
  }

  /** Minutes available and outside every block are free; a block's own minutes are not. */
  lemma FreeMeans(g: Grid, blocks: seq<Block>, i: int)
    requires MaskOK(g) && 0 <= i < g.size
    ensures FreeMask(g.avail, Busy(g, blocks), 0)[i] <==>
      g.avail[i] && forall b :: b in blocks ==> !(b.start - g.start <= i < b.end - g.start)
  {
    if g.avail[i] {
      forall x | x in Busy(g, blocks) && Near(x, 0, i)
        ensures exists b :: b in blocks && b.start - g.start <= i < b.end - g.start
      {
        BusyMembers(g, blocks, x);
        assert x in g.events ==> InInterval(x, i);
      }
      forall b | b in blocks && b.start - g.start <= i < b.end - g.start ensures Blocked(Busy(g, blocks), 0, i) {
        BusyMembers(g, blocks, IndexOf(g, b));
        assert Near(IndexOf(g, b), 0, i);
      }
    }
  }

  predicate Holds(b: Block, i: int) { b.start <= i < b.end }

  lemma ApartMinutes(a: Block, b: Block)
    requires a.start < a.end && b.start < b.end
    requires forall i :: Holds(b, i) ==> !Holds(a, i)
    ensures Apart(a, b)
  {
    assert Holds(b, b.start);
    var i := Max(b.start, Min(b.end - 1, a.start));
    assert Holds(b, i) && !Holds(a, i);
  }

  /** A block is valid against the busy minutes when it meets the fixed constraints and avoids every block. */
  lemma ValidAgainst(g: Grid, blocks: seq<Block>, b: Block)
    requires MaskOK(g) && ValidBlocks(blocks) && b.task in g.pending
    ensures ValidBlock(g, b, FreeMask(g.avail, Busy(g, blocks), 0)) <==>
      Hard(g, b) && forall x :: x in blocks ==> Apart(x, b)
  {
    var m := FreeMask(g.avail, Busy(g, blocks), 0);
    var lo, hi := b.start - g.start, b.end - g.start;
    if 0 <= lo < hi <= g.size {
      forall i | lo <= i < hi
        ensures m[i] <==> g.avail[i] && forall x :: x in blocks ==> !(x.start - g.start <= i < x.end - g.start)
      {
        FreeMeans(g, blocks, i);
      }
      if AllFree(m, lo, hi) {
        forall x | x in blocks ensures Apart(x, b) {
          forall i | Holds(b, i) ensures !Holds(x, i) {
            assert m[i - g.start];
          }
          ApartMinutes(x, b);
        }
      }
    }
  }

  // ----- Reserving a list -----

  lemma SoundExtends(g: Grid, blocks: seq<Block>, b: Block)
    requires MaskOK(g) && Sound(g, blocks)
    ensures Sound(g, blocks + [b]) <==> Hard(g, b) && forall x :: x in blocks ==> Apart(x, b)
  {
    DisjointConcat(blocks, [b]);
    if Sound(g, blocks + [b]) { assert b in blocks + [b]; }
  }

  lemma SoundPrefix(g: Grid, a: seq<Block>, b: seq<Block>)
    requires |g.avail| == g.size && Sound(g, a + b)
    ensures Sound(g, a)
  {
    DisjointConcat(a, b);
  }

  lemma {:induction false} ReserveEachExact(g: Grid, locks: seq<Block>, blocks: seq<Block>)
    requires MaskOK(g) && Sound(g, blocks) && forall b :: b in locks ==> b.task in g.pending
    ensures ReserveEach(g, locks, blocks).Success? <==> Sound(g, blocks + locks)
    ensures ReserveEach(g, locks, blocks).Success? ==> ReserveEach(g, locks, blocks).value == blocks + locks
    decreases |locks|
  {
    if locks == [] {
      assert blocks + locks == blocks;
    } else {
      ValidAgainst(g, blocks, locks[0]);
      SoundExtends(g, blocks, locks[0]);
      assert blocks + [locks[0]] + locks[1..] == blocks + locks;
      if Sound(g, blocks + locks) { SoundPrefix(g, blocks + [locks[0]], locks[1..]); }
      if Sound(g, blocks + [locks[0]]) { ReserveEachExact(g, locks[1..], blocks + [locks[0]]); }
    }
  }

  // ----- Reserving task by task -----

  function LockSequence(previous: seq<Block>, keys: seq<TaskId>): seq<Block> {
    if keys == [] then [] else LocksOf(previous, keys[0]) + LockSequence(previous, keys[1..])
  }

  ghost predicate DurationsFit(g: Grid, keys: seq<TaskId>)
    requires forall id :: id in keys ==> id in g.pending
  {
    forall id :: id in keys ==> !LockDurationConflict(g.pending[id], LocksOf(g.previous, id))
  }

  lemma DurationsFitCons(g: Grid, keys: seq<TaskId>)
    requires keys != [] && forall id :: id in keys ==> id in g.pending
    ensures DurationsFit(g, keys) <==>
      !LockDurationConflict(g.pending[keys[0]], LocksOf(g.previous, keys[0])) && DurationsFit(g, keys[1..])
  {
    assert keys == [keys[0]] + keys[1..];
  }

  lemma SoundRegroup(g: Grid, a: seq<Block>, b: seq<Block>, c: seq<Block>)
    requires |g.avail| == g.size
    ensures a + (b + c) == (a + b) + c
    ensures Sound(g, a + (b + c)) ==> Sound(g, a + b)
  {
    assert a + (b + c) == (a + b) + c;
    if Sound(g, (a + b) + c) { SoundPrefix(g, a + b, c); }
  }

  lemma {:induction false} ReserveLocksExact(g: Grid, keys: seq<TaskId>, blocks: seq<Block>)
    requires MaskOK(g) && LocksKnown(g, keys) && Sound(g, blocks)
    ensures var r := ReserveLocks(g, keys, blocks);
      && (r.Success? <==> DurationsFit(g, keys) && Sound(g, blocks + LockSequence(g.previous, keys)))
      && (r.Success? ==> r.value == blocks + LockSequence(g.previous, keys))
    decreases |keys|
  {
    if keys == [] {
      assert blocks + LockSequence(g.previous, keys) == blocks;
    } else {
      var locks := LocksOf(g.previous, keys[0]);
      var rest := LockSequence(g.previous, keys[1..]);
      DurationsFitCons(g, keys);
      ReserveEachExact(g, locks, blocks);
      SoundRegroup(g, blocks, locks, rest);
      if ReserveEach(g, locks, blocks).Success? {
        ReserveLocksExact(g, keys[1..], blocks + locks);
      }
    }
  }

  // ----- The processing order does not matter -----

  ghost predicate Ascending(keys: seq<TaskId>) {
    forall i, j :: 0 <= i < j < |keys| ==> keys[i] < keys[j]
  }

  lemma {:induction false} InsertKeyAscends(x: TaskId, keys: seq<TaskId>)
    requires Ascending(keys)
    ensures Ascending(InsertKey(x, keys))
    ensures forall k :: k in InsertKey(x, keys) <==> k == x || k in keys
  {
    if keys == [] || x <= keys[0] {
    } else {
      InsertKeyAscends(x, keys[1..]);
      var rest := InsertKey(x, keys[1..]);
      forall j | 0 <= j < |rest| ensures keys[0] < rest[j] {
        assert rest[j] in rest;
      }
    }
  }

  lemma {:induction false} KeysFacts(blocks: seq<Block>)
    ensures Ascending(Keys(blocks))
    ensures forall k :: k in Keys(blocks) <==> exists b :: b in blocks && b.task == k
  {
    if blocks == [] {
    } else {
      var init, last := blocks[..|blocks| - 1], blocks[|blocks| - 1];
      KeysFacts(init);
      InsertKeyAscends(last.task, Keys(init));
      assert blocks == init + [last];
      forall k ensures k in Keys(blocks) <==> exists b :: b in blocks && b.task == k {
        if b :| b in init && b.task == k { assert b in blocks; }
        assert last in blocks;
      }
    }
  }

  lemma {:induction false} LockSequenceCounts(previous: seq<Block>, keys: seq<TaskId>, b: Block)
    requires Ascending(keys)
    ensures multiset(LockSequence(previous, keys))[b] ==
      if b.task in keys && b.locked then multiset(previous)[b] else 0
  {
    if keys == [] {
    } else {
      LockSequenceCounts(previous, keys[1..], b);
      LockedCounts(Of(previous, keys[0]), b);
      OfCounts(previous, keys[0], b);
    }
  }

  /** The lock phase visits every locked previous block exactly once. */
  lemma LockSequenceComplete(previous: seq<Block>)
    ensures multiset(LockSequence(previous, Keys(previous))) == multiset(LockedOnly(previous))
  {
    KeysFacts(previous);
    var a, c := LockSequence(previous, Keys(previous)), LockedOnly(previous);
    forall b ensures multiset(a)[b] == multiset(c)[b] {
      LockSequenceCounts(previous, Keys(previous), b);
      LockedCounts(previous, b);
      if b in multiset(previous) { assert b in previous; }
    }
  }

  lemma SoundReordered(g: Grid, a: seq<Block>, b: seq<Block>)
    requires |g.avail| == g.size && multiset(a) == multiset(b) && Sound(g, a)
    ensures Sound(g, b)
  {
    SameMembers(a, b);
    DisjointReordered(a, b);
  }

  lemma LocksKnownHere(g: Grid)
    requires GridOK(g)
    ensures LocksKnown(g, Keys(g.previous))
  {
    KeysFacts(g.previous);
    forall id, b | id in Keys(g.previous) && b in LocksOf(g.previous, id) ensures b.task in g.pending {
      assert b in multiset(LocksOf(g.previous, id));
      LockedMembers(Of(g.previous, id));
      OfMembers(g.previous, id);
    }
  }

  /** The locked previous blocks, taken together, respect each owner's duration and divisibility. */
  ghost predicate LocksFit(g: Grid) {
    forall id :: id in g.pending ==> FitsDuration(g.pending[id], LockedOnly(Of(g.previous, id)))
  }

  lemma LocksFitIsDurationsFit(g: Grid)
    requires GridOK(g)
    ensures (forall id :: id in Keys(g.previous) ==> id in g.pending)
    ensures (DurationsFit(g, Keys(g.previous)) <==> LocksFit(g))
  {
    KeysFacts(g.previous);
    forall id | id in g.pending
      ensures !LockDurationConflict(g.pending[id], LocksOf(g.previous, id))
              <==> FitsDuration(g.pending[id], LockedOnly(Of(g.previous, id)))
    {
      TotalReordered(LocksOf(g.previous, id), LockedOnly(Of(g.previous, id)));
    }
    forall id | id in g.pending && id !in Keys(g.previous)
      ensures FitsDuration(g.pending[id], LockedOnly(Of(g.previous, id)))
    {
      OfNone(g.previous, id);
    }
  }

  /** The lock phase succeeds if and only if the locked blocks form a sound layout that fits
      every duration; it then holds exactly those blocks. */
  lemma LockPhaseExact(g: Grid)
    requires GridOK(g) && LocksKnown(g, Keys(g.previous))
    ensures ReserveLocks(g, Keys(g.previous), []).Success? <==> LocksFit(g) && Sound(g, LockedOnly(g.previous))
    ensures ReserveLocks(g, Keys(g.previous), []).Success? ==>
      multiset(ReserveLocks(g, Keys(g.previous), []).value) == multiset(LockedOnly(g.previous))
  {
    var all := LockSequence(g.previous, Keys(g.previous));
    ReserveLocksExact(g, Keys(g.previous), []);
    assert [] + all == all;
    LockSequenceComplete(g.previous);
    LocksFitIsDurationsFit(g);
    if Sound(g, all) { SoundReordered(g, all, LockedOnly(g.previous)); }
    if Sound(g, LockedOnly(g.previous)) { SoundReordered(g, LockedOnly(g.previous), all); }
  }
}
