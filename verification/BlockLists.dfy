/** Sequences of blocks: filtering by task, total minutes, disjointness, and what reordering keeps. */
module BlockLists {
  import opened PlanningModels
  import opened Sorting

  /** The blocks of one task, in order. */
  function Of(blocks: seq<Block>, id: TaskId): seq<Block> {
    if blocks == [] then []
    else Of(blocks[..|blocks| - 1], id) + if blocks[|blocks| - 1].task == id then [blocks[|blocks| - 1]] else []
  }

  function Total(blocks: seq<Block>): int {
    if blocks == [] then 0
    else Total(blocks[..|blocks| - 1]) + blocks[|blocks| - 1].end - blocks[|blocks| - 1].start
  }

  function Minutes(blocks: seq<Block>, id: TaskId): int {
    Total(Of(blocks, id))
  }

  function LockedOnly(blocks: seq<Block>): seq<Block> {
    if blocks == [] then []
    else LockedOnly(blocks[..|blocks| - 1]) + if blocks[|blocks| - 1].locked then [blocks[|blocks| - 1]] else []
  }

  function MovableOnly(blocks: seq<Block>): seq<Block> {
    if blocks == [] then []
    else MovableOnly(blocks[..|blocks| - 1]) + if blocks[|blocks| - 1].locked then [] else [blocks[|blocks| - 1]]
  }

  predicate Apart(a: Block, b: Block) {
    a.end <= b.start || b.end <= a.start
  }

  predicate Disjoint(blocks: seq<Block>) {
    forall i, j :: 0 <= i < j < |blocks| ==> Apart(blocks[i], blocks[j])
  }

  predicate ApartFrom(a: seq<Block>, b: seq<Block>) {
    forall x, y :: x in a && y in b ==> Apart(x, y)
  }

  predicate StartsFirst(a: Block, b: Block) { a.start <= b.start }

  function ByStart(): (Block, Block) -> bool {
    (a: Block, b: Block) => StartsFirst(a, b)
  }

  // ----- Filters as multisets -----

  lemma {:induction false} OfCounts(blocks: seq<Block>, id: TaskId, b: Block)
    ensures multiset(Of(blocks, id))[b] == if b.task == id then multiset(blocks)[b] else 0
  {
    if blocks == [] {
    } else {
      var init, last := blocks[..|blocks| - 1], blocks[|blocks| - 1];
      assert blocks == init + [last];
      OfCounts(init, id, b);
    }
  }

  lemma {:induction false} LockedCounts(blocks: seq<Block>, b: Block)
    ensures multiset(LockedOnly(blocks))[b] == if b.locked then multiset(blocks)[b] else 0
  {
    if blocks == [] {
    } else {
      var init, last := blocks[..|blocks| - 1], blocks[|blocks| - 1];
      assert blocks == init + [last];
      LockedCounts(init, b);
    }
  }

  lemma {:induction false} MovableCounts(blocks: seq<Block>, b: Block)
    ensures multiset(MovableOnly(blocks))[b] == if b.locked then 0 else multiset(blocks)[b]
  {
    if blocks == [] {
    } else {
      var init, last := blocks[..|blocks| - 1], blocks[|blocks| - 1];
      assert blocks == init + [last];
      MovableCounts(init, b);
    }
  }

  lemma OfMembers(blocks: seq<Block>, id: TaskId)
    ensures forall b :: b in Of(blocks, id) <==> b in blocks && b.task == id
  {
    forall b ensures b in Of(blocks, id) <==> b in blocks && b.task == id {
      OfCounts(blocks, id, b);
      assert b in Of(blocks, id) <==> b in multiset(Of(blocks, id));
      assert b in blocks <==> b in multiset(blocks);
    }
  }

  lemma LockedMembers(blocks: seq<Block>)
    ensures forall b :: b in LockedOnly(blocks) <==> b in blocks && b.locked
  {
    forall b ensures b in LockedOnly(blocks) <==> b in blocks && b.locked {
      LockedCounts(blocks, b);
      assert b in LockedOnly(blocks) <==> b in multiset(LockedOnly(blocks));
      assert b in blocks <==> b in multiset(blocks);
    }
  }

  lemma MovableMembers(blocks: seq<Block>)
    ensures forall b :: b in MovableOnly(blocks) <==> b in blocks && !b.locked
  {
    forall b ensures b in MovableOnly(blocks) <==> b in blocks && !b.locked {
      MovableCounts(blocks, b);
      assert b in MovableOnly(blocks) <==> b in multiset(MovableOnly(blocks));
      assert b in blocks <==> b in multiset(blocks);
    }
  }

  lemma SplitByLock(blocks: seq<Block>)
    ensures multiset(LockedOnly(blocks)) + multiset(MovableOnly(blocks)) == multiset(blocks)
  {
    forall b ensures (multiset(LockedOnly(blocks)) + multiset(MovableOnly(blocks)))[b] == multiset(blocks)[b] {
      LockedCounts(blocks, b);
      MovableCounts(blocks, b);
    }
  }

  lemma {:induction false} OfConcat(a: seq<Block>, b: seq<Block>, id: TaskId)
    ensures Of(a + b, id) == Of(a, id) + Of(b, id)
  {
    if b == [] {
      assert a + b == a;
    } else {
      var init, last := b[..|b| - 1], b[|b| - 1];
      OfConcat(a, init, id);
      assert (a + b)[..|a + b| - 1] == a + init;
    }
  }

  lemma {:induction false} OfNone(blocks: seq<Block>, id: TaskId)
    requires forall b :: b in blocks ==> b.task != id
    ensures Of(blocks, id) == []
  {
    if blocks == [] {
    } else {
      OfNone(blocks[..|blocks| - 1], id);
    }
  }

  lemma {:induction false} OfAll(blocks: seq<Block>, id: TaskId)
    requires forall b :: b in blocks ==> b.task == id
    ensures Of(blocks, id) == blocks
  {
    if blocks == [] {
    } else {
      OfAll(blocks[..|blocks| - 1], id);
    }
  }

  lemma {:induction false} TotalConcat(a: seq<Block>, b: seq<Block>)
    ensures Total(a + b) == Total(a) + Total(b)
  {
    if b == [] {
      assert a + b == a;
    } else {
      TotalConcat(a, b[..|b| - 1]);
      assert (a + b)[..|a + b| - 1] == a + b[..|b| - 1];
    }
  }

  // ----- Reordering -----

  lemma RemovedTotal(s: seq<Block>, i: nat)
    requires i < |s|
    ensures Total(s) == Total(s[..i] + s[i + 1..]) + s[i].end - s[i].start
  {
    var a, b := s[..i], s[i + 1..];
    assert s[..i + 1] == a + [s[i]];
    assert s == s[..i + 1] + b;
    TotalConcat(s[..i + 1], b);
    TotalConcat(a, b);
    assert s[..i + 1][..i] == a;
  }

  lemma LastRemoved(s: seq<Block>)
    requires s != []
    ensures multiset(s[..|s| - 1]) == multiset(s) - multiset{s[|s| - 1]}
  {
    assert s == s[..|s| - 1] + [s[|s| - 1]];
  }

  lemma LastTotal(s: seq<Block>)
    requires s != []
    ensures Total(s) == Total(s[..|s| - 1]) + s[|s| - 1].end - s[|s| - 1].start
  {
  }

  lemma {:induction false} TotalReordered(a: seq<Block>, b: seq<Block>)
    requires multiset(a) == multiset(b)
    ensures Total(a) == Total(b)
    decreases |a|
  {
    assert |a| == |multiset(a)| == |multiset(b)| == |b|;
    if a == [] {
    } else {
      hide Total;
      var last := a[|a| - 1];
      assert last in multiset(b);
      var i :| 0 <= i < |b| && b[i] == last;
      RemovedMultiset(b, i);
      RemovedTotal(b, i);
      LastRemoved(a);
      LastTotal(a);
      TotalReordered(a[..|a| - 1], b[..i] + b[i + 1..]);
    }
  }

  lemma OfReordered(a: seq<Block>, b: seq<Block>, id: TaskId)
    requires multiset(a) == multiset(b)
    ensures multiset(Of(a, id)) == multiset(Of(b, id))
    ensures |Of(a, id)| == |Of(b, id)|
    ensures Minutes(a, id) == Minutes(b, id)
  {
    forall x ensures multiset(Of(a, id))[x] == multiset(Of(b, id))[x] {
      OfCounts(a, id, x);
      OfCounts(b, id, x);
    }
    assert multiset(Of(a, id)) == multiset(Of(b, id));
    assert |multiset(Of(a, id))| == |multiset(Of(b, id))|;
    TotalReordered(Of(a, id), Of(b, id));
  }

  lemma DisjointReordered(a: seq<Block>, b: seq<Block>)
    requires multiset(a) == multiset(b) && ValidBlocks(a) && Disjoint(a)
    ensures Disjoint(b)
  {
    forall i, j | 0 <= i < j < |b| ensures Apart(b[i], b[j]) {
      assert b[i] in multiset(a) && b[j] in multiset(a);
      if b[i] == b[j] {
        TwiceCounted(b, i, j);
        TwoPlaces(a, b[i]);
      } else {
        var k :| 0 <= k < |a| && a[k] == b[i];
        var l :| 0 <= l < |a| && a[l] == b[j];
        if k < l { assert Apart(a[k], a[l]); } else { assert Apart(a[l], a[k]); }
      }
    }
  }

  lemma DisjointConcat(a: seq<Block>, b: seq<Block>)
    ensures Disjoint(a + b) <==> Disjoint(a) && Disjoint(b) && ApartFrom(a, b)
  {
    if Disjoint(a + b) {
      forall i, j | 0 <= i < j < |a| ensures Apart(a[i], a[j]) { assert Apart((a + b)[i], (a + b)[j]); }
      forall i, j | 0 <= i < j < |b| ensures Apart(b[i], b[j]) {
        assert Apart((a + b)[|a| + i], (a + b)[|a| + j]);
      }
      forall x, y | x in a && y in b ensures Apart(x, y) {
        var i :| 0 <= i < |a| && a[i] == x;
        var j :| 0 <= j < |b| && b[j] == y;
        assert Apart((a + b)[i], (a + b)[|a| + j]);
      }
    }
  }
}
