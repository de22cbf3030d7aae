/** Greedy allocation keeps layouts sound, conserves minutes and rolls failures back. */
module AllocatePhase {
  import opened PlanningModels
  import opened Sorting
  import opened BlockLists
  import opened PlanningGrid
  import opened GridFacts
  import opened PlannerSpec
  import opened PlaceFacts
  import opened LockPhase

  ghost predicate EachFits(g: Grid, blocks: seq<Block>) {
    forall id :: id in g.pending ==> FitsDuration(g.pending[id], Of(blocks, id))
  }

  /** What holds before and after every task of the queue. */
  ghost predicate LayoutOK(g: Grid, blocks: seq<Block>)
    requires |g.avail| == g.size
  {
    Sound(g, blocks) && EachFits(g, blocks) && |blocks| <= MAX_BLOCKS
  }

  // ----- Pieces as blocks -----

  lemma {:induction false} BlocksForMembers(g: Grid, t: Task, pieces: seq<Interval>)
    ensures forall k :: 0 <= k < |pieces| ==> BlocksFor(g, t, pieces)[k] == BlockFor(g, t, pieces[k])
  {
    if pieces == [] {
    } else {
      BlocksForMembers(g, t, pieces[..|pieces| - 1]);
    }
  }

  lemma {:induction false} LengthsAppend(xs: seq<Interval>, x: Interval)
    ensures Lengths(xs + [x]) == Lengths(xs) + x.hi - x.lo
  {
    if xs == [] {
    } else {
      assert (xs + [x])[1..] == xs[1..] + [x];
      LengthsAppend(xs[1..], x);
    }
  }

  lemma {:induction false} BlocksForTotal(g: Grid, t: Task, pieces: seq<Interval>)
    ensures Total(BlocksFor(g, t, pieces)) == Lengths(pieces)
  {
    if pieces == [] {
    } else {
      var init, last := pieces[..|pieces| - 1], pieces[|pieces| - 1];
      BlocksForTotal(g, t, init);
      LengthsAppend(init, last);
      assert init + [last] == pieces;
      assert BlocksFor(g, t, pieces)[..|pieces| - 1] == BlocksFor(g, t, init);
    }
  }

  lemma PieceIsHard(g: Grid, t: Task, blocks: seq<Block>, p: Interval)
    requires MaskOK(g) && ValidBlocks(blocks) && t.id in g.pending && g.pending[t.id] == t
    requires PieceFits(g, t, Busy(g, blocks), p)
    ensures Hard(g, BlockFor(g, t, p)) && forall x :: x in blocks ==> Apart(x, BlockFor(g, t, p))
  {
    ValidAgainst(g, blocks, BlockFor(g, t, p));
  }

  lemma PiecesSound(g: Grid, t: Task, blocks: seq<Block>, pieces: seq<Interval>)
    requires MaskOK(g) && Sound(g, blocks) && t.id in g.pending && g.pending[t.id] == t
    requires AllSeparate(pieces) && forall p :: p in pieces ==> PieceFits(g, t, Busy(g, blocks), p)
    ensures Sound(g, blocks + BlocksFor(g, t, pieces))
  {
    var added := BlocksFor(g, t, pieces);
    BlocksForMembers(g, t, pieces);
    forall k | 0 <= k < |added| ensures Hard(g, added[k]) && forall x :: x in blocks ==> Apart(x, added[k]) {
      assert pieces[k] in pieces;
      PieceIsHard(g, t, blocks, pieces[k]);
    }
    forall i, j | 0 <= i < j < |added| ensures Apart(added[i], added[j]) {
      assert Separate(pieces[i], pieces[j]);
    }
    DisjointConcat(blocks, added);
  }

  // ----- One task -----

  lemma BlocksForOwner(g: Grid, t: Task, pieces: seq<Interval>, blocks: seq<Block>)
    ensures Of(blocks + BlocksFor(g, t, pieces), t.id) == Of(blocks, t.id) + BlocksFor(g, t, pieces)
    ensures forall id :: id != t.id ==> Of(blocks + BlocksFor(g, t, pieces), id) == Of(blocks, id)
  {
    var added := BlocksFor(g, t, pieces);
    BlocksForMembers(g, t, pieces);
    forall b | b in added ensures b.task == t.id {
      var k :| 0 <= k < |added| && added[k] == b;
    }
    OfAll(added, t.id);
    OfConcat(blocks, added, t.id);
    forall id | id != t.id ensures Of(blocks + added, id) == Of(blocks, id) {
      OfNone(added, id);
      OfConcat(blocks, added, id);
    }
  }

  /** The pieces found for a task that still misses minutes. */
  ghost predicate Succeeds(g: Grid, t: Task, w: Work)
    requires Plannable(g)
  {
    Minutes(w.blocks, t.id) < t.duration
    && Place(g, t, t.duration - Minutes(w.blocks, t.id), Busy(g, w.blocks), Indices(g, w.blocks), w.budget).Placed?
  }

  ghost function PiecesOf(g: Grid, t: Task, w: Work): seq<Interval>
    requires Plannable(g) && Succeeds(g, t, w)
  {
    Place(g, t, t.duration - Minutes(w.blocks, t.id), Busy(g, w.blocks), Indices(g, w.blocks), w.budget).pieces
  }

  lemma SuccessCompletes(g: Grid, t: Task, w: Work)
    requires Searchable(g) && Succeeds(g, t, w)
    ensures Allocate(g, t, w).blocks == w.blocks + BlocksFor(g, t, PiecesOf(g, t, w))
    ensures Allocate(g, t, w).unscheduled == w.unscheduled
    ensures Minutes(Allocate(g, t, w).blocks, t.id) == t.duration
  {
    hide Place, Busy, Indices, Of, BlocksFor, Lengths, Total, PieceFits, AllSeparate;
    var remaining := t.duration - Minutes(w.blocks, t.id);
    var pieces := PiecesOf(g, t, w);
    PlacedPiecesFit(g, t, remaining, Busy(g, w.blocks), Indices(g, w.blocks), w.budget);
    BlocksForOwner(g, t, pieces, w.blocks);
    BlocksForTotal(g, t, pieces);
    TotalConcat(Of(w.blocks, t.id), BlocksFor(g, t, pieces));
  }

  lemma FailureReports(g: Grid, t: Task, w: Work)
    requires Plannable(g) && !Succeeds(g, t, w) && Minutes(w.blocks, t.id) < t.duration
    ensures var after := Allocate(g, t, w);
      && after.blocks == w.blocks
      && |after.unscheduled| == |w.unscheduled| + 1
      && after.unscheduled[..|w.unscheduled|] == w.unscheduled
      && after.unscheduled[|w.unscheduled|].task == t.id
      && after.unscheduled[|w.unscheduled|].remaining == t.duration - Minutes(w.blocks, t.id)
  {
  }

  /** All-or-nothing: a success completes the task with new unlocked pieces; any other outcome
      leaves every block where it was and reports the missing minutes. */
  lemma AllocateOutcome(g: Grid, t: Task, w: Work)
    requires Searchable(g) && Minutes(w.blocks, t.id) <= t.duration
    ensures var after := Allocate(g, t, w);
      if Minutes(w.blocks, t.id) == t.duration then after == w
      else if Succeeds(g, t, w)
      then after.blocks == w.blocks + BlocksFor(g, t, PiecesOf(g, t, w))
           && after.unscheduled == w.unscheduled
           && Minutes(after.blocks, t.id) == t.duration
      else after.blocks == w.blocks
           && |after.unscheduled| == |w.unscheduled| + 1
           && after.unscheduled[..|w.unscheduled|] == w.unscheduled
           && after.unscheduled[|w.unscheduled|].task == t.id
           && after.unscheduled[|w.unscheduled|].remaining == t.duration - Minutes(w.blocks, t.id)
  {
    if Succeeds(g, t, w) {
      SuccessCompletes(g, t, w);
    } else if Minutes(w.blocks, t.id) < t.duration {
      FailureReports(g, t, w);
    }
  }

  lemma SuccessFits(g: Grid, t: Task, w: Work)
    requires Searchable(g) && Succeeds(g, t, w) && FitsDuration(t, Of(w.blocks, t.id))
    ensures FitsDuration(t, Of(Allocate(g, t, w).blocks, t.id))
  {
    hide Allocate, Place, Of, Total, BlocksFor, Busy, Indices;
    AllocateOutcome(g, t, w);
    BlocksForOwner(g, t, PiecesOf(g, t, w), w.blocks);
    PlacedPiecesShape(g, t, t.duration - Minutes(w.blocks, t.id), Busy(g, w.blocks), Indices(g, w.blocks), w.budget);
  }

  lemma SuccessSound(g: Grid, t: Task, w: Work)
    requires MaskOK(g) && Searchable(g) && Succeeds(g, t, w) && Sound(g, w.blocks) && |w.blocks| <= MAX_BLOCKS
    requires t.id in g.pending && g.pending[t.id] == t
    ensures Sound(g, Allocate(g, t, w).blocks) && |Allocate(g, t, w).blocks| <= MAX_BLOCKS
  {
    hide Place, Of, Total, Lengths, PieceFits;
    var remaining := t.duration - Minutes(w.blocks, t.id);
    PlacedPiecesFit(g, t, remaining, Busy(g, w.blocks), Indices(g, w.blocks), w.budget);
    PlacedPiecesCap(g, t, remaining, Busy(g, w.blocks), Indices(g, w.blocks), w.budget);
    PiecesSound(g, t, w.blocks, PiecesOf(g, t, w));
  }

  lemma SuccessEachFits(g: Grid, t: Task, w: Work)
    requires Searchable(g) && Succeeds(g, t, w) && EachFits(g, w.blocks)
    requires t.id in g.pending && g.pending[t.id] == t
    ensures EachFits(g, Allocate(g, t, w).blocks)
  {
    SuccessFits(g, t, w);
    forall id | id in g.pending ensures FitsDuration(g.pending[id], Of(Allocate(g, t, w).blocks, id)) {
      if id != t.id { AllocateOthers(g, t, w, id); }
    }
  }

  lemma FailureKeepsBlocks(g: Grid, t: Task, w: Work)
    requires Plannable(g) && !Succeeds(g, t, w)
    ensures Allocate(g, t, w).blocks == w.blocks
  {
  }

  lemma AllocateKeepsLayout(g: Grid, t: Task, w: Work)
    requires MaskOK(g) && Searchable(g) && LayoutOK(g, w.blocks) && t.id in g.pending && g.pending[t.id] == t
    ensures LayoutOK(g, Allocate(g, t, w).blocks)
  {
    if Succeeds(g, t, w) {
      SuccessSound(g, t, w);
      SuccessEachFits(g, t, w);
    } else {
      FailureKeepsBlocks(g, t, w);
    }
  }

  /** Allocating one task never touches the blocks of another. */
  lemma AllocateOthers(g: Grid, t: Task, w: Work, id: TaskId)
    requires Plannable(g) && id != t.id
    ensures Of(Allocate(g, t, w).blocks, id) == Of(w.blocks, id)
  {
    if Succeeds(g, t, w) { BlocksForOwner(g, t, PiecesOf(g, t, w), w.blocks); }
  }

  /** Blocks already placed stay, in place and in order. */
  lemma AllocateExtends(g: Grid, t: Task, w: Work)
    requires Plannable(g)
    ensures w.blocks <= Allocate(g, t, w).blocks && w.unscheduled <= Allocate(g, t, w).unscheduled
  {
  }

  // ----- The whole queue -----

  ghost predicate QueueKnown(g: Grid, queue: seq<Task>) {
    DistinctIds(queue) && forall t :: t in queue ==> t.id in g.pending && g.pending[t.id] == t
  }

  lemma {:induction false} AllocateAllKeepsLayout(g: Grid, queue: seq<Task>, w: Work)
    requires MaskOK(g) && Searchable(g) && QueueKnown(g, queue) && LayoutOK(g, w.blocks)
    ensures LayoutOK(g, AllocateAll(g, queue, w).blocks)
    decreases |queue|
  {
    if queue == [] {
    } else {
      AllocateKeepsLayout(g, queue[0], w);
      AllocateAllKeepsLayout(g, queue[1..], Allocate(g, queue[0], w));
    }
  }

  lemma {:induction false} AllocateAllOthers(g: Grid, queue: seq<Task>, w: Work, id: TaskId)
    requires Plannable(g) && forall t :: t in queue ==> t.id != id
    ensures Of(AllocateAll(g, queue, w).blocks, id) == Of(w.blocks, id)
    decreases |queue|
  {
    if queue == [] {
    } else {
      AllocateOthers(g, queue[0], w, id);
      AllocateAllOthers(g, queue[1..], Allocate(g, queue[0], w), id);
    }
  }

  lemma {:induction false} AllocateAllExtends(g: Grid, queue: seq<Task>, w: Work)
    requires Plannable(g)
    ensures w.blocks <= AllocateAll(g, queue, w).blocks && w.unscheduled <= AllocateAll(g, queue, w).unscheduled
    decreases |queue|
  {
    if queue == [] {
    } else {
      AllocateExtends(g, queue[0], w);
      AllocateAllExtends(g, queue[1..], Allocate(g, queue[0], w));
    }
  }

  /** A task's blocks are settled at its turn. */
  lemma SettledAtTurn(g: Grid, queue: seq<Task>, w: Work)
    requires Plannable(g) && queue != [] && DistinctIds(queue)
    ensures Of(AllocateAll(g, queue, w).blocks, queue[0].id) == Of(Allocate(g, queue[0], w).blocks, queue[0].id)
  {
    AllocateAllOthers(g, queue[1..], Allocate(g, queue[0], w), queue[0].id);
  }

  lemma AllocateBudget(g: Grid, t: Task, w: Work)
    requires Searchable(g)
    ensures Allocate(g, t, w).budget <= w.budget
    ensures 0 <= w.budget ==> 0 <= Allocate(g, t, w).budget
  {
    hide Place, Busy, Indices, Minutes, FailureReason;
    if Minutes(w.blocks, t.id) < t.duration {
      PlaceBudget(g, t, t.duration - Minutes(w.blocks, t.id), Busy(g, w.blocks), Indices(g, w.blocks), w.budget);
    }
  }

  /** The budget pays for every candidate evaluation and is never overdrawn. */
  lemma {:induction false} AllocateAllBudget(g: Grid, queue: seq<Task>, w: Work)
    requires Searchable(g)
    ensures AllocateAll(g, queue, w).budget <= w.budget
    ensures 0 <= w.budget ==> 0 <= AllocateAll(g, queue, w).budget
    decreases |queue|
  {
    if queue == [] {
    } else {
      hide Allocate;
      AllocateBudget(g, queue[0], w);
      AllocateAllBudget(g, queue[1..], Allocate(g, queue[0], w));
    }
  }

  // ----- Conservation -----

  /** Tasks of the queue whose blocks fall short of their duration, with the missing minutes. */
  function Missing(queue: seq<Task>, blocks: seq<Block>): seq<(TaskId, int)> {
    if queue == [] then [] else MissingOf(queue[0], blocks) + Missing(queue[1..], blocks)
  }

  function MissingOf(t: Task, blocks: seq<Block>): seq<(TaskId, int)> {
    if Minutes(blocks, t.id) < t.duration then [(t.id, t.duration - Minutes(blocks, t.id))] else []
  }

  function Shortfalls(entries: seq<Unscheduled>): seq<(TaskId, int)> {
    if entries == [] then []
    else Shortfalls(entries[..|entries| - 1]) + [(entries[|entries| - 1].task, entries[|entries| - 1].remaining)]
  }

  /** The report names exactly the tasks that fall short, in queue order, with their missing minutes. */
  ghost predicate Accounts(entries: seq<Unscheduled>, queue: seq<Task>, blocks: seq<Block>) {
    Shortfalls(entries) == Missing(queue, blocks)
  }

  lemma ReportStep(g: Grid, t: Task, w: Work)
    requires Searchable(g) && Minutes(w.blocks, t.id) <= t.duration
    ensures Shortfalls(Allocate(g, t, w).unscheduled) ==
      Shortfalls(w.unscheduled) + MissingOf(t, Allocate(g, t, w).blocks)
  {
    AllocateOutcome(g, t, w);
    hide Allocate, Minutes, Succeeds;
  }

  lemma MissingFirst(queue: seq<Task>, now: seq<Block>, later: seq<Block>)
    requires queue != [] && Of(later, queue[0].id) == Of(now, queue[0].id)
    ensures Missing(queue, later) == MissingOf(queue[0], now) + Missing(queue[1..], later)
  {
    hide Of, Total;
  }

  lemma MissingStep(g: Grid, queue: seq<Task>, w: Work)
    requires Plannable(g) && queue != [] && DistinctIds(queue)
    ensures var final := AllocateAll(g, queue, w);
      Missing(queue, final.blocks)
        == MissingOf(queue[0], Allocate(g, queue[0], w).blocks) + Missing(queue[1..], final.blocks)
  {
    hide *;
    SettledAtTurn(g, queue, w);
    MissingFirst(queue, Allocate(g, queue[0], w).blocks, AllocateAll(g, queue, w).blocks);
  }

  lemma LayoutSound(g: Grid, blocks: seq<Block>)
    requires |g.avail| == g.size && LayoutOK(g, blocks)
    ensures Sound(g, blocks)
  {
  }

  lemma FitsBounds(g: Grid, t: Task, blocks: seq<Block>)
    requires |g.avail| == g.size && LayoutOK(g, blocks) && t.id in g.pending && g.pending[t.id] == t
    ensures Minutes(blocks, t.id) <= t.duration
  {
  }

  /** Each pending task's placed and reported minutes add up to its duration: the report lists
      exactly the shortfalls of the final layout, in queue order. */
  lemma {:induction false} ReportIsShortfall(g: Grid, queue: seq<Task>, w: Work)
    requires MaskOK(g) && Searchable(g) && QueueKnown(g, queue) && LayoutOK(g, w.blocks)
    ensures Shortfalls(AllocateAll(g, queue, w).unscheduled)
            == Shortfalls(w.unscheduled) + Missing(queue, AllocateAll(g, queue, w).blocks)
    decreases |queue|
  {
    if queue == [] {
    } else {
      var t, after := queue[0], Allocate(g, queue[0], w);
      FitsBounds(g, t, w.blocks);
      AllocateKeepsLayout(g, t, w);
      ReportIsShortfall(g, queue[1..], after);
      assert AllocateAll(g, queue, w) == AllocateAll(g, queue[1..], after);
      hide *;
      ReportStep(g, t, w);
      MissingStep(g, queue, w);
      Regroup(Shortfalls(w.unscheduled), MissingOf(t, after.blocks),
              Missing(queue[1..], AllocateAll(g, queue, w).blocks));
    }
  }
}
