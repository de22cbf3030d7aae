/** What a preview and an inspection report beside the layout: sorted events, ignored tasks, task
    versions and warnings about soft preferences. */
module PlanNotes {
  import opened PlanningModels
  import opened Sorting
  import opened BlockLists
  import opened PlanningGrid
  import opened GridFacts
  import opened PlannerSpec
  import opened PlaceFacts
  import opened LockPhase

  datatype Warning = BreakNotMet | WorkloadNotMet | FocusExceeded

  datatype Notes = Notes(events: seq<Event>, ignored: seq<TaskId>, versions: map<TaskId, int>, warnings: seq<Warning>)

  // ----- Tasks -----

  function NotPending(tasks: seq<Task>): seq<TaskId> {
    if tasks == [] then []
    else NotPending(tasks[..|tasks| - 1]) + if tasks[|tasks| - 1].status.Pending? then [] else [tasks[|tasks| - 1].id]
  }

  function IdOrder(): (TaskId, TaskId) -> bool {
    (a: TaskId, b: TaskId) => a <= b
  }

  function Versions(tasks: seq<Task>): map<TaskId, int> {
    map id | id in ById(tasks) :: ById(tasks)[id].version
  }

  lemma {:induction false} NotPendingCounts(tasks: seq<Task>, id: TaskId)
    ensures id in NotPending(tasks) <==> exists t :: t in tasks && t.id == id && !t.status.Pending?
  {
    if tasks == [] {
    } else {
      var init, last := tasks[..|tasks| - 1], tasks[|tasks| - 1];
      assert tasks == init + [last];
      NotPendingCounts(init, id);
    }
  }

  // ----- Warnings -----

  predicate IntervalFirst(a: Interval, b: Interval) { a.lo < b.lo || (a.lo == b.lo && a.hi <= b.hi) }

  function IntervalOrder(): (Interval, Interval) -> bool {
    (a: Interval, b: Interval) => IntervalFirst(a, b)
  }

  predicate Tight(a: Interval, b: Interval, pause: nat) { 0 <= b.lo - a.hi < pause }

  /** Some interval follows its predecessor after less than the pause. */
  predicate TightNeighbours(sorted: seq<Interval>, pause: nat) {
    exists k :: 0 <= k < |sorted| - 1 && Tight(sorted[k], sorted[k + 1], pause)
  }

  predicate OverTarget(used: seq<nat>, targets: seq<nat>)
    requires |used| == |targets|
  {
    exists k :: 0 <= k < |used| && used[k] > targets[k]
  }

  /** A placed task that may not be split is longer than the focus length. */
  predicate OverFocus(g: Grid, blocks: seq<Block>) {
    exists b :: b in blocks && LongWhole(g, b)
  }

  predicate LongWhole(g: Grid, b: Block) {
    b.task in g.pending && !g.pending[b.task].splittable && g.pending[b.task].duration > g.prefs.focus
  }

  function WarningsOf(g: Grid, blocks: seq<Block>): seq<Warning>
    requires |g.targets| == |g.days|
  {
    var chronological := Sort(IntervalOrder(), Busy(g, blocks));
    (if g.prefs.pause > 0 && TightNeighbours(chronological, g.prefs.pause) then [BreakNotMet] else [])
    + (if OverTarget(Usage(g.days, Indices(g, blocks)), g.targets) then [WorkloadNotMet] else [])
    + (if OverFocus(g, blocks) then [FocusExceeded] else [])
  }

  function NotesOf(g: Grid, blocks: seq<Block>, events: seq<Event>, tasks: seq<Task>): Notes
    requires |g.targets| == |g.days|
  {
    Notes(Sort(EventOrder(), events), Sort(IdOrder(), NotPending(tasks)), Versions(tasks), WarningsOf(g, blocks))
  }

  // ----- What the break warning means -----

  /** Nonempty and pairwise disjoint. */
  ghost predicate Spread(xs: seq<Interval>) {
    (forall x :: x in xs ==> x.lo < x.hi) && AllSeparate(xs)
  }

  lemma SpreadReordered(a: seq<Interval>, b: seq<Interval>)
    requires Spread(a) && multiset(a) == multiset(b)
    ensures Spread(b)
  {
    SameMembers(a, b);
    forall i, j | 0 <= i < j < |b| ensures Separate(b[i], b[j]) {
      forall k, l | 0 <= k < l < |a| ensures a[k] != a[l] {
        assert a[k] in a && Separate(a[k], a[l]);
      }
      CountedOnce(a, b[j]);
      OnceApart(b, i, j);
      assert b[i] in a && b[j] in a;
      var k :| 0 <= k < |a| && a[k] == b[i];
      var l :| 0 <= l < |a| && a[l] == b[j];
      assert k < l || l < k;
    }
  }

  /** On a sound layout the occupied intervals are spread. */
  lemma BusySpread(g: Grid, blocks: seq<Block>)
    requires GridOK(g) && Sound(g, blocks)
    ensures Spread(Busy(g, blocks))
  {
    IndicesAre(g, blocks);
    var n, busy := |g.events|, Busy(g, blocks);
    forall x | x in busy ensures x.lo < x.hi {
      var k :| 0 <= k < |busy| && busy[k] == x;
      if k >= n { assert blocks[k - n] in blocks; }
    }
    forall i, j | 0 <= i < j < |busy| ensures Separate(busy[i], busy[j]) {
      if i >= n {
        assert Apart(blocks[i - n], blocks[j - n]);
      } else if j >= n {
        BlockMissesEvent(g, blocks[j - n], i);
      }
    }
  }

  lemma BlockMissesEvent(g: Grid, b: Block, k: nat)
    requires GridOK(g) && Hard(g, b) && k < |g.events|
    ensures Separate(g.events[k], IndexOf(g, b))
  {
    var x, y := g.events[k], IndexOf(g, b);
    var meet := Max(x.lo, y.lo);
    assert x in g.events;
    if meet < y.hi {
      assert g.avail[meet] && !Covered(g.events, meet);
      assert !InInterval(x, meet);
    }
  }

  lemma IntervalOrderTotal()
    ensures TotalOrder(IntervalOrder())
  {
  }

  /** In order, spread intervals follow one another. */
  lemma SpreadInOrder(sorted: seq<Interval>, i: nat, j: nat)
    requires Spread(sorted) && Sorted(IntervalOrder(), sorted) && i < j < |sorted|
    ensures sorted[i].hi <= sorted[j].lo
  {
    assert sorted[i] in sorted && sorted[j] in sorted;
    assert IntervalOrder()(sorted[i], sorted[j]) && Separate(sorted[i], sorted[j]);
  }

  lemma NeighboursArePair(sorted: seq<Interval>, pause: nat) returns (k: nat)
    requires TightNeighbours(sorted, pause)
    ensures k + 1 < |sorted| && sorted[k] in sorted && sorted[k + 1] in sorted && Tight(sorted[k], sorted[k + 1], pause)
  {
    hide Tight;
    k :| 0 <= k < |sorted| - 1 && Tight(sorted[k], sorted[k + 1], pause);
  }

  /** In a sorted spread list some neighbours are tight exactly when some two intervals are. */
  lemma TightExact(sorted: seq<Interval>, pause: nat)
    requires Spread(sorted) && Sorted(IntervalOrder(), sorted)
    ensures TightNeighbours(sorted, pause) <==> exists x, y :: x in sorted && y in sorted && Tight(x, y, pause)
  {
    hide *;
    if TightNeighbours(sorted, pause) { var k := NeighboursArePair(sorted, pause); }
    if x, y :| x in sorted && y in sorted && Tight(x, y, pause) { NeighbourTight(sorted, x, y, pause); }
  }

  lemma BreakWarned(g: Grid, blocks: seq<Block>)
    requires |g.targets| == |g.days|
    ensures BreakNotMet in WarningsOf(g, blocks) <==>
      TightNeighbours(Sort(IntervalOrder(), Busy(g, blocks)), g.prefs.pause)
  {
    hide Busy, Sort, OverTarget, OverFocus, Usage, Indices;
  }

  /** Comparing neighbours in order finds a short break exactly when some two occupied intervals,
      events or blocks, are closer than the pause. */
  lemma BreakWarningExact(g: Grid, blocks: seq<Block>)
    requires GridOK(g) && Sound(g, blocks)
    ensures BreakNotMet in WarningsOf(g, blocks) <==>
      exists x, y :: x in Busy(g, blocks) && y in Busy(g, blocks) && Tight(x, y, g.prefs.pause)
  {
    BusySpread(g, blocks);
    BreakWarned(g, blocks);
    hide *;
    var busy := Busy(g, blocks);
    var sorted := Sort(IntervalOrder(), busy);
    IntervalOrderTotal();
    SortSorts(IntervalOrder(), busy);
    SpreadReordered(busy, sorted);
    SameMembers(busy, sorted);
    TightExact(sorted, g.prefs.pause);
  }

  lemma NeighbourTight(sorted: seq<Interval>, x: Interval, y: Interval, pause: nat)
    requires Spread(sorted) && Sorted(IntervalOrder(), sorted) && x in sorted && y in sorted && Tight(x, y, pause)
    ensures TightNeighbours(sorted, pause)
  {
    var i :| 0 <= i < |sorted| && sorted[i] == x;
    var j :| 0 <= j < |sorted| && sorted[j] == y;
    if j < i { SpreadInOrder(sorted, j, i); }
    assert i < j;
    SpreadInOrder(sorted, i, i + 1);
    if i + 1 < j { assert IntervalOrder()(sorted[i + 1], sorted[j]); }
    assert Tight(sorted[i], sorted[i + 1], pause);
  }
}
