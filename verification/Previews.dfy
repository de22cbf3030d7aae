/** Building a preview and inspecting a hand-made layout, with what each promises. */
module Previews {
  import opened Wrappers
  import opened PlanningModels
  import opened Sorting
  import opened BlockLists
  import opened PlanningGrid
  import opened GridFacts
  import opened PlannerSpec
  import opened LockPhase
  import opened KeepPhase
  import opened AllocatePhase

  datatype Preview = Preview(start: int, end: int, blocks: seq<Block>, unscheduled: seq<Unscheduled>, budget: int)

  datatype Inspection = Inspection(start: int, end: int, missing: seq<Unscheduled>)

  predicate BlockFirst(a: Block, b: Block) {
    a.start < b.start || (a.start == b.start && a.task <= b.task)
  }

  function BlockOrder(): (Block, Block) -> bool {
    (a: Block, b: Block) => BlockFirst(a, b)
  }

  predicate ValidInputs(w: PlanningWindow, previous: seq<Block>, tasks: seq<Task>, prefs: Preferences) {
    ValidWindow(w) && ValidBlocks(previous) && |previous| <= MAX_BLOCKS && ValidTasks(tasks) && ValidPreferences(prefs)
  }

  lemma KnownHere(g: Grid)
    requires GridOK(g)
    ensures LocksKnown(g, Keys(g.previous)) && MovableKnown(g, g.queue)
  {
    LocksKnownHere(g);
    MovableKnownHere(g);
  }

  ghost function PlanGrid(g: Grid, budget: int): Result<Work, Code>
    requires GridOK(g)
  {
    KnownHere(g);
    match Preserve(g)
    case Failure(e) => Failure(e)
    case Success(blocks) => Success(AllocateAll(g, g.queue, Work(blocks, [], budget)))
  }

  ghost function BuildPreview(r: Request, tasks: seq<Task>, prefs: Preferences, zone: Zone, now: int, budget: int)
      : Result<Preview, Code>
    requires ValidInputs(r.window, r.previous, tasks, prefs)
  {
    match BuildGrid(r.window, r.previous, tasks, prefs, zone, now)
    case Failure(e) => Failure(e)
    case Success(g) =>
      BuiltGridOK(r.window, r.previous, tasks, prefs, zone, now);
      match PlanGrid(g, budget)
      case Failure(e) => Failure(e)
      case Success(w) =>
        Success(Preview(g.start, g.start + g.size, Sort(BlockOrder(), w.blocks), w.unscheduled, w.budget))
  }

  // ----- Inspection -----

  function LockAll(blocks: seq<Block>): (r: seq<Block>)
    ensures |r| == |blocks|
    ensures forall k :: 0 <= k < |r| ==> r[k] == blocks[k].(locked := true)
  {
    seq(|blocks|, k requires 0 <= k < |blocks| => blocks[k].(locked := true))
  }

  function ReportMissing(queue: seq<Task>, blocks: seq<Block>): seq<Unscheduled> {
    if queue == [] then []
    else (if Minutes(blocks, queue[0].id) < queue[0].duration
          then [Unscheduled(queue[0].id, queue[0].duration - Minutes(blocks, queue[0].id), NotScheduled)] else [])
         + ReportMissing(queue[1..], blocks)
  }

  predicate AllPending(blocks: seq<Block>, tasks: seq<Task>) {
    forall b :: b in blocks ==> exists t :: t in tasks && t.id == b.task && t.status.Pending?
  }

  /** The horizon's first instant, used as the clock so that historical placements stay valid. */
  function HorizonInstant(w: PlanningWindow, zone: Zone): int { zone.midnight(w.startDate) * SECOND }

  function Inspect(w: PlanningWindow, blocks: seq<Block>, tasks: seq<Task>, prefs: Preferences, zone: Zone)
      : Result<Inspection, Code>
    requires ValidInputs(w, blocks, tasks, prefs)
  {
    if !AllPending(blocks, tasks) then Failure(InactiveTaskBlock)
    else
      match BuildGrid(w, LockAll(blocks), tasks, prefs, zone, HorizonInstant(w, zone))
      case Failure(e) => Failure(e)
      case Success(g) =>
        BuiltGridOK(w, LockAll(blocks), tasks, prefs, zone, HorizonInstant(w, zone));
        KnownHere(g);
        match Preserve(g)
        case Failure(e) => Failure(InvalidScheduleLayout)
        case Success(kept) => Success(Inspection(g.start, g.start + g.size, ReportMissing(g.queue, blocks)))
  }

  // ----- The kept layout -----

  lemma LocksHeld(g: Grid, locks: seq<Block>, id: TaskId)
    requires multiset(locks) == multiset(LockedOnly(g.previous))
    ensures multiset(Of(locks, id)) == multiset(LockedOnly(Of(g.previous, id)))
  {
    forall b ensures multiset(Of(locks, id))[b] == multiset(LockedOnly(Of(g.previous, id)))[b] {
      OfCounts(locks, id, b);
      LockedCounts(g.previous, b);
      LockedCounts(Of(g.previous, id), b);
      OfCounts(g.previous, id, b);
    }
  }

  lemma HeldFits(g: Grid, t: Task, blocks: seq<Block>)
    requires HoldsAllOrLocks(g, t, blocks) && FitsDuration(t, LockedOnly(Of(g.previous, t.id)))
    ensures FitsDuration(t, Of(blocks, t.id))
  {
    var mine, previous := Of(blocks, t.id), Of(g.previous, t.id);
    if multiset(mine) == multiset(LockedOnly(previous)) {
      TotalReordered(mine, LockedOnly(previous));
      assert |multiset(mine)| == |multiset(LockedOnly(previous))|;
    } else {
      TotalReordered(mine, previous);
      assert |multiset(mine)| == |multiset(previous)|;
    }
  }

  lemma HeldCount(g: Grid, t: Task, blocks: seq<Block>, b: Block)
    requires HoldsAllOrLocks(g, t, blocks) && b.task == t.id
    ensures multiset(blocks)[b] <= multiset(g.previous)[b]
  {
    OfCounts(blocks, t.id, b);
    OfCounts(g.previous, t.id, b);
    LockedCounts(Of(g.previous, t.id), b);
  }

  lemma SubsetSize(a: multiset<Block>, b: multiset<Block>)
    requires a <= b
    ensures |a| <= |b|
  {
    assert b == a + (b - a);
  }

  lemma PreserveHolds(g: Grid, t: Task)
    requires GridOK(g) && LocksKnown(g, Keys(g.previous)) && MovableKnown(g, g.queue) && Preserve(g).Success?
    requires t in g.queue
    ensures HoldsAllOrLocks(g, t, Preserve(g).value)
  {
    LockPhaseExact(g);
    var locks := ReserveLocks(g, Keys(g.previous), []).value;
    LocksHeld(g, locks, t.id);
    var k :| 0 <= k < |g.queue| && g.queue[k] == t;
    KeepMovableHolds(g, g.queue, locks, k);
  }

  lemma PreserveSound(g: Grid)
    requires GridOK(g) && LocksKnown(g, Keys(g.previous)) && MovableKnown(g, g.queue) && Preserve(g).Success?
    ensures Sound(g, Preserve(g).value) && LocksFit(g)
  {
    LockPhaseExact(g);
    var locks := ReserveLocks(g, Keys(g.previous), []).value;
    SoundReordered(g, LockedOnly(g.previous), locks);
    KeepMovableSound(g, g.queue, locks);
  }

  /** Whatever is kept is a sound layout that fits every duration. */
  lemma PreserveLayout(g: Grid)
    requires GridOK(g) && LocksKnown(g, Keys(g.previous)) && MovableKnown(g, g.queue) && Preserve(g).Success?
    ensures LayoutOK(g, Preserve(g).value)
  {
    var blocks := Preserve(g).value;
    PreserveSound(g);
    forall id | id in g.pending ensures FitsDuration(g.pending[id], Of(blocks, id)) {
      PreserveHolds(g, g.pending[id]);
      HeldFits(g, g.pending[id], blocks);
    }
    forall b ensures multiset(blocks)[b] <= multiset(g.previous)[b] {
      if b in multiset(blocks) {
        assert b in blocks && Hard(g, b);
        PreserveHolds(g, g.pending[b.task]);
        HeldCount(g, g.pending[b.task], blocks, b);
      }
    }
    SubsetSize(multiset(blocks), multiset(g.previous));
  }

  lemma PlanLayout(g: Grid, budget: int)
    requires GridOK(g) && PlanGrid(g, budget).Success?
    ensures LayoutOK(g, PlanGrid(g, budget).value.blocks)
    ensures Accounts(PlanGrid(g, budget).value.unscheduled, g.queue, PlanGrid(g, budget).value.blocks)
  {
    KnownHere(g);
    PreserveLayout(g);
    var start := Work(Preserve(g).value, [], budget);
    AllocateAllKeepsLayout(g, g.queue, start);
    ReportIsShortfall(g, g.queue, start);
  }
}
