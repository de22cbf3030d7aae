/** Entry points: build a preview, or inspect a hand-made layout with the same machinery. */
module PlannerRuns {
  import opened Wrappers
  import opened PlanningModels
  import opened Sorting
  import opened BlockLists
  import opened PlanningGrid
  import opened GridFacts
  import opened PlannerSpec
  import opened AllocatePhase
  import opened PlanNotes
  import opened Previews
  import opened PreviewTheorems
  import opened PlannerBuild
  import opened PlannerMachine

  /** Builds a planner, or says why the request cannot be planned. */
  method NewPlanner(w: PlanningWindow, previous: seq<Block>, tasks: seq<Task>, prefs: Preferences, zone: Zone, now: int,
                    searchBudget: int) returns (failure: Option<Code>, planner: Planner?)
    requires ValidInputs(w, previous, tasks, prefs)
    ensures failure == None <==> BuildGrid(w, previous, tasks, prefs, zone, now).Success?
    ensures failure.Some? ==> BuildGrid(w, previous, tasks, prefs, zone, now) == Failure(failure.value)
    ensures failure == None ==> planner != null && fresh(planner) && fresh(planner.available) && planner.Valid()
    ensures failure == None ==> BuildGrid(w, previous, tasks, prefs, zone, now) == Success(planner.grid)
    ensures failure == None ==> planner.Done() == Work([], [], searchBudget) && planner.evaluated == 0
  {
    hide ClipEvents, HorizonOf, Sort, Queue, DayRanges, Targets, PendingOnly, ById, PreviousOf, SnapshotMatches,
         LocalDays,
         PeriodsOf, PrefixSums, EarliestStarts, Covered, Declared, PartitionOf, ValidInputs, GridOK, WindowInside;
    planner := null;
    match HorizonOf(w.startDate, w.days, zone, now)
    case Failure(e) => return Some(e), null;
    case Success(h) =>
      if !SnapshotMatches(tasks, w.taskIds) { return Some(TaskSnapshotMismatch), null; }
      var floor := FloorIndex(h.start, h.size, now);
      var available, inside := PaintAvailability(w.availability, h.start, h.size, floor);
      if !inside { return Some(AvailabilityOutsideHorizon), null; }
      var clipped := ClearEvents(available, Sort(EventOrder(), w.events), h.start, h.size);
      match clipped {
        case Failure(e) => return Some(e), null;
        case Success(events) =>
          planner := Assemble(h, w, previous, tasks, prefs, zone, now, searchBudget, available, events);
      }
      failure := None;
  }

  /** The part of construction that cannot fail: day ranges, sums, targets and previous work. */
  method Assemble(h: Horizon, w: PlanningWindow, previous: seq<Block>, tasks: seq<Task>, prefs: Preferences,
                  zone: Zone, now: int,
                  searchBudget: int, available: array<bool>, events: seq<Interval>) returns (planner: Planner)
    requires ValidInputs(w, previous, tasks, prefs)
    requires BuildGrid(w, previous, tasks, prefs, zone, now)
             == Success(MakeGrid(h, w, previous, tasks, prefs, zone, now, events))
    requires available.Length == h.size
    requires forall i :: 0 <= i < h.size ==>
      available[i] == (FloorIndex(h.start, h.size, now) <= i && Declared(w.availability, h.start, i)
                       && !Covered(events, i))
    ensures fresh(planner) && planner.available == available && planner.Valid()
    ensures planner.grid == MakeGrid(h, w, previous, tasks, prefs, zone, now, events)
    ensures planner.Done() == Work([], [], searchBudget) && planner.evaluated == 0
  {
    hide ClipEvents, HorizonOf, Sort, Queue, DayRanges, Targets, PendingOnly, ById, PreviousOf, SnapshotMatches,
         LocalDays,
         PeriodsOf, PrefixSums, EarliestStarts, Covered, Declared, PartitionOf, ValidInputs, GridOK, BuildGrid;
    GridReady(w, previous, tasks, prefs, zone, now);
    var floor := FloorIndex(h.start, h.size, now);
    MaskIs(available[..], w.availability, events, h.start, h.size, floor);
    var days, morning, afternoon, evening := SplitDays(zone, h.start, h.size);
    DaysPartition(zone, h.start, h.size);
    var targets := DayTargets(available, days, prefs.workload);
    var pending := ById(PendingOnly(tasks));
    var mine, earliest := GroupPrevious(previous, pending, h.start);
    var g := Grid(h.start, h.size, floor, available[..], events, days, PeriodsOf(zone, h.start, h.size), targets, prefs,
                  Queue(tasks, h.start + h.size), pending, mine);
    assert g == MakeGrid(h, w, previous, tasks, prefs, zone, now, events);
    planner := new Planner(g, available, morning, afternoon, evening, earliest, searchBudget);
  }

  lemma GridReady(w: PlanningWindow, previous: seq<Block>, tasks: seq<Task>, prefs: Preferences, zone: Zone, now: int)
    requires ValidInputs(w, previous, tasks, prefs) && BuildGrid(w, previous, tasks, prefs, zone, now).Success?
    ensures GridOK(BuildGrid(w, previous, tasks, prefs, zone, now).value)
  {
    BuiltGridOK(w, previous, tasks, prefs, zone, now);
  }

  lemma MaskIs(mask: seq<bool>, windows: seq<Window>, events: seq<Interval>, start: int, size: nat, floor: nat)
    requires |mask| == size
    requires forall i :: 0 <= i < size ==> mask[i] == (floor <= i && Declared(windows, start, i) && !Covered(events, i))
    ensures mask == AvailableMask(windows, events, start, size, floor)
  {
    hide Declared, Covered;
  }

  lemma DaysPartition(zone: Zone, start: int, size: nat)
    ensures PartitionOf(DayRanges(LocalDays(zone, start, size), size), size)
  {
    DayRangesArePartition(LocalDays(zone, start, size), size);
  }

  /** What a successful preview reports beside its layout. */
  ghost function PreviewNotes(r: Request, tasks: seq<Task>, prefs: Preferences, zone: Zone, now: int,
                              budget: int): Notes
    requires ValidInputs(r.window, r.previous, tasks, prefs)
    requires BuildPreview(r, tasks, prefs, zone, now, budget).Success?
  {
    BuiltGridOK(r.window, r.previous, tasks, prefs, zone, now);
    var g := BuildGrid(r.window, r.previous, tasks, prefs, zone, now).value;
    NotesOf(g, PlanGrid(g, budget).value.blocks, r.window.events, tasks)
  }

  /** `build_preview`: keep, then place greedily, scoring at most `searchBudget` candidates. */
  method PlanPreview(r: Request, tasks: seq<Task>, prefs: Preferences, zone: Zone, now: int, searchBudget: int)
      returns (result: Result<(Preview, Notes), Code>, ghost evaluated: nat)
    requires ValidInputs(r.window, r.previous, tasks, prefs)
    ensures result.Failure? ==> BuildPreview(r, tasks, prefs, zone, now, searchBudget) == Failure(result.error)
    ensures result.Success? ==> BuildPreview(r, tasks, prefs, zone, now, searchBudget) == Success(result.value.0)
                                && result.value.1 == PreviewNotes(r, tasks, prefs, zone, now, searchBudget)
    ensures 0 <= searchBudget ==> evaluated <= searchBudget
  {
    hide BuildGrid, Preserve, AllocateAll, Sort, GridOK, ValidInputs, LocksKnown, MovableKnown, WarningsOf, NotPending,
         Versions;
    evaluated := 0;
    var failure, planner := NewPlanner(r.window, r.previous, tasks, prefs, zone, now, searchBudget);
    if failure.Some? { return Failure(failure.value), 0; }
    failure := planner.PreservePrevious();
    if failure.Some? { return Failure(failure.value), 0; }
    ghost var kept := planner.Done();
    planner.AllocatePending();
    BudgetKept(planner.grid, kept);
    evaluated := planner.evaluated;
    var warnings := planner.Warnings();
    var notes := Notes(Sort(EventOrder(), r.window.events), Sort(IdOrder(), NotPending(tasks)), Versions(tasks),
                       warnings);
    result := Success((Preview(planner.start, planner.start + planner.size, Sort(BlockOrder(), planner.blocks),
                               planner.unscheduled, planner.budget), notes));
  }

  lemma BudgetKept(g: Grid, w: Work)
    requires GridOK(g) && Plannable(g)
    ensures 0 <= w.budget ==> 0 <= AllocateAll(g, g.queue, w).budget
  {
    AllocateAllBudget(g, g.queue, w);
  }

  /** What an accepted layout reports beside its missing minutes. */
  ghost function InspectionNotes(w: PlanningWindow, blocks: seq<Block>, tasks: seq<Task>, prefs: Preferences,
                                 zone: Zone): Notes
    requires ValidInputs(w, blocks, tasks, prefs) && Inspect(w, blocks, tasks, prefs, zone).Success?
  {
    BuiltGridOK(w, LockAll(blocks), tasks, prefs, zone, HorizonInstant(w, zone));
    var g := BuildGrid(w, LockAll(blocks), tasks, prefs, zone, HorizonInstant(w, zone)).value;
    KnownHere(g);
    NotesOf(g, Preserve(g).value, w.events, tasks)
  }

  /** `inspect_layout`: every block is treated as a lock and the clock is the horizon's start. */
  method InspectLayout(w: PlanningWindow, blocks: seq<Block>, tasks: seq<Task>, prefs: Preferences, zone: Zone)
      returns (result: Result<(Inspection, Notes), Code>)
    requires ValidInputs(w, blocks, tasks, prefs)
    ensures result.Failure? ==> Inspect(w, blocks, tasks, prefs, zone) == Failure(result.error)
    ensures result.Success? ==> Inspect(w, blocks, tasks, prefs, zone) == Success(result.value.0)
                                && result.value.1 == InspectionNotes(w, blocks, tasks, prefs, zone)
  {
    hide BuildGrid, Preserve, Sort, GridOK, LocksKnown, MovableKnown, ReportMissing, AllPending, WarningsOf,
         NotPending, Versions;
    if !AllPending(blocks, tasks) { return Failure(InactiveTaskBlock); }
    var failure, planner := NewPlanner(w, LockAll(blocks), tasks, prefs, zone, HorizonInstant(w, zone), 0);
    if failure.Some? { return Failure(failure.value); }
    failure := planner.PreservePrevious();
    if failure.Some? { return Failure(InvalidScheduleLayout); }
    var missing := ReportOf(planner.queue, blocks);
    var warnings := planner.Warnings();
    var notes := Notes(Sort(EventOrder(), w.events), Sort(IdOrder(), NotPending(tasks)), Versions(tasks), warnings);
    result := Success((Inspection(planner.start, planner.start + planner.size, missing), notes));
  }

  method ReportOf(queue: seq<Task>, blocks: seq<Block>) returns (missing: seq<Unscheduled>)
    ensures missing == ReportMissing(queue, blocks)
  {
    hide Of, Total, ReportMissing;
    missing := [];
    assert queue[0..] == queue;
    for k := 0 to |queue|
      invariant missing + ReportMissing(queue[k..], blocks) == ReportMissing(queue, blocks)
    {
      ReportNext(queue, k, blocks);
      var used := Total(Of(blocks, queue[k].id));
      if used < queue[k].duration {
        missing := missing + [Unscheduled(queue[k].id, queue[k].duration - used, NotScheduled)];
      }
    }
    NothingToReport(blocks);
    assert queue[|queue|..] == [];
  }

  lemma NothingToReport(blocks: seq<Block>)
    ensures ReportMissing([], blocks) == []
  {
  }

  lemma ReportNext(queue: seq<Task>, k: nat, blocks: seq<Block>)
    requires k < |queue|
    ensures ReportMissing(queue[k..], blocks) ==
      (if Minutes(blocks, queue[k].id) < queue[k].duration
       then [Unscheduled(queue[k].id, queue[k].duration - Minutes(blocks, queue[k].id), NotScheduled)] else [])
      + ReportMissing(queue[k + 1..], blocks)
  {
    hide Minutes;
    assert queue[k..][0] == queue[k] && queue[k..][1..] == queue[k + 1..];
  }

  /** A preview warns about breaks exactly when two occupied intervals are closer than the preferred
      pause, and names exactly the tasks that are not pending, in order. */
  lemma PreviewNotesExact(r: Request, tasks: seq<Task>, prefs: Preferences, zone: Zone, now: int, budget: int)
    requires ValidInputs(r.window, r.previous, tasks, prefs)
    requires BuildPreview(r, tasks, prefs, zone, now, budget).Success?
    ensures var notes := PreviewNotes(r, tasks, prefs, zone, now, budget);
      var g := BuildGrid(r.window, r.previous, tasks, prefs, zone, now).value;
      && GridOK(g) && PlanGrid(g, budget).Success?
      && (BreakNotMet in notes.warnings <==>
            exists x, y :: x in Busy(g, PlanGrid(g, budget).value.blocks)
              && y in Busy(g, PlanGrid(g, budget).value.blocks)
                           && Tight(x, y, prefs.pause))
      && (forall id :: id in notes.ignored <==> exists t :: t in tasks && t.id == id && !t.status.Pending?)
      && Sorted(IdOrder(), notes.ignored)
  {
    hide Preserve, AllocateAll, LocksKnown, MovableKnown, Sort, WarningsOf, NotPending, Busy, GridOK, ValidInputs,
         BuildPreview;
    var h, events, g, w := PreviewParts(r, tasks, prefs, zone, now, budget);
    PlanLayout(g, budget);
    LayoutSound(g, w.blocks);
    BreakWarningExact(g, w.blocks);
    SortSorts(IdOrder(), NotPending(tasks));
    SameMembers(Sort(IdOrder(), NotPending(tasks)), NotPending(tasks));
    forall id ensures id in NotPending(tasks) <==> exists t :: t in tasks && t.id == id && !t.status.Pending? {
      NotPendingCounts(tasks, id);
    }
  }
}
