/** The validator accepts exactly the exact layouts, agrees with the planner, and ignores order. */
module PlannerAgreement {
  import opened Wrappers
  import opened PlanningModels
  import opened Sorting
  import opened BlockLists
  import opened PlanningGrid
  import opened GridFacts
  import opened PlannerSpec
  import opened LockPhase
  import opened AllocatePhase
  import opened Previews
  import opened PreviewTheorems

  // ----- Locking every block changes nothing but the flag -----

  lemma LockAllInit(blocks: seq<Block>)
    requires blocks != []
    ensures var n := |blocks| - 1;
      LockAll(blocks)[..n] == LockAll(blocks[..n]) && LockAll(blocks)[n] == blocks[n].(locked := true)
  {
  }

  lemma {:induction false} OfLockAll(blocks: seq<Block>, id: TaskId)
    ensures Of(LockAll(blocks), id) == LockAll(Of(blocks, id))
  {
    if blocks == [] {
    } else {
      LockAllInit(blocks);
      OfLockAll(blocks[..|blocks| - 1], id);
    }
  }

  lemma {:induction false} TotalLockAll(blocks: seq<Block>)
    ensures Total(LockAll(blocks)) == Total(blocks)
  {
    if blocks == [] {
    } else {
      LockAllInit(blocks);
      TotalLockAll(blocks[..|blocks| - 1]);
    }
  }

  lemma {:induction false} LockedOnlyAll(blocks: seq<Block>)
    requires forall b :: b in blocks ==> b.locked
    ensures LockedOnly(blocks) == blocks
  {
    if blocks == [] {
    } else {
      var init, last := blocks[..|blocks| - 1], blocks[|blocks| - 1];
      LockedOnlyAll(init);
      assert last.locked && blocks == init + [last];
    }
  }

  lemma {:induction false} PreviousOfAll(blocks: seq<Block>, pending: map<TaskId, Task>)
    requires forall b :: b in blocks ==> b.task in pending
    ensures PreviousOf(blocks, pending) == blocks
  {
    if blocks == [] {
    } else {
      PreviousOfAll(blocks[..|blocks| - 1], pending);
    }
  }

  lemma SoundLockAll(g: Grid, blocks: seq<Block>)
    requires |g.avail| == g.size
    ensures Sound(g, LockAll(blocks)) <==> Sound(g, blocks)
  {
    var locked := LockAll(blocks);
    forall k | 0 <= k < |blocks| ensures Hard(g, locked[k]) <==> Hard(g, blocks[k]) {
    }
    forall i, j | 0 <= i < j < |blocks| ensures Apart(locked[i], locked[j]) <==> Apart(blocks[i], blocks[j]) {
    }
    if Sound(g, locked) {
      forall b | b in blocks ensures Hard(g, b) {
        var k :| 0 <= k < |blocks| && blocks[k] == b;
        assert locked[k] in locked;
      }
      forall i, j | 0 <= i < j < |blocks| ensures Apart(blocks[i], blocks[j]) {
        assert Apart(locked[i], locked[j]);
      }
    }
    if Sound(g, blocks) {
      forall b | b in locked ensures Hard(g, b) {
        var k :| 0 <= k < |locked| && locked[k] == b;
        assert blocks[k] in blocks;
      }
      forall i, j | 0 <= i < j < |blocks| ensures Apart(locked[i], locked[j]) {
        assert Apart(blocks[i], blocks[j]);
      }
    }
  }

  lemma LocksFitLockAll(g: Grid, blocks: seq<Block>)
    requires g.previous == LockAll(blocks)
    ensures LocksFit(g) <==> EachFits(g, blocks)
  {
    forall id | id in g.pending
      ensures FitsDuration(g.pending[id], LockedOnly(Of(g.previous, id)))
              <==> FitsDuration(g.pending[id], Of(blocks, id))
    {
      OfLockAll(blocks, id);
      LockedOnlyAll(LockAll(Of(blocks, id)));
      TotalLockAll(Of(blocks, id));
    }
  }

  /** With every block locked, preserving succeeds exactly on sound layouts that fit. */
  lemma PreserveLockAll(g: Grid, blocks: seq<Block>)
    requires GridOK(g) && g.previous == LockAll(blocks) && LocksKnown(g, Keys(g.previous)) && MovableKnown(g, g.queue)
    ensures Preserve(g).Success? <==> Sound(g, blocks) && EachFits(g, blocks)
  {
    LockPhaseExact(g);
    LockedOnlyAll(LockAll(blocks));
    SoundLockAll(g, blocks);
    LocksFitLockAll(g, blocks);
  }

  // ----- The validator -----

  /** The horizon is plannable from its own first instant, the tasks match the selection, and
      availability and events fit the horizon: what an inspection checks before any block. */
  ghost predicate WindowAccepted(w: PlanningWindow, tasks: seq<Task>, prefs: Preferences, zone: Zone) {
    BuildGrid(w, [], tasks, prefs, zone, HorizonInstant(w, zone)).Success?
  }

  lemma PreviousIrrelevant(w: PlanningWindow, a: seq<Block>, b: seq<Block>, tasks: seq<Task>, prefs: Preferences,
                           zone: Zone, now: int)
    ensures BuildGrid(w, a, tasks, prefs, zone, now).Success? <==> BuildGrid(w, b, tasks, prefs, zone, now).Success?
    ensures BuildGrid(w, a, tasks, prefs, zone, now).Failure? ==>
      BuildGrid(w, b, tasks, prefs, zone, now).error == BuildGrid(w, a, tasks, prefs, zone, now).error
  {
    hide MakeGrid;
  }

  lemma HorizonInstantStarts(w: PlanningWindow, zone: Zone, now: int, h: Horizon)
    requires HorizonOf(w.startDate, w.days, zone, now) == Success(h)
    ensures HorizonInstant(w, zone) == h.start * MINUTE
    ensures HorizonOf(w.startDate, w.days, zone, HorizonInstant(w, zone)) == Success(h)
  {
  }

  lemma PendingAll(blocks: seq<Block>, tasks: seq<Task>)
    requires DistinctIds(tasks) && AllPending(blocks, tasks)
    ensures forall b :: b in blocks ==> b.task in ById(PendingOnly(tasks))
  {
    forall b | b in blocks ensures b.task in ById(PendingOnly(tasks)) {
      PendingLookup(tasks, b.task);
    }
  }

  lemma OwnedArePending(w: PlanningWindow, start: int, end: int, tasks: seq<Task>, blocks: seq<Block>)
    requires ExactLayout(w, start, end, tasks, blocks)
    ensures AllPending(blocks, tasks)
  {
    forall b | b in blocks ensures exists t :: t in tasks && t.id == b.task && t.status.Pending? {
      var t :| t in tasks && OwnedBy(w, start, end, t, b);
    }
  }

  /** The grid an inspection builds. */
  lemma InspectionGrid(w: PlanningWindow, blocks: seq<Block>, tasks: seq<Task>, prefs: Preferences, zone: Zone)
      returns (h: Horizon, events: seq<Interval>, g: Grid)
    requires ValidInputs(w, blocks, tasks, prefs) && AllPending(blocks, tasks)
    requires BuildGrid(w, LockAll(blocks), tasks, prefs, zone, HorizonInstant(w, zone)).Success?
    ensures HorizonOf(w.startDate, w.days, zone, HorizonInstant(w, zone)) == Success(h)
    ensures HorizonInstant(w, zone) == h.start * MINUTE
    ensures DistinctIds(tasks)
    ensures ClipEvents(Sort(EventOrder(), w.events), h.start, h.size) == Success(events)
    ensures g == MakeGrid(h, w, LockAll(blocks), tasks, prefs, zone, HorizonInstant(w, zone), events)
    ensures BuildGrid(w, LockAll(blocks), tasks, prefs, zone, HorizonInstant(w, zone)) == Success(g)
    ensures GridOK(g) && g.previous == LockAll(blocks) && g.start == h.start && g.size == h.size
    ensures g.queue == Queue(tasks, h.start + h.size)
    ensures LocksKnown(g, Keys(g.previous)) && MovableKnown(g, g.queue)
  {
    h, events := BuiltGridShape(w, LockAll(blocks), tasks, prefs, zone, HorizonInstant(w, zone));
    BuiltGridOK(w, LockAll(blocks), tasks, prefs, zone, HorizonInstant(w, zone));
    HorizonInstantStarts(w, zone, HorizonInstant(w, zone), h);
    g := MakeGrid(h, w, LockAll(blocks), tasks, prefs, zone, HorizonInstant(w, zone), events);
    PendingAll(blocks, tasks);
    PreviousOfAll(LockAll(blocks), g.pending);
    KnownHere(g);
  }

  lemma LayoutDecides(h: Horizon, w: PlanningWindow, blocks: seq<Block>, tasks: seq<Task>, prefs: Preferences,
                      zone: Zone, events: seq<Interval>, g: Grid)
    requires DistinctIds(tasks) && HorizonInstant(w, zone) == h.start * MINUTE
    requires ClipEvents(Sort(EventOrder(), w.events), h.start, h.size) == Success(events)
    requires g == MakeGrid(h, w, LockAll(blocks), tasks, prefs, zone, HorizonInstant(w, zone), events)
    ensures (Sound(g, blocks) <==> ExactLayout(w, h.start, h.start + h.size, tasks, blocks))
    ensures (EachFits(g, blocks) <==> ExactTotals(tasks, blocks))
  {
    hide MakeGrid, EachFits, ExactTotals;
    SoundIsExact(h, w, LockAll(blocks), tasks, prefs, zone, HorizonInstant(w, zone), events, blocks);
    FitsIsExact(h, w, LockAll(blocks), tasks, prefs, zone, HorizonInstant(w, zone), events, blocks);
    if ExactLayout(w, h.start, h.start + h.size, tasks, blocks) {
      forall b | b in blocks ensures h.start * MINUTE <= b.start * MINUTE {
        var t :| t in tasks && OwnedBy(w, h.start, h.start + h.size, t, b);
      }
    }
  }

  /** What an accepted layout is: exact, within totals, and reported by its shortfalls. */
  ghost predicate Accepted(h: Horizon, w: PlanningWindow, blocks: seq<Block>, tasks: seq<Task>, i: Inspection) {
    && i.start == h.start && i.end == h.start + h.size
    && ExactLayout(w, i.start, i.end, tasks, blocks)
    && ExactTotals(tasks, blocks)
    && i.missing == ReportMissing(Queue(tasks, i.end), blocks)
  }

  lemma InspectOnGrid(w: PlanningWindow, blocks: seq<Block>, tasks: seq<Task>, prefs: Preferences, zone: Zone, g: Grid)
    requires ValidInputs(w, blocks, tasks, prefs) && AllPending(blocks, tasks)
    requires BuildGrid(w, LockAll(blocks), tasks, prefs, zone, HorizonInstant(w, zone)) == Success(g)
    requires GridOK(g) && LocksKnown(g, Keys(g.previous)) && MovableKnown(g, g.queue)
    ensures Inspect(w, blocks, tasks, prefs, zone) ==
      if Preserve(g).Success? then Success(Inspection(g.start, g.start + g.size, ReportMissing(g.queue, blocks)))
      else Failure(InvalidScheduleLayout)
  {
    hide BuildGrid, Preserve, GridOK, ReportMissing, LocksKnown, MovableKnown;
  }

  ghost function WindowHorizon(w: PlanningWindow, tasks: seq<Task>, prefs: Preferences, zone: Zone): Horizon
    requires WindowAccepted(w, tasks, prefs, zone)
  {
    HorizonOf(w.startDate, w.days, zone, HorizonInstant(w, zone)).value
  }

  /** `inspect_layout` is sound and complete: with an accepted window it succeeds if and only if
      the layout meets every hard constraint exactly and every duration. */
  lemma InspectExact(w: PlanningWindow, blocks: seq<Block>, tasks: seq<Task>, prefs: Preferences, zone: Zone)
    requires ValidInputs(w, blocks, tasks, prefs) && WindowAccepted(w, tasks, prefs, zone)
    ensures var h := WindowHorizon(w, tasks, prefs, zone);
      var r := Inspect(w, blocks, tasks, prefs, zone);
      && (r.Success? <==> ExactLayout(w, h.start, h.start + h.size, tasks, blocks) && ExactTotals(tasks, blocks))
      && (r.Success? ==> Accepted(h, w, blocks, tasks, r.value))
      && (r.Failure? ==> r.error == if AllPending(blocks, tasks) then InvalidScheduleLayout else InactiveTaskBlock)
  {
    hide BuildGrid, ExactLayout, ExactTotals, AllPending, Accepted, ValidInputs, Preserve, ReportMissing;
    PreviousIrrelevant(w, [], LockAll(blocks), tasks, prefs, zone, HorizonInstant(w, zone));
    if AllPending(blocks, tasks) {
      var h := InspectPending(w, blocks, tasks, prefs, zone);
    } else {
      var h := WindowHorizon(w, tasks, prefs, zone);
      if ExactLayout(w, h.start, h.start + h.size, tasks, blocks) {
        OwnedArePending(w, h.start, h.start + h.size, tasks, blocks);
      }
    }
  }

  /** A refused window is reported before any block is judged. */
  lemma InspectRefusesWindow(w: PlanningWindow, blocks: seq<Block>, tasks: seq<Task>, prefs: Preferences, zone: Zone)
    requires ValidInputs(w, blocks, tasks, prefs) && AllPending(blocks, tasks) && !WindowAccepted(w, tasks, prefs, zone)
    ensures Inspect(w, blocks, tasks, prefs, zone) ==
      Failure(BuildGrid(w, [], tasks, prefs, zone, HorizonInstant(w, zone)).error)
  {
    hide BuildGrid;
    PreviousIrrelevant(w, [], LockAll(blocks), tasks, prefs, zone, HorizonInstant(w, zone));
  }

  lemma ExactBoth(w: PlanningWindow, start: int, end: int, tasks: seq<Task>, a: seq<Block>, b: seq<Block>)
    requires multiset(a) == multiset(b)
    ensures ExactLayout(w, start, end, tasks, a) && ExactTotals(tasks, a)
            <==> ExactLayout(w, start, end, tasks, b) && ExactTotals(tasks, b)
  {
    hide *;
    if ExactLayout(w, start, end, tasks, a) && ExactTotals(tasks, a) {
      ExactReordered(w, start, end, tasks, a, b);
      TotalsReordered(tasks, a, b);
    }
    if ExactLayout(w, start, end, tasks, b) && ExactTotals(tasks, b) {
      ExactReordered(w, start, end, tasks, b, a);
      TotalsReordered(tasks, b, a);
    }
  }

  lemma InspectPending(w: PlanningWindow, blocks: seq<Block>, tasks: seq<Task>, prefs: Preferences, zone: Zone)
      returns (h: Horizon)
    requires ValidInputs(w, blocks, tasks, prefs) && AllPending(blocks, tasks)
    requires BuildGrid(w, LockAll(blocks), tasks, prefs, zone, HorizonInstant(w, zone)).Success?
    ensures HorizonOf(w.startDate, w.days, zone, HorizonInstant(w, zone)) == Success(h)
    ensures Inspect(w, blocks, tasks, prefs, zone).Success? <==>
      ExactLayout(w, h.start, h.start + h.size, tasks, blocks) && ExactTotals(tasks, blocks)
    ensures Inspect(w, blocks, tasks, prefs, zone).Success? ==>
      Accepted(h, w, blocks, tasks, Inspect(w, blocks, tasks, prefs, zone).value)
    ensures Inspect(w, blocks, tasks, prefs, zone).Failure? ==>
      Inspect(w, blocks, tasks, prefs, zone).error == InvalidScheduleLayout
  {
    hide BuildGrid, MakeGrid, Preserve, GridOK, ReportMissing, ExactLayout, ExactTotals, EachFits, Sound, Inspect,
         ValidInputs, AllPending, Queue, LocksKnown, MovableKnown, HorizonOf, ClipEvents;
    var events, g;
    h, events, g := InspectionGrid(w, blocks, tasks, prefs, zone);
    LayoutDecides(h, w, blocks, tasks, prefs, zone, events, g);
    PreserveLockAll(g, blocks);
    InspectOnGrid(w, blocks, tasks, prefs, zone, g);
  }

  // ----- Agreement -----

  lemma {:induction false} ShortfallsConcat(a: seq<Unscheduled>, b: seq<Unscheduled>)
    ensures Shortfalls(a + b) == Shortfalls(a) + Shortfalls(b)
  {
    if b == [] {
      assert a + b == a;
    } else {
      ShortfallsConcat(a, b[..|b| - 1]);
      assert (a + b)[..|a + b| - 1] == a + b[..|b| - 1];
    }
  }

  lemma {:induction false} MissingReported(queue: seq<Task>, blocks: seq<Block>)
    ensures Accounts(ReportMissing(queue, blocks), queue, blocks)
  {
    if queue == [] {
    } else {
      var t := queue[0];
      var first := if Minutes(blocks, t.id) < t.duration
                   then [Unscheduled(t.id, t.duration - Minutes(blocks, t.id), NotScheduled)] else [];
      MissingReported(queue[1..], blocks);
      ShortfallsConcat(first, ReportMissing(queue[1..], blocks));
      if first != [] { assert first[..0] == []; }
    }
  }

  lemma GoodPreviewValid(r: Request, tasks: seq<Task>, prefs: Preferences, now: int, p: Preview)
    requires ValidInputs(r.window, r.previous, tasks, prefs) && GoodPreview(r.window, tasks, now, p)
    ensures ValidInputs(r.window, p.blocks, tasks, prefs)
    ensures ExactLayout(r.window, p.start, p.end, tasks, p.blocks) && ExactTotals(tasks, p.blocks)
    ensures Accounts(p.unscheduled, Queue(tasks, p.end), p.blocks)
  {
    forall b | b in p.blocks ensures b.start < b.end {
      var t :| t in tasks && OwnedBy(r.window, p.start, p.end, t, b);
    }
  }

  lemma SameReports(h: Horizon, w: PlanningWindow, tasks: seq<Task>, p: Preview, i: Inspection)
    requires Accepted(h, w, p.blocks, tasks, i) && p.end == h.start + h.size
    requires Accounts(p.unscheduled, Queue(tasks, p.end), p.blocks)
    ensures i.start == h.start && i.end == p.end && Shortfalls(i.missing) == Shortfalls(p.unscheduled)
  {
    hide Shortfalls, Missing, ReportMissing, Queue, ExactLayout, ExactTotals;
    MissingReported(Queue(tasks, p.end), p.blocks);
  }

  lemma WindowAcceptedLater(w: PlanningWindow, previous: seq<Block>, tasks: seq<Task>, prefs: Preferences, zone: Zone,
                            now: int)
    requires BuildGrid(w, previous, tasks, prefs, zone, now).Success?
    ensures WindowAccepted(w, tasks, prefs, zone)
    ensures HorizonOf(w.startDate, w.days, zone, now) == Success(WindowHorizon(w, tasks, prefs, zone))
  {
    hide MakeGrid;
    HorizonInstantStarts(w, zone, now, HorizonOf(w.startDate, w.days, zone, now).value);
  }

  /** Planner and validator agree: every preview is an accepted layout over the same horizon, and
      both report the same tasks with the same missing minutes in the same order. */
  lemma PlannerMeetsValidator(r: Request, tasks: seq<Task>, prefs: Preferences, zone: Zone, now: int, budget: int)
    requires ValidInputs(r.window, r.previous, tasks, prefs)
    requires BuildPreview(r, tasks, prefs, zone, now, budget).Success?
    ensures var p := BuildPreview(r, tasks, prefs, zone, now, budget).value;
      && ValidInputs(r.window, p.blocks, tasks, prefs)
      && Inspect(r.window, p.blocks, tasks, prefs, zone).Success?
      && Inspect(r.window, p.blocks, tasks, prefs, zone).value.start == p.start
      && Inspect(r.window, p.blocks, tasks, prefs, zone).value.end == p.end
      && Shortfalls(Inspect(r.window, p.blocks, tasks, prefs, zone).value.missing) == Shortfalls(p.unscheduled)
  {
    hide *;
    var p := BuildPreview(r, tasks, prefs, zone, now, budget).value;
    PreviewSound(r, tasks, prefs, zone, now, budget);
    var h, events, g, done := PreviewParts(r, tasks, prefs, zone, now, budget);
    GoodPreviewValid(r, tasks, prefs, now, p);
    WindowAcceptedLater(r.window, r.previous, tasks, prefs, zone, now);
    InspectExact(r.window, p.blocks, tasks, prefs, zone);
    SameReports(h, r.window, tasks, p, Inspect(r.window, p.blocks, tasks, prefs, zone).value);
  }
}
