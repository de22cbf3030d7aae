/** Exactly when a creation and a replacement commit, what they store, and which refusal comes first:
    said in instants, source versions and blocks. */
module CommitConditions {
  import opened Wrappers
  import opened PlanningModels
  import opened BlockLists
  import opened PlanningGrid
  import opened GridFacts
  import opened RequestTheorems
  import opened Previews
  import opened PreviewTheorems
  import opened AllocatePhase
  import opened PlannerAgreement
  import opened ScheduleModels
  import opened ScheduleSteps
  import opened ScheduleCommits
  import opened ScheduleInvariants
  import opened ScheduleTheorems
  import opened UndoRedo

  // ----- Sources -----

  /** The preferences and every recorded task are stored, live and at the recorded version. */
  ghost predicate SourcesLive(db: Db, d: Draft) {
    && db.prefs.version == d.preferenceVersion
    && forall t :: t in d.taskVersions ==>
         t in db.tasks && !db.tasks[t].deleted && db.tasks[t].task.version == d.taskVersions[t]
  }

  lemma SourcesExact(db: Db, d: Draft)
    ensures SourcesLive(db, d) <==> Fresh(db, d)
  {
  }

  // ----- Placements -----

  /** A block of the same task at the same time, locked or not. */
  ghost predicate Placed(blocks: seq<Block>, b: Block) {
    exists x :: x in blocks && x.task == b.task && x.start == b.start && x.end == b.end
  }

  lemma PlacedExact(blocks: seq<Block>, b: Block)
    ensures HasKey(blocks, b) <==> Placed(blocks, b)
  {
    if Placed(blocks, b) {
      var x :| x in blocks && x.task == b.task && x.start == b.start && x.end == b.end;
      assert SameKey(x, b);
    }
  }

  /** A locked or started block of a task that is live and pending. */
  predicate MustStay(db: Db, b: Block, now: int) {
    && b.task in db.tasks && !db.tasks[b.task].deleted && db.tasks[b.task].task.status.Pending?
    && (b.locked || b.start * MINUTE < now)
  }

  ghost predicate KeepsProtected(db: Db, before: seq<Block>, blocks: seq<Block>, now: int) {
    forall b :: b in before && MustStay(db, b, now) ==> Placed(blocks, b)
  }

  /** Only blocks that were there start before the clock. */
  ghost predicate AddsNoPast(before: seq<Block>, blocks: seq<Block>, now: int) {
    forall b :: b in blocks && b.start * MINUTE < now ==> Placed(before, b)
  }

  lemma {:induction false} DisturbedExact(db: Db, before: seq<Block>, blocks: seq<Block>, now: int)
    ensures Disturbed(db, before, blocks, now) == None <==> KeepsProtected(db, before, blocks, now)
  {
    if before == [] {
    } else {
      hide Placed, HasKey;
      DisturbedExact(db, before[1..], blocks, now);
      PlacedExact(blocks, before[0]);
      assert before == [before[0]] + before[1..];
    }
  }

  /** The first block that should have stayed names the refusal. */
  lemma {:induction false} DisturbedFirst(db: Db, before: seq<Block>, blocks: seq<Block>, now: int) returns (k: nat)
    requires Disturbed(db, before, blocks, now).Some?
    ensures k < |before| && MustStay(db, before[k], now) && !Placed(blocks, before[k])
    ensures KeepsProtected(db, before[..k], blocks, now)
    ensures Disturbed(db, before, blocks, now).value ==
      if before[k].locked then MovesLockedBlock else MovesStartedBlock
  {
    hide Placed, HasKey;
    PlacedExact(blocks, before[0]);
    if MustStay(db, before[0], now) && !Placed(blocks, before[0]) {
      k := 0;
    } else {
      var l := DisturbedFirst(db, before[1..], blocks, now);
      k := l + 1;
      assert before[..k] == [before[0]] + before[1..][..l];
    }
  }

  /** The placement check passes exactly when protected work stays and no added block is in the past. */
  lemma PlacementExact(db: Db, before: seq<Block>, blocks: seq<Block>, now: int)
    ensures PlacementError(db, before, blocks, now) == None <==>
      KeepsProtected(db, before, blocks, now) && AddsNoPast(before, blocks, now)
  {
    hide Placed, HasKey, Disturbed, KeepsProtected;
    DisturbedExact(db, before, blocks, now);
    forall b ensures HasKey(before, b) <==> Placed(before, b) { PlacedExact(before, b); }
  }

  // ----- Time in other schedules -----

  /** One of the tasks has a block in the current revision of another schedule. */
  ghost predicate TimeElsewhere(db: Db, id: ScheduleId, blocks: seq<Block>) {
    exists other, b, x :: other != id && b in blocks && x in Blocks(db, other) && x.task == b.task
  }

  lemma GivesTimeExact(db: Db, id: ScheduleId, t: TaskId)
    ensures GivesTime(db, id, t) <==> exists x :: x in Blocks(db, id) && x.task == t
  {
    if x :| x in Blocks(db, id) && x.task == t { assert x.task in BlockTasks(Blocks(db, id)); }
  }

  /** The allocation table refuses exactly the tasks that have time elsewhere. */
  lemma ElsewhereExact(db: Db, id: ScheduleId, blocks: seq<Block>)
    requires Inv(db)
    ensures AllocationConflict(db.allocations, id, BlockTasks(blocks)) <==> TimeElsewhere(db, id, blocks)
  {
    hide DbReady, ScheduleOK, HorizonsApart, ReceiptsExact, GivesTime;
    if AllocationConflict(db.allocations, id, BlockTasks(blocks)) {
      var t :| t in BlockTasks(blocks) && t in db.allocations && db.allocations[t] != id;
      var b :| b in blocks && b.task == t;
      GivesTimeExact(db, db.allocations[t], t);
      var x :| x in Blocks(db, db.allocations[t]) && x.task == t;
      assert TimeElsewhere(db, id, blocks);
    }
    if TimeElsewhere(db, id, blocks) {
      var other, b, x :| other != id && b in blocks && x in Blocks(db, other) && x.task == b.task;
      GivesTimeExact(db, other, b.task);
      assert b.task in BlockTasks(blocks);
    }
  }

  // ----- Layout -----

  /** The live tasks a draft selects. */
  ghost predicate SelectedRows(db: Db, ids: seq<TaskId>, tasks: seq<Task>) {
    |tasks| == |ids| && forall i :: 0 <= i < |ids| ==> ids[i] in db.tasks && tasks[i] == db.tasks[ids[i]].task
  }

  /** Windows and events lie inside the horizon, no two events meet, and the blocks are an exact layout of
      the selected tasks within their durations. */
  ghost predicate LayoutHolds(tasks: seq<Task>, c: Content, h: Horizon) {
    && (forall a :: a in c.window.availability ==> h.start <= a.start && a.end <= h.start + h.size)
    && (forall e :: e in c.window.events ==> h.start <= e.start && e.end <= h.start + h.size)
    && (forall i, j :: 0 <= i < j < |c.window.events| ==>
          c.window.events[i].end <= c.window.events[j].start || c.window.events[j].end <= c.window.events[i].start)
    && ExactLayout(c.window, h.start, h.start + h.size, tasks, c.blocks)
    && ExactTotals(tasks, c.blocks)
  }

  /** The draft's dates form the horizon and its content holds in it. */
  ghost predicate ContentHolds(db: Db, zone: Zone, d: Draft, h: Horizon) {
    && IsHorizon(d.content.window.startDate, d.content.window.days, zone, h)
    && exists tasks :: SelectedRows(db, d.content.window.taskIds, tasks) && LayoutHolds(tasks, d.content, h)
  }

  lemma SelectedAre(db: Db, ids: seq<TaskId>)
    requires forall id :: id in ids ==> id in db.tasks
    ensures forall tasks :: SelectedRows(db, ids, tasks) <==> tasks == Selected(db, ids)
  {
    forall tasks ensures SelectedRows(db, ids, tasks) <==> tasks == Selected(db, ids) {
      if SelectedRows(db, ids, tasks) {
        forall i | 0 <= i < |ids| ensures tasks[i] == Selected(db, ids)[i] { }
      }
    }
  }

  lemma SelectedHeld(db: Db, ids: seq<TaskId>)
    requires ValidRows(db.tasks) && forall id :: id in ids ==> id in db.tasks
    requires forall i, j :: 0 <= i < j < |ids| ==> ids[i] != ids[j]
    ensures HoldsSelected(Selected(db, ids), ids)
  {
    var tasks := Selected(db, ids);
    forall i | 0 <= i < |ids| ensures tasks[i].id == ids[i] { }
    forall id | id in ids ensures exists t :: t in tasks && t.id == id {
      var i :| 0 <= i < |ids| && ids[i] == id;
      assert tasks[i] in tasks;
    }
  }

  /** Events inside the horizon are clear of one another exactly when no two meet. */
  lemma InsideEvents(h: Horizon, events: seq<Event>)
    requires forall e :: e in events ==> e.start < e.end && h.start <= e.start && e.end <= h.start + h.size
    ensures EventsClear(h, events) <==>
      forall i, j :: 0 <= i < j < |events| ==> events[i].end <= events[j].start || events[j].end <= events[i].start
  {
    forall e | e in events ensures Visible(h, e) {
      assert InHorizonMinute(h, e.start) && AtMinute(e, e.start);
    }
    forall i, j | 0 <= i < j < |events|
      ensures Collide(h, events[i], events[j]) <==>
        !(events[i].end <= events[j].start || events[j].end <= events[i].start)
    {
      var m := Max(events[i].start, events[j].start);
      assert events[i] in events && events[j] in events;
      if !(events[i].end <= events[j].start || events[j].end <= events[i].start) {
        assert InHorizonMinute(h, m) && AtMinute(events[i], m) && AtMinute(events[j], m);
      }
    }
  }

  /** An inspection begins when its horizon, windows and events are accepted. */
  lemma AcceptedExact(w: PlanningWindow, tasks: seq<Task>, prefs: Preferences, zone: Zone)
    ensures WindowAccepted(w, tasks, prefs, zone) <==>
      exists h :: IsHorizon(w.startDate, w.days, zone, h) && RequestFits(w, tasks, h)
    ensures WindowAccepted(w, tasks, prefs, zone) ==>
      IsHorizon(w.startDate, w.days, zone, WindowHorizon(w, tasks, prefs, zone))
      && RequestFits(w, tasks, WindowHorizon(w, tasks, prefs, zone))
  {
    hide BuildGrid, HorizonOf, RequestFits;
    RequestExact(w, [], tasks, prefs, zone, HorizonInstant(w, zone));
    if WindowAccepted(w, tasks, prefs, zone) {
      var h := WindowHorizon(w, tasks, prefs, zone);
      AcceptedHorizon(w, tasks, prefs, zone);
      HorizonExact(w.startDate, w.days, zone, HorizonInstant(w, zone), h);
      var k :| IsHorizon(w.startDate, w.days, zone, k) && RequestFits(w, tasks, k);
      OneHorizon(w.startDate, w.days, zone, h, k);
    }
  }

  lemma OneHorizon(startDate: int, days: int, zone: Zone, a: Horizon, b: Horizon)
    requires IsHorizon(startDate, days, zone, a) && IsHorizon(startDate, days, zone, b)
    ensures a == b
  {
  }

  // ----- The stored report -----

  /** A stored revision reports a pending task with `m` missing minutes exactly when `m` is positive and
      the task's minutes in the layout plus `m` are its duration. */
  ghost predicate ReportsMissing(db: Db, state: SavedState) {
    forall tasks, t: Task, m ::
      SelectedRows(db, state.draft.content.window.taskIds, tasks) && t in tasks && t.status.Pending? ==>
        ((t.id, m) in Shortfalls(state.unscheduled) <==>
           0 < m && Minutes(state.draft.content.blocks, t.id) + m == t.duration)
  }

  lemma InspectReports(w: PlanningWindow, blocks: seq<Block>, tasks: seq<Task>, prefs: Preferences, zone: Zone, t: Task,
                       m: int)
    requires ValidInputs(w, blocks, tasks, prefs) && Inspect(w, blocks, tasks, prefs, zone).Success?
    requires t in tasks && t.status.Pending?
    ensures (t.id, m) in Shortfalls(Inspect(w, blocks, tasks, prefs, zone).value.missing) <==>
      0 < m && Minutes(blocks, t.id) + m == t.duration
  {
    hide Inspect, WindowAccepted, WindowHorizon, ExactLayout, ExactTotals, BuildGrid, Queue, DistinctIds,
         AllocatePhase.Missing, ReportMissing, ValidWindow, Shortfalls;
    InspectAccepts(w, blocks, tasks, prefs, zone);
    var i := Inspect(w, blocks, tasks, prefs, zone).value;
    DistinctHere(w, tasks, prefs, zone);
    QueueMembers(tasks, i.end);
    MissingReported(Queue(tasks, i.end), blocks);
    MissingMeaning(Queue(tasks, i.end), blocks, t);
  }

  lemma DistinctHere(w: PlanningWindow, tasks: seq<Task>, prefs: Preferences, zone: Zone)
    requires WindowAccepted(w, tasks, prefs, zone)
    ensures DistinctIds(tasks)
  {
    hide HorizonOf, ClipEvents, MakeGrid;
  }

  /** The inspection behind the content check. */
  function InspectionOf(db: Db, zone: Zone, d: Draft): Result<Inspection, Code>
    requires DbReady(db) && ValidDraft(d) && Fresh(db, d)
  {
    SelectedValid(db, d);
    Inspect(d.content.window, d.content.blocks, Selected(db, d.content.window.taskIds), db.prefs, zone)
  }

  lemma CheckedState(db: Db, zone: Zone, d: Draft)
    requires DbReady(db) && ValidDraft(d) && Fresh(db, d)
    ensures var r := InspectionOf(db, zone, d);
      && (CheckContent(db, zone, d).Success? <==>
            r.Success? && forall e :: e in d.content.window.events ==> r.value.start <= e.start && e.end <= r.value.end)
      && (CheckContent(db, zone, d).Success? ==>
            CheckContent(db, zone, d).value == Checked(SavedState(d, r.value.missing), r.value.start, r.value.end))
  {
    hide Inspect, DbReady, Fresh, ValidDraft, ValidInputs;
    SelectedValid(db, d);
  }

  lemma CheckedReports(db: Db, zone: Zone, d: Draft)
    requires DbReady(db) && ValidDraft(d) && Fresh(db, d) && CheckContent(db, zone, d).Success?
    ensures ReportsMissing(db, CheckContent(db, zone, d).value.state)
  {
    SelectedValid(db, d);
    SelectedAre(db, d.content.window.taskIds);
    CheckedState(db, zone, d);
    hide *;
    InspectionReports(db, zone, d);
  }

  lemma InspectionReports(db: Db, zone: Zone, d: Draft)
    requires DbReady(db) && ValidDraft(d) && Fresh(db, d) && InspectionOf(db, zone, d).Success?
    ensures ReportsMissing(db, SavedState(d, InspectionOf(db, zone, d).value.missing))
  {
    hide Inspect, DbReady, Fresh, ValidDraft, ValidInputs, Shortfalls, Minutes, SelectedRows;
    SelectedValid(db, d);
    SelectedAre(db, d.content.window.taskIds);
    var tasks := Selected(db, d.content.window.taskIds);
    forall t, m | t in tasks && t.status.Pending?
      ensures (t.id, m) in Shortfalls(InspectionOf(db, zone, d).value.missing) <==>
        0 < m && Minutes(d.content.blocks, t.id) + m == t.duration
    {
      InspectReports(d.content.window, d.content.blocks, tasks, db.prefs, zone, t, m);
    }
  }

  lemma ContentParts(db: Db, zone: Zone, d: Draft, h: Horizon)
    requires forall id :: id in d.content.window.taskIds ==> id in db.tasks
    ensures ContentHolds(db, zone, d, h) <==>
      IsHorizon(d.content.window.startDate, d.content.window.days, zone, h)
      && LayoutHolds(Selected(db, d.content.window.taskIds), d.content, h)
  {
    hide LayoutHolds, IsHorizon, SelectedRows;
    SelectedAre(db, d.content.window.taskIds);
  }

  /** The content check is the inspection, on an accepted window, with all events inside its horizon. */
  lemma CheckParts(db: Db, zone: Zone, d: Draft, w: PlanningWindow, tasks: seq<Task>)
    requires DbReady(db) && ValidDraft(d) && Fresh(db, d) && w == d.content.window
    requires (forall id :: id in w.taskIds ==> id in db.tasks) && tasks == Selected(db, w.taskIds)
    ensures CheckContent(db, zone, d).Success? <==>
      WindowAccepted(w, tasks, db.prefs, zone) && EventsInside(w, WindowHorizon(w, tasks, db.prefs, zone))
      && InspectionOf(db, zone, d).Success?
    ensures CheckContent(db, zone, d).Success? ==>
      var c, h := CheckContent(db, zone, d).value, WindowHorizon(w, tasks, db.prefs, zone);
      c.state.draft == d && c.start == h.start && c.end == h.start + h.size
  {
    hide Inspect, ValidInputs, DbReady, Fresh, ValidDraft, WindowAccepted, WindowHorizon, CheckContent, ExactLayout,
         ExactTotals;
    SelectedValid(db, d);
    CheckedState(db, zone, d);
    InspectSides(w, d.content.blocks, tasks, db.prefs, zone);
  }

  lemma ContentHere(db: Db, zone: Zone, d: Draft, h: Horizon)
    requires DbReady(db) && ValidDraft(d) && Fresh(db, d)
    requires ContentHolds(db, zone, d, h)
    ensures CheckContent(db, zone, d).Success?
  {
    hide Inspect, ValidInputs, WindowAccepted, WindowHorizon, LayoutHolds, RequestFits, IsHorizon, DbReady, Fresh,
         ExactLayout, ExactTotals, ContentHolds, CheckContent, ValidDraft, EventsInside, HoldsSelected;
    var w := d.content.window;
    SelectedValid(db, d);
    SelectedFits(db, d);
    var tasks := Selected(db, w.taskIds);
    ContentParts(db, zone, d, h);
    LayoutParts(db, d, tasks, h);
    AcceptedExact(w, tasks, db.prefs, zone);
    OneHorizon(w.startDate, w.days, zone, h, WindowHorizon(w, tasks, db.prefs, zone));
    InspectSides(w, d.content.blocks, tasks, db.prefs, zone);
    CheckParts(db, zone, d, w, tasks);
  }

  /** The content check of a draft with live sources. */
  lemma ContentExact(db: Db, zone: Zone, d: Draft)
    requires DbReady(db) && ValidDraft(d) && Fresh(db, d)
    ensures CheckContent(db, zone, d).Success? <==> exists h :: ContentHolds(db, zone, d, h)
    ensures CheckContent(db, zone, d).Success? ==> var c := CheckContent(db, zone, d).value;
      && c.state.draft == d && c.start < c.end && ContentHolds(db, zone, d, Horizon(c.start, c.end - c.start))
      && ReportsMissing(db, c.state)
  {
    hide Inspect, ValidInputs, WindowAccepted, WindowHorizon, LayoutHolds, RequestFits, IsHorizon, DbReady, Fresh,
         ExactLayout, ExactTotals, ContentHolds, CheckContent, ValidDraft, EventsInside, HoldsSelected,
         ReportsMissing;
    if h :| ContentHolds(db, zone, d, h) { ContentHere(db, zone, d, h); }
    if CheckContent(db, zone, d).Success? {
      var w := d.content.window;
      SelectedValid(db, d);
      SelectedFits(db, d);
      var tasks := Selected(db, w.taskIds);
      CheckParts(db, zone, d, w, tasks);
      InspectSides(w, d.content.blocks, tasks, db.prefs, zone);
      AcceptedExact(w, tasks, db.prefs, zone);
      var h := WindowHorizon(w, tasks, db.prefs, zone);
      SizePositive(w.startDate, w.days, zone, h);
      LayoutParts(db, d, tasks, h);
      ContentParts(db, zone, d, h);
      CheckedReports(db, zone, d);
    }
  }

  ghost predicate EventsInside(w: PlanningWindow, h: Horizon) {
    forall e :: e in w.events ==> h.start <= e.start && e.end <= h.start + h.size
  }

  lemma SizePositive(startDate: int, days: int, zone: Zone, h: Horizon)
    requires IsHorizon(startDate, days, zone, h)
    ensures h.size >= 1
  {
  }

  lemma SelectedFits(db: Db, d: Draft)
    requires DbReady(db) && ValidDraft(d) && Fresh(db, d)
    ensures forall id :: id in d.content.window.taskIds ==> id in db.tasks
    ensures HoldsSelected(Selected(db, d.content.window.taskIds), d.content.window.taskIds)
  {
    hide HoldsSelected, ValidInputs;
    SelectedValid(db, d);
    SelectedHeld(db, d.content.window.taskIds);
  }

  lemma LayoutParts(db: Db, d: Draft, tasks: seq<Task>, h: Horizon)
    requires ValidDraft(d) && HoldsSelected(tasks, d.content.window.taskIds)
    ensures LayoutHolds(tasks, d.content, h) <==>
      RequestFits(d.content.window, tasks, h)
      && ExactLayout(d.content.window, h.start, h.start + h.size, tasks, d.content.blocks)
      && ExactTotals(tasks, d.content.blocks) && EventsInside(d.content.window, h)
  {
    hide ExactLayout, ExactTotals, HoldsSelected, EventsClear;
    if EventsInside(d.content.window, h) { InsideEvents(h, d.content.window.events); }
  }

  /** An inspection succeeds exactly on an accepted window with an exact layout within totals. */
  lemma InspectSides(w: PlanningWindow, blocks: seq<Block>, tasks: seq<Task>, prefs: Preferences, zone: Zone)
    requires ValidInputs(w, blocks, tasks, prefs)
    ensures Inspect(w, blocks, tasks, prefs, zone).Success? <==>
      && WindowAccepted(w, tasks, prefs, zone)
      && var h := WindowHorizon(w, tasks, prefs, zone);
         ExactLayout(w, h.start, h.start + h.size, tasks, blocks) && ExactTotals(tasks, blocks)
    ensures Inspect(w, blocks, tasks, prefs, zone).Success? ==>
      var i, h := Inspect(w, blocks, tasks, prefs, zone).value, WindowHorizon(w, tasks, prefs, zone);
      i.start == h.start && i.end == h.start + h.size
  {
    hide Inspect, ValidInputs, WindowAccepted, WindowHorizon, ExactLayout, ExactTotals;
    if WindowAccepted(w, tasks, prefs, zone) {
      InspectExact(w, blocks, tasks, prefs, zone);
    } else {
      InspectOnlyAccepted(w, blocks, tasks, prefs, zone);
    }
  }

  // ----- Creation -----

  predicate During(start: int, end: int, instant: int) { start * MINUTE <= instant < end * MINUTE }

  /** No instant lies both in the horizon and in that of a saved schedule. */
  ghost predicate TimeFree(db: Db, h: Horizon) {
    forall id, instant :: id in db.schedules && During(db.schedules[id].start, db.schedules[id].end, instant) ==>
      !During(h.start, h.start + h.size, instant)
  }

  lemma SavedOrdered(db: Db, id: ScheduleId)
    requires Inv(db) && id in db.schedules
    ensures db.schedules[id].start < db.schedules[id].end
  {
    hide DbReady, HorizonsApart, AllocationsExact, ReceiptsExact, NoneAhead, InHorizon, ValidDraft;
    var s := db.schedules[id];
    assert ScheduleOK(db, s);
    assert FitsHorizon(s, s.revisions[s.current].draft);
  }

  lemma TimeFreeExact(db: Db, h: Horizon)
    requires Inv(db) && h.size >= 1
    ensures Overlaps(db, h.start, h.start + h.size) <==> !TimeFree(db, h)
  {
    hide Inv;
    if id :| id in db.schedules && db.schedules[id].start < h.start + h.size && db.schedules[id].end > h.start {
      SavedOrdered(db, id);
      var instant := Max(db.schedules[id].start, h.start) * MINUTE;
      assert During(db.schedules[id].start, db.schedules[id].end, instant);
      assert During(h.start, h.start + h.size, instant);
    }
    if !TimeFree(db, h) {
      var id, instant :| id in db.schedules && During(db.schedules[id].start, db.schedules[id].end, instant)
        && During(h.start, h.start + h.size, instant);
      assert db.schedules[id].start < h.start + h.size && db.schedules[id].end > h.start;
    }
  }

  ghost predicate SomeContentHolds(db: Db, zone: Zone, d: Draft) { exists h :: ContentHolds(db, zone, d, h) }

  /** What a new schedule needs. */
  ghost predicate MayCreate(db: Db, d: Draft, now: int, newId: ScheduleId) {
    && SourcesLive(db, d)
    && db.zone.localDate(now) <= d.content.window.startDate
    && (forall b :: b in d.content.blocks ==> now <= b.start * MINUTE)
    && (exists h :: ContentHolds(db, db.zone, d, h) && TimeFree(db, h))
    && newId !in db.schedules
    && !TimeElsewhere(db, newId, d.content.blocks)
  }

  lemma SameHorizonHere(db: Db, zone: Zone, d: Draft, a: Horizon, b: Horizon)
    requires ContentHolds(db, zone, d, a) && ContentHolds(db, zone, d, b)
    ensures a == b && a.size >= 1
  {
    OneHorizon(d.content.window.startDate, d.content.window.days, zone, a, b);
  }

  lemma NewPlacement(db: Db, blocks: seq<Block>, now: int)
    ensures PlacementError(db, [], blocks, now) ==
      if exists b :: b in blocks && b.start * MINUTE < now then Some(PastBlock) else None
  {
    if b :| b in blocks && b.start * MINUTE < now { assert !HasKey([], b); }
  }

  /** Validation of a new draft. */
  lemma ValidateNew(db: Db, d: Draft, now: int)
    requires DbReady(db) && ValidDraft(d)
    ensures var v := Validate(db, db.zone, d, None, now);
      && (v.Success? <==>
            SourcesLive(db, d) && db.zone.localDate(now) <= d.content.window.startDate
            && (forall b :: b in d.content.blocks ==> now <= b.start * MINUTE) && SomeContentHolds(db, db.zone, d))
      && (v.Success? ==>
            v.value.state.draft == d && v.value.start < v.value.end && ReportsMissing(db, v.value.state)
            && ContentHolds(db, db.zone, d, Horizon(v.value.start, v.value.end - v.value.start)))
      && (v.Failure? ==>
            if !SourcesLive(db, d) then v.error == SourcesChanged
            else if d.content.window.startDate < db.zone.localDate(now) then v.error == SchedulePastDate
            else if exists b :: b in d.content.blocks && b.start * MINUTE < now then v.error == PastBlock
            else v.error.Layout? || v.error == EventOutsideSavedHorizon)
  {
    hide SourcesLive, Fresh, ContentHolds, ReportsMissing, DbReady, ValidDraft, CheckContent, PlacementError;
    SourcesExact(db, d);
    if Fresh(db, d) { ContentExact(db, db.zone, d); }
    CheckCodes(db, db.zone, d);
    NewPlacement(db, d.content.blocks, now);
  }

  lemma CheckCodes(db: Db, zone: Zone, d: Draft)
    requires DbReady(db) && ValidDraft(d)
    ensures Fresh(db, d) && CheckContent(db, zone, d).Failure? ==>
      CheckContent(db, zone, d).error.Layout? || CheckContent(db, zone, d).error == EventOutsideSavedHorizon
  {
    hide Inspect, DbReady, ValidDraft, Fresh, ValidInputs;
  }

  /** A new creation commits if and only if its sources are live at the recorded versions, its first
      date is not past, none of its blocks starts before the clock, its content holds in the horizon of
      its dates, no instant of that horizon lies in a saved one, its identifier is new, and none of its
      tasks has time in another schedule. It then stores the draft as the first revision. */
  lemma CreateExact(db: Db, q: RequestId, d: Draft, now: int, newId: ScheduleId)
    requires Inv(db) && DbReady(db) && StatesValid(db) && ValidDraft(d) && q !in db.receipts
    ensures var after := Execute(db, q, Create(d), now, newId).0;
      && (after != db <==> MayCreate(db, d, now, newId))
      && (after != db ==>
            newId in after.schedules && var s := after.schedules[newId];
            && s.version == s.current == 1 && s.zone == db.zone && s.revisions.Keys == {1}
            && s.revisions[1].draft == d && ReportsMissing(db, s.revisions[1])
            && s.start < s.end && ContentHolds(db, db.zone, d, Horizon(s.start, s.end - s.start))
            && after == db.(schedules := db.schedules[newId := s], allocations := after.allocations,
                            receipts := db.receipts[q := Receipt(newId, Create(d), 1)]))
  {
    hide Inv, DbReady, StatesValid, ValidDraft, Validate, SourcesLive, ReportsMissing, ContentHolds, TimeFree,
         TimeElsewhere, Overlaps, AllocationConflict, BlockTasks, Reallocated, Answer;
    ValidateNew(db, d, now);
    ElsewhereExact(db, newId, d.content.blocks);
    var v := Validate(db, db.zone, d, None, now);
    if v.Success? {
      var h := Horizon(v.value.start, v.value.end - v.value.start);
      TimeFreeExact(db, h);
      forall k | ContentHolds(db, db.zone, d, k) ensures k == h { SameHorizonHere(db, db.zone, d, h, k); }
    }
  }

  /** The refusals of a new creation, in order. */
  lemma CreateRefused(db: Db, q: RequestId, d: Draft, now: int, newId: ScheduleId)
    requires Inv(db) && DbReady(db) && StatesValid(db) && ValidDraft(d) && q !in db.receipts
    requires !MayCreate(db, d, now, newId)
    ensures var answer := Execute(db, q, Create(d), now, newId).1;
      && answer.Rejected?
      && if !SourcesLive(db, d) then answer.code == SourcesChanged
         else if d.content.window.startDate < db.zone.localDate(now) then answer.code == SchedulePastDate
         else if exists b :: b in d.content.blocks && b.start * MINUTE < now then answer.code == PastBlock
         else if !SomeContentHolds(db, db.zone, d) then
           answer.code.Layout? || answer.code == EventOutsideSavedHorizon
         else if !exists h :: ContentHolds(db, db.zone, d, h) && TimeFree(db, h) then answer.code == ScheduleOverlap
         else answer.code == if newId in db.schedules then IdentifierTaken else TaskAlreadyScheduled
  {
    hide Inv, DbReady, StatesValid, ValidDraft, Validate, SourcesLive, ReportsMissing, ContentHolds, TimeFree,
         TimeElsewhere, Overlaps, AllocationConflict, BlockTasks, Reallocated;
    ValidateNew(db, d, now);
    ElsewhereExact(db, newId, d.content.blocks);
    var v := Validate(db, db.zone, d, None, now);
    if v.Success? {
      var h := Horizon(v.value.start, v.value.end - v.value.start);
      TimeFreeExact(db, h);
      forall k | ContentHolds(db, db.zone, d, k) ensures k == h { SameHorizonHere(db, db.zone, d, h, k); }
    }
  }

  // ----- Replacement -----

  ghost predicate SameDates(a: Draft, b: Draft) {
    a.content.window.startDate == b.content.window.startDate && a.content.window.days == b.content.window.days
  }

  /** What the next revision of a schedule needs. */
  ghost predicate MayReplace(db: Db, id: ScheduleId, d: Draft, expected: int, now: int)
    requires Found(db, id)
  {
    var s, was := db.schedules[id], CurrentState(db.schedules[id]).draft;
    && s.version == expected < 2_147_483_647
    && SourcesLive(db, d)
    && SameDates(d, was)
    && KeepsProtected(db, was.content.blocks, d.content.blocks, now)
    && AddsNoPast(was.content.blocks, d.content.blocks, now)
    && SomeContentHolds(db, s.zone, d)
    && !TimeElsewhere(db, id, d.content.blocks)
  }

  lemma ValidateNext(db: Db, zone: Zone, d: Draft, previous: SavedState, now: int)
    requires DbReady(db) && ValidDraft(d)
    ensures var v, was := Validate(db, zone, d, Some(previous), now), previous.draft;
      var moved := Disturbed(db, was.content.blocks, d.content.blocks, now);
      && (v.Success? <==>
            SourcesLive(db, d) && SameDates(d, was) && KeepsProtected(db, was.content.blocks, d.content.blocks, now)
            && AddsNoPast(was.content.blocks, d.content.blocks, now) && SomeContentHolds(db, zone, d))
      && (v.Success? ==> v.value.state.draft == d && ReportsMissing(db, v.value.state))
      && (v.Failure? ==>
            if !SourcesLive(db, d) then v.error == SourcesChanged
            else if !SameDates(d, was) then v.error == ScheduleHorizonChanged
            else if !KeepsProtected(db, was.content.blocks, d.content.blocks, now) then moved == Some(v.error)
            else if !AddsNoPast(was.content.blocks, d.content.blocks, now) then v.error == PastBlock
            else v.error.Layout? || v.error == EventOutsideSavedHorizon)
  {
    hide SourcesLive, Fresh, ContentHolds, ReportsMissing, DbReady, ValidDraft, Disturbed, KeepsProtected, AddsNoPast,
         HasKey, CheckContent;
    SourcesExact(db, d);
    if Fresh(db, d) { ContentExact(db, zone, d); }
    CheckCodes(db, zone, d);
    DisturbedExact(db, previous.draft.content.blocks, d.content.blocks, now);
    PlacementExact(db, previous.draft.content.blocks, d.content.blocks, now);
  }

  /** A new replacement commits if and only if it names the current version, below the limit, its sources
      are live, its dates are those of the schedule, locked and started work of live pending tasks
      stays, nothing is added in the past, its content holds, and none of its tasks has time in another
      schedule. It then stores the draft as a revision with the next number. */
  lemma ReplaceExact(db: Db, q: RequestId, id: ScheduleId, d: Draft, expected: int, now: int, newId: ScheduleId)
    requires Inv(db) && DbReady(db) && StatesValid(db) && ValidDraft(d) && q !in db.receipts
    ensures var after := Execute(db, q, Replace(id, d, expected), now, newId).0;
      && (after != db <==> Found(db, id) && MayReplace(db, id, d, expected, now))
      && (after != db ==>
            Found(after, id) && var s, was := after.schedules[id], db.schedules[id];
            && s.version == s.current == was.version + 1
            && CurrentState(s).draft == d && ReportsMissing(db, CurrentState(s))
            && s == was.(version := s.version, current := s.current, revisions := s.revisions)
            && after == db.(schedules := db.schedules[id := s], allocations := after.allocations,
                            receipts := db.receipts[q := Receipt(id, Replace(id, d, expected), s.version)]))
  {
    hide Inv, DbReady, StatesValid, ValidDraft, Validate, SourcesLive, ReportsMissing, ContentHolds, TimeElsewhere,
         KeepsProtected, AddsNoPast, SomeContentHolds, AllocationConflict, BlockTasks, Reallocated, Answer, Trimmed,
         UpTo;
    if Found(db, id) {
      var s := db.schedules[id];
      ValidateNext(db, s.zone, d, CurrentState(s), now);
      ElsewhereExact(db, id, d.content.blocks);
      InvReady(db);
      var v := Validate(db, s.zone, d, Some(CurrentState(s)), now);
      if v.Success? { CurrentAfterTrim(s, v.value.state); }
    }
  }

  /** The refusals of a new replacement, in order; among blocks that should have stayed, the first in the
      current layout names the refusal. */
  lemma ReplaceRefused(db: Db, q: RequestId, id: ScheduleId, d: Draft, expected: int, now: int, newId: ScheduleId)
    requires Inv(db) && DbReady(db) && StatesValid(db) && ValidDraft(d) && q !in db.receipts
    requires Found(db, id) ==> !MayReplace(db, id, d, expected, now)
    ensures var answer := Execute(db, q, Replace(id, d, expected), now, newId).1;
      && answer.Rejected?
      && (!Found(db, id) ==> answer.code == NotFound)
      && (Found(db, id) ==>
            var s, was := db.schedules[id], CurrentState(db.schedules[id]).draft;
            if s.version != expected then answer.code == StaleScheduleVersion
            else if expected >= 2_147_483_647 then answer.code == ScheduleVersionLimit
            else if !SourcesLive(db, d) then answer.code == SourcesChanged
            else if !SameDates(d, was) then answer.code == ScheduleHorizonChanged
            else if !KeepsProtected(db, was.content.blocks, d.content.blocks, now) then
              FirstMoved(db, was.content.blocks, d.content.blocks, now, answer.code)
            else if !AddsNoPast(was.content.blocks, d.content.blocks, now) then answer.code == PastBlock
            else if !SomeContentHolds(db, s.zone, d) then
              answer.code.Layout? || answer.code == EventOutsideSavedHorizon
            else answer.code == TaskAlreadyScheduled)
  {
    hide Inv, DbReady, StatesValid, ValidDraft, Validate, SourcesLive, ReportsMissing, ContentHolds, TimeElsewhere,
         KeepsProtected, AddsNoPast, SomeContentHolds, AllocationConflict, BlockTasks, Reallocated, FirstMoved,
         Disturbed;
    if Found(db, id) {
      var s := db.schedules[id];
      var before := CurrentState(s).draft.content.blocks;
      ValidateNext(db, s.zone, d, CurrentState(s), now);
      ElsewhereExact(db, id, d.content.blocks);
      if Disturbed(db, before, d.content.blocks, now).Some? { FirstMovedHere(db, before, d.content.blocks, now); }
    }
  }

  /** Block `k` is the first that should have stayed and did not. */
  ghost predicate FirstMoved(db: Db, before: seq<Block>, blocks: seq<Block>, now: int, code: StoreCode) {
    exists k :: 0 <= k < |before| && MustStay(db, before[k], now) && !Placed(blocks, before[k])
      && KeepsProtected(db, before[..k], blocks, now)
      && code == if before[k].locked then MovesLockedBlock else MovesStartedBlock
  }

  lemma FirstMovedHere(db: Db, before: seq<Block>, blocks: seq<Block>, now: int)
    requires Disturbed(db, before, blocks, now).Some?
    ensures FirstMoved(db, before, blocks, now, Disturbed(db, before, blocks, now).value)
  {
    var k := DisturbedFirst(db, before, blocks, now);
  }

  // ----- Undo and redo -----

  /** What the target of an undo or redo needs to become current again. */
  lemma ReturnExact(db: Db, id: ScheduleId, r: int, now: int)
    requires Inv(db) && Found(db, id) && r in db.schedules[id].revisions
    ensures var d, was := db.schedules[id].revisions[r].draft, CurrentState(db.schedules[id]).draft;
      MayReturn(db, id, r, now) <==>
        && SourcesLive(db, d)
        && KeepsProtected(db, was.content.blocks, d.content.blocks, now)
        && AddsNoPast(was.content.blocks, d.content.blocks, now)
        && !TimeElsewhere(db, id, d.content.blocks)
  {
    hide Inv, SourcesLive, Fresh, PlacementError, KeepsProtected, AddsNoPast, AllocationConflict, TimeElsewhere,
         BlockTasks;
    var d, was := db.schedules[id].revisions[r].draft, CurrentState(db.schedules[id]).draft;
    SourcesExact(db, d);
    PlacementExact(db, was.content.blocks, d.content.blocks, now);
    ElsewhereExact(db, id, d.content.blocks);
  }

  // ----- Views -----

  /** What a view says: the recorded tasks that are gone, the recorded tasks that are live at another
      version, whether the preferences moved on, and whether an older or a newer revision exists. */
  lemma ViewExact(db: Db, id: ScheduleId)
    requires Found(db, id)
    ensures var v, s, d := ViewOf(db, id), db.schedules[id], CurrentState(db.schedules[id]).draft;
      && v.id == id && v.version == s.version && v.revision == s.current && v.state == CurrentState(s)
      && (forall t :: t in v.missing <==> t in d.taskVersions && (t !in db.tasks || db.tasks[t].deleted))
      && (forall t :: t in v.changed <==> t in d.taskVersions && t in db.tasks && !db.tasks[t].deleted
                                          && db.tasks[t].task.version != d.taskVersions[t])
      && (v.preferencesChanged <==> db.prefs.version != d.preferenceVersion)
      && (v.canUndo <==> exists r :: r in s.revisions && r < s.current)
      && (v.canRedo <==> exists r :: r in s.revisions && s.current < r)
  {
  }

  // ----- Task edits -----

  /** Creation, deletion and preference edits: a new task starts live at version 1; a deletion and new
      preferences need the live version, below the limit, and raise it; nothing else changes. */
  lemma EditsExact(db: Db, task: Task, id: TaskId, expected: int, values: Preferences)
    requires DbReady(db) && StatesValid(db) && ValidTask(task) && ValidPreferences(values)
    ensures Step(db, AddTask(task)) ==
      if task.id in db.tasks then db
      else db.(tasks := db.tasks[task.id := TaskRow(task.(version := 1), false)])
    ensures Step(db, DeleteTask(id, expected)) ==
      if id in db.tasks && !db.tasks[id].deleted && db.tasks[id].task.version == expected < 2_147_483_647
      then db.(tasks := db.tasks[id := TaskRow(db.tasks[id].task.(version := expected + 1), true)])
      else db
    ensures Step(db, UpdatePreferences(expected, values)) ==
      if db.prefs.version == expected < 2_147_483_647 then db.(prefs := values.(version := expected + 1)) else db
  {
  }

  /** An edit of a task: refused unknown, then stale, then invalid; otherwise every named field takes the
      value given, every other stays, the version rises by one, and nothing else changes. */
  lemma UpdateExact(db: Db, id: TaskId, expected: int, p: Patch)
    requires DbReady(db) && StatesValid(db) && ValidAction(UpdateTask(id, expected, p))
    ensures var after := Step(db, UpdateTask(id, expected, p));
      if id !in db.tasks || db.tasks[id].deleted
      then after == db && UpdateError(db, id, expected, p) == Some(UnknownTask)
      else if db.tasks[id].task.version != expected
      then after == db && UpdateError(db, id, expected, p) == Some(StaleTask)
      else
        var was := db.tasks[id].task;
        var duration := if p.duration.Some? then p.duration.value else was.duration;
        var earliest := if p.earliest.Some? then p.earliest.value else was.earliest;
        var deadline := if p.deadline.Some? then p.deadline.value else was.deadline;
        if (earliest.Some? && deadline.Some? && deadline.value - earliest.value < duration * MINUTE)
           || expected >= 2_147_483_647
        then after == db && UpdateError(db, id, expected, p) == Some(InvalidTaskChange)
        else
          && id in after.tasks && after == db.(tasks := db.tasks[id := after.tasks[id]])
          && UpdateError(db, id, expected, p) == None && !after.tasks[id].deleted
          && var t := after.tasks[id].task;
             && t.id == was.id && t.version == expected + 1
             && t.duration == duration && t.earliest == earliest && t.deadline == deadline
             && (if p.title.Some? then t.title == p.title.value else t.title == was.title)
             && (if p.priority.Some? then t.priority == p.priority.value else t.priority == was.priority)
             && (if p.splittable.Some? then t.splittable == p.splittable.value else t.splittable == was.splittable)
             && (if p.preferred.Some? then t.preferred == p.preferred.value else t.preferred == was.preferred)
             && (if p.status.Some? then t.status == p.status.value else t.status == was.status)
  {
    hide ValidRows, StatesValid;
  }
}
