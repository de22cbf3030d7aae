/** A command changes the rows only by one commit, whose facts are collected here. */
module ScheduleCommits {
  import opened Wrappers
  import opened PlanningModels
  import opened BlockLists
  import opened PlanningGrid
  import opened Previews
  import opened PreviewTheorems
  import opened PlannerAgreement
  import opened ScheduleModels
  import opened ScheduleSteps

  /** Blocks inside `[start, end)`, none overlapping another. */
  ghost predicate InHorizon(start: int, end: int, blocks: seq<Block>) {
    (forall b :: b in blocks ==> start <= b.start < b.end <= end) && Disjoint(blocks)
  }

  ghost predicate HorizonIs(w: PlanningWindow, zone: Zone, start: int, end: int) {
    start < end && HorizonOf(w.startDate, w.days, zone, HorizonInstant(w, zone)) == Success(Horizon(start, end - start))
  }

  lemma HorizonPositive(startDate: int, days: int, zone: Zone, now: int)
    requires HorizonOf(startDate, days, zone, now).Success?
    ensures HorizonOf(startDate, days, zone, now).value.size >= 1
  {
  }

  lemma InspectAccepts(w: PlanningWindow, blocks: seq<Block>, tasks: seq<Task>, prefs: Preferences, zone: Zone)
    requires ValidInputs(w, blocks, tasks, prefs) && Inspect(w, blocks, tasks, prefs, zone).Success?
    ensures WindowAccepted(w, tasks, prefs, zone)
    ensures Accepted(WindowHorizon(w, tasks, prefs, zone), w, blocks, tasks,
                     Inspect(w, blocks, tasks, prefs, zone).value)
    ensures HorizonOf(w.startDate, w.days, zone, HorizonInstant(w, zone))
            == Success(WindowHorizon(w, tasks, prefs, zone))
  {
    hide BuildGrid, Accepted, HorizonOf;
    if !WindowAccepted(w, tasks, prefs, zone) {
      InspectOnlyAccepted(w, blocks, tasks, prefs, zone);
    }
    InspectExact(w, blocks, tasks, prefs, zone);
    AcceptedHorizon(w, tasks, prefs, zone);
  }

  lemma AcceptedHorizon(w: PlanningWindow, tasks: seq<Task>, prefs: Preferences, zone: Zone)
    requires WindowAccepted(w, tasks, prefs, zone)
    ensures HorizonOf(w.startDate, w.days, zone, HorizonInstant(w, zone))
            == Success(WindowHorizon(w, tasks, prefs, zone))
  {
    hide MakeGrid, ClipEvents, HorizonOf;
  }

  lemma InspectOnlyAccepted(w: PlanningWindow, blocks: seq<Block>, tasks: seq<Task>, prefs: Preferences, zone: Zone)
    requires ValidInputs(w, blocks, tasks, prefs) && !WindowAccepted(w, tasks, prefs, zone)
    ensures Inspect(w, blocks, tasks, prefs, zone).Failure?
  {
    if AllPending(blocks, tasks) { InspectRefusesWindow(w, blocks, tasks, prefs, zone); }
  }

  lemma AcceptedInside(h: Horizon, w: PlanningWindow, blocks: seq<Block>, tasks: seq<Task>, i: Inspection)
    requires Accepted(h, w, blocks, tasks, i)
    ensures i.start == h.start && i.end == h.start + h.size && InHorizon(i.start, i.end, blocks)
    ensures AllPending(blocks, tasks)
  {
    OwnedArePending(w, i.start, i.end, tasks, blocks);
    forall b | b in blocks ensures i.start <= b.start < b.end <= i.end {
      var t :| t in tasks && OwnedBy(w, i.start, i.end, t, b);
    }
  }

  /** What a passed validation guarantees about the stored state. */
  lemma ValidateFacts(db: Db, zone: Zone, d: Draft, previous: Option<SavedState>, now: int)
    requires DbReady(db) && ValidDraft(d) && Validate(db, zone, d, previous, now).Success?
    ensures var c := Validate(db, zone, d, previous, now).value;
      && Fresh(db, d)
      && c.state.draft == d
      && HorizonIs(d.content.window, zone, c.start, c.end)
      && InHorizon(c.start, c.end, d.content.blocks)
      && PlacementError(db, if previous.Some? then previous.value.draft.content.blocks else [], d.content.blocks, now)
        == None
      && (previous.Some? ==> d.content.window.startDate == previous.value.draft.content.window.startDate
                             && d.content.window.days == previous.value.draft.content.window.days)
  {
    hide Inspect, PlacementError, HorizonOf, InHorizon, Accepted, WindowAccepted, WindowHorizon, ValidInputs;
    SelectedValid(db, d);
    var w, tasks := d.content.window, Selected(db, d.content.window.taskIds);
    InspectAccepts(w, d.content.blocks, tasks, db.prefs, zone);
    AcceptedInside(WindowHorizon(w, tasks, db.prefs, zone), w, d.content.blocks, tasks,
                   Inspect(w, d.content.blocks, tasks, db.prefs, zone).value);
    HorizonPositive(w.startDate, w.days, zone, HorizonInstant(w, zone));
  }

  /** Blocks of a draft that passes the content check belong to live pending tasks. */
  lemma CheckedPending(db: Db, zone: Zone, d: Draft, b: Block)
    requires DbReady(db) && ValidDraft(d) && Fresh(db, d) && CheckContent(db, zone, d).Success? && b in d.content.blocks
    ensures Protected(db, b.task)
  {
    hide Inspect, HorizonOf, InHorizon, Accepted, WindowAccepted, WindowHorizon, ValidInputs, AllPending;
    SelectedValid(db, d);
    var w, tasks := d.content.window, Selected(db, d.content.window.taskIds);
    InspectAccepts(w, d.content.blocks, tasks, db.prefs, zone);
    AcceptedInside(WindowHorizon(w, tasks, db.prefs, zone), w, d.content.blocks, tasks,
                   Inspect(w, d.content.blocks, tasks, db.prefs, zone).value);
    PendingSelected(db, d, tasks, b);
  }

  lemma PendingSelected(db: Db, d: Draft, tasks: seq<Task>, b: Block)
    requires DbReady(db) && ValidDraft(d) && Fresh(db, d) && b in d.content.blocks
    requires forall id :: id in d.content.window.taskIds ==> id in db.tasks
    requires tasks == Selected(db, d.content.window.taskIds) && AllPending(d.content.blocks, tasks)
    ensures Protected(db, b.task)
  {
    var t :| t in tasks && t.id == b.task && t.status.Pending?;
    var i :| 0 <= i < |tasks| && tasks[i] == t;
    assert d.content.window.taskIds[i] in d.taskVersions.Keys;
  }

  // ----- Commits -----

  ghost predicate CommitsCreate(db: Db, d: Draft, now: int, id: ScheduleId, s: Schedule)
    requires DbReady(db) && ValidDraft(d)
  {
    var v := Validate(db, db.zone, d, None, now);
    v.Success? && id !in db.schedules && !Overlaps(db, v.value.start, v.value.end)
    && s == Schedule(v.value.start, v.value.end, db.zone, 1, 1, map[1 := v.value.state])
  }

  ghost predicate CommitsReplace(db: Db, id: ScheduleId, d: Draft, expected: int, now: int, s: Schedule)
    requires DbReady(db) && ValidDraft(d)
  {
    Found(db, id) && VersionError(db.schedules[id], expected) == None
    && var v := Validate(db, db.schedules[id].zone, d, Some(CurrentState(db.schedules[id])), now);
       v.Success? && s == Replaced(db.schedules[id], v.value.state)
  }

  ghost predicate CommitsTravel(db: Db, id: ScheduleId, direction: Direction, expected: int, now: int, s: Schedule)
    requires DbReady(db) && StatesValid(db)
  {
    && Found(db, id) && VersionError(db.schedules[id], expected) == None
    && match Target(db.schedules[id], direction)
       case None => false
       case Some(r) =>
         var was := db.schedules[id];
         && Validate(db, was.zone, was.revisions[r].draft, Some(CurrentState(was)), now).Success?
         && s == was.(version := was.version + 1, current := r)
  }

  /** The draft a committed command makes current. */
  function CommittedDraft(s: Schedule): Draft
    requires s.current in s.revisions
  {
    CurrentState(s).draft
  }

  ghost predicate Commits(db: Db, request: RequestId, command: Command, now: int, id: ScheduleId, s: Schedule)
    requires DbReady(db) && StatesValid(db) && ValidCommand(command)
  {
    && request !in db.receipts
    && (match command
        case Create(d) => CommitsCreate(db, d, now, id, s)
        case Replace(target, d, expected) => target == id && CommitsReplace(db, id, d, expected, now, s)
        case Travel(target, direction, expected) => target == id && CommitsTravel(db, id, direction, expected, now, s))
    && s.current in s.revisions
    && !AllocationConflict(db.allocations, id, BlockTasks(CommittedDraft(s).content.blocks))
  }

  ghost function Committed(db: Db, request: RequestId, command: Command, id: ScheduleId, s: Schedule): Db
    requires s.current in s.revisions
  {
    Written(db, id, s, BlockTasks(CommittedDraft(s).content.blocks), request, command)
  }

  lemma CurrentAfterTrim(s: Schedule, state: SavedState)
    requires Bounded(s)
    ensures Replaced(s, state).current in Replaced(s, state).revisions
    ensures Replaced(s, state).revisions[s.version + 1] == state
  {
    assert Newer(UpTo(s.revisions, s.current)[s.version + 1 := state], s.version + 1) == {};
  }

  predicate Bounded(s: Schedule) {
    forall r :: r in s.revisions ==> 1 <= r <= s.version
  }

  ghost predicate RevisionsBounded(db: Db) {
    forall id :: id in db.schedules ==> Bounded(db.schedules[id])
  }

  lemma ReplaceCommits(db: Db, request: RequestId, id: ScheduleId, d: Draft, expected: int, now: int)
      returns (s: Schedule)
    requires DbReady(db) && StatesValid(db) && ValidDraft(d) && RevisionsBounded(db)
    requires DoReplace(db, request, id, d, expected, now).0 != db
    ensures Commits(db, request, Replace(id, d, expected), now, id, s)
    ensures DoReplace(db, request, id, d, expected, now).0 == Committed(db, request, Replace(id, d, expected), id, s)
    ensures DoReplace(db, request, id, d, expected, now).1
            == Answer(Committed(db, request, Replace(id, d, expected), id, s), id, false, s.version)
  {
    hide Validate, ValidDraft, Trimmed, UpTo, DbReady, Written, ViewOf;
    var was := db.schedules[id];
    var v := Validate(db, was.zone, d, Some(CurrentState(was)), now);
    s := Replaced(was, v.value.state);
    CurrentAfterTrim(was, v.value.state);
    ValidateFacts(db, was.zone, d, Some(CurrentState(was)), now);
  }

  lemma TravelCommits(db: Db, request: RequestId, id: ScheduleId, direction: Direction, expected: int, now: int)
      returns (s: Schedule)
    requires DbReady(db) && StatesValid(db)
    requires DoTravel(db, request, id, direction, expected, now).0 != db
    ensures Commits(db, request, Travel(id, direction, expected), now, id, s)
    ensures DoTravel(db, request, id, direction, expected, now).0
            == Committed(db, request, Travel(id, direction, expected), id, s)
    ensures DoTravel(db, request, id, direction, expected, now).1
            == Answer(Committed(db, request, Travel(id, direction, expected), id, s), id, false, s.version)
  {
    hide Validate, ValidDraft, DbReady, Written, ViewOf, Target;
    var was := db.schedules[id];
    var r := Target(was, direction).value;
    s := was.(version := was.version + 1, current := r);
  }

  lemma CreateCommits(db: Db, request: RequestId, d: Draft, now: int, newId: ScheduleId) returns (s: Schedule)
    requires DbReady(db) && StatesValid(db) && ValidDraft(d)
    requires DoCreate(db, request, d, now, newId).0 != db
    ensures Commits(db, request, Create(d), now, newId, s)
    ensures DoCreate(db, request, d, now, newId).0 == Committed(db, request, Create(d), newId, s)
    ensures DoCreate(db, request, d, now, newId).1
            == Answer(Committed(db, request, Create(d), newId, s), newId, false, s.version)
  {
    hide Validate, ValidDraft, DbReady, Written, ViewOf;
    var v := Validate(db, db.zone, d, None, now);
    s := Schedule(v.value.start, v.value.end, db.zone, 1, 1, map[1 := v.value.state]);
    ValidateFacts(db, db.zone, d, None, now);
  }

  /** Every command either changes nothing or is exactly one commit. */
  lemma ExecuteCommits(db: Db, request: RequestId, command: Command, now: int, newId: ScheduleId)
      returns (id: ScheduleId, s: Schedule)
    requires DbReady(db) && StatesValid(db) && ValidCommand(command) && RevisionsBounded(db)
    requires Execute(db, request, command, now, newId).0 != db
    ensures Commits(db, request, command, now, id, s)
    ensures Execute(db, request, command, now, newId).0 == Committed(db, request, command, id, s)
    ensures Execute(db, request, command, now, newId).1
            == Answer(Committed(db, request, command, id, s), id, false, s.version)
  {
    hide Commits, Committed, DoCreate, DoReplace, DoTravel, ValidDraft, DbReady, StatesValid, Answer;
    match command
    case Create(d) => id := newId; s := CreateCommits(db, request, d, now, newId);
    case Replace(target, d, expected) => id := target; s := ReplaceCommits(db, request, target, d, expected, now);
    case Travel(target, direction, expected) =>
      id := target; s := TravelCommits(db, request, target, direction, expected, now);
  }
}
