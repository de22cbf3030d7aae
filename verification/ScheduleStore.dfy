/** The repository object: its tables are fields that each command rewrites inside one transaction. */
module ScheduleStoreMachine {
  import opened Wrappers
  import opened PlanningModels
  import opened Previews
  import opened PlannerRuns
  import opened ScheduleModels
  import opened ScheduleSteps

  predicate Elsewhere(allocations: map<TaskId, ScheduleId>, t: TaskId, id: ScheduleId) {
    t in allocations && allocations[t] != id
  }

  class ScheduleStore {
    const zone: Zone
    var tasks: map<TaskId, TaskRow>
    var prefs: Preferences
    var schedules: map<ScheduleId, Schedule>
    var receipts: map<RequestId, Receipt>
    var allocations: map<TaskId, ScheduleId>

    constructor (userZone: Zone, preferences: Preferences)
      ensures Rows() == Db(userZone, map[], preferences, map[], map[], map[])
    {
      zone, tasks, prefs, schedules, receipts, allocations := userZone, map[], preferences, map[], map[], map[];
    }

    /** All tables as one value. */
    function Rows(): Db
      reads this
    {
      Db(zone, tasks, prefs, schedules, receipts, allocations)
    }

    // ----- Checks -----

    /** Walks the previous blocks in order and stops at the first that must not have moved. */
    method ProtectPlacements(previous: seq<Block>, candidate: seq<Block>, now: int) returns (error: Option<StoreCode>)
      ensures error == PlacementError(Rows(), previous, candidate, now)
    {
      ghost var goal := Disturbed(Rows(), previous, candidate, now);
      for k := 0 to |previous|
        invariant goal == Disturbed(Rows(), previous[k..], candidate, now)
      {
        assert previous[k..][0] == previous[k] && previous[k..][1..] == previous[k + 1..];
        var b := previous[k];
        if Protected(Rows(), b.task) && !HasKey(candidate, b) {
          if b.locked { return Some(MovesLockedBlock); }
          if b.start * MINUTE < now { return Some(MovesStartedBlock); }
        }
      }
      assert previous[|previous|..] == [];
      if exists b :: b in candidate && b.start * MINUTE < now && !HasKey(previous, b) { return Some(PastBlock); }
      error := None;
    }

    /** Sources, dates, protected placements, layout and events, in that order. */
    method ValidateDraft(z: Zone, d: Draft, previous: Option<SavedState>, now: int)
        returns (r: Result<Checked, StoreCode>)
      requires DbReady(Rows()) && ValidDraft(d)
      ensures r == Validate(Rows(), z, d, previous, now)
    {
      hide Inspect, PlacementError, ValidDraft, DbReady, ValidInputs;
      var w := d.content.window;
      if !Fresh(Rows(), d) { return Failure(SourcesChanged); }
      if previous == None && w.startDate < z.localDate(now) { return Failure(SchedulePastDate); }
      if previous.Some? && (w.startDate != previous.value.draft.content.window.startDate
                            || w.days != previous.value.draft.content.window.days) {
        return Failure(ScheduleHorizonChanged);
      }
      var before := if previous.Some? then previous.value.draft.content.blocks else [];
      var error := ProtectPlacements(before, d.content.blocks, now);
      if error.Some? { return Failure(error.value); }
      SelectedValid(Rows(), d);
      var inspected := InspectLayout(w, d.content.blocks, Selected(Rows(), w.taskIds), prefs, z);
      match inspected
      case Failure(e) => r := Failure(Layout(e));
      case Success(answer) =>
        var i := answer.0;
        if exists e :: e in w.events && (e.start < i.start || e.end > i.end) {
          return Failure(EventOutsideSavedHorizon);
        }
        r := Success(Checked(SavedState(d, i.missing), i.start, i.end));
    }

    // ----- Writes -----

    /** Replaces the schedule's allocation rows, one insertion for each task that has a block. */
    method Allocate(id: ScheduleId, blocks: seq<Block>)
      requires !AllocationConflict(allocations, id, BlockTasks(blocks))
      modifies this`allocations
      ensures allocations == Reallocated(old(allocations), id, BlockTasks(blocks))
    {
      allocations := map t | t in allocations && allocations[t] != id :: allocations[t];
      for k := 0 to |blocks|
        invariant forall t :: t in allocations <==> t in BlockTasks(blocks[..k]) || Elsewhere(old(allocations), t, id)
        invariant forall t :: t in allocations && t in BlockTasks(blocks[..k]) ==> allocations[t] == id
        invariant forall t :: t in allocations && t !in BlockTasks(blocks[..k]) ==>
          allocations[t] == old(allocations)[t]
      {
        BlockTasksAppend(blocks, k);
        allocations := allocations[blocks[k].task := id];
      }
      assert blocks[..|blocks|] == blocks;
    }

    /** Stores a schedule, its allocations and the receipt of the command. */
    method Write(id: ScheduleId, s: Schedule, blocks: seq<Block>, request: RequestId, command: Command)
        returns (r: Response)
      requires !AllocationConflict(allocations, id, BlockTasks(blocks))
      modifies this`schedules, this`allocations, this`receipts
      ensures Rows() == Written(old(Rows()), id, s, BlockTasks(blocks), request, command)
      ensures r == Answer(Rows(), id, false, s.version)
    {
      schedules := schedules[id := s];
      Allocate(id, blocks);
      receipts := receipts[request := Receipt(id, command, s.version)];
      r := Answer(Rows(), id, false, s.version);
    }

    // ----- Commands -----

    method CreateSchedule(request: RequestId, d: Draft, now: int, newId: ScheduleId) returns (r: Response)
      requires DbReady(Rows()) && ValidDraft(d)
      modifies this`schedules, this`allocations, this`receipts
      ensures (Rows(), r) == DoCreate(old(Rows()), request, d, now, newId)
    {
      hide Validate, ValidDraft, DbReady, Written, Answer;
      var replay := Replay(Rows(), request, Create(d));
      if replay.Some? { return replay.value; }
      var checked := ValidateDraft(zone, d, None, now);
      if checked.Failure? { return Rejected(checked.error); }
      var c := checked.value;
      if Overlaps(Rows(), c.start, c.end) { return Rejected(ScheduleOverlap); }
      if newId in schedules { return Rejected(IdentifierTaken); }
      if AllocationConflict(allocations, newId, BlockTasks(d.content.blocks)) { return Rejected(TaskAlreadyScheduled); }
      r := Write(newId, Schedule(c.start, c.end, zone, 1, 1, map[1 := c.state]), d.content.blocks, request, Create(d));
    }

    method ReplaceSchedule(request: RequestId, id: ScheduleId, d: Draft, expected: int, now: int) returns (r: Response)
      requires DbReady(Rows()) && ValidDraft(d)
      modifies this`schedules, this`allocations, this`receipts
      ensures (Rows(), r) == DoReplace(old(Rows()), request, id, d, expected, now)
    {
      hide Validate, ValidDraft, DbReady, Written, Answer;
      if !Found(Rows(), id) { return Rejected(NotFound); }
      var s := schedules[id];
      var replay := Replay(Rows(), request, Replace(id, d, expected));
      if replay.Some? { return replay.value; }
      var error := VersionError(s, expected);
      if error.Some? { return Rejected(error.value); }
      var checked := ValidateDraft(s.zone, d, Some(CurrentState(s)), now);
      if checked.Failure? { return Rejected(checked.error); }
      if AllocationConflict(allocations, id, BlockTasks(d.content.blocks)) { return Rejected(TaskAlreadyScheduled); }
      var kept := UpTo(s.revisions, s.current);
      var next := s.version + 1;
      var trimmed := Trimmed(kept[next := checked.value.state]);
      r := Write(id, s.(version := next, current := next, revisions := trimmed), d.content.blocks, request,
                 Replace(id, d, expected));
    }

    method TravelSchedule(request: RequestId, id: ScheduleId, direction: Direction, expected: int, now: int)
        returns (r: Response)
      requires DbReady(Rows()) && StatesValid(Rows())
      modifies this`schedules, this`allocations, this`receipts
      ensures (Rows(), r) == DoTravel(old(Rows()), request, id, direction, expected, now)
    {
      hide Validate, DbReady, Written, Answer;
      if !Found(Rows(), id) { return Rejected(NotFound); }
      var s := schedules[id];
      var replay := Replay(Rows(), request, Travel(id, direction, expected));
      if replay.Some? { return replay.value; }
      var error := VersionError(s, expected);
      if error.Some? { return Rejected(error.value); }
      var target := Target(s, direction);
      if target.None? { return Rejected(HistoryBoundary); }
      var d := s.revisions[target.value].draft;
      StoredDraftValid(s, target.value);
      var checked := ValidateDraft(s.zone, d, Some(CurrentState(s)), now);
      if checked.Failure? { return Rejected(checked.error); }
      if AllocationConflict(allocations, id, BlockTasks(d.content.blocks)) { return Rejected(TaskAlreadyScheduled); }
      r := Write(id, s.(version := s.version + 1, current := target.value), d.content.blocks, request,
                 Travel(id, direction, expected));
    }

    // ----- Task and preference edits -----

    /** Applies a patch to a live row at the named version if the whole task stays valid; a refused
        edit changes nothing. */
    method UpdateTaskRow(id: TaskId, expected: int, patch: Patch) returns (error: Option<EditCode>)
      requires DbReady(Rows()) && StatesValid(Rows()) && ValidPatch(patch)
      modifies this`tasks
      ensures Rows() == Step(old(Rows()), UpdateTask(id, expected, patch))
      ensures error == UpdateError(old(Rows()), id, expected, patch)
    {
      hide StatesValid, ValidRows;
      if id !in tasks || tasks[id].deleted { return Some(UnknownTask); }
      var current := tasks[id].task;
      if current.version != expected { return Some(StaleTask); }
      var prepared := Patched(current, patch);
      if !HoldsDuration(prepared) || current.version >= MAX_VERSION { return Some(InvalidTaskChange); }
      tasks := tasks[id := TaskRow(prepared.(version := current.version + 1), false)];
      error := None;
    }

    /** Leaves a tombstone. */
    method DeleteTaskRow(id: TaskId, expected: int) returns (done: bool)
      requires DbReady(Rows()) && StatesValid(Rows())
      modifies this`tasks
      ensures Rows() == Step(old(Rows()), DeleteTask(id, expected))
      ensures done == Editable(old(Rows()), id, expected)
    {
      hide StatesValid, ValidRows;
      done := id in tasks && !tasks[id].deleted && tasks[id].task.version == expected && expected < MAX_VERSION;
      if done { tasks := tasks[id := TaskRow(tasks[id].task.(version := expected + 1), true)]; }
    }

    method UpdatePreferenceRow(expected: int, values: Preferences) returns (done: bool)
      requires DbReady(Rows()) && StatesValid(Rows()) && ValidPreferences(values)
      modifies this`prefs
      ensures Rows() == Step(old(Rows()), UpdatePreferences(expected, values))
      ensures done == (old(prefs).version == expected && expected < MAX_VERSION)
    {
      hide StatesValid, ValidRows;
      done := prefs.version == expected && expected < MAX_VERSION;
      if done { prefs := values.(version := expected + 1); }
    }
  }

  lemma BlockTasksAppend(blocks: seq<Block>, k: nat)
    requires k < |blocks|
    ensures BlockTasks(blocks[..k + 1]) == BlockTasks(blocks[..k]) + {blocks[k].task}
  {
    assert blocks[..k + 1] == blocks[..k] + [blocks[k]];
    forall t ensures t in BlockTasks(blocks[..k + 1]) <==> t in BlockTasks(blocks[..k]) + {blocks[k].task} {
      if t in BlockTasks(blocks[..k]) {
        var b :| b in blocks[..k] && b.task == t;
        assert b in blocks[..k + 1];
      }
      assert blocks[k] in blocks[..k + 1];
    }
  }

  lemma StoredDraftValid(s: Schedule, r: int)
    requires RevisionsValid(s) && r in s.revisions
    ensures ValidDraft(s.revisions[r].draft)
  {
    hide ValidDraft;
  }
}
