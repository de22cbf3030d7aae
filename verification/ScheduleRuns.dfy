/** The invariant holds in every reachable state: each step keeps it, so every run does. */
module ScheduleRuns {
  import opened PlanningModels
  import opened ScheduleModels
  import opened ScheduleSteps
  import opened ScheduleCommits
  import opened ScheduleInvariants

  // ----- Allocations -----

  lemma ReallocatedMeans(allocations: map<TaskId, ScheduleId>, id: ScheduleId, tasks: set<TaskId>, t: TaskId,
                         other: ScheduleId)
    requires !AllocationConflict(allocations, id, tasks)
    ensures var after := Reallocated(allocations, id, tasks);
      (t in after && after[t] == other) <==>
        if other == id then t in tasks else t in allocations && allocations[t] == other
  {
  }

  lemma CommitAllocations(db: Db, request: RequestId, command: Command, id: ScheduleId, s: Schedule)
    requires AllocationsExact(db) && s.current in s.revisions
    requires !AllocationConflict(db.allocations, id, BlockTasks(CommittedDraft(s).content.blocks))
    ensures AllocationsExact(Committed(db, request, command, id, s))
  {
    hide BlockTasks, AllocationConflict, Reallocated;
    var after, tasks := Committed(db, request, command, id, s), BlockTasks(CommittedDraft(s).content.blocks);
    forall t, other ensures (t in after.allocations && after.allocations[t] == other) <==> GivesTime(after, other, t) {
      ReallocatedMeans(db.allocations, id, tasks, t, other);
      assert (t in db.allocations && db.allocations[t] == other) <==> GivesTime(db, other, t);
    }
  }

  // ----- Receipts -----

  lemma CommitReceipts(db: Db, request: RequestId, command: Command, id: ScheduleId, s: Schedule)
    requires ReceiptsExact(db) && request !in db.receipts && s.current in s.revisions
    requires if id in db.schedules then s.version == db.schedules[id].version + 1 else s.version == 1
    requires id in db.schedules ==> db.schedules[id].version >= 1
    requires Names(command, id)
    ensures ReceiptsExact(Committed(db, request, command, id, s))
  {
    hide BlockTasks, Reallocated;
    var after := Committed(db, request, command, id, s);
    forall q, other, v | Applied(after, q, other, v)
      ensures if q == request then other == id && v == s.version
              else Applied(db, q, other, v) && HasVersion(db, other, v)
    {
      if q != request { assert HasVersion(db, db.receipts[q].schedule, db.receipts[q].applied); }
    }
    forall q | q in after.receipts ensures HasVersion(after, after.receipts[q].schedule, after.receipts[q].applied) {
      if q != request { assert HasVersion(db, db.receipts[q].schedule, db.receipts[q].applied); }
    }
    forall other, v | HasVersion(after, other, v) ensures exists q :: Applied(after, q, other, v) {
      if other == id && v == s.version {
        assert Applied(after, request, other, v);
      } else {
        assert HasVersion(db, other, v);
        var q :| Applied(db, q, other, v);
        assert Applied(after, q, other, v);
      }
    }
  }

  // ----- A commit keeps the invariant -----

  lemma CommitHorizons(db: Db, request: RequestId, command: Command, id: ScheduleId, s: Schedule)
    requires HorizonsApart(db) && s.current in s.revisions
    requires if id in db.schedules then s.start == db.schedules[id].start && s.end == db.schedules[id].end
             else forall other :: other in db.schedules ==> HorizonsMiss(db.schedules[other], s)
    ensures HorizonsApart(Committed(db, request, command, id, s))
  {
    var after := Committed(db, request, command, id, s);
    forall a, b | a in after.schedules && b in after.schedules && a != b
      ensures HorizonsMiss(after.schedules[a], after.schedules[b])
    {
      if a in db.schedules && b in db.schedules { assert HorizonsMiss(db.schedules[a], db.schedules[b]); }
    }
  }

  lemma CommitSchedules(db: Db, request: RequestId, command: Command, id: ScheduleId, s: Schedule, other: ScheduleId)
    requires ScheduleOK(db, s) && forall i :: i in db.schedules ==> ScheduleOK(db, db.schedules[i])
    requires s.current in s.revisions && other in Committed(db, request, command, id, s).schedules
    ensures ScheduleOK(Committed(db, request, command, id, s), Committed(db, request, command, id, s).schedules[other])
  {
    hide Numbered, AllFit;
    var after := Committed(db, request, command, id, s);
    var x := after.schedules[other];
    assert ScheduleOK(db, x);
    forall r | r in x.revisions ensures NotAhead(after, x.revisions[r].draft) {
      assert NotAhead(db, x.revisions[r].draft);
    }
  }

  lemma CommitKeepsInv(db: Db, request: RequestId, command: Command, now: int, id: ScheduleId, s: Schedule)
    requires Inv(db) && StatesValid(db) && ValidCommand(command) && Commits(db, request, command, now, id, s)
    ensures Inv(Committed(db, request, command, id, s))
  {
    hide ScheduleOK, AllocationsExact, ReceiptsExact, HorizonsApart, BlockTasks, Reallocated, AllocationConflict,
         StatesValid, CommitsCreate, CommitsReplace, CommitsTravel, Fresh, ValidCommand;
    var after := Committed(db, request, command, id, s);
    CommitOK(db, request, command, now, id, s);
    CommitAllocations(db, request, command, id, s);
    if id in db.schedules { NumberedHere(db, db.schedules[id]); }
    CommitReceipts(db, request, command, id, s);
    CommitHorizons(db, request, command, id, s);
    forall other | other in after.schedules ensures ScheduleOK(after, after.schedules[other]) {
      CommitSchedules(db, request, command, id, s, other);
    }
  }

  lemma NumberedHere(db: Db, s: Schedule)
    requires ScheduleOK(db, s)
    ensures Numbered(s)
  {
  }

  // ----- Environment steps -----

  ghost predicate RowForward(a: Db, b: Db, t: TaskId)
    requires t in a.tasks
  {
    t in b.tasks && a.tasks[t].task.version <= b.tasks[t].task.version && (a.tasks[t].deleted ==> b.tasks[t].deleted)
  }

  /** Rows only move forward: tasks stay, versions never fall, and a tombstone is final. */
  ghost predicate Forward(a: Db, b: Db) {
    && a.prefs.version <= b.prefs.version
    && forall t :: t in a.tasks ==> RowForward(a, b, t)
  }

  lemma ForwardNotAhead(a: Db, b: Db, d: Draft)
    requires Forward(a, b) && NotAhead(a, d)
    ensures NotAhead(b, d)
  {
    forall t | t in d.taskVersions ensures t in b.tasks && d.taskVersions[t] <= b.tasks[t].task.version {
      assert RowForward(a, b, t);
    }
  }

  lemma SourcesOnly(db: Db, after: Db)
    requires Inv(db) && Forward(db, after) && DbReady(after)
    requires after.schedules == db.schedules && after.receipts == db.receipts && after.allocations == db.allocations
    ensures Inv(after)
  {
    hide Forward, NotAhead, DbReady, Numbered, AllFit;
    forall id | id in after.schedules ensures ScheduleOK(after, after.schedules[id]) {
      var s := db.schedules[id];
      assert ScheduleOK(db, s);
      forall r | r in s.revisions ensures NotAhead(after, s.revisions[r].draft) {
        ForwardNotAhead(db, after, s.revisions[r].draft);
      }
    }
    assert AllocationsExact(after) by { SameAllocations(db, after); }
    assert ReceiptsExact(after) by { SameReceipts(db, after); }
  }

  lemma SameAllocations(db: Db, after: Db)
    requires AllocationsExact(db) && after.schedules == db.schedules && after.allocations == db.allocations
    ensures AllocationsExact(after)
  {
    forall t, id ensures (t in after.allocations && after.allocations[t] == id) <==> GivesTime(after, id, t) {
      assert (t in db.allocations && db.allocations[t] == id) <==> GivesTime(db, id, t);
    }
  }

  lemma SameReceipts(db: Db, after: Db)
    requires ReceiptsExact(db) && after.schedules == db.schedules && after.receipts == db.receipts
    ensures ReceiptsExact(after)
  {
    forall q | q in after.receipts ensures HasVersion(after, after.receipts[q].schedule, after.receipts[q].applied) {
      assert HasVersion(db, db.receipts[q].schedule, db.receipts[q].applied);
    }
    forall id, v | HasVersion(after, id, v) ensures exists q :: Applied(after, q, id, v) {
      assert HasVersion(db, id, v);
      var q :| Applied(db, q, id, v);
      assert Applied(after, q, id, v);
    }
    forall p, q, id, v | Applied(after, p, id, v) && Applied(after, q, id, v) ensures p == q {
      assert Applied(db, p, id, v) && Applied(db, q, id, v);
    }
  }

  lemma RowWritten(db: Db, id: TaskId, row: TaskRow)
    requires DbReady(db) && row.task.id == id && ValidTask(row.task)
    requires id in db.tasks ==> !db.tasks[id].deleted && db.tasks[id].task.version <= row.task.version
    ensures Forward(db, db.(tasks := db.tasks[id := row])) && DbReady(db.(tasks := db.tasks[id := row]))
  {
  }

  /** Task and preference edits only move rows forward; schedules and receipts are untouched. */
  lemma EnvironmentForward(db: Db, e: Action)
    requires DbReady(db) && StatesValid(db) && ValidAction(e) && !e.Run?
    ensures var after := Step(db, e);
      && Forward(db, after) && DbReady(after)
      && after.schedules == db.schedules && after.receipts == db.receipts && after.allocations == db.allocations
  {
    hide Forward, DbReady, StatesValid;
    SameForward(db);
    match e
    case AddTask(task) =>
      if task.id !in db.tasks { RowWritten(db, task.id, TaskRow(task.(version := 1), false)); }
    case UpdateTask(id, expected, patch) =>
      if UpdateError(db, id, expected, patch).None? { UpdatedForward(db, id, expected, patch); }
    case DeleteTask(id, expected) =>
      if Editable(db, id, expected) { DeletedForward(db, id, expected); }
    case UpdatePreferences(expected, values) => PreferencesForward(db, expected, values);
  }

  lemma UpdatedForward(db: Db, id: TaskId, expected: int, patch: Patch)
    requires DbReady(db) && ValidPatch(patch) && UpdateError(db, id, expected, patch).None?
    ensures var row := TaskRow(Patched(db.tasks[id].task, patch).(version := expected + 1), false);
      Forward(db, db.(tasks := db.tasks[id := row])) && DbReady(db.(tasks := db.tasks[id := row]))
  {
    RowWritten(db, id, TaskRow(Patched(db.tasks[id].task, patch).(version := expected + 1), false));
  }

  lemma DeletedForward(db: Db, id: TaskId, expected: int)
    requires DbReady(db) && Editable(db, id, expected)
    ensures var row := TaskRow(db.tasks[id].task.(version := expected + 1), true);
      Forward(db, db.(tasks := db.tasks[id := row])) && DbReady(db.(tasks := db.tasks[id := row]))
  {
    RowWritten(db, id, TaskRow(db.tasks[id].task.(version := expected + 1), true));
  }

  lemma SameForward(db: Db)
    ensures Forward(db, db)
  {
  }

  lemma PreferencesForward(db: Db, expected: int, values: Preferences)
    requires DbReady(db) && ValidPreferences(values)
    ensures db.prefs.version == expected ==>
      Forward(db, db.(prefs := values.(version := expected + 1)))
        && DbReady(db.(prefs := values.(version := expected + 1)))
  {
  }

  /** One step of anyone keeps the invariant. */
  lemma StepKeepsInv(db: Db, e: Action)
    requires Inv(db) && DbReady(db) && StatesValid(db) && ValidAction(e)
    ensures Inv(Step(db, e)) && DbReady(Step(db, e)) && StatesValid(Step(db, e))
  {
    hide Inv, StatesValid, DbReady, Execute, Forward, Commits, ValidCommand;
    InvReady(db);
    if e.Run? {
      if Execute(db, e.request, e.command, e.now, e.newId).0 != db {
        var id, s := ExecuteCommits(db, e.request, e.command, e.now, e.newId);
        CommitKeepsInv(db, e.request, e.command, e.now, id, s);
      }
    } else {
      EnvironmentForward(db, e);
      SourcesOnly(db, Step(db, e));
    }
    InvReady(Step(db, e));
  }

  // ----- Runs -----

  predicate AllValid(es: seq<Action>) {
    forall k :: 0 <= k < |es| ==> ValidAction(es[k])
  }

  /** The rows after the first `n` steps of a run; every one of them satisfies the invariant. */
  ghost function After(db: Db, es: seq<Action>, n: nat): (r: Db)
    requires Inv(db) && AllValid(es) && n <= |es|
    ensures Inv(r)
  {
    if n == 0 then db
    else
      var before := After(db, es, n - 1);
      InvReady(before);
      StepKeepsInv(before, es[n - 1]);
      Step(before, es[n - 1])
  }

  /** A new owner: default preferences, no rows. */
  function NewOwner(zone: Zone, prefs: Preferences): Db {
    Db(zone, map[], prefs, map[], map[], map[])
  }

  lemma NewOwnerInv(zone: Zone, prefs: Preferences)
    requires ValidPreferences(prefs)
    ensures Inv(NewOwner(zone, prefs))
  {
  }

  /** The step from `n` to `n + 1`. */
  lemma AfterStep(db: Db, es: seq<Action>, n: nat)
    requires Inv(db) && AllValid(es) && n < |es|
    ensures var before := After(db, es, n);
      DbReady(before) && StatesValid(before) && RevisionsBounded(before) && ValidAction(es[n])
      && After(db, es, n + 1) == Step(before, es[n])
  {
    hide Inv, DbReady, StatesValid, RevisionsBounded, ValidAction, Step;
    InvReady(After(db, es, n));
  }

  /** Either a step leaves the schedules and receipts alone, or it is one commit. */
  lemma StepShape(db: Db, e: Action) returns (committed: bool, id: ScheduleId, s: Schedule)
    requires Inv(db) && DbReady(db) && StatesValid(db) && ValidAction(e)
    ensures !committed ==>
      var after := Step(db, e);
      after.schedules == db.schedules && after.receipts == db.receipts && after.allocations == db.allocations
    ensures committed ==> e.Run? && Commits(db, e.request, e.command, e.now, id, s)
    ensures committed ==> Step(db, e) == Committed(db, e.request, e.command, id, s)
    ensures e.Run? ==> (committed <==> Step(db, e) != db)
    ensures Forward(db, Step(db, e))
  {
    hide Inv, Execute, Forward, Commits, DbReady, StatesValid;
    InvReady(db);
    SameForward(db);
    id, s, committed := 0, Schedule(0, 0, db.zone, 0, 0, map[]), false;
    if e.Run? {
      if Execute(db, e.request, e.command, e.now, e.newId).0 != db {
        id, s := ExecuteCommits(db, e.request, e.command, e.now, e.newId);
        committed := true;
        CommitForward(db, e.request, e.command, e.now, id, s);
      }
    } else {
      EnvironmentForward(db, e);
    }
  }

  lemma CommitForward(db: Db, request: RequestId, command: Command, now: int, id: ScheduleId, s: Schedule)
    requires DbReady(db) && StatesValid(db) && ValidCommand(command) && Commits(db, request, command, now, id, s)
    ensures Forward(db, Committed(db, request, command, id, s))
    ensures Committed(db, request, command, id, s).tasks == db.tasks
    ensures Committed(db, request, command, id, s).prefs == db.prefs
  {
    hide DbReady, StatesValid, ValidCommand, CommitsCreate, CommitsReplace, CommitsTravel, AllocationConflict;
  }
}
