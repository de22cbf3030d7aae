/** What every reachable state of an owner's rows satisfies. */
module ScheduleInvariants {
  import opened FiniteSets
  import opened Wrappers
  import opened PlanningModels
  import opened PlanningGrid
  import opened ScheduleModels
  import opened ScheduleSteps
  import opened ScheduleCommits

  // ----- One schedule -----

  /** Cursor and revisions are numbered within 1..version and the cursor's revision exists. */
  ghost predicate Numbered(s: Schedule) {
    1 <= s.current <= s.version && s.current in s.revisions && Bounded(s) && |s.revisions| <= HISTORY_LIMIT
  }

  /** A stored state was validated for this schedule's own horizon. */
  ghost predicate FitsHorizon(s: Schedule, d: Draft) {
    && ValidDraft(d)
    && HorizonIs(d.content.window, s.zone, s.start, s.end)
    && InHorizon(s.start, s.end, d.content.blocks)
  }

  ghost predicate AllFit(s: Schedule) {
    forall r :: r in s.revisions ==> FitsHorizon(s, s.revisions[r].draft)
  }

  /** Recorded source versions never run ahead of the live rows. */
  ghost predicate NotAhead(db: Db, d: Draft) {
    && d.preferenceVersion <= db.prefs.version
    && forall t :: t in d.taskVersions ==> t in db.tasks && d.taskVersions[t] <= db.tasks[t].task.version
  }

  ghost predicate NoneAhead(db: Db, s: Schedule) {
    forall r :: r in s.revisions ==> NotAhead(db, s.revisions[r].draft)
  }

  ghost predicate ScheduleOK(db: Db, s: Schedule) {
    Numbered(s) && AllFit(s) && NoneAhead(db, s)
  }

  // ----- Across schedules -----

  predicate HorizonsMiss(a: Schedule, b: Schedule) { a.end <= b.start || b.end <= a.start }

  ghost predicate HorizonsApart(db: Db) {
    forall a, b :: a in db.schedules && b in db.schedules && a != b ==> HorizonsMiss(db.schedules[a], db.schedules[b])
  }

  /** The tasks to which a schedule's current revision gives time. */
  ghost predicate GivesTime(db: Db, id: ScheduleId, t: TaskId) {
    Found(db, id) && t in BlockTasks(CurrentState(db.schedules[id]).draft.content.blocks)
  }

  /** The allocation table is the projection of the current revisions. */
  ghost predicate AllocationsExact(db: Db) {
    forall t, id :: (t in db.allocations && db.allocations[t] == id) <==> GivesTime(db, id, t)
  }

  ghost predicate Applied(db: Db, q: RequestId, id: ScheduleId, v: int) {
    q in db.receipts && db.receipts[q].schedule == id && db.receipts[q].applied == v
  }

  /** A receipt's command is about the receipt's schedule. */
  predicate Names(c: Command, id: ScheduleId) { c.Create? || c.id == id }

  predicate HasVersion(db: Db, id: ScheduleId, v: int) {
    id in db.schedules && 1 <= v <= db.schedules[id].version
  }

  /** Receipts of a schedule carry the versions 1..version, each exactly once. */
  ghost predicate ReceiptsExact(db: Db) {
    && (forall q :: q in db.receipts ==> HasVersion(db, db.receipts[q].schedule, db.receipts[q].applied))
    && (forall q :: q in db.receipts ==> Names(db.receipts[q].command, db.receipts[q].schedule))
    && (forall id, v :: HasVersion(db, id, v) ==> exists q :: Applied(db, q, id, v))
    && (forall p, q, id, v :: Applied(db, p, id, v) && Applied(db, q, id, v) ==> p == q)
  }

  ghost predicate Inv(db: Db) {
    && DbReady(db)
    && (forall id :: id in db.schedules ==> ScheduleOK(db, db.schedules[id]))
    && HorizonsApart(db)
    && AllocationsExact(db)
    && ReceiptsExact(db)
  }

  lemma InvReady(db: Db)
    requires Inv(db)
    ensures DbReady(db) && StatesValid(db) && RevisionsBounded(db)
  {
    forall id | id in db.schedules ensures RevisionsValid(db.schedules[id]) && Bounded(db.schedules[id]) {
      assert ScheduleOK(db, db.schedules[id]);
      forall r | r in db.schedules[id].revisions ensures ValidDraft(db.schedules[id].revisions[r].draft) {
        assert FitsHorizon(db.schedules[id], db.schedules[id].revisions[r].draft);
      }
    }
  }

  // ----- A commit keeps its schedule in order -----

  lemma {:induction false} TrimKeepsLimit(revisions: map<int, SavedState>, keep: set<int>)
    requires keep <= revisions.Keys
    requires forall r :: r in keep ==> |Newer(revisions, r) * keep| < HISTORY_LIMIT
    ensures |keep| <= HISTORY_LIMIT
  {
    if keep != {} {
      var low := Lowest(keep);
      assert keep - {low} <= Newer(revisions, low) * keep;
      SubsetCard(keep - {low}, Newer(revisions, low) * keep);
    }
  }

  lemma TrimmedLimit(revisions: map<int, SavedState>)
    ensures |Trimmed(revisions)| <= HISTORY_LIMIT
    ensures Trimmed(revisions).Keys <= revisions.Keys
  {
    var keep := Trimmed(revisions).Keys;
    forall r | r in keep ensures |Newer(revisions, r) * keep| < HISTORY_LIMIT {
      SubsetCard(Newer(revisions, r) * keep, Newer(revisions, r));
    }
    TrimKeepsLimit(revisions, keep);
    assert |keep| == |Trimmed(revisions)|;
  }

  lemma SameHorizon(s: Schedule, was: Draft, d: Draft, start: int, end: int)
    requires HorizonIs(was.content.window, s.zone, s.start, s.end)
    requires HorizonIs(d.content.window, s.zone, start, end)
    requires d.content.window.startDate == was.content.window.startDate
    requires d.content.window.days == was.content.window.days
    ensures start == s.start && end == s.end
  {
    hide HorizonOf;
  }

  lemma ReplacedOK(db: Db, id: ScheduleId, d: Draft, expected: int, now: int, s: Schedule)
    requires Inv(db) && ValidDraft(d) && CommitsReplace(db, id, d, expected, now, s)
    ensures ScheduleOK(db, s)
    ensures s.start == db.schedules[id].start && s.end == db.schedules[id].end && s.zone == db.schedules[id].zone
    ensures CurrentState(s).draft == d && Fresh(db, d)
  {
    hide HorizonIs, InHorizon, ValidDraft, Validate, DbReady, HorizonsApart, AllocationsExact, ReceiptsExact,
         PlacementError;
    var was := db.schedules[id];
    var v := Validate(db, was.zone, d, Some(CurrentState(was)), now);
    assert ScheduleOK(db, was);
    ValidateFacts(db, was.zone, d, Some(CurrentState(was)), now);
    assert FitsHorizon(was, CurrentState(was).draft);
    SameHorizon(was, CurrentState(was).draft, d, v.value.start, v.value.end);
    CurrentAfterTrim(was, v.value.state);
    TrimmedLimit(UpTo(was.revisions, was.current)[was.version + 1 := v.value.state]);
    hide FitsHorizon, NotAhead, UpTo, Trimmed, Fresh;
    NewDraftOK(db, s, d);
    forall r | r in s.revisions
      ensures 1 <= r <= s.version && FitsHorizon(s, s.revisions[r].draft) && NotAhead(db, s.revisions[r].draft)
    {
      ReplacedStates(was, v.value.state, r);
      if r != s.version { SameFit(was, s, was.revisions[r].draft); }
    }
  }

  lemma ReplacedStates(s: Schedule, state: SavedState, r: int)
    requires Bounded(s) && r in Replaced(s, state).revisions
    ensures if r == s.version + 1 then Replaced(s, state).revisions[r] == state
            else r in s.revisions && r <= s.current && Replaced(s, state).revisions[r] == s.revisions[r]
  {
  }

  lemma NewDraftOK(db: Db, s: Schedule, d: Draft)
    requires Fresh(db, d) && ValidDraft(d) && HorizonIs(d.content.window, s.zone, s.start, s.end)
    requires InHorizon(s.start, s.end, d.content.blocks)
    ensures FitsHorizon(s, d) && NotAhead(db, d)
  {
    hide HorizonIs, InHorizon, ValidDraft;
  }

  lemma SameFit(a: Schedule, b: Schedule, d: Draft)
    requires a.zone == b.zone && a.start == b.start && a.end == b.end && FitsHorizon(a, d)
    ensures FitsHorizon(b, d)
  {
    hide HorizonIs, InHorizon, ValidDraft;
  }

  lemma TraveledOK(db: Db, id: ScheduleId, direction: Direction, expected: int, now: int, s: Schedule)
    requires Inv(db) && StatesValid(db) && CommitsTravel(db, id, direction, expected, now, s)
    ensures ScheduleOK(db, s) && s.current in s.revisions
    ensures s.start == db.schedules[id].start && s.end == db.schedules[id].end && s.zone == db.schedules[id].zone
    ensures Fresh(db, CurrentState(s).draft)
  {
    hide HorizonIs, InHorizon, ValidDraft, Validate, DbReady, HorizonsApart, AllocationsExact, ReceiptsExact,
         PlacementError;
    var was := db.schedules[id];
    assert ScheduleOK(db, was);
    var r := Target(was, direction).value;
    ValidateFacts(db, was.zone, was.revisions[r].draft, Some(CurrentState(was)), now);
    forall k | k in s.revisions ensures FitsHorizon(s, s.revisions[k].draft) {
      assert FitsHorizon(was, was.revisions[k].draft);
    }
  }

  lemma DbReadyHere(db: Db)
    requires Inv(db)
    ensures DbReady(db)
  {
  }

  lemma HorizonOrdered(w: PlanningWindow, zone: Zone, start: int, end: int)
    requires HorizonIs(w, zone, start, end)
    ensures start < end
  {
  }

  lemma FirstRevisionOK(db: Db, d: Draft, s: Schedule)
    requires ValidDraft(d) && Fresh(db, d)
    requires s.version == s.current == 1 && s.revisions.Keys == {1} && s.revisions[1].draft == d
    requires HorizonIs(d.content.window, s.zone, s.start, s.end) && InHorizon(s.start, s.end, d.content.blocks)
    ensures ScheduleOK(db, s)
  {
    hide HorizonIs, InHorizon, ValidDraft;
    assert |s.revisions| == |s.revisions.Keys| == 1;
  }

  lemma CreatedOK(db: Db, d: Draft, now: int, id: ScheduleId, s: Schedule)
    requires Inv(db) && ValidDraft(d) && CommitsCreate(db, d, now, id, s)
    ensures ScheduleOK(db, s) && s.start < s.end
    ensures CurrentState(s).draft == d && Fresh(db, d)
    ensures forall other :: other in db.schedules ==> HorizonsMiss(db.schedules[other], s)
  {
    hide HorizonOf, InHorizon, ValidDraft, Validate, Inv, PlacementError, HorizonIs;
    DbReadyHere(db);
    ValidateFacts(db, db.zone, d, None, now);
    HorizonOrdered(d.content.window, s.zone, s.start, s.end);
    FirstRevisionOK(db, d, s);
  }

  /** The committed schedule is in order, keeps its horizon, and its sources are fresh. */
  lemma CommitOK(db: Db, request: RequestId, command: Command, now: int, id: ScheduleId, s: Schedule)
    requires Inv(db) && StatesValid(db) && ValidCommand(command) && Commits(db, request, command, now, id, s)
    ensures ScheduleOK(db, s) && Fresh(db, CommittedDraft(s))
    ensures command.Create? <==> id !in db.schedules
    ensures Names(command, id)
    ensures id in db.schedules ==> s.start == db.schedules[id].start && s.end == db.schedules[id].end
                                   && s.zone == db.schedules[id].zone && s.version == db.schedules[id].version + 1
    ensures id !in db.schedules ==> s.version == 1 && forall other :: other in db.schedules ==>
      HorizonsMiss(db.schedules[other], s)
  {
    hide ScheduleOK, Inv, ValidDraft, StatesValid;
    match command
    case Create(d) => CreatedOK(db, d, now, id, s);
    case Replace(_, d, expected) => ReplacedOK(db, id, d, expected, now, s);
    case Travel(_, direction, expected) => TraveledOK(db, id, direction, expected, now, s);
  }
}
