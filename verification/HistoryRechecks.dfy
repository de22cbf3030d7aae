/** Stored revisions stay valid: as long as a revision's sources are fresh, its content passes the
    same checks again, and no locked block is missing from the revision after it. */
module HistoryRechecks {
  import opened Wrappers
  import opened PlanningModels
  import opened Previews
  import opened FiniteSets
  import opened ScheduleModels
  import opened ScheduleSteps
  import opened ScheduleCommits
  import opened ScheduleInvariants
  import opened ScheduleRuns
  import opened ScheduleTheorems

  // ----- Same version, same row -----

  /** A source row whose version has not risen is the same row. */
  ghost predicate Steady(a: Db, b: Db) {
    && (a.prefs.version == b.prefs.version ==> a.prefs == b.prefs)
    && forall t :: t in a.tasks && t in b.tasks ==> SameWhenUnraised(a.tasks[t], b.tasks[t])
  }

  predicate SameWhenUnraised(a: TaskRow, b: TaskRow) {
    !b.deleted && a.task.version == b.task.version ==> a == b
  }

  lemma EnvironmentSteady(db: Db, e: Action)
    requires DbReady(db) && StatesValid(db) && ValidAction(e) && !e.Run?
    ensures Steady(db, Step(db, e))
  {
    hide DbReady, StatesValid;
  }

  /** A draft fresh now was fresh before, on the same rows. */
  lemma FreshBefore(a: Db, b: Db, d: Draft)
    requires Forward(a, b) && Steady(a, b) && NotAhead(a, d) && Fresh(b, d)
    ensures Fresh(a, d) && a.prefs == b.prefs
    ensures forall t :: t in d.taskVersions ==> t in a.tasks && t in b.tasks && a.tasks[t] == b.tasks[t]
  {
    forall t | t in d.taskVersions
      ensures t in a.tasks && t in b.tasks && !Missing(a, t) && a.tasks[t].task.version == d.taskVersions[t]
              && a.tasks[t] == b.tasks[t]
    {
      assert RowForward(a, b, t) && SameWhenUnraised(a.tasks[t], b.tasks[t]);
    }
  }

  /** The content check reads only the draft's own rows and the preferences. */
  lemma SameCheck(a: Db, b: Db, zone: Zone, d: Draft)
    requires DbReady(a) && DbReady(b) && ValidDraft(d) && Fresh(a, d) && Fresh(b, d) && a.prefs == b.prefs
    requires forall t :: t in d.taskVersions ==> t in a.tasks && t in b.tasks && a.tasks[t] == b.tasks[t]
    ensures CheckContent(a, zone, d) == CheckContent(b, zone, d)
  {
    hide Inspect, ValidInputs;
    SelectedValid(a, d);
    SelectedValid(b, d);
    var ids := d.content.window.taskIds;
    forall k | 0 <= k < |ids| ensures a.tasks[ids[k]] == b.tasks[ids[k]] {
      assert ids[k] in d.taskVersions.Keys;
    }
    assert Selected(a, ids) == Selected(b, ids);
  }

  // ----- The invariant -----

  ghost predicate ContentPasses(db: Db, zone: Zone, d: Draft)
    requires DbReady(db)
  {
    ValidDraft(d) && (Fresh(db, d) ==> CheckContent(db, zone, d).Success?)
  }

  ghost predicate SameDays(a: Draft, b: Draft) {
    SameHorizonDays(a.content.window, b.content.window)
  }

  /** While the older draft is fresh, the newer one holds each of its locked blocks. */
  ghost predicate LocksCarried(db: Db, older: Draft, newer: Draft) {
    Fresh(db, older) ==> forall b :: b in older.content.blocks && b.locked ==> HasKey(newer.content.blocks, b)
  }

  ghost predicate Neighbours(revisions: map<int, SavedState>, r: int, k: int) {
    r in revisions && k in revisions && r < k && forall m :: m in revisions ==> m <= r || k <= m
  }

  ghost predicate HistoryOf(db: Db, s: Schedule)
    requires DbReady(db)
  {
    && (forall r :: r in s.revisions ==> ContentPasses(db, s.zone, s.revisions[r].draft))
    && (forall r, k :: r in s.revisions && k in s.revisions ==> SameDays(s.revisions[r].draft, s.revisions[k].draft))
    && (forall r, k :: r in s.revisions && k in s.revisions && Neighbours(s.revisions, r, k)
         ==> LocksCarried(db, s.revisions[r].draft, s.revisions[k].draft))
  }

  ghost predicate HistoryOK(db: Db)
    requires DbReady(db)
  {
    forall id :: id in db.schedules ==> HistoryOf(db, db.schedules[id])
  }

  // ----- Source edits keep it -----

  lemma ContentStillPasses(a: Db, b: Db, zone: Zone, d: Draft)
    requires DbReady(a) && DbReady(b) && Forward(a, b) && Steady(a, b) && NotAhead(a, d) && ContentPasses(a, zone, d)
    ensures ContentPasses(b, zone, d)
  {
    hide CheckContent, DbReady, ValidDraft, Forward, Steady, NotAhead;
    if Fresh(b, d) {
      FreshBefore(a, b, d);
      SameCheck(a, b, zone, d);
    }
  }

  lemma HistoryForward(a: Db, b: Db, s: Schedule)
    requires DbReady(a) && DbReady(b) && Forward(a, b) && Steady(a, b) && NoneAhead(a, s) && HistoryOf(a, s)
    ensures HistoryOf(b, s)
  {
    hide CheckContent, DbReady, Forward, Steady, Neighbours, NotAhead, ContentPasses, SameDays, Fresh;
    forall r | r in s.revisions ensures ContentPasses(b, s.zone, s.revisions[r].draft) {
      assert NotAhead(a, s.revisions[r].draft);
      ContentStillPasses(a, b, s.zone, s.revisions[r].draft);
    }
    forall r, k | r in s.revisions && k in s.revisions && Neighbours(s.revisions, r, k)
      ensures LocksCarried(b, s.revisions[r].draft, s.revisions[k].draft)
    {
      assert NotAhead(a, s.revisions[r].draft) && LocksCarried(a, s.revisions[r].draft, s.revisions[k].draft);
      if Fresh(b, s.revisions[r].draft) { FreshBefore(a, b, s.revisions[r].draft); }
    }
  }

  // ----- Commits keep it -----

  /** A committed draft passes the content check. */
  lemma ValidateChecks(db: Db, zone: Zone, d: Draft, previous: Option<SavedState>, now: int)
    requires DbReady(db) && ValidDraft(d) && Validate(db, zone, d, previous, now).Success?
    ensures Fresh(db, d) && CheckContent(db, zone, d).Success?
  {
    hide CheckContent, PlacementError, DbReady, ValidDraft;
  }

  /** A draft that passed the placement check holds the locked blocks of a fresh older draft. */
  lemma PlacementCarries(db: Db, zone: Zone, older: Draft, newer: Draft, now: int)
    requires DbReady(db) && ContentPasses(db, zone, older)
    requires PlacementError(db, older.content.blocks, newer.content.blocks, now) == None
    ensures LocksCarried(db, older, newer)
  {
    hide CheckContent, DbReady, ValidDraft, Fresh, Protected, HasKey;
    if Fresh(db, older) {
      forall b | b in older.content.blocks && b.locked ensures HasKey(newer.content.blocks, b) {
        CheckedPending(db, zone, older, b);
        NothingDisturbed(db, older.content.blocks, newer.content.blocks, now, b);
      }
    }
  }

  /** Trimming drops only revisions below the kept ones. */
  lemma TrimmedUpward(revisions: map<int, SavedState>, r: int, k: int)
    requires r in Trimmed(revisions) && k in revisions && r <= k
    ensures k in Trimmed(revisions)
  {
    SubsetCard(Newer(revisions, k), Newer(revisions, r));
  }

  /** The revision before the new one is the one that was current; older neighbours are unchanged. */
  lemma ReplacedNeighbours(s: Schedule, state: SavedState, r: int, k: int)
    requires Numbered(s) && Neighbours(Replaced(s, state).revisions, r, k)
    ensures if k == s.version + 1 then r == s.current else Neighbours(s.revisions, r, k)
  {
    var all := UpTo(s.revisions, s.current)[s.version + 1 := state];
    TrimmedUpward(all, r, s.current);
    if k != s.version + 1 {
      forall m | m in s.revisions ensures m <= r || k <= m {
        if r < m <= s.current { TrimmedUpward(all, r, m); }
      }
    }
  }

  lemma ReplaceKeepsHistory(db: Db, id: ScheduleId, d: Draft, expected: int, now: int, s: Schedule)
    requires Inv(db) && DbReady(db) && ValidDraft(d) && CommitsReplace(db, id, d, expected, now, s)
    requires HistoryOf(db, db.schedules[id])
    requires ScheduleOK(db, db.schedules[id])
    ensures HistoryOf(db, s)
  {
    hide Inv, DbReady, ValidDraft, Validate, Neighbours, CheckContent, PlacementError, LocksCarried, Replaced,
         HorizonIs, InHorizon, AllFit, NoneAhead, Fresh;
    var was := db.schedules[id];
    var v := Validate(db, was.zone, d, Some(CurrentState(was)), now);
    ValidateFacts(db, was.zone, d, Some(CurrentState(was)), now);
    ValidateChecks(db, was.zone, d, Some(CurrentState(was)), now);
    ReplacedZone(was, v.value.state);
    forall r | r in s.revisions
      ensures ContentPasses(db, s.zone, s.revisions[r].draft) && SameDays(s.revisions[r].draft, CurrentState(was).draft)
    {
      ReplacedStates(was, v.value.state, r);
    }
    forall r, k | r in s.revisions && k in s.revisions && Neighbours(s.revisions, r, k)
      ensures LocksCarried(db, s.revisions[r].draft, s.revisions[k].draft)
    {
      ReplacedNeighbours(was, v.value.state, r, k);
      ReplacedStates(was, v.value.state, r);
      ReplacedStates(was, v.value.state, k);
      if k == was.version + 1 { PlacementCarries(db, was.zone, CurrentState(was).draft, d, now); }
    }
  }

  lemma ReplacedZone(s: Schedule, state: SavedState)
    ensures Replaced(s, state).zone == s.zone && Replaced(s, state).version == s.version + 1
  {
  }

  lemma CreateKeepsHistory(db: Db, d: Draft, now: int, id: ScheduleId, s: Schedule)
    requires DbReady(db) && ValidDraft(d) && CommitsCreate(db, d, now, id, s)
    ensures HistoryOf(db, s)
  {
    hide DbReady, ValidDraft, Validate, CheckContent, Overlaps, LocksCarried;
    ValidateFacts(db, db.zone, d, None, now);
    ValidateChecks(db, db.zone, d, None, now);
    assert s.revisions.Keys == {1} && s.revisions[1].draft == d;
  }

  lemma CommitKeepsHistory(db: Db, request: RequestId, command: Command, now: int, id: ScheduleId, s: Schedule)
    requires Inv(db) && DbReady(db) && StatesValid(db) && ValidCommand(command) && HistoryOK(db)
    requires Commits(db, request, command, now, id, s)
    ensures HistoryOf(db, s)
  {
    hide Inv, DbReady, StatesValid, ValidDraft, Validate, CheckContent, CommitsReplace, CommitsCreate, HistoryOf;
    match command
    case Create(d) => CreateKeepsHistory(db, d, now, id, s);
    case Replace(_, d, expected) =>
      ReplaceFound(db, id, d, expected, now, s);
      ReplaceKeepsHistory(db, id, d, expected, now, s);
    case Travel(_, direction, expected) =>
      SameHistory(db, db.schedules[id], s);
  }

  lemma ReplaceFound(db: Db, id: ScheduleId, d: Draft, expected: int, now: int, s: Schedule)
    requires Inv(db) && DbReady(db) && ValidDraft(d) && CommitsReplace(db, id, d, expected, now, s)
    ensures id in db.schedules && ScheduleOK(db, db.schedules[id])
  {
    hide ScheduleOK, HorizonsApart, AllocationsExact, ReceiptsExact;
  }

  lemma SameHistory(db: Db, a: Schedule, b: Schedule)
    requires DbReady(db) && HistoryOf(db, a) && b.revisions == a.revisions && b.zone == a.zone
    ensures HistoryOf(db, b)
  {
    hide DbReady, ContentPasses, SameDays, LocksCarried, Neighbours;
  }

  // ----- Steps and runs -----

  lemma SameSources(a: Db, b: Db, s: Schedule)
    requires DbReady(a) && DbReady(b) && a.tasks == b.tasks && a.prefs == b.prefs && NoneAhead(a, s) && HistoryOf(a, s)
    ensures HistoryOf(b, s)
  {
    hide DbReady, HistoryOf, NoneAhead;
    assert Forward(a, b) && Steady(a, b);
    HistoryForward(a, b, s);
  }

  lemma NoneAheadHere(db: Db, id: ScheduleId)
    requires Inv(db) && id in db.schedules
    ensures NoneAhead(db, db.schedules[id])
  {
    hide DbReady, HorizonsApart, AllocationsExact, ReceiptsExact, Numbered, AllFit, NoneAhead;
    assert ScheduleOK(db, db.schedules[id]);
  }

  /** Every command and every edit keeps stored revisions valid. */
  lemma StepKeepsHistory(db: Db, e: Action)
    requires Inv(db) && DbReady(db) && StatesValid(db) && ValidAction(e) && HistoryOK(db)
    ensures DbReady(Step(db, e)) && HistoryOK(Step(db, e))
  {
    hide Inv, DbReady, StatesValid, Commits, ValidCommand, Step, Forward, Steady, HistoryOf, CommittedDraft;
    StepKeepsInv(db, e);
    var after := Step(db, e);
    var committed, id, s := StepShape(db, e);
    if !e.Run? { EnvironmentSteady(db, e); }
    forall other | other in after.schedules ensures HistoryOf(after, after.schedules[other]) {
      if committed {
        CommitForward(db, e.request, e.command, e.now, id, s);
        CommitCurrent(db, e.request, e.command, e.now, id, s);
        CommitKeepsHistory(db, e.request, e.command, e.now, id, s);
        CommitNoneAhead(db, e.request, e.command, e.now, id, s, other);
        SameSources(db, after, after.schedules[other]);
      } else {
        NoneAheadHere(db, other);
        if e.Run? {
          SameSources(db, after, db.schedules[other]);
        } else {
          HistoryForward(db, after, db.schedules[other]);
        }
      }
    }
  }

  lemma CommitNoneAhead(db: Db, request: RequestId, command: Command, now: int, id: ScheduleId, s: Schedule,
                        other: ScheduleId)
    requires Inv(db) && StatesValid(db) && ValidCommand(command) && Commits(db, request, command, now, id, s)
    requires s.current in s.revisions && other in Committed(db, request, command, id, s).schedules
    ensures NoneAhead(db, Committed(db, request, command, id, s).schedules[other])
    ensures other != id ==> other in db.schedules
                            && Committed(db, request, command, id, s).schedules[other] == db.schedules[other]
    ensures Committed(db, request, command, id, s).schedules[id] == s
  {
    hide Inv, StatesValid, ValidCommand, Commits, Numbered, AllFit, NoneAhead;
    CommitOK(db, request, command, now, id, s);
    if other != id { NoneAheadHere(db, other); }
  }

  lemma {:induction false} RunKeepsHistory(db: Db, es: seq<Action>, n: nat)
    requires Inv(db) && DbReady(db) && HistoryOK(db) && AllValid(es) && n <= |es|
    ensures DbReady(After(db, es, n)) && HistoryOK(After(db, es, n))
  {
    hide Inv, DbReady, StatesValid, Step, HistoryOK, RevisionsBounded;
    if n == 0 {
    } else {
      RunKeepsHistory(db, es, n - 1);
      AfterStep(db, es, n - 1);
      StepKeepsHistory(After(db, es, n - 1), es[n - 1]);
    }
  }
}
