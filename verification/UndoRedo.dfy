/** Exactly when an undo or a redo commits, and what an undo followed by a redo restores. */
module UndoRedo {
  import opened Wrappers
  import opened PlanningModels
  import opened ScheduleModels
  import opened ScheduleSteps
  import opened ScheduleCommits
  import opened ScheduleInvariants
  import opened ScheduleRuns
  import opened ScheduleTheorems
  import opened HistoryZipper
  import opened HistoryRechecks

  // ----- One undo or redo -----

  /** The revision `r` may become current: fresh sources, protected work kept, no task elsewhere. */
  ghost predicate MayReturn(db: Db, id: ScheduleId, r: int, now: int)
    requires Found(db, id) && r in db.schedules[id].revisions
  {
    var d := db.schedules[id].revisions[r].draft;
    && Fresh(db, d)
    && PlacementError(db, CurrentState(db.schedules[id]).draft.content.blocks, d.content.blocks, now) == None
    && !AllocationConflict(db.allocations, id, BlockTasks(d.content.blocks))
  }

  ghost predicate CanTravel(db: Db, id: ScheduleId, direction: Direction, expected: int, now: int)
    requires Found(db, id)
  {
    var s := db.schedules[id];
    s.version == expected < MAX_VERSION && Target(s, direction).Some?
      && MayReturn(db, id, Target(s, direction).value, now)
  }

  /** A stored revision with fresh sources fails validation only through the placement check. */
  lemma StoredValidates(db: Db, s: Schedule, r: int, now: int)
    requires DbReady(db) && HistoryOf(db, s) && s.current in s.revisions && r in s.revisions
    ensures ValidDraft(s.revisions[r].draft)
    ensures Validate(db, s.zone, s.revisions[r].draft, Some(CurrentState(s)), now).Success? <==>
      Fresh(db, s.revisions[r].draft)
      && PlacementError(db, CurrentState(s).draft.content.blocks, s.revisions[r].draft.content.blocks, now) == None
  {
    hide DbReady, ValidDraft, CheckContent, PlacementError, Fresh, Neighbours, LocksCarried;
    assert SameDays(s.revisions[r].draft, CurrentState(s).draft);
    assert ContentPasses(db, s.zone, s.revisions[r].draft);
  }

  /** A new undo or redo request commits if and only if the version is current and below the limit,
      there is a revision to go to, its sources are fresh, protected work stays, and no task of it
      has time elsewhere: horizon, layout and events never stand in its way. */
  lemma TravelExact(db: Db, q: RequestId, id: ScheduleId, direction: Direction, expected: int, now: int,
                    newId: ScheduleId)
    requires Inv(db) && DbReady(db) && StatesValid(db) && HistoryOK(db) && q !in db.receipts && Found(db, id)
    ensures Execute(db, q, Travel(id, direction, expected), now, newId).0 != db
            <==> CanTravel(db, id, direction, expected, now)
  {
    hide Inv, DbReady, StatesValid, HistoryOf, Validate, Fresh, PlacementError, AllocationConflict, Target, BlockTasks;
    var s := db.schedules[id];
    if Target(s, direction).Some? { StoredValidates(db, s, Target(s, direction).value, now); }
  }

  // ----- Placement checks both ways -----

  lemma {:induction false} NoneDisturbed(db: Db, previous: seq<Block>, candidate: seq<Block>, now: int)
    requires forall b :: b in previous && (b.locked || b.start * MINUTE < now) ==> HasKey(candidate, b)
    ensures Disturbed(db, previous, candidate, now) == None
  {
    if previous == [] {
    } else {
      assert previous[0] in previous;
      NoneDisturbed(db, previous[1..], candidate, now);
    }
  }

  /** A move from `x` to `y` that passed the check at this clock can be taken back at this clock
      when `y` holds nothing locked that `x` lacks and the blocks of `x` are protected. */
  lemma BackAgain(db: Db, after: Db, x: seq<Block>, y: seq<Block>, now: int)
    requires PlacementError(db, x, y, now) == None
    requires forall b :: b in x ==> Protected(db, b.task)
    requires forall b :: b in y && b.locked ==> HasKey(x, b)
    ensures PlacementError(after, y, x, now) == None
  {
    hide HasKey, Protected;
    forall b | b in y && (b.locked || b.start * MINUTE < now) ensures HasKey(x, b) {
    }
    NoneDisturbed(after, y, x, now);
    forall b | b in x && b.start * MINUTE < now ensures HasKey(y, b) {
      NothingDisturbed(db, x, y, now, b);
    }
  }

  /** Tasks that were current before a commit of the same schedule have time nowhere else. */
  lemma OwnTasksFree(db: Db, after: Db, id: ScheduleId, blocks: seq<Block>)
    requires Inv(db) && Inv(after) && Found(db, id) && blocks == CurrentState(db.schedules[id]).draft.content.blocks
    requires forall other :: other != id && other in after.schedules ==>
      other in db.schedules && after.schedules[other] == db.schedules[other]
    ensures !AllocationConflict(after.allocations, id, BlockTasks(blocks))
  {
    hide DbReady, ScheduleOK, HorizonsApart, ReceiptsExact, BlockTasks;
    forall t | t in BlockTasks(blocks) && t in after.allocations ensures after.allocations[t] == id {
      var other := after.allocations[t];
      assert GivesTime(after, other, t) && GivesTime(db, id, t);
      if other != id {
        assert GivesTime(db, other, t);
        NoTaskTwice(db, id, other, t);
      }
    }
  }

  lemma FreshBlocksProtected(db: Db, zone: Zone, d: Draft)
    requires DbReady(db) && ContentPasses(db, zone, d) && Fresh(db, d)
    ensures forall b :: b in d.content.blocks ==> Protected(db, b.task)
  {
    hide DbReady, ValidDraft, CheckContent, Fresh, Protected;
    forall b | b in d.content.blocks ensures Protected(db, b.task) { CheckedPending(db, zone, d, b); }
  }

  // ----- Redo after undo -----

  /** What a committed undo or redo leaves behind. */
  lemma TravelLeaves(db: Db, q: RequestId, id: ScheduleId, direction: Direction, expected: int, now: int,
                     newId: ScheduleId)
    requires Inv(db) && DbReady(db) && StatesValid(db) && HistoryOK(db)
    requires Execute(db, q, Travel(id, direction, expected), now, newId).0 != db
    ensures var after := Execute(db, q, Travel(id, direction, expected), now, newId).0;
      && Found(db, id) && q !in db.receipts && CanTravel(db, id, direction, expected, now)
      && after.tasks == db.tasks && after.prefs == db.prefs
      && after.schedules == db.schedules[id := Moved(db.schedules[id], Target(db.schedules[id], direction).value)]
      && Inv(after) && DbReady(after) && StatesValid(after) && HistoryOK(after)
  {
    hide Inv, DbReady, StatesValid, HistoryOK, Validate, CanTravel, Target, BlockTasks, Reallocated, ViewOf, Answer,
         AllocationConflict;
    var e := Run(q, Travel(id, direction, expected), now, newId);
    StepKeepsInv(db, e);
    StepKeepsHistory(db, e);
    assert Found(db, id) && q !in db.receipts;
    TravelExact(db, q, id, direction, expected, now, newId);
  }

  lemma TargetNeighbours(s: Schedule, r: int)
    requires Numbered(s) && Target(s, Undo) == Some(r)
    ensures Neighbours(s.revisions, r, s.current)
  {
    TargetIsNearest(s, Undo, r);
  }

  lemma FoundNumbered(db: Db, id: ScheduleId)
    requires Inv(db) && id in db.schedules
    ensures Found(db, id) && Numbered(db.schedules[id])
  {
    hide DbReady, HorizonsApart, AllocationsExact, ReceiptsExact, AllFit, NoneAhead;
    assert ScheduleOK(db, db.schedules[id]);
  }

  /** Every schedule is as before, with this one's version two higher. */
  ghost predicate RestoredLater(before: Db, after: Db, id: ScheduleId)
    requires id in before.schedules
  {
    after.schedules == before.schedules[id := before.schedules[id].(version := before.schedules[id].version + 2)]
  }

  /** Right after a committed undo, at the same clock, a new redo request commits if and only if it
      expects the current version, that is below the limit, and the undone revision's sources are
      still fresh; it then restores the schedule, two versions later. */
  lemma RedoAfterUndo(db: Db, q: RequestId, id: ScheduleId, expected: int, now: int, newId: ScheduleId,
                      q': RequestId, expected': int, newId': ScheduleId)
    requires Inv(db) && DbReady(db) && StatesValid(db) && HistoryOK(db)
    requires Execute(db, q, Travel(id, Undo, expected), now, newId).0 != db
    requires q' !in Execute(db, q, Travel(id, Undo, expected), now, newId).0.receipts
    ensures var after := Execute(db, q, Travel(id, Undo, expected), now, newId).0;
      && Found(db, id) && id in after.schedules && DbReady(after) && StatesValid(after)
      && var again := Execute(after, q', Travel(id, Redo, expected'), now, newId').0;
         && (again != after <==>
               after.schedules[id].version
                 == expected' < MAX_VERSION && Fresh(after, CurrentState(db.schedules[id]).draft))
         && (again != after ==> RestoredLater(db, again, id))
  {
    hide Inv, DbReady, StatesValid, HistoryOK, Execute, Fresh, PlacementError, Target, AllocationConflict, Numbered,
         Neighbours, HistoryOf, MayReturn;
    var after := Execute(db, q, Travel(id, Undo, expected), now, newId).0;
    TravelLeaves(db, q, id, Undo, expected, now, newId);
    FoundNumbered(db, id);
    FoundNumbered(after, id);
    var was := db.schedules[id];
    var r := Target(was, Undo).value;
    UndoThenRedo(was);
    TravelExact(after, q', id, Redo, expected', now, newId');
    RedoAllowed(db, after, id, r, now);
    if Execute(after, q', Travel(id, Redo, expected'), now, newId').0 != after {
      TravelLeaves(after, q', id, Redo, expected', now, newId');
      assert Moved(Moved(was, r), was.current) == was.(version := was.version + 2);
    }
  }

  /** After an undo, the undone revision may return exactly when its sources are fresh. */
  lemma RedoAllowed(db: Db, after: Db, id: ScheduleId, r: int, now: int)
    requires Inv(db) && DbReady(db) && HistoryOK(db) && Inv(after) && DbReady(after) && HistoryOK(after)
    requires Found(db, id) && Numbered(db.schedules[id]) && Target(db.schedules[id], Undo) == Some(r)
    requires MayReturn(db, id, r, now)
    requires after.tasks == db.tasks && after.prefs == db.prefs
    requires after.schedules == db.schedules[id := Moved(db.schedules[id], r)]
    ensures Found(after, id)
    ensures MayReturn(after, id, db.schedules[id].current, now) <==> Fresh(after, CurrentState(db.schedules[id]).draft)
  {
    hide Inv, DbReady, PlacementError, AllocationConflict, Numbered, Neighbours, CheckContent, ValidDraft, HasKey,
         Protected, Target;
    var was := db.schedules[id];
    var older, newer := was.revisions[r].draft, CurrentState(was).draft;
    assert Fresh(db, older) && HistoryOf(db, was);
    TargetNeighbours(was, r);
    assert LocksCarried(db, older, newer) && ContentPasses(db, was.zone, newer);
    if Fresh(after, newer) {
      SameFresh(db, after, newer);
      FreshBlocksProtected(db, was.zone, newer);
      BackAgain(db, after, newer.content.blocks, older.content.blocks, now);
      OwnTasksFree(db, after, id, newer.content.blocks);
    }
  }

  lemma SameFresh(a: Db, b: Db, d: Draft)
    requires a.tasks == b.tasks && a.prefs == b.prefs
    ensures Fresh(a, d) <==> Fresh(b, d)
  {
  }

  // ----- Undo after replace -----

  lemma ReplaceLeaves(db: Db, q: RequestId, id: ScheduleId, d: Draft, expected: int, now: int, newId: ScheduleId)
    requires Inv(db) && DbReady(db) && StatesValid(db) && HistoryOK(db) && ValidDraft(d)
    requires Execute(db, q, Replace(id, d, expected), now, newId).0 != db
    ensures var after := Execute(db, q, Replace(id, d, expected), now, newId).0;
      && Found(db, id) && after.tasks == db.tasks && after.prefs == db.prefs
      && Inv(after) && DbReady(after) && StatesValid(after) && HistoryOK(after)
      && Validate(db, db.schedules[id].zone, d, Some(CurrentState(db.schedules[id])), now).Success?
      && var state := Validate(db, db.schedules[id].zone, d, Some(CurrentState(db.schedules[id])), now).value.state;
         state.draft == d && after.schedules == db.schedules[id := Replaced(db.schedules[id], state)]
  {
    hide Inv, DbReady, StatesValid, HistoryOK, Validate, Replaced, BlockTasks, Reallocated, ViewOf, Answer,
         AllocationConflict, ValidDraft;
    var e := Run(q, Replace(id, d, expected), now, newId);
    StepKeepsInv(db, e);
    StepKeepsHistory(db, e);
    ValidateFacts(db, db.schedules[id].zone, d, Some(CurrentState(db.schedules[id])), now);
  }

  /** A replaced state is the nearest one to undo to. */
  lemma ReplacedTarget(s: Schedule, state: SavedState)
    requires Numbered(s) && Numbered(Replaced(s, state))
    ensures Target(Replaced(s, state), Undo) == Some(s.current)
    ensures Replaced(s, state).revisions[s.current] == CurrentState(s)
    ensures Replaced(s, state).current in Replaced(s, state).revisions && CurrentState(Replaced(s, state)) == state
  {
    hide Target;
    var all := UpTo(s.revisions, s.current)[s.version + 1 := state];
    assert Newer(all, s.current) == {s.version + 1};
    ReplacedCurrent(s, state);
    TargetIsNearest(Replaced(s, state), Undo, s.current);
  }

  /** Right after a committed replacement, at the same clock, a new undo request commits if and only
      if it expects the current version, that is below the limit, the replaced revision's sources are
      fresh, and the replacement added no locked block: locked work moves only in two steps. */
  lemma UndoAfterReplace(db: Db, q: RequestId, id: ScheduleId, d: Draft, expected: int, now: int, newId: ScheduleId,
                         q': RequestId, expected': int, newId': ScheduleId)
    requires Inv(db) && DbReady(db) && StatesValid(db) && HistoryOK(db) && ValidDraft(d)
    requires Execute(db, q, Replace(id, d, expected), now, newId).0 != db
    requires q' !in Execute(db, q, Replace(id, d, expected), now, newId).0.receipts
    ensures var after := Execute(db, q, Replace(id, d, expected), now, newId).0;
      && Found(db, id) && id in after.schedules && DbReady(after) && StatesValid(after)
      && var older := CurrentState(db.schedules[id]).draft;
         (Execute(after, q', Travel(id, Undo, expected'), now, newId').0 != after <==>
            after.schedules[id].version == expected' < MAX_VERSION && Fresh(after, older)
            && forall b :: b in d.content.blocks && b.locked ==> HasKey(older.content.blocks, b))
  {
    hide Inv, DbReady, StatesValid, HistoryOK, Execute, Fresh, PlacementError, Target, AllocationConflict, Numbered,
         HistoryOf, MayReturn, Validate, Replaced, HasKey, ValidDraft;
    var after := Execute(db, q, Replace(id, d, expected), now, newId).0;
    ReplaceLeaves(db, q, id, d, expected, now, newId);
    FoundNumbered(db, id);
    FoundNumbered(after, id);
    var state := Validate(db, db.schedules[id].zone, d, Some(CurrentState(db.schedules[id])), now).value.state;
    ReplacedTarget(db.schedules[id], state);
    TravelExact(after, q', id, Undo, expected', now, newId');
    UndoAllowed(db, after, id, d, state, now);
  }

  lemma UndoAllowed(db: Db, after: Db, id: ScheduleId, d: Draft, state: SavedState, now: int)
    requires Inv(db) && DbReady(db) && HistoryOK(db) && Inv(after) && DbReady(after) && ValidDraft(d)
    requires Found(db, id) && state.draft == d
    requires Validate(db, db.schedules[id].zone, d, Some(CurrentState(db.schedules[id])), now).Success?
    requires after.tasks == db.tasks && after.prefs == db.prefs
    requires after.schedules == db.schedules[id := Replaced(db.schedules[id], state)]
    requires Found(after, id) && CurrentState(after.schedules[id]) == state
    requires db.schedules[id].current in after.schedules[id].revisions
    requires after.schedules[id].revisions[db.schedules[id].current] == CurrentState(db.schedules[id])
    ensures var older := CurrentState(db.schedules[id]).draft;
      MayReturn(after, id, db.schedules[id].current, now) <==>
        Fresh(after, older) && forall b :: b in d.content.blocks && b.locked ==> HasKey(older.content.blocks, b)
  {
    hide Inv, DbReady, PlacementError, AllocationConflict, CheckContent, ValidDraft, HasKey, Protected, Validate,
         Replaced, HistoryOf, Fresh;
    var was := db.schedules[id];
    var older := CurrentState(was).draft;
    OlderPasses(db, id);
    ValidateFacts(db, was.zone, d, Some(CurrentState(was)), now);
    ValidateChecks(db, was.zone, d, Some(CurrentState(was)), now);
    SameFresh(db, after, older);
    if Fresh(after, older) {
      FreshBlocksProtected(db, was.zone, older);
      OwnTasksFree(db, after, id, older.content.blocks);
      if forall b :: b in d.content.blocks && b.locked ==> HasKey(older.content.blocks, b) {
        BackAgain(db, after, older.content.blocks, d.content.blocks, now);
      }
      if PlacementError(after, d.content.blocks, older.content.blocks, now) == None {
        LocksFound(db, after, was.zone, d, older, now);
      }
    }
  }

  lemma OlderPasses(db: Db, id: ScheduleId)
    requires DbReady(db) && HistoryOK(db) && Found(db, id)
    ensures ContentPasses(db, db.schedules[id].zone, CurrentState(db.schedules[id]).draft)
  {
    hide DbReady, ContentPasses, LocksCarried, Neighbours, SameDays;
    assert HistoryOf(db, db.schedules[id]);
  }

  lemma LocksFound(db: Db, after: Db, zone: Zone, d: Draft, older: Draft, now: int)
    requires DbReady(db) && ValidDraft(d) && Fresh(db, d) && CheckContent(db, zone, d).Success?
    requires after.tasks == db.tasks && PlacementError(after, d.content.blocks, older.content.blocks, now) == None
    ensures forall b :: b in d.content.blocks && b.locked ==> HasKey(older.content.blocks, b)
  {
    hide DbReady, ValidDraft, CheckContent, Fresh, HasKey;
    forall b | b in d.content.blocks && b.locked ensures HasKey(older.content.blocks, b) {
      CheckedPending(db, zone, d, b);
      NothingDisturbed(after, d.content.blocks, older.content.blocks, now, b);
    }
  }

  // ----- Along runs -----

  /** Whenever an undo and then a redo of one schedule commit as neighbouring steps of a run, every
      schedule is as before, with that one's version two higher. */
  lemma UndoThenRedoInRun(db: Db, es: seq<Action>, i: nat, id: ScheduleId, expected: int, expected': int)
    requires Inv(db) && DbReady(db) && HistoryOK(db) && AllValid(es) && i + 2 <= |es|
    requires es[i].Run? && es[i].command == Travel(id, Undo, expected) && After(db, es, i + 1) != After(db, es, i)
    requires es[i + 1].Run? && es[i + 1].command == Travel(id, Redo, expected')
    requires After(db, es, i + 2) != After(db, es, i + 1)
    ensures id in After(db, es, i).schedules
    ensures RestoredLater(After(db, es, i), After(db, es, i + 2), id)
  {
    hide Inv, DbReady, StatesValid, HistoryOK, AllValid, After, Execute, RevisionsBounded, MayReturn, Target, Numbered;
    RunKeepsHistory(db, es, i);
    AfterStep(db, es, i);
    AfterStep(db, es, i + 1);
    var before, middle := After(db, es, i), After(db, es, i + 1);
    TravelLeaves(before, es[i].request, id, Undo, expected, es[i].now, es[i].newId);
    TravelLeaves(middle, es[i + 1].request, id, Redo, expected', es[i + 1].now, es[i + 1].newId);
    FoundNumbered(before, id);
    var was := before.schedules[id];
    UndoThenRedo(was);
    assert Moved(Moved(was, Target(was, Undo).value), was.current) == was.(version := was.version + 2);
  }

  /** A new request. */
  predicate Unused(db: Db, e: Action) { e.Run? && e.request !in db.receipts }

  /** Along any run, a new redo right after a committed undo and at its clock commits exactly when it
      names the current version, below the limit, and the undone revision's sources are fresh. */
  lemma RedoInRun(db: Db, es: seq<Action>, i: nat, id: ScheduleId, expected: int, expected': int)
    requires Inv(db) && DbReady(db) && HistoryOK(db) && AllValid(es) && i + 2 <= |es|
    requires es[i].Run? && es[i].command == Travel(id, Undo, expected) && After(db, es, i + 1) != After(db, es, i)
    requires es[i + 1].Run? && es[i + 1].command == Travel(id, Redo, expected') && es[i + 1].now == es[i].now
    requires Unused(After(db, es, i + 1), es[i + 1])
    ensures Found(After(db, es, i), id) && id in After(db, es, i + 1).schedules
    ensures var before, middle := After(db, es, i), After(db, es, i + 1);
      After(db, es, i + 2) != middle <==>
        middle.schedules[id].version
          == expected' < MAX_VERSION && Fresh(middle, CurrentState(before.schedules[id]).draft)
  {
    hide Inv, DbReady, StatesValid, HistoryOK, AllValid, After, Execute, RevisionsBounded, Fresh;
    RunKeepsHistory(db, es, i);
    AfterStep(db, es, i);
    AfterStep(db, es, i + 1);
    RedoAfterUndo(After(db, es, i), es[i].request, id, expected, es[i].now, es[i].newId,
                  es[i + 1].request, expected', es[i + 1].newId);
  }

  /** Along any run, a new undo right after a committed replacement and at its clock commits exactly
      when it names the current version, below the limit, the replaced revision's sources are fresh,
      and the replacement added no locked block. */
  lemma UndoInRun(db: Db, es: seq<Action>, i: nat, id: ScheduleId, d: Draft, expected: int, expected': int)
    requires Inv(db) && DbReady(db) && HistoryOK(db) && AllValid(es) && i + 2 <= |es|
    requires es[i].Run? && es[i].command == Replace(id, d, expected) && After(db, es, i + 1) != After(db, es, i)
    requires es[i + 1].Run? && es[i + 1].command == Travel(id, Undo, expected') && es[i + 1].now == es[i].now
    requires Unused(After(db, es, i + 1), es[i + 1])
    ensures Found(After(db, es, i), id) && id in After(db, es, i + 1).schedules
    ensures var middle, older := After(db, es, i + 1), CurrentState(After(db, es, i).schedules[id]).draft;
      After(db, es, i + 2) != middle <==>
        middle.schedules[id].version == expected' < MAX_VERSION && Fresh(middle, older)
        && forall b :: b in d.content.blocks && b.locked ==> HasKey(older.content.blocks, b)
  {
    hide Inv, DbReady, StatesValid, HistoryOK, AllValid, After, Execute, RevisionsBounded, Fresh, HasKey, ValidDraft;
    RunKeepsHistory(db, es, i);
    AfterStep(db, es, i);
    AfterStep(db, es, i + 1);
    UndoAfterReplace(After(db, es, i), es[i].request, id, d, expected, es[i].now, es[i].newId,
                     es[i + 1].request, expected', es[i + 1].newId);
  }
}
