/** Whole-run guarantees for saved schedules: no overlap, protected work, fresh sources. */
module ScheduleTheorems {
  import opened Wrappers
  import opened PlanningModels
  import opened BlockLists
  import opened ScheduleModels
  import opened ScheduleSteps
  import opened ScheduleCommits
  import opened ScheduleInvariants
  import opened ScheduleRuns

  /** The blocks of a schedule's current revision. */
  ghost function Blocks(db: Db, id: ScheduleId): seq<Block> {
    if Found(db, id) then CurrentState(db.schedules[id]).draft.content.blocks else []
  }

  // ----- No overlap -----

  lemma CurrentFits(db: Db, id: ScheduleId)
    requires Inv(db) && Found(db, id)
    ensures InHorizon(db.schedules[id].start, db.schedules[id].end, Blocks(db, id))
  {
    hide DbReady, HorizonsApart, AllocationsExact, ReceiptsExact, InHorizon, NoneAhead, HorizonIs, ValidDraft;
    assert ScheduleOK(db, db.schedules[id]);
    assert FitsHorizon(db.schedules[id], CurrentState(db.schedules[id]).draft);
  }

  lemma HorizonsMissHere(db: Db, a: ScheduleId, b: ScheduleId)
    requires Inv(db) && a in db.schedules && b in db.schedules && a != b
    ensures HorizonsMiss(db.schedules[a], db.schedules[b])
  {
    hide DbReady, ScheduleOK, AllocationsExact, ReceiptsExact;
  }

  /** In every reachable state, two blocks of current revisions never overlap: not within one
      schedule, and not across schedules. */
  lemma NoOverlap(db: Db, a: ScheduleId, b: ScheduleId, i: nat, j: nat)
    requires Inv(db) && i < |Blocks(db, a)| && j < |Blocks(db, b)| && (a != b || i != j)
    ensures Apart(Blocks(db, a)[i], Blocks(db, b)[j])
  {
    hide Inv;
    CurrentFits(db, a);
    CurrentFits(db, b);
    assert Blocks(db, a)[i] in Blocks(db, a) && Blocks(db, b)[j] in Blocks(db, b);
    if a != b {
      HorizonsMissHere(db, a, b);
    } else if i < j {
      assert Apart(Blocks(db, a)[i], Blocks(db, a)[j]);
    } else {
      assert Apart(Blocks(db, a)[j], Blocks(db, a)[i]);
    }
  }

  /** No task has time in two schedules. */
  lemma NoTaskTwice(db: Db, a: ScheduleId, b: ScheduleId, t: TaskId)
    requires Inv(db) && GivesTime(db, a, t) && GivesTime(db, b, t)
    ensures a == b
  {
    assert t in db.allocations && db.allocations[t] == a;
  }

  // ----- Schedules persist -----

  /** A schedule is never removed, its horizon and zone never change, and its version never falls. */
  ghost predicate Persists(a: Db, b: Db, id: ScheduleId)
    requires id in a.schedules
  {
    && id in b.schedules
    && b.schedules[id].start == a.schedules[id].start && b.schedules[id].end == a.schedules[id].end
    && b.schedules[id].zone == a.schedules[id].zone
    && a.schedules[id].version <= b.schedules[id].version
  }

  lemma StepPersists(db: Db, e: Action, id: ScheduleId)
    requires Inv(db) && DbReady(db) && StatesValid(db) && ValidAction(e) && id in db.schedules
    ensures Persists(db, Step(db, e), id)
  {
    hide Inv, DbReady, StatesValid, Commits, ValidCommand, Step, Forward;
    var committed, other, s := StepShape(db, e);
    if committed { CommitOK(db, e.request, e.command, e.now, other, s); }
  }

  lemma {:induction false} RunPersists(db: Db, es: seq<Action>, i: nat, n: nat, id: ScheduleId)
    requires Inv(db) && AllValid(es) && i <= n <= |es| && id in After(db, es, i).schedules
    ensures Persists(After(db, es, i), After(db, es, n), id)
    decreases n
  {
    hide Inv, DbReady, StatesValid, Step, ValidAction, RevisionsBounded;
    if n <= i {
    } else {
      RunPersists(db, es, i, n - 1, id);
      AfterStep(db, es, n - 1);
      StepPersists(After(db, es, n - 1), es[n - 1], id);
    }
  }

  // ----- Protected placements -----

  lemma {:induction false} NothingDisturbed(db: Db, previous: seq<Block>, candidate: seq<Block>, now: int, b: Block)
    requires Disturbed(db, previous, candidate, now) == None && b in previous && Protected(db, b.task)
    requires b.locked || b.start * MINUTE < now
    ensures HasKey(candidate, b)
  {
    if b == previous[0] {
    } else {
      assert b in previous[1..];
      NothingDisturbed(db, previous[1..], candidate, now, b);
    }
  }

  /** The draft a command makes current has passed the placement check against the one before it. */
  lemma CommitPlacement(db: Db, request: RequestId, command: Command, now: int, id: ScheduleId, s: Schedule)
    requires DbReady(db) && StatesValid(db) && ValidCommand(command) && Commits(db, request, command, now, id, s)
    requires RevisionsBounded(db)
    ensures PlacementError(db, Blocks(db, id), CommittedDraft(s).content.blocks, now) == None
    ensures Fresh(db, CommittedDraft(s))
  {
    hide PlacementError, Validate, DbReady, ValidDraft, Fresh;
    match command
    case Create(d) => ValidateFacts(db, db.zone, d, None, now);
    case Replace(_, d, expected) =>
      var was := db.schedules[id];
      ValidateFacts(db, was.zone, d, Some(CurrentState(was)), now);
      CurrentAfterTrim(was, Validate(db, was.zone, d, Some(CurrentState(was)), now).value.state);
    case Travel(_, direction, expected) =>
      var was := db.schedules[id];
      ValidateFacts(db, was.zone, s.revisions[s.current].draft, Some(CurrentState(was)), now);
  }

  lemma CommittedBlocks(db: Db, request: RequestId, command: Command, id: ScheduleId, s: Schedule, other: ScheduleId)
    requires s.current in s.revisions
    ensures Blocks(Committed(db, request, command, id, s), other)
            == if other == id then CommittedDraft(s).content.blocks else Blocks(db, other)
  {
  }

  lemma HasItself(blocks: seq<Block>, b: Block)
    requires b in blocks
    ensures HasKey(blocks, b)
  {
    assert SameKey(b, b);
  }

  /** One step never moves a locked block of a live pending task, nor one that has started by its clock. */
  lemma StepProtects(db: Db, e: Action, id: ScheduleId, b: Block)
    requires Inv(db) && DbReady(db) && StatesValid(db) && ValidAction(e)
    requires b in Blocks(db, id) && Protected(db, b.task)
    requires b.locked || (e.Run? ==> b.start * MINUTE < e.now)
    ensures HasKey(Blocks(Step(db, e), id), b)
  {
    hide Inv, DbReady, StatesValid, Commits, ValidCommand, Step, Forward, HasKey, Committed, CommittedDraft, Protected;
    InvReady(db);
    var committed, other, s := StepShape(db, e);
    HasItself(Blocks(db, id), b);
    if committed {
      CommitCurrent(db, e.request, e.command, e.now, other, s);
      CommittedBlocks(db, e.request, e.command, other, s, id);
      if other == id {
        CommitPlacement(db, e.request, e.command, e.now, other, s);
        NothingDisturbed(db, Blocks(db, id), CommittedDraft(s).content.blocks, e.now, b);
      }
    }
  }

  lemma CommitCurrent(db: Db, request: RequestId, command: Command, now: int, id: ScheduleId, s: Schedule)
    requires DbReady(db) && StatesValid(db) && ValidCommand(command) && Commits(db, request, command, now, id, s)
    ensures s.current in s.revisions
  {
    hide CommitsCreate, CommitsReplace, CommitsTravel;
  }

  /** A block that a step adds never starts in the past. */
  lemma StepAddsNoPast(db: Db, e: Action, id: ScheduleId, b: Block)
    requires Inv(db) && DbReady(db) && StatesValid(db) && ValidAction(e)
    requires b in Blocks(Step(db, e), id) && !HasKey(Blocks(db, id), b)
    ensures e.Run? && e.now <= b.start * MINUTE
  {
    hide Inv, DbReady, StatesValid, Commits, ValidCommand, Step, Forward, HasKey, Committed, CommittedDraft, Disturbed;
    InvReady(db);
    var committed, other, s := StepShape(db, e);
    if b in Blocks(db, id) { HasItself(Blocks(db, id), b); }
    if committed {
      CommitCurrent(db, e.request, e.command, e.now, other, s);
      CommittedBlocks(db, e.request, e.command, other, s, id);
      CommitPlacement(db, e.request, e.command, e.now, other, s);
    }
  }

  // ----- Locked and started work over runs -----

  ghost predicate PresentUnlocked(db: Db, id: ScheduleId, b: Block) {
    exists x :: x in Blocks(db, id) && SameKey(x, b) && !x.locked
  }

  /** The task stays live and pending from step `i` up to step `n`. */
  ghost predicate PendingThroughout(db: Db, es: seq<Action>, i: nat, n: nat, t: TaskId)
    requires Inv(db) && AllValid(es) && i <= n <= |es|
  {
    forall k :: i <= k < n ==> Protected(After(db, es, k), t)
  }

  ghost predicate NeverUnlockedBetween(db: Db, es: seq<Action>, i: nat, n: nat, id: ScheduleId, b: Block)
    requires Inv(db) && AllValid(es) && i <= n <= |es|
  {
    forall k :: i < k < n ==> !PresentUnlocked(After(db, es, k), id, b)
  }

  /** Along any run, undo and redo included, a locked block of a task that stays pending keeps its
      task, start and end up to and including the first later state that holds it unlocked. */
  lemma {:induction false} LockedUntilUnlocked(db: Db, es: seq<Action>, i: nat, n: nat, id: ScheduleId, b: Block)
    requires Inv(db) && AllValid(es) && i <= n <= |es|
    requires b in Blocks(After(db, es, i), id) && b.locked
    requires PendingThroughout(db, es, i, n, b.task) && NeverUnlockedBetween(db, es, i, n, id, b)
    ensures HasKey(Blocks(After(db, es, n), id), b)
    decreases n
  {
    hide Inv, DbReady, StatesValid, Step, ValidAction, RevisionsBounded, Protected, After, AllValid;
    if i == n {
      HasItself(Blocks(After(db, es, i), id), b);
    } else {
      var before := After(db, es, n - 1);
      AfterStep(db, es, n - 1);
      if i == n - 1 {
        StepProtects(before, es[n - 1], id, b);
      } else {
        LockedUntilUnlocked(db, es, i, n - 1, id, b);
        var x :| x in Blocks(before, id) && SameKey(x, b);
        assert !PresentUnlocked(before, id, b);
        StepProtects(before, es[n - 1], id, x);
        SameKeyTravels(Blocks(After(db, es, n), id), x, b);
      }
    }
  }

  lemma SameKeyTravels(blocks: seq<Block>, x: Block, b: Block)
    requires HasKey(blocks, x) && SameKey(x, b)
    ensures HasKey(blocks, b)
  {
    var y :| y in blocks && SameKey(y, x);
    assert SameKey(y, b);
  }

  /** From step `i` on, no command reads a clock earlier than `from`. */
  ghost predicate ClockFrom(es: seq<Action>, i: nat, n: nat, from: int)
    requires i <= n <= |es|
  {
    forall k :: i <= k < n && es[k].Run? ==> from <= es[k].now
  }

  /** With a clock that does not run back past it, work that has started stays in every later
      state for as long as its task stays pending. */
  lemma {:induction false} StartedStays(db: Db, es: seq<Action>, i: nat, n: nat, id: ScheduleId, b: Block, from: int)
    requires Inv(db) && AllValid(es) && i <= n <= |es|
    requires b in Blocks(After(db, es, i), id) && b.start * MINUTE < from
    requires PendingThroughout(db, es, i, n, b.task) && ClockFrom(es, i, n, from)
    ensures HasKey(Blocks(After(db, es, n), id), b)
    decreases n
  {
    hide Inv, DbReady, StatesValid, Step, ValidAction, RevisionsBounded, Protected, After, AllValid;
    if i == n {
      HasItself(Blocks(After(db, es, i), id), b);
    } else {
      StartedStays(db, es, i, n - 1, id, b, from);
      var before := After(db, es, n - 1);
      AfterStep(db, es, n - 1);
      var x :| x in Blocks(before, id) && SameKey(x, b);
      StepProtects(before, es[n - 1], id, x);
      SameKeyTravels(Blocks(After(db, es, n), id), x, b);
    }
  }

  // ----- Freshness -----

  lemma {:induction false} RunForward(db: Db, es: seq<Action>, i: nat, n: nat)
    requires Inv(db) && AllValid(es) && i <= n <= |es|
    ensures Forward(After(db, es, i), After(db, es, n))
    decreases n
  {
    hide Inv, DbReady, StatesValid, Step, ValidAction, RevisionsBounded, Forward;
    if i == n {
      SameForward(After(db, es, i));
    } else {
      RunForward(db, es, i, n - 1);
      AfterStep(db, es, n - 1);
      var committed, id, s := StepShape(After(db, es, n - 1), es[n - 1]);
      ForwardChain(After(db, es, i), After(db, es, n - 1), After(db, es, n));
    }
  }

  lemma ForwardChain(a: Db, b: Db, c: Db)
    requires Forward(a, b) && Forward(b, c)
    ensures Forward(a, c)
  {
    forall t | t in a.tasks ensures RowForward(a, c, t) {
      assert RowForward(a, b, t) && RowForward(b, c, t);
    }
  }

  /** Once a recorded source has changed or gone, it never becomes fresh again. */
  lemma StaleStays(a: Db, b: Db, d: Draft)
    requires Forward(a, b) && NotAhead(a, d) && !Fresh(a, d)
    ensures !Fresh(b, d)
  {
    if a.prefs.version == d.preferenceVersion {
      var t :| t in d.taskVersions && (Missing(a, t) || a.tasks[t].task.version != d.taskVersions[t]);
      assert RowForward(a, b, t);
    }
  }

  lemma FreshView(db: Db, id: ScheduleId)
    requires Found(db, id)
    ensures ViewOf(db, id).Stale() <==> !Fresh(db, CurrentState(db.schedules[id]).draft)
  {
    var v, d := ViewOf(db, id), CurrentState(db.schedules[id]).draft;
    if v.Stale() {
      if t :| t in v.missing { assert Missing(db, t); }
    } else {
      forall t | t in d.taskVersions ensures !Missing(db, t) && db.tasks[t].task.version == d.taskVersions[t] {
        assert t !in v.missing && t !in v.changed;
      }
    }
  }

  /** A command that commits answers with a view that is not stale. */
  lemma CommitAnswersFresh(db: Db, e: Action)
    requires Inv(db) && DbReady(db) && StatesValid(db) && ValidAction(e) && e.Run?
    requires Execute(db, e.request, e.command, e.now, e.newId).0 != db
    ensures var r := Execute(db, e.request, e.command, e.now, e.newId).1;
      r.Answered? && !r.replayed && !r.view.Stale()
  {
    hide Inv, DbReady, StatesValid, Commits, ValidCommand, Execute, Fresh, View.Stale, CommittedDraft;
    InvReady(db);
    var id, s := ExecuteCommits(db, e.request, e.command, e.now, e.newId);
    CommitCurrent(db, e.request, e.command, e.now, id, s);
    CommitPlacement(db, e.request, e.command, e.now, id, s);
    var after := Committed(db, e.request, e.command, id, s);
    WrittenCurrent(db, e.request, e.command, id, s);
    FreshView(after, id);
  }

  lemma WrittenCurrent(db: Db, request: RequestId, command: Command, id: ScheduleId, s: Schedule)
    requires s.current in s.revisions
    ensures var after := Committed(db, request, command, id, s);
      Found(after, id) && CurrentState(after.schedules[id]).draft == CommittedDraft(s)
      && (Fresh(after, CommittedDraft(s)) <==> Fresh(db, CommittedDraft(s)))
  {
  }

  lemma NotAheadHere(db: Db, id: ScheduleId, r: int)
    requires Inv(db) && id in db.schedules && r in db.schedules[id].revisions
    ensures NotAhead(db, db.schedules[id].revisions[r].draft)
  {
    hide DbReady, HorizonsApart, AllocationsExact, ReceiptsExact, Numbered, AllFit, NotAhead;
    assert ScheduleOK(db, db.schedules[id]);
  }

  /** Whatever a step makes current has fresh sources. */
  lemma StepMakesFresh(db: Db, e: Action, id: ScheduleId)
    requires Inv(db) && DbReady(db) && StatesValid(db) && ValidAction(e)
    requires id in Step(db, e).schedules && (id in db.schedules ==> Step(db, e).schedules[id] != db.schedules[id])
    ensures Found(Step(db, e), id) && Fresh(db, CurrentState(Step(db, e).schedules[id]).draft)
  {
    hide Inv, DbReady, StatesValid, Commits, ValidCommand, Step, Fresh, Forward, CommittedDraft, BlockTasks,
         Reallocated;
    InvReady(db);
    var committed, other, s := StepShape(db, e);
    if committed {
      CommitCurrent(db, e.request, e.command, e.now, other, s);
      CommitPlacement(db, e.request, e.command, e.now, other, s);
      WrittenCurrent(db, e.request, e.command, other, s);
    }
  }

  /** Once a task or preference recorded in a revision has changed or been deleted, no later step
      of any run, undo and redo included, makes that revision's draft current. */
  lemma StaleNeverReturns(db: Db, es: seq<Action>, i: nat, n: nat, id: ScheduleId, r: int)
    requires Inv(db) && AllValid(es) && i <= n < |es|
    requires id in After(db, es, i).schedules && r in After(db, es, i).schedules[id].revisions
    requires !Fresh(After(db, es, i), After(db, es, i).schedules[id].revisions[r].draft)
    requires id in After(db, es, n).schedules && id in After(db, es, n + 1).schedules
    requires After(db, es, n + 1).schedules[id] != After(db, es, n).schedules[id]
    ensures Found(After(db, es, n + 1), id)
    ensures CurrentState(After(db, es, n + 1).schedules[id]).draft != After(db, es, i).schedules[id].revisions[r].draft
  {
    hide *;
    NotAheadHere(After(db, es, i), id, r);
    RunForward(db, es, i, n);
    StaleStays(After(db, es, i), After(db, es, n), After(db, es, i).schedules[id].revisions[r].draft);
    AfterStep(db, es, n);
    StepMakesFresh(After(db, es, n), es[n], id);
  }
}
