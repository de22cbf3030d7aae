/** Commands take effect exactly once. */
module ScheduleReceipts {
  import opened ScheduleModels
  import opened ScheduleSteps
  import opened ScheduleCommits
  import opened ScheduleInvariants
  import opened ScheduleRuns
  import opened ScheduleTheorems

  lemma ReceiptFound(db: Db, q: RequestId)
    requires Inv(db) && q in db.receipts
    ensures Found(db, db.receipts[q].schedule) && Names(db.receipts[q].command, db.receipts[q].schedule)
  {
    hide DbReady, HorizonsApart, AllocationsExact, AllFit, NoneAhead;
    var id := db.receipts[q].schedule;
    assert HasVersion(db, id, db.receipts[q].applied);
    assert ScheduleOK(db, db.schedules[id]);
  }

  /** Repeating a request changes nothing and answers with the version it was applied as. */
  lemma ReplayChangesNothing(db: Db, q: RequestId, now: int, newId: ScheduleId)
    requires Inv(db) && DbReady(db) && StatesValid(db) && q in db.receipts && ValidCommand(db.receipts[q].command)
    ensures var receipt := db.receipts[q];
      Execute(db, q, receipt.command, now, newId)
        == (db, Answered(ViewOf(db, receipt.schedule), true, receipt.applied))
  {
    hide Inv, DbReady, StatesValid, ValidCommand, Validate, ViewOf;
    ReceiptFound(db, q);
  }

  /** Reusing a request's identifier for other content changes nothing and is rejected. */
  lemma OtherContentRejected(db: Db, q: RequestId, command: Command, now: int, newId: ScheduleId)
    requires Inv(db) && DbReady(db) && StatesValid(db) && ValidCommand(command)
    requires q in db.receipts && db.receipts[q].command != command
    ensures Execute(db, q, command, now, newId).0 == db
    ensures Execute(db, q, command, now, newId).1 ==
      if command.Create? || Found(db, command.id) then Rejected(RequestIdConflict) else Rejected(NotFound)
  {
    hide Inv, DbReady, StatesValid, ValidCommand, Validate;
  }

  lemma StepKeepsReceipt(db: Db, e: Action, q: RequestId)
    requires Inv(db) && DbReady(db) && StatesValid(db) && ValidAction(e) && q in db.receipts
    ensures q in Step(db, e).receipts && Step(db, e).receipts[q] == db.receipts[q]
  {
    hide Inv, DbReady, StatesValid, ValidCommand, Step, Forward, CommitsCreate, CommitsReplace, CommitsTravel,
         BlockTasks, Reallocated, AllocationConflict;
    var committed, id, s := StepShape(db, e);
  }

  /** Receipts are durable: no later step removes or rewrites one, whatever history it trims. */
  lemma {:induction false} ReceiptsSurvive(db: Db, es: seq<Action>, i: nat, n: nat, q: RequestId)
    requires Inv(db) && AllValid(es) && i <= n <= |es| && q in After(db, es, i).receipts
    ensures q in After(db, es, n).receipts && After(db, es, n).receipts[q] == After(db, es, i).receipts[q]
    decreases n
  {
    hide *;
    if n <= i {
    } else {
      ReceiptsSurvive(db, es, i, n - 1, q);
      AfterStep(db, es, n - 1);
      StepKeepsReceipt(After(db, es, n - 1), es[n - 1], q);
    }
  }

  /** A commit writes its receipt with the version it produced. */
  lemma CommitWritesReceipt(db: Db, e: Action)
    requires Inv(db) && DbReady(db) && StatesValid(db) && ValidAction(e) && e.Run? && Step(db, e) != db
    ensures var after := Step(db, e);
      && e.request !in db.receipts && e.request in after.receipts
      && after.receipts[e.request].command == e.command
      && after.receipts[e.request].schedule in after.schedules
      && after.receipts[e.request].applied == after.schedules[after.receipts[e.request].schedule].version
  {
    hide Inv, DbReady, StatesValid, ValidCommand, Step, Forward, CommitsCreate, CommitsReplace, CommitsTravel,
         BlockTasks, Reallocated, AllocationConflict;
    var committed, id, s := StepShape(db, e);
  }

  /** Exactly once over a whole run: after a request has committed at step `i`, repeating it at any
      later step changes nothing and reports the version of the original commit. */
  lemma ExactlyOnce(db: Db, es: seq<Action>, i: nat, n: nat)
    requires Inv(db) && AllValid(es) && i < n < |es|
    requires es[i].Run? && After(db, es, i + 1) != After(db, es, i)
    requires es[n].Run? && es[n].request == es[i].request && es[n].command == es[i].command
    ensures After(db, es, n + 1) == After(db, es, n)
    ensures es[i].request in After(db, es, i + 1).receipts
    ensures var before := After(db, es, n);
      DbReady(before) && StatesValid(before) && ValidCommand(es[n].command)
      && var r := Execute(before, es[n].request, es[n].command, es[n].now, es[n].newId).1;
         r.Answered? && r.replayed && r.applied == After(db, es, i + 1).receipts[es[i].request].applied
  {
    hide Inv, AllValid, After, DbReady, StatesValid, RevisionsBounded, ValidCommand, Execute, ViewOf;
    AfterStep(db, es, i);
    CommitWritesReceipt(After(db, es, i), es[i]);
    ReceiptsSurvive(db, es, i + 1, n, es[i].request);
    AfterStep(db, es, n);
    ReplayChangesNothing(After(db, es, n), es[n].request, es[n].now, es[n].newId);
  }

  // ----- Version races -----

  /** The version a command claims to have read; a creation claims none. */
  function Expects(c: Command): int { if c.Create? then 0 else c.expected }

  lemma CommitRaisesVersion(db: Db, e: Action)
    requires Inv(db) && DbReady(db) && StatesValid(db) && ValidAction(e) && e.Run? && Step(db, e) != db
    requires !e.command.Create?
    ensures e.command.id in db.schedules && db.schedules[e.command.id].version == e.command.expected
    ensures e.command.id in Step(db, e).schedules
    ensures Step(db, e).schedules[e.command.id].version == e.command.expected + 1
  {
    hide Inv, DbReady, StatesValid, ValidCommand, Step, Forward, BlockTasks, Reallocated, AllocationConflict, Validate,
         Trimmed, UpTo;
    var committed, id, s := StepShape(db, e);
  }

  /** Of the commands that share a schedule and an expected version, at most one ever commits:
      later commits expect strictly later versions. */
  lemma AtMostOneCommits(db: Db, es: seq<Action>, i: nat, n: nat)
    requires Inv(db) && AllValid(es) && i < n < |es|
    requires es[i].Run? && !es[i].command.Create? && After(db, es, i + 1) != After(db, es, i)
    requires es[n].Run? && !es[n].command.Create? && After(db, es, n + 1) != After(db, es, n)
    requires es[i].command.id == es[n].command.id
    ensures Expects(es[i].command) < Expects(es[n].command)
  {
    hide Inv, AllValid, After, DbReady, StatesValid, RevisionsBounded, ValidAction, Step;
    AfterStep(db, es, i);
    CommitRaisesVersion(After(db, es, i), es[i]);
    RunPersists(db, es, i + 1, n, es[i].command.id);
    AfterStep(db, es, n);
    CommitRaisesVersion(After(db, es, n), es[n]);
  }
}
