/** The guarantees as a new owner meets them: after any run of commands and edits. */
module ReachableStates {
  import opened PlanningModels
  import opened BlockLists
  import opened ScheduleModels
  import opened ScheduleSteps
  import opened ScheduleInvariants
  import opened ScheduleRuns
  import opened ScheduleCommits
  import opened ScheduleTheorems
  import opened HistoryRechecks
  import opened UndoRedo

  /** The owner's rows after the first `n` actions. */
  ghost function Reached(zone: Zone, prefs: Preferences, es: seq<Action>, n: nat): (db: Db)
    requires ValidPreferences(prefs) && AllValid(es) && n <= |es|
    ensures Inv(db)
  {
    NewOwnerInv(zone, prefs);
    After(NewOwner(zone, prefs), es, n)
  }

  /** A new owner has nothing stored. */
  lemma ReachedHistory(zone: Zone, prefs: Preferences, es: seq<Action>, n: nat)
    requires ValidPreferences(prefs) && AllValid(es) && n <= |es|
    ensures var db := Reached(zone, prefs, es, n); DbReady(db) && StatesValid(db) && HistoryOK(db)
  {
    NewOwnerInv(zone, prefs);
    RunKeepsHistory(NewOwner(zone, prefs), es, n);
    hide Inv, DbReady, After, HistoryOK, StatesValid;
    InvReady(Reached(zone, prefs, es, n));
  }

  /** After any run, a schedule whose view is not stale is still a valid layout: the validator accepts
      it against the live tasks and preferences, and all its blocks are of live pending tasks. */
  lemma NotStaleStillValid(zone: Zone, prefs: Preferences, es: seq<Action>, n: nat, id: ScheduleId)
    requires ValidPreferences(prefs) && AllValid(es) && n <= |es|
    requires var db := Reached(zone, prefs, es, n); Found(db, id) && !ViewOf(db, id).Stale()
    ensures var db := Reached(zone, prefs, es, n);
      var s := db.schedules[id];
      var d := CurrentState(s).draft;
      && DbReady(db) && ValidDraft(d) && Fresh(db, d) && CheckContent(db, s.zone, d).Success?
      && forall b :: b in Blocks(db, id) ==> Protected(db, b.task)
  {
    hide Inv, DbReady, After, Reached, StatesValid, ValidDraft, CheckContent, LocksCarried, Neighbours, Protected,
         View.Stale, Fresh;
    var db := Reached(zone, prefs, es, n);
    ReachedHistory(zone, prefs, es, n);
    FreshView(db, id);
    OlderPasses(db, id);
    FreshBlocksProtected(db, db.schedules[id].zone, CurrentState(db.schedules[id]).draft);
  }

  /** Every block that a commit makes current belongs to a task that is live and pending right then,
      before and after the commit. */
  lemma CommittedWorkPending(zone: Zone, prefs: Preferences, es: seq<Action>, n: nat, id: ScheduleId, b: Block)
    requires ValidPreferences(prefs) && AllValid(es) && n < |es|
    requires var db, after := Reached(zone, prefs, es, n), Reached(zone, prefs, es, n + 1);
      id in after.schedules && (id in db.schedules ==> after.schedules[id] != db.schedules[id])
        && b in Blocks(after, id)
    ensures Protected(Reached(zone, prefs, es, n), b.task) && Protected(Reached(zone, prefs, es, n + 1), b.task)
  {
    hide Inv, DbReady, StatesValid, Step, RevisionsBounded, HistoryOK, After, Commits, ValidCommand, CheckContent,
         Fresh, ContentPasses, CommittedDraft, Forward, Protected;
    NewOwnerInv(zone, prefs);
    AfterStep(NewOwner(zone, prefs), es, n);
    ReachedHistory(zone, prefs, es, n);
    ReachedHistory(zone, prefs, es, n + 1);
    var db, after := Reached(zone, prefs, es, n), Reached(zone, prefs, es, n + 1);
    StepMakesFresh(db, es[n], id);
    var committed, other, s := StepShape(db, es[n]);
    if committed { CommitForward(db, es[n].request, es[n].command, es[n].now, other, s); }
    SameFresh(db, after, CurrentState(after.schedules[id]).draft);
    OlderPasses(after, id);
    FreshBlocksProtected(after, after.schedules[id].zone, CurrentState(after.schedules[id]).draft);
    SameProtected(db, after, b.task);
  }

  lemma SameProtected(a: Db, b: Db, t: TaskId)
    requires a.tasks == b.tasks
    ensures Protected(a, t) <==> Protected(b, t)
  {
  }

  /** After any run, no two blocks of current revisions overlap in time. */
  lemma NeverOverlapping(zone: Zone, prefs: Preferences, es: seq<Action>, n: nat, a: ScheduleId, b: ScheduleId,
                         i: nat, j: nat)
    requires ValidPreferences(prefs) && AllValid(es) && n <= |es|
    requires var db := Reached(zone, prefs, es, n); i < |Blocks(db, a)| && j < |Blocks(db, b)| && (a != b || i != j)
    ensures var db := Reached(zone, prefs, es, n); Apart(Blocks(db, a)[i], Blocks(db, b)[j])
  {
    NoOverlap(Reached(zone, prefs, es, n), a, b, i, j);
  }

  /** After any run, a task is allocated to a schedule exactly when that schedule's current
      revision gives it time, which no other schedule then does. */
  lemma AllocatedOnce(zone: Zone, prefs: Preferences, es: seq<Action>, n: nat, t: TaskId, id: ScheduleId,
                      other: ScheduleId)
    requires ValidPreferences(prefs) && AllValid(es) && n <= |es|
    ensures var db := Reached(zone, prefs, es, n);
      && ((t in db.allocations && db.allocations[t] == id) <==> GivesTime(db, id, t))
      && (GivesTime(db, id, t) && GivesTime(db, other, t) ==> id == other)
  {
    hide DbReady, ScheduleOK, HorizonsApart, ReceiptsExact, GivesTime, After;
    var db := Reached(zone, prefs, es, n);
    if GivesTime(db, id, t) && GivesTime(db, other, t) { NoTaskTwice(db, id, other, t); }
  }

  /** After any run, each version of a schedule was applied by exactly one request, no request was
      applied as any other version, and at most 20 states remain, the current one among them. */
  lemma VersionsApplied(zone: Zone, prefs: Preferences, es: seq<Action>, n: nat, id: ScheduleId, v: int)
    requires ValidPreferences(prefs) && AllValid(es) && n <= |es|
    requires id in Reached(zone, prefs, es, n).schedules
    ensures var db := Reached(zone, prefs, es, n);
      && ((exists q :: Applied(db, q, id, v)) <==> 1 <= v <= db.schedules[id].version)
      && (forall p, q :: Applied(db, p, id, v) && Applied(db, q, id, v) ==> p == q)
      && db.schedules[id].current in db.schedules[id].revisions && |db.schedules[id].revisions| <= 20
  {
    hide DbReady, HorizonsApart, AllocationsExact, AllFit, NoneAhead, After;
    var db := Reached(zone, prefs, es, n);
    assert ScheduleOK(db, db.schedules[id]);
    assert HasVersion(db, id, v) <==> 1 <= v <= db.schedules[id].version;
    if q :| Applied(db, q, id, v) { assert HasVersion(db, id, v); }
  }
}
