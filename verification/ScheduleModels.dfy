/** Saved schedules: what the tables hold, what commands ask, and what views and receipts say. */
module ScheduleModels {
  import opened PlanningModels

  type ScheduleId = nat
  type RequestId = nat

  const HISTORY_LIMIT: nat := 20

  datatype Content = Content(window: PlanningWindow, blocks: seq<Block>)

  /** The client's part of a saved layout. */
  datatype Draft = Draft(title: string, content: Content, taskVersions: map<TaskId, int>, preferenceVersion: int)

  /** A stored revision: the draft and what the server computed from it. */
  datatype SavedState = SavedState(draft: Draft, unscheduled: seq<Unscheduled>)

  datatype Direction = Undo | Redo

  /** A whole request; two requests have the same digest exactly when they are equal. */
  datatype Command =
    | Create(draft: Draft)
    | Replace(id: ScheduleId, draft: Draft, expected: int)
    | Travel(id: ScheduleId, direction: Direction, expected: int)

  /** A task row and its tombstone. */
  datatype TaskRow = TaskRow(task: Task, deleted: bool)

  /** One schedule with its revisions: rows of `schedules` and `schedule_versions`. */
  datatype Schedule = Schedule(
    start: int, end: int, zone: Zone, version: int, current: int, revisions: map<int, SavedState>)

  datatype Receipt = Receipt(schedule: ScheduleId, command: Command, applied: int)

  /** Everything one owner has. */
  datatype Db = Db(
    zone: Zone, tasks: map<TaskId, TaskRow>, prefs: Preferences,
    schedules: map<ScheduleId, Schedule>, receipts: map<RequestId, Receipt>,
    allocations: map<TaskId, ScheduleId>)

  datatype StoreCode =
    | NotFound | RequestIdConflict | StaleScheduleVersion | ScheduleVersionLimit | SourcesChanged
    | SchedulePastDate | ScheduleHorizonChanged | MovesLockedBlock | MovesStartedBlock | PastBlock
    | Layout(code: Code) | EventOutsideSavedHorizon | ScheduleOverlap | TaskAlreadyScheduled
    | HistoryBoundary | IdentifierTaken

  /** What a client sees of a schedule. */
  datatype View = View(
    id: ScheduleId, version: int, revision: int, state: SavedState,
    missing: set<TaskId>, changed: set<TaskId>, preferencesChanged: bool, canUndo: bool, canRedo: bool)
  {
    predicate Stale() { missing != {} || changed != {} || preferencesChanged }
  }

  datatype Response = Rejected(code: StoreCode) | Answered(view: View, replayed: bool, applied: int)

  // ----- Contracts of the request models -----

  predicate ValidContent(c: Content) {
    && ValidWindow(c.window)
    && ValidBlocks(c.blocks)
    && |c.blocks| <= MAX_BLOCKS
    && (forall b :: b in c.blocks ==> b.task in c.window.taskIds)
  }

  predicate ValidDraft(d: Draft) {
    ValidContent(d.content) && d.taskVersions.Keys == (set id | id in d.content.window.taskIds)
  }

  predicate ValidCommand(c: Command) {
    c.Travel? || ValidDraft(c.draft)
  }

  predicate ValidRows(tasks: map<TaskId, TaskRow>) {
    forall id :: id in tasks ==> tasks[id].task.id == id && ValidTask(tasks[id].task)
  }
}
