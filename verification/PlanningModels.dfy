/** Values exchanged with the planner. Windows and blocks are whole minutes since the epoch;
    `earliest`, `deadline` and `now` are microseconds, so their rounding stays visible. */
module PlanningModels {
  import opened Wrappers

  /** Task identifiers are ordered as their canonical text is. */
  type TaskId = nat

  const SECOND: int := 1_000_000
  const MINUTE: int := 60_000_000
  const MAX_VERSION: int := 2_147_483_647
  const MAX_BLOCKS: int := 512

  datatype Period = Night | Morning | Afternoon | Evening

  datatype Status = Pending | Completed | Cancelled

  datatype Level = Low | Medium | High

  /** Half-open `[lo, hi)` in minute indices of one horizon. */
  datatype Interval = Interval(lo: int, hi: int)

  datatype Window = Window(start: int, end: int)

  datatype Event = Event(title: string, start: int, end: int)

  datatype Block = Block(task: TaskId, start: int, end: int, locked: bool)

  /** `preferred` is `Night` when the task accepts any period. */
  datatype Task = Task(
    id: TaskId, title: string, duration: nat, priority: int, splittable: bool, preferred: Period,
    status: Status, earliest: Option<int>, deadline: Option<int>, version: int)

  /** `chronotype` is `Night` when neutral; `workload` Low/Medium/High is light/medium/intense. */
  datatype Preferences = Preferences(
    chronotype: Period, focus: nat, pause: nat, flexibility: Level, workload: Level, deepWork: Period,
    version: int)

  datatype PlanningWindow = PlanningWindow(
    startDate: int, days: int, taskIds: seq<TaskId>, availability: seq<Window>, events: seq<Event>)

  datatype Request = Request(window: PlanningWindow, previous: seq<Block>)

  /** A time zone as the planner sees it: the UTC second of a local midnight, and the local
      calendar day and hour of a UTC instant in microseconds. */
  datatype Zone = Zone(midnight: int -> int, localDate: int -> int, localHour: int -> int)

  datatype Reason = DeadlinePassed | NoSlotFound | SearchLimit | NotScheduled

  datatype Unscheduled = Unscheduled(task: TaskId, remaining: nat, reason: Reason)

  datatype Code =
    | PastPlanningDate | InvalidLocalDay | UnsupportedTimeBoundary | TaskSnapshotMismatch
    | AvailabilityOutsideHorizon | EventOutsideHorizon | FixedEventConflict
    | LockedDurationConflict | LockedBlockConflict
    | InactiveTaskBlock | InvalidScheduleLayout

  predicate ValidPreferences(p: Preferences) {
    p.focus in {25, 45, 60, 90} && p.pause <= 60
  }

  /** Between earliest start and deadline, when both are set, there is time for the whole task. */
  predicate HoldsDuration(t: Task) {
    t.earliest.Some? && t.deadline.Some? ==> t.deadline.value - t.earliest.value >= t.duration * MINUTE
  }

  predicate ValidTask(t: Task) { 1 <= t.duration <= 10_080 && HoldsDuration(t) }

  predicate ValidTasks(tasks: seq<Task>) {
    forall t :: t in tasks ==> 1 <= t.duration <= 10_080
  }

  predicate ValidBlocks(blocks: seq<Block>) {
    forall b :: b in blocks ==> b.start < b.end
  }

  /** What the request contracts guarantee before planning starts. */
  predicate ValidWindow(w: PlanningWindow) {
    && w.days in {1, 7}
    && (forall a :: a in w.availability ==> a.start < a.end)
    && (forall e :: e in w.events ==> e.start < e.end)
    && (forall i, j :: 0 <= i < j < |w.taskIds| ==> w.taskIds[i] != w.taskIds[j])
  }

  function Min(a: int, b: int): int { if a <= b then a else b }

  function Max(a: int, b: int): int { if a >= b then a else b }

  function Abs(a: int): int { if a < 0 then -a else a }

  /** Number of whole minutes at or below an instant, and at or above it. */
  function FloorMinutes(t: int): int { t / MINUTE }

  function CeilMinutes(t: int): int { -((-t) / MINUTE) }
}
