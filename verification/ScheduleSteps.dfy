/** Each command and environment step as a function of the owner's rows: it either commits a new
    state or leaves everything as it was. */
module ScheduleSteps {
  import opened Wrappers
  import opened PlanningModels
  import opened Previews
  import opened ScheduleModels

  // ----- Lookups -----

  /** The header joined with its current revision. */
  predicate Found(db: Db, id: ScheduleId) {
    id in db.schedules && db.schedules[id].current in db.schedules[id].revisions
  }

  function CurrentState(s: Schedule): SavedState
    requires s.current in s.revisions
  {
    s.revisions[s.current]
  }

  predicate Missing(db: Db, id: TaskId) { id !in db.tasks || db.tasks[id].deleted }

  function ViewOf(db: Db, id: ScheduleId): View
    requires Found(db, id)
  {
    var s := db.schedules[id];
    var state := CurrentState(s);
    var missing := (set t | t in state.draft.taskVersions && Missing(db, t));
    var changed := (set t | t in state.draft.taskVersions && !Missing(db, t)
                            && db.tasks[t].task.version != state.draft.taskVersions[t]);
    View(id, s.version, s.current, state, missing, changed,
         db.prefs.version != state.draft.preferenceVersion,
         exists r :: r in s.revisions && r < s.current,
         exists r :: r in s.revisions && r > s.current)
  }

  // ----- Validation -----

  /** Recorded versions are exactly the live ones. */
  predicate Fresh(db: Db, d: Draft) {
    && db.prefs.version == d.preferenceVersion
    && forall t :: t in d.taskVersions ==> !Missing(db, t) && db.tasks[t].task.version == d.taskVersions[t]
  }

  function Selected(db: Db, ids: seq<TaskId>): (r: seq<Task>)
    requires forall id :: id in ids ==> id in db.tasks
    ensures |r| == |ids|
  {
    seq(|ids|, i requires 0 <= i < |ids| => db.tasks[ids[i]].task)
  }

  predicate SameKey(a: Block, b: Block) { a.task == b.task && a.start == b.start && a.end == b.end }

  predicate HasKey(blocks: seq<Block>, b: Block) {
    exists x :: x in blocks && SameKey(x, b)
  }

  /** A live, pending task's blocks are protected. */
  predicate Protected(db: Db, id: TaskId) {
    !Missing(db, id) && db.tasks[id].task.status.Pending?
  }

  /** First protected previous block that the candidate moves although locked or started. */
  function Disturbed(db: Db, previous: seq<Block>, candidate: seq<Block>, now: int): Option<StoreCode> {
    if previous == [] then None
    else
      var b := previous[0];
      if Protected(db, b.task) && !HasKey(candidate, b) && b.locked then Some(MovesLockedBlock)
      else if Protected(db, b.task) && !HasKey(candidate, b) && b.start * MINUTE < now then Some(MovesStartedBlock)
      else Disturbed(db, previous[1..], candidate, now)
  }

  function PlacementError(db: Db, previous: seq<Block>, candidate: seq<Block>, now: int): Option<StoreCode> {
    match Disturbed(db, previous, candidate, now)
    case Some(e) => Some(e)
    case None =>
      if exists b :: b in candidate && b.start * MINUTE < now && !HasKey(previous, b) then Some(PastBlock) else None
  }

  datatype Checked = Checked(state: SavedState, start: int, end: int)

  predicate DbReady(db: Db) { ValidRows(db.tasks) && ValidPreferences(db.prefs) }

  lemma SelectedValid(db: Db, d: Draft)
    requires DbReady(db) && ValidDraft(d) && Fresh(db, d)
    ensures forall id :: id in d.content.window.taskIds ==> id in db.tasks
    ensures ValidInputs(d.content.window, d.content.blocks, Selected(db, d.content.window.taskIds), db.prefs)
  {
    forall id | id in d.content.window.taskIds ensures id in db.tasks {
      assert id in d.taskVersions.Keys;
    }
  }

  /** The layout check against the live rows, then the events against the saved horizon. */
  function CheckContent(db: Db, zone: Zone, d: Draft): Result<Checked, StoreCode>
    requires DbReady(db) && ValidDraft(d) && Fresh(db, d)
  {
    SelectedValid(db, d);
    var w := d.content.window;
    match Inspect(w, d.content.blocks, Selected(db, w.taskIds), db.prefs, zone)
    case Failure(e) => Failure(Layout(e))
    case Success(i) =>
      if exists e :: e in w.events && (e.start < i.start || e.end > i.end) then Failure(EventOutsideSavedHorizon)
      else Success(Checked(SavedState(d, i.missing), i.start, i.end))
  }

  predicate SameHorizonDays(a: PlanningWindow, b: PlanningWindow) { a.startDate == b.startDate && a.days == b.days }

  /** Sources, dates, protected placements and content, in that order. */
  function Validate(db: Db, zone: Zone, d: Draft, previous: Option<SavedState>, now: int): Result<Checked, StoreCode>
    requires DbReady(db) && ValidDraft(d)
  {
    var w := d.content.window;
    if !Fresh(db, d) then Failure(SourcesChanged)
    else if previous == None && w.startDate < zone.localDate(now) then Failure(SchedulePastDate)
    else if previous.Some? && !SameHorizonDays(w, previous.value.draft.content.window)
    then Failure(ScheduleHorizonChanged)
    else
      var before := if previous.Some? then previous.value.draft.content.blocks else [];
      match PlacementError(db, before, d.content.blocks, now)
      case Some(e) => Failure(e)
      case None => CheckContent(db, zone, d)
  }

  // ----- Allocations -----

  function BlockTasks(blocks: seq<Block>): set<TaskId> { set b | b in blocks :: b.task }

  predicate AllocationConflict(allocations: map<TaskId, ScheduleId>, id: ScheduleId, tasks: set<TaskId>) {
    exists t :: t in tasks && t in allocations && allocations[t] != id
  }

  /** The schedule's rows are replaced by one row for each task it gives time to. */
  function Reallocated(allocations: map<TaskId, ScheduleId>, id: ScheduleId,
                       tasks: set<TaskId>): map<TaskId, ScheduleId> {
    map t | t in allocations.Keys + tasks && (t in tasks || allocations[t] != id) ::
      if t in tasks then id else allocations[t]
  }

  // ----- History -----

  function Newer(revisions: map<int, SavedState>, r: int): set<int> {
    set k | k in revisions && k > r
  }

  /** Keeps the 20 highest revisions. */
  function Trimmed(revisions: map<int, SavedState>): map<int, SavedState> {
    map r | r in revisions && |Newer(revisions, r)| < HISTORY_LIMIT :: revisions[r]
  }

  function UpTo(revisions: map<int, SavedState>, r: int): map<int, SavedState> {
    map k | k in revisions && k <= r :: revisions[k]
  }

  /** The nearest existing revision before or after the cursor. */
  predicate IsTarget(s: Schedule, direction: Direction, r: int) {
    && r in s.revisions
    && (direction.Undo? ==> r < s.current && forall k :: k in s.revisions && k < s.current ==> k <= r)
    && (direction.Redo? ==> r > s.current && forall k :: k in s.revisions && k > s.current ==> r <= k)
  }

  /** Walks down, or up to `last`, until an existing revision is met. */
  function SeekDown(revisions: map<int, SavedState>, r: int): (found: Option<int>)
    ensures found.Some? ==> found.value in revisions
    decreases r
  {
    if r < 1 then None else if r in revisions then Some(r) else SeekDown(revisions, r - 1)
  }

  function SeekUp(revisions: map<int, SavedState>, r: int, last: int): (found: Option<int>)
    ensures found.Some? ==> found.value in revisions
    decreases last - r
  {
    if r > last then None else if r in revisions then Some(r) else SeekUp(revisions, r + 1, last)
  }

  function Target(s: Schedule, direction: Direction): (found: Option<int>)
    ensures found.Some? ==> found.value in s.revisions
  {
    match direction
    case Undo => SeekDown(s.revisions, s.current - 1)
    case Redo => SeekUp(s.revisions, s.current + 1, s.version)
  }

  // ----- Commands -----

  function VersionError(s: Schedule, expected: int): Option<StoreCode> {
    if s.version != expected then Some(StaleScheduleVersion)
    else if expected >= MAX_VERSION then Some(ScheduleVersionLimit)
    else None
  }

  predicate Overlaps(db: Db, start: int, end: int) {
    exists id :: id in db.schedules && db.schedules[id].start < end && db.schedules[id].end > start
  }

  /** The owner's rows after a schedule row, its allocations and a receipt are written. */
  function Written(db: Db, id: ScheduleId, s: Schedule, tasks: set<TaskId>, request: RequestId, command: Command): Db {
    db.(schedules := db.schedules[id := s],
        allocations := Reallocated(db.allocations, id, tasks),
        receipts := db.receipts[request := Receipt(id, command, s.version)])
  }

  function Answer(db: Db, id: ScheduleId, replayed: bool, applied: int): Response {
    if Found(db, id) then Answered(ViewOf(db, id), replayed, applied) else Rejected(NotFound)
  }

  function Replay(db: Db, request: RequestId, command: Command): Option<Response> {
    if request !in db.receipts then None
    else if db.receipts[request].command != command then Some(Rejected(RequestIdConflict))
    else Some(Answer(db, db.receipts[request].schedule, true, db.receipts[request].applied))
  }

  predicate RevisionsValid(s: Schedule) {
    forall r :: r in s.revisions ==> ValidDraft(s.revisions[r].draft)
  }

  predicate StatesValid(db: Db) {
    forall id :: id in db.schedules ==> RevisionsValid(db.schedules[id])
  }

  function DoCreate(db: Db, request: RequestId, d: Draft, now: int, newId: ScheduleId): (Db, Response)
    requires DbReady(db) && ValidDraft(d)
  {
    match Replay(db, request, Create(d))
    case Some(r) => (db, r)
    case None =>
      match Validate(db, db.zone, d, None, now)
      case Failure(e) => (db, Rejected(e))
      case Success(c) =>
        var tasks := BlockTasks(d.content.blocks);
        if Overlaps(db, c.start, c.end) then (db, Rejected(ScheduleOverlap))
        else if newId in db.schedules then (db, Rejected(IdentifierTaken))
        else if AllocationConflict(db.allocations, newId, tasks) then (db, Rejected(TaskAlreadyScheduled))
        else
          var after := Written(db, newId, Schedule(c.start, c.end, db.zone, 1, 1, map[1 := c.state]), tasks, request,
                               Create(d));
          (after, Answer(after, newId, false, 1))
  }

  function Replaced(s: Schedule, state: SavedState): Schedule {
    var next := s.version + 1;
    s.(version := next, current := next, revisions := Trimmed(UpTo(s.revisions, s.current)[next := state]))
  }

  function DoReplace(db: Db, request: RequestId, id: ScheduleId, d: Draft, expected: int, now: int): (Db, Response)
    requires DbReady(db) && ValidDraft(d)
  {
    if !Found(db, id) then (db, Rejected(NotFound))
    else
      var s := db.schedules[id];
      match Replay(db, request, Replace(id, d, expected))
      case Some(r) => (db, r)
      case None =>
        match VersionError(s, expected)
        case Some(e) => (db, Rejected(e))
        case None =>
          match Validate(db, s.zone, d, Some(CurrentState(s)), now)
          case Failure(e) => (db, Rejected(e))
          case Success(c) =>
            var tasks := BlockTasks(d.content.blocks);
            if AllocationConflict(db.allocations, id, tasks) then (db, Rejected(TaskAlreadyScheduled))
            else
              var after := Written(db, id, Replaced(s, c.state), tasks, request, Replace(id, d, expected));
              (after, Answer(after, id, false, s.version + 1))
  }

  function DoTravel(db: Db, request: RequestId, id: ScheduleId, direction: Direction, expected: int, now: int)
      : (Db, Response)
    requires DbReady(db) && StatesValid(db)
  {
    if !Found(db, id) then (db, Rejected(NotFound))
    else
      var s := db.schedules[id];
      match Replay(db, request, Travel(id, direction, expected))
      case Some(r) => (db, r)
      case None =>
        match VersionError(s, expected)
        case Some(e) => (db, Rejected(e))
        case None =>
          match Target(s, direction)
          case None => (db, Rejected(HistoryBoundary))
          case Some(r) =>
            var d := s.revisions[r].draft;
            match Validate(db, s.zone, d, Some(CurrentState(s)), now)
            case Failure(e) => (db, Rejected(e))
            case Success(c) =>
              var tasks := BlockTasks(d.content.blocks);
              if AllocationConflict(db.allocations, id, tasks) then (db, Rejected(TaskAlreadyScheduled))
              else
                var after := Written(db, id, s.(version := s.version + 1, current := r), tasks, request,
                                     Travel(id, direction, expected));
                (after, Answer(after, id, false, s.version + 1))
  }

  /** A command together with its request identifier. */
  function Execute(db: Db, request: RequestId, command: Command, now: int, newId: ScheduleId): (Db, Response)
    requires DbReady(db) && StatesValid(db) && ValidCommand(command)
  {
    match command
    case Create(d) => DoCreate(db, request, d, now, newId)
    case Replace(id, d, expected) => DoReplace(db, request, id, d, expected, now)
    case Travel(id, direction, expected) => DoTravel(db, request, id, direction, expected, now)
  }

  // ----- Steps of the environment -----

  /** The fields an edit sets; bounds on times may also be removed. */
  datatype Patch = Patch(
    title: Option<string>, duration: Option<nat>, priority: Option<int>, splittable: Option<bool>,
    preferred: Option<Period>, status: Option<Status>, earliest: Option<Option<int>>, deadline: Option<Option<int>>)

  predicate ValidPatch(p: Patch) { p.duration.Some? ==> 1 <= p.duration.value <= 10_080 }

  function Patched(t: Task, p: Patch): Task {
    t.(title := p.title.GetOr(t.title), duration := p.duration.GetOr(t.duration),
       priority := p.priority.GetOr(t.priority),
       splittable := p.splittable.GetOr(t.splittable), preferred := p.preferred.GetOr(t.preferred),
       status := p.status.GetOr(t.status), earliest := p.earliest.GetOr(t.earliest),
       deadline := p.deadline.GetOr(t.deadline))
  }

  datatype EditCode = UnknownTask | StaleTask | InvalidTaskChange

  /** An edit needs a live task at the named version; the whole task is validated again. */
  function UpdateError(db: Db, id: TaskId, expected: int, p: Patch): Option<EditCode> {
    if Missing(db, id) then Some(UnknownTask)
    else if db.tasks[id].task.version != expected then Some(StaleTask)
    else if !HoldsDuration(Patched(db.tasks[id].task, p)) || expected >= MAX_VERSION then Some(InvalidTaskChange)
    else None
  }

  datatype Action =
    | Run(request: RequestId, command: Command, now: int, newId: ScheduleId)
    | AddTask(task: Task)
    | UpdateTask(id: TaskId, expected: int, patch: Patch)
    | DeleteTask(id: TaskId, expected: int)
    | UpdatePreferences(expected: int, values: Preferences)

  predicate ValidAction(e: Action) {
    match e
    case Run(_, command, _, _) => ValidCommand(command)
    case AddTask(task) => ValidTask(task)
    case UpdateTask(_, _, patch) => ValidPatch(patch)
    case DeleteTask(_, _) => true
    case UpdatePreferences(_, values) => ValidPreferences(values)
  }

  /** A task row may be changed only at its live version, below the version limit. */
  predicate Editable(db: Db, id: TaskId, expected: int) {
    !Missing(db, id) && db.tasks[id].task.version == expected && expected < MAX_VERSION
  }

  function Step(db: Db, e: Action): Db
    requires DbReady(db) && StatesValid(db) && ValidAction(e)
  {
    match e
    case Run(request, command, now, newId) => Execute(db, request, command, now, newId).0
    case AddTask(task) =>
      if task.id in db.tasks then db
      else db.(tasks := db.tasks[task.id := TaskRow(task.(version := 1), false)])
    case UpdateTask(id, expected, patch) =>
      if UpdateError(db, id, expected, patch).Some? then db
      else db.(tasks := db.tasks[id := TaskRow(Patched(db.tasks[id].task, patch).(version := expected + 1), false)])
    case DeleteTask(id, expected) =>
      if !Editable(db, id, expected) then db
      else db.(tasks := db.tasks[id := TaskRow(db.tasks[id].task.(version := expected + 1), true)])
    case UpdatePreferences(expected, values) =>
      if db.prefs.version != expected || expected >= MAX_VERSION then db
      else db.(prefs := values.(version := expected + 1))
  }
}
