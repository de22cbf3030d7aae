/** The planning context: horizon, minute mask, clipped events, day ranges and task order,
    as a function of the request, the task snapshot, the zone and the clock. */
module PlanningGrid {
  import opened Wrappers
  import opened PlanningModels
  import opened Sorting
  import opened Masks

  datatype Grid = Grid(
    start: int, size: nat, floor: nat,
    avail: seq<bool>, events: seq<Interval>,
    days: seq<Interval>, periods: seq<Period>, targets: seq<nat>,
    prefs: Preferences,
    queue: seq<Task>, pending: map<TaskId, Task>,
    previous: seq<Block>)

  // ----- Horizon -----

  /** First minute and number of minutes of the requested local days. */
  datatype Horizon = Horizon(start: int, size: nat)

  function HorizonOf(startDate: int, days: int, zone: Zone, now: int): Result<Horizon, Code> {
    var s, e := zone.midnight(startDate), zone.midnight(startDate + days);
    if startDate < zone.localDate(now) then Failure(PastPlanningDate)
    else if !(1 <= (e - s) / 60 <= 8 * 1440) || zone.localDate(s * SECOND) != startDate then Failure(InvalidLocalDay)
    else if s % 60 != 0 || e % 60 != 0 then Failure(UnsupportedTimeBoundary)
    else Success(Horizon(s / 60, (e - s) / 60))
  }

  /** First plannable minute index: the minute that contains `now`, rounded up and clipped. */
  function FloorIndex(start: int, size: nat, now: int): nat {
    Min(size, Max(0, CeilMinutes(now - start * MINUTE)))
  }

  // ----- Tasks -----

  function PendingOnly(tasks: seq<Task>): seq<Task> {
    if tasks == [] then []
    else PendingOnly(tasks[..|tasks| - 1]) + if tasks[|tasks| - 1].status.Pending? then [tasks[|tasks| - 1]] else []
  }

  function ById(tasks: seq<Task>): map<TaskId, Task> {
    if tasks == [] then map[] else ById(tasks[..|tasks| - 1])[tasks[|tasks| - 1].id := tasks[|tasks| - 1]]
  }

  /** The snapshot must hold each selected task exactly once. */
  predicate SnapshotMatches(tasks: seq<Task>, ids: seq<TaskId>) {
    && (forall i, j :: 0 <= i < j < |tasks| ==> tasks[i].id != tasks[j].id)
    && (set t | t in tasks :: t.id) == (set id | id in ids)
  }

  /** Earlier effective deadline first, then higher priority, then identifier. */
  predicate ComesFirst(end: int, a: Task, b: Task) {
    var da := Min(a.deadline.GetOr(end * MINUTE), end * MINUTE);
    var db := Min(b.deadline.GetOr(end * MINUTE), end * MINUTE);
    da < db || (da == db && (a.priority > b.priority || (a.priority == b.priority && a.id <= b.id)))
  }

  function TaskOrder(end: int): (Task, Task) -> bool {
    (a: Task, b: Task) => ComesFirst(end, a, b)
  }

  function Queue(tasks: seq<Task>, end: int): seq<Task> {
    Sort(TaskOrder(end), PendingOnly(tasks))
  }

  function PreviousOf(blocks: seq<Block>, pending: map<TaskId, Task>): seq<Block> {
    if blocks == [] then []
    else PreviousOf(blocks[..|blocks| - 1], pending)
         + if blocks[|blocks| - 1].task in pending then [blocks[|blocks| - 1]] else []
  }

  // ----- Events -----

  predicate TitleFirst(a: string, b: string) {
    a == [] || (b != [] && (a[0] < b[0] || (a[0] == b[0] && TitleFirst(a[1..], b[1..]))))
  }

  predicate EventFirst(a: Event, b: Event) {
    a.start < b.start || (a.start == b.start && (a.end < b.end || (a.end == b.end && TitleFirst(a.title, b.title))))
  }

  function EventOrder(): (Event, Event) -> bool {
    (a: Event, b: Event) => EventFirst(a, b)
  }

  function Clip(e: Event, start: int, size: nat): Interval {
    Interval(Max(0, e.start - start), Min(size, e.end - start))
  }

  /** Clips sorted events to the horizon, refusing an event outside it or one that starts
      before the previous one ended. */
  function ClipEvents(events: seq<Event>, start: int, size: nat): Result<seq<Interval>, Code> {
    if events == [] then Success([])
    else
      match ClipEvents(events[..|events| - 1], start, size)
      case Failure(e) => Failure(e)
      case Success(before) =>
        var next := Clip(events[|events| - 1], start, size);
        if next.lo >= next.hi then Failure(EventOutsideHorizon)
        else if before != [] && next.lo < before[|before| - 1].hi then Failure(FixedEventConflict)
        else Success(before + [next])
  }

  predicate InInterval(x: Interval, i: int) { x.lo <= i < x.hi }

  predicate Covered(xs: seq<Interval>, i: int) {
    exists x :: x in xs && InInterval(x, i)
  }

  predicate Declared(windows: seq<Window>, start: int, i: int) {
    exists w :: w in windows && w.start - start <= i < w.end - start
  }

  predicate WindowInside(w: Window, start: int, size: nat) {
    start <= w.start && w.end <= start + size
  }

  /** Minutes that may carry new or kept work. */
  function AvailableMask(windows: seq<Window>, events: seq<Interval>, start: int, size: nat, floor: nat): (m: seq<bool>)
    ensures |m| == size
  {
    seq(size, i => floor <= i && Declared(windows, start, i) && !Covered(events, i))
  }

  // ----- Local days and periods -----

  function PeriodOf(hour: int): Period {
    if 6 <= hour < 12 then Morning
    else if 12 <= hour < 18 then Afternoon
    else if hour >= 18 then Evening
    else Night
  }

  function InstantAt(start: int, i: int): int { (start + i) * MINUTE }

  function PeriodsOf(zone: Zone, start: int, size: nat): seq<Period> {
    seq(size, i => PeriodOf(zone.localHour(InstantAt(start, i))))
  }

  function LocalDays(zone: Zone, start: int, size: nat): seq<int> {
    seq(size, i => zone.localDate(InstantAt(start, i)))
  }

  /** Maximal stretches of the first `n` minutes with one local day. */
  function DayRanges(days: seq<int>, n: nat): seq<Interval>
    requires n <= |days|
  {
    if n == 0 then []
    else
      var before := DayRanges(days, n - 1);
      if before == [] || n == 1 || days[n - 1] != days[n - 2] then before + [Interval(n - 1, n)]
      else before[|before| - 1 := Interval(before[|before| - 1].lo, n)]
  }

  function Fraction(l: Level): nat {
    match l case Low => 50 case Medium => 75 case High => 100
  }

  function Targets(mask: seq<bool>, days: seq<Interval>, level: Level): (r: seq<nat>)
    ensures |r| == |days|
  {
    seq(|days|, k requires 0 <= k < |days| =>
      if 0 <= days[k].lo && 0 <= days[k].hi <= |mask|
      then Max(1, FreeCount(mask, days[k].lo, days[k].hi) * Fraction(level) / 100)
      else 1)
  }

  // ----- The whole grid -----

  function MakeGrid(h: Horizon, w: PlanningWindow, previous: seq<Block>, tasks: seq<Task>, prefs: Preferences,
                    zone: Zone, now: int, events: seq<Interval>): Grid
  {
    var floor := FloorIndex(h.start, h.size, now);
    var avail := AvailableMask(w.availability, events, h.start, h.size, floor);
    var days := DayRanges(LocalDays(zone, h.start, h.size), h.size);
    var pending := ById(PendingOnly(tasks));
    Grid(h.start, h.size, floor, avail, events, days, PeriodsOf(zone, h.start, h.size),
         Targets(avail, days, prefs.workload), prefs, Queue(tasks, h.start + h.size), pending,
         PreviousOf(previous, pending))
  }

  function BuildGrid(w: PlanningWindow, previous: seq<Block>, tasks: seq<Task>, prefs: Preferences, zone: Zone,
                     now: int): Result<Grid, Code>
  {
    match HorizonOf(w.startDate, w.days, zone, now)
    case Failure(e) => Failure(e)
    case Success(h) =>
      if !SnapshotMatches(tasks, w.taskIds) then Failure(TaskSnapshotMismatch)
      else if exists a :: a in w.availability && !WindowInside(a, h.start, h.size)
      then Failure(AvailabilityOutsideHorizon)
      else
        match ClipEvents(Sort(EventOrder(), w.events), h.start, h.size)
        case Failure(e) => Failure(e)
        case Success(events) => Success(MakeGrid(h, w, previous, tasks, prefs, zone, now, events))
  }
}
