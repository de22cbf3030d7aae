/** Repeating activities: pattern expansion in the local calendar, and the generation of one task
    per series and date as an atomic step. Dates are proleptic day ordinals. */
module Recurrence {
  import opened Wrappers
  import opened PlanningModels
  import opened Sorting

  type SeriesId = nat

  datatype Frequency = Daily | Weekdays | Weekly

  /** `weekdays` counts from Monday as 0. */
  datatype Pattern = Pattern(
    title: string, duration: nat, priority: int, splittable: bool, preferred: Period,
    frequency: Frequency, weekdays: set<int>, startDate: int, endDate: Option<int>, active: bool)

  datatype Series = Series(pattern: Pattern, zone: Zone, version: int, deleted: bool)

  /** A generated task row; a deleted one stays as a tombstone. */
  datatype Occurrence = Occurrence(
    series: SeriesId, date: int, title: string, duration: nat, priority: int, splittable: bool, preferred: Period,
    earliest: Option<int>, deadline: Option<int>, version: int, deleted: bool)

  /** Series, task rows, and the next unused task identifier. */
  datatype Book = Book(series: map<SeriesId, Series>, rows: map<TaskId, Occurrence>, nextId: TaskId)

  datatype RecurrenceCode = UnknownSeries | StaleSeries | NonexistentDay | OccurrenceTooLong

  /** A task row with its identifier. */
  datatype Listed = Listed(task: TaskId, row: Occurrence)

  /** The live rows of the range by date, and the dates by what generation found or did. */
  datatype Report = Report(tasks: seq<Listed>, live: seq<int>, created: seq<int>, deleted: seq<int>, skipped: seq<int>)

  // ----- Pattern expansion -----

  function WeekdayOf(day: int): int { (day + 6) % 7 }

  predicate Matches(p: Pattern, day: int) {
    && p.startDate <= day && (p.endDate.Some? ==> day <= p.endDate.value)
    && (p.frequency.Weekly? ==> WeekdayOf(day) == WeekdayOf(p.startDate))
    && (p.frequency.Weekdays? ==> WeekdayOf(day) in p.weekdays)
  }

  /** The pattern's dates among the `days` days from `start`, ascending; none while paused. */
  function PatternDates(p: Pattern, start: int, days: nat): seq<int> {
    if days == 0 || !p.active then []
    else PatternDates(p, start, days - 1) + if Matches(p, start + days - 1) then [start + days - 1] else []
  }

  // ----- One occurrence -----

  /** The local day as UTC seconds, when it exists and is long enough. */
  function WindowOf(day: int, zone: Zone, duration: nat): Result<(int, int), RecurrenceCode> {
    var start, end := zone.midnight(day), zone.midnight(day + 1);
    if end <= start || zone.localDate(start * SECOND) != day then Failure(NonexistentDay)
    else if end - start < duration * 60 then Failure(OccurrenceTooLong)
    else Success((start, end))
  }

  function OccurrenceOf(id: SeriesId, s: Series, day: int): Occurrence {
    Occurrence(id, day, s.pattern.title, s.pattern.duration, s.pattern.priority, s.pattern.splittable,
               s.pattern.preferred,
               Some(s.zone.midnight(day) * SECOND), Some(s.zone.midnight(day + 1) * SECOND), 1, false)
  }

  // ----- Rows -----

  predicate IsRow(rows: map<TaskId, Occurrence>, t: TaskId, id: SeriesId, day: int) {
    t in rows && rows[t].series == id && rows[t].date == day
  }

  predicate HasRow(rows: map<TaskId, Occurrence>, id: SeriesId, day: int) {
    exists t :: t in rows && IsRow(rows, t, id, day)
  }

  predicate HasLive(rows: map<TaskId, Occurrence>, id: SeriesId, day: int) {
    exists t :: t in rows && IsRow(rows, t, id, day) && !rows[t].deleted
  }

  predicate HasTombstone(rows: map<TaskId, Occurrence>, id: SeriesId, day: int) {
    exists t :: t in rows && IsRow(rows, t, id, day) && rows[t].deleted
  }

  /** Pattern dates without a row, from `today` on: these are created; earlier ones are skipped. */
  function Created(rows: map<TaskId, Occurrence>, id: SeriesId, dates: seq<int>, today: int): seq<int> {
    if dates == [] then []
    else
      var day := dates[|dates| - 1];
      Created(rows, id, dates[..|dates| - 1], today) + if !HasRow(rows, id, day) && today <= day then [day] else []
  }

  function Skipped(rows: map<TaskId, Occurrence>, id: SeriesId, dates: seq<int>, today: int): seq<int> {
    if dates == [] then []
    else
      var day := dates[|dates| - 1];
      Skipped(rows, id, dates[..|dates| - 1], today) + if !HasRow(rows, id, day) && day < today then [day] else []
  }

  function DatesWith(rows: map<TaskId, Occurrence>, id: SeriesId, start: int, days: nat, deleted: bool): seq<int> {
    if days == 0 then []
    else
      var day := start + days - 1;
      DatesWith(rows, id, start, days - 1, deleted)
      + if (if deleted then HasTombstone(rows, id, day) else HasLive(rows, id, day)) then [day] else []
  }

  /** The first date that has no valid window decides the error. */
  function WindowError(dates: seq<int>, s: Series): Option<RecurrenceCode> {
    if dates == [] then None
    else
      match WindowError(dates[..|dates| - 1], s)
      case Some(e) => Some(e)
      case None =>
        match WindowOf(dates[|dates| - 1], s.zone, s.pattern.duration)
        case Failure(e) => Some(e)
        case Success(_) => None
  }

  /** Inserts one row for each date under fresh identifiers. */
  function Inserted(b: Book, id: SeriesId, s: Series, dates: seq<int>): Book {
    if dates == [] then b
    else
      var before := Inserted(b, id, s, dates[..|dates| - 1]);
      before.(rows := before.rows[before.nextId := OccurrenceOf(id, s, dates[|dates| - 1])],
              nextId := before.nextId + 1)
  }

  predicate IsLive(o: Occurrence, id: SeriesId, start: int, days: nat) {
    o.series == id && start <= o.date < start + days && !o.deleted
  }

  /** Live rows of the range with identifiers below `n`, in identifier order. */
  function LiveRows(rows: map<TaskId, Occurrence>, id: SeriesId, start: int, days: nat, n: nat): seq<Listed> {
    if n == 0 then []
    else
      LiveRows(rows, id, start, days, n - 1)
      + if n - 1 in rows && IsLive(rows[n - 1], id, start, days) then [Listed(n - 1, rows[n - 1])] else []
  }

  /** The rows that inserting the dates adds, from identifier `first` on. */
  function AddedRows(id: SeriesId, s: Series, dates: seq<int>, first: TaskId): seq<Listed> {
    seq(|dates|, k requires 0 <= k < |dates| => Listed(first + k, OccurrenceOf(id, s, dates[k])))
  }

  predicate DateFirst(a: Listed, b: Listed) { a.row.date <= b.row.date }

  function ByDate(): (Listed, Listed) -> bool {
    (a: Listed, b: Listed) => DateFirst(a, b)
  }

  predicate Accepts(b: Book, id: SeriesId, expected: int) {
    id in b.series && !b.series[id].deleted && b.series[id].version == expected
  }

  function Today(s: Series, now: int): int { s.zone.localDate(now) }

  /** `materialize`: all new rows of the range, or none. */
  function Materialize(b: Book, id: SeriesId, expected: int, start: int, days: nat, now: int)
      : (Book, Result<Report, RecurrenceCode>)
  {
    if id !in b.series || b.series[id].deleted then (b, Failure(UnknownSeries))
    else if b.series[id].version != expected then (b, Failure(StaleSeries))
    else
      var s := b.series[id];
      var dates := PatternDates(s.pattern, start, days);
      var created := Created(b.rows, id, dates, Today(s, now));
      match WindowError(created, s)
      case Some(e) => (b, Failure(e))
      case None =>
        (Inserted(b, id, s, created),
         Success(Report(Sort(ByDate(),
                             LiveRows(b.rows, id, start, days, b.nextId) + AddedRows(id, s, created, b.nextId)),
                        DatesWith(b.rows, id, start, days, false), created,
                        DatesWith(b.rows, id, start, days, true), Skipped(b.rows, id, dates, Today(s, now)))))
  }

  // ----- Steps between generations -----

  datatype Change =
    | Generate(id: SeriesId, expected: int, start: int, days: nat, now: int)
    | AddSeries(id: SeriesId, pattern: Pattern, zone: Zone)
    | ReplacePattern(id: SeriesId, expected: int, pattern: Pattern)
    | DeleteSeries(id: SeriesId, expected: int)
    | EditTask(task: TaskId, expected: int, title: string, duration: nat, priority: int, splittable: bool,
               preferred: Period, earliest: Option<int>, deadline: Option<int>)
    | DeleteTask(task: TaskId, expected: int)

  function ApplyChange(b: Book, c: Change): Book {
    match c
    case Generate(id, expected, start, days, now) => Materialize(b, id, expected, start, days, now).0
    case AddSeries(id, pattern, zone) =>
      if id in b.series then b else b.(series := b.series[id := Series(pattern, zone, 1, false)])
    case ReplacePattern(id, expected, pattern) =>
      if !Accepts(b, id, expected) || expected >= MAX_VERSION then b
      else b.(series := b.series[id := b.series[id].(pattern := pattern, version := expected + 1)])
    case DeleteSeries(id, expected) =>
      if !Accepts(b, id, expected) || expected >= MAX_VERSION then b
      else b.(series := b.series[id := b.series[id].(deleted := true, version := expected + 1)])
    case EditTask(task, expected, title, duration, priority, splittable, preferred, earliest, deadline) =>
      if !EditableRow(b, task, expected) || !HasTime(duration, earliest, deadline) then b
      else b.(rows := b.rows[task := b.rows[task].(title := title, duration := duration, priority := priority,
                                                   splittable := splittable, preferred := preferred,
                                                   earliest := earliest,
                                                   deadline := deadline, version := expected + 1)])
    case DeleteTask(task, expected) =>
      if !EditableRow(b, task, expected) then b
      else b.(rows := b.rows[task := b.rows[task].(deleted := true, version := expected + 1)])
  }

  predicate HasTime(duration: nat, earliest: Option<int>, deadline: Option<int>) {
    earliest.Some? && deadline.Some? ==> deadline.value - earliest.value >= duration * MINUTE
  }

  predicate EditableRow(b: Book, task: TaskId, expected: int) {
    task in b.rows && !b.rows[task].deleted && b.rows[task].version == expected && expected < MAX_VERSION
  }
}
