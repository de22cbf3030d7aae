/** The recurrence repository object: each command is one transaction over its tables. */
module RecurrenceStoreMachine {
  import opened Wrappers
  import opened PlanningModels
  import opened Sorting
  import opened Recurrence
  import opened RecurrenceTheorems

  /** Expands the pattern one day at a time in the local calendar. */
  method OccurrenceDates(p: Pattern, start: int, days: nat) returns (selected: seq<int>)
    ensures selected == PatternDates(p, start, days)
  {
    selected := [];
    if !p.active { return; }
    for offset := 0 to days
      invariant selected == PatternDates(p, start, offset)
    {
      var day := start + offset;
      if day < p.startDate || (p.endDate.Some? && day > p.endDate.value) { continue; }
      if p.frequency.Weekly? && WeekdayOf(day) != WeekdayOf(p.startDate) { continue; }
      if p.frequency.Weekdays? && WeekdayOf(day) !in p.weekdays { continue; }
      selected := selected + [day];
    }
  }

  /** Dates of the series' rows, tombstones included, that lie in the range. */
  function RowDates(rows: map<TaskId, Occurrence>, id: SeriesId, start: int, days: nat): set<int> {
    set t | t in rows && rows[t].series == id && start <= rows[t].date < start + days :: rows[t].date
  }

  lemma RowDatesExact(rows: map<TaskId, Occurrence>, id: SeriesId, start: int, days: nat, day: int)
    ensures day in RowDates(rows, id, start, days) <==> start <= day < start + days && HasRow(rows, id, day)
  {
    if day in RowDates(rows, id, start, days) {
      var t :| t in rows && rows[t].series == id && start <= rows[t].date < start + days && rows[t].date == day;
      assert IsRow(rows, t, id, day);
    }
  }

  /** Splits the pattern's dates into those to create and those already past. */
  method SplitDates(rows: map<TaskId, Occurrence>, id: SeriesId, p: Pattern, start: int, days: nat, today: int)
    returns (created: seq<int>, skipped: seq<int>)
    ensures created == Created(rows, id, PatternDates(p, start, days), today)
    ensures skipped == Skipped(rows, id, PatternDates(p, start, days), today)
  {
    var existing := RowDates(rows, id, start, days);
    var dates := OccurrenceDates(p, start, days);
    PatternDatesAscend(p, start, days);
    created, skipped := [], [];
    for k := 0 to |dates|
      invariant created == Created(rows, id, dates[..k], today)
      invariant skipped == Skipped(rows, id, dates[..k], today)
    {
      var day := dates[k];
      assert day in dates && dates[..k + 1][..k] == dates[..k];
      RowDatesExact(rows, id, start, days, day);
      if day in existing { continue; }
      if day < today {
        skipped := skipped + [day];
        continue;
      }
      created := created + [day];
    }
    assert dates[..|dates|] == dates;
  }

  /** Looks for the first date that has no valid window. */
  method CheckWindows(days: seq<int>, s: Series) returns (error: Option<RecurrenceCode>)
    ensures error == WindowError(days, s)
  {
    hide WindowOf;
    for k := 0 to |days|
      invariant WindowError(days[..k], s).None?
    {
      assert days[..k + 1][..k] == days[..k];
      var window := WindowOf(days[k], s.zone, s.pattern.duration);
      if window.Failure? {
        ErrorStays(days, k + 1, s);
        return Some(window.error);
      }
    }
    assert days[..|days|] == days;
    error := None;
  }

  lemma NothingAdded(id: SeriesId, s: Series, first: TaskId)
    ensures AddedRows(id, s, [], first) == []
  {
  }

  lemma AddedAppend(id: SeriesId, s: Series, days: seq<int>, k: nat, first: TaskId)
    requires k < |days|
    ensures AddedRows(id, s, days[..k + 1], first)
            == AddedRows(id, s, days[..k], first) + [Listed(first + k, OccurrenceOf(id, s, days[k]))]
  {
    hide OccurrenceOf;
  }

  class RecurrenceStore {
    var series: map<SeriesId, Series>
    var rows: map<TaskId, Occurrence>
    var nextId: TaskId

    constructor ()
      ensures Tables() == Book(map[], map[], 0)
    {
      series, rows, nextId := map[], map[], 0;
    }

    function Tables(): Book
      reads this
    {
      Book(series, rows, nextId)
    }

    /** Inserts one row for each date with one statement. */
    method InsertRows(id: SeriesId, s: Series, days: seq<int>) returns (inserted: seq<Listed>)
      modifies this`rows, this`nextId
      ensures inserted == AddedRows(id, s, days, old(nextId))
      ensures Tables() == Inserted(old(Tables()), id, s, days)
    {
      hide OccurrenceOf, AddedRows;
      inserted := [];
      NothingAdded(id, s, nextId);
      for k := 0 to |days|
        invariant series == old(series) && Tables() == Inserted(old(Tables()), id, s, days[..k])
        invariant nextId == old(nextId) + k && inserted == AddedRows(id, s, days[..k], old(nextId))
      {
        assert days[..k + 1][..k] == days[..k];
        AddedAppend(id, s, days, k, old(nextId));
        inserted := inserted + [Listed(nextId, OccurrenceOf(id, s, days[k]))];
        rows, nextId := rows[nextId := OccurrenceOf(id, s, days[k])], nextId + 1;
      }
      assert days[..|days|] == days;
    }

    /** Checks every local day first, then inserts all rows, or none. */
    method InsertOccurrences(id: SeriesId, s: Series, days: seq<int>)
        returns (error: Option<RecurrenceCode>, inserted: seq<Listed>)
      modifies this`rows, this`nextId
      ensures error == WindowError(days, s)
      ensures inserted == if error.None? then AddedRows(id, s, days, old(nextId)) else []
      ensures Tables() == if error.None? then Inserted(old(Tables()), id, s, days) else old(Tables())
    {
      hide Inserted, AddedRows, WindowError;
      error := CheckWindows(days, s);
      inserted := [];
      if error.None? { inserted := InsertRows(id, s, days); }
    }

    /** The live rows of the range, in identifier order. */
    method SelectLive(id: SeriesId, start: int, days: nat) returns (tasks: seq<Listed>)
      ensures tasks == LiveRows(rows, id, start, days, nextId)
    {
      tasks := [];
      for n := 0 to nextId
        invariant tasks == LiveRows(rows, id, start, days, n)
      {
        if n in rows && IsLive(rows[n], id, start, days) { tasks := tasks + [Listed(n, rows[n])]; }
      }
    }

    /** Generates the missing rows of the range, all or none. */
    method Generate(id: SeriesId, expected: int, start: int, days: nat, now: int)
        returns (result: Result<Report, RecurrenceCode>)
      modifies this`rows, this`nextId
      ensures (Tables(), result) == Materialize(old(Tables()), id, expected, start, days, now)
    {
      if id !in series || series[id].deleted { return Failure(UnknownSeries); }
      var s := series[id];
      if s.version != expected { return Failure(StaleSeries); }
      var tasks := SelectLive(id, start, days);
      var live, tombstones := DatesWith(rows, id, start, days, false), DatesWith(rows, id, start, days, true);
      var created, skipped := SplitDates(rows, id, s.pattern, start, days, Today(s, now));
      var error, inserted := InsertOccurrences(id, s, created);
      if error.Some? { return Failure(error.value); }
      result := Success(Report(Sort(ByDate(), tasks + inserted), live, created, tombstones, skipped));
    }

    /** Replaces the pattern and raises the version. */
    method Replace(id: SeriesId, expected: int, pattern: Pattern) returns (ok: bool)
      modifies this`series
      ensures Tables() == ApplyChange(old(Tables()), ReplacePattern(id, expected, pattern))
      ensures ok == (Accepts(old(Tables()), id, expected) && expected < MAX_VERSION)
    {
      if id !in series || series[id].deleted { return false; }
      var current := series[id];
      if current.version != expected || current.version >= MAX_VERSION { return false; }
      series := series[id := current.(pattern := pattern, version := current.version + 1)];
      ok := true;
    }

    /** Marks the series deleted and raises the version; its rows stay. */
    method Delete(id: SeriesId, expected: int) returns (ok: bool)
      modifies this`series
      ensures Tables() == ApplyChange(old(Tables()), DeleteSeries(id, expected))
      ensures ok == (Accepts(old(Tables()), id, expected) && expected < MAX_VERSION)
    {
      if id !in series || series[id].deleted { return false; }
      var current := series[id];
      if current.version != expected || current.version >= MAX_VERSION { return false; }
      series := series[id := current.(deleted := true, version := current.version + 1)];
      ok := true;
    }
  }

  lemma {:induction false} ErrorStays(days: seq<int>, k: nat, s: Series)
    requires k <= |days| && WindowError(days[..k], s).Some?
    ensures WindowError(days, s) == WindowError(days[..k], s)
    decreases |days|
  {
    if k < |days| {
      var init := days[..|days| - 1];
      assert init[..k] == days[..k];
      ErrorStays(init, k, s);
    } else {
      assert days[..k] == days;
    }
  }
}
