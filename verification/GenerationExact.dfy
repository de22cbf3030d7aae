/** What one generation of a repeating activity stores, date by date and field by field, without the
    functions that compute it. */
module GenerationExact {
  import opened Wrappers
  import opened PlanningModels
  import opened Recurrence
  import opened RecurrenceTheorems

  // ----- Dates -----

  /** Weekdays count from Monday as 0; day 1, the first of January of year 1, is a Monday, and each day
      is followed by the next weekday. */
  ghost predicate IsCalendar(weekday: int -> int) {
    weekday(1) == 0 && forall day :: Follows(weekday, day)
  }

  predicate Follows(weekday: int -> int, day: int) {
    0 <= weekday(day) <= 6 && weekday(day + 1) == if weekday(day) == 6 then 0 else weekday(day) + 1
  }

  lemma WeekdayStep(day: int)
    ensures 0 <= WeekdayOf(day) <= 6 && WeekdayOf(day + 1) == if WeekdayOf(day) == 6 then 0 else WeekdayOf(day) + 1
  {
  }

  lemma {:induction false} CalendarIs(weekday: int -> int, day: int)
    requires IsCalendar(weekday)
    ensures weekday(day) == WeekdayOf(day)
    decreases Abs(day - 1)
  {
    if day == 1 {
    } else {
      hide WeekdayOf;
      if day > 1 {
        CalendarIs(weekday, day - 1);
        WeekdayStep(day - 1);
        assert Follows(weekday, day - 1);
      } else {
        CalendarIs(weekday, day + 1);
        WeekdayStep(day);
        assert Follows(weekday, day);
      }
    }
  }

  /** An active pattern has a date when it lies between its first and last dates, both included, and for
      a weekly pattern whole weeks after the first, for one by weekdays on a chosen weekday. */
  ghost predicate OnPattern(p: Pattern, weekday: int -> int, day: int) {
    && p.active && p.startDate <= day && (p.endDate == None || day <= p.endDate.value)
    && match p.frequency
       case Daily => true
       case Weekly => (day - p.startDate) % 7 == 0
       case Weekdays => weekday(day) in p.weekdays
  }

  lemma MatchesExact(p: Pattern, weekday: int -> int, day: int)
    requires IsCalendar(weekday)
    ensures p.active && Matches(p, day) <==> OnPattern(p, weekday, day)
  {
    CalendarIs(weekday, day);
  }

  /** The expansion of a range selects exactly its pattern dates, in order. */
  lemma ExpansionExact(p: Pattern, weekday: int -> int, start: int, days: nat)
    requires IsCalendar(weekday)
    ensures forall day :: day in PatternDates(p, start, days) <==>
      start <= day < start + days && OnPattern(p, weekday, day)
    ensures Ascending(PatternDates(p, start, days))
  {
    PatternDatesAscend(p, start, days);
    forall day ensures day in PatternDates(p, start, days) <==>
      start <= day < start + days && OnPattern(p, weekday, day)
    {
      PatternDatesExact(p, start, days, day);
      MatchesExact(p, weekday, day);
    }
  }

  ghost predicate Ascending(dates: seq<int>) { forall i, j :: 0 <= i < j < |dates| ==> dates[i] < dates[j] }

  lemma {:induction false} CreatedAscends(rows: map<TaskId, Occurrence>, id: SeriesId, dates: seq<int>, today: int)
    requires Ascending(dates)
    ensures Ascending(Created(rows, id, dates, today))
  {
    if dates == [] {
    } else {
      var init, last := dates[..|dates| - 1], dates[|dates| - 1];
      CreatedAscends(rows, id, init, today);
      forall day | day in Created(rows, id, init, today) ensures day < last {
        CreatedExact(rows, id, init, today, day);
        var i :| 0 <= i < |init| && init[i] == day;
        assert dates[i] < dates[|dates| - 1];
      }
      var before, created := Created(rows, id, init, today), Created(rows, id, dates, today);
      forall i, j | 0 <= i < j < |created| ensures created[i] < created[j] {
        assert created[i] == before[i] && before[i] in before;
      }
    }
  }

  // ----- New dates -----

  ghost predicate NoRow(b: Book, id: SeriesId, day: int) {
    forall t :: t in b.rows ==> !(b.rows[t].series == id && b.rows[t].date == day)
  }

  /** A pattern date of the range, not before today, for which no task exists, deleted ones included. */
  ghost predicate IsNew(b: Book, id: SeriesId, weekday: int -> int, start: int, days: nat, now: int, day: int)
    requires id in b.series
  {
    && start <= day < start + days && OnPattern(b.series[id].pattern, weekday, day)
    && b.series[id].zone.localDate(now) <= day
    && NoRow(b, id, day)
  }

  /** A pattern date of the range, before today, for which no task exists. */
  ghost predicate IsPast(b: Book, id: SeriesId, weekday: int -> int, start: int, days: nat, now: int, day: int)
    requires id in b.series
  {
    && start <= day < start + days && OnPattern(b.series[id].pattern, weekday, day)
    && day < b.series[id].zone.localDate(now)
    && NoRow(b, id, day)
  }

  lemma NoRowExact(b: Book, id: SeriesId, day: int)
    ensures HasRow(b.rows, id, day) <==> !NoRow(b, id, day)
  {
    if t :| t in b.rows && b.rows[t].series == id && b.rows[t].date == day { assert IsRow(b.rows, t, id, day); }
  }

  ghost function NewDates(b: Book, id: SeriesId, start: int, days: nat, now: int): seq<int>
    requires id in b.series
  {
    Created(b.rows, id, PatternDates(b.series[id].pattern, start, days), Today(b.series[id], now))
  }

  lemma NewDatesExact(b: Book, id: SeriesId, weekday: int -> int, start: int, days: nat, now: int)
    requires id in b.series && IsCalendar(weekday)
    ensures forall day :: day in NewDates(b, id, start, days, now) <==> IsNew(b, id, weekday, start, days, now, day)
    ensures Ascending(NewDates(b, id, start, days, now))
  {
    hide OnPattern, NoRow, IsCalendar, HasRow;
    var s := b.series[id];
    var dates := PatternDates(s.pattern, start, days);
    ExpansionExact(s.pattern, weekday, start, days);
    CreatedAscends(b.rows, id, dates, Today(s, now));
    forall day ensures day in NewDates(b, id, start, days, now) <==> IsNew(b, id, weekday, start, days, now, day) {
      CreatedExact(b.rows, id, dates, Today(s, now), day);
      NoRowExact(b, id, day);
    }
  }

  lemma PastDatesExact(b: Book, id: SeriesId, weekday: int -> int, start: int, days: nat, now: int)
    requires id in b.series && IsCalendar(weekday)
    ensures var s := b.series[id];
      forall day :: day in Skipped(b.rows, id, PatternDates(s.pattern, start, days), Today(s, now)) <==>
        IsPast(b, id, weekday, start, days, now, day)
  {
    hide OnPattern, NoRow, IsCalendar, HasRow;
    var s := b.series[id];
    var dates := PatternDates(s.pattern, start, days);
    ExpansionExact(s.pattern, weekday, start, days);
    forall day ensures day in Skipped(b.rows, id, dates, Today(s, now)) <==>
      IsPast(b, id, weekday, start, days, now, day)
    {
      SkippedExact(b.rows, id, dates, Today(s, now), day);
      NoRowExact(b, id, day);
    }
  }

  // ----- Local days -----

  /** The local day exists: it ends after it starts and its midnight lies on it. */
  predicate DayExists(zone: Zone, day: int) {
    zone.midnight(day) < zone.midnight(day + 1) && zone.localDate(zone.midnight(day) * SECOND) == day
  }

  predicate DayHolds(zone: Zone, day: int, duration: nat) {
    DayExists(zone, day) && duration * 60 <= zone.midnight(day + 1) - zone.midnight(day)
  }

  lemma WindowExact(day: int, zone: Zone, duration: nat)
    ensures WindowOf(day, zone, duration).Success? <==> DayHolds(zone, day, duration)
    ensures !DayHolds(zone, day, duration) ==>
      WindowOf(day, zone, duration).error == if DayExists(zone, day) then OccurrenceTooLong else NonexistentDay
  {
  }

  /** The first date without room names the refusal. */
  lemma {:induction false} FirstRefused(dates: seq<int>, s: Series) returns (k: nat)
    requires WindowError(dates, s).Some?
    ensures k < |dates| && !DayHolds(s.zone, dates[k], s.pattern.duration)
    ensures forall j :: 0 <= j < k ==> DayHolds(s.zone, dates[j], s.pattern.duration)
    ensures WindowError(dates, s).value == if DayExists(s.zone, dates[k]) then OccurrenceTooLong else NonexistentDay
  {
    hide DayHolds, DayExists, WindowOf;
    var init, last := dates[..|dates| - 1], dates[|dates| - 1];
    WindowExact(last, s.zone, s.pattern.duration);
    if WindowError(init, s).Some? {
      k := FirstRefused(init, s);
    } else {
      k := |init|;
      WindowErrorExact(init, s);
      forall j | 0 <= j < k ensures DayHolds(s.zone, dates[j], s.pattern.duration) {
        assert init[j] in init;
        WindowExact(dates[j], s.zone, s.pattern.duration);
      }
    }
  }

  // ----- Generation -----

  /** The task of a date: the pattern's own task fields, from the date's local midnight to the next,
      in microseconds, at its first version. */
  predicate IsTaskOf(o: Occurrence, id: SeriesId, s: Series) {
    && o.series == id && o.title == s.pattern.title && o.duration == s.pattern.duration
    && o.priority == s.pattern.priority && o.splittable == s.pattern.splittable
    && o.preferred == s.pattern.preferred
    && o.earliest == Some(s.zone.midnight(o.date) * 1_000_000)
    && o.deadline == Some(s.zone.midnight(o.date + 1) * 1_000_000)
    && o.version == 1 && !o.deleted
  }

  /** `after` adds exactly one task for each new date. */
  ghost predicate AddsExactly(b: Book, after: Book, id: SeriesId, weekday: int -> int, start: int, days: nat, now: int)
    requires id in b.series
  {
    && after.series == b.series
    && (forall t :: t in b.rows ==> t in after.rows && after.rows[t] == b.rows[t])
    && (forall t :: t in after.rows && t !in b.rows ==>
          IsTaskOf(after.rows[t], id, b.series[id]) && IsNew(b, id, weekday, start, days, now, after.rows[t].date))
    && (forall day :: IsNew(b, id, weekday, start, days, now, day) ==> HasNewTask(b, after, day))
    && (forall t, u :: t in after.rows && u in after.rows && SameDate(after.rows[t], after.rows[u]) ==> t == u)
  }

  ghost predicate HasNewTask(b: Book, after: Book, day: int) {
    exists t :: t in after.rows && t !in b.rows && after.rows[t].date == day
  }

  ghost predicate Current(b: Book, id: SeriesId, expected: int) {
    id in b.series && !b.series[id].deleted && b.series[id].version == expected
  }

  /** A generation of any range succeeds if and only if the series is stored, not deleted and at the
      version named, and every new date of the range has a local day long enough. It then reports
      those dates in order and, from any reachable book, adds exactly one task for each; otherwise
      nothing changes. */
  lemma GenerationMeaning(b: Book, id: SeriesId, expected: int, weekday: int -> int, start: int, days: nat, now: int)
    requires IsCalendar(weekday)
    ensures var (after, result) := Materialize(b, id, expected, start, days, now);
      && (result.Success? <==>
            Current(b, id, expected)
            && forall day :: IsNew(b, id, weekday, start, days, now, day) ==>
                 DayHolds(b.series[id].zone, day, b.series[id].pattern.duration))
      && (result.Failure? ==> after == b)
      && (result.Success? ==>
            && (BookOK(b) ==> AddsExactly(b, after, id, weekday, start, days, now))
            && Ascending(result.value.created)
            && (forall day :: day in result.value.created <==> IsNew(b, id, weekday, start, days, now, day))
            && (forall day :: day in result.value.skipped <==> IsPast(b, id, weekday, start, days, now, day)))
  {
    hide IsNew, IsPast, DayHolds, WindowOf, IsCalendar, AddsExactly, BookOK, PatternDates, Inserted, LiveRows,
         AddedRows;
    if Current(b, id, expected) {
      var s := b.series[id];
      NewDatesExact(b, id, weekday, start, days, now);
      PastDatesExact(b, id, weekday, start, days, now);
      var created := NewDates(b, id, start, days, now);
      WindowErrorExact(created, s);
      forall day ensures WindowOf(day, s.zone, s.pattern.duration).Success? <==>
        DayHolds(s.zone, day, s.pattern.duration)
      {
        WindowExact(day, s.zone, s.pattern.duration);
      }
      if WindowError(created, s).None? && BookOK(b) { AddsNew(b, id, expected, weekday, start, days, now); }
    }
  }

  lemma AddsNew(b: Book, id: SeriesId, expected: int, weekday: int -> int, start: int, days: nat, now: int)
    requires BookOK(b) && IsCalendar(weekday) && Materialize(b, id, expected, start, days, now).1.Success?
    ensures AddsExactly(b, Materialize(b, id, expected, start, days, now).0, id, weekday, start, days, now)
  {
    GenerateKeepsBook(b, id, expected, start, days, now);
    GenerationOnlyAdds(b, id, expected, start, days, now);
    hide IsNew, IsCalendar, Materialize, IsTaskOf, IdsBelow;
    forall t | t in Materialize(b, id, expected, start, days, now).0.rows && t !in b.rows
      ensures var o := Materialize(b, id, expected, start, days, now).0.rows[t];
        IsTaskOf(o, id, b.series[id]) && IsNew(b, id, weekday, start, days, now, o.date)
    {
      AddedIsNew(b, id, expected, weekday, start, days, now, t);
    }
    forall day | IsNew(b, id, weekday, start, days, now, day)
      ensures HasNewTask(b, Materialize(b, id, expected, start, days, now).0, day)
    {
      NewIsAdded(b, id, expected, weekday, start, days, now, day);
    }
  }

  lemma AddedIsNew(b: Book, id: SeriesId, expected: int, weekday: int -> int, start: int, days: nat, now: int,
                   t: TaskId)
    requires BookOK(b) && IsCalendar(weekday) && Materialize(b, id, expected, start, days, now).1.Success?
    requires t in Materialize(b, id, expected, start, days, now).0.rows && t !in b.rows
    ensures var o := Materialize(b, id, expected, start, days, now).0.rows[t];
      IsTaskOf(o, id, b.series[id]) && IsNew(b, id, weekday, start, days, now, o.date)
  {
    hide IsNew, IsCalendar, PatternDates, Created, LiveRows, AddedRows, Inserted, OnePerDate;
    NewDatesExact(b, id, weekday, start, days, now);
    InsertedKeeps(b, id, b.series[id], NewDates(b, id, start, days, now));
  }

  lemma NewIsAdded(b: Book, id: SeriesId, expected: int, weekday: int -> int, start: int, days: nat, now: int,
                   day: int)
    requires BookOK(b) && IsCalendar(weekday) && Materialize(b, id, expected, start, days, now).1.Success?
    requires IsNew(b, id, weekday, start, days, now, day)
    ensures HasNewTask(b, Materialize(b, id, expected, start, days, now).0, day)
  {
    hide IsNew, IsCalendar, PatternDates, Created, LiveRows, AddedRows, Inserted, OnePerDate;
    NewDatesExact(b, id, weekday, start, days, now);
    var created := NewDates(b, id, start, days, now);
    InsertedAt(b, id, b.series[id], created);
    var k :| 0 <= k < |created| && created[k] == day;
    assert Materialize(b, id, expected, start, days, now).0.rows[b.nextId + k].date == day;
  }

  /** The refusals of a generation: an unknown series, then a stale version, then the first new date
      whose local day does not exist or is too short. */
  lemma GenerationRefused(b: Book, id: SeriesId, expected: int, weekday: int -> int, start: int, days: nat, now: int)
    requires IsCalendar(weekday) && Materialize(b, id, expected, start, days, now).1.Failure?
    ensures var code := Materialize(b, id, expected, start, days, now).1.error;
      if id !in b.series || b.series[id].deleted then code == UnknownSeries
      else if b.series[id].version != expected then code == StaleSeries
      else exists day :: FirstWithoutRoom(b, id, weekday, start, days, now, day)
             && code == if DayExists(b.series[id].zone, day) then OccurrenceTooLong else NonexistentDay
  {
    hide IsNew, DayHolds, DayExists, IsCalendar, PatternDates, WindowError;
    if Current(b, id, expected) {
      NewDatesExact(b, id, weekday, start, days, now);
      var created := NewDates(b, id, start, days, now);
      var k := FirstRefused(created, b.series[id]);
      assert FirstWithoutRoom(b, id, weekday, start, days, now, created[k]);
    }
  }

  // ----- Edits of a series -----

  /** A new pattern, or the end of a series, is stored only at the live version, below the limit, which
      then rises by one; everything else stays. */
  lemma SeriesEditsExact(b: Book, id: SeriesId, expected: int, pattern: Pattern)
    ensures var live := Current(b, id, expected) && expected < 2_147_483_647;
      var replaced, ended := ApplyChange(b, ReplacePattern(id, expected, pattern)),
                             ApplyChange(b, DeleteSeries(id, expected));
      && (!live ==> replaced == b && ended == b)
      && (live ==>
            var s := b.series[id];
            && replaced == b.(series := b.series[id := Series(pattern, s.zone, expected + 1, false)])
            && ended == b.(series := b.series[id := Series(s.pattern, s.zone, expected + 1, true)]))
  {
  }

  ghost predicate FirstWithoutRoom(b: Book, id: SeriesId, weekday: int -> int, start: int, days: nat, now: int,
                                   day: int)
    requires id in b.series
  {
    var s := b.series[id];
    && IsNew(b, id, weekday, start, days, now, day) && !DayHolds(s.zone, day, s.pattern.duration)
    && forall other :: IsNew(b, id, weekday, start, days, now, other) && other < day ==>
         DayHolds(s.zone, other, s.pattern.duration)
  }
}
