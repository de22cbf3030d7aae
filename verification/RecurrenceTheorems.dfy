/** Generation is idempotent and confluent, respects tombstones, and never doubles a date. */
module RecurrenceTheorems {
  import opened PlanningModels
  import opened Sorting
  import opened Recurrence

  // ----- Expansion -----

  /** A date is expanded exactly when it lies in the range and matches an active pattern. */
  lemma {:induction false} PatternDatesExact(p: Pattern, start: int, days: nat, day: int)
    ensures day in PatternDates(p, start, days) <==> p.active && start <= day < start + days && Matches(p, day)
  {
    if days == 0 {
    } else {
      PatternDatesExact(p, start, days - 1, day);
    }
  }

  lemma {:induction false} PatternDatesAscend(p: Pattern, start: int, days: nat)
    ensures forall i, j :: 0 <= i < j < |PatternDates(p, start, days)| ==>
      PatternDates(p, start, days)[i] < PatternDates(p, start, days)[j]
    ensures forall i :: 0 <= i < |PatternDates(p, start, days)| ==>
      start <= PatternDates(p, start, days)[i] < start + days
  {
    if days == 0 {
    } else {
      PatternDatesAscend(p, start, days - 1);
    }
  }

  // ----- Filters -----

  lemma {:induction false} CreatedExact(rows: map<TaskId, Occurrence>, id: SeriesId, dates: seq<int>, today: int,
                                        day: int)
    ensures day in Created(rows, id, dates, today) <==> day in dates && !HasRow(rows, id, day) && today <= day
  {
    if dates == [] {
    } else {
      assert dates == dates[..|dates| - 1] + [dates[|dates| - 1]];
      CreatedExact(rows, id, dates[..|dates| - 1], today, day);
    }
  }

  lemma {:induction false} SkippedExact(rows: map<TaskId, Occurrence>, id: SeriesId, dates: seq<int>, today: int,
                                        day: int)
    ensures day in Skipped(rows, id, dates, today) <==> day in dates && !HasRow(rows, id, day) && day < today
  {
    if dates == [] {
    } else {
      assert dates == dates[..|dates| - 1] + [dates[|dates| - 1]];
      SkippedExact(rows, id, dates[..|dates| - 1], today, day);
    }
  }

  lemma {:induction false} DatesWithExact(rows: map<TaskId, Occurrence>, id: SeriesId, start: int, days: nat,
                                          deleted: bool, day: int)
    ensures day in DatesWith(rows, id, start, days, deleted) <==>
      start <= day < start + days && if deleted then HasTombstone(rows, id, day) else HasLive(rows, id, day)
  {
    if days == 0 {
    } else {
      DatesWithExact(rows, id, start, days - 1, deleted, day);
    }
  }

  ghost predicate Distinct(dates: seq<int>) {
    forall i, j :: 0 <= i < j < |dates| ==> dates[i] != dates[j]
  }

  lemma {:induction false} CreatedDistinct(rows: map<TaskId, Occurrence>, id: SeriesId, dates: seq<int>, today: int)
    requires Distinct(dates)
    ensures Distinct(Created(rows, id, dates, today))
  {
    if dates == [] {
    } else {
      var init, last := dates[..|dates| - 1], dates[|dates| - 1];
      CreatedDistinct(rows, id, init, today);
      CreatedExact(rows, id, init, today, last);
      assert last !in init;
    }
  }

  lemma {:induction false} WindowErrorExact(dates: seq<int>, s: Series)
    ensures WindowError(dates, s).None?
            <==> forall day :: day in dates ==> WindowOf(day, s.zone, s.pattern.duration).Success?
  {
    if dates == [] {
    } else {
      WindowErrorExact(dates[..|dates| - 1], s);
      assert dates == dates[..|dates| - 1] + [dates[|dates| - 1]];
    }
  }

  // ----- Insertion -----

  /** Identifiers in use are below the next one. */
  ghost predicate IdsBelow(b: Book) {
    forall t :: t in b.rows ==> t < b.nextId
  }

  predicate SameDate(a: Occurrence, b: Occurrence) { a.series == b.series && a.date == b.date }

  /** At most one row for each series and date, tombstones included. */
  ghost predicate OnePerDate(b: Book) {
    forall t, u :: t in b.rows && u in b.rows && SameDate(b.rows[t], b.rows[u]) ==> t == u
  }

  ghost predicate BookOK(b: Book) { IdsBelow(b) && OnePerDate(b) }

  lemma {:induction false} InsertedKeeps(b: Book, id: SeriesId, s: Series, dates: seq<int>)
    requires IdsBelow(b)
    ensures var after := Inserted(b, id, s, dates);
      && IdsBelow(after) && after.series == b.series && b.nextId <= after.nextId
      && (forall t :: t in b.rows ==> t in after.rows && after.rows[t] == b.rows[t])
      && (forall t :: t in after.rows && t !in b.rows ==>
            after.rows[t].date in dates && after.rows[t] == OccurrenceOf(id, s, after.rows[t].date))
  {
    if dates == [] {
    } else {
      InsertedKeeps(b, id, s, dates[..|dates| - 1]);
      assert dates == dates[..|dates| - 1] + [dates[|dates| - 1]];
    }
  }

  ghost predicate Holds(b: Book, o: Occurrence) { exists t :: t in b.rows && b.rows[t] == o }

  lemma {:induction false} InsertedHas(b: Book, id: SeriesId, s: Series, dates: seq<int>, day: int)
    requires IdsBelow(b) && day in dates
    ensures Holds(Inserted(b, id, s, dates), OccurrenceOf(id, s, day))
  {
    hide OccurrenceOf;
    var init, last, after := dates[..|dates| - 1], dates[|dates| - 1], Inserted(b, id, s, dates);
    var before := Inserted(b, id, s, init);
    InsertedKeeps(b, id, s, init);
    if day == last {
      assert after.rows[before.nextId] == OccurrenceOf(id, s, day);
    } else {
      assert day in init;
      InsertedHas(b, id, s, init, day);
      var t :| t in before.rows && before.rows[t] == OccurrenceOf(id, s, day);
      assert after.rows[t] == OccurrenceOf(id, s, day);
    }
  }

  lemma {:induction false} InsertedOnce(b: Book, id: SeriesId, s: Series, dates: seq<int>)
    requires BookOK(b) && Distinct(dates) && forall day :: day in dates ==> !HasRow(b.rows, id, day)
    ensures BookOK(Inserted(b, id, s, dates))
  {
    if dates == [] {
    } else {
      var init, last := dates[..|dates| - 1], dates[|dates| - 1];
      InsertedOnce(b, id, s, init);
      InsertedKeeps(b, id, s, init);
      var before := Inserted(b, id, s, init);
      assert last in dates;
      forall t | t in before.rows ensures !(before.rows[t].series == id && before.rows[t].date == last) {
        if t in b.rows {
          assert !HasRow(b.rows, id, last);
          assert !IsRow(b.rows, t, id, last);
        } else {
          assert before.rows[t].date in init;
        }
      }
      InsertOne(before, id, s, last);
    }
  }

  lemma InsertOne(b: Book, id: SeriesId, s: Series, day: int)
    requires BookOK(b) && forall t :: t in b.rows ==> !(b.rows[t].series == id && b.rows[t].date == day)
    ensures BookOK(b.(rows := b.rows[b.nextId := OccurrenceOf(id, s, day)], nextId := b.nextId + 1))
  {
  }

  // ----- Whole runs -----

  /** Every change, generation included, keeps one row per series and date. */
  lemma ChangeKeepsBook(b: Book, c: Change)
    requires BookOK(b)
    ensures BookOK(ApplyChange(b, c))
  {
    if c.Generate? { GenerateKeepsBook(b, c.id, c.expected, c.start, c.days, c.now); }
  }

  lemma GenerateKeepsBook(b: Book, id: SeriesId, expected: int, start: int, days: nat, now: int)
    requires BookOK(b)
    ensures BookOK(Materialize(b, id, expected, start, days, now).0)
  {
    if Materialize(b, id, expected, start, days, now).1.Success? {
      var s := b.series[id];
      var dates := PatternDates(s.pattern, start, days);
      var created := Created(b.rows, id, dates, Today(s, now));
      PatternDatesAscend(s.pattern, start, days);
      CreatedDistinct(b.rows, id, dates, Today(s, now));
      forall day | day in created ensures !HasRow(b.rows, id, day) {
        CreatedExact(b.rows, id, dates, Today(s, now), day);
      }
      InsertedOnce(b, id, s, created);
    }
  }

  /** Generation alters no existing row, and leaves every series as it was. */
  lemma GenerationOnlyAdds(b: Book, id: SeriesId, expected: int, start: int, days: nat, now: int)
    requires BookOK(b)
    ensures var after := Materialize(b, id, expected, start, days, now).0;
      after.series == b.series && forall t :: t in b.rows ==> t in after.rows && after.rows[t] == b.rows[t]
  {
    if Materialize(b, id, expected, start, days, now).1.Success? {
      var s := b.series[id];
      InsertedKeeps(b, id, s, Created(b.rows, id, PatternDates(s.pattern, start, days), Today(s, now)));
    }
  }

  function After(b: Book, cs: seq<Change>): Book {
    if cs == [] then b else ApplyChange(After(b, cs[..|cs| - 1]), cs[|cs| - 1])
  }

  /** Rows keep their series and date for ever, and a tombstone stays one. */
  lemma ChangeKeepsRows(b: Book, c: Change, t: TaskId)
    requires BookOK(b) && t in b.rows
    ensures var after := ApplyChange(b, c);
      t in after.rows && after.rows[t].series == b.rows[t].series && after.rows[t].date == b.rows[t].date
      && (b.rows[t].deleted ==> after.rows[t].deleted)
  {
    if c.Generate? { GenerationOnlyAdds(b, c.id, c.expected, c.start, c.days, c.now); }
  }

  /** After any run of generations, pattern edits, task edits and deletions there is at most one
      row for each series and date, tombstones included. */
  lemma {:induction false} RunKeepsBook(b: Book, cs: seq<Change>)
    requires BookOK(b)
    ensures BookOK(After(b, cs))
    decreases |cs|
  {
    if cs == [] {
    } else {
      RunKeepsBook(b, cs[..|cs| - 1]);
      ChangeKeepsBook(After(b, cs[..|cs| - 1]), cs[|cs| - 1]);
    }
  }

  /** Over any run a row keeps its series and date, and a deleted date stays deleted: no later
      generation creates it again. */
  lemma {:induction false} RunKeepsRow(b: Book, cs: seq<Change>, t: TaskId)
    requires BookOK(b) && t in b.rows
    ensures var after := After(b, cs);
      t in after.rows && after.rows[t].series == b.rows[t].series && after.rows[t].date == b.rows[t].date
      && (b.rows[t].deleted ==> after.rows[t].deleted && !HasLive(after.rows, b.rows[t].series, b.rows[t].date))
    decreases |cs|
  {
    RunKeepsBook(b, cs);
    if cs == [] {
    } else {
      var before := After(b, cs[..|cs| - 1]);
      RunKeepsBook(b, cs[..|cs| - 1]);
      RunKeepsRow(b, cs[..|cs| - 1], t);
      ChangeKeepsRows(before, cs[|cs| - 1], t);
    }
    OnlyTombstone(After(b, cs), t);
  }

  lemma OnlyTombstone(b: Book, t: TaskId)
    requires BookOK(b) && t in b.rows
    ensures b.rows[t].deleted ==> !HasLive(b.rows, b.rows[t].series, b.rows[t].date)
  {
    var id, day := b.rows[t].series, b.rows[t].date;
    forall u | u in b.rows && IsRow(b.rows, u, id, day) ensures u == t {
    }
  }

  // ----- Classification -----

  /** Every pattern date of the range is exactly one of live, deleted, created and skipped. */
  lemma Classified(b: Book, id: SeriesId, expected: int, start: int, days: nat, now: int, day: int)
    requires BookOK(b) && Materialize(b, id, expected, start, days, now).1.Success?
    requires day in PatternDates(b.series[id].pattern, start, days)
    ensures var r := Materialize(b, id, expected, start, days, now).1.value;
      && (day in r.live || day in r.deleted || day in r.created || day in r.skipped)
      && !(day in r.live && day in r.deleted) && !(day in r.created && day in r.skipped)
      && !((day in r.live || day in r.deleted) && (day in r.created || day in r.skipped))
      && (day in r.live <==> HasLive(b.rows, id, day)) && (day in r.deleted <==> HasTombstone(b.rows, id, day))
      && (day in r.skipped <==> !HasRow(b.rows, id, day) && day < Today(b.series[id], now))
  {
    var s := b.series[id];
    var dates := PatternDates(s.pattern, start, days);
    PatternDatesExact(s.pattern, start, days, day);
    DatesWithExact(b.rows, id, start, days, false, day);
    DatesWithExact(b.rows, id, start, days, true, day);
    CreatedExact(b.rows, id, dates, Today(s, now), day);
    SkippedExact(b.rows, id, dates, Today(s, now), day);
    LiveOrDeleted(b, id, day);
  }

  lemma LiveOrDeleted(b: Book, id: SeriesId, day: int)
    requires BookOK(b)
    ensures HasRow(b.rows, id, day) <==> HasLive(b.rows, id, day) || HasTombstone(b.rows, id, day)
    ensures !(HasLive(b.rows, id, day) && HasTombstone(b.rows, id, day))
  {
    if HasRow(b.rows, id, day) {
      var t :| t in b.rows && IsRow(b.rows, t, id, day);
      if b.rows[t].deleted { assert HasTombstone(b.rows, id, day); } else { assert HasLive(b.rows, id, day); }
      forall u | u in b.rows && IsRow(b.rows, u, id, day) ensures u == t {
      }
    }
  }

  // ----- The report -----

  lemma {:induction false} LiveRowsExact(rows: map<TaskId, Occurrence>, id: SeriesId, start: int, days: nat, n: nat)
    ensures forall x :: x in LiveRows(rows, id, start, days, n) <==>
      x.task < n && x.task in rows && x.row == rows[x.task] && IsLive(x.row, id, start, days)
    ensures TasksAscend(LiveRows(rows, id, start, days, n))
  {
    if n == 0 {
    } else {
      LiveRowsExact(rows, id, start, days, n - 1);
    }
  }

  ghost predicate TasksAscend(list: seq<Listed>) {
    forall i, j :: 0 <= i < j < |list| ==> list[i].task < list[j].task
  }

  predicate InBook(b: Book, x: Listed) { x.task in b.rows && b.rows[x.task] == x.row }

  /** Insertion uses the next identifiers, one for each date in order. */
  lemma {:induction false} InsertedAt(b: Book, id: SeriesId, s: Series, dates: seq<int>)
    requires IdsBelow(b)
    ensures var after := Inserted(b, id, s, dates);
      && after.nextId == b.nextId + |dates|
      && (forall t :: t in after.rows <==> t in b.rows || b.nextId <= t < after.nextId)
      && (forall t :: t in b.rows ==> after.rows[t] == b.rows[t])
      && (forall k :: 0 <= k < |dates| ==> after.rows[b.nextId + k] == OccurrenceOf(id, s, dates[k]))
  {
    if dates == [] {
    } else {
      InsertedAt(b, id, s, dates[..|dates| - 1]);
    }
  }

  /** Listed rows of one series, told apart by identifier, have different dates. */
  lemma DatesApart(after: Book, list: seq<Listed>, id: SeriesId)
    requires OnePerDate(after) && forall i, j :: 0 <= i < j < |list| ==> list[i] != list[j]
    requires forall x :: x in list ==> x.task in after.rows && after.rows[x.task] == x.row && x.row.series == id
    ensures forall i, j :: 0 <= i < j < |list| ==> list[i].row.date != list[j].row.date
  {
    forall i, j | 0 <= i < j < |list| ensures list[i].row.date != list[j].row.date {
      assert list[i] in list && list[j] in list;
    }
  }

  lemma DateOrderTotal()
    ensures TotalOrder(ByDate())
  {
  }

  lemma AddedExact(b: Book, id: SeriesId, s: Series, start: int, days: nat, dates: seq<int>, x: Listed)
    requires IdsBelow(b) && forall day :: day in dates ==> start <= day < start + days
    ensures x in AddedRows(id, s, dates, b.nextId) <==> InBook(Inserted(b, id, s, dates), x) && x.task !in b.rows
    ensures x in AddedRows(id, s, dates, b.nextId) ==> b.nextId <= x.task && IsLive(x.row, id, start, days)
  {
    hide Inserted;
    InsertedAt(b, id, s, dates);
    var added := AddedRows(id, s, dates, b.nextId);
    if x in added {
      var k :| 0 <= k < |added| && added[k] == x;
      assert dates[k] in dates;
    }
    if InBook(Inserted(b, id, s, dates), x) && x.task !in b.rows { assert added[x.task - b.nextId] == x; }
  }

  lemma TasksJoin(a: seq<Listed>, b: seq<Listed>, n: int)
    requires TasksAscend(a) && TasksAscend(b)
    requires (forall x :: x in a ==> x.task < n) && forall x :: x in b ==> n <= x.task
    ensures TasksAscend(a + b)
  {
    forall i, j | 0 <= i < j < |a + b| ensures (a + b)[i].task < (a + b)[j].task {
      if i < |a| { assert a[i] in a; }
      if j >= |a| { assert b[j - |a|] in b; }
    }
  }

  lemma LiveInBook(b: Book, id: SeriesId, s: Series, start: int, days: nat, dates: seq<int>, x: Listed)
    requires IdsBelow(b)
    ensures x in LiveRows(b.rows, id, start, days, b.nextId) <==>
      InBook(Inserted(b, id, s, dates), x) && x.task in b.rows && IsLive(x.row, id, start, days)
  {
    hide LiveRows, Inserted;
    LiveRowsExact(b.rows, id, start, days, b.nextId);
    InsertedAt(b, id, s, dates);
  }

  /** The rows a generation lists before sorting: each live row of the range once. */
  lemma ListedExact(b: Book, id: SeriesId, s: Series, start: int, days: nat, dates: seq<int>)
    requires BookOK(b) && forall day :: day in dates ==> start <= day < start + days
    ensures var list := LiveRows(b.rows, id, start, days, b.nextId) + AddedRows(id, s, dates, b.nextId);
      var after := Inserted(b, id, s, dates);
      && TasksAscend(list)
      && forall x :: x in list <==> InBook(after, x) && IsLive(x.row, id, start, days)
  {
    hide LiveRows, AddedRows, Inserted, OnePerDate, IsLive, TasksAscend, InBook;
    var live, added := LiveRows(b.rows, id, start, days, b.nextId), AddedRows(id, s, dates, b.nextId);
    LiveRowsExact(b.rows, id, start, days, b.nextId);
    AddedAscend(id, s, dates, b.nextId);
    forall x ensures x in live + added <==> InBook(Inserted(b, id, s, dates), x) && IsLive(x.row, id, start, days) {
      AddedExact(b, id, s, start, days, dates, x);
      LiveInBook(b, id, s, start, days, dates, x);
    }
    forall x | x in added ensures b.nextId <= x.task { AddedExact(b, id, s, start, days, dates, x); }
    TasksJoin(live, added, b.nextId);
  }

  lemma AddedAscend(id: SeriesId, s: Series, dates: seq<int>, first: TaskId)
    ensures TasksAscend(AddedRows(id, s, dates, first))
  {
    hide OccurrenceOf;
  }

  lemma SortedReport(after: Book, id: SeriesId, start: int, days: nat, list: seq<Listed>)
    requires OnePerDate(after) && TasksAscend(list)
    requires forall x :: x in list <==> InBook(after, x) && IsLive(x.row, id, start, days)
    ensures var tasks := Sort(ByDate(), list);
      && (forall x :: x in tasks <==> x in list)
      && (forall i, j :: 0 <= i < j < |tasks| ==> tasks[i].row.date < tasks[j].row.date)
  {
    hide Sort, OnePerDate;
    var tasks := Sort(ByDate(), list);
    DateOrderTotal();
    SortSorts(ByDate(), list);
    SameMembers(tasks, list);
    forall i, j | 0 <= i < j < |tasks| ensures tasks[i] != tasks[j] {
      CountedOnce(list, tasks[j]);
      OnceApart(tasks, i, j);
    }
    DatesApart(after, tasks, id);
    forall i, j | 0 <= i < j < |tasks| ensures tasks[i].row.date < tasks[j].row.date {
      assert ByDate()(tasks[i], tasks[j]);
    }
  }

  /** A task of the series was deleted on this date. */
  ghost predicate DeletedOn(b: Book, id: SeriesId, day: int) {
    exists t :: t in b.rows && b.rows[t].series == id && b.rows[t].date == day && b.rows[t].deleted
  }

  lemma ReportRows(b: Book, id: SeriesId, expected: int, start: int, days: nat, now: int)
    requires BookOK(b) && Materialize(b, id, expected, start, days, now).1.Success?
    ensures var (after, result) := Materialize(b, id, expected, start, days, now);
      var tasks := result.value.tasks;
      && (forall x :: x in tasks <==> InBook(after, x) && IsLive(x.row, id, start, days))
      && (forall i, j :: 0 <= i < j < |tasks| ==> tasks[i].row.date < tasks[j].row.date)
  {
    var s := b.series[id];
    var dates := PatternDates(s.pattern, start, days);
    var created := Created(b.rows, id, dates, Today(s, now));
    forall day | day in created ensures start <= day < start + days {
      CreatedExact(b.rows, id, dates, Today(s, now), day);
      PatternDatesExact(s.pattern, start, days, day);
    }
    GenerateKeepsBook(b, id, expected, start, days, now);
    ListedExact(b, id, s, start, days, created);
    SortedReport(Inserted(b, id, s, created), id, start, days,
                 LiveRows(b.rows, id, start, days, b.nextId) + AddedRows(id, s, created, b.nextId));
  }

  /** The report lists exactly the live rows of the range as they are afterwards, by ascending date, and
      the dates of the range on which a task was deleted. */
  lemma ReportExact(b: Book, id: SeriesId, expected: int, start: int, days: nat, now: int)
    requires BookOK(b) && Materialize(b, id, expected, start, days, now).1.Success?
    ensures var (after, result) := Materialize(b, id, expected, start, days, now);
      var tasks := result.value.tasks;
      && (forall x :: x in tasks <==>
            x.task in after.rows && x.row == after.rows[x.task]
            && x.row.series == id && start <= x.row.date < start + days && !x.row.deleted)
      && (forall i, j :: 0 <= i < j < |tasks| ==> tasks[i].row.date < tasks[j].row.date)
      && (forall day :: day in result.value.deleted <==> start <= day < start + days && DeletedOn(b, id, day))
  {
    forall day ensures day in DatesWith(b.rows, id, start, days, true) <==>
      start <= day < start + days && DeletedOn(b, id, day)
    {
      DatesWithExact(b.rows, id, start, days, true, day);
      if t :| t in b.rows && b.rows[t].series == id && b.rows[t].date == day && b.rows[t].deleted {
        assert IsRow(b.rows, t, id, day);
      }
    }
    ReportRows(b, id, expected, start, days, now);
  }

  /** Every stored row has time for its duration between its bounds. */
  ghost predicate RowsHaveTime(b: Book) {
    forall t :: t in b.rows ==> HasTime(b.rows[t].duration, b.rows[t].earliest, b.rows[t].deadline)
  }

  lemma GenerateKeepsTime(b: Book, id: SeriesId, expected: int, start: int, days: nat, now: int)
    requires BookOK(b) && RowsHaveTime(b)
    ensures RowsHaveTime(Materialize(b, id, expected, start, days, now).0)
  {
    hide OnePerDate, PatternDates, Created, Inserted, WindowError, LiveRows, AddedRows;
    if Materialize(b, id, expected, start, days, now).1.Success? {
      var s := b.series[id];
      var created := Created(b.rows, id, PatternDates(s.pattern, start, days), Today(s, now));
      WindowErrorExact(created, s);
      InsertedKeeps(b, id, s, created);
    }
  }

  lemma ChangeKeepsTime(b: Book, c: Change)
    requires BookOK(b) && RowsHaveTime(b)
    ensures RowsHaveTime(ApplyChange(b, c))
  {
    hide Materialize, OnePerDate;
    if c.Generate? { GenerateKeepsTime(b, c.id, c.expected, c.start, c.days, c.now); }
  }

  /** No run of generations and edits stores a task that does not fit between its own bounds. */
  lemma {:induction false} RunKeepsTime(b: Book, cs: seq<Change>)
    requires BookOK(b) && RowsHaveTime(b)
    ensures RowsHaveTime(After(b, cs))
  {
    if cs == [] {
    } else {
      RunKeepsTime(b, cs[..|cs| - 1]);
      RunKeepsBook(b, cs[..|cs| - 1]);
      ChangeKeepsTime(After(b, cs[..|cs| - 1]), cs[|cs| - 1]);
    }
  }

  // ----- Idempotence -----

  lemma RowsStay(b: Book, id: SeriesId, expected: int, start: int, days: nat, now: int, day: int)
    requires BookOK(b)
    ensures HasRow(b.rows, id, day) ==> HasRow(Materialize(b, id, expected, start, days, now).0.rows, id, day)
  {
    GenerationOnlyAdds(b, id, expected, start, days, now);
    var after := Materialize(b, id, expected, start, days, now).0;
    if t :| t in b.rows && IsRow(b.rows, t, id, day) { assert IsRow(after.rows, t, id, day); }
  }

  lemma CreatedThere(b: Book, id: SeriesId, expected: int, start: int, days: nat, now: int, day: int)
    requires BookOK(b) && Materialize(b, id, expected, start, days, now).1.Success?
    requires day in Materialize(b, id, expected, start, days, now).1.value.created
    ensures HasRow(Materialize(b, id, expected, start, days, now).0.rows, id, day)
  {
    var s := b.series[id];
    var created := Created(b.rows, id, PatternDates(s.pattern, start, days), Today(s, now));
    InsertedHas(b, id, s, created, day);
    var after := Inserted(b, id, s, created);
    var t :| t in after.rows && after.rows[t] == OccurrenceOf(id, s, day);
    assert IsRow(after.rows, t, id, day);
  }

  /** A series stays for ever, its version never falls, and it changes only with its version. */
  ghost predicate SeriesForward(a: Book, b: Book, id: SeriesId)
    requires id in a.series
  {
    id in b.series && a.series[id].version <= b.series[id].version
    && (a.series[id].version == b.series[id].version ==> a.series[id] == b.series[id])
  }

  lemma ChangeForward(b: Book, c: Change, id: SeriesId)
    requires BookOK(b) && id in b.series
    ensures SeriesForward(b, ApplyChange(b, c), id)
  {
    if c.Generate? { GenerationOnlyAdds(b, c.id, c.expected, c.start, c.days, c.now); }
  }

  lemma {:induction false} RunForward(b: Book, cs: seq<Change>, id: SeriesId)
    requires BookOK(b) && id in b.series
    ensures SeriesForward(b, After(b, cs), id)
  {
    if cs == [] {
    } else {
      RunForward(b, cs[..|cs| - 1], id);
      RunKeepsBook(b, cs[..|cs| - 1]);
      ChangeForward(After(b, cs[..|cs| - 1]), cs[|cs| - 1], id);
    }
  }

  lemma RunKeepsDate(b: Book, cs: seq<Change>, id: SeriesId, day: int)
    requires BookOK(b) && HasRow(b.rows, id, day)
    ensures HasRow(After(b, cs).rows, id, day)
  {
    var t :| t in b.rows && IsRow(b.rows, t, id, day);
    RunKeepsRow(b, cs, t);
    assert IsRow(After(b, cs).rows, t, id, day);
  }

  /** After a generation and any run of further changes, generating the same range again creates
      nothing and changes nothing, as long as the series is still at the version named and its
      today is no earlier. */
  lemma GenerationIdempotent(b: Book, id: SeriesId, expected: int, start: int, days: nat, now: int, cs: seq<Change>,
                             later: int)
    requires BookOK(b) && Materialize(b, id, expected, start, days, now).1.Success?
    ensures var book := After(Materialize(b, id, expected, start, days, now).0, cs);
      && id in book.series
      && (book.series[id].version == expected && Today(b.series[id], now) <= Today(book.series[id], later) ==>
            var again := Materialize(book, id, expected, start, days, later);
            again.0 == book && again.1.Success? && again.1.value.created == [])
  {
    var after := Materialize(b, id, expected, start, days, now).0;
    var book, s := After(after, cs), b.series[id];
    GenerationOnlyAdds(b, id, expected, start, days, now);
    GenerateKeepsBook(b, id, expected, start, days, now);
    RunForward(after, cs, id);
    if book.series[id].version == expected && Today(s, now) <= Today(book.series[id], later) {
      var dates := PatternDates(s.pattern, start, days);
      forall day | day in dates ensures HasRow(book.rows, id, day) || day < Today(s, later) {
        CreatedExact(b.rows, id, dates, Today(s, now), day);
        RowsStay(b, id, expected, start, days, now, day);
        if !HasRow(b.rows, id, day) && Today(s, now) <= day { CreatedThere(b, id, expected, start, days, now, day); }
        if HasRow(after.rows, id, day) { RunKeepsDate(after, cs, id, day); }
      }
      CreatedNone(book.rows, id, dates, Today(s, later));
    }
  }

  lemma {:induction false} CreatedNone(rows: map<TaskId, Occurrence>, id: SeriesId, dates: seq<int>, today: int)
    requires forall day :: day in dates ==> HasRow(rows, id, day) || day < today
    ensures Created(rows, id, dates, today) == []
  {
    if dates == [] {
    } else {
      assert dates[|dates| - 1] in dates;
      CreatedNone(rows, id, dates[..|dates| - 1], today);
    }
  }

  // ----- Confluence -----

  /** The task rows without their arbitrary identifiers. */
  ghost function Contents(b: Book): set<Occurrence> { set t | t in b.rows :: b.rows[t] }

  /** Rows a generation of the range would add from `b`, or none when some window is invalid. */
  ghost function NewRows(b: Book, id: SeriesId, start: int, days: nat, today: int): set<Occurrence>
    requires id in b.series
  {
    var s := b.series[id];
    var created := Created(b.rows, id, PatternDates(s.pattern, start, days), today);
    if WindowError(created, s).Some? then {} else set day | day in created :: OccurrenceOf(id, s, day)
  }

  lemma HasRowContents(b: Book, id: SeriesId, day: int)
    ensures HasRow(b.rows, id, day) <==> exists o :: o in Contents(b) && o.series == id && o.date == day
  {
    if t :| t in b.rows && IsRow(b.rows, t, id, day) { assert b.rows[t] in Contents(b); }
    if o :| o in Contents(b) && o.series == id && o.date == day {
      var t :| t in b.rows && b.rows[t] == o;
      assert IsRow(b.rows, t, id, day);
    }
  }

  lemma InsertedContents(b: Book, id: SeriesId, s: Series, dates: seq<int>)
    requires IdsBelow(b)
    ensures Contents(Inserted(b, id, s, dates)) == Contents(b) + (set day | day in dates :: OccurrenceOf(id, s, day))
  {
    var after, added := Inserted(b, id, s, dates), (set day | day in dates :: OccurrenceOf(id, s, day));
    InsertedKeeps(b, id, s, dates);
    forall o ensures o in Contents(after) <==> o in Contents(b) + added {
      if o in Contents(after) {
        var t :| t in after.rows && after.rows[t] == o;
        if t in b.rows {
          assert b.rows[t] in Contents(b);
        } else {
          assert o == OccurrenceOf(id, s, after.rows[t].date);
        }
      }
      if o in Contents(b) {
        var t :| t in b.rows && b.rows[t] == o;
        assert after.rows[t] == o;
      }
      if o in added {
        var day :| day in dates && o == OccurrenceOf(id, s, day);
        InsertedHas(b, id, s, dates, day);
      }
    }
  }

  /** A generation adds exactly the new rows of its range. */
  lemma GenerationContents(b: Book, id: SeriesId, expected: int, start: int, days: nat, now: int)
    requires BookOK(b) && Accepts(b, id, expected)
    ensures var after := Materialize(b, id, expected, start, days, now).0;
      && after.series == b.series && BookOK(after)
      && Contents(after) == Contents(b) + NewRows(b, id, start, days, Today(b.series[id], now))
  {
    GenerateKeepsBook(b, id, expected, start, days, now);
    GenerationOnlyAdds(b, id, expected, start, days, now);
    var s := b.series[id];
    InsertedContents(b, id, s, Created(b.rows, id, PatternDates(s.pattern, start, days), Today(s, now)));
  }

  /** Whether a date would be created depends only on the rows' contents. */
  lemma CreatedAfter(b: Book, c: Book, id: SeriesId, dates: seq<int>, today: int, added: set<int>, s: Series, day: int)
    requires Contents(c) == Contents(b) + (set x | x in added :: OccurrenceOf(id, s, x))
    ensures day in Created(c.rows, id, dates, today) <==> day in Created(b.rows, id, dates, today) && day !in added
  {
    CreatedExact(b.rows, id, dates, today, day);
    CreatedExact(c.rows, id, dates, today, day);
    HasRowContents(b, id, day);
    HasRowContents(c, id, day);
    if day in added { assert OccurrenceOf(id, s, day) in Contents(c); }
    if o :| o in Contents(b) && o.series == id && o.date == day { assert o in Contents(c); }
    if o :| o in Contents(c) && o.series == id && o.date == day {
      if o !in Contents(b) {
        var x :| x in added && o == OccurrenceOf(id, s, x);
      }
    }
  }

  /** What the second of two ranges adds after the first, together with what the first added. */
  lemma NewRowsAfter(b: Book, c: Book, id: SeriesId, today: int, start: int, days: nat, start': int, days': nat)
    requires id in b.series && c.series == b.series
    requires Contents(c) == Contents(b) + NewRows(b, id, start, days, today)
    ensures NewRows(b, id, start, days, today) + NewRows(c, id, start', days', today)
            == NewRows(b, id, start, days, today) + NewRows(b, id, start', days', today)
  {
    var s := b.series[id];
    var first := Created(b.rows, id, PatternDates(s.pattern, start, days), today);
    var dates := PatternDates(s.pattern, start', days');
    var fromB, fromC := Created(b.rows, id, dates, today), Created(c.rows, id, dates, today);
    var added := if WindowError(first, s).Some? then {} else set day | day in first;
    forall day ensures day in fromC <==> day in fromB && day !in added {
      CreatedAfter(b, c, id, dates, today, added, s, day);
    }
    WindowErrorExact(first, s);
    WindowErrorExact(fromB, s);
    WindowErrorExact(fromC, s);
    SameUnion(id, s, added, fromB, fromC);
  }

  lemma SameUnion(id: SeriesId, s: Series, added: set<int>, fromB: seq<int>, fromC: seq<int>)
    requires forall day :: day in fromC <==> day in fromB && day !in added
    ensures (set x | x in added :: OccurrenceOf(id, s, x)) + (set x | x in fromC :: OccurrenceOf(id, s, x))
            == (set x | x in added :: OccurrenceOf(id, s, x)) + (set x | x in fromB :: OccurrenceOf(id, s, x))
  {
  }

  /** Two generations of one series with one today leave the same rows in either order,
      whether or not the ranges overlap and whether or not one of them is refused. */
  lemma GenerationsCommute(b: Book, id: SeriesId, expected: int, start: int, days: nat, start': int, days': nat,
                           now: int)
    requires BookOK(b) && Accepts(b, id, expected)
    ensures var a := Materialize(b, id, expected, start, days, now).0;
      var c := Materialize(b, id, expected, start', days', now).0;
      var one := Materialize(a, id, expected, start', days', now).0;
      var two := Materialize(c, id, expected, start, days, now).0;
      Contents(one) == Contents(two) && one.series == two.series
  {
    hide Materialize, NewRows, Contents, BookOK;
    var today := Today(b.series[id], now);
    var a, c := Materialize(b, id, expected, start, days, now).0, Materialize(b, id, expected, start', days', now).0;
    GenerationContents(b, id, expected, start, days, now);
    GenerationContents(b, id, expected, start', days', now);
    GenerationContents(a, id, expected, start', days', now);
    GenerationContents(c, id, expected, start, days, now);
    NewRowsAfter(b, a, id, today, start, days, start', days');
    NewRowsAfter(b, c, id, today, start', days', start, days);
  }
}
