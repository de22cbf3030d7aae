/** What the exported files say about each fixed event and each block of a saved schedule, read back
    from the files and compared with the schedule itself. */
module ExportTheorems {
  import opened Wrappers
  import opened Sorting
  import opened CalendarText
  import opened ExportRows
  import opened CalendarFile
  import opened CsvFile

  // ----- Positions of rows -----

  function EventRow(s: Saved, k: nat): Row
    requires k < |s.events|
  {
    Row("fixed-" + Decimal(k), "fixed", s.events[k].title, s.events[k].start, s.events[k].end)
  }

  function BlockRow(s: Saved, k: nat): Row
    requires k < |s.blocks|
  {
    Row("task-" + s.blocks[k].task + "-" + Decimal(k), "task", TitleOf(s, s.blocks[k].task), s.blocks[k].start,
        s.blocks[k].end)
  }

  lemma RowFound(s: Saved, leq: (string, string) -> bool, row: Row) returns (j: nat)
    requires row in EventRows(s) + BlockRows(s)
    ensures j < |ScheduleRows(s, leq)| && ScheduleRows(s, leq)[j] == row
  {
    hide EventRows, BlockRows, Sort;
    SameMembers(ScheduleRows(s, leq), EventRows(s) + BlockRows(s));
    j :| 0 <= j < |ScheduleRows(s, leq)| && ScheduleRows(s, leq)[j] == row;
  }

  lemma EventRowHere(s: Saved, k: nat)
    requires k < |s.events|
    ensures EventRow(s, k) in EventRows(s) + BlockRows(s)
  {
    assert (EventRows(s) + BlockRows(s))[k] == EventRow(s, k);
  }

  lemma BlockRowHere(s: Saved, k: nat)
    requires k < |s.blocks|
    ensures BlockRow(s, k) in EventRows(s) + BlockRows(s)
  {
    assert (EventRows(s) + BlockRows(s))[|s.events| + k] == BlockRow(s, k);
  }

  // ----- The calendar -----

  /** `text` is the basic form of the instant that `value` denotes. */
  ghost predicate Denotes(iso: string -> string, value: string, text: string) {
    exists i: Instant :: i.Valid() && iso(value) == i.Extended() && text == i.Basic()
  }

  /** An event with this identifier, these instants and a summary that decodes to this title. */
  ghost predicate Tells(e: seq<Property>, uid: string, iso: string -> string, updatedAt: string, start: string,
                        end: string, title: string)
  {
    && |e| == 5
    && e[0] == Property("UID", uid)
    && e[1].name == "DTSTAMP" && Denotes(iso, updatedAt, e[1].value)
    && e[2].name == "DTSTART" && Denotes(iso, start, e[2].value)
    && e[3].name == "DTEND" && Denotes(iso, end, e[3].value)
    && e[4].name == "SUMMARY" && Unescaped(e[4].value) == Some(title)
  }

  ghost predicate ToldOnce(events: seq<seq<Property>>, uid: string, iso: string -> string, updatedAt: string,
                           start: string, end: string, title: string)
  {
    exists j :: 0 <= j < |events| && Tells(events[j], uid, iso, updatedAt, start, end, title)
      && forall i :: 0 <= i < |events| && i != j ==> |events[i]| == 5 && events[i][0].value != uid
  }

  lemma StampDenotes(iso: string -> string, value: string)
    requires IsInstant(iso(value))
    ensures Denotes(iso, value, UtcStamp(iso)(value))
  {
    hide Stamp, Instant.Extended, Instant.Basic;
    var i: Instant :| i.Valid() && iso(value) == i.Extended();
    StampExact(i);
  }

  lemma {:induction false} EventsAt(id: string, updatedAt: string, rows: seq<Row>, stamp: string -> string, j: nat)
    requires j < |rows|
    ensures |EventsOf(id, updatedAt, rows, stamp)| == |rows|
    ensures EventsOf(id, updatedAt, rows, stamp)[j] == EventOf(id, updatedAt, rows[j], stamp)
  {
    hide EventOf;
    EventsOfSize(id, updatedAt, rows, stamp);
    if j == 0 {
    } else {
      EventsAt(id, updatedAt, rows[1..], stamp, j - 1);
    }
  }

  lemma EventsOfSize(id: string, updatedAt: string, rows: seq<Row>, stamp: string -> string)
    ensures |EventsOf(id, updatedAt, rows, stamp)| == |rows|
  {
    EventsOfLength(id, updatedAt, rows, stamp);
  }

  lemma RowTold(s: Saved, iso: string -> string, row: Row)
    requires IsInstant(iso(s.updatedAt)) && IsInstant(iso(row.start)) && IsInstant(iso(row.end))
    ensures Tells(EventOf(s.id, s.updatedAt, row, UtcStamp(iso)), s.id + "-" + row.id + "@smartplanner", iso,
                  s.updatedAt, row.start, row.end, row.title)
  {
    hide UtcStamp, IsInstant, IcsText, Unescaped, Denotes;
    StampDenotes(iso, s.updatedAt);
    StampDenotes(iso, row.start);
    StampDenotes(iso, row.end);
    UnescapedIcsText(row.title);
  }

  /** The text of the exported calendar. */
  function CalendarOf(s: Saved, iso: string -> string, leq: (string, string) -> bool): string {
    FileOf(CalendarLines(s.id, s.updatedAt, ScheduleRows(s, leq), UtcStamp(iso)))
  }

  function ReadEvents(text: string): seq<seq<Property>> {
    match ContentLines(text)
    case None => []
    case Some(lines) => Events(lines)
  }

  /** Any exported row is told by exactly one event. */
  lemma RowToldOnce(s: Saved, iso: string -> string, leq: (string, string) -> bool, row: Row)
    requires Exportable(s, iso) && TotalOrder(leq) && row in EventRows(s) + BlockRows(s)
    requires IsInstant(iso(row.start)) && IsInstant(iso(row.end))
    ensures ToldOnce(ReadEvents(CalendarOf(s, iso, leq)), s.id + "-" + row.id + "@smartplanner", iso, s.updatedAt,
                     row.start, row.end, row.title)
  {
    assert IsInstant(iso(s.updatedAt));
    hide FileOf, ContentLines, CalendarLines, Events, EventsOf, UtcStamp, Exportable, EventRows, BlockRows, IsInstant,
         Tells, ScheduleRows, EventOf, Unescaped;
    var rows, uid := ScheduleRows(s, leq), s.id + "-" + row.id + "@smartplanner";
    var events := EventsOf(s.id, s.updatedAt, rows, UtcStamp(iso));
    ExportRoundTrip(s, iso, leq);
    assert ReadEvents(CalendarOf(s, iso, leq)) == events;
    var j := RowFound(s, leq, row);
    EventsAt(s.id, s.updatedAt, rows, UtcStamp(iso), j);
    RowTold(s, iso, row);
    TellsUid(events[j], uid, iso, s.updatedAt, row.start, row.end, row.title);
    forall i | 0 <= i < |events| && i != j ensures |events[i]| == 5 && events[i][0].value != uid {
      assert i < j || j < i;
    }
  }

  lemma TellsUid(e: seq<Property>, uid: string, iso: string -> string, updatedAt: string, start: string, end: string,
                 title: string)
    requires Tells(e, uid, iso, updatedAt, start, end, title)
    ensures |e| == 5 && e[0].value == uid
  {
  }

  /** Every block of the schedule is told by exactly one event of the exported calendar: its own start
      and end in basic form, and a summary that decodes to its stored title, or to a fixed word when
      none is stored. */
  lemma BlocksExported(s: Saved, iso: string -> string, leq: (string, string) -> bool, k: nat)
    requires Exportable(s, iso) && TotalOrder(leq) && k < |s.blocks|
    ensures var b, task := s.blocks[k], s.blocks[k].task;
      ToldOnce(ReadEvents(CalendarOf(s, iso, leq)), s.id + "-" + ("task-" + task + "-" + Decimal(k)) + "@smartplanner",
               iso, s.updatedAt, b.start, b.end,
               if task !in s.titles || s.titles[task] == "" then "Task" else s.titles[task])
  {
    hide CalendarOf, ReadEvents, EventRows, BlockRows, IsInstant, ToldOnce, Decimal;
    assert s.blocks[k] in s.blocks;
    BlockRowHere(s, k);
    RowToldOnce(s, iso, leq, BlockRow(s, k));
  }

  /** Every fixed event of the schedule is told by exactly one event of the exported calendar. */
  lemma FixedEventsExported(s: Saved, iso: string -> string, leq: (string, string) -> bool, k: nat)
    requires Exportable(s, iso) && TotalOrder(leq) && k < |s.events|
    ensures ToldOnce(ReadEvents(CalendarOf(s, iso, leq)), s.id + "-" + ("fixed-" + Decimal(k)) + "@smartplanner", iso,
                     s.updatedAt, s.events[k].start, s.events[k].end, s.events[k].title)
  {
    hide CalendarOf, ReadEvents, EventRows, BlockRows, IsInstant, ToldOnce, Decimal;
    assert s.events[k] in s.events;
    EventRowHere(s, k);
    RowToldOnce(s, iso, leq, EventRow(s, k));
  }

  /** The exported calendar holds these events and no others, in the order of their start texts, between
      the calendar's own header and trailer. */
  lemma CalendarExact(s: Saved, iso: string -> string, leq: (string, string) -> bool) returns (starts: seq<string>)
    requires Exportable(s, iso) && TotalOrder(leq)
    ensures var lines, events := ContentLines(CalendarOf(s, iso, leq)), ReadEvents(CalendarOf(s, iso, leq));
      && |events| == |s.events| + |s.blocks| == |starts|
      && (forall i, j :: 0 <= i < j < |starts| ==> leq(starts[i], starts[j]))
      && (forall j :: 0 <= j < |events| ==> |events[j]| == 5 && Denotes(iso, starts[j], events[j][2].value))
      && lines.Some? && |lines.value| >= 5
      && lines.value[..4]
         == ["BEGIN:VCALENDAR", "VERSION:2.0", "PRODID:-//SmartPlanner//Schedule//EN", "CALSCALE:GREGORIAN"]
      && lines.value[|lines.value| - 1] == "END:VCALENDAR"
  {
    hide FileOf, ContentLines, Events, EventsOf, UtcStamp, Exportable, EventRows, BlockRows, IsInstant, ScheduleRows,
         EventOf, Unescaped, Denotes, AllEventLines;
    var rows := ScheduleRows(s, leq);
    ExportRoundTrip(s, iso, leq);
    RowsExact(s, leq);
    starts := seq(|rows|, j requires 0 <= j < |rows| => rows[j].start);
    EventsOfSize(s.id, s.updatedAt, rows, UtcStamp(iso));
    forall j | 0 <= j < |rows|
      ensures Denotes(iso, rows[j].start, EventsOf(s.id, s.updatedAt, rows, UtcStamp(iso))[j][2].value)
    {
      EventsAt(s.id, s.updatedAt, rows, UtcStamp(iso), j);
      RowInstants(s, iso, leq, j);
      RowTold(s, iso, rows[j]);
    }
    forall i, j | 0 <= i < j < |starts| ensures leq(starts[i], starts[j]) {
      assert StartOrder(leq)(rows[i], rows[j]);
    }
  }

  lemma RowInstants(s: Saved, iso: string -> string, leq: (string, string) -> bool, j: nat)
    requires Exportable(s, iso) && j < |ScheduleRows(s, leq)|
    ensures var row := ScheduleRows(s, leq)[j];
      IsInstant(iso(s.updatedAt)) && IsInstant(iso(row.start)) && IsInstant(iso(row.end))
  {
    hide IsInstant, Sort, Decimal;
    var all, row := EventRows(s) + BlockRows(s), ScheduleRows(s, leq)[j];
    SameMembers(ScheduleRows(s, leq), all);
    assert row in all;
    var k :| 0 <= k < |all| && all[k] == row;
    if k < |s.events| {
      assert s.events[k] in s.events;
    } else {
      assert s.blocks[k - |s.events|] in s.blocks;
    }
  }

  // ----- The table -----

  function CellsOf(row: Row): seq<string> { GuardedAll(RecordOf(row)) }

  lemma RecordsAreMapped(rows: seq<Row>)
    ensures GuardedRecords(RecordsOf(rows)) == Mapped(CellsOf, rows)
  {
    hide GuardedAll, GuardedRecords, RecordsOf, RecordOf;
    RecordsLength(rows);
    forall k | 0 <= k < |rows| ensures GuardedRecords(RecordsOf(rows))[k] == CellsOf(rows[k]) { RecordsAt(rows, k); }
  }

  lemma CellsExact(row: Row)
    requires row.kind == "fixed" || row.kind == "task"
    ensures CellsOf(row) == [row.kind, Guarded(row.title), Guarded(row.start), Guarded(row.end)]
  {
    assert !Formula("fixed") && !Formula("task");
    hide Formula, GuardedAll;
    GuardedFour(row.kind, row.title, row.start, row.end);
  }

  /** The record of fixed event `k`. */
  function EventRecord(s: Saved, k: nat): seq<string>
    requires k < |s.events|
  {
    ["fixed", Guarded(s.events[k].title), Guarded(s.events[k].start), Guarded(s.events[k].end)]
  }

  /** The record of block `k`, under its stored title or a fixed word. */
  function BlockRecord(s: Saved, k: nat): seq<string>
    requires k < |s.blocks|
  {
    var b := s.blocks[k];
    ["task", Guarded(if b.task !in s.titles || s.titles[b.task] == "" then "Task" else s.titles[b.task]),
     Guarded(b.start), Guarded(b.end)]
  }

  function ExpectedRecords(s: Saved): seq<seq<string>> {
    seq(|s.events|, k requires 0 <= k < |s.events| => EventRecord(s, k))
    + seq(|s.blocks|, k requires 0 <= k < |s.blocks| => BlockRecord(s, k))
  }

  lemma EventCells(s: Saved, k: nat)
    requires k < |s.events|
    ensures CellsOf((EventRows(s) + BlockRows(s))[k]) == EventRecord(s, k)
  {
    hide CellsOf, Guarded, Decimal;
    CellsExact((EventRows(s) + BlockRows(s))[k]);
  }

  lemma BlockCells(s: Saved, k: nat)
    requires k < |s.blocks|
    ensures |EventRows(s)| == |s.events|
    ensures CellsOf((EventRows(s) + BlockRows(s))[|s.events| + k]) == BlockRecord(s, k)
  {
    hide CellsOf, Guarded, Decimal;
    CellsExact((EventRows(s) + BlockRows(s))[|s.events| + k]);
  }

  lemma CellsExpected(s: Saved)
    ensures Mapped(CellsOf, EventRows(s) + BlockRows(s)) == ExpectedRecords(s)
  {
    hide CellsOf, EventRows, BlockRows, EventRecord, BlockRecord;
    RowCounts(s);
    var cells, n := Mapped(CellsOf, EventRows(s) + BlockRows(s)), |s.events|;
    forall k | 0 <= k < |cells| ensures cells[k] == ExpectedRecords(s)[k] {
      if k < n { EventCells(s, k); } else { BlockCells(s, k - n); }
    }
  }

  /** The exported table reads back as its header and one record for each fixed event and each block: the
      kind, the title, the own start and the own end, guarded against formulas. */
  lemma TableExact(s: Saved, leq: (string, string) -> bool)
    ensures var text := ScheduleCsv(ScheduleRows(s, leq));
      var records := ReadFile(text[1..]);
      && text[0] == BOM && records.Some? && |records.value| >= 1
      && records.value[0] == ["type", "title", "start_utc", "end_utc"]
      && multiset(records.value[1..]) == multiset(ExpectedRecords(s))
  {
    hide ReadFile, GuardedRecords, RecordsOf, Sort, CsvLines, CellsOf, EventRows, BlockRows, ExpectedRecords, Mapped;
    var rows, all := ScheduleRows(s, leq), EventRows(s) + BlockRows(s);
    CsvRoundTrip(rows);
    RecordsAreMapped(rows);
    MappedReordered(CellsOf, rows, all);
    CellsExpected(s);
    assert ([TITLES] + Mapped(CellsOf, rows))[1..] == Mapped(CellsOf, rows);
  }
}
