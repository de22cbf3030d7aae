/** The rows of an exported schedule: fixed events and task blocks by start, with distinct
    identifiers, and the time stamps of the calendar format. */
module ExportRows {
  import opened Sorting

  /** One exported row; `start` and `end` are instants as text. */
  datatype Row = Row(id: string, kind: string, title: string, start: string, end: string)

  datatype FixedEvent = FixedEvent(title: string, start: string, end: string)

  datatype TaskBlock = TaskBlock(task: string, start: string, end: string)

  /** What the export reads of a saved schedule. */
  datatype Saved = Saved(
    id: string, updatedAt: string, events: seq<FixedEvent>, blocks: seq<TaskBlock>, titles: map<string, string>)

  // ----- Rows -----

  function Digit(n: nat): char
    requires n < 10
  {
    "0123456789"[n]
  }

  function Decimal(n: nat): string {
    if n < 10 then [Digit(n)] else Decimal(n / 10) + [Digit(n % 10)]
  }

  /** The stored title, or a fixed word when there is none. */
  function TitleOf(s: Saved, task: string): string {
    if task in s.titles && s.titles[task] != "" then s.titles[task] else "Task"
  }

  function EventRows(s: Saved): seq<Row> {
    seq(|s.events|, k requires 0 <= k < |s.events| =>
      Row("fixed-" + Decimal(k), "fixed", s.events[k].title, s.events[k].start, s.events[k].end))
  }

  function BlockRows(s: Saved): seq<Row> {
    seq(|s.blocks|, k requires 0 <= k < |s.blocks| =>
      Row("task-" + s.blocks[k].task + "-" + Decimal(k), "task", TitleOf(s, s.blocks[k].task), s.blocks[k].start,
          s.blocks[k].end))
  }

  /** `leq` is the browser's comparison of two start texts. */
  function StartOrder(leq: (string, string) -> bool): (Row, Row) -> bool {
    (a: Row, b: Row) => leq(a.start, b.start)
  }

  function ScheduleRows(s: Saved, leq: (string, string) -> bool): seq<Row> {
    Sort(StartOrder(leq), EventRows(s) + BlockRows(s))
  }

  // ----- Distinct identifiers -----

  lemma {:induction false} DecimalDigits(n: nat)
    ensures Decimal(n) != "" && forall c :: c in Decimal(n) ==> '0' <= c <= '9'
  {
    if n < 10 {
    } else {
      DecimalDigits(n / 10);
    }
  }

  /** The number that decimal digits write. */
  function ReadDecimal(text: string): int {
    if text == "" then 0 else 10 * ReadDecimal(text[..|text| - 1]) + (text[|text| - 1] as int - '0' as int)
  }

  lemma {:induction false} DecimalReads(n: nat)
    ensures ReadDecimal(Decimal(n)) == n
  {
    if n < 10 {
      assert [Digit(n)][..0] == "";
    } else {
      DecimalReads(n / 10);
      var text := Decimal(n);
      assert text[..|text| - 1] == Decimal(n / 10);
    }
  }

  lemma DecimalInjective(a: nat, b: nat)
    requires Decimal(a) == Decimal(b)
    ensures a == b
  {
    DecimalReads(a);
    DecimalReads(b);
  }

  lemma NoLaterHyphen(a: string, x: string)
    requires '-' !in x
    ensures forall k :: |a| < k < |a + "-" + x| ==> (a + "-" + x)[k] != '-'
  {
    forall k | |a| < k < |a + "-" + x| ensures (a + "-" + x)[k] != '-' {
      assert (a + "-" + x)[k] == x[k - |a| - 1] && x[k - |a| - 1] in x;
    }
  }

  /** What follows the last hyphen is determined by the text. */
  lemma SameSuffix(a: string, x: string, b: string, y: string)
    requires a + "-" + x == b + "-" + y && '-' !in x && '-' !in y
    ensures x == y
  {
    NoLaterHyphen(a, x);
    NoLaterHyphen(b, y);
    assert (a + "-" + x)[|a|] == '-' && (b + "-" + y)[|b|] == '-';
    assert (a + "-" + x)[|a| + 1..] == x && (b + "-" + y)[|b| + 1..] == y;
  }

  lemma BlockIdsApart(t: string, k: nat, u: string, l: nat)
    requires "task-" + t + "-" + Decimal(k) == "task-" + u + "-" + Decimal(l)
    ensures k == l
  {
    DecimalDigits(k);
    DecimalDigits(l);
    SameSuffix("task-" + t, Decimal(k), "task-" + u, Decimal(l));
    DecimalInjective(k, l);
  }

  lemma EventIdsApart(k: nat, l: nat)
    requires "fixed-" + Decimal(k) == "fixed-" + Decimal(l)
    ensures k == l
  {
    assert ("fixed-" + Decimal(k))[6..] == Decimal(k) && ("fixed-" + Decimal(l))[6..] == Decimal(l);
    DecimalInjective(k, l);
  }

  ghost predicate IdsDistinct(rows: seq<Row>) {
    forall i, j :: 0 <= i < j < |rows| ==> rows[i].id != rows[j].id
  }

  lemma UnsortedIds(s: Saved)
    ensures IdsDistinct(EventRows(s) + BlockRows(s))
  {
    hide Decimal;
    var n, rows := |s.events|, EventRows(s) + BlockRows(s);
    forall i, j | 0 <= i < j < |rows| ensures rows[i].id != rows[j].id {
      if j < n {
        if rows[i].id == rows[j].id { EventIdsApart(i, j); }
      } else if i < n {
        assert rows[i].id[0] == 'f' && rows[j].id[0] == 't';
      } else {
        if rows[i].id == rows[j].id { BlockIdsApart(s.blocks[i - n].task, i - n, s.blocks[j - n].task, j - n); }
      }
    }
  }

  /** A reordering keeps identifiers distinct. */
  lemma IdsReordered(a: seq<Row>, b: seq<Row>)
    requires IdsDistinct(a) && multiset(a) == multiset(b)
    ensures IdsDistinct(b)
  {
    SameMembers(a, b);
    forall i, j | 0 <= i < j < |b| ensures b[i].id != b[j].id {
      CountedOnce(a, b[j]);
      OnceApart(b, i, j);
      assert b[i] in a && b[j] in a;
      var k :| 0 <= k < |a| && a[k] == b[i];
      var l :| 0 <= l < |a| && a[l] == b[j];
      assert k < l || l < k;
    }
  }

  /** The exported rows are the events and blocks, each once, in the order of their start texts, and
      no two have one identifier. */
  lemma RowsExact(s: Saved, leq: (string, string) -> bool)
    requires TotalOrder(leq)
    ensures Sorted(StartOrder(leq), ScheduleRows(s, leq))
    ensures multiset(ScheduleRows(s, leq)) == multiset(EventRows(s) + BlockRows(s))
    ensures IdsDistinct(ScheduleRows(s, leq))
  {
    hide EventRows, BlockRows;
    StartOrderTotal(leq);
    SortSorts(StartOrder(leq), EventRows(s) + BlockRows(s));
    UnsortedIds(s);
    IdsReordered(EventRows(s) + BlockRows(s), ScheduleRows(s, leq));
  }

  lemma StartOrderTotal(leq: (string, string) -> bool)
    requires TotalOrder(leq)
    ensures TotalOrder(StartOrder(leq))
  {
    forall a: Row, b: Row ensures StartOrder(leq)(a, b) || StartOrder(leq)(b, a) {
      assert leq(a.start, b.start) || leq(b.start, a.start);
    }
    forall a: Row, b: Row, c: Row | StartOrder(leq)(a, b) && StartOrder(leq)(b, c) ensures StartOrder(leq)(a, c) {
      assert leq(a.start, b.start) && leq(b.start, c.start);
    }
  }

  // ----- Stamps -----

  predicate IsDigit(c: char) { '0' <= c <= '9' }

  /** Every hyphen and colon removed. */
  function Compact(text: string): string {
    if text == "" then "" else (if text[0] in "-:" then "" else [text[0]]) + Compact(text[1..])
  }

  /** The first point that three digits follow removed, with those digits. */
  function WithoutMillis(text: string): string {
    if text == "" then ""
    else if |text| >= 4 && text[0] == '.' && IsDigit(text[1]) && IsDigit(text[2]) && IsDigit(text[3]) then text[4..]
    else [text[0]] + WithoutMillis(text[1..])
  }

  function Stamp(instant: string): string { WithoutMillis(Compact(instant)) }

  /** The parts of a date and time in UTC: digits of the usual lengths. */
  datatype Instant = Instant(year: string, month: string, day: string, hour: string, minute: string, second: string,
                             millis: string)
  {
    ghost predicate Valid() {
      && |year| == 4 && |month| == |day| == |hour| == |minute| == |second| == 2 && |millis| == 3
      && Digits(year) && Digits(month) && Digits(day)
      && Digits(hour) && Digits(minute) && Digits(second) && Digits(millis)
    }

    /** The extended format with milliseconds. */
    function Extended(): string {
      year + ("-" + (month + ("-" + (day + "T" + hour + (":" + (minute + (":" + (second + ("." + millis + "Z")))))))))
    }

    /** The basic format (RFC 5545, section 3.3.5). */
    function Basic(): string {
      year + (month + (day + "T" + hour + (minute + (second + "Z"))))
    }
  }

  ghost predicate Digits(part: string) { forall c :: c in part ==> IsDigit(c) }

  lemma {:induction false} CompactAppend(a: string, b: string)
    ensures Compact(a + b) == Compact(a) + Compact(b)
  {
    if a == "" {
      assert a + b == b;
    } else {
      assert (a + b)[1..] == a[1..] + b;
      CompactAppend(a[1..], b);
    }
  }

  lemma {:induction false} CompactKeeps(text: string)
    requires '-' !in text && ':' !in text
    ensures Compact(text) == text
  {
    if text == "" {
    } else {
      CompactKeeps(text[1..]);
      assert [text[0]] + text[1..] == text;
    }
  }

  lemma {:induction false} WithoutMillisAt(text: string, millis: string, rest: string)
    requires '.' !in text && |millis| == 3 && IsDigit(millis[0]) && IsDigit(millis[1]) && IsDigit(millis[2])
    ensures WithoutMillis(text + ("." + millis + rest)) == text + rest
  {
    var whole := text + ("." + millis + rest);
    if text == "" {
      assert whole == "." + millis + rest;
      assert whole[4..] == rest;
    } else {
      assert whole[1..] == text[1..] + ("." + millis + rest);
      WithoutMillisAt(text[1..], millis, rest);
    }
  }

  lemma MarkDropped(mark: char, rest: string)
    requires mark in "-:"
    ensures Compact([mark] + rest) == Compact(rest)
  {
    assert ([mark] + rest)[1..] == rest;
  }

  lemma PartCompact(part: string, mark: char, rest: string)
    requires '-' !in part && ':' !in part && mark in "-:"
    ensures Compact(part + ([mark] + rest)) == part + Compact(rest)
  {
    hide Compact;
    CompactAppend(part, [mark] + rest);
    CompactKeeps(part);
    MarkDropped(mark, rest);
  }

  /** A stamp is the basic form of the instant, without milliseconds. */
  lemma StampExact(i: Instant)
    requires i.Valid()
    ensures Stamp(i.Extended()) == i.Basic()
  {
    var e := i.second + ("." + i.millis + "Z");
    var d := i.minute + (":" + e);
    var c := i.day + "T" + i.hour + (":" + d);
    var b := i.month + ("-" + c);
    assert i.Extended() == i.year + ("-" + b);
    hide Compact, WithoutMillis, Instant.Extended;
    PartCompact(i.year, '-', b);
    PartCompact(i.month, '-', c);
    PartCompact(i.day + "T" + i.hour, ':', d);
    PartCompact(i.minute, ':', e);
    CompactKeeps(e);
    StampTail(i, e);
  }

  lemma StampTail(i: Instant, e: string)
    requires i.Valid() && e == i.second + ("." + i.millis + "Z")
    ensures WithoutMillis(i.year + (i.month + (i.day + "T" + i.hour + (i.minute + e)))) == i.Basic()
  {
    hide WithoutMillis;
    var front := i.year + (i.month + (i.day + "T" + i.hour + (i.minute + i.second)));
    NoPoint(i);
    WithoutMillisAt(front, i.millis, "Z");
    assert i.year + (i.month + (i.day + "T" + i.hour + (i.minute + e))) == front + ("." + i.millis + "Z");
    assert front + "Z" == i.Basic();
  }

  lemma NoPoint(i: Instant)
    requires i.Valid()
    ensures '.' !in i.year + (i.month + (i.day + "T" + i.hour + (i.minute + i.second)))
  {
  }

  /** A basic instant holds no line feed. */
  lemma BasicPlain(i: Instant)
    requires i.Valid()
    ensures '\n' !in i.Basic()
  {
  }
}
