/** The CSV export, its formula guard, and a reader after section 2 of RFC 4180. */
module CsvFile {
  import opened Wrappers
  import opened TextLines
  import opened ExportRows
  import opened Sorting

  const BOM: char := '\U{FEFF}'

  // ----- Writing -----

  /** The characters of the regular expression class for white space. */
  predicate White(c: char) {
    var n := c as int;
    || 0x09 <= n <= 0x0D || n == 0x20 || n == 0xA0 || n == 0x1680 || 0x2000 <= n <= 0x200A
    || n == 0x2028 || n == 0x2029 || n == 0x202F || n == 0x205F || n == 0x3000 || n == 0xFEFF
  }

  /** White space, then a character that starts a formula. */
  predicate Formula(text: string) {
    text != "" && (text[0] in "=+@-" || (White(text[0]) && Formula(text[1..])))
  }

  function Guarded(text: string): string {
    if Formula(text) then "'" + text else text
  }

  /** Every quote doubled. */
  function Doubled(text: string): string {
    if text == "" then "" else (if text[0] == '"' then "\"\"" else [text[0]]) + Doubled(text[1..])
  }

  function CsvCell(text: string): string { "\"" + Doubled(Guarded(text)) + "\"" }

  function CsvLine(cells: seq<string>): string {
    if cells == [] then ""
    else if |cells| == 1 then CsvCell(cells[0])
    else CsvCell(cells[0]) + "," + CsvLine(cells[1..])
  }

  /** The records, one on each line. */
  function CsvLines(records: seq<seq<string>>): string {
    if records == [] then "" else CsvLine(records[0]) + CRLF + CsvLines(records[1..])
  }

  const TITLES: seq<string> := ["type", "title", "start_utc", "end_utc"]

  function RecordOf(row: Row): seq<string> { [row.kind, row.title, row.start, row.end] }

  function RecordsOf(rows: seq<Row>): (records: seq<seq<string>>)
    ensures forall cells :: cells in records ==> |cells| == 4
  {
    if rows == [] then [] else [RecordOf(rows[0])] + RecordsOf(rows[1..])
  }

  /** The byte-order mark, the header and one record for each row. */
  function ScheduleCsv(rows: seq<Row>): string {
    [BOM] + CsvLines([TITLES] + RecordsOf(rows))
  }

  // ----- Guard -----

  /** `text` starts a formula exactly when its first character after white space does. */
  lemma {:induction false} FormulaExact(text: string)
    ensures Formula(text) <==>
      exists k :: 0 <= k < |text| && text[k] in "=+@-" && forall j :: 0 <= j < k ==> White(text[j])
  {
    if text == "" || !White(text[0]) || text[0] in "=+@-" {
    } else {
      FormulaExact(text[1..]);
      if Formula(text[1..]) {
        var k :| 0 <= k < |text[1..]| && text[1..][k] in "=+@-" && forall j :: 0 <= j < k ==> White(text[1..][j]);
        assert text[k + 1] in "=+@-" && forall j :: 0 <= j < k + 1 ==> White(text[j]) by {
          forall j | 0 <= j < k + 1 ensures White(text[j]) {
            if j > 0 { assert White(text[1..][j - 1]); }
          }
        }
      }
      if k :| 0 <= k < |text| && text[k] in "=+@-" && forall j :: 0 <= j < k ==> White(text[j]) {
        assert k > 0 && text[1..][k - 1] in "=+@-";
        forall j | 0 <= j < k - 1 ensures White(text[1..][j]) { assert White(text[j + 1]); }
      }
    }
  }

  /** No guarded text starts a formula. */
  lemma GuardedIsSafe(text: string)
    ensures !Formula(Guarded(text))
  {
  }

  /** Two texts share a guarded form exactly when they are equal, or one starts a formula and the
      other is that text already written with an apostrophe. */
  lemma GuardCollides(a: string, b: string)
    ensures Guarded(a) == Guarded(b) <==> a == b || (Formula(a) && b == "'" + a) || (Formula(b) && a == "'" + b)
  {
    if Formula(a) && Formula(b) && Guarded(a) == Guarded(b) {
      assert ("'" + a)[1..] == a && ("'" + b)[1..] == b;
    }
  }

  /** A formula and the same text already written with an apostrophe become one cell. */
  lemma GuardCollision()
    ensures "=x" != "'=x" && CsvCell("=x") == CsvCell("'=x")
  {
    assert Formula("=x") && !Formula("'=x") && "'" + "=x" == "'=x";
    GuardCollides("=x", "'=x");
  }

  // ----- Reading -----

  /** Outcome of reading a piece: what was read and the text after it. */
  datatype Read<T> = Read(value: T, rest: string)

  /** The inside of a quoted field up to its closing quote. */
  function ReadQuoted(text: string): (r: Option<Read<string>>)
    ensures r.Some? ==> |r.value.rest| < |text|
  {
    if text == "" then None
    else if text[0] == '"' then
      if |text| >= 2 && text[1] == '"' then
        match ReadQuoted(text[2..])
        case None => None
        case Some(more) => Some(Read(['"'] + more.value, more.rest))
      else Some(Read("", text[1..]))
    else
      match ReadQuoted(text[1..])
      case None => None
      case Some(more) => Some(Read([text[0]] + more.value, more.rest))
  }

  predicate TextData(c: char) {
    0x20 <= c as int <= 0x7E && c != '"' && c != ','
  }

  /** An unquoted field: printable characters other than the quote and the comma. */
  function ReadPlain(text: string): (r: Read<string>)
    ensures |r.rest| <= |text|
  {
    if text == "" || !TextData(text[0]) then Read("", text)
    else var more := ReadPlain(text[1..]); Read([text[0]] + more.value, more.rest)
  }

  function ReadField(text: string): (r: Option<Read<string>>)
    ensures r.Some? ==> |r.value.rest| <= |text|
  {
    if text != "" && text[0] == '"' then ReadQuoted(text[1..]) else Some(ReadPlain(text))
  }

  /** Fields separated by commas. */
  function ReadRecord(text: string): (r: Option<Read<seq<string>>>)
    ensures r.Some? ==> |r.value.rest| <= |text|
    decreases |text|
  {
    match ReadField(text)
    case None => None
    case Some(field) =>
      if field.rest == "" || field.rest[0] != ',' then Some(Read([field.value], field.rest))
      else
        match ReadRecord(field.rest[1..])
        case None => None
        case Some(more) => Some(Read([field.value] + more.value, more.rest))
  }

  /** Records separated by line breaks; the last may or may not end with one. */
  function ReadFile(text: string): Option<seq<seq<string>>>
    decreases |text|
  {
    match ReadRecord(text)
    case None => None
    case Some(record) =>
      if record.rest == "" || record.rest == CRLF then Some([record.value])
      else if !(CRLF <= record.rest) then None
      else
        match ReadFile(record.rest[2..])
        case None => None
        case Some(more) => Some([record.value] + more)
  }

  // ----- Round trip -----

  lemma {:induction false} QuotedBack(text: string, rest: string)
    requires rest != "" ==> rest[0] != '"'
    ensures ReadQuoted(Doubled(text) + "\"" + rest) == Some(Read(text, rest))
  {
    var written := Doubled(text) + "\"" + rest;
    if text == "" {
      assert written[1..] == rest;
    } else {
      var tail := Doubled(text[1..]) + "\"" + rest;
      QuotedBack(text[1..], rest);
      assert [text[0]] + text[1..] == text;
      if text[0] == '"' {
        assert written[2..] == tail;
      } else {
        assert written[1..] == tail;
      }
    }
  }

  /** A written cell reads back as its guarded text, whatever the text contains. */
  lemma CellBack(text: string, rest: string)
    requires rest != "" ==> rest[0] != '"'
    ensures ReadField(CsvCell(text) + rest) == Some(Read(Guarded(text), rest))
  {
    hide Guarded, Doubled, ReadQuoted;
    var written := CsvCell(text) + rest;
    assert written[1..] == Doubled(Guarded(text)) + "\"" + rest;
    QuotedBack(Guarded(text), rest);
  }

  function GuardedAll(cells: seq<string>): seq<string> {
    if cells == [] then [] else [Guarded(cells[0])] + GuardedAll(cells[1..])
  }

  /** A field and what follows it decide how a record goes on. */
  lemma RecordStep(text: string, field: Read<string>)
    requires ReadField(text) == Some(field)
    ensures field.rest == "" || field.rest[0] != ',' ==> ReadRecord(text) == Some(Read([field.value], field.rest))
    ensures field.rest != "" && field.rest[0] == ',' && ReadRecord(field.rest[1..]).Some? ==>
      var more := ReadRecord(field.rest[1..]).value;
      ReadRecord(text) == Some(Read([field.value] + more.value, more.rest))
  {
    hide ReadField;
  }

  lemma LineFirst(cells: seq<string>, rest: string)
    requires |cells| >= 2
    ensures CsvLine(cells) + rest == CsvCell(cells[0]) + ("," + (CsvLine(cells[1..]) + rest))
    ensures GuardedAll(cells) == [Guarded(cells[0])] + GuardedAll(cells[1..])
  {
    hide CsvCell, Guarded;
    var first, tail := CsvCell(cells[0]), CsvLine(cells[1..]);
    assert CsvLine(cells) == first + "," + tail;
    hide CsvLine;
    Regroup(first + ",", tail, rest);
    Regroup(first, ",", tail + rest);
  }

  lemma OneCell(cells: seq<string>)
    requires |cells| == 1
    ensures CsvLine(cells) == CsvCell(cells[0]) && GuardedAll(cells) == [Guarded(cells[0])]
  {
    hide CsvCell, Guarded;
    assert cells[1..] == [];
  }

  lemma {:induction false} LineBack(cells: seq<string>, rest: string)
    requires cells != [] && CRLF <= rest
    ensures ReadRecord(CsvLine(cells) + rest) == Some(Read(GuardedAll(cells), rest))
  {
    hide CsvCell, CsvLine, ReadField, ReadRecord, Guarded, GuardedAll;
    if |cells| == 1 {
      OneCell(cells);
      CellBack(cells[0], rest);
      assert rest[0] == CRLF[0];
      RecordStep(CsvLine(cells) + rest, Read(Guarded(cells[0]), rest));
    } else {
      var tail := CsvLine(cells[1..]) + rest;
      LineFirst(cells, rest);
      CellBack(cells[0], "," + tail);
      LineBack(cells[1..], rest);
      assert ("," + tail)[1..] == tail;
      RecordStep(CsvLine(cells) + rest, Read(Guarded(cells[0]), "," + tail));
    }
  }

  function GuardedRecords(records: seq<seq<string>>): seq<seq<string>> {
    if records == [] then [] else [GuardedAll(records[0])] + GuardedRecords(records[1..])
  }

  lemma {:induction false} LinesBack(records: seq<seq<string>>)
    requires records != [] && forall cells :: cells in records ==> cells != []
    ensures ReadFile(CsvLines(records)) == Some(GuardedRecords(records))
  {
    hide CsvLine, ReadRecord, GuardedAll;
    assert records[0] in records;
    var more := CRLF + CsvLines(records[1..]);
    assert CsvLines(records) == CsvLine(records[0]) + more;
    LineBack(records[0], more);
    assert more[2..] == CsvLines(records[1..]);
    if |records| == 1 {
      assert more == CRLF;
      assert GuardedRecords(records) == [GuardedAll(records[0])] + GuardedRecords(records[1..])
        == [GuardedAll(records[0])];
    } else {
      CsvLinesLong(records[1..]);
      forall cells | cells in records[1..] ensures cells != [] { assert cells in records; }
      LinesBack(records[1..]);
    }
  }

  lemma CsvLinesLong(records: seq<seq<string>>)
    requires records != []
    ensures CsvLines(records) != ""
  {
    hide CsvLine;
  }

  /** The whole file after its byte-order mark reads back as the header and one four-field record
      for each row, holding the guarded texts. */
  lemma CsvRoundTrip(rows: seq<Row>)
    ensures var text := ScheduleCsv(rows);
      text[0] == BOM && ReadFile(text[1..]) == Some([TITLES] + GuardedRecords(RecordsOf(rows)))
  {
    var records := [TITLES] + RecordsOf(rows);
    assert records[1..] == RecordsOf(rows);
    assert ScheduleCsv(rows)[1..] == CsvLines(records);
    LinesBack(records);
    TitlesUnguarded();
  }

  lemma TitlesUnguarded()
    ensures GuardedAll(TITLES) == TITLES
  {
    assert !Formula("type") && !Formula("title") && !Formula("start_utc") && !Formula("end_utc");
    hide Formula, GuardedAll;
    GuardedFour("type", "title", "start_utc", "end_utc");
  }

  lemma GuardedFour(a: string, b: string, c: string, d: string)
    ensures GuardedAll([a, b, c, d]) == [Guarded(a), Guarded(b), Guarded(c), Guarded(d)]
  {
    hide Guarded;
    assert [a, b, c, d][1..] == [b, c, d] && [b, c, d][1..] == [c, d] && [c, d][1..] == [d] && [d][1..] == [];
    assert GuardedAll([d]) == [Guarded(d)];
    assert GuardedAll([c, d]) == [Guarded(c), Guarded(d)];
    assert GuardedAll([b, c, d]) == [Guarded(b), Guarded(c), Guarded(d)];
  }

  lemma {:induction false} RecordsLength(rows: seq<Row>)
    ensures |GuardedRecords(RecordsOf(rows))| == |rows|
  {
    if rows == [] {
    } else {
      RecordsLength(rows[1..]);
      RecordsStep(rows);
    }
  }

  lemma {:induction false} RecordsAt(rows: seq<Row>, k: nat)
    requires k < |rows|
    ensures |GuardedRecords(RecordsOf(rows))| == |rows|
    ensures GuardedRecords(RecordsOf(rows))[k] == GuardedAll(RecordOf(rows[k]))
  {
    hide *;
    RecordsLength(rows);
    RecordsStep(rows);
    if k == 0 {
    } else {
      RecordsAt(rows[1..], k - 1);
    }
  }

  lemma RecordsStep(rows: seq<Row>)
    requires rows != []
    ensures GuardedRecords(RecordsOf(rows)) == [GuardedAll(RecordOf(rows[0]))] + GuardedRecords(RecordsOf(rows[1..]))
  {
    hide GuardedAll, RecordOf;
    assert RecordsOf(rows)[1..] == RecordsOf(rows[1..]);
  }

  /** Every record read back has four cells, the guarded texts of its row, and none of them starts
      a formula. */
  lemma RecordsSafe(rows: seq<Row>, k: nat)
    requires k < |rows|
    ensures |GuardedRecords(RecordsOf(rows))| == |rows|
    ensures var cells := GuardedRecords(RecordsOf(rows))[k];
      && cells == [Guarded(rows[k].kind), Guarded(rows[k].title), Guarded(rows[k].start), Guarded(rows[k].end)]
      && forall cell :: cell in cells ==> !Formula(cell)
  {
    hide Formula, Guarded, GuardedAll, GuardedRecords, RecordsOf;
    RecordsAt(rows, k);
    var row := rows[k];
    GuardedFour(row.kind, row.title, row.start, row.end);
    GuardedIsSafe(row.kind);
    GuardedIsSafe(row.title);
    GuardedIsSafe(row.start);
    GuardedIsSafe(row.end);
  }
}
