/** The iCalendar export of a saved schedule, and a reader after RFC 5545 that recovers every
    content line, event property and title from it. */
module CalendarFile {
  import opened Wrappers
  import opened TextLines
  import opened CalendarText
  import opened ExportRows
  import opened Sorting

  datatype Property = Property(name: string, value: string)

  // ----- Writing -----

  const HEADER: seq<string> :=
    ["BEGIN:VCALENDAR", "VERSION:2.0", "PRODID:-//SmartPlanner//Schedule//EN", "CALSCALE:GREGORIAN"]

  function EventLines(id: string, updatedAt: string, row: Row, stamp: string -> string): seq<string> {
    ["BEGIN:VEVENT", "UID:" + id + "-" + row.id + "@smartplanner",
     "DTSTAMP:" + stamp(updatedAt), "DTSTART:" + stamp(row.start),
     "DTEND:" + stamp(row.end), "SUMMARY:" + IcsText(row.title), "END:VEVENT"]
  }

  function AllEventLines(id: string, updatedAt: string, rows: seq<Row>, stamp: string -> string): seq<string> {
    if rows == [] then []
    else EventLines(id, updatedAt, rows[0], stamp) + AllEventLines(id, updatedAt, rows[1..], stamp)
  }

  function CalendarLines(id: string, updatedAt: string, rows: seq<Row>, stamp: string -> string): seq<string> {
    HEADER + AllEventLines(id, updatedAt, rows, stamp) + ["END:VCALENDAR"]
  }

  function FoldedLines(lines: seq<string>): seq<string> {
    if lines == [] then [] else [Joined(Pieces(lines[0]))] + FoldedLines(lines[1..])
  }

  function FileOf(lines: seq<string>): string { Terminated(FoldedLines(lines)) }

  lemma {:induction false} AllEventLinesAppend(id: string, updatedAt: string, rows: seq<Row>, row: Row,
                                               stamp: string -> string)
    ensures AllEventLines(id, updatedAt, rows + [row], stamp)
            == AllEventLines(id, updatedAt, rows, stamp) + EventLines(id, updatedAt, row, stamp)
  {
    hide EventLines;
    if rows == [] {
      assert (rows + [row])[1..] == [];
    } else {
      assert (rows + [row])[1..] == rows[1..] + [row];
      AllEventLinesAppend(id, updatedAt, rows[1..], row, stamp);
    }
  }

  lemma {:induction false} FoldedLinesAppend(lines: seq<string>, line: string)
    ensures FoldedLines(lines + [line]) == FoldedLines(lines) + [Joined(Pieces(line))]
  {
    hide Joined, Pieces;
    if lines == [] {
      assert (lines + [line])[1..] == [];
    } else {
      assert (lines + [line])[1..] == lines[1..] + [line];
      FoldedLinesAppend(lines[1..], line);
    }
  }

  /** Pushes the header, seven lines for each row, and the trailer. */
  method CollectLines(id: string, updatedAt: string, rows: seq<Row>, stamp: string -> string)
      returns (lines: seq<string>)
    ensures lines == CalendarLines(id, updatedAt, rows, stamp)
  {
    hide EventLines;
    ghost var header := HEADER;
    lines := HEADER;
    for k := 0 to |rows|
      invariant lines == header + AllEventLines(id, updatedAt, rows[..k], stamp)
    {
      AllEventLinesAppend(id, updatedAt, rows[..k], rows[k], stamp);
      assert rows[..k + 1] == rows[..k] + [rows[k]];
      lines := lines + EventLines(id, updatedAt, rows[k], stamp);
    }
    assert rows[..|rows|] == rows;
    lines := lines + ["END:VCALENDAR"];
  }

  /** Folds every line of the calendar and joins them, with a final break. */
  method ScheduleIcs(id: string, updatedAt: string, rows: seq<Row>, stamp: string -> string) returns (text: string)
    ensures text == FileOf(CalendarLines(id, updatedAt, rows, stamp))
  {
    hide Joined, Terminated, CalendarLines, Pieces;
    var lines := CollectLines(id, updatedAt, rows, stamp);
    NoLinesLost(id, updatedAt, rows, stamp);
    var folded: seq<string> := [];
    for k := 0 to |lines|
      invariant folded == FoldedLines(lines[..k]) && |folded| == k
    {
      FoldedLinesAppend(lines[..k], lines[k]);
      assert lines[..k + 1] == lines[..k] + [lines[k]];
      var f := FoldIcs(lines[k]);
      folded := folded + [f];
    }
    assert lines[..|lines|] == lines;
    JoinedThenBreak(folded);
    text := Joined(folded) + CRLF;
  }

  lemma NoLinesLost(id: string, updatedAt: string, rows: seq<Row>, stamp: string -> string)
    ensures CalendarLines(id, updatedAt, rows, stamp) != []
  {
    assert |CalendarLines(id, updatedAt, rows, stamp)| >= |HEADER|;
  }

  // ----- Unfolding -----

  predicate Blank(c: char) { c == ' ' || c == '\t' }

  /** Removes every line break that a space or tab follows, together with that character. */
  function Unfold(text: string): string {
    if text == "" then ""
    else if |text| >= 3 && text[0] == '\r' && text[1] == '\n' && Blank(text[2]) then Unfold(text[3..])
    else [text[0]] + Unfold(text[1..])
  }

  lemma UnfoldStep(text: string)
    requires text != "" && !(|text| >= 3 && text[0] == '\r' && text[1] == '\n' && Blank(text[2]))
    ensures Unfold(text) == [text[0]] + Unfold(text[1..])
  {
  }

  lemma {:induction false} UnfoldCopies(text: string, rest: string)
    requires '\n' !in text && (rest != "" ==> rest[0] != '\n')
    ensures Unfold(text + rest) == text + Unfold(rest)
  {
    hide Unfold;
    if text == "" {
      assert text + rest == rest;
    } else {
      assert (text + rest)[1..] == text[1..] + rest;
      assert |text| > 1 ==> text[1] in text;
      UnfoldStep(text + rest);
      UnfoldCopies(text[1..], rest);
      assert [text[0]] + (text[1..] + Unfold(rest)) == text + Unfold(rest);
    }
  }

  lemma UnfoldBreak(rest: string)
    requires rest != "" ==> !Blank(rest[0]) && rest[0] != '\n'
    ensures Unfold(CRLF + rest) == CRLF + Unfold(rest)
  {
    hide Unfold;
    var text, feed := CRLF + rest, "\n" + rest;
    assert text[1..] == feed && feed[1..] == rest;
    UnfoldStep(text);
    UnfoldStep(feed);
    Regroup(['\r'], ['\n'], Unfold(rest));
    assert ['\r'] + ['\n'] == CRLF;
  }

  lemma {:induction false} JoinedLast(pieces: seq<string>)
    requires |pieces| >= 2
    ensures Joined(pieces) == Joined(pieces[..|pieces| - 1]) + CRLF + pieces[|pieces| - 1]
  {
    if |pieces| == 2 {
      assert pieces[..1] == [pieces[0]] && pieces[1..] == [pieces[1]];
    } else {
      JoinedLast(pieces[1..]);
      assert pieces[1..][..|pieces| - 2] == pieces[..|pieces| - 1][1..];
    }
  }

  /** A continuation piece loses its break and its leading space. */
  lemma UnfoldContinuation(piece: string, rest: string)
    requires |piece| >= 2 && piece[0] == ' ' && '\n' !in piece && (rest != "" ==> rest[0] != '\n')
    ensures Unfold(CRLF + piece + rest) == piece[1..] + Unfold(rest)
  {
    var more := CRLF + piece + rest;
    assert more[0] == '\r' && more[1] == '\n' && more[2] == ' ';
    assert more[3..] == piece[1..] + rest;
    assert Unfold(more) == Unfold(piece[1..] + rest);
    hide Unfold;
    UnfoldCopies(piece[1..], rest);
  }

  lemma LastPiece(pieces: seq<string>)
    requires Continued(pieces) && FeedFree(pieces) && |pieces| >= 2
    ensures var init, last := pieces[..|pieces| - 1], pieces[|pieces| - 1];
      && Continued(init) && FeedFree(init) && |last| >= 2 && last[0] == ' ' && '\n' !in last
      && Unfolded(pieces) == Unfolded(init) + last[1..]
  {
    assert pieces[|pieces| - 1] in pieces;
  }

  lemma JoinedBefore(pieces: seq<string>, rest: string)
    requires |pieces| >= 2
    ensures Joined(pieces) + rest == Joined(pieces[..|pieces| - 1]) + (CRLF + pieces[|pieces| - 1] + rest)
  {
    JoinedLast(pieces);
    hide Joined;
    var init, last := Joined(pieces[..|pieces| - 1]), pieces[|pieces| - 1];
    Regroup(init, CRLF, last);
    Regroup(init, CRLF + last, rest);
  }

  lemma {:induction false} UnfoldPieces(pieces: seq<string>, rest: string)
    requires Continued(pieces) && FeedFree(pieces) && (rest != "" ==> rest[0] != '\n')
    ensures Unfold(Joined(pieces) + rest) == Unfolded(pieces) + Unfold(rest)
  {
    if |pieces| == 1 {
      hide Unfold;
      assert pieces[0] in pieces;
      UnfoldCopies(pieces[0], rest);
    } else {
      var init, last := pieces[..|pieces| - 1], pieces[|pieces| - 1];
      LastPiece(pieces);
      JoinedBefore(pieces, rest);
      hide Unfold, Joined, Unfolded, FeedFree, Continued;
      UnfoldPieces(init, CRLF + last + rest);
      UnfoldContinuation(last, rest);
      Regroup(Unfolded(init), last[1..], Unfold(rest));
    }
  }

  lemma {:induction false} PiecesFeedFree(line: string)
    requires '\n' !in line
    ensures FeedFree(Pieces(line))
  {
    if line == "" {
    } else {
      hide Encode;
      var init, c := line[..|line| - 1], line[|line| - 1];
      PiecesFeedFree(init);
      var f := FoldOf(init);
      assert f.current in Pieces(init);
      forall piece | piece in Pieces(line) ensures '\n' !in piece {
        assert piece in Pieces(init) || piece == f.current + [c] || piece == " " + [c];
      }
    }
  }

  /** Lines the reader can tell from continuations. */
  ghost predicate Readable(lines: seq<string>) { forall line :: line in lines ==> ReadableLine(line) }

  ghost predicate ReadableLine(line: string) { '\n' !in line && (line != "" ==> !Blank(line[0])) }

  /** Unfolding a written file gives the content lines, each with its break. */
  lemma {:induction false} UnfoldFile(lines: seq<string>)
    requires Readable(lines)
    ensures Unfold(FileOf(lines)) == Terminated(lines)
    ensures lines != [] ==> FileOf(lines) != "" && !Blank(FileOf(lines)[0]) && FileOf(lines)[0] != '\n'
  {
    if lines == [] {
    } else {
      assert lines[0] in lines;
      FileOfFirst(lines);
      UnfoldFile(lines[1..]);
      EmptyFile();
      hide Unfold, FileOf, Joined, Pieces;
      UnfoldLine(lines[0], FileOf(lines[1..]));
      Regroup(lines[0], CRLF, Terminated(lines[1..]));
    }
  }

  lemma EmptyFile()
    ensures FileOf([]) == ""
  {
  }

  lemma UnfoldLine(line: string, rest: string)
    requires ReadableLine(line) && (rest != "" ==> !Blank(rest[0]) && rest[0] != '\n')
    ensures var text := Joined(Pieces(line)) + (CRLF + rest);
      Unfold(text) == line + (CRLF + Unfold(rest)) && text != "" && !Blank(text[0]) && text[0] != '\n'
  {
    hide Unfold, FoldOf, Pieces, Joined, Unfolded;
    PiecesFeedFree(line);
    PiecesHold(line);
    UnfoldPieces(Pieces(line), CRLF + rest);
    UnfoldBreak(rest);
    FirstOfLine(line);
    if Joined(Pieces(line)) != "" { assert line[0] in line; }
  }

  lemma FileOfFirst(lines: seq<string>)
    requires lines != []
    ensures FileOf(lines) == Joined(Pieces(lines[0])) + (CRLF + FileOf(lines[1..]))
  {
    assert FoldedLines(lines)[1..] == FoldedLines(lines[1..]);
  }

  lemma FirstOfLine(line: string)
    ensures Joined(Pieces(line)) == "" ==> line == ""
    ensures Joined(Pieces(line)) != "" ==> line != "" && Joined(Pieces(line))[0] == line[0]
  {
    if line != "" {
      PiecesStart(line);
    }
  }

  // ----- Reading -----

  /** The content lines of a file whose last line is terminated. */
  function ContentLines(text: string): Option<seq<string>> {
    var lines := Lines(Unfold(text));
    if lines[|lines| - 1] == "" then Some(lines[..|lines| - 1]) else None
  }

  /** Unfolding and splitting a written file returns exactly the lines written. */
  lemma ContentLinesOfFile(lines: seq<string>)
    requires Readable(lines)
    ensures ContentLines(FileOf(lines)) == Some(lines)
  {
    hide FileOf, Unfold, Terminated, Lines;
    UnfoldFile(lines);
    LinesOfTerminated(lines);
  }

  /** Folded lines of a whole file. */
  function AllPieces(lines: seq<string>): seq<string> {
    if lines == [] then [] else Pieces(lines[0]) + AllPieces(lines[1..])
  }

  lemma {:induction false} FileIsPieces(lines: seq<string>)
    ensures FileOf(lines) == Terminated(AllPieces(lines))
  {
    if lines == [] {
    } else {
      FileOfFirst(lines);
      FileIsPieces(lines[1..]);
      JoinedThenBreak(Pieces(lines[0]));
      TerminatedAppend(Pieces(lines[0]), AllPieces(lines[1..]));
      hide FileOf, Terminated, Joined, Pieces;
      assert Joined(Pieces(lines[0])) + (CRLF + FileOf(lines[1..]))
        == (Joined(Pieces(lines[0])) + CRLF) + FileOf(lines[1..]);
    }
  }

  lemma {:induction false} AllPiecesFit(lines: seq<string>)
    ensures forall piece :: piece in AllPieces(lines) ==> |Encode(piece)| <= LIMIT
    ensures (forall line :: line in lines ==> '\n' !in line) ==> FeedFree(AllPieces(lines))
  {
    if lines == [] {
    } else {
      PiecesFit(lines[0]);
      AllPiecesFit(lines[1..]);
      if forall line :: line in lines ==> '\n' !in line {
        assert lines[0] in lines;
        PiecesFeedFree(lines[0]);
        forall line | line in lines[1..] ensures '\n' !in line { assert line in lines; }
      }
    }
  }

  lemma {:induction false} EncodeAllFits(lines: seq<string>)
    requires forall line :: line in lines ==> |Encode(line)| <= LIMIT
    ensures forall octets :: octets in EncodeAll(lines) ==> |octets| <= LIMIT
  {
    if lines == [] {
    } else {
      assert lines[0] in lines;
      EncodeAllFits(lines[1..]);
    }
  }

  /** Each physical line of the octet stream is the encoding of whole characters and is at most
      75 octets long. */
  lemma PhysicalLines(lines: seq<string>)
    requires Readable(lines)
    ensures Split(Encode(FileOf(lines)), 13, 10) == EncodeAll(AllPieces(lines) + [""])
    ensures forall octets :: octets in Split(Encode(FileOf(lines)), 13, 10) ==> |octets| <= 75
  {
    hide FileOf, Split, AllPieces, Terminated;
    FileIsPieces(lines);
    AllPiecesFit(lines);
    LinesOfTerminated(AllPieces(lines));
    OctetLines(FileOf(lines));
    EncodeAllFits(AllPieces(lines) + [""]);
  }

  // ----- Events -----

  /** Name and value on either side of the first colon. */
  function PropertyOf(line: string): Property {
    if line == "" then Property("", "")
    else if line[0] == ':' then Property("", line[1..])
    else var rest := PropertyOf(line[1..]); Property([line[0]] + rest.name, rest.value)
  }

  lemma {:induction false} PropertySplit(name: string, value: string)
    requires ':' !in name
    ensures PropertyOf(name + ":" + value) == Property(name, value)
  {
    var line := name + ":" + value;
    if name == "" {
      assert line[1..] == value;
    } else {
      assert line[1..] == name[1..] + ":" + value;
      PropertySplit(name[1..], value);
    }
  }

  function Properties(lines: seq<string>): seq<Property> {
    if lines == [] then [] else [PropertyOf(lines[0])] + Properties(lines[1..])
  }

  /** Lines up to the end of the event. */
  function Body(lines: seq<string>): (body: seq<string>)
    ensures |body| <= |lines|
  {
    if lines == [] || lines[0] == "END:VEVENT" then [] else [lines[0]] + Body(lines[1..])
  }

  function Events(lines: seq<string>): seq<seq<Property>> {
    if lines == [] then []
    else if lines[0] != "BEGIN:VEVENT" then Events(lines[1..])
    else
      var body := Body(lines[1..]);
      [Properties(body)] + Events(lines[1..][|body|..])
  }

  function EventOf(id: string, updatedAt: string, row: Row, stamp: string -> string): seq<Property> {
    [Property("UID", id + "-" + row.id + "@smartplanner"), Property("DTSTAMP", stamp(updatedAt)),
     Property("DTSTART", stamp(row.start)), Property("DTEND", stamp(row.end)), Property("SUMMARY", IcsText(row.title))]
  }

  function EventsOf(id: string, updatedAt: string, rows: seq<Row>, stamp: string -> string): seq<seq<Property>> {
    if rows == [] then [] else [EventOf(id, updatedAt, rows[0], stamp)] + EventsOf(id, updatedAt, rows[1..], stamp)
  }

  /** Five lines that are not the end of the event, then that end. */
  lemma BodyOfFive(a: string, b: string, c: string, d: string, e: string, rest: seq<string>)
    requires "END:VEVENT" !in [a, b, c, d, e]
    ensures Body([a, b, c, d, e, "END:VEVENT"] + rest) == [a, b, c, d, e]
  {
    var end := ["END:VEVENT"] + rest;
    assert Body(end) == [];
    BodyStep(e, end);
    BodyStep(d, [e] + end);
    BodyStep(c, [d] + ([e] + end));
    BodyStep(b, [c] + ([d] + ([e] + end)));
    BodyStep(a, [b] + ([c] + ([d] + ([e] + end))));
    assert [a, b, c, d, e, "END:VEVENT"] + rest == [a] + ([b] + ([c] + ([d] + ([e] + end))));
  }

  lemma BodyStep(line: string, rest: seq<string>)
    requires line != "END:VEVENT"
    ensures Body([line] + rest) == [line] + Body(rest)
  {
    assert ([line] + rest)[1..] == rest;
  }

  lemma PropertiesOfFive(a: string, b: string, c: string, d: string, e: string)
    ensures Properties([a, b, c, d, e]) == [PropertyOf(a), PropertyOf(b), PropertyOf(c), PropertyOf(d), PropertyOf(e)]
  {
    hide PropertyOf;
    assert Properties([]) == [];
    hide Properties;
    PropertiesStep(e, []);
    PropertiesStep(d, [e]);
    PropertiesStep(c, [d] + [e]);
    PropertiesStep(b, [c] + ([d] + [e]));
    PropertiesStep(a, [b] + ([c] + ([d] + [e])));
    assert [e] + [] == [e];
    assert [a, b, c, d, e] == [a] + ([b] + ([c] + ([d] + [e])));
  }

  lemma PropertiesStep(line: string, rest: seq<string>)
    ensures Properties([line] + rest) == [PropertyOf(line)] + Properties(rest)
  {
    assert ([line] + rest)[1..] == rest;
  }

  lemma LineIs(prefix: string, name: string, value: string)
    requires prefix == name + ":" && ':' !in name && prefix != "" && prefix[0] != 'E'
    ensures PropertyOf(prefix + value) == Property(name, value) && prefix + value != "END:VEVENT"
  {
    PropertySplit(name, value);
    assert (prefix + value)[0] == prefix[0];
  }

  lemma EventRead(id: string, updatedAt: string, row: Row, stamp: string -> string, rest: seq<string>)
    ensures Events(EventLines(id, updatedAt, row, stamp) + rest)
            == [EventOf(id, updatedAt, row, stamp)] + Events(["END:VEVENT"] + rest)
  {
    hide PropertyOf, IcsText, Properties, Body;
    var uid := id + "-" + row.id + "@smartplanner";
    LineIs("UID:", "UID", uid);
    LineIs("DTSTAMP:", "DTSTAMP", stamp(updatedAt));
    LineIs("DTSTART:", "DTSTART", stamp(row.start));
    LineIs("DTEND:", "DTEND", stamp(row.end));
    LineIs("SUMMARY:", "SUMMARY", IcsText(row.title));
    var a, b, c, d, e := "UID:" + uid, "DTSTAMP:" + stamp(updatedAt), "DTSTART:" + stamp(row.start),
        "DTEND:" + stamp(row.end), "SUMMARY:" + IcsText(row.title);
    BodyOfFive(a, b, c, d, e, rest);
    PropertiesOfFive(a, b, c, d, e);
    var lines := EventLines(id, updatedAt, row, stamp) + rest;
    assert "UID:" + id + "-" + row.id + "@smartplanner" == a;
    assert lines[1..] == [a, b, c, d, e, "END:VEVENT"] + rest;
    assert lines[1..][5..] == ["END:VEVENT"] + rest;
  }

  lemma EventsSkip(line: string, rest: seq<string>)
    requires line != "BEGIN:VEVENT"
    ensures Events([line] + rest) == Events(rest)
  {
    assert ([line] + rest)[1..] == rest;
  }

  lemma {:induction false} AllEventsRead(id: string, updatedAt: string, rows: seq<Row>, stamp: string -> string)
    ensures Events(AllEventLines(id, updatedAt, rows, stamp) + ["END:VCALENDAR"])
            == EventsOf(id, updatedAt, rows, stamp)
  {
    if rows == [] {
      EventsSkip("END:VCALENDAR", []);
      assert AllEventLines(id, updatedAt, rows, stamp) + ["END:VCALENDAR"] == ["END:VCALENDAR"] + [];
    } else {
      hide EventLines, EventOf, Events;
      var rest := AllEventLines(id, updatedAt, rows[1..], stamp) + ["END:VCALENDAR"];
      AllEventsRead(id, updatedAt, rows[1..], stamp);
      EventRead(id, updatedAt, rows[0], stamp, rest);
      EventsSkip("END:VEVENT", rest);
      assert AllEventLines(id, updatedAt, rows, stamp) + ["END:VCALENDAR"]
        == EventLines(id, updatedAt, rows[0], stamp) + rest;
    }
  }

  /** Identifiers and time stamps hold no line feed. */
  ghost predicate Plain(id: string, updatedAt: string, rows: seq<Row>, stamp: string -> string) {
    && '\n' !in id && '\n' !in stamp(updatedAt)
    && forall row :: row in rows ==> '\n' !in row.id && '\n' !in stamp(row.start) && '\n' !in stamp(row.end)
  }

  lemma Prefixed(prefix: string, value: string)
    requires '\n' !in value && ReadableLine(prefix) && prefix != ""
    ensures ReadableLine(prefix + value)
  {
  }

  lemma FixedReadable(id: string, rowId: string)
    requires '\n' !in id && '\n' !in rowId
    ensures ReadableLine("UID:" + id + "-" + rowId + "@smartplanner")
    ensures ReadableLine("BEGIN:VEVENT") && ReadableLine("END:VEVENT")
    ensures ReadableLine("DTSTAMP:") && ReadableLine("DTSTART:") && ReadableLine("DTEND:") && ReadableLine("SUMMARY:")
  {
  }

  lemma EventReadable(id: string, updatedAt: string, row: Row, stamp: string -> string)
    requires Plain(id, updatedAt, [row], stamp)
    ensures Readable(EventLines(id, updatedAt, row, stamp))
  {
    assert row in [row];
    EscapedFeedFree(row.title);
    hide IcsText, ReadableLine, Readable;
    var uid := "UID:" + id + "-" + row.id + "@smartplanner";
    FixedReadable(id, row.id);
    Prefixed("DTSTAMP:", stamp(updatedAt));
    Prefixed("DTSTART:", stamp(row.start));
    Prefixed("DTEND:", stamp(row.end));
    Prefixed("SUMMARY:", IcsText(row.title));
    SevenReadable("BEGIN:VEVENT", uid, "DTSTAMP:" + stamp(updatedAt), "DTSTART:" + stamp(row.start),
                  "DTEND:" + stamp(row.end), "SUMMARY:" + IcsText(row.title), "END:VEVENT");
  }

  lemma SevenReadable(a: string, b: string, c: string, d: string, e: string, f: string, g: string)
    requires ReadableLine(a) && ReadableLine(b) && ReadableLine(c) && ReadableLine(d) && ReadableLine(e)
    requires ReadableLine(f) && ReadableLine(g)
    ensures Readable([a, b, c, d, e, f, g])
  {
    forall line | line in [a, b, c, d, e, f, g] ensures ReadableLine(line) { }
  }

  lemma {:induction false} AllReadable(id: string, updatedAt: string, rows: seq<Row>, stamp: string -> string)
    requires Plain(id, updatedAt, rows, stamp)
    ensures Readable(AllEventLines(id, updatedAt, rows, stamp))
  {
    if rows == [] {
    } else {
      hide EventLines;
      assert rows[0] in rows;
      forall row | row in rows[1..] ensures row in rows { }
      EventReadable(id, updatedAt, rows[0], stamp);
      AllReadable(id, updatedAt, rows[1..], stamp);
    }
  }

  /** Reading a written calendar recovers one event for each row, with all of its properties. */
  lemma CalendarRoundTrip(id: string, updatedAt: string, rows: seq<Row>, stamp: string -> string)
    requires Plain(id, updatedAt, rows, stamp)
    ensures var lines := CalendarLines(id, updatedAt, rows, stamp);
      ContentLines(FileOf(lines)) == Some(lines) && Events(lines) == EventsOf(id, updatedAt, rows, stamp)
  {
    hide AllEventLines, Events, FileOf, ContentLines, EventsOf;
    var events := AllEventLines(id, updatedAt, rows, stamp);
    var lines := CalendarLines(id, updatedAt, rows, stamp);
    AllReadable(id, updatedAt, rows, stamp);
    HeaderReadable();
    forall line | line in lines ensures ReadableLine(line) {
      assert line in HEADER || line in events || line == "END:VCALENDAR";
    }
    ContentLinesOfFile(lines);
    AllEventsRead(id, updatedAt, rows, stamp);
    HeaderSkipped(events + ["END:VCALENDAR"]);
    assert lines == HEADER + (events + ["END:VCALENDAR"]);
  }

  lemma HeaderReadable()
    ensures Readable(HEADER)
  {
  }

  lemma HeaderSkipped(rest: seq<string>)
    ensures Events(HEADER + rest) == Events(rest)
  {
    hide Events;
    EventsSkip(HEADER[3], rest);
    EventsSkip(HEADER[2], [HEADER[3]] + rest);
    EventsSkip(HEADER[1], [HEADER[2]] + ([HEADER[3]] + rest));
    EventsSkip(HEADER[0], [HEADER[1]] + ([HEADER[2]] + ([HEADER[3]] + rest)));
    assert HEADER + rest == [HEADER[0]] + ([HEADER[1]] + ([HEADER[2]] + ([HEADER[3]] + rest)));
  }

  /** Every title is recovered from the file, whatever it contains. */
  lemma {:induction false} TitlesRecovered(id: string, updatedAt: string, rows: seq<Row>, stamp: string -> string,
                                           k: nat)
    requires k < |rows|
    ensures |EventsOf(id, updatedAt, rows, stamp)| == |rows| && |EventsOf(id, updatedAt, rows, stamp)[k]| == 5
    ensures var summary := EventsOf(id, updatedAt, rows, stamp)[k][4];
      summary.name == "SUMMARY" && Unescaped(summary.value) == Some(rows[k].title)
  {
    hide IcsText, Unescaped;
    EventsOfLength(id, updatedAt, rows, stamp);
    if k == 0 { UnescapedIcsText(rows[0].title); } else { TitlesRecovered(id, updatedAt, rows[1..], stamp, k - 1); }
  }

  lemma {:induction false} EventsOfLength(id: string, updatedAt: string, rows: seq<Row>, stamp: string -> string)
    ensures |EventsOf(id, updatedAt, rows, stamp)| == |rows|
    ensures forall k :: 0 <= k < |rows| ==> |EventsOf(id, updatedAt, rows, stamp)[k]| == 5
  {
    if rows == [] {
    } else {
      EventsOfLength(id, updatedAt, rows[1..], stamp);
    }
  }

  // ----- The export of a saved schedule -----

  /** `iso` is the browser's conversion of an instant's text to the extended format in UTC. */
  function UtcStamp(iso: string -> string): string -> string {
    (value: string) => Stamp(iso(value))
  }

  /** Sorts the rows by start and writes them. */
  method ExportCalendar(s: Saved, iso: string -> string, leq: (string, string) -> bool) returns (text: string)
    ensures text == FileOf(CalendarLines(s.id, s.updatedAt, ScheduleRows(s, leq), UtcStamp(iso)))
  {
    text := ScheduleIcs(s.id, s.updatedAt, ScheduleRows(s, leq), UtcStamp(iso));
  }

  /** Instants convert to the extended format; identifiers are single-line. */
  ghost predicate Exportable(s: Saved, iso: string -> string) {
    && '\n' !in s.id && IsInstant(iso(s.updatedAt))
    && (forall e :: e in s.events ==> IsInstant(iso(e.start)) && IsInstant(iso(e.end)))
    && (forall b :: b in s.blocks ==> '\n' !in b.task && IsInstant(iso(b.start)) && IsInstant(iso(b.end)))
  }

  ghost predicate IsInstant(text: string) { exists i: Instant :: i.Valid() && text == i.Extended() }

  lemma StampPlain(iso: string -> string, value: string)
    requires IsInstant(iso(value))
    ensures '\n' !in UtcStamp(iso)(value)
  {
    hide Stamp, Instant.Extended, Instant.Basic;
    var i: Instant :| i.Valid() && iso(value) == i.Extended();
    StampExact(i);
    BasicPlain(i);
  }

  ghost predicate RowPlain(row: Row, stamp: string -> string) {
    '\n' !in row.id && '\n' !in stamp(row.start) && '\n' !in stamp(row.end)
  }

  lemma EventRowsPlain(s: Saved, iso: string -> string, k: nat)
    requires Exportable(s, iso) && k < |s.events|
    ensures RowPlain(EventRows(s)[k], UtcStamp(iso))
  {
    hide Decimal, UtcStamp, IsInstant;
    assert s.events[k] in s.events;
    DecimalDigits(k);
    StampPlain(iso, s.events[k].start);
    StampPlain(iso, s.events[k].end);
  }

  lemma BlockRowsPlain(s: Saved, iso: string -> string, k: nat)
    requires Exportable(s, iso) && k < |s.blocks|
    ensures RowPlain(BlockRows(s)[k], UtcStamp(iso))
  {
    hide Decimal, UtcStamp, IsInstant;
    assert s.blocks[k] in s.blocks;
    DecimalDigits(k);
    StampPlain(iso, s.blocks[k].start);
    StampPlain(iso, s.blocks[k].end);
  }

  lemma ExportPlain(s: Saved, iso: string -> string, leq: (string, string) -> bool)
    requires Exportable(s, iso)
    ensures Plain(s.id, s.updatedAt, ScheduleRows(s, leq), UtcStamp(iso))
  {
    hide EventRows, BlockRows, UtcStamp, IsInstant, Sort;
    StampPlain(iso, s.updatedAt);
    var rows := EventRows(s) + BlockRows(s);
    SameMembers(ScheduleRows(s, leq), rows);
    RowCounts(s);
    forall row | row in rows ensures RowPlain(row, UtcStamp(iso)) {
      var k :| 0 <= k < |rows| && rows[k] == row;
      if k < |s.events| { EventRowsPlain(s, iso, k); } else { BlockRowsPlain(s, iso, k - |s.events|); }
    }
    forall row | row in ScheduleRows(s, leq) ensures RowPlain(row, UtcStamp(iso)) { }
  }

  lemma RowCounts(s: Saved)
    ensures |EventRows(s)| == |s.events| && |BlockRows(s)| == |s.blocks|
  {
  }

  lemma {:induction false} UidAt(id: string, updatedAt: string, rows: seq<Row>, stamp: string -> string, k: nat)
    requires k < |rows|
    ensures |EventsOf(id, updatedAt, rows, stamp)| == |rows| && |EventsOf(id, updatedAt, rows, stamp)[k]| == 5
    ensures EventsOf(id, updatedAt, rows, stamp)[k][0] == Property("UID", id + "-" + rows[k].id + "@smartplanner")
  {
    hide IcsText;
    EventsOfLength(id, updatedAt, rows, stamp);
    if k == 0 {
    } else {
      UidAt(id, updatedAt, rows[1..], stamp, k - 1);
    }
  }

  lemma UidInjective(id: string, a: string, b: string)
    requires id + "-" + a + "@smartplanner" == id + "-" + b + "@smartplanner"
    ensures a == b
  {
    var x, y := id + "-" + a + "@smartplanner", id + "-" + b + "@smartplanner";
    assert |a| == |b|;
    assert x[|id| + 1..][..|a|] == a && y[|id| + 1..][..|b|] == b;
  }

  /** The exported calendar of any schedule reads back: one event for each fixed event and block, with
      its stamps in basic format, every title recovered, and no two events with one UID. */
  lemma ExportRoundTrip(s: Saved, iso: string -> string, leq: (string, string) -> bool)
    requires Exportable(s, iso) && TotalOrder(leq)
    ensures var rows := ScheduleRows(s, leq);
      var lines := CalendarLines(s.id, s.updatedAt, rows, UtcStamp(iso));
      var events := EventsOf(s.id, s.updatedAt, rows, UtcStamp(iso));
      && ContentLines(FileOf(lines)) == Some(lines) && Events(lines) == events
      && |events| == |s.events| + |s.blocks|
      && (forall k :: 0 <= k < |events| ==> |events[k]| == 5 && Unescaped(events[k][4].value) == Some(rows[k].title))
      && (forall i, j :: 0 <= i < j < |events| ==> events[i][0].value != events[j][0].value)
  {
    hide FileOf, ContentLines, CalendarLines, Events, EventsOf, UtcStamp, Exportable, Sort, EventRows, BlockRows,
         IcsText, Unescaped, Plain;
    var rows, stamp := ScheduleRows(s, leq), UtcStamp(iso);
    ExportPlain(s, iso, leq);
    CalendarRoundTrip(s.id, s.updatedAt, rows, stamp);
    RowsExact(s, leq);
    RowCounts(s);
    EventsOfLength(s.id, s.updatedAt, rows, stamp);
    forall k | 0 <= k < |rows|
      ensures Unescaped(EventsOf(s.id, s.updatedAt, rows, stamp)[k][4].value) == Some(rows[k].title)
    {
      TitlesRecovered(s.id, s.updatedAt, rows, stamp, k);
    }
    forall i, j | 0 <= i < j < |rows|
      ensures EventsOf(s.id, s.updatedAt, rows, stamp)[i][0].value
              != EventsOf(s.id, s.updatedAt, rows, stamp)[j][0].value
    {
      UidAt(s.id, s.updatedAt, rows, stamp, i);
      UidAt(s.id, s.updatedAt, rows, stamp, j);
      if EventsOf(s.id, s.updatedAt, rows, stamp)[i][0].value == EventsOf(s.id, s.updatedAt, rows, stamp)[j][0].value {
        UidInjective(s.id, rows[i].id, rows[j].id);
      }
    }
  }
}
