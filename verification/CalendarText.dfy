/** Escaping and folding of iCalendar text, and the reader that undoes both (RFC 5545, sections
    3.1 and 3.3.11). */
module CalendarText {
  import opened Wrappers
  import opened TextLines

  const LIMIT: int := 75

  // ----- Escaping -----

  /** Every occurrence of one character replaced by a string. */
  function ReplaceAll(text: string, what: char, other: string): string {
    if text == "" then "" else (if text[0] == what then other else [text[0]]) + ReplaceAll(text[1..], what, other)
  }

  /** Backslash, line feed, comma and semicolon, replaced one after the other. */
  function IcsText(text: string): string {
    ReplaceAll(ReplaceAll(ReplaceAll(ReplaceAll(text, '\\', "\\\\"), '\n', "\\n"), ',', "\\,"), ';', "\\;")
  }

  function EscapeOf(c: char): string {
    if c == '\\' then "\\\\"
    else if c == '\n' then "\\n"
    else if c == ',' then "\\,"
    else if c == ';' then "\\;"
    else [c]
  }

  /** One substitution for each character. */
  function Escaped(text: string): string {
    if text == "" then "" else EscapeOf(text[0]) + Escaped(text[1..])
  }

  lemma {:induction false} ReplaceAppend(a: string, b: string, what: char, other: string)
    ensures ReplaceAll(a + b, what, other) == ReplaceAll(a, what, other) + ReplaceAll(b, what, other)
  {
    if a == "" {
      assert a + b == b;
    } else {
      assert (a + b)[1..] == a[1..] + b;
      ReplaceAppend(a[1..], b, what, other);
    }
  }

  lemma ReplaceOne(c: char, what: char, other: string)
    ensures ReplaceAll([c], what, other) == if c == what then other else [c]
  {
    assert [c][1..] == "";
  }

  lemma IcsAppend(a: string, b: string)
    ensures IcsText(a + b) == IcsText(a) + IcsText(b)
  {
    ReplaceAppend(a, b, '\\', "\\\\");
    var a1, b1 := ReplaceAll(a, '\\', "\\\\"), ReplaceAll(b, '\\', "\\\\");
    ReplaceAppend(a1, b1, '\n', "\\n");
    var a2, b2 := ReplaceAll(a1, '\n', "\\n"), ReplaceAll(b1, '\n', "\\n");
    ReplaceAppend(a2, b2, ',', "\\,");
    ReplaceAppend(ReplaceAll(a2, ',', "\\,"), ReplaceAll(b2, ',', "\\,"), ';', "\\;");
  }

  lemma ReplacePair(c: char, d: char, what: char, other: string)
    requires what != c && what != d
    ensures ReplaceAll([c, d], what, other) == [c, d]
  {
    assert [c, d] == [c] + [d];
    ReplaceAppend([c], [d], what, other);
    ReplaceOne(c, what, other);
    ReplaceOne(d, what, other);
  }

  lemma IcsOne(c: char)
    ensures IcsText([c]) == EscapeOf(c)
  {
    hide ReplaceAll;
    ReplaceOne(c, '\\', "\\\\");
    ReplaceOne(c, '\n', "\\n");
    ReplaceOne(c, ',', "\\,");
    ReplaceOne(c, ';', "\\;");
    ReplacePair('\\', '\\', '\n', "\\n");
    ReplacePair('\\', '\\', ',', "\\,");
    ReplacePair('\\', '\\', ';', "\\;");
    ReplacePair('\\', 'n', ',', "\\,");
    ReplacePair('\\', 'n', ';', "\\;");
    ReplacePair('\\', ',', ';', "\\;");
  }

  /** The four sequential replacements are one per-character substitution. */
  lemma {:induction false} IcsIsEscaped(text: string)
    ensures IcsText(text) == Escaped(text)
  {
    if text == "" {
    } else {
      assert text == [text[0]] + text[1..];
      IcsAppend([text[0]], text[1..]);
      IcsOne(text[0]);
      IcsIsEscaped(text[1..]);
    }
  }

  // ----- Unescaping -----

  /** The value of an escaped text: a backslash must be followed by one of `\ ; , n N`, and a
      bare comma or semicolon is no text. */
  function Unescaped(text: string): Option<string> {
    if text == "" then Some("")
    else if text[0] == '\\' then
      if |text| == 1 || text[1] !in "\\;,nN" then None
      else
        match Unescaped(text[2..])
        case None => None
        case Some(rest) => Some([if text[1] in "nN" then '\n' else text[1]] + rest)
    else if text[0] in ",;" then None
    else
      match Unescaped(text[1..])
      case None => None
      case Some(rest) => Some([text[0]] + rest)
  }

  /** Decoding a written title gives the title back, for every title. */
  lemma {:induction false} UnescapedIcsText(text: string)
    ensures Unescaped(IcsText(text)) == Some(text)
    decreases |text|
  {
    IcsIsEscaped(text);
    if text == "" {
    } else {
      UnescapedIcsText(text[1..]);
      IcsIsEscaped(text[1..]);
      var written := Escaped(text);
      assert written[|EscapeOf(text[0])|..] == Escaped(text[1..]);
      assert [text[0]] + text[1..] == text;
    }
  }

  lemma {:induction false} EscapedFeedFree(text: string)
    ensures '\n' !in IcsText(text)
  {
    IcsIsEscaped(text);
    if text == "" {
    } else {
      EscapedFeedFree(text[1..]);
      IcsIsEscaped(text[1..]);
    }
  }

  predicate Control(c: char) { (c as int < 0x20 && c != '\t') || c as int == 0x7F }

  /** No control character, as section 3.3.11 asks of a text value. */
  ghost predicate Conforming(text: string) { forall c :: c in text ==> !Control(c) }

  /** Line feeds are escaped but other control characters pass through: what is written is a
      conforming text value exactly when the title holds no control character but line feeds. */
  lemma {:induction false} ConformingExact(text: string)
    ensures Conforming(IcsText(text)) <==> forall c :: c in text ==> !Control(c) || c == '\n'
    decreases |text|
  {
    IcsIsEscaped(text);
    if text == "" {
    } else {
      ConformingExact(text[1..]);
      IcsIsEscaped(text[1..]);
      var c, rest := text[0], Escaped(text[1..]);
      assert Escaped(text) == EscapeOf(c) + rest;
      forall x ensures x in Escaped(text) <==> x in EscapeOf(c) || x in rest {
      }
      forall x ensures x in text <==> x == c || x in text[1..] {
      }
      if !Control(c) || c == '\n' { assert Conforming(EscapeOf(c)); } else { assert c in EscapeOf(c); }
    }
  }

  /** A carriage return inside a title reaches the file. */
  lemma CarriageReturnEscapes()
    ensures !Conforming(IcsText("a\rb"))
  {
    ConformingExact("a\rb");
    assert '\r' in "a\rb";
  }

  // ----- Folding -----

  /** Finished pieces and the one being filled, after some characters of a line. */
  datatype Fold = Fold(pieces: seq<string>, current: string)

  function FoldOf(line: string): Fold {
    if line == "" then Fold([], "")
    else
      var f, c := FoldOf(line[..|line| - 1]), line[|line| - 1];
      if |Encode(f.current + [c])| > LIMIT then Fold(f.pieces + [f.current], " " + [c])
      else Fold(f.pieces, f.current + [c])
  }

  function Pieces(line: string): (pieces: seq<string>)
    ensures pieces != []
  {
    FoldOf(line).pieces + [FoldOf(line).current]
  }

  /** Breaks a content line before the character that would exceed 75 octets. */
  method FoldIcs(line: string) returns (text: string)
    ensures text == Joined(Pieces(line))
  {
    var pieces: seq<string>, current := [], "";
    for k := 0 to |line|
      invariant FoldOf(line[..k]) == Fold(pieces, current)
    {
      assert line[..k + 1][..k] == line[..k];
      if |Encode(current + [line[k]])| > LIMIT {
        pieces, current := pieces + [current], " " + [line[k]];
      } else {
        current := current + [line[k]];
      }
    }
    assert line[..|line|] == line;
    text := Joined(pieces + [current]);
  }

  lemma EncodeShort(a: char, b: char)
    ensures 2 <= |Encode([a, b])| <= 8
  {
    assert [a, b][1..] == [b] && [b][1..] == "";
    assert Encode([b]) == Utf8(b) + [];
  }

  /** Every physical line is at most 75 octets long. */
  lemma {:induction false} PiecesFit(line: string)
    ensures forall piece :: piece in Pieces(line) ==> |Encode(piece)| <= 75
  {
    if line == "" {
    } else {
      PiecesFit(line[..|line| - 1]);
      EncodeShort(' ', line[|line| - 1]);
    }
  }

  /** A line is broken only where the next character does not fit. */
  lemma {:induction false} PiecesFull(line: string, k: nat)
    requires k + 1 < |Pieces(line)|
    ensures |Pieces(line)[k + 1]| >= 2 && |Encode(Pieces(line)[k] + [Pieces(line)[k + 1][1]])| > 75
  {
    var f, c := FoldOf(line[..|line| - 1]), line[|line| - 1];
    if |Encode(f.current + [c])| > LIMIT && k == |f.pieces| {
    } else {
      PiecesFull(line[..|line| - 1], k);
    }
  }

  /** The first piece followed by the others without their leading space. */
  function Unfolded(pieces: seq<string>): string
    requires pieces != [] && forall k :: 1 <= k < |pieces| ==> |pieces[k]| >= 1
  {
    if |pieces| == 1 then pieces[0] else Unfolded(pieces[..|pieces| - 1]) + pieces[|pieces| - 1][1..]
  }

  ghost predicate Continued(pieces: seq<string>) {
    pieces != [] && forall k :: 1 <= k < |pieces| ==> |pieces[k]| >= 2 && pieces[k][0] == ' '
  }

  lemma AddPiece(pieces: seq<string>, c: char)
    requires Continued(pieces)
    ensures Continued(pieces + [" " + [c]]) && Unfolded(pieces + [" " + [c]]) == Unfolded(pieces) + [c]
  {
    var more := pieces + [" " + [c]];
    assert more[..|more| - 1] == pieces;
    assert (" " + [c])[1..] == [c];
  }

  lemma GrowPiece(done: seq<string>, current: string, c: char)
    requires Continued(done + [current])
    ensures Continued(done + [current + [c]]) && Unfolded(done + [current + [c]]) == Unfolded(done + [current]) + [c]
  {
    var before, after := done + [current], done + [current + [c]];
    forall k | 1 <= k < |after| ensures |after[k]| >= 2 && after[k][0] == ' ' {
      assert |before[k]| >= 2 && before[k][0] == ' ';
    }
    if done != [] {
      assert before[..|before| - 1] == done == after[..|after| - 1];
      assert |before[|before| - 1]| >= 2;
      assert (current + [c])[1..] == current[1..] + [c];
    }
  }

  lemma PiecesStep(init: string, c: char)
    ensures var f := FoldOf(init);
      Pieces(init + [c]) ==
        if |Encode(f.current + [c])| > LIMIT then Pieces(init) + [" " + [c]] else f.pieces + [f.current + [c]]
  {
    hide Encode;
    assert (init + [c])[..|init|] == init;
  }

  /** Continuation pieces begin with exactly the added space, and nothing of the line is lost. */
  lemma {:induction false} PiecesHold(line: string)
    ensures Continued(Pieces(line)) && Unfolded(Pieces(line)) == line
  {
    if line == "" {
    } else {
      var init, c := line[..|line| - 1], line[|line| - 1];
      assert line == init + [c];
      PiecesHold(init);
      hide Encode, FoldOf, Unfolded;
      var f := FoldOf(init);
      PiecesStep(init, c);
      AddPiece(f.pieces + [f.current], c);
      GrowPiece(f.pieces, f.current, c);
    }
  }

  lemma EncodeOne(c: char)
    ensures |Encode("" + [c])| <= 4
  {
    assert "" + [c] == [c] && [c][1..] == "";
    assert Encode([c]) == Utf8(c) + [];
  }

  /** The first piece of a line begins as the line does. */
  lemma {:induction false} PiecesStart(line: string)
    requires line != ""
    ensures Pieces(line)[0] != "" && Pieces(line)[0][0] == line[0]
  {
    hide Utf8;
    if |line| == 1 {
      assert line[..0] == "" && line == [line[0]];
      EncodeOne(line[0]);
    } else {
      hide Encode;
      PiecesStart(line[..|line| - 1]);
    }
  }
}
