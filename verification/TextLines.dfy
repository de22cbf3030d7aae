/** Physical lines and their octets: what the export formats mean by a line. */
module TextLines {
  import opened Wrappers

  const CRLF: string := "\r\n"

  // ----- Octets -----

  /** The UTF-8 octets of one Unicode scalar value. */
  function Utf8(c: char): (octets: seq<int>)
    ensures 1 <= |octets| <= 4
    ensures forall b :: b in octets ==> (b < 0x80 <==> c as int < 0x80) && (b < 0x80 ==> b == c as int)
  {
    var n := c as int;
    if n < 0x80 then [n]
    else if n < 0x800 then [0xC0 + n / 0x40, 0x80 + n % 0x40]
    else if n < 0x1_0000 then [0xE0 + n / 0x1000, 0x80 + n / 0x40 % 0x40, 0x80 + n % 0x40]
    else [0xF0 + n / 0x4_0000, 0x80 + n / 0x1000 % 0x40, 0x80 + n / 0x40 % 0x40, 0x80 + n % 0x40]
  }

  function Encode(text: string): seq<int> {
    if text == "" then [] else Utf8(text[0]) + Encode(text[1..])
  }

  predicate Continuation(octets: seq<int>, k: nat) { k < |octets| && 0x80 <= octets[k] < 0xC0 }

  function Scalar2(a: int, b: int): int { (a - 0xC0) * 0x40 + (b - 0x80) }

  function Scalar3(a: int, b: int, c: int): int { (a - 0xE0) * 0x1000 + (b - 0x80) * 0x40 + (c - 0x80) }

  function Scalar4(a: int, b: int, c: int, d: int): int {
    (a - 0xF0) * 0x4_0000 + (b - 0x80) * 0x1000 + (c - 0x80) * 0x40 + (d - 0x80)
  }

  /** The number a stretch of octets begins with, and how many octets it takes; overlong forms are
      refused (RFC 3629, section 3). */
  function ReadScalar(o: seq<int>): Option<(int, nat)> {
    if o == [] then None
    else if 0 <= o[0] < 0x80 then Some((o[0], 1))
    else if 0xC0 <= o[0] < 0xE0 && Continuation(o, 1) then
      if Scalar2(o[0], o[1]) < 0x80 then None else Some((Scalar2(o[0], o[1]), 2))
    else if 0xE0 <= o[0] < 0xF0 && Continuation(o, 1) && Continuation(o, 2) then
      if Scalar3(o[0], o[1], o[2]) < 0x800 then None else Some((Scalar3(o[0], o[1], o[2]), 3))
    else if 0xF0 <= o[0] < 0xF8 && Continuation(o, 1) && Continuation(o, 2) && Continuation(o, 3) then
      if Scalar4(o[0], o[1], o[2], o[3]) < 0x1_0000 then None else Some((Scalar4(o[0], o[1], o[2], o[3]), 4))
    else None
  }

  lemma SixBits(n: nat)
    ensures n == n / 0x40 * 0x40 + n % 0x40 && n / 0x1000 == n / 0x40 / 0x40 && n / 0x4_0000 == n / 0x1000 / 0x40
  {
  }

  lemma Parts3(n: nat)
    requires n < 0x1_0000
    ensures Scalar3(0xE0 + n / 0x1000, 0x80 + n / 0x40 % 0x40, 0x80 + n % 0x40) == n && n / 0x1000 < 0x10
  {
    SixBits(n);
    SixBits(n / 0x40);
  }

  lemma Parts4(n: nat)
    requires n < 0x20_0000
    ensures Scalar4(0xF0 + n / 0x4_0000, 0x80 + n / 0x1000 % 0x40, 0x80 + n / 0x40 % 0x40, 0x80 + n % 0x40) == n
    ensures n / 0x4_0000 < 8
  {
    SixBits(n);
    SixBits(n / 0x40);
    SixBits(n / 0x1000);
  }

  /** The octets of a character read back as its code point, whatever follows. */
  lemma Utf8Exact(c: char, rest: seq<int>)
    ensures ReadScalar(Utf8(c) + rest) == Some((c as int, |Utf8(c)|))
  {
    var n := c as int;
    if 0x800 <= n < 0x1_0000 { Parts3(n); }
    if 0x1_0000 <= n { Parts4(n); }
    hide Scalar3, Scalar4;
  }

  // ----- Splitting -----

  /** The pieces between occurrences of the two-element line break. */
  function Split<T(==)>(text: seq<T>, cr: T, lf: T): (lines: seq<seq<T>>)
    ensures |lines| >= 1
  {
    if text == [] then [[]]
    else if |text| >= 2 && text[0] == cr && text[1] == lf then [[]] + Split(text[2..], cr, lf)
    else
      var rest := Split(text[1..], cr, lf);
      [[text[0]] + rest[0]] + rest[1..]
  }

  function Lines(text: string): (lines: seq<string>)
    ensures |lines| >= 1
  {
    Split(text, '\r', '\n')
  }

  /** A stretch free of line feeds up to a break is one line. */
  lemma {:induction false} LinesBreak(line: string, rest: string)
    requires '\n' !in line
    ensures Lines(line + CRLF + rest) == [line] + Lines(rest)
  {
    var text := line + CRLF + rest;
    if line == "" {
      assert text[2..] == rest;
    } else {
      assert text[0] == line[0] && text[1] == (if |line| > 1 then line[1] else '\r');
      assert text[1..] == line[1..] + CRLF + rest;
      LinesBreak(line[1..], rest);
      assert [line[0]] + line[1..] == line;
    }
  }

  // ----- Joining -----

  /** Each line followed by a break. */
  function Terminated(lines: seq<string>): string {
    if lines == [] then "" else lines[0] + CRLF + Terminated(lines[1..])
  }

  /** Lines with a break between neighbours. */
  function Joined(lines: seq<string>): string
    requires lines != []
  {
    if |lines| == 1 then lines[0] else lines[0] + CRLF + Joined(lines[1..])
  }

  lemma {:induction false} JoinedThenBreak(lines: seq<string>)
    requires lines != []
    ensures Joined(lines) + CRLF == Terminated(lines)
  {
    if |lines| > 1 {
      JoinedThenBreak(lines[1..]);
      assert lines[0] + CRLF + Joined(lines[1..]) + CRLF == lines[0] + CRLF + (Joined(lines[1..]) + CRLF);
    } else {
      assert lines[1..] == [];
      assert lines[0] + CRLF + "" == lines[0] + CRLF;
    }
  }

  lemma {:induction false} TerminatedAppend(a: seq<string>, b: seq<string>)
    ensures Terminated(a + b) == Terminated(a) + Terminated(b)
  {
    if a == [] {
      assert a + b == b;
    } else {
      assert (a + b)[1..] == a[1..] + b;
      TerminatedAppend(a[1..], b);
      assert a[0] + CRLF + (Terminated(a[1..]) + Terminated(b)) == (a[0] + CRLF + Terminated(a[1..])) + Terminated(b);
    }
  }

  ghost predicate FeedFree(lines: seq<string>) {
    forall line :: line in lines ==> '\n' !in line
  }

  /** Splitting undoes terminating, for lines free of line feeds. */
  lemma {:induction false} LinesOfTerminated(lines: seq<string>)
    requires FeedFree(lines)
    ensures Lines(Terminated(lines)) == lines + [""]
  {
    if lines == [] {
    } else {
      assert lines[0] in lines;
      forall line | line in lines[1..] ensures '\n' !in line { assert line in lines; }
      LinesOfTerminated(lines[1..]);
      LinesBreak(lines[0], Terminated(lines[1..]));
    }
  }

  // ----- Lines of octets -----

  function EncodeAll(lines: seq<string>): seq<seq<int>> {
    if lines == [] then [] else [Encode(lines[0])] + EncodeAll(lines[1..])
  }

  /** Octets of a character other than an ASCII one never look like a break. */
  lemma {:induction false} SplitPrefix(octets: seq<int>, rest: seq<int>)
    requires forall b :: b in octets ==> b >= 0x80
    ensures var tail := Split(rest, 13, 10);
      Split(octets + rest, 13, 10) == [octets + tail[0]] + tail[1..]
  {
    var tail := Split(rest, 13, 10);
    if octets == [] {
      assert octets + rest == rest;
      assert octets + tail[0] == tail[0];
    } else {
      assert octets[0] in octets;
      assert (octets + rest)[1..] == octets[1..] + rest;
      forall b | b in octets[1..] ensures b >= 0x80 { assert b in octets; }
      SplitPrefix(octets[1..], rest);
      assert [octets[0]] + (octets[1..] + tail[0]) == octets + tail[0];
    }
  }

  /** Breaking the octet stream at CR LF and breaking the text give the same lines, so a line
      break never falls inside a character. */
  lemma {:induction false} OctetLines(text: string)
    ensures Split(Encode(text), 13, 10) == EncodeAll(Lines(text))
    decreases |text|
  {
    if text == "" {
      return;
    }
    hide Utf8;
    var rest := text[1..];
    if |text| >= 2 && text[0] == '\r' && text[1] == '\n' {
      assert rest[1..] == text[2..];
      OctetLines(text[2..]);
      assert Encode(text) == [13, 10] + Encode(text[2..]);
      assert Encode(text)[2..] == Encode(text[2..]);
    } else {
      OctetLines(rest);
      assert ([text[0]] + Lines(rest)[0])[1..] == Lines(rest)[0];
      if text[0] as int >= 0x80 {
        SplitPrefix(Utf8(text[0]), Encode(rest));
      } else {
        NoBreakHere(text);
        assert Encode(text)[1..] == Encode(rest);
      }
    }
  }

  lemma NoBreakHere(text: string)
    requires text != "" && text[0] as int < 0x80
    requires !(|text| >= 2 && text[0] == '\r' && text[1] == '\n')
    ensures !(|Encode(text)| >= 2 && Encode(text)[0] == 13 && Encode(text)[1] == 10)
  {
    if |text| >= 2 {
      assert Encode(text)[1] == Utf8(text[1])[0];
      assert Utf8(text[1])[0] in Utf8(text[1]);
    }
  }
}
