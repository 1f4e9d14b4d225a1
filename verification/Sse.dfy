/**
 * Server-sent events: the printer of the home page's event stream against the parser that sections
 * 9.2.5 and 9.2.6 of the WHATWG HTML Living Standard prescribe.
 */
module Sse {

  const LF := '\n'
  const CR := '\r'
  const BOM := '\U{FEFF}'

  // ---------------------------------------------------------------------------------------------
  // The printer
  // ---------------------------------------------------------------------------------------------

  datatype Frame = Comment(text: string) | Light(row: string) | Temp(id: string, temp: string)

  function Unlines(lines: seq<string>): string {
    if lines == [] then "" else lines[0] + "\n" + Unlines(lines[1..])
  }

  /** Splitting at every line feed gives one part more than there are line feeds. */
  function SplitLF(row: string): (parts: seq<string>)
    ensures parts != []
  {
    if row == "" then [""]
    else
      var parts := SplitLF(row[1..]);
      if row[0] == LF then [""] + parts else [[row[0]] + parts[0]] + parts[1..]
  }

  function DataLines(parts: seq<string>): (lines: seq<string>)
    ensures |lines| == |parts|
  {
    seq(|parts|, i requires 0 <= i < |parts| => "data: " + parts[i])
  }

  function FrameLines(f: Frame): seq<string> {
    match f
    case Comment(text) => [": " + text, ""]
    case Light(row) => ["event: light"] + DataLines(SplitLF(row)) + [""]
    case Temp(id, temp) => ["event: " + id, "data: " + temp, ""]
  }

  function Print(f: Frame): string {
    Unlines(FrameLines(f))
  }

  function PrintAll(frames: seq<Frame>): string {
    if frames == [] then "" else Print(frames[0]) + PrintAll(frames[1..])
  }

  lemma {:induction false} UnlinesAppend(a: seq<string>, b: seq<string>)
    ensures Unlines(a + b) == Unlines(a) + Unlines(b)
  {
    if a == [] {
      assert a + b == b;
    } else {
      assert (a + b)[1..] == a[1..] + b;
      UnlinesAppend(a[1..], b);
    }
  }

  method RenderLightEvent(row: string) returns (event: string)
    ensures event == Print(Light(row))
  {
    event := "event: light\n";
    var parts := SplitLF(row);
    var i := 0;
    assert event == Unlines(["event: light"]);
    assert ["event: light"] + DataLines(parts[..0]) == ["event: light"];
    while i < |parts|
      invariant i <= |parts|
      invariant event == Unlines(["event: light"] + DataLines(parts[..i]))
    {
      var line := "data: " + parts[i];
      assert DataLines(parts[..i + 1]) == DataLines(parts[..i]) + [line];
      UnlinesAppend(["event: light"] + DataLines(parts[..i]), [line]);
      assert ["event: light"] + DataLines(parts[..i]) + [line] == ["event: light"] + DataLines(parts[..i + 1]);
      event := event + (line + "\n");
      i := i + 1;
    }
    UnlinesAppend(["event: light"] + DataLines(parts), [""]);
    assert parts[..i] == parts;
    event := event + "\n";
  }

  // ---------------------------------------------------------------------------------------------
  // The parser
  // ---------------------------------------------------------------------------------------------

  /** The complete lines of a text; a line ends at CR LF, at a lone LF or at a lone CR. */
  function Lines(s: string, line: string): seq<string>
    decreases |s|
  {
    if s == "" then []
    else if s[0] == LF then [line] + Lines(s[1..], "")
    else if s[0] == CR then [line] + Lines(if |s| > 1 && s[1] == LF then s[2..] else s[1..], "")
    else Lines(s[1..], line + [s[0]])
  }

  datatype Event = Event(kind: string, data: string)

  datatype Parser = Parser(kind: string, data: string, out: seq<Event>)

  function Dispatch(p: Parser): Parser {
    if p.data == "" then Parser("", "", p.out)
    else Parser("", "", p.out + [Event(if p.kind == "" then "message" else p.kind, p.data[..|p.data| - 1])])
  }

  function SetField(p: Parser, field: string, value: string): Parser {
    if field == "event" then p.(kind := value)
    else if field == "data" then p.(data := p.data + value + "\n")
    else p
  }

  /** The position of the first colon, or the length of the line. */
  function Colon(line: string): (i: nat)
    ensures i <= |line|
  {
    if line == "" || line[0] == ':' then 0 else 1 + Colon(line[1..])
  }

  function Feed(p: Parser, line: string): Parser {
    var i := Colon(line);
    if line == "" then Dispatch(p)
    else if i == |line| then SetField(p, line, "")
    else if i == 0 then p
    else
      var value := line[i + 1..];
      SetField(p, line[..i], if value != "" && value[0] == ' ' then value[1..] else value)
  }

  function FeedAll(p: Parser, lines: seq<string>): Parser
    decreases |lines|
  {
    if lines == [] then p else FeedAll(Feed(p, lines[0]), lines[1..])
  }

  function Parse(s: string): seq<Event> {
    FeedAll(Parser("", "", []), Lines(if s != "" && s[0] == BOM then s[1..] else s, "")).out
  }

  // ---------------------------------------------------------------------------------------------
  // Round trip
  // ---------------------------------------------------------------------------------------------

  predicate OneLine(s: string) {
    LF !in s && CR !in s
  }

  /** What the stream's own frames satisfy: comments and temperatures are single lines. */
  predicate Sendable(f: Frame) {
    match f
    case Comment(text) => OneLine(text)
    case Light(row) => CR !in row
    case Temp(id, temp) => id != "" && OneLine(id) && OneLine(temp)
  }

  function EventsOf(f: Frame): seq<Event> {
    match f
    case Comment(_) => []
    case Light(row) => [Event("light", row)]
    case Temp(id, temp) => [Event(id, temp)]
  }

  function Sent(frames: seq<Frame>): seq<Event> {
    if frames == [] then [] else EventsOf(frames[0]) + Sent(frames[1..])
  }

  lemma {:induction false} LineEnds(s: string, line: string, rest: string)
    requires OneLine(s)
    ensures Lines(s + "\n" + rest, line) == [line + s] + Lines(rest, "")
    decreases |s|
  {
    var text := s + "\n" + rest;
    if s == "" {
      assert text[1..] == rest && line + s == line;
    } else {
      assert text[1..] == s[1..] + "\n" + rest && text[0] == s[0];
      LineEnds(s[1..], line + [s[0]], rest);
      assert line + [s[0]] + s[1..] == line + s;
    }
  }

  lemma {:induction false} LinesOfUnlines(lines: seq<string>, rest: string)
    requires forall l :: l in lines ==> OneLine(l)
    ensures Lines(Unlines(lines) + rest, "") == lines + Lines(rest, "")
  {
    if lines == [] {
      assert Unlines(lines) + rest == rest;
    } else {
      assert Unlines(lines) + rest == lines[0] + "\n" + (Unlines(lines[1..]) + rest);
      LineEnds(lines[0], "", Unlines(lines[1..]) + rest);
      LinesOfUnlines(lines[1..], rest);
      assert lines == [lines[0]] + lines[1..] && "" + lines[0] == lines[0];
    }
  }

  lemma {:induction false} FeedAppend(p: Parser, a: seq<string>, b: seq<string>)
    ensures FeedAll(p, a + b) == FeedAll(FeedAll(p, a), b)
    decreases |a|
  {
    if a == [] {
      assert a + b == b;
    } else {
      assert (a + b)[1..] == a[1..] + b;
      FeedAppend(Feed(p, a[0]), a[1..], b);
    }
  }

  lemma FeedData(p: Parser, value: string)
    ensures Feed(p, "data: " + value) == p.(data := p.data + value + "\n")
  {
    var line := "data: " + value;
    assert line[1..] == "ata: " + value && line[2..] == "ta: " + value && line[3..] == "a: " + value && line[4..] == ": " + value;
    assert line[1..][1..] == line[2..] && line[2..][1..] == line[3..] && line[3..][1..] == line[4..];
    assert Colon(line[4..]) == 0 && Colon(line[3..]) == 1 && Colon(line[2..]) == 2 && Colon(line[1..]) == 3 && Colon(line) == 4;
    assert line[..4] == "data" && line[5..] == " " + value;
  }

  lemma FeedEvent(p: Parser, value: string)
    ensures Feed(p, "event: " + value) == p.(kind := value)
  {
    var line := "event: " + value;
    assert line[1..] == "vent: " + value && line[2..] == "ent: " + value && line[3..] == "nt: " + value
        && line[4..] == "t: " + value && line[5..] == ": " + value;
    assert line[1..][1..] == line[2..] && line[2..][1..] == line[3..] && line[3..][1..] == line[4..] && line[4..][1..] == line[5..];
    assert Colon(line[5..]) == 0 && Colon(line[4..]) == 1 && Colon(line[3..]) == 2 && Colon(line[2..]) == 3
        && Colon(line[1..]) == 4 && Colon(line) == 5;
    assert line[..5] == "event" && line[6..] == " " + value;
  }

  lemma {:induction false} FeedDataLines(p: Parser, parts: seq<string>)
    ensures FeedAll(p, DataLines(parts)) == p.(data := p.data + Unlines(parts))
    decreases |parts|
  {
    if parts == [] {
      assert p.data + "" == p.data;
    } else {
      assert DataLines(parts)[1..] == DataLines(parts[1..]);
      FeedData(p, parts[0]);
      FeedDataLines(Feed(p, DataLines(parts)[0]), parts[1..]);
      Regroup(p.data, parts[0], Unlines(parts[1..]));
    }
  }

  lemma Regroup(a: string, b: string, c: string)
    ensures a + b + "\n" + c == a + (b + "\n" + c)
  {
  }

  /** Joining the parts again gives the row back. */
  lemma {:induction false} SplitJoins(row: string)
    ensures Unlines(SplitLF(row)) == row + "\n"
  {
    if row != "" {
      SplitJoins(row[1..]);
      var parts := SplitLF(row[1..]);
      assert row == [row[0]] + row[1..];
      if row[0] == LF {
        assert ([""] + parts)[1..] == parts;
      } else {
        var joined := [[row[0]] + parts[0]] + parts[1..];
        assert joined[1..] == parts[1..];
        assert Unlines(joined) == [row[0]] + (parts[0] + "\n" + Unlines(parts[1..]));
      }
    }
  }

  lemma {:induction false} PartsAreLines(row: string)
    requires CR !in row
    ensures forall l :: l in SplitLF(row) ==> OneLine(l)
  {
    if row != "" {
      PartsAreLines(row[1..]);
      var parts := SplitLF(row[1..]);
      assert parts[0] in parts && row[0] in row;
      forall l | l in SplitLF(row) ensures OneLine(l) {
        if row[0] == LF {
          assert l == "" || l in parts;
        } else {
          assert l == [row[0]] + parts[0] || l in parts;
        }
      }
    }
  }

  lemma DataLinesAreLines(parts: seq<string>)
    requires forall part :: part in parts ==> OneLine(part)
    ensures forall l :: l in DataLines(parts) ==> OneLine(l)
  {
    forall l | l in DataLines(parts) ensures OneLine(l) {
      var i :| 0 <= i < |parts| && l == DataLines(parts)[i];
      assert parts[i] in parts;
    }
  }

  lemma FrameIsLines(f: Frame)
    requires Sendable(f)
    ensures forall l :: l in FrameLines(f) ==> OneLine(l)
  {
    if f.Light? {
      PartsAreLines(f.row);
      DataLinesAreLines(SplitLF(f.row));
    }
  }

  lemma FeedOne(p: Parser, line: string, rest: seq<string>)
    ensures FeedAll(p, [line] + rest) == FeedAll(Feed(p, line), rest)
  {
    assert ([line] + rest)[1..] == rest;
  }

  lemma LightLines(row: string)
    ensures FrameLines(Light(row)) == ["event: " + "light"] + (DataLines(SplitLF(row)) + [""])
  {
    assert "event: " + "light" == "event: light";
  }

  lemma DispatchLine(kind: string, data: string, out: seq<Event>)
    requires kind != ""
    ensures FeedAll(Parser(kind, data + "\n", out), [""]) == Parser("", "", out + [Event(kind, data)])
  {
    FeedOne(Parser(kind, data + "\n", out), "", []);
    assert [""] + [] == [""] && (data + "\n")[..|data|] == data;
  }

  lemma FeedLight(out: seq<Event>, row: string)
    ensures FeedAll(Parser("", "", out), FrameLines(Light(row))) == Parser("", "", out + [Event("light", row)])
  {
    var p, data := Parser("", "", out), DataLines(SplitLF(row));
    LightLines(row);
    FeedOne(p, "event: " + "light", data + [""]);
    FeedEvent(p, "light");
    FeedAppend(Parser("light", "", out), data, [""]);
    FeedDataLines(Parser("light", "", out), SplitLF(row));
    SplitJoins(row);
    assert "" + (row + "\n") == row + "\n";
    DispatchLine("light", row, out);
  }

  lemma FeedTemp(out: seq<Event>, id: string, temp: string)
    requires id != ""
    ensures FeedAll(Parser("", "", out), FrameLines(Temp(id, temp))) == Parser("", "", out + [Event(id, temp)])
  {
    var p := Parser("", "", out);
    assert FrameLines(Temp(id, temp)) == ["event: " + id] + (["data: " + temp] + [""]);
    FeedOne(p, "event: " + id, ["data: " + temp] + [""]);
    FeedEvent(p, id);
    FeedOne(p.(kind := id), "data: " + temp, [""]);
    FeedData(p.(kind := id), temp);
    assert "" + temp + "\n" == temp + "\n";
    DispatchLine(id, temp, out);
  }

  /** From a clean parser, a frame gives exactly its event and leaves the parser clean. */
  lemma FeedFrame(out: seq<Event>, f: Frame)
    requires Sendable(f)
    ensures FeedAll(Parser("", "", out), FrameLines(f)) == Parser("", "", out + EventsOf(f))
  {
    match f
    case Comment(text) =>
      var p := Parser("", "", out);
      assert FrameLines(f) == [": " + text] + ([""] + []);
      FeedOne(p, ": " + text, [""] + []);
      FeedOne(p, "", []);
      assert out + [] == out;
    case Light(row) => FeedLight(out, row);
    case Temp(id, temp) => FeedTemp(out, id, temp);
  }

  lemma FeedNext(out: seq<Event>, f: Frame, rest: string)
    requires Sendable(f)
    ensures FeedAll(Parser("", "", out), Lines(Print(f) + rest, "")) == FeedAll(Parser("", "", out + EventsOf(f)), Lines(rest, ""))
  {
    FrameIsLines(f);
    LinesOfUnlines(FrameLines(f), rest);
    FeedAppend(Parser("", "", out), FrameLines(f), Lines(rest, ""));
    FeedFrame(out, f);
  }

  lemma {:induction false} FeedFrames(out: seq<Event>, frames: seq<Frame>)
    requires forall f :: f in frames ==> Sendable(f)
    ensures FeedAll(Parser("", "", out), Lines(PrintAll(frames), "")) == Parser("", "", out + Sent(frames))
    decreases |frames|
  {
    if frames == [] {
      assert out + [] == out;
    } else {
      var f, rest := frames[0], frames[1..];
      FeedNext(out, f, PrintAll(rest));
      FeedFrames(out + EventsOf(f), rest);
      assert out + EventsOf(f) + Sent(rest) == out + Sent(frames);
    }
  }

  lemma NoByteOrderMark(frames: seq<Frame>)
    ensures PrintAll(frames) != "" ==> PrintAll(frames)[0] != BOM
  {
    if frames != [] {
      var first := FrameLines(frames[0])[0];
      assert first[0] == ':' || first[0] == 'e';
      assert Print(frames[0])[0] == first[0];
    }
  }

  /** A browser reads the whole stream as exactly the events that were sent, in order. */
  lemma StreamRoundTrip(frames: seq<Frame>)
    requires forall f :: f in frames ==> Sendable(f)
    ensures Parse(PrintAll(frames)) == Sent(frames)
  {
    FeedFrames([], frames);
    NoByteOrderMark(frames);
    assert [] + Sent(frames) == Sent(frames);
  }

  // ---------------------------------------------------------------------------------------------
  // Rows with a carriage return
  // ---------------------------------------------------------------------------------------------

  predicate NoCR(p: Parser) {
    CR !in p.data && forall e :: e in p.out ==> CR !in e.data
  }

  lemma {:induction false} LinesHaveNoCR(s: string, line: string)
    requires CR !in line
    ensures forall l :: l in Lines(s, line) ==> CR !in l
    decreases |s|
  {
    if s != "" {
      if s[0] == LF { LinesHaveNoCR(s[1..], ""); }
      else if s[0] == CR { LinesHaveNoCR(if |s| > 1 && s[1] == LF then s[2..] else s[1..], ""); }
      else { LinesHaveNoCR(s[1..], line + [s[0]]); }
    }
  }

  lemma FeedHasNoCR(p: Parser, line: string)
    requires NoCR(p) && CR !in line
    ensures NoCR(Feed(p, line))
  {
    var i := Colon(line);
    if 0 < i < |line| {
      var value := line[i + 1..];
      assert CR !in value && CR !in value[if value == "" then 0 else 1..];
    }
    assert CR !in p.data[..if p.data == "" then 0 else |p.data| - 1];
  }

  lemma {:induction false} ParsedDataHasNoCR(p: Parser, lines: seq<string>)
    requires NoCR(p) && forall l :: l in lines ==> CR !in l
    ensures NoCR(FeedAll(p, lines))
    decreases |lines|
  {
    if lines != [] {
      FeedHasNoCR(p, lines[0]);
      ParsedDataHasNoCR(Feed(p, lines[0]), lines[1..]);
    }
  }

  lemma {:induction false} RowIsSent(frames: seq<Frame>, row: string)
    requires Light(row) in frames
    ensures Event("light", row) in Sent(frames)
  {
    if frames[0] == Light(row) {
      assert Sent(frames)[0] == Event("light", row);
    } else {
      assert Light(row) in frames[1..];
      RowIsSent(frames[1..], row);
    }
  }

  /**
   * For single-line comments and temperatures and any rows at all, the browser reads the stream as
   * the events that were sent if and only if no row has a carriage return.
   */
  lemma StreamSurvivesExactlyWithoutCR(frames: seq<Frame>)
    requires forall f :: f in frames ==> f.Light? || Sendable(f)
    ensures Parse(PrintAll(frames)) == Sent(frames) <==> forall f :: f in frames && f.Light? ==> CR !in f.row
  {
    if forall f :: f in frames && f.Light? ==> CR !in f.row {
      StreamRoundTrip(frames);
    } else {
      var f :| f in frames && f.Light? && CR in f.row;
      RowIsSent(frames, f.row);
      NoByteOrderMark(frames);
      LinesHaveNoCR(PrintAll(frames), "");
      ParsedDataHasNoCR(Parser("", "", []), Lines(PrintAll(frames), ""));
    }
  }

  /** For instance, a row with a carriage return in the middle is not read as it was sent. */
  lemma CarriageReturnIsLost()
    ensures Parse(PrintAll([Light("a\rb")])) != Sent([Light("a\rb")])
  {
    var frames := [Light("a\rb")];
    assert frames[0] in frames && "a\rb"[1] == CR;
    StreamSurvivesExactlyWithoutCR(frames);
  }
}
