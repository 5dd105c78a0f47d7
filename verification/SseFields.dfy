/** What one line says to both event readers, and the round trip of the server's event writer
  * (internal/server/httpapi/ai_turn.go) through the panel's reader.
  */
module SseFields {
  import opened Wrappers
  import Client = SseClient
  import Server = SseServer

  // ---- lines ----

  predicate Unbroken(s: string) {
    forall i :: 0 <= i < |s| ==> s[i] != '\n' && s[i] != '\r'
  }

  lemma ColonAt(field: string, rest: string)
    requires ':' !in field
    ensures Client.IndexOf(field + (":" + rest), ':') == |field|
    ensures Client.IndexOf(field, ':') == |field|
  {
    var line := field + (":" + rest);
    assert line[|field|] == ':';
    assert forall i :: 0 <= i < |field| ==> line[i] == field[i];
  }

  /** What the line of a field with this value adds to what was collected. */
  function Gains(f: Client.Fields, field: string, value: string): Client.Fields {
    if field == "event" then Client.Fields(value, f.data)
    else if field == "data" then Client.Fields(f.event, f.data + [value])
    else f
  }

  lemma PlainLine(f: Client.Fields, field: string, rest: string)
    requires field != "" && ':' !in field
    ensures Client.AddLine(f, field + (":" + rest)) == Gains(f, field, if rest != "" && rest[0] == ' ' then rest[1..] else rest)
  {
    var line := field + (":" + rest);
    ColonAt(field, rest);
    assert line[..|field|] == field && line[|field| + 1..] == rest;
    assert line[0] == field[0];
  }

  lemma BareLine(f: Client.Fields, field: string)
    requires field != "" && ':' !in field
    ensures Client.AddLine(f, field) == Gains(f, field, "")
  {
    ColonAt(field, "");
    assert field[..|field|] == field;
  }

  /** A line is a field's name, a colon and its value; one space behind the colon is not part of the value. A line without
    * a colon is a field without a value, and one that starts with a colon says nothing. */
  lemma {:induction false} LineGains(f: Client.Fields, field: string, value: string)
    requires field != "" && ':' !in field
    ensures Client.AddLine(f, field + (": " + value)) == Gains(f, field, value)
    ensures value == "" || value[0] != ' ' ==> Client.AddLine(f, field + (":" + value)) == Gains(f, field, value)
    ensures Client.AddLine(f, field) == Gains(f, field, "")
    ensures Client.AddLine(f, ":" + value) == f && Client.AddLine(f, "") == f
  {
    assert ": " + value == ":" + (" " + value) && (" " + value)[1..] == value;
    PlainLine(f, field, " " + value);
    PlainLine(f, field, value);
    BareLine(f, field);
  }

  /** Joining puts exactly one line feed between any two neighbours. */
  lemma {:induction false} JoinSplits(a: seq<string>, b: seq<string>)
    requires a != [] && b != []
    ensures Client.Join(a + b) == Client.Join(a) + "\n" + Client.Join(b)
    ensures Client.Join([a[0]]) == a[0] && Client.Join([]) == ""
    decreases |a|
  {
    if |a| == 1 {
      assert (a + b)[1..] == b;
    } else {
      assert (a + b)[1..] == a[1..] + b;
      JoinSplits(a[1..], b);
      AppendAssociates(a[0] + "\n", Client.Join(a[1..]), "\n");
      AppendAssociates(a[0] + "\n", Client.Join(a[1..]) + "\n", Client.Join(b));
    }
  }

  // ---- cutting into lines ----

  /** The panel ends a line at a line feed, at a carriage return, and at both together as one. */
  lemma {:induction false} PanelCuts(line: string, t: string, rest: string)
    requires Unbroken(line) && t in {"\n", "\r\n", "\r"} && (t == "\r" ==> rest == "" || rest[0] != '\n')
    ensures Client.SplitLines(line + t + rest) == [line] + Client.SplitLines(rest)
    ensures Client.SplitLines(line) == [line]
  {
    var s := line + t + rest;
    Server.FirstBreakIs(line, |line|);
    assert s[|line|] == t[0] && s[..|line|] == line;
    assert |t| == 2 ==> s[|line| + 1] == t[1];
    assert |t| == 1 && rest != "" ==> s[|line| + 1] == rest[0];
    Server.FirstBreakIs(s, |line|);
    assert s[|line| + |t|..] == rest;
  }

  /** The server ends a line at a line feed only; the rest of a text is a last line unless it is empty. */
  lemma {:induction false} ServerCuts(line: string, rest: string)
    requires forall i :: 0 <= i < |line| ==> line[i] != '\n'
    ensures Server.ScanLines(line + "\n" + rest) == [Server.DropCr(line)] + Server.ScanLines(rest)
    ensures Server.ScanLines(line) == if line == "" then [] else [Server.DropCr(line)]
  {
    var s := line + "\n" + rest;
    assert s[|line|] == '\n' && s[..|line|] == line && s[|line| + 1..] == rest;
    assert forall i :: 0 <= i < |line| ==> s[i] == line[i];
    assert Client.IndexOf(s, '\n') == |line| && Client.IndexOf(line, '\n') == |line|;
  }

  /** And it looks away from carriage returns at the end of a line, however many. */
  lemma {:induction false} ServerTrims(st: Server.State, line: string, crs: string)
    requires forall i :: 0 <= i < |crs| ==> crs[i] == '\r'
    ensures Server.Step(st, line + crs) == Server.Step(st, line)
    ensures Server.Step(st, Server.DropCr(line)) == Server.Step(st, line)
    decreases |crs|
  {
    TrimsReturns(line, crs);
  }

  lemma {:induction false} TrimsReturns(line: string, crs: string)
    requires forall i :: 0 <= i < |crs| ==> crs[i] == '\r'
    ensures Server.TrimRightCr(line + crs) == Server.TrimRightCr(line)
    decreases |crs|
  {
    if crs == "" {
      assert line + crs == line;
    } else {
      var n := |crs| - 1;
      assert (line + crs)[..|line| + n] == line + crs[..n] && (line + crs)[|line| + n] == '\r';
      TrimsReturns(line, crs[..n]);
    }
  }

  // ---- the writer ----

  /** One event as the server writes it. */
  function Frame(m: Client.Message): string {
    "event: " + m.event + "\n" + ("data: " + m.data + "\n" + "\n")
  }

  function Frames(ms: seq<Client.Message>): string {
    if ms == [] then "" else Frame(ms[0]) + Frames(ms[1..])
  }

  /** The server's events have a name, and data on one line. */
  predicate Writable(m: Client.Message) {
    m.event != "" && Unbroken(m.event) && Unbroken(m.data)
  }

  method Send(sent: string, m: Client.Message) returns (r: string)
    requires Writable(m)
    ensures r == sent + Frame(m)
  {
    r := sent + "event: " + m.event + "\ndata: " + m.data + "\n\n";
    assert "\ndata: " == "\n" + "data: " && "\n\n" == "\n" + "\n";
    assert r == sent + Frame(m);
  }

  lemma NoReturns(ms: seq<Client.Message>)
    requires forall k :: 0 <= k < |ms| ==> Writable(ms[k])
    ensures forall i :: 0 <= i < |Frames(ms)| ==> Frames(ms)[i] != '\r'
  {
    if ms != [] { NoReturns(ms[1..]); }
  }

  lemma UnbrokenSplits(s: string)
    requires Unbroken(s)
    ensures Client.SplitLines(s) == [s] && (s == "" || s[|s| - 1] != '\r')
  {
    Server.FirstBreakIs(s, |s|);
  }

  /** The first line of a text that starts with it. */
  lemma FirstLineSplits(line: string, rest: string)
    requires Unbroken(line)
    ensures Client.SplitLines(line + "\n" + rest) == [line] + Client.SplitLines(rest)
  {
    UnbrokenSplits(line);
    Server.SplitAtBreak(line + "\n" + rest, line, "\n", rest);
  }

  lemma BlankSplits(rest: string)
    ensures Client.SplitLines("\n" + rest) == [""] + Client.SplitLines(rest)
  {
    FirstLineSplits("", rest);
    assert "" + "\n" + rest == "\n" + rest;
  }

  lemma Three(a: string, b: string, lines: seq<string>)
    ensures [a] + ([b] + ([""] + lines)) == [a, b, ""] + lines
  {
  }

  lemma ThreeLines(a: string, b: string, rest: string)
    requires Unbroken(a) && Unbroken(b)
    ensures Client.SplitLines(a + "\n" + (b + "\n" + ("\n" + rest))) == [a, b, ""] + Client.SplitLines(rest)
  {
    FirstLineSplits(a, b + "\n" + ("\n" + rest));
    FirstLineSplits(b, "\n" + rest);
    BlankSplits(rest);
    Three(a, b, Client.SplitLines(rest));
  }

  lemma Regroup(a: string, b: string, rest: string)
    ensures a + "\n" + (b + "\n" + "\n") + rest == a + "\n" + (b + "\n" + ("\n" + rest))
  {
    AppendAssociates(a + "\n", b + "\n" + "\n", rest);
    AppendAssociates(b + "\n", "\n", rest);
  }

  lemma FrameSplits(m: Client.Message, rest: string)
    requires Writable(m)
    ensures Client.SplitLines(Frame(m) + rest) == ["event: " + m.event, "data: " + m.data, ""] + Client.SplitLines(rest)
  {
    var name, data := "event: " + m.event, "data: " + m.data;
    Regroup(name, data, rest);
    ThreeLines(name, data, rest);
  }

  lemma TwoFields(a: string, b: string, lines: seq<string>)
    requires a != "" && b != ""
    ensures Server.ByLines(Client.EMPTY, [a, b, ""] + lines) ==
            Client.MessagesOf(Client.AddLine(Client.AddLine(Client.EMPTY, a), b)) + Server.ByLines(Client.EMPTY, lines)
  {
    Three(a, b, lines);
    assert [a, b] + ([""] + lines) == [a, b, ""] + lines;
    Server.ByLinesOverBlock(Client.EMPTY, [a, b], [""] + lines);
    assert [a, b][1..] == [b] && [b][1..] == [] && ([""] + lines)[1..] == lines;
    var one := Client.AddLine(Client.EMPTY, a);
    assert Client.AddLines(one, [b]) == Client.AddLines(Client.AddLine(one, b), []);
  }

  lemma FrameReads(m: Client.Message, lines: seq<string>)
    requires Writable(m)
    ensures Server.ByLines(Client.EMPTY, ["event: " + m.event, "data: " + m.data, ""] + lines) ==
            [m] + Server.ByLines(Client.EMPTY, lines)
  {
    var name, data := "event: " + m.event, "data: " + m.data;
    assert name == "event" + (": " + m.event) && data == "data" + (": " + m.data);
    LineGains(Client.EMPTY, "event", m.event);
    LineGains(Client.Fields(m.event, []), "data", m.data);
    TwoFields(name, data, lines);
    assert [] + [m.data] == [m.data];
  }

  lemma {:induction false} FramesRead(ms: seq<Client.Message>)
    requires forall k :: 0 <= k < |ms| ==> Writable(ms[k])
    ensures Server.ByLines(Client.EMPTY, Client.SplitLines(Frames(ms))) == ms
    decreases |ms|
  {
    if ms == [] {
      UnbrokenSplits("");
      assert [""][1..] == [];
      assert Server.ByLines(Client.EMPTY, []) == [];
    } else {
      FrameSplits(ms[0], Frames(ms[1..]));
      FrameReads(ms[0], Client.SplitLines(Frames(ms[1..])));
      FramesRead(ms[1..]);
      assert [ms[0]] + ms[1..] == ms;
    }
  }

  /** Whatever events the server writes, the panel reads back, each with its name and its data, however the text is cut
    * into chunks on the way. */
  lemma {:induction false} WrittenIsRead(ms: seq<Client.Message>, chunks: seq<string>)
    requires forall k :: 0 <= k < |ms| ==> Writable(ms[k])
    requires Client.Concat(chunks) == Frames(ms)
    ensures Client.StreamMessages(Client.Concat(chunks)) == ms
  {
    NoReturns(ms);
    Server.PanelIsByLines(Frames(ms));
    FramesRead(ms);
  }
}
