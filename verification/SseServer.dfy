/** The server's line-based Server-Sent Events reader (internal/server/aiprotocol/sse.go), and its
  * agreement with the panel's block-based reader.
  */
module SseServer {
  import opened Wrappers
  import Client = SseClient

  datatype Event = Event(name: string, data: string)

  datatype State = State(name: string, data: seq<string>, events: seq<Event>)

  const START := State("", [], [])

  // ---- lines ----

  /** `strings.TrimRight(line, "\r")`. */
  function TrimRightCr(line: string): string {
    if line != "" && line[|line| - 1] == '\r' then TrimRightCr(line[..|line| - 1]) else line
  }

  /** bufio.ScanLines: the newline is dropped together with one CR before it; a last line without a
    * newline counts when it is not empty. */
  function DropCr(line: string): string {
    if line != "" && line[|line| - 1] == '\r' then line[..|line| - 1] else line
  }

  function ScanLines(s: string): seq<string>
    decreases |s|
  {
    var p := Client.IndexOf(s, '\n');
    if s == "" then []
    else if p == |s| then [DropCr(s)]
    else [DropCr(s[..p])] + ScanLines(s[p + 1..])
  }

  // ---- the reader ----

  function Dispatch(st: State): State {
    if st.data == [] then st.(name := "")
    else State("", [], st.events + [Event(st.name, Client.Join(st.data))])
  }

  function Step(st: State, token: string): State {
    var line := TrimRightCr(token);
    if line == "" then Dispatch(st)
    else if line[0] == ':' then st
    else
      var colon := Client.IndexOf(line, ':');
      var field := line[..colon];
      var value := if colon == |line| then "" else Client.TrimOneSpace(line[colon + 1..]);
      if field == "event" then st.(name := value)
      else if field == "data" then st.(data := st.data + [value])
      else st
  }

  function Steps(st: State, tokens: seq<string>): State
    decreases |tokens|
  {
    if tokens == [] then st else Steps(Step(st, tokens[0]), tokens[1..])
  }

  function EventsOf(s: string): seq<Event> {
    Dispatch(Steps(START, ScanLines(s))).events
  }

  lemma {:induction false} StepsAppend(st: State, a: seq<string>, b: seq<string>)
    ensures Steps(st, a + b) == Steps(Steps(st, a), b)
    decreases |a|
  {
    if a == [] {
      assert a + b == b;
    } else {
      assert (a + b)[1..] == a[1..] + b;
      StepsAppend(Step(st, a[0]), a[1..], b);
    }
  }

  /** Events already handed out stay where they are. */
  lemma {:induction false} StepsGrow(st: State, tokens: seq<string>)
    ensures st.events <= Steps(st, tokens).events
    decreases |tokens|
  {
    if tokens != [] { StepsGrow(Step(st, tokens[0]), tokens[1..]); }
  }

  lemma EventsSoFar(body: string, n: nat)
    requires n <= |ScanLines(body)|
    ensures Steps(START, ScanLines(body)[..n]).events <= EventsOf(body)
  {
    var tokens := ScanLines(body);
    assert tokens == tokens[..n] + tokens[n..];
    StepsAppend(START, tokens[..n], tokens[n..]);
    StepsGrow(Steps(START, tokens[..n]), tokens[n..]);
  }

  /** The callback is modelled by the list of events it received; it returns an error for the one after the
    * first accept, which ends the reading. */
  method ForEachSSE(body: string, accept: nat) returns (events: seq<Event>, ok: bool)
    ensures ok <==> |EventsOf(body)| <= accept
    ensures events == if ok then EventsOf(body) else EventsOf(body)[..accept + 1]
  {
    events := [];
    var name, data := "", [];
    var tokens := ScanLines(body);
    for n := 0 to |tokens|
      invariant State(name, data, events) == Steps(START, tokens[..n]) && |events| <= accept
    {
      assert tokens[..n + 1] == tokens[..n] + [tokens[n]];
      StepsAppend(START, tokens[..n], [tokens[n]]);
      var line := TrimRightCr(tokens[n]);
      if line == "" {
        if data != [] {
          events := events + [Event(name, Client.Join(data))];
          if |events| > accept {
            EventsSoFar(body, n + 1);
            return events, false;
          }
        }
        name, data := "", [];
      } else if line[0] != ':' {
        var colon := Client.IndexOf(line, ':');
        var field, value := line[..colon], if colon == |line| then "" else line[colon + 1..];
        if field == "event" {
          name := Client.TrimOneSpace(value);
        } else if field == "data" {
          data := data + [Client.TrimOneSpace(value)];
        }
      }
    }
    assert tokens[..|tokens|] == tokens;
    if data != [] { events := events + [Event(name, Client.Join(data))]; }
    ok := |events| <= accept;
  }

  // ---- agreement ----

  /** Every CR is the first half of a CR LF. */
  ghost predicate CrPaired(s: string) {
    forall i :: 0 <= i < |s| && s[i] == '\r' ==> i + 1 < |s| && s[i + 1] == '\n'
  }

  /** The panel names an event without an `event:` field "message"; the server leaves it empty. */
  function AsMessages(events: seq<Event>): (ms: seq<Client.Message>)
    ensures |ms| == |events|
  {
    seq(|events|, i requires 0 <= i < |events| =>
      Client.Message(if events[i].name == "" then "message" else events[i].name, events[i].data))
  }

  /** What both readers compute, told over lines: fields collect until a blank line dispatches them. */
  function ByLines(f: Client.Fields, lines: seq<string>): seq<Client.Message>
    decreases |lines|
  {
    if lines == [] then Client.MessagesOf(f)
    else if lines[0] == "" then Client.MessagesOf(f) + ByLines(Client.EMPTY, lines[1..])
    else ByLines(Client.AddLine(f, lines[0]), lines[1..])
  }

  ghost predicate NoneBlank(lines: seq<string>) {
    forall k :: 0 <= k < |lines| ==> lines[k] != ""
  }

  lemma {:induction false} ByLinesOverBlock(f: Client.Fields, block: seq<string>, rest: seq<string>)
    requires NoneBlank(block)
    ensures ByLines(f, block + rest) == ByLines(Client.AddLines(f, block), rest)
    decreases |block|
  {
    if block == [] {
      assert block + rest == rest;
    } else {
      assert (block + rest)[0] == block[0];
      assert (block + rest)[1..] == block[1..] + rest;
      ByLinesOverBlock(Client.AddLine(f, block[0]), block[1..], rest);
    }
  }

  // The server reader computes ByLines over its lines.

  ghost predicate CrFree(lines: seq<string>) {
    forall k :: 0 <= k < |lines| ==> '\r' !in lines[k]
  }

  lemma AsMessagesSnoc(events: seq<Event>, e: Event)
    ensures AsMessages(events + [e]) == AsMessages(events) + AsMessages([e])
  {
  }

  lemma {:induction false} ServerByLines(st: State, lines: seq<string>)
    requires CrFree(lines)
    ensures AsMessages(Dispatch(Steps(st, lines)).events)
         == AsMessages(st.events) + ByLines(Client.Fields(st.name, st.data), lines)
    decreases |lines|
  {
    var f := Client.Fields(st.name, st.data);
    if lines == [] {
      if st.data != [] { AsMessagesSnoc(st.events, Event(st.name, Client.Join(st.data))); }
    } else {
      assert TrimRightCr(lines[0]) == lines[0];
      var next := Step(st, lines[0]);
      ServerByLines(next, lines[1..]);
      if lines[0] == "" {
        if st.data != [] { AsMessagesSnoc(st.events, Event(st.name, Client.Join(st.data))); }
        var ms := Client.MessagesOf(f);
        assert AsMessages(next.events) == AsMessages(st.events) + ms;
        AppendAssociates(AsMessages(st.events), ms, ByLines(Client.EMPTY, lines[1..]));
      }
    }
  }

  /** A trailing empty line, which the split keeps and the scanner drops, dispatches nothing more. */
  lemma {:induction false} TrailingBlank(f: Client.Fields, lines: seq<string>)
    ensures ByLines(f, lines + [""]) == ByLines(f, lines)
    decreases |lines|
  {
    if lines == [] {
      assert lines + [""] == [""];
      assert [""][1..] == [];
      assert Client.MessagesOf(Client.EMPTY) == [];
    } else {
      assert (lines + [""])[0] == lines[0];
      assert (lines + [""])[1..] == lines[1..] + [""];
      TrailingBlank(if lines[0] == "" then Client.EMPTY else Client.AddLine(f, lines[0]), lines[1..]);
    }
  }

  lemma FirstBreakIs(s: string, p: nat)
    requires p <= |s|
    requires forall i :: 0 <= i < p ==> !Client.IsLineBreak(s[i])
    requires p < |s| ==> Client.IsLineBreak(s[p])
    ensures Client.FirstBreak(s) == p
  {
    var q := Client.FirstBreak(s);
    assert q < |s| ==> Client.IsLineBreak(s[q]);
    assert p < |s| ==> Client.IsLineBreak(s[p]);
  }

  /** Where the first line of a text with paired CRs ends. */
  function LineEnd(s: string, p: nat): nat
    requires p <= |s|
  {
    if p > 0 && s[p - 1] == '\r' then p - 1 else p
  }

  lemma NoBreakBefore(s: string, p: nat)
    requires CrPaired(s) && p <= |s| && (p < |s| ==> s[p] == '\n')
    requires forall i :: 0 <= i < p ==> s[i] != '\n'
    ensures forall i :: 0 <= i < LineEnd(s, p) ==> !Client.IsLineBreak(s[i])
    ensures p == |s| ==> LineEnd(s, p) == p
  {
    forall i | 0 <= i < LineEnd(s, p)
      ensures !Client.IsLineBreak(s[i])
    {
      assert i + 1 < p ==> s[i + 1] != '\n';
    }
  }

  /** With paired CRs the first line is the same whether cut at CR LF or cut at LF and stripped. */
  lemma FirstLineAgrees(s: string, p: nat)
    requires CrPaired(s) && p == Client.IndexOf(s, '\n')
    ensures Client.FirstBreak(s) == LineEnd(s, p)
    ensures DropCr(s[..p]) == s[..LineEnd(s, p)] && '\r' !in s[..LineEnd(s, p)]
    ensures p == |s| ==> LineEnd(s, p) == p
    ensures p < |s| ==> Client.IsLineBreak(s[LineEnd(s, p)]) && LineEnd(s, p) + Client.BreakLength(s, LineEnd(s, p)) == p + 1
  {
    var end := LineEnd(s, p);
    NoBreakBefore(s, p);
    FirstBreakIs(s, end);
    assert s[..p][..end] == s[..end];
  }

  lemma {:induction false} LinesAgree(s: string)
    requires CrPaired(s)
    ensures CrFree(ScanLines(s))
    ensures Client.SplitLines(s) == ScanLines(s) || Client.SplitLines(s) == ScanLines(s) + [""]
    decreases |s|
  {
    var p := Client.IndexOf(s, '\n');
    FirstLineAgrees(s, p);
    if p < |s| {
      var tail := s[p + 1..];
      LinesAgree(tail);
      var first, split, scan := [DropCr(s[..p])], Client.SplitLines(tail), ScanLines(tail);
      assert Client.SplitLines(s) == first + split;
      assert ScanLines(s) == first + scan;
      AppendAssociates(first, scan, [""]);
    } else {
      assert s[..|s|] == s;
    }
  }

  /** The server reader computes ByLines. */
  lemma {:induction false} ServerIsByLines(s: string)
    requires CrPaired(s)
    ensures AsMessages(EventsOf(s)) == ByLines(Client.EMPTY, Client.SplitLines(s))
  {
    LinesAgree(s);
    ServerByLines(START, ScanLines(s));
    TrailingBlank(Client.EMPTY, ScanLines(s));
    assert AsMessages([]) == [];
  }

  // The panel reader computes ByLines as well.

  lemma SeparatorShift(s: string, k: nat, i: nat)
    requires k + i < |s|
    ensures Client.SeparatorLength(s[k..], i) == Client.SeparatorLength(s, k + i)
  {
  }

  /** Appending a line ending and more text leaves the first line of a text where it was. */
  lemma {:induction false} FirstLineStays(whole: string, b: string, t: string)
    requires t == "\n" || t == "\r\n"
    requires b == "" || b[|b| - 1] != '\r'
    requires b <= whole && t <= whole[|b|..]
    ensures var p := Client.FirstBreak(b);
            && Client.FirstBreak(whole) == p
            && whole[..p] == b[..p]
            && Client.BreakLength(whole, p) == if p == |b| then |t| else Client.BreakLength(b, p)
  {
    var p := Client.FirstBreak(b);
    assert forall i :: 0 <= i < |b| ==> whole[i] == b[i];
    assert forall i :: 0 <= i < |t| ==> whole[|b| + i] == t[i];
    FirstBreakIs(whole, p);
  }

  lemma DropOfAppend(b: string, t: string, y: string, k: nat)
    requires k <= |b|
    ensures (b + t + y)[k..] == b[k..] + t + y
    ensures (b + t + y)[|b|..] == t + y
    ensures (b + t + y)[|b| + |t|..] == y
  {
  }

  /** Two texts with the same first line differ only in what the rest splits into. */
  lemma SplitBefore(whole: string, b: string, later: seq<string>, p: nat, k: nat)
    requires p == Client.FirstBreak(b) == Client.FirstBreak(whole) && p < |b| && p < |whole| && whole[..p] == b[..p]
    requires k == p + Client.BreakLength(b, p) == p + Client.BreakLength(whole, p)
    requires Client.SplitLines(whole[k..]) == Client.SplitLines(b[k..]) + later
    ensures Client.SplitLines(whole) == Client.SplitLines(b) + later
  {
    SplitStep(b, p, b[k..]);
    SplitStep(whole, p, whole[k..]);
    AppendAssociates([b[..p]], Client.SplitLines(b[k..]), later);
  }

  lemma SplitHere(whole: string, b: string, t: string, y: string)
    requires t == "\n" || t == "\r\n"
    requires (b == "" || b[|b| - 1] != '\r') && whole == b + t + y && Client.FirstBreak(b) == |b|
    ensures Client.SplitLines(whole) == Client.SplitLines(b) + Client.SplitLines(y)
  {
    DropOfAppend(b, t, y, |b|);
    FirstLineStays(whole, b, t);
    assert b[..|b|] == b && Client.SplitLines(b) == [b];
    SplitStep(whole, |b|, y);
  }

  lemma {:induction false} SplitAtBreak(whole: string, b: string, t: string, y: string)
    requires t == "\n" || t == "\r\n"
    requires b == "" || b[|b| - 1] != '\r'
    requires whole == b + t + y
    ensures Client.SplitLines(whole) == Client.SplitLines(b) + Client.SplitLines(y)
    decreases |b|
  {
    var p := Client.FirstBreak(b);
    if p == |b| {
      SplitHere(whole, b, t, y);
    } else {
      var k := p + Client.BreakLength(b, p);
      DropOfAppend(b, t, y, k);
      SplitAtBreak(whole[k..], b[k..], t, y);
      DropOfAppend(b, t, y, |b|);
      FirstLineStays(whole, b, t);
      SplitBefore(whole, b, Client.SplitLines(y), p, k);
    }
  }

  lemma SplitStep(s: string, p: nat, tail: string)
    requires p == Client.FirstBreak(s) < |s| && tail == s[p + Client.BreakLength(s, p)..]
    ensures Client.SplitLines(s) == [s[..p]] + Client.SplitLines(tail)
  {
  }

  /** Only the first and the last line may be blank. */
  ghost predicate InteriorFilled(lines: seq<string>) {
    forall k :: 0 < k < |lines| - 1 ==> lines[k] != ""
  }

  lemma {:induction false} InteriorLines(s: string)
    requires CrPaired(s)
    requires Client.IsFirstSeparator(s, 0, None)
    ensures InteriorFilled(Client.SplitLines(s))
    decreases |s|
  {
    var p := Client.FirstBreak(s);
    if p < |s| {
      var k := p + Client.BreakLength(s, p);
      var tail := s[k..];
      forall i | 0 <= i < |tail|
        ensures Client.SeparatorLength(tail, i) == 0
      {
        SeparatorShift(s, k, i);
        assert Client.SeparatorLength(s, k + i) == 0;
      }
      InteriorLines(tail);
      if tail != "" {
        assert Client.SeparatorLength(s, p) == 0;
        assert tail[0] == s[k];
        assert Client.FirstBreak(tail) > 0;
      }
    }
  }

  lemma {:induction false} LastLine(s: string)
    ensures var lines := Client.SplitLines(s);
            lines[|lines| - 1] == "" ==> s == "" || Client.IsLineBreak(s[|s| - 1])
    decreases |s|
  {
    var p := Client.FirstBreak(s);
    if p < |s| {
      var k := p + Client.BreakLength(s, p);
      LastLine(s[k..]);
      if s[k..] != "" { assert s[k..][|s| - k - 1] == s[|s| - 1]; }
    }
  }

  /** A run of lines whose only blank line is the first one collects like a block. */
  lemma OneBlock(lines: seq<string>, rest: seq<string>)
    requires forall k :: 0 < k < |lines| ==> lines[k] != ""
    ensures ByLines(Client.EMPTY, lines + rest) == ByLines(Client.AddLines(Client.EMPTY, lines), rest)
  {
    if lines != [] && lines[0] == "" {
      assert (lines + rest)[1..] == lines[1..] + rest;
      assert Client.MessagesOf(Client.EMPTY) == [];
      ByLinesOverBlock(Client.EMPTY, lines[1..], rest);
    } else {
      ByLinesOverBlock(Client.EMPTY, lines, rest);
    }
  }

  /** The remainder: interior lines filled, so nothing dispatches before the end of the stream. */
  lemma RemainderByLines(s: string)
    requires CrPaired(s)
    requires Client.IsFirstSeparator(s, 0, None)
    ensures ByLines(Client.EMPTY, Client.SplitLines(s)) == Client.BlockMessages(s)
  {
    var lines := Client.SplitLines(s);
    InteriorLines(s);
    var last := |lines| - 1;
    if lines[last] == "" {
      var front := lines[..last];
      assert lines == front + [""];
      TrailingBlank(Client.EMPTY, front);
      Client.AddLinesAppend(Client.EMPTY, front, [""]);
      assert Client.AddLines(Client.AddLines(Client.EMPTY, front), [""]) == Client.AddLines(Client.EMPTY, front);
      OneBlock(front, []);
      assert front + [] == front;
    } else {
      OneBlock(lines, []);
      assert lines + [] == lines;
    }
  }

  /** A block ends where its last line ends: the separator does not start inside a line ending. */
  lemma BlockEndsALine(s: string, end: Client.Separator)
    requires CrPaired(s) && Client.IsFirstSeparator(s, 0, Some(end))
    ensures end.index > 0 ==> !Client.IsLineBreak(s[end.index - 1])
  {
    var i := end.index;
    assert i > 0 ==> Client.SeparatorLength(s, i - 1) == 0;
    assert i > 1 ==> Client.SeparatorLength(s, i - 2) == 0;
  }

  lemma BlockAndRest(s: string, end: Client.Separator)
    requires CrPaired(s) && Client.IsFirstSeparator(s, 0, Some(end)) && end.index + end.length <= |s|
    ensures CrPaired(s[..end.index]) && CrPaired(s[end.index + end.length..])
    ensures Client.IsFirstSeparator(s[..end.index], 0, None)
  {
    BlockEndsALine(s, end);
    var block := s[..end.index];
    forall k | 0 <= k < |block|
      ensures Client.SeparatorLength(block, k) == 0
    {
      assert Client.SeparatorLength(s, k) == 0;
    }
  }

  lemma SeparatorIsTwoBreaks(s: string, end: Client.Separator) returns (first: string, second: string)
    requires CrPaired(s) && Client.IsFirstSeparator(s, 0, Some(end)) && end.index + end.length <= |s|
    ensures first == "\n" || first == "\r\n"
    ensures second == "\n" || second == "\r\n"
    ensures s == s[..end.index] + first + (second + s[end.index + end.length..])
  {
    var i, n := end.index, end.length;
    first := if s[i] == '\n' then "\n" else "\r\n";
    second := if n == |first| + 1 then "\n" else "\r\n";
    assert s[i..i + n] == first + second;
    assert s == s[..i] + s[i..i + n] + s[i + n..];
  }

  lemma {:induction false} LeadingBreak(tail: string, second: string, rest: string)
    requires second == "\n" || second == "\r\n"
    requires tail == second + rest
    ensures Client.SplitLines(tail) == [""] + Client.SplitLines(rest)
  {
    assert tail == "" + second + rest;
    SplitAtBreak(tail, "", second, rest);
    assert Client.SplitLines("") == [""];
  }

  lemma {:induction false} SplitAtTwoBreaks(block: string, first: string, second: string, rest: string)
    requires first == "\n" || first == "\r\n"
    requires second == "\n" || second == "\r\n"
    requires block == "" || block[|block| - 1] != '\r'
    ensures Client.SplitLines(block + first + (second + rest))
         == Client.SplitLines(block) + ([""] + Client.SplitLines(rest))
  {
    var tail := second + rest;
    SplitAtBreak(block + first + tail, block, first, tail);
    LeadingBreak(tail, second, rest);
  }

  /** How the first finished block and the text after it split into lines. */
  lemma SplitAtSeparator(s: string, end: Client.Separator)
    requires CrPaired(s) && Client.IsFirstSeparator(s, 0, Some(end)) && end.index + end.length <= |s|
    ensures Client.SplitLines(s)
         == Client.SplitLines(s[..end.index]) + ([""] + Client.SplitLines(s[end.index + end.length..]))
  {
    BlockEndsALine(s, end);
    var first, second := SeparatorIsTwoBreaks(s, end);
    SplitAtTwoBreaks(s[..end.index], first, second, s[end.index + end.length..]);
  }

  lemma {:induction false} BlankLines(f: Client.Fields, s: string)
    requires Client.IsBlank(s)
    ensures Client.AddLines(f, Client.SplitLines(s)).data == f.data
    decreases |s|
  {
    var p := Client.FirstBreak(s);
    var line := s[..p];
    var next := Client.AddLine(f, line);
    assert line != "" ==> line[0] == s[0] && Client.IsSpace(s[0]);
    assert forall field :: field <= line && field != "" ==> field[0] == line[0];
    assert "data"[0] == 'd' && !Client.IsSpace('d');
    assert next.data == f.data;
    if p == |s| {
      assert Client.AddLines(next, []) == next;
      assert Client.SplitLines(s)[1..] == [];
    } else {
      var tail := s[p + Client.BreakLength(s, p)..];
      BlankLines(next, tail);
      assert Client.SplitLines(s)[1..] == Client.SplitLines(tail);
    }
  }

  /** The panel's trim test before the last block never loses a message. */
  lemma FlushIsParse(rest: string)
    ensures Client.Flush(rest) == Client.BlockMessages(rest)
  {
    if Client.IsBlank(rest) { BlankLines(Client.EMPTY, rest); }
  }

  lemma {:induction false} PanelIsByLines(s: string)
    requires CrPaired(s)
    ensures Client.StreamMessages(s) == ByLines(Client.EMPTY, Client.SplitLines(s))
    decreases |s|
  {
    Client.FirstSeparatorFinds(s, 0);
    match Client.FirstSeparator(s)
    case None =>
      RemainderByLines(s);
      FlushIsParse(s);
    case Some(end) =>
      var block, rest := s[..end.index], s[end.index + end.length..];
      SplitAtSeparator(s, end);
      BlockAndRest(s, end);
      PanelIsByLines(rest);
      PanelStep(s, end);
      BlockEndsALine(s, end);
      BlockByLines(block, Client.SplitLines(rest));
  }

  lemma BlockByLines(block: string, later: seq<string>)
    requires CrPaired(block) && Client.IsFirstSeparator(block, 0, None)
    requires block == "" || !Client.IsLineBreak(block[|block| - 1])
    ensures ByLines(Client.EMPTY, Client.SplitLines(block) + ([""] + later))
         == Client.BlockMessages(block) + ByLines(Client.EMPTY, later)
  {
    InteriorLines(block);
    LastLine(block);
    var lines := Client.SplitLines(block);
    assert block == "" ==> lines == [""];
    OneBlock(lines, [""] + later);
    assert ([""] + later)[1..] == later;
  }

  lemma PanelStep(s: string, end: Client.Separator)
    requires Client.FirstSeparator(s) == Some(end)
    ensures Client.StreamMessages(s)
         == Client.BlockMessages(s[..end.index]) + Client.StreamMessages(s[end.index + end.length..])
  {
    var block, later := s[..end.index], Client.Drain(s[end.index + end.length..]);
    assert Client.Drain(s).blocks == [block] + later.blocks;
    Client.DispatchedAppend([block], later.blocks);
    assert Client.Dispatched([block]) == Client.BlockMessages(block) + [];
    AppendAssociates(Client.BlockMessages(block), Client.Dispatched(later.blocks), Client.Flush(later.rest));
  }

  /** The two readers agree on every text whose CRs are all part of a CR LF. */
  lemma {:induction false} ReadersAgree(s: string)
    requires CrPaired(s)
    ensures AsMessages(EventsOf(s)) == Client.StreamMessages(s)
  {
    ServerIsByLines(s);
    PanelIsByLines(s);
  }

  // ---- line endings ----

  const ENDINGS: set<string> := {"\n", "\r\n", "\r"}

  datatype Line = Line(content: string, ending: string)

  /** Finished lines and a last one without its ending. */
  function TextOf(lines: seq<Line>, last: string): string {
    if lines == [] then last else lines[0].content + lines[0].ending + TextOf(lines[1..], last)
  }

  ghost predicate Unbroken(s: string) {
    forall i :: 0 <= i < |s| ==> !Client.IsLineBreak(s[i])
  }

  ghost predicate WrittenWith(lines: seq<Line>, last: string, endings: set<string>) {
    Unbroken(last) && forall i :: 0 <= i < |lines| ==> Unbroken(lines[i].content) && lines[i].ending in endings
  }

  ghost predicate SameReading(s: string) {
    AsMessages(EventsOf(s)) == Client.StreamMessages(s)
  }

  ghost predicate ReadAlike(endings: set<string>) {
    forall lines, last :: WrittenWith(lines, last, endings) ==> SameReading(TextOf(lines, last))
  }

  lemma PairedLine(content: string, ending: string, rest: string)
    requires Unbroken(content) && (ending == "\n" || ending == "\r\n") && CrPaired(rest)
    ensures CrPaired(content + ending + rest)
  {
    var s, k := content + ending + rest, |content + ending|;
    assert s[k - 1] == '\n';
    forall i | 0 <= i < |s| && s[i] == '\r' ensures i + 1 < |s| && s[i + 1] == '\n' {
      if i >= k { assert rest[i - k] == s[i]; }
    }
  }

  lemma {:induction false} WrittenIsPaired(lines: seq<Line>, last: string)
    requires WrittenWith(lines, last, {"\n", "\r\n"})
    ensures CrPaired(TextOf(lines, last))
  {
    if lines != [] {
      WrittenIsPaired(lines[1..], last);
      PairedLine(lines[0].content, lines[0].ending, TextOf(lines[1..], last));
    }
  }

  lemma {:induction false} ReadersDiffer()
    ensures !SameReading("data\rdata")
  {
    LoneCrForPanel();
    LoneCrForServer();
    assert |AsMessages([])| != |[Client.Message("message", "\n")]|;
  }

  lemma LoneCrIsWritten(lines: seq<Line>, endings: set<string>)
    requires lines == [Line("data", "\r")] && "\r" in endings
    ensures WrittenWith(lines, "data", endings) && TextOf(lines, "data") == "data\rdata"
  {
    assert lines[1..] == [] && "data" + "\r" + "data" == "data\rdata";
  }

  /** Both readers read alike whatever is written with these line endings, exactly when a carriage return alone
    * is not one of them. */
  lemma {:induction false} ReadAlikeIff(endings: set<string>)
    requires endings <= ENDINGS
    ensures ReadAlike(endings) <==> "\r" !in endings
  {
    if "\r" in endings {
      LoneCrIsWritten([Line("data", "\r")], endings);
      ReadersDiffer();
    } else {
      forall lines, last | WrittenWith(lines, last, endings) ensures SameReading(TextOf(lines, last)) {
        WrittenIsPaired(lines, last);
        ReadersAgree(TextOf(lines, last));
      }
    }
  }

  /** A lone CR between two lines ends a line for the panel but not for the server. */
  lemma {:induction false} LoneCrForPanel()
    ensures Client.StreamMessages("data\rdata") == [Client.Message("message", "\n")]
  {
    var s := "data\rdata";
    assert Client.IsFirstSeparator(s, 0, None);
    Client.FirstSeparatorFinds(s, 0);
    Client.FirstSeparatorIsUnique(s, 0, Client.FirstSeparator(s), None);
    FlushIsParse(s);
    LoneCrLines();
    TwoDataLines();
    assert ["", ""][1..] == [""];
    assert Client.Join(["", ""]) == "\n";
    assert Client.Drain(s) == Client.Drained([], s);
    assert Client.BlockMessages(s) == [Client.Message("message", "\n")];
  }

  lemma LoneCrLines()
    ensures Client.SplitLines("data\rdata") == ["data", "data"]
  {
    var s := "data\rdata";
    FirstBreakIs(s, 4);
    FirstBreakIs("data", 4);
    assert s[..4] == "data" && s[5..] == "data";
  }

  lemma TwoDataLines()
    ensures Client.AddLines(Client.EMPTY, ["data", "data"]) == Client.Fields("", ["", ""])
  {
    assert "data"[..4] == "data";
    var one, two := Client.Fields("", [""]), Client.Fields("", ["", ""]);
    assert Client.AddLine(Client.EMPTY, "data") == one;
    assert Client.AddLine(one, "data") == two;
    assert ["data", "data"][1..] == ["data"];
    assert Client.AddLines(one, ["data"]) == Client.AddLines(two, ["data"][1..]);
  }

  lemma {:induction false} LoneCrForServer()
    ensures EventsOf("data\rdata") == []
  {
    var s := "data\rdata";
    assert ScanLines(s) == [s];
    assert TrimRightCr(s) == s;
    assert s[..Client.IndexOf(s, ':')] == s;
    assert Step(START, s) == START;
    assert Steps(START, [s][1..]) == START;
  }
}
