/** The panel's incremental Server-Sent Events reader (web/src/api.ts).
  *
  * Text is a `string`; UTF-8 decoding happened before. A message is what the reader hands to its
  * event handlers: the event name and the joined data lines.
  */
module SseClient {
  import opened Wrappers

  datatype Message = Message(event: string, data: string)

  datatype Separator = Separator(index: nat, length: nat)

  /** What framing yields: the finished event blocks and the text still waiting for its blank line. */
  datatype Drained = Drained(blocks: seq<string>, rest: string)

  /** The name and the data lines one event block has collected so far. */
  datatype Fields = Fields(event: string, data: seq<string>)

  /** The handlers' side of the stream: every message dispatched so far, in order. */
  class Sink {
    var messages: seq<Message>

    constructor ()
      ensures messages == []
    {
      messages := [];
    }
  }

  // ---- framing ----

  /** An out-of-range index reads as `undefined`, which equals no character. */
  predicate CharAt(s: string, i: nat, c: char) {
    i < |s| && s[i] == c
  }

  /** The length of the blank-line separator starting at index i, 0 if none starts there. */
  function SeparatorLength(s: string, i: nat): (n: nat)
    requires i < |s|
    ensures n == 0 || (2 <= n <= 4 && i + n <= |s|)
  {
    if s[i] == '\n' then
      if CharAt(s, i + 1, '\n') then 2
      else if CharAt(s, i + 1, '\r') && CharAt(s, i + 2, '\n') then 3
      else 0
    else if s[i] == '\r' then
      if CharAt(s, i + 1, '\r') then 2
      else if CharAt(s, i + 1, '\n') then
        if CharAt(s, i + 2, '\n') then 3
        else if CharAt(s, i + 2, '\r') && CharAt(s, i + 3, '\n') then 4
        else 0
      else 0
    else 0
  }

  /** The blank-line forms the reader knows: two line endings in a row, where a lone CR only pairs
    * with another lone CR. */
  const SEPARATORS: set<string> := {"\n\n", "\n\r\n", "\r\r", "\r\n\n", "\r\n\r\n"}

  /** At every index the character tests pick out exactly the listed forms, and at most one of them. */
  lemma {:induction false} SeparatorForms(s: string, i: nat, form: string)
    requires i < |s| && form in SEPARATORS
    ensures form <= s[i..] <==> SeparatorLength(s, i) == |form| && s[i..i + |form|] == form
    ensures SeparatorLength(s, i) > 0 ==> s[i..i + SeparatorLength(s, i)] in SEPARATORS
  {
    var n := SeparatorLength(s, i);
    if n == 2 {
      assert s[i..i + 2] == [s[i], s[i + 1]];
    } else if n == 3 {
      assert s[i..i + 3] == [s[i], s[i + 1], s[i + 2]];
    } else if n == 4 {
      assert s[i..i + 4] == [s[i], s[i + 1], s[i + 2], s[i + 3]];
    }
    assert |form| <= |s| - i ==> s[i..][..|form|] == s[i..i + |form|];
    assert form <= s[i..] ==> forall k :: 0 <= k < |form| ==> s[i + k] == form[k];
  }

  /** No separator starts in from.. before the one found; when none is found, none starts at all. */
  ghost predicate IsFirstSeparator(s: string, from: nat, r: Option<Separator>) {
    && (r.Some? ==> from <= r.value.index < |s| && r.value.length == SeparatorLength(s, r.value.index) > 0)
    && forall i :: from <= i < (if r.Some? then r.value.index else |s|) ==> SeparatorLength(s, i) == 0
  }

  function FirstSeparator(s: string, from: nat := 0): (r: Option<Separator>)
    requires from <= |s|
    ensures r.Some? ==> r.value.index + r.value.length <= |s| && r.value.length > 0
    decreases |s| - from
  {
    if from == |s| then None
    else if SeparatorLength(s, from) > 0 then Some(Separator(from, SeparatorLength(s, from)))
    else FirstSeparator(s, from + 1)
  }

  lemma {:induction false} FirstSeparatorFinds(s: string, from: nat)
    requires from <= |s|
    ensures IsFirstSeparator(s, from, FirstSeparator(s, from))
    decreases |s| - from
  {
    if from < |s| && SeparatorLength(s, from) == 0 {
      FirstSeparatorFinds(s, from + 1);
    }
  }

  lemma {:induction false} FirstSeparatorIsUnique(s: string, from: nat, a: Option<Separator>, b: Option<Separator>)
    requires IsFirstSeparator(s, from, a) && IsFirstSeparator(s, from, b)
    ensures a == b
  {
  }

  method FindSSEEventEnd(buffer: string) returns (r: Option<Separator>)
    ensures IsFirstSeparator(buffer, 0, r)
    ensures r == FirstSeparator(buffer)
  {
    FirstSeparatorFinds(buffer, 0);
    ghost var first := FirstSeparator(buffer);
    var i := 0;
    while i < |buffer|
      invariant i <= |buffer|
      invariant forall k :: 0 <= k < i ==> SeparatorLength(buffer, k) == 0
      invariant first.Some? ==> i <= first.value.index
    {
      var c := buffer[i];
      if c == '\n' {
        if CharAt(buffer, i + 1, '\n') { return Some(Separator(i, 2)); }
        if CharAt(buffer, i + 1, '\r') && CharAt(buffer, i + 2, '\n') { return Some(Separator(i, 3)); }
      } else if c == '\r' {
        if CharAt(buffer, i + 1, '\r') { return Some(Separator(i, 2)); }
        if CharAt(buffer, i + 1, '\n') {
          if CharAt(buffer, i + 2, '\n') { return Some(Separator(i, 3)); }
          if CharAt(buffer, i + 2, '\r') && CharAt(buffer, i + 3, '\n') { return Some(Separator(i, 4)); }
        }
      }
      assert SeparatorLength(buffer, i) == 0;
      i := i + 1;
    }
    return None;
  }

  /** A separator decision is final: more input never changes where the first event ends. */
  lemma {:induction false} ExtensionKeepsSeparator(s: string, more: string)
    requires FirstSeparator(s).Some?
    ensures FirstSeparator(s + more) == FirstSeparator(s)
  {
    var first := FirstSeparator(s);
    var t := s + more;
    FirstSeparatorFinds(s, 0);
    // An index before the match whose answer depends on characters past the end of `s` would lie
    // within three characters of that end, and then nothing after it could have matched inside `s`.
    forall i | 0 <= i < first.value.index
      ensures SeparatorLength(t, i) == 0
    {
      assert SeparatorLength(s, i) == 0;
      assert SeparatorLength(s, first.value.index) > 0;
    }
    assert SeparatorLength(t, first.value.index) == SeparatorLength(s, first.value.index);
    FirstSeparatorFinds(t, 0);
    FirstSeparatorIsUnique(t, 0, FirstSeparator(t), first);
  }

  // ---- one block ----

  predicate IsLineBreak(c: char) {
    c == '\n' || c == '\r'
  }

  /** The length of the line ending at index i: CR LF counts as one ending. */
  function BreakLength(s: string, i: nat): (n: nat)
    requires i < |s| && IsLineBreak(s[i])
    ensures 1 <= n && i + n <= |s|
  {
    if s[i] == '\r' && CharAt(s, i + 1, '\n') then 2 else 1
  }

  /** The index of the first line break at or after from, |s| if there is none. */
  function FirstBreak(s: string, from: nat := 0): (p: nat)
    requires from <= |s|
    ensures from <= p <= |s|
    ensures forall i :: from <= i < p ==> !IsLineBreak(s[i])
    ensures p < |s| ==> IsLineBreak(s[p])
    decreases |s| - from
  {
    if from == |s| || IsLineBreak(s[from]) then from else FirstBreak(s, from + 1)
  }

  /** JavaScript's `split(/\r\n|\n|\r/)`. */
  function SplitLines(s: string): (lines: seq<string>)
    ensures |lines| > 0
    decreases |s|
  {
    var p := FirstBreak(s);
    if p == |s| then [s] else [s[..p]] + SplitLines(s[p + BreakLength(s, p)..])
  }

  /** The index of the first c in s at or after from, |s| if c does not occur there. */
  function IndexOf(s: string, c: char, from: nat := 0): (p: nat)
    requires from <= |s|
    ensures from <= p <= |s|
    ensures forall i :: from <= i < p ==> s[i] != c
    ensures p < |s| ==> s[p] == c
    decreases |s| - from
  {
    if from == |s| || s[from] == c then from else IndexOf(s, c, from + 1)
  }

  function TrimOneSpace(s: string): string {
    if s != "" && s[0] == ' ' then s[1..] else s
  }

  function AddLine(f: Fields, line: string): Fields {
    if line == "" || line[0] == ':' then f
    else
      var colon := IndexOf(line, ':');
      var field := line[..colon];
      var value := if colon == |line| then "" else TrimOneSpace(line[colon + 1..]);
      if field == "event" then f.(event := value)
      else if field == "data" then f.(data := f.data + [value])
      else f
  }

  function AddLines(f: Fields, lines: seq<string>): Fields
    decreases |lines|
  {
    if lines == [] then f else AddLines(AddLine(f, lines[0]), lines[1..])
  }

  lemma {:induction false} AddLinesAppend(f: Fields, a: seq<string>, b: seq<string>)
    ensures AddLines(f, a + b) == AddLines(AddLines(f, a), b)
    decreases |a|
  {
    if a == [] {
      assert a + b == b;
    } else {
      assert (a + b)[1..] == a[1..] + b;
      AddLinesAppend(AddLine(f, a[0]), a[1..], b);
    }
  }

  function Join(parts: seq<string>): string {
    if parts == [] then ""
    else if |parts| == 1 then parts[0]
    else parts[0] + "\n" + Join(parts[1..])
  }

  const EMPTY := Fields("", [])

  /** What one finished block dispatches: at most one message. */
  function MessagesOf(f: Fields): (ms: seq<Message>) {
    if f.data == [] then []
    else [Message(if f.event == "" then "message" else f.event, Join(f.data))]
  }

  function BlockMessages(block: string): seq<Message> {
    MessagesOf(AddLines(EMPTY, SplitLines(block)))
  }

  method ParseSSEBlock(block: string) returns (r: Option<Message>)
    ensures BlockMessages(block) == if r.Some? then [r.value] else []
  {
    var event, data := "", [];
    var lines := SplitLines(block);
    for n := 0 to |lines|
      invariant Fields(event, data) == AddLines(EMPTY, lines[..n])
    {
      var line := lines[n];
      assert lines[..n + 1] == lines[..n] + [line];
      AddLinesAppend(EMPTY, lines[..n], [line]);
      if line == "" || line[0] == ':' { continue; }
      var colon := IndexOf(line, ':');
      var field := line[..colon];
      var value := if colon == |line| then "" else line[colon + 1..];
      if value != "" && value[0] == ' ' { value := value[1..]; }
      if field == "event" {
        event := value;
      } else if field == "data" {
        data := data + [value];
      }
    }
    assert lines[..|lines|] == lines;
    if |data| == 0 { return None; }
    return Some(Message(if event == "" then "message" else event, Join(data)));
  }

  // ---- the buffer loop ----

  function Drain(buffer: string): Drained
    decreases |buffer|
  {
    match FirstSeparator(buffer)
    case None => Drained([], buffer)
    case Some(end) =>
      var later := Drain(buffer[end.index + end.length..]);
      Drained([buffer[..end.index]] + later.blocks, later.rest)
  }

  function Dispatched(blocks: seq<string>): seq<Message> {
    if blocks == [] then [] else BlockMessages(blocks[0]) + Dispatched(blocks[1..])
  }

  lemma {:induction false} DispatchedAppend(a: seq<string>, b: seq<string>)
    ensures Dispatched(a + b) == Dispatched(a) + Dispatched(b)
    decreases |a|
  {
    if a == [] {
      assert a + b == b;
    } else {
      assert (a + b)[1..] == a[1..] + b;
      DispatchedAppend(a[1..], b);
    }
  }

  lemma DispatchedSnoc(done: seq<string>, block: string)
    ensures Dispatched(done + [block]) == Dispatched(done) + BlockMessages(block)
  {
    DispatchedAppend(done, [block]);
    assert Dispatched([block]) == BlockMessages(block) + [];
  }

  method DrainSSEBuffer(buffer: string, sink: Sink) returns (rest: string)
    modifies sink
    ensures sink.messages == old(sink.messages) + Dispatched(Drain(buffer).blocks)
    ensures rest == Drain(buffer).rest
  {
    rest := buffer;
    ghost var done := [];
    while true
      invariant sink.messages == old(sink.messages) + Dispatched(done)
      invariant done + Drain(rest).blocks == Drain(buffer).blocks
      invariant Drain(rest).rest == Drain(buffer).rest
      decreases |rest|
    {
      var end := FindSSEEventEnd(rest);
      if end.None? {
        assert Drain(rest).blocks == [] && done + [] == done;
        return rest;
      }
      ghost var before := rest;
      var block := rest[..end.value.index];
      rest := rest[end.value.index + end.value.length..];
      assert Drain(before) == Drained([block] + Drain(rest).blocks, Drain(rest).rest);
      var message := ParseSSEBlock(block);
      if message.Some? { sink.messages := sink.messages + [message.value]; }
      DispatchedSnoc(done, block);
      AppendAssociates(done, [block], Drain(rest).blocks);
      AppendAssociates(old(sink.messages), Dispatched(done), BlockMessages(block));
      done := done + [block];
    }
  }

  /** JavaScript's `trim`: line terminators and white space. */
  predicate IsSpace(c: char) {
    || '\t' <= c <= '\r' || c == ' ' || c == '\U{00a0}' || c == '\U{1680}' || '\U{2000}' <= c <= '\U{200a}'
    || c == '\U{2028}' || c == '\U{2029}' || c == '\U{202f}' || c == '\U{205f}' || c == '\U{3000}' || c == '\U{feff}'
  }

  predicate IsBlank(s: string) {
    forall i :: 0 <= i < |s| ==> IsSpace(s[i])
  }

  /** The end-of-stream step: a last block without its blank line still counts. */
  function Flush(rest: string): seq<Message> {
    if IsBlank(rest) then [] else BlockMessages(rest)
  }

  function StreamMessages(whole: string): seq<Message> {
    Dispatched(Drain(whole).blocks) + Flush(Drain(whole).rest)
  }

  function Concat(chunks: seq<string>): string {
    if chunks == [] then "" else chunks[0] + Concat(chunks[1..])
  }

  /** The buffer loop over a chunk sequence, starting from an already buffered remainder. */
  function Feed(rest: string, chunks: seq<string>): Drained
    decreases |chunks|
  {
    if chunks == [] then Drained([], rest)
    else
      var now := Drain(rest + chunks[0]);
      var later := Feed(now.rest, chunks[1..]);
      Drained(now.blocks + later.blocks, later.rest)
  }

  lemma ConcatHead(rest: string, chunks: seq<string>)
    requires chunks != []
    ensures rest + Concat(chunks) == rest + chunks[0] + Concat(chunks[1..])
  {
  }

  lemma {:induction false} DrainLeavesNoEvent(s: string)
    ensures FirstSeparator(Drain(s).rest).None?
    decreases |s|
  {
    if FirstSeparator(s).Some? {
      var end := FirstSeparator(s).value;
      DrainLeavesNoEvent(s[end.index + end.length..]);
    }
  }

  lemma FirstBlockStays(s: string, more: string, whole: string)
    requires whole == s + more && FirstSeparator(s).Some?
    ensures FirstSeparator(whole) == FirstSeparator(s)
    ensures var i, n := FirstSeparator(s).value.index, FirstSeparator(s).value.length;
            whole[..i] == s[..i] && whole[i + n..] == s[i + n..] + more
  {
    ExtensionKeepsSeparator(s, more);
  }

  lemma {:induction false} DrainInTwoSteps(s: string, more: string, whole: string)
    requires whole == s + more
    ensures Drain(whole).blocks == Drain(s).blocks + Drain(Drain(s).rest + more).blocks
    ensures Drain(whole).rest == Drain(Drain(s).rest + more).rest
    decreases |s|
  {
    if FirstSeparator(s).Some? {
      var i, n := FirstSeparator(s).value.index, FirstSeparator(s).value.length;
      FirstBlockStays(s, more, whole);
      var tail, wholeTail := s[i + n..], whole[i + n..];
      DrainInTwoSteps(tail, more, wholeTail);
      var later := Drain(Drain(tail).rest + more);
      AppendAssociates([s[..i]], Drain(tail).blocks, later.blocks);
    }
  }

  /** However the stream is cut into chunks, the buffer loop finds the same blocks in the same order
    * and leaves the same remainder as draining the whole text once. */
  lemma {:induction false} ChunkingIndependence(rest: string, chunks: seq<string>)
    requires FirstSeparator(rest).None?
    ensures Feed(rest, chunks) == Drain(rest + Concat(chunks))
    decreases |chunks|
  {
    if chunks == [] {
      assert rest + Concat(chunks) == rest;
    } else {
      ConcatHead(rest, chunks);
      var start := rest + chunks[0];
      DrainLeavesNoEvent(start);
      ChunkingIndependence(Drain(start).rest, chunks[1..]);
      DrainInTwoSteps(start, Concat(chunks[1..]), rest + Concat(chunks));
    }
  }

  lemma {:induction false} FeedAppend(rest: string, a: seq<string>, chunk: string)
    ensures Feed(rest, a + [chunk]).blocks == Feed(rest, a).blocks + Drain(Feed(rest, a).rest + chunk).blocks
    ensures Feed(rest, a + [chunk]).rest == Drain(Feed(rest, a).rest + chunk).rest
    decreases |a|
  {
    var longer := a + [chunk];
    if a == [] {
      var now := Drain(rest + chunk);
      assert Feed(now.rest, longer[1..]) == Drained([], now.rest);
      assert Feed(rest, longer) == Drained(now.blocks + [], now.rest);
    } else {
      var start := rest + a[0];
      var now := Drain(start);
      assert longer[0] == a[0] && longer[1..] == a[1..] + [chunk];
      FeedAppend(now.rest, a[1..], chunk);
      var before := Feed(now.rest, a[1..]);
      AppendAssociates(now.blocks, before.blocks, Drain(before.rest + chunk).blocks);
    }
  }

  lemma FeedDispatch(chunks: seq<string>, n: nat)
    requires n < |chunks|
    ensures Feed("", chunks[..n + 1]).rest == Drain(Feed("", chunks[..n]).rest + chunks[n]).rest
    ensures Dispatched(Feed("", chunks[..n + 1]).blocks)
         == Dispatched(Feed("", chunks[..n]).blocks) + Dispatched(Drain(Feed("", chunks[..n]).rest + chunks[n]).blocks)
  {
    var before := Feed("", chunks[..n]);
    assert chunks[..n + 1] == chunks[..n] + [chunks[n]];
    FeedAppend("", chunks[..n], chunks[n]);
    DispatchedAppend(before.blocks, Drain(before.rest + chunks[n]).blocks);
  }

  lemma FeedWhole(chunks: seq<string>)
    ensures Feed("", chunks) == Drain(Concat(chunks))
  {
    ChunkingIndependence("", chunks);
    assert "" + Concat(chunks) == Concat(chunks);
  }

  method StreamAI(chunks: seq<string>, sink: Sink)
    modifies sink
    ensures sink.messages == old(sink.messages) + StreamMessages(Concat(chunks))
  {
    var buffer := "";
    ghost var dispatched := [];
    for n := 0 to |chunks|
      invariant sink.messages == old(sink.messages) + dispatched
      invariant dispatched == Dispatched(Feed("", chunks[..n]).blocks)
      invariant buffer == Feed("", chunks[..n]).rest
    {
      FeedDispatch(chunks, n);
      buffer := buffer + chunks[n];
      ghost var found := Dispatched(Drain(buffer).blocks);
      buffer := DrainSSEBuffer(buffer, sink);
      AppendAssociates(old(sink.messages), dispatched, found);
      dispatched := dispatched + found;
    }
    assert chunks[..|chunks|] == chunks;
    FeedWhole(chunks);
    ghost var last := Flush(buffer);
    if !IsBlank(buffer) {
      var message := ParseSSEBlock(buffer);
      if message.Some? { sink.messages := sink.messages + [message.value]; }
    }
    AppendAssociates(old(sink.messages), dispatched, last);
  }
}
