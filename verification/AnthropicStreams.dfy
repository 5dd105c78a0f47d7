/** What the Anthropic stream parser makes of any stream whatever: blocks that are started again, stopped twice, stopped
  * never or fed after their stop. AnthropicReplay says the same of well-formed streams in simpler words.
  */
module AnthropicStreams {
  import opened Wrappers
  import opened StreamEvents
  import opened AnthropicTranscript
  import opened AnthropicStream
  import opened AnthropicReplay

  // ---- one block, read off the events ----

  /** The deltas of one kind for block i since it last started. */
  function Since(events: seq<Wire>, n: nat, i: int, part: Part): string
    requires n <= |events|
  {
    if n == 0 || (events[n - 1].Start? && events[n - 1].index == i) then ""
    else if events[n - 1].Delta? && events[n - 1].index == i && events[n - 1].part == part then
      Since(events, n - 1, i, part) + events[n - 1].text
    else Since(events, n - 1, i, part)
  }

  /** Block i as the first n events leave it, were it to stop there; none if its tool arguments are refused. */
  function Standing(events: seq<Wire>, n: nat, i: int, assemble: Assemble): Option<Block>
    requires n <= |events|
  {
    match StartOf(events, n, i)
    case StartText => Some(TextBlock(Since(events, n, i, TextPart)))
    case StartThinking(signature) =>
      var streamed := Since(events, n, i, SignaturePart);
      Some(Thinking(Since(events, n, i, ThinkingPart), if streamed == "" then signature else streamed))
    case StartToolUse(id, name) =>
      var input := assemble(Since(events, n, i, InputPart));
      if input.Some? then Some(ToolUse(id, name, input.value)) else None
    case StartOther(block) => Some(block)
  }

  /** Block i as its last stop left it. */
  function Left(events: seq<Wire>, n: nat, i: int, assemble: Assemble): Option<Block>
    requires n <= |events|
  {
    if n == 0 then None
    else if events[n - 1].Stop? && events[n - 1].index == i then Standing(events, n - 1, i, assemble)
    else Left(events, n - 1, i, assemble)
  }

  /** The indices of the started blocks, each once, in the order of their first starts. */
  function FirstStarts(events: seq<Wire>, n: nat): seq<int>
    requires n <= |events|
  {
    if n == 0 then []
    else if events[n - 1].Start? && !Started(events, n - 1, events[n - 1].index) then
      FirstStarts(events, n - 1) + [events[n - 1].index]
    else FirstStarts(events, n - 1)
  }

  /** Event n can be read: it feeds or stops a block that has started, and tool arguments that stop are an object. */
  predicate Readable(events: seq<Wire>, n: nat, assemble: Assemble)
    requires n < |events|
  {
    match events[n]
    case Delta(i, _, _) => Started(events, n, i)
    case Stop(i) => Started(events, n, i) && Standing(events, n, i, assemble).Some?
    case Broken => false
    case _ => true
  }

  /** The first n events can be read, and the end marker is not among them. */
  predicate Open(events: seq<Wire>, n: nat, assemble: Assemble)
    requires n <= |events|
  {
    forall k :: 0 <= k < n ==> Readable(events, k, assemble) && !events[k].MessageStop?
  }

  // ---- what must be reported ----

  function Live(events: seq<Wire>, n: nat, assemble: Assemble): seq<Ev>
    requires n < |events|
  {
    match events[n]
    case Delta(_, TextPart, text) => if text == "" then [] else [TextEvent(text)]
    case Delta(_, ThinkingPart, text) => if text == "" then [] else [ThinkingEvent(text)]
    case Stop(i) =>
      var block := Standing(events, n, i, assemble);
      if StartOf(events, n, i).StartToolUse? && block.Some? && block.value.ToolUse? then
        [CallEvent(Call(block.value.id, block.value.name, block.value.input))]
      else []
    case _ => []
  }

  function LiveUpTo(events: seq<Wire>, n: nat, assemble: Assemble): seq<Ev>
    requires n <= |events|
  {
    if n == 0 then [] else LiveUpTo(events, n - 1, assemble) + Live(events, n - 1, assemble)
  }

  /** The first k of the given blocks that have stopped at all. */
  function LeftOf(events: seq<Wire>, n: nat, indices: seq<int>, k: nat, assemble: Assemble): seq<Block>
    requires n <= |events| && k <= |indices|
  {
    if k == 0 then []
    else
      var front, block := LeftOf(events, n, indices, k - 1, assemble), Left(events, n, indices[k - 1], assemble);
      if block.Some? then front + [block.value] else front
  }

  predicate AnyLeft(events: seq<Wire>, n: nat)
    requires n <= |events|
  {
    exists k :: 0 <= k < n && events[k].Stop?
  }

  /** The blocks kept for replay: those that have stopped, by their first start; none at all if none has stopped. */
  function Kept(events: seq<Wire>, n: nat, assemble: Assemble): Option<seq<Block>>
    requires n <= |events|
  {
    var indices := FirstStarts(events, n);
    if AnyLeft(events, n) then Some(LeftOf(events, n, indices, |indices|, assemble)) else None
  }

  // ---- the parser's state ----

  ghost predicate BlockIs(events: seq<Wire>, n: nat, s: State, i: int, assemble: Assemble)
    requires n <= |events|
  {
    && (i in s.blocks <==> Started(events, n, i))
    && (i in s.blocks ==> s.blocks[i].start == StartOf(events, n, i)
                          && s.blocks[i].text == Since(events, n, i, TextPart)
                          && s.blocks[i].thinking == Since(events, n, i, ThinkingPart)
                          && s.blocks[i].signature == Since(events, n, i, SignaturePart)
                          && s.blocks[i].input == Since(events, n, i, InputPart))
    && (if i in s.finished then Left(events, n, i, assemble) == Some(s.finished[i]) else Left(events, n, i, assemble).None?)
  }

  ghost predicate Follows(events: seq<Wire>, n: nat, s: State, assemble: Assemble)
    requires n <= |events|
  {
    && (forall i :: BlockIs(events, n, s, i, assemble))
    && s.order == FirstStarts(events, n)
    && s.sent == LiveUpTo(events, n, assemble)
  }

  lemma {:induction false} BlockStep(events: seq<Wire>, n: nat, s: State, i: int, assemble: Assemble)
    requires n < |events| && BlockIs(events, n, s, i, assemble)
    requires Readable(events, n, assemble) && Step(s, events[n], assemble).1.Running?
    ensures BlockIs(events, n + 1, Step(s, events[n], assemble).0, i, assemble)
  {
  }

  /** An open stream is read on exactly if its next event can be read. */
  lemma {:induction false} FollowStep(events: seq<Wire>, n: nat, s: State, assemble: Assemble)
    requires n < |events| && Follows(events, n, s, assemble) && !events[n].MessageStop?
    ensures Step(s, events[n], assemble).1 == if Readable(events, n, assemble) then Running else Failed
    ensures Readable(events, n, assemble) ==> Follows(events, n + 1, Step(s, events[n], assemble).0, assemble)
  {
    var i := if events[n].Start? || events[n].Delta? || events[n].Stop? then events[n].index else 0;
    assert BlockIs(events, n, s, i, assemble);
    if Readable(events, n, assemble) {
      var next, m := Step(s, events[n], assemble).0, n + 1;
      forall j ensures BlockIs(events, m, next, j, assemble) {
        BlockStep(events, n, s, j, assemble);
      }
      assert s.sent + [] == s.sent;
    }
  }

  lemma {:induction false} FollowAll(events: seq<Wire>, n: nat, assemble: Assemble)
    requires n <= |events| && Open(events, n, assemble)
    ensures After(events, n, assemble).1.Running? && Follows(events, n, After(events, n, assemble).0, assemble)
  {
    if n > 0 {
      FollowAll(events, n - 1, assemble);
      FollowStep(events, n - 1, After(events, n - 1, assemble).0, assemble);
      assert Readable(events, n - 1, assemble);
    }
  }

  // ---- every stream ----

  lemma {:induction false} StoppedIsLeft(events: seq<Wire>, n: nat, assemble: Assemble) returns (i: int)
    requires n <= |events| && Open(events, n, assemble) && AnyLeft(events, n)
    ensures Left(events, n, i, assemble).Some?
  {
    assert Readable(events, n - 1, assemble);
    if events[n - 1].Stop? {
      i := events[n - 1].index;
    } else {
      i := StoppedIsLeft(events, n - 1, assemble);
    }
  }

  lemma {:induction false} LeftHasStopped(events: seq<Wire>, n: nat, i: int, assemble: Assemble)
    requires n <= |events| && Left(events, n, i, assemble).Some?
    ensures AnyLeft(events, n)
  {
    if !events[n - 1].Stop? { LeftHasStopped(events, n - 1, i, assemble); }
  }

  lemma {:induction false} FinishedIsLeft(events: seq<Wire>, n: nat, s: State, k: nat, assemble: Assemble)
    requires n <= |events| && Follows(events, n, s, assemble) && k <= |s.order|
    ensures FinishedBlocks(s.finished, s.order, k) == LeftOf(events, n, s.order, k, assemble)
  {
    if k > 0 {
      FinishedIsLeft(events, n, s, k - 1, assemble);
      assert BlockIs(events, n, s, s.order[k - 1], assemble);
    }
  }

  lemma {:induction false} RawIsKept(events: seq<Wire>, n: nat, s: State, assemble: Assemble)
    requires n <= |events| && Open(events, n, assemble) && Follows(events, n, s, assemble)
    ensures DoneRaw(s.finished, s.order) == Kept(events, n, assemble)
  {
    FinishedIsLeft(events, n, s, |s.order|, assemble);
    if AnyLeft(events, n) {
      var i := StoppedIsLeft(events, n, assemble);
      assert BlockIs(events, n, s, i, assemble);
    } else {
      forall i ensures i !in s.finished {
        assert BlockIs(events, n, s, i, assemble);
        if Left(events, n, i, assemble).Some? { LeftHasStopped(events, n, i, assemble); }
      }
      assert s.finished == map[];
    }
  }

  lemma {:induction false} OutcomeStays(events: seq<Wire>, n: nat, m: nat, assemble: Assemble)
    requires n <= m <= |events| && !After(events, n, assemble).1.Running?
    ensures After(events, m, assemble) == After(events, n, assemble)
  {
    if n < m { OutcomeStays(events, n, m - 1, assemble); }
  }

  /** Of any stream whatever: while it is open the reports are these. At the first event that cannot be read it fails,
    * and at the end marker it is accepted with the blocks kept for replay. */
  lemma {:induction false} AnyStreamReports(events: seq<Wire>, n: nat, assemble: Assemble)
    requires n < |events| && Open(events, n, assemble)
    ensures After(events, n, assemble).1.Running?
    ensures After(events, n, assemble).0.sent == LiveUpTo(events, n, assemble)
    ensures !Readable(events, n, assemble) ==>
              After(events, |events|, assemble).1.Failed?
              && After(events, |events|, assemble).0.sent == LiveUpTo(events, n, assemble)
    ensures events[n].MessageStop? ==>
              After(events, |events|, assemble).1.Finished?
              && After(events, |events|, assemble).0.sent ==
                 LiveUpTo(events, n, assemble) + [DoneEvent(Kept(events, n, assemble))]
  {
    var s := After(events, n, assemble).0;
    FollowAll(events, n, assemble);
    if events[n].MessageStop? {
      RawIsKept(events, n, s, assemble);
      OutcomeStays(events, n + 1, |events|, assemble);
    } else if !Readable(events, n, assemble) {
      FollowStep(events, n, s, assemble);
      OutcomeStays(events, n + 1, |events|, assemble);
    }
  }

  /** A stream is accepted exactly if an end marker stands behind events that can all be read. */
  lemma {:induction false} AcceptedIff(events: seq<Wire>, assemble: Assemble)
    ensures After(events, |events|, assemble).1.Finished? <==>
            exists n :: 0 <= n < |events| && events[n].MessageStop? && Open(events, n, assemble)
  {
    if Open(events, |events|, assemble) {
      FollowAll(events, |events|, assemble);
    } else {
      var n := FirstClosed(events, |events|, assemble);
      AnyStreamReports(events, n, assemble);
    }
  }

  lemma {:induction false} FirstClosed(events: seq<Wire>, m: nat, assemble: Assemble) returns (n: nat)
    requires m <= |events| && !Open(events, m, assemble)
    ensures n < m && Open(events, n, assemble) && (!Readable(events, n, assemble) || events[n].MessageStop?)
  {
    if Open(events, m - 1, assemble) { n := m - 1; } else { n := FirstClosed(events, m - 1, assemble); }
  }

  /** A block that starts again loses what it had gathered, and stands where it first stood. */
  lemma {:induction false} RestartForgets(events: seq<Wire>, n: nat, i: int, part: Part)
    requires n < |events| && events[n].Start? && events[n].index == i && Started(events, n, i)
    ensures Since(events, n + 1, i, part) == "" && FirstStarts(events, n + 1) == FirstStarts(events, n)
  {
  }
}
