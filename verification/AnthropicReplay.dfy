/** Stream-to-replay consistency: however the blocks of a well-formed stream are interleaved, the blocks
  * kept for replay are each the concatenation of their own deltas, in start order, and name the same
  * tool calls as were reported live.
  */
module AnthropicReplay {
  import opened Wrappers
  import opened StreamEvents
  import opened AnthropicTranscript
  import opened AnthropicStream

  // ---- reading one block off the stream ----

  predicate Started(body: seq<Wire>, n: nat, i: int)
    requires n <= |body|
  {
    n > 0 && (Started(body, n - 1, i) || (body[n - 1].Start? && body[n - 1].index == i))
  }

  predicate Stopped(body: seq<Wire>, n: nat, i: int)
    requires n <= |body|
  {
    n > 0 && (Stopped(body, n - 1, i) || (body[n - 1].Stop? && body[n - 1].index == i))
  }

  function StartOf(body: seq<Wire>, n: nat, i: int): StartBlock
    requires n <= |body|
  {
    if n == 0 then StartText
    else if body[n - 1].Start? && body[n - 1].index == i then body[n - 1].block
    else StartOf(body, n - 1, i)
  }

  /** The deltas of one kind for block i among the first n events, concatenated. */
  function Joined(body: seq<Wire>, n: nat, i: int, part: Part): string
    requires n <= |body|
  {
    if n == 0 then ""
    else if body[n - 1].Delta? && body[n - 1].index == i && body[n - 1].part == part then
      Joined(body, n - 1, i, part) + body[n - 1].text
    else Joined(body, n - 1, i, part)
  }

  function Gathered(body: seq<Wire>, n: nat, i: int): Partial
    requires n <= |body|
  {
    Partial(StartOf(body, n, i), Joined(body, n, i, TextPart), Joined(body, n, i, ThinkingPart),
            Joined(body, n, i, SignaturePart), Joined(body, n, i, InputPart))
  }

  /** Block i as a whole: a text has all its text deltas, a thinking block all its thinking and the signature that was
    * streamed or else the one it started with, a tool use all its input; any other block came whole. */
  function Whole(body: seq<Wire>, i: int, assemble: Assemble): Block {
    match StartOf(body, |body|, i)
    case StartText => TextBlock(Joined(body, |body|, i, TextPart))
    case StartThinking(signature) =>
      var streamed := Joined(body, |body|, i, SignaturePart);
      Thinking(Joined(body, |body|, i, ThinkingPart), if streamed != "" then streamed else signature)
    case StartToolUse(id, name) =>
      var input := assemble(Joined(body, |body|, i, InputPart));
      ToolUse(id, name, if input.Some? then input.value else "")
    case StartOther(block) => block
  }

  // ---- well-formed streams ----

  predicate Allowed(body: seq<Wire>, n: nat, assemble: Assemble)
    requires n < |body|
  {
    match body[n]
    case Start(i, _) => !Started(body, n, i)
    case Delta(i, _, _) => Started(body, n, i) && !Stopped(body, n, i)
    case Stop(i) =>
      && Started(body, n, i) && !Stopped(body, n, i)
      && (StartOf(body, n, i).StartToolUse? ==> assemble(Joined(body, n, i, InputPart)).Some?)
    case MessageStop => false
    case Ignored => true
    case Broken => false
  }

  /** Per index one start, then deltas, then at most one stop; tool arguments that are objects. */
  predicate WellFormed(body: seq<Wire>, assemble: Assemble) {
    forall n :: 0 <= n < |body| ==> Allowed(body, n, assemble)
  }

  lemma {:induction false} StoppedWasStarted(body: seq<Wire>, n: nat, i: int, assemble: Assemble)
    requires n <= |body| && WellFormed(body, assemble) && Stopped(body, n, i)
    ensures Started(body, n, i)
  {
    assert Allowed(body, n - 1, assemble);
    if Stopped(body, n - 1, i) { StoppedWasStarted(body, n - 1, i, assemble); }
  }

  /** Nothing is added to a block once it has stopped. */
  lemma {:induction false} StoppedIsSettled(body: seq<Wire>, n: nat, m: nat, i: int, assemble: Assemble)
    requires n <= m <= |body| && WellFormed(body, assemble) && Stopped(body, n, i)
    ensures Stopped(body, m, i) && Gathered(body, m, i) == Gathered(body, n, i)
    decreases m - n
  {
    if n < m {
      StoppedIsSettled(body, n, m - 1, i, assemble);
      StoppedWasStarted(body, m - 1, i, assemble);
      assert Allowed(body, m - 1, assemble);
    }
  }

  // ---- what the parser must report ----

  function StartOrder(body: seq<Wire>, n: nat): seq<int>
    requires n <= |body|
  {
    if n == 0 then []
    else if body[n - 1].Start? then StartOrder(body, n - 1) + [body[n - 1].index]
    else StartOrder(body, n - 1)
  }

  /** What event n reports live: its text at once, a tool call when its block stops. */
  function Report(body: seq<Wire>, n: nat, assemble: Assemble): seq<Ev>
    requires n < |body|
  {
    match body[n]
    case Delta(_, part, text) =>
      if text != "" && part.TextPart? then [TextEvent(text)]
      else if text != "" && part.ThinkingPart? then [ThinkingEvent(text)]
      else []
    case Stop(i) =>
      var block := Whole(body, i, assemble);
      if block.ToolUse? then [CallEvent(Call(block.id, block.name, block.input))] else []
    case _ => []
  }

  function Reports(body: seq<Wire>, n: nat, assemble: Assemble): seq<Ev>
    requires n <= |body|
  {
    if n == 0 then [] else Reports(body, n - 1, assemble) + Report(body, n - 1, assemble)
  }

  /** The stopped blocks among the given indices, whole. */
  function Wholes(body: seq<Wire>, indices: seq<int>, assemble: Assemble): seq<Block> {
    if indices == [] then []
    else
      var front, i := indices[..|indices| - 1], indices[|indices| - 1];
      Wholes(body, front, assemble) + if Stopped(body, |body|, i) then [Whole(body, i, assemble)] else []
  }

  // ---- the parser's state ----

  ghost predicate BlockTracked(body: seq<Wire>, n: nat, s: State, i: int, assemble: Assemble)
    requires n <= |body|
  {
    && (i in s.blocks <==> Started(body, n, i))
    && (i in s.finished <==> Stopped(body, n, i))
    && (i in s.blocks ==> s.blocks[i] == Gathered(body, n, i))
    && (i in s.finished ==> s.finished[i] == Whole(body, i, assemble))
  }

  ghost predicate Tracked(body: seq<Wire>, n: nat, s: State, assemble: Assemble)
    requires n <= |body|
  {
    && (forall i :: BlockTracked(body, n, s, i, assemble))
    && s.order == StartOrder(body, n)
    && s.sent == Reports(body, n, assemble)
  }

  lemma {:induction false} StartedIsFresh(body: seq<Wire>, n: nat, i: int)
    requires n <= |body| && !Started(body, n, i)
    requires forall k :: 0 <= k < n && body[k].Delta? ==> Started(body, k, body[k].index)
    ensures Gathered(body, n, i) == Partial(StartOf(body, n, i), "", "", "", "")
  {
    if n > 0 {
      StartedIsFresh(body, n - 1, i);
      assert Gathered(body, n - 1, i) == Partial(StartOf(body, n - 1, i), "", "", "", "");
    }
  }

  lemma {:induction false} DeltasAreStarted(body: seq<Wire>, assemble: Assemble)
    requires WellFormed(body, assemble)
    ensures forall k :: 0 <= k < |body| && body[k].Delta? ==> Started(body, k, body[k].index)
  {
    forall k | 0 <= k < |body| && body[k].Delta? ensures Started(body, k, body[k].index) {
      assert Allowed(body, k, assemble);
    }
  }

  lemma {:induction false} TrackBlock(body: seq<Wire>, n: nat, s: State, i: int, assemble: Assemble)
    requires n < |body| && WellFormed(body, assemble)
    requires BlockTracked(body, n, s, i, assemble)
    requires Step(s, body[n], assemble).1.Running?
    ensures BlockTracked(body, n + 1, Step(s, body[n], assemble).0, i, assemble)
  {
    assert Allowed(body, n, assemble);
    match body[n]
    case Start(j, _) =>
      if i == j {
        DeltasAreStarted(body, assemble);
        StartedIsFresh(body, n, i);
        assert Gathered(body, n, i) == Partial(StartOf(body, n, i), "", "", "", "");
      }
    case Delta(j, part, text) =>
    case Stop(j) =>
      if i == j {
        assert Stopped(body, n + 1, i);
        StoppedIsSettled(body, n + 1, |body|, i, assemble);
      }
    case _ =>
  }

  lemma {:induction false} TrackStep(body: seq<Wire>, n: nat, s: State, assemble: Assemble)
    requires n < |body| && WellFormed(body, assemble) && Tracked(body, n, s, assemble)
    ensures Step(s, body[n], assemble).1.Running?
    ensures Tracked(body, n + 1, Step(s, body[n], assemble).0, assemble)
  {
    assert Allowed(body, n, assemble);
    var i := if body[n].Start? || body[n].Delta? || body[n].Stop? then body[n].index else 0;
    assert BlockTracked(body, n, s, i, assemble);
    var (next, outcome) := Step(s, body[n], assemble);
    var m := n + 1;
    forall j ensures BlockTracked(body, m, next, j, assemble) {
      TrackBlock(body, n, s, j, assemble);
    }
    if body[n].Stop? {
      assert Stopped(body, n + 1, i);
      StoppedIsSettled(body, n + 1, |body|, i, assemble);
    }
    assert s.sent + [] == s.sent;
  }

  lemma {:induction false} TrackAll(body: seq<Wire>, n: nat, assemble: Assemble)
    requires n <= |body| && WellFormed(body, assemble)
    ensures After(body, n, assemble).1.Running? && Tracked(body, n, After(body, n, assemble).0, assemble)
  {
    if n > 0 {
      TrackAll(body, n - 1, assemble);
      TrackStep(body, n - 1, After(body, n - 1, assemble).0, assemble);
    }
  }

  // ---- the end of the stream ----

  lemma {:induction false} StartOrderIs(body: seq<Wire>, n: nat, i: int)
    requires n <= |body|
    ensures i in StartOrder(body, n) <==> Started(body, n, i)
  {
    if n > 0 { StartOrderIs(body, n - 1, i); }
  }

  lemma {:induction false} FinishedAreWhole(body: seq<Wire>, s: State, order: seq<int>, n: nat, assemble: Assemble)
    requires n <= |order| && Tracked(body, |body|, s, assemble)
    ensures FinishedBlocks(s.finished, order, n) == Wholes(body, order[..n], assemble)
  {
    if n > 0 {
      FinishedAreWhole(body, s, order, n - 1, assemble);
      assert order[..n][..n - 1] == order[..n - 1];
      assert BlockTracked(body, |body|, s, order[n - 1], assemble);
    }
  }

  /** The replayable blocks of a whole stream: its stopped blocks in start order. */
  function Replay(body: seq<Wire>, assemble: Assemble): seq<Block> {
    Wholes(body, StartOrder(body, |body|), assemble)
  }

  predicate AnyStopped(body: seq<Wire>, n: nat)
    requires n <= |body|
  {
    n > 0 && (AnyStopped(body, n - 1) || body[n - 1].Stop?)
  }

  lemma {:induction false} StoppedIsAny(body: seq<Wire>, n: nat, i: int)
    requires n <= |body| && Stopped(body, n, i)
    ensures AnyStopped(body, n)
  {
    if Stopped(body, n - 1, i) { StoppedIsAny(body, n - 1, i); }
  }

  lemma {:induction false} SomeStopped(body: seq<Wire>, n: nat) returns (i: int)
    requires n <= |body| && AnyStopped(body, n)
    ensures Stopped(body, n, i)
  {
    if AnyStopped(body, n - 1) { i := SomeStopped(body, n - 1); } else { i := body[n - 1].index; }
  }

  lemma {:induction false} AfterPrefix(a: seq<Wire>, b: seq<Wire>, n: nat, assemble: Assemble)
    requires n <= |a|
    ensures After(a + b, n, assemble) == After(a, n, assemble)
  {
    if n > 0 {
      AfterPrefix(a, b, n - 1, assemble);
      assert (a + b)[n - 1] == a[n - 1];
    }
  }

  lemma {:induction false} RawIsReplay(body: seq<Wire>, s: State, assemble: Assemble)
    requires Tracked(body, |body|, s, assemble)
    ensures DoneRaw(s.finished, s.order) == if AnyStopped(body, |body|) then Some(Replay(body, assemble)) else None
  {
    if AnyStopped(body, |body|) {
      var i := SomeStopped(body, |body|);
      assert BlockTracked(body, |body|, s, i, assemble);
      FinishedAreWhole(body, s, s.order, |s.order|, assemble);
      assert s.order[..|s.order|] == s.order;
    } else {
      forall i ensures i !in s.finished {
        assert BlockTracked(body, |body|, s, i, assemble);
        if Stopped(body, |body|, i) { StoppedIsAny(body, |body|, i); }
      }
      assert s.finished == map[];
    }
  }

  /** All that is reported for a well-formed stream and its end marker. */
  function Reported(body: seq<Wire>, assemble: Assemble): seq<Ev> {
    Reports(body, |body|, assemble) + [DoneEvent(if AnyStopped(body, |body|) then Some(Replay(body, assemble)) else None)]
  }

  /** A well-formed stream with its end marker is accepted, and reports exactly this. */
  lemma {:induction false} StreamReports(body: seq<Wire>, events: seq<Wire>, assemble: Assemble)
    requires WellFormed(body, assemble) && events == body + [MessageStop]
    ensures After(events, |events|, assemble).1.Finished?
    ensures After(events, |events|, assemble).0.sent == Reported(body, assemble)
  {
    var s := After(body, |body|, assemble).0;
    AfterPrefix(body, [MessageStop], |body|, assemble);
    TrackAll(body, |body|, assemble);
    RawIsReplay(body, s, assemble);
    assert After(events, |events|, assemble) == Step(s, events[|body|], assemble);
  }

  // ---- the calls named by the replay ----

  /** How many of the first n reports are tool calls under the id. */
  function Calls(sent: seq<Ev>, n: nat, id: string): nat
    requires n <= |sent|
  {
    if n == 0 then 0
    else Calls(sent, n - 1, id) + if sent[n - 1].CallEvent? && sent[n - 1].call.id == id then 1 else 0
  }

  lemma {:induction false} CallsPrefix(a: seq<Ev>, b: seq<Ev>, n: nat, id: string)
    requires n <= |a|
    ensures Calls(a + b, n, id) == Calls(a, n, id)
  {
    if n > 0 { CallsPrefix(a, b, n - 1, id); }
  }

  lemma {:induction false} CallsAppend(a: seq<Ev>, b: seq<Ev>, n: nat, id: string)
    requires n <= |b|
    ensures Calls(a + b, |a| + n, id) == Calls(a, |a|, id) + Calls(b, n, id)
  {
    if n == 0 { CallsPrefix(a, b, |a|, id); } else { CallsAppend(a, b, n - 1, id); }
  }

  predicate IsCall(body: seq<Wire>, i: int, id: string, assemble: Assemble) {
    var block := Whole(body, i, assemble);
    block.ToolUse? && block.id == id
  }

  /** How many of the first k given blocks have stopped within the first n events and call under the id. */
  function StoppedCalls(body: seq<Wire>, n: nat, indices: seq<int>, k: nat, id: string, assemble: Assemble): nat
    requires n <= |body| && k <= |indices|
  {
    if k == 0 then 0
    else
      StoppedCalls(body, n, indices, k - 1, id, assemble)
      + if Stopped(body, n, indices[k - 1]) && IsCall(body, indices[k - 1], id, assemble) then 1 else 0
  }

  predicate Distinct(indices: seq<int>) {
    forall k, l :: 0 <= k < l < |indices| ==> indices[k] != indices[l]
  }

  lemma {:induction false} StartOrderDistinct(body: seq<Wire>, n: nat, assemble: Assemble)
    requires n <= |body| && WellFormed(body, assemble)
    ensures Distinct(StartOrder(body, n))
  {
    if n > 0 {
      StartOrderDistinct(body, n - 1, assemble);
      assert Allowed(body, n - 1, assemble);
      if body[n - 1].Start? { StartOrderIs(body, n - 1, body[n - 1].index); }
    }
  }

  /** Event n stops a block that calls under the id. */
  predicate StopsCall(body: seq<Wire>, n: nat, id: string, assemble: Assemble)
    requires n < |body|
  {
    body[n].Stop? && IsCall(body, body[n].index, id, assemble)
  }

  lemma {:induction false} StopAdds(body: seq<Wire>, n: nat, indices: seq<int>, k: nat, id: string, assemble: Assemble)
    requires n < |body| && k <= |indices| && Distinct(indices) && (body[n].Stop? ==> !Stopped(body, n, body[n].index))
    ensures StoppedCalls(body, n + 1, indices, k, id, assemble) ==
            StoppedCalls(body, n, indices, k, id, assemble)
            + if StopsCall(body, n, id, assemble) && body[n].index in indices[..k] then 1 else 0
  {
    if k > 0 { StopAdds(body, n, indices, k - 1, id, assemble); }
  }

  lemma {:induction false} StopIsStarted(body: seq<Wire>, n: nat, assemble: Assemble)
    requires n < |body| && WellFormed(body, assemble) && body[n].Stop?
    ensures Started(body, |body|, body[n].index)
  {
    var i := body[n].index;
    assert Allowed(body, n, assemble);
    assert Stopped(body, n + 1, i) && Gathered(body, n + 1, i) == Gathered(body, n, i);
    StoppedIsSettled(body, n + 1, |body|, i, assemble);
    StoppedWasStarted(body, |body|, i, assemble);
  }

  lemma {:induction false} ReportCalls(body: seq<Wire>, n: nat, id: string, assemble: Assemble)
    requires n < |body| && WellFormed(body, assemble)
    ensures var report := Report(body, n, assemble);
            Calls(report, |report|, id) == if StopsCall(body, n, id, assemble) then 1 else 0
  {
    assert Allowed(body, n, assemble);
    if body[n].Stop? { StopIsStarted(body, n, assemble); }
    var report := Report(body, n, assemble);
    assert |report| <= 1;
    assert Calls(report, 0, id) == 0;
  }

  lemma {:induction false} ReportsGrow(body: seq<Wire>, n: nat, id: string, assemble: Assemble)
    requires n < |body| && WellFormed(body, assemble)
    ensures var before, after := Reports(body, n, assemble), Reports(body, n + 1, assemble);
            Calls(after, |after|, id) == Calls(before, |before|, id) + if StopsCall(body, n, id, assemble) then 1 else 0
  {
    var before, report := Reports(body, n, assemble), Report(body, n, assemble);
    CallsAppend(before, report, |report|, id);
    ReportCalls(body, n, id, assemble);
  }

  lemma {:induction false} StoppedGrow(body: seq<Wire>, n: nat, indices: seq<int>, id: string, assemble: Assemble)
    requires n < |body| && WellFormed(body, assemble) && indices == StartOrder(body, |body|)
    ensures StoppedCalls(body, n + 1, indices, |indices|, id, assemble) ==
            StoppedCalls(body, n, indices, |indices|, id, assemble) + if StopsCall(body, n, id, assemble) then 1 else 0
  {
    StartOrderDistinct(body, |body|, assemble);
    assert Allowed(body, n, assemble);
    if body[n].Stop? {
      StopIsStarted(body, n, assemble);
      StartOrderIs(body, |body|, body[n].index);
    }
    assert indices[..|indices|] == indices;
    StopAdds(body, n, indices, |indices|, id, assemble);
  }

  lemma {:induction false} NothingStopped(body: seq<Wire>, indices: seq<int>, k: nat, id: string, assemble: Assemble)
    requires k <= |indices|
    ensures StoppedCalls(body, 0, indices, k, id, assemble) == 0
  {
    if k > 0 { NothingStopped(body, indices, k - 1, id, assemble); }
  }

  /** How many more calls under the id are reported than stopped, within the first n events. */
  function Balance(body: seq<Wire>, n: nat, id: string, assemble: Assemble): int
    requires n <= |body|
  {
    var sent, indices := Reports(body, n, assemble), StartOrder(body, |body|);
    Calls(sent, |sent|, id) - StoppedCalls(body, n, indices, |indices|, id, assemble)
  }

  lemma {:induction false} BalanceKept(body: seq<Wire>, n: nat, id: string, assemble: Assemble)
    requires n < |body| && WellFormed(body, assemble)
    ensures Balance(body, n + 1, id, assemble) == Balance(body, n, id, assemble)
  {
    ReportsGrow(body, n, id, assemble);
    StoppedGrow(body, n, StartOrder(body, |body|), id, assemble);
  }

  lemma {:induction false} AlwaysBalanced(body: seq<Wire>, n: nat, id: string, assemble: Assemble)
    requires n <= |body| && WellFormed(body, assemble)
    ensures Balance(body, n, id, assemble) == 0
  {
    if n == 0 {
      NothingStopped(body, StartOrder(body, |body|), |StartOrder(body, |body|)|, id, assemble);
    } else {
      AlwaysBalanced(body, n - 1, id, assemble);
      BalanceKept(body, n - 1, id, assemble);
    }
  }

  /** How many of the first n blocks are tool uses under the id. */
  function Uses(bs: seq<Block>, n: nat, id: string): nat
    requires n <= |bs|
  {
    if n == 0 then 0 else Uses(bs, n - 1, id) + if bs[n - 1].ToolUse? && bs[n - 1].id == id then 1 else 0
  }

  lemma {:induction false} UsesPrefix(a: seq<Block>, b: seq<Block>, n: nat, id: string)
    requires n <= |a|
    ensures Uses(a + b, n, id) == Uses(a, n, id)
  {
    if n > 0 { UsesPrefix(a, b, n - 1, id); }
  }

  lemma CountAppend<T>(front: seq<T>, x: T, y: T)
    ensures multiset(front + [x])[y] == multiset(front)[y] + if x == y then 1 else 0
  {
  }

  lemma {:induction false} BlockIDsCount(bs: seq<Block>, n: nat, id: string)
    requires n <= |bs|
    ensures multiset(BlockIDs(bs, n))[id] == if id == "" then 0 else Uses(bs, n, id)
  {
    if n > 0 {
      BlockIDsCount(bs, n - 1, id);
      if bs[n - 1].ToolUse? && bs[n - 1].id != "" {
        CountAppend(BlockIDs(bs, n - 1), bs[n - 1].id, id);
      }
    }
  }

  lemma {:induction false} WholesUses(body: seq<Wire>, indices: seq<int>, k: nat, id: string, assemble: Assemble)
    requires k <= |indices|
    ensures var blocks := Wholes(body, indices[..k], assemble);
            Uses(blocks, |blocks|, id) == StoppedCalls(body, |body|, indices, k, id, assemble)
  {
    if k > 0 {
      WholesUses(body, indices, k - 1, id, assemble);
      assert indices[..k][..k - 1] == indices[..k - 1];
      var before, after := Wholes(body, indices[..k - 1], assemble), Wholes(body, indices[..k], assemble);
      if Stopped(body, |body|, indices[k - 1]) {
        var block := Whole(body, indices[k - 1], assemble);
        assert after == before + [block];
        UsesPrefix(before, [block], |before|, id);
      } else {
        assert after == before;
      }
    }
  }

  lemma {:induction false} DoneCallsNothing(body: seq<Wire>, id: string, assemble: Assemble)
    ensures Calls(Reported(body, assemble), |Reported(body, assemble)|, id) ==
            Calls(Reports(body, |body|, assemble), |Reports(body, |body|, assemble)|, id)
  {
    var sent, all := Reports(body, |body|, assemble), Reported(body, assemble);
    assert all == sent + all[|sent|..];
    CallsPrefix(sent, all[|sent|..], |sent|, id);
  }

  /** The ids that the transcript encoder reads back from the stored blocks are the nonempty ids of the
    * calls reported live, each as often. */
  lemma {:induction false} ReplayNamesTheCalls(body: seq<Wire>, m: Message, id: string, assemble: Assemble)
    requires WellFormed(body, assemble) && m.raw == Blocks(Replay(body, assemble))
    ensures ToolUseIDs(m).Some?
    ensures multiset(ToolUseIDs(m).value)[id] ==
            if id == "" then 0 else Calls(Reported(body, assemble), |Reported(body, assemble)|, id)
  {
    var indices, blocks := StartOrder(body, |body|), Replay(body, assemble);
    BlockIDsCount(blocks, |blocks|, id);
    assert indices[..|indices|] == indices;
    WholesUses(body, indices, |indices|, id, assemble);
    AlwaysBalanced(body, |body|, id, assemble);
    DoneCallsNothing(body, id, assemble);
  }

  // ---- any stream at all ----

  predicate NoDone(sent: seq<Ev>) {
    forall k :: 0 <= k < |sent| ==> !sent[k].DoneEvent?
  }

  /** Done is reported exactly when the stream is accepted, once, and last. */
  lemma {:induction false} DoneOnceAndLast(events: seq<Wire>, n: nat, assemble: Assemble)
    requires n <= |events|
    ensures var (s, outcome) := After(events, n, assemble);
            if outcome.Finished? then s.sent != [] && s.sent[|s.sent| - 1].DoneEvent? && NoDone(s.sent[..|s.sent| - 1])
            else NoDone(s.sent)
  {
    if n > 0 { DoneOnceAndLast(events, n - 1, assemble); }
  }

  /** Only the end marker makes a stream acceptable. */
  lemma {:induction false} TruncatedNeverAccepted(events: seq<Wire>, n: nat, assemble: Assemble)
    requires n <= |events| && forall k :: 0 <= k < n ==> !events[k].MessageStop?
    ensures !After(events, n, assemble).1.Finished?
  {
    if n > 0 { TruncatedNeverAccepted(events, n - 1, assemble); }
  }
}
