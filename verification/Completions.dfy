/** The chat-completions stream parser (internal/server/aiprotocol/openai_completions.go): tool calls arrive as
  * fragments keyed by index and are reported when the stream says the turn is over.
  */
module Completions {
  import opened Wrappers
  import opened StreamEvents
  import opened Sorting

  datatype Fragment = Fragment(index: int, id: string, name: string, arguments: string)

  datatype Choice = Choice(content: string, reasoningContent: string, reasoning: string, fragments: seq<Fragment>,
                           finishReason: string)

  /** One data payload: blank, the end marker, undecodable, a reported failure, or a chunk. */
  datatype Payload = Blank | EndMarker | Broken | UpstreamError | Chunk(choices: seq<Choice>)

  /** This dialect has no native blocks. */
  datatype NoRaw = NoRaw

  type Ev = Event<NoRaw>

  datatype Partial = Partial(id: string, name: string, arguments: string)

  datatype State = State(calls: map<int, Partial>, indices: seq<int>, finishSeen: bool, gotChunk: bool, doneSent: bool,
                         sent: seq<Ev>)

  const INITIAL: State := State(map[], [], false, false, false, [])

  predicate Valid(s: State) {
    forall k :: 0 <= k < |s.indices| ==> s.indices[k] in s.calls
  }

  // ---- one step ----

  function Extended(p: Partial, f: Fragment): Partial {
    Partial(if f.id != "" then f.id else p.id, if f.name != "" then f.name else p.name, p.arguments + f.arguments)
  }

  function WithFragment(s: State, f: Fragment): (r: State)
    requires Valid(s)
    ensures Valid(r)
  {
    if f.index in s.calls then s.(calls := s.calls[f.index := Extended(s.calls[f.index], f)])
    else s.(calls := s.calls[f.index := Extended(Partial("", "", ""), f)], indices := s.indices + [f.index])
  }

  function WithFragments(s: State, fs: seq<Fragment>, n: nat): (r: State)
    requires Valid(s) && n <= |fs|
    ensures Valid(r)
  {
    if n == 0 then s else WithFragment(WithFragments(s, fs, n - 1), fs[n - 1])
  }

  /** The text and thinking a choice shows at once. */
  function Shown(c: Choice): seq<Ev> {
    var thinking := if c.reasoningContent != "" then c.reasoningContent else c.reasoning;
    (if c.content != "" then [TextEvent(c.content)] else []) + if thinking != "" then [ThinkingEvent(thinking)] else []
  }

  function WithChoice(s: State, c: Choice): (r: State)
    requires Valid(s)
    ensures Valid(r)
  {
    var t := WithFragments(s.(sent := s.sent + Shown(c)), c.fragments, |c.fragments|);
    t.(finishSeen := t.finishSeen || c.finishReason != "")
  }

  function WithChoices(s: State, cs: seq<Choice>, n: nat): (r: State)
    requires Valid(s) && n <= |cs|
    ensures Valid(r)
  {
    if n == 0 then s else WithChoice(WithChoices(s, cs, n - 1), cs[n - 1])
  }

  /** Reports the first n of the given calls, up to the first whose arguments are no object. */
  function Flushed(calls: map<int, Partial>, order: seq<int>, n: nat, assemble: Assemble): (seq<Ev>, bool)
    requires n <= |order| && forall k :: 0 <= k < |order| ==> order[k] in calls
  {
    if n == 0 then ([], true)
    else
      var (sent, ok) := Flushed(calls, order, n - 1, assemble);
      var c := calls[order[n - 1]];
      var arguments := assemble(c.arguments);
      if ok && arguments.Some? then (sent + [CallEvent(Call(c.id, c.name, arguments.value))], true) else (sent, false)
  }

  lemma SortedStaysValid(s: State)
    requires Valid(s)
    ensures forall k :: 0 <= k < |SortInts(s.indices)| ==> SortInts(s.indices)[k] in s.calls
  {
    forall k | 0 <= k < |SortInts(s.indices)| ensures SortInts(s.indices)[k] in s.calls {
      assert SortInts(s.indices)[k] in multiset(SortInts(s.indices));
      assert SortInts(s.indices)[k] in s.indices;
    }
  }

  function FlushOf(s: State, assemble: Assemble): (seq<Ev>, bool)
    requires Valid(s)
  {
    SortedStaysValid(s);
    var order := SortInts(s.indices);
    Flushed(s.calls, order, |order|, assemble)
  }

  function WithFlush(s: State, assemble: Assemble): (State, Outcome)
    requires Valid(s)
  {
    var (calls, ok) := FlushOf(s, assemble);
    var t := s.(indices := SortInts(s.indices), sent := s.sent + calls);
    if !ok then (t, Failed)
    else if t.doneSent then (t, Finished)
    else (t.(doneSent := true, sent := t.sent + [DoneEvent(None)]), Finished)
  }

  function Step(s: State, p: Payload, assemble: Assemble): (State, Outcome)
    requires Valid(s)
  {
    match p
    case Blank => (s, Running)
    case EndMarker => WithFlush(s, assemble)
    case Broken => (s, Failed)
    case UpstreamError => (s, Failed)
    case Chunk(choices) => (WithChoices(s.(gotChunk := true), choices, |choices|), Running)
  }

  /** The state and outcome after the first n payloads; the parser stops at the first outcome. */
  function After(ps: seq<Payload>, n: nat, assemble: Assemble): (r: (State, Outcome))
    requires n <= |ps|
    ensures r.1.Running? ==> Valid(r.0)
  {
    if n == 0 then (INITIAL, Running)
    else
      var (s, outcome) := After(ps, n - 1, assemble);
      if outcome.Running? then Step(s, ps[n - 1], assemble) else (s, outcome)
  }

  /** The whole stream, with what happens when the body just ends. */
  function Parsed(ps: seq<Payload>, assemble: Assemble): (State, Outcome) {
    var (s, outcome) := After(ps, |ps|, assemble);
    if !outcome.Running? then (s, outcome)
    else if !s.gotChunk || (!s.finishSeen && !s.doneSent) then (s, Failed)
    else WithFlush(s, assemble)
  }

  // ---- the parser ----

  class CompletionsStreamer {
    const assemble: Assemble
    var calls: map<int, Partial>
    var indices: seq<int>
    var finishSeen: bool
    var gotChunk: bool
    var doneSent: bool
    var sent: seq<Ev>

    constructor (assemble: Assemble)
      ensures this.assemble == assemble && View() == INITIAL
    {
      this.assemble := assemble;
      calls, indices, finishSeen, gotChunk, doneSent, sent := map[], [], false, false, false, [];
    }

    function View(): State
      reads this
    {
      State(calls, indices, finishSeen, gotChunk, doneSent, sent)
    }

    method AddFragments(fs: seq<Fragment>)
      requires Valid(View())
      modifies this
      ensures View() == WithFragments(old(View()), fs, |fs|)
    {
      for n := 0 to |fs|
        invariant Valid(View()) && View() == WithFragments(old(View()), fs, n)
      {
        var f := fs[n];
        var c := Partial("", "", "");
        if f.index in calls { c := calls[f.index]; } else { indices := indices + [f.index]; }
        if f.id != "" { c := c.(id := f.id); }
        if f.name != "" { c := c.(name := f.name); }
        c := c.(arguments := c.arguments + f.arguments);
        calls := calls[f.index := c];
      }
    }

    method ReadChoice(c: Choice)
      requires Valid(View())
      modifies this
      ensures View() == WithChoice(old(View()), c)
    {
      assert sent + [] == sent;
      ghost var was := sent;
      if c.content != "" { sent := sent + [TextEvent(c.content)]; }
      var thinking := c.reasoningContent;
      if thinking == "" { thinking := c.reasoning; }
      if thinking != "" { sent := sent + [ThinkingEvent(thinking)]; }
      assert sent == was + Shown(c);
      AddFragments(c.fragments);
      if c.finishReason != "" { finishSeen := true; }
    }

    method ReadChunk(cs: seq<Choice>)
      requires Valid(View())
      modifies this
      ensures View() == WithChoices(old(View()).(gotChunk := true), cs, |cs|)
    {
      gotChunk := true;
      for n := 0 to |cs|
        invariant Valid(View()) && View() == WithChoices(old(View()).(gotChunk := true), cs, n)
      {
        ReadChoice(cs[n]);
      }
    }

    method EmitCalls(order: seq<int>) returns (ok: bool)
      requires forall k :: 0 <= k < |order| ==> order[k] in calls
      modifies this`sent
      ensures sent == old(sent) + Flushed(calls, order, |order|, assemble).0
      ensures ok == Flushed(calls, order, |order|, assemble).1
    {
      for n := 0 to |order|
        invariant sent == old(sent) + Flushed(calls, order, n, assemble).0
        invariant Flushed(calls, order, n, assemble).1
      {
        var c := calls[order[n]];
        var arguments := assemble(c.arguments);
        if arguments.None? {
          FlushStops(calls, order, n + 1, assemble);
          return false;
        }
        sent := sent + [CallEvent(Call(c.id, c.name, arguments.value))];
      }
      return true;
    }

    method Flush() returns (outcome: Outcome)
      requires Valid(View())
      modifies this
      ensures (View(), outcome) == WithFlush(old(View()), assemble)
    {
      SortedStaysValid(View());
      indices := SortInts(indices);
      var ok := EmitCalls(indices);
      if !ok { return Failed; }
      if !doneSent {
        doneSent := true;
        sent := sent + [DoneEvent(None)];
      }
      return Finished;
    }

    method ReadPayload(p: Payload) returns (outcome: Outcome)
      requires Valid(View())
      modifies this
      ensures (View(), outcome) == Step(old(View()), p, assemble)
    {
      match p
      case Blank => return Running;
      case EndMarker => outcome := Flush();
      case Broken => return Failed;
      case UpstreamError => return Failed;
      case Chunk(choices) =>
        ReadChunk(choices);
        return Running;
    }

    method Stream(ps: seq<Payload>) returns (ok: bool)
      requires View() == INITIAL
      modifies this
      ensures sent == Parsed(ps, assemble).0.sent && (ok <==> Parsed(ps, assemble).1.Finished?)
    {
      for n := 0 to |ps|
        invariant (View(), Running) == After(ps, n, assemble)
      {
        var outcome := ReadPayload(ps[n]);
        if !outcome.Running? {
          StaysOver(ps, n + 1, |ps|, assemble);
          return outcome.Finished?;
        }
      }
      if !gotChunk { return false; }
      if !finishSeen && !doneSent { return false; }
      var outcome := Flush();
      return outcome.Finished?;
    }
  }

  lemma {:induction false} FlushStops(calls: map<int, Partial>, order: seq<int>, n: nat, assemble: Assemble)
    requires n <= |order| && (forall k :: 0 <= k < |order| ==> order[k] in calls) && !Flushed(calls, order, n, assemble).1
    ensures Flushed(calls, order, |order|, assemble) == Flushed(calls, order, n, assemble)
    decreases |order| - n
  {
    if n < |order| { FlushStops(calls, order, n + 1, assemble); }
  }

  lemma {:induction false} StaysOver(ps: seq<Payload>, n: nat, m: nat, assemble: Assemble)
    requires n <= m <= |ps| && !After(ps, n, assemble).1.Running?
    ensures After(ps, m, assemble) == After(ps, n, assemble)
    decreases m - n
  {
    if n < m { StaysOver(ps, n, m - 1, assemble); }
  }
}
