/** The Anthropic stream parser (internal/server/aiprotocol/anthropic.go): content blocks arrive in pieces,
  * keyed by index, and leave as live events and one replayable list of blocks.
  */
module AnthropicStream {
  import opened Wrappers
  import opened StreamEvents
  import opened AnthropicTranscript

  /** A block whose start event already carries it whole. */
  type Passive = b: Block | !b.ToolUse? witness Other("")

  /** The fields of a start event that matter; an id or name that is missing or not a string is empty. */
  datatype StartBlock =
    | StartText
    | StartThinking(signature: string)
    | StartToolUse(id: string, name: string)
    | StartOther(block: Passive)

  datatype Part = TextPart | ThinkingPart | SignaturePart | InputPart | OtherPart

  datatype Wire =
    | Start(index: int, block: StartBlock)
    | Delta(index: int, part: Part, text: string)
    | Stop(index: int)
    | MessageStop
    | Ignored
    | Broken

  type Ev = Event<seq<Block>>

  datatype Partial = Partial(start: StartBlock, text: string, thinking: string, signature: string, input: string)

  datatype State = State(blocks: map<int, Partial>, order: seq<int>, finished: map<int, Block>, sent: seq<Ev>)

  const INITIAL: State := State(map[], [], map[], [])

  function Finalize(p: Partial, assemble: Assemble): Option<Block> {
    match p.start
    case StartText => Some(TextBlock(p.text))
    case StartThinking(signature) => Some(Thinking(p.thinking, if p.signature != "" then p.signature else signature))
    case StartToolUse(id, name) =>
      var input := assemble(p.input);
      if input.None? then None else Some(ToolUse(id, name, input.value))
    case StartOther(block) => Some(block)
  }

  function WithDelta(p: Partial, part: Part, text: string): Partial {
    match part
    case TextPart => p.(text := p.text + text)
    case ThinkingPart => p.(thinking := p.thinking + text)
    case SignaturePart => p.(signature := p.signature + text)
    case InputPart => p.(input := p.input + text)
    case OtherPart => p
  }

  /** What a delta shows at once. */
  function Shown(part: Part, text: string): seq<Ev> {
    if text == "" then []
    else if part.TextPart? then [TextEvent(text)]
    else if part.ThinkingPart? then [ThinkingEvent(text)]
    else []
  }

  /** The finished blocks of the first n indices of the order. */
  function FinishedBlocks(finished: map<int, Block>, order: seq<int>, n: nat): seq<Block>
    requires n <= |order|
  {
    if n == 0 then []
    else FinishedBlocks(finished, order, n - 1) + if order[n - 1] in finished then [finished[order[n - 1]]] else []
  }

  function DoneRaw(finished: map<int, Block>, order: seq<int>): Option<seq<Block>> {
    if finished == map[] then None else Some(FinishedBlocks(finished, order, |order|))
  }

  function CallOf(p: Partial, block: Block): seq<Ev> {
    if p.start.StartToolUse? && block.ToolUse? then [CallEvent(Call(p.start.id, p.start.name, block.input))] else []
  }

  function Step(s: State, ev: Wire, assemble: Assemble): (State, Outcome) {
    match ev
    case Start(i, block) =>
      (s.(order := if i in s.blocks then s.order else s.order + [i],
          blocks := s.blocks[i := Partial(block, "", "", "", "")]), Running)
    case Delta(i, part, text) =>
      if i !in s.blocks then (s, Failed)
      else (s.(blocks := s.blocks[i := WithDelta(s.blocks[i], part, text)], sent := s.sent + Shown(part, text)), Running)
    case Stop(i) =>
      if i !in s.blocks then (s, Failed)
      else
        var block := Finalize(s.blocks[i], assemble);
        if block.None? then (s, Failed)
        else (s.(finished := s.finished[i := block.value], sent := s.sent + CallOf(s.blocks[i], block.value)), Running)
    case MessageStop => (s.(sent := s.sent + [DoneEvent(DoneRaw(s.finished, s.order))]), Finished)
    case Ignored => (s, Running)
    case Broken => (s, Failed)
  }

  /** The state and outcome after the first n events; the parser stops reading at the first outcome. */
  function After(events: seq<Wire>, n: nat, assemble: Assemble): (State, Outcome)
    requires n <= |events|
  {
    if n == 0 then (INITIAL, Running)
    else
      var (s, outcome) := After(events, n - 1, assemble);
      if outcome.Running? then Step(s, events[n - 1], assemble) else (s, outcome)
  }

  class AnthropicStreamer {
    const assemble: Assemble
    var blocks: map<int, Partial>
    var order: seq<int>
    var finished: map<int, Block>
    var sent: seq<Ev>

    constructor (assemble: Assemble)
      ensures this.assemble == assemble && View() == INITIAL
    {
      this.assemble := assemble;
      blocks, order, finished, sent := map[], [], map[], [];
    }

    function View(): State
      reads this
    {
      State(blocks, order, finished, sent)
    }

    method OnDelta(i: int, part: Part, text: string) returns (outcome: Outcome)
      modifies this
      ensures (View(), outcome) == Step(old(View()), Delta(i, part, text), assemble)
    {
      if i !in blocks { return Failed; }
      assert sent + [] == sent;
      var b := blocks[i];
      match part {
        case TextPart =>
          b := b.(text := b.text + text);
          if text != "" { sent := sent + [TextEvent(text)]; }
        case ThinkingPart =>
          b := b.(thinking := b.thinking + text);
          if text != "" { sent := sent + [ThinkingEvent(text)]; }
        case SignaturePart => b := b.(signature := b.signature + text);
        case InputPart => b := b.(input := b.input + text);
        case OtherPart =>
      }
      blocks := blocks[i := b];
      return Running;
    }

    method OnStop(i: int) returns (outcome: Outcome)
      modifies this
      ensures (View(), outcome) == Step(old(View()), Stop(i), assemble)
    {
      if i !in blocks { return Failed; }
      var block := Finalize(blocks[i], assemble);
      if block.None? { return Failed; }
      assert sent + [] == sent;
      finished := finished[i := block.value];
      if blocks[i].start.StartToolUse? {
        sent := sent + [CallEvent(Call(blocks[i].start.id, blocks[i].start.name, block.value.input))];
      }
      return Running;
    }

    method OnEvent(ev: Wire) returns (outcome: Outcome)
      modifies this
      ensures (View(), outcome) == Step(old(View()), ev, assemble)
    {
      match ev
      case Start(i, block) =>
        if i !in blocks { order := order + [i]; }
        blocks := blocks[i := Partial(block, "", "", "", "")];
        return Running;
      case Delta(i, part, text) => outcome := OnDelta(i, part, text);
      case Stop(i) => outcome := OnStop(i);
      case MessageStop =>
        sent := sent + [DoneEvent(DoneRaw(finished, order))];
        return Finished;
      case Ignored => return Running;
      case Broken => return Failed;
    }

    /** Reads a whole stream; a stream that just ends has failed. */
    method Stream(events: seq<Wire>) returns (ok: bool)
      requires View() == INITIAL
      modifies this
      ensures sent == After(events, |events|, assemble).0.sent
      ensures ok <==> After(events, |events|, assemble).1.Finished?
    {
      for n := 0 to |events|
        invariant (View(), Running) == After(events, n, assemble)
      {
        var outcome := OnEvent(events[n]);
        if !outcome.Running? {
          StaysOver(events, n + 1, |events|, assemble);
          return outcome.Finished?;
        }
      }
      return false;
    }
  }

  lemma {:induction false} StaysOver(events: seq<Wire>, n: nat, m: nat, assemble: Assemble)
    requires n <= m <= |events| && !After(events, n, assemble).1.Running?
    ensures After(events, m, assemble) == After(events, n, assemble)
    decreases m - n
  {
    if n < m { StaysOver(events, n, m - 1, assemble); }
  }
}
