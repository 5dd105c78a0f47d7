/** The Anthropic transcript rewriter (internal/server/aiprotocol/anthropic.go): every tool result is
  * moved to the turn right after the assistant turn that asked for it.
  */
module AnthropicTranscript {
  import opened Wrappers
  import opened Text

  datatype Role = System | User | Assistant | Tool | Unknown(name: string)

  /** A content block. Native stands for the other block types only this protocol has, Foreign for
    * those only the other protocol has, Other for anything inconclusive or unreadable. */
  datatype Block =
    | TextBlock(text: string)
    | Thinking(text: string, signature: string)
    | ToolUse(id: string, name: string, input: string)
    | ToolResultBlock(id: string, content: string, isError: bool)
    | Native(raw: string)
    | Foreign(raw: string)
    | Other(raw: string)

  /** The stored native blocks of a message: none, undecodable, or a list. */
  datatype Raw = NoRaw | BadRaw | Blocks(blocks: seq<Block>)

  /** The input is None when the stored arguments are not a JSON object. */
  datatype ToolCall = ToolCall(id: string, name: string, input: Option<string>)

  datatype ToolResult = ToolResult(callID: string, content: string, isError: bool)

  datatype Message = Message(role: Role, text: string, raw: Raw, toolCalls: seq<ToolCall>, toolResults: seq<ToolResult>)

  datatype Turn = Turn(role: Role, blocks: seq<Block>)

  datatype Encoded = Encoded(turns: seq<Turn>, system: string)

  predicate Blank(s: string) { TrimSpace(s) == "" }

  // ---- one message ----

  /** The blocks look like the other protocol's and not like this one's. */
  predicate LooksForeign(bs: seq<Block>) {
    && (exists b :: b in bs && b.Foreign?)
    && !(exists b :: b in bs && (b.Thinking? || b.ToolUse? || b.Native?))
  }

  function RawBlocks(raw: Raw): Option<seq<Block>> {
    if raw.BadRaw? then None
    else if raw.NoRaw? then Some([])
    else if LooksForeign(raw.blocks) then None
    else Some(raw.blocks)
  }

  /** The tool-use blocks of the first n calls. */
  function CallBlocks(calls: seq<ToolCall>, n: nat): Option<seq<Block>>
    requires n <= |calls|
  {
    if n == 0 then Some([])
    else
      var front, c := CallBlocks(calls, n - 1), calls[n - 1];
      if front.None? || Blank(c.id) || Blank(c.name) || c.input.None? then None
      else Some(front.value + [ToolUse(c.id, c.name, c.input.value)])
  }

  function AssistantBlocks(m: Message): Option<seq<Block>> {
    if !m.raw.NoRaw? then RawBlocks(m.raw)
    else
      var calls := CallBlocks(m.toolCalls, |m.toolCalls|);
      if calls.None? then None
      else Some((if m.text != "" then [TextBlock(m.text)] else []) + calls.value)
  }

  function UserBlocks(m: Message): Option<seq<Block>> {
    if !m.raw.NoRaw? then RawBlocks(m.raw)
    else if Blank(m.text) then Some([])
    else Some([TextBlock(m.text)])
  }

  function BlockIDs(bs: seq<Block>, n: nat): seq<string>
    requires n <= |bs|
  {
    if n == 0 then []
    else if bs[n - 1].ToolUse? && bs[n - 1].id != "" then BlockIDs(bs, n - 1) + [bs[n - 1].id]
    else BlockIDs(bs, n - 1)
  }

  function CallIDs(calls: seq<ToolCall>, n: nat): seq<string>
    requires n <= |calls|
  {
    if n == 0 then []
    else if calls[n - 1].id != "" then CallIDs(calls, n - 1) + [calls[n - 1].id]
    else CallIDs(calls, n - 1)
  }

  /** The tool-use ids an assistant turn will send; None when its raw blocks cannot be decoded. */
  function ToolUseIDs(m: Message): Option<seq<string>> {
    match m.raw
    case BadRaw => None
    case Blocks(bs) => Some(BlockIDs(bs, |bs|))
    case NoRaw => Some(CallIDs(m.toolCalls, |m.toolCalls|))
  }

  // ---- the transcript ----

  predicate Owns(m: Message, id: string) {
    m.role == Assistant && ToolUseIDs(m).Some? && id in ToolUseIDs(m).value
  }

  /** The last assistant turn among the first n that sends the id, or -1. */
  function Owner(msgs: seq<Message>, n: nat, id: string): (r: int)
    requires n <= |msgs|
    ensures -1 <= r < n
  {
    if n == 0 then -1 else if Owns(msgs[n - 1], id) then n - 1 else Owner(msgs, n - 1, id)
  }

  /** All tool results of the first n messages, in order. */
  function AllResults(msgs: seq<Message>, n: nat): seq<ToolResult>
    requires n <= |msgs|
  {
    if n == 0 then []
    else if msgs[n - 1].role == Tool then AllResults(msgs, n - 1) + msgs[n - 1].toolResults
    else AllResults(msgs, n - 1)
  }

  function ResultBlock(r: ToolResult): Block { ToolResultBlock(r.callID, r.content, r.isError) }

  /** The results answering assistant turn own, in input order. */
  function AnswersTo(msgs: seq<Message>, results: seq<ToolResult>, own: nat): seq<Block> {
    if results == [] then []
    else
      var n := |results| - 1;
      AnswersTo(msgs, results[..n], own)
      + if Owner(msgs, |msgs|, results[n].callID) == own then [ResultBlock(results[n])] else []
  }

  function Answers(msgs: seq<Message>, own: nat): seq<Block> {
    AnswersTo(msgs, AllResults(msgs, |msgs|), own)
  }

  predicate EncodableMessage(m: Message) {
    match m.role
    case System => true
    case Tool => true
    case User => UserBlocks(m).Some?
    case Assistant => AssistantBlocks(m).Some?
    case Unknown(_) => false
  }

  predicate EncodableTo(msgs: seq<Message>, n: nat)
    requires n <= |msgs|
  {
    forall k :: 0 <= k < n ==> EncodableMessage(msgs[k])
  }

  predicate Encodable(msgs: seq<Message>) { EncodableTo(msgs, |msgs|) }

  /** No result of message i lacks an owner or comes before it. */
  predicate Placeable(msgs: seq<Message>, i: nat, r: ToolResult)
    requires i < |msgs|
  {
    0 <= Owner(msgs, |msgs|, r.callID) <= i
  }

  predicate PlaceableMessage(msgs: seq<Message>, i: nat)
    requires i < |msgs|
  {
    msgs[i].role == Tool ==> forall j :: 0 <= j < |msgs[i].toolResults| ==> Placeable(msgs, i, msgs[i].toolResults[j])
  }

  predicate Pairable(msgs: seq<Message>) {
    forall i :: 0 <= i < |msgs| ==> PlaceableMessage(msgs, i)
  }

  /** The blocks of the message's own turn; none for the roles that have no turn of their own. */
  function OwnBlocks(m: Message): seq<Block> {
    match m.role
    case User => if UserBlocks(m).Some? then UserBlocks(m).value else []
    case Assistant => if AssistantBlocks(m).Some? then AssistantBlocks(m).value else []
    case _ => []
  }

  function OwnTurn(m: Message): seq<Turn> {
    if OwnBlocks(m) != [] then [Turn(m.role, OwnBlocks(m))] else []
  }

  /** The turn holding the results that answer message i. */
  function AnswerTurn(msgs: seq<Message>, i: nat): seq<Turn>
    requires i < |msgs|
  {
    if msgs[i].role == Assistant && Answers(msgs, i) != [] then [Turn(User, Answers(msgs, i))] else []
  }

  function MessageTurns(msgs: seq<Message>, i: nat): seq<Turn>
    requires i < |msgs|
  {
    OwnTurn(msgs[i]) + AnswerTurn(msgs, i)
  }

  function Turns(msgs: seq<Message>): seq<seq<Turn>> {
    seq(|msgs|, i requires 0 <= i < |msgs| => MessageTurns(msgs, i))
  }

  /** The first n parts, one behind the other. */
  function Concat(parts: seq<seq<Turn>>, n: nat): seq<Turn>
    requires n <= |parts|
  {
    if n == 0 then [] else Concat(parts, n - 1) + parts[n - 1]
  }

  /** The rewritten transcript: per message its own turn, then the results answering it. */
  function Rewritten(msgs: seq<Message>): seq<Turn> { Concat(Turns(msgs), |msgs|) }

  function Part(text: string): seq<string> {
    if Blank(text) then [] else [TrimSpace(text)]
  }

  /** What the system prompt and the system messages among the first n contribute. */
  function SystemParts(system: string, msgs: seq<Message>, n: nat): seq<string>
    requires n <= |msgs|
  {
    if n == 0 then Part(system)
    else if msgs[n - 1].role == System then SystemParts(system, msgs, n - 1) + Part(msgs[n - 1].text)
    else SystemParts(system, msgs, n - 1)
  }

  function JoinParts(parts: seq<string>): string {
    if parts == [] then "" else if |parts| == 1 then parts[0] else parts[0] + "\n\n" + JoinParts(parts[1..])
  }

  // ---- the three passes ----

  ghost predicate IsOwnerMap(msgs: seq<Message>, owner: map<string, nat>) {
    forall id :: Owner(msgs, |msgs|, id) == if id in owner then owner[id] else -1
  }

  method OwnerPass(msgs: seq<Message>) returns (owner: Option<map<string, nat>>)
    ensures owner.None? ==> !Encodable(msgs)
    ensures owner.Some? ==> IsOwnerMap(msgs, owner.value)
  {
    var found: map<string, nat> := map[];
    for i := 0 to |msgs|
      invariant forall id :: Owner(msgs, i, id) == if id in found then found[id] else -1
    {
      if msgs[i].role != Assistant { continue; }
      var ids := ToolUseIDs(msgs[i]);
      if ids.None? {
        assert !EncodableMessage(msgs[i]);
        return None;
      }
      ghost var before := found;
      for j := 0 to |ids.value|
        invariant forall id :: id in found <==> id in before || id in ids.value[..j]
        invariant forall id :: id in found ==> found[id] == if id in ids.value[..j] then i else before[id]
      {
        assert ids.value[..j + 1] == ids.value[..j] + [ids.value[j]];
        found := found[ids.value[j] := i];
      }
      assert ids.value[..|ids.value|] == ids.value;
    }
    return Some(found);
  }

  ghost predicate Collects(msgs: seq<Message>, results: seq<ToolResult>, found: map<nat, seq<Block>>) {
    forall own: nat :: AnswersTo(msgs, results, own) == if own in found then found[own] else []
  }

  lemma {:induction false} CollectOne(msgs: seq<Message>, results: seq<ToolResult>, found: map<nat, seq<Block>>,
                                        r: ToolResult, own: nat)
    requires Collects(msgs, results, found) && Owner(msgs, |msgs|, r.callID) == own
    ensures Collects(msgs, results + [r], found[own := (if own in found then found[own] else []) + [ResultBlock(r)]])
  {
  }

  /** Attaches one result of message i to the assistant turn it answers. */
  method AttachOne(msgs: seq<Message>, i: nat, owner: map<string, nat>, found: map<nat, seq<Block>>, tr: ToolResult,
                   ghost done: seq<ToolResult>)
    returns (r: Option<map<nat, seq<Block>>>)
    requires i < |msgs| && IsOwnerMap(msgs, owner) && Collects(msgs, done, found)
    ensures r.Some? <==> Placeable(msgs, i, tr)
    ensures r.Some? ==> Collects(msgs, done + [tr], r.value)
  {
    if tr.callID !in owner || i < owner[tr.callID] { return None; }
    var own := owner[tr.callID];
    CollectOne(msgs, done, found, tr, own);
    return Some(found[own := (if own in found then found[own] else []) + [ResultBlock(tr)]]);
  }

  method AttachResults(msgs: seq<Message>, i: nat, owner: map<string, nat>, found: map<nat, seq<Block>>)
    returns (r: Option<map<nat, seq<Block>>>)
    requires i < |msgs| && msgs[i].role == Tool
    requires IsOwnerMap(msgs, owner) && Collects(msgs, AllResults(msgs, i), found)
    ensures r.Some? <==> PlaceableMessage(msgs, i)
    ensures r.Some? ==> Collects(msgs, AllResults(msgs, i + 1), r.value)
  {
    ghost var done := AllResults(msgs, i);
    var trs, now := msgs[i].toolResults, found;
    for j := 0 to |trs|
      invariant done == AllResults(msgs, i) + trs[..j]
      invariant Collects(msgs, done, now)
      invariant forall k :: 0 <= k < j ==> Placeable(msgs, i, trs[k])
    {
      var next := AttachOne(msgs, i, owner, now, trs[j], done);
      if next.None? { return None; }
      now, done := next.value, done + [trs[j]];
    }
    assert done == AllResults(msgs, i + 1);
    return Some(now);
  }

  method ResultPass(msgs: seq<Message>, owner: map<string, nat>) returns (resultsFor: Option<map<nat, seq<Block>>>)
    requires IsOwnerMap(msgs, owner)
    ensures resultsFor.Some? <==> Pairable(msgs)
    ensures resultsFor.Some? ==> Collects(msgs, AllResults(msgs, |msgs|), resultsFor.value)
  {
    var found: map<nat, seq<Block>> := map[];
    for i := 0 to |msgs|
      invariant Collects(msgs, AllResults(msgs, i), found)
      invariant forall k :: 0 <= k < i ==> PlaceableMessage(msgs, k)
    {
      if msgs[i].role != Tool { continue; }
      var next := AttachResults(msgs, i, owner, found);
      if next.None? { return None; }
      found := next.value;
    }
    return Some(found);
  }

  /** One message's turns; None when it cannot be encoded. */
  method EmitMessage(m: Message, results: seq<Block>) returns (r: Option<seq<Turn>>)
    ensures r.Some? <==> EncodableMessage(m)
    ensures r.Some? ==>
      r.value == OwnTurn(m) + if m.role == Assistant && results != [] then [Turn(User, results)] else []
  {
    match m.role
    case System => return Some([]);
    case Tool => return Some([]);
    case User =>
      var blocks := UserBlocks(m);
      if blocks.None? { return None; }
      return Some(if blocks.value != [] then [Turn(User, blocks.value)] else []);
    case Assistant =>
      var blocks := AssistantBlocks(m);
      if blocks.None? { return None; }
      var turns := if blocks.value != [] then [Turn(Assistant, blocks.value)] else [];
      if results != [] { turns := turns + [Turn(User, results)]; }
      return Some(turns);
    case Unknown(_) => return None;
  }

  /** The turns of message i; None when it cannot be encoded. */
  method EmitTurns(msgs: seq<Message>, i: nat, results: seq<Block>) returns (r: Option<seq<Turn>>)
    requires i < |msgs| && EncodableTo(msgs, i) && results == Answers(msgs, i)
    ensures r.Some? <==> EncodableTo(msgs, i + 1)
    ensures r.Some? ==> r.value == Turns(msgs)[i]
  {
    r := EmitMessage(msgs[i], results);
  }

  method EmitPass(msgs: seq<Message>, resultsFor: map<nat, seq<Block>>) returns (r: Option<seq<Turn>>)
    requires Collects(msgs, AllResults(msgs, |msgs|), resultsFor)
    ensures r.Some? <==> Encodable(msgs)
    ensures r.Some? ==> r.value == Rewritten(msgs)
  {
    var turns := [];
    for i := 0 to |msgs|
      invariant EncodableTo(msgs, i)
      invariant turns == Concat(Turns(msgs), i)
    {
      var own := EmitTurns(msgs, i, if i in resultsFor then resultsFor[i] else []);
      if own.None? { return None; }
      turns := turns + own.value;
    }
    return Some(turns);
  }

  /** The system texts, which the source gathers in the loop of the third pass. */
  method SystemPass(msgs: seq<Message>, system: string) returns (parts: seq<string>)
    ensures parts == SystemParts(system, msgs, |msgs|)
  {
    parts := Part(system);
    for i := 0 to |msgs|
      invariant parts == SystemParts(system, msgs, i)
    {
      if msgs[i].role == System { parts := parts + Part(msgs[i].text); }
    }
  }

  method AnthropicMessages(msgs: seq<Message>, system: string) returns (r: Option<Encoded>)
    ensures r.Some? <==> Encodable(msgs) && Pairable(msgs)
    ensures r.Some? ==> r.value == Encoded(Rewritten(msgs), JoinParts(SystemParts(system, msgs, |msgs|)))
  {
    var owner := OwnerPass(msgs);
    if owner.None? { return None; }
    var resultsFor := ResultPass(msgs, owner.value);
    if resultsFor.None? { return None; }
    var turns := EmitPass(msgs, resultsFor.value);
    if turns.None? { return None; }
    var parts := SystemPass(msgs, system);
    return Some(Encoded(turns.value, JoinParts(parts)));
  }
}
