/** What the transcript rewriter guarantees: every result sits right behind the turn that asked for it,
  * nothing is lost or repeated, and the rewrite fails exactly on results it cannot place.
  */
module AnthropicPairing {
  import opened Wrappers
  import opened Text
  import opened AnthropicTranscript

  // ---- owners ----

  lemma {:induction false} OwnerIsLast(msgs: seq<Message>, n: nat, id: string)
    requires n <= |msgs|
    ensures Owner(msgs, n, id) >= 0 ==> Owns(msgs[Owner(msgs, n, id)], id)
    ensures forall k :: Owner(msgs, n, id) < k < n ==> !Owns(msgs[k], id)
  {
    if n > 0 { OwnerIsLast(msgs, n - 1, id); }
  }

  /** A result can be placed exactly when some earlier turn asked for it and no later one did. */
  lemma {:induction false} PlaceableIff(msgs: seq<Message>, i: nat, r: ToolResult)
    requires i < |msgs| && msgs[i].role == Tool
    ensures Placeable(msgs, i, r) <==>
              (exists k :: 0 <= k < i && Owns(msgs[k], r.callID)) && forall k :: i < k < |msgs| ==> !Owns(msgs[k], r.callID)
  {
    OwnerIsLast(msgs, |msgs|, r.callID);
    var own := Owner(msgs, |msgs|, r.callID);
    if Placeable(msgs, i, r) {
      assert own != i;
    }
  }

  predicate AnsweredEarlier(msgs: seq<Message>, i: nat, id: string)
    requires i < |msgs|
  {
    exists k :: 0 <= k < i && Owns(msgs[k], id)
  }

  /** No two turns ask under the same id. */
  ghost predicate UniqueIDs(msgs: seq<Message>) {
    forall k, l, id :: 0 <= k < l < |msgs| && Owns(msgs[k], id) ==> !Owns(msgs[l], id)
  }

  /** With ids unique across turns, pairing succeeds exactly when every result has an earlier asker. */
  lemma {:induction false} PairableIff(msgs: seq<Message>)
    requires UniqueIDs(msgs)
    ensures Pairable(msgs) <==>
              forall i, j :: 0 <= i < |msgs| && msgs[i].role == Tool && 0 <= j < |msgs[i].toolResults| ==>
                AnsweredEarlier(msgs, i, msgs[i].toolResults[j].callID)
  {
    forall i, j | 0 <= i < |msgs| && msgs[i].role == Tool && 0 <= j < |msgs[i].toolResults|
      ensures Placeable(msgs, i, msgs[i].toolResults[j]) <==> AnsweredEarlier(msgs, i, msgs[i].toolResults[j].callID)
    {
      PlaceableIff(msgs, i, msgs[i].toolResults[j]);
    }
    forall i | 0 <= i < |msgs|
      ensures PlaceableMessage(msgs, i) <==> msgs[i].role == Tool ==>
        forall j :: 0 <= j < |msgs[i].toolResults| ==> AnsweredEarlier(msgs, i, msgs[i].toolResults[j].callID)
    {
    }
  }

  // ---- what an assistant turn sends ----

  predicate Sends(bs: seq<Block>, id: string) {
    exists k :: 0 <= k < |bs| && bs[k].ToolUse? && bs[k].id == id
  }

  lemma {:induction false} BlockIDsAre(bs: seq<Block>, n: nat, id: string)
    requires n <= |bs|
    ensures id in BlockIDs(bs, n) <==> id != "" && exists k :: 0 <= k < n && bs[k].ToolUse? && bs[k].id == id
  {
    if n > 0 { BlockIDsAre(bs, n - 1, id); }
  }

  lemma {:induction false} CallBlocksLast(calls: seq<ToolCall>, n: nat)
    requires n < |calls| && CallBlocks(calls, n + 1).Some?
    ensures CallBlocks(calls, n).Some? && !Blank(calls[n].id) && calls[n].input.Some?
    ensures CallBlocks(calls, n + 1).value ==
            CallBlocks(calls, n).value + [ToolUse(calls[n].id, calls[n].name, calls[n].input.value)]
  {
  }

  predicate UsesAre(blocks: seq<Block>, calls: seq<ToolCall>, n: nat)
    requires n <= |calls|
  {
    && |blocks| == n
    && forall k :: 0 <= k < n ==> !Blank(calls[k].id) && blocks[k].ToolUse? && blocks[k].id == calls[k].id
  }

  lemma {:induction false} UsesGrow(front: seq<Block>, c: ToolCall, input: string, calls: seq<ToolCall>, n: nat)
    requires n < |calls| && UsesAre(front, calls, n) && calls[n] == c && !Blank(c.id)
    ensures UsesAre(front + [ToolUse(c.id, c.name, input)], calls, n + 1)
  {
  }

  lemma {:induction false} CallBlocksAre(calls: seq<ToolCall>, n: nat)
    requires n <= |calls| && CallBlocks(calls, n).Some?
    ensures UsesAre(CallBlocks(calls, n).value, calls, n)
  {
    if n > 0 {
      var m := n - 1;
      var c, front := calls[m], CallBlocks(calls, m);
      CallBlocksLast(calls, m);
      CallBlocksAre(calls, m);
      UsesGrow(front.value, c, c.input.value, calls, m);
    }
  }

  lemma {:induction false} CallIDsAre(calls: seq<ToolCall>, n: nat, id: string)
    requires n <= |calls|
    ensures id in CallIDs(calls, n) <==> id != "" && exists k :: 0 <= k < n && calls[k].id == id
  {
    if n > 0 { CallIDsAre(calls, n - 1, id); }
  }

  lemma {:induction false} CallsSend(calls: seq<ToolCall>, front: seq<Block>, id: string)
    requires CallBlocks(calls, |calls|).Some? && forall i :: 0 <= i < |front| ==> !front[i].ToolUse?
    ensures Sends(front + CallBlocks(calls, |calls|).value, id) <==> exists k :: 0 <= k < |calls| && calls[k].id == id
  {
    var n, blocks := |calls|, CallBlocks(calls, |calls|).value;
    var all := front + blocks;
    CallBlocksAre(calls, n);
    assert forall k :: 0 <= k < n ==> all[|front| + k] == blocks[k];
    if Sends(all, id) {
      var k :| 0 <= k < |all| && all[k].ToolUse? && all[k].id == id;
      assert k >= |front|;
      assert calls[k - |front|].id == id;
    }
  }

  lemma {:induction false} BuiltBlocksSend(m: Message, id: string)
    requires m.role == Assistant && m.raw.NoRaw? && EncodableMessage(m)
    ensures Owns(m, id) <==> id != "" && Sends(OwnBlocks(m), id)
  {
    CallIDsAre(m.toolCalls, |m.toolCalls|, id);
    CallsSend(m.toolCalls, if m.text != "" then [TextBlock(m.text)] else [], id);
  }

  /** The ids used for pairing are exactly the nonempty ids of the tool-use blocks really sent. */
  lemma {:induction false} OwnsWhatItSends(m: Message, id: string)
    requires m.role == Assistant && EncodableMessage(m)
    ensures Owns(m, id) <==> id != "" && Sends(OwnBlocks(m), id)
  {
    if m.raw.NoRaw? {
      BuiltBlocksSend(m, id);
    } else {
      BlockIDsAre(m.raw.blocks, |m.raw.blocks|, id);
    }
  }

  // ---- answers ----

  /** Answers are results owned by that turn. */
  lemma {:induction false} AnswersAreOwned(msgs: seq<Message>, results: seq<ToolResult>, own: nat, b: Block)
    requires b in AnswersTo(msgs, results, own)
    ensures b.ToolResultBlock? && Owner(msgs, |msgs|, b.id) == own
    decreases |results|
  {
    var n := |results| - 1;
    if b in AnswersTo(msgs, results[..n], own) { AnswersAreOwned(msgs, results[..n], own, b); }
  }

  /** A result owned by the turn stands in its answers behind exactly the earlier results of that turn. */
  lemma {:induction false} AnswersInOrder(msgs: seq<Message>, results: seq<ToolResult>, own: nat, p: nat)
    requires p < |results| && Owner(msgs, |msgs|, results[p].callID) == own
    ensures |AnswersTo(msgs, results[..p], own)| < |AnswersTo(msgs, results, own)|
    ensures AnswersTo(msgs, results, own)[|AnswersTo(msgs, results[..p], own)|] ==
            ToolResultBlock(results[p].callID, results[p].content, results[p].isError)
    decreases |results|
  {
    var n := |results| - 1;
    if p < n {
      assert results[..n][..p] == results[..p];
      AnswersInOrder(msgs, results[..n], own, p);
    }
  }

  lemma {:induction false} AnswersNeedAsker(msgs: seq<Message>, i: nat)
    requires i < |msgs| && Encodable(msgs) && Answers(msgs, i) != []
    ensures msgs[i].role == Assistant && OwnBlocks(msgs[i]) != []
    ensures forall b :: b in Answers(msgs, i) ==> b.ToolResultBlock? && Sends(OwnBlocks(msgs[i]), b.id)
  {
    forall b | b in Answers(msgs, i)
      ensures b.ToolResultBlock? && Owns(msgs[i], b.id) && Sends(OwnBlocks(msgs[i]), b.id)
    {
      AnswersAreOwned(msgs, AllResults(msgs, |msgs|), i, b);
      OwnerIsLast(msgs, |msgs|, b.id);
      OwnsWhatItSends(msgs[i], b.id);
    }
    assert Answers(msgs, i)[0] in Answers(msgs, i);
  }

  // ---- positions ----

  lemma {:induction false} ConcatGrows(parts: seq<seq<Turn>>, i: nat, n: nat)
    requires i <= n <= |parts|
    ensures Concat(parts, i) <= Concat(parts, n)
    decreases n - i
  {
    if i < n { ConcatGrows(parts, i, n - 1); }
  }

  lemma {:induction false} ConcatPasses(parts: seq<seq<Turn>>, i: nat, n: nat)
    requires i < n <= |parts| && parts[i] != []
    ensures |Concat(parts, i)| < |Concat(parts, n)|
  {
    ConcatGrows(parts, i + 1, n);
  }

  lemma {:induction false} PartAt(parts: seq<seq<Turn>>, i: nat, k: nat)
    requires i < |parts| && k < |parts[i]|
    ensures |Concat(parts, i)| + k < |Concat(parts, |parts|)|
    ensures Concat(parts, |parts|)[|Concat(parts, i)| + k] == parts[i][k]
  {
    ConcatGrows(parts, i + 1, |parts|);
    var next := Concat(parts, i + 1);
    assert next[|Concat(parts, i)| + k] == parts[i][k];
  }

  /** Where the turns of message i start. */
  function Start(msgs: seq<Message>, i: nat): nat
    requires i <= |msgs|
  {
    |Concat(Turns(msgs), i)|
  }

  /** A message's own turn stands behind the turns of all earlier messages. */
  lemma {:induction false} OwnTurnAt(msgs: seq<Message>, i: nat)
    requires i < |msgs| && OwnBlocks(msgs[i]) != []
    ensures Start(msgs, i) < |Rewritten(msgs)| && Rewritten(msgs)[Start(msgs, i)] == Turn(msgs[i].role, OwnBlocks(msgs[i]))
  {
    var parts := Turns(msgs);
    assert parts[i] == MessageTurns(msgs, i);
    PartAt(parts, i, 0);
  }

  /** The results answering a turn stand right behind it. */
  lemma {:induction false} AnswerTurnAt(msgs: seq<Message>, i: nat)
    requires i < |msgs| && Encodable(msgs) && Answers(msgs, i) != []
    ensures msgs[i].role == Assistant && OwnBlocks(msgs[i]) != []
    ensures Start(msgs, i) + 1 < |Rewritten(msgs)| && Rewritten(msgs)[Start(msgs, i) + 1] == Turn(User, Answers(msgs, i))
  {
    AnswersNeedAsker(msgs, i);
    var parts := Turns(msgs);
    assert parts[i] == MessageTurns(msgs, i);
    PartAt(parts, i, 1);
  }

  /** The tool results that the first n messages bring. */
  function ResultsBefore(msgs: seq<Message>, n: nat): nat
    requires n <= |msgs|
  {
    if n == 0 then 0 else ResultsBefore(msgs, n - 1) + if msgs[n - 1].role == Tool then |msgs[n - 1].toolResults| else 0
  }

  lemma {:induction false} ResultIsListed(msgs: seq<Message>, n: nat, i: nat, j: nat)
    requires i < n <= |msgs| && msgs[i].role == Tool && j < |msgs[i].toolResults|
    ensures |AllResults(msgs, i)| == ResultsBefore(msgs, i)
    ensures ResultsBefore(msgs, i) + j < |AllResults(msgs, n)|
    ensures AllResults(msgs, n)[ResultsBefore(msgs, i) + j] == msgs[i].toolResults[j]
  {
    ResultsAreCounted(msgs, i);
    if i < n - 1 { ResultIsListed(msgs, n - 1, i, j); }
  }

  lemma {:induction false} ResultsAreCounted(msgs: seq<Message>, n: nat)
    requires n <= |msgs|
    ensures |AllResults(msgs, n)| == ResultsBefore(msgs, n)
  {
    if n > 0 { ResultsAreCounted(msgs, n - 1); }
  }

  lemma {:induction false} ResultHasAsker(msgs: seq<Message>, i: nat, j: nat)
    requires Encodable(msgs) && Pairable(msgs)
    requires i < |msgs| && msgs[i].role == Tool && j < |msgs[i].toolResults|
    ensures var id := msgs[i].toolResults[j].callID;
            var asker := Owner(msgs, |msgs|, id);
            0 <= asker < i && msgs[asker].role == Assistant && Sends(OwnBlocks(msgs[asker]), id)
  {
    var r := msgs[i].toolResults[j];
    assert PlaceableMessage(msgs, i);
    assert Placeable(msgs, i, r);
    OwnerIsLast(msgs, |msgs|, r.callID);
    OwnsWhatItSends(msgs[Owner(msgs, |msgs|, r.callID)], r.callID);
  }

  lemma {:induction false} ResultIsAnswer(msgs: seq<Message>, i: nat, j: nat)
    requires i < |msgs| && msgs[i].role == Tool && j < |msgs[i].toolResults|
    requires Owner(msgs, |msgs|, msgs[i].toolResults[j].callID) >= 0
    ensures var r := msgs[i].toolResults[j];
            ToolResultBlock(r.callID, r.content, r.isError) in Answers(msgs, Owner(msgs, |msgs|, r.callID))
  {
    ResultIsListed(msgs, |msgs|, i, j);
    var p := ResultsBefore(msgs, i) + j;
    AnswersInOrder(msgs, AllResults(msgs, |msgs|), Owner(msgs, |msgs|, msgs[i].toolResults[j].callID), p);
  }

  /** Each tool result is sent, whole, right behind the earlier turn that asked for it. */
  lemma {:induction false} ResultIsSent(msgs: seq<Message>, i: nat, j: nat) returns (asker: nat)
    requires Encodable(msgs) && Pairable(msgs)
    requires i < |msgs| && msgs[i].role == Tool && j < |msgs[i].toolResults|
    ensures asker < i && msgs[asker].role == Assistant && Sends(OwnBlocks(msgs[asker]), msgs[i].toolResults[j].callID)
    ensures Start(msgs, asker) + 1 < |Rewritten(msgs)|
    ensures Rewritten(msgs)[Start(msgs, asker)] == Turn(Assistant, OwnBlocks(msgs[asker]))
    ensures var r := msgs[i].toolResults[j];
            var turn := Rewritten(msgs)[Start(msgs, asker) + 1];
            turn.role == User && ToolResultBlock(r.callID, r.content, r.isError) in turn.blocks
  {
    ResultHasAsker(msgs, i, j);
    asker := Owner(msgs, |msgs|, msgs[i].toolResults[j].callID);
    ResultIsAnswer(msgs, i, j);
    AnswerTurnAt(msgs, asker);
    OwnTurnAt(msgs, asker);
  }

  /** Turns keep the order of their messages. */
  lemma {:induction false} TurnsKeepOrder(msgs: seq<Message>, i: nat, j: nat)
    requires i < j < |msgs| && OwnBlocks(msgs[i]) != []
    ensures Start(msgs, i) < Start(msgs, j)
  {
    var parts := Turns(msgs);
    assert parts[i] == MessageTurns(msgs, i);
    ConcatPasses(parts, i, j);
  }

  // ---- the wire rule ----

  predicate FollowsUse(turns: seq<Turn>, k: nat, b: Block) {
    0 < k <= |turns| && turns[k - 1].role == Assistant && b.ToolResultBlock? && Sends(turns[k - 1].blocks, b.id)
  }

  /** Every tool result directly follows the assistant turn that asked for it. */
  predicate ResultsFollowUses(turns: seq<Turn>) {
    forall k, b :: 0 <= k < |turns| && b in turns[k].blocks && b.ToolResultBlock? ==> FollowsUse(turns, k, b)
  }

  /** No replayed native block is itself a tool result. */
  predicate NoReplayedResults(msgs: seq<Message>) {
    forall i, b :: 0 <= i < |msgs| && b in OwnBlocks(msgs[i]) ==> !b.ToolResultBlock?
  }

  lemma {:induction false} FollowAppend(a: seq<Turn>, b: seq<Turn>)
    requires ResultsFollowUses(a) && ResultsFollowUses(b)
    ensures ResultsFollowUses(a + b)
  {
  }

  lemma {:induction false} ConcatFollows(parts: seq<seq<Turn>>, n: nat)
    requires n <= |parts| && forall i :: 0 <= i < n ==> ResultsFollowUses(parts[i])
    ensures ResultsFollowUses(Concat(parts, n))
  {
    if n > 0 {
      ConcatFollows(parts, n - 1);
      FollowAppend(Concat(parts, n - 1), parts[n - 1]);
    }
  }

  lemma {:induction false} MessageFollows(msgs: seq<Message>, i: nat)
    requires i < |msgs| && Encodable(msgs) && NoReplayedResults(msgs)
    ensures ResultsFollowUses(MessageTurns(msgs, i))
  {
    var turns := MessageTurns(msgs, i);
    forall k, b | 0 <= k < |turns| && b in turns[k].blocks && b.ToolResultBlock?
      ensures FollowsUse(turns, k, b)
    {
      assert turns[k] == Turn(User, Answers(msgs, i));
      AnswersNeedAsker(msgs, i);
    }
  }

  /** The rewritten transcript obeys the pairing rule of the wire format. */
  lemma {:induction false} RewriteObeysPairing(msgs: seq<Message>)
    requires Encodable(msgs) && NoReplayedResults(msgs)
    ensures ResultsFollowUses(Rewritten(msgs))
  {
    forall i | 0 <= i < |msgs| ensures ResultsFollowUses(Turns(msgs)[i]) {
      MessageFollows(msgs, i);
    }
    ConcatFollows(Turns(msgs), |msgs|);
  }

  // ---- nothing lost, nothing repeated ----

  function AllBlocks(turns: seq<Turn>): multiset<Block> {
    if turns == [] then multiset{} else AllBlocks(turns[..|turns| - 1]) + multiset(turns[|turns| - 1].blocks)
  }

  lemma {:induction false} AllBlocksAppend(a: seq<Turn>, b: seq<Turn>)
    ensures AllBlocks(a + b) == AllBlocks(a) + AllBlocks(b)
    decreases |b|
  {
    if b == [] {
      assert a + b == a;
    } else {
      var n := |b| - 1;
      assert (a + b)[..|a + b| - 1] == a + b[..n];
      AllBlocksAppend(a, b[..n]);
    }
  }

  function Sum(sets: seq<multiset<Block>>, n: nat): multiset<Block>
    requires n <= |sets|
  {
    if n == 0 then multiset{} else Sum(sets, n - 1) + sets[n - 1]
  }

  /** Per message, the blocks of its own turn. */
  function OwnSets(msgs: seq<Message>): seq<multiset<Block>> {
    seq(|msgs|, i requires 0 <= i < |msgs| => multiset(OwnBlocks(msgs[i])))
  }

  /** Per message, the results answering it. */
  function AnswerSets(msgs: seq<Message>): seq<multiset<Block>> {
    seq(|msgs|, i requires 0 <= i < |msgs| => multiset(Answers(msgs, i)))
  }

  function ResultBlocks(results: seq<ToolResult>): multiset<Block> {
    if results == [] then multiset{}
    else
      var last := results[|results| - 1];
      ResultBlocks(results[..|results| - 1]) + multiset{ToolResultBlock(last.callID, last.content, last.isError)}
  }

  /** Per message, the results it brings; only a tool message brings any. */
  function ResultSets(msgs: seq<Message>): seq<multiset<Block>> {
    seq(|msgs|, i requires 0 <= i < |msgs| =>
      if msgs[i].role == Tool then ResultBlocks(msgs[i].toolResults) else multiset{})
  }

  lemma {:induction false} ResultBlocksAppend(a: seq<ToolResult>, b: seq<ToolResult>)
    ensures ResultBlocks(a + b) == ResultBlocks(a) + ResultBlocks(b)
    decreases |b|
  {
    if b == [] {
      assert a + b == a;
    } else {
      var n := |b| - 1;
      assert (a + b)[..|a + b| - 1] == a + b[..n];
      ResultBlocksAppend(a, b[..n]);
    }
  }

  /** The results whose owner is one of the first n messages. */
  function OwnedBelow(msgs: seq<Message>, results: seq<ToolResult>, n: nat): multiset<Block> {
    if results == [] then multiset{}
    else
      var front, last := results[..|results| - 1], results[|results| - 1];
      if 0 <= Owner(msgs, |msgs|, last.callID) < n then OwnedBelow(msgs, front, n) + multiset{ResultBlock(last)}
      else OwnedBelow(msgs, front, n)
  }

  lemma {:induction false} OwnedBelowStep(msgs: seq<Message>, results: seq<ToolResult>, n: nat)
    ensures OwnedBelow(msgs, results, n + 1) == OwnedBelow(msgs, results, n) + multiset(AnswersTo(msgs, results, n))
    decreases |results|
  {
    if results != [] { OwnedBelowStep(msgs, results[..|results| - 1], n); }
  }

  lemma {:induction false} OwnedBelowNone(msgs: seq<Message>, results: seq<ToolResult>)
    ensures OwnedBelow(msgs, results, 0) == multiset{}
    decreases |results|
  {
    if results != [] { OwnedBelowNone(msgs, results[..|results| - 1]); }
  }

  lemma {:induction false} OwnedBelowLast(msgs: seq<Message>, results: seq<ToolResult>, last: nat)
    requires last + 1 == |results| && 0 <= Owner(msgs, |msgs|, results[last].callID)
    requires OwnedBelow(msgs, results[..last], |msgs|) == ResultBlocks(results[..last])
    ensures OwnedBelow(msgs, results, |msgs|) == ResultBlocks(results)
  {
    assert ResultBlock(results[last]) == ToolResultBlock(results[last].callID, results[last].content, results[last].isError);
  }

  lemma {:induction false} OwnedBelowAll(msgs: seq<Message>, results: seq<ToolResult>)
    requires forall k :: 0 <= k < |results| ==> Owner(msgs, |msgs|, results[k].callID) >= 0
    ensures OwnedBelow(msgs, results, |msgs|) == ResultBlocks(results)
    decreases |results|
  {
    if results != [] {
      var last := |results| - 1;
      OwnedBelowAll(msgs, results[..last]);
      OwnedBelowLast(msgs, results, last);
    }
  }

  lemma {:induction false} PairableOwnsAll(msgs: seq<Message>, n: nat)
    requires n <= |msgs| && Pairable(msgs)
    ensures forall k :: 0 <= k < |AllResults(msgs, n)| ==> Owner(msgs, |msgs|, AllResults(msgs, n)[k].callID) >= 0
  {
    if n > 0 {
      PairableOwnsAll(msgs, n - 1);
      assert PlaceableMessage(msgs, n - 1);
      if msgs[n - 1].role == Tool {
        var front, trs := AllResults(msgs, n - 1), msgs[n - 1].toolResults;
        var all: seq<ToolResult> := front + trs;
        forall k | 0 <= k < |all| ensures Owner(msgs, |msgs|, all[k].callID) >= 0 {
          if k >= |front| { assert Placeable(msgs, n - 1, trs[k - |front|]); }
        }
      }
    }
  }

  lemma {:induction false} MessageBlocks(msgs: seq<Message>, i: nat)
    requires i < |msgs| && Encodable(msgs)
    ensures AllBlocks(Turns(msgs)[i]) == multiset(OwnBlocks(msgs[i])) + multiset(Answers(msgs, i))
  {
    if Answers(msgs, i) != [] { AnswersNeedAsker(msgs, i); }
    var own := Turn(msgs[i].role, OwnBlocks(msgs[i]));
    assert [own][..0] == [];
    var ans := Turn(User, Answers(msgs, i));
    assert [ans][..0] == [];
    AllBlocksAppend(OwnTurn(msgs[i]), AnswerTurn(msgs, i));
  }

  lemma Regroup(a: multiset<Block>, b: multiset<Block>, c: multiset<Block>, d: multiset<Block>)
    ensures (a + b) + (c + d) == (a + c) + (b + d)
  {
  }

  lemma {:induction false} ConcatSums(parts: seq<seq<Turn>>, own: seq<multiset<Block>>, ans: seq<multiset<Block>>, n: nat)
    requires n <= |parts| == |own| == |ans|
    requires forall i :: 0 <= i < n ==> AllBlocks(parts[i]) == own[i] + ans[i]
    ensures AllBlocks(Concat(parts, n)) == Sum(own, n) + Sum(ans, n)
  {
    if n > 0 {
      ConcatSums(parts, own, ans, n - 1);
      AllBlocksAppend(Concat(parts, n - 1), parts[n - 1]);
      Regroup(Sum(own, n - 1), Sum(ans, n - 1), own[n - 1], ans[n - 1]);
    }
  }

  lemma {:induction false} SumIs(sets: seq<multiset<Block>>, totals: seq<multiset<Block>>, n: nat)
    requires n <= |sets| && |totals| == |sets| + 1 && totals[0] == multiset{}
    requires forall i :: 0 <= i < n ==> totals[i + 1] == totals[i] + sets[i]
    ensures Sum(sets, n) == totals[n]
  {
    if n > 0 { SumIs(sets, totals, n - 1); }
  }

  lemma {:induction false} AnswersSum(msgs: seq<Message>)
    ensures Sum(AnswerSets(msgs), |msgs|) == OwnedBelow(msgs, AllResults(msgs, |msgs|), |msgs|)
  {
    var results := AllResults(msgs, |msgs|);
    var totals := seq(|msgs| + 1, i requires 0 <= i => OwnedBelow(msgs, results, i));
    OwnedBelowNone(msgs, results);
    forall i | 0 <= i < |msgs| ensures totals[i + 1] == totals[i] + AnswerSets(msgs)[i] {
      OwnedBelowStep(msgs, results, i);
    }
    SumIs(AnswerSets(msgs), totals, |msgs|);
  }

  lemma {:induction false} ResultsStep(msgs: seq<Message>, i: nat)
    requires i < |msgs|
    ensures ResultBlocks(AllResults(msgs, i + 1)) == ResultBlocks(AllResults(msgs, i)) + ResultSets(msgs)[i]
  {
    if msgs[i].role == Tool { ResultBlocksAppend(AllResults(msgs, i), msgs[i].toolResults); }
  }

  lemma {:induction false} ResultsSum(msgs: seq<Message>)
    ensures Sum(ResultSets(msgs), |msgs|) == ResultBlocks(AllResults(msgs, |msgs|))
  {
    var totals := seq(|msgs| + 1, i requires 0 <= i <= |msgs| => ResultBlocks(AllResults(msgs, i)));
    forall i | 0 <= i < |msgs| ensures totals[i + 1] == totals[i] + ResultSets(msgs)[i] {
      ResultsStep(msgs, i);
    }
    SumIs(ResultSets(msgs), totals, |msgs|);
  }

  /** The blocks sent are the messages' own blocks and their tool results, each exactly once. */
  lemma {:induction false} RewriteConserves(msgs: seq<Message>)
    requires Encodable(msgs) && Pairable(msgs)
    ensures AllBlocks(Rewritten(msgs)) == Sum(OwnSets(msgs), |msgs|) + Sum(ResultSets(msgs), |msgs|)
  {
    forall i | 0 <= i < |msgs| ensures AllBlocks(Turns(msgs)[i]) == OwnSets(msgs)[i] + AnswerSets(msgs)[i] {
      MessageBlocks(msgs, i);
    }
    ConcatSums(Turns(msgs), OwnSets(msgs), AnswerSets(msgs), |msgs|);
    AnswersSum(msgs);
    PairableOwnsAll(msgs, |msgs|);
    OwnedBelowAll(msgs, AllResults(msgs, |msgs|));
    ResultsSum(msgs);
  }

  // ---- a reused id ----

  /** Asking again under an id makes an answer given in between unplaceable, though its asker came first. */
  lemma {:induction false} ReusedIdFails(m: Message, r: ToolResult)
    requires m.role == Assistant && Owns(m, r.callID)
    ensures var msgs := [m, Message(Tool, "", NoRaw, [], [r]), m];
            AnsweredEarlier(msgs, 1, r.callID) && !Pairable(msgs)
  {
    var t := Message(Tool, "", NoRaw, [], [r]);
    var msgs := [m, t, m];
    assert Owns(msgs[0], r.callID);
    assert msgs[2] == m;
    PlaceableIff(msgs, 1, r);
    assert msgs[1].toolResults[0] == r;
    assert !PlaceableMessage(msgs, 1);
  }
}
