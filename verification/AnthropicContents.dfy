/** What is sent of a transcript, told by the fields of its messages alone: the blocks of each turn, which messages
  * can be encoded, and the system text.
  */
module AnthropicContents {
  import opened Wrappers
  import opened Text
  import opened AnthropicTranscript
  import opened AnthropicPairing

  // ---- white space ----

  predicate HasText(s: string) {
    exists i :: 0 <= i < |s| && !IsSpace(s[i])
  }

  lemma {:induction false} TrimRightKeeps(s: string, i: nat)
    requires i < |s| && !IsSpace(s[i])
    ensures |TrimRight(s)| > i && TrimRight(s)[..i + 1] == s[..i + 1]
  {
    if IsSpace(s[|s| - 1]) { TrimRightKeeps(s[..|s| - 1], i); }
  }

  lemma {:induction false} BlankIff(s: string)
    ensures Blank(s) <==> !HasText(s)
  {
    if HasText(s) {
      var i :| 0 <= i < |s| && !IsSpace(s[i]);
      var n := Span(s, SPACE);
      assert forall k :: 0 <= k < n ==> s[..n][k] == s[k];
      TrimRightKeeps(TrimLeft(s), i - n);
    } else {
      SpanIsUnique(s, s, "", SPACE);
    }
  }

  // ---- which messages can be encoded ----

  /** Stored blocks can be read, and are not the other protocol's. */
  predicate RawUsable(raw: Raw) {
    match raw
    case NoRaw => true
    case BadRaw => false
    case Blocks(bs) =>
      || (forall k :: 0 <= k < |bs| ==> !bs[k].Foreign?)
      || (exists k :: 0 <= k < |bs| && (bs[k].Thinking? || bs[k].ToolUse? || bs[k].Native?))
  }

  predicate CallUsable(c: ToolCall) { HasText(c.id) && HasText(c.name) && c.input.Some? }

  predicate CallsUsable(calls: seq<ToolCall>, n: nat)
    requires n <= |calls|
  {
    forall k :: 0 <= k < n ==> CallUsable(calls[k])
  }

  predicate Usable(m: Message) {
    match m.role
    case System => true
    case Tool => true
    case User => RawUsable(m.raw)
    case Assistant => RawUsable(m.raw) && (m.raw.NoRaw? ==> CallsUsable(m.toolCalls, |m.toolCalls|))
    case Unknown(_) => false
  }

  predicate CallsAgree(calls: seq<ToolCall>, n: nat)
    requires n <= |calls|
  {
    CallBlocks(calls, n).Some? <==> CallsUsable(calls, n)
  }

  /** What one more call adds. */
  lemma CallAdds(calls: seq<ToolCall>, n: nat)
    requires 0 < n <= |calls|
    ensures var front, c := CallBlocks(calls, n - 1), calls[n - 1];
            CallBlocks(calls, n) == if front.Some? && CallUsable(c) then Some(front.value + [ToolUse(c.id, c.name, c.input.value)])
                                    else None
  {
    BlankIff(calls[n - 1].id);
    BlankIff(calls[n - 1].name);
  }

  lemma CallsUsableStep(calls: seq<ToolCall>, n: nat)
    requires 0 < n <= |calls|
    ensures CallsUsable(calls, n) <==> CallsUsable(calls, n - 1) && CallUsable(calls[n - 1])
  {
  }

  lemma {:induction false} CallsAgreeStep(calls: seq<ToolCall>, n: nat)
    requires 0 < n <= |calls| && CallsAgree(calls, n - 1)
    ensures CallsAgree(calls, n)
  {
    CallAdds(calls, n);
    CallsUsableStep(calls, n);
  }

  lemma {:induction false} CallsUsableIff(calls: seq<ToolCall>, n: nat)
    requires n <= |calls|
    ensures CallsAgree(calls, n)
  {
    if n > 0 {
      CallsUsableIff(calls, n - 1);
      CallsAgreeStep(calls, n);
    }
  }

  lemma RawUsableIff(raw: Raw)
    ensures RawBlocks(raw).Some? <==> RawUsable(raw)
    ensures raw.Blocks? && RawUsable(raw) ==> RawBlocks(raw) == Some(raw.blocks)
  {
    if raw.Blocks? {
      forall k | 0 <= k < |raw.blocks| ensures raw.blocks[k] in raw.blocks {}
    }
  }

  /** A message can be encoded exactly when its fields are usable: stored blocks readable and not the other protocol's,
    * and calls to rebuild with an id, a name and an object for input. */
  lemma {:induction false} EncodableIff(m: Message)
    ensures EncodableMessage(m) <==> Usable(m)
  {
    RawUsableIff(m.raw);
    CallsUsableIff(m.toolCalls, |m.toolCalls|);
  }

  // ---- the blocks of a message ----

  /** The blocks are the tool uses of the first n calls, each with the call's id, name and input. */
  predicate AreUses(bs: seq<Block>, calls: seq<ToolCall>, n: nat)
    requires n <= |calls|
  {
    |bs| == n && forall k :: 0 <= k < n ==>
      calls[k].input.Some? && bs[k] == ToolUse(calls[k].id, calls[k].name, calls[k].input.value)
  }

  predicate UsesSoFar(calls: seq<ToolCall>, n: nat)
    requires n <= |calls|
  {
    CallBlocks(calls, n).Some? ==> AreUses(CallBlocks(calls, n).value, calls, n)
  }

  lemma UsesSnoc(bs: seq<Block>, calls: seq<ToolCall>, n: nat)
    requires 0 < n <= |calls| && AreUses(bs, calls, n - 1) && calls[n - 1].input.Some?
    ensures AreUses(bs + [ToolUse(calls[n - 1].id, calls[n - 1].name, calls[n - 1].input.value)], calls, n)
  {
  }

  lemma {:induction false} UsesStep(calls: seq<ToolCall>, n: nat)
    requires 0 < n <= |calls| && UsesSoFar(calls, n - 1)
    ensures UsesSoFar(calls, n)
  {
    CallAdds(calls, n);
    if CallBlocks(calls, n).Some? { UsesSnoc(CallBlocks(calls, n - 1).value, calls, n); }
  }

  lemma {:induction false} CallBlocksAreUses(calls: seq<ToolCall>, n: nat)
    requires n <= |calls|
    ensures UsesSoFar(calls, n)
  {
    if n > 0 {
      CallBlocksAreUses(calls, n - 1);
      UsesStep(calls, n);
    }
  }

  /** What a message says in its own turn. */
  predicate Says(m: Message, bs: seq<Block>) {
    match m.role
    case User =>
      if m.raw.Blocks? then bs == m.raw.blocks
      else if HasText(m.text) then bs == [TextBlock(m.text)]
      else bs == []
    case Assistant =>
      if m.raw.Blocks? then bs == m.raw.blocks
      else if m.text == "" then AreUses(bs, m.toolCalls, |m.toolCalls|)
      else bs != [] && bs[0] == TextBlock(m.text) && AreUses(bs[1..], m.toolCalls, |m.toolCalls|)
    case _ => bs == []
  }

  lemma AssistantSays(m: Message)
    requires m.role == Assistant && m.raw.NoRaw? && Usable(m)
    ensures Says(m, OwnBlocks(m))
  {
    EncodableIff(m);
    CallBlocksAreUses(m.toolCalls, |m.toolCalls|);
    var calls := CallBlocks(m.toolCalls, |m.toolCalls|).value;
    assert ([TextBlock(m.text)] + calls)[1..] == calls && [] + calls == calls;
  }

  /** The blocks of a message's own turn are its stored blocks unchanged, or else its text and, from an assistant, its
    * calls behind it, in order. */
  lemma {:induction false} OwnBlocksSay(m: Message)
    requires Usable(m)
    ensures Says(m, OwnBlocks(m))
  {
    EncodableIff(m);
    if m.role == Assistant && m.raw.NoRaw? {
      AssistantSays(m);
    } else {
      RawUsableIff(m.raw);
      BlankIff(m.text);
    }
  }

  /** So a message that says something has its turn, under its own role, with just that; one that says nothing has none. */
  lemma {:induction false} TurnSays(msgs: seq<Message>, i: nat)
    requires i < |msgs| && Usable(msgs[i])
    ensures if OwnBlocks(msgs[i]) == [] then
              Says(msgs[i], []) && (msgs[i].role != Assistant ==> Turns(msgs)[i] == [])
            else
              && Start(msgs, i) < |Rewritten(msgs)| && Rewritten(msgs)[Start(msgs, i)].role == msgs[i].role
              && Says(msgs[i], Rewritten(msgs)[Start(msgs, i)].blocks)
  {
    OwnBlocksSay(msgs[i]);
    if OwnBlocks(msgs[i]) != [] { OwnTurnAt(msgs, i); }
  }

  // ---- the system text ----

  /** The texts that make up the system prompt, in order: the given one, then those of the system messages. */
  function Texts(system: string, msgs: seq<Message>): seq<string> {
    if msgs == [] then [system]
    else
      var front, last := msgs[..|msgs| - 1], msgs[|msgs| - 1];
      if last.role == System then Texts(system, front) + [last.text] else Texts(system, front)
  }

  /** What is left of the texts: each without the white space around it, nothing of those that are white space. */
  predicate Trimmed(texts: seq<string>, parts: seq<string>)
    decreases |texts|
  {
    if texts == [] then parts == []
    else
      var front, last := texts[..|texts| - 1], texts[|texts| - 1];
      if !HasText(last) then Trimmed(front, parts)
      else parts != [] && IsTrimmed(last, parts[|parts| - 1]) && Trimmed(front, parts[..|parts| - 1])
  }

  predicate IsTrimmed(s: string, core: string) {
    Tight(core) && exists i :: 0 <= i <= |s| - |core| && s[i..i + |core|] == core && AllIn(s[..i], SPACE) && AllIn(s[i + |core|..], SPACE)
  }

  lemma {:induction false} TrimRightIs(s: string)
    ensures TrimRight(s) <= s && AllIn(s[|TrimRight(s)|..], SPACE)
    ensures TrimRight(s) != "" ==> !IsSpace(TrimRight(s)[|TrimRight(s)| - 1])
  {
    if s != "" && IsSpace(s[|s| - 1]) {
      TrimRightIs(s[..|s| - 1]);
      var k := |TrimRight(s)|;
      assert s[k..] == s[..|s| - 1][k..] + [s[|s| - 1]];
    }
  }

  lemma TrimSpaceIs(s: string)
    requires HasText(s)
    ensures IsTrimmed(s, TrimSpace(s))
  {
    BlankIff(s);
    var n, core := Span(s, SPACE), TrimSpace(s);
    TrimRightIs(TrimLeft(s));
    assert core == s[n..][..|core|] == s[n..n + |core|];
    assert s[n + |core|..] == s[n..][|core|..];
    assert core[0] == s[n..][0];
  }

  lemma PartIs(texts: seq<string>, text: string, parts: seq<string>)
    requires Trimmed(texts, parts)
    ensures Trimmed(texts + [text], parts + Part(text))
  {
    BlankIff(text);
    assert (texts + [text])[..|texts|] == texts;
    if HasText(text) {
      TrimSpaceIs(text);
      assert (parts + Part(text))[..|parts|] == parts;
    } else {
      assert parts + [] == parts;
    }
  }

  lemma {:induction false} SystemPartsAre(system: string, msgs: seq<Message>, n: nat)
    requires n <= |msgs|
    ensures Trimmed(Texts(system, msgs[..n]), SystemParts(system, msgs, n))
  {
    if n == 0 {
      PartIs([], system, []);
      assert [] + [system] == [system] && [] + Part(system) == Part(system);
    } else {
      SystemPartsAre(system, msgs, n - 1);
      assert msgs[..n][..n - 1] == msgs[..n - 1];
      if msgs[n - 1].role == System { PartIs(Texts(system, msgs[..n - 1]), msgs[n - 1].text, SystemParts(system, msgs, n - 1)); }
    }
  }

  /** Joining puts exactly one blank line between any two neighbours. */
  lemma {:induction false} JoinPartsSplits(a: seq<string>, b: seq<string>)
    requires a != [] && b != []
    ensures JoinParts(a + b) == JoinParts(a) + "\n\n" + JoinParts(b)
    ensures JoinParts([a[0]]) == a[0] && JoinParts([]) == ""
    decreases |a|
  {
    if |a| == 1 {
      assert (a + b)[1..] == b;
    } else {
      assert (a + b)[1..] == a[1..] + b;
      JoinPartsSplits(a[1..], b);
      AppendAssociates(a[0] + "\n\n", JoinParts(a[1..]), "\n\n");
      AppendAssociates(a[0] + "\n\n", JoinParts(a[1..]) + "\n\n", JoinParts(b));
    }
  }

  /** The system text joins the given prompt and the texts of the system messages, in order, each trimmed, those that are
    * white space left out. */
  lemma {:induction false} SystemTextIs(system: string, msgs: seq<Message>)
    ensures Trimmed(Texts(system, msgs), SystemParts(system, msgs, |msgs|))
  {
    SystemPartsAre(system, msgs, |msgs|);
    assert msgs[..|msgs|] == msgs;
  }
}
