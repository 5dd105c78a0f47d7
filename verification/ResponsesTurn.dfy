/** What a Responses stream reports besides its calls: the text and the thinking as they come, and at the end the items
  * for replay. All of it is told on the events.
  */
module ResponsesTurn {
  import opened Wrappers
  import opened StreamEvents
  import opened Sorting
  import opened Responses
  import Text
  import ResponsesCalls

  // ---- text and thinking ----

  /** The nonempty deltas of text and thinking among the first n events, in order. */
  function Spoken(events: seq<Wire>, n: nat): seq<Ev>
    requires n <= |events|
  {
    if n == 0 then []
    else if events[n - 1].TextDelta? && events[n - 1].text != "" then Spoken(events, n - 1) + [TextEvent(events[n - 1].text)]
    else if events[n - 1].ThinkingDelta? && events[n - 1].text != "" then
      Spoken(events, n - 1) + [ThinkingEvent(events[n - 1].text)]
    else Spoken(events, n - 1)
  }

  /** What was reported of text and thinking. */
  function Live(sent: seq<Ev>): seq<Ev> {
    if sent == [] then []
    else
      var front, last := sent[..|sent| - 1], sent[|sent| - 1];
      if last.TextEvent? || last.ThinkingEvent? then Live(front) + [last] else Live(front)
  }

  lemma {:induction false} LiveAppend(sent: seq<Ev>, ev: Ev)
    ensures Live(sent + [ev]) == if ev.TextEvent? || ev.ThinkingEvent? then Live(sent) + [ev] else Live(sent)
  {
  }

  lemma EmitIsSilent(s: State, k: string, item: Item, assemble: Assemble)
    ensures Live(EmitCall(s, k, item, assemble).0.sent) == Live(s.sent) && s.sent <= EmitCall(s, k, item, assemble).0.sent
  {
    var t := EmitCall(s, k, item, assemble).0;
    if t.sent != s.sent { LiveAppend(s.sent, t.sent[|s.sent|]); }
  }

  lemma {:induction false} FinalIsSilent(s: State, output: seq<Output>, n: nat, assemble: Assemble)
    requires n <= |output|
    ensures Live(EmitFinal(s, output, n, assemble).0.sent) == Live(s.sent) && s.sent <= EmitFinal(s, output, n, assemble).0.sent
    ensures EmitFinal(s, output, n, assemble).0.items == s.items
  {
    if n > 0 {
      FinalIsSilent(s, output, n - 1, assemble);
      var (t, ok) := EmitFinal(s, output, n - 1, assemble);
      var item := output[n - 1].item;
      if ok && item.Some? && item.value.isCall { EmitIsSilent(t, FinalKey(item.value), item.value, assemble); }
    }
  }

  /** What one event adds. */
  lemma {:induction false} StepSpeaks(s: State, ev: Wire, assemble: Assemble)
    ensures Live(Step(s, ev, assemble).0.sent) ==
            if ev.TextDelta? && ev.text != "" then Live(s.sent) + [TextEvent(ev.text)]
            else if ev.ThinkingDelta? && ev.text != "" then Live(s.sent) + [ThinkingEvent(ev.text)]
            else Live(s.sent)
    ensures s.sent <= Step(s, ev, assemble).0.sent
  {
    match ev
    case TextDelta(text) => LiveAppend(s.sent, TextEvent(text));
    case ThinkingDelta(text) => LiveAppend(s.sent, ThinkingEvent(text));
    case ItemDone(itemID, index, item) =>
      var noted := NoteItem(s, Key(itemID, index), item);
      var t := if index.Some? then noted.(items := noted.items[index.value := item.raw]) else noted;
      if item.isCall { EmitIsSilent(t, Key(itemID, index), item, assemble); }
    case Completed(output) =>
      FinalIsSilent(s, output, |output|, assemble);
      var t := EmitFinal(s, output, |output|, assemble).0;
      LiveAppend(t.sent, DoneEvent(DoneRaw(output, t.items)));
    case _ =>
  }

  /** The first n events are read: the parser does not stop before the last of them. */
  ghost predicate ReadTo(events: seq<Wire>, n: nat, assemble: Assemble)
    requires n <= |events|
  {
    n > 0 ==> After(events, n - 1, assemble).1.Running?
  }

  lemma {:induction false} ReadToBefore(events: seq<Wire>, n: nat, assemble: Assemble)
    requires 0 < n <= |events| && ReadTo(events, n, assemble)
    ensures ReadTo(events, n - 1, assemble)
  {
  }

  /** After any number of events read, on any stream: the text reported is that of the nonempty text deltas, the
    * thinking that of the nonempty thinking deltas, all in the order in which they came. */
  lemma {:induction false} SpeaksAsStreamed(events: seq<Wire>, n: nat, assemble: Assemble)
    requires n <= |events| && ReadTo(events, n, assemble)
    ensures Live(After(events, n, assemble).0.sent) == Spoken(events, n)
  {
    if n > 0 {
      SpeaksAsStreamed(events, n - 1, assemble);
      StepSpeaks(After(events, n - 1, assemble).0, events[n - 1], assemble);
    }
  }

  /** Reports are only ever added at the end. */
  lemma {:induction false} ReportsGrow(events: seq<Wire>, m: nat, n: nat, assemble: Assemble)
    requires m <= n <= |events|
    ensures After(events, m, assemble).0.sent <= After(events, n, assemble).0.sent
    decreases n - m
  {
    if m < n {
      ReportsGrow(events, m, n - 1, assemble);
      StepSpeaks(After(events, n - 1, assemble).0, events[n - 1], assemble);
    }
  }

  // ---- the items for replay ----

  /** The item done last under an output index, as received. */
  function LastDone(events: seq<Wire>, n: nat, index: int): Option<string>
    requires n <= |events|
  {
    if n == 0 then None
    else if events[n - 1].ItemDone? && events[n - 1].index == Some(index) then Some(events[n - 1].item.raw)
    else LastDone(events, n - 1, index)
  }

  predicate ItemsAre(events: seq<Wire>, n: nat, items: map<int, string>, index: int)
    requires n <= |events|
  {
    LastDone(events, n, index) == if index in items then Some(items[index]) else None
  }

  lemma EmitKeepsItems(s: State, k: string, item: Item, assemble: Assemble)
    ensures EmitCall(s, k, item, assemble).0.items == s.items
  {
  }

  lemma {:induction false} StepKeepsItems(s: State, ev: Wire, assemble: Assemble)
    ensures Step(s, ev, assemble).0.items ==
            if ev.ItemDone? && ev.index.Some? then s.items[ev.index.value := ev.item.raw] else s.items
  {
    match ev
    case ItemDone(itemID, index, item) =>
      var noted := NoteItem(s, Key(itemID, index), item);
      var t := if index.Some? then noted.(items := noted.items[index.value := item.raw]) else noted;
      if item.isCall { EmitKeepsItems(t, Key(itemID, index), item, assemble); }
    case Completed(output) => FinalIsSilent(s, output, |output|, assemble);
    case _ =>
  }

  lemma {:induction false} ItemsAreLast(events: seq<Wire>, n: nat, index: int, assemble: Assemble)
    requires n <= |events| && ReadTo(events, n, assemble)
    ensures ItemsAre(events, n, After(events, n, assemble).0.items, index)
  {
    if n > 0 {
      ItemsAreLast(events, n - 1, index, assemble);
      StepKeepsItems(After(events, n - 1, assemble).0, events[n - 1], assemble);
    }
  }

  predicate Ascending(order: seq<int>) {
    forall i, j :: 0 <= i < j < |order| ==> order[i] < order[j]
  }

  /** The indices under which something was done, ascending. */
  ghost predicate DoneIndices(events: seq<Wire>, n: nat, order: seq<int>)
    requires n <= |events|
  {
    Ascending(order) && forall i :: i in order <==> LastDone(events, n, i).Some?
  }

  lemma {:induction false} AnyOrderSorts(keys: set<int>) returns (order: seq<int>)
    ensures order == SortInts(AnyOrder(keys)) && Ascending(order) && forall i :: i in order <==> i in keys
  {
    var any := AnyOrder(keys);
    order := SortInts(any);
    SortIntsSorts(any);
    assert multiset(order) == multiset(keys);
    forall i ensures i in order <==> i in keys { assert i in order <==> i in multiset(order); }
    forall i, j | 0 <= i < j < |order| ensures order[i] < order[j] {
      if order[i] == order[j] { TwiceInBag(order, i, j); }
    }
  }

  lemma TwiceInBag(s: seq<int>, i: nat, j: nat)
    requires i < j < |s|
    ensures s[i] == s[j] ==> multiset(s)[s[i]] >= 2
  {
    assert s == s[..j] + s[j..];
    assert s[i] in s[..j] && s[j] in s[j..];
    assert s[..j][i] == s[i] && s[j..][0] == s[j];
  }

  lemma {:induction false} PickedAre(items: map<int, string>, order: seq<int>, n: nat)
    requires n <= |order| && forall i :: 0 <= i < |order| ==> order[i] in items
    ensures |Picked(items, order, n)| == n && forall i :: 0 <= i < n ==> Picked(items, order, n)[i] == items[order[i]]
  {
    if n > 0 { PickedAre(items, order, n - 1); }
  }

  /** The items handed on by a stream with this final output: the final output as received, when there is any; else the
    * items done last under each output index, ascending; none when nothing was done. */
  ghost predicate Replays(body: seq<Wire>, output: seq<Output>, raw: Option<seq<string>>) {
    if output != [] then raw.Some? && |raw.value| == |output| && forall k :: 0 <= k < |output| ==> raw.value[k] == output[k].raw
    else if forall i :: LastDone(body, |body|, i).None? then raw.None?
    else raw.Some? && exists order :: DoneIndices(body, |body|, order) && ItemsOf(body, order, raw.value)
  }

  predicate ItemsOf(body: seq<Wire>, order: seq<int>, raws: seq<string>) {
    |raws| == |order| && forall k :: 0 <= k < |order| ==> LastDone(body, |body|, order[k]) == Some(raws[k])
  }

  ghost predicate AllItemsAre(body: seq<Wire>, items: map<int, string>) {
    forall i :: ItemsAre(body, |body|, items, i)
  }

  lemma OrderIsDone(body: seq<Wire>, items: map<int, string>, order: seq<int>)
    requires AllItemsAre(body, items) && Ascending(order) && forall i :: i in order <==> i in items
    ensures DoneIndices(body, |body|, order)
  {
    forall i ensures i in order <==> LastDone(body, |body|, i).Some? { assert ItemsAre(body, |body|, items, i); }
  }

  lemma PickedItems(body: seq<Wire>, items: map<int, string>, order: seq<int>)
    requires AllItemsAre(body, items) && forall k :: 0 <= k < |order| ==> order[k] in items
    ensures ItemsOf(body, order, Picked(items, order, |order|))
  {
    PickedAre(items, order, |order|);
    forall k | 0 <= k < |order| ensures LastDone(body, |body|, order[k]) == Some(items[order[k]]) {
      assert ItemsAre(body, |body|, items, order[k]);
    }
  }

  lemma SomethingDone(body: seq<Wire>, items: map<int, string>)
    requires AllItemsAre(body, items) && items != map[]
    ensures exists i :: LastDone(body, |body|, i).Some?
  {
    HasMember(items.Keys);
    assert items.Keys != {};
    var i :| i in items.Keys;
    assert ItemsAre(body, |body|, items, i);
  }

  lemma {:induction false} DoneRawReplays(body: seq<Wire>, output: seq<Output>, items: map<int, string>)
    requires AllItemsAre(body, items)
    ensures Replays(body, output, DoneRaw(output, items))
  {
    if output == [] {
      if items == map[] {
        forall i ensures LastDone(body, |body|, i).None? { assert ItemsAre(body, |body|, items, i); }
      } else {
        var order := AnyOrderSorts(items.Keys);
        SomethingDone(body, items);
        OrderIsDone(body, items, order);
        forall k | 0 <= k < |order| ensures order[k] in items { assert order[k] in order; }
        PickedItems(body, items, order);
      }
    }
  }

  lemma CompletedEnds(s: State, output: seq<Output>, assemble: Assemble)
    requires Step(s, Completed(output), assemble).1.Finished?
    ensures var sent := Step(s, Completed(output), assemble).0.sent;
            sent != [] && sent[|sent| - 1] == DoneEvent(DoneRaw(output, s.items))
  {
    FinalIsSilent(s, output, |output|, assemble);
  }

  /** A stream that is accepted ends with its one Done, which carries these items. */
  lemma {:induction false} DoneReplays(body: seq<Wire>, output: seq<Output>, events: seq<Wire>, assemble: Assemble)
    requires events == body + [Completed(output)] && After(body, |body|, assemble).1.Running?
    requires After(events, |events|, assemble).1.Finished?
    ensures var sent := After(events, |events|, assemble).0.sent;
            && sent != [] && sent[|sent| - 1].DoneEvent? && Replays(body, output, sent[|sent| - 1].raw)
  {
    var s := After(body, |body|, assemble).0;
    ResponsesCalls.AfterPrefix(body, [Completed(output)], |body|, assemble);
    assert After(events, |events|, assemble) == Step(s, Completed(output), assemble);
    CompletedEnds(s, output, assemble);
    ReadToStart(body, assemble);
    forall i ensures ItemsAre(body, |body|, s.items, i) { ItemsAreLast(body, |body|, i, assemble); }
    DoneRawReplays(body, output, s.items);
  }

  lemma {:induction false} ReadToStart(body: seq<Wire>, assemble: Assemble)
    requires After(body, |body|, assemble).1.Running?
    ensures ReadTo(body, |body|, assemble)
  {
  }

  // ---- the keys that tell calls apart ----

  lemma {:induction false} DecimalDiffers(i: int, j: int)
    ensures Decimal(i) == Decimal(j) <==> i == j
  {
    if i < 0 { Text.ValueOfItoa(-i); } else { Text.ValueOfItoa(i); }
    if j < 0 { Text.ValueOfItoa(-j); } else { Text.ValueOfItoa(j); }
    if i < 0 && j < 0 {
      assert Decimal(i)[1..] == Text.Itoa(-i) && Decimal(j)[1..] == Text.Itoa(-j);
    } else if i < 0 {
      assert Decimal(i)[0] == '-';
    } else if j < 0 {
      assert Decimal(j)[0] == '-';
    }
  }

  /** A call is named by its item id, or else by its output index, and different indices are different names. */
  lemma {:induction false} KeyNames(itemID: string, i: int, j: int)
    ensures itemID != "" ==> Key(itemID, Some(i)) == itemID && Key(itemID, None) == itemID
    ensures Key("", None) == "" && Key("", Some(i)) != ""
    ensures Key("", Some(i)) == Key("", Some(j)) <==> i == j
  {
    DecimalDiffers(i, j);
    assert Key("", Some(i))[6..] == Decimal(i) && Key("", Some(j))[6..] == Decimal(j);
  }

  // ---- what is known of a call ----

  predicate Tells(ev: Wire, k: string) {
    (ev.ItemAdded? || ev.ItemDone?) && ev.item.isCall && Key(ev.itemID, ev.index) == k
  }

  /** The last call id, and the last name, that the first n events tell of the key. */
  function IdTold(events: seq<Wire>, n: nat, k: string): string
    requires n <= |events|
  {
    if n == 0 then ""
    else if Tells(events[n - 1], k) && events[n - 1].item.callID != "" then events[n - 1].item.callID
    else IdTold(events, n - 1, k)
  }

  function NameTold(events: seq<Wire>, n: nat, k: string): string
    requires n <= |events|
  {
    if n == 0 then ""
    else if Tells(events[n - 1], k) && events[n - 1].item.name != "" then events[n - 1].item.name
    else NameTold(events, n - 1, k)
  }

  /** The last whole arguments told of the key, with the deltas since. */
  function ArgumentsTold(events: seq<Wire>, n: nat, k: string): string
    requires n <= |events|
  {
    if n == 0 then ""
    else if Tells(events[n - 1], k) && events[n - 1].item.arguments != "" then events[n - 1].item.arguments
    else if events[n - 1].ArgumentsDelta? && Key(events[n - 1].itemID, events[n - 1].index) == k then
      ArgumentsTold(events, n - 1, k) + events[n - 1].text
    else ArgumentsTold(events, n - 1, k)
  }

  function Told(events: seq<Wire>, n: nat, k: string): Partial
    requires n <= |events|
  {
    Partial(IdTold(events, n, k), NameTold(events, n, k), ArgumentsTold(events, n, k))
  }

  lemma {:induction false} KnownIsTold(events: seq<Wire>, n: nat, k: string)
    requires n <= |events|
    ensures PartialOf(ResponsesCalls.Known(events, n), k) == Told(events, n, k)
  {
    if n > 0 { KnownIsTold(events, n - 1, k); }
  }

  /** A call that is done is mentioned with the last id and name told of it, and its complete arguments. */
  lemma {:induction false} MentionIsTold(events: seq<Wire>, n: nat)
    requires 0 < n <= |events| && events[n - 1].ItemDone? && events[n - 1].item.isCall
    ensures var ms, k := ResponsesCalls.Mentions(events, n), Key(events[n - 1].itemID, events[n - 1].index);
            && ms != [] && ms[|ms| - 1].key == k
            && Partial(ms[|ms| - 1].callID, ms[|ms| - 1].name, ms[|ms| - 1].arguments) == Told(events, n, k)
  {
    KnownIsTold(events, n, Key(events[n - 1].itemID, events[n - 1].index));
  }

  /** A call of the final output is mentioned under its item id, or else its call id, with what it says itself, and what
    * it leaves out as the stream told it. */
  lemma {:induction false} FinalMentionIsTold(body: seq<Wire>, output: seq<Output>, n: nat)
    requires n < |output| && output[n].item.Some? && output[n].item.value.isCall
    ensures var item := output[n].item.value;
            var k := if item.id != "" then item.id else item.callID;
            var told, ms := Told(body, |body|, k), ResponsesCalls.FinalMention(ResponsesCalls.Known(body, |body|), output, n);
            && |ms| == 1 && ms[0].key == k
            && ms[0].callID == (if item.callID != "" then item.callID else told.callID)
            && ms[0].name == (if item.name != "" then item.name else told.name)
            && ms[0].arguments == (if item.arguments != "" then item.arguments else told.arguments)
  {
    KnownIsTold(body, |body|, FinalKey(output[n].item.value));
  }
}
