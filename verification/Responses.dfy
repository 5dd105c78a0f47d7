/** The Responses stream parser (internal/server/aiprotocol/openai_responses.go): a call is named by its item id
  * or its output index while it streams, and by its call id in the final response.
  */
module Responses {
  import opened Wrappers
  import opened StreamEvents
  import opened Sorting
  import Text

  /** An output item; raw is the item as received. */
  datatype Item = Item(id: string, isCall: bool, callID: string, name: string, arguments: string, raw: string)

  /** An element of the final output; None when it is not an object of the expected form. */
  datatype Output = Output(item: Option<Item>, raw: string)

  datatype Wire =
    | TextDelta(text: string)
    | ThinkingDelta(text: string)
    | ItemAdded(itemID: string, index: Option<int>, item: Item)
    | ItemDone(itemID: string, index: Option<int>, item: Item)
    | ArgumentsDelta(itemID: string, index: Option<int>, text: string)
    | Completed(output: seq<Output>)
    | Failure
    | Ignored
    | Broken

  type Ev = Event<seq<string>>

  datatype Partial = Partial(callID: string, name: string, arguments: string)

  datatype State = State(calls: map<string, Partial>, emitted: set<string>, emittedCallIDs: set<string>,
                         items: map<int, string>, sent: seq<Ev>)

  const INITIAL: State := State(map[], {}, {}, map[], [])

  function Decimal(i: int): string {
    if i < 0 then "-" + Text.Itoa(-i) else Text.Itoa(i)
  }

  /** `responsesKey`. */
  function Key(itemID: string, index: Option<int>): string {
    if itemID != "" then itemID
    else if index.Some? then "index:" + Decimal(index.value)
    else ""
  }

  function PartialOf(calls: map<string, Partial>, k: string): Partial {
    if k in calls then calls[k] else Partial("", "", "")
  }

  /** What an item event adds to its call; its arguments replace those streamed so far. */
  function Noted(p: Partial, item: Item): Partial {
    Partial(if item.callID != "" then item.callID else p.callID,
            if item.name != "" then item.name else p.name,
            if item.arguments != "" then item.arguments else p.arguments)
  }

  function NoteItem(s: State, k: string, item: Item): State {
    if item.isCall then s.(calls := s.calls[k := Noted(PartialOf(s.calls, k), item)]) else s
  }

  function EmitCall(s: State, k: string, item: Item, assemble: Assemble): (State, bool) {
    if k in s.emitted || (item.callID != "" && item.callID in s.emittedCallIDs) then (s, true)
    else
      var c := Noted(PartialOf(s.calls, k), item);
      var arguments := assemble(c.arguments);
      if arguments.None? then (s, false)
      else
        (s.(emitted := s.emitted + {k},
            emittedCallIDs := if c.callID != "" then s.emittedCallIDs + {c.callID} else s.emittedCallIDs,
            sent := s.sent + [CallEvent(Call(c.callID, c.name, arguments.value))]), true)
  }

  /** The key of an item of the final output. */
  function FinalKey(item: Item): string {
    if item.id != "" then item.id else item.callID
  }

  /** The first n elements of the final output. */
  function EmitFinal(s: State, output: seq<Output>, n: nat, assemble: Assemble): (State, bool)
    requires n <= |output|
  {
    if n == 0 then (s, true)
    else
      var (t, ok) := EmitFinal(s, output, n - 1, assemble);
      var item := output[n - 1].item;
      if !ok || item.None? || !item.value.isCall then (t, ok)
      else EmitCall(t, FinalKey(item.value), item.value, assemble)
  }

  lemma HasMember(keys: set<int>)
    ensures keys == {} || exists k :: k in keys
  {
    if forall k :: k !in keys { assert keys == {}; }
  }

  ghost function AnyOrder(keys: set<int>): (order: seq<int>)
    ensures multiset(order) == multiset(keys)
  {
    if keys == {} then []
    else
      HasMember(keys);
      var k :| k in keys;
      assert keys == (keys - {k}) + {k};
      AnyOrder(keys - {k}) + [k]
  }

  function Picked(items: map<int, string>, order: seq<int>, n: nat): seq<string>
    requires n <= |order|
  {
    if n == 0 then []
    else if order[n - 1] in items then Picked(items, order, n - 1) + [items[order[n - 1]]]
    else Picked(items, order, n - 1)
  }

  /** The blocks handed on for replay: the final output, else the items seen, by output index. */
  ghost function DoneRaw(output: seq<Output>, items: map<int, string>): Option<seq<string>> {
    if output != [] then Some(seq(|output|, i requires 0 <= i < |output| => output[i].raw))
    else if items != map[] then
      var order := SortInts(AnyOrder(items.Keys));
      Some(Picked(items, order, |order|))
    else None
  }

  ghost function Step(s: State, ev: Wire, assemble: Assemble): (State, Outcome) {
    match ev
    case TextDelta(text) => (if text != "" then s.(sent := s.sent + [TextEvent(text)]) else s, Running)
    case ThinkingDelta(text) => (if text != "" then s.(sent := s.sent + [ThinkingEvent(text)]) else s, Running)
    case ItemAdded(itemID, index, item) => (NoteItem(s, Key(itemID, index), item), Running)
    case ItemDone(itemID, index, item) =>
      var k := Key(itemID, index);
      var noted := NoteItem(s, k, item);
      var t := if index.Some? then noted.(items := noted.items[index.value := item.raw]) else noted;
      if !item.isCall then (t, Running)
      else
        var (u, ok) := EmitCall(t, k, item, assemble);
        (u, if ok then Running else Failed)
    case ArgumentsDelta(itemID, index, text) =>
      var k := Key(itemID, index);
      var c := PartialOf(s.calls, k);
      (s.(calls := s.calls[k := c.(arguments := c.arguments + text)]), Running)
    case Completed(output) =>
      var (t, ok) := EmitFinal(s, output, |output|, assemble);
      if !ok then (t, Failed)
      else (t.(sent := t.sent + [DoneEvent(DoneRaw(output, t.items))]), Finished)
    case Failure => (s, Failed)
    case Ignored => (s, Running)
    case Broken => (s, Failed)
  }

  /** The state and outcome after the first n events; the parser stops at the first outcome. */
  ghost function After(events: seq<Wire>, n: nat, assemble: Assemble): (State, Outcome)
    requires n <= |events|
  {
    if n == 0 then (INITIAL, Running)
    else
      var (s, outcome) := After(events, n - 1, assemble);
      if outcome.Running? then Step(s, events[n - 1], assemble) else (s, outcome)
  }

  lemma {:induction false} StaysOver(events: seq<Wire>, n: nat, m: nat, assemble: Assemble)
    requires n <= m <= |events| && !After(events, n, assemble).1.Running?
    ensures After(events, m, assemble) == After(events, n, assemble)
    decreases m - n
  {
    if n < m { StaysOver(events, n, m - 1, assemble); }
  }

  lemma {:induction false} FinalStays(s: State, output: seq<Output>, n: nat, assemble: Assemble)
    requires n <= |output| && !EmitFinal(s, output, n, assemble).1
    ensures EmitFinal(s, output, |output|, assemble) == EmitFinal(s, output, n, assemble)
    decreases |output| - n
  {
    if n < |output| { FinalStays(s, output, n + 1, assemble); }
  }

  // ---- the parser ----

  /** The keys in ascending order, whatever order the map is walked in. */
  method KeysInOrder(items: map<int, string>) returns (ordered: seq<int>)
    ensures ordered == SortInts(AnyOrder(items.Keys))
  {
    ordered := [];
    var left := items.Keys;
    while left != {}
      invariant multiset(ordered) + multiset(left) == multiset(items.Keys)
      decreases left
    {
      HasMember(left);
      var idx :| idx in left;
      ghost var was := left;
      ordered, left := ordered + [idx], left - {idx};
      assert was == left + {idx};
    }
    ghost var any := AnyOrder(items.Keys);
    SortIntsSorts(ordered);
    SortIntsSorts(any);
    SortedIsUnique(SortInts(ordered), SortInts(any));
    ordered := SortInts(ordered);
  }

  method ItemsInOrder(items: map<int, string>) returns (raw: seq<string>)
    ensures var order := SortInts(AnyOrder(items.Keys)); raw == Picked(items, order, |order|)
  {
    var ordered := KeysInOrder(items);
    raw := [];
    for n := 0 to |ordered|
      invariant raw == Picked(items, ordered, n)
    {
      if ordered[n] in items { raw := raw + [items[ordered[n]]]; }
    }
  }

  class ResponsesStreamer {
    const assemble: Assemble
    var calls: map<string, Partial>
    var emitted: set<string>
    var emittedCallIDs: set<string>
    var items: map<int, string>
    var sent: seq<Ev>

    constructor (assemble: Assemble)
      ensures this.assemble == assemble && View() == INITIAL
    {
      this.assemble := assemble;
      calls, emitted, emittedCallIDs, items, sent := map[], {}, {}, map[], [];
    }

    function View(): State
      reads this
    {
      State(calls, emitted, emittedCallIDs, items, sent)
    }

    method Emit(k: string, item: Item) returns (ok: bool)
      modifies this
      ensures (View(), ok) == EmitCall(old(View()), k, item, assemble)
    {
      if k in emitted { return true; }
      if item.callID != "" && item.callID in emittedCallIDs { return true; }
      var rawArguments, callID, name := item.arguments, item.callID, item.name;
      if k in calls {
        if rawArguments == "" { rawArguments := calls[k].arguments; }
        if callID == "" { callID := calls[k].callID; }
        if name == "" { name := calls[k].name; }
      }
      var arguments := assemble(rawArguments);
      if arguments.None? { return false; }
      emitted := emitted + {k};
      if callID != "" { emittedCallIDs := emittedCallIDs + {callID}; }
      sent := sent + [CallEvent(Call(callID, name, arguments.value))];
      return true;
    }

    method Note(k: string, item: Item)
      modifies this`calls
      ensures View() == NoteItem(old(View()), k, item)
    {
      if !item.isCall { return; }
      var c := if k in calls then calls[k] else Partial("", "", "");
      if item.callID != "" { c := c.(callID := item.callID); }
      if item.name != "" { c := c.(name := item.name); }
      if item.arguments != "" { c := c.(arguments := item.arguments); }
      calls := calls[k := c];
    }

    method EmitOutput(output: seq<Output>) returns (ok: bool)
      modifies this
      ensures (View(), ok) == EmitFinal(old(View()), output, |output|, assemble)
    {
      for n := 0 to |output|
        invariant (View(), true) == EmitFinal(old(View()), output, n, assemble)
      {
        var item := output[n].item;
        if item.None? || !item.value.isCall { continue; }
        ok := Emit(if item.value.id != "" then item.value.id else item.value.callID, item.value);
        if !ok {
          FinalStays(old(View()), output, n + 1, assemble);
          return;
        }
      }
      return true;
    }

    method ReadEvent(ev: Wire) returns (outcome: Outcome)
      modifies this
      ensures (View(), outcome) == Step(old(View()), ev, assemble)
    {
      match ev
      case TextDelta(text) =>
        if text != "" { sent := sent + [TextEvent(text)]; }
        return Running;
      case ThinkingDelta(text) =>
        if text != "" { sent := sent + [ThinkingEvent(text)]; }
        return Running;
      case ItemAdded(itemID, index, item) =>
        Note(Key(itemID, index), item);
        return Running;
      case ItemDone(itemID, index, item) =>
        var k := Key(itemID, index);
        Note(k, item);
        if index.Some? { items := items[index.value := item.raw]; }
        if item.isCall {
          var ok := Emit(k, item);
          if !ok { return Failed; }
        }
        return Running;
      case ArgumentsDelta(itemID, index, text) =>
        var k := Key(itemID, index);
        var c := if k in calls then calls[k] else Partial("", "", "");
        calls := calls[k := c.(arguments := c.arguments + text)];
        return Running;
      case Completed(output) =>
        var ok := EmitOutput(output);
        if !ok { return Failed; }
        var raw: Option<seq<string>> := None;
        if output != [] {
          raw := Some(seq(|output|, i requires 0 <= i < |output| => output[i].raw));
        } else if items != map[] {
          var ordered := ItemsInOrder(items);
          raw := Some(ordered);
        }
        sent := sent + [DoneEvent(raw)];
        return Finished;
      case Failure => return Failed;
      case Ignored => return Running;
      case Broken => return Failed;
    }

    method Stream(events: seq<Wire>) returns (ok: bool)
      requires View() == INITIAL
      modifies this
      ensures sent == After(events, |events|, assemble).0.sent
      ensures ok <==> After(events, |events|, assemble).1.Finished?
    {
      for n := 0 to |events|
        invariant (View(), Running) == After(events, n, assemble)
      {
        var outcome := ReadEvent(events[n]);
        if !outcome.Running? {
          StaysOver(events, n + 1, |events|, assemble);
          return outcome.Finished?;
        }
      }
      return false;
    }
  }
}
