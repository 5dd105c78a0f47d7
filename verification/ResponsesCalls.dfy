/** Exactly-once reporting: when a Responses stream reports every call once, as soon as it is mentioned and
  * however it is named.
  */
module ResponsesCalls {
  import opened Wrappers
  import opened StreamEvents
  import opened Sorting
  import opened Responses
  import opened ResponsesMentions

  // ---- the mentions of a stream ----

  function MentionOf(calls: map<string, Partial>, k: string, item: Item): Mention {
    var c := Noted(PartialOf(calls, k), item);
    Mention(k, c.callID, item.callID != "", c.name, c.arguments)
  }

  /** What the item events and deltas among the first n events have said about each key. */
  function Known(events: seq<Wire>, n: nat): map<string, Partial>
    requires n <= |events|
  {
    if n == 0 then map[]
    else
      var calls := Known(events, n - 1);
      match events[n - 1]
      case ItemAdded(itemID, index, item) => NoteItem(INITIAL.(calls := calls), Key(itemID, index), item).calls
      case ItemDone(itemID, index, item) => NoteItem(INITIAL.(calls := calls), Key(itemID, index), item).calls
      case ArgumentsDelta(itemID, index, text) =>
        var k := Key(itemID, index);
        calls[k := PartialOf(calls, k).(arguments := PartialOf(calls, k).arguments + text)]
      case _ => calls
  }

  /** The calls mentioned by the first n events, the last of which may not be the final response. */
  function Mentions(events: seq<Wire>, n: nat): seq<Mention>
    requires n <= |events|
  {
    if n == 0 then []
    else if events[n - 1].ItemDone? && events[n - 1].item.isCall then
      Mentions(events, n - 1)
      + [MentionOf(Known(events, n), Key(events[n - 1].itemID, events[n - 1].index), events[n - 1].item)]
    else Mentions(events, n - 1)
  }

  /** The mention, if any, that the nth element of the final output adds. */
  function FinalMention(calls: map<string, Partial>, output: seq<Output>, n: nat): seq<Mention>
    requires n < |output|
  {
    var item := output[n].item;
    if item.Some? && item.value.isCall then [MentionOf(calls, FinalKey(item.value), item.value)] else []
  }

  function FinalMentions(calls: map<string, Partial>, output: seq<Output>, n: nat): seq<Mention>
    requires n <= |output|
  {
    if n == 0 then [] else FinalMentions(calls, output, n - 1) + FinalMention(calls, output, n - 1)
  }

  /** The mentions so far, after n steps: the events of the body one by one, then the elements of the final output. */
  function MentionsAt(body: seq<Wire>, output: seq<Output>, n: nat): seq<Mention>
    requires n <= |body| + |output|
  {
    if n <= |body| then Mentions(body, n)
    else Mentions(body, |body|) + FinalMentions(Known(body, |body|), output, n - |body|)
  }

  /** Every call mentioned by a stream that ends with this final output. */
  function AllMentions(body: seq<Wire>, output: seq<Output>): seq<Mention> {
    MentionsAt(body, output, |body| + |output|)
  }

  /** Every call item that is done or final carries its call id itself. */
  predicate CarryIds(events: seq<Wire>, output: seq<Output>) {
    && (forall k :: 0 <= k < |events| && events[k].ItemDone? && events[k].item.isCall ==> events[k].item.callID != "")
    && (forall k :: 0 <= k < |output| && output[k].item.Some? && output[k].item.value.isCall ==>
          output[k].item.value.callID != "")
  }

  lemma {:induction false} MentionsArePrefixes(body: seq<Wire>, n: nat, m: nat)
    requires n <= m <= |body|
    ensures Mentions(body, n) <= Mentions(body, m)
    decreases m - n
  {
    if n < m { MentionsArePrefixes(body, n, m - 1); }
  }

  lemma {:induction false} FinalsArePrefixes(calls: map<string, Partial>, output: seq<Output>, n: nat, m: nat)
    requires n <= m <= |output|
    ensures FinalMentions(calls, output, n) <= FinalMentions(calls, output, m)
    decreases m - n
  {
    if n < m { FinalsArePrefixes(calls, output, n, m - 1); }
  }

  lemma PrefixAppends(front: seq<Mention>, a: seq<Mention>, b: seq<Mention>)
    requires a <= b
    ensures front + a <= front + b
  {
    assert b == a + b[|a|..];
    AppendAssociates(front, a, b[|a|..]);
  }

  lemma {:induction false} MentionsAtArePrefixes(body: seq<Wire>, output: seq<Output>, m: nat, n: nat)
    requires m <= n <= |body| + |output|
    ensures MentionsAt(body, output, m) <= MentionsAt(body, output, n)
  {
    if n <= |body| {
      MentionsArePrefixes(body, m, n);
    } else if m <= |body| {
      MentionsArePrefixes(body, m, |body|);
    } else {
      var calls := Known(body, |body|);
      FinalsArePrefixes(calls, output, m - |body|, n - |body|);
      PrefixAppends(Mentions(body, |body|), FinalMentions(calls, output, m - |body|), FinalMentions(calls, output, n - |body|));
    }
  }

  /** One step adds at most one mention, so every number of mentions is reached. */
  lemma {:induction false} Reached(body: seq<Wire>, output: seq<Output>, m: nat, c: nat) returns (n: nat)
    requires m <= |body| + |output| && c <= |MentionsAt(body, output, m)|
    ensures n <= m && |MentionsAt(body, output, n)| == c
  {
    if |MentionsAt(body, output, m)| == c {
      n := m;
    } else {
      n := Reached(body, output, m - 1, c);
    }
  }

  // ---- the parser keeps the ledger of its mentions ----

  /** The reported calls, without the text between them. */
  function CallsIn(sent: seq<Ev>): seq<Ev> {
    if sent == [] then []
    else
      var front, last := sent[..|sent| - 1], sent[|sent| - 1];
      if last.CallEvent? then CallsIn(front) + [last] else CallsIn(front)
  }

  lemma {:induction false} CallsInAppend(sent: seq<Ev>, ev: Ev)
    ensures CallsIn(sent + [ev]) == if ev.CallEvent? then CallsIn(sent) + [ev] else CallsIn(sent)
  {
  }

  ghost predicate Keeps(s: State, l: Ledger) {
    s.emitted == l.keys && s.emittedCallIDs == l.ids - {""} && CallsIn(s.sent) == l.calls
  }

  lemma SkipsAlike(s: State, l: Ledger, k: string, item: Item)
    requires Keeps(s, l)
    ensures k in s.emitted || (item.callID != "" && item.callID in s.emittedCallIDs) <==>
            Skips(l, MentionOf(s.calls, k, item))
  {
  }

  lemma IdsKept(ids: set<string>, id: string)
    ensures ids + {id} - {""} == if id != "" then ids - {""} + {id} else ids - {""}
  {
  }

  lemma {:induction false} EmitKeeps(s: State, l: Ledger, k: string, item: Item, assemble: Assemble)
    requires Keeps(s, l) && EmitCall(s, k, item, assemble).1
    ensures Keeps(EmitCall(s, k, item, assemble).0, Enter(l, MentionOf(s.calls, k, item), assemble))
    ensures EmitCall(s, k, item, assemble).0.calls == s.calls
  {
    var m := MentionOf(s.calls, k, item);
    SkipsAlike(s, l, k, item);
    IdsKept(l.ids, m.callID);
    CallsInAppend(s.sent, CallOf(m, assemble));
  }

  /** After n events of the body: what is known of the calls, and the ledger of the mentions. */
  ghost predicate InStep(body: seq<Wire>, n: nat, all: seq<Mention>, s: State, assemble: Assemble)
    requires n <= |body|
  {
    && s.calls == Known(body, n)
    && |Mentions(body, n)| <= |all| && Keeps(s, Process(all, |Mentions(body, n)|, assemble))
  }

  lemma {:induction false} QuietStep(body: seq<Wire>, n: nat, all: seq<Mention>, s: State, assemble: Assemble)
    requires n < |body| && InStep(body, n, all, s, assemble)
    requires !(body[n].ItemDone? && body[n].item.isCall) && Step(s, body[n], assemble).1.Running?
    ensures InStep(body, n + 1, all, Step(s, body[n], assemble).0, assemble)
  {
    if body[n].TextDelta? && body[n].text != "" { CallsInAppend(s.sent, TextEvent(body[n].text)); }
    if body[n].ThinkingDelta? && body[n].text != "" { CallsInAppend(s.sent, ThinkingEvent(body[n].text)); }
  }

  lemma {:induction false} CallStep(body: seq<Wire>, n: nat, all: seq<Mention>, s: State, assemble: Assemble)
    requires n < |body| && Mentions(body, n + 1) <= all && InStep(body, n, all, s, assemble)
    requires body[n].ItemDone? && body[n].item.isCall && Step(s, body[n], assemble).1.Running?
    ensures InStep(body, n + 1, all, Step(s, body[n], assemble).0, assemble)
  {
    var k, item, c := Key(body[n].itemID, body[n].index), body[n].item, |Mentions(body, n)|;
    var noted := NoteItem(s, k, item);
    var t := if body[n].index.Some? then noted.(items := noted.items[body[n].index.value := item.raw]) else noted;
    assert t.calls == Known(body, n + 1);
    assert all[c] == MentionOf(t.calls, k, item);
    EmitKeeps(t, Process(all, c, assemble), k, item, assemble);
  }

  lemma {:induction false} AnyStep(body: seq<Wire>, n: nat, all: seq<Mention>, s: State, assemble: Assemble)
    requires n < |body| && Mentions(body, n + 1) <= all && InStep(body, n, all, s, assemble)
    requires Step(s, body[n], assemble).1.Running?
    ensures InStep(body, n + 1, all, Step(s, body[n], assemble).0, assemble)
  {
    if body[n].ItemDone? && body[n].item.isCall {
      CallStep(body, n, all, s, assemble);
    } else {
      QuietStep(body, n, all, s, assemble);
    }
  }

  /** As long as the stream runs, the parser is in step after n events. */
  ghost predicate OnTrack(body: seq<Wire>, n: nat, all: seq<Mention>, assemble: Assemble)
    requires n <= |body|
  {
    After(body, n, assemble).1.Running? ==> InStep(body, n, all, After(body, n, assemble).0, assemble)
  }

  lemma {:induction false} StaysOnTrack(body: seq<Wire>, n: nat, all: seq<Mention>, assemble: Assemble)
    requires 0 < n <= |body| && Mentions(body, n) <= all && OnTrack(body, n - 1, all, assemble)
    ensures OnTrack(body, n, all, assemble)
  {
    var (s, outcome) := After(body, n - 1, assemble);
    if outcome.Running? && Step(s, body[n - 1], assemble).1.Running? { AnyStep(body, n - 1, all, s, assemble); }
  }

  lemma {:induction false} BodyKeeps(body: seq<Wire>, n: nat, all: seq<Mention>, assemble: Assemble)
    requires n <= |body| && Mentions(body, n) <= all
    ensures OnTrack(body, n, all, assemble)
  {
    if n > 0 {
      MentionsArePrefixes(body, n - 1, n);
      BodyKeeps(body, n - 1, all, assemble);
      StaysOnTrack(body, n, all, assemble);
    }
  }

  lemma {:induction false} RunningBefore(body: seq<Wire>, n: nat, m: nat, assemble: Assemble)
    requires n <= m <= |body| && After(body, m, assemble).1.Running?
    ensures After(body, n, assemble).1.Running?
  {
    if !After(body, n, assemble).1.Running? { StaysOver(body, n, m, assemble); }
  }

  /** What one element of the final output does. */
  function Element(t: State, el: Output, assemble: Assemble): (State, bool) {
    if el.item.None? || !el.item.value.isCall then (t, true) else EmitCall(t, FinalKey(el.item.value), el.item.value, assemble)
  }

  ghost predicate FinalInStep(calls: map<string, Partial>, t: State, all: seq<Mention>, c: nat, assemble: Assemble) {
    t.calls == calls && c <= |all| && Keeps(t, Process(all, c, assemble))
  }

  lemma {:induction false} FinalStep(t: State, output: seq<Output>, n: nat, now: seq<Mention>, all: seq<Mention>,
                                     assemble: Assemble)
    requires n < |output| && now + FinalMention(t.calls, output, n) <= all
    requires FinalInStep(t.calls, t, all, |now|, assemble) && Element(t, output[n], assemble).1
    ensures FinalInStep(t.calls, Element(t, output[n], assemble).0, all, |now + FinalMention(t.calls, output, n)|, assemble)
  {
    var item := output[n].item;
    if item.Some? && item.value.isCall {
      assert (now + FinalMention(t.calls, output, n))[|now|] == all[|now|];
      EmitKeeps(t, Process(all, |now|, assemble), FinalKey(item.value), item.value, assemble);
    }
  }

  lemma {:induction false} FinalKeeps(s: State, output: seq<Output>, n: nat, before: seq<Mention>, all: seq<Mention>,
                                      assemble: Assemble)
    requires n <= |output| && before + FinalMentions(s.calls, output, n) <= all
    requires Keeps(s, Process(all, |before|, assemble)) && EmitFinal(s, output, n, assemble).1
    ensures FinalInStep(s.calls, EmitFinal(s, output, n, assemble).0, all,
                        |before + FinalMentions(s.calls, output, n)|, assemble)
  {
    if n > 0 {
      var now, t := before + FinalMentions(s.calls, output, n - 1), EmitFinal(s, output, n - 1, assemble).0;
      AppendAssociates(before, FinalMentions(s.calls, output, n - 1), FinalMention(s.calls, output, n - 1));
      ShorterPrefix(now, FinalMention(s.calls, output, n - 1), all);
      FinalKeeps(s, output, n - 1, before, all, assemble);
      FinalStep(t, output, n - 1, now, all, assemble);
    }
  }

  lemma ShorterPrefix(a: seq<Mention>, b: seq<Mention>, all: seq<Mention>)
    requires a + b <= all
    ensures a <= all
  {
    assert a == (a + b)[..|a|];
  }

  lemma {:induction false} EmittedBefore(s: State, output: seq<Output>, m: nat, n: nat, assemble: Assemble)
    requires m <= n <= |output| && EmitFinal(s, output, n, assemble).1
    ensures EmitFinal(s, output, m, assemble).1
    decreases n - m
  {
    if m < n { EmittedBefore(s, output, m, n - 1, assemble); }
  }

  // ---- what a stream reports, step by step ----

  /** The calls reported after n steps. */
  ghost function ReportedAt(body: seq<Wire>, output: seq<Output>, n: nat, assemble: Assemble): seq<Ev>
    requires n <= |body| + |output|
  {
    if n <= |body| then CallsIn(After(body, n, assemble).0.sent)
    else CallsIn(EmitFinal(After(body, |body|, assemble).0, output, n - |body|, assemble).0.sent)
  }

  /** The parser gets through n steps without stopping; what comes after them, if anything, does not matter. */
  ghost predicate Reads(body: seq<Wire>, output: seq<Output>, n: nat, assemble: Assemble)
    requires n <= |body| + |output|
  {
    if n <= |body| then After(body, n, assemble).1.Running?
    else
      && After(body, |body|, assemble).1.Running?
      && EmitFinal(After(body, |body|, assemble).0, output, n - |body|, assemble).1
  }

  lemma {:induction false} AfterPrefix(a: seq<Wire>, b: seq<Wire>, n: nat, assemble: Assemble)
    requires n <= |a|
    ensures After(a + b, n, assemble) == After(a, n, assemble)
  {
    if n > 0 {
      AfterPrefix(a, b, n - 1, assemble);
      assert (a + b)[n - 1] == a[n - 1];
    }
  }

  /** To get through all steps is to end well, and these are the calls that the whole stream has then reported. */
  lemma {:induction false} WholeStream(body: seq<Wire>, output: seq<Output>, events: seq<Wire>, assemble: Assemble)
    requires events == body + [Completed(output)] && After(body, |body|, assemble).1.Running?
    ensures Reads(body, output, |body| + |output|, assemble) <==> After(events, |events|, assemble).1.Finished?
    ensures Reads(body, output, |body| + |output|, assemble) ==>
              CallsIn(After(events, |events|, assemble).0.sent) == ReportedAt(body, output, |body| + |output|, assemble)
  {
    var s := After(body, |body|, assemble).0;
    AfterPrefix(body, [Completed(output)], |body|, assemble);
    assert After(events, |events|, assemble) == Step(s, Completed(output), assemble);
    var t := EmitFinal(s, output, |output|, assemble).0;
    CallsInAppend(t.sent, DoneEvent(DoneRaw(output, t.items)));
  }

  lemma {:induction false} BodyReports(body: seq<Wire>, n: nat, all: seq<Mention>, assemble: Assemble)
    requires n <= |body| && Mentions(body, n) <= all && After(body, n, assemble).1.Running?
    ensures CallsIn(After(body, n, assemble).0.sent) == Process(all, |Mentions(body, n)|, assemble).calls
  {
    BodyKeeps(body, n, all, assemble);
  }

  lemma {:induction false} FinalReports(body: seq<Wire>, output: seq<Output>, n: nat, all: seq<Mention>, assemble: Assemble)
    requires n <= |output| && After(body, |body|, assemble).1.Running?
    requires EmitFinal(After(body, |body|, assemble).0, output, n, assemble).1
    requires Mentions(body, |body|) + FinalMentions(Known(body, |body|), output, n) <= all
    ensures CallsIn(EmitFinal(After(body, |body|, assemble).0, output, n, assemble).0.sent) ==
            Process(all, |Mentions(body, |body|) + FinalMentions(Known(body, |body|), output, n)|, assemble).calls
  {
    ShorterPrefix(Mentions(body, |body|), FinalMentions(Known(body, |body|), output, n), all);
    BodyKeeps(body, |body|, all, assemble);
    FinalKeeps(After(body, |body|, assemble).0, output, n, Mentions(body, |body|), all, assemble);
  }

  /** The calls reported after m steps are those of the ledger of any mentions that begin with those so far. */
  lemma {:induction false} LedgerAt(body: seq<Wire>, output: seq<Output>, m: nat, all: seq<Mention>, assemble: Assemble)
    requires m <= |body| + |output| && Reads(body, output, m, assemble) && MentionsAt(body, output, m) <= all
    ensures ReportedAt(body, output, m, assemble) == Process(all, |MentionsAt(body, output, m)|, assemble).calls
  {
    if m <= |body| {
      BodyReports(body, m, all, assemble);
    } else {
      FinalReports(body, output, m - |body|, all, assemble);
    }
  }

  lemma {:induction false} ReadsBefore(body: seq<Wire>, output: seq<Output>, m: nat, n: nat, assemble: Assemble)
    requires m <= n <= |body| + |output| && Reads(body, output, n, assemble)
    ensures Reads(body, output, m, assemble)
  {
    if m <= |body| {
      RunningBefore(body, m, if n <= |body| then n else |body|, assemble);
    } else {
      EmittedBefore(After(body, |body|, assemble).0, output, m - |body|, n - |body|, assemble);
    }
  }

  /** Whatever the stream: as far as it is read, at every step the calls reported are those that the ledger of its
    * mentions reports. */
  lemma {:induction false} ReportsTheLedger(body: seq<Wire>, output: seq<Output>, m: nat, n: nat, assemble: Assemble)
    requires m <= n <= |body| + |output| && Reads(body, output, n, assemble)
    ensures |MentionsAt(body, output, m)| <= |MentionsAt(body, output, n)|
    ensures ReportedAt(body, output, m, assemble) ==
            Process(MentionsAt(body, output, n), |MentionsAt(body, output, m)|, assemble).calls
  {
    MentionsAtArePrefixes(body, output, m, n);
    ReadsBefore(body, output, m, n, assemble);
    LedgerAt(body, output, m, MentionsAt(body, output, n), assemble);
  }

  // ---- the theorems ----

  predicate IsMentioned(ms: seq<Mention>, id: string) {
    Mentioned(ms, |ms|, id)
  }

  /** After n steps each call mentioned so far has been reported once, and no other. */
  ghost predicate PromptAt(body: seq<Wire>, output: seq<Output>, n: nat, assemble: Assemble)
    requires n <= |body| + |output|
  {
    forall id :: Count(ReportedAt(body, output, n, assemble), id) ==
                 if IsMentioned(MentionsAt(body, output, n), id) then 1 else 0
  }

  ghost predicate PromptStream(body: seq<Wire>, output: seq<Output>, n: nat, assemble: Assemble)
    requires n <= |body| + |output|
  {
    forall m :: 0 <= m <= n ==> PromptAt(body, output, m, assemble)
  }

  predicate OrderlyStream(body: seq<Wire>, output: seq<Output>, n: nat)
    requires n <= |body| + |output|
  {
    Orderly(MentionsAt(body, output, n), |MentionsAt(body, output, n)|)
  }

  lemma MentionedInPrefix(all: seq<Mention>, ms: seq<Mention>, id: string)
    requires ms <= all
    ensures IsMentioned(ms, id) <==> Mentioned(all, |ms|, id)
  {
    if Mentioned(all, |ms|, id) {
      var i :| 0 <= i < |ms| && all[i].callID == id;
      assert ms[i] == all[i];
    }
  }

  lemma {:induction false} PromptAtIff(body: seq<Wire>, output: seq<Output>, m: nat, n: nat, assemble: Assemble)
    requires m <= n <= |body| + |output| && Reads(body, output, n, assemble)
    ensures |MentionsAt(body, output, m)| <= |MentionsAt(body, output, n)|
    ensures PromptAt(body, output, m, assemble) <==>
            Prompt(MentionsAt(body, output, n), |MentionsAt(body, output, m)|, assemble)
  {
    var all, ms := MentionsAt(body, output, n), MentionsAt(body, output, m);
    MentionsAtArePrefixes(body, output, m, n);
    ReportsTheLedger(body, output, m, n, assemble);
    forall id ensures IsMentioned(ms, id) <==> Mentioned(all, |ms|, id) { MentionedInPrefix(all, ms, id); }
    assert forall id :: Due(all, |ms|, id) == if IsMentioned(ms, id) then 1 else 0;
  }

  lemma {:induction false} PromptReached(body: seq<Wire>, output: seq<Output>, n: nat, c: nat, assemble: Assemble)
    requires n <= |body| + |output| && Reads(body, output, n, assemble) && PromptStream(body, output, n, assemble)
    requires c <= |MentionsAt(body, output, n)|
    ensures Prompt(MentionsAt(body, output, n), c, assemble)
  {
    var m := Reached(body, output, n, c);
    PromptAtIff(body, output, m, n, assemble);
  }

  lemma {:induction false} OrderlyPromptAt(body: seq<Wire>, output: seq<Output>, m: nat, n: nat, assemble: Assemble)
    requires m <= n <= |body| + |output| && Reads(body, output, n, assemble) && OrderlyStream(body, output, n)
    ensures PromptAt(body, output, m, assemble)
  {
    PromptAtIff(body, output, m, n, assemble);
    OrderlySettles(MentionsAt(body, output, n), |MentionsAt(body, output, m)|, assemble);
    SettledIsPrompt(MentionsAt(body, output, n), |MentionsAt(body, output, m)|, assemble);
  }

  /** As far as it is read, a stream reports every call once, as soon as it is mentioned, exactly when its mentions are
    * orderly: no call is first mentioned under the key of another, and none is mentioned again without its id
    * under the key of no call. */
  lemma {:induction false} PromptStreamIff(body: seq<Wire>, output: seq<Output>, n: nat, assemble: Assemble)
    requires n <= |body| + |output| && Reads(body, output, n, assemble)
    ensures PromptStream(body, output, n, assemble) <==> OrderlyStream(body, output, n)
  {
    if PromptStream(body, output, n, assemble) {
      forall c | 0 <= c <= |MentionsAt(body, output, n)| ensures Prompt(MentionsAt(body, output, n), c, assemble) {
        PromptReached(body, output, n, c, assemble);
      }
      PromptIff(MentionsAt(body, output, n), |MentionsAt(body, output, n)|, assemble);
    } else {
      var m :| 0 <= m <= n && !PromptAt(body, output, m, assemble);
      if OrderlyStream(body, output, n) { OrderlyPromptAt(body, output, m, n, assemble); }
    }
  }

  lemma {:induction false} BodyCarries(body: seq<Wire>, n: nat)
    requires n <= |body| && CarryIds(body, [])
    ensures AllCarried(Mentions(body, n))
  {
    if n > 0 { BodyCarries(body, n - 1); }
  }

  lemma {:induction false} FinalCarries(calls: map<string, Partial>, output: seq<Output>, n: nat)
    requires n <= |output| && CarryIds([], output)
    ensures AllCarried(FinalMentions(calls, output, n))
  {
    if n > 0 { FinalCarries(calls, output, n - 1); }
  }

  lemma {:induction false} AllCarry(body: seq<Wire>, output: seq<Output>, n: nat)
    requires n <= |body| + |output| && CarryIds(body, output)
    ensures AllCarried(MentionsAt(body, output, n))
  {
    if n <= |body| {
      BodyCarries(body, n);
    } else {
      BodyCarries(body, |body|);
      FinalCarries(Known(body, |body|), output, n - |body|);
    }
  }

  /** When every item carries its call id: exactly when different calls are first mentioned under different keys. */
  lemma {:induction false} CarriedPromptIff(body: seq<Wire>, output: seq<Output>, n: nat, assemble: Assemble)
    requires n <= |body| + |output| && Reads(body, output, n, assemble) && CarryIds(body, output)
    ensures PromptStream(body, output, n, assemble) <==> DistinctFirstKeys(MentionsAt(body, output, n))
  {
    AllCarry(body, output, n);
    CarriedOrderlyIff(MentionsAt(body, output, n));
    PromptStreamIff(body, output, n, assemble);
  }

  /** With different first keys: some call is reported twice exactly when some mention is stray. */
  lemma {:induction false} ReportedTwiceIff(body: seq<Wire>, output: seq<Output>, n: nat, assemble: Assemble)
    requires n <= |body| + |output| && Reads(body, output, n, assemble)
    requires DistinctFirstKeys(MentionsAt(body, output, n))
    ensures SomeTwice(ReportedAt(body, output, n, assemble)) <==> SomeStray(MentionsAt(body, output, n))
  {
    ReportsTheLedger(body, output, n, n, assemble);
    TwiceIff(MentionsAt(body, output, n), assemble);
  }

  /** When no key stands for two calls, a stray mention is an item without its call id under another key than the
    * first mention of its call. */
  lemma {:induction false} RenamedTwiceIff(body: seq<Wire>, output: seq<Output>, n: nat, assemble: Assemble)
    requires n <= |body| + |output| && Reads(body, output, n, assemble)
    requires Unambiguous(MentionsAt(body, output, n))
    ensures SomeTwice(ReportedAt(body, output, n, assemble)) <==> SomeRenamed(MentionsAt(body, output, n))
  {
    UnambiguousIsDistinct(MentionsAt(body, output, n));
    StrayIffRenamed(MentionsAt(body, output, n));
    ReportedTwiceIff(body, output, n, assemble);
  }

  lemma {:induction false} WholeReports(body: seq<Wire>, output: seq<Output>, events: seq<Wire>, all: seq<Mention>,
                                        assemble: Assemble)
    requires events == body + [Completed(output)] && all == AllMentions(body, output)
    requires After(body, |body|, assemble).1.Running? && After(events, |events|, assemble).1.Finished?
    ensures CallsIn(After(events, |events|, assemble).0.sent) == Process(all, |all|, assemble).calls
  {
    WholeStream(body, output, events, assemble);
    ReportsTheLedger(body, output, |body| + |output|, |body| + |output|, assemble);
  }

  /** A stream with orderly mentions reports the calls mentioned, each once, at its first mention and in that order,
    * whether it was first named by item id, by output index, or only in the final response. */
  lemma {:induction false} ReportsFirstMentions(body: seq<Wire>, output: seq<Output>, events: seq<Wire>, assemble: Assemble)
    requires events == body + [Completed(output)]
    requires After(body, |body|, assemble).1.Running? && After(events, |events|, assemble).1.Finished?
    requires OrderlyStream(body, output, |body| + |output|)
    ensures var all := AllMentions(body, output);
            CallsIn(After(events, |events|, assemble).0.sent) == Firsts(all, |all|, assemble)
  {
    var all := AllMentions(body, output);
    WholeReports(body, output, events, all, assemble);
    OrderlyCalls(all, |all|, assemble);
  }

  lemma {:induction false} FinalIsMentioned(calls: map<string, Partial>, output: seq<Output>, n: nat, k: nat)
    requires k < n <= |output| && output[k].item.Some? && output[k].item.value.isCall
    ensures MentionOf(calls, FinalKey(output[k].item.value), output[k].item.value) in FinalMentions(calls, output, n)
  {
    if k < n - 1 { FinalIsMentioned(calls, output, n - 1, k); }
  }

  /** In particular every call of the final output is reported exactly once over the whole stream. */
  lemma {:induction false} ExactlyOnce(body: seq<Wire>, output: seq<Output>, events: seq<Wire>, k: nat, assemble: Assemble)
    requires events == body + [Completed(output)]
    requires After(body, |body|, assemble).1.Running? && After(events, |events|, assemble).1.Finished?
    requires OrderlyStream(body, output, |body| + |output|)
    requires k < |output| && output[k].item.Some? && output[k].item.value.isCall
    ensures var m := MentionOf(Known(body, |body|), FinalKey(output[k].item.value), output[k].item.value);
            Count(CallsIn(After(events, |events|, assemble).0.sent), m.callID) == 1
  {
    var all, calls := AllMentions(body, output), Known(body, |body|);
    var m := MentionOf(calls, FinalKey(output[k].item.value), output[k].item.value);
    ReportsFirstMentions(body, output, events, assemble);
    FirstsCount(all, |all|, m.callID, assemble);
    FinalIsMentioned(calls, output, |output|, k);
    assert m in all;
  }

  // ---- at most once, whatever the keys ----

  predicate CarriesId(ev: Wire) {
    match ev
    case ItemDone(_, _, item) => item.isCall ==> item.callID != ""
    case Completed(output) => CarryIds([], output)
    case _ => true
  }

  predicate AtMost(s: State, id: string) {
    Count(s.sent, id) <= if id in s.emittedCallIDs then 1 else 0
  }

  lemma {:induction false} EmitKeepsAtMost(s: State, k: string, item: Item, id: string, assemble: Assemble)
    requires item.callID != "" && AtMost(s, id)
    ensures AtMost(EmitCall(s, k, item, assemble).0, id)
  {
    var t := EmitCall(s, k, item, assemble).0;
    if t.sent != s.sent { CountAppend(s.sent, t.sent[|s.sent|], id); }
  }

  lemma {:induction false} FinalKeepsAtMost(s: State, output: seq<Output>, n: nat, id: string, assemble: Assemble)
    requires n <= |output| && CarryIds([], output) && AtMost(s, id)
    ensures AtMost(EmitFinal(s, output, n, assemble).0, id)
  {
    if n > 0 {
      FinalKeepsAtMost(s, output, n - 1, id, assemble);
      var (t, ok) := EmitFinal(s, output, n - 1, assemble);
      if ok && output[n - 1].item.Some? && output[n - 1].item.value.isCall {
        EmitKeepsAtMost(t, FinalKey(output[n - 1].item.value), output[n - 1].item.value, id, assemble);
      }
    }
  }

  lemma {:induction false} StepKeepsAtMost(s: State, ev: Wire, id: string, assemble: Assemble)
    requires CarriesId(ev) && AtMost(s, id)
    ensures AtMost(Step(s, ev, assemble).0, id)
  {
    match ev
    case TextDelta(text) => CountAppend(s.sent, TextEvent(text), id);
    case ThinkingDelta(text) => CountAppend(s.sent, ThinkingEvent(text), id);
    case ItemDone(itemID, index, item) =>
      var k := Key(itemID, index);
      var noted := NoteItem(s, k, item);
      var t := if index.Some? then noted.(items := noted.items[index.value := item.raw]) else noted;
      if item.isCall { EmitKeepsAtMost(t, k, item, id, assemble); }
    case Completed(output) =>
      FinalKeepsAtMost(s, output, |output|, id, assemble);
      var t := EmitFinal(s, output, |output|, assemble).0;
      CountAppend(t.sent, DoneEvent(DoneRaw(output, t.items)), id);
    case _ =>
  }

  /** Whatever the keys, no call id is reported twice while every call item carries its own. */
  lemma {:induction false} AtMostOnce(events: seq<Wire>, n: nat, id: string, assemble: Assemble)
    requires n <= |events| && forall k :: 0 <= k < n ==> CarriesId(events[k])
    ensures Count(After(events, n, assemble).0.sent, id) <= 1
    ensures AtMost(After(events, n, assemble).0, id)
  {
    if n > 0 {
      AtMostOnce(events, n - 1, id, assemble);
      StepKeepsAtMost(After(events, n - 1, assemble).0, events[n - 1], id, assemble);
    }
  }

  // ---- arguments ----

  ghost predicate CarryObjects(sent: seq<Ev>, validJson: string -> bool) {
    forall k :: 0 <= k < |sent| && sent[k].CallEvent? ==> IsObject(sent[k].call.arguments, validJson)
  }

  lemma {:induction false} FinalCarriesObjects(s: State, output: seq<Output>, n: nat, assemble: Assemble,
                                              validJson: string -> bool)
    requires n <= |output| && GivesObjects(assemble, validJson) && CarryObjects(s.sent, validJson)
    ensures CarryObjects(EmitFinal(s, output, n, assemble).0.sent, validJson)
  {
    if n > 0 { FinalCarriesObjects(s, output, n - 1, assemble, validJson); }
  }

  /** With the parser's own assembler, every reported call carries a JSON object, on every stream and at every
    * point of it. */
  lemma {:induction false} CallsCarryObjects(events: seq<Wire>, n: nat, validJson: string -> bool)
    requires n <= |events|
    ensures CarryObjects(After(events, n, raw => AssembleToolArguments(raw, validJson)).0.sent, validJson)
  {
    var assemble: Assemble := raw => AssembleToolArguments(raw, validJson);
    AssemblerGivesObjects(validJson);
    SentCarryObjects(events, n, assemble, validJson);
  }

  lemma {:induction false} SentCarryObjects(events: seq<Wire>, n: nat, assemble: Assemble, validJson: string -> bool)
    requires n <= |events| && GivesObjects(assemble, validJson)
    ensures CarryObjects(After(events, n, assemble).0.sent, validJson)
  {
    if n > 0 {
      SentCarryObjects(events, n - 1, assemble, validJson);
      var (s, outcome) := After(events, n - 1, assemble);
      if outcome.Running? && events[n - 1].Completed? {
        FinalCarriesObjects(s, events[n - 1].output, |events[n - 1].output|, assemble, validJson);
      }
    }
  }

  // ---- streams that are not orderly ----

  function CallItem(callID: string, name: string): Item { Item("", true, callID, name, "{}", "") }

  /** Two calls under one key: the second is lost. */
  lemma {:induction false} SharedKeyLosesCall(assemble: Assemble)
    requires assemble("{}") == Some("{}")
    ensures var events := [ItemDone("k", None, CallItem("a", "f")), ItemDone("k", None, CallItem("b", "g")), Completed([])];
            && After(events, 3, assemble).1.Finished?
            && After(events, 3, assemble).0.sent == [CallEvent(Call("a", "f", "{}")), DoneEvent(None)]
  {
  }

  /** A done item without its call id, announced under a second key, is reported a second time. */
  lemma {:induction false} MissingIdReportsTwice(assemble: Assemble)
    requires assemble("{}") == Some("{}")
    ensures var events := [ItemDone("k", None, CallItem("a", "f")), ItemAdded("l", None, CallItem("a", "f")),
                           ItemDone("l", None, CallItem("", "f"))];
            && After(events, 3, assemble).1.Running?
            && After(events, 3, assemble).0.sent == [CallEvent(Call("a", "f", "{}")), CallEvent(Call("a", "f", "{}"))]
  {
  }
}
