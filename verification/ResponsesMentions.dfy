/** Mentions of calls and the ledger that decides which of them are reported (`emitCall` in
  * internal/server/aiprotocol/openai_responses.go): exactly when every call is reported once, at its first mention.
  */
module ResponsesMentions {
  import opened StreamEvents
  import opened Responses

  /** A place where a call may be reported: an item that is done, or an item of the final output. The call id
    * is the one the parser settles on; carried says that the item itself named it. */
  datatype Mention = Mention(key: string, callID: string, carried: bool, name: string, arguments: string)

  predicate Mentioned(ms: seq<Mention>, n: nat, id: string)
    requires n <= |ms|
  {
    exists i :: 0 <= i < n && ms[i].callID == id
  }

  /** The nth mention is the first of its call. */
  predicate First(ms: seq<Mention>, n: nat)
    requires n < |ms|
  {
    !Mentioned(ms, n, ms[n].callID)
  }

  /** The key of the first mention of some call among the first n. */
  predicate Held(ms: seq<Mention>, n: nat, k: string)
    requires n <= |ms|
  {
    exists i :: 0 <= i < n && First(ms, i) && ms[i].key == k
  }

  /** A call first mentioned under the key of another call. */
  predicate Clash(ms: seq<Mention>, n: nat)
    requires n < |ms|
  {
    First(ms, n) && Held(ms, n, ms[n].key)
  }

  /** A call mentioned again, by an item without the call id, under the key of no call. */
  predicate Stray(ms: seq<Mention>, n: nat)
    requires n < |ms|
  {
    !First(ms, n) && !ms[n].carried && !Held(ms, n, ms[n].key)
  }

  predicate Orderly(ms: seq<Mention>, n: nat)
    requires n <= |ms|
  {
    forall i :: 0 <= i < n ==> !Clash(ms, i) && !Stray(ms, i)
  }

  /** The first mentions of different calls come under different keys. */
  predicate DistinctFirstKeys(ms: seq<Mention>) {
    forall i, j :: 0 <= i < j < |ms| && First(ms, i) && First(ms, j) ==> ms[i].key != ms[j].key
  }

  predicate AllCarried(ms: seq<Mention>) {
    forall i :: 0 <= i < |ms| ==> ms[i].carried
  }

  // ---- what is reported, and what should be ----

  function CallOf(m: Mention, assemble: Assemble): Ev {
    var arguments := assemble(m.arguments);
    CallEvent(Call(m.callID, m.name, if arguments.Some? then arguments.value else ""))
  }

  /** The calls among the first n mentions, each at its first mention. */
  function Firsts(ms: seq<Mention>, n: nat, assemble: Assemble): seq<Ev>
    requires n <= |ms|
  {
    if n == 0 then []
    else if First(ms, n - 1) then Firsts(ms, n - 1, assemble) + [CallOf(ms[n - 1], assemble)]
    else Firsts(ms, n - 1, assemble)
  }

  /** The keys and ids reported so far, and the calls. */
  datatype Ledger = Ledger(keys: set<string>, ids: set<string>, calls: seq<Ev>)

  predicate Skips(l: Ledger, m: Mention) {
    m.key in l.keys || (m.carried && m.callID in l.ids)
  }

  function Enter(l: Ledger, m: Mention, assemble: Assemble): Ledger {
    if Skips(l, m) then l else Ledger(l.keys + {m.key}, l.ids + {m.callID}, l.calls + [CallOf(m, assemble)])
  }

  function Process(ms: seq<Mention>, n: nat, assemble: Assemble): Ledger
    requires n <= |ms|
  {
    if n == 0 then Ledger({}, {}, []) else Enter(Process(ms, n - 1, assemble), ms[n - 1], assemble)
  }

  /** How often a call id is reported. */
  function Count(calls: seq<Ev>, id: string): nat {
    if calls == [] then 0
    else
      var front, last := calls[..|calls| - 1], calls[|calls| - 1];
      Count(front, id) + if last.CallEvent? && last.call.id == id then 1 else 0
  }

  lemma {:induction false} CountAppend(calls: seq<Ev>, ev: Ev, id: string)
    ensures Count(calls + [ev], id) == Count(calls, id) + if ev.CallEvent? && ev.call.id == id then 1 else 0
  {
  }

  function Due(ms: seq<Mention>, n: nat, id: string): nat
    requires n <= |ms|
  {
    if Mentioned(ms, n, id) then 1 else 0
  }

  /** After n mentions, the calls reported are those mentioned, each once. */
  ghost predicate Prompt(ms: seq<Mention>, n: nat, assemble: Assemble)
    requires n <= |ms|
  {
    forall id :: Count(Process(ms, n, assemble).calls, id) == Due(ms, n, id)
  }

  // ---- orderly mentions ----

  ghost predicate KeysSettled(ms: seq<Mention>, n: nat, keys: set<string>)
    requires n <= |ms|
  {
    forall k :: k in keys <==> Held(ms, n, k)
  }

  ghost predicate IdsSettled(ms: seq<Mention>, n: nat, ids: set<string>)
    requires n <= |ms|
  {
    forall id :: id in ids <==> Mentioned(ms, n, id)
  }

  ghost predicate Settled(ms: seq<Mention>, n: nat, assemble: Assemble)
    requires n <= |ms|
  {
    var l := Process(ms, n, assemble);
    KeysSettled(ms, n, l.keys) && IdsSettled(ms, n, l.ids) && l.calls == Firsts(ms, n, assemble)
  }

  lemma MentionedStep(ms: seq<Mention>, n: nat, id: string)
    requires n < |ms|
    ensures Mentioned(ms, n + 1, id) <==> Mentioned(ms, n, id) || ms[n].callID == id
  {
  }

  lemma HeldStep(ms: seq<Mention>, n: nat, k: string)
    requires n < |ms|
    ensures Held(ms, n + 1, k) <==> Held(ms, n, k) || (First(ms, n) && ms[n].key == k)
  {
    if First(ms, n) && ms[n].key == k { assert 0 <= n < n + 1 && First(ms, n); }
  }

  lemma SkipsUnless(ms: seq<Mention>, n: nat, assemble: Assemble)
    requires n < |ms| && Settled(ms, n, assemble)
    ensures Skips(Process(ms, n, assemble), ms[n]) <==>
            Held(ms, n, ms[n].key) || (ms[n].carried && !First(ms, n))
  {
  }

  lemma {:induction false} SettledStep(ms: seq<Mention>, n: nat, assemble: Assemble)
    requires 0 < n <= |ms| && Settled(ms, n - 1, assemble) && !Clash(ms, n - 1) && !Stray(ms, n - 1)
    ensures Settled(ms, n, assemble)
  {
    var l := Process(ms, n, assemble);
    SkipsUnless(ms, n - 1, assemble);
    forall k ensures k in l.keys <==> Held(ms, n, k) { HeldStep(ms, n - 1, k); }
    forall id ensures id in l.ids <==> Mentioned(ms, n, id) { MentionedStep(ms, n - 1, id); }
  }

  lemma {:induction false} OrderlySettles(ms: seq<Mention>, n: nat, assemble: Assemble)
    requires n <= |ms| && Orderly(ms, n)
    ensures Settled(ms, n, assemble)
  {
    if n > 0 {
      OrderlySettles(ms, n - 1, assemble);
      SettledStep(ms, n, assemble);
    }
  }

  lemma OrderlyCalls(ms: seq<Mention>, n: nat, assemble: Assemble)
    requires n <= |ms| && Orderly(ms, n)
    ensures Process(ms, n, assemble).calls == Firsts(ms, n, assemble)
  {
    OrderlySettles(ms, n, assemble);
  }

  lemma {:induction false} FirstsCount(ms: seq<Mention>, n: nat, id: string, assemble: Assemble)
    requires n <= |ms|
    ensures Count(Firsts(ms, n, assemble), id) == Due(ms, n, id)
  {
    if n > 0 {
      FirstsCount(ms, n - 1, id, assemble);
      MentionedStep(ms, n - 1, id);
      CountAppend(Firsts(ms, n - 1, assemble), CallOf(ms[n - 1], assemble), id);
    }
  }

  lemma {:induction false} SettledIsPrompt(ms: seq<Mention>, n: nat, assemble: Assemble)
    requires n <= |ms| && Settled(ms, n, assemble)
    ensures Prompt(ms, n, assemble)
  {
    forall id ensures Count(Process(ms, n, assemble).calls, id) == Due(ms, n, id) {
      FirstsCount(ms, n, id, assemble);
    }
  }

  /** The first disorder shows at once: a clash leaves its call out, a stray reports it again. */
  lemma {:induction false} DisorderShows(ms: seq<Mention>, n: nat, assemble: Assemble)
    requires n < |ms| && Settled(ms, n, assemble)
    ensures Clash(ms, n) ==> Count(Process(ms, n + 1, assemble).calls, ms[n].callID) == 0
    ensures Stray(ms, n) ==> Count(Process(ms, n + 1, assemble).calls, ms[n].callID) == 2
  {
    SkipsUnless(ms, n, assemble);
    FirstsCount(ms, n, ms[n].callID, assemble);
    CountAppend(Process(ms, n, assemble).calls, CallOf(ms[n], assemble), ms[n].callID);
  }

  lemma {:induction false} PromptStepIff(ms: seq<Mention>, n: nat, assemble: Assemble)
    requires n < |ms| && Orderly(ms, n)
    ensures Prompt(ms, n + 1, assemble) <==> Orderly(ms, n + 1)
  {
    OrderlySettles(ms, n, assemble);
    if Clash(ms, n) || Stray(ms, n) {
      DisorderShows(ms, n, assemble);
      MentionedStep(ms, n, ms[n].callID);
      assert Count(Process(ms, n + 1, assemble).calls, ms[n].callID) != Due(ms, n + 1, ms[n].callID);
    } else {
      SettledStep(ms, n + 1, assemble);
      SettledIsPrompt(ms, n + 1, assemble);
    }
  }

  /** Whatever the mentions: every call is reported once as soon as it is mentioned exactly when no mention
    * clashes and none is stray. */
  lemma {:induction false} PromptIff(ms: seq<Mention>, n: nat, assemble: Assemble)
    requires n <= |ms|
    ensures (forall i :: 0 <= i <= n ==> Prompt(ms, i, assemble)) <==> Orderly(ms, n)
  {
    if n == 0 {
      OrderlySettles(ms, 0, assemble);
      SettledIsPrompt(ms, 0, assemble);
    } else {
      PromptIff(ms, n - 1, assemble);
      if Orderly(ms, n - 1) { PromptStepIff(ms, n - 1, assemble); }
    }
  }

  /** When every item carries its id, being orderly is a matter of keys alone. */
  lemma CarriedOrderlyIff(ms: seq<Mention>)
    requires AllCarried(ms)
    ensures Orderly(ms, |ms|) <==> DistinctFirstKeys(ms)
  {
    if DistinctFirstKeys(ms) {
      forall j | 0 <= j < |ms| ensures !Clash(ms, j) && !Stray(ms, j) { NoClash(ms, j); }
    } else {
      var i, j :| 0 <= i < j < |ms| && First(ms, i) && First(ms, j) && ms[i].key == ms[j].key;
      assert Clash(ms, j);
    }
  }

  lemma NoClash(ms: seq<Mention>, j: nat)
    requires j < |ms| && DistinctFirstKeys(ms)
    ensures !Clash(ms, j)
  {
  }

  // ---- reported twice ----

  lemma {:induction false} CountGrows(ms: seq<Mention>, n: nat, m: nat, id: string, assemble: Assemble)
    requires n <= m <= |ms|
    ensures Count(Process(ms, n, assemble).calls, id) <= Count(Process(ms, m, assemble).calls, id)
    decreases m - n
  {
    if n < m {
      CountGrows(ms, n, m - 1, id, assemble);
      CountAppend(Process(ms, m - 1, assemble).calls, CallOf(ms[m - 1], assemble), id);
    }
  }

  ghost predicate SomeTwice(calls: seq<Ev>) {
    exists id :: Count(calls, id) >= 2
  }

  predicate SomeStray(ms: seq<Mention>) {
    exists i :: 0 <= i < |ms| && Stray(ms, i)
  }

  lemma {:induction false} FirstStray(ms: seq<Mention>, i: nat) returns (n: nat)
    requires i < |ms| && Stray(ms, i)
    ensures n < |ms| && Stray(ms, n) && forall j :: 0 <= j < n ==> !Stray(ms, j)
  {
    if j :| 0 <= j < i && Stray(ms, j) {
      n := FirstStray(ms, j);
    } else {
      n := i;
    }
  }

  lemma {:induction false} DistinctIsOrderly(ms: seq<Mention>, n: nat)
    requires n <= |ms| && DistinctFirstKeys(ms) && forall j :: 0 <= j < n ==> !Stray(ms, j)
    ensures Orderly(ms, n)
  {
    forall j | 0 <= j < n ensures !Clash(ms, j) { NoClash(ms, j); }
  }

  lemma {:induction false} StrayIsCounted(ms: seq<Mention>, n: nat, assemble: Assemble)
    requires n < |ms| && Orderly(ms, n) && Stray(ms, n)
    ensures Count(Process(ms, n + 1, assemble).calls, ms[n].callID) == 2
  {
    OrderlySettles(ms, n, assemble);
    DisorderShows(ms, n, assemble);
  }

  lemma {:induction false} StrayIsTwice(ms: seq<Mention>, n: nat, assemble: Assemble)
    requires n < |ms| && Orderly(ms, n) && Stray(ms, n)
    ensures SomeTwice(Process(ms, |ms|, assemble).calls)
  {
    StrayIsCounted(ms, n, assemble);
    CountGrows(ms, n + 1, |ms|, ms[n].callID, assemble);
  }

  lemma {:induction false} OrderlyIsOnce(ms: seq<Mention>, id: string, assemble: Assemble)
    requires Orderly(ms, |ms|)
    ensures Count(Process(ms, |ms|, assemble).calls, id) <= 1
  {
    OrderlySettles(ms, |ms|, assemble);
    FirstsCount(ms, |ms|, id, assemble);
  }

  /** While the first mentions of different calls come under different keys: some call is reported twice
    * exactly when some mention is stray. */
  lemma {:induction false} TwiceIff(ms: seq<Mention>, assemble: Assemble)
    requires DistinctFirstKeys(ms)
    ensures SomeTwice(Process(ms, |ms|, assemble).calls) <==> SomeStray(ms)
  {
    if SomeStray(ms) {
      var i :| 0 <= i < |ms| && Stray(ms, i);
      var n := FirstStray(ms, i);
      DistinctIsOrderly(ms, n);
      StrayIsTwice(ms, n, assemble);
    } else {
      DistinctIsOrderly(ms, |ms|);
      forall id ensures Count(Process(ms, |ms|, assemble).calls, id) <= 1 { OrderlyIsOnce(ms, id, assemble); }
    }
  }

  // ---- keys that stand for one call each ----

  predicate Unambiguous(ms: seq<Mention>) {
    forall i, j :: 0 <= i < |ms| && 0 <= j < |ms| && ms[i].key == ms[j].key ==> ms[i].callID == ms[j].callID
  }

  /** An item without its call id, under another key than the first mention of its call. */
  predicate Renamed(ms: seq<Mention>, i: nat, j: nat)
    requires i < j < |ms|
  {
    First(ms, i) && ms[j].callID == ms[i].callID && !ms[j].carried && ms[j].key != ms[i].key
  }

  predicate SomeRenamed(ms: seq<Mention>) {
    exists i, j :: 0 <= i < j < |ms| && Renamed(ms, i, j)
  }

  lemma UnambiguousIsDistinct(ms: seq<Mention>)
    requires Unambiguous(ms)
    ensures DistinctFirstKeys(ms)
  {
  }

  lemma {:induction false} FirstOf(ms: seq<Mention>, j: nat) returns (i: nat)
    requires j < |ms|
    ensures i <= j && First(ms, i) && ms[i].callID == ms[j].callID
  {
    if First(ms, j) {
      i := j;
    } else {
      var k :| 0 <= k < j && ms[k].callID == ms[j].callID;
      i := FirstOf(ms, k);
    }
  }

  lemma {:induction false} StrayIffRenamed(ms: seq<Mention>)
    requires Unambiguous(ms)
    ensures SomeStray(ms) <==> SomeRenamed(ms)
  {
    if j :| 0 <= j < |ms| && Stray(ms, j) {
      var i := FirstOf(ms, j);
      assert Renamed(ms, i, j);
    }
    if i, j :| 0 <= i < j < |ms| && Renamed(ms, i, j) { RenamedIsStray(ms, i, j); }
  }

  lemma RenamedIsStray(ms: seq<Mention>, i: nat, j: nat)
    requires i < j < |ms| && Unambiguous(ms) && Renamed(ms, i, j)
    ensures Stray(ms, j)
  {
    forall k | 0 <= k < j && First(ms, k) && ms[k].callID == ms[j].callID ensures k == i { FirstIsOne(ms, i, k); }
  }

  lemma FirstIsOne(ms: seq<Mention>, i: nat, k: nat)
    requires i < |ms| && k < |ms| && First(ms, i) && First(ms, k) && ms[i].callID == ms[k].callID
    ensures i == k
  {
  }
}
