/** Fragment assembly: the calls reported depend only on each index's own fragments, in their own order. */
module CompletionsAssembly {
  import opened Wrappers
  import opened StreamEvents
  import opened Sorting
  import opened Completions

  // ---- reading one call off the fragments ----

  /** The fragments of index i, in order. */
  function Own(fs: seq<Fragment>, i: int): seq<Fragment> {
    if fs == [] then []
    else
      var front, last := fs[..|fs| - 1], fs[|fs| - 1];
      if last.index == i then Own(front, i) + [last] else Own(front, i)
  }

  function LastId(own: seq<Fragment>): string {
    if own == [] then ""
    else if own[|own| - 1].id != "" then own[|own| - 1].id
    else LastId(own[..|own| - 1])
  }

  function LastName(own: seq<Fragment>): string {
    if own == [] then ""
    else if own[|own| - 1].name != "" then own[|own| - 1].name
    else LastName(own[..|own| - 1])
  }

  function JoinedArguments(own: seq<Fragment>): string {
    if own == [] then "" else JoinedArguments(own[..|own| - 1]) + own[|own| - 1].arguments
  }

  /** A call as its own fragments give it: the last nonempty id and name, all arguments joined. */
  function Assembled(own: seq<Fragment>): Partial {
    Partial(LastId(own), LastName(own), JoinedArguments(own))
  }

  // ---- the parser's calls ----

  ghost predicate Tracked(fs: seq<Fragment>, i: int, calls: map<int, Partial>, indices: seq<int>) {
    && (i in calls <==> Own(fs, i) != [])
    && (i in calls ==> calls[i] == Assembled(Own(fs, i)))
    && multiset(indices)[i] == if i in calls then 1 else 0
  }

  ghost predicate TracksAll(fs: seq<Fragment>, s: State) {
    forall i :: Tracked(fs, i, s.calls, s.indices)
  }

  lemma {:induction false} OwnAppend(fs: seq<Fragment>, f: Fragment, i: int)
    ensures Own(fs + [f], i) == if f.index == i then Own(fs, i) + [f] else Own(fs, i)
  {
  }

  lemma {:induction false} AssembledAppend(own: seq<Fragment>, f: Fragment)
    ensures Assembled(own + [f]) == Extended(Assembled(own), f)
  {
  }

  lemma CountAppend(s: seq<int>, x: int, y: int)
    ensures multiset(s + [x])[y] == multiset(s)[y] + if x == y then 1 else 0
  {
  }

  lemma {:induction false} TrackFragment(fs: seq<Fragment>, f: Fragment, s: State, i: int)
    requires Valid(s) && Tracked(fs, i, s.calls, s.indices) && Tracked(fs, f.index, s.calls, s.indices)
    ensures Tracked(fs + [f], i, WithFragment(s, f).calls, WithFragment(s, f).indices)
  {
    OwnAppend(fs, f, i);
    AssembledAppend(Own(fs, i), f);
    CountAppend(s.indices, f.index, i);
    assert Assembled([]) == Partial("", "", "");
  }

  lemma {:induction false} TrackFragments(fs: seq<Fragment>, more: seq<Fragment>, n: nat, s: State)
    requires Valid(s) && TracksAll(fs, s) && n <= |more|
    ensures TracksAll(fs + more[..n], WithFragments(s, more, n))
  {
    if n == 0 {
      assert fs + more[..0] == fs;
    } else {
      TrackFragments(fs, more, n - 1, s);
      var seen, t := fs + more[..n - 1], WithFragments(s, more, n - 1);
      assert seen + [more[n - 1]] == fs + more[..n];
      forall i ensures Tracked(fs + more[..n], i, WithFragments(s, more, n).calls, WithFragments(s, more, n).indices) {
        TrackFragment(seen, more[n - 1], t, i);
      }
    }
  }

  // ---- over a whole stream ----

  function ChoiceFragments(cs: seq<Choice>, n: nat): seq<Fragment>
    requires n <= |cs|
  {
    if n == 0 then [] else ChoiceFragments(cs, n - 1) + cs[n - 1].fragments
  }

  /** All fragments of the first n payloads, in order. */
  function Fragments(ps: seq<Payload>, n: nat): seq<Fragment>
    requires n <= |ps|
  {
    if n == 0 then []
    else if ps[n - 1].Chunk? then
      Fragments(ps, n - 1) + ChoiceFragments(ps[n - 1].choices, |ps[n - 1].choices|)
    else Fragments(ps, n - 1)
  }

  lemma {:induction false} TrackChoice(fs: seq<Fragment>, c: Choice, s: State)
    requires Valid(s) && TracksAll(fs, s)
    ensures TracksAll(fs + c.fragments, WithChoice(s, c))
  {
    var t := s.(sent := s.sent + Shown(c));
    assert TracksAll(fs, t);
    TrackFragments(fs, c.fragments, |c.fragments|, t);
    assert c.fragments[..|c.fragments|] == c.fragments;
  }

  lemma {:induction false} TrackChoices(fs: seq<Fragment>, cs: seq<Choice>, n: nat, s: State)
    requires Valid(s) && TracksAll(fs, s) && n <= |cs|
    ensures TracksAll(fs + ChoiceFragments(cs, n), WithChoices(s, cs, n))
  {
    if n == 0 {
      assert fs + [] == fs;
    } else {
      TrackChoices(fs, cs, n - 1, s);
      TrackChoice(fs + ChoiceFragments(cs, n - 1), cs[n - 1], WithChoices(s, cs, n - 1));
      AppendAssociates(fs, ChoiceFragments(cs, n - 1), cs[n - 1].fragments);
    }
  }

  lemma {:induction false} TrackStream(ps: seq<Payload>, n: nat, assemble: Assemble)
    requires n <= |ps| && After(ps, n, assemble).1.Running?
    ensures TracksAll(Fragments(ps, n), After(ps, n, assemble).0)
  {
    if n > 0 {
      TrackStream(ps, n - 1, assemble);
      var s := After(ps, n - 1, assemble).0;
      if ps[n - 1].Chunk? {
        var t := s.(gotChunk := true);
        assert TracksAll(Fragments(ps, n - 1), t);
        TrackChoices(Fragments(ps, n - 1), ps[n - 1].choices, |ps[n - 1].choices|, t);
      }
    }
  }

  // ---- what a flush reports ----

  lemma {:induction false} SameTracking(fs: seq<Fragment>, gs: seq<Fragment>, s: State, t: State)
    requires TracksAll(fs, s) && TracksAll(gs, t) && forall i :: Own(fs, i) == Own(gs, i)
    ensures s.calls == t.calls && multiset(s.indices) == multiset(t.indices)
  {
    forall i ensures (i in s.calls <==> i in t.calls) && (i in s.calls ==> s.calls[i] == t.calls[i])
                     && multiset(s.indices)[i] == multiset(t.indices)[i] {
      assert Tracked(fs, i, s.calls, s.indices) && Tracked(gs, i, t.calls, t.indices);
    }
  }

  /** Two streams with the same fragments per index flush the same calls, however the indices interleave
    * and however the fragments are spread over chunks. */
  lemma {:induction false} InterleavingInvariance(ps: seq<Payload>, n: nat, qs: seq<Payload>, m: nat, assemble: Assemble)
    requires n <= |ps| && m <= |qs| && After(ps, n, assemble).1.Running? && After(qs, m, assemble).1.Running?
    requires forall i :: Own(Fragments(ps, n), i) == Own(Fragments(qs, m), i)
    ensures FlushOf(After(ps, n, assemble).0, assemble) == FlushOf(After(qs, m, assemble).0, assemble)
  {
    var s, t := After(ps, n, assemble).0, After(qs, m, assemble).0;
    TrackStream(ps, n, assemble);
    TrackStream(qs, m, assemble);
    SameTracking(Fragments(ps, n), Fragments(qs, m), s, t);
    SortIntsSorts(s.indices);
    SortIntsSorts(t.indices);
    SortedIsUnique(SortInts(s.indices), SortInts(t.indices));
  }

  /** The calls of these indices, each as its own fragments give it. */
  function CallsOf(fs: seq<Fragment>, order: seq<int>, n: nat, assemble: Assemble): seq<Ev>
    requires n <= |order|
  {
    if n == 0 then []
    else
      var own := Assembled(Own(fs, order[n - 1]));
      var arguments := assemble(own.arguments);
      CallsOf(fs, order, n - 1, assemble)
      + [CallEvent(Call(own.id, own.name, if arguments.Some? then arguments.value else ""))]
  }

  predicate AllAssemble(fs: seq<Fragment>, order: seq<int>, n: nat, assemble: Assemble)
    requires n <= |order|
  {
    forall k :: 0 <= k < n ==> assemble(JoinedArguments(Own(fs, order[k]))).Some?
  }

  lemma {:induction false} FlushedAre(fs: seq<Fragment>, s: State, order: seq<int>, n: nat, assemble: Assemble)
    requires n <= |order| && TracksAll(fs, s) && forall k :: 0 <= k < |order| ==> order[k] in s.calls
    ensures Flushed(s.calls, order, n, assemble).1 <==> AllAssemble(fs, order, n, assemble)
    ensures AllAssemble(fs, order, n, assemble) ==> Flushed(s.calls, order, n, assemble).0 == CallsOf(fs, order, n, assemble)
  {
    if n > 0 {
      FlushedAre(fs, s, order, n - 1, assemble);
      assert Tracked(fs, order[n - 1], s.calls, s.indices);
    }
  }

  /** Each index that had a fragment, once, ascending. */
  predicate Lists(order: seq<int>, fs: seq<Fragment>) {
    && (forall k, l :: 0 <= k < l < |order| ==> order[k] < order[l])
    && (forall k :: 0 <= k < |order| ==> Own(fs, order[k]) != [])
    && (forall f :: f in fs ==> f.index in order)
  }

  lemma {:induction false} OwnNonempty(fs: seq<Fragment>, k: nat)
    requires k < |fs|
    ensures Own(fs, fs[k].index) != []
    decreases |fs|
  {
    if k < |fs| - 1 { OwnNonempty(fs[..|fs| - 1], k); }
  }

  lemma {:induction false} OrderLists(fs: seq<Fragment>, s: State)
    requires TracksAll(fs, s)
    ensures Lists(SortInts(s.indices), fs)
  {
    var order := SortInts(s.indices);
    SortIntsSorts(s.indices);
    forall k | 0 <= k < |order| ensures Own(fs, order[k]) != [] {
      assert order[k] in multiset(order);
      assert Tracked(fs, order[k], s.calls, s.indices);
    }
    forall k, l | 0 <= k < l < |order| ensures order[k] < order[l] {
      assert Tracked(fs, order[k], s.calls, s.indices);
      if order[k] == order[l] { TwiceCounts(order, k, l); }
    }
    forall f | f in fs ensures f.index in order {
      var k :| 0 <= k < |fs| && fs[k] == f;
      OwnNonempty(fs, k);
      assert Tracked(fs, f.index, s.calls, s.indices);
      assert f.index in multiset(order);
    }
  }

  lemma TwiceCounts(s: seq<int>, k: nat, l: nat)
    requires k < l < |s| && s[k] == s[l]
    ensures multiset(s)[s[k]] >= 2
  {
    assert s == s[..l] + s[l..];
    assert s[k] in s[..l] && s[l] in s[l..];
    assert s[..l][k] == s[k] && s[l..][0] == s[l];
  }

  /** A flush reports one call per index seen, in ascending order of index, each with the last nonempty id
    * and name and all its arguments; it fails exactly when some arguments are no object. */
  lemma {:induction false} FlushReports(ps: seq<Payload>, n: nat, assemble: Assemble) returns (order: seq<int>)
    requires n <= |ps| && After(ps, n, assemble).1.Running?
    ensures Lists(order, Fragments(ps, n))
    ensures var (sent, ok) := FlushOf(After(ps, n, assemble).0, assemble);
            && (ok <==> AllAssemble(Fragments(ps, n), order, |order|, assemble))
            && (ok ==> sent == CallsOf(Fragments(ps, n), order, |order|, assemble))
  {
    var s := After(ps, n, assemble).0;
    TrackStream(ps, n, assemble);
    order := SortInts(s.indices);
    OrderLists(Fragments(ps, n), s);
    SortedStaysValid(s);
    FlushedAre(Fragments(ps, n), s, order, |order|, assemble);
  }

  // ---- the end of a stream ----

  predicate Live(ev: Ev) { ev.TextEvent? || ev.ThinkingEvent? }

  predicate OnlyLive(sent: seq<Ev>) {
    forall k :: 0 <= k < |sent| ==> Live(sent[k])
  }

  predicate NoDone(sent: seq<Ev>) {
    forall k :: 0 <= k < |sent| ==> !sent[k].DoneEvent?
  }

  lemma {:induction false} FragmentsKeep(s: State, fs: seq<Fragment>, n: nat)
    requires Valid(s) && n <= |fs|
    ensures WithFragments(s, fs, n).sent == s.sent
    ensures WithFragments(s, fs, n).doneSent == s.doneSent && WithFragments(s, fs, n).finishSeen == s.finishSeen
  {
    if n > 0 { FragmentsKeep(s, fs, n - 1); }
  }

  lemma {:induction false} ChoicesShowText(s: State, cs: seq<Choice>, n: nat)
    requires Valid(s) && n <= |cs| && OnlyLive(s.sent)
    ensures var t := WithChoices(s, cs, n);
            && OnlyLive(t.sent) && t.doneSent == s.doneSent
            && (t.finishSeen <==> s.finishSeen || exists k :: 0 <= k < n && cs[k].finishReason != "")
  {
    if n > 0 {
      ChoicesShowText(s, cs, n - 1);
      var t, c := WithChoices(s, cs, n - 1), cs[n - 1];
      FragmentsKeep(t.(sent := t.sent + Shown(c)), c.fragments, |c.fragments|);
    }
  }

  predicate SaysFinished(p: Payload) {
    p.Chunk? && exists k :: 0 <= k < |p.choices| && p.choices[k].finishReason != ""
  }

  /** While the stream runs only text and thinking are reported. */
  lemma {:induction false} RunningShowsText(ps: seq<Payload>, n: nat, assemble: Assemble)
    requires n <= |ps|
    ensures var (s, outcome) := After(ps, n, assemble);
            && (outcome.Running? ==> OnlyLive(s.sent) && !s.doneSent)
            && (outcome.Running? && s.finishSeen ==> exists k :: 0 <= k < n && SaysFinished(ps[k]))
  {
    if n > 0 {
      RunningShowsText(ps, n - 1, assemble);
      var (s, outcome) := After(ps, n - 1, assemble);
      if outcome.Running? && ps[n - 1].Chunk? {
        ChoicesShowText(s.(gotChunk := true), ps[n - 1].choices, |ps[n - 1].choices|);
      }
    }
  }

  lemma {:induction false} FlushSendsCalls(calls: map<int, Partial>, order: seq<int>, n: nat, assemble: Assemble)
    requires n <= |order| && forall k :: 0 <= k < |order| ==> order[k] in calls
    ensures NoDone(Flushed(calls, order, n, assemble).0)
  {
    if n > 0 { FlushSendsCalls(calls, order, n - 1, assemble); }
  }

  predicate EndsWithDone(sent: seq<Ev>) {
    sent != [] && sent[|sent| - 1].DoneEvent? && NoDone(sent[..|sent| - 1])
  }

  lemma {:induction false} FlushEndsWithDone(s: State, assemble: Assemble)
    requires Valid(s) && OnlyLive(s.sent) && !s.doneSent
    ensures var (t, outcome) := WithFlush(s, assemble);
            if outcome.Finished? then EndsWithDone(t.sent) else outcome.Failed? && NoDone(t.sent)
  {
    SortedStaysValid(s);
    FlushSendsCalls(s.calls, SortInts(s.indices), |SortInts(s.indices)|, assemble);
  }

  lemma {:induction false} StoppedWithDone(ps: seq<Payload>, n: nat, assemble: Assemble)
    requires n <= |ps| && !After(ps, n, assemble).1.Running?
    ensures var (s, outcome) := After(ps, n, assemble); if outcome.Finished? then EndsWithDone(s.sent) else NoDone(s.sent)
  {
    var (s, outcome) := After(ps, n - 1, assemble);
    if outcome.Running? {
      RunningShowsText(ps, n - 1, assemble);
      if ps[n - 1].EndMarker? { FlushEndsWithDone(s, assemble); }
    } else {
      StoppedWithDone(ps, n - 1, assemble);
    }
  }

  /** Done is reported exactly when the stream is accepted, once, and last. */
  lemma {:induction false} DoneOnceAndLast(ps: seq<Payload>, assemble: Assemble)
    ensures var (s, outcome) := Parsed(ps, assemble);
            !outcome.Running? && if outcome.Finished? then EndsWithDone(s.sent) else NoDone(s.sent)
  {
    var (s, outcome) := After(ps, |ps|, assemble);
    if outcome.Running? {
      RunningShowsText(ps, |ps|, assemble);
      FlushEndsWithDone(s, assemble);
    } else {
      StoppedWithDone(ps, |ps|, assemble);
    }
  }

  lemma {:induction false} NoMarkerNoCall(ps: seq<Payload>, n: nat, assemble: Assemble)
    requires n <= |ps| && forall k :: 0 <= k < n ==> !ps[k].EndMarker?
    ensures OnlyLive(After(ps, n, assemble).0.sent) && !After(ps, n, assemble).1.Finished?
  {
    if n > 0 {
      NoMarkerNoCall(ps, n - 1, assemble);
      var (s, outcome) := After(ps, n - 1, assemble);
      if outcome.Running? && ps[n - 1].Chunk? {
        ChoicesShowText(s.(gotChunk := true), ps[n - 1].choices, |ps[n - 1].choices|);
      }
    }
  }

  /** A stream with neither a finish reason nor the end marker fails, and reports no call and no end. */
  lemma {:induction false} TruncatedReportsNoCall(ps: seq<Payload>, assemble: Assemble)
    requires forall k :: 0 <= k < |ps| ==> !ps[k].EndMarker? && !SaysFinished(ps[k])
    ensures Parsed(ps, assemble).1.Failed? && OnlyLive(Parsed(ps, assemble).0.sent)
  {
    NoMarkerNoCall(ps, |ps|, assemble);
    RunningShowsText(ps, |ps|, assemble);
  }
}
