/** A whole chat-completions stream, told on its payloads: which streams are accepted, and everything that is reported. */
module CompletionsTurn {
  import opened Wrappers
  import opened StreamEvents
  import opened Sorting
  import opened Completions
  import opened CompletionsAssembly

  // ---- text and thinking ----

  /** The reasoning text of a choice: under its first name, or else under its second. */
  function Thought(c: Choice): string {
    if c.reasoningContent != "" then c.reasoningContent else c.reasoning
  }

  /** What a choice says: its content, then its reasoning, each if there is any. */
  predicate Says(c: Choice, evs: seq<Ev>) {
    if c.content != "" && Thought(c) != "" then evs == [TextEvent(c.content), ThinkingEvent(Thought(c))]
    else if c.content != "" then evs == [TextEvent(c.content)]
    else if Thought(c) != "" then evs == [ThinkingEvent(Thought(c))]
    else evs == []
  }

  predicate SaysAll(cs: seq<Choice>, n: nat, evs: seq<Ev>)
    requires n <= |cs|
  {
    if n == 0 then evs == []
    else exists k :: 0 <= k <= |evs| && SaysAll(cs, n - 1, evs[..k]) && Says(cs[n - 1], evs[k..])
  }

  /** These are the texts and thoughts of the first n payloads, in order. */
  predicate Spoken(ps: seq<Payload>, n: nat, evs: seq<Ev>)
    requires n <= |ps|
  {
    if n == 0 then evs == []
    else if ps[n - 1].Chunk? then
      exists k :: 0 <= k <= |evs| && Spoken(ps, n - 1, evs[..k]) && SaysAll(ps[n - 1].choices, |ps[n - 1].choices|, evs[k..])
    else Spoken(ps, n - 1, evs)
  }

  lemma ShownSays(c: Choice)
    ensures Says(c, Shown(c))
  {
  }

  lemma {:induction false} ChoicesSay(s: State, cs: seq<Choice>, n: nat) returns (evs: seq<Ev>)
    requires Valid(s) && n <= |cs|
    ensures SaysAll(cs, n, evs) && WithChoices(s, cs, n).sent == s.sent + evs
  {
    if n == 0 {
      evs := [];
    } else {
      var front := ChoicesSay(s, cs, n - 1);
      var t, c := WithChoices(s, cs, n - 1), cs[n - 1];
      FragmentsKeep(t.(sent := t.sent + Shown(c)), c.fragments, |c.fragments|);
      ShownSays(c);
      evs := front + Shown(c);
      AppendAssociates(s.sent, front, Shown(c));
      assert evs[..|front|] == front && evs[|front|..] == Shown(c);
    }
  }

  // ---- how long the stream is read ----

  predicate Stops(p: Payload) { p.EndMarker? || p.Broken? || p.UpstreamError? }

  /** The first payload that ends the reading, or the number of payloads. */
  function StopAt(ps: seq<Payload>, from: nat := 0): (n: nat)
    requires from <= |ps|
    ensures from <= n <= |ps| && (n < |ps| ==> Stops(ps[n])) && forall k :: from <= k < n ==> !Stops(ps[k])
    decreases |ps| - from
  {
    if from == |ps| || Stops(ps[from]) then from else StopAt(ps, from + 1)
  }

  predicate Finishing(ps: seq<Payload>, n: nat)
    requires n <= |ps|
  {
    exists k :: 0 <= k < n && SaysFinished(ps[k])
  }

  /** While no payload ends the reading, exactly the texts and thoughts are reported, as they come. */
  lemma {:induction false} SpeaksAsStreamed(ps: seq<Payload>, n: nat, assemble: Assemble)
    requires n <= |ps| && forall k :: 0 <= k < n ==> !Stops(ps[k])
    ensures var (s, outcome) := After(ps, n, assemble);
            && outcome.Running? && Spoken(ps, n, s.sent) && !s.doneSent
  {
    if n > 0 {
      SpeaksAsStreamed(ps, n - 1, assemble);
      var s := After(ps, n - 1, assemble).0;
      if ps[n - 1].Chunk? {
        var cs := ps[n - 1].choices;
        var evs := ChoicesSay(s.(gotChunk := true), cs, |cs|);
        var all := s.sent + evs;
        assert all[..|s.sent|] == s.sent && all[|s.sent|..] == evs;
        ChoicesKeepOpen(s.(gotChunk := true), cs, |cs|);
      }
    }
  }

  lemma {:induction false} ChoicesKeepOpen(s: State, cs: seq<Choice>, n: nat)
    requires Valid(s) && n <= |cs|
    ensures WithChoices(s, cs, n).doneSent == s.doneSent && WithChoices(s, cs, n).gotChunk == s.gotChunk
    ensures WithChoices(s, cs, n).finishSeen <==> s.finishSeen || exists k :: 0 <= k < n && cs[k].finishReason != ""
  {
    if n > 0 {
      ChoicesKeepOpen(s, cs, n - 1);
      var t, c := WithChoices(s, cs, n - 1), cs[n - 1];
      FragmentsKeep(t.(sent := t.sent + Shown(c)), c.fragments, |c.fragments|);
      FragmentsKeepChunk(t.(sent := t.sent + Shown(c)), c.fragments, |c.fragments|);
    }
  }

  lemma {:induction false} FragmentsKeepChunk(s: State, fs: seq<Fragment>, n: nat)
    requires Valid(s) && n <= |fs|
    ensures WithFragments(s, fs, n).gotChunk == s.gotChunk
  {
    if n > 0 { FragmentsKeepChunk(s, fs, n - 1); }
  }

  lemma {:induction false} FinishSeenIff(ps: seq<Payload>, n: nat, assemble: Assemble)
    requires n <= |ps| && forall k :: 0 <= k < n ==> !Stops(ps[k])
    ensures After(ps, n, assemble).1.Running?
    ensures After(ps, n, assemble).0.finishSeen <==> Finishing(ps, n)
    ensures After(ps, n, assemble).0.gotChunk <==> exists k :: 0 <= k < n && ps[k].Chunk?
  {
    if n > 0 {
      FinishSeenIff(ps, n - 1, assemble);
      var s := After(ps, n - 1, assemble).0;
      if ps[n - 1].Chunk? { ChoicesKeepOpen(s.(gotChunk := true), ps[n - 1].choices, |ps[n - 1].choices|); }
      FinishingStep(ps, n);
    }
  }

  lemma FinishingStep(ps: seq<Payload>, n: nat)
    requires 0 < n <= |ps|
    ensures Finishing(ps, n) <==> Finishing(ps, n - 1) || SaysFinished(ps[n - 1])
  {
  }

  // ---- what a flush adds ----

  /** The calls of the given indices, each as its own fragments give it, up to the first whose arguments are no object. */
  predicate CallsUpTo(fs: seq<Fragment>, order: seq<int>, sent: seq<Ev>, k: nat, assemble: Assemble)
    requires k <= |order|
  {
    && AllAssemble(fs, order, k, assemble) && sent == CallsOf(fs, order, k, assemble)
    && (k < |order| ==> assemble(JoinedArguments(Own(fs, order[k]))).None?)
  }

  lemma {:induction false} FlushedUpTo(fs: seq<Fragment>, s: State, order: seq<int>, n: nat, assemble: Assemble) returns (k: nat)
    requires n <= |order| && TracksAll(fs, s) && forall i :: 0 <= i < |order| ==> order[i] in s.calls
    ensures k <= n && AllAssemble(fs, order, k, assemble)
    ensures Flushed(s.calls, order, n, assemble).0 == CallsOf(fs, order, k, assemble)
    ensures k < n ==> assemble(JoinedArguments(Own(fs, order[k]))).None?
    ensures Flushed(s.calls, order, n, assemble).1 <==> k == n
  {
    if n == 0 {
      k := 0;
    } else {
      k := FlushedUpTo(fs, s, order, n - 1, assemble);
      assert Tracked(fs, order[n - 1], s.calls, s.indices);
      if k == n - 1 && assemble(JoinedArguments(Own(fs, order[n - 1]))).Some? { k := n; }
    }
  }

  /** What a flush adds to a stream still open: the calls, one per index ascending, up to the first whose arguments are no
    * object, and when there is none, the end. */
  ghost predicate Flushes(fs: seq<Fragment>, added: seq<Ev>, ok: bool, assemble: Assemble) {
    exists order, k :: Lists(order, fs) && 0 <= k <= |order| && FlushIs(fs, order, k, added, ok, assemble)
  }

  ghost predicate FlushIs(fs: seq<Fragment>, order: seq<int>, k: nat, added: seq<Ev>, ok: bool, assemble: Assemble)
    requires k <= |order|
  {
    if k == |order| then ok && added != [] && added[|added| - 1] == DoneEvent(None)
                         && CallsUpTo(fs, order, added[..|added| - 1], k, assemble)
    else !ok && CallsUpTo(fs, order, added, k, assemble)
  }

  lemma {:induction false} FlushAdds(s: State, fs: seq<Fragment>, assemble: Assemble) returns (added: seq<Ev>)
    requires Valid(s) && TracksAll(fs, s) && !s.doneSent
    ensures var (t, outcome) := WithFlush(s, assemble);
            && t.sent == s.sent + added && !outcome.Running? && Flushes(fs, added, outcome.Finished?, assemble)
  {
    var order := SortInts(s.indices);
    SortedStaysValid(s);
    OrderLists(fs, s);
    var k := FlushedUpTo(fs, s, order, |order|, assemble);
    var calls := Flushed(s.calls, order, |order|, assemble).0;
    added := if k == |order| then calls + [DoneEvent(None)] else calls;
    assert k == |order| ==> added[..|added| - 1] == calls;
    AppendAssociates(s.sent, calls, [DoneEvent(None)]);
    assert FlushIs(fs, order, k, added, k == |order|, assemble);
  }

  // ---- the whole stream ----

  /** It is read up to its end marker, or to its end if some choice gave a finish reason. */
  predicate ReadOut(ps: seq<Payload>) {
    var n := StopAt(ps);
    if n < |ps| then ps[n].EndMarker? else Finishing(ps, n)
  }

  lemma {:induction false} StopsThere(ps: seq<Payload>, assemble: Assemble)
    requires StopAt(ps) < |ps|
    ensures After(ps, StopAt(ps), assemble).1.Running?
    ensures Parsed(ps, assemble) == Step(After(ps, StopAt(ps), assemble).0, ps[StopAt(ps)], assemble)
  {
    var n := StopAt(ps);
    SpeaksAsStreamed(ps, n, assemble);
    assert After(ps, n + 1, assemble) == Step(After(ps, n, assemble).0, ps[n], assemble);
    if ps[n].EndMarker? {
      TrackStream(ps, n, assemble);
      var added := FlushAdds(After(ps, n, assemble).0, Fragments(ps, n), assemble);
    }
    StaysOver(ps, n + 1, |ps|, assemble);
  }

  /** Any stream whatever: the texts and thoughts up to where it stops are reported first. If it is read out, its calls
    * follow, and the end, unless some arguments are no object; otherwise it fails with nothing more reported. */
  lemma {:induction false} StreamIs(ps: seq<Payload>, assemble: Assemble) returns (spoken: seq<Ev>, added: seq<Ev>)
    ensures Spoken(ps, StopAt(ps), spoken) && Parsed(ps, assemble).0.sent == spoken + added
    ensures if ReadOut(ps) then Flushes(Fragments(ps, StopAt(ps)), added, Parsed(ps, assemble).1.Finished?, assemble)
            else added == [] && Parsed(ps, assemble).1.Failed?
  {
    var n := StopAt(ps);
    SpeaksAsStreamed(ps, n, assemble);
    FinishSeenIff(ps, n, assemble);
    TrackStream(ps, n, assemble);
    var s := After(ps, n, assemble).0;
    spoken, added := s.sent, [];
    assert spoken + [] == spoken;
    if n < |ps| { StopsThere(ps, assemble); }
    if ReadOut(ps) {
      added := FlushAdds(s, Fragments(ps, n), assemble);
      assert n == |ps| ==> Finishing(ps, n) && s.gotChunk;
    }
  }
}
