/** What holds of the terminal manager in every interleaving. */
module TerminalSafety {
  import opened Wrappers
  import opened Terminal

  // ---- who is responsible for a session ----

  /** Its shell may run: it was not killed, nor waited for after its output ended. */
  predicate Live(s: State, k: nat) {
    k < |s.sessions| && !s.sessions[k].killed
    && (s.sessions[k].run.NotBegun? || s.sessions[k].run.Reading? || s.sessions[k].run.Exited?)
  }

  predicate HandlerHolds(h: Handler, k: nat) {
    (h.Asking? || h.Killing? || h.Publishing?) && h.k == k
  }

  predicate CloserHolds(cs: seq<Closer>, k: nat) {
    |cs| > 0 && !cs[0].Over? && cs[0].k == k
  }

  predicate Held(s: State, k: nat) {
    s.slot.active == Some(k) || HandlerHolds(s.handler, k) || CloserHolds(s.closers, k)
  }

  ghost predicate LiveAreHeld(s: State) {
    forall k :: Live(s, k) ==> Held(s, k)
  }

  /** Every session named somewhere exists. */
  predicate Bounded(s: State) {
    && (s.slot.active.Some? ==> s.slot.active.value < |s.sessions|)
    && (s.handler.Asking? || s.handler.Killing? || s.handler.Publishing? || s.handler.Launching? ==>
          s.handler.k < |s.sessions|)
    && (forall i :: 0 <= i < |s.closers| && !s.closers[i].Over? ==> s.closers[i].k < |s.sessions|)
  }

  /** At most one of the active slot, the handler and a closer is responsible at a time. */
  predicate Exclusive(s: State) {
    && (s.slot.stopped ==> s.slot.active.None?)
    && |s.closers| <= 1
    && (s.closers != [] ==> s.slot.stopped)
    && (!s.handler.Idle? && !s.handler.Launching? ==> s.slot.active.None?)
    && (s.handler.Asking? || s.handler.Killing? || s.handler.Starting? || s.handler.Publishing? ==> s.closers == [])
    && (s.handler.Publishing? || s.handler.Launching? ==>
          s.handler.k < |s.sessions| && s.sessions[s.handler.k].run.NotBegun?)
  }

  ghost predicate Safe(s: State) { Bounded(s) && Exclusive(s) && LiveAreHeld(s) }

  lemma HandleKeepsSafe(s: State, startable: bool)
    requires Safe(s)
    ensures Safe(Handled(s, startable))
  {
    var t := Handled(s, startable);
    forall k: nat | Live(t, k) ensures Held(t, k) {
      if k < |s.sessions| && Live(s, k) { assert Held(s, k); }
    }
  }

  lemma RequestKeepsSafe(s: State, reason: string, next: Next)
    requires Safe(s) && s.handler.Idle?
    ensures Safe(TakeCurrent(s, reason, next))
  {
    var t := TakeCurrent(s, reason, next);
    forall k: nat | Live(t, k) ensures Held(t, k) { assert Live(s, k) && Held(s, k); }
  }

  lemma CloseKeepsSafe(s: State, reason: string, i: nat)
    requires Safe(s)
    ensures Safe(CloseBegun(s, reason))
    ensures i < |s.closers| ==> Safe(ClosedFurther(s, i))
  {
    var t := CloseBegun(s, reason);
    forall k: nat | Live(t, k) ensures Held(t, k) { assert Live(s, k) && Held(s, k); }
    if i < |s.closers| {
      var u := ClosedFurther(s, i);
      forall k: nat | Live(u, k) ensures Held(u, k) { assert Live(s, k) && Held(s, k); }
    }
  }

  lemma ReapKeepsSafe(s: State, k: nat, waitErr: Option<string>)
    requires Safe(s) && k < |s.sessions|
    ensures Safe(Reaped(s, k, waitErr)) && Safe(Step(s, Exit(k)))
  {
    var t, u := Reaped(s, k, waitErr), Step(s, Exit(k));
    forall j: nat | Live(t, j) ensures Held(t, j) { assert Live(s, j) && Held(s, j); }
    forall j: nat | Live(u, j) ensures Held(u, j) { assert Live(s, j) && Held(s, j); }
  }

  lemma StepKeepsSafe(s: State, ev: Event)
    requires Safe(s)
    ensures Safe(Step(s, ev))
  {
    match ev
    case OpenRequest(q) =>
      if s.handler.Idle? { RequestKeepsSafe(s, "replaced by new terminal", Open(q)); }
    case CloseRequest(_, reason) =>
      if s.handler.Idle? { RequestKeepsSafe(s, reason, Return); }
    case Handle(startable) => HandleKeepsSafe(s, startable);
    case CloseManager(reason) => CloseKeepsSafe(s, reason, 0);
    case Close(i) => CloseKeepsSafe(s, "", i);
    case Exit(k) =>
      if k < |s.sessions| { ReapKeepsSafe(s, k, None); }
    case Reap(k, waitErr) =>
      if k < |s.sessions| { ReapKeepsSafe(s, k, waitErr); }
  }

  lemma {:induction false} AlwaysSafe(events: seq<Event>, n: nat)
    requires n <= |events|
    ensures Safe(RunAll(events, n))
  {
    if n > 0 {
      AlwaysSafe(events, n - 1);
      StepKeepsSafe(RunAll(events, n - 1), events[n - 1]);
    }
  }

  /** At most one shell may run at any time, and none when the next one is about to be started. */
  lemma {:induction false} OneLiveSession(events: seq<Event>, n: nat, k: nat, l: nat)
    requires n <= |events| && Live(RunAll(events, n), k)
    ensures !RunAll(events, n).handler.Starting?
    ensures Live(RunAll(events, n), l) ==> l == k
  {
    AlwaysSafe(events, n);
    var s := RunAll(events, n);
    assert Held(s, k);
    if Live(s, l) { assert Held(s, l); }
  }

  lemma {:induction false} StaysStopped(events: seq<Event>, m: nat, n: nat)
    requires m <= n <= |events| && RunAll(events, m).slot.stopped
    ensures RunAll(events, n).slot.stopped
    decreases n - m
  {
    if m < n { StaysStopped(events, m, n - 1); }
  }

  /** Once closed, nothing becomes active again. */
  lemma {:induction false} NothingAfterClose(events: seq<Event>, m: nat, n: nat)
    requires m < n <= |events| && events[m].CloseManager?
    ensures RunAll(events, n).slot.active.None?
  {
    StaysStopped(events, m + 1, n);
    AlwaysSafe(events, n);
  }

  /** The active session is given up only to a request, to the manager's end, or by its own reaper: the late
    * exit of a session that was replaced leaves its successor alone. */
  lemma {:induction false} ActiveLostOnlyBy(s: State, ev: Event, j: nat)
    requires Safe(s) && s.slot.active == Some(j) && Step(s, ev).slot.active != Some(j)
    ensures ev.CloseManager? || ev.OpenRequest? || (ev.CloseRequest? && ev.id == s.sessions[j].id) || (ev.Reap? && ev.k == j)
  {
  }

  // ---- an open request ----

  predicate KnownMode(mode: string) { mode in {"", "pty", "ssh"} }

  /** Zero stands for the default, anything else is from 1 to 1000. */
  predicate SizeOk(n: int) { n == 0 || 1 <= n <= 1000 }

  predicate SizeIs(size: (int, int), q: Request) {
    size == (if q.cols == 0 then 80 else q.cols, if q.rows == 0 then 24 else q.rows)
  }

  /** The handling goroutine runs on for n steps, nothing else happening in between. */
  function HandledOn(s: State, startable: bool, n: nat): State
    decreases n
  {
    if n == 0 then s else HandledOn(Handled(s, startable), startable, n - 1)
  }

  /** Once the way is free, the request decides: its mode and its size, then whether the manager was closed. */
  lemma {:induction false} DecidesBy(s: State, q: Request)
    requires s.handler == Deciding(q)
    ensures var t := Handled(s, true);
            if !KnownMode(q.mode) then t == s.(handler := Idle, frames := s.frames + [Frame(q.id, "terminal_unsupported_mode", None)])
            else if !SizeOk(q.cols) || !SizeOk(q.rows) then
              t == s.(handler := Idle, frames := s.frames + [Frame(q.id, "terminal_invalid_size", None)])
            else if s.slot.stopped then t == s.(handler := Idle)
            else t.handler.Starting? && t.handler.q == q && SizeIs(t.handler.size, q) && t == s.(handler := t.handler)
  {
  }

  lemma {:induction false} StartsFrom(s: State, q: Request)
    requires s.handler == Deciding(q) && !s.slot.stopped && KnownMode(q.mode) && SizeOk(q.cols) && SizeOk(q.rows)
    ensures var t, k := HandledOn(s, true, 4), |s.sessions|;
            && t.handler.Idle? && t.slot.active == Some(k) && |t.sessions| == k + 1 && t.frames == s.frames
            && t.sessions[k].id == q.id && SizeIs(t.sessions[k].size, q) && t.sessions[k].run.Reading? && !t.sessions[k].killed
            && t.sessions[..k] == s.sessions
  {
    DecidesBy(s, q);
    var s1 := Handled(s, true);
    var s2 := Handled(s1, true);
    var s3 := Handled(s2, true);
    HandledOnStep(s, true, 4);
    HandledOnStep(s1, true, 3);
    HandledOnStep(s2, true, 2);
    HandledOnStep(s3, true, 1);
  }

  lemma {:induction false} HandledOnStep(s: State, startable: bool, n: nat)
    requires n > 0
    ensures HandledOn(s, startable, n) == HandledOn(Handled(s, startable), startable, n - 1)
    ensures HandledOn(s, startable, 0) == s
  {
  }

  /** An open request with a mode and a size that will do, to an idle manager that was not closed, ends with its shell
    * running as the active session; the one that was active before has been asked to stop and killed. */
  lemma {:induction false} OpenStarts(s: State, q: Request)
    requires Safe(s) && s.handler.Idle? && !s.slot.stopped && q.id != ""
    requires KnownMode(q.mode) && SizeOk(q.cols) && SizeOk(q.rows)
    ensures var t, k := HandledOn(Step(s, OpenRequest(q)), true, if s.slot.active.Some? then 6 else 4), |s.sessions|;
            && t.handler.Idle? && t.slot.active == Some(k) && |t.sessions| == k + 1
            && t.sessions[k].id == q.id && SizeIs(t.sessions[k].size, q) && t.sessions[k].run.Reading? && !t.sessions[k].killed
            && (s.slot.active.Some? ==>
                  var was := s.slot.active.value;
                  && was < k && t.sessions[was].killed
                  && t.sessions[was].asked == s.sessions[was].asked + ["replaced by new terminal"])
  {
    var s0 := Step(s, OpenRequest(q));
    if s.slot.active.Some? {
      var s1 := Handled(s0, true);
      var s2 := Handled(s1, true);
      HandledOnStep(s0, true, 6);
      HandledOnStep(s1, true, 5);
      var was := s.slot.active.value;
      assert s2.sessions[was].killed;
      StartsFrom(s2, q);
      assert HandledOn(s2, true, 4).sessions[..|s.sessions|][was] == s2.sessions[was];
    } else {
      StartsFrom(s0, q);
    }
  }

  /** A shell that cannot be started is reported; one that was started when the manager had been closed meanwhile is
    * stopped at once. */
  lemma {:induction false} StartRefused(s: State, q: Request, size: (int, int))
    requires s.handler == Starting(q, size)
    ensures Handled(s, false) == s.(handler := Idle, frames := s.frames + [Frame(q.id, "terminal_start_failed", None)])
  {
  }

  lemma {:induction false} PublishRefused(s: State, k: nat)
    requires s.handler == Publishing(k) && s.slot.stopped && k < |s.sessions|
    ensures var t := HandledOn(s, true, 3);
            && t.handler.Idle? && t.slot == s.slot && t.sessions[..k] == s.sessions[..k] && |t.sessions| == |s.sessions|
            && t.sessions[k].killed && t.sessions[k].asked == s.sessions[k].asked + ["agent session stopped"]
  {
    var s1 := Handled(s, true);
    var s2 := Handled(s1, true);
    HandledOnStep(s, true, 3);
    HandledOnStep(s1, true, 2);
    HandledOnStep(s2, true, 1);
  }

  /** A request to close the active session asks it to stop, with the reason given, and kills it; any other id does
    * nothing. */
  lemma {:induction false} CloseRequestStops(s: State, id: string, reason: string)
    requires Safe(s) && s.handler.Idle?
    ensures var t := HandledOn(Step(s, CloseRequest(id, reason)), true, 2);
            if id != "" && s.slot.active.Some? && s.sessions[s.slot.active.value].id == id then
              var k := s.slot.active.value;
              && t.handler.Idle? && t.slot.active.None? && |t.sessions| == |s.sessions|
              && t.sessions[k].killed && t.sessions[k].asked == s.sessions[k].asked + [reason]
            else t == s
  {
    var s0 := Step(s, CloseRequest(id, reason));
    HandledOnStep(s0, true, 2);
    HandledOnStep(Handled(s0, true), true, 1);
  }

  /** Closing the manager asks the active session to stop, with the reason given, and kills it. */
  lemma {:induction false} CloseManagerStops(s: State, reason: string)
    requires Safe(s) && s.slot.active.Some?
    ensures var t, k := Step(Step(Step(s, CloseManager(reason)), Close(0)), Close(0)), s.slot.active.value;
            && t.slot == Slot(None, true) && t.closers == [Over] && |t.sessions| == |s.sessions|
            && t.sessions[k].killed && t.sessions[k].asked == s.sessions[k].asked + [reason]
  {
    assert s.closers == [];
  }

  // ---- closed frames ----

  function FramesFor(fs: seq<Frame>, n: nat, k: nat): nat
    requires n <= |fs|
  {
    if n == 0 then 0 else FramesFor(fs, n - 1, k) + if fs[n - 1].session == Some(k) then 1 else 0
  }

  lemma {:induction false} FramesAppend(fs: seq<Frame>, f: Frame, n: nat, k: nat)
    requires n <= |fs|
    ensures FramesFor(fs + [f], n, k) == FramesFor(fs, n, k)
  {
    if n > 0 { FramesAppend(fs, f, n - 1, k); }
  }

  predicate Counted(s: State, k: nat) {
    FramesFor(s.frames, |s.frames|, k) == if k < |s.sessions| && s.sessions[k].run.Ended? then 1 else 0
  }

  lemma FrameAdds(s: State, f: Frame, k: nat)
    ensures FramesFor(s.frames + [f], |s.frames| + 1, k) ==
            FramesFor(s.frames, |s.frames|, k) + if f.session == Some(k) then 1 else 0
  {
    FramesAppend(s.frames, f, |s.frames|, k);
  }

  lemma HandleKeepsCounted(s: State, startable: bool, k: nat)
    requires Safe(s) && Counted(s, k)
    ensures Counted(Handled(s, startable), k)
  {
    var t := Handled(s, startable);
    if |t.frames| > |s.frames| { FrameAdds(s, t.frames[|s.frames|], k); }
  }

  lemma ReapKeepsCounted(s: State, j: nat, waitErr: Option<string>, k: nat)
    requires Counted(s, k) && j < |s.sessions|
    ensures Counted(Reaped(s, j, waitErr), k)
  {
    var t := Reaped(s, j, waitErr);
    if |t.frames| > |s.frames| { FrameAdds(s, t.frames[|s.frames|], k); }
  }

  lemma StepKeepsCounted(s: State, ev: Event, k: nat)
    requires Safe(s) && Counted(s, k)
    ensures Counted(Step(s, ev), k)
  {
    match ev
    case Handle(startable) => HandleKeepsCounted(s, startable, k);
    case Reap(j, waitErr) =>
      if j < |s.sessions| { ReapKeepsCounted(s, j, waitErr, k); }
    case _ =>
  }

  /** A session reports its end exactly once, as the last thing it does. */
  lemma {:induction false} OneClosedFrame(events: seq<Event>, n: nat, k: nat)
    requires n <= |events|
    ensures Counted(RunAll(events, n), k)
  {
    if n > 0 {
      OneClosedFrame(events, n - 1, k);
      AlwaysSafe(events, n - 1);
      StepKeepsCounted(RunAll(events, n - 1), events[n - 1], k);
    }
  }

  // ---- the reason given ----

  function First(asked: seq<string>): string {
    if asked == [] then "" else if asked[0] != "" then asked[0] else First(asked[1..])
  }

  lemma {:induction false} FirstAppend(asked: seq<string>, reason: string)
    ensures First(asked + [reason]) == if First(asked) == "" then reason else First(asked)
    decreases |asked|
  {
    if asked == [] {
      assert [reason][1..] == [];
    } else {
      assert (asked + [reason])[1..] == asked[1..] + [reason];
      FirstAppend(asked[1..], reason);
    }
  }

  /** The first reason requested before the session looked, else its own. */
  function Carried(t: Session): string
    requires t.heard <= |t.asked|
  {
    if First(t.asked[..t.heard]) != "" then First(t.asked[..t.heard]) else t.exit
  }

  predicate Truthful(t: Session) {
    && t.heard <= |t.asked| && t.reason == First(t.asked)
    && (t.run.Reasoned? || t.run.Cleared? ==> t.run.reason == Carried(t))
    && (t.run.Reasoned? || t.run.Cleared? || t.run.Ended? ==> Carried(t) != "")
  }

  predicate TruthfulFrame(s: State, f: Frame) {
    f.session.Some? ==>
      && f.session.value < |s.sessions| && s.sessions[f.session.value].run.Ended?
      && f.id == s.sessions[f.session.value].id
      && s.sessions[f.session.value].heard <= |s.sessions[f.session.value].asked|
      && f.reason == Carried(s.sessions[f.session.value])
  }

  lemma AskKeepsTruthful(t: Session, reason: string)
    requires Truthful(t)
    ensures var u := t.(reason := Terminal.Kept(t.reason, reason), asked := t.asked + [reason]);
            Truthful(u) && Carried(u) == Carried(t)
  {
    FirstAppend(t.asked, reason);
    assert (t.asked + [reason])[..t.heard] == t.asked[..t.heard];
  }

  ghost predicate AllTruthful(s: State) {
    && (forall k :: 0 <= k < |s.sessions| ==> Truthful(s.sessions[k]))
    && (forall i :: 0 <= i < |s.frames| ==> TruthfulFrame(s, s.frames[i]))
  }

  /** The later session is the earlier one, with the same reason to give. */
  predicate SameReason(t: Session, u: Session) {
    Progressed(t, u) && Carried(u) == Carried(t)
  }

  /** The later session is the earlier one; once its end is reported, the reason stays. */
  predicate Progressed(t: Session, u: Session) {
    Truthful(t) && Truthful(u) && u.id == t.id && (t.run.Ended? ==> u.run.Ended? && Carried(u) == Carried(t))
  }

  lemma {:induction false} FramesStayTruthful(s: State, t: State)
    requires AllTruthful(s) && |s.sessions| <= |t.sessions| && |s.frames| <= |t.frames| <= |s.frames| + 1
    requires forall k :: 0 <= k < |s.sessions| ==> Progressed(s.sessions[k], t.sessions[k])
    requires forall k :: |s.sessions| <= k < |t.sessions| ==> Truthful(t.sessions[k])
    requires t.frames[..|s.frames|] == s.frames
    requires |t.frames| > |s.frames| ==> TruthfulFrame(t, t.frames[|s.frames|])
    ensures AllTruthful(t)
  {
  }

  lemma {:induction false} AskKeeps(s: State, k: nat, reason: string, j: nat)
    requires AllTruthful(s) && k < |s.sessions| && j < |s.sessions|
    ensures SameReason(s.sessions[j], Asked(s, k, reason).sessions[j])
  {
    AskKeepsTruthful(s.sessions[j], reason);
  }

  lemma {:induction false} HandleKeepsSession(s: State, startable: bool, k: nat)
    requires Safe(s) && AllTruthful(s) && k < |s.sessions|
    ensures |Handled(s, startable).sessions| >= |s.sessions| && SameReason(s.sessions[k], Handled(s, startable).sessions[k])
  {
    if s.handler.Asking? { AskKeeps(s, s.handler.k, s.handler.reason, k); }
  }

  lemma {:induction false} CloseKeepsSession(s: State, i: nat, k: nat)
    requires Safe(s) && AllTruthful(s) && k < |s.sessions| && i < |s.closers|
    ensures |ClosedFurther(s, i).sessions| == |s.sessions| && SameReason(s.sessions[k], ClosedFurther(s, i).sessions[k])
  {
    if s.closers[i].ToAsk? { AskKeeps(s, s.closers[i].k, s.closers[i].reason, k); }
  }

  lemma {:induction false} LookIsTruthful(t: Session, waitErr: Option<string>)
    requires Truthful(t) && t.run.Exited?
    ensures var exit := ExitReason(waitErr);
            Truthful(t.(run := Reasoned(if t.reason != "" then t.reason else exit), heard := |t.asked|, exit := exit))
  {
    assert t.asked[..|t.asked|] == t.asked;
  }

  lemma {:induction false} ReapKeepsSession(s: State, j: nat, waitErr: Option<string>, k: nat)
    requires AllTruthful(s) && j < |s.sessions| && k < |s.sessions|
    ensures |Reaped(s, j, waitErr).sessions| == |s.sessions| && Progressed(s.sessions[k], Reaped(s, j, waitErr).sessions[k])
  {
    if s.sessions[j].run.Exited? { LookIsTruthful(s.sessions[j], waitErr); }
  }

  lemma {:induction false} StepKeepsSession(s: State, ev: Event, k: nat)
    requires Safe(s) && AllTruthful(s) && k < |s.sessions|
    ensures |Step(s, ev).sessions| >= |s.sessions| && Progressed(s.sessions[k], Step(s, ev).sessions[k])
  {
    match ev
    case Handle(startable) => HandleKeepsSession(s, startable, k);
    case Close(i) =>
      if i < |s.closers| { CloseKeepsSession(s, i, k); }
    case Reap(j, waitErr) =>
      if j < |s.sessions| { ReapKeepsSession(s, j, waitErr, k); }
    case _ =>
  }

  lemma {:induction false} NewSessionTruthful(s: State, ev: Event)
    requires Safe(s) && |Step(s, ev).sessions| > |s.sessions|
    ensures |Step(s, ev).sessions| == |s.sessions| + 1 && Truthful(Step(s, ev).sessions[|s.sessions|])
  {
  }

  lemma {:induction false} NewFrameTruthful(s: State, ev: Event)
    requires Safe(s) && AllTruthful(s) && |Step(s, ev).frames| > |s.frames|
    ensures |Step(s, ev).frames| == |s.frames| + 1 && TruthfulFrame(Step(s, ev), Step(s, ev).frames[|s.frames|])
  {
  }

  lemma {:induction false} FramesGrow(s: State, ev: Event)
    ensures |s.frames| <= |Step(s, ev).frames| <= |s.frames| + 1
    ensures Step(s, ev).frames[..|s.frames|] == s.frames
  {
  }

  lemma {:induction false} StepKeepsTruthful(s: State, ev: Event)
    requires Safe(s) && AllTruthful(s)
    ensures AllTruthful(Step(s, ev))
  {
    var t := Step(s, ev);
    FramesGrow(s, ev);
    if |t.frames| > |s.frames| { NewFrameTruthful(s, ev); }
    if |t.sessions| > |s.sessions| { NewSessionTruthful(s, ev); }
    assert |t.sessions| >= |s.sessions| by {
      if s.sessions != [] { StepKeepsSession(s, ev, 0); }
    }
    forall k | 0 <= k < |s.sessions| ensures Progressed(s.sessions[k], t.sessions[k]) {
      StepKeepsSession(s, ev, k);
    }
    FramesStayTruthful(s, t);
  }

  /** A session nobody asked to stop says that its shell exited, and with which error, if any; then it is out of sight and
    * has reported. */
  lemma {:induction false} ExitIsReported(s: State, k: nat, waitErr: Option<string>)
    requires k < |s.sessions| && s.sessions[k].run.Exited? && s.sessions[k].reason == ""
    ensures var t := Step(Step(Step(s, Reap(k, waitErr)), Reap(k, None)), Reap(k, None));
            && t.sessions[k].run.Ended? && t.slot.active != Some(k)
            && t.frames == s.frames + [Frame(s.sessions[k].id, match waitErr
                                             case None => "terminal_exited"
                                             case Some(e) => "terminal_exited: " + e, Some(k))]
  {
  }

  /** After n events every session and every frame tells the truth. */
  ghost predicate TruthfulAfter(events: seq<Event>, n: nat)
    requires n <= |events|
  {
    AllTruthful(RunAll(events, n))
  }

  lemma {:induction false} StaysTruthful(events: seq<Event>, n: nat)
    requires 0 < n <= |events| && TruthfulAfter(events, n - 1)
    ensures TruthfulAfter(events, n)
  {
    AlwaysSafe(events, n - 1);
    StepKeepsTruthful(RunAll(events, n - 1), events[n - 1]);
  }

  /** A closed frame of a session names it, and carries the first reason anyone requested before the session
    * looked, or how its shell exited. */
  lemma {:induction false} ReasonIsFirstRequested(events: seq<Event>, n: nat)
    requires n <= |events|
    ensures TruthfulAfter(events, n)
  {
    if n > 0 {
      ReasonIsFirstRequested(events, n - 1);
      StaysTruthful(events, n);
    }
  }
}
