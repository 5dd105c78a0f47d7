/** When an attempt starts: never before the second the plan allows, nor before the wait after a failure is over, and
  * always once both are past.
  */
module UpdateTiming {
  import opened Wrappers
  import opened SelfUpdate
  import opened UpdateProtocol
  import AU = AgentUpdate

  /** The agent's bookkeeping is about this very plan. */
  predicate SamePlan(st: State, target: string, after: int) {
    st.target == target && (st.anchor == 0 || st.anchor == after)
  }

  /** The second up to which failures of this plan make the agent wait. */
  function RetryAt(st: State, target: string, after: int): int {
    if SamePlan(st, target, after) then st.nextRetry else 0
  }

  /** A plan that the agent can carry out: not its own build, and with budget left. */
  predicate Doable(a: Agent, bin: Binary, target: string, after: int, supported: bool) {
    && target != "" && target != bin.version && bin.located && supported
    && (SamePlan(a.mem, target, after) ==> a.mem.terminal < TERMINAL_LIMIT)
  }

  /** An idle agent starts exactly the plans it can carry out whose second has come and whose wait is over. */
  lemma {:induction false} StartsIff(a: Agent, bin: Binary, target: string, after: int, now: int, supported: bool)
    requires a.attempt.None?
    ensures var b := Consider(a, bin, target, after, now, supported);
            && (b.attempt.Some? <==>
                  Doable(a, bin, target, after, supported) && now >= after && now >= RetryAt(a.mem, target, after))
            && (b.attempt.Some? ==> b.attempt.value == target && b.timer == a.timer)
  {
  }

  /** Too early, it sets a timer for the second it waits for: the end of the wait first, then the plan's second. */
  lemma {:induction false} WaitsUntil(a: Agent, bin: Binary, target: string, after: int, now: int, supported: bool)
    requires a.attempt.None? && Doable(a, bin, target, after, supported)
    requires now < after || now < RetryAt(a.mem, target, after)
    ensures var b, retry := Consider(a, bin, target, after, now, supported), RetryAt(a.mem, target, after);
            && b.attempt.None? && b.timer == Some(Timer(target, after, if now < retry then retry else after))
            && RetryAt(b.mem, target, after) == retry && Doable(b, bin, target, after, supported)
  {
  }

  // ---- over runs ----

  /** The plan that a step makes the agent consider, with the time and whether updates are supported then. */
  datatype Heard = Nothing | Plan(target: string, after: int, now: int, supported: bool)

  function HeardAt(s: System, cfg: Setting, e: Event): Heard {
    match e
    case Handshake(serverNow, now, supported) =>
      var offer := AU.Target(s.row, cfg.server, true, serverNow).1;
      if offer.Offered? then Plan(offer.target, offer.after, now, supported) else Nothing
    case TimerFires(now, supported) =>
      if s.agent.timer.Some? then Plan(s.agent.timer.value.target, s.agent.timer.value.after, now, supported) else Nothing
    case _ => Nothing
  }

  predicate Starts(s: System, cfg: Setting, e: Event) {
    s.agent.attempt.None? && Step(s, cfg, e).agent.attempt.Some?
  }

  /** In any state whatsoever, a step starts an attempt exactly when it offers the idle agent, by a handshake or by a
    * timer, a plan that it can carry out, whose second has come and whose wait is over. */
  lemma {:induction false} StepStartsIff(s: System, cfg: Setting, e: Event)
    ensures var h := HeardAt(s, cfg, e);
            Starts(s, cfg, e) <==>
              && s.agent.attempt.None? && h.Plan? && Doable(s.agent, cfg.bin, h.target, h.after, h.supported)
              && h.now >= h.after && h.now >= RetryAt(s.agent.mem, h.target, h.after)
  {
    var h := HeardAt(s, cfg, e);
    if s.agent.attempt.None? && h.Plan? {
      StartsIff(s.agent.(timer := if e.TimerFires? then None else s.agent.timer), cfg.bin, h.target, h.after, h.now, h.supported);
    }
  }

  /** While the server keeps offering its build, no attempt starts before the second that it offers. */
  lemma {:induction false} NeverEarly(s: System, cfg: Setting, es: seq<Event>, e: Event)
    requires Inv(s, cfg) && Quiet(es + [e]) && Starts(Run(s, cfg, es), cfg, e)
    ensures (e.Handshake? || e.TimerFires?) && e.agentNow >= TheAfter(s, cfg)
  {
    var t := Run(s, cfg, es);
    assert Quiet(es) by { assert forall i :: 0 <= i < |es| ==> (es + [e])[i] == es[i]; }
    CircuitBreaker(s, cfg, es);
    StepStartsIff(t, cfg, e);
  }

  // ---- the wait after a failure ----

  /** An idle agent that waits on the current plan, by memory and by file. */
  ghost predicate Resting(s: System, cfg: Setting, until: int) {
    var target, after := TheTarget(cfg), TheAfter(s, cfg);
    && Inv(s, cfg) && s.agent.attempt.None?
    && SamePlan(s.agent.mem, target, after) && s.agent.mem.nextRetry == until
    && SamePlan(s.agent.disk, target, after) && s.agent.disk.nextRetry == until
  }

  lemma {:induction false} StepRests(s: System, cfg: Setting, e: Event, until: int)
    requires Resting(s, cfg, until) && !e.Retry? && !e.Unoffered?
    ensures TheAfter(Step(s, cfg, e), cfg) == TheAfter(s, cfg)
    ensures Starts(s, cfg, e) ==> (e.Handshake? || e.TimerFires?) && e.agentNow >= until && e.agentNow >= TheAfter(s, cfg)
    ensures !Starts(s, cfg, e) ==> Resting(Step(s, cfg, e), cfg, until)
  {
    StepKeepsInv(s, cfg, e);
    StepStartsIff(s, cfg, e);
  }

  /** No attempt starts in the run. */
  predicate Quietens(s: System, cfg: Setting, es: seq<Event>)
    decreases |es|
  {
    es == [] || (!Starts(s, cfg, es[0]) && Quietens(Step(s, cfg, es[0]), cfg, es[1..]))
  }

  lemma {:induction false} RunRests(s: System, cfg: Setting, es: seq<Event>, until: int)
    requires Resting(s, cfg, until) && Quiet(es) && Quietens(s, cfg, es)
    ensures Resting(Run(s, cfg, es), cfg, until) && TheAfter(Run(s, cfg, es), cfg) == TheAfter(s, cfg)
    decreases |es|
  {
    if es != [] {
      StepRests(s, cfg, es[0], until);
      RunRests(Step(s, cfg, es[0]), cfg, es[1..], until);
    }
  }

  /** Seconds to wait after the given number of transient failures in a row. */
  function Pause(streak: nat): int
    requires streak >= 1
  {
    if 60 * Pow2(streak - 1) < 3600 then 60 * Pow2(streak - 1) else 3600
  }

  lemma TransientRests(s: System, cfg: Setting, error: string, now: int)
    requires Inv(s, cfg) && s.agent.attempt.Some? && s.agent.mem.target == TheTarget(cfg)
    ensures var t := Step(s, cfg, Fails(Transient, error, now));
            Resting(t, cfg, now + Pause(s.agent.mem.streak + 1)) && TheAfter(t, cfg) == TheAfter(s, cfg)
  {
    StepKeepsInv(s, cfg, Fails(Transient, error, now));
    BackoffIsCappedDoubling(s.agent.mem.streak + 1);
  }

  /** A terminal failure leaves no wait. */
  lemma {:induction false} TerminalRests(s: System, cfg: Setting, error: string, now: int)
    requires Inv(s, cfg) && s.agent.attempt.Some?
    ensures Resting(Step(s, cfg, Fails(Terminal, error, now)), cfg, 0)
  {
    StepKeepsInv(s, cfg, Fails(Terminal, error, now));
  }

  /** After a transient failure the next attempt comes no sooner than a minute later, doubled with each further failure
    * up to an hour, whatever handshakes, timers and restarts of either side lie in between. */
  lemma {:induction false} BackoffIsKept(s: System, cfg: Setting, error: string, now: int, es: seq<Event>, e: Event)
    requires Inv(s, cfg) && s.agent.attempt.Some? && s.agent.mem.target == TheTarget(cfg)
    requires Quiet(es) && !e.Retry? && !e.Unoffered?
    requires var t := Step(s, cfg, Fails(Transient, error, now)); Quietens(t, cfg, es) && Starts(Run(t, cfg, es), cfg, e)
    ensures (e.Handshake? || e.TimerFires?) && e.agentNow >= now + Pause(s.agent.mem.streak + 1) && e.agentNow >= TheAfter(s, cfg)
  {
    var t, until := Step(s, cfg, Fails(Transient, error, now)), now + Pause(s.agent.mem.streak + 1);
    TransientRests(s, cfg, error, now);
    RunRests(t, cfg, es, until);
    StepRests(Run(t, cfg, es), cfg, e, until);
  }

  // ---- and it does start ----

  /** An idle agent that hears a plan it can carry out attempts it in the end: at once, or when the timer it sets
    * fires on its second, or when that timer's own timer does. */
  lemma {:induction false} StartsInTheEnd(s: System, cfg: Setting, serverNow: int, now: int) returns (es: seq<Event>)
    requires Inv(s, cfg) && s.agent.attempt.None? && Doable(s.agent, cfg.bin, TheTarget(cfg), TheAfter(s, cfg), true)
    ensures 1 <= |es| <= 3 && es[0] == Handshake(serverNow, now, true)
    ensures forall k :: 1 <= k < |es| ==>
              var t := Run(s, cfg, es[..k]);
              t.agent.attempt.None? && t.agent.timer.Some? && es[k] == TimerFires(t.agent.timer.value.due, true)
    ensures Run(s, cfg, es).agent.attempt == Some(TheTarget(cfg))
  {
    var target, after := TheTarget(cfg), TheAfter(s, cfg);
    var shake := Handshake(serverNow, now, true);
    var s1 := Step(s, cfg, shake);
    RowUnmoved(s, cfg, serverNow);
    StartsIff(s.agent, cfg.bin, target, after, now, true);
    RunOne(s, cfg, shake);
    es := [shake];
    if s1.agent.attempt.None? {
      WaitsUntil(s.agent, cfg.bin, target, after, now, true);
      var due := s1.agent.timer.value.due;
      var fires := TimerFires(due, true);
      var a1 := s1.agent.(timer := None);
      var s2 := Step(s1, cfg, fires);
      StartsIff(a1, cfg.bin, target, after, due, true);
      es := [shake, fires];
      assert es[..1] == [shake];
      RunTwo(s, cfg, shake, fires);
      if s2.agent.attempt.None? {
        WaitsUntil(a1, cfg.bin, target, after, due, true);
        var last := TimerFires(s2.agent.timer.value.due, true);
        StartsIff(s2.agent.(timer := None), cfg.bin, target, after, s2.agent.timer.value.due, true);
        RunAppend(s, cfg, es, [last]);
        RunOne(s2, cfg, last);
        es := [shake, fires, last];
        assert es == [shake, fires] + [last] && es[..1] == [shake] && es[..2] == [shake, fires];
      }
    }
  }
}
