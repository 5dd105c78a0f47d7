/** Server and agent together: the circuit breaker over whole runs. */
module UpdateProtocol {
  import opened Wrappers
  import opened SelfUpdate
  import AU = AgentUpdate

  /** Fixed for the whole run: the agent's build, the build the server offers, the node's slot. */
  datatype Setting = Setting(bin: Binary, server: AU.Server)

  datatype System = System(agent: Agent, row: AU.Row, failures: nat)

  /** One step. Times and the environment's answers are arbitrary. */
  datatype Event =
    | Handshake(serverNow: int, agentNow: int, supported: bool)
    | SelfCheck(serverNow: int)
    | Unoffered(serverNow: int, agentNow: int, supported: bool)
    | TimerFires(agentNow: int, supported: bool)
    | Fails(kind: Class, error: string, agentNow: int)
    | AgentRestart
    | ServerRestart
    | Delivered(index: nat, serverNow: int)
    | Retry

  function Take(a: Agent, cfg: Setting, offer: AU.Offer, now: int, supported: bool): Agent {
    match offer
    case NoOffer => Consider(a, cfg.bin, "", 0, now, supported)
    case Offered(target, after) => Consider(a, cfg.bin, target, after, now, supported)
  }

  /** A handshake answers first, with what the row says, and then records the build and asks again. */
  function Shake(s: System, cfg: Setting, offering: bool, serverNow: int, agentNow: int, supported: bool): System {
    var (row, offer) := AU.Target(s.row, cfg.server, offering, serverNow);
    var reconciled := AU.Target(row.(version := cfg.bin.version), cfg.server, offering, serverNow).0;
    s.(row := reconciled, agent := Take(s.agent, cfg, offer, agentNow, supported))
  }

  function Step(s: System, cfg: Setting, e: Event): System {
    match e
    case Handshake(serverNow, agentNow, supported) => Shake(s, cfg, true, serverNow, agentNow, supported)
    case SelfCheck(serverNow) => s.(row := AU.Target(s.row, cfg.server, true, serverNow).0)
    case Unoffered(serverNow, agentNow, supported) => Shake(s, cfg, false, serverNow, agentNow, supported)
    case TimerFires(now, supported) =>
      if s.agent.timer.None? then s
      else
        var Timer(target, after, _) := s.agent.timer.value;
        s.(agent := Consider(s.agent.(timer := None), cfg.bin, target, after, now, supported))
    case Fails(kind, error, now) =>
      if s.agent.attempt.None? then s
      else
        s.(agent := AttemptFails(s.agent, kind, error, now),
           failures := s.failures + if kind.Terminal? && s.agent.attempt == Some(cfg.server.version) then 1 else 0)
    case AgentRestart => s.(agent := Restart(s.agent))
    case ServerRestart => s
    case Delivered(i, now) =>
      if i < |s.agent.sent| then s.(row := AU.OnReport(s.row, s.agent.sent[i], now)) else s
    case Retry => s.(row := AU.Clear(s.row))
  }

  function Run(s: System, cfg: Setting, es: seq<Event>): System
    decreases |es|
  {
    if es == [] then s else Run(Step(s, cfg, es[0]), cfg, es[1..])
  }

  /** The server keeps offering its build and no operator intervenes. */
  predicate Quiet(es: seq<Event>) {
    forall i :: 0 <= i < |es| ==> !es[i].Retry? && !es[i].Unoffered?
  }

  // ---- what a plan is worth ----

  function TheTarget(cfg: Setting): string { cfg.server.version }

  /** The start second of the current plan: what every handshake hands out. */
  function TheAfter(s: System, cfg: Setting): int { AU.AfterOf(s.row.plannedAt, cfg.server.offset) }

  /** The terminal failures that count against the plan (target, after). */
  function Spent(st: State, target: string, after: int): nat {
    if st.target == target && (st.anchor == 0 || st.anchor == after) then st.terminal else 0
  }

  /** Receiving the current plan never clears the budget: reanchoring keeps what was spent on it. */
  lemma {:induction false} ReanchorKeepsSpent(st: State, target: string, after: int)
    ensures Spent(Reanchor(st, target, after), target, after) == Spent(st, target, after)
    ensures Reanchor(st, target, after).target == target
    ensures Reanchor(st, target, after).anchor == 0 || Reanchor(st, target, after).anchor == after
    ensures Reanchor(st, target, after).terminal == Spent(st, target, after)
  {
  }

  /** An exhausted agent answers a plan for the same target with "suppressed" exactly when the plan is
    * the one it exhausted: only a moved anchor unlocks it. */
  lemma {:induction false} SuppressedIffSamePlan(st: State, version: string, target: string, after: int, now: int)
    requires st.target == target && st.terminal >= TERMINAL_LIMIT && st.anchor != 0
    requires target != "" && target != version
    ensures Decide(true, version, target, after, now, Reanchor(st, target, after)).Suppress? <==> after == st.anchor
  {
  }

  // ---- the invariant ----

  predicate Sane(cfg: Setting) {
    TheTarget(cfg) != "" && cfg.bin.version != "" && cfg.bin.version != TheTarget(cfg)
  }

  ghost predicate TimerHarmless(s: System, cfg: Setting) {
    s.agent.timer.Some? ==> s.agent.timer.value.target == TheTarget(cfg) && s.agent.timer.value.after == TheAfter(s, cfg)
  }

  ghost predicate ReportsHarmless(s: System, cfg: Setting) {
    forall i :: 0 <= i < |s.agent.sent| ==> s.agent.sent[i].target == "" || s.agent.sent[i].target == TheTarget(cfg)
  }

  /** File and memory agree on what was spent on the current plan. */
  ghost predicate MemoryHarmless(s: System, cfg: Setting) {
    Spent(s.agent.mem, TheTarget(cfg), TheAfter(s, cfg)) == Spent(s.agent.disk, TheTarget(cfg), TheAfter(s, cfg))
  }

  /** The plan is anchored, and counted alike in file and memory. */
  ghost predicate Settled(s: System, cfg: Setting) {
    Sane(cfg) && AU.Planned(s.row, TheTarget(cfg)) && MemoryHarmless(s, cfg)
  }

  /** A running attempt is for the current target, and its failure will count against the current plan. */
  ghost predicate AttemptHarmless(s: System, cfg: Setting) {
    var target, after := TheTarget(cfg), TheAfter(s, cfg);
    s.agent.attempt.Some? ==>
      && s.agent.attempt.value == target
      && (s.agent.mem.target == target ==>
            (s.agent.mem.anchor == 0 || s.agent.mem.anchor == after) && s.agent.mem.terminal < TERMINAL_LIMIT)
  }

  ghost predicate Inv(s: System, cfg: Setting) {
    Settled(s, cfg) && AttemptHarmless(s, cfg) && TimerHarmless(s, cfg) && ReportsHarmless(s, cfg)
  }

  function Used(s: System, cfg: Setting): nat { Spent(s.agent.disk, TheTarget(cfg), TheAfter(s, cfg)) }

  /** What one step may do: the plan stays, and every terminal failure is counted on disk, up to the limit. */
  ghost predicate Counts(s: System, t: System, cfg: Setting) {
    && t.row.plannedAt == s.row.plannedAt
    && t.failures - s.failures == Used(t, cfg) - Used(s, cfg) >= 0
    && (Used(t, cfg) == Used(s, cfg) || Used(t, cfg) <= TERMINAL_LIMIT)
  }

  lemma ConsiderKeepsInv(s: System, cfg: Setting, now: int, supported: bool, t: System)
    requires Inv(s, cfg)
    requires t == s.(agent := Consider(s.agent, cfg.bin, TheTarget(cfg), TheAfter(s, cfg), now, supported))
    ensures Inv(t, cfg) && Counts(s, t, cfg)
  {
    ReanchorKeepsSpent(s.agent.mem, TheTarget(cfg), TheAfter(s, cfg));
  }

  lemma FailKeepsInv(s: System, cfg: Setting, kind: Class, error: string, now: int, t: System)
    requires Inv(s, cfg) && t == Step(s, cfg, Fails(kind, error, now))
    ensures Inv(t, cfg) && Counts(s, t, cfg)
  {
  }

  lemma RowUnmoved(s: System, cfg: Setting, now: int)
    requires Inv(s, cfg)
    ensures AU.Target(s.row, cfg.server, true, now) == (s.row, AU.Offered(TheTarget(cfg), TheAfter(s, cfg)))
    ensures AU.Target(s.row.(version := cfg.bin.version), cfg.server, true, now).0 == s.row.(version := cfg.bin.version)
  {
  }

  lemma {:induction false} StepKeepsInv(s: System, cfg: Setting, e: Event)
    requires Inv(s, cfg) && !e.Retry? && !e.Unoffered?
    ensures Inv(Step(s, cfg, e), cfg) && Counts(s, Step(s, cfg, e), cfg)
  {
    match e
    case Handshake(serverNow, agentNow, supported) =>
      RowUnmoved(s, cfg, serverNow);
      var shaken := s.(row := s.row.(version := cfg.bin.version));
      ConsiderKeepsInv(shaken, cfg, agentNow, supported, Step(s, cfg, e));
    case SelfCheck(now) =>
      RowUnmoved(s, cfg, now);
    case TimerFires(now, supported) =>
      if s.agent.timer.Some? {
        ConsiderKeepsInv(s.(agent := s.agent.(timer := None)), cfg, now, supported, Step(s, cfg, e));
      }
    case Fails(kind, error, now) =>
      FailKeepsInv(s, cfg, kind, error, now, Step(s, cfg, e));
    case AgentRestart =>
    case ServerRestart =>
    case Delivered(i, now) =>
  }

  /** The circuit breaker: while the server keeps offering one target, every run keeps the plan, every
    * later handshake hands out the same start second, and at most three attempts in all fail for good,
    * whatever the interleaving of handshakes, timers, restarts of either side, lost, late or repeated
    * reports and transient failures. */
  lemma {:induction false} CircuitBreaker(s: System, cfg: Setting, es: seq<Event>)
    requires Inv(s, cfg) && Quiet(es)
    ensures var t := Run(s, cfg, es);
            && Inv(t, cfg) && Counts(s, t, cfg)
            && (Used(s, cfg) <= TERMINAL_LIMIT ==> t.failures - s.failures <= TERMINAL_LIMIT - Used(s, cfg))
            && forall now :: AU.Target(t.row, cfg.server, true, now).1 == AU.Offered(TheTarget(cfg), TheAfter(s, cfg))
    decreases |es|
  {
    if es != [] {
      var next := Step(s, cfg, es[0]);
      StepKeepsInv(s, cfg, es[0]);
      CircuitBreaker(next, cfg, es[1..]);
    }
  }

  /** Once the budget is used up no run of the same plan ever attempts again, and each time the agent
    * hears the plan it only reports that it gave up. */
  lemma {:induction false} ExhaustedStaysDown(s: System, cfg: Setting, es: seq<Event>, now: int)
    requires Inv(s, cfg) && Quiet(es) && Used(s, cfg) >= TERMINAL_LIMIT && cfg.bin.located
    ensures var t := Run(s, cfg, es);
            && t.failures == s.failures && t.agent.attempt.None?
            && Consider(t.agent, cfg.bin, TheTarget(cfg), TheAfter(s, cfg), now, true).sent
               == t.agent.sent + [Report(TheTarget(cfg), Suppressed, Some(Terminal), t.agent.mem.terminal, t.agent.mem.lastError)]
  {
    CircuitBreaker(s, cfg, es);
    ReanchorKeepsSpent(Run(s, cfg, es).agent.mem, TheTarget(cfg), TheAfter(s, cfg));
  }

  // ---- what every run keeps ----

  /** The file never counts less than the memory, whatever the plan; an attempt has a target, and is not made with
    * the budget used up. */
  ghost predicate Sound(a: Agent) {
    && (forall target, after :: Spent(a.mem, target, after) <= Spent(a.disk, target, after))
    && a.mem.terminal <= TERMINAL_LIMIT && a.disk.terminal <= TERMINAL_LIMIT
    && (a.attempt.Some? ==>
          a.attempt.value != "" && (a.mem.target == a.attempt.value ==> a.mem.terminal < TERMINAL_LIMIT))
  }

  lemma ConsiderKeepsSound(a: Agent, bin: Binary, target: string, after: int, now: int, supported: bool)
    requires Sound(a)
    ensures Sound(Consider(a, bin, target, after, now, supported))
  {
  }

  lemma StepKeepsSound(s: System, cfg: Setting, e: Event)
    requires Sound(s.agent)
    ensures Sound(Step(s, cfg, e).agent)
  {
    match e
    case Handshake(serverNow, agentNow, supported) => ShakeKeepsSound(s, cfg, true, serverNow, agentNow, supported);
    case Unoffered(serverNow, agentNow, supported) => ShakeKeepsSound(s, cfg, false, serverNow, agentNow, supported);
    case TimerFires(now, supported) =>
      if s.agent.timer.Some? {
        var Timer(target, after, _) := s.agent.timer.value;
        ConsiderKeepsSound(s.agent.(timer := None), cfg.bin, target, after, now, supported);
      }
    case _ =>
  }

  lemma ShakeKeepsSound(s: System, cfg: Setting, offering: bool, serverNow: int, agentNow: int, supported: bool)
    requires Sound(s.agent)
    ensures Sound(Shake(s, cfg, offering, serverNow, agentNow, supported).agent)
  {
    match AU.Target(s.row, cfg.server, offering, serverNow).1
    case NoOffer => ConsiderKeepsSound(s.agent, cfg.bin, "", 0, agentNow, supported);
    case Offered(target, after) => ConsiderKeepsSound(s.agent, cfg.bin, target, after, agentNow, supported);
  }

  lemma StartsSound(file: State, sent: seq<Report>)
    requires file.terminal <= TERMINAL_LIMIT
    ensures Sound(Agent(file, file, None, None, sent))
  {
  }

  /** From a start with any file that is within the budget, every run, quiet or not, keeps the agent sound. */
  lemma {:induction false} AlwaysSound(s: System, cfg: Setting, es: seq<Event>)
    requires Sound(s.agent)
    ensures Sound(Run(s, cfg, es).agent)
    decreases |es|
  {
    if es != [] {
      StepKeepsSound(s, cfg, es[0]);
      AlwaysSound(Step(s, cfg, es[0]), cfg, es[1..]);
    }
  }

  // ---- exactly when the breaker holds ----

  /** No quiet run fails for good more often than the budget still allows. */
  ghost predicate BreakerHolds(s: System, cfg: Setting) {
    forall es :: Quiet(es) ==> Run(s, cfg, es).failures - s.failures <= TERMINAL_LIMIT - Used(s, cfg)
  }

  /** A node that has a plan, and an agent that could carry it out. */
  ghost predicate Poised(s: System, cfg: Setting) {
    Sane(cfg) && AU.Planned(s.row, TheTarget(cfg)) && cfg.bin.located && TheAfter(s, cfg) != 0
  }

  /** The same between attempts, with file and memory in agreement. */
  ghost predicate Ready(s: System, cfg: Setting) {
    Poised(s, cfg) && Settled(s, cfg) && s.agent.attempt.None? && Used(s, cfg) <= TERMINAL_LIMIT
  }

  lemma {:induction false} RunAppend(s: System, cfg: Setting, a: seq<Event>, b: seq<Event>)
    ensures Run(s, cfg, a + b) == Run(Run(s, cfg, a), cfg, b)
    decreases |a|
  {
    if a == [] {
      assert a + b == b;
    } else {
      assert (a + b)[0] == a[0] && (a + b)[1..] == a[1..] + b;
      RunAppend(Step(s, cfg, a[0]), cfg, a[1..], b);
    }
  }

  lemma RunTwo(s: System, cfg: Setting, a: Event, b: Event)
    ensures Run(s, cfg, [a, b]) == Step(Step(s, cfg, a), cfg, b)
  {
    assert [a, b][1..] == [b];
    assert Run(Step(Step(s, cfg, a), cfg, b), cfg, [b][1..]) == Step(Step(s, cfg, a), cfg, b);
  }

  /** The timer and the frames already on their way are what they were. */
  ghost predicate Keeps(s: System, t: System) {
    t.agent.timer == s.agent.timer && s.agent.sent <= t.agent.sent && t.row.plannedAt == s.row.plannedAt
  }

  /** A time at which nothing makes the agent wait. */
  function LateEnough(st: State, after: int): int {
    if st.nextRetry > after then st.nextRetry else after
  }

  /** With budget left in memory, one more attempt can be started and fail for good. */
  lemma OneMoreFailure(s: System, cfg: Setting) returns (es: seq<Event>, t: System)
    requires Poised(s, cfg) && s.agent.attempt.None? && Spent(s.agent.mem, TheTarget(cfg), TheAfter(s, cfg)) < TERMINAL_LIMIT
    ensures Quiet(es) && t == Run(s, cfg, es) && Ready(t, cfg) && Keeps(s, t)
    ensures Used(t, cfg) == Spent(s.agent.mem, TheTarget(cfg), TheAfter(s, cfg)) + 1 && t.failures == s.failures + 1
  {
    var target, after := TheTarget(cfg), TheAfter(s, cfg);
    ReanchorKeepsSpent(s.agent.mem, target, after);
    var shake := Handshake(0, LateEnough(Reanchor(s.agent.mem, target, after), after), true);
    var fail := Fails(Terminal, "", 0);
    es := [shake, fail];
    RunTwo(s, cfg, shake, fail);
    t := Run(s, cfg, es);
  }

  lemma {:induction false} UseUp(s: System, cfg: Setting) returns (es: seq<Event>, t: System)
    requires Ready(s, cfg)
    ensures Quiet(es) && t == Run(s, cfg, es) && Ready(t, cfg) && Keeps(s, t)
    ensures Used(t, cfg) == TERMINAL_LIMIT && t.failures - s.failures == TERMINAL_LIMIT - Used(s, cfg)
    decreases TERMINAL_LIMIT - Used(s, cfg)
  {
    if Used(s, cfg) == TERMINAL_LIMIT {
      es, t := [], s;
    } else {
      var first, mid := OneMoreFailure(s, cfg);
      var rest, end := UseUp(mid, cfg);
      RunAppend(s, cfg, first, rest);
      es, t := first + rest, end;
    }
  }

  /** The budget can be used up completely, so three is the exact bound. */
  lemma {:induction false} BudgetIsExact(s: System, cfg: Setting)
    requires Ready(s, cfg)
    ensures exists es :: Quiet(es) && Run(s, cfg, es).failures - s.failures == TERMINAL_LIMIT - Used(s, cfg)
  {
    var es, t := UseUp(s, cfg);
  }

  /** An agent whose memory belongs to another target starts over on the current plan. */
  lemma StartOver(s: System, cfg: Setting) returns (es: seq<Event>)
    requires Sane(cfg) && AU.Planned(s.row, TheTarget(cfg)) && cfg.bin.located
    requires s.agent.attempt.None? && s.agent.mem.target != TheTarget(cfg)
    ensures Quiet(es) && Run(s, cfg, es).failures == s.failures + 1
  {
    var shake := Handshake(0, TheAfter(s, cfg), true);
    var fail := Fails(Terminal, "", 0);
    es := [shake, fail];
    RunTwo(s, cfg, shake, fail);
  }

  /** A stale timer for another target makes the agent forget what it spent. */
  lemma TimerForOtherTarget(s: System, cfg: Setting) returns (es: seq<Event>)
    requires Ready(s, cfg) && s.agent.mem.target == TheTarget(cfg)
    requires s.agent.timer.Some? && s.agent.timer.value.target != TheTarget(cfg)
    ensures Quiet(es) && Run(s, cfg, es).failures == s.failures + 1
  {
    var Timer(other, after, _) := s.agent.timer.value;
    var fires, gives := TimerFires(after, true), Fails(Transient, "", 0);
    RunTwo(s, cfg, fires, gives);
    var t := Run(s, cfg, [fires, gives]);
    assert t.agent.mem.target == other && t.agent.attempt.None? && t.failures == s.failures;
    var rest := StartOver(t, cfg);
    RunAppend(s, cfg, [fires, gives], rest);
    es := [fires, gives] + rest;
  }

  /** A stale timer for the same target with another start second does, too. */
  lemma TimerForOtherSecond(s: System, cfg: Setting) returns (es: seq<Event>)
    requires Ready(s, cfg) && s.agent.mem.target == TheTarget(cfg) && s.agent.mem.anchor == TheAfter(s, cfg)
    requires s.agent.timer.Some? && s.agent.timer.value.target == TheTarget(cfg)
    requires s.agent.timer.value.after != TheAfter(s, cfg)
    ensures Quiet(es) && Run(s, cfg, es).failures == s.failures + 1
  {
    var Timer(target, after, _) := s.agent.timer.value;
    var fires, fail := TimerFires(LateEnough(Fresh(target), after), true), Fails(Terminal, "", 0);
    es := [fires, fail];
    RunTwo(s, cfg, fires, fail);
  }

  /** A late report about another target moves the anchor at the next handshake. */
  lemma ReportForOtherTarget(s: System, cfg: Setting, i: nat) returns (es: seq<Event>)
    requires Ready(s, cfg) && s.agent.mem.target == TheTarget(cfg) && s.agent.mem.anchor == TheAfter(s, cfg)
    requires i < |s.agent.sent| && s.agent.sent[i].target != "" && s.agent.sent[i].target != TheTarget(cfg)
    ensures Quiet(es) && Run(s, cfg, es).failures == s.failures + 1
  {
    var current := TheAfter(s, cfg);
    var after := (if current > 0 then current else 0) + 1;
    var now := after - cfg.server.offset;
    var arrives, shake, fail := Delivered(i, 0), Handshake(now, after, true), Fails(Terminal, "", 0);
    var t := Step(s, cfg, arrives);
    assert t.row.target == s.agent.sent[i].target;
    assert AU.Target(t.row, cfg.server, true, now).1 == AU.Offered(TheTarget(cfg), after);
    RunTwo(t, cfg, shake, fail);
    assert [arrives, shake, fail][1..] == [shake, fail];
    es := [arrives, shake, fail];
  }

  /** A handshake with the exhausted agent leaves it knowing the current anchor. */
  lemma LearnAnchor(s: System, cfg: Setting) returns (es: seq<Event>, t: System)
    requires Ready(s, cfg) && Used(s, cfg) == TERMINAL_LIMIT
    ensures Quiet(es) && t == Run(s, cfg, es) && Ready(t, cfg) && Keeps(s, t) && t.failures == s.failures
    ensures t.agent.mem.target == TheTarget(cfg) && t.agent.mem.anchor == TheAfter(t, cfg)
  {
    ReanchorKeepsSpent(s.agent.mem, TheTarget(cfg), TheAfter(s, cfg));
    es := [Handshake(0, 0, true)];
    t := Step(s, cfg, es[0]);
    assert Run(t, cfg, es[1..]) == t;
  }

  lemma HarmBreaks(s: System, cfg: Setting)
    requires Ready(s, cfg) && !(TimerHarmless(s, cfg) && ReportsHarmless(s, cfg))
    ensures !BreakerHolds(s, cfg)
  {
    var e1, s1 := UseUp(s, cfg);
    var e2, s2 := LearnAnchor(s1, cfg);
    var e3;
    if !TimerHarmless(s, cfg) {
      if s.agent.timer.value.target != TheTarget(cfg) {
        e3 := TimerForOtherTarget(s2, cfg);
      } else {
        e3 := TimerForOtherSecond(s2, cfg);
      }
    } else {
      var i :| 0 <= i < |s.agent.sent| && !(s.agent.sent[i].target == "" || s.agent.sent[i].target == TheTarget(cfg));
      assert s2.agent.sent[i] == s.agent.sent[i];
      e3 := ReportForOtherTarget(s2, cfg, i);
    }
    RunAppend(s, cfg, e1, e2);
    RunAppend(s, cfg, e1 + e2, e3);
    assert Quiet(e1 + e2 + e3);
  }

  // A running attempt, or a memory that forgot.

  /** A step that makes the breaker fail, and does not itself use up more than it adds to the failures. */
  lemma BreaksAfter(s: System, cfg: Setting, es: seq<Event>, t: System)
    requires Quiet(es) && t == Run(s, cfg, es) && !BreakerHolds(t, cfg)
    requires t.failures - s.failures >= Used(t, cfg) - Used(s, cfg)
    ensures !BreakerHolds(s, cfg)
  {
    var more :| Quiet(more) && Run(t, cfg, more).failures - t.failures > TERMINAL_LIMIT - Used(t, cfg);
    RunAppend(s, cfg, es, more);
    assert Quiet(es + more);
  }

  /** Failures that were not counted come on top of the whole budget. */
  lemma Uncounted(s: System, cfg: Setting, es: seq<Event>, t: System)
    requires Quiet(es) && t == Run(s, cfg, es) && Ready(t, cfg)
    requires t.failures - s.failures > Used(t, cfg) - Used(s, cfg)
    ensures !BreakerHolds(s, cfg)
  {
    var more, end := UseUp(t, cfg);
    RunAppend(s, cfg, es, more);
    assert Quiet(es + more);
  }

  lemma RunOne(s: System, cfg: Setting, e: Event)
    ensures Run(s, cfg, [e]) == Step(s, cfg, e)
  {
    assert [e][1..] == [];
  }

  /** An attempt for the current target fails for good: with what it leaves, the agent is between attempts. */
  lemma AttemptForTarget(s: System, cfg: Setting) returns (t: System)
    requires Poised(s, cfg) && Sound(s.agent) && s.agent.attempt == Some(TheTarget(cfg))
    ensures t == Run(s, cfg, [Fails(Terminal, "", 0)]) && Ready(t, cfg) && Keeps(s, t) && t.failures == s.failures + 1
    ensures AttemptHarmless(s, cfg) ==> Used(t, cfg) == Spent(s.agent.mem, TheTarget(cfg), TheAfter(s, cfg)) + 1
    ensures !AttemptHarmless(s, cfg) ==> Used(t, cfg) == 0
  {
    RunOne(s, cfg, Fails(Terminal, "", 0));
    t := Step(s, cfg, Fails(Terminal, "", 0));
  }

  /** An attempt for another target fails: the agent has forgotten the plan, and a report about it is under way. */
  lemma AttemptForOther(s: System, cfg: Setting) returns (t: System)
    requires Poised(s, cfg) && Sound(s.agent) && s.agent.attempt.Some? && s.agent.attempt.value != TheTarget(cfg)
    ensures t == Run(s, cfg, [Fails(Transient, "", 0)]) && Ready(t, cfg) && t.failures == s.failures
    ensures Used(t, cfg) == 0 && !ReportsHarmless(t, cfg)
  {
    var e := Fails(Transient, "", 0);
    RunOne(s, cfg, e);
    t := Step(s, cfg, e);
    assert t.agent.sent[|s.agent.sent|].target == s.agent.attempt.value;
  }

  lemma AttemptBreaks(s: System, cfg: Setting)
    requires Poised(s, cfg) && Sound(s.agent) && s.agent.attempt.Some?
    requires !(MemoryHarmless(s, cfg) && AttemptHarmless(s, cfg) && TimerHarmless(s, cfg) && ReportsHarmless(s, cfg))
    ensures !BreakerHolds(s, cfg)
  {
    if s.agent.attempt.value != TheTarget(cfg) {
      var t := AttemptForOther(s, cfg);
      HarmBreaks(t, cfg);
      BreaksAfter(s, cfg, [Fails(Transient, "", 0)], t);
    } else {
      var t := AttemptForTarget(s, cfg);
      if MemoryHarmless(s, cfg) && AttemptHarmless(s, cfg) {
        HarmStays(s, cfg, t);
        HarmBreaks(t, cfg);
        BreaksAfter(s, cfg, [Fails(Terminal, "", 0)], t);
      } else {
        Uncounted(s, cfg, [Fails(Terminal, "", 0)], t);
      }
    }
  }

  lemma HarmStays(s: System, cfg: Setting, t: System)
    requires Keeps(s, t) && !(TimerHarmless(s, cfg) && ReportsHarmless(s, cfg))
    ensures !(TimerHarmless(t, cfg) && ReportsHarmless(t, cfg))
  {
    assert forall i :: 0 <= i < |s.agent.sent| ==> t.agent.sent[i] == s.agent.sent[i];
  }

  /** A memory that counts less than the file lets more attempts fail than the file allows. */
  lemma ForgottenBreaks(s: System, cfg: Setting)
    requires Poised(s, cfg) && Sound(s.agent) && s.agent.attempt.None? && !MemoryHarmless(s, cfg)
    ensures !BreakerHolds(s, cfg)
  {
    var es, t := OneMoreFailure(s, cfg);
    Uncounted(s, cfg, es, t);
  }

  /** On every state a run can reach: the breaker holds over all quiet runs exactly when memory and file agree on
    * what the plan has used up, a running attempt counts against the plan, no timer of another plan is pending, and
    * no report about another target is still on its way. */
  lemma {:induction false} BreakerExactly(s: System, cfg: Setting)
    requires Poised(s, cfg) && Sound(s.agent)
    ensures BreakerHolds(s, cfg) <==>
            MemoryHarmless(s, cfg) && AttemptHarmless(s, cfg) && TimerHarmless(s, cfg) && ReportsHarmless(s, cfg)
  {
    if MemoryHarmless(s, cfg) && AttemptHarmless(s, cfg) && TimerHarmless(s, cfg) && ReportsHarmless(s, cfg) {
      forall es | Quiet(es)
        ensures Run(s, cfg, es).failures - s.failures <= TERMINAL_LIMIT - Used(s, cfg)
      {
        CircuitBreaker(s, cfg, es);
      }
    } else if s.agent.attempt.Some? {
      AttemptBreaks(s, cfg);
    } else if !MemoryHarmless(s, cfg) {
      ForgottenBreaks(s, cfg);
    } else {
      HarmBreaks(s, cfg);
    }
  }

  /** A retry while an attempt runs: the attempt's own self-check plans anew, and the attempt no longer counts. */
  lemma {:induction false} RetryDuringAttempt(s: System, cfg: Setting, now: int)
    requires Poised(s, cfg) && Sound(s.agent) && s.agent.attempt == Some(TheTarget(cfg)) && now != 0
    requires s.agent.mem.target == TheTarget(cfg) && s.agent.mem.anchor == TheAfter(s, cfg)
    requires AU.AfterOf(now, cfg.server.offset) != 0 && AU.AfterOf(now, cfg.server.offset) != TheAfter(s, cfg)
    ensures var t := Run(s, cfg, [Retry, SelfCheck(now)]);
            && TheAfter(t, cfg) == AU.AfterOf(now, cfg.server.offset) && Used(t, cfg) <= TERMINAL_LIMIT
            && !AttemptHarmless(t, cfg) && !BreakerHolds(t, cfg)
  {
    RunTwo(s, cfg, Retry, SelfCheck(now));
    BreakerExactly(Run(s, cfg, [Retry, SelfCheck(now)]), cfg);
  }

  /** The two assumptions about the server matter. When it stops offering for one handshake, the agent
    * forgets the failures it counted, and the same plan starts over. */
  lemma {:induction false} UnofferedForgets(s: System, cfg: Setting) returns (es: seq<Event>)
    requires Ready(s, cfg)
    ensures |es| > 0 && es[0] == Unoffered(0, 0, true) && Quiet(es[1..])
    ensures Run(s, cfg, es).failures == s.failures + 1
    ensures Run(s, cfg, es).row.plannedAt == s.row.plannedAt
  {
    var t := Step(s, cfg, Unoffered(0, 0, true));
    assert t.agent.mem.target == "";
    var shake, fail := Handshake(0, TheAfter(t, cfg), true), Fails(Terminal, "", 0);
    RunTwo(t, cfg, shake, fail);
    es := [Unoffered(0, 0, true), shake, fail];
    assert es[1..] == [shake, fail];
  }

  /** An operator's retry gives an exhausted agent a fresh budget exactly when the new start second
    * differs from the old one: a retry in the second of the old anchor changes nothing. */
  lemma {:induction false} RetryUnlocksIff(s: System, cfg: Setting, serverNow: int, agentNow: int)
    requires Poised(s, cfg) && s.agent.mem.target == TheTarget(cfg) && s.agent.mem.anchor == TheAfter(s, cfg)
    requires s.agent.mem.terminal >= TERMINAL_LIMIT
    ensures var t := Run(s, cfg, [Retry, Handshake(serverNow, agentNow, true)]);
            t.agent.mem.terminal == 0 <==> AU.AfterOf(serverNow, cfg.server.offset) != TheAfter(s, cfg)
  {
    RunTwo(s, cfg, Retry, Handshake(serverNow, agentNow, true));
    var cleared := Step(s, cfg, Retry);
    assert AU.Target(cleared.row, cfg.server, true, serverNow).1
        == AU.Offered(TheTarget(cfg), AU.AfterOf(serverNow, cfg.server.offset));
  }
}
