/** The agent's half of self-update (internal/agent/selfupdate.go): deciding when to try, counting
  * failures, and keeping the count on disk.
  */
module SelfUpdate {
  import opened Wrappers

  const TERMINAL_LIMIT := 3

  datatype Class = Terminal | Transient

  datatype Phase = Downloading | Verifying | Failed | Suppressed | Committed | Unsupported

  datatype Report = Report(target: string, phase: Phase, kind: Option<Class>, attempts: nat, error: string)

  /** The bookkeeping file. */
  datatype State = State(
    target: string, terminal: nat, streak: nat, lastError: string,
    lastAttempt: int, nextRetry: int, anchor: int, committed: string)

  function Fresh(target: string): State { State(target, 0, 0, "", 0, 0, 0, "") }

  datatype Action = Idle | Wait(seconds: int) | Start | Suppress | Refuse

  function Decide(selfUpdate: bool, current: string, target: string, after: int, now: int, st: State): Action {
    if target == "" || target == current then Idle
    else if !selfUpdate then Refuse
    else if st.target != target then
      if now < after then Wait(after - now) else Start
    else if st.terminal >= TERMINAL_LIMIT then Suppress
    else if st.nextRetry > now then Wait(st.nextRetry - now)
    else if now < after then Wait(after - now)
    else Start
  }

  /** Folds a received plan into the bookkeeping: another target, or another anchor for the same
    * target, starts a fresh budget. */
  function Reanchor(st: State, target: string, after: int): State {
    var base :=
      if st.target != target then Fresh(target)
      else if st.anchor != 0 && after != st.anchor then Fresh(target)
      else st;
    if after != 0 then base.(anchor := after) else base
  }

  // ---- backoff ----

  const NANO := 1_000_000_000
  const BACKOFF_MIN := 60 * NANO
  const BACKOFF_MAX := 3600 * NANO

  function Pow2(n: nat): nat { if n == 0 then 1 else 2 * Pow2(n - 1) }

  /** The int64 a mathematical integer wraps to. */
  function Wrap64(x: int): int {
    (x + 0x8000_0000_0000_0000) % 0x1_0000_0000_0000_0000 - 0x8000_0000_0000_0000
  }

  /** Nanoseconds to wait after the given number of transient failures in a row. */
  function Backoff(streak: nat): int
    requires streak >= 1
  {
    var shifted := Wrap64(BACKOFF_MIN * Pow2(streak - 1));
    if shifted > BACKOFF_MAX || shifted <= 0 then BACKOFF_MAX else shifted
  }

  // ---- the process ----

  /** A pending timer: the plan it will consider again, and the second it is set for. */
  datatype Timer = Timer(target: string, after: int, due: int)

  /** One agent: the state in memory, the file, the target of the running attempt, the pending timer, and the
    * frames sent so far. */
  datatype Agent = Agent(mem: State, disk: State, attempt: Option<string>, timer: Option<Timer>, sent: seq<Report>)

  /** What does not change while a process runs: its build, and whether it can locate itself. */
  datatype Binary = Binary(version: string, located: bool)

  function Persisted(a: Agent, st: State): Agent { a.(mem := st, disk := st) }

  function Tell(a: Agent, r: Report): Agent { a.(sent := a.sent + [r]) }

  function Consider(a: Agent, bin: Binary, target: string, after: int, now: int, supported: bool): Agent {
    if target == bin.version then
      if a.mem.target == target && a.mem.committed != bin.version then
        Tell(Persisted(a, Fresh(target).(committed := bin.version)), Report(target, Committed, None, 0, ""))
      else if a.mem.target != "" && a.mem.target != target then
        Persisted(a, Fresh(target).(committed := bin.version))
      else a
    else if !bin.located then a
    else
      var b := a.(mem := Reanchor(a.mem, target, after));
      match Decide(supported, bin.version, target, after, now, b.mem)
      case Idle => b
      case Refuse => Tell(b, Report(target, Unsupported, None, 0, "unsupported"))
      case Suppress => Tell(b, Report(target, Suppressed, Some(Terminal), b.mem.terminal, b.mem.lastError))
      case Wait(seconds) => if b.attempt.Some? then b else b.(timer := Some(Timer(target, after, now + seconds)))
      case Start =>
        if b.attempt.Some? then b
        else
          Tell(b.(mem := b.mem.(target := target), attempt := Some(target)),
               Report(target, Downloading, None, b.mem.terminal, ""))
  }

  function Counted(st: State, target: string, kind: Class, error: string, now: int): State {
    var base := (if st.target != target then Fresh(target) else st).(lastError := error, lastAttempt := now);
    match kind
    case Terminal => base.(terminal := base.terminal + 1, nextRetry := 0)
    case Transient => base.(streak := base.streak + 1, nextRetry := now + Backoff(base.streak + 1) / NANO)
  }

  function RecordResult(a: Agent, target: string, kind: Class, error: string, now: int): Agent {
    var b := Persisted(a, Counted(a.mem, target, kind, error, now));
    var attempts := if kind.Terminal? then b.mem.terminal else b.mem.streak;
    var c := Tell(b, Report(target, Failed, Some(kind), attempts, error));
    if b.mem.terminal >= TERMINAL_LIMIT then
      Tell(c, Report(target, Suppressed, Some(Terminal), b.mem.terminal, error))
    else c
  }

  /** The running attempt fails. */
  function AttemptFails(a: Agent, kind: Class, error: string, now: int): Agent
    requires a.attempt.Some?
  {
    RecordResult(a, a.attempt.value, kind, error, now).(attempt := None)
  }

  /** A restart keeps the file and nothing else; frames already on their way stay on their way. */
  function Restart(a: Agent): Agent {
    Agent(a.disk, a.disk, None, None, a.sent)
  }

  class SelfUpdater {
    const bin: Binary
    var state: State
    var file: State
    var attempt: Option<string>
    var timer: Option<Timer>
    var sent: seq<Report>

    ghost function Model(): Agent
      reads this
    {
      Agent(state, file, attempt, timer, sent)
    }

    constructor (bin: Binary, file: State)
      ensures this.bin == bin && Model() == Agent(file, file, None, None, [])
    {
      this.bin := bin;
      this.state, this.file := file, file;
      this.attempt, this.timer, this.sent := None, None, [];
    }

    method PersistLocked()
      modifies this`file
      ensures file == state
    {
      file := state;
    }

    method Send(r: Report)
      modifies this`sent
      ensures sent == old(sent) + [r]
    {
      sent := sent + [r];
    }

    method ConsiderPlan(target: string, after: int, now: int, supported: bool)
      modifies this
      ensures Model() == Consider(old(Model()), bin, target, after, now, supported)
    {
      if target == bin.version {
        if state.target == target && state.committed != bin.version {
          state := Fresh(target).(committed := bin.version);
          PersistLocked();
          Send(Report(target, Committed, None, 0, ""));
          return;
        }
        if state.target != "" && state.target != target {
          state := Fresh(target).(committed := bin.version);
          PersistLocked();
        }
        return;
      }
      if !bin.located { return; }
      var next := Reanchor(state, target, after);
      if next != state { state := next; }
      var action := Decide(supported, bin.version, target, after, now, state);
      match action
      case Idle =>
      case Refuse =>
        Send(Report(target, Unsupported, None, 0, "unsupported"));
      case Suppress =>
        Send(Report(target, Suppressed, Some(Terminal), state.terminal, state.lastError));
      case Wait(seconds) =>
        if attempt.Some? { return; }
        timer := Some(Timer(target, after, now + seconds));
      case Start =>
        if attempt.Some? { return; }
        attempt := Some(target);
        state := state.(target := target);
        Send(Report(target, Downloading, None, state.terminal, ""));
    }

    method Fail(kind: Class, error: string, now: int)
      requires attempt.Some?
      modifies this
      ensures Model() == AttemptFails(old(Model()), kind, error, now)
    {
      var target := attempt.value;
      if state.target != target { state := Fresh(target); }
      state := state.(lastError := error, lastAttempt := now);
      var attempts := 0;
      if kind == Terminal {
        state := state.(terminal := state.terminal + 1);
        attempts := state.terminal;
        state := state.(nextRetry := 0);
      } else {
        state := state.(streak := state.streak + 1);
        attempts := state.streak;
        var backoff := Wrap64(BACKOFF_MIN * Pow2(state.streak - 1));
        if backoff > BACKOFF_MAX || backoff <= 0 { backoff := BACKOFF_MAX; }
        state := state.(nextRetry := now + backoff / NANO);
      }
      PersistLocked();
      Send(Report(target, Failed, Some(kind), attempts, error));
      if state.terminal >= TERMINAL_LIMIT {
        Send(Report(target, Suppressed, Some(Terminal), state.terminal, error));
      }
      attempt := None;
    }
  }

  // ---- the backoff under wrap-around ----

  lemma {:induction false} Pow2Splits(a: nat, b: nat)
    ensures Pow2(a + b) == Pow2(a) * Pow2(b)
    decreases a
  {
    if a > 0 { Pow2Splits(a - 1, b); }
  }

  lemma ModScales(c: int, a: int, m: int)
    requires c > 0 && m > 0
    ensures (c * a) % (c * m) == c * (a % m)
  {
    var q, r := a / m, a % m;
    assert c * a == (c * m) * q + c * r;
    assert 0 <= c * r < c * m;
    ModUnique(c * a, c * m, q, c * r);
  }

  lemma ModUnique(x: int, m: int, q: int, r: int)
    requires m > 0 && x == m * q + r && 0 <= r < m
    ensures x % m == r
  {
    var d := x / m - q;
    assert m * d == r - x % m;
    assert d >= 1 ==> m * d >= m;
    assert d <= -1 ==> m * d <= -m;
  }

  /** From shift 31 on the wrapped product is a multiple of 2 to the 42nd, which exceeds an hour. */
  lemma LargeShift(n: nat)
    requires n >= 31
    ensures exists j :: Wrap64(BACKOFF_MIN * Pow2(n)) == 0x400_0000_0000 * j
  {
    Pow2Splits(31, n - 31);
    assert Pow2(31) == 0x8000_0000 by { SmallPowers(); }
    var k := 29296875 * Pow2(n - 31);
    assert BACKOFF_MIN * Pow2(n) == 0x400_0000_0000 * k;
    ModScales(0x400_0000_0000, k + 0x20_0000, 0x40_0000);
    assert Wrap64(BACKOFF_MIN * Pow2(n)) == 0x400_0000_0000 * ((k + 0x20_0000) % 0x40_0000 - 0x20_0000);
  }

  lemma SmallPowers()
    ensures Pow2(1) == 2 && Pow2(2) == 4 && Pow2(3) == 8 && Pow2(4) == 16 && Pow2(5) == 32 && Pow2(6) == 64
    ensures Pow2(28) == 0x1000_0000 && Pow2(29) == 0x2000_0000 && Pow2(30) == 0x4000_0000 && Pow2(31) == 0x8000_0000
  {
    assert Pow2(7) == 128 && Pow2(14) == 0x4000 && Pow2(28) == 0x1000_0000 by {
      Pow2Splits(7, 7);
      Pow2Splits(14, 14);
    }
  }

  lemma {:induction false} Pow2Grows(a: nat, b: nat)
    requires a <= b
    ensures Pow2(a) <= Pow2(b)
    decreases b
  {
    if a < b { Pow2Grows(a, b - 1); }
  }

  /** Below shift 28 nothing wraps, and from shift 6 on the product exceeds an hour. */
  lemma SmallShift(n: nat)
    requires n < 28
    ensures Wrap64(BACKOFF_MIN * Pow2(n)) == BACKOFF_MIN * Pow2(n)
    ensures n >= 6 ==> Pow2(n) >= 64
  {
    SmallPowers();
    Pow2Grows(n, 27);
    assert 2 * Pow2(27) == Pow2(28);
    if n >= 6 { Pow2Grows(6, n); }
  }

  /** The shifts 28 to 30 wrap to a negative number, a negative number and a number above an hour. */
  lemma MiddleShift(n: nat)
    requires n == 28 || n == 29 || n == 30
    ensures Wrap64(BACKOFF_MIN * Pow2(n)) <= 0 || Wrap64(BACKOFF_MIN * Pow2(n)) > BACKOFF_MAX
  {
    SmallPowers();
  }

  /** Although the shift wraps from the 29th failure on, the wait is always 60·2^(streak−1) seconds
    * capped at one hour. */
  lemma {:induction false} BackoffIsCappedDoubling(streak: nat)
    requires streak >= 1
    ensures Backoff(streak) / NANO == if 60 * Pow2(streak - 1) < 3600 then 60 * Pow2(streak - 1) else 3600
  {
    var n := streak - 1;
    SmallPowers();
    if n < 28 {
      SmallShift(n);
      assert n < 6 ==> n == 0 || n == 1 || n == 2 || n == 3 || n == 4 || n == 5;
    } else {
      Pow2Grows(6, n);
      if n <= 30 { MiddleShift(n); } else { LargeShift(n); }
    }
  }

  /** The wait never shrinks as failures go on, and stays between a minute and an hour. */
  lemma {:induction false} BackoffMonotone(a: nat, b: nat)
    requires 1 <= a <= b
    ensures 60 <= Backoff(a) / NANO <= Backoff(b) / NANO <= 3600
  {
    BackoffIsCappedDoubling(a);
    BackoffIsCappedDoubling(b);
    Pow2Grows(0, a - 1);
    Pow2Grows(a - 1, b - 1);
  }
}
