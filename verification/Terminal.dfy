/** The web terminal manager (internal/agent/terminal.go): one goroutine handles requests, each session has one
  * that reads its output and reaps it, and the manager may be closed from elsewhere. Every step below is one
  * critical section, one kill or one message; the steps of the goroutines interleave at will.
  */
module Terminal {
  import opened Wrappers

  const DEFAULT_COLS := 80
  const DEFAULT_ROWS := 24
  const MAX_COLS := 1000
  const MAX_ROWS := 1000

  /** `terminalSize`. */
  function TerminalSize(cols: int, rows: int): Option<(int, int)> {
    var c := if cols == 0 then DEFAULT_COLS else cols;
    var r := if rows == 0 then DEFAULT_ROWS else rows;
    if c < 1 || c > MAX_COLS || r < 1 || r > MAX_ROWS then None else Some((c, r))
  }

  datatype Request = Request(id: string, mode: string, cols: int, rows: int)

  predicate Supported(mode: string) { mode == "" || mode == "pty" || mode == "ssh" }

  /** How far a session's own goroutine has come: not begun, reading output, past the last read, with the reason
    * it will give, out of the manager's sight, closed frame sent. */
  datatype Run = NotBegun | Reading | Exited | Reasoned(reason: string) | Cleared(reason: string) | Ended

  /** asked lists the stop reasons in the order they were requested; heard tells how many of them preceded the
    * session's own look, and exit what it would report of its own accord. */
  datatype Session = Session(id: string, size: (int, int), reason: string, killed: bool, run: Run,
                             asked: seq<string>, heard: nat, exit: string)

  datatype Next = Return | Open(q: Request)

  /** Where the goroutine that handles requests stands. */
  datatype Handler =
    | Idle
    | Asking(k: nat, reason: string, next: Next)
    | Killing(k: nat, next: Next)
    | Deciding(q: Request)
    | Starting(q: Request, size: (int, int))
    | Publishing(k: nat)
    | Launching(k: nat)

  /** What is left of a call that closes the manager. */
  datatype Closer = ToAsk(k: nat, reason: string) | ToKill(k: nat) | Over

  /** A closed frame: the session it is for, unless none was started. */
  datatype Frame = Frame(id: string, reason: string, session: Option<nat>)

  /** The manager's locked fields: the active session, and whether the manager was closed. */
  datatype Slot<+T> = Slot(active: Option<T>, stopped: bool)

  datatype State = State(slot: Slot<nat>, sessions: seq<Session>, handler: Handler, closers: seq<Closer>,
                         frames: seq<Frame>)

  const INITIAL: State := State(Slot(None, false), [], Idle, [], [])

  datatype Event =
    | OpenRequest(q: Request)
    | CloseRequest(id: string, reason: string)
    | Handle(startable: bool)
    | CloseManager(reason: string)
    | Close(i: nat)
    | Exit(k: nat)
    | Reap(k: nat, waitErr: Option<string>)

  /** `terminalExitReason`. */
  function ExitReason(waitErr: Option<string>): string {
    if waitErr.None? then "terminal_exited" else "terminal_exited: " + waitErr.value
  }

  // ---- the sections under the manager's lock ----

  /** `closeCurrent`, and `closeSession` when the id is the active one's. */
  function Vacated<T>(slot: Slot<T>): Slot<T> { slot.(active := None) }

  /** `close`. */
  function Shut<T>(slot: Slot<T>): Slot<T> { Slot(None, true) }

  /** The end of `open`. */
  function Occupied<T>(slot: Slot<T>, t: T): Slot<T> { if slot.stopped then slot else slot.(active := Some(t)) }

  /** `finished`. */
  function Forgotten<T(==)>(slot: Slot<T>, t: T): Slot<T> { if slot.active == Some(t) then Vacated(slot) else slot }

  /** The locked part of `stop`: the first reason stays. */
  function Kept(reason: string, next: string): string { if reason == "" then next else reason }

  // ---- the two halves of stopping a session ----

  function Asked(s: State, k: nat, reason: string): State
    requires k < |s.sessions|
  {
    var t := s.sessions[k];
    s.(sessions := s.sessions[k := t.(reason := Kept(t.reason, reason), asked := t.asked + [reason])])
  }

  function Killed(s: State, k: nat): State
    requires k < |s.sessions|
  {
    s.(sessions := s.sessions[k := s.sessions[k].(killed := true)])
  }

  function After(next: Next): Handler { if next.Return? then Idle else Deciding(next.q) }

  // ---- the goroutine that handles requests ----

  function TakeCurrent(s: State, reason: string, next: Next): State {
    if s.slot.active.None? then s.(handler := After(next))
    else s.(slot := Vacated(s.slot), handler := Asking(s.slot.active.value, reason, next))
  }

  function Refuse(s: State, id: string, reason: string): State {
    s.(handler := Idle, frames := s.frames + [Frame(id, reason, None)])
  }

  function Decide(s: State, q: Request): State {
    if !Supported(q.mode) then Refuse(s, q.id, "terminal_unsupported_mode")
    else if TerminalSize(q.cols, q.rows).None? then Refuse(s, q.id, "terminal_invalid_size")
    else if s.slot.stopped then s.(handler := Idle)
    else s.(handler := Starting(q, TerminalSize(q.cols, q.rows).value))
  }

  function Start(s: State, q: Request, size: (int, int), startable: bool): State {
    if !startable then Refuse(s, q.id, "terminal_start_failed")
    else
      s.(sessions := s.sessions + [Session(q.id, size, "", false, NotBegun, [], 0, "")],
         handler := Publishing(|s.sessions|))
  }

  function Publish(s: State, k: nat): State {
    s.(slot := Occupied(s.slot, k),
       handler := if s.slot.stopped then Asking(k, "agent session stopped", Return) else Launching(k))
  }

  function Handled(s: State, startable: bool): State {
    match s.handler
    case Idle => s
    case Asking(k, reason, next) => if k < |s.sessions| then Asked(s, k, reason).(handler := Killing(k, next)) else s
    case Killing(k, next) => if k < |s.sessions| then Killed(s, k).(handler := After(next)) else s
    case Deciding(q) => Decide(s, q)
    case Starting(q, size) => Start(s, q, size, startable)
    case Publishing(k) => Publish(s, k)
    case Launching(k) =>
      if k < |s.sessions| then s.(sessions := s.sessions[k := s.sessions[k].(run := Reading)], handler := Idle) else s
  }

  // ---- closing the manager ----

  function CloseBegun(s: State, reason: string): State {
    s.(slot := Shut(s.slot),
       closers := if s.slot.active.Some? then s.closers + [ToAsk(s.slot.active.value, reason)] else s.closers)
  }

  function ClosedFurther(s: State, i: nat): State
    requires i < |s.closers|
  {
    match s.closers[i]
    case ToAsk(k, reason) => if k < |s.sessions| then Asked(s, k, reason).(closers := s.closers[i := ToKill(k)]) else s
    case ToKill(k) => if k < |s.sessions| then Killed(s, k).(closers := s.closers[i := Over]) else s
    case Over => s
  }

  // ---- a session's own goroutine ----

  function Reaped(s: State, k: nat, waitErr: Option<string>): State
    requires k < |s.sessions|
  {
    var t := s.sessions[k];
    match t.run
    case Exited =>
      var exit := ExitReason(waitErr);
      var reason := if t.reason != "" then t.reason else exit;
      s.(sessions := s.sessions[k := t.(run := Reasoned(reason), heard := |t.asked|, exit := exit)])
    case Reasoned(reason) =>
      s.(slot := Forgotten(s.slot, k), sessions := s.sessions[k := t.(run := Cleared(reason))])
    case Cleared(reason) =>
      s.(sessions := s.sessions[k := t.(run := Ended)],
         frames := s.frames + [Frame(t.id, if reason == "" then "terminal_exited" else reason, Some(k))])
    case _ => s
  }

  // ---- any step ----

  function Step(s: State, ev: Event): State {
    match ev
    case OpenRequest(q) =>
      if !s.handler.Idle? || q.id == "" then s else TakeCurrent(s, "replaced by new terminal", Open(q))
    case CloseRequest(id, reason) =>
      if s.handler.Idle? && id != "" && s.slot.active.Some? && s.slot.active.value < |s.sessions|
         && s.sessions[s.slot.active.value].id == id
      then TakeCurrent(s, reason, Return)
      else s
    case Handle(startable) => Handled(s, startable)
    case CloseManager(reason) => CloseBegun(s, reason)
    case Close(i) => if i < |s.closers| then ClosedFurther(s, i) else s
    case Exit(k) =>
      if k < |s.sessions| && s.sessions[k].run.Reading? then s.(sessions := s.sessions[k := s.sessions[k].(run := Exited)])
      else s
    case Reap(k, waitErr) => if k < |s.sessions| then Reaped(s, k, waitErr) else s
  }

  function RunAll(events: seq<Event>, n: nat): State
    requires n <= |events|
  {
    if n == 0 then INITIAL else Step(RunAll(events, n - 1), events[n - 1])
  }

  // ---- the locked sections as the program has them ----

  class TerminalSession {
    const id: string
    var reason: string

    constructor (id: string)
      ensures this.id == id && reason == ""
    {
      this.id, reason := id, "";
    }

    method Ask(reason: string)
      modifies this
      ensures this.reason == Kept(old(this.reason), reason)
    {
      if this.reason == "" { this.reason := reason; }
    }
  }

  class TerminalManager {
    var active: TerminalSession?
    var stopped: bool

    constructor ()
      ensures View() == Slot(None, false)
    {
      active, stopped := null, false;
    }

    function View(): Slot<TerminalSession>
      reads this
    {
      var term: Option<TerminalSession> := if active == null then None else Some(active);
      Slot(term, stopped)
    }

    method CloseCurrent() returns (term: TerminalSession?)
      modifies this
      ensures term == old(active) && View() == Vacated(old(View()))
    {
      term := active;
      active := null;
    }

    method CloseSession(id: string) returns (term: TerminalSession?)
      modifies this
      ensures if old(active) != null && old(active).id == id then term == old(active) && View() == Vacated(old(View()))
              else term == null && View() == old(View())
    {
      term := active;
      if term == null || term.id != id { return null; }
      active := null;
    }

    method Close() returns (term: TerminalSession?)
      modifies this
      ensures term == old(active) && View() == Shut(old(View()))
    {
      stopped := true;
      term := active;
      active := null;
    }

    method Activate(term: TerminalSession) returns (ok: bool)
      modifies this
      ensures ok == !old(stopped) && View() == Occupied(old(View()), term)
    {
      if stopped { return false; }
      active := term;
      return true;
    }

    method Finished(term: TerminalSession)
      modifies this
      ensures View() == Forgotten(old(View()), term)
    {
      if active == term { active := null; }
    }
  }
}
