/** Probe registration (internal/server/httpapi/agent_handlers.go) over the nodes and reg_tokens tables
  * (internal/server/store/nodes.go): a single-use token is exchanged for node credentials, one statement
  * at a time.
  */
module Registration {
  import opened Wrappers

  /** A row of nodes. Hashing is taken as ideal: a secret verifies against a row exactly when it is the one
    * last stored there. */
  datatype Row = Row(id: string, machine: string, secret: string, name: string, note: string)

  /** bound is the node the token was minted for, empty for a generic token. */
  datatype Token = Token(name: string, note: string, bound: string, expires: int, used: bool)

  datatype DB = DB(rows: seq<Row>, tokens: map<string, Token>)

  /** A registration request with the random id and secret that would be issued for it. */
  datatype Request = Request(token: string, machine: string, hostname: string, nodeID: string, nodeSecret: string,
                             freshID: string, freshSecret: string)

  datatype Response =
    | Registered(nodeID: string, secret: string, reused: bool)
    | BadRequest | InvalidToken | MachineMismatch | DuplicateMachine | NodeNotFound | Internal

  datatype Grant = Grant(name: string, note: string, bound: string)

  /** Where a request stands between its statements; Done remembers whether it got a token. */
  datatype PC =
    | Begin
    | Consumed(g: Grant)
    | CheckSecret(g: Grant, id: string)
    | CheckBound(g: Grant)
    | Rebind(g: Grant, id: string)
    | Adopt(g: Grant)
    | Create(g: Grant)
    | Done(grant: Option<Grant>, response: Response)

  // ---- statements ----

  /** The first row from position k on that has the id, or the number of rows. */
  function FindId(rows: seq<Row>, k: nat, id: string): (r: nat)
    requires k <= |rows|
    ensures k <= r <= |rows| && (r < |rows| ==> rows[r].id == id) && forall i :: k <= i < r ==> rows[i].id != id
    decreases |rows| - k
  {
    if k == |rows| || rows[k].id == id then k else FindId(rows, k + 1, id)
  }

  function FindMachine(rows: seq<Row>, k: nat, machine: string): (r: nat)
    requires k <= |rows|
    ensures k <= r <= |rows| && (r < |rows| ==> rows[r].machine == machine)
    ensures forall i :: k <= i < r ==> rows[i].machine != machine
    decreases |rows| - k
  {
    if k == |rows| || rows[k].machine == machine then k else FindMachine(rows, k + 1, machine)
  }

  predicate HasId(rows: seq<Row>, id: string) { FindId(rows, 0, id) < |rows| }

  /** A row other than the one at i has the machine id. */
  predicate Taken(rows: seq<Row>, machine: string, i: nat) {
    exists k :: 0 <= k < |rows| && k != i && rows[k].machine == machine
  }

  /** `ConsumeRegToken`. */
  function Consume(tokens: map<string, Token>, token: string, now: int): Option<(map<string, Token>, Grant)> {
    if token in tokens && !tokens[token].used && tokens[token].expires > now then
      var t := tokens[token];
      Some((tokens[token := t.(used := true)], Grant(t.name, t.note, t.bound)))
    else None
  }

  /** `UPDATE nodes SET node_secret_hash = ? WHERE id = ?`; no such row is no error. */
  function WithSecret(rows: seq<Row>, id: string, secret: string): seq<Row> {
    var i := FindId(rows, 0, id);
    if i == |rows| then rows else rows[i := rows[i].(secret := secret)]
  }

  /** `UPDATE nodes SET node_secret_hash = ?, machine_id = ? WHERE id = ?`; machine ids are UNIQUE. */
  function WithIdentity(rows: seq<Row>, id: string, machine: string, secret: string): Option<seq<Row>> {
    var i := FindId(rows, 0, id);
    if i == |rows| then Some(rows)
    else if Taken(rows, machine, i) then None
    else Some(rows[i := rows[i].(secret := secret, machine := machine)])
  }

  /** `INSERT INTO nodes`; id is the primary key, machine_id is UNIQUE. */
  function WithRow(rows: seq<Row>, row: Row): Option<seq<Row>> {
    if HasId(rows, row.id) || Taken(rows, row.machine, |rows|) then None else Some(rows + [row])
  }

  function NodeName(name: string, hostname: string, id: string): string {
    if name != "" then name else if hostname != "" then hostname else if id != "" then id else "node"
  }

  function NewRow(q: Request, g: Grant): Row {
    Row(q.freshID, q.machine, q.freshSecret, NodeName(g.name, q.hostname, q.freshID), g.note)
  }

  // ---- one statement of one request ----

  /** What the lookup by machine id leads to. */
  function AfterLookup(rows: seq<Row>, q: Request, g: Grant): PC {
    var i := FindMachine(rows, 0, q.machine);
    if i < |rows| then
      var id := rows[i].id;
      if g.bound != "" && g.bound != id then Done(Some(g), MachineMismatch)
      else if g.bound == id || (q.nodeID == id && q.nodeSecret != "") then
        if g.bound == "" then CheckSecret(g, id) else Rebind(g, id)
      else Done(Some(g), DuplicateMachine)
    else if g.bound != "" then CheckBound(g)
    else Create(g)
  }

  predicate SecretMatches(rows: seq<Row>, id: string, secret: string) {
    var i := FindId(rows, 0, id);
    i < |rows| && rows[i].secret == secret
  }

  /** The next statement; fault says that it fails in the database. */
  function Advance(db: DB, q: Request, pc: PC, now: int, fault: bool): (DB, PC) {
    match pc
    case Begin =>
      if q.token == "" || q.machine == "" then (db, Done(None, BadRequest))
      else if fault then (db, Done(None, Internal))
      else
        var c := Consume(db.tokens, q.token, now);
        if c.None? then (db, Done(None, InvalidToken)) else (db.(tokens := c.value.0), Consumed(c.value.1))
    case Consumed(g) => if fault then (db, Done(Some(g), Internal)) else (db, AfterLookup(db.rows, q, g))
    case CheckSecret(g, id) =>
      if fault || !SecretMatches(db.rows, id, q.nodeSecret) then (db, Done(Some(g), DuplicateMachine))
      else (db, Rebind(g, id))
    case CheckBound(g) =>
      if fault then (db, Done(Some(g), Internal))
      else if !HasId(db.rows, g.bound) then (db, Done(Some(g), NodeNotFound))
      else (db, Adopt(g))
    case Rebind(g, id) =>
      if fault then (db, Done(Some(g), Internal))
      else (db.(rows := WithSecret(db.rows, id, q.freshSecret)), Done(Some(g), Registered(id, q.freshSecret, true)))
    case Adopt(g) =>
      var rows := WithIdentity(db.rows, g.bound, q.machine, q.freshSecret);
      if fault || rows.None? then (db, Done(Some(g), Internal))
      else (db.(rows := rows.value), Done(Some(g), Registered(g.bound, q.freshSecret, true)))
    case Create(g) =>
      var rows := WithRow(db.rows, NewRow(q, g));
      if fault || rows.None? then (db, Done(Some(g), Internal))
      else (db.(rows := rows.value), Done(Some(g), Registered(q.freshID, q.freshSecret, false)))
    case Done(_, _) => (db, pc)
  }

  /** The request run on from pc, nothing else happening in between; the kth statement fails where faults says so. */
  function RunOn(db: DB, q: Request, pc: PC, now: int, faults: seq<bool>): (DB, PC)
    decreases |faults|
  {
    if faults == [] then (db, pc)
    else
      var (next, at) := Advance(db, q, pc, now, faults[0]);
      RunOn(next, q, at, now, faults[1..])
  }

  /** The same for n statements that all succeed. */
  function Alone(db: DB, q: Request, pc: PC, now: int, n: nat): (DB, PC)
    decreases n
  {
    if n == 0 then (db, pc)
    else
      var (next, at) := Advance(db, q, pc, now, false);
      Alone(next, q, at, now, n - 1)
  }

  lemma {:induction false} FaultFree(db: DB, q: Request, pc: PC, now: int, faults: seq<bool>)
    requires forall k :: 0 <= k < |faults| ==> !faults[k]
    ensures RunOn(db, q, pc, now, faults) == Alone(db, q, pc, now, |faults|)
    decreases |faults|
  {
    if faults != [] {
      var (next, at) := Advance(db, q, pc, now, false);
      FaultFree(next, q, at, now, faults[1..]);
    }
  }

  lemma {:induction false} OverStays(db: DB, q: Request, pc: PC, now: int, faults: seq<bool>)
    requires pc.Done?
    ensures RunOn(db, q, pc, now, faults) == (db, pc)
    decreases |faults|
  {
    if faults != [] { OverStays(db, q, pc, now, faults[1..]); }
  }

  lemma OneStep(db: DB, q: Request, pc: PC, now: int, faults: seq<bool>)
    requires faults != []
    ensures var (next, at) := Advance(db, q, pc, now, faults[0]);
            && RunOn(db, q, pc, now, faults) == RunOn(next, q, at, now, faults[1..])
            && (at.Done? ==> RunOn(db, q, pc, now, faults) == (next, at))
  {
    var (next, at) := Advance(db, q, pc, now, faults[0]);
    if at.Done? { OverStays(next, q, at, now, faults[1..]); }
  }

  // ---- the handler ----

  class Server {
    var rows: seq<Row>
    var tokens: map<string, Token>

    constructor (rows: seq<Row>, tokens: map<string, Token>)
      ensures View() == DB(rows, tokens)
    {
      this.rows, this.tokens := rows, tokens;
    }

    function View(): DB
      reads this
    {
      DB(rows, tokens)
    }

    /** The update that ends both ways of taking up a known machine. */
    method Reissue(q: Request, g: Grant, id: string, now: int, faults: seq<bool>) returns (response: Response)
      requires faults != []
      modifies this`rows
      ensures (View(), Done(Some(g), response)) == RunOn(old(View()), q, Rebind(g, id), now, faults)
    {
      OneStep(View(), q, Rebind(g, id), now, faults);
      if faults[0] { return Internal; }
      rows := WithSecret(rows, id, q.freshSecret);
      return Registered(id, q.freshSecret, true);
    }

    /** The branch for a machine that is already registered. */
    method ReRegister(q: Request, g: Grant, i: nat, now: int, faults: seq<bool>) returns (response: Response)
      requires i == FindMachine(rows, 0, q.machine) < |rows| && |faults| == 2
      modifies this`rows
      ensures (View(), Done(Some(g), response)) == RunOn(old(View()), q, AfterLookup(old(rows), q, g), now, faults)
    {
      var id := rows[i].id;
      OneStep(View(), q, AfterLookup(rows, q, g), now, faults);
      if g.bound != "" && g.bound != id { return MachineMismatch; }
      if g.bound == id || (q.nodeID == id && q.nodeSecret != "") {
        if g.bound == "" {
          if faults[0] || !SecretMatches(rows, id, q.nodeSecret) { return DuplicateMachine; }
          response := Reissue(q, g, id, now, faults[1..]);
        } else {
          response := Reissue(q, g, id, now, faults);
        }
        return;
      }
      return DuplicateMachine;
    }

    /** The branch for a machine nobody has seen. */
    method RegisterUnknown(q: Request, g: Grant, now: int, faults: seq<bool>) returns (response: Response)
      requires FindMachine(rows, 0, q.machine) == |rows| && |faults| == 2
      modifies this`rows
      ensures (View(), Done(Some(g), response)) == RunOn(old(View()), q, AfterLookup(old(rows), q, g), now, faults)
    {
      OneStep(View(), q, AfterLookup(rows, q, g), now, faults);
      if g.bound != "" {
        if faults[0] { return Internal; }
        if !HasId(rows, g.bound) { return NodeNotFound; }
        OneStep(View(), q, Adopt(g), now, faults[1..]);
        var adopted := WithIdentity(rows, g.bound, q.machine, q.freshSecret);
        if faults[1] || adopted.None? { return Internal; }
        rows := adopted.value;
        return Registered(g.bound, q.freshSecret, true);
      }
      var grown := WithRow(rows, NewRow(q, g));
      if faults[0] || grown.None? { return Internal; }
      rows := grown.value;
      return Registered(q.freshID, q.freshSecret, false);
    }

    /** A request runs at most four statements, any of which may fail in the database. */
    method HandleAgentRegister(q: Request, now: int, faults: seq<bool>)
      returns (response: Response, ghost grant: Option<Grant>)
      requires |faults| == 4
      modifies this
      ensures (View(), Done(grant, response)) == RunOn(old(View()), q, Begin, now, faults)
    {
      grant := None;
      OneStep(View(), q, Begin, now, faults);
      if q.token == "" || q.machine == "" { return BadRequest, None; }
      if faults[0] { return Internal, None; }
      var c := Consume(tokens, q.token, now);
      if c.None? { return InvalidToken, None; }
      tokens := c.value.0;
      grant := Some(c.value.1);
      OneStep(View(), q, Consumed(c.value.1), now, faults[1..]);
      if faults[1] { return Internal, grant; }
      var i := FindMachine(rows, 0, q.machine);
      if i < |rows| {
        response := ReRegister(q, c.value.1, i, now, faults[1..][1..]);
      } else {
        response := RegisterUnknown(q, c.value.1, now, faults[1..][1..]);
      }
    }
  }
}
