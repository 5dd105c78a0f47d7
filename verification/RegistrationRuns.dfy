/** Registrations in flight at the same time, interleaved statement by statement with token minting and node
  * deletion: what always holds of the tables.
  */
module RegistrationRuns {
  import opened Wrappers
  import opened Registration

  datatype Flight = Flight(q: Request, pc: PC)

  datatype System = System(db: DB, flights: seq<Flight>)

  datatype Event =
    | Mint(token: string, name: string, note: string, bound: string, expires: int)
    | Arrive(q: Request)
    | Go(i: nat, now: int, fault: bool)
    | Delete(id: string)

  /** `CreateRegToken`; token hashes are UNIQUE. */
  function Minted(tokens: map<string, Token>, token: string, t: Token): map<string, Token> {
    if token in tokens then tokens else tokens[token := t]
  }

  function Deleted(rows: seq<Row>, id: string): seq<Row> {
    var i := FindId(rows, 0, id);
    if i == |rows| then rows else rows[..i] + rows[i + 1..]
  }

  function Step(s: System, ev: Event): System {
    match ev
    case Mint(token, name, note, bound, expires) =>
      s.(db := s.db.(tokens := Minted(s.db.tokens, token, Token(name, note, bound, expires, false))))
    case Arrive(q) => s.(flights := s.flights + [Flight(q, Begin)])
    case Go(i, now, fault) =>
      if i < |s.flights| then
        var (db, pc) := Advance(s.db, s.flights[i].q, s.flights[i].pc, now, fault);
        System(db, s.flights[i := s.flights[i].(pc := pc)])
      else s
    case Delete(id) => s.(db := s.db.(rows := Deleted(s.db.rows, id)))
  }

  function Run(db: DB, events: seq<Event>, n: nat): System
    requires n <= |events|
  {
    if n == 0 then System(db, []) else Step(Run(db, events, n - 1), events[n - 1])
  }

  // ---- the tables ----

  /** No id and no machine id twice. */
  predicate UniqueRows(rows: seq<Row>) {
    forall i, j :: 0 <= i < j < |rows| ==> rows[i].id != rows[j].id && rows[i].machine != rows[j].machine
  }

  lemma UniqueSecret(rows: seq<Row>, id: string, secret: string)
    requires UniqueRows(rows)
    ensures UniqueRows(WithSecret(rows, id, secret))
  {
  }

  lemma UniqueIdentity(rows: seq<Row>, id: string, machine: string, secret: string)
    requires UniqueRows(rows)
    ensures WithIdentity(rows, id, machine, secret).Some? ==> UniqueRows(WithIdentity(rows, id, machine, secret).value)
  {
  }

  lemma UniqueRow(rows: seq<Row>, row: Row)
    requires UniqueRows(rows)
    ensures WithRow(rows, row).Some? ==> UniqueRows(WithRow(rows, row).value)
  {
    var r := WithRow(rows, row);
    if r.Some? {
      forall i | 0 <= i < |rows| ensures rows[i].id != row.id && rows[i].machine != row.machine {
        assert i < FindId(rows, 0, row.id);
      }
    }
  }

  lemma UniqueDeleted(rows: seq<Row>, id: string)
    requires UniqueRows(rows)
    ensures UniqueRows(Deleted(rows, id))
  {
  }

  lemma AdvanceKeepsUnique(db: DB, q: Request, pc: PC, now: int, fault: bool)
    requires UniqueRows(db.rows)
    ensures UniqueRows(Advance(db, q, pc, now, fault).0.rows)
  {
    match pc
    case Rebind(_, id) => UniqueSecret(db.rows, id, q.freshSecret);
    case Adopt(g) => UniqueIdentity(db.rows, g.bound, q.machine, q.freshSecret);
    case Create(g) => UniqueRow(db.rows, NewRow(q, g));
    case _ =>
  }

  /** Machine ids, and node ids, stay pairwise distinct, whatever overlaps: the tables refuse what would repeat one. */
  lemma {:induction false} MachinesStayDistinct(db: DB, events: seq<Event>, n: nat)
    requires n <= |events| && UniqueRows(db.rows)
    ensures UniqueRows(Run(db, events, n).db.rows)
  {
    if n > 0 {
      MachinesStayDistinct(db, events, n - 1);
      var s := Run(db, events, n - 1);
      match events[n - 1]
      case Go(i, now, fault) =>
        if i < |s.flights| { AdvanceKeepsUnique(s.db, s.flights[i].q, s.flights[i].pc, now, fault); }
      case Delete(id) => UniqueDeleted(s.db.rows, id);
      case _ =>
    }
  }

  // ---- tokens ----

  /** The token the request got, if it got one. */
  function GrantOf(pc: PC): Option<Grant> {
    match pc
    case Begin => None
    case Consumed(g) => Some(g)
    case CheckSecret(g, _) => Some(g)
    case CheckBound(g) => Some(g)
    case Rebind(g, _) => Some(g)
    case Adopt(g) => Some(g)
    case Create(g) => Some(g)
    case Done(grant, _) => grant
  }

  predicate Holds(s: System, i: nat) {
    i < |s.flights| && GrantOf(s.flights[i].pc).Some?
  }

  /** A request that got a token got what was minted, and the token is used up. */
  predicate Backed(db: DB, f: Flight) {
    GrantOf(f.pc).Some? ==>
      && f.q.token in db.tokens && db.tokens[f.q.token].used
      && db.tokens[f.q.token].bound == GrantOf(f.pc).value.bound
  }

  predicate AllBacked(s: System) {
    forall i :: 0 <= i < |s.flights| ==> Backed(s.db, s.flights[i])
  }

  predicate OneHolder(s: System) {
    forall i, j :: 0 <= i < j < |s.flights| && Holds(s, i) && Holds(s, j) ==> s.flights[i].q.token != s.flights[j].q.token
  }

  /** Tokens are never given back, renamed or rebound. */
  predicate TokensKept(was: map<string, Token>, now: map<string, Token>) {
    forall t :: t in was ==> t in now && now[t].bound == was[t].bound && (was[t].used ==> now[t].used)
  }

  lemma AdvanceKeepsTokens(db: DB, q: Request, pc: PC, now: int, fault: bool)
    ensures TokensKept(db.tokens, Advance(db, q, pc, now, fault).0.tokens)
  {
  }

  /** A grant only ever comes from using up an unused token. */
  lemma AdvanceGrants(db: DB, q: Request, pc: PC, now: int, fault: bool)
    requires Backed(db, Flight(q, pc))
    ensures var (next, at) := Advance(db, q, pc, now, fault);
            && Backed(next, Flight(q, at))
            && (GrantOf(pc).Some? ==> GrantOf(at) == GrantOf(pc))
            && (GrantOf(pc).None? && GrantOf(at).Some? ==> q.token in db.tokens && !db.tokens[q.token].used)
  {
  }

  lemma {:induction false} GoKeepsTokens(s: System, i: nat, now: int, fault: bool)
    requires AllBacked(s) && OneHolder(s) && i < |s.flights|
    ensures AllBacked(Step(s, Go(i, now, fault))) && OneHolder(Step(s, Go(i, now, fault)))
  {
    var f, t := s.flights[i], Step(s, Go(i, now, fault));
    AdvanceKeepsTokens(s.db, f.q, f.pc, now, fault);
    AdvanceGrants(s.db, f.q, f.pc, now, fault);
    forall j | 0 <= j < |t.flights| ensures Backed(t.db, t.flights[j]) {
      assert Backed(s.db, s.flights[j]);
    }
    forall j | 0 <= j < |t.flights| && j != i && Holds(t, i) && Holds(t, j)
      ensures t.flights[i].q.token != t.flights[j].q.token
    {
      assert Holds(s, j) && Backed(s.db, s.flights[j]);
    }
    assert forall j, k :: 0 <= j < k < |t.flights| && j != i && k != i && Holds(t, j) && Holds(t, k) ==>
      Holds(s, j) && Holds(s, k);
  }

  lemma {:induction false} TokensInStep(db: DB, events: seq<Event>, n: nat)
    requires n <= |events|
    ensures AllBacked(Run(db, events, n)) && OneHolder(Run(db, events, n))
  {
    if n > 0 {
      TokensInStep(db, events, n - 1);
      var s, ev := Run(db, events, n - 1), events[n - 1];
      if ev.Go? && ev.i < |s.flights| { GoKeepsTokens(s, ev.i, ev.now, ev.fault); }
    }
  }

  // ---- what a request may still do ----

  /** A bound token leads only to its own node, an unbound one never to a bare adoption. */
  predicate Sound(pc: PC) {
    match pc
    case CheckSecret(g, _) => g.bound == ""
    case CheckBound(g) => g.bound != ""
    case Rebind(g, id) => g.bound == "" || g.bound == id
    case Adopt(g) => g.bound != ""
    case Create(g) => g.bound == ""
    case Done(grant, response) => response.Registered? ==> grant.Some?
    case _ => true
  }

  lemma AdvanceKeepsSound(db: DB, q: Request, pc: PC, now: int, fault: bool)
    requires Sound(pc)
    ensures Sound(Advance(db, q, pc, now, fault).1)
  {
  }

  predicate AllSound(s: System) {
    forall i :: 0 <= i < |s.flights| ==> Sound(s.flights[i].pc)
  }

  lemma {:induction false} AlwaysSound(db: DB, events: seq<Event>, n: nat)
    requires n <= |events|
    ensures AllSound(Run(db, events, n))
  {
    if n > 0 {
      AlwaysSound(db, events, n - 1);
      var s, ev := Run(db, events, n - 1), events[n - 1];
      if ev.Go? && ev.i < |s.flights| {
        AdvanceKeepsSound(s.db, s.flights[ev.i].q, s.flights[ev.i].pc, ev.now, ev.fault);
      }
    }
  }

  predicate Succeeded(s: System, i: nat) {
    i < |s.flights| && s.flights[i].pc.Done? && s.flights[i].pc.response.Registered?
  }

  /** However registrations overlap, a token yields at most one success. */
  lemma {:induction false} TokenSucceedsOnce(db: DB, events: seq<Event>, n: nat, i: nat, j: nat)
    requires n <= |events| && i < j && Succeeded(Run(db, events, n), i) && Succeeded(Run(db, events, n), j)
    ensures Run(db, events, n).flights[i].q.token != Run(db, events, n).flights[j].q.token
  {
    var s := Run(db, events, n);
    TokensInStep(db, events, n);
    AlwaysSound(db, events, n);
    assert Sound(s.flights[i].pc) && Sound(s.flights[j].pc);
    assert Holds(s, i) && Holds(s, j);
  }

  // ---- what a bound token reaches ----

  /** Same nodes in the same order, and only this one possibly changed. */
  predicate OnlyRow(was: seq<Row>, now: seq<Row>, id: string) {
    |now| == |was| && forall k :: 0 <= k < |was| ==> now[k].id == was[k].id && (was[k].id != id ==> now[k] == was[k])
  }

  lemma AdvanceReaches(db: DB, q: Request, pc: PC, now: int, fault: bool)
    requires Sound(pc)
    ensures GrantOf(pc).None? ==> Advance(db, q, pc, now, fault).0.rows == db.rows
    ensures GrantOf(pc).Some? && GrantOf(pc).value.bound != "" ==>
              OnlyRow(db.rows, Advance(db, q, pc, now, fault).0.rows, GrantOf(pc).value.bound)
  {
  }

  /** In any run, a statement of a request whose token is bound to a node creates no node and changes no other. */
  lemma {:induction false} BoundTokenScope(db: DB, events: seq<Event>, n: nat)
    requires n < |events| && events[n].Go? && events[n].i < |Run(db, events, n).flights|
    ensures var s := Run(db, events, n);
            var token := s.flights[events[n].i].q.token;
            token in s.db.tokens && s.db.tokens[token].bound != "" ==>
              OnlyRow(s.db.rows, Run(db, events, n + 1).db.rows, s.db.tokens[token].bound)
  {
    var s, ev := Run(db, events, n), events[n];
    var f := s.flights[ev.i];
    TokensInStep(db, events, n);
    AlwaysSound(db, events, n);
    assert Sound(f.pc) && Backed(s.db, f);
    AdvanceReaches(s.db, f.q, f.pc, ev.now, ev.fault);
  }

  // ---- what a success means ----

  /** When a registration succeeds, and the node has not been deleted meanwhile, exactly the secret handed out
    * is valid for it. */
  lemma {:induction false} SuccessIssuesSecret(db: DB, q: Request, pc: PC, now: int, fault: bool, secret: string)
    requires !pc.Done? && Advance(db, q, pc, now, fault).1.Done? && Advance(db, q, pc, now, fault).1.response.Registered?
    ensures var (next, at) := Advance(db, q, pc, now, fault);
            && at.response.secret == q.freshSecret
            && (HasId(next.rows, at.response.nodeID) <==> pc.Create? || HasId(db.rows, at.response.nodeID))
            && (HasId(next.rows, at.response.nodeID) ==>
                  (SecretMatches(next.rows, at.response.nodeID, secret) <==> secret == at.response.secret))
  {
    var (next, at) := Advance(db, q, pc, now, fault);
    var i := FindId(db.rows, 0, at.response.nodeID);
    var j := FindId(next.rows, 0, at.response.nodeID);
    assert i < |next.rows| ==> next.rows[i].id == at.response.nodeID;
    assert j >= i;
  }

  // ---- a request on its own ----

  predicate Usable(db: DB, q: Request, now: int) {
    q.token in db.tokens && !db.tokens[q.token].used && db.tokens[q.token].expires > now
  }

  /** Whom the token and the request may register. */
  predicate Entitled(db: DB, q: Request)
    requires q.token in db.tokens
  {
    var bound, i := db.tokens[q.token].bound, FindMachine(db.rows, 0, q.machine);
    if i < |db.rows| then
      var row := db.rows[i];
      if bound != "" then bound == row.id
      else (row.id == "" || (q.nodeID == row.id && q.nodeSecret != "")) && q.nodeSecret == row.secret
    else if bound != "" then HasId(db.rows, bound)
    else !HasId(db.rows, q.freshID)
  }

  lemma FoundById(rows: seq<Row>, i: nat)
    requires UniqueRows(rows) && i < |rows|
    ensures FindId(rows, 0, rows[i].id) == i
  {
  }

  lemma {:induction false} AloneStep(db: DB, q: Request, pc: PC, now: int, n: nat)
    requires n > 0
    ensures var (next, at) := Advance(db, q, pc, now, false); Alone(db, q, pc, now, n) == Alone(next, q, at, now, n - 1)
  {
  }

  lemma {:induction false} DoneStays(db: DB, q: Request, pc: PC, now: int, n: nat)
    requires pc.Done?
    ensures Alone(db, q, pc, now, n) == (db, pc)
  {
    if n > 0 { DoneStays(db, q, pc, now, n - 1); }
  }

  /** The request is over; it has registered exactly if entitled, and otherwise changed nothing. */
  predicate Settled(db: DB, q: Request, g: Grant, r: (DB, PC))
    requires q.token in db.tokens
  {
    && r.1.Done? && r.1.grant == Some(g) && r.0.tokens == db.tokens
    && (r.1.response.Registered? <==> Entitled(db, q))
    && (!r.1.response.Registered? ==> r.0 == db)
  }

  lemma {:induction false} TwoMore(db: DB, q: Request, pc: PC, now: int)
    ensures var (next, at) := Advance(db, q, pc, now, false);
            Alone(db, q, pc, now, 2) == Advance(next, q, at, now, false)
  {
    var (next, at) := Advance(db, q, pc, now, false);
    AloneStep(db, q, pc, now, 2);
    AloneStep(next, q, at, now, 1);
    var (last, end) := Advance(next, q, at, now, false);
    assert Alone(last, q, end, now, 0) == (last, end);
  }

  lemma {:induction false} KnownMachine(db: DB, q: Request, g: Grant, now: int)
    requires UniqueRows(db.rows) && q.token in db.tokens && db.tokens[q.token].bound == g.bound
    requires FindMachine(db.rows, 0, q.machine) < |db.rows|
    ensures Settled(db, q, g, Alone(db, q, AfterLookup(db.rows, q, g), now, 2))
  {
    var pc := AfterLookup(db.rows, q, g);
    FoundById(db.rows, FindMachine(db.rows, 0, q.machine));
    TwoMore(db, q, pc, now);
  }

  lemma {:induction false} UnknownMachine(db: DB, q: Request, g: Grant, now: int)
    requires UniqueRows(db.rows) && q.token in db.tokens && db.tokens[q.token].bound == g.bound
    requires FindMachine(db.rows, 0, q.machine) == |db.rows|
    ensures Settled(db, q, g, Alone(db, q, AfterLookup(db.rows, q, g), now, 2))
  {
    TwoMore(db, q, AfterLookup(db.rows, q, g), now);
  }

  lemma {:induction false} AfterGrant(db: DB, q: Request, g: Grant, now: int)
    requires UniqueRows(db.rows) && q.token in db.tokens && db.tokens[q.token].bound == g.bound
    ensures Settled(db, q, g, Alone(db, q, Consumed(g), now, 3))
  {
    AloneStep(db, q, Consumed(g), now, 3);
    if FindMachine(db.rows, 0, q.machine) < |db.rows| {
      KnownMachine(db, q, g, now);
    } else {
      UnknownMachine(db, q, g, now);
    }
  }

  /** Undisturbed, a registration succeeds exactly when its token is usable and it is entitled to the node; the
    * token is used up either way, and a failure changes no node. */
  lemma {:induction false} SucceedsIff(db: DB, q: Request, now: int)
    requires UniqueRows(db.rows)
    ensures var (next, at) := Alone(db, q, Begin, now, 4);
            && at.Done?
            && (at.response.Registered? <==> q.token != "" && q.machine != "" && Usable(db, q, now) && Entitled(db, q))
            && (!at.response.Registered? ==> next.rows == db.rows)
            && (q.token != "" && q.machine != "" && Usable(db, q, now) ==> q.token in next.tokens && next.tokens[q.token].used)
  {
    var (after, pc) := Advance(db, q, Begin, now, false);
    AloneStep(db, q, Begin, now, 4);
    if pc.Done? { DoneStays(after, q, pc, now, 3); } else { AfterGrant(after, q, pc.g, now); }
  }

  lemma {:induction false} KnownMachineFaults(db: DB, q: Request, g: Grant, now: int, f: seq<bool>)
    requires UniqueRows(db.rows) && q.token in db.tokens && db.tokens[q.token].bound == g.bound && |f| == 2
    requires FindMachine(db.rows, 0, q.machine) < |db.rows|
    ensures var end := RunOn(db, q, AfterLookup(db.rows, q, g), now, f).1;
            end.Done? && (end.response.Registered? <==> Entitled(db, q) && !f[0] && (g.bound != "" || !f[1]))
  {
    var pc := AfterLookup(db.rows, q, g);
    FoundById(db.rows, FindMachine(db.rows, 0, q.machine));
    OneStep(db, q, pc, now, f);
    var (next, at) := Advance(db, q, pc, now, f[0]);
    if !at.Done? { OneStep(next, q, at, now, f[1..]); }
  }

  lemma {:induction false} UnknownMachineFaults(db: DB, q: Request, g: Grant, now: int, f: seq<bool>)
    requires UniqueRows(db.rows) && q.token in db.tokens && db.tokens[q.token].bound == g.bound && |f| == 2
    requires FindMachine(db.rows, 0, q.machine) == |db.rows|
    ensures var end := RunOn(db, q, AfterLookup(db.rows, q, g), now, f).1;
            end.Done? && (end.response.Registered? <==> Entitled(db, q) && !f[0] && (g.bound == "" || !f[1]))
  {
    var pc := AfterLookup(db.rows, q, g);
    OneStep(db, q, pc, now, f);
    var (next, at) := Advance(db, q, pc, now, f[0]);
    if !at.Done? { OneStep(next, q, at, now, f[1..]); }
  }

  /** How many statements a registration that succeeds runs: a fourth one where the old secret, or the node the
    * token is bound to, is looked up. */
  function Needed(db: DB, q: Request): nat
    requires q.token in db.tokens
  {
    var known, bound := FindMachine(db.rows, 0, q.machine) < |db.rows|, db.tokens[q.token].bound != "";
    if known == bound then 3 else 4
  }

  predicate Unfailed(faults: seq<bool>, n: nat)
    requires n <= |faults|
  {
    forall k :: 0 <= k < n ==> !faults[k]
  }

  lemma {:induction false} LookupFaults(db: DB, q: Request, g: Grant, now: int, f: seq<bool>)
    requires UniqueRows(db.rows) && q.token in db.tokens && db.tokens[q.token].bound == g.bound && |f| == 3
    ensures var end := RunOn(db, q, Consumed(g), now, f).1;
            end.Done? && (end.response.Registered? <==> Entitled(db, q) && Unfailed(f, Needed(db, q) - 1))
  {
    OneStep(db, q, Consumed(g), now, f);
    if !f[0] {
      if FindMachine(db.rows, 0, q.machine) < |db.rows| {
        KnownMachineFaults(db, q, g, now, f[1..]);
      } else {
        UnknownMachineFaults(db, q, g, now, f[1..]);
      }
    }
  }

  /** With statements failing anyhow: a registration succeeds exactly when its token is usable, it is entitled to the
    * node, and none of the statements it needs fails. */
  lemma {:induction false} SucceedsIffUnfailed(db: DB, q: Request, now: int, faults: seq<bool>)
    requires UniqueRows(db.rows) && |faults| == 4
    ensures var end := RunOn(db, q, Begin, now, faults).1;
            && end.Done?
            && (end.response.Registered? <==>
                  q.token != "" && q.machine != "" && Usable(db, q, now) && Entitled(db, q) && Unfailed(faults, Needed(db, q)))
  {
    var (after, pc) := Advance(db, q, Begin, now, faults[0]);
    OneStep(db, q, Begin, now, faults);
    if !pc.Done? { LookupFaults(after, q, pc.g, now, faults[1..]); }
  }

  /** Whatever statements fail in the database, a request that does not end in a registration changes no node. */
  lemma {:induction false} FailureChangesNoNode(db: DB, q: Request, pc: PC, now: int, faults: seq<bool>)
    ensures var (next, at) := RunOn(db, q, pc, now, faults);
            !(at.Done? && at.response.Registered?) ==> next.rows == db.rows
    decreases |faults|
  {
    if faults != [] {
      var (next, at) := Advance(db, q, pc, now, faults[0]);
      FailureChangesNoNode(next, q, at, now, faults[1..]);
      OneStep(db, q, pc, now, faults);
    }
  }

  /** The name a new node gets: the token's, else the host's, else its own id. */
  predicate Names(name: string, token: Token, q: Request) {
    if token.name != "" then name == token.name
    else if q.hostname != "" then name == q.hostname
    else if q.freshID != "" then name == q.freshID
    else name == "node"
  }

  /** What a registration leaves in the nodes table, and what it answers: a known machine's node, or else the node the
    * token is bound to, with the new secret and the machine id, or else a new node. */
  predicate Writes(db: DB, q: Request, rows: seq<Row>, response: Response)
    requires q.token in db.tokens
  {
    var i, j, token := FindMachine(db.rows, 0, q.machine), FindId(db.rows, 0, db.tokens[q.token].bound), db.tokens[q.token];
    if i < |db.rows| then
      && rows == db.rows[i := db.rows[i].(secret := q.freshSecret)]
      && response == Registered(db.rows[i].id, q.freshSecret, true)
    else if token.bound != "" then
      && j < |db.rows| && rows == db.rows[j := db.rows[j].(secret := q.freshSecret, machine := q.machine)]
      && response == Registered(token.bound, q.freshSecret, true)
    else
      && |rows| == |db.rows| + 1 && rows[..|db.rows|] == db.rows && Names(rows[|db.rows|].name, token, q)
      && rows[|db.rows|] == Row(q.freshID, q.machine, q.freshSecret, rows[|db.rows|].name, token.note)
      && response == Registered(q.freshID, q.freshSecret, false)
  }

  lemma {:induction false} KnownMachineWrites(db: DB, q: Request, g: Grant, now: int, f: seq<bool>)
    requires UniqueRows(db.rows) && q.token in db.tokens && |f| == 2
    requires db.tokens[q.token].bound == g.bound && FindMachine(db.rows, 0, q.machine) < |db.rows|
    ensures var (next, end) := RunOn(db, q, AfterLookup(db.rows, q, g), now, f);
            end.Done? && end.response.Registered? ==> Writes(db, q, next.rows, end.response)
  {
    var pc := AfterLookup(db.rows, q, g);
    FoundById(db.rows, FindMachine(db.rows, 0, q.machine));
    OneStep(db, q, pc, now, f);
    var (next, at) := Advance(db, q, pc, now, f[0]);
    if !at.Done? { OneStep(next, q, at, now, f[1..]); }
  }

  lemma {:induction false} UnknownMachineWrites(db: DB, q: Request, g: Grant, now: int, f: seq<bool>)
    requires UniqueRows(db.rows) && q.token in db.tokens && |f| == 2
    requires Grant(db.tokens[q.token].name, db.tokens[q.token].note, db.tokens[q.token].bound) == g
    requires FindMachine(db.rows, 0, q.machine) == |db.rows|
    ensures var (next, end) := RunOn(db, q, AfterLookup(db.rows, q, g), now, f);
            end.Done? && end.response.Registered? ==> Writes(db, q, next.rows, end.response)
  {
    var pc := AfterLookup(db.rows, q, g);
    OneStep(db, q, pc, now, f);
    var (next, at) := Advance(db, q, pc, now, f[0]);
    if !at.Done? { OneStep(next, q, at, now, f[1..]); }
  }

  lemma {:induction false} LookupWrites(db: DB, q: Request, g: Grant, now: int, f: seq<bool>)
    requires UniqueRows(db.rows) && q.token in db.tokens && |f| == 3
    requires Grant(db.tokens[q.token].name, db.tokens[q.token].note, db.tokens[q.token].bound) == g
    ensures var (next, end) := RunOn(db, q, Consumed(g), now, f);
            end.Done? && end.response.Registered? ==> Writes(db, q, next.rows, end.response)
  {
    OneStep(db, q, Consumed(g), now, f);
    if !f[0] {
      if FindMachine(db.rows, 0, q.machine) < |db.rows| {
        KnownMachineWrites(db, q, g, now, f[1..]);
      } else {
        UnknownMachineWrites(db, q, g, now, f[1..]);
      }
    }
  }

  /** A registration that succeeds leaves and answers just that. */
  lemma {:induction false} SuccessWrites(db: DB, q: Request, now: int, faults: seq<bool>)
    requires UniqueRows(db.rows) && |faults| == 4
    requires RunOn(db, q, Begin, now, faults).1.Done? && RunOn(db, q, Begin, now, faults).1.response.Registered?
    ensures var (next, end) := RunOn(db, q, Begin, now, faults);
            q.token in db.tokens && Writes(db, q, next.rows, end.response)
  {
    var (after, pc) := Advance(db, q, Begin, now, faults[0]);
    OneStep(db, q, Begin, now, faults);
    if !pc.Done? { LookupWrites(after, q, pc.g, now, faults[1..]); }
  }

  // ---- why the database's own constraint is needed ----

  function Plain(token: string, id: string): Request { Request(token, "m", "", "", "", id, "") }

  const BLANK: Grant := Grant("", "", "")

  function Racing(rows: seq<Row>, used: bool, pc0: PC, pc1: PC): System {
    System(DB(rows, map["a" := Token("", "", "", 1, used), "b" := Token("", "", "", 1, used)]),
           [Flight(Plain("a", "x"), pc0), Flight(Plain("b", "y"), pc1)])
  }

  function Race(): seq<Event> {
    [Arrive(Plain("a", "x")), Arrive(Plain("b", "y")), Go(0, 0, false), Go(1, 0, false),
     Go(0, 0, false), Go(1, 0, false), Go(0, 0, false), Go(1, 0, false)]
  }

  lemma BothPassLookup()
    ensures Run(Racing([], false, Begin, Begin).db, Race(), 6) == Racing([], true, Create(BLANK), Create(BLANK))
  {
  }

  lemma FirstInserts()
    ensures Step(Racing([], true, Create(BLANK), Create(BLANK)), Go(0, 0, false))
         == Racing([NewRow(Plain("a", "x"), BLANK)], true, Done(Some(BLANK), Registered("x", "", false)), Create(BLANK))
  {
  }

  lemma SecondIsRefused(row: Row)
    requires row == NewRow(Plain("a", "x"), BLANK)
    ensures Step(Racing([row], true, Done(Some(BLANK), Registered("x", "", false)), Create(BLANK)), Go(1, 0, false)).flights
         == Racing([row], true, Done(Some(BLANK), Registered("x", "", false)), Done(Some(BLANK), Internal)).flights
  {
    assert Taken([row], "m", 1) by { assert [row][0].machine == "m"; }
  }

  /** Two probes with the same machine id can both pass the lookup; the second insert is then refused. */
  lemma {:induction false} RaceIsRefused()
    ensures var s := Run(Racing([], false, Begin, Begin).db, Race(), 8);
            && s.flights[0].pc == Done(Some(BLANK), Registered("x", "", false))
            && s.flights[1].pc == Done(Some(BLANK), Internal)
  {
    var db := Racing([], false, Begin, Begin).db;
    BothPassLookup();
    FirstInserts();
    assert Run(db, Race(), 7) == Step(Run(db, Race(), 6), Race()[6]);
    SecondIsRefused(NewRow(Plain("a", "x"), BLANK));
    assert Run(db, Race(), 8) == Step(Run(db, Race(), 7), Race()[7]);
  }
}
