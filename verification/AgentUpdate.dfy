/** The server's half of self-update (internal/server/agentupdate/agentupdate.go over the node rows of
  * internal/server/store/nodes.go): which build a node is offered, and from when.
  */
module AgentUpdate {
  import opened Wrappers
  import SelfUpdate

  datatype UpdateState = NoState | PlannedState | Said(phase: SelfUpdate.Phase) | TransientState

  /** The update columns of one node row. */
  datatype Row = Row(
    version: string, target: string, plannedAt: int,
    state: UpdateState, attempts: nat, error: string, doneAt: int)

  // ---- the store ----

  function SetPlanned(row: Row, target: string, at: int): Row {
    row.(target := target, plannedAt := at, doneAt := if row.target == target then row.doneAt else 0)
  }

  function Record(row: Row, target: string, state: UpdateState, attempts: nat, error: string, doneAt: int): Row {
    row.(attempts := attempts, state := state, error := error,
         doneAt := if doneAt > 0 then doneAt else row.doneAt,
         target := if target == "" then row.target else target)
  }

  function Clear(row: Row): Row {
    row.(attempts := 0, error := "", state := NoState, plannedAt := 0)
  }

  // ---- the stagger ----

  const FNV_OFFSET := 14695981039346656037
  const FNV_PRIME := 1099511628211
  const TWO64 := 0x1_0000_0000_0000_0000

  /** h ^= uint64(b): only the low byte of h changes. */
  function XorByte(h: nat, b: bv8): nat {
    h - h % 256 + ((h % 256) as bv8 ^ b) as nat
  }

  /** FNV-1a over a byte string, in 64-bit arithmetic. */
  function Fnv(s: seq<bv8>): (h: nat)
    ensures h < TWO64
  {
    if s == [] then FNV_OFFSET
    else XorByte(Fnv(s[..|s| - 1]), s[|s| - 1]) * FNV_PRIME % TWO64
  }

  method Fnv1a(s: seq<bv8>) returns (h: nat)
    ensures h == Fnv(s)
  {
    h := FNV_OFFSET;
    for i := 0 to |s|
      invariant h == Fnv(s[..i])
    {
      assert s[..i + 1][..i] == s[..i];
      h := XorByte(h, s[i]);
      h := h * FNV_PRIME % TWO64;
    }
    assert s[..|s|] == s;
  }

  /** Seconds after the anchor; the same node and target always get the same slot. */
  function StaggerOffset(nodeID: seq<bv8>, target: seq<bv8>, stagger: int): (s: int)
    ensures if stagger > 0 then 0 <= s < stagger else s == 0
  {
    if stagger <= 0 then 0 else Fnv(nodeID + [0] + target) % stagger
  }

  /** The slot is the hash of node and target, reduced by whole windows: the one second of the window that is. */
  lemma {:induction false} SlotIsTheHash(nodeID: seq<bv8>, target: seq<bv8>, stagger: int, s: int, windows: int)
    requires 0 <= s < stagger && Fnv(nodeID + [0] + target) == stagger * windows + s
    ensures StaggerOffset(nodeID, target, stagger) == s
  {
    var h: int := Fnv(nodeID + [0] + target);
    SelfUpdate.ModUnique(h, stagger, windows, s);
    assert h % stagger == s;
  }

  /** The published hashes of the empty text and of "a". */
  lemma {:induction false} FnvVectors()
    ensures Fnv([]) == 0xcbf2_9ce4_8422_2325 && Fnv([0x61]) == 0xaf63_dc4c_8601_ec8c
  {
    assert [0x61][..0] == [];
    assert FNV_OFFSET % 256 == 0x25 && (0x25 as bv8 ^ 0x61) as nat == 0x44;
  }

  // ---- the plan ----

  /** What the manager knows besides the row: the build it offers, whether it offers one now, and the
    * node's slot in the stagger window. */
  datatype Server = Server(version: string, offset: int)

  datatype Offer = NoOffer | Offered(target: string, after: int)

  function Anchor(row: Row, target: string, now: int): int {
    if row.target != target || row.plannedAt == 0 then now else row.plannedAt
  }

  function AfterOf(anchor: int, offset: int): int {
    if anchor + offset < 0 then 0 else anchor + offset
  }

  /** The manager's Target: the new row and the offer. */
  function Target(row: Row, server: Server, offering: bool, now: int): (Row, Offer) {
    if !offering then (row, NoOffer)
    else if row.version == server.version then
      if row.state != Said(SelfUpdate.Committed) || row.plannedAt != 0 then
        (SetPlanned(Record(row, server.version, Said(SelfUpdate.Committed), row.attempts, "", now), server.version, 0), NoOffer)
      else (row, NoOffer)
    else
      var anchor := Anchor(row, server.version, now);
      var next := if row.target != server.version || row.plannedAt == 0 then SetPlanned(row, server.version, anchor) else row;
      (next, Offered(server.version, AfterOf(anchor, server.offset)))
  }

  /** The start second shown to the operator; 0 when no plan is pending. */
  function PlannedStart(row: Row, offset: int): int {
    if row.plannedAt == 0 || row.target == "" || row.version == row.target then 0
    else if row.plannedAt + offset <= 0 then 0
    else row.plannedAt + offset
  }

  function OnReport(row: Row, r: SelfUpdate.Report, now: int): Row {
    if r.target == "" then row
    else
      var state := if r.phase == SelfUpdate.Failed && r.kind == Some(SelfUpdate.Transient) then TransientState else Said(r.phase);
      Record(row, r.target, state, r.attempts, r.error, if state == Said(SelfUpdate.Committed) then now else 0)
  }

  class NodeRecord {
    var row: Row

    constructor (row: Row)
      ensures this.row == row
    {
      this.row := row;
    }

    method Offer(server: Server, offering: bool, now: int) returns (offer: Offer)
      modifies this
      ensures (row, offer) == Target(old(row), server, offering, now)
    {
      if !offering { return NoOffer; }
      var target := server.version;
      if row.version == target {
        if row.state != Said(SelfUpdate.Committed) || row.plannedAt != 0 {
          row := Record(row, target, Said(SelfUpdate.Committed), row.attempts, "", now);
          row := SetPlanned(row, target, 0);
        }
        return NoOffer;
      }
      var anchor := row.plannedAt;
      if row.target != target || anchor == 0 {
        anchor := now;
        row := SetPlanned(row, target, anchor);
      }
      var after := anchor + server.offset;
      if after < 0 { after := 0; }
      return Offered(target, after);
    }

    method Report(r: SelfUpdate.Report, now: int)
      modifies this
      ensures row == OnReport(old(row), r, now)
    {
      if r.target == "" { return; }
      var state := Said(r.phase);
      if r.phase == SelfUpdate.Failed && r.kind == Some(SelfUpdate.Transient) { state := TransientState; }
      var doneAt := 0;
      if state == Said(SelfUpdate.Committed) { doneAt := now; }
      row := Record(row, r.target, state, r.attempts, r.error, doneAt);
    }

    /** Forgets the failures and the plan, keeps what the node runs and is meant to run: no start is pending,
      * and the next offer, if the node needs one, is planned from then. */
    method Retry()
      modifies this
      ensures row.attempts == 0 && row.error == "" && row.state == NoState && row.plannedAt == 0
      ensures row.version == old(row.version) && row.target == old(row.target) && row.doneAt == old(row.doneAt)
      ensures forall offset :: PlannedStart(row, offset) == 0
      ensures forall server: Server, now :: row.version != server.version ==>
                Target(row, server, true, now).1 == Offered(server.version, AfterOf(now, server.offset))
    {
      row := Clear(row);
    }
  }

  // ---- the plan is stable ----

  /** The node has a plan for this target. */
  predicate Planned(row: Row, target: string) {
    row.target == target && row.plannedAt != 0 && row.version != target
  }

  /** Every offer made to a planned node is the same one, whenever it is asked for. */
  lemma {:induction false} OfferIsStable(row: Row, server: Server, now: int)
    requires Planned(row, server.version)
    ensures Target(row, server, true, now) == (row, Offered(server.version, AfterOf(row.plannedAt, server.offset)))
  {
  }

  /** The first offer to a node that needs one plans it, and the panel shows the offered second. */
  lemma {:induction false} FirstOfferPlans(row: Row, server: Server, now: int)
    requires row.version != server.version && now > 0 && server.offset >= 0 && row.plannedAt >= 0 && server.version != ""
    ensures var (next, offer) := Target(row, server, true, now);
            && Planned(next, server.version)
            && offer == Offered(server.version, PlannedStart(next, server.offset))
            && Target(next, server, true, now + 1).1 == offer
  {
  }

  /** A report moves the plan of a planned node exactly when it names another target: then the next
    * offer is anchored anew. */
  lemma {:induction false} ReportKeepsPlan(row: Row, server: Server, r: SelfUpdate.Report, now: int, later: int)
    requires Planned(row, server.version)
    ensures Target(OnReport(row, r, now), server, true, later).1 == Target(row, server, true, later).1
       <==> r.target == "" || r.target == server.version
            || AfterOf(later, server.offset) == AfterOf(row.plannedAt, server.offset)
  {
  }
}
