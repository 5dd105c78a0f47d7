/** Which edits are accepted, and with which code the others are refused, told by the fields of the rules and by
  * packets alone.
  */
module ForwardsAcceptance {
  import opened Wrappers
  import opened Forwards
  import opened ForwardsPlan
  import opened ForwardsPackets

  // ---- well-written rules ----

  predicate ProtoOk(r: Rule) { r.proto in {"tcp", "udp"} }

  predicate PortsOk(r: Rule) { 1 <= r.srcPort <= 65535 && 1 <= r.dstPort <= 65535 }

  predicate Harmless(c: char) {
    '0' <= c <= '9' || 'a' <= c <= 'z' || 'A' <= c <= 'Z' || c in {'_', '.', ':', '@', '-'}
  }

  /** No interface, or up to 32 letters, digits and harmless signs. */
  predicate IfaceOk(r: Rule) {
    |r.iface| <= 32 && forall i :: 0 <= i < |r.iface| ==> Harmless(r.iface[i])
  }

  /** Up to 128 characters, none of them a quote or a control character. */
  predicate CommentOk(r: Rule) {
    |r.comment| <= 128 && forall i :: 0 <= i < |r.comment| ==> r.comment[i] !in {'"', '\U{7f}'} && r.comment[i] as int >= 32
  }

  predicate FieldsOk(r: Rule, net: Net) {
    ProtoOk(r) && PortsOk(r) && net.isIPv4(r.dstIP) && IfaceOk(r) && CommentOk(r)
  }

  /** The code names the first field at fault. */
  predicate Faults(r: Rule, net: Net, code: string) {
    && (code == "bad_proto" <==> !ProtoOk(r))
    && (code == "bad_port" <==> ProtoOk(r) && !PortsOk(r))
    && (code == "bad_ip" <==> ProtoOk(r) && PortsOk(r) && !net.isIPv4(r.dstIP))
    && (code == "bad_iface" <==> ProtoOk(r) && PortsOk(r) && net.isIPv4(r.dstIP) && !IfaceOk(r))
    && (code == "bad_comment" <==> ProtoOk(r) && PortsOk(r) && net.isIPv4(r.dstIP) && IfaceOk(r) && !CommentOk(r))
    && (code == "" <==> FieldsOk(r, net))
  }

  lemma {:induction false} ValidateFaults(r: Rule, net: Net)
    ensures Faults(r, net, ValidateForward(r, net))
  {
  }

  // ---- the rule an edit refers to ----

  /** The five fields that make two rules the same forward. */
  predicate SameTuple(a: Rule, b: Rule) {
    (a.proto, a.srcPort, a.iface, a.dstIP, a.dstPort) == (b.proto, b.srcPort, b.iface, b.dstIP, b.dstPort)
  }

  predicate HasNamed(rules: seq<Rule>, want: Rule) {
    exists k :: 0 <= k < |rules| && rules[k].handle == want.handle && SameTuple(rules[k], want)
  }

  predicate HasTuple(rules: seq<Rule>, want: Rule) {
    exists k :: 0 <= k < |rules| && SameTuple(rules[k], want)
  }

  /** At least two rules have the tuple. */
  predicate HasTwo(rules: seq<Rule>, want: Rule) {
    exists k, l :: 0 <= k < l < |rules| && SameTuple(rules[k], want) && SameTuple(rules[l], want)
  }

  predicate HasHandled(rules: seq<Rule>, want: Rule) {
    exists k :: 0 <= k < |rules| && SameTuple(rules[k], want) && rules[k].handle != 0
  }

  /** The remembered handle is real, and a rule has it and the tuple, or just one rule has the tuple and has a handle. */
  predicate Locates(rules: seq<Rule>, want: Rule) {
    want.handle != 0 && (HasNamed(rules, want) || (HasHandled(rules, want) && !HasTwo(rules, want)))
  }

  /** No rule has the handle and the tuple, and several have the tuple. */
  predicate Doubtful(rules: seq<Rule>, want: Rule) {
    want.handle != 0 && !HasNamed(rules, want) && HasTwo(rules, want)
  }

  lemma {:induction false} TwinsAre(rules: seq<Rule>, want: Rule)
    ensures |Twins(rules, want)| >= 1 <==> HasTuple(rules, want)
    ensures |Twins(rules, want)| >= 2 <==> HasTwo(rules, want)
    decreases |rules|
  {
    if rules != [] {
      var n := |rules| - 1;
      var front := rules[..n];
      assert rules == front + [rules[n]];
      TwinsAre(front, want);
      TupleStep(front, rules[n], want);
    }
  }

  lemma TupleStep(front: seq<Rule>, last: Rule, want: Rule)
    ensures HasTuple(front + [last], want) <==> HasTuple(front, want) || SameTuple(last, want)
    ensures HasTwo(front + [last], want) <==> HasTwo(front, want) || (HasTuple(front, want) && SameTuple(last, want))
  {
    var all := front + [last];
    assert all[|front|] == last;
    if HasTuple(front, want) {
      var k :| 0 <= k < |front| && SameTuple(front[k], want);
      assert all[k] == front[k];
      if SameTuple(last, want) { assert SameTuple(all[k], want) && SameTuple(all[|front|], want); }
    }
    if HasTwo(front, want) {
      var k, l :| 0 <= k < l < |front| && SameTuple(front[k], want) && SameTuple(front[l], want);
      assert all[k] == front[k] && all[l] == front[l];
    }
  }

  lemma NamedIff(rules: seq<Rule>, want: Rule)
    ensures ByHandle(rules, want).Some? <==> HasNamed(rules, want)
  {
    if HasNamed(rules, want) {
      var k :| 0 <= k < |rules| && rules[k].handle == want.handle && SameTuple(rules[k], want);
      assert Named(rules[k], want);
    }
  }

  lemma HandledIff(rules: seq<Rule>, want: Rule)
    requires |Twins(rules, want)| == 1
    ensures Twins(rules, want)[0].handle != 0 <==> HasHandled(rules, want)
  {
    var t := Twins(rules, want)[0];
    assert t in Twins(rules, want);
    if HasHandled(rules, want) {
      var k :| 0 <= k < |rules| && SameTuple(rules[k], want) && rules[k].handle != 0;
      assert rules[k] in Twins(rules, want);
    }
  }

  /** What an edit refers to is found, doubtful or not there. */
  lemma {:induction false} ResolveIff(rules: seq<Rule>, want: Rule)
    ensures Resolve(rules, want).Ok? <==> Locates(rules, want)
    ensures !Locates(rules, want) ==>
              Resolve(rules, want) == Err(if Doubtful(rules, want) then "ambiguous" else "not_found")
  {
    NamedIff(rules, want);
    TwinsAre(rules, want);
    if |Twins(rules, want)| == 1 { HandledIff(rules, want); }
    if HasHandled(rules, want) { assert HasTuple(rules, want); }
  }

  // ---- ports in use ----

  predicate Shares(a: Rule, b: Rule, p: Packet) { Matches(a, p) && Matches(b, p) }

  /** Some packet that the new rule is to forward matches an existing rule other than the one replaced. */
  ghost predicate InUse(rules: seq<Rule>, cand: Rule, replaced: int) {
    exists k, p :: 0 <= k < |rules| && (replaced == 0 || rules[k].handle != replaced) && Shares(rules[k], cand, p)
  }

  lemma {:induction false} ClearIff(rules: seq<Rule>, cand: Rule, replaced: int)
    ensures Clear(rules, cand, replaced) <==> !InUse(rules, cand, replaced)
  {
    forall k | 0 <= k < |rules|
      ensures Conflicts(rules[k], cand) <==> exists p :: Shares(rules[k], cand, p)
    {
      ConflictIsSharedPacket(rules[k], cand);
      if Conflicts(rules[k], cand) {
        var p :| Matches(rules[k], p) && Matches(cand, p);
        assert Shares(rules[k], cand, p);
      }
      if p :| Shares(rules[k], cand, p) { assert Matches(rules[k], p) && Matches(cand, p); }
    }
  }

  // ---- edits ----

  /** An addition is accepted exactly when its fields are fine and no packet of it matches an existing rule; else the
    * code names the first field at fault, or the conflict. */
  lemma {:induction false} AddAcceptedIff(cur: Read, cand: Rule, net: Net)
    ensures var plan := Plan(cur, Add(cand), net);
            && (plan.Ok? <==> FieldsOk(cand, net) && !InUse(cur.rules, cand, 0))
            && (plan.Err? ==> if FieldsOk(cand, net) then plan.error == "conflict" else Faults(cand, net, plan.error))
  {
    ValidateFaults(cand, net);
    ClearIff(cur.rules, cand, 0);
  }

  /** A deletion is accepted exactly when what it refers to is found. */
  lemma {:induction false} DeleteAcceptedIff(cur: Read, want: Rule, net: Net)
    ensures var plan := Plan(cur, Delete(want), net);
            && (plan.Ok? <==> Locates(cur.rules, want))
            && (plan.Err? ==> plan.error == if Doubtful(cur.rules, want) then "ambiguous" else "not_found")
  {
    ResolveIff(cur.rules, want);
  }

  /** An update is accepted exactly when its fields are fine, what it refers to is found, and no packet of the new rule
    * matches an existing one other than the owner of the remembered handle; the first of these to fail gives the code. */
  lemma {:induction false} UpdateAcceptedIff(cur: Read, prior: Rule, cand: Rule, net: Net)
    ensures var plan := Plan(cur, Update(prior, cand), net);
            && (plan.Ok? <==> FieldsOk(cand, net) && Locates(cur.rules, prior) && !InUse(cur.rules, cand, prior.handle))
            && (plan.Err? ==>
                  if !FieldsOk(cand, net) then Faults(cand, net, plan.error)
                  else if !Locates(cur.rules, prior) then
                    plan.error == if Doubtful(cur.rules, prior) then "ambiguous" else "not_found"
                  else plan.error == "conflict")
  {
    ValidateFaults(cand, net);
    ResolveIff(cur.rules, prior);
    ClearIff(cur.rules, cand, prior.handle);
  }
}
