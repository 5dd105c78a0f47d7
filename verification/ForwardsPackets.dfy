/** What edits mean for packets: at most one forward claims a packet, and an edit only moves the
  * packets its own rules match.
  */
module ForwardsPackets {
  import opened Wrappers
  import opened Forwards
  import opened ForwardsPlan
  import opened ForwardsEdits
  import opened ForwardsMasquerade

  /** An incoming packet as a DNAT rule sees it. */
  datatype Packet = Packet(proto: string, port: int, iface: string)

  /** Rules with extra match terms have a meaning these fields do not show; they are out of scope. */
  ghost predicate Plain(rules: seq<Rule>) {
    forall i :: 0 <= i < |rules| ==> !rules[i].extraMatch
  }

  predicate Matches(r: Rule, p: Packet) {
    r.proto == p.proto && r.srcPort == p.port && (r.iface == "" || r.iface == p.iface)
  }

  /** The chain's verdict: the first matching rule decides where the packet goes. */
  function Goal(rules: seq<Rule>, p: Packet): Option<(string, int)> {
    if rules == [] then None
    else if Matches(rules[0], p) then Some((rules[0].dstIP, rules[0].dstPort))
    else Goal(rules[1..], p)
  }

  ghost predicate ConflictFree(rules: seq<Rule>) {
    forall i, j :: 0 <= i < j < |rules| ==> !Conflicts(rules[i], rules[j])
  }

  // ---- conflicts are shared packets ----

  /** The port-in-use rule is about packets: two rules conflict when some packet matches both. */
  lemma {:induction false} ConflictIsSharedPacket(a: Rule, b: Rule)
    ensures Conflicts(a, b) <==> exists p :: Matches(a, p) && Matches(b, p)
  {
    if Conflicts(a, b) {
      var p := Packet(a.proto, a.srcPort, if a.iface != "" then a.iface else b.iface);
      assert Matches(a, p) && Matches(b, p);
    }
  }

  /** An add is refused exactly when some packet matches both the candidate and an existing rule. */
  lemma {:induction false} ClearMeansNoSharedPacket(rules: seq<Rule>, cand: Rule)
    requires Plain(rules)
    ensures Clear(rules, cand, 0) <==> forall r, p :: r in rules ==> !(Matches(r, p) && Matches(cand, p))
  {
    forall k | 0 <= k < |rules|
      ensures Blocks(rules[k], cand, 0) <==> exists p :: Matches(rules[k], p) && Matches(cand, p)
    {
      ConflictIsSharedPacket(rules[k], cand);
    }
    if !Clear(rules, cand, 0) {
      var k :| 0 <= k < |rules| && Blocks(rules[k], cand, 0);
      assert rules[k] in rules;
    }
  }

  // ---- the verdict ----

  /** A packet goes where some matching rule says, and nowhere when no rule matches. */
  lemma {:induction false} GoalFinds(rules: seq<Rule>, p: Packet)
    ensures Goal(rules, p).None? ==> forall r :: r in rules ==> !Matches(r, p)
    ensures Goal(rules, p).Some? ==>
            exists r :: r in rules && Matches(r, p) && Goal(rules, p) == Some((r.dstIP, r.dstPort))
    decreases |rules|
  {
    if rules != [] {
      if Matches(rules[0], p) {
        assert rules[0] in rules;
      } else {
        GoalFinds(rules[1..], p);
      }
    }
  }

  /** In a conflict-free ruleset at most one rule matches a packet. */
  lemma {:induction false} OneMatch(rules: seq<Rule>, a: Rule, b: Rule, p: Packet)
    requires ConflictFree(rules) && a in rules && b in rules && Matches(a, p) && Matches(b, p)
    ensures a == b
  {
    var i :| 0 <= i < |rules| && rules[i] == a;
    var j :| 0 <= j < |rules| && rules[j] == b;
    ConflictIsSharedPacket(a, b);
    ConflictIsSharedPacket(b, a);
  }

  lemma {:induction false} GoalOfMatch(rules: seq<Rule>, r: Rule, p: Packet)
    requires ConflictFree(rules) && r in rules && Matches(r, p)
    ensures Goal(rules, p) == Some((r.dstIP, r.dstPort))
  {
    GoalFinds(rules, p);
    if Goal(rules, p).Some? {
      var s :| s in rules && Matches(s, p) && Goal(rules, p) == Some((s.dstIP, s.dstPort));
      OneMatch(rules, r, s, p);
    }
  }

  /** Rule order is irrelevant in a conflict-free ruleset. */
  lemma {:induction false} OrderIsIrrelevant(rules: seq<Rule>, other: seq<Rule>, p: Packet)
    requires ConflictFree(rules) && multiset(rules) == multiset(other)
    ensures Goal(other, p) == Goal(rules, p)
  {
    GoalFinds(rules, p);
    GoalFinds(other, p);
    forall r
      ensures r in rules <==> r in other
    {
      assert r in rules <==> r in multiset(rules);
      assert r in other <==> r in multiset(other);
    }
    if Goal(other, p).Some? {
      var s :| s in other && Matches(s, p) && Goal(other, p) == Some((s.dstIP, s.dstPort));
      GoalOfMatch(rules, s, p);
    }
  }

  // ---- edits ----

  lemma {:induction false} GoalAppend(rules: seq<Rule>, r: Rule, p: Packet)
    ensures Goal(rules + [r], p) ==
      if Goal(rules, p).Some? then Goal(rules, p) else if Matches(r, p) then Some((r.dstIP, r.dstPort)) else None
    decreases |rules|
  {
    if rules == [] {
      assert rules + [r] == [r];
      assert Goal([r][1..], p) == None;
    } else {
      assert (rules + [r])[0] == rules[0] && (rules + [r])[1..] == rules[1..] + [r];
      GoalAppend(rules[1..], r, p);
    }
  }

  lemma {:induction false} GoalKeep(rules: seq<Rule>, n: nat, gone: set<int>, p: Packet)
    requires n <= |rules|
    requires forall i :: 0 <= i < |rules| && rules[i].handle in gone ==> !Matches(rules[i], p)
    ensures Goal(Keep(rules, n, gone), p) == Goal(rules[..n], p)
    decreases n
  {
    if n > 0 {
      GoalKeep(rules, n - 1, gone, p);
      assert rules[..n] == rules[..n - 1] + [rules[n - 1]];
      GoalAppend(rules[..n - 1], rules[n - 1], p);
      if rules[n - 1].handle !in gone {
        GoalAppend(Keep(rules, n - 1, gone), rules[n - 1], p);
      }
    }
  }

  /** What a deletion does to the verdicts: the deleted rule's packets lose theirs, all others keep
    * theirs. The first half needs a conflict-free ruleset, the second half does not. */
  lemma {:induction false} DeleteMeaning(t: Table, x: Rule, p: Packet)
    requires WellFormed(t) && x in t.pre
    ensures !Matches(x, p) ==> Goal(Trimmed(t, [x]).pre, p) == Goal(t.pre, p)
    ensures Matches(x, p) && ConflictFree(t.pre) ==> Goal(Trimmed(t, [x]).pre, p) == None
  {
    var gone, rest := RuleHandles([x]), Trimmed(t, [x]).pre;
    assert x in [x] && gone == {x.handle};
    assert t.pre[..|t.pre|] == t.pre;
    if !Matches(x, p) {
      GoalKeep(t.pre, |t.pre|, gone, p);
    } else if ConflictFree(t.pre) {
      GoalFinds(rest, p);
      if Goal(rest, p).Some? {
        var s :| s in rest && Matches(s, p);
        KeepMembers(t.pre, |t.pre|, gone, s);
        OneMatch(t.pre, x, s, p);
      }
    }
  }

  lemma AddMeaning(t: Table, cand: Rule, net: Net, p: Packet)
    requires Goal(t.pre, p) == None || !Matches(cand, p)
    ensures Goal(Grown(t, cand, net).pre, p) ==
      if Matches(cand, p) then Some((net.printed(cand.dstIP), cand.dstPort)) else Goal(t.pre, p)
  {
    GoalAppend(t.pre, Installed(cand, t.next, net), p);
  }

  /** If another rule owns the remembered handle by now, it is not in the new rule's way. */
  ghost predicate OwnerClear(rules: seq<Rule>, want: Rule, cand: Rule) {
    forall r :: r in rules && r.handle == want.handle && !SameForward(r, want) ==> !Conflicts(r, cand)
  }

  ghost predicate HandleTrusted(t: Table, e: Edit) {
    e.Update? ==> OwnerClear(t.pre, e.prior, e.cand)
  }

  /** The rule an edit removes, if any. */
  ghost predicate Removes(t: Table, e: Edit, p: Packet) {
    exists x :: x in Targets(t, e) && Matches(x, p)
  }

  ghost predicate Installs(e: Edit, p: Packet) {
    !e.Delete? && Matches(e.cand, p)
  }

  lemma SurvivorClear(t: Table, x: Rule, prior: Rule, cand: Rule, r: Rule)
    requires WellFormed(t) && x in t.pre && Resolve(t.pre, prior) == Ok([x])
    requires Clear(t.pre, cand, prior.handle) && OwnerClear(t.pre, prior, cand) && r in Trimmed(t, [x]).pre
    ensures r in t.pre && !Conflicts(r, cand)
  {
    assert x in [x];
    KeepMembers(t.pre, |t.pre|, RuleHandles([x]), r);
    var k :| 0 <= k < |t.pre| && t.pre[k] == r;
    assert !Blocks(t.pre[k], cand, prior.handle);
    ResolvesToOne(t.pre, prior);
  }

  lemma UpdateClearsRest(t: Table, x: Rule, prior: Rule, cand: Rule, p: Packet)
    requires WellFormed(t) && x in t.pre && Resolve(t.pre, prior) == Ok([x])
    requires Clear(t.pre, cand, prior.handle) && OwnerClear(t.pre, prior, cand) && Matches(cand, p)
    ensures Goal(Trimmed(t, [x]).pre, p) == None
  {
    var rest := Trimmed(t, [x]).pre;
    GoalFinds(rest, p);
    if Goal(rest, p).Some? {
      var s :| s in rest && Matches(s, p);
      SurvivorClear(t, x, prior, cand, s);
      ConflictIsSharedPacket(s, cand);
    }
  }

  /** The packets an accepted edit affects: the new rule's packets go to the new destination, the old
    * rule's other packets are no longer forwarded, and every other packet goes where it went before. */
  lemma {:induction false} EditMeaning(t: Table, e: Edit, net: Net, p: Packet)
    requires WellFormed(t) && Plain(t.pre) && ConflictFree(t.pre)
    requires Plan(ReadOf(t), e, net).Ok? && HandleTrusted(t, e)
    ensures Goal(After(t, e, net).pre, p) ==
      if Installs(e, p) then Some((net.printed(e.cand.dstIP), e.cand.dstPort))
      else if Removes(t, e, p) then None
      else Goal(t.pre, p)
  {
    match e
    case Add(cand) =>
      GoalFinds(t.pre, p);
      ClearMeansNoSharedPacket(t.pre, cand);
      AddMeaning(t.(layout := FULL), cand, net, p);
    case Update(prior, cand) =>
      UpdateMeaning(t, e, net, p);
    case Delete(want) =>
      var x := OneTarget(t, e, want);
      assert x in [x];
      DeleteMeaning(t, x, p);
  }

  lemma {:induction false} UpdateMeaning(t: Table, e: Edit, net: Net, p: Packet)
    requires WellFormed(t) && ConflictFree(t.pre) && e.Update?
    requires PlanUpdate(ReadOf(t), e.prior, e.cand, net).Ok? && OwnerClear(t.pre, e.prior, e.cand)
    ensures Goal(After(t, e, net).pre, p) ==
      if Installs(e, p) then Some((net.printed(e.cand.dstIP), e.cand.dstPort))
      else if Removes(t, e, p) then None
      else Goal(t.pre, p)
  {
    var full := t.(layout := FULL);
    var x := OneTarget(t, e, e.prior);
    assert x in [x];
    DeleteMeaning(full, x, p);
    if Matches(e.cand, p) { UpdateClearsRest(full, x, e.prior, e.cand, p); }
    AddMeaning(Trimmed(full, [x]), e.cand, net, p);
  }

  // ---- conflict-freedom ----

  lemma {:induction false} KeepConflictFree(rules: seq<Rule>, n: nat, gone: set<int>)
    requires n <= |rules| && ConflictFree(rules)
    ensures ConflictFree(Keep(rules, n, gone))
    decreases n
  {
    if n > 0 {
      KeepConflictFree(rules, n - 1, gone);
      var front, last := Keep(rules, n - 1, gone), rules[n - 1];
      forall i | 0 <= i < |front|
        ensures !Conflicts(front[i], last)
      {
        assert front[i] in front;
        KeepMembers(rules, n - 1, gone, front[i]);
      }
      assert Keep(rules, n, gone) == front || Keep(rules, n, gone) == front + [last];
    }
  }

  lemma GrownConflictFree(t: Table, cand: Rule, net: Net)
    requires ConflictFree(t.pre) && forall r :: r in t.pre ==> !Conflicts(r, cand)
    ensures ConflictFree(Grown(t, cand, net).pre)
  {
    var rule := Installed(cand, t.next, net);
    forall i | 0 <= i < |t.pre|
      ensures !Conflicts(t.pre[i], rule)
    {
      assert t.pre[i] in t.pre;
    }
  }

  lemma AddKeepsConflictFree(t: Table, cand: Rule, net: Net)
    requires ConflictFree(t.pre) && Clear(t.pre, cand, 0)
    ensures ConflictFree(Grown(t, cand, net).pre)
  {
    forall r | r in t.pre
      ensures !Conflicts(r, cand)
    {
      var k :| 0 <= k < |t.pre| && t.pre[k] == r;
      assert !Blocks(t.pre[k], cand, 0);
    }
    GrownConflictFree(t, cand, net);
  }

  lemma UpdateKeepsConflictFree(t: Table, x: Rule, prior: Rule, cand: Rule, net: Net)
    requires WellFormed(t) && ConflictFree(t.pre) && x in t.pre && Resolve(t.pre, prior) == Ok([x])
    requires Clear(t.pre, cand, prior.handle) && OwnerClear(t.pre, prior, cand)
    ensures ConflictFree(Grown(Trimmed(t, [x]), cand, net).pre)
  {
    KeepConflictFree(t.pre, |t.pre|, RuleHandles([x]));
    forall r | r in Trimmed(t, [x]).pre
      ensures !Conflicts(r, cand)
    {
      SurvivorClear(t, x, prior, cand, r);
    }
    GrownConflictFree(Trimmed(t, [x]), cand, net);
  }

  lemma SurvivorConflicts(t: Table, x: Rule, r: Rule, cand: Rule, net: Net)
    requires WellFormed(t) && x in t.pre && r in t.pre && x.handle != r.handle && Conflicts(r, cand)
    ensures !ConflictFree(Grown(Trimmed(t, [x]), cand, net).pre)
  {
    var rest := Trimmed(t, [x]).pre;
    assert RuleHandles([x]) == {x.handle};
    KeepMembers(t.pre, |t.pre|, RuleHandles([x]), r);
    var k :| 0 <= k < |rest| && rest[k] == r;
    var copy := Installed(cand, t.next, net);
    assert (rest + [copy])[k] == r && (rest + [copy])[|rest|] == copy;
    assert Conflicts(r, copy);
  }

  /** An accepted update keeps a conflict-free ruleset conflict-free exactly when no other rule that owns the
    * remembered handle by now conflicts with the new rule. */
  lemma {:induction false} UpdateSafeIff(t: Table, prior: Rule, cand: Rule, net: Net)
    requires WellFormed(t) && ConflictFree(t.pre) && Plan(ReadOf(t), Update(prior, cand), net).Ok?
    ensures ConflictFree(After(t, Update(prior, cand), net).pre) <==>
            forall r :: r in t.pre && r.handle == prior.handle && !SameForward(r, prior) ==> !Conflicts(r, cand)
  {
    var e, full := Update(prior, cand), t.(layout := FULL);
    var x := OneTarget(t, e, prior);
    if OwnerClear(t.pre, prior, cand) {
      UpdateKeepsConflictFree(full, x, prior, cand, net);
    } else {
      var r :| r in t.pre && r.handle == prior.handle && !SameForward(r, prior) && Conflicts(r, cand);
      SurvivorConflicts(full, x, r, cand, net);
    }
  }

  /** Adds and deletions always keep a conflict-free ruleset conflict-free, updates exactly when the handle can
    * be trusted. */
  lemma {:induction false} EditKeepsConflictFree(t: Table, e: Edit, net: Net)
    requires WellFormed(t) && ConflictFree(t.pre) && Plan(ReadOf(t), e, net).Ok?
    ensures ConflictFree(After(t, e, net).pre) <==> HandleTrusted(t, e)
  {
    match e
    case Add(cand) =>
      AddKeepsConflictFree(t.(layout := FULL), cand, net);
    case Update(prior, cand) =>
      UpdateSafeIff(t, prior, cand, net);
    case Delete(want) =>
      var x := OneTarget(t, e, want);
      KeepConflictFree(t.pre, |t.pre|, RuleHandles([x]));
  }

  /** A recycled handle makes the update skip the wrong rule: replacing the intended rule by a copy of
    * the rule that now owns the handle is accepted and leaves two rules for the same packets. */
  lemma {:induction false} RecycledHandleConflicts(t: Table, prior: Rule, r: Rule, net: Net)
    requires WellFormed(t) && ConflictFree(t.pre) && Resolve(t.pre, prior).Ok?
    requires r in t.pre && r.handle == prior.handle && !SameForward(r, prior) && ValidateForward(r, net) == ""
    ensures Plan(ReadOf(t), Update(prior, r), net).Ok?
    ensures !ConflictFree(After(t, Update(prior, r), net).pre)
  {
    OwnCopyIsClear(t.pre, r);
    UpdateSafeIff(t, prior, r, net);
  }

  lemma OwnCopyIsClear(rules: seq<Rule>, r: Rule)
    requires ConflictFree(rules) && r in rules && r.handle != 0
    ensures Clear(rules, r, r.handle)
  {
  }

  // ---- runs ----

  /** In every accepted update of the run the handle can be trusted when it runs. */
  ghost predicate TrustedRun(t: Table, edits: seq<Edit>, net: Net)
    decreases |edits|
  {
    edits != [] ==>
      && (Plan(ReadOf(t), edits[0], net).Ok? ==> HandleTrusted(t, edits[0]))
      && TrustedRun(Step(t, edits[0], net), edits[1..], net)
  }

  /** The ruleset is conflict-free before and after every edit of the run. */
  ghost predicate ConflictFreeRun(t: Table, edits: seq<Edit>, net: Net)
    decreases |edits|
  {
    ConflictFree(t.pre) && (edits != [] ==> ConflictFreeRun(Step(t, edits[0], net), edits[1..], net))
  }

  /** A run of edits leaves a conflict-free ruleset conflict-free throughout exactly when it is trusted: then at
    * most one forward claims a packet after every edit, and rule order never matters. */
  lemma {:induction false} RunKeepsConflictFree(t: Table, edits: seq<Edit>, net: Net)
    requires WellFormed(t) && ConflictFree(t.pre)
    ensures ConflictFreeRun(t, edits, net) <==> TrustedRun(t, edits, net)
    ensures TrustedRun(t, edits, net) ==> ConflictFree(Run(t, edits, net).pre)
    decreases |edits|
  {
    if edits != [] {
      var next := Step(t, edits[0], net);
      StepIsAfter(t, edits[0], net);
      if Plan(ReadOf(t), edits[0], net).Ok? { EditKeepsConflictFree(t, edits[0], net); }
      if ConflictFree(next.pre) { RunKeepsConflictFree(next, edits[1..], net); }
    }
  }
}
