/** Masquerade bookkeeping: nfpf keeps one masquerade rule per forward, and edits keep the balance. */
module ForwardsMasquerade {
  import opened Wrappers
  import opened Forwards
  import opened ForwardsPlan
  import opened ForwardsEdits

  /** Masquerade rules beyond what the forwards to d need. */
  function Surplus(t: Table, d: Dest): int { MasqCount(t.post, d) - Count(t.pre, d) }

  /** Every destination has at least one masquerade rule per forward. */
  ghost predicate Covered(t: Table) {
    forall d :: Surplus(t, d) >= 0
  }

  // ---- counting over the filters ----

  lemma {:induction false} CountAppend(rules: seq<Rule>, more: seq<Rule>, n: nat, d: Dest)
    requires n <= |rules|
    ensures CountTo(rules + more, n, d) == CountTo(rules, n, d)
    decreases n
  {
    if n > 0 { CountAppend(rules, more, n - 1, d); }
  }

  lemma {:induction false} MasqCountAppend(masq: seq<Masq>, more: seq<Masq>, n: nat, d: Dest)
    requires n <= |masq|
    ensures MasqCountTo(masq + more, n, d) == MasqCountTo(masq, n, d)
    decreases n
  {
    if n > 0 { MasqCountAppend(masq, more, n - 1, d); }
  }

  lemma CountSnoc(rules: seq<Rule>, r: Rule, d: Dest)
    ensures Count(rules + [r], d) == Count(rules, d) + if DestOf(r) == d then 1 else 0
  {
    CountAppend(rules, [r], |rules|, d);
  }

  lemma MasqCountSnoc(masq: seq<Masq>, m: Masq, d: Dest)
    ensures MasqCount(masq + [m], d) == MasqCount(masq, d) + if MasqDest(m) == d then 1 else 0
  {
    MasqCountAppend(masq, [m], |masq|, d);
  }

  /** Deleting rule i by its handle takes exactly that rule out of the count. */
  lemma {:induction false} CountKeepOne(rules: seq<Rule>, n: nat, i: nat, d: Dest)
    requires n <= |rules| && i < |rules|
    requires forall a, b :: 0 <= a < b < |rules| ==> rules[a].handle != rules[b].handle
    ensures Count(Keep(rules, n, {rules[i].handle}), d)
         == CountTo(rules, n, d) - if i < n && DestOf(rules[i]) == d then 1 else 0
    decreases n
  {
    if n > 0 {
      CountKeepOne(rules, n - 1, i, d);
      var gone := {rules[i].handle};
      if n - 1 != i {
        assert rules[n - 1].handle !in gone;
        CountSnoc(Keep(rules, n - 1, gone), rules[n - 1], d);
      }
    }
  }

  /** The handles listed are those of the masquerade rules that go. */
  ghost predicate Marks(c: Cleanup, gone: set<int>) {
    forall i :: 0 <= i < |c.masq| ==> c.masq[i].handle != 0 && (c.masq[i].handle in gone <==> Goes(c, i))
  }

  /** What is kept of the first n masquerade rules is all of them but the quota. */
  ghost predicate KeptCount(c: Cleanup, n: nat, kept: seq<Masq>, d: Dest)
    requires n <= |c.masq|
  {
    MasqCount(kept, d) == MasqCountTo(c.masq, n, d) - Taken(Quota(c, d), MasqCountTo(c.masq, n, d))
  }

  lemma KeepOneMore(c: Cleanup, n: nat, kept: seq<Masq>, d: Dest)
    requires n < |c.masq| && c.masq[n].handle != 0 && KeptCount(c, n, kept, d)
    ensures KeptCount(c, n + 1, if Goes(c, n) then kept else kept + [c.masq[n]], d)
  {
    if !Goes(c, n) { MasqCountSnoc(kept, c.masq[n], d); }
  }

  lemma {:induction false} MasqCountKeep(c: Cleanup, n: nat, gone: set<int>, d: Dest)
    requires n <= |c.masq| && Marks(c, gone)
    ensures KeptCount(c, n, KeepMasq(c.masq, n, gone), d)
    decreases n
  {
    if n > 0 {
      MasqCountKeep(c, n - 1, gone, d);
      KeepOneMore(c, n - 1, KeepMasq(c.masq, n - 1, gone), d);
    }
  }

  function TwinCountTo(rules: seq<Rule>, n: nat, x: Rule): nat
    requires n <= |rules|
  {
    if n == 0 then 0 else TwinCountTo(rules, n - 1, x) + if SameForward(rules[n - 1], x) then 1 else 0
  }

  /** How many rules carry the tuple of x, x included. */
  function TwinCount(rules: seq<Rule>, x: Rule): nat { TwinCountTo(rules, |rules|, x) }

  /** The surviving forwards as the cleanup counts them: every rule with the deleted tuple is out. */
  lemma {:induction false} CountRemaining(rules: seq<Rule>, x: Rule, d: Dest)
    requires forall r :: r in rules && r.handle == x.handle ==> SameForward(r, x)
    ensures Count(Remaining(rules, [x]), d) == Count(rules, d) - if DestOf(x) == d then TwinCount(rules, x) else 0
    decreases |rules|
  {
    if rules != [] {
      var n := |rules| - 1;
      var front, last := rules[..n], rules[n];
      CountRemaining(front, x, d);
      assert rules == front + [last];
      CountAppend(front, [last], n, d);
      TwinCountAppend(front, [last], n, x);
      assert Refers([x], last) <==> SameForward(last, x) by {
        assert x in [x];
        assert last in rules;
      }
      if SameForward(last, x) {
        assert Remaining(rules, [x]) == Remaining(front, [x]);
        assert DestOf(last) == DestOf(x);
      } else {
        assert Remaining(rules, [x]) == Remaining(front, [x]) + [last];
        CountSnoc(Remaining(front, [x]), last, d);
      }
    }
  }

  lemma {:induction false} TwinCountAppend(rules: seq<Rule>, more: seq<Rule>, n: nat, x: Rule)
    requires n <= |rules|
    ensures TwinCountTo(rules + more, n, x) == TwinCountTo(rules, n, x)
    decreases n
  {
    if n > 0 { TwinCountAppend(rules, more, n - 1, x); }
  }

  lemma {:induction false} TwinCountHas(rules: seq<Rule>, n: nat, i: nat, x: Rule)
    requires i < n <= |rules| && SameForward(rules[i], x)
    ensures TwinCountTo(rules, n, x) >= 1
    decreases n
  {
    if i < n - 1 { TwinCountHas(rules, n - 1, i, x); }
  }

  lemma {:induction false} TwinsCount(rules: seq<Rule>, n: nat, x: Rule)
    requires n <= |rules|
    ensures TwinCountTo(rules, n, x) <= CountTo(rules, n, DestOf(x))
    decreases n
  {
    if n > 0 { TwinsCount(rules, n - 1, x); }
  }

  // ---- one deletion ----

  /** How many masquerade rules of d a deletion of x takes away. */
  function Dropped(t: Table, x: Rule, d: Dest): int {
    if DestOf(x) != d then 0
    else if Surplus(t, d) + TwinCount(t.pre, x) >= 1 then 1
    else 0
  }

  lemma DroppedIsTaken(t: Table, x: Rule, d: Dest)
    requires WellFormed(t) && x in t.pre
    ensures var c := CleanupOf(ReadOf(t), [x]);
            Taken(Quota(c, d), MasqCount(t.post, d)) == Dropped(t, x, d)
  {
    var c := CleanupOf(ReadOf(t), [x]);
    CountRemaining(t.pre, x, d);
    CountSnoc([], x, d);
    assert [] + [x] == [x];
    assert Count(c.targets, d) == if DestOf(x) == d then 1 else 0;
    TwinsCount(t.pre, |t.pre|, x);
  }

  lemma TrimmedCounts(t: Table, x: Rule, d: Dest)
    requires WellFormed(t) && x in t.pre
    ensures Count(Trimmed(t, [x]).pre, d) == Count(t.pre, d) - if DestOf(x) == d then 1 else 0
    ensures MasqCount(Trimmed(t, [x]).post, d) == MasqCount(t.post, d) - Dropped(t, x, d)
  {
    var i :| 0 <= i < |t.pre| && t.pre[i] == x;
    assert RuleHandles([x]) == {x.handle};
    CountKeepOne(t.pre, |t.pre|, i, d);
    var c := CleanupOf(ReadOf(t), [x]);
    DropsExist(c);
    GoneIffGoes(t, c);
    MasqCountKeep(c, |t.post|, MasqGone(t, [x]), d);
    DroppedIsTaken(t, x, d);
  }

  lemma GoneIffGoes(t: Table, c: Cleanup)
    requires WellFormed(t) && c.masq == t.post
    ensures forall i :: 0 <= i < |c.masq| ==> (c.masq[i].handle in Handles(MasqDrops(c)) <==> Goes(c, i))
  {
    DropsExist(c);
    forall i | 0 <= i < |c.masq|
      ensures c.masq[i].handle in Handles(MasqDrops(c)) <==> Goes(c, i)
    {
    }
  }

  /** Deleting a forward whose destination is covered keeps the surplus of every destination, even
    * when several rules share its tuple. */
  lemma {:induction false} DeleteConserves(t: Table, x: Rule, d: Dest)
    requires WellFormed(t) && x in t.pre
    requires Surplus(t, DestOf(x)) >= 0
    ensures Surplus(Trimmed(t, [x]), d) == Surplus(t, d)
  {
    TrimmedCounts(t, x, d);
    CountHas(t.pre, |t.pre|, x, d);
    var i :| 0 <= i < |t.pre| && t.pre[i] == x;
    TwinCountHas(t.pre, |t.pre|, i, x);
  }

  lemma {:induction false} CountHas(rules: seq<Rule>, n: nat, x: Rule, d: Dest)
    requires n <= |rules|
    ensures x in rules[..n] && DestOf(x) == d ==> CountTo(rules, n, d) >= 1
    decreases n
  {
    if n > 0 {
      CountHas(rules, n - 1, x, d);
      assert rules[..n] == rules[..n - 1] + [rules[n - 1]];
    }
  }

  /** On any ruleset, covered or not, a deletion leaves every other destination alone. At its own
    * destination it leaves what the surviving forwards need, or all there is if that is less, exactly
    * when the destination was covered or lacks at least as many masquerade rules as rules share the
    * deleted tuple. With distinct tuples that always holds. */
  lemma {:induction false} DeleteLeavesEnough(t: Table, x: Rule)
    requires WellFormed(t) && x in t.pre
    ensures var d, u := DestOf(x), Trimmed(t, [x]);
            var enough := if MasqCount(t.post, d) <= Count(u.pre, d) then MasqCount(t.post, d) else Count(u.pre, d);
            MasqCount(u.post, d) >= enough <==> Surplus(t, d) >= 0 || Surplus(t, d) + TwinCount(t.pre, x) <= 0
    ensures TwinCount(t.pre, x) == 1 ==>
            Surplus(t, DestOf(x)) >= 0 || Surplus(t, DestOf(x)) + TwinCount(t.pre, x) <= 0
    ensures forall d :: d != DestOf(x) ==> MasqCount(Trimmed(t, [x]).post, d) == MasqCount(t.post, d)
  {
    TrimmedCounts(t, x, DestOf(x));
    CountHas(t.pre, |t.pre|, x, DestOf(x));
    assert t.pre[..|t.pre|] == t.pre;
    forall d | d != DestOf(x)
      ensures MasqCount(Trimmed(t, [x]).post, d) == MasqCount(t.post, d)
    {
      TrimmedCounts(t, x, d);
    }
  }

  lemma SharedQuota(a: Rule, b: Rule, m: Masq)
    requires SameForward(a, b) && MasqDest(m) == DestOf(a)
    ensures Remaining([a, b], [a]) == [] && Quota(Cleanup([a], [], [m]), DestOf(a)) == 1
  {
    var t := [a];
    assert a in t && Refers(t, a) && Refers(t, b);
    assert [a, b][..1] == [a] && [a][..0] == [];
    assert Remaining([a], t) == [] && Remaining([a, b], t) == Remaining([a], t) + [];
  }

  /** The only masquerade rule of a table goes when the deleted rule has a twin and no other rule needs it. */
  lemma OnlyMasqGoes(a: Rule, b: Rule, m: Masq)
    requires SameForward(a, b) && MasqDest(m) == DestOf(a) && m.handle != 0
    ensures m.handle in Handles(MasqDrops(Cleanup([a], Remaining([a, b], [a]), [m])))
  {
    SharedQuota(a, b, m);
    DropsExist(Cleanup([a], [], [m]));
    assert Goes(Cleanup([a], [], [m]), 0);
  }

  lemma FirstOfTwo(a: Rule, b: Rule)
    requires a.handle != 0 && a.handle != b.handle
    ensures Resolve([a, b], a) == Ok([a]) && Keep([a, b], 2, RuleHandles([a])) == [b]
  {
    assert RuleHandles([a]) == {a.handle};
    assert Keep([a, b], 1, {a.handle}) == [];
  }

  lemma OnlyMasqKept(m: Masq, gone: set<int>)
    requires m.handle in gone
    ensures KeepMasq([m], 1, gone) == []
  {
    assert KeepMasq([m], 0, gone) == [];
  }

  function SharedTable(rule: Rule): Table {
    Table(FULL, [rule.(handle := 1), rule.(handle := 2)], [Masq(3, rule.dstIP, rule.proto, rule.dstPort)], 4)
  }

  /** Two rules of one tuple that share a single masquerade rule: deleting the first takes that rule along and leaves
    * the second without. */
  lemma {:induction false} SharedMasqueradeGoes(rule: Rule, net: Net)
    ensures var t, e := SharedTable(rule), Delete(rule.(handle := 1));
            && WellFormed(t) && Plan(ReadOf(t), e, net).Ok?
            && After(t, e, net).pre == [rule.(handle := 2)] && After(t, e, net).post == []
  {
    var a, b, m := rule.(handle := 1), rule.(handle := 2), Masq(3, rule.dstIP, rule.proto, rule.dstPort);
    FirstOfTwo(a, b);
    OnlyMasqGoes(a, b, m);
    OnlyMasqKept(m, MasqGone(SharedTable(rule), [a]));
  }

  // ---- edits and runs ----

  lemma GrownSurplus(t: Table, cand: Rule, net: Net, d: Dest)
    ensures Surplus(Grown(t, cand, net), d) == Surplus(t, d)
  {
    CountSnoc(t.pre, Installed(cand, t.next, net), d);
    MasqCountSnoc(t.post, InstalledMasq(cand, t.next + 1, net), d);
  }

  /** Every accepted edit keeps the surplus of every destination, from any covered ruleset. */
  lemma {:induction false} EditConserves(t: Table, e: Edit, net: Net, d: Dest)
    requires WellFormed(t) && Covered(t) && Plan(ReadOf(t), e, net).Ok?
    ensures Surplus(After(t, e, net), d) == Surplus(t, d)
  {
    var full := t.(layout := FULL);
    match e
    case Add(cand) =>
      GrownSurplus(full, cand, net, d);
    case Update(prior, cand) =>
      var x := OneTarget(t, e, prior);
      assert Surplus(t, DestOf(x)) >= 0 && Surplus(full, DestOf(x)) == Surplus(t, DestOf(x));
      DeleteConserves(full, x, d);
      GrownSurplus(Trimmed(full, [x]), cand, net, d);
    case Delete(want) =>
      var x := OneTarget(t, e, want);
      assert Surplus(t, DestOf(x)) >= 0;
      DeleteConserves(t, x, d);
  }

  /** One operator edit: refused edits change nothing, accepted ones run as one transaction. */
  function Step(t: Table, e: Edit, net: Net): Table {
    var plan := Plan(ReadOf(t), e, net);
    if plan.Err? then t
    else
      var r := ExecAll(t, plan.value, net);
      if r.None? then t else r.value
  }

  function Run(t: Table, edits: seq<Edit>, net: Net): Table
    decreases |edits|
  {
    if edits == [] then t else Run(Step(t, edits[0], net), edits[1..], net)
  }

  lemma {:induction false} StepIsAfter(t: Table, e: Edit, net: Net)
    requires WellFormed(t)
    ensures Step(t, e, net) == if Plan(ReadOf(t), e, net).Ok? then After(t, e, net) else t
    ensures WellFormed(Step(t, e, net))
  {
    if Plan(ReadOf(t), e, net).Ok? {
      AcceptedEditApplies(t, e, net);
      AfterWellFormed(t, e, net);
    }
  }

  lemma StepConserves(t: Table, e: Edit, net: Net)
    requires WellFormed(t) && Covered(t)
    ensures Covered(Step(t, e, net))
    ensures forall d :: Surplus(Step(t, e, net), d) == Surplus(t, d)
  {
    StepIsAfter(t, e, net);
    forall d
      ensures Surplus(Step(t, e, net), d) == Surplus(t, d)
    {
      if Plan(ReadOf(t), e, net).Ok? { EditConserves(t, e, net, d); }
    }
  }

  /** Masquerade rules minus forwards, per destination, is the same after any sequence of edits. */
  lemma {:induction false} RunConserves(t: Table, edits: seq<Edit>, net: Net)
    requires WellFormed(t) && Covered(t)
    ensures WellFormed(Run(t, edits, net)) && Covered(Run(t, edits, net))
    ensures forall d :: Surplus(Run(t, edits, net), d) == Surplus(t, d)
    decreases |edits|
  {
    if edits != [] {
      StepIsAfter(t, edits[0], net);
      StepConserves(t, edits[0], net);
      RunConserves(Step(t, edits[0], net), edits[1..], net);
    }
  }
}
