/** Every accepted edit is a transaction nft carries out completely, and it does what it says. */
module ForwardsEdits {
  import opened Wrappers
  import opened Forwards
  import opened ForwardsPlan

  /** An edit never guesses: it acts on one existing rule with the wanted tuple, either the one the
    * handle still names or the only one with that tuple. */
  lemma {:induction false} ResolvesToOne(rules: seq<Rule>, want: Rule)
    requires Resolve(rules, want).Ok?
    ensures var ts := Resolve(rules, want).value;
            && |ts| == 1 && ts[0] in rules && SameForward(ts[0], want) && ts[0].handle != 0
            && (ts[0].handle == want.handle || Twins(rules, want) == ts)
  {
  }

  lemma InitRuns(t: Table, net: Net)
    requires WellFormed(t)
    ensures ExecAll(t, InitStmts(t.layout), net) == Some(t.(layout := FULL))
  {
    var a := if !t.layout.table then [AddTable] else [];
    var b := if !t.layout.prerouting then [AddPreChain] else [];
    var c := if !t.layout.postrouting then [AddPostChain] else [];
    ExecAppend(t, a + b, c, net);
    ExecAppend(t, a, b, net);
    var ta := t.(layout := t.layout.(table := true));
    var tb := t.(layout := t.layout.(table := true, prerouting := true));
    ExecOptional(t, a, AddTable, ta, net);
    ExecOptional(ta, b, AddPreChain, tb, net);
    ExecOptional(tb, c, AddPostChain, t.(layout := FULL), net);
  }

  lemma ExecOptional(t: Table, script: seq<Stmt>, s: Stmt, after: Table, net: Net)
    requires if script == [s] then Exec(t, s, net) == Some(after) else script == [] && t == after
    ensures ExecAll(t, script, net) == Some(after)
  {
  }

  predicate Creates(s: Stmt) {
    s.AddTable? || s.AddPreChain? || s.AddPostChain?
  }

  lemma {:induction false} PreDeletesCreateNothing(targets: seq<Rule>, s: Stmt)
    requires s in PreDeletes(targets)
    ensures s.DeletePre?
  {
    var n := |targets| - 1;
    if s in PreDeletes(targets[..n]) { PreDeletesCreateNothing(targets[..n], s); }
  }

  lemma {:induction false} PostDeletesCreateNothing(handles: seq<int>, s: Stmt)
    requires s in PostDeletes(handles)
    ensures s.DeletePost?
  {
    var n := |handles| - 1;
    if s in PostDeletes(handles[..n]) { PostDeletesCreateNothing(handles[..n], s); }
  }

  lemma {:induction false} DeletionsCreateNothing(c: Cleanup, s: Stmt)
    requires s in DeleteScript(c)
    ensures !Creates(s)
  {
    if s in PreDeletes(c.targets) {
      PreDeletesCreateNothing(c.targets, s);
    } else {
      PostDeletesCreateNothing(MasqDrops(c), s);
    }
  }

  /** What the statement would create is missing. */
  predicate Missing(l: Layout, s: Stmt)
    requires Creates(s)
  {
    match s
    case AddTable => !l.table
    case AddPreChain => !l.prerouting
    case AddPostChain => !l.postrouting
  }

  lemma {:induction false} InitCounts(l: Layout, s: Stmt)
    requires Creates(s)
    ensures multiset(InitStmts(l))[s] == if Missing(l, s) then 1 else 0
  {
  }

  lemma {:induction false} DeletionsCount(c: Cleanup, s: Stmt)
    requires Creates(s)
    ensures multiset(DeleteScript(c))[s] == 0
  {
    if s in DeleteScript(c) { DeletionsCreateNothing(c, s); }
  }

  lemma {:induction false} InstallCounts(cand: Rule, s: Stmt)
    requires Creates(s)
    ensures multiset([AddPre(cand), AddPost(cand)])[s] == 0
  {
  }

  lemma {:induction false} CountOfTwo(a: seq<Stmt>, b: seq<Stmt>, s: Stmt)
    ensures multiset(a + b)[s] == multiset(a)[s] + multiset(b)[s]
  {
  }

  lemma {:induction false} ScriptCounts(init: seq<Stmt>, dels: seq<Stmt>, cand: Rule, s: Stmt)
    requires Creates(s) && multiset(dels)[s] == 0
    ensures multiset(init + dels + [AddPre(cand), AddPost(cand)])[s] == multiset(init)[s]
    ensures multiset(init + [AddPre(cand), AddPost(cand)])[s] == multiset(init)[s]
  {
    InstallCounts(cand, s);
    CountOfTwo(init, dels, s);
    CountOfTwo(init + dels, [AddPre(cand), AddPost(cand)], s);
    CountOfTwo(init, [AddPre(cand), AddPost(cand)], s);
  }

  lemma {:induction false} UpdateIs(cur: Read, prior: Rule, cand: Rule, net: Net) returns (c: Cleanup)
    requires PlanUpdate(cur, prior, cand, net).Ok?
    ensures PlanUpdate(cur, prior, cand, net).value ==
            InitStmts(cur.layout) + DeleteScript(c) + [AddPre(cand), AddPost(cand)]
  {
    c := CleanupOf(cur, Resolve(cur.rules, prior).value);
  }

  lemma {:induction false} UpdateCounts(l: Layout, c: Cleanup, cand: Rule, script: seq<Stmt>, s: Stmt)
    requires Creates(s) && script == InitStmts(l) + DeleteScript(c) + [AddPre(cand), AddPost(cand)]
    ensures multiset(script)[s] == multiset(InitStmts(l))[s]
  {
    DeletionsCount(c, s);
    ScriptCounts(InitStmts(l), DeleteScript(c), cand, s);
  }

  lemma {:induction false} AddCounts(cur: Read, cand: Rule, net: Net, s: Stmt)
    requires PlanAdd(cur, cand, net).Ok? && Creates(s)
    ensures multiset(PlanAdd(cur, cand, net).value)[s] == multiset(InitStmts(cur.layout))[s]
  {
    ScriptCounts(InitStmts(cur.layout), [], cand, s);
  }

  lemma {:induction false} DeleteCounts(cur: Read, want: Rule, s: Stmt)
    requires PlanDelete(cur, want).Ok? && Creates(s)
    ensures multiset(PlanDelete(cur, want).value)[s] == 0
  {
    DeletionsCount(CleanupOf(cur, Resolve(cur.rules, want).value), s);
  }

  /** A script sets up the table or a chain exactly if it is to install a rule and finds the table or the chain missing,
    * and then once. */
  lemma {:induction false} CreatesWhatIsMissing(cur: Read, e: Edit, net: Net, s: Stmt)
    requires Plan(cur, e, net).Ok? && Creates(s)
    ensures multiset(Plan(cur, e, net).value)[s] == if !e.Delete? && Missing(cur.layout, s) then 1 else 0
  {
    InitCounts(cur.layout, s);
    match e
    case Add(cand) => AddCounts(cur, cand, net, s);
    case Update(prior, cand) =>
      var c := UpdateIs(cur, prior, cand, net);
      UpdateCounts(cur.layout, c, cand, PlanUpdate(cur, prior, cand, net).value, s);
    case Delete(want) => DeleteCounts(cur, want, s);
  }

  // ---- deletions ----

  lemma {:induction false} KeepMembers(rules: seq<Rule>, n: nat, gone: set<int>, r: Rule)
    requires n <= |rules|
    ensures r in Keep(rules, n, gone) <==> r.handle !in gone && exists k :: 0 <= k < n && rules[k] == r
    decreases n
  {
    if n > 0 {
      KeepMembers(rules, n - 1, gone, r);
      assert rules[n - 1] == r ==> exists k :: 0 <= k < n && rules[k] == r;
    }
  }

  lemma {:induction false} KeepMasqMembers(masq: seq<Masq>, n: nat, gone: set<int>, m: Masq)
    requires n <= |masq|
    ensures m in KeepMasq(masq, n, gone) <==> m.handle !in gone && exists k :: 0 <= k < n && masq[k] == m
    decreases n
  {
    if n > 0 {
      KeepMasqMembers(masq, n - 1, gone, m);
      assert masq[n - 1] == m ==> exists k :: 0 <= k < n && masq[k] == m;
    }
  }

  lemma {:induction false} KeepTwice(masq: seq<Masq>, n: nat, a: set<int>, b: set<int>)
    requires n <= |masq|
    ensures var once := KeepMasq(masq, n, a);
            KeepMasq(once, |once|, b) == KeepMasq(masq, n, a + b)
    decreases n
  {
    if n > 0 {
      KeepTwice(masq, n - 1, a, b);
      if masq[n - 1].handle !in a {
        KeepSnoc(KeepMasq(masq, n - 1, a), masq[n - 1], b);
      }
    }
  }

  lemma {:induction false} KeepSnoc(front: seq<Masq>, m: Masq, gone: set<int>)
    ensures KeepMasq(front + [m], |front| + 1, gone)
         == if m.handle in gone then KeepMasq(front, |front|, gone) else KeepMasq(front, |front|, gone) + [m]
  {
    var all := front + [m];
    KeepPrefix(front, all, |front|, gone);
    assert all[|front|] == m;
  }

  lemma {:induction false} KeepPrefix(a: seq<Masq>, b: seq<Masq>, n: nat, gone: set<int>)
    requires n <= |a| && a <= b
    ensures KeepMasq(a, n, gone) == KeepMasq(b, n, gone)
    decreases n
  {
    if n > 0 { KeepPrefix(a, b, n - 1, gone); }
  }

  lemma {:induction false} KeepNothing(masq: seq<Masq>, n: nat)
    requires n <= |masq|
    ensures KeepMasq(masq, n, {}) == masq[..n]
    decreases n
  {
    if n > 0 { KeepNothing(masq, n - 1); }
  }

  ghost predicate Distinct(hs: seq<int>) {
    forall i, j :: 0 <= i < j < |hs| ==> hs[i] != hs[j]
  }

  ghost predicate AllPresent(masq: seq<Masq>, hs: seq<int>) {
    forall i :: 0 <= i < |hs| ==> exists m :: m in masq && m.handle == hs[i]
  }

  lemma OnePostDelete(t: Table, mid: Table, gone: set<int>, m: Masq, net: Net)
    requires m.handle !in gone && m in t.post
    requires mid == t.(post := KeepMasq(t.post, |t.post|, gone))
    ensures ExecAll(mid, [DeletePost(m.handle)], net) == Some(t.(post := KeepMasq(t.post, |t.post|, gone + {m.handle})))
  {
    KeepMasqMembers(t.post, |t.post|, gone, m);
    KeepTwice(t.post, |t.post|, gone, {m.handle});
    var after := mid.(post := KeepMasq(mid.post, |mid.post|, {m.handle}));
    assert Exec(mid, DeletePost(m.handle), net) == Some(after);
    ExecOptional(mid, [DeletePost(m.handle)], DeletePost(m.handle), after, net);
  }

  lemma HandlesSnoc(hs: seq<int>)
    requires hs != []
    ensures Handles(hs) == Handles(hs[..|hs| - 1]) + {hs[|hs| - 1]}
  {
  }

  lemma {:induction false} PostDeletesRun(t: Table, hs: seq<int>, net: Net)
    requires Distinct(hs) && AllPresent(t.post, hs)
    ensures ExecAll(t, PostDeletes(hs), net) == Some(t.(post := KeepMasq(t.post, |t.post|, Handles(hs))))
    decreases |hs|
  {
    if hs == [] {
      KeepNothing(t.post, |t.post|);
      assert Handles(hs) == {};
      assert t.post[..|t.post|] == t.post;
    } else {
      var n := |hs| - 1;
      var front, h := hs[..n], hs[n];
      assert forall i :: 0 <= i < n ==> front[i] == hs[i];
      PostDeletesRun(t, front, net);
      ExecAppend(t, PostDeletes(front), [DeletePost(h)], net);
      var m :| m in t.post && m.handle == h;
      OnePostDelete(t, ExecAll(t, PostDeletes(front), net).value, Handles(front), m, net);
      HandlesSnoc(hs);
    }
  }

  /** With distinct handles, the dropped handles are exactly those of the masquerade rules that go. */
  lemma {:induction false} GoingIs(c: Cleanup, n: nat)
    requires n <= |c.masq|
    ensures forall h :: h in Going(c, n) <==> exists i :: 0 <= i < n && Goes(c, i) && c.masq[i].handle == h
    decreases n
  {
    if n > 0 {
      GoingIs(c, n - 1);
      forall h | h in Going(c, n)
        ensures exists i :: 0 <= i < n && Goes(c, i) && c.masq[i].handle == h
      {
        if h !in Going(c, n - 1) { assert Goes(c, n - 1) && c.masq[n - 1].handle == h; }
      }
    }
  }

  ghost predicate AtMostOnce(bag: multiset<int>) {
    forall h :: h in bag ==> bag[h] == 1
  }

  lemma {:induction false} GoingOnce(c: Cleanup, n: nat)
    requires n <= |c.masq|
    requires forall i, j :: 0 <= i < j < |c.masq| ==> c.masq[i].handle != c.masq[j].handle
    ensures AtMostOnce(multiset(Going(c, n)))
    decreases n
  {
    if n > 0 {
      GoingOnce(c, n - 1);
      GoingIs(c, n - 1);
      var h := c.masq[n - 1].handle;
      assert h !in Going(c, n - 1);
    }
  }

  lemma BagDistinct(hs: seq<int>)
    requires AtMostOnce(multiset(hs))
    ensures Distinct(hs)
  {
    forall i, j | 0 <= i < j < |hs|
      ensures hs[i] != hs[j]
    {
      var a, b := hs[..j], hs[j..];
      assert hs == a + b && a[i] == hs[i] && b[0] == hs[j];
      assert a[i] in multiset(a) && b[0] in multiset(b);
      assert multiset(hs) == multiset(a) + multiset(b);
      assert multiset(hs)[b[0]] <= 1;
    }
  }

  lemma {:induction false} DropsExist(c: Cleanup)
    requires forall i, j :: 0 <= i < j < |c.masq| ==> c.masq[i].handle != c.masq[j].handle
    ensures Distinct(MasqDrops(c)) && AllPresent(c.masq, MasqDrops(c))
    ensures forall h :: h in MasqDrops(c) <==> exists i :: 0 <= i < |c.masq| && Goes(c, i) && c.masq[i].handle == h
  {
    var n, hs := |c.masq|, MasqDrops(c);
    GoingOnce(c, n);
    GoingIs(c, n);
    BagDistinct(hs);
    SameMembers(hs, Going(c, n));
    forall i | 0 <= i < |hs|
      ensures exists m :: m in c.masq && m.handle == hs[i]
    {
      assert hs[i] in Going(c, n);
      var k :| 0 <= k < n && Goes(c, k) && c.masq[k].handle == hs[i];
      assert c.masq[k] in c.masq;
    }
  }

  lemma SameMembers(a: seq<int>, b: seq<int>)
    requires multiset(a) == multiset(b)
    ensures forall h :: h in a <==> h in b
  {
    assert forall h :: h in a <==> h in multiset(a);
    assert forall h :: h in b <==> h in multiset(b);
  }

  lemma PreDeleteRuns(t: Table, x: Rule, net: Net)
    requires x in t.pre && x.handle != 0
    ensures ExecAll(t, PreDeletes([x]), net) == Some(t.(pre := Keep(t.pre, |t.pre|, RuleHandles([x]))))
  {
    assert PreDeletes([x]) == [DeletePre(x.handle)];
    assert RuleHandles([x]) == {x.handle};
    ExecOptional(t, [DeletePre(x.handle)], DeletePre(x.handle), t.(pre := Keep(t.pre, |t.pre|, {x.handle})), net);
  }

  lemma DeleteRuns(t: Table, x: Rule, net: Net)
    requires WellFormed(t) && x in t.pre
    ensures ExecAll(t, DeleteScript(CleanupOf(ReadOf(t), [x])), net) == Some(Trimmed(t, [x]))
  {
    var c := CleanupOf(ReadOf(t), [x]);
    var drops := MasqDrops(c);
    DropsExist(c);
    PreDeleteRuns(t, x, net);
    ExecAppend(t, PreDeletes([x]), PostDeletes(drops), net);
    PostDeletesRun(t.(pre := Keep(t.pre, |t.pre|, RuleHandles([x]))), drops, net);
  }

  lemma AddRuns(t: Table, cand: Rule, net: Net)
    requires t.layout == FULL
    ensures ExecAll(t, [AddPre(cand), AddPost(cand)], net) == Some(Grown(t, cand, net))
  {
    ExecAppend(t, [AddPre(cand)], [AddPost(cand)], net);
    assert [AddPre(cand)] + [AddPost(cand)] == [AddPre(cand), AddPost(cand)];
    var mid := t.(pre := t.pre + [Installed(cand, t.next, net)], next := t.next + 1);
    ExecOptional(t, [AddPre(cand)], AddPre(cand), mid, net);
    ExecOptional(mid, [AddPost(cand)], AddPost(cand), Grown(t, cand, net), net);
  }

  lemma AddApplies(t: Table, cand: Rule, net: Net)
    requires WellFormed(t)
    ensures ExecAll(t, InitStmts(t.layout) + [AddPre(cand), AddPost(cand)], net)
         == Some(Grown(t.(layout := FULL), cand, net))
  {
    InitRuns(t, net);
    AddRuns(t.(layout := FULL), cand, net);
    ExecAppend(t, InitStmts(t.layout), [AddPre(cand), AddPost(cand)], net);
  }

  lemma TargetedEditApplies(t: Table, e: Edit, want: Rule, net: Net)
    requires WellFormed(t) && Plan(ReadOf(t), e, net).Ok?
    requires !e.Add? && want == if e.Update? then e.prior else e.want
    ensures ExecAll(t, Plan(ReadOf(t), e, net).value, net) == Some(After(t, e, net))
  {
    var x := OneTarget(t, e, want);
    if e.Update? {
      UpdateRuns(t, x, e.cand, net);
    } else {
      DeleteRuns(t, x, net);
    }
  }

  /** No accepted edit is refused by nft half-way, and its effect is the table After describes: the
    * resolved rule and its surplus masquerade rules gone, the new pair installed. */
  lemma {:induction false} AcceptedEditApplies(t: Table, e: Edit, net: Net)
    requires WellFormed(t) && Plan(ReadOf(t), e, net).Ok?
    ensures ExecAll(t, Plan(ReadOf(t), e, net).value, net) == Some(After(t, e, net))
  {
    match e
    case Add(cand) => AddApplies(t, cand, net);
    case Update(prior, _) => TargetedEditApplies(t, e, prior, net);
    case Delete(want) => TargetedEditApplies(t, e, want, net);
  }

  lemma OneTarget(t: Table, e: Edit, want: Rule) returns (x: Rule)
    requires e.Update? || e.Delete?
    requires want == if e.Update? then e.prior else e.want
    requires Resolve(t.pre, want).Ok?
    ensures x in t.pre && SameForward(x, want)
    ensures Targets(t, e) == Resolve(t.pre, want).value == [x]
  {
    ResolvesToOne(t.pre, want);
    x := Resolve(t.pre, want).value[0];
  }

  lemma UpdateRuns(t: Table, x: Rule, cand: Rule, net: Net)
    requires WellFormed(t) && x in t.pre
    ensures ExecAll(t, InitStmts(t.layout) + DeleteScript(CleanupOf(ReadOf(t), [x])) + [AddPre(cand), AddPost(cand)], net)
         == Some(Grown(Trimmed(t.(layout := FULL), [x]), cand, net))
  {
    var full := t.(layout := FULL);
    var a, b, c := InitStmts(t.layout), DeleteScript(CleanupOf(ReadOf(t), [x])), [AddPre(cand), AddPost(cand)];
    assert CleanupOf(ReadOf(full), [x]) == CleanupOf(ReadOf(t), [x]);
    InitRuns(t, net);
    DeleteRuns(full, x, net);
    AddRuns(Trimmed(full, [x]), cand, net);
    ExecAppend(t, a + b, c, net);
    ExecAppend(t, a, b, net);
  }

  // ---- what is installed ----

  /** An accepted addition or update leaves the new rule last, with all its fields and the next handle, its address as the
    * kernel prints it, and the new masquerade rule for its destination behind the others. */
  lemma {:induction false} NewPairIsLast(t: Table, e: Edit, net: Net)
    requires !e.Delete?
    ensures var u, cand := After(t, e, net), e.cand;
            && u.layout == Layout(true, true, true) && u.next == t.next + 2
            && u.pre != [] && u.post != []
            && u.pre[|u.pre| - 1] == Rule(cand.proto, cand.srcPort, cand.iface, net.printed(cand.dstIP), cand.dstPort,
                                          t.next, cand.comment, false)
            && u.post[|u.post| - 1] == Masq(t.next + 1, net.printed(cand.dstIP), cand.proto, cand.dstPort)
            && (e.Add? ==> u.pre[..|u.pre| - 1] == t.pre && u.post[..|u.post| - 1] == t.post)
  {
  }

  // ---- well-formedness ----

  lemma {:induction false} KeepBelow(rules: seq<Rule>, n: nat, gone: set<int>, next: int)
    requires n <= |rules| && RulesBelow(rules, next)
    ensures RulesBelow(Keep(rules, n, gone), next)
    decreases n
  {
    if n > 0 {
      KeepBelow(rules, n - 1, gone, next);
      var front, last := Keep(rules, n - 1, gone), rules[n - 1];
      forall i | 0 <= i < |front|
        ensures front[i].handle != last.handle
      {
        assert front[i] in front;
        KeepMembers(rules, n - 1, gone, front[i]);
      }
      assert Keep(rules, n, gone) == front || Keep(rules, n, gone) == front + [last];
    }
  }

  lemma {:induction false} KeepMasqBelow(masq: seq<Masq>, n: nat, gone: set<int>, next: int)
    requires n <= |masq| && MasqBelow(masq, next)
    ensures MasqBelow(KeepMasq(masq, n, gone), next)
    decreases n
  {
    if n > 0 {
      KeepMasqBelow(masq, n - 1, gone, next);
      var front, last := KeepMasq(masq, n - 1, gone), masq[n - 1];
      forall i | 0 <= i < |front|
        ensures front[i].handle != last.handle
      {
        assert front[i] in front;
        KeepMasqMembers(masq, n - 1, gone, front[i]);
      }
      assert KeepMasq(masq, n, gone) == front || KeepMasq(masq, n, gone) == front + [last];
    }
  }

  lemma TrimmedWellFormed(t: Table, targets: seq<Rule>)
    requires WellFormed(t)
    ensures WellFormed(Trimmed(t, targets))
  {
    KeepBelow(t.pre, |t.pre|, RuleHandles(targets), t.next);
    KeepMasqBelow(t.post, |t.post|, MasqGone(t, targets), t.next);
  }

  lemma GrownWellFormed(t: Table, cand: Rule, net: Net)
    requires WellFormed(t) && t.layout.table
    ensures WellFormed(Grown(t, cand, net))
  {
  }

  lemma {:induction false} AfterWellFormed(t: Table, e: Edit, net: Net)
    requires WellFormed(t)
    ensures WellFormed(After(t, e, net))
  {
    var full := t.(layout := FULL);
    match e
    case Add(cand) =>
      GrownWellFormed(full, cand, net);
    case Update(_, cand) =>
      TrimmedWellFormed(full, Targets(t, e));
      GrownWellFormed(Trimmed(full, Targets(t, e)), cand, net);
    case Delete(_) =>
      TrimmedWellFormed(t, Targets(t, e));
  }
}
