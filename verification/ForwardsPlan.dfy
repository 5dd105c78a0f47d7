/** Edits as nft transactions (internal/agent/forwards.go), run against the kernel's nat table. */
module ForwardsPlan {
  import opened Wrappers
  import opened Forwards

  datatype Edit =
    | Add(cand: Rule)
    | Update(prior: Rule, cand: Rule)
    | Delete(want: Rule)

  // ---- planning ----

  function InitStmts(l: Layout): seq<Stmt> {
    (if !l.table then [AddTable] else [])
    + (if !l.prerouting then [AddPreChain] else [])
    + (if !l.postrouting then [AddPostChain] else [])
  }

  function PreDeletes(targets: seq<Rule>): seq<Stmt> {
    if targets == [] then []
    else
      var n := |targets| - 1;
      PreDeletes(targets[..n]) + if targets[n].handle != 0 then [DeletePre(targets[n].handle)] else []
  }

  function PostDeletes(handles: seq<int>): seq<Stmt> {
    if handles == [] then []
    else PostDeletes(handles[..|handles| - 1]) + [DeletePost(handles[|handles| - 1])]
  }

  function DeleteScript(c: Cleanup): seq<Stmt> {
    PreDeletes(c.targets) + PostDeletes(MasqDrops(c))
  }

  method DeleteStmts(c: Cleanup) returns (stmts: seq<Stmt>)
    ensures stmts == DeleteScript(c)
  {
    stmts := [];
    for i := 0 to |c.targets|
      invariant stmts == PreDeletes(c.targets[..i])
    {
      assert c.targets[..i + 1][..i] == c.targets[..i];
      if c.targets[i].handle != 0 { stmts := stmts + [DeletePre(c.targets[i].handle)]; }
    }
    assert c.targets[..|c.targets|] == c.targets;
    ghost var before := stmts;
    var handles := MasqHandlesToDrop(c);
    for i := 0 to |handles|
      invariant stmts == before + PostDeletes(handles[..i])
    {
      assert handles[..i + 1][..i] == handles[..i];
      stmts := stmts + [DeletePost(handles[i])];
    }
    assert handles[..|handles|] == handles;
  }

  function CleanupOf(cur: Read, targets: seq<Rule>): Cleanup {
    Cleanup(targets, Remaining(cur.rules, targets), cur.masq)
  }

  function PlanAdd(cur: Read, cand: Rule, net: Net): Result<seq<Stmt>, string> {
    var code := ValidateForward(cand, net);
    if code != "" then Err(code)
    else if !Clear(cur.rules, cand, 0) then Err("conflict")
    else Ok(InitStmts(cur.layout) + [AddPre(cand), AddPost(cand)])
  }

  function PlanUpdate(cur: Read, prior: Rule, cand: Rule, net: Net): Result<seq<Stmt>, string> {
    var code := ValidateForward(cand, net);
    if code != "" then Err(code)
    else
      var targets := Resolve(cur.rules, prior);
      if targets.Err? then Err(targets.error)
      else if !Clear(cur.rules, cand, prior.handle) then Err("conflict")
      else Ok(InitStmts(cur.layout) + DeleteScript(CleanupOf(cur, targets.value)) + [AddPre(cand), AddPost(cand)])
  }

  function PlanDelete(cur: Read, want: Rule): Result<seq<Stmt>, string> {
    var targets := Resolve(cur.rules, want);
    if targets.Err? then Err(targets.error) else Ok(DeleteScript(CleanupOf(cur, targets.value)))
  }

  function Plan(cur: Read, e: Edit, net: Net): Result<seq<Stmt>, string> {
    match e
    case Add(cand) => PlanAdd(cur, cand, net)
    case Update(prior, cand) => PlanUpdate(cur, prior, cand, net)
    case Delete(want) => PlanDelete(cur, want)
  }

  // ---- the kernel ----

  /** The nat table: both chains in rule order, and the next handle to give out. */
  datatype Table = Table(layout: Layout, pre: seq<Rule>, post: seq<Masq>, next: int)

  function ReadOf(t: Table): Read { Read(t.pre, t.post, t.layout) }

  ghost predicate RulesBelow(rules: seq<Rule>, next: int) {
    && (forall i :: 0 <= i < |rules| ==> 0 < rules[i].handle < next)
    && (forall i, j :: 0 <= i < j < |rules| ==> rules[i].handle != rules[j].handle)
  }

  ghost predicate MasqBelow(masq: seq<Masq>, next: int) {
    && (forall i :: 0 <= i < |masq| ==> 0 < masq[i].handle < next)
    && (forall i, j :: 0 <= i < j < |masq| ==> masq[i].handle != masq[j].handle)
  }

  ghost predicate WellFormed(t: Table) {
    && t.next > 0 && RulesBelow(t.pre, t.next) && MasqBelow(t.post, t.next)
    && (t.layout.prerouting || t.layout.postrouting ==> t.layout.table)
  }

  /** A rule as the next read sees it. */
  function Installed(r: Rule, handle: int, net: Net): Rule {
    r.(handle := handle, dstIP := net.printed(r.dstIP), extraMatch := false)
  }

  function InstalledMasq(r: Rule, handle: int, net: Net): Masq {
    Masq(handle, net.printed(r.dstIP), r.proto, r.dstPort)
  }

  /** The first n rules without those whose handle is listed. */
  function Keep(rules: seq<Rule>, n: nat, gone: set<int>): seq<Rule>
    requires n <= |rules|
  {
    if n == 0 then []
    else if rules[n - 1].handle in gone then Keep(rules, n - 1, gone)
    else Keep(rules, n - 1, gone) + [rules[n - 1]]
  }

  function KeepMasq(masq: seq<Masq>, n: nat, gone: set<int>): seq<Masq>
    requires n <= |masq|
  {
    if n == 0 then []
    else if masq[n - 1].handle in gone then KeepMasq(masq, n - 1, gone)
    else KeepMasq(masq, n - 1, gone) + [masq[n - 1]]
  }

  /** One statement; None is nft refusing it. */
  function Exec(t: Table, s: Stmt, net: Net): Option<Table> {
    match s
    case AddTable => Some(t.(layout := t.layout.(table := true)))
    case AddPreChain =>
      if !t.layout.table then None else Some(t.(layout := t.layout.(prerouting := true)))
    case AddPostChain =>
      if !t.layout.table then None else Some(t.(layout := t.layout.(postrouting := true)))
    case DeletePre(h) =>
      if exists r :: r in t.pre && r.handle == h then Some(t.(pre := Keep(t.pre, |t.pre|, {h}))) else None
    case DeletePost(h) =>
      if exists m :: m in t.post && m.handle == h then Some(t.(post := KeepMasq(t.post, |t.post|, {h}))) else None
    case AddPre(r) =>
      if !t.layout.prerouting then None
      else Some(t.(pre := t.pre + [Installed(r, t.next, net)], next := t.next + 1))
    case AddPost(r) =>
      if !t.layout.postrouting then None
      else Some(t.(post := t.post + [InstalledMasq(r, t.next, net)], next := t.next + 1))
  }

  /** A script is one transaction: all of it or nothing. */
  function ExecAll(t: Table, script: seq<Stmt>, net: Net): Option<Table>
    decreases |script|
  {
    if script == [] then Some(t)
    else
      var next := Exec(t, script[0], net);
      if next.None? then None else ExecAll(next.value, script[1..], net)
  }

  lemma {:induction false} ExecAppend(t: Table, a: seq<Stmt>, b: seq<Stmt>, net: Net)
    ensures ExecAll(t, a + b, net) ==
      if ExecAll(t, a, net).None? then None else ExecAll(ExecAll(t, a, net).value, b, net)
    decreases |a|
  {
    if a == [] {
      assert a + b == b;
    } else {
      assert (a + b)[0] == a[0] && (a + b)[1..] == a[1..] + b;
      var next := Exec(t, a[0], net);
      if next.Some? { ExecAppend(next.value, a[1..], b, net); }
    }
  }

  // ---- what an accepted edit does ----

  const FULL := Layout(true, true, true)

  function Targets(t: Table, e: Edit): seq<Rule> {
    if e.Add? then []
    else
      var r := Resolve(t.pre, if e.Update? then e.prior else e.want);
      if r.Ok? then r.value else []
  }

  function Handles(hs: seq<int>): set<int> { set h | h in hs }

  function RuleHandles(rules: seq<Rule>): set<int> { set r | r in rules :: r.handle }

  function MasqGone(t: Table, targets: seq<Rule>): set<int> {
    Handles(MasqDrops(CleanupOf(ReadOf(t), targets)))
  }

  /** The table after the deletions of an edit's targets. */
  function Trimmed(t: Table, targets: seq<Rule>): Table {
    t.(pre := Keep(t.pre, |t.pre|, RuleHandles(targets)), post := KeepMasq(t.post, |t.post|, MasqGone(t, targets)))
  }

  function Grown(t: Table, cand: Rule, net: Net): Table {
    Table(t.layout, t.pre + [Installed(cand, t.next, net)], t.post + [InstalledMasq(cand, t.next + 1, net)], t.next + 2)
  }

  function After(t: Table, e: Edit, net: Net): Table {
    match e
    case Add(cand) => Grown(t.(layout := FULL), cand, net)
    case Update(_, cand) => Grown(Trimmed(t.(layout := FULL), Targets(t, e)), cand, net)
    case Delete(_) => Trimmed(t, Targets(t, e))
  }
}
