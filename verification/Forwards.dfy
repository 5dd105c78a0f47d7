/** Port forwards on a probe's nftables ruleset (internal/agent/forwards.go): planning an edit as one
  * transaction over a ruleset that other tools edit too.
  */
module Forwards {
  import opened Wrappers
  import opened Sorting

  datatype Rule = Rule(
    proto: string, srcPort: int, iface: string, dstIP: string, dstPort: int,
    handle: int, comment: string, extraMatch: bool)

  datatype Masq = Masq(handle: int, dstIP: string, proto: string, dstPort: int)

  datatype Layout = Layout(table: bool, prerouting: bool, postrouting: bool)

  datatype Read = Read(rules: seq<Rule>, masq: seq<Masq>, layout: Layout)

  /** One line of an nft script. */
  datatype Stmt =
    | AddTable
    | AddPreChain
    | AddPostChain
    | DeletePre(handle: int)
    | DeletePost(handle: int)
    | AddPre(rule: Rule)
    | AddPost(rule: Rule)

  /** What a masquerade rule and a forward have in common. */
  datatype Dest = Dest(ip: string, proto: string, port: int)

  function DestOf(r: Rule): Dest { Dest(r.dstIP, r.proto, r.dstPort) }

  function MasqDest(m: Masq): Dest { Dest(m.dstIP, m.proto, m.dstPort) }

  /** The address library: which texts denote an IPv4 address, and how nft prints them back. */
  datatype Net = Net(isIPv4: string -> bool, printed: string -> string)

  // ---- validation ----

  const MAX_IFACE_LEN := 32
  const MAX_COMMENT_LEN := 128

  predicate ValidPort(p: int) { 1 <= p <= 65535 }

  predicate IfaceChar(c: char) {
    || 'A' <= c <= 'Z' || 'a' <= c <= 'z' || '0' <= c <= '9'
    || c == '_' || c == '.' || c == ':' || c == '@' || c == '-'
  }

  predicate ValidIface(s: string) {
    1 <= |s| <= MAX_IFACE_LEN && forall i :: 0 <= i < |s| ==> IfaceChar(s[i])
  }

  predicate ValidComment(c: string) {
    |c| <= MAX_COMMENT_LEN && forall i :: 0 <= i < |c| ==> c[i] != '"' && c[i] >= ' ' && c[i] != '\U{7f}'
  }

  /** The error code of a rule the editor refuses, "" for an acceptable one. */
  function ValidateForward(r: Rule, net: Net): string {
    if r.proto != "tcp" && r.proto != "udp" then "bad_proto"
    else if !ValidPort(r.srcPort) then "bad_port"
    else if !ValidPort(r.dstPort) then "bad_port"
    else if !net.isIPv4(r.dstIP) then "bad_ip"
    else if r.iface != "" && !ValidIface(r.iface) then "bad_iface"
    else if !ValidComment(r.comment) then "bad_comment"
    else ""
  }

  // ---- choosing the rules an edit refers to ----

  predicate SameForward(a: Rule, b: Rule) {
    a.proto == b.proto && a.srcPort == b.srcPort && a.iface == b.iface && a.dstIP == b.dstIP && a.dstPort == b.dstPort
  }

  function Twins(rules: seq<Rule>, want: Rule): (ts: seq<Rule>)
    ensures forall t :: t in ts <==> t in rules && SameForward(t, want)
  {
    if rules == [] then []
    else
      var front, last := rules[..|rules| - 1], rules[|rules| - 1];
      if SameForward(last, want) then Twins(front, want) + [last] else Twins(front, want)
  }

  lemma TwinsOfOne(r: Rule, want: Rule)
    ensures Twins([r], want) == if SameForward(r, want) then [r] else []
  {
    assert [r][..0] == [];
  }

  /** Twins goes through the rules in order and keeps every one with the wanted tuple. */
  lemma {:induction false} TwinsFilters(a: seq<Rule>, b: seq<Rule>, want: Rule)
    ensures Twins(a + b, want) == Twins(a, want) + Twins(b, want)
    decreases |b|
  {
    if b == [] {
      assert a + b == a;
    } else {
      var n := |b| - 1;
      assert (a + b)[..|a| + n] == a + b[..n] && (a + b)[|a| + n] == b[n];
      TwinsFilters(a, b[..n], want);
    }
  }

  predicate Named(r: Rule, want: Rule) {
    r.handle == want.handle && SameForward(r, want)
  }

  predicate NoneNamed(rules: seq<Rule>, want: Rule) {
    forall i :: 0 <= i < |rules| ==> !Named(rules[i], want)
  }

  function ByHandle(rules: seq<Rule>, want: Rule): (r: Option<Rule>)
    ensures r.Some? ==> r.value in rules && Named(r.value, want)
    ensures r.None? ==> NoneNamed(rules, want)
  {
    if rules == [] then None
    else if Named(rules[0], want) then Some(rules[0])
    else ByHandle(rules[1..], want)
  }

  /** ByHandle finds the first rule with both the handle and the tuple. */
  lemma {:induction false} ByHandleIsFirst(rules: seq<Rule>, want: Rule, i: nat)
    requires i < |rules| && NoneNamed(rules[..i], want) && Named(rules[i], want)
    ensures ByHandle(rules, want) == Some(rules[i])
    decreases i
  {
    if i > 0 {
      assert rules[..i][0] == rules[0] && rules[1..][..i - 1] == rules[..i][1..];
      ByHandleIsFirst(rules[1..], want, i - 1);
    }
  }

  function Resolve(rules: seq<Rule>, want: Rule): Result<seq<Rule>, string> {
    if want.handle == 0 then Err("not_found")
    else if ByHandle(rules, want).Some? then Ok([ByHandle(rules, want).value])
    else
      var matches := Twins(rules, want);
      if |matches| == 0 then Err("not_found")
      else if |matches| == 1 then
        if matches[0].handle == 0 then Err("not_found") else Ok(matches)
      else Err("ambiguous")
  }

  method ResolveTargets(rules: seq<Rule>, want: Rule) returns (r: Result<seq<Rule>, string>)
    ensures r == Resolve(rules, want)
  {
    if want.handle != 0 {
      for i := 0 to |rules|
        invariant NoneNamed(rules[..i], want)
      {
        if rules[i].handle == want.handle && SameForward(rules[i], want) {
          ByHandleIsFirst(rules, want, i);
          return Ok([rules[i]]);
        }
      }
      assert rules[..|rules|] == rules;
    }
    if want.handle == 0 { return Err("not_found"); }
    var matches := [];
    for i := 0 to |rules|
      invariant matches == Twins(rules[..i], want)
    {
      assert rules[..i + 1][..i] == rules[..i];
      if SameForward(rules[i], want) { matches := matches + [rules[i]]; }
    }
    assert rules[..|rules|] == rules;
    if |matches| == 0 { return Err("not_found"); }
    if |matches| == 1 {
      if matches[0].handle == 0 { return Err("not_found"); }
      return Ok(matches);
    }
    return Err("ambiguous");
  }

  /** `without`: the rules no target refers to, by handle or by tuple. */
  predicate Refers(targets: seq<Rule>, r: Rule) {
    exists t :: t in targets && ((t.handle != 0 && r.handle == t.handle) || SameForward(r, t))
  }

  function Remaining(rules: seq<Rule>, targets: seq<Rule>): seq<Rule> {
    if rules == [] then []
    else
      var front, last := rules[..|rules| - 1], rules[|rules| - 1];
      Remaining(front, targets) + if Refers(targets, last) then [] else [last]
  }

  method Without(rules: seq<Rule>, targets: seq<Rule>) returns (out: seq<Rule>)
    ensures out == Remaining(rules, targets)
  {
    out := [];
    for i := 0 to |rules|
      invariant out == Remaining(rules[..i], targets)
    {
      var r := rules[i];
      var drop := false;
      for j := 0 to |targets|
        invariant !drop
        invariant forall k :: 0 <= k < j ==>
          !((targets[k].handle != 0 && r.handle == targets[k].handle) || SameForward(r, targets[k]))
      {
        var t := targets[j];
        if (t.handle != 0 && r.handle == t.handle) || SameForward(r, t) {
          assert t in targets;
          drop := true;
          break;
        }
      }
      assert drop == Refers(targets, r);
      assert rules[..i + 1][..i] == rules[..i];
      if !drop { out := out + [r]; }
    }
    assert rules[..|rules|] == rules;
  }

  // ---- conflicts ----

  /** Two rules collide unless both name an interface and the names differ. */
  predicate Conflicts(ex: Rule, cand: Rule) {
    && ex.proto == cand.proto && ex.srcPort == cand.srcPort
    && !(ex.iface != "" && cand.iface != "" && ex.iface != cand.iface)
  }

  predicate Blocks(ex: Rule, cand: Rule, selfHandle: int) {
    !(ex.handle != 0 && ex.handle == selfHandle) && Conflicts(ex, cand)
  }

  /** The first rule that blocks the candidate, as an index. */
  ghost predicate IsConflict(rules: seq<Rule>, cand: Rule, selfHandle: int, r: Option<nat>) {
    match r
    case Some(i) =>
      i < |rules| && Blocks(rules[i], cand, selfHandle) && forall k :: 0 <= k < i ==> !Blocks(rules[k], cand, selfHandle)
    case None => forall k :: 0 <= k < |rules| ==> !Blocks(rules[k], cand, selfHandle)
  }

  predicate Clear(rules: seq<Rule>, cand: Rule, selfHandle: int) {
    forall k :: 0 <= k < |rules| ==> !Blocks(rules[k], cand, selfHandle)
  }

  method ConflictWith(rules: seq<Rule>, cand: Rule, selfHandle: int) returns (r: Option<nat>)
    ensures IsConflict(rules, cand, selfHandle, r)
    ensures r.None? <==> Clear(rules, cand, selfHandle)
  {
    for i := 0 to |rules|
      invariant forall k :: 0 <= k < i ==> !Blocks(rules[k], cand, selfHandle)
    {
      var ex := rules[i];
      if ex.handle != 0 && ex.handle == selfHandle { continue; }
      if ex.proto != cand.proto || ex.srcPort != cand.srcPort { continue; }
      if ex.iface != "" && cand.iface != "" && ex.iface != cand.iface { continue; }
      return Some(i);
    }
    return None;
  }

  // ---- masquerade rules to drop with a forward ----

  /** How many of the first n rules forward to d. */
  function CountTo(rules: seq<Rule>, n: nat, d: Dest): (k: nat)
    requires n <= |rules|
    ensures k <= n
  {
    if n == 0 then 0 else CountTo(rules, n - 1, d) + if DestOf(rules[n - 1]) == d then 1 else 0
  }

  function MasqCountTo(masq: seq<Masq>, n: nat, d: Dest): (k: nat)
    requires n <= |masq|
    ensures k <= n
  {
    if n == 0 then 0 else MasqCountTo(masq, n - 1, d) + if MasqDest(masq[n - 1]) == d then 1 else 0
  }

  function Count(rules: seq<Rule>, d: Dest): nat { CountTo(rules, |rules|, d) }

  function MasqCount(masq: seq<Masq>, d: Dest): nat { MasqCountTo(masq, |masq|, d) }

  /** What the cleanup looks at: the forwards that go, those that stay, and the masquerade rules. */
  datatype Cleanup = Cleanup(targets: seq<Rule>, remaining: seq<Rule>, masq: seq<Masq>)

  /** How many masquerade rules of one destination go: at most one per deleted forward, and never
    * more than the surplus over what the surviving forwards need. */
  function Quota(c: Cleanup, d: Dest): int {
    var spare := MasqCount(c.masq, d) - Count(c.remaining, d);
    if Count(c.targets, d) > spare then spare else Count(c.targets, d)
  }

  /** Rule i goes when fewer than the quota of its destination come before it. */
  predicate Goes(c: Cleanup, i: nat)
    requires i < |c.masq|
  {
    var d := MasqDest(c.masq[i]);
    MasqCountTo(c.masq, i, d) < Quota(c, d) && c.masq[i].handle != 0
  }

  /** The handles that go among the first n rules, restricted to some destinations. */
  ghost function DropBag(c: Cleanup, n: nat, dests: set<Dest>): multiset<int>
    requires n <= |c.masq|
  {
    if n == 0 then multiset{}
    else if MasqDest(c.masq[n - 1]) in dests && Goes(c, n - 1) then DropBag(c, n - 1, dests) + multiset{c.masq[n - 1].handle}
    else DropBag(c, n - 1, dests)
  }

  /** The handles that go among the first n rules, in ruleset order. */
  function Going(c: Cleanup, n: nat): (hs: seq<int>)
    requires n <= |c.masq|
  {
    if n == 0 then []
    else if Goes(c, n - 1) then Going(c, n - 1) + [c.masq[n - 1].handle]
    else Going(c, n - 1)
  }

  ghost function AllDests(masq: seq<Masq>): set<Dest> {
    set m | m in masq :: MasqDest(m)
  }

  function HandlesTo(masq: seq<Masq>, n: nat, d: Dest): (hs: seq<int>)
    requires n <= |masq|
    ensures |hs| == MasqCountTo(masq, n, d)
  {
    if n == 0 then []
    else if MasqDest(masq[n - 1]) == d then HandlesTo(masq, n - 1, d) + [masq[n - 1].handle]
    else HandlesTo(masq, n - 1, d)
  }

  /** The bag of the nonzero ones among the first n handles. */
  ghost function NonZero(hs: seq<int>, n: nat): multiset<int>
    requires n <= |hs|
  {
    if n == 0 then multiset{}
    else if hs[n - 1] != 0 then NonZero(hs, n - 1) + multiset{hs[n - 1]}
    else NonZero(hs, n - 1)
  }

  lemma {:induction false} NonZeroPrefix(a: seq<int>, b: seq<int>, n: nat)
    requires n <= |a| && n <= |b| && a[..n] == b[..n]
    ensures NonZero(a, n) == NonZero(b, n)
    decreases n
  {
    if n > 0 {
      assert a[n - 1] == a[..n][n - 1] == b[..n][n - 1] == b[n - 1];
      assert a[..n - 1] == a[..n][..n - 1] && b[..n - 1] == b[..n][..n - 1];
      NonZeroPrefix(a, b, n - 1);
    }
  }

  /** How many of a destination's handles the inner loop takes from the first n rules. */
  function Taken(quota: int, all: nat): (k: nat)
    ensures k <= all
  {
    if quota < 0 then 0 else if quota < all then quota else all
  }

  /** One more handle of a destination of which some were taken before. */
  ghost function NextBag(bag: multiset<int>, before: nat, quota: int, h: int): multiset<int> {
    if before < quota && h != 0 then bag + multiset{h} else bag
  }

  lemma TakenNext(before: seq<int>, h: int, q: int)
    ensures NonZero(before + [h], Taken(q, |before| + 1)) == NextBag(NonZero(before, Taken(q, |before|)), |before|, q, h)
  {
    var k := Taken(q, |before|);
    assert (before + [h])[..k] == before[..k];
    NonZeroPrefix(before + [h], before, k);
  }

  lemma BagStep(c: Cleanup, n: nat, d: Dest)
    requires 0 < n <= |c.masq| && MasqDest(c.masq[n - 1]) == d
    ensures DropBag(c, n, {d})
         == NextBag(DropBag(c, n - 1, {d}), MasqCountTo(c.masq, n - 1, d), Quota(c, d), c.masq[n - 1].handle)
  {
  }

  /** The nonzero handles of one destination, up to its quota, are those that go. */
  ghost predicate BagIs(c: Cleanup, n: nat, d: Dest, quota: int)
    requires n <= |c.masq|
  {
    NonZero(HandlesTo(c.masq, n, d), Taken(quota, MasqCountTo(c.masq, n, d))) == DropBag(c, n, {d})
  }

  lemma BagElsewhere(c: Cleanup, n: nat, d: Dest, quota: int)
    requires 0 < n <= |c.masq| && quota == Quota(c, d) && BagIs(c, n - 1, d, quota) && MasqDest(c.masq[n - 1]) != d
    ensures BagIs(c, n, d, quota)
  {
  }

  lemma BagHere(c: Cleanup, n: nat, d: Dest, quota: int)
    requires 0 < n <= |c.masq| && quota == Quota(c, d) && BagIs(c, n - 1, d, quota) && MasqDest(c.masq[n - 1]) == d
    ensures BagIs(c, n, d, quota)
  {
    var before, h := HandlesTo(c.masq, n - 1, d), c.masq[n - 1].handle;
    BagStep(c, n, d);
    TakenNext(before, h, quota);
    assert HandlesTo(c.masq, n, d) == before + [h];
  }

  lemma {:induction false} BagOfOneDest(c: Cleanup, n: nat, d: Dest, quota: int)
    requires n <= |c.masq| && quota == Quota(c, d)
    ensures BagIs(c, n, d, quota)
    decreases n
  {
    if n > 0 {
      BagOfOneDest(c, n - 1, d, quota);
      if MasqDest(c.masq[n - 1]) == d { BagHere(c, n, d, quota); } else { BagElsewhere(c, n, d, quota); }
    }
  }

  lemma {:induction false} BagsAddUp(c: Cleanup, n: nat, a: set<Dest>, b: set<Dest>, whole: set<Dest>)
    requires n <= |c.masq|
    requires a !! b
    requires forall d :: d in whole && Quota(c, d) > 0 ==> d in a || d in b
    requires forall d :: (d in a || d in b) && d in AllDests(c.masq) ==> d in whole
    ensures DropBag(c, n, whole) == DropBag(c, n, a) + DropBag(c, n, b)
    decreases n
  {
    if n > 0 {
      BagsAddUp(c, n - 1, a, b, whole);
      var m := c.masq[n - 1];
      assert m in c.masq && MasqDest(m) in AllDests(c.masq);
    }
  }

  lemma {:induction false} EmptyBag(c: Cleanup, n: nat)
    requires n <= |c.masq|
    ensures DropBag(c, n, {}) == multiset{}
    decreases n
  {
    if n > 0 { EmptyBag(c, n - 1); }
  }

  method Tally(rules: seq<Rule>) returns (t: map<Dest, int>)
    ensures forall d :: Count(rules, d) == if d in t then t[d] else 0
    ensures forall d :: d in t ==> t[d] > 0
  {
    t := map[];
    for i := 0 to |rules|
      invariant forall d :: CountTo(rules, i, d) == if d in t then t[d] else 0
      invariant forall d :: d in t ==> t[d] > 0
    {
      var d := DestOf(rules[i]);
      t := t[d := (if d in t then t[d] else 0) + 1];
    }
  }

  method Available(masq: seq<Masq>) returns (avail: map<Dest, seq<int>>)
    ensures forall d :: HandlesTo(masq, |masq|, d) == if d in avail then avail[d] else []
  {
    avail := map[];
    for i := 0 to |masq|
      invariant forall d :: HandlesTo(masq, i, d) == if d in avail then avail[d] else []
    {
      var d := MasqDest(masq[i]);
      avail := avail[d := (if d in avail then avail[d] else []) + [masq[i].handle]];
    }
  }

  /** The masquerade handles an edit deletes, ascending. */
  function MasqDrops(c: Cleanup): seq<int> {
    SortInts(Going(c, |c.masq|))
  }

  /** One destination's share, appended to the output. */
  method TakeHandles(out: seq<int>, handles: seq<int>, n: int) returns (longer: seq<int>)
    requires n <= |handles|
    ensures multiset(longer) == multiset(out) + NonZero(handles, Taken(n, |handles|))
  {
    longer := out;
    for i := 0 to Taken(n, |handles|)
      invariant multiset(longer) == multiset(out) + NonZero(handles, i)
    {
      if handles[i] != 0 { longer := longer + [handles[i]]; }
    }
  }

  lemma OneDestMore(c: Cleanup, done: set<Dest>, k: Dest)
    requires k !in done
    ensures DropBag(c, |c.masq|, done + {k})
         == DropBag(c, |c.masq|, done) + NonZero(HandlesTo(c.masq, |c.masq|, k), Taken(Quota(c, k), MasqCount(c.masq, k)))
  {
    BagOfOneDest(c, |c.masq|, k, Quota(c, k));
    BagsAddUp(c, |c.masq|, done, {k}, done + {k});
  }

  lemma AllDestsDone(c: Cleanup, done: set<Dest>)
    requires forall d :: Quota(c, d) > 0 ==> d in done
    ensures DropBag(c, |c.masq|, done) == multiset(Going(c, |c.masq|))
  {
    BagsAddUp(c, |c.masq|, done, {}, AllDests(c.masq));
    EmptyBag(c, |c.masq|);
    BagOfAllDests(c, |c.masq|);
  }

  lemma {:induction false} BagOfAllDests(c: Cleanup, n: nat)
    requires n <= |c.masq|
    ensures DropBag(c, n, AllDests(c.masq)) == multiset(Going(c, n))
    decreases n
  {
    if n > 0 {
      BagOfAllDests(c, n - 1);
      var m := c.masq[n - 1];
      assert m in c.masq && MasqDest(m) in AllDests(c.masq);
    }
  }

  lemma SortOfAll(c: Cleanup, done: set<Dest>, out: seq<int>)
    requires forall d :: Quota(c, d) > 0 ==> d in done
    requires multiset(out) == DropBag(c, |c.masq|, done)
    ensures SortInts(out) == MasqDrops(c)
  {
    AllDestsDone(c, done);
    SortIntsSorts(out);
    SortIntsSorts(Going(c, |c.masq|));
    SortedIsUnique(SortInts(out), MasqDrops(c));
  }

  /** The map over destinations is visited in an arbitrary order; the sorted result does not show it. */
  method MasqHandlesToDrop(c: Cleanup) returns (out: seq<int>)
    ensures out == MasqDrops(c)
  {
    var need := Tally(c.targets);
    var keep := Tally(c.remaining);
    var avail := Available(c.masq);
    var todo := need.Keys;
    ghost var done: set<Dest> := {};
    ghost var size := |c.masq|;
    EmptyBag(c, size);
    out := [];
    while todo != {}
      invariant todo <= need.Keys && done == need.Keys - todo
      invariant multiset(out) == DropBag(c, size, done)
      decreases todo
    {
      var k :| k in todo;
      var handles := if k in avail then avail[k] else [];
      var n := need[k];
      var spare := |handles| - if k in keep then keep[k] else 0;
      if n > spare { n := spare; }
      assert handles == HandlesTo(c.masq, size, k) && n == Quota(c, k);
      out := TakeHandles(out, handles, n);
      OneDestMore(c, done, k);
      todo := todo - {k};
      done := done + {k};
    }
    SortOfAll(c, done, out);
    out := SortInts(out);
  }
}
