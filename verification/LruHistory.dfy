/** The cache over whole histories: what is resident, with which value, and what was evicted. */
module LruHistory {
  import opened Wrappers
  import opened Lru

  datatype Op = Get(key: string) | Put(key: string, code: string)

  function Apply(es: seq<Entry>, cap: nat, op: Op): seq<Entry> {
    match op
    case Get(key) => AfterGet(es, key)
    case Put(key, code) => AfterPut(es, cap, key, code)
  }

  /** The entries after the first n operations on an empty cache. */
  function Run(ops: seq<Op>, n: nat, cap: nat): seq<Entry>
    requires n <= |ops|
  {
    if n == 0 then [] else Apply(Run(ops, n - 1, cap), cap, ops[n - 1])
  }

  function LastPut(ops: seq<Op>, n: nat, key: string): Option<string>
    requires n <= |ops|
  {
    if n == 0 then None
    else if ops[n - 1].Put? && ops[n - 1].key == key then Some(ops[n - 1].code)
    else LastPut(ops, n - 1, key)
  }

  // ---- keys ----

  function KeysOf(es: seq<Entry>): (ks: seq<string>)
    ensures |ks| == |es| && forall i :: 0 <= i < |es| ==> ks[i] == es[i].key
  {
    if es == [] then [] else [es[0].key] + KeysOf(es[1..])
  }

  function Remove(ks: seq<string>, key: string): seq<string> {
    if ks == [] then [] else if ks[0] == key then ks[1..] else [ks[0]] + Remove(ks[1..], key)
  }

  function FirstKeys(ks: seq<string>, n: nat): seq<string> { if |ks| <= n then ks else ks[..n] }

  /** The distinct keys of a history, last used first. */
  function Recency(uses: seq<string>, n: nat): seq<string>
    requires n <= |uses|
  {
    if n == 0 then [] else [uses[n - 1]] + Remove(Recency(uses, n - 1), uses[n - 1])
  }

  lemma {:induction false} KeysWithout(es: seq<Entry>, key: string)
    ensures KeysOf(Without(es, key)) == Remove(KeysOf(es), key)
    decreases |es|
  {
    if es != [] && es[0].key != key {
      KeysWithout(es[1..], key);
      assert ([es[0]] + Without(es[1..], key))[1..] == Without(es[1..], key);
    }
  }

  lemma {:induction false} RemovePrefix(ks: seq<string>, key: string, m: nat)
    requires m <= |ks|
    ensures Remove(ks[..m], key) <= Remove(ks, key) && |Remove(ks[..m], key)| + 1 >= m
  {
    if m > 0 {
      assert ks[..m][1..] == ks[1..][..m - 1];
      if ks[0] != key { RemovePrefix(ks[1..], key, m - 1); }
    }
  }

  /** Cutting first and then moving a key to the front loses nothing that the cut after it would keep. */
  lemma CutThenUse(ks: seq<string>, key: string, cap: nat)
    requires cap >= 1
    ensures FirstKeys([key] + Remove(FirstKeys(ks, cap), key), cap) == FirstKeys([key] + Remove(ks, key), cap)
  {
    if |ks| > cap { RemovePrefix(ks, key, cap); }
  }

  lemma {:induction false} HitKeepsLength(es: seq<Entry>, key: string)
    requires Lookup(es, key).Some?
    ensures |Without(es, key)| + 1 == |es|
    decreases |es|
  {
    if es[0].key != key { HitKeepsLength(es[1..], key); }
  }

  /** A hitting read and a write leave the same keys as a use of the key. */
  lemma ApplyKeys(es: seq<Entry>, cap: nat, op: Op)
    requires cap >= 1 && |es| <= cap && (op.Put? || Lookup(es, op.key).Some?)
    ensures |Apply(es, cap, op)| <= cap
    ensures KeysOf(Apply(es, cap, op)) == FirstKeys([op.key] + Remove(KeysOf(es), op.key), cap)
  {
    KeysWithout(es, op.key);
    if op.Get? { HitKeepsLength(es, op.key); }
    var all := [Entry(op.key, if op.Put? then op.code else Lookup(es, op.key).value)] + Without(es, op.key);
    assert Apply(es, cap, op) == Newest(all, cap);
    assert KeysOf(all) == [op.key] + Remove(KeysOf(es), op.key);
    assert KeysOf(Newest(all, cap)) == FirstKeys(KeysOf(all), cap);
  }

  // ---- any order of reads and writes ----

  /** The keys used by the first n operations, told without a cache: every key put, and every key read while it
    * was among the last cap distinct keys used. */
  function Used(ops: seq<Op>, n: nat, cap: nat): seq<string>
    requires n <= |ops|
  {
    if n == 0 then []
    else
      var before, key := Used(ops, n - 1, cap), ops[n - 1].key;
      if ops[n - 1].Put? || key in FirstKeys(Recency(before, |before|), cap) then before + [key] else before
  }

  lemma {:induction false} RecencySnoc(uses: seq<string>, key: string, n: nat)
    requires n <= |uses|
    ensures Recency(uses + [key], n) == Recency(uses, n)
  {
    if n > 0 { RecencySnoc(uses, key, n - 1); }
  }

  lemma UsedOnceMore(uses: seq<string>, key: string, cap: nat)
    requires cap >= 1
    ensures FirstKeys([key] + Remove(FirstKeys(Recency(uses, |uses|), cap), key), cap)
         == FirstKeys(Recency(uses + [key], |uses + [key]|), cap)
  {
    RecencySnoc(uses, key, |uses|);
    CutThenUse(Recency(uses, |uses|), key, cap);
  }

  lemma HitsAreKeys(es: seq<Entry>, key: string)
    ensures Lookup(es, key).Some? <==> key in KeysOf(es)
  {
    LookupNone(es, key);
    if key in KeysOf(es) {
      var i :| 0 <= i < |es| && KeysOf(es)[i] == key;
      assert es[i].key == key;
    }
  }

  /** Over any history the resident keys are the last cap distinct keys put or found, in order of last use. */
  lemma {:induction false} HoldsLastUsed(ops: seq<Op>, n: nat, cap: nat)
    requires n <= |ops| && cap >= 1
    ensures |Run(ops, n, cap)| <= cap
    ensures var used := Used(ops, n, cap); KeysOf(Run(ops, n, cap)) == FirstKeys(Recency(used, |used|), cap)
  {
    if n > 0 {
      var es, op := Run(ops, n - 1, cap), ops[n - 1];
      HoldsLastUsed(ops, n - 1, cap);
      HitsAreKeys(es, op.key);
      if op.Put? || Lookup(es, op.key).Some? {
        ApplyKeys(es, cap, op);
        UsedOnceMore(Used(ops, n - 1, cap), op.key, cap);
      }
    }
  }

  // ---- values ----

  /** The entry under each key is the last one put there. */
  predicate Fresh(ops: seq<Op>, n: nat, es: seq<Entry>)
    requires n <= |ops|
  {
    DistinctKeys(es) && forall i :: 0 <= i < |es| ==> LastPut(ops, n, es[i].key) == Some(es[i].code)
  }

  lemma {:induction false} WithoutMembers(es: seq<Entry>, key: string, i: nat) returns (k: nat)
    requires DistinctKeys(es) && i < |Without(es, key)|
    ensures i <= k < |es| && Without(es, key)[i] == es[k] && es[k].key != key
    decreases |es|
  {
    if es[0].key == key {
      k := i + 1;
    } else if i == 0 {
      k := 0;
    } else {
      assert DistinctKeys(es[1..]);
      k := WithoutMembers(es[1..], key, i - 1);
      k := k + 1;
    }
  }

  lemma CutOut(es: seq<Entry>, i: nat)
    requires i < |es| && DistinctKeys(es)
    ensures DistinctKeys(es[..i] + es[i + 1..])
    ensures forall e :: e in es[..i] + es[i + 1..] ==> e.key != es[i].key
  {
    var cut := es[..i] + es[i + 1..];
    assert forall k :: 0 <= k < |cut| ==> cut[k] == if k < i then es[k] else es[k + 1];
  }

  lemma {:induction false} WithoutDistinct(es: seq<Entry>, key: string)
    requires DistinctKeys(es)
    ensures DistinctKeys(Without(es, key)) && forall e :: e in Without(es, key) ==> e.key != key
  {
    LookupNone(es, key);
    if Lookup(es, key).Some? {
      var i :| 0 <= i < |es| && es[i].key == key;
      WithoutAt(es, i);
      CutOut(es, i);
    }
  }

  lemma {:induction false} FrontFresh(ops: seq<Op>, n: nat, es: seq<Entry>, e: Entry)
    requires n < |ops| && Fresh(ops, n, es) && e.key == ops[n].key && LastPut(ops, n + 1, e.key) == Some(e.code)
    ensures Fresh(ops, n + 1, [e] + Without(es, e.key))
  {
    var rest := Without(es, e.key);
    WithoutDistinct(es, e.key);
    forall i | 0 <= i < |rest| ensures LastPut(ops, n + 1, rest[i].key) == Some(rest[i].code) {
      var k := WithoutMembers(es, e.key, i);
    }
  }

  lemma FoundIs(es: seq<Entry>, key: string) returns (i: nat)
    requires Lookup(es, key).Some?
    ensures i < |es| && es[i] == Entry(key, Lookup(es, key).value)
    decreases |es|
  {
    if es[0].key == key { i := 0; } else { i := FoundIs(es[1..], key); i := i + 1; }
  }

  lemma {:induction false} FreshStep(ops: seq<Op>, n: nat, es: seq<Entry>, cap: nat)
    requires n < |ops| && Fresh(ops, n, es)
    ensures Fresh(ops, n + 1, Apply(es, cap, ops[n]))
  {
    match ops[n]
    case Get(key) =>
      if Lookup(es, key).Some? {
        var i := FoundIs(es, key);
        FrontFresh(ops, n, es, es[i]);
      }
    case Put(key, code) =>
      FrontFresh(ops, n, es, Entry(key, code));
  }

  predicate FreshAfter(ops: seq<Op>, n: nat, cap: nat)
    requires n <= |ops|
  {
    Fresh(ops, n, Run(ops, n, cap))
  }

  lemma {:induction false} StaysFresh(ops: seq<Op>, n: nat, cap: nat)
    requires 0 < n <= |ops| && FreshAfter(ops, n - 1, cap)
    ensures FreshAfter(ops, n, cap)
  {
    FreshStep(ops, n - 1, Run(ops, n - 1, cap), cap);
  }

  /** Over any history, a resident key carries the value last put under it, each key at most once. */
  lemma {:induction false} ResidentIsLastPut(ops: seq<Op>, n: nat, cap: nat)
    requires n <= |ops|
    ensures FreshAfter(ops, n, cap)
  {
    if n > 0 {
      ResidentIsLastPut(ops, n - 1, cap);
      StaysFresh(ops, n, cap);
    }
  }

  // ---- two caches side by side ----

  /** a is b with some keys left out. */
  predicate Sub(a: seq<string>, b: seq<string>) {
    a == [] || (b != [] && if a[0] == b[0] then Sub(a[1..], b[1..]) else Sub(a, b[1..]))
  }

  predicate Distinct(ks: seq<string>) {
    forall i, j :: 0 <= i < j < |ks| ==> ks[i] != ks[j]
  }

  lemma {:induction false} SubSkips(a: seq<string>, b: seq<string>, x: string)
    requires Sub(a, b)
    ensures Sub(a, [x] + b) && (a != [] ==> Sub(a[1..], b))
    decreases |b|
  {
    assert ([x] + b)[1..] == b;
    if a != [] {
      if a[0] == b[0] {
        SubSkips(a[1..], b[1..], b[0]);
        assert [b[0]] + b[1..] == b;
      } else {
        SubSkips(a, b[1..], b[0]);
        SubSkips(a[1..], b[1..], b[0]);
        assert [b[0]] + b[1..] == b;
      }
    }
  }

  lemma {:induction false} SubMembers(a: seq<string>, b: seq<string>, k: string)
    requires Sub(a, b) && k in a
    ensures k in b
    decreases |b|
  {
    if a[0] != b[0] {
      SubMembers(a, b[1..], k);
    } else if k != a[0] {
      SubMembers(a[1..], b[1..], k);
    }
  }

  lemma {:induction false} SubDropsLast(a: seq<string>, b: seq<string>)
    requires Sub(a, b) && a != []
    ensures Sub(a[..|a| - 1], b[..|b| - 1]) && Sub(a[..|a| - 1], b)
    decreases |b|
  {
    var front, shorter := a[..|a| - 1], b[..|b| - 1];
    if a[0] == b[0] {
      if |a| > 1 {
        SubDropsLast(a[1..], b[1..]);
        assert front[1..] == a[1..][..|a| - 2] && shorter[1..] == b[1..][..|b| - 2];
      }
    } else {
      SubDropsLast(a, b[1..]);
      assert shorter[1..] == b[1..][..|b| - 2];
    }
  }

  lemma {:induction false} RemoveAbsent(ks: seq<string>, key: string)
    requires key !in ks
    ensures Remove(ks, key) == ks
  {
    if ks != [] { RemoveAbsent(ks[1..], key); }
  }

  lemma {:induction false} SubRemoves(a: seq<string>, b: seq<string>, key: string)
    requires Sub(a, b) && Distinct(b)
    ensures Sub(Remove(a, key), Remove(b, key))
    decreases |b|
  {
    if a != [] {
      if a[0] == b[0] {
        if a[0] != key {
          SubRemoves(a[1..], b[1..], key);
          assert Remove(a, key)[1..] == Remove(a[1..], key) && Remove(b, key)[1..] == Remove(b[1..], key);
        }
      } else if b[0] == key {
        if key in a { SubMembers(a, b[1..], key); }
        RemoveAbsent(a, key);
      } else {
        SubRemoves(a, b[1..], key);
        SubSkips(Remove(a, key), Remove(b[1..], key), b[0]);
      }
    }
  }

  lemma {:induction false} RemoveLength(ks: seq<string>, key: string)
    ensures |Remove(ks, key)| == if key in ks then |ks| - 1 else |ks|
  {
    if ks != [] && ks[0] != key { RemoveLength(ks[1..], key); }
  }

  /** A smaller cache beside a larger one: it is full or has the same keys, and never a key of its own. */
  predicate Beside(a: seq<string>, b: seq<string>, small: nat, large: nat) {
    Sub(a, b) && |a| <= small && |b| <= large && (|a| == small || a == b)
  }

  function UsedKeys(ks: seq<string>, key: string, cap: nat): seq<string> {
    FirstKeys([key] + Remove(ks, key), cap)
  }

  lemma {:induction false} BothUse(a: seq<string>, b: seq<string>, key: string, small: nat, large: nat)
    requires 1 <= small <= large && Beside(a, b, small, large) && Distinct(b)
    ensures Beside(UsedKeys(a, key, small), UsedKeys(b, key, large), small, large)
  {
    var x, y := [key] + Remove(a, key), [key] + Remove(b, key);
    RemoveLength(a, key);
    RemoveLength(b, key);
    SubRemoves(a, b, key);
    assert x[1..] == Remove(a, key) && y[1..] == Remove(b, key);
    assert Sub(x, y);
    SubDropsLast(x, y);
    if key in a { SubMembers(a, b, key); }
  }

  lemma {:induction false} LargerUses(a: seq<string>, b: seq<string>, key: string, small: nat, large: nat)
    requires 1 <= small <= large && Beside(a, b, small, large) && Distinct(b) && key in b && key !in a
    ensures Beside(a, UsedKeys(b, key, large), small, large)
  {
    RemoveLength(b, key);
    RemoveAbsent(a, key);
    SubRemoves(a, b, key);
    SubSkips(a, Remove(b, key), key);
  }

  lemma KeysDistinct(es: seq<Entry>)
    requires DistinctKeys(es)
    ensures Distinct(KeysOf(es))
  {
  }

  predicate SideBySide(a: seq<Entry>, b: seq<Entry>, small: nat, large: nat) {
    Beside(KeysOf(a), KeysOf(b), small, large)
  }

  lemma {:induction false} BothApply(a: seq<Entry>, b: seq<Entry>, op: Op, small: nat, large: nat)
    requires 1 <= small <= large && SideBySide(a, b, small, large) && DistinctKeys(b)
    ensures SideBySide(Apply(a, small, op), Apply(b, large, op), small, large)
  {
    KeysDistinct(b);
    HitsAreKeys(a, op.key);
    HitsAreKeys(b, op.key);
    if op.Put? || op.key in KeysOf(a) {
      if op.Get? { SubMembers(KeysOf(a), KeysOf(b), op.key); }
      ApplyKeys(a, small, op);
      ApplyKeys(b, large, op);
      BothUse(KeysOf(a), KeysOf(b), op.key, small, large);
    } else if op.key in KeysOf(b) {
      ApplyKeys(b, large, op);
      LargerUses(KeysOf(a), KeysOf(b), op.key, small, large);
    }
  }

  predicate BesideAfter(ops: seq<Op>, n: nat, small: nat, large: nat)
    requires n <= |ops|
  {
    SideBySide(Run(ops, n, small), Run(ops, n, large), small, large)
  }

  lemma RunIsDistinct(ops: seq<Op>, n: nat, cap: nat)
    requires n <= |ops|
    ensures DistinctKeys(Run(ops, n, cap))
  {
    ResidentIsLastPut(ops, n, cap);
  }

  lemma RunIsApplied(ops: seq<Op>, n: nat, cap: nat)
    requires 0 < n <= |ops|
    ensures Run(ops, n, cap) == Apply(Run(ops, n - 1, cap), cap, ops[n - 1])
  {
  }

  lemma {:induction false} StaysBeside(ops: seq<Op>, n: nat, small: nat, large: nat, a: seq<Entry>, b: seq<Entry>)
    requires 0 < n <= |ops| && 1 <= small <= large
    requires a == Run(ops, n - 1, small) && b == Run(ops, n - 1, large) && SideBySide(a, b, small, large)
    ensures BesideAfter(ops, n, small, large)
  {
    RunIsDistinct(ops, n - 1, large);
    BothApply(a, b, ops[n - 1], small, large);
    RunIsApplied(ops, n, small);
    RunIsApplied(ops, n, large);
  }

  lemma {:induction false} RunsSideBySide(ops: seq<Op>, n: nat, small: nat, large: nat)
    requires n <= |ops| && 1 <= small <= large
    ensures BesideAfter(ops, n, small, large)
  {
    if n > 0 {
      RunsSideBySide(ops, n - 1, small, large);
      StaysBeside(ops, n, small, large, Run(ops, n - 1, small), Run(ops, n - 1, large));
    }
  }

  /** Over any history a larger cache holds every entry of a smaller one, under the same key with the same value,
    * and keeps them in the same order. */
  lemma {:induction false} LargerHoldsMore(ops: seq<Op>, n: nat, small: nat, large: nat)
    requires n <= |ops| && 1 <= small <= large
    ensures Sub(KeysOf(Run(ops, n, small)), KeysOf(Run(ops, n, large)))
    ensures forall e :: e in Run(ops, n, small) ==> e in Run(ops, n, large)
  {
    RunsSideBySide(ops, n, small, large);
    ResidentIsLastPut(ops, n, small);
    ResidentIsLastPut(ops, n, large);
    forall e | e in Run(ops, n, small) ensures e in Run(ops, n, large) {
      SameEntry(ops, n, Run(ops, n, small), Run(ops, n, large), e);
    }
  }

  lemma SameEntry(ops: seq<Op>, n: nat, a: seq<Entry>, b: seq<Entry>, e: Entry)
    requires n <= |ops| && Fresh(ops, n, a) && Fresh(ops, n, b) && Sub(KeysOf(a), KeysOf(b)) && e in a
    ensures e in b
  {
    var i :| 0 <= i < |a| && a[i] == e;
    assert KeysOf(a)[i] == e.key;
    SubMembers(KeysOf(a), KeysOf(b), e.key);
    var j :| 0 <= j < |b| && KeysOf(b)[j] == e.key;
    assert b[j] == Entry(e.key, e.code);
  }
}
