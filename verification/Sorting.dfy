/** Sorting of integers (`sort.Ints`). */
module Sorting {
  predicate Sorted(s: seq<int>) {
    forall i, j :: 0 <= i < j < |s| ==> s[i] <= s[j]
  }

  lemma HeadOfBag(a: seq<int>)
    requires a != []
    ensures multiset(a[1..]) == multiset(a) - multiset{a[0]} && a[0] in multiset(a)
  {
    assert a == [a[0]] + a[1..];
  }

  function Insert(s: seq<int>, x: int): (t: seq<int>)
    ensures multiset(t) == multiset(s) + multiset{x}
  {
    if s == [] || x <= s[0] then
      [x] + s
    else
      assert s == [s[0]] + s[1..];
      [s[0]] + Insert(s[1..], x)
  }

  lemma {:induction false} InsertMembers(s: seq<int>, x: int, y: int)
    requires y in Insert(s, x)
    ensures y == x || y in s
  {
    assert y in multiset(Insert(s, x));
    assert y in multiset(s) ==> y in s;
  }

  lemma {:induction false} InsertSorts(s: seq<int>, x: int)
    requires Sorted(s)
    ensures Sorted(Insert(s, x))
    decreases |s|
  {
    if s != [] && s[0] < x {
      var rest := s[1..];
      var t := Insert(rest, x);
      InsertSorts(rest, x);
      forall i | 0 <= i < |t|
        ensures s[0] <= t[i]
      {
        InsertMembers(rest, x, t[i]);
      }
    }
  }

  /** `sort.Ints`. */
  function SortInts(s: seq<int>): (t: seq<int>)
    ensures multiset(t) == multiset(s)
  {
    if s == [] then []
    else
      assert s == s[..|s| - 1] + [s[|s| - 1]];
      Insert(SortInts(s[..|s| - 1]), s[|s| - 1])
  }

  lemma {:induction false} SortIntsSorts(s: seq<int>)
    ensures Sorted(SortInts(s))
    decreases |s|
  {
    if s != [] {
      SortIntsSorts(s[..|s| - 1]);
      InsertSorts(SortInts(s[..|s| - 1]), s[|s| - 1]);
    }
  }

  lemma SmallestOfBag(a: seq<int>, y: int)
    requires Sorted(a) && y in multiset(a)
    ensures a != [] && a[0] <= y
  {
  }

  lemma SortedHead(a: seq<int>, b: seq<int>)
    requires Sorted(a) && Sorted(b) && multiset(a) == multiset(b) && a != []
    ensures b != [] && a[0] == b[0] && multiset(a[1..]) == multiset(b[1..])
  {
    HeadOfBag(a);
    SmallestOfBag(b, a[0]);
    HeadOfBag(b);
    SmallestOfBag(a, b[0]);
  }

  /** A sorted sequence is determined by its bag, so the result is a function of the input alone. */
  lemma {:induction false} SortedIsUnique(a: seq<int>, b: seq<int>)
    requires Sorted(a) && Sorted(b) && multiset(a) == multiset(b)
    ensures a == b
    decreases |a|
  {
    if a == [] {
      assert |multiset(a)| == |multiset(b)|;
    } else {
      SortedHead(a, b);
      SortedIsUnique(a[1..], b[1..]);
      assert a == [a[0]] + a[1..] && b == [b[0]] + b[1..];
    }
  }
}
