/** The least-recently-used cache (internal/server/geoip/lru.go): a list of elements, front first, and a map
  * from keys to those same elements.
  */
module Lru {
  import opened Wrappers

  datatype Entry = Entry(key: string, code: string)

  // ---- what the cache holds, most recently used first ----

  function Lookup(es: seq<Entry>, key: string): Option<string> {
    if es == [] then None else if es[0].key == key then Some(es[0].code) else Lookup(es[1..], key)
  }

  /** All entries but the one under the key. */
  function Without(es: seq<Entry>, key: string): (r: seq<Entry>)
    ensures |r| <= |es|
  {
    if es == [] then [] else if es[0].key == key then es[1..] else [es[0]] + Without(es[1..], key)
  }

  function Newest(es: seq<Entry>, n: nat): seq<Entry> { if |es| <= n then es else es[..n] }

  function AfterGet(es: seq<Entry>, key: string): seq<Entry> {
    var code := Lookup(es, key);
    if code.None? then es else [Entry(key, code.value)] + Without(es, key)
  }

  function AfterPut(es: seq<Entry>, cap: nat, key: string, code: string): seq<Entry> {
    Newest([Entry(key, code)] + Without(es, key), cap)
  }

  predicate DistinctKeys(es: seq<Entry>) {
    forall i, j :: 0 <= i < j < |es| ==> es[i].key != es[j].key
  }

  lemma {:induction false} LookupAt(es: seq<Entry>, i: nat)
    requires i < |es| && DistinctKeys(es)
    ensures Lookup(es, es[i].key) == Some(es[i].code)
  {
    if i > 0 {
      assert es[1..][i - 1] == es[i];
      LookupAt(es[1..], i - 1);
    }
  }

  lemma {:induction false} LookupNone(es: seq<Entry>, key: string)
    ensures Lookup(es, key).None? <==> forall i :: 0 <= i < |es| ==> es[i].key != key
    ensures Lookup(es, key).None? ==> Without(es, key) == es
    decreases |es|
  {
    if es != [] {
      LookupNone(es[1..], key);
      assert forall i :: 0 <= i < |es[1..]| ==> es[1..][i] == es[i + 1];
      assert es == [es[0]] + es[1..];
    }
  }

  lemma {:induction false} WithoutAt(es: seq<Entry>, i: nat)
    requires i < |es| && DistinctKeys(es)
    ensures Without(es, es[i].key) == es[..i] + es[i + 1..]
  {
    if i > 0 {
      var rest := es[1..];
      assert rest[i - 1] == es[i];
      WithoutAt(rest, i - 1);
      assert [es[0]] + (rest[..i - 1] + rest[i..]) == es[..i] + es[i + 1..];
    }
  }

  // ---- the cache ----

  class Element {
    const key: string
    var code: string

    constructor (key: string, code: string)
      ensures this.key == key && this.code == code
    {
      this.key, this.code := key, code;
    }
  }

  ghost function EntriesOf(ll: seq<Element>): (es: seq<Entry>)
    reads ll
  {
    seq(|ll|, i requires 0 <= i < |ll| reads ll => Entry(ll[i].key, ll[i].code))
  }

  predicate DistinctElements(ll: seq<Element>) {
    forall i, j :: 0 <= i < j < |ll| ==> ll[i].key != ll[j].key
  }

  predicate Forward(els: map<string, Element>, ll: seq<Element>) {
    forall i :: 0 <= i < |ll| ==> ll[i].key in els && els[ll[i].key] == ll[i]
  }

  /** The map leads from each key to the one element of the list with that key, and has no other keys. */
  predicate Linked(els: map<string, Element>, ll: seq<Element>) {
    |els| == |ll| && DistinctElements(ll) && Forward(els, ll)
  }

  function Moved(ll: seq<Element>, i: nat): (r: seq<Element>)
    requires i < |ll|
  {
    [ll[i]] + (ll[..i] + ll[i + 1..])
  }

  lemma MovedAt(ll: seq<Element>, i: nat, j: nat)
    requires i < |ll| && j < |ll|
    ensures Moved(ll, i)[j] == if j == 0 then ll[i] else if j <= i then ll[j - 1] else ll[j]
  {
  }

  lemma MovedMembers(ll: seq<Element>, i: nat, e: Element)
    requires i < |ll|
    ensures e in Moved(ll, i) <==> e in ll
  {
    if e in ll {
      var j :| 0 <= j < |ll| && ll[j] == e;
      MovedAt(ll, i, if j == i then 0 else if j < i then j + 1 else j);
    }
  }

  lemma MovedStaysLinked(els: map<string, Element>, ll: seq<Element>, i: nat)
    requires Linked(els, ll) && i < |ll|
    ensures Linked(els, Moved(ll, i))
  {
    forall j | 0 <= j < |ll|
      ensures Moved(ll, i)[j] == if j == 0 then ll[i] else if j <= i then ll[j - 1] else ll[j]
    {
      MovedAt(ll, i, j);
    }
  }

  lemma EntriesDistinct(ll: seq<Element>)
    requires DistinctElements(ll)
    ensures DistinctKeys(EntriesOf(ll))
  {
  }

  lemma AbsentKey(els: map<string, Element>, ll: seq<Element>, key: string)
    requires Linked(els, ll) && key !in els
    ensures Lookup(EntriesOf(ll), key).None? && Without(EntriesOf(ll), key) == EntriesOf(ll)
  {
    forall i | 0 <= i < |ll| ensures EntriesOf(ll)[i].key != key {
      assert ll[i] in ll;
    }
    LookupNone(EntriesOf(ll), key);
  }

  lemma PresentKey(ll: seq<Element>, i: nat)
    requires DistinctElements(ll) && i < |ll|
    ensures Lookup(EntriesOf(ll), ll[i].key) == Some(ll[i].code)
    ensures EntriesOf(Moved(ll, i)) == [Entry(ll[i].key, ll[i].code)] + Without(EntriesOf(ll), ll[i].key)
  {
    var es := EntriesOf(ll);
    EntriesDistinct(ll);
    LookupAt(es, i);
    WithoutAt(es, i);
    forall j | 0 <= j < |ll| ensures EntriesOf(Moved(ll, i))[j] == ([es[i]] + (es[..i] + es[i + 1..]))[j] {
      MovedAt(ll, i, j);
    }
  }

  lemma PushedAt(ll: seq<Element>, el: Element, i: nat)
    requires i <= |ll|
    ensures ([el] + ll)[i] == if i == 0 then el else ll[i - 1]
  {
  }

  lemma PushDistinct(els: map<string, Element>, ll: seq<Element>, el: Element)
    requires DistinctElements(ll) && Forward(els, ll) && el.key !in els
    ensures DistinctElements([el] + ll)
  {
    var pushed := [el] + ll;
    forall i, j | 0 <= i < j < |pushed| ensures pushed[i].key != pushed[j].key {
      PushedAt(ll, el, i);
      PushedAt(ll, el, j);
    }
  }

  lemma PushStaysLinked(els: map<string, Element>, ll: seq<Element>, el: Element)
    requires Linked(els, ll) && el.key !in els
    ensures Linked(els[el.key := el], [el] + ll)
  {
    var pushed, now := [el] + ll, els[el.key := el];
    assert now.Keys == els.Keys + {el.key};
    PushDistinct(els, ll, el);
    forall i | 0 <= i < |pushed| ensures pushed[i].key in now && now[pushed[i].key] == pushed[i] {
      PushedAt(ll, el, i);
    }
  }

  lemma PopStaysLinked(els: map<string, Element>, ll: seq<Element>)
    requires Linked(els, ll) && ll != []
    ensures Linked(els - {ll[|ll| - 1].key}, ll[..|ll| - 1])
  {
  }

  /** Every key of the map is the key of a listed element. */
  lemma {:induction false} KeyIsListed(els: map<string, Element>, ll: seq<Element>, key: string)
    requires Linked(els, ll) && key in els
    ensures els[key].key == key && exists i :: 0 <= i < |ll| && ll[i] == els[key]
    decreases |ll|
  {
    assert key in els.Keys;
    assert |ll| > 0;
    var n := |ll| - 1;
    if ll[n].key == key {
      assert ll[n] == els[key];
    } else {
      PopStaysLinked(els, ll);
      KeyIsListed(els - {ll[n].key}, ll[..n], key);
      var i :| 0 <= i < n && ll[..n][i] == els[key];
      assert ll[i] == els[key];
    }
  }

  class Lru {
    const cap: nat
    var ll: seq<Element>
    var els: map<string, Element>

    ghost predicate Valid()
      reads this
    {
      Linked(els, ll) && 1 <= cap && |ll| <= cap
    }

    ghost function Entries(): seq<Entry>
      reads this, ll
    {
      EntriesOf(ll)
    }

    constructor (capacity: int)
      ensures Valid() && Entries() == [] && ll == [] && cap == if capacity < 1 then 1 else capacity
    {
      cap := if capacity < 1 then 1 else capacity;
      ll, els := [], map[];
    }

    /** `list.MoveToFront`; i is where the element stood. */
    method MoveToFront(el: Element) returns (ghost i: nat)
      requires el in ll && Linked(els, ll)
      modifies this`ll
      ensures i < |old(ll)| && old(ll)[i] == el && ll == Moved(old(ll), i) && Linked(els, ll)
    {
      var k := 0;
      while ll[k] != el
        invariant 0 <= k < |ll| && el !in ll[..k]
        decreases |ll| - k
      {
        k := k + 1;
      }
      MovedStaysLinked(els, ll, k);
      i := k;
      ll := Moved(ll, k);
    }

    method Get(key: string) returns (r: Option<string>)
      requires Valid()
      modifies this`ll
      ensures Valid() && forall e :: e in ll <==> e in old(ll)
      ensures r.None? ==> ll == old(ll)
      ensures r == Lookup(old(Entries()), key)
      ensures Entries() == AfterGet(old(Entries()), key)
    {
      ghost var was := ll;
      if key !in els {
        AbsentKey(els, was, key);
        return None;
      }
      var el := els[key];
      KeyIsListed(els, ll, key);
      var i := MoveToFront(el);
      PresentKey(was, i);
      forall e ensures e in ll <==> e in was {
        MovedMembers(was, i, e);
      }
      return Some(el.code);
    }
  
    method EvictOne()
      requires Linked(els, ll) && ll != []
      modifies this`ll, this`els
      ensures Linked(els, ll) && ll == old(ll)[..|old(ll)| - 1]
    {
      PopStaysLinked(els, ll);
      var oldest := ll[|ll| - 1];
      ll := ll[..|ll| - 1];
      els := els - {oldest.key};
    }

    /** Removes elements from the back while there are too many. */
    method Evict()
      requires Linked(els, ll) && 1 <= cap
      modifies this`ll, this`els
      ensures Valid() && ll == if |old(ll)| <= cap then old(ll) else old(ll)[..cap]
    {
      while |els| > cap
        invariant Linked(els, ll) && |ll| <= |old(ll)| && ll == old(ll)[..|ll|]
        invariant |ll| >= cap || |ll| == |old(ll)|
        decreases |ll|
      {
        if ll == [] { return; }
        EvictOne();
      }
    }

    method Insert(key: string, code: string)
      requires Linked(els, ll) && key !in els
      modifies this`ll, this`els
      ensures Linked(els, ll) && |ll| == |old(ll)| + 1 && fresh(ll[0]) && ll[1..] == old(ll)
      ensures Entries() == [Entry(key, code)] + old(Entries())
    {
      var el := new Element(key, code);
      PushStaysLinked(els, ll, el);
      els := els[key := el];
      ll := [el] + ll;
    }

    method Replace(key: string, code: string)
      requires Valid() && key in els
      modifies this`ll, ll
      ensures Valid() && forall e :: e in ll ==> e in old(ll)
      ensures Entries() == [Entry(key, code)] + Without(old(Entries()), key)
    {
      ghost var was := ll;
      var el := els[key];
      KeyIsListed(els, ll, key);
      var i := MoveToFront(el);
      PresentKey(was, i);
      assert EntriesOf(ll)[1..] == Without(old(Entries()), key);
      el.code := code;
      assert EntriesOf(ll)[0] == Entry(key, code);
      assert EntriesOf(ll)[1..] == Without(old(Entries()), key);
      forall e | e in ll ensures e in was {
        MovedMembers(was, i, e);
      }
    }

    method Put(key: string, code: string)
      requires Valid()
      modifies this`ll, this`els, ll
      ensures Valid() && forall e :: e in ll ==> e in old(ll) || fresh(e)
      ensures Entries() == AfterPut(old(Entries()), cap, key, code)
    {
      if key in els {
        Replace(key, code);
      } else {
        AbsentKey(els, ll, key);
        Insert(key, code);
        ghost var pushed := Entries();
        Evict();
        assert Entries() == Newest(pushed, cap);
      }
    }
  }
}
