/** The online country lookup behind its cache (internal/server/geoip/online.go). */
module Online {
  import opened Wrappers
  import opened Lru
  import opened LruHistory

  /** What the endpoint answers for an address, trimmed and upper-cased; None for any failure. */
  type Endpoint = string -> Option<string>

  predicate CountryCode(code: string) {
    |code| == 2 && forall i :: 0 <= i < |code| ==> 'A' <= code[i] <= 'Z'
  }

  method IsCountryCode(code: string) returns (ok: bool)
    ensures ok <==> CountryCode(code)
  {
    if |code| != 2 { return false; }
    for i := 0 to |code|
      invariant forall k :: 0 <= k < i ==> 'A' <= code[k] <= 'Z'
    {
      if code[i] < 'A' || code[i] > 'Z' { return false; }
    }
    return true;
  }

  /** One lookup over the network. */
  function Asked(endpoint: Endpoint, ip: string): (string, bool) {
    var code := endpoint(ip);
    if code.Some? && CountryCode(code.value) then (code.value, true) else ("", false)
  }

  /** The lookup without a cache. */
  function Uncached(endpoint: Endpoint, routable: string -> bool, ip: string): (string, bool) {
    if routable(ip) then Asked(endpoint, ip) else ("", false)
  }

  ghost predicate Faithful(es: seq<Entry>, endpoint: Endpoint) {
    forall i :: 0 <= i < |es| ==> es[i].code == Asked(endpoint, es[i].key).0
  }

  lemma {:induction false} FaithfulFind(es: seq<Entry>, key: string, endpoint: Endpoint)
    requires Faithful(es, endpoint) && Lookup(es, key).Some?
    ensures Lookup(es, key).value == Asked(endpoint, key).0
  {
    var i := FoundIs(es, key);
  }

  lemma {:induction false} FaithfulWithout(es: seq<Entry>, key: string, endpoint: Endpoint)
    requires Faithful(es, endpoint)
    ensures Faithful(Without(es, key), endpoint)
    decreases |es|
  {
    if es != [] && es[0].key != key {
      assert Faithful(es[1..], endpoint);
      FaithfulWithout(es[1..], key, endpoint);
    }
  }

  lemma FaithfulGet(es: seq<Entry>, key: string, endpoint: Endpoint)
    requires Faithful(es, endpoint)
    ensures Faithful(AfterGet(es, key), endpoint)
  {
    FaithfulWithout(es, key, endpoint);
    if Lookup(es, key).Some? { FaithfulFind(es, key, endpoint); }
  }

  lemma FaithfulPut(es: seq<Entry>, cap: nat, key: string, endpoint: Endpoint)
    requires Faithful(es, endpoint)
    ensures Faithful(AfterPut(es, cap, key, Asked(endpoint, key).0), endpoint)
  {
    FaithfulWithout(es, key, endpoint);
  }

  /** The cache after one lookup: a hit, or what was asked for on a miss. */
  function AfterUse(es: seq<Entry>, cap: nat, key: string, fill: string -> string): seq<Entry> {
    if Lookup(es, key).Some? then AfterGet(es, key) else AfterPut(es, cap, key, fill(key))
  }

  class Online {
    const endpoint: Endpoint
    const routable: string -> bool
    const cache: Lru

    ghost predicate Valid()
      reads this, cache, cache.ll
    {
      cache.Valid() && Faithful(cache.Entries(), endpoint)
    }

    constructor (endpoint: Endpoint, routable: string -> bool, cacheSize: int)
      ensures Valid() && this.endpoint == endpoint && this.routable == routable && fresh(cache) && cache.Entries() == []
    {
      this.endpoint, this.routable := endpoint, routable;
      cache := new Lru(cacheSize);
    }

    method Query(ip: string) returns (code: string, ok: bool)
      ensures (code, ok) == Asked(endpoint, ip)
    {
      var answer := endpoint(ip);
      if answer.None? { return "", false; }
      var valid := IsCountryCode(answer.value);
      if !valid { return "", false; }
      return answer.value, true;
    }

    method Country(ip: string) returns (code: string, ok: bool)
      requires Valid()
      modifies cache`ll, cache`els, cache.ll
      ensures Valid() && forall e :: e in cache.ll ==> e in old(cache.ll) || fresh(e)
      ensures (code, ok) == Uncached(endpoint, routable, ip)
      ensures ok ==> routable(ip) && endpoint(ip) == Some(code) && CountryCode(code)
      ensures !ok ==> code == "" && (routable(ip) && endpoint(ip).Some? ==> !CountryCode(endpoint(ip).value))
      ensures cache.Entries() ==
              if routable(ip) then AfterUse(old(cache.Entries()), cache.cap, ip, key => Asked(endpoint, key).0)
              else old(cache.Entries())
    {
      if !routable(ip) { return "", false; }
      ghost var before := cache.Entries();
      FaithfulGet(before, ip, endpoint);
      FaithfulPut(before, cache.cap, ip, endpoint);
      var found := cache.Get(ip);
      if found.Some? {
        FaithfulFind(before, ip, endpoint);
        return found.value, found.value != "";
      }
      code, ok := Query(ip);
      cache.Put(ip, code);
    }
  }

  /** Lookups may also overlap, so that the cache sees reads, and writes of what was asked, in any order. */
  predicate Legal(op: Op, endpoint: Endpoint) {
    op.Put? ==> op.code == Asked(endpoint, op.key).0
  }

  /** Then too whatever is found is the answer that asking would give. */
  lemma {:induction false} OverlapIsTransparent(ops: seq<Op>, n: nat, cap: nat, key: string, endpoint: Endpoint)
    requires n <= |ops| && forall k :: 0 <= k < n ==> Legal(ops[k], endpoint)
    ensures Faithful(Run(ops, n, cap), endpoint)
    ensures var found := Lookup(Run(ops, n, cap), key);
            found.Some? ==> (found.value, found.value != "") == Asked(endpoint, key)
  {
    if n > 0 {
      OverlapIsTransparent(ops, n - 1, cap, key, endpoint);
      match ops[n - 1]
      case Get(k) => FaithfulGet(Run(ops, n - 1, cap), k, endpoint);
      case Put(k, _) => FaithfulPut(Run(ops, n - 1, cap), cap, k, endpoint);
    }
    if Lookup(Run(ops, n, cap), key).Some? { FaithfulFind(Run(ops, n, cap), key, endpoint); }
  }
}
