/**
 * The part of the browser's CacheStorage that sw.js relies on: named cache
 * generations in creation order, each mapping a request URL to a response.
 * `caches.match` searches every generation in that order.
 */
module CacheStorage {
  import opened Wrappers

  /** An HTTP response: its status, whether it carries `Vary: *`, and its body. */
  datatype Response = Response(status: int, varyAll: bool, body: string)

  /** One named cache (one `caches.open(name)`), keyed by request URL. */
  datatype Generation = Generation(name: string, entries: map<string, Response>)

  /** The whole CacheStorage, oldest generation first. */
  type Caches = seq<Generation>

  /** No two generations share a name, as CacheStorage guarantees. */
  predicate Distinct(s: Caches) {
    forall i, j :: 0 <= i < j < |s| ==> s[i].name != s[j].name
  }

  /** `caches.keys()`: the generation names in creation order. */
  function Names(s: Caches): (r: seq<string>)
    ensures |r| == |s|
    ensures forall i :: 0 <= i < |s| ==> r[i] == s[i].name
  {
    if s == [] then [] else [s[0].name] + Names(s[1..])
  }

  /** Position of the generation called `name`, or -1 when there is none. */
  function IndexOf(s: Caches, name: string): (i: int)
    ensures -1 <= i < |s|
    ensures 0 <= i ==> s[i].name == name && forall j :: 0 <= j < i ==> s[j].name != name
    ensures i < 0 <==> forall j :: 0 <= j < |s| ==> s[j].name != name
  {
    if s == [] then -1
    else if s[0].name == name then 0
    else
      var k := IndexOf(s[1..], name);
      if k < 0 then -1 else k + 1
  }

  /** `caches.has(name)`. */
  predicate Has(s: Caches, name: string) {
    IndexOf(s, name) >= 0
  }

  lemma HasIffNamed(s: Caches, name: string)
    ensures Has(s, name) <==> name in Names(s)
  {
  }

  /** The response stored under `key` in generation `name`, if any. */
  function Lookup(s: Caches, name: string, key: string): Option<Response> {
    var i := IndexOf(s, name);
    if i >= 0 && key in s[i].entries then Some(s[i].entries[key]) else None
  }

  /** `caches.open(name)`: an existing generation is reused, a missing one is created empty, last. */
  function Open(s: Caches, name: string): (r: Caches)
    ensures Distinct(s) ==> Distinct(r)
    ensures forall n :: Has(r, n) <==> Has(s, n) || n == name
    ensures forall n, k :: Lookup(r, n, k) == Lookup(s, n, k)
    ensures Has(s, name) ==> r == s
    ensures !Has(s, name) ==> r == s + [Generation(name, map[])]
  {
    if Has(s, name) then s
    else
      var g := Generation(name, map[]);
      IndexOfAppend(s, g);
      s + [g]
  }

  lemma IndexOfAppend(s: Caches, g: Generation)
    ensures forall n :: IndexOf(s + [g], n) == if Has(s, n) then IndexOf(s, n) else if g.name == n then |s| else -1
  {
    forall n ensures IndexOf(s + [g], n) == if Has(s, n) then IndexOf(s, n) else if g.name == n then |s| else -1 {
      var t := s + [g];
      var i := IndexOf(t, n);
      if Has(s, n) {
        var k := IndexOf(s, n);
        assert t[k].name == n;
        assert i <= k;
        assert i == k;
      } else if g.name == n {
        assert t[|s|].name == n;
      }
    }
  }

  /** `cache.put(key, resp)` on `caches.open(name)`. */
  function Put(s: Caches, name: string, key: string, resp: Response): (r: Caches)
    ensures Distinct(s) ==> Distinct(r)
    ensures forall n :: Has(r, n) <==> Has(s, n) || n == name
    ensures forall n, k :: Lookup(r, n, k) == if n == name && k == key then Some(resp) else Lookup(s, n, k)
    ensures Names(r) == Names(Open(s, name))
  {
    var withName := Open(s, name);
    var i := IndexOf(withName, name);
    var r := withName[i := Generation(name, withName[i].entries[key := resp])];
    RenamelessUpdate(withName, r, i);
    UpdateLookup(withName, r, i, key, resp);
    r
  }

  /** Setting `key` in generation `i` changes that one lookup and no other. */
  lemma UpdateLookup(s: Caches, r: Caches, i: int, key: string, resp: Response)
    requires 0 <= i < |s| && IndexOf(s, s[i].name) == i
    requires r == s[i := Generation(s[i].name, s[i].entries[key := resp])]
    ensures forall n, k :: Lookup(r, n, k) == if n == s[i].name && k == key then Some(resp) else Lookup(s, n, k)
  {
    forall n, k
      ensures Lookup(r, n, k) == if n == s[i].name && k == key then Some(resp) else Lookup(s, n, k)
    {
      UpdateLookupAt(s, r, i, key, resp, n, k);
    }
  }

  lemma UpdateLookupAt(s: Caches, r: Caches, i: int, key: string, resp: Response, n: string, k: string)
    requires 0 <= i < |s| && IndexOf(s, s[i].name) == i
    requires r == s[i := Generation(s[i].name, s[i].entries[key := resp])]
    ensures Lookup(r, n, k) == if n == s[i].name && k == key then Some(resp) else Lookup(s, n, k)
  {
    SameNamesSameIndex(r, s, n);
    var j := IndexOf(s, n);
    if j == i {
      assert n == s[i].name;
    } else if 0 <= j {
      assert n != s[i].name;
      assert r[j] == s[j];
    } else {
      assert n != s[i].name;
    }
  }

  /** Replacing one generation by another of the same name keeps every name and its position. */
  lemma RenamelessUpdate(s: Caches, r: Caches, i: int)
    requires 0 <= i < |s| && |r| == |s| && r[i].name == s[i].name
    requires forall j :: 0 <= j < |s| && j != i ==> r[j] == s[j]
    ensures Names(r) == Names(s)
    ensures Distinct(s) ==> Distinct(r)
    ensures forall n :: IndexOf(r, n) == IndexOf(s, n)
  {
    assert forall j :: 0 <= j < |s| ==> r[j].name == s[j].name;
    SameNamesSameIndexAll(r, s);
    assert forall j :: 0 <= j < |s| ==> Names(r)[j] == Names(s)[j];
  }

  /** The names alone decide which generations exist. */
  lemma SameNamesSameHas(a: Caches, b: Caches)
    requires Names(a) == Names(b)
    ensures forall n :: Has(a, n) <==> Has(b, n)
  {
    assert forall i :: 0 <= i < |a| ==> a[i].name == Names(b)[i];
    SameNamesSameIndexAll(a, b);
  }

  lemma SameNamesSameIndexAll(a: Caches, b: Caches)
    requires |a| == |b|
    requires forall i :: 0 <= i < |a| ==> a[i].name == b[i].name
    ensures forall n :: IndexOf(a, n) == IndexOf(b, n)
  {
    forall n ensures IndexOf(a, n) == IndexOf(b, n) {
      SameNamesSameIndex(a, b, n);
    }
  }

  lemma SameNamesSameIndex(a: Caches, b: Caches, name: string)
    requires |a| == |b|
    requires forall i :: 0 <= i < |a| ==> a[i].name == b[i].name
    ensures IndexOf(a, name) == IndexOf(b, name)
  {
  }

  /** The generations whose names are not in `drop`, in their order. */
  function Without(s: Caches, drop: set<string>): (r: Caches)
    ensures |r| <= |s|
    ensures forall g :: g in r <==> g in s && g.name !in drop
  {
    if s == [] then []
    else if s[0].name in drop then Without(s[1..], drop)
    else [s[0]] + Without(s[1..], drop)
  }

  /** Removing generations keeps the names distinct. */
  lemma {:induction false} WithoutDistinct(s: Caches, drop: set<string>)
    requires Distinct(s)
    ensures Distinct(Without(s, drop))
    decreases |s|
  {
    if s != [] {
      WithoutDistinct(s[1..], drop);
      var rest := Without(s[1..], drop);
      if s[0].name !in drop {
        var r := [s[0]] + rest;
        forall j | 0 < j < |r| ensures r[0].name != r[j].name {
          assert r[j] in s[1..];
        }
      }
    }
  }

  /** Exactly the generations whose names are not dropped survive. */
  lemma WithoutHas(s: Caches, drop: set<string>, name: string)
    ensures Has(Without(s, drop), name) <==> Has(s, name) && name !in drop
  {
  }

  /** A surviving generation keeps its entries. */
  lemma WithoutLookup(s: Caches, drop: set<string>, name: string, key: string)
    requires Distinct(s) && name !in drop
    ensures Lookup(Without(s, drop), name, key) == Lookup(s, name, key)
  {
    var r := Without(s, drop);
    WithoutDistinct(s, drop);
    var i, j := IndexOf(s, name), IndexOf(r, name);
    if 0 <= i {
      assert s[i] in r;
      var j' :| 0 <= j' < |r| && r[j'] == s[i];
      assert j == j';
    }
  }

  lemma WithoutKeepsRest(s: Caches, drop: set<string>, name: string)
    requires Distinct(s)
    ensures Distinct(Without(s, drop))
    ensures Has(Without(s, drop), name) <==> Has(s, name) && name !in drop
    ensures name !in drop ==> forall k :: Lookup(Without(s, drop), name, k) == Lookup(s, name, k)
  {
    WithoutDistinct(s, drop);
    WithoutHas(s, drop, name);
    if name !in drop {
      forall k ensures Lookup(Without(s, drop), name, k) == Lookup(s, name, k) {
        WithoutLookup(s, drop, name, k);
      }
    }
  }

  /**
   * Dropping every name but `keep` leaves at most the generation `keep`,
   * with its entries.
   */
  lemma WithoutAllBut(s: Caches, drop: set<string>, keep: string)
    requires Distinct(s)
    requires forall n :: n in drop <==> n in Names(s) && n != keep
    ensures Distinct(Without(s, drop))
    ensures forall n :: Has(Without(s, drop), n) <==> n == keep && Has(s, n)
    ensures forall k :: Lookup(Without(s, drop), keep, k) == Lookup(s, keep, k)
    ensures |Without(s, drop)| <= 1
  {
    var r := Without(s, drop);
    forall n ensures Has(r, n) <==> n == keep && Has(s, n) {
      WithoutKeepsRest(s, drop, n);
      HasIffNamed(s, n);
    }
    WithoutKeepsRest(s, drop, keep);
    if |r| >= 2 {
      assert Has(r, r[0].name) && Has(r, r[1].name);
      assert false;
    }
  }

  /**
   * Dropping the names other than `keep` whose deletion succeeds keeps
   * `keep` and every generation whose deletion failed, and leaves at most
   * `keep` when every deletion succeeds.
   */
  lemma WithoutSome(s: Caches, drop: set<string>, keep: string, deleteOk: string -> bool)
    requires Distinct(s)
    requires forall n :: n in drop <==> n in Names(s) && n != keep && deleteOk(n)
    ensures Distinct(Without(s, drop))
    ensures forall n :: Has(Without(s, drop), n) <==> Has(s, n) && (n == keep || !deleteOk(n))
    ensures forall k :: Lookup(Without(s, drop), keep, k) == Lookup(s, keep, k)
    ensures (forall n :: n in Names(s) && n != keep ==> deleteOk(n)) ==> |Without(s, drop)| <= 1
  {
    forall n ensures Has(Without(s, drop), n) <==> Has(s, n) && (n == keep || !deleteOk(n)) {
      WithoutKeepsRest(s, drop, n);
      HasIffNamed(s, n);
    }
    WithoutKeepsRest(s, drop, keep);
    if forall n :: n in Names(s) && n != keep ==> deleteOk(n) {
      WithoutAllBut(s, drop, keep);
    }
  }

  lemma {:induction false} WithoutNothing(s: Caches)
    ensures Without(s, {}) == s
    decreases |s|
  {
    if s != [] {
      WithoutNothing(s[1..]);
    }
  }

  /** `caches.delete(name)`. */
  function Delete(s: Caches, name: string): (r: Caches)
    ensures forall g :: g in r <==> g in s && g.name != name
  {
    Without(s, {name})
  }

  lemma {:induction false} DeleteAfterWithout(s: Caches, drop: set<string>, name: string)
    ensures Delete(Without(s, drop), name) == Without(s, drop + {name})
    decreases |s|
  {
    if s != [] {
      DeleteAfterWithout(s[1..], drop, name);
    }
  }

  /** Position of the oldest generation holding `key`, or -1 when none does. */
  function FirstHolding(s: Caches, key: string): (i: int)
    ensures -1 <= i < |s|
    ensures 0 <= i ==> key in s[i].entries && forall j :: 0 <= j < i ==> key !in s[j].entries
    ensures i < 0 <==> forall j :: 0 <= j < |s| ==> key !in s[j].entries
  {
    if s == [] then -1
    else if key in s[0].entries then 0
    else
      var k := FirstHolding(s[1..], key);
      if k < 0 then -1 else k + 1
  }

  /**
   * `caches.match(key)`: the response of the oldest generation that holds
   * the key, or None when no generation does.
   */
  function Match(s: Caches, key: string): (r: Option<Response>)
    ensures r.None? <==> forall i :: 0 <= i < |s| ==> key !in s[i].entries
    ensures r.Some? ==> exists i :: 0 <= i < |s| && key in s[i].entries && s[i].entries[key] == r.value
                                    && forall j :: 0 <= j < i ==> key !in s[j].entries
  {
    var i := FirstHolding(s, key);
    if i < 0 then None else Some(s[i].entries[key])
  }

  /**
   * A key absent from every generation and then put into one is found by
   * `caches.match` with the response that was put.
   */
  lemma MatchAfterPut(s: Caches, name: string, key: string, resp: Response)
    requires Match(s, key) == None
    ensures Match(Put(s, name, key, resp), key) == Some(resp)
  {
    var w := Open(s, name);
    OpenAddsNoKey(s, name, key);
    var i := IndexOf(w, name);
    var r := w[i := Generation(name, w[i].entries[key := resp])];
    assert Put(s, name, key, resp) == r;
    FirstHoldingAt(r, key, i);
  }

  /** The only generation holding `key` with none before it is the one `caches.match` reads. */
  lemma FirstHoldingAt(s: Caches, key: string, i: int)
    requires 0 <= i < |s| && key in s[i].entries
    requires forall j :: 0 <= j < i ==> key !in s[j].entries
    ensures FirstHolding(s, key) == i
  {
  }

  lemma OpenAddsNoKey(s: Caches, name: string, key: string)
    requires forall j :: 0 <= j < |s| ==> key !in s[j].entries
    ensures forall j :: 0 <= j < |Open(s, name)| ==> key !in Open(s, name)[j].entries
  {
    if !Has(s, name) {
      assert Open(s, name) == s + [Generation(name, map[])];
    }
  }
}
