/**
 * sw.js: the install, activate, fetch and message handlers of the service
 * worker, over the CacheStorage model. The network and the outcome of each
 * cache write are inputs.
 */
module ServiceWorker {
  import opened Wrappers
  import opened CacheStorage

  /** The cache generation this worker version owns. */
  const CACHE_NAME: string := "ai-image-studio-v1"

  /** The install manifest, in order. */
  const ASSETS_TO_CACHE: seq<string> := [
    "/",
    "/index.html",
    "/styles.css",
    "/app.js",
    "/manifest.json",
    "https://fonts.googleapis.com/css2?family=Inter:wght@300;400;500;600;700;800&display=swap"
  ]

  /** Hostnames containing this text go straight to the network. */
  const API_HOST: string := "pollinations.ai"

  /** The offline fallback served to document requests. */
  const SHELL_URL: string := "/index.html"

  /** The parts of a fetch event's request that sw.js reads; `hostname` is `new URL(request.url).hostname`. */
  datatype Request = Request(url: string, hostname: string, destination: string)

  /** What `fetch(request)` settles to: a value (possibly none) or a rejection. */
  datatype Fetch = Settled(response: Option<Response>) | Rejected

  /** `s.includes(sub)`. */
  predicate Includes(s: string, sub: string)
    decreases |s|
  {
    if |sub| > |s| then false
    else if s[..|sub|] == sub then true
    else Includes(s[1..], sub)
  }

  /** `sub` occurs in `s` starting at position `i`. */
  predicate OccursAt(s: string, sub: string, i: int) {
    0 <= i <= |s| - |sub| && s[i..i + |sub|] == sub
  }

  /** Includes is the substring test: `sub` occurs at some position of `s`. */
  lemma {:induction false} IncludesIffOccurs(s: string, sub: string)
    ensures Includes(s, sub) <==> exists i :: OccursAt(s, sub, i)
    decreases |s|
  {
    if |sub| > |s| {
    } else if s[..|sub|] == sub {
      assert OccursAt(s, sub, 0);
    } else {
      IncludesIffOccurs(s[1..], sub);
      if exists i :: OccursAt(s, sub, i) {
        var i :| OccursAt(s, sub, i);
        assert i != 0;
        assert OccursAt(s[1..], sub, i - 1);
      }
      if Includes(s[1..], sub) {
        var i :| OccursAt(s[1..], sub, i);
        assert OccursAt(s, sub, i + 1);
      }
    }
  }

  /** The routing test of the fetch handler: `url.hostname.includes('pollinations.ai')`. */
  predicate IsApiRequest(req: Request)
    ensures IsApiRequest(req) <==> exists i :: OccursAt(req.hostname, API_HOST, i)
  {
    IncludesIffOccurs(req.hostname, API_HOST);
    Includes(req.hostname, API_HOST)
  }

  /**
   * A fetch `cache.addAll` accepts: it settled with a response whose status
   * is ok (2xx) but not 206, and which does not carry `Vary: *`.
   */
  predicate Cacheable(f: Fetch)
    ensures Cacheable(f) <==> ResponseOf(f).Some? && 200 <= ResponseOf(f).value.status <= 299
                              && ResponseOf(f).value.status != 206 && !ResponseOf(f).value.varyAll
  {
    f.Settled? && f.response.Some? && 200 <= f.response.value.status <= 299
    && f.response.value.status != 206 && !f.response.value.varyAll
  }

  /** The value a settled fetch passes on; a rejection leaves no response. */
  function ResponseOf(f: Fetch): Option<Response> {
    if f.Settled? then f.response else None
  }

  /**
   * The fetch handler's decision for one request: what the page receives,
   * which response (if any) is handed to `cache.put`, and whether the network
   * was asked.
   */
  datatype Decision = Decision(answer: Option<Response>, toStore: Option<Response>, usedNetwork: bool)

  /**
   * The offline branch (`.catch`): documents get the cached shell, anything
   * else gets no response.
   */
  function Fallback(s: Caches, req: Request, usedNetwork: bool): (d: Decision)
    ensures d.toStore == None && d.usedNetwork == usedNetwork
    ensures req.destination == "document" ==> d.answer == Match(s, SHELL_URL)
    ensures req.destination != "document" ==> d.answer == None
  {
    Decision(if req.destination == "document" then Match(s, SHELL_URL) else None, None, usedNetwork)
  }

  /**
   * The routing policy. `lookupOk` is false when `caches.match(request)`
   * rejects; `net` is what `fetch(request)` would settle to.
   */
  function Route(s: Caches, req: Request, lookupOk: bool, net: Fetch): (d: Decision)
    // API hosts: the network's answer verbatim, the cache neither read nor written
    ensures IsApiRequest(req) ==> d == Decision(ResponseOf(net), None, true)
    // a cache hit is answered from the cache without a fetch
    ensures !IsApiRequest(req) && lookupOk && Match(s, req.url).Some? ==> d == Decision(Match(s, req.url), None, false)
    // a miss answered with status 200 is returned and stored
    ensures !IsApiRequest(req) && lookupOk && Match(s, req.url).None? && net.Settled?
            && net.response.Some? && net.response.value.status == 200
            ==> d == Decision(net.response, net.response, true)
    // a miss answered with anything else is returned as it is and not stored
    ensures !IsApiRequest(req) && lookupOk && Match(s, req.url).None? && net.Settled?
            && (net.response.None? || net.response.value.status != 200)
            ==> d == Decision(net.response, None, true)
    // a failed lookup or fetch: the shell for documents, nothing otherwise
    ensures !IsApiRequest(req) && (!lookupOk || (Match(s, req.url).None? && net.Rejected?))
            ==> d.toStore == None && d.usedNetwork == lookupOk
                && (req.destination == "document" ==> d.answer == Match(s, SHELL_URL))
                && (req.destination != "document" ==> d.answer == None)
    // only a response with status 200, and only the one returned, is ever stored
    ensures d.toStore.Some? ==> d.toStore == d.answer && d.toStore.value.status == 200
  {
    if IsApiRequest(req) then
      Decision(ResponseOf(net), None, true)
    else if !lookupOk then
      Fallback(s, req, false)
    else match Match(s, req.url)
      case Some(cached) => Decision(Some(cached), None, false)
      case None =>
        match net
        case Rejected => Fallback(s, req, true)
        case Settled(response) =>
          if response.None? || response.value.status != 200 then Decision(response, None, true)
          else Decision(response, response, true)
  }

  /**
   * How the un-awaited `caches.open(CACHE_NAME).then(cache => cache.put(...))`
   * ends: stored, the put rejected after the open, or the open rejected.
   */
  datatype PutOutcome = Stored | PutRejected | OpenRejected

  /**
   * The cache after one fetch event: the response chosen for storing is put
   * into CACHE_NAME. A rejected put (also the one `cache.put` makes for a
   * `Vary: *` response) still leaves CACHE_NAME opened; a rejected open
   * changes nothing.
   */
  function Served(s: Caches, req: Request, lookupOk: bool, net: Fetch, put: PutOutcome): (r: Caches)
    ensures Distinct(s) ==> Distinct(r)
    ensures forall n, k :: (n != CACHE_NAME || k != req.url) ==> Lookup(r, n, k) == Lookup(s, n, k)
    ensures Route(s, req, lookupOk, net).toStore == None ==> r == s
    ensures forall n :: Has(r, n) ==> Has(s, n) || n == CACHE_NAME
    ensures put == OpenRejected ==> r == s
    ensures put == Stored && !IsApiRequest(req) && lookupOk && Match(s, req.url) == None
            && net.Settled? && net.response.Some? && net.response.value.status == 200 && !net.response.value.varyAll
            ==> Lookup(r, CACHE_NAME, req.url) == net.response
  {
    var d := Route(s, req, lookupOk, net);
    if d.toStore.None? || put == OpenRejected then s
    else if put == PutRejected || d.toStore.value.varyAll then Open(s, CACHE_NAME)
    else Put(s, CACHE_NAME, req.url, d.toStore.value)
  }

  /** The environment of one fetch event. */
  datatype Attempt = Attempt(lookupOk: bool, net: Fetch, put: PutOutcome)

  /** The cache after the same request is served once per attempt, in order. */
  function ServedAll(s: Caches, req: Request, attempts: seq<Attempt>): Caches
    decreases |attempts|
  {
    if attempts == [] then s
    else
      var a := attempts[0];
      ServedAll(Served(s, req, a.lookupOk, a.net, a.put), req, attempts[1..])
  }

  /** However often an API request is served, and whatever happens, the cache is untouched. */
  lemma {:induction false} ApiRequestsNeverCached(s: Caches, req: Request, attempts: seq<Attempt>)
    requires IsApiRequest(req)
    ensures ServedAll(s, req, attempts) == s
    decreases |attempts|
  {
    if attempts != [] {
      var a := attempts[0];
      assert Served(s, req, a.lookupOk, a.net, a.put) == s;
      ApiRequestsNeverCached(s, req, attempts[1..]);
    }
  }

  /**
   * After a miss answered with status 200 and a successful put, the same
   * request is answered from the cache, with the same response and no fetch.
   */
  lemma StoredThenHit(s: Caches, req: Request, resp: Response, net2: Fetch)
    requires !IsApiRequest(req) && Match(s, req.url) == None && resp.status == 200 && !resp.varyAll
    ensures Route(Served(s, req, true, Settled(Some(resp)), Stored), req, true, net2)
            == Decision(Some(resp), None, false)
  {
    MatchAfterPut(s, CACHE_NAME, req.url, resp);
  }

  /** The data of a message event, as far as the handler can tell it apart. */
  datatype MessageData =
    | Falsy                      // no data, or null, 0, "", false
    | Scalar                     // a truthy value without a `type` property
    | Record(kind: Option<string>)  // an object; `kind` is its `type` when that is a string

  /** `event.data && event.data.type === 'SKIP_WAITING'`. */
  predicate AsksToSkipWaiting(data: MessageData)
    ensures AsksToSkipWaiting(data) <==> data == Record(Some("SKIP_WAITING"))
  {
    data.Record? && data.kind == Some("SKIP_WAITING")
  }

  /** The service worker's view of the browser: CacheStorage and the lifecycle calls made. */
  class Worker {
    var caches: Caches
    var skipWaitingCalled: bool
    var clientsClaimed: bool

    ghost predicate Valid()
      reads this
    {
      Distinct(caches)
    }

    constructor (caches: Caches)
      requires Distinct(caches)
      ensures Valid()
      ensures this.caches == caches && !skipWaitingCalled && !clientsClaimed
    {
      this.caches := caches;
      skipWaitingCalled := false;
      clientsClaimed := false;
    }

    /**
     * The install handler. `caches.open` creates CACHE_NAME unless it
     * rejects (`openOk`); `addAll` fetches every asset and stores them all
     * only when every fetch is acceptable and the batch write succeeds
     * (`writeOk`); only then is skipWaiting called. The result is whether
     * the waitUntil promise fulfils.
     */
    method Install(net: string -> Fetch, openOk: bool, writeOk: bool) returns (installed: bool)
      requires Valid()
      modifies this`caches, this`skipWaitingCalled
      ensures Valid()
      ensures installed <==> openOk && writeOk && forall a :: a in ASSETS_TO_CACHE ==> Cacheable(net(a))
      ensures forall n :: Has(caches, n) <==> Has(old(caches), n) || (openOk && n == CACHE_NAME)
      ensures Names(caches) == if openOk then Names(Open(old(caches), CACHE_NAME)) else Names(old(caches))
      ensures installed ==> forall a :: a in ASSETS_TO_CACHE ==> Lookup(caches, CACHE_NAME, a) == ResponseOf(net(a))
      ensures forall n, k :: (!installed || n != CACHE_NAME || k !in ASSETS_TO_CACHE)
                ==> Lookup(caches, n, k) == Lookup(old(caches), n, k)
      ensures skipWaitingCalled == (old(skipWaitingCalled) || installed)
    {
      if !openOk {
        installed := false;
        return;
      }
      caches := Open(caches, CACHE_NAME);
      var fetched := AllCacheable(ASSETS_TO_CACHE, net);
      installed := fetched && writeOk;
      if installed {
        StoreAll(ASSETS_TO_CACHE, net);
        skipWaitingCalled := true;
      }
    }

    /** The storing half of `cache.addAll(urls)` on CACHE_NAME, once every fetch has succeeded. */
    method StoreAll(urls: seq<string>, net: string -> Fetch)
      requires Valid() && Has(caches, CACHE_NAME)
      requires forall a :: a in urls ==> Cacheable(net(a))
      modifies this`caches
      ensures Valid()
      ensures forall n :: Has(caches, n) <==> Has(old(caches), n)
      ensures Names(caches) == Names(old(caches))
      ensures forall a :: a in urls ==> Lookup(caches, CACHE_NAME, a) == ResponseOf(net(a))
      ensures forall n, k :: (n != CACHE_NAME || k !in urls) ==> Lookup(caches, n, k) == Lookup(old(caches), n, k)
    {
      var i := 0;
      while i < |urls|
        invariant 0 <= i <= |urls|
        invariant caches == StoredAll(old(caches), urls[..i], net)
      {
        var url := urls[i];
        assert urls[..i + 1][..i] == urls[..i];
        caches := Put(caches, CACHE_NAME, url, net(url).response.value);
        i := i + 1;
      }
      assert urls[..i] == urls;
      StoredAllShape(old(caches), urls, net);
      SameNamesSameHas(caches, old(caches));
    }

    /**
     * The activate handler: every generation whose name is not CACHE_NAME is
     * deleted, then clients are claimed. `keysOk` is false when
     * `caches.keys()` rejects; `deleteOk(n)` is whether `caches.delete(n)`
     * succeeds. Any rejection rejects the chain, and clients are not claimed.
     */
    method Activate(keysOk: bool, deleteOk: string -> bool)
      requires Valid()
      modifies this`caches, this`clientsClaimed
      ensures Valid()
      ensures forall n :: Has(caches, n) <==> Has(old(caches), n) && (n == CACHE_NAME || !keysOk || !deleteOk(n))
      ensures forall k :: Lookup(caches, CACHE_NAME, k) == Lookup(old(caches), CACHE_NAME, k)
      ensures clientsClaimed == (old(clientsClaimed) || (keysOk && AllDeleted(Names(old(caches)), deleteOk)))
      ensures keysOk && AllDeleted(Names(old(caches)), deleteOk) ==> |caches| <= 1
      ensures !keysOk ==> caches == old(caches)
      ensures keysOk ==> caches == Without(old(caches), set n | n in Names(old(caches)) && n != CACHE_NAME && deleteOk(n))
    {
      if !keysOk {
        return;
      }
      var names := Names(caches);
      var stale := Stale(names, CACHE_NAME);
      ghost var before := caches;
      var allDeleted := DeleteAll(stale, deleteOk);
      ghost var dropped := set n | n in stale && deleteOk(n);
      assert dropped == set n | n in Names(before) && n != CACHE_NAME && deleteOk(n);
      assert forall n :: n in dropped <==> n in Names(before) && n != CACHE_NAME && deleteOk(n);
      StaleAllDeleted(names, stale, deleteOk);
      WithoutSome(before, dropped, CACHE_NAME, deleteOk);
      if allDeleted {
        clientsClaimed := true;
      }
    }

    /**
     * The deletions of the activate handler, one `caches.delete` per name;
     * the result is whether all of them succeeded.
     */
    method DeleteAll(stale: seq<string>, deleteOk: string -> bool) returns (allDeleted: bool)
      modifies this`caches
      ensures caches == Without(old(caches), set n | n in stale && deleteOk(n))
      ensures allDeleted <==> forall j :: 0 <= j < |stale| ==> deleteOk(stale[j])
    {
      ghost var dropped: set<string> := {};
      allDeleted := true;
      WithoutNothing(caches);
      var i := 0;
      while i < |stale|
        invariant 0 <= i <= |stale|
        invariant forall n :: n in dropped <==> n in stale[..i] && deleteOk(n)
        invariant allDeleted <==> forall j :: 0 <= j < i ==> deleteOk(stale[j])
        invariant caches == Without(old(caches), dropped)
      {
        if deleteOk(stale[i]) {
          DeleteAfterWithout(old(caches), dropped, stale[i]);
          caches := Delete(caches, stale[i]);
          dropped := dropped + {stale[i]};
        } else {
          allDeleted := false;
        }
        assert stale[..i + 1] == stale[..i] + [stale[i]];
        i := i + 1;
      }
      assert stale[..i] == stale;
      assert dropped == set n | n in stale && deleteOk(n);
    }

    /**
     * The fetch handler: the page gets the routed answer, and a response
     * chosen for storing is put into CACHE_NAME when the put succeeds.
     */
    method HandleFetch(req: Request, lookupOk: bool, net: Fetch, put: PutOutcome) returns (answer: Option<Response>)
      requires Valid()
      modifies this`caches
      ensures Valid()
      ensures answer == Route(old(caches), req, lookupOk, net).answer
      ensures caches == Served(old(caches), req, lookupOk, net, put)
    {
      var d := Route(caches, req, lookupOk, net);
      if d.toStore.Some? && put != OpenRejected {
        if put == PutRejected || d.toStore.value.varyAll {
          caches := Open(caches, CACHE_NAME);
        } else {
          caches := Put(caches, CACHE_NAME, req.url, d.toStore.value);
        }
      }
      answer := d.answer;
    }

    /** The message handler: only a `SKIP_WAITING` record calls skipWaiting. */
    method OnMessage(data: MessageData)
      modifies this`skipWaitingCalled
      ensures skipWaitingCalled == (old(skipWaitingCalled) || AsksToSkipWaiting(data))
    {
      if data.Record? && data.kind == Some("SKIP_WAITING") {
        skipWaitingCalled := true;
      }
    }
  }

  /** CACHE_NAME holds the fetched response of every URL in `urls`. */
  ghost predicate Holds(s: Caches, urls: seq<string>, net: string -> Fetch) {
    forall j :: 0 <= j < |urls| ==> Lookup(s, CACHE_NAME, urls[j]) == ResponseOf(net(urls[j]))
  }

  /** `s` and `t` agree everywhere except on the entries `urls` of CACHE_NAME. */
  ghost predicate SameOutside(s: Caches, t: Caches, urls: seq<string>) {
    forall n, k :: (n != CACHE_NAME || k !in urls) ==> Lookup(s, n, k) == Lookup(t, n, k)
  }

  /** CACHE_NAME after `cache.put` of each URL's fetched response, in order. */
  function StoredAll(s: Caches, urls: seq<string>, net: string -> Fetch): Caches
    requires forall a :: a in urls ==> Cacheable(net(a))
    decreases |urls|
  {
    if urls == [] then s
    else
      var p, u := urls[..|urls| - 1], urls[|urls| - 1];
      assert u in urls;
      assert Cacheable(net(u)) && net(u).Settled? && net(u).response.Some?;
      assert forall a :: a in p ==> a in urls;
      Put(StoredAll(s, p, net), CACHE_NAME, u, net(u).response.value)
  }

  /** Storing a run of URLs keeps the generations and their order, and changes exactly those entries. */
  lemma {:induction false} StoredAllShape(s: Caches, urls: seq<string>, net: string -> Fetch)
    requires Distinct(s) && Has(s, CACHE_NAME)
    requires forall a :: a in urls ==> Cacheable(net(a))
    ensures Distinct(StoredAll(s, urls, net)) && Names(StoredAll(s, urls, net)) == Names(s)
    ensures Holds(StoredAll(s, urls, net), urls, net) && SameOutside(StoredAll(s, urls, net), s, urls)
    decreases |urls|
  {
    if urls != [] {
      var p, u := urls[..|urls| - 1], urls[|urls| - 1];
      assert p + [u] == urls;
      StoredAllShape(s, p, net);
      var before := StoredAll(s, p, net);
      SameNamesSameHas(before, s);
      StoreStep(before, s, p, u, net);
    }
  }

  lemma StoreStep(s: Caches, t: Caches, urls: seq<string>, url: string, net: string -> Fetch)
    requires Cacheable(net(url))
    requires Holds(s, urls, net) && SameOutside(s, t, urls)
    ensures Holds(Put(s, CACHE_NAME, url, net(url).response.value), urls + [url], net)
    ensures SameOutside(Put(s, CACHE_NAME, url, net(url).response.value), t, urls + [url])
  {
  }

  /** The fetching half of `cache.addAll(urls)`: it succeeds only when every response is ok. */
  method AllCacheable(urls: seq<string>, net: string -> Fetch) returns (ok: bool)
    ensures ok <==> forall a :: a in urls ==> Cacheable(net(a))
  {
    ok := true;
    var i := 0;
    while i < |urls|
      invariant 0 <= i <= |urls|
      invariant ok <==> forall j :: 0 <= j < i ==> Cacheable(net(urls[j]))
    {
      if !Cacheable(net(urls[i])) {
        ok := false;
      }
      i := i + 1;
    }
  }

  /** Every stale generation's `caches.delete` succeeds. */
  ghost predicate AllDeleted(names: seq<string>, deleteOk: string -> bool) {
    forall n :: n in names && n != CACHE_NAME ==> deleteOk(n)
  }

  /** Every name of `stale` is deleted exactly when every stale generation is. */
  lemma StaleAllDeleted(names: seq<string>, stale: seq<string>, deleteOk: string -> bool)
    requires forall n :: n in stale <==> n in names && n != CACHE_NAME
    ensures (forall j :: 0 <= j < |stale| ==> deleteOk(stale[j])) <==> AllDeleted(names, deleteOk)
  {
    if forall j :: 0 <= j < |stale| ==> deleteOk(stale[j]) {
      forall n | n in names && n != CACHE_NAME ensures deleteOk(n) {
        var j :| 0 <= j < |stale| && stale[j] == n;
      }
      assert AllDeleted(names, deleteOk);
    } else {
      var j :| 0 <= j < |stale| && !deleteOk(stale[j]);
      assert stale[j] in names && stale[j] != CACHE_NAME;
    }
  }

  /** `cacheNames.filter((cacheName) => cacheName !== CACHE_NAME)`. */
  function Stale(names: seq<string>, current: string): (r: seq<string>)
    ensures |r| <= |names|
    ensures forall n :: n in r <==> n in names && n != current
  {
    if names == [] then []
    else if names[0] != current then [names[0]] + Stale(names[1..], current)
    else Stale(names[1..], current)
  }
}
