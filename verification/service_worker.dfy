/** The service worker of sw.js: the fetch listener's first-match request
    classifier, the five per-class cache strategies, the activate-time sweep
    of cache names and the offline-order sync loop.

    Cache Storage is a map from cache name to a cache, and a cache is a map
    from request URL to stored response. The network is an input: the
    outcome `fetch` would have, either a response or a thrown error. Each
    handler is a pure function from (caches, request, outcome) to the reply
    given to `respondWith` and the caches afterwards. */
module ServiceWorker {
  import opened Optional
  import opened Strings

  const CACHE_NAME := "bella-vista-v1.0.0"
  const STATIC_CACHE := "bella-vista-static-v1.0.0"
  const DYNAMIC_CACHE := "bella-vista-dynamic-v1.0.0"

  /** The install-time manifest; the fetch listener also classifies by it. */
  const STATIC_ASSETS: seq<string> := [
    "/",
    "/index.html",
    "/menu.html",
    "/cart.html",
    "/order.html",
    "/contact.html",
    "/confirmation.html",
    "/manifest.json",
    "/css/styles.css",
    "/js/app.js",
    "/js/cart.js",
    "/js/menu.js",
    "/js/order.js",
    "/js/contact.js",
    "/icons/icon-192.svg",
    "/icons/icon-512.svg",
    // The external CDN entries are written as scheme + rest so that their
    // leading characters stay visible to the verifier.
    "https://" + "fonts.googleapis.com/css2?family=Playfair+Display:wght@400;600;700&family=Inter:wght@300;400;500;600&display=swap",
    "https://" + "cdnjs.cloudflare.com/ajax/libs/feather-icons/4.29.0/feather.min.css",
    "https://" + "cdnjs.cloudflare.com/ajax/libs/feather-icons/4.29.0/feather.min.js"
  ]

  /** The app-shell page the navigation fallback looks up. */
  const INDEX_PAGE := "/index.html"

  const IMAGE_OFFLINE_BODY := "Image not available offline"
  const API_OFFLINE_BODY := "{\"error\":\"Service unavailable offline\",\"offline\":true}"

  datatype Request = Request(verb: string, url: string, navigate: bool)

  datatype Response = Response(status: int, body: string)

  /** What `fetch` does: resolve with a response of any status, or throw. */
  datatype Outcome = Ok(status: int, body: string) | Fail

  type Cache = map<string, Response>
  type CacheStorage = map<string, Cache>

  /** What `respondWith` receives: a response, or a promise that rejects
      (or resolves to `undefined`), which the page sees as a network error. */
  datatype Reply = Served(response: Response) | NetworkError

  datatype Handled = Handled(reply: Reply, caches: CacheStorage)

  datatype Route = Navigation | StaticAsset | DynamicAsset | Api | Default

  // ---------------------------------------------------------------------
  // Cache Storage primitives

  /** `caches.open(name)`: the named cache, created empty when absent. */
  function Open(cs: CacheStorage, name: string): (r: CacheStorage)
    ensures name in r && r.Keys == cs.Keys + {name}
    ensures forall n :: n in cs ==> r[n] == cs[n]
    ensures name !in cs ==> r[name] == map[]
  {
    if name in cs then cs else cs[name := map[]]
  }

  function Entries(cs: CacheStorage, name: string): Cache {
    if name in cs then cs[name] else map[]
  }

  /** `cache.match(url)`; `None` is the source's `undefined`. */
  function Lookup(cs: CacheStorage, name: string, url: string): Option<Response> {
    if url in Entries(cs, name) then Some(Entries(cs, name)[url]) else None
  }

  /** `cache.put(url, response)` on the named cache. */
  function Store(cs: CacheStorage, name: string, url: string, resp: Response): (r: CacheStorage)
    ensures r.Keys == cs.Keys + {name}
    ensures Lookup(r, name, url) == Some(resp)
  {
    cs[name := Entries(cs, name)[url := resp]]
  }

  /** `cs'` differs from `cs` at most in cache `name`: no cache is deleted,
      none but `name` is created, and every other cache is as it was. */
  ghost predicate OnlyTouches(cs: CacheStorage, cs': CacheStorage, name: string) {
    cs.Keys <= cs'.Keys <= cs.Keys + {name}
    && forall n :: n in cs && n != name ==> cs'[n] == cs[n]
  }

  /** No entry was written: every cache is as before, and the only new
      cache is an empty one that `caches.open` created. */
  ghost predicate NoWrites(cs: CacheStorage, cs': CacheStorage) {
    cs.Keys <= cs'.Keys
    && (forall n :: n in cs ==> cs'[n] == cs[n])
    && (forall n :: n in cs' && n !in cs ==> cs'[n] == map[])
  }

  function AsResponse(o: Outcome): Response
    requires o.Ok?
  {
    Response(o.status, o.body)
  }

  // ---------------------------------------------------------------------
  // The fetch listener

  /** Some entry of the manifest is a substring of `url`. */
  predicate MatchesManifest(url: string) {
    exists i | 0 <= i < |STATIC_ASSETS| :: Contains(url, STATIC_ASSETS[i])
  }

  /** The fetch listener's first-match classification. `None`: the listener
      does not call `respondWith`, so the browser performs the request
      itself; only GET requests are intercepted. */
  function Classify(req: Request): (r: Option<Route>)
    ensures r.Some? <==> req.verb == "GET"
    ensures r == Some(Navigation) <==> req.verb == "GET" && req.navigate
  {
    if req.verb != "GET" then None
    else if req.navigate then Some(Navigation)
    else if MatchesManifest(req.url) then Some(StaticAsset)
    else if Contains(req.url, "pixabay.com") || Contains(req.url, "images") then Some(DynamicAsset)
    else if Contains(req.url, "/api/") then Some(Api)
    else Some(Default)
  }

  /** If `t` occurs in `s` and `u` in `t`, then `u` occurs in `s`. */
  lemma ContainsTrans(s: string, t: string, u: string)
    requires Contains(s, t) && Contains(t, u)
    ensures Contains(s, u)
  {
    ContainsIff(s, t);
    ContainsIff(t, u);
    var i :| OccursAt(s, t, i);
    var j :| OccursAt(t, u, j);
    forall m | 0 <= m < |u|
      ensures s[i + j..i + j + |u|][m] == u[m]
    {
      assert u[m] == t[j + m] == s[i..i + |t|][j + m];
    }
    assert OccursAt(s, u, i + j);
    ContainsIff(s, u);
  }

  /** Every manifest entry holds a `/`. */
  lemma ManifestSlashes(i: int)
    requires 0 <= i < |STATIC_ASSETS|
    ensures Contains(STATIC_ASSETS[i], "/")
  {
    if i < 16 {
      assert forall j :: 0 <= j < 16 ==> STATIC_ASSETS[j][0] == '/';
      ContainsChar(STATIC_ASSETS[i], 0);
    } else {
      assert forall j :: 16 <= j < 19 ==> STATIC_ASSETS[j][6] == '/';
      ContainsChar(STATIC_ASSETS[i], 6);
    }
  }

  /** Because `'/'` is itself a manifest entry, the manifest test is
      exactly "the URL holds a `/`": every non-navigation GET whose URL
      holds a `/` is routed to the static-asset handler, and no other is. */
  lemma {:induction false} StaticIffSlash(req: Request)
    ensures Classify(req) == Some(StaticAsset) <==>
      req.verb == "GET" && !req.navigate && Contains(req.url, "/")
  {
    if Contains(req.url, "/") {
      assert Contains(req.url, STATIC_ASSETS[0]);
    }
    if MatchesManifest(req.url) {
      var i :| 0 <= i < |STATIC_ASSETS| && Contains(req.url, STATIC_ASSETS[i]);
      ManifestSlashes(i);
      ContainsTrans(req.url, STATIC_ASSETS[i], "/");
    }
  }

  /** The API branch of the listener is dead: `/api/` holds a `/`, so any
      URL it matches was already taken by the static-asset branch. */
  lemma ApiRouteUnreachable(req: Request)
    ensures Classify(req) != Some(Api)
  {
    if Contains(req.url, "/api/") {
      ContainsChar("/api/", 0);
      ContainsTrans(req.url, "/api/", "/");
      StaticIffSlash(req);
    }
  }

  /** The rest of the first-match account: a non-navigation GET whose URL
      holds no `/` goes to the dynamic-asset handler exactly when it
      mentions `pixabay.com` or `images`, and to the default handler
      otherwise. */
  lemma DynamicAndDefaultIff(req: Request)
    ensures Classify(req) == Some(DynamicAsset) <==>
      && req.verb == "GET" && !req.navigate && !Contains(req.url, "/")
      && (Contains(req.url, "pixabay.com") || Contains(req.url, "images"))
    ensures Classify(req) == Some(Default) <==>
      && req.verb == "GET" && !req.navigate && !Contains(req.url, "/")
      && !Contains(req.url, "pixabay.com") && !Contains(req.url, "images")
  {
    StaticIffSlash(req);
    ApiRouteUnreachable(req);
  }

  /** A URL that starts with a scheme and `://` (every URL `request.url`
      can hold) is never routed to the dynamic, API or default handler. */
  lemma AbsoluteUrlsRouteStaticOrNavigation(req: Request, k: nat)
    requires k + 3 <= |req.url| && req.url[k..k + 3] == "://"
    ensures Classify(req) in {None, Some(Navigation), Some(StaticAsset)}
  {
    assert req.url[k + 1] == '/';
    ContainsChar(req.url, k + 1);
    StaticIffSlash(req);
  }

  // ---------------------------------------------------------------------
  // The five handlers

  /** handleNavigationRequest: network first; on a thrown fetch, the STATIC
      entry for this URL, else the `/index.html` entry. The source's
      `cache.match('/index.html') || cache.match('/')` applies `||` to a
      Promise, which is always truthy, so the `/` entry is never consulted;
      when `/index.html` is missing too the promise resolves to `undefined`
      and the page sees a network error. */
  function HandleNavigation(cs: CacheStorage, req: Request, o: Outcome): (r: Handled)
    ensures NoWrites(cs, r.caches)
    ensures o.Ok? ==> r == Handled(Served(AsResponse(o)), cs)
  {
    match o
    case Ok(_, _) => Handled(Served(AsResponse(o)), cs)
    case Fail =>
      var cs1 := Open(cs, STATIC_CACHE);
      match Lookup(cs1, STATIC_CACHE, req.url)
      case Some(hit) => Handled(Served(hit), cs1)
      case None =>
        match Lookup(cs1, STATIC_CACHE, INDEX_PAGE)
        case Some(index) => Handled(Served(index), cs1)
        case None => Handled(NetworkError, cs1)
  }

  /** handleStaticAssetRequest: cache first in STATIC; on a miss, fetch,
      store whatever response came back, and return it; a thrown fetch is
      rethrown. */
  function HandleStatic(cs: CacheStorage, req: Request, o: Outcome): (r: Handled)
    ensures OnlyTouches(cs, r.caches, STATIC_CACHE)
    ensures r.reply == NetworkError <==> Lookup(cs, STATIC_CACHE, req.url).None? && o.Fail?
  {
    var cs1 := Open(cs, STATIC_CACHE);
    match Lookup(cs1, STATIC_CACHE, req.url)
    case Some(hit) => Handled(Served(hit), cs1)
    case None =>
      match o
      case Ok(_, _) => Handled(Served(AsResponse(o)), Store(cs1, STATIC_CACHE, req.url, AsResponse(o)))
      case Fail => Handled(NetworkError, cs1)
  }

  /** handleDynamicAssetRequest: cache first in DYNAMIC; on a miss, fetch
      and store the response only when its status is 200; a thrown fetch
      becomes a synthesized 503 placeholder, so this handler always serves. */
  function HandleDynamic(cs: CacheStorage, req: Request, o: Outcome): (r: Handled)
    ensures OnlyTouches(cs, r.caches, DYNAMIC_CACHE)
    ensures r.reply.Served?
  {
    var cs1 := Open(cs, DYNAMIC_CACHE);
    match Lookup(cs1, DYNAMIC_CACHE, req.url)
    case Some(hit) => Handled(Served(hit), cs1)
    case None =>
      match o
      case Ok(status, _) =>
        var resp := AsResponse(o);
        Handled(Served(resp), if status == 200 then Store(cs1, DYNAMIC_CACHE, req.url, resp) else cs1)
      case Fail => Handled(Served(Response(503, IMAGE_OFFLINE_BODY)), cs1)
  }

  /** handleApiRequest: network first; a GET answered with status 200 is
      stored in DYNAMIC. On a thrown fetch a GET is served from DYNAMIC if
      it can be, and otherwise (and always for other methods) the answer is
      the 503 JSON body marked `offline: true`. It always serves. */
  function HandleApi(cs: CacheStorage, req: Request, o: Outcome): (r: Handled)
    ensures r.reply.Served?
    ensures req.verb != "GET" ==> r.caches == cs
    ensures req.verb == "GET" ==> OnlyTouches(cs, r.caches, DYNAMIC_CACHE)
  {
    match o
    case Ok(status, _) =>
      var resp := AsResponse(o);
      if req.verb == "GET" && status == 200 then
        Handled(Served(resp), Store(Open(cs, DYNAMIC_CACHE), DYNAMIC_CACHE, req.url, resp))
      else if req.verb == "GET" then
        // The source opens DYNAMIC only inside the 200 branch; a GET that is
        // not 200 leaves Cache Storage as it was.
        Handled(Served(resp), cs)
      else Handled(Served(resp), cs)
    case Fail =>
      if req.verb == "GET" then
        var cs1 := Open(cs, DYNAMIC_CACHE);
        match Lookup(cs1, DYNAMIC_CACHE, req.url)
        case Some(hit) => Handled(Served(hit), cs1)
        case None => Handled(Served(Response(503, API_OFFLINE_BODY)), cs1)
      else Handled(Served(Response(503, API_OFFLINE_BODY)), cs)
  }

  /** handleDefaultRequest: network first; on a thrown fetch the STATIC
      entry if there is one, else the error is rethrown. */
  function HandleDefault(cs: CacheStorage, req: Request, o: Outcome): (r: Handled)
    ensures NoWrites(cs, r.caches)
    ensures o.Ok? ==> r == Handled(Served(AsResponse(o)), cs)
  {
    match o
    case Ok(_, _) => Handled(Served(AsResponse(o)), cs)
    case Fail =>
      var cs1 := Open(cs, STATIC_CACHE);
      match Lookup(cs1, STATIC_CACHE, req.url)
      case Some(hit) => Handled(Served(hit), cs1)
      case None => Handled(NetworkError, cs1)
  }

  /** The fetch listener: classify, then run that class's handler. */
  function OnFetch(cs: CacheStorage, req: Request, o: Outcome): (r: Option<Handled>)
    ensures r.None? <==> req.verb != "GET"
  {
    match Classify(req)
    case None => None
    case Some(Navigation) => Some(HandleNavigation(cs, req, o))
    case Some(StaticAsset) => Some(HandleStatic(cs, req, o))
    case Some(DynamicAsset) => Some(HandleDynamic(cs, req, o))
    case Some(Api) => Some(HandleApi(cs, req, o))
    case Some(Default) => Some(HandleDefault(cs, req, o))
  }

  // ---------------------------------------------------------------------
  // Properties of the handlers

  /** Static assets: a cache hit is served as stored and the network
      outcome plays no part; a miss with a response stores that response
      under the request's URL and serves it; a miss with a thrown fetch is
      a network error and writes nothing. */
  lemma StaticStrategy(cs: CacheStorage, req: Request, o: Outcome, o': Outcome)
    ensures Lookup(cs, STATIC_CACHE, req.url).Some? ==>
      HandleStatic(cs, req, o) == HandleStatic(cs, req, o')
      && HandleStatic(cs, req, o).reply == Served(Lookup(cs, STATIC_CACHE, req.url).value)
      && NoWrites(cs, HandleStatic(cs, req, o).caches)
    ensures Lookup(cs, STATIC_CACHE, req.url).None? && o.Ok? ==>
      HandleStatic(cs, req, o).reply == Served(AsResponse(o))
      && Lookup(HandleStatic(cs, req, o).caches, STATIC_CACHE, req.url) == Some(AsResponse(o))
    ensures Lookup(cs, STATIC_CACHE, req.url).None? && o.Fail? ==>
      NoWrites(cs, HandleStatic(cs, req, o).caches)
  {
  }

  /** Dynamic assets: the DYNAMIC cache gains an entry only from a miss
      answered with status 200, and then exactly that response under the
      request's URL; every other path leaves the entries as they were, and
      a miss with a thrown fetch serves the 503 image placeholder. */
  lemma DynamicStoresOnly200(cs: CacheStorage, req: Request, o: Outcome)
    ensures var r := HandleDynamic(cs, req, o);
      if Lookup(cs, DYNAMIC_CACHE, req.url).None? && o.Ok? && o.status == 200
      then r.caches == Store(cs, DYNAMIC_CACHE, req.url, AsResponse(o)) && r.reply == Served(AsResponse(o))
      else NoWrites(cs, r.caches)
    ensures Lookup(cs, DYNAMIC_CACHE, req.url).None? && o.Fail? ==>
      HandleDynamic(cs, req, o).reply == Served(Response(503, IMAGE_OFFLINE_BODY))
    ensures Lookup(cs, DYNAMIC_CACHE, req.url).Some? ==>
      forall o' :: HandleDynamic(cs, req, o') == HandleDynamic(cs, req, o)
  {
  }

  /** API requests: the network response is always the one served when
      there is one, and it is stored only for a GET with status 200. On a
      thrown fetch a cached GET is served, otherwise the offline JSON; a
      non-GET is never served from the cache. */
  lemma ApiStrategy(cs: CacheStorage, req: Request, o: Outcome)
    ensures o.Ok? ==> HandleApi(cs, req, o).reply == Served(AsResponse(o))
    ensures var r := HandleApi(cs, req, o);
      if o.Ok? && o.status == 200 && req.verb == "GET"
      then r.caches == Store(cs, DYNAMIC_CACHE, req.url, AsResponse(o))
      else NoWrites(cs, r.caches)
    ensures o.Fail? ==>
      HandleApi(cs, req, o).reply ==
      (if req.verb == "GET" && Lookup(cs, DYNAMIC_CACHE, req.url).Some?
       then Served(Lookup(cs, DYNAMIC_CACHE, req.url).value)
       else Served(Response(503, API_OFFLINE_BODY)))
  {
  }

  /** Navigation never writes a cache. Offline it serves the STATIC entry
      for the URL, else the `/index.html` entry, else fails; the `/` entry
      never changes the answer. */
  lemma NavigationFallback(cs: CacheStorage, req: Request, root: Response)
    ensures var r := HandleNavigation(cs, req, Fail);
      r.reply == (if Lookup(cs, STATIC_CACHE, req.url).Some? then Served(Lookup(cs, STATIC_CACHE, req.url).value)
                  else if Lookup(cs, STATIC_CACHE, INDEX_PAGE).Some? then Served(Lookup(cs, STATIC_CACHE, INDEX_PAGE).value)
                  else NetworkError)
    ensures req.url != "/" ==>
      HandleNavigation(Store(cs, STATIC_CACHE, "/", root), req, Fail).reply
      == HandleNavigation(Open(cs, STATIC_CACHE), req, Fail).reply
  {
    var cs' := Store(cs, STATIC_CACHE, "/", root);
    var e := Entries(cs, STATIC_CACHE);
    assert Entries(cs', STATIC_CACHE) == e["/" := root];
    assert Entries(Open(cs, STATIC_CACHE), STATIC_CACHE) == e;
    if req.url != "/" {
      assert Lookup(cs', STATIC_CACHE, req.url) == Lookup(Open(cs, STATIC_CACHE), STATIC_CACHE, req.url);
    }
    assert Lookup(cs', STATIC_CACHE, INDEX_PAGE) == Lookup(Open(cs, STATIC_CACHE), STATIC_CACHE, INDEX_PAGE);
  }

  /** Default requests: offline, only the STATIC cache is consulted; the
      DYNAMIC cache never affects the answer. */
  lemma DefaultIgnoresDynamic(cs: CacheStorage, req: Request, o: Outcome, d: Cache)
    ensures HandleDefault(cs, req, o).reply == HandleDefault(cs[DYNAMIC_CACHE := d], req, o).reply
    ensures o.Fail? ==>
      HandleDefault(cs, req, o).reply ==
      (if Lookup(cs, STATIC_CACHE, req.url).Some? then Served(Lookup(cs, STATIC_CACHE, req.url).value)
       else NetworkError)
  {
  }

  // ---------------------------------------------------------------------
  // The activate-time sweep

  /** The activate handler: every cache whose name is neither STATIC_CACHE
      nor DYNAMIC_CACHE is deleted, one name at a time, and the two kept
      caches keep their entries. */
  method Activate(cs: CacheStorage) returns (kept: CacheStorage)
    ensures kept.Keys == set n | n in cs && (n == STATIC_CACHE || n == DYNAMIC_CACHE)
    ensures forall n :: n in kept ==> kept[n] == cs[n]
  {
    var names := cs.Keys;
    kept := cs;
    while names != {}
      invariant names <= cs.Keys
      invariant kept.Keys == set n | n in cs && (n in names || n == STATIC_CACHE || n == DYNAMIC_CACHE)
      invariant forall n :: n in kept ==> kept[n] == cs[n]
      decreases names
    {
      var name :| name in names;
      if name != STATIC_CACHE && name != DYNAMIC_CACHE {
        kept := map n | n in kept && n != name :: kept[n];
      }
      names := names - {name};
    }
  }

  /** After the sweep at most two cache names remain. */
  lemma SweepLeavesAtMostTwo(cs: CacheStorage, kept: CacheStorage)
    requires kept.Keys == set n | n in cs && (n == STATIC_CACHE || n == DYNAMIC_CACHE)
    ensures |kept.Keys| <= 2
    ensures CACHE_NAME !in kept
  {
    assert kept.Keys <= {STATIC_CACHE, DYNAMIC_CACHE};
    assert |{STATIC_CACHE, DYNAMIC_CACHE}| == 2;
    SubsetCard(kept.Keys, {STATIC_CACHE, DYNAMIC_CACHE});
  }

  lemma SubsetCard<T>(a: set<T>, b: set<T>)
    requires a <= b
    ensures |a| <= |b|
  {
    assert b == a + (b - a);
  }

  // ---------------------------------------------------------------------
  // Background sync of offline orders

  /** An order as stored offline; its body is sent as JSON, opaque here. */
  datatype Order = Order(id: string, payload: string)

  /** `response.ok`: a status in 200..299. */
  predicate IsOk(o: Outcome) {
    o.Ok? && 200 <= o.status <= 299
  }

  /** The ids handed to `removeOfflineOrder`, in order: those of the orders
      whose POST answered with an ok status. */
  function OkIds(orders: seq<Order>, outcomes: seq<Outcome>): (ids: seq<string>)
    requires |outcomes| == |orders|
    ensures |ids| <= |orders|
  {
    if orders == [] then []
    else
      var n := |orders| - 1;
      OkIds(orders[..n], outcomes[..n]) + (if IsOk(outcomes[n]) then [orders[n].id] else [])
  }

  /** syncOfflineOrders: each order is POSTed to `/api/orders` in list
      order, exactly once; an ok response leads to `removeOfflineOrder(id)`,
      and a thrown fetch is caught inside the loop, so later orders are
      still attempted. `outcomes[i]` is what the POST of `orders[i]` does;
      `posted` lists the bodies sent and `removed` the ids removed. */
  method SyncOfflineOrders(orders: seq<Order>, outcomes: seq<Outcome>)
    returns (posted: seq<Order>, removed: seq<string>)
    requires |outcomes| == |orders|
    ensures posted == orders
    ensures removed == OkIds(orders, outcomes)
  {
    posted := [];
    removed := [];
    var i := 0;
    while i < |orders|
      invariant 0 <= i <= |orders|
      invariant posted == orders[..i]
      invariant removed == OkIds(orders[..i], outcomes[..i])
      decreases |orders| - i
    {
      posted := posted + [orders[i]];
      match outcomes[i] {
        case Fail =>
        case Ok(status, _) =>
          if 200 <= status <= 299 {
            removed := removed + [orders[i].id];
          }
      }
      assert orders[..i + 1][..i] == orders[..i];
      assert outcomes[..i + 1][..i] == outcomes[..i];
      i := i + 1;
    }
    assert orders[..i] == orders;
    assert outcomes[..i] == outcomes;
  }

  /** An id is removed exactly when some order carrying it got an ok
      response; a failure for one order never blocks another's removal. */
  lemma {:induction false} OkIdsIff(orders: seq<Order>, outcomes: seq<Outcome>, id: string)
    requires |outcomes| == |orders|
    ensures id in OkIds(orders, outcomes) <==>
      exists i :: 0 <= i < |orders| && orders[i].id == id && IsOk(outcomes[i])
  {
    if orders != [] {
      var n := |orders| - 1;
      OkIdsIff(orders[..n], outcomes[..n], id);
      if exists i :: 0 <= i < n && orders[..n][i].id == id && IsOk(outcomes[..n][i]) {
        var i :| 0 <= i < n && orders[..n][i].id == id && IsOk(outcomes[..n][i]);
        assert orders[i].id == id && IsOk(outcomes[i]);
      }
      if exists i :: 0 <= i < |orders| && orders[i].id == id && IsOk(outcomes[i]) {
        var i :| 0 <= i < |orders| && orders[i].id == id && IsOk(outcomes[i]);
        if i < n {
          assert orders[..n][i].id == id && IsOk(outcomes[..n][i]);
        }
      }
    }
  }
}
