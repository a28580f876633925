/**
 * The offline-cache policy of the service worker (sw.js): the generation
 * constant, the asset manifest, and the install, activate and fetch
 * handlers over the origin's cache storage.
 */
module ServiceWorker {
  import opened Web
  import opened CacheStore

  /** The cache generation this worker owns. */
  const CACHE: CacheName := "Media-PWA-v1"

  /** The assets an install stores for offline use. */
  const ASSETS: seq<Url> := [
    "./",
    "./index.html",
    "./styles.css",
    "./app.js",
    "./manifest.webmanifest",
    "./icons/icon-192.png",
    "./icons/icon-512.png",
    "./icons/maskable-192.png",
    "./icons/maskable-512.png",
    "./assets/ringtone.mp3"
  ]

  /** The document served when the network fails on a cache miss. */
  const INDEX: Url := "./index.html"

  lemma AssetsDistinct()
    ensures Distinct(ASSETS) && INDEX in ASSETS
  {
  }

  // ---------------------------------------------------------------- install

  datatype InstallStep = InstallStep(ok: bool, after: Storage)

  /**
   * The install handler: open the `CACHE` cache (creating it if absent),
   * then `addAll(ASSETS)`, which writes every asset or none of them.
   */
  function Installed(st: Storage, net: Url -> NetOutcome): (s: InstallStep)
    ensures s.ok <==> forall i :: 0 <= i < |ASSETS| ==> Storable(net(ASSETS[i]))
    ensures CACHE in s.after.caches
    ensures s.ok ==> forall u :: u in ASSETS ==> u in s.after.caches[CACHE] && s.after.caches[CACHE][u] == net(u).response
    ensures forall u :: u in s.after.caches[CACHE] && u !in ASSETS ==>
      u in ContentsOf(st, CACHE) && s.after.caches[CACHE][u] == ContentsOf(st, CACHE)[u]
    ensures s.ok ==> s.after.caches[CACHE] == ContentsOf(st, CACHE) + map u | u in ASSETS :: net(u).response
    ensures !s.ok ==> s.after.caches[CACHE] == ContentsOf(st, CACHE)
    ensures s.after.names == if CACHE in st.caches then st.names else st.names + [CACHE]
    ensures s.after.caches.Keys == st.caches.Keys + {CACHE}
    ensures forall n :: n in st.caches && n != CACHE ==> s.after.caches[n] == st.caches[n]
  {
    AssetsDistinct();
    var current := Opened(st, CACHE);
    match FetchAll(ASSETS, net)
    case None => InstallStep(false, current)
    case Some(fetched) =>
      FetchAllEntries(ASSETS, net);
      InstallStep(true, StoreAll(current, CACHE, fetched))
  }

  method HandleInstall(s: CacheStorage, net: Url -> NetOutcome) returns (ok: bool)
    requires s.Valid()
    modifies s
    ensures s.Valid()
    ensures InstallStep(ok, s.Value()) == Installed(old(s.Value()), net)
  {
    s.Open(CACHE);
    ok := s.AddAll(CACHE, ASSETS, net);
  }

  // --------------------------------------------------------------- activate

  /** The caches the activate handler deletes: every one but `CACHE`. */
  function Stale(st: Storage): set<CacheName> {
    st.caches.Keys - {CACHE}
  }

  /** The activate handler: delete every cache whose name is not `CACHE`. */
  function Activated(st: Storage): (r: Storage)
    ensures r.caches.Keys <= {CACHE}
    ensures CACHE in r.caches <==> CACHE in st.caches
    ensures CACHE in st.caches ==> r.caches[CACHE] == st.caches[CACHE]
  {
    Evict(st, Stale(st))
  }

  method HandleActivate(s: CacheStorage)
    requires s.Valid()
    modifies s
    ensures s.Valid()
    ensures s.Value() == Activated(old(s.Value()))
  {
    var keys := s.names;  // caches.keys()
    ghost var start := s.Value();
    ghost var gone: set<CacheName> := {};
    WithoutNone(keys, gone);
    var i := 0;
    while i < |keys|
      invariant 0 <= i <= |keys|
      invariant gone <= Stale(start)
      invariant s.Valid()
      invariant forall j :: 0 <= j < i && keys[j] != CACHE ==> keys[j] in gone
      invariant s.Value() == Evict(start, gone)
    {
      if keys[i] != CACHE {
        var _ := s.Delete(keys[i]);
        EvictTwice(start, gone, {keys[i]});
        gone := gone + {keys[i]};
      }
      i := i + 1;
    }
    AllStaleVisited(start, gone);
  }

  /** Having visited every listed name, the activate loop has deleted exactly the stale caches. */
  lemma AllStaleVisited(st: Storage, gone: set<CacheName>)
    requires WellFormed(st) && gone <= Stale(st)
    requires forall j :: 0 <= j < |st.names| && st.names[j] != CACHE ==> st.names[j] in gone
    ensures gone == Stale(st)
  {
  }

  // ------------------------------------------------------------------ fetch

  datatype FetchResult =
      /** The worker does not call `respondWith`: the browser handles the request itself. */
    | Passthrough
    | Responded(response: Response, networkUsed: bool)

  datatype FetchStep = FetchStep(result: FetchResult, after: Storage)

  /**
   * The fetch handler. Non-GET requests pass through. A GET is answered from
   * the first cache holding it; on a miss the network is asked, and a
   * status-200 answer is written into `CACHE` before it is returned; when the
   * network fails, the cached index document is served, or a network error.
   */
  function FetchDecision(st: Storage, req: Request, net: NetOutcome): (s: FetchStep)
    ensures req.verb != "GET" ==> s.result == Passthrough && s.after == st
    ensures req.verb == "GET" ==> s.result.Responded? && (s.result.networkUsed <==> !AnyHolds(st, req.url))
    // cache-first
    ensures req.verb == "GET" && AnyHolds(st, req.url) ==>
      s.after == st && exists i :: FirstHolder(st, req.url, i) && s.result.response == st.caches[st.names[i]][req.url]
    // write-through on a status-200 miss
    ensures req.verb == "GET" && !AnyHolds(st, req.url) && net.Ok? ==> s.result.response == net.response
    ensures req.verb == "GET" && !AnyHolds(st, req.url) && net.Ok? && net.response.Status() == 200 ==>
      && s.after.names == (if CACHE in st.caches then st.names else st.names + [CACHE])
      && s.after.caches.Keys == st.caches.Keys + {CACHE}
      && s.after.caches[CACHE] == ContentsOf(st, CACHE)[req.url := net.response]
      && (forall n :: n in st.caches && n != CACHE ==> s.after.caches[n] == st.caches[n])
    ensures req.verb == "GET" && !AnyHolds(st, req.url) && net.Ok? && net.response.Status() != 200 ==> s.after == st
    // offline fallback
    ensures req.verb == "GET" && !AnyHolds(st, req.url) && net.Fail? ==>
      && s.after == st
      && (AnyHolds(st, INDEX) ==> exists i :: FirstHolder(st, INDEX, i) && s.result.response == st.caches[st.names[i]][INDEX])
      && (!AnyHolds(st, INDEX) ==> s.result.response == NetworkError)
  {
    if req.verb != "GET" then FetchStep(Passthrough, st)
    else
      var cached := Match(st, req.url);
      if cached.Some? then FetchStep(Responded(cached.value, false), st)
      else
        match net
        case Ok(answer) =>
          var after := if answer.Status() == 200 then PutEntry(Opened(st, CACHE), CACHE, req.url, answer) else st;
          FetchStep(Responded(answer, true), after)
        case Fail =>
          var fallback := Match(st, INDEX);
          FetchStep(Responded(cached.Or(fallback).GetOr(NetworkError), true), st)
  }

  method HandleFetch(s: CacheStorage, req: Request, net: NetOutcome) returns (result: FetchResult)
    requires s.Valid()
    modifies s
    ensures s.Valid()
    ensures FetchStep(result, s.Value()) == FetchDecision(old(s.Value()), req, net)
  {
    if req.verb != "GET" {
      return Passthrough;
    }
    var cached := Match(s.Value(), req.url);
    if cached.Some? {
      return Responded(cached.value, false);
    }
    match net {
      case Ok(answer) =>
        if answer.Status() == 200 {
          s.Open(CACHE);
          s.Put(CACHE, req.url, answer);
        }
        result := Responded(answer, true);
      case Fail =>
        var fallback := Match(s.Value(), INDEX);
        result := Responded(cached.Or(fallback).GetOr(NetworkError), true);
    }
  }
}
