/**
 * Properties that relate several handler runs: what install, activate and
 * fetch guarantee one after another, and the invariants all three keep.
 */
module WorkerProperties {
  import opened Web
  import opened CacheStore
  import opened ServiceWorker

  /** In a well-formed storage, "some listed cache holds `url`" is "some cache holds `url`". */
  lemma AnyHoldsIffSomeCache(st: Storage, url: Url)
    requires WellFormed(st)
    ensures AnyHolds(st, url) <==> exists n :: Holds(st, n, url)
  {
  }

  // ------------------------------------------------------------ invariants

  lemma FetchKeepsWellFormed(st: Storage, req: Request, net: NetOutcome)
    requires WellFormed(st)
    ensures WellFormed(FetchDecision(st, req, net).after)
  {
  }

  lemma InstallKeepsWellFormed(st: Storage, net: Url -> NetOutcome)
    requires WellFormed(st)
    ensures WellFormed(Installed(st, net).after)
  {
  }

  /** After activate only the current generation can be listed; the storage stays well formed. */
  lemma ActivatedNames(st: Storage)
    requires WellFormed(st)
    ensures WellFormed(Activated(st))
    ensures Activated(st).names == if CACHE in st.caches then [CACHE] else []
  {
    EvictWellFormed(st, Stale(st));
    WithoutMembers(st.names, Stale(st));
    KeepOnly(st.names, Stale(st), CACHE);
  }

  /** Filtering out every name but `keep` from a list without repeats leaves `[keep]` or nothing. */
  lemma {:induction false} KeepOnly(ns: seq<CacheName>, gone: set<CacheName>, keep: CacheName)
    requires Distinct(ns) && keep !in gone
    requires forall n :: n in ns && n != keep ==> n in gone
    ensures Without(ns, gone) == if keep in ns then [keep] else []
  {
    if ns != [] {
      assert Distinct(ns[1..]);
      KeepOnly(ns[1..], gone, keep);
      if ns[0] == keep {
        assert keep !in ns[1..];
      }
    }
  }

  /** Running activate a second time deletes nothing more. */
  lemma ActivateIdempotent(st: Storage)
    ensures Activated(Activated(st)) == Activated(st)
  {
    var once := Activated(st);
    assert Stale(once) == {};
    EvictTwice(st, Stale(st), {});
    assert Stale(st) + {} == Stale(st);
  }

  /** Only responses with an ok status are ever stored: fetch writes status 200 only. */
  lemma FetchKeepsOnlyOk(st: Storage, req: Request, net: NetOutcome)
    requires OnlyOkCached(st)
    ensures OnlyOkCached(FetchDecision(st, req, net).after)
  {
  }

  /** Install stores only what `addAll` accepts, which has an ok status. */
  lemma InstallKeepsOnlyOk(st: Storage, net: Url -> NetOutcome)
    requires OnlyOkCached(st)
    ensures OnlyOkCached(Installed(st, net).after)
  {
  }

  lemma StoreAllKeepsOnlyOk(st: Storage, name: CacheName, fetched: Cache)
    requires OnlyOkCached(st) && name in st.caches
    requires forall u :: u in fetched ==> OkStatus(fetched[u].Status())
    ensures OnlyOkCached(StoreAll(st, name, fetched))
  {
  }

  lemma ActivateKeepsOnlyOk(st: Storage)
    requires OnlyOkCached(st)
    ensures OnlyOkCached(Activated(st))
  {
  }

  // ----------------------------------------------------- handler sequences

  /**
   * Write-through makes the next identical request a cache hit: after a
   * miss answered with status 200, the same GET is served from the cache
   * with the same response and without consulting the network.
   */
  lemma RepeatAfterWriteThroughIsHit(st: Storage, req: Request, net: NetOutcome, later: NetOutcome)
    requires WellFormed(st) && req.verb == "GET" && !AnyHolds(st, req.url)
    requires net.Ok? && net.response.Status() == 200
    ensures
      var first := FetchDecision(st, req, net);
      FetchDecision(first.after, req, later) == FetchStep(Responded(net.response, false), first.after)
  {
  }

  /** After a successful install every asset is served from the cache, with no network call. */
  lemma InstalledAssetIsHit(st: Storage, net: Url -> NetOutcome, url: Url, later: NetOutcome)
    requires WellFormed(st) && Installed(st, net).ok && url in ASSETS
    ensures
      var after := Installed(st, net).after;
      var s := FetchDecision(after, Request("GET", url), later);
      s.after == after && s.result.Responded? && !s.result.networkUsed
  {
    var after := Installed(st, net).after;
    InstallKeepsWellFormed(st, net);
    assert Holds(after, CACHE, url);
    AnyHoldsIffSomeCache(after, url);
  }

  /**
   * Once the index document is cached and only ok responses are, the worker
   * never answers a GET with a network error, whatever the network does:
   * either the request is cached, or the cached index is the fallback.
   */
  lemma NoErrorWhileIndexCached(st: Storage, req: Request, later: NetOutcome)
    requires WellFormed(st) && OnlyOkCached(st) && Holds(st, CACHE, INDEX) && req.verb == "GET"
    ensures
      var s := FetchDecision(st, req, later);
      s.result.Responded? && s.result.response != NetworkError
  {
  }

  /** After a successful install the worker never answers a GET with a network error. */
  lemma NoErrorAfterInstall(st: Storage, net: Url -> NetOutcome, req: Request, later: NetOutcome)
    requires WellFormed(st) && OnlyOkCached(st) && Installed(st, net).ok && req.verb == "GET"
    ensures
      var s := FetchDecision(Installed(st, net).after, req, later);
      s.result.Responded? && s.result.response != NetworkError
  {
    InstallKeepsWellFormed(st, net);
    InstallKeepsOnlyOk(st, net);
    AssetsDistinct();
    NoErrorWhileIndexCached(Installed(st, net).after, req, later);
  }

  /**
   * A new generation rolled out: after a successful install and then
   * activate, `CACHE` is the only cache left and it answers every asset
   * with what the install fetched.
   */
  lemma InstallThenActivate(st: Storage, net: Url -> NetOutcome)
    requires WellFormed(st) && Installed(st, net).ok
    ensures
      var live := Activated(Installed(st, net).after);
      && live.names == [CACHE]
      && forall u :: u in ASSETS ==> Match(live, u).Some? && Match(live, u).value == net(u).response
  {
    var installed := Installed(st, net).after;
    InstallKeepsWellFormed(st, net);
    ActivatedNames(installed);
    var live := Activated(installed);
    forall u | u in ASSETS
      ensures Match(live, u).Some? && Match(live, u).value == net(u).response
    {
      assert Holds(live, live.names[0], u);
    }
  }

  /**
   * Between install and activate an older generation still answers first:
   * `caches.match` consults the caches in creation order, so when a cache
   * created before `CACHE` holds the URL too, its response wins over the
   * one in `CACHE`, and the network is not asked.
   */
  lemma OlderGenerationAnswersFirst(st: Storage, url: Url, i: nat, j: nat, later: NetOutcome)
    requires WellFormed(st) && FirstHolder(st, url, i)
    requires i < j < |st.names| && st.names[j] == CACHE && Holds(st, CACHE, url)
    ensures
      FetchDecision(st, Request("GET", url), later) == FetchStep(Responded(st.caches[st.names[i]][url], false), st)
  {
  }
}
