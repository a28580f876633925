/**
 * The origin's CacheStorage: a collection of named caches, each mapping a
 * request URL to a stored response. Cache names are kept in creation order,
 * because `caches.match` consults the caches in that order and answers with
 * the first cache that holds the request.
 */
module CacheStore {
  import opened Web

  type CacheName = string
  type Cache = map<Url, Response>

  predicate Distinct<T(==)>(s: seq<T>) {
    forall i, j :: 0 <= i < j < |s| ==> s[i] != s[j]
  }

  /** A snapshot of the storage: the cache names in creation order, and each cache's entries. */
  datatype Storage = Storage(names: seq<CacheName>, caches: map<CacheName, Cache>)

  /** Every name is listed once, and the listed names are exactly the caches that exist. */
  ghost predicate WellFormed(st: Storage) {
    Distinct(st.names) && forall n :: n in st.names <==> n in st.caches
  }

  ghost predicate Holds(st: Storage, name: CacheName, url: Url) {
    name in st.caches && url in st.caches[name]
  }

  /** Some cache listed in `st` holds an entry for `url`. */
  ghost predicate AnyHolds(st: Storage, url: Url) {
    exists i :: 0 <= i < |st.names| && Holds(st, st.names[i], url)
  }

  /** The `i`-th cache is the earliest-created cache holding `url`. */
  ghost predicate FirstHolder(st: Storage, url: Url, i: int) {
    && 0 <= i < |st.names|
    && Holds(st, st.names[i], url)
    && forall j :: 0 <= j < i ==> !Holds(st, st.names[j], url)
  }

  /** The contents of cache `name`, or an empty cache if there is none by that name. */
  function ContentsOf(st: Storage, name: CacheName): Cache {
    if name in st.caches then st.caches[name] else map[]
  }

  /** Every cached response has an ok status. */
  ghost predicate OnlyOkCached(st: Storage) {
    forall n, u :: n in st.caches && u in st.caches[n] ==> OkStatus(st.caches[n][u].Status())
  }

  /** Searches the caches from the `k`-th name on, in creation order. */
  function MatchFrom(st: Storage, url: Url, k: nat): (r: Option<Response>)
    requires k <= |st.names|
    ensures r.None? <==> forall i :: k <= i < |st.names| ==> !Holds(st, st.names[i], url)
    ensures r.Some? ==>
      exists i :: k <= i < |st.names| && Holds(st, st.names[i], url) && r.value == st.caches[st.names[i]][url]
        && forall j :: k <= j < i ==> !Holds(st, st.names[j], url)
    decreases |st.names| - k
  {
    if k == |st.names| then None
    else if st.names[k] in st.caches && url in st.caches[st.names[k]] then Some(st.caches[st.names[k]][url])
    else MatchFrom(st, url, k + 1)
  }

  /** `caches.match(url)`: the entry of the earliest-created cache that holds `url`, if any. */
  function Match(st: Storage, url: Url): (r: Option<Response>)
    ensures r.Some? <==> AnyHolds(st, url)
    ensures r.Some? ==> exists i :: FirstHolder(st, url, i) && r.value == st.caches[st.names[i]][url]
  {
    MatchFrom(st, url, 0)
  }

  /** `caches.open(name)`: the cache by that name, created empty (and listed last) if absent. */
  function Opened(st: Storage, name: CacheName): (r: Storage)
    ensures name in r.caches && r.caches[name] == ContentsOf(st, name)
    ensures r.caches.Keys == st.caches.Keys + {name}
    ensures forall n :: n in st.caches ==> r.caches[n] == st.caches[n]
    ensures name in st.caches ==> r.names == st.names
    ensures name !in st.caches ==> r.names == st.names + [name]
    ensures WellFormed(st) ==> WellFormed(r)
  {
    if name in st.caches then st
    else Storage(st.names + [name], st.caches[name := map[]])
  }

  /** The names of `ns` that are not in `gone`, in their original order. */
  function Without(ns: seq<CacheName>, gone: set<CacheName>): seq<CacheName> {
    if ns == [] then []
    else if ns[0] in gone then Without(ns[1..], gone)
    else [ns[0]] + Without(ns[1..], gone)
  }

  /** Filtering keeps exactly the names not in `gone`, and keeps a list free of repeats. */
  lemma {:induction false} WithoutMembers(ns: seq<CacheName>, gone: set<CacheName>)
    ensures forall n :: n in Without(ns, gone) <==> n in ns && n !in gone
    ensures Distinct(ns) ==> Distinct(Without(ns, gone))
  {
    if ns != [] {
      WithoutMembers(ns[1..], gone);
    }
  }

  /** The storage after every cache whose name is in `gone` has been deleted. */
  function Evict(st: Storage, gone: set<CacheName>): (r: Storage)
    ensures r.caches.Keys == st.caches.Keys - gone
  {
    Storage(Without(st.names, gone), st.caches - gone)
  }

  lemma EvictWellFormed(st: Storage, gone: set<CacheName>)
    requires WellFormed(st)
    ensures WellFormed(Evict(st, gone))
  {
    WithoutMembers(st.names, gone);
  }

  /** Deleting no cache leaves the list of names as it was. */
  lemma {:induction false} WithoutNone(ns: seq<CacheName>, gone: set<CacheName>)
    requires forall n :: n in ns ==> n !in gone
    ensures Without(ns, gone) == ns
  {
    if ns != [] {
      WithoutNone(ns[1..], gone);
    }
  }

  /** Deleting in two rounds leaves the same storage as deleting everything at once. */
  lemma EvictTwice(st: Storage, first: set<CacheName>, second: set<CacheName>)
    ensures Evict(Evict(st, first), second) == Evict(st, first + second)
  {
    WithoutTwice(st.names, first, second);
  }

  lemma {:induction false} WithoutTwice(ns: seq<CacheName>, first: set<CacheName>, second: set<CacheName>)
    ensures Without(Without(ns, first), second) == Without(ns, first + second)
  {
    if ns != [] {
      WithoutTwice(ns[1..], first, second);
    }
  }

  /** `cache.put(url, response)` on the cache `name`: adds the entry, replacing any for the same URL. */
  function PutEntry(st: Storage, name: CacheName, url: Url, response: Response): (r: Storage)
    requires name in st.caches
    ensures r.names == st.names && r.caches.Keys == st.caches.Keys
    ensures r.caches[name].Keys == st.caches[name].Keys + {url} && r.caches[name][url] == response
    ensures forall u :: u in st.caches[name] && u != url ==> r.caches[name][u] == st.caches[name][u]
    ensures forall n :: n in st.caches && n != name ==> r.caches[n] == st.caches[n]
    ensures WellFormed(st) ==> WellFormed(r)
  {
    Storage(st.names, st.caches[name := st.caches[name][url := response]])
  }

  /** The batch write that ends a successful `addAll`: every fetched entry lands in cache `name`. */
  function StoreAll(st: Storage, name: CacheName, fetched: Cache): (r: Storage)
    requires name in st.caches
    ensures r.names == st.names && r.caches.Keys == st.caches.Keys
    ensures r.caches[name].Keys == st.caches[name].Keys + fetched.Keys
    ensures forall u :: u in fetched ==> r.caches[name][u] == fetched[u]
    ensures forall u :: u in st.caches[name] && u !in fetched ==> r.caches[name][u] == st.caches[name][u]
    ensures forall n :: n in st.caches && n != name ==> r.caches[n] == st.caches[n]
    ensures WellFormed(st) ==> WellFormed(r)
  {
    Storage(st.names, st.caches[name := st.caches[name] + fetched])
  }

  /**
   * The fetch phase of `Cache.addAll(urls)`: every URL is fetched; if any
   * fetch is not storable, or two requests are for the same URL (the batch
   * operation's InvalidStateError), the whole call rejects and yields None.
   */
  function FetchAll(urls: seq<Url>, net: Url -> NetOutcome): (r: Option<Cache>)
    ensures r.Some? <==> Distinct(urls) && forall i :: 0 <= i < |urls| ==> Storable(net(urls[i]))
    ensures r.Some? ==> forall u :: u in r.value <==> u in urls
    ensures r.Some? ==> forall u :: u in r.value ==> r.value[u] == net(u).response
  {
    if urls == [] then Some(map[])
    else
      var rest := FetchAll(urls[1..], net);
      if !Storable(net(urls[0])) || rest.None? || urls[0] in rest.value then
        None
      else
        Some(rest.value[urls[0] := net(urls[0]).response])
  }

  /** A successful fetch phase yields exactly one entry per URL: its fetched response. */
  lemma FetchAllEntries(urls: seq<Url>, net: Url -> NetOutcome)
    requires FetchAll(urls, net).Some?
    ensures FetchAll(urls, net).value == map u | u in urls :: net(u).response
  {
  }

  /**
   * The origin's cache storage, updated in place by `caches.open`,
   * `caches.delete`, `cache.put` and `cache.addAll`.
   */
  class CacheStorage {
    var names: seq<CacheName>
    var caches: map<CacheName, Cache>

    function Value(): Storage
      reads this
    {
      Storage(names, caches)
    }

    ghost predicate Valid()
      reads this
    {
      WellFormed(Value())
    }

    constructor ()
      ensures Valid() && names == [] && caches == map[]
    {
      names := [];
      caches := map[];
    }

    method Open(name: CacheName)
      requires Valid()
      modifies this
      ensures Valid() && Value() == Opened(old(Value()), name)
    {
      if name !in caches {
        names := names + [name];
        caches := caches[name := map[]];
      }
    }

    /** `caches.delete(name)`: answers whether a cache by that name existed. */
    method Delete(name: CacheName) returns (existed: bool)
      requires Valid()
      modifies this
      ensures Valid()
      ensures existed == (name in old(caches))
      ensures Value() == Evict(old(Value()), {name})
    {
      existed := name in caches;
      EvictWellFormed(Value(), {name});
      names := Without(names, {name});
      caches := caches - {name};
    }

    method Put(name: CacheName, url: Url, response: Response)
      requires Valid() && name in caches
      modifies this
      ensures Valid() && Value() == PutEntry(old(Value()), name, url, response)
    {
      caches := caches[name := caches[name][url := response]];
    }

    /** `cache.addAll(urls)` on cache `name`: all entries are written, or none. */
    method AddAll(name: CacheName, urls: seq<Url>, net: Url -> NetOutcome) returns (ok: bool)
      requires Valid() && name in caches
      modifies this
      ensures Valid()
      ensures ok == FetchAll(urls, net).Some?
      ensures ok ==> Value() == StoreAll(old(Value()), name, FetchAll(urls, net).value)
      ensures !ok ==> Value() == old(Value())
    {
      var fetched := FetchAll(urls, net);
      ok := fetched.Some?;
      if ok {
        caches := caches[name := caches[name] + fetched.value];
      }
    }
  }
}
