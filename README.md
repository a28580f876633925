# Offline-cache policy of the Media PWA service worker

This project models the service worker of the Media PWA (`sw.js`) in Dafny and proves its behaviour. The worker keeps the app's static assets in a versioned cache. It has three event handlers:

- **install** opens the cache named by the generation constant `CACHE` (`'Media-PWA-v1'`). It then stores every URL of the fixed `ASSETS` manifest with `addAll`. `addAll` is all-or-nothing.
- **activate** lists every cache name and deletes each one that is not `CACHE`.
- **fetch** ignores requests whose method is not GET. For a GET, a hit in any cache is returned first. On a miss the network is asked. A status-200 answer is written into `CACHE` (write-through) and returned. If the network fails, the cached `./index.html` is returned, or `Response.error()` when there is none.

Structure:

- `web.dfy` (module `Web`): requests, responses and the network as an oracle (`Fail` or `Ok(response)`). It also holds the Fetch standard's "ok status" and the acceptance rule of `Cache.addAll`.
- `cache_store.dfy` (module `CacheStore`): a value `Storage` for the origin's CacheStorage. It holds the cache names in creation order and a map from name to a map from URL to response. The pure operations are `caches.match`, `caches.open`, `caches.delete`, `cache.put` and the fetch phase of `addAll`. The class `CacheStorage` holds the same state in fields. Its methods `Open`, `Delete`, `Put` and `AddAll` update that state in place.
- `service_worker.dfy` (module `ServiceWorker`): the constants and the three handlers. Each handler is a specification function on `Storage` (`Installed`, `Activated`, `FetchDecision`). Beside each is a method on a `CacheStorage` object (`HandleInstall`, `HandleActivate`, `HandleFetch`) that is proved to match it. `HandleActivate` keeps the source's loop over `caches.keys()`.
- `properties.dfy` (module `WorkerProperties`): properties that span several handler runs, and the invariants the handlers keep.

Details of the code that the model keeps as written:

- `caches.match` searches every cache, not only `CACHE`, in creation order. Between install and activate, an older generation can still answer a request, and it wins over the new one (`OlderGenerationAnswersFirst`).
- In `cached || fallback || Response.error()`, `cached` is always empty on that path. The expression therefore reduces to the cached index document or an error response. `FetchDecision` states the reduced form.
- Only a network answer with status exactly 200 is written through, not every ok status.
- A failed install still leaves the `CACHE` cache, empty if it is new, because `caches.open` runs before `addAll`. A failed install adds no entry: `CACHE` keeps exactly what it held (`Installed`). A successful one leaves every asset in `CACHE` (`InstallThenActivate`).

## Model

| member | source | states |
|---|---|---|
| CacheStore.MatchFrom | sw.js:38 | The search from the k-th cache on finds nothing exactly when no cache from k on holds the URL. Otherwise it returns the entry of the earliest such cache. |
| CacheStore.Match | sw.js:38 | `caches.match`: a response is found exactly when some cache holds the URL, and it is the entry of the earliest-created cache holding it. |
| CacheStore.Opened | sw.js:44 | `caches.open`: afterwards the cache exists with its previous contents, or empty and listed last if it is new. No other cache changes and the storage stays well formed. |
| CacheStore.PutEntry | sw.js:45 | `cache.put`: the cache maps the URL to the response. Every other entry and every other cache is unchanged. |
| CacheStore.StoreAll | sw.js:18 | The batch write of `addAll`: every fetched entry is in the cache. Entries for other URLs and other caches are unchanged. |
| CacheStore.FetchAll | sw.js:18 | The fetch phase of `addAll` succeeds exactly when the URLs are distinct and every fetch is storable (ok status, not 206). The result's keys are exactly the URLs and its values are the fetched responses. |
| CacheStore.FetchAllEntries | sw.js:18 | A successful fetch phase yields exactly one entry per URL, holding that URL's fetched response. |
| CacheStore.WithoutMembers | sw.js:26 | Deleting caches by name keeps exactly the names not deleted, and the list keeps no repeats. |
| CacheStore.Evict | sw.js:26 | `caches.delete` over a set of names: the remaining caches are exactly the old ones minus the deleted names. With `WithoutMembers`, `EvictWellFormed` and `EvictTwice`, the remaining names keep their order, the storage stays well formed, and deletions compose. |
| CacheStore.EvictWellFormed | sw.js:26 | Deleting any set of caches keeps the storage well formed. |
| CacheStore.WithoutNone | sw.js:24 | Deleting no cache leaves the list of names as it was. |
| CacheStore.EvictTwice | sw.js:26 | Deleting caches in two rounds leaves the same storage as deleting them all at once. |
| CacheStore.WithoutTwice | sw.js:26 | Removing names in two rounds equals removing their union. |
| CacheStore.CacheStorage.Open | sw.js:44 | The in-place `caches.open` leaves exactly the `Opened` storage and stays valid. |
| CacheStore.CacheStorage.Delete | sw.js:26 | The in-place `caches.delete` says whether the cache existed and removes exactly that cache and its name. |
| CacheStore.CacheStorage.Put | sw.js:45 | The in-place `cache.put` leaves exactly the `PutEntry` storage. |
| CacheStore.CacheStorage.AddAll | sw.js:18 | The in-place `addAll` succeeds exactly when the fetch phase does. It then writes every entry, and otherwise changes nothing. |
| ServiceWorker.AssetsDistinct | sw.js:2-13 | The manifest has no repeated URL and contains `./index.html`. |
| ServiceWorker.Installed | sw.js:15-20 | Install succeeds exactly when every asset fetch is storable. On success `CACHE` holds its previous entries overridden by every asset's fetched response. On failure `CACHE` holds what it held before (or nothing), so no asset is added. `CACHE` is listed last if it is new, the other names keep their order, and all other caches are unchanged. |
| ServiceWorker.HandleInstall | sw.js:15-20 | The install handler, run on the storage object, reports success and leaves exactly the storage `Installed` describes. |
| ServiceWorker.Activated | sw.js:22-30 | After activate the only cache that may remain is `CACHE`. It remains exactly when it existed, and its contents are unchanged. |
| ServiceWorker.HandleActivate | sw.js:24-27 | The loop over `caches.keys()` that deletes every name other than `CACHE` leaves exactly the `Activated` storage. |
| ServiceWorker.AllStaleVisited | sw.js:24-27 | Having visited every listed name, the loop has deleted exactly the caches other than `CACHE`. |
| ServiceWorker.FetchDecision | sw.js:32-53 | Non-GET: no response, no network use, storage unchanged. GET hit: the earliest holder's entry, no network use, storage unchanged. Miss with a network answer: that answer is returned. If its status is exactly 200 it is written into `CACHE` (created and listed last if absent) and nothing else changes; otherwise nothing changes. Miss with network failure: the earliest cached `./index.html`, else a network error, with storage unchanged. The network is used exactly on a miss. |
| ServiceWorker.HandleFetch | sw.js:32-53 | The fetch handler, run on the storage object, returns the `FetchDecision` result and leaves its storage. |
| WorkerProperties.AnyHoldsIffSomeCache | sw.js:38 | In a well-formed storage, searching the listed caches is the same as searching every cache. |
| WorkerProperties.FetchKeepsWellFormed | sw.js:44-45 | The fetch handler keeps the storage well formed. |
| WorkerProperties.InstallKeepsWellFormed | sw.js:17-19 | The install handler keeps the storage well formed. |
| WorkerProperties.ActivatedNames | sw.js:24-27 | After activate the listed names are exactly `[CACHE]` if it existed and none otherwise. The storage stays well formed. |
| WorkerProperties.KeepOnly | sw.js:26 | Filtering out every name but one from a list without repeats leaves that name alone, or nothing. |
| WorkerProperties.ActivateIdempotent | sw.js:26 | Running activate twice leaves the same storage as running it once. |
| WorkerProperties.FetchKeepsOnlyOk | sw.js:43-45 | If every cached response has an ok status, this still holds after a fetch, because only status 200 is written. |
| WorkerProperties.InstallKeepsOnlyOk | sw.js:18 | If every cached response has an ok status, this still holds after install, because `addAll` stores only ok responses. |
| WorkerProperties.StoreAllKeepsOnlyOk | sw.js:18 | Writing a batch of ok responses keeps every cached response ok. |
| WorkerProperties.ActivateKeepsOnlyOk | sw.js:26 | Deleting caches keeps every cached response ok. |
| WorkerProperties.RepeatAfterWriteThroughIsHit | sw.js:38-47 | After a status-200 miss, the same GET is served from the cache with the same response. It does not consult the network, whatever the network would do. |
| WorkerProperties.InstalledAssetIsHit | sw.js:15-39 | After a successful install, a GET for any asset is a cache hit: no network use and no storage change. |
| WorkerProperties.NoErrorWhileIndexCached | sw.js:48-50 | While `CACHE` holds `./index.html` and only ok responses are cached, a GET is never answered with a network error. |
| WorkerProperties.NoErrorAfterInstall | sw.js:15-50 | If only ok responses were cached before, then after a successful install a GET is never answered with a network error, whatever the network does. |
| WorkerProperties.InstallThenActivate | sw.js:15-30 | A successful install followed by activate leaves `CACHE` as the only cache. `caches.match` then answers every asset with the response the install fetched. |
| WorkerProperties.OlderGenerationAnswersFirst | sw.js:38-39 | When a cache listed before `CACHE` is the earliest holder of a URL that `CACHE` also holds, a GET for it is answered with that older cache's response, without the network and without changing storage. |

## Left out

- `self.skipWaiting()` and `self.clients.claim()` (sw.js:16, sw.js:28) are left out. They control the browser lifecycle and which pages the worker controls, and they do not touch the cache data.
- Asynchrony is left out. Each handler runs to completion on its own, so races between concurrent fetch handlers are not modelled. The un-awaited `cache.put` (sw.js:45) is modelled as an immediate write.
- Storage failures are left out. If `caches.open` or `cache.put` rejected (for example on quota), the real worker could reach the fallback path or drop the write. The model assumes these calls succeed.
- Bodies, headers, `clone()` and URL resolution are left out. Requests are identified by their URL string, and responses are opaque values with a status. Because of this, `Vary` headers are not modelled, and neither is `addAll`'s rejection of `Vary: *`. `'./'` and `'./index.html'` are treated as two unrelated keys.
- `fresh && fresh.status === 200` (sw.js:43) is modelled as the status test alone. `fetch` always resolves with a response object, which is truthy. A `fetch` that ends in a network error rejects instead. This is why `Ok` carries only non-error responses.
- The network during install is a function from URL to outcome. Each asset is fetched once.
- All of `app.js` is left out: camera, photo capture, audio recording, vibration, ringtone, sharing, the install prompt and service-worker registration. These are DOM wiring and single platform calls.
- The persisted audio-record store and the "seconds per megabyte" duration estimate are not part of this model. Neither exists in the code: recordings live only in memory as Blob URLs.
