# StartList service worker: request routing and cache lifecycle

A Dafny model of `sw.js`, the StartList service worker. The worker sits
between the single-page application and the network:

- the **install** handler opens the versioned static store and pre-caches
  the five core assets with an all-or-nothing `addAll`;
- the **activate** handler deletes every store whose name is neither
  `startlist-static-<VERSION>` nor `startlist-dynamic-<VERSION>`;
- the **fetch** handler classifies each request and runs one of three
  strategies. Spreadsheet CSV feeds go network-first with a 5000 ms timeout
  and fall back to the cache or a synthesized `"No Data"` CSV. Navigations go
  network-first and fall back to the cached page or the cached
  `./index.html`. Everything else is cache-first, refilled from the network,
  with an empty 503 `Offline` answer as the last resort.

Modules, one per component:

| file | module | what it holds |
|---|---|---|
| fetch.dfy | `Fetch` | requests, responses, network outcomes, the two synthesized responses, the timeout race |
| router.dfy | `Router` | the feed URL test (the regex's meaning as a ghost predicate, an executable matcher proved equal to it) and `Classify` |
| cache_api.dfy | `CacheApi` | the Cache Storage registry as a value (`Registry`: store names in creation order plus their contents) and the class `CacheStorage` whose methods (`Open`, `Put`, `Match`, `Keys`, `Delete`, `AddAll`) change it in place |
| config.dfy | `Config` | `VERSION`, the two store names, `CORE_ASSETS`, resolution of `./` paths against the worker's directory |
| strategies.dfy | `Strategies` | the three strategies and the dispatch as functions on a `Registry`, and the lemmas about them |
| lifecycle.dfy | `Lifecycle` | install and activate as functions on a `Registry`, and the lemmas about them |
| worker.dfy | `ServiceWorker` | the class `Worker` whose handler methods run on a shared `CacheStorage`, each proved equal to its specification function |

How the asynchronous code becomes sequential:

- The network is an input. `fetched: NetOutcome` is what `fetch` would settle
  with (`Ok(response)` or `Fail`).
- For the feed strategy, `timedOut: bool` says whether the 5000 ms timer of
  `networkWithTimeout` wins the race. When it does, the race rejects.
- `cache.put` is not awaited in the source. The model treats the write as
  done when the handler returns.
- `response.clone()` is the response itself, because responses are values.
- The cache key of a request is its URL. The relative paths `./` and
  `./index.html` become keys by `Config.Resolve(scope, path)`, where `scope`
  is the URL of the worker script's directory.
- Each strategy method also returns how many fetches it started. This makes
  the cache-first short-circuit (no fetch on a hit) observable.

Rules of the browser's Cache and Fetch interfaces that the model includes,
because they decide what the source's calls do:

- `caches.match(request)` searches all stores in creation order and returns
  the first hit.
- `cache.put` refuses a partial (206) response and writes nothing.
- `cache.addAll` rejects, writing nothing, unless every fetch resolves with an
  ok status (200-299) other than 206.
- `cache.addAll` also rejects a batch holding two requests for one key. The
  model's `AddAll` requires distinct keys, and the worker's five core keys
  are distinct (`Config.CoreKeysDistinct`).
- `caches.open` creates a missing store as an empty store, listed last.
- `new Response(string, init)` adds `content-type: text/plain;charset=UTF-8`
  when `init` names no content type. So the 503 `Offline` answer carries that
  type, and the `"No Data"` answer keeps `text/csv`.

Where the code and the design description differ, the model follows the code:

- On a feed failure, the code looks the request up in every store
  (`caches.match`), not only in the dynamic store.
- An offline navigation for which neither the page nor `./index.html` is
  cached resolves to `undefined`, which the browser turns into a network
  error. The design calls navigations never blank; the model's `None` shows
  this one case (`Strategies.TotalResponse`).
- Activation first awaits `caches.keys()`, then starts a `caches.delete` for
  every stale name at once, none waiting for another. The model deletes them
  one after the other.

## Model

| member | source | states |
|---|---|---|
| `Fetch.NewResponse` | sw.js:60-62 | the synthesized response has the given body, status and status text, and keeps every given header; it has a content type, the given one if any, else `text/plain;charset=UTF-8` |
| `Fetch.NetworkWithTimeout` | sw.js:36-42 | the race yields a response exactly when the timer does not win and the fetch succeeds, and then it is the fetched response |
| `Router.MatchesFeedCorrect` | sw.js:49 | the executable matcher is true exactly when the URL matches `docs\.google\.com\/spreadsheets\/.*tqx=out:csv`: the host/path literal, then later the CSV marker, with no line terminator between them |
| `Router.FeedUrlShape` | sw.js:49 | any URL that has the host/path literal followed, on the same line, by `tqx=out:csv` is a feed URL, whatever comes before, between or after |
| `Router.Classify` | sw.js:48-88 | first match wins: feed exactly when the URL matches the pattern, whatever the mode; navigation exactly when it does not match and the mode is `navigate`; generic otherwise |
| `CacheApi.Registry.Open` | sw.js:54 | opening creates a missing store empty and last in order, leaves an existing one untouched, and keeps the registry well formed |
| `CacheApi.Registry.Put` | sw.js:55 | a put overwrites the request's entry in the named store only, unless the response is partial (206), in which case nothing changes |
| `CacheApi.WithoutAppend` | sw.js:26-28 | deleting names from a concatenation deletes them from each part, so the surviving names keep their relative order |
| `CacheApi.Registry.Drop` | sw.js:28 | deleting a set of stores; specified by `CacheApi.DropSpec`, `CacheApi.DropTwice` and `CacheApi.DropNothing` |
| `CacheApi.DropSpec` | sw.js:28 | deleting stores removes exactly the named ones, keeps the others' contents, keeps the registry well formed, and leaves the surviving names as the old list with the deleted ones taken out, in the old order |
| `CacheApi.FirstMatch` | sw.js:58 | `caches.match` over the stores in creation order, as called at sw.js:58, 79 and 90; specified by `CacheApi.FirstMatchSpec` and `CacheApi.FirstMatchAgreed` |
| `CacheApi.FirstMatchSpec` | sw.js:58 | `caches.match` finds an entry exactly when some store holds the key, and that entry is the one in the earliest such store |
| `CacheApi.FirstMatchAgreed` | sw.js:80 | when every store holding a key holds the same response, `caches.match` returns that response |
| `CacheApi.Registry.AddAll` | sw.js:17 | the all-or-nothing batch write; specified by `CacheApi.AddAllSpec` (with `CacheApi.BatchAt`) |
| `CacheApi.BatchAt` | sw.js:17 | the batch `addAll` writes maps each of its distinct keys to the response fetched for it |
| `CacheApi.AddAllSpec` | sw.js:17 | `addAll` (its keys distinct, as the platform demands) succeeds exactly when every fetch gives a storable response; then each key maps to its own response in the named store, whose other entries are kept unchanged; on failure nothing changes; other stores never change |
| `CacheApi.CacheStorage.Open` | sw.js:54 | the method does what `Registry.Open` states, in place |
| `CacheApi.CacheStorage.Put` | sw.js:55 | the method does what `Registry.Put` states, in place |
| `CacheApi.CacheStorage.Match` | sw.js:90 | the loop over the stores in creation order returns `FirstMatch` of the current registry |
| `CacheApi.CacheStorage.Keys` | sw.js:24 | `caches.keys()` lists the store names in creation order |
| `CacheApi.CacheStorage.Delete` | sw.js:28 | `caches.delete(name)` reports whether the store existed and removes it and only it |
| `CacheApi.CacheStorage.AddAll` | sw.js:17 | for distinct keys, the loop collects the whole batch first; every store is unchanged unless every fetch gave a storable response, and then the batch is merged into the named store |
| `Config.StoreNamesDiffer` | sw.js:3-4 | the static and dynamic names differ whatever the versions, and each ends with its version |
| `Config.StoreNamesInjective` | sw.js:2-4 | names of different versions differ, so another version's names are never in this version's allow-set |
| `Config.CurrentStoreNames` | sw.js:2-4 | the shipped version's store names are `startlist-static-v1.0.0` and `startlist-dynamic-v1.0.0`, they differ, and they are the two names activation keeps |
| `Config.CoreKeysDistinct` | sw.js:7-13 | the five core assets resolve to five different cache keys, so the install batch is one `addAll` accepts |
| `Strategies.NetworkFirstFeed` | sw.js:51-64 | network first with timeout for feeds; specified by `Strategies.FeedFresh`, `Strategies.FeedOffline` and `Strategies.StaleFeedOnTimeout` |
| `Strategies.NavigateWithFallback` | sw.js:72-82 | network first for navigations with the page and root-document fallback; specified by `Strategies.NavigateFresh`, `Strategies.NavigateOffline` and `Strategies.NavigateNeverBlank` |
| `Strategies.CacheFirst` | sw.js:89-100 | cache first with network refill and the 503 answer; specified by `Strategies.CacheFirstHit`, `Strategies.CacheFirstRefill` and `Strategies.CacheFirstOffline` |
| `Strategies.Dispatch` | sw.js:44-102 | classification followed by the chosen strategy; specified by `Strategies.TotalResponse` and `Strategies.WritesGoToTheirStore` |
| `Strategies.FeedFresh` | sw.js:53-56 | feed with a timely network answer: that response is returned, the dynamic store then maps the request to it (unless it is partial), and no other store changes |
| `Strategies.FeedOffline` | sw.js:57-62 | feed after a failure or timeout: a response always comes back; it is a stored entry for the request when any store has one, otherwise the `"No Data"` answer; the registry is unchanged |
| `Strategies.NoDataExact` | sw.js:60-62 | the feed fallback body is exactly `"No Data"` in quotes plus a newline, with `content-type: text/csv` and status 200 |
| `Strategies.NavigateFresh` | sw.js:73-77 | navigation with a network answer: it is returned and written to the static store under the request key; every other store, the dynamic one included, is unchanged |
| `Strategies.NavigateOffline` | sw.js:78-80 | navigation after a failure: the stored entry for the request when some store has one, otherwise the cached `./index.html` entry or nothing; the registry is unchanged; a response comes back exactly when the page or the root document is cached |
| `Strategies.NavigateNeverBlank` | sw.js:80 | an uncached navigation while offline returns the cached root document |
| `Strategies.CacheFirstHit` | sw.js:90-91 | generic request with a cache hit: a stored entry is returned, no fetch is started, nothing changes |
| `Strategies.CacheFirstRefill` | sw.js:92-96 | generic request after a miss with a network answer: one fetch, the answer is returned and written to the static store, no other store changes |
| `Strategies.CacheFirstOffline` | sw.js:97-98 | generic request after a miss and a failure: an empty-body 503 `Offline` answer, registry unchanged |
| `Strategies.TotalResponse` | sw.js:44-101 | the handler gives no response only for an offline navigation with neither the page nor the root document cached; every feed and generic request gets one |
| `Strategies.WritesGoToTheirStore` | sw.js:54-95 | a request touches at most one store, the dynamic one for a feed and the static one otherwise: every other store keeps its contents, no other store appears, and the name list is either unchanged or gains that store's name at the end |
| `Strategies.StaleFeedOnTimeout` | sw.js:36-59 | the design's timeout scenario on one concrete registry: when the timer wins, a stale copy in the dynamic store is served even though the network would answer later, and nothing is written (`Strategies.FeedOffline` states the general case) |
| `Lifecycle.Installed` | sw.js:15-18 | the install handler on a registry; specified by `Lifecycle.InstallAllOrNothing` and `Lifecycle.UpgradeRotation` |
| `Lifecycle.Activated` | sw.js:22-31 | the activate handler on a registry; specified by `Lifecycle.ActivateKeepsAllowed`, `Lifecycle.ActivateIdempotent`, `Lifecycle.ActivateRetiresOtherVersions` and `Lifecycle.StaleStep` |
| `Lifecycle.InstallAllOrNothing` | sw.js:15-18 | install succeeds exactly when every core asset fetch gives a storable response; then the static store holds each asset's response under its key and keeps every other entry it held (pages cached at run time under the same version); otherwise nothing is written but the static store exists; the name list is that after opening the static store; other stores are untouched |
| `Lifecycle.StaleStep` | sw.js:26-28 | deleting one more stale name composes with the earlier deletions; an allowed name changes nothing |
| `Lifecycle.ActivateKeepsAllowed` | sw.js:22-31 | after activation the store names are the old ones intersected with this version's two names, in the old order, and the surviving stores keep their entries |
| `Lifecycle.ActivateIdempotent` | sw.js:24-28 | running activation twice is the same as running it once |
| `Lifecycle.ActivateRetiresOtherVersions` | sw.js:2-28 | activation removes both stores of every other version and keeps this version's stores |
| `Lifecycle.UpgradeRotation` | sw.js:15-28 | install then activate of a new version: its static store exists, holds the shell if the install succeeded, and no store of the old version survives |
| `ServiceWorker.Worker.Install` | sw.js:15-20 | the handler opens the static store and runs `addAll`, with the outcome and new registry given by `Lifecycle.Installed` |
| `ServiceWorker.Worker.Activate` | sw.js:22-33 | the loop deletes the stale stores one by one, reaching the registry given by `Lifecycle.Activated` |
| `ServiceWorker.Worker.FetchFeed` | sw.js:48-67 | the response, fetch count and new registry are those of `Strategies.NetworkFirstFeed` on the raced outcome |
| `ServiceWorker.Worker.FetchNavigation` | sw.js:69-85 | the response, fetch count and new registry are those of `Strategies.NavigateWithFallback` |
| `ServiceWorker.Worker.FetchGeneric` | sw.js:87-101 | the response, fetch count and new registry are those of `Strategies.CacheFirst` |
| `ServiceWorker.Worker.OnFetch` | sw.js:44-102 | the handler's response, fetch count and new registry are those of `Strategies.Dispatch` |

## Left out

- Real time. The 5000 ms race is a boolean input. The losing fetch is never
  cancelled, and the model does not represent it.
- `self.skipWaiting()` and `self.clients.claim()`. They hand over control and
  change no data.
- `event.respondWith`, `event.waitUntil` and the promise plumbing. So are the
  interleaving of concurrent fetch handlers and the parallel deletions of
  `Promise.all`: the handlers run one at a time and deletions run in sequence.
- The ordering of the unawaited `cache.put` against the returned response.
  The write is complete when the handler returns.
- Response body streams and `clone()`. Responses are immutable values.
- The fetch option `{ cache: 'no-store' }`. It concerns the browser's HTTP
  cache.
- The unused `new URL(request.url)`.
- The request method, `Vary` headers and the other matching rules of
  `caches.match`. Requests are matched by URL alone, so `put` rejecting a
  non-GET request is not represented.
- General URL resolution. `Config.Resolve` handles only `./` paths against a
  directory URL, which covers every relative path the worker uses.
- CacheApi.Registry.AddAll: requires distinct keys instead of modelling the
  platform's rejection of a repeated key, because the worker's only batch
  has distinct keys (`Config.CoreKeysDistinct`).
- CacheApi.CacheStorage.AddAll: requires distinct keys, for the same reason.
- Failure of `caches.open`, `caches.delete` or quota exhaustion. Storage
  operations always succeed in the model.
