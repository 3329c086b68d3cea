# Service-worker request router and cache policy, in Dafny

This project models the service worker of the "Claude 4" explainer site
(`sw.js`). The worker intercepts the page's HTTP requests. For each one it
decides whether to answer from the browser's cache storage or from the
network, and it keeps two named cache partitions, a static one and a dynamic
one. The model covers five parts of it:

- **the classifier**: `isStaticAsset`, `isNetworkFirst`, `isCDNResource` and
  the ordered decision chain of `handleRequest`;
- **the strategies**: `cacheFirst`, `networkFirst`, `fetchAndCache` and
  `updateCache`, over a storage of named partitions;
- **the 503 catch-all** of `handleRequest`;
- **eviction**: the activate handler and `cleanUpCaches`;
- **the interception filter** of the fetch listener.

Modules, one file each:

- `Text` (text.dfy): JavaScript's `endsWith`, `includes` and `some` over strings.
- `Config` (config.dfy): the fixed lists and partition names.
- `Routing` (routing.dfy): the URL predicates, the decision chain and the interception filter.
- `CacheModel` (cache_model.dfy): the cache storage as a value. Partition names
  are kept in creation order, because `caches.match` searches the partitions in
  that order. The module also holds the eviction functions.
- `Caches` (caches.dfy): the `caches` global as a class whose fields change in place.
- `Strategies` (strategies.dfy): each strategy as a function from the storage
  before a request to the outcome and the storage after it.
- `ServiceWorker` (service_worker.dfy): the same operations as methods on the
  `caches` object. Each is proved equal to its `Strategies` or `CacheModel`
  function. It also holds the eviction loops.

The network is an argument, not a call. `FetchResult` says what
`fetch(request)` yields for this request: a response (ok or not) or a thrown
network error. The worker's own origin (`location.origin`) is an argument too.

## What the proofs show about the code as written

- The first pre-declared static asset is the site root `/claude-introduce/`
  (sw.js:11). The static test matches it against the full URL text
  (sw.js:196). So every URL of the site is a static asset and is served
  cache-first. This holds for HTML navigations too.
- The network-first branch (sw.js:92-94) can never be taken for a well-formed
  URL. A URL's text contains its path, and both network-first paths lie under
  the site root (sw.js:22). As a result, a cached sitemap or robots file is
  answered from the cache even when the network has a fresh copy.
- The CDN allow-list is also matched by substring. A host such as
  `unpkg.com.example` is intercepted.
- When an HTML request fails offline and the site root is not cached either,
  the fallback `caches.match("/claude-introduce/")` (sw.js:148) resolves to
  `undefined`. `handleRequest` then answers with `undefined`, not with 503.
  `Strategies.UnansweredExactly` states exactly when this happens.
  `Strategies.SiteRequestAlwaysAnswered` shows it never happens for URLs
  under the site.
- The install handler catches a failed bulk populate and only logs it
  (sw.js:39-41). Install is not part of this model.

Cache entries are keyed by the request URL without its fragment, as the Cache
API compares URLs in both `put` and `match`.

## Model

| member | source | states |
|---|---|---|
| `Routing.IsStaticAsset` | sw.js:186-198 | Any URL whose text contains the site root is a static asset. A URL that is not one has none of the eight static extensions. |
| `Routing.IsNetworkFirst` | sw.js:201-203 | Each listed path passes the test, and any path that passes it contains the site root. |
| `Routing.NetworkFirstUnderRoot` | sw.js:21-22 | A path containing either network-first path contains the site root, because both lie under it. |
| `Routing.IsCdnResource` | sw.js:206-210 | Each allow-listed host passes the test. A host that fails it contains none of the four listed hosts. |
| `Routing.Intercepts` | sw.js:76 | Every same-origin request and every request to an allow-listed host is intercepted. A cross-origin request is intercepted exactly when its host passes the CDN test. |
| `Routing.Classify` | sw.js:86-107 | The first test that holds wins. A static asset is always classified static. Each later branch is taken only when its own test holds: network-first path, then `accept` containing `text/html`, then `image`. Default is taken when none holds. |
| `Routing.Route` | sw.js:86-107 | Exactly one strategy runs. It is cache-first exactly when the URL is a static asset, or when it is not network-first, `accept` lacks `text/html` and has `image`. |
| `Routing.StaticExtensionIsCacheFirst` | sw.js:186-198 | A path ending in .css, .js, .png, .jpg, .jpeg, .svg, .woff or .woff2 is a static asset and is routed cache-first for every `accept` header. |
| `Routing.SiteUrlIsCacheFirst` | sw.js:186-198 | A URL whose text contains `/claude-introduce/` (the first entry of the static list, sw.js:11) is a static asset and is routed cache-first for every `accept` header. |
| `Routing.NetworkFirstBranchUnreachable` | sw.js:86-94 | For a well-formed URL, the network-first branch is never chosen. A URL that passes the network-first test is classified static and routed cache-first. |
| `Routing.ListedNetworkFirstPathIsCacheFirst` | sw.js:21-22 | Each listed network-first path, on any origin, passes the network-first test and is still routed cache-first. |
| `Routing.LookalikeCdnHostIsIntercepted` | sw.js:205-210 | The allow-list matches by substring: a cross-origin host that only contains `unpkg.com` is intercepted. |
| `CacheModel.Open` | sw.js:169 | A missing partition is created empty and listed last. Every other partition is unchanged. Validity is kept. |
| `CacheModel.Put` | sw.js:169-172 | The entry is written into the one named partition and replaces any earlier entry for that key. Every other partition is unchanged. Validity is kept. |
| `CacheModel.Delete` | sw.js:58 | The partition is removed from the list and the map. Every other partition keeps its membership and contents. Validity is kept. |
| `CacheModel.MatchIn` | sw.js:116 | A match is found exactly when some listed partition holds the key. The answer comes from the first partition in list order that holds it. |
| `CacheModel.Match` | sw.js:116 | In a valid storage, the key is found exactly when some partition holds it, and the answer is that partition's entry. |
| `CacheModel.MatchAfterPut` | sw.js:167-172 | After a put, the key is found. When no other partition holds that key, the response found is the one just written. |
| `CacheModel.Stale` | sw.js:234 | The filtered list holds exactly the listed names other than the two current partition names. |
| `CacheModel.Evict` | sw.js:53-60 | No partition is created or altered. Both current partitions survive, and in a valid storage only current ones remain. |
| `CacheModel.EvictKeepsCurrent` | sw.js:53-60 | Eviction leaves exactly the pre-existing partitions named `claude-static-v1.0.0` or `claude-dynamic-v1.0.0`. They keep their order and contents, and neither is ever deleted. Validity is kept. |
| `CacheModel.EvictIdempotent` | sw.js:232-236 | Running the eviction a second time changes nothing. |
| `CacheModel.EvictionExample` | sw.js:46-62 | Start with the two current partitions and one of an older version. Afterwards exactly the two current ones remain, with their contents. |
| `Caches.CacheStorage.Keys` | sw.js:233 | Returns the partition names in creation order, and exactly the existing partitions. |
| `Caches.CacheStorage.Open` | sw.js:169 | The new state is the value-level `Open` of the old state. |
| `Caches.CacheStorage.Put` | sw.js:172 | The opened partition gets the entry. The names and every other partition are unchanged. |
| `Caches.CacheStorage.Delete` | sw.js:58 | The new state is the value-level `Delete` of the old state. The result says whether the partition existed. |
| `Caches.CacheStorage.Match` | sw.js:140 | Returns the first-partition match of the current state. It is found exactly when some partition holds the key. |
| `Strategies.PartitionFor` | sw.js:168 | A response goes to the static partition exactly when the URL is a static asset, and otherwise to the dynamic one. Both are current partitions. |
| `Strategies.WithoutFragment` | sw.js:116 | The cache key is the longest prefix of the URL without a `#`: everything up to the fragment. |
| `Strategies.FragmentIgnored` | sw.js:116 | Two requests whose URLs differ only in the fragment share one cache entry. |
| `Strategies.UpdateCache` | sw.js:167-183 | Opens the request's partition and touches no other. The partition list grows only by a newly created partition. A given response is written into the partition's earlier entries, replacing only that key. With no response given, the refetched response is written the same way only if ok. A failed or non-ok refetch leaves only the opened partition. |
| `Strategies.FetchAndCache` | sw.js:156-164 | It throws exactly when the fetch throws. Otherwise it returns the fetched response unchanged. The storage changes only for an ok response, which is stored by `updateCache` and then found by a later match. |
| `Strategies.CacheFirst` | sw.js:115-125 | A hit returns the cached response whatever the network does. The storage is then unchanged until the background refresh has completed, and afterwards is what `updateCache` with no response leaves. A miss behaves exactly as `fetchAndCache`. It never resolves to `undefined`. |
| `Strategies.NetworkFirst` | sw.js:128-153 | A fetched response is returned unchanged. An ok response is stored by `updateCache`, and any other outcome leaves the storage unchanged. When the fetch throws, a cached entry answers. Failing that, an HTML request gets the cached site root. It throws exactly for uncached non-HTML requests, and resolves to `undefined` exactly for uncached HTML requests whose site root is not cached either. |
| `Strategies.ReplyOf` | sw.js:108-111 | A thrown strategy is answered with the 503 response and a resolved one with its response. Only `undefined` leaves the event unanswered. |
| `Strategies.HandleRequest` | sw.js:82-112 | Runs exactly the strategy `Route` picks, with its storage effect, and maps its outcome through the 503 catch-all. |
| `Strategies.WarmCacheFirstIgnoresNetwork` | sw.js:115-125 | After a cache-first request got an ok response, the next identical request is answered from the cache whatever the network then does. |
| `Strategies.OfflineAfterOnline` | sw.js:128-153 | After a network-first request got an ok response, a later network failure for it is answered from the cache. When no other partition holds the URL, the answer is that same response. |
| `Strategies.NonOkResponseNotCached` | sw.js:130-137 | A non-ok response is returned as it is and leaves the storage unchanged, in network-first and in a cache-first miss. |
| `Strategies.UnansweredExactly` | sw.js:146-149 | The event is left unanswered exactly when all of these hold: network-first ran, the fetch threw, the URL is not cached, the request asks for HTML, and the site root is not cached. |
| `Strategies.SiteRequestAlwaysAnswered` | sw.js:85-111 | Every request for a URL under the site gets a response. It is 503 whenever the URL is not cached and the fetch throws. |
| `Strategies.NetworkFirstPathServedFromCache` | sw.js:92-94 | A cached, well-formed sitemap or robots request is answered with the cached copy, whatever the network returns. |
| `ServiceWorker.UpdateCache` | sw.js:167-183 | Opens the partition, then puts the response. The new storage is `Strategies.UpdateCache` of the old. |
| `ServiceWorker.FetchAndCache` | sw.js:156-164 | Its outcome and new storage are those of `Strategies.FetchAndCache`. |
| `ServiceWorker.CacheFirst` | sw.js:115-125 | Its outcome and new storage are those of `Strategies.CacheFirst`. |
| `ServiceWorker.NetworkFirst` | sw.js:128-153 | Its outcome and new storage are those of `Strategies.NetworkFirst`. |
| `ServiceWorker.HandleRequest` | sw.js:82-112 | Runs the if-chain of the handler. Its reply and new storage are those of `Strategies.HandleRequest`. |
| `ServiceWorker.OnFetch` | sw.js:71-79 | Answers exactly the same-origin and allow-listed requests, as `handleRequest` does. Any other request gets no answer and leaves the storage unchanged. |
| `ServiceWorker.DeleteIfStale` | sw.js:54-59 | Deletes the named partition unless it is one of the two current ones. |
| `ServiceWorker.Activate` | sw.js:46-62 | After the loop over `caches.keys()`, the storage is the eviction of the old storage. |
| `ServiceWorker.CleanUpCaches` | sw.js:232-238 | After filtering the stale names and deleting each, the storage is the eviction of the old storage. |

## Left out

- Install handler (sw.js:25-43): `cache.addAll` is a platform bulk call with platform-defined atomicity. The code catches and only logs its failure.
- `skipWaiting` and `clients.claim` (sw.js:37, 65, 218): lifecycle plumbing with no state the model keeps.
- The message handler's `SKIP_WAITING` and `GET_VERSION` replies (sw.js:213-229): message-port I/O. Only the `CLEAN_UP` action is modelled, as `ServiceWorker.CleanUpCaches`. `GET_VERSION` answers `claude-introduce-v1.0.0`, which names no partition.
- Background sync, push notifications and notification clicks (sw.js:241-299): event dispatch to platform APIs with no routing or caching logic.
- URL parsing (sw.js:73, 83, 168): `href`, `origin`, `hostname` and `pathname` are given strings. The only property the proofs assume of them is that `href` contains `pathname`.
- Logging: every `console` call.
- ServiceWorker.CacheFirst: the background refresh (sw.js:120, 173-181) is detached. The model applies its write after the answer, and only when the `settled` argument says the refresh has completed. Interleaving with other requests is not modelled.
- ServiceWorker.Activate and ServiceWorker.CleanUpCaches: the deletes started together by `Promise.all` run one after another in the model. Deletes of distinct names do not interact.
- Request methods and `Vary`: cache entries are keyed by URL (without its fragment) alone. The platform's refusal to `put` a non-GET request is not modelled.
- Storage failures such as quota errors: a `put` never fails in the model.
- `response.clone()`: responses are values, so a clone is the response itself.
- assets/js/script.js: DOM event wiring, theme and menu toggles, toasts, sharing, observers and timers. This is UI glue over browser APIs, and it is not part of this model.
