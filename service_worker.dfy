/** The service worker's handlers and strategies as methods over the shared
    cache storage. Each is proved to leave the storage, and to answer, as the
    matching function of the Strategies or CacheModel module says. */
module ServiceWorker {
  import opened Wrappers
  import opened Config
  import opened Routing
  import opened CacheModel
  import opened Strategies
  import opened Caches

  /** `updateCache(request, response)`; with no response given, `net` is
      what the background fetch yields. */
  method UpdateCache(caches: CacheStorage, req: Request, response: Option<Response>, net: FetchResult)
    requires caches.Valid()
    modifies caches
    ensures caches.Valid()
    ensures caches.State() == Strategies.UpdateCache(old(caches.State()), req, response, net)
  {
    var cacheName := if IsStaticAsset(req.url) then StaticCacheName else DynamicCacheName;
    caches.Open(cacheName);
    match response {
      case Some(r) =>
        caches.Put(cacheName, Key(req), r);
      case None =>
        match net {
          case Fetched(r) =>
            if IsOk(r) {
              caches.Put(cacheName, Key(req), r);
            }
          case NetworkError =>
        }
    }
  }

  /** `fetchAndCache(request)` */
  method FetchAndCache(caches: CacheStorage, req: Request, net: FetchResult) returns (outcome: Outcome)
    requires caches.Valid()
    modifies caches
    ensures caches.Valid()
    ensures Step(outcome, caches.State()) == Strategies.FetchAndCache(old(caches.State()), req, net)
  {
    match net {
      case NetworkError =>
        outcome := Thrown;
      case Fetched(response) =>
        if IsOk(response) {
          UpdateCache(caches, req, Some(response), net);
        }
        outcome := Resolved(response);
    }
  }

  /** `cacheFirst(request)`; `settled` says whether the background refresh a
      hit starts has completed. */
  method CacheFirst(caches: CacheStorage, req: Request, net: FetchResult, settled: bool) returns (outcome: Outcome)
    requires caches.Valid()
    modifies caches
    ensures caches.Valid()
    ensures Step(outcome, caches.State()) == Strategies.CacheFirst(old(caches.State()), req, net, settled)
  {
    var cached := caches.Match(Key(req));
    match cached {
      case Some(c) =>
        if settled {
          UpdateCache(caches, req, None, net);
        }
        outcome := Resolved(c);
      case None =>
        outcome := FetchAndCache(caches, req, net);
    }
  }

  /** `networkFirst(request)`; `workerOrigin` resolves the site root. */
  method NetworkFirst(caches: CacheStorage, req: Request, net: FetchResult, workerOrigin: string) returns (outcome: Outcome)
    requires caches.Valid()
    modifies caches
    ensures caches.Valid()
    ensures Step(outcome, caches.State()) == Strategies.NetworkFirst(old(caches.State()), req, net, workerOrigin)
  {
    match net {
      case Fetched(response) =>
        if IsOk(response) {
          UpdateCache(caches, req, Some(response), net);
        }
        outcome := Resolved(response);
      case NetworkError =>
        var cached := caches.Match(Key(req));
        if cached.Some? {
          outcome := Resolved(cached.value);
        } else if AcceptIncludes(req.accept, "text/html") {
          var root := caches.Match(workerOrigin + SiteRoot);
          outcome := if root.Some? then Resolved(root.value) else Undefined;
        } else {
          outcome := Thrown;
        }
    }
  }

  /** `handleRequest(request)`: the decision chain, then the 503 catch-all. */
  method HandleRequest(caches: CacheStorage, req: Request, net: FetchResult, settled: bool, workerOrigin: string)
    returns (reply: Reply)
    requires caches.Valid()
    modifies caches
    ensures caches.Valid()
    ensures Step(reply, caches.State()) == Strategies.HandleRequest(old(caches.State()), req, net, settled, workerOrigin)
  {
    var outcome: Outcome;
    if IsStaticAsset(req.url) {
      outcome := CacheFirst(caches, req, net, settled);
    } else if IsNetworkFirst(req.url) {
      outcome := NetworkFirst(caches, req, net, workerOrigin);
    } else if AcceptIncludes(req.accept, "text/html") {
      outcome := NetworkFirst(caches, req, net, workerOrigin);
    } else if AcceptIncludes(req.accept, "image") {
      outcome := CacheFirst(caches, req, net, settled);
    } else {
      outcome := NetworkFirst(caches, req, net, workerOrigin);
    }
    match outcome {
      case Resolved(response) => reply := Respond(response);
      case Undefined => reply := NoResponse;
      case Thrown => reply := Respond(ServiceUnavailable);
    }
  }

  /** The fetch listener: a request outside the worker's origin and the CDN
      allow-list is not answered (the browser handles it) and touches nothing. */
  method OnFetch(caches: CacheStorage, req: Request, workerOrigin: string, net: FetchResult, settled: bool)
    returns (answer: Option<Reply>)
    requires caches.Valid()
    modifies caches
    ensures caches.Valid()
    ensures answer.Some? <==> Intercepts(req.url, workerOrigin)
    ensures answer.Some? ==>
      Step(answer.value, caches.State()) == Strategies.HandleRequest(old(caches.State()), req, net, settled, workerOrigin)
    ensures answer.None? ==> caches.State() == old(caches.State())
  {
    if req.url.origin == workerOrigin || IsCdnResource(req.url) {
      var reply := HandleRequest(caches, req, net, settled, workerOrigin);
      answer := Some(reply);
    } else {
      answer := None;
    }
  }

  /** The activate handler's callback for one listed partition: it is
      deleted unless it is one of the two current ones. */
  method DeleteIfStale(caches: CacheStorage, cacheName: string)
    requires caches.Valid()
    modifies caches
    ensures caches.Valid()
    ensures caches.State() == if IsCurrent(cacheName) then old(caches.State()) else Delete(old(caches.State()), cacheName)
  {
    if cacheName != StaticCacheName && cacheName != DynamicCacheName {
      var _ := caches.Delete(cacheName);
    }
  }

  /** The activate handler's eviction: the callback runs for every listed
      partition. */
  method Activate(caches: CacheStorage)
    requires caches.Valid()
    modifies caches
    ensures caches.Valid()
    ensures caches.State() == Evict(old(caches.State()))
  {
    var cacheNames := caches.Keys();
    ghost var before := caches.State();
    var i := 0;
    while i < |cacheNames|
      invariant 0 <= i <= |cacheNames|
      invariant caches.Valid()
      invariant caches.State() == DeleteAll(before, Stale(cacheNames[..i]))
    {
      EvictStep(before, cacheNames, i);
      DeleteIfStale(caches, cacheNames[i]);
      i := i + 1;
    }
    assert cacheNames[..i] == cacheNames;
  }

  /** `cleanUpCaches()`: the stale names are listed first, then deleted. */
  method CleanUpCaches(caches: CacheStorage)
    requires caches.Valid()
    modifies caches
    ensures caches.Valid()
    ensures caches.State() == Evict(old(caches.State()))
  {
    var cacheNames := caches.Keys();
    var oldCaches := Stale(cacheNames);
    ghost var before := caches.State();
    var i := 0;
    while i < |oldCaches|
      invariant 0 <= i <= |oldCaches|
      invariant caches.Valid()
      invariant caches.State() == DeleteAll(before, oldCaches[..i])
    {
      assert oldCaches[..i + 1] == oldCaches[..i] + [oldCaches[i]];
      DeleteAllSnoc(before, oldCaches[..i], oldCaches[i]);
      var _ := caches.Delete(oldCaches[i]);
      i := i + 1;
    }
    assert oldCaches[..i] == oldCaches;
  }
}
