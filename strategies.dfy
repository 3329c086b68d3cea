/** The service worker's caching strategies and request handler, stated as
    functions from the cache storage before a request to the outcome and the
    storage after it. The network is an argument: what `fetch(request)`
    yields for this request. */
module Strategies {
  import opened Wrappers
  import opened Config
  import opened Text
  import opened Routing
  import opened CacheModel

  datatype Request = Request(url: Url, accept: Option<string>)

  /** The URL up to its fragment: the longest prefix without a `#`. */
  function WithoutFragment(href: string): (k: string)
    ensures StartsWith(href, k)
    ensures '#' !in k
    ensures |k| < |href| ==> href[|k|] == '#'
  {
    if href == [] || href[0] == '#' then []
    else
      var rest := WithoutFragment(href[1..]);
      assert href[1..][..|rest|] == rest;
      assert href[..|rest| + 1] == [href[0]] + href[1..][..|rest|];
      [href[0]] + rest
  }

  /** The cache key of a request: its URL without the fragment, which the
      Cache API drops in both `put` and `match`. */
  function Key(req: Request): string {
    WithoutFragment(req.url.href)
  }

  /** Two requests whose URLs differ only in the fragment share one cache
      entry. */
  lemma FragmentIgnored(req: Request, fragment: string)
    requires '#' !in req.url.href
    ensures Key(Request(req.url.(href := req.url.href + "#" + fragment), req.accept)) == Key(req)
  {
    var href := req.url.href;
    var k := WithoutFragment(href + "#" + fragment);
    assert (href + "#" + fragment)[|href|] == '#';
    assert |k| == |href|;
    assert k == (href + "#" + fragment)[..|href|] == href;
  }

  /** What `fetch(request)` does: it yields a response, ok or not, or throws. */
  datatype FetchResult = Fetched(response: Response) | NetworkError

  /** How a strategy's promise settles: with a response, with `undefined`
      (a cache lookup that missed), or by throwing. */
  datatype Outcome = Resolved(response: Response) | Undefined | Thrown

  /** What the fetch event is answered with: a response, or `undefined`,
      which the browser turns into a network error for the page. */
  datatype Reply = Respond(response: Response) | NoResponse

  /** A result together with the cache storage after it was produced. */
  datatype Step<T> = Step(result: T, store: Store)

  /** The synthetic answer to a request whose strategy threw. */
  const ServiceUnavailable: Response := Response(503, "网络错误")

  /** The partition a request's responses are written to. */
  function PartitionFor(u: Url): (name: string)
    ensures IsCurrent(name)
    ensures name == StaticCacheName <==> IsStaticAsset(u)
  {
    if IsStaticAsset(u) then StaticCacheName else DynamicCacheName
  }

  /** `updateCache(request, response)`: the request's partition is opened
      (created if missing) and the given response is stored; with no response
      given, the request is fetched again and stored only if ok, and a failed
      fetch is swallowed. No other partition is touched. */
  function UpdateCache(s: Store, req: Request, response: Option<Response>, net: FetchResult): (t: Store)
    ensures Valid(s) ==> Valid(t)
    ensures PartitionFor(req.url) in t.parts
    ensures forall n :: n != PartitionFor(req.url) ==> (n in t.parts <==> n in s.parts)
    ensures forall n :: n != PartitionFor(req.url) && n in s.parts ==> t.parts[n] == s.parts[n]
    ensures t.names == if PartitionFor(req.url) in s.parts then s.names else s.names + [PartitionFor(req.url)]
    ensures response.Some? ==>
              t.parts[PartitionFor(req.url)] == Earlier(s, PartitionFor(req.url))[Key(req) := response.value]
    ensures response.None? && net.Fetched? && IsOk(net.response) ==>
              t.parts[PartitionFor(req.url)] == Earlier(s, PartitionFor(req.url))[Key(req) := net.response]
    ensures response.None? && !(net.Fetched? && IsOk(net.response)) ==> t == Open(s, PartitionFor(req.url))
  {
    var name := PartitionFor(req.url);
    var cache := Open(s, name);
    match response
    case Some(r) => Put(cache, name, Key(req), r)
    case None =>
      if net.Fetched? && IsOk(net.response) then Put(cache, name, Key(req), net.response) else cache
  }

  /** `fetchAndCache(request)`: the fetched response is always returned and
      is stored only when ok; a thrown fetch propagates. */
  function FetchAndCache(s: Store, req: Request, net: FetchResult): (step: Step<Outcome>)
    ensures step.result.Thrown? <==> net.NetworkError?
    ensures net.Fetched? ==> step.result == Resolved(net.response)
    ensures !(net.Fetched? && IsOk(net.response)) ==> step.store == s
    ensures net.Fetched? && IsOk(net.response) ==> step.store == UpdateCache(s, req, Some(net.response), net)
    ensures Valid(s) && net.Fetched? && IsOk(net.response) ==> Match(step.store, Key(req)).Some?
  {
    match net
    case NetworkError => Step(Thrown, s)
    case Fetched(r) =>
      if IsOk(r) then
        var t := UpdateCache(s, req, Some(r), net);
        assert Valid(s) ==> Match(t, Key(req)).Some? by {
          if Valid(s) {
            MatchAfterPut(Open(s, PartitionFor(req.url)), PartitionFor(req.url), Key(req), r);
          }
        }
        Step(Resolved(r), t)
      else Step(Resolved(r), s)
  }

  /** `cacheFirst(request)`: a hit is answered from the cache without waiting
      for the network; the background refresh it starts is applied only when
      `settled` says it has completed. A miss is `fetchAndCache`. */
  function CacheFirst(s: Store, req: Request, net: FetchResult, settled: bool): (step: Step<Outcome>)
    ensures Match(s, Key(req)).Some? ==> step.result == Resolved(Match(s, Key(req)).value)
    ensures Match(s, Key(req)).Some? && !settled ==> step.store == s
    ensures Match(s, Key(req)).Some? && settled ==> step.store == UpdateCache(s, req, None, net)
    ensures Match(s, Key(req)).None? ==> step == FetchAndCache(s, req, net)
    ensures !step.result.Undefined?
  {
    match Match(s, Key(req))
    case Some(cached) =>
      Step(Resolved(cached), if settled then UpdateCache(s, req, None, net) else s)
    case None => FetchAndCache(s, req, net)
  }

  /** `networkFirst(request)`: a fetched response is returned as it is and
      stored only when ok. When the fetch throws, the cached entry answers;
      failing that, an HTML request gets the cached site root (or `undefined`
      when that is not cached either) and any other request rethrows. */
  function NetworkFirst(s: Store, req: Request, net: FetchResult, workerOrigin: string): (step: Step<Outcome>)
    ensures net.Fetched? ==> step.result == Resolved(net.response)
    ensures !(net.Fetched? && IsOk(net.response)) ==> step.store == s
    ensures net.Fetched? && IsOk(net.response) ==> step.store == UpdateCache(s, req, Some(net.response), net)
    ensures net.NetworkError? && Match(s, Key(req)).Some? ==> step.result == Resolved(Match(s, Key(req)).value)
    ensures (net.NetworkError? && Match(s, Key(req)).None? && AcceptIncludes(req.accept, "text/html") &&
             Match(s, workerOrigin + SiteRoot).Some?) ==>
              step.result == Resolved(Match(s, workerOrigin + SiteRoot).value)
    ensures step.result.Thrown? <==>
      net.NetworkError? && Match(s, Key(req)).None? && !AcceptIncludes(req.accept, "text/html")
    ensures step.result.Undefined? <==>
      net.NetworkError? && Match(s, Key(req)).None? && AcceptIncludes(req.accept, "text/html")
      && Match(s, workerOrigin + SiteRoot).None?
  {
    match net
    case Fetched(r) =>
      Step(Resolved(r), if IsOk(r) then UpdateCache(s, req, Some(r), net) else s)
    case NetworkError =>
      match Match(s, Key(req))
      case Some(cached) => Step(Resolved(cached), s)
      case None =>
        if AcceptIncludes(req.accept, "text/html") then
          match Match(s, workerOrigin + SiteRoot)
          case Some(root) => Step(Resolved(root), s)
          case None => Step(Undefined, s)
        else Step(Thrown, s)
  }

  /** The fetch event's answer for a strategy outcome: a thrown strategy
      becomes the 503 response, `undefined` stays unanswered. */
  function ReplyOf(o: Outcome): (r: Reply)
    ensures o.Thrown? ==> r == Respond(ServiceUnavailable)
    ensures o.Resolved? ==> r == Respond(o.response)
    ensures r.NoResponse? <==> o.Undefined?
  {
    match o
    case Resolved(resp) => Respond(resp)
    case Undefined => NoResponse
    case Thrown => Respond(ServiceUnavailable)
  }

  /** `handleRequest(request)`: exactly one strategy runs, the one `Route`
      chooses, and whatever it throws is answered with 503. */
  function HandleRequest(s: Store, req: Request, net: FetchResult, settled: bool, workerOrigin: string): (step: Step<Reply>)
    ensures Route(req.url, req.accept) == UseCacheFirst ==>
              step == Step(ReplyOf(CacheFirst(s, req, net, settled).result), CacheFirst(s, req, net, settled).store)
    ensures Route(req.url, req.accept) == UseNetworkFirst ==>
              step == Step(ReplyOf(NetworkFirst(s, req, net, workerOrigin).result), NetworkFirst(s, req, net, workerOrigin).store)
  {
    var outcome := match Route(req.url, req.accept)
      case UseCacheFirst => CacheFirst(s, req, net, settled)
      case UseNetworkFirst => NetworkFirst(s, req, net, workerOrigin);
    Step(ReplyOf(outcome.result), outcome.store)
  }

  /** Once a cache-first request has been answered with an ok response, the
      next identical request is answered from the cache, whatever the network
      does then: no fetch is waited on. */
  lemma WarmCacheFirstIgnoresNetwork(s: Store, req: Request, r: Response, settled: bool,
                                     later: FetchResult, laterSettled: bool)
    requires Valid(s) && IsOk(r)
    ensures var t := CacheFirst(s, req, Fetched(r), settled).store;
      Match(t, Key(req)).Some? && CacheFirst(t, req, later, laterSettled).result == Resolved(Match(t, Key(req)).value)
  {
  }

  /** After a network-first request got an ok response, a later network
      failure for the same request is answered from the cache; when no other
      partition holds that URL, with exactly that response. */
  lemma OfflineAfterOnline(s: Store, req: Request, r: Response, workerOrigin: string)
    requires Valid(s) && IsOk(r)
    ensures var t := NetworkFirst(s, req, Fetched(r), workerOrigin).store;
      NetworkFirst(t, req, NetworkError, workerOrigin).result.Resolved?
    ensures (forall n :: n in s.parts && n != PartitionFor(req.url) ==> Key(req) !in s.parts[n]) ==>
      NetworkFirst(NetworkFirst(s, req, Fetched(r), workerOrigin).store, req, NetworkError, workerOrigin).result
        == Resolved(r)
  {
  }

  /** A non-ok response is handed back unchanged and leaves the storage as it
      was, whichever strategy fetched it. */
  lemma NonOkResponseNotCached(s: Store, req: Request, r: Response, settled: bool, workerOrigin: string)
    requires !IsOk(r)
    ensures NetworkFirst(s, req, Fetched(r), workerOrigin) == Step(Resolved(r), s)
    ensures Match(s, Key(req)).None? ==> CacheFirst(s, req, Fetched(r), settled) == Step(Resolved(r), s)
    ensures HandleRequest(s, req, Fetched(r), settled, workerOrigin).store.parts.Keys <= s.parts.Keys + {PartitionFor(req.url)}
  {
  }

  /** A fetch event is left unanswered exactly when the network-first
      strategy ran, the fetch threw, the request is not cached, it asks for
      HTML and the site root is not cached either. */
  lemma UnansweredExactly(s: Store, req: Request, net: FetchResult, settled: bool, workerOrigin: string)
    ensures HandleRequest(s, req, net, settled, workerOrigin).result.NoResponse? <==>
      && Route(req.url, req.accept) == UseNetworkFirst
      && net.NetworkError?
      && Match(s, Key(req)).None?
      && AcceptIncludes(req.accept, "text/html")
      && Match(s, workerOrigin + SiteRoot).None?
  {
  }

  /** Every request for a URL under the site runs cache-first, so it is always
      answered: from the cache, from the network, or with 503 when the URL is
      not cached and the fetch throws. */
  lemma SiteRequestAlwaysAnswered(s: Store, req: Request, net: FetchResult, settled: bool, workerOrigin: string)
    requires Includes(req.url.href, SiteRoot)
    ensures HandleRequest(s, req, net, settled, workerOrigin).result.Respond?
    ensures Match(s, Key(req)).None? && net.NetworkError? ==>
      HandleRequest(s, req, net, settled, workerOrigin).result == Respond(ServiceUnavailable)
  {
    SiteUrlIsCacheFirst(req.url, req.accept);
  }

  /** The network-first paths are not served network-first: once a
      well-formed request for one of them is cached, the cached copy is the
      answer even when the network has a fresh one. */
  lemma NetworkFirstPathServedFromCache(s: Store, req: Request, net: FetchResult, settled: bool,
                                        workerOrigin: string, cached: Response)
    requires WellFormed(req.url) && IsNetworkFirst(req.url)
    requires Match(s, Key(req)) == Some(cached)
    ensures HandleRequest(s, req, net, settled, workerOrigin).result == Respond(cached)
  {
    NetworkFirstBranchUnreachable(req.url, req.accept);
  }
}
