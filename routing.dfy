/** Request classification: the three URL predicates of the service worker,
    the ordered decision chain of its request handler, and the interception
    filter of its fetch listener. All of it is pure and total. */
module Routing {
  import opened Wrappers
  import opened Text
  import opened Config

  /** The parts of a parsed URL that the worker reads. Parsing itself is done
      by the platform and is not modelled. */
  datatype Url = Url(href: string, origin: string, hostname: string, pathname: string)

  /** What the platform's URL parser guarantees and the proofs below rely on:
      the serialised URL contains its own path. */
  predicate WellFormed(u: Url) {
    Includes(u.href, u.pathname)
  }

  /** The path has a static extension, or the full URL text contains one of
      the pre-declared static assets (a substring test, not a path test).
      Since the site root is the first of them, any URL whose text contains
      the site root is a static asset. */
  function IsStaticAsset(u: Url): (b: bool)
    ensures Includes(u.href, SiteRoot) ==> b
    ensures !b ==> forall k :: 0 <= k < |StaticExtensions| ==> !EndsWith(u.pathname, StaticExtensions[k])
  {
    assert StaticAssets[0] == SiteRoot;
    EndsWithAny(u.pathname, StaticExtensions) || IncludesAny(u.href, StaticAssets)
  }

  /** The path contains one of the always-fresh paths. Both lie under the
      site root, so such a path contains the site root. */
  function IsNetworkFirst(u: Url): (b: bool)
    ensures u.pathname in NetworkFirstPaths ==> b
    ensures b ==> Includes(u.pathname, SiteRoot)
  {
    if u.pathname in NetworkFirstPaths then
      var k :| 0 <= k < |NetworkFirstPaths| && NetworkFirstPaths[k] == u.pathname;
      assert u.pathname[0..|u.pathname|] == u.pathname;
      OccursAtIncludes(u.pathname, u.pathname, 0);
      NetworkFirstUnderRoot(u.pathname, k);
      true
    else if IncludesAny(u.pathname, NetworkFirstPaths) then
      var k :| 0 <= k < |NetworkFirstPaths| && Includes(u.pathname, NetworkFirstPaths[k]);
      NetworkFirstUnderRoot(u.pathname, k);
      true
    else false
  }

  /** A path containing a listed network-first path contains the site root. */
  lemma NetworkFirstUnderRoot(path: string, k: nat)
    requires k < |NetworkFirstPaths| && Includes(path, NetworkFirstPaths[k])
    ensures Includes(path, SiteRoot)
  {
    assert StartsWith(NetworkFirstPaths[k], SiteRoot);
    StartsWithIncludes(NetworkFirstPaths[k], SiteRoot);
    IncludesTransitive(path, NetworkFirstPaths[k], SiteRoot);
  }

  /** The host name contains one of the allow-listed CDN hosts; a listed host
      itself qualifies. */
  function IsCdnResource(u: Url): (b: bool)
    ensures u.hostname in CdnHosts ==> b
    ensures !b ==> forall k :: 0 <= k < |CdnHosts| ==> !Includes(u.hostname, CdnHosts[k])
  {
    if u.hostname in CdnHosts then
      var k :| 0 <= k < |CdnHosts| && CdnHosts[k] == u.hostname;
      assert u.hostname[0..|u.hostname|] == u.hostname;
      OccursAtIncludes(u.hostname, u.hostname, 0);
      true
    else IncludesAny(u.hostname, CdnHosts)
  }

  /** `request.headers.get("accept")?.includes(token)`; an absent header
      includes nothing. */
  predicate AcceptIncludes(accept: Option<string>, token: string) {
    accept.Some? && Includes(accept.value, token)
  }

  /** The branch of the request handler a request takes. */
  datatype Policy = StaticAsset | NetworkFirstPath | HtmlNavigation | Image | Default

  /** The two strategies a branch runs. */
  datatype Strategy = UseCacheFirst | UseNetworkFirst

  /** The request handler's decision chain: the first test that holds wins. */
  function Classify(u: Url, accept: Option<string>): (p: Policy)
    ensures p == StaticAsset <==> IsStaticAsset(u)
    ensures p == NetworkFirstPath ==> IsNetworkFirst(u)
    ensures p == HtmlNavigation ==> !IsNetworkFirst(u) && AcceptIncludes(accept, "text/html")
    ensures p == Image ==> !IsNetworkFirst(u) && !AcceptIncludes(accept, "text/html") && AcceptIncludes(accept, "image")
    ensures p == Default ==> !IsNetworkFirst(u) && !AcceptIncludes(accept, "text/html") && !AcceptIncludes(accept, "image")
  {
    if IsStaticAsset(u) then StaticAsset
    else if IsNetworkFirst(u) then NetworkFirstPath
    else if AcceptIncludes(accept, "text/html") then HtmlNavigation
    else if AcceptIncludes(accept, "image") then Image
    else Default
  }

  function StrategyOf(p: Policy): Strategy {
    match p
    case StaticAsset | Image => UseCacheFirst
    case NetworkFirstPath | HtmlNavigation | Default => UseNetworkFirst
  }

  /** The one strategy the handler runs for a request. */
  function Route(u: Url, accept: Option<string>): (s: Strategy)
    ensures s == UseCacheFirst <==>
      IsStaticAsset(u) ||
      (!IsNetworkFirst(u) && !AcceptIncludes(accept, "text/html") && AcceptIncludes(accept, "image"))
  {
    StrategyOf(Classify(u, accept))
  }

  /** The fetch listener answers a request only when it is same-origin or its
      host name contains an allow-listed CDN host. */
  function Intercepts(u: Url, workerOrigin: string): (b: bool)
    ensures u.origin == workerOrigin ==> b
    ensures u.hostname in CdnHosts ==> b
    ensures u.origin != workerOrigin ==> (b <==> IsCdnResource(u))
  {
    u.origin == workerOrigin || IsCdnResource(u)
  }

  /** A path with one of the eight static extensions is a static asset and is
      served cache-first, whatever the accept header says. */
  lemma StaticExtensionIsCacheFirst(u: Url, accept: Option<string>)
    requires
      || EndsWith(u.pathname, ".css") || EndsWith(u.pathname, ".js")
      || EndsWith(u.pathname, ".png") || EndsWith(u.pathname, ".jpg")
      || EndsWith(u.pathname, ".jpeg") || EndsWith(u.pathname, ".svg")
      || EndsWith(u.pathname, ".woff") || EndsWith(u.pathname, ".woff2")
    ensures IsStaticAsset(u)
    ensures Classify(u, accept) == StaticAsset && Route(u, accept) == UseCacheFirst
  {
    var k :=
      if EndsWith(u.pathname, ".css") then 0
      else if EndsWith(u.pathname, ".js") then 1
      else if EndsWith(u.pathname, ".png") then 2
      else if EndsWith(u.pathname, ".jpg") then 3
      else if EndsWith(u.pathname, ".jpeg") then 4
      else if EndsWith(u.pathname, ".svg") then 5
      else if EndsWith(u.pathname, ".woff") then 6
      else 7;
    assert EndsWith(u.pathname, StaticExtensions[k]);
  }

  /** Because the site root is the first pre-declared static asset, every URL
      whose text contains the site root is a static asset, and is served
      cache-first whatever the accept header says, navigations included. */
  lemma SiteUrlIsCacheFirst(u: Url, accept: Option<string>)
    requires Includes(u.href, SiteRoot)
    ensures IsStaticAsset(u)
    ensures Classify(u, accept) == StaticAsset && Route(u, accept) == UseCacheFirst
  {
  }

  /** The network-first branch is dead for well-formed URLs: every
      network-first path lies under the site root, so a URL that passes the
      network-first test has already passed the static-asset test. */
  lemma NetworkFirstBranchUnreachable(u: Url, accept: Option<string>)
    requires WellFormed(u)
    ensures IsNetworkFirst(u) ==> Classify(u, accept) == StaticAsset && Route(u, accept) == UseCacheFirst
    ensures Classify(u, accept) != NetworkFirstPath
  {
    if IsNetworkFirst(u) {
      IncludesTransitive(u.href, u.pathname, SiteRoot);
      SiteUrlIsCacheFirst(u, accept);
    }
  }

  /** Concretely: a request for either listed network-first path, on any
      origin, passes the network-first test and is still served cache-first. */
  lemma ListedNetworkFirstPathIsCacheFirst(origin: string, host: string, k: nat, accept: Option<string>)
    requires k < |NetworkFirstPaths|
    ensures var u := Url(origin + NetworkFirstPaths[k], origin, host, NetworkFirstPaths[k]);
      IsNetworkFirst(u) && Classify(u, accept) == StaticAsset && Route(u, accept) == UseCacheFirst
  {
    var path := NetworkFirstPaths[k];
    var u := Url(origin + path, origin, host, path);
    assert u.href[|origin|..|origin| + |path|] == path;
    OccursAtIncludes(u.href, path, |origin|);
    assert path[0..|path|] == path;
    OccursAtIncludes(path, path, 0);
    NetworkFirstBranchUnreachable(u, accept);
  }

  /** The allow-list is matched by substring: a cross-origin host that merely
      contains an allow-listed host name is intercepted too. */
  lemma LookalikeCdnHostIsIntercepted()
    ensures Intercepts(Url("https://unpkg.com.example/x", "https://unpkg.com.example", "unpkg.com.example", "/x"),
                       "https://site.example")
  {
    var host := "unpkg.com.example";
    assert host[0..|CdnHosts[1]|] == CdnHosts[1];
    OccursAtIncludes(host, CdnHosts[1], 0);
  }
}
