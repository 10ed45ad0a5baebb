/**
 * The service worker (`static/sw.js`): which requests it intercepts, which
 * caching strategy each gets, which caches `activate` deletes, and the
 * three strategies over the two named caches. The network is a parameter:
 * the outcome `fetch` would have (a response or a network error). Caches
 * are keyed by URL.
 */
module ServiceWorker {
  import opened Wrappers
  import CacheService

  const StaticCacheName: string := "football-manager-static-v2025.1"
  const DynamicCacheName: string := "football-manager-dynamic-v2025.1"
  const CacheName: string := "football-manager-v2025.1"

  const NetworkFirstRoutes: seq<string> := ["/api/", "/admin/", "/auth/"]
  const CacheFirstRoutes: seq<string> :=
    ["/static/", "https://cdn.jsdelivr.net/", "https://fonts.googleapis.com/", "https://fonts.gstatic.com/"]

  /** `s.startsWith(p)`. */
  predicate StartsWith(s: string, p: string) {
    |p| <= |s| && s[..|p|] == p
  }

  /** `routes.some(route => s.startsWith(route))`. */
  predicate SomePrefix(s: string, routes: seq<string>) {
    exists i :: 0 <= i < |routes| && StartsWith(s, routes[i])
  }

  /** A parsed URL; `href` is the whole URL as the browser serialises it. */
  datatype Url = Url(protocol: string, host: string, pathname: string, search: string)
  {
    function Href(): string { protocol + "//" + host + pathname + search }
  }

  datatype Request = Request(verb: string, url: Url)

  datatype Strategy = NotIntercepted | NetworkFirst | CacheFirst | StaleWhileRevalidate

  /** `isNetworkFirstRoute`: the path starts with `/api/`, `/admin/` or `/auth/`. */
  predicate IsNetworkFirstRoute(pathname: string): (b: bool)
    ensures b <==> StartsWith(pathname, "/api/") || StartsWith(pathname, "/admin/") || StartsWith(pathname, "/auth/")
  {
    assert NetworkFirstRoutes[0] == "/api/" && NetworkFirstRoutes[1] == "/admin/" && NetworkFirstRoutes[2] == "/auth/";
    SomePrefix(pathname, NetworkFirstRoutes)
  }

  /** `isCacheFirstRoute`: the whole href starts with one of the cache-first prefixes. */
  predicate IsCacheFirstRoute(href: string): (b: bool)
    ensures b <==> (StartsWith(href, "/static/") || StartsWith(href, "https://cdn.jsdelivr.net/")
                    || StartsWith(href, "https://fonts.googleapis.com/") || StartsWith(href, "https://fonts.gstatic.com/"))
  {
    assert CacheFirstRoutes[0] == "/static/" && CacheFirstRoutes[1] == "https://cdn.jsdelivr.net/";
    assert CacheFirstRoutes[2] == "https://fonts.googleapis.com/" && CacheFirstRoutes[3] == "https://fonts.gstatic.com/";
    SomePrefix(href, CacheFirstRoutes)
  }

  /**
   * The `fetch` handler: requests other than GET and URLs whose protocol
   * does not start with `http` are left to the browser; then network-first
   * by path, cache-first by href, and stale-while-revalidate for the rest.
   */
  function Choose(req: Request): (s: Strategy)
    ensures s == NotIntercepted <==> req.verb != "GET" || !StartsWith(req.url.protocol, "http")
    ensures s == NetworkFirst <==> s != NotIntercepted && IsNetworkFirstRoute(req.url.pathname)
    ensures s == CacheFirst <==> s != NotIntercepted && !IsNetworkFirstRoute(req.url.pathname) && IsCacheFirstRoute(req.url.Href())
  {
    if req.verb != "GET" then NotIntercepted
    else if !StartsWith(req.url.protocol, "http") then NotIntercepted
    else if IsNetworkFirstRoute(req.url.pathname) then NetworkFirst
    else if IsCacheFirstRoute(req.url.Href()) then CacheFirst
    else StaleWhileRevalidate
  }

  /**
   * An intercepted request's href starts with its `http` protocol, so the
   * relative prefix `/static/` never matches it: whether a request is
   * cache-first depends only on the three absolute prefixes.
   */
  lemma {:induction false} StaticPrefixNeverMatches(u: Url)
    requires StartsWith(u.protocol, "http")
    ensures !StartsWith(u.Href(), "/static/")
    ensures IsCacheFirstRoute(u.Href()) <==> SomePrefix(u.Href(), CacheFirstRoutes[1..])
  {
    assert u.Href()[0] == u.protocol[0] == 'h';
    if IsCacheFirstRoute(u.Href()) {
      var i :| 0 <= i < |CacheFirstRoutes| && StartsWith(u.Href(), CacheFirstRoutes[i]);
      assert i != 0 by { assert CacheFirstRoutes[0][0] == '/'; }
      assert CacheFirstRoutes[1..][i - 1] == CacheFirstRoutes[i];
    }
    if SomePrefix(u.Href(), CacheFirstRoutes[1..]) {
      var i :| 0 <= i < |CacheFirstRoutes[1..]| && StartsWith(u.Href(), CacheFirstRoutes[1..][i]);
      assert CacheFirstRoutes[1..][i] == CacheFirstRoutes[i + 1];
    }
  }

  /** The application's own stylesheet is therefore served stale-while-revalidate, not cache-first. */
  lemma OwnStaticAssetRevalidated()
    ensures Choose(Request("GET", Url("https:", "football.example", "/static/css/style.css", ""))) == StaleWhileRevalidate
  {
    var u := Url("https:", "football.example", "/static/css/style.css", "");
    assert u.pathname[1] == 's';
    NotNetworkFirstPath(u.pathname);
    StaticPrefixNeverMatches(u);
    assert u.Href()[10] == 'o';
    NotAbsoluteCacheFirst(u.Href());
  }

  /** No network-first prefix has an `s` second. */
  lemma NotNetworkFirstPath(p: string)
    requires |p| > 1 && p[1] == 's'
    ensures !IsNetworkFirstRoute(p)
  {
    forall i | 0 <= i < |NetworkFirstRoutes| ensures !StartsWith(p, NetworkFirstRoutes[i]) {
      assert NetworkFirstRoutes[i][1] != 's';
    }
  }

  /** Every absolute cache-first prefix has an `n` at index 10. */
  lemma NotAbsoluteCacheFirst(h: string)
    requires |h| > 10 && h[10] == 'o'
    ensures !SomePrefix(h, CacheFirstRoutes[1..])
  {
    forall i | 0 <= i < |CacheFirstRoutes[1..]| ensures !StartsWith(h, CacheFirstRoutes[1..][i]) {
      assert CacheFirstRoutes[1..][i][10] == 'n';
    }
  }

  /** The `activate` handler deletes a cache iff it is neither current cache and carries the app's prefix. */
  predicate DeletedOnActivate(name: string) {
    name != StaticCacheName && name != DynamicCacheName && StartsWith(name, "football-manager-")
  }

  /** The caches left after `activate`. */
  function AfterActivate(names: set<string>): (r: set<string>)
    ensures r <= names
    ensures StaticCacheName in names ==> StaticCacheName in r
    ensures DynamicCacheName in names ==> DynamicCacheName in r
    ensures forall n :: n in names - r ==> StartsWith(n, "football-manager-")
  {
    set n | n in names && !DeletedOnActivate(n)
  }

  /** Activation is idempotent, and it deletes the version cache `CACHE_NAME` itself, which nothing ever fills. */
  lemma ActivateIdempotent(names: set<string>)
    ensures AfterActivate(AfterActivate(names)) == AfterActivate(names)
    ensures CacheName in names ==> CacheName !in AfterActivate(names)
  {
    assert CacheName[..17] == "football-manager-";
  }

  /** A response, or the network error `fetch` rejects with. */
  datatype Fetched = Response(ok: bool, body: string) | NetworkError

  /** What a strategy answers the page with. */
  datatype Served = Serve(response: Fetched) | OfflinePage | Rethrow | NullResponse

  /** The two caches the strategies use: the static one and the dynamic one. */
  class Caches {
    var staticCache: map<string, Fetched>
    var dynamicCache: map<string, Fetched>

    constructor ()
      ensures staticCache == map[] && dynamicCache == map[]
    {
      staticCache := map[];
      dynamicCache := map[];
    }

    /** Only responses ever sit in a cache, and only ok ones. */
    ghost predicate Valid()
      reads this
    {
      (forall u :: u in staticCache ==> staticCache[u].Response? && staticCache[u].ok)
      && (forall u :: u in dynamicCache ==> dynamicCache[u].Response? && dynamicCache[u].ok)
    }

    /**
     * `networkFirstStrategy`: an ok response is stored in the dynamic cache
     * and every response is returned; on a network error the dynamic
     * cache's entry is returned, else the offline page for `/admin/` and
     * `/tournaments/` URLs, else the error is rethrown.
     */
    method NetworkFirstStrategy(url: string, fetched: Fetched) returns (s: Served)
      requires Valid()
      modifies this
      ensures Valid() && staticCache == old(staticCache)
      ensures fetched.Response? ==> s == Serve(fetched)
      ensures fetched.Response? && fetched.ok ==> dynamicCache == old(dynamicCache)[url := fetched]
      ensures !(fetched.Response? && fetched.ok) ==> dynamicCache == old(dynamicCache)
      ensures fetched.NetworkError? && url in old(dynamicCache) ==> s == Serve(old(dynamicCache)[url])
      ensures fetched.NetworkError? && url !in old(dynamicCache) ==>
        s == if CacheService.Contains(url, "/admin/") || CacheService.Contains(url, "/tournaments/") then OfflinePage else Rethrow
    {
      if fetched.Response? {
        if fetched.ok {
          dynamicCache := dynamicCache[url := fetched];
        }
        return Serve(fetched);
      }
      if url in dynamicCache {
        return Serve(dynamicCache[url]);
      }
      if CacheService.Contains(url, "/admin/") || CacheService.Contains(url, "/tournaments/") {
        return OfflinePage;
      }
      s := Rethrow;
    }

    /**
     * `cacheFirstStrategy`: a cached entry is returned without using the
     * network; otherwise the network's response is returned and stored in
     * the static cache when ok, and a network error is rethrown.
     */
    method CacheFirstStrategy(url: string, fetched: Fetched) returns (s: Served, usedNetwork: bool)
      requires Valid()
      modifies this
      ensures Valid() && dynamicCache == old(dynamicCache)
      ensures usedNetwork <==> url !in old(staticCache)
      ensures url in old(staticCache) ==> s == Serve(old(staticCache)[url]) && staticCache == old(staticCache)
      ensures url !in old(staticCache) ==> s == (if fetched.Response? then Serve(fetched) else Rethrow)
      ensures url !in old(staticCache) ==> staticCache == if fetched.Response? && fetched.ok then old(staticCache)[url := fetched] else old(staticCache)
    {
      if url in staticCache {
        return Serve(staticCache[url]), false;
      }
      usedNetwork := true;
      if fetched.NetworkError? {
        return Rethrow, usedNetwork;
      }
      if fetched.ok {
        staticCache := staticCache[url := fetched];
      }
      s := Serve(fetched);
    }

    /**
     * `staleWhileRevalidateStrategy`: the network is asked in any case and an
     * ok response refreshes the dynamic cache (the model applies that
     * background update at once); the page gets the previously cached entry
     * if there was one, else the network's response, or `null` on a network
     * error.
     */
    method StaleWhileRevalidateStrategy(url: string, fetched: Fetched) returns (s: Served)
      requires Valid()
      modifies this
      ensures Valid() && staticCache == old(staticCache)
      ensures dynamicCache == if fetched.Response? && fetched.ok then old(dynamicCache)[url := fetched] else old(dynamicCache)
      ensures url in old(dynamicCache) ==> s == Serve(old(dynamicCache)[url])
      ensures url !in old(dynamicCache) ==> s == if fetched.Response? then Serve(fetched) else NullResponse
    {
      var cached := if url in dynamicCache then Some(dynamicCache[url]) else None;
      if fetched.Response? && fetched.ok {
        dynamicCache := dynamicCache[url := fetched];
      }
      if cached.Some? {
        return Serve(cached.value);
      }
      s := if fetched.Response? then Serve(fetched) else NullResponse;
    }
  }
}
