/**
 * The offline service worker's decisions: which caches an activation deletes,
 * which strategy a request gets, what counts as a static asset, and which
 * response the data handler returns. The Cache Storage and fetch calls
 * themselves are inputs: a cache lookup is a `Response` or nothing, and a fetch
 * is a `Response` or nothing when it rejects.
 */
module ServiceWorker {
  import opened Wrappers
  import opened Text
  import opened SeqUtil

  const CACHE_VERSION: string := "v1"
  const CACHE_PREFIX: string := "qanun-docs-"
  const CACHE_NAME: string := CACHE_PREFIX + CACHE_VERSION
  const DATA_CACHE_NAME: string := CACHE_PREFIX + "data-" + CACHE_VERSION

  // ---------------------------------------------------------------- precached data

  /** The data files precached on install, as (law directory, book file) pairs. */
  const DATA_FILES: seq<(string, string)> := [
    ("cpp", "book_0"), ("cpp", "book_1st"), ("cpp", "book_2nd"), ("cpp", "book_3rd"),
    ("cpp", "book_4th"), ("cpp", "book_5th"), ("cpp", "book_6th"), ("cpp", "book_7th"),
    ("cpp", "book_8th"),
    ("dp", "code_book_0"), ("dp", "code_book_1"), ("dp", "code_book_2"), ("dp", "code_book_3")]

  /** The URL of a data file: "/data/<dir>/<file>.json". */
  function DataUrl(dir: string, file: string): string {
    "/data/" + dir + "/" + file + ".json"
  }

  /** The precached data URLs, "/data/cpp/book_0.json" to "/data/dp/code_book_3.json". */
  const DATA_URLS: seq<string> :=
    seq(|DATA_FILES|, i requires 0 <= i < |DATA_FILES| => DataUrl(DATA_FILES[i].0, DATA_FILES[i].1))

  const PRECACHE_URLS: seq<string> := ["/", "/offline", "/manifest.json"]

  // ---------------------------------------------------------------- activation

  /** A cache of an earlier version of this application. */
  predicate IsOldCache(name: string) {
    StartsWith(name, CACHE_PREFIX) && name != CACHE_NAME && name != DATA_CACHE_NAME
  }

  /** The caches an activation deletes. */
  function CachesToDelete(cacheNames: seq<string>): seq<string> {
    Filter(cacheNames, IsOldCache)
  }

  /** An activation deletes exactly the application's caches of other versions:
      the current two always survive, and so do caches of other applications. */
  lemma CachesToDeleteSpec(cacheNames: seq<string>, name: string)
    ensures name in CachesToDelete(cacheNames) <==>
      name in cacheNames && StartsWith(name, CACHE_PREFIX) && name != CACHE_NAME && name != DATA_CACHE_NAME
    ensures CACHE_NAME !in CachesToDelete(cacheNames) && DATA_CACHE_NAME !in CachesToDelete(cacheNames)
  {
    FilterMembers(cacheNames, IsOldCache, name);
    FilterMembers(cacheNames, IsOldCache, CACHE_NAME);
    FilterMembers(cacheNames, IsOldCache, DATA_CACHE_NAME);
  }

  // ---------------------------------------------------------------- static assets

  const STATIC_EXTENSIONS: seq<string> :=
    [".js", ".css", ".png", ".jpg", ".jpeg", ".gif", ".svg", ".ico", ".woff", ".woff2", ".ttf", ".eot", ".webp", ".avif"]

  /** `exts.some(ext => pathname.endsWith(ext))`. */
  function EndsWithAny(pathname: string, exts: seq<string>): (r: bool)
    ensures r <==> exists i :: 0 <= i < |exts| && EndsWith(pathname, exts[i])
  {
    if exts == [] then false
    else EndsWith(pathname, exts[0]) || EndsWithAny(pathname, exts[1..])
  }

  /** `isStaticAsset`. */
  function IsStaticAsset(pathname: string): (r: bool)
    ensures r <==> ((exists i :: 0 <= i < |STATIC_EXTENSIONS| && EndsWith(pathname, STATIC_EXTENSIONS[i]))
      || StartsWith(pathname, "/_next/static/") || StartsWith(pathname, "/icons/"))
  {
    EndsWithAny(pathname, STATIC_EXTENSIONS) || StartsWith(pathname, "/_next/static/") || StartsWith(pathname, "/icons/")
  }

  // ---------------------------------------------------------------- fetch dispatch

  /** The parts of a request the dispatcher reads. */
  datatype Request = Request(origin: string, pathname: string, mode: string)

  datatype Strategy = Unhandled | NavigationNetworkFirst | DataCacheFirst | StaticCacheFirst | NetworkFirst

  predicate IsDataPath(pathname: string) {
    StartsWith(pathname, "/data/") && EndsWith(pathname, ".json")
  }

  /** The `fetch` listener's choice of handler. */
  function FetchStrategy(request: Request, locationOrigin: string): (r: Strategy)
    ensures request.origin != locationOrigin <==> r == Unhandled
  {
    if request.origin != locationOrigin then Unhandled
    else if request.mode == "navigate" then NavigationNetworkFirst
    else if IsDataPath(request.pathname) then DataCacheFirst
    else if IsStaticAsset(request.pathname) then StaticCacheFirst
    else NetworkFirst
  }

  /** For a same-origin request the first applicable rule wins: navigation, then
      data files, then static assets, then everything else. */
  lemma StrategyPrecedence(request: Request, locationOrigin: string)
    requires request.origin == locationOrigin
    ensures request.mode == "navigate" ==> FetchStrategy(request, locationOrigin) == NavigationNetworkFirst
    ensures FetchStrategy(request, locationOrigin) == DataCacheFirst <==> request.mode != "navigate" && IsDataPath(request.pathname)
    ensures FetchStrategy(request, locationOrigin) == StaticCacheFirst <==>
      request.mode != "navigate" && !IsDataPath(request.pathname) && IsStaticAsset(request.pathname)
    ensures FetchStrategy(request, locationOrigin) == NetworkFirst <==>
      request.mode != "navigate" && !IsDataPath(request.pathname) && !IsStaticAsset(request.pathname)
  {
  }

  /** A non-navigation request for any precached data file is served by the data handler. */
  lemma PrecachedDataUsesDataHandler(origin: string, mode: string)
    requires mode != "navigate"
    ensures forall u :: u in DATA_URLS ==> FetchStrategy(Request(origin, u, mode), origin) == DataCacheFirst
  {
    forall u | u in DATA_URLS ensures IsDataPath(u) {
      var i :| 0 <= i < |DATA_URLS| && DATA_URLS[i] == u;
      DataUrlIsDataPath(DATA_FILES[i].0, DATA_FILES[i].1);
    }
  }

  /** Every data URL is a data path. */
  lemma DataUrlIsDataPath(dir: string, file: string)
    ensures IsDataPath(DataUrl(dir, file))
  {
    var u := DataUrl(dir, file);
    assert u[..6] == "/data/";
    assert u[|u| - 5..] == ".json";
  }

  // ---------------------------------------------------------------- the data handler

  datatype Response = Response(status: nat, body: string)

  predicate Ok(r: Response) {
    200 <= r.status <= 299
  }

  /** What the data handler returns when neither the cache nor the network answers. */
  const OFFLINE_DATA_RESPONSE: Response := Response(503, "{\"error\":\"Offline\"}")

  /** The response returned, and whether the network response is written to the cache. */
  datatype DataOutcome = DataOutcome(response: Response, cachePut: bool)

  /** `handleDataRequest`, given the cache lookup and the fetch result. */
  function HandleDataRequest(cached: Option<Response>, network: Option<Response>): (r: DataOutcome)
    ensures cached.Some? ==> r.response == cached.value
    ensures cached.None? && network.Some? ==> r.response == network.value
    ensures cached.None? && network.None? ==> r.response == OFFLINE_DATA_RESPONSE
    ensures r.cachePut <==> network.Some? && Ok(network.value)
  {
    var cachePut := network.Some? && Ok(network.value);
    if cached.Some? then DataOutcome(cached.value, cachePut)
    else if network.Some? then DataOutcome(network.value, cachePut)
    else DataOutcome(OFFLINE_DATA_RESPONSE, cachePut)
  }

  /** A failed response is never cached, yet it is returned when nothing was cached. */
  lemma FailedResponseServedNotCached(network: Response)
    requires !Ok(network)
    ensures HandleDataRequest(None, Some(network)) == DataOutcome(network, false)
  {
  }
}
