/**
 * The service worker's request handling: which fetches it leaves to the
 * browser, which responses it stores in the runtime cache, what it answers
 * from cache or network, and which caches it deletes on activation. Cache
 * contents and network results are parameters.
 */
module ServiceWorker {
  import opened Wrappers
  import opened Text
  import opened Lists

  const CacheName := "securedoc-v1.0.0"
  const RuntimeCache := "securedoc-runtime"

  /** The parts of a request URL the worker looks at. */
  datatype Url = Url(protocol: string, hostname: string, pathname: string)

  /** A request: method (`verb`), URL, its `Accept` header if any, and its mode ("navigate", "cors", ...). */
  datatype Request = Request(verb: string, url: Url, accept: Option<string>, mode: string)

  datatype Response = Response(status: int, body: string)

  // ---------------------------------------------------------------------
  // Which fetches the worker leaves alone
  // ---------------------------------------------------------------------

  /** Backend hosts whose answers must always be fresh. */
  predicate BackendHost(hostname: string) {
    || Contains(hostname, "supabase.co")
    || Contains(hostname, "supabase.in")
    || Contains(hostname, "firebase.com")
    || Contains(hostname, "googleapis.com")
  }

  /** The fetch handler returns without responding: non-GET, extension URLs, backend hosts. */
  predicate Bypassed(r: Request) {
    r.verb != "GET" || r.url.protocol == "chrome-extension:" || BackendHost(r.url.hostname)
  }

  // ---------------------------------------------------------------------
  // shouldCache
  // ---------------------------------------------------------------------

  /** The alternatives of `/\.(js|css|png|jpg|jpeg|gif|svg|webp|woff2?|ttf|eot)$/`, with `woff2?` spelled out. */
  const AssetExtensions: seq<string> :=
    ["js", "css", "png", "jpg", "jpeg", "gif", "svg", "webp", "woff", "woff2", "ttf", "eot"]

  /** The asset pattern matches: the path ends in '.' and one of the extensions. */
  predicate AssetPath(pathname: string) {
    exists i :: 0 <= i < |AssetExtensions| && EndsWith(pathname, "." + AssetExtensions[i])
  }

  const FontHosts: seq<string> := ["fonts.googleapis.com", "fonts.gstatic.com"]

  /** `request.headers.get('accept')?.includes('text/html')`. */
  predicate AcceptsHtml(r: Request) {
    r.accept.Some? && Contains(r.accept.value, "text/html")
  }

  /** `shouldCache(request)`: static assets, HTML pages and the two font hosts. */
  predicate ShouldCache(r: Request) {
    AssetPath(r.url.pathname) || AcceptsHtml(r) || r.url.hostname in FontHosts
  }

  /**
   * The pattern is a test on the last '.'-segment: a path matches exactly
   * when it has a '.' and the text after its last '.' is one of the
   * extensions (none of which contains a '.').
   */
  lemma AssetPathIsExtension(pathname: string)
    ensures AssetPath(pathname) <==>
      LastIndexOf(pathname, '.') >= 0 && LastSegment(pathname, '.') in AssetExtensions
  {
    ExtensionsDotFree();
    if AssetPath(pathname) {
      var i :| 0 <= i < |AssetExtensions| && EndsWith(pathname, "." + AssetExtensions[i]);
      EndsWithExtension(pathname, AssetExtensions[i]);
    }
    var segment := LastSegment(pathname, '.');
    if LastIndexOf(pathname, '.') >= 0 && segment in AssetExtensions {
      var i :| 0 <= i < |AssetExtensions| && AssetExtensions[i] == segment;
      EndsWithExtension(pathname, AssetExtensions[i]);
    }
  }

  /** No extension of the pattern contains a '.'. */
  lemma ExtensionsDotFree()
    ensures forall i, j :: 0 <= i < |AssetExtensions| && 0 <= j < |AssetExtensions[i]| ==>
      AssetExtensions[i][j] != '.'
  {
  }

  /** For a dot-free `e`, ending in "." + `e` is having `e` after the last '.'. */
  lemma EndsWithExtension(pathname: string, e: string)
    requires forall j :: 0 <= j < |e| ==> e[j] != '.'
    ensures EndsWith(pathname, "." + e) <==>
      LastIndexOf(pathname, '.') >= 0 && LastSegment(pathname, '.') == e
  {
    var k := LastIndexOf(pathname, '.');
    if EndsWith(pathname, "." + e) {
      var n := |pathname| - |e| - 1;
      assert pathname == pathname[..n] + ['.'] + e by {
        assert pathname[n..] == "." + e;
      }
      LastSegmentAppend(pathname[..n], '.', e);
      assert pathname[n] == '.';
    }
    if k >= 0 && LastSegment(pathname, '.') == e {
      assert pathname == pathname[..k] + ['.'] + e;
      assert pathname[k..] == "." + e;
    }
  }

  // ---------------------------------------------------------------------
  // The fetch handler
  // ---------------------------------------------------------------------

  /** What the handler does besides answering. */
  datatype Effect =
    | PutRuntime(request: Request, response: Response)   // written to the runtime cache
    | RefreshInBackground(request: Request)              // `updateCache(request)` kept alive

  /** The handler's verdict on one fetch event. */
  datatype Handled =
    | PassThrough                                        // no `respondWith`: the browser fetches
    | Answer(response: Option<Response>, effects: seq<Effect>)
    | Rejected(error: Thrown)

  /**
   * The fetch handler for a request, given the cache's match for it, the
   * network's answer, and the cache's match for '/'.
   */
  function HandleFetch(r: Request, cached: Option<Response>, network: Result<Response, Thrown>,
                       cachedRoot: Option<Response>): (h: Handled)
    ensures h.PassThrough? <==> Bypassed(r)
    ensures !Bypassed(r) && cached.Some? ==>
      h == Answer(cached, if AcceptsHtml(r) then [RefreshInBackground(r)] else [])
    ensures h.Rejected? <==> !Bypassed(r) && cached.None? && network.Err? && r.mode != "navigate"
    ensures h.Answer? && cached.None? && network.Err? ==> h.response == cachedRoot && h.effects == []
    ensures h.Answer? ==> forall e :: e in h.effects && e.PutRuntime? ==>
      e.request == r && e.response.status == 200 && ShouldCache(r)
    ensures !Bypassed(r) && cached.None? && network.Ok? ==>
      h.Answer? && h.response == Some(network.value)
      && (PutRuntime(r, network.value) in h.effects <==> network.value.status == 200 && ShouldCache(r))
      && forall e :: e in h.effects ==> e == PutRuntime(r, network.value)
  {
    if Bypassed(r) then PassThrough
    else if cached.Some? then
      Answer(cached, if AcceptsHtml(r) then [RefreshInBackground(r)] else [])
    else
      match network
      case Ok(response) =>
        Answer(Some(response), if response.status == 200 && ShouldCache(r) then [PutRuntime(r, response)] else [])
      case Err(e) =>
        if r.mode == "navigate" then Answer(cachedRoot, []) else Rejected(e)
  }

  /** `updateCache(request)`: a 200 answer is written to the runtime cache; anything else is dropped. */
  function UpdateCache(r: Request, network: Result<Response, Thrown>): (w: Option<Effect>)
    ensures w.Some? <==> network.Ok? && network.value.status == 200
    ensures w.Some? ==> w.value == PutRuntime(r, network.value)
  {
    if network.Ok? && network.value.status == 200 then Some(PutRuntime(r, network.value)) else None
  }

  /**
   * The background refresh does not test `shouldCache` itself, but it is
   * only started for HTML requests, which `shouldCache` accepts: every
   * runtime-cache write, direct or in the background, is a 200 answer to a
   * cacheable request.
   */
  lemma RefreshWritesCacheable(r: Request, cached: Option<Response>, network: Result<Response, Thrown>,
                               cachedRoot: Option<Response>, later: Result<Response, Thrown>)
    requires HandleFetch(r, cached, network, cachedRoot).Answer?
    requires RefreshInBackground(r) in HandleFetch(r, cached, network, cachedRoot).effects
    ensures UpdateCache(r, later).Some? ==>
      UpdateCache(r, later).value.response.status == 200 && ShouldCache(r)
  {
  }

  // ---------------------------------------------------------------------
  // Font hosts and the bypass
  // ---------------------------------------------------------------------

  /** Every request to fonts.googleapis.com is bypassed: the font rule never sees that host. */
  lemma GoogleapisFontsBypassed(r: Request)
    requires r.url.hostname == "fonts.googleapis.com"
    ensures Bypassed(r)
    ensures HandleFetch(r, None, Err(NonError), None).PassThrough?
  {
    ContainsAt(r.url.hostname, "googleapis.com", 6);
  }

  /** A GET to fonts.gstatic.com is handled, and cacheable by the font rule alone. */
  lemma GstaticFontsHandled(r: Request)
    requires r.url.hostname == "fonts.gstatic.com"
    requires r.verb == "GET" && r.url.protocol == "https:"
    ensures !Bypassed(r)
    ensures ShouldCache(r)
  {
    GstaticNotBackend();
  }

  /** fonts.gstatic.com matches none of the backend host fragments. */
  lemma GstaticNotBackend()
    ensures !BackendHost("fonts.gstatic.com")
  {
    var h := "fonts.gstatic.com";
    assert 'u' !in h by { assert forall i :: 0 <= i < |h| ==> h[i] != 'u'; }
    assert 'r' !in h by { assert forall i :: 0 <= i < |h| ==> h[i] != 'r'; }
    assert 'l' !in h by { assert forall i :: 0 <= i < |h| ==> h[i] != 'l'; }
    Lacks(h, "supabase.co", 'u');
    Lacks(h, "supabase.in", 'u');
    Lacks(h, "firebase.com", 'r');
    Lacks(h, "googleapis.com", 'l');
  }

  /** A string lacking a character of `sub` does not contain `sub`. */
  lemma Lacks(s: string, sub: string, c: char)
    requires c in sub && c !in s
    ensures !Contains(s, sub)
  {
    if Contains(s, sub) {
      ContainsChar(s, sub, c);
    }
  }

  /** Among handled requests, the font rule can only apply to fonts.gstatic.com. */
  lemma FontRuleReachesOnlyGstatic(r: Request)
    requires !Bypassed(r)
    requires r.url.hostname in FontHosts
    ensures r.url.hostname == "fonts.gstatic.com"
  {
    if r.url.hostname == "fonts.googleapis.com" {
      GoogleapisFontsBypassed(r);
      assert false;
    }
  }

  // ---------------------------------------------------------------------
  // Activation
  // ---------------------------------------------------------------------

  predicate Current(name: string) {
    name == CacheName || name == RuntimeCache
  }

  /** The caches `activate` deletes: every name other than the two current ones, in order. */
  function StaleCaches(names: seq<string>): (r: seq<string>)
    ensures forall i :: 0 <= i < |r| ==> !Current(r[i])
  {
    Filter(names, (n: string) => n != CacheName && n != RuntimeCache)
  }

  /** The caches that survive activation. */
  function Surviving(names: seq<string>): seq<string> {
    Filter(names, Current)
  }

  /** A cache is deleted exactly when it exists and is not current. */
  lemma StaleMember(names: seq<string>, x: string)
    ensures x in StaleCaches(names) <==> x in names && !Current(x)
  {
    FilterMember(names, (n: string) => n != CacheName && n != RuntimeCache, x);
  }

  /** After one activation there is nothing left to delete. */
  lemma ActivationIdempotent(names: seq<string>)
    ensures StaleCaches(Surviving(names)) == []
  {
    var s := StaleCaches(Surviving(names));
    if |s| > 0 {
      StaleMember(Surviving(names), s[0]);
      FilterMember(names, Current, s[0]);
      assert false;
    }
  }
}
