/**
 * The proxy's handling of one request as the source performs it, on objects whose
 * fields change: the request (`req.method`, `req.url`, `req.headers`), the request
 * state `req.corsProxyRequestState`, the reply to the client and each upstream
 * response. Every method is proved against the functions of modules Cors,
 * Redirects and Admission, which carry the properties.
 */
module Proxy {
  import opened Wrappers
  import opened JsStrings
  import opened Headers
  import opened TargetUrl
  import opened Cors
  import opened Redirects
  import opened Admission
  import opened RateLimit

  /** `req.corsProxyRequestState`. */
  class RequestState {
    const getProxyForUrl: string -> string
    const maxRedirects: int
    const corsMaxAge: int
    var location: Location
    /** `redirectCount_`, 0 standing for unset. */
    var redirectCount: nat
    var proxyBaseUrl: string

    /** The state the handler creates before any check (src/proxy.ts:224-228). */
    constructor (getProxyForUrl: string -> string, maxRedirects: int, corsMaxAge: int, location: Location)
      ensures this.getProxyForUrl == getProxyForUrl && this.maxRedirects == maxRedirects && this.corsMaxAge == corsMaxAge
      ensures this.location == location && redirectCount == 0 && proxyBaseUrl == ""
    {
      this.getProxyForUrl := getProxyForUrl;
      this.maxRedirects := maxRedirects;
      this.corsMaxAge := corsMaxAge;
      this.location := location;
      redirectCount := 0;
      proxyBaseUrl := "";
    }
  }

  /** The incoming request: its method, path and headers change as it is proxied. */
  class Request {
    var verb: string
    var url: string
    var headers: HeaderMap
    const encrypted: bool
    var state: RequestState?

    constructor (verb: string, url: string, headers: HeaderMap, encrypted: bool)
      ensures this.verb == verb && this.url == url && this.headers == headers && this.encrypted == encrypted
      ensures state == null
    {
      this.verb := verb;
      this.url := url;
      this.headers := headers;
      this.encrypted := encrypted;
      state := null;
    }
  }

  /** The reply to the client, with the headers set on it by `res.setHeader` (names in lower case). */
  class ClientResponse {
    var headers: HeaderMap

    constructor ()
      ensures headers == []
    {
      headers := [];
    }
  }

  /** A response of the upstream server: its status and its headers, which the proxy rewrites. */
  class UpstreamResponse {
    const status: int
    var headers: HeaderMap

    constructor (status: int, headers: HeaderMap)
      ensures this.status == status && this.headers == headers
    {
      this.status := status;
      this.headers := headers;
    }
  }

  /** The request as the handler's checks see it. */
  function ViewOf(req: Request): IncomingRequest
    reads req
  {
    IncomingRequest(req.verb, req.url, req.headers, req.encrypted)
  }

  /** The request state and the request and reply headers, as one hop of module Redirects sees them. */
  function ExchangeOf(req: Request, res: ClientResponse): Exchange
    requires req.state != null
    reads req, req.state, res
  {
    Exchange(req.state.location, req.state.redirectCount, req.verb, req.headers, res.headers)
  }

  function PolicyOf(st: RequestState): Policy
    reads st
  {
    Policy(st.maxRedirects, st.corsMaxAge, st.proxyBaseUrl)
  }

  /** The library calls of a hop on the platform: `url.resolve` and the proxy's own `parseURL`. */
  function HopCallsOf(p: Platform): HopCalls {
    HopCalls(p.urlResolve, s => ParseUrl(s, p))
  }

  /** `withCORS(headers, req)` (src/proxy.ts:58-76): returns the completed headers and strips the preflight headers from `req`. */
  method WithCors(headers: HeaderMap, req: Request) returns (r: HeaderMap)
    requires req.state != null
    modifies req
    ensures req.verb == old(req.verb) && req.url == old(req.url) && req.state == old(req.state)
    ensures var c := CorsHeaders(headers, old(req.verb), old(req.headers), req.state.corsMaxAge);
      r == c.response && req.headers == c.request
  {
    r := Set(headers, AllowOrigin, "*");
    var corsMaxAge := req.state.corsMaxAge;
    if req.verb == OptionsVerb && corsMaxAge != 0 {
      r := Set(r, MaxAge, IntToString(corsMaxAge));
    }
    if Truthy(req.headers, RequestMethod) {
      r := Set(r, AllowMethods, Get(req.headers, RequestMethod).value);
      req.headers := Delete(req.headers, RequestMethod);
    }
    if Truthy(req.headers, RequestHeaders) {
      r := Set(r, AllowHeaders, Get(req.headers, RequestHeaders).value);
      req.headers := Delete(req.headers, RequestHeaders);
    }
    r := Set(r, ExposeHeaders, Join(Names(r), ","));
  }

  /** Where `proxy.web` sends a request: to the target itself or to the proxy `getProxyForUrl` names for it. */
  datatype Upstream = Direct(location: Location) | ViaProxy(proxyUrl: string)

  /** The options of src/proxy.ts:147-182 that decide where the request goes and what it asks for. */
  datatype Route = Route(target: Upstream, toProxy: bool, hostHeader: Option<string>, url: string)

  /** `proxyRequest`'s choice of upstream and request line for the target `loc`. */
  function RouteFor(loc: Location, getProxyForUrl: string -> string): Route {
    var through := getProxyForUrl(loc.href);
    if through != "" then Route(ViaProxy(through), true, loc.host, loc.href)
    else Route(Direct(loc), false, loc.host, loc.path)
  }

  /**
   * A request goes to the target with its path exactly when no upstream proxy is
   * configured for it; towards a proxy its request line is the absolute URL. The
   * `Host` header is the target's either way.
   */
  lemma RouteChoice(loc: Location, getProxyForUrl: string -> string)
    ensures var r := RouteFor(loc, getProxyForUrl);
      && (r.target.Direct? <==> getProxyForUrl(loc.href) == "")
      && r.toProxy == r.target.ViaProxy?
      && r.url == (if r.toProxy then loc.href else loc.path)
      && (r.target.Direct? ==> r.target.location == loc)
      && r.hostHeader == loc.host
  {
  }

  /** `proxyRequest` up to `proxy.web` (src/proxy.ts:143-182): sets the request line and returns the route. */
  method ProxyRequest(req: Request) returns (route: Route)
    requires req.state != null
    modifies req
    ensures req.verb == old(req.verb) && req.headers == old(req.headers) && req.state == old(req.state)
    ensures route == RouteFor(req.state.location, req.state.getProxyForUrl)
    ensures req.url == route.url
  {
    var location := req.state.location;
    req.url := location.path;
    route := Route(Direct(location), false, location.host, location.path);
    var proxyThroughUrl := req.state.getProxyForUrl(location.href);
    if proxyThroughUrl != "" {
      route := route.(target := ViaProxy(proxyThroughUrl), toProxy := true);
      req.url := location.href;
      route := route.(url := location.href);
    }
  }

  /**
   * `onProxyResponse` (src/proxy.ts:96-141) for the upstream response `up`: either
   * follows the redirect, sending the request again to the new target, or rewrites
   * `up`'s headers for delivery.
   */
  method OnProxyResponse(calls: HopCalls, up: UpstreamResponse, req: Request, res: ClientResponse) returns (delivered: bool)
    requires req.state != null
    modifies req, req.state, res, up
    ensures req.state == old(req.state) && PolicyOf(req.state) == old(PolicyOf(req.state))
    ensures delivered ==>
      OnResponse(calls, old(PolicyOf(req.state)), old(ExchangeOf(req, res)), up.status, old(up.headers)) == Delivered(ExchangeOf(req, res), up.headers)
    ensures !delivered ==>
      && OnResponse(calls, old(PolicyOf(req.state)), old(ExchangeOf(req, res)), up.status, old(up.headers)) == Followed(ExchangeOf(req, res))
      && up.headers == old(up.headers)
      && req.url == RouteFor(req.state.location, req.state.getProxyForUrl).url
    ensures delivered ==> req.url == old(req.url)
  {
    var st := req.state;
    ghost var pol := PolicyOf(st);
    ghost var x := ExchangeOf(req, res);
    var statusCode := up.status;
    if st.redirectCount == 0 {
      res.headers := Set(res.headers, RequestUrl, st.location.href);
    }
    var resolved, parsedLocation := LocateRedirect(calls, x, statusCode, st.location.href, up.headers);
    if parsedLocation.Some? && ChangesMethod(statusCode) {
      st.redirectCount := st.redirectCount + 1;
      if st.redirectCount <= st.maxRedirects {
        FollowTo(calls, pol, x, up.headers, req, res, statusCode, resolved, parsedLocation.value);
        return false;
      }
    }
    Deliver(calls, pol, x, up, req, res, resolved, parsedLocation);
    delivered := true;
  }

  /**
   * A followed redirect (src/proxy.ts:115-128): the diagnostic header for redirect
   * number `redirectCount`, a bodiless GET, the new target, and the request sent again.
   */
  method FollowTo(ghost calls: HopCalls, ghost pol: Policy, ghost x: Exchange, ghost upstream: HeaderMap,
                  req: Request, res: ClientResponse, statusCode: int, resolved: string, target: Location)
    requires req.state != null && pol == PolicyOf(req.state)
    requires Follows(calls, pol, x, statusCode, upstream)
    requires RedirectTarget(calls, x, statusCode, upstream) == Some((resolved, target))
    requires ExchangeOf(req, res) == x.(redirectCount := x.redirectCount + 1, clientHeaders := WithRequestUrl(x))
    modifies req, req.state, res
    ensures req.state == old(req.state) && PolicyOf(req.state) == pol
    ensures OnResponse(calls, pol, x, statusCode, upstream) == Followed(ExchangeOf(req, res))
    ensures req.url == RouteFor(target, req.state.getProxyForUrl).url
  {
    res.headers := Set(res.headers, RedirectHeader(req.state.redirectCount), IntToString(statusCode) + " " + resolved);
    req.verb := "GET";
    req.headers := Set(req.headers, ContentLength, "0");
    req.headers := Delete(req.headers, ContentType);
    req.state.location := target;
    var _ := ProxyRequest(req);
    ghost var y := x.(
      redirectCount := x.redirectCount + 1,
      location := target,
      verb := "GET",
      requestHeaders := Delete(Set(x.requestHeaders, ContentLength, "0"), ContentType),
      clientHeaders := Set(WithRequestUrl(x), RedirectHeader(x.redirectCount + 1), IntToString(statusCode) + " " + resolved));
    assert ExchangeOf(req, res) == y;
    FollowedTo(calls, pol, x, statusCode, upstream, resolved, target);
  }

  /**
   * A delivered response (src/proxy.ts:130-140): `Location` routed through the proxy
   * when the redirect had a usable target, the cookies dropped, `x-final-url` set and
   * the CORS headers added, which also strips the preflight headers from `req`.
   */
  method Deliver(ghost calls: HopCalls, ghost pol: Policy, ghost x: Exchange,
                 up: UpstreamResponse, req: Request, res: ClientResponse, resolved: string, parsedLocation: Option<Location>)
    requires req.state != null && pol == PolicyOf(req.state)
    requires !Follows(calls, pol, x, up.status, up.headers)
    requires parsedLocation.Some? <==> RedirectTarget(calls, x, up.status, up.headers).Some?
    requires parsedLocation.Some? ==> RedirectTarget(calls, x, up.status, up.headers).value.0 == resolved
    requires ExchangeOf(req, res) == x.(redirectCount := CountAfter(calls, x, up.status, up.headers), clientHeaders := WithRequestUrl(x))
    modifies up, req
    ensures req.state == old(req.state) && req.verb == old(req.verb) && req.url == old(req.url)
    ensures OnResponse(calls, pol, x, up.status, old(up.headers)) == Delivered(ExchangeOf(req, res), up.headers)
  {
    ghost var upstream := up.headers;
    if parsedLocation.Some? {
      up.headers := Set(up.headers, LocationHeader, req.state.proxyBaseUrl + "/" + resolved);
    }
    up.headers := Delete(up.headers, SetCookie);
    up.headers := Delete(up.headers, SetCookie2);
    up.headers := Set(up.headers, FinalUrl, req.state.location.href);
    assert up.headers == BeforeCors(calls, pol, x, up.status, upstream);
    up.headers := WithCors(up.headers, req);
    DeliveredShape(calls, pol, x, up.status, upstream);
  }

  /** src/proxy.ts:105-111: the `Location` of a redirect resolved against the current target and parsed. */
  method LocateRedirect(calls: HopCalls, ghost x: Exchange, statusCode: int, href: string, upstream: HeaderMap)
    returns (resolved: string, parsedLocation: Option<Location>)
    requires href == x.location.href
    ensures parsedLocation.Some? <==> RedirectTarget(calls, x, statusCode, upstream).Some?
    ensures parsedLocation.Some? ==> RedirectTarget(calls, x, statusCode, upstream).value == (resolved, parsedLocation.value)
  {
    resolved := "";
    parsedLocation := None;
    if IsRedirect(statusCode) {
      if Truthy(upstream, LocationHeader) {
        resolved := calls.resolve(href, Get(upstream, LocationHeader).value);
        parsedLocation := calls.parse(resolved);
      }
    }
  }

  /** How the exchange ended: delivered with the response's headers, or out of upstream responses while following redirects. */
  datatype Outcome = Outcome(delivered: bool, headers: HeaderMap)

  /**
   * The recursion through `proxyRequest` as a loop: each upstream response in turn
   * goes through `onProxyResponse` until one is delivered.
   */
  method FollowRedirects(p: Platform, req: Request, res: ClientResponse, responses: seq<(int, HeaderMap)>) returns (outcome: Outcome)
    requires req.state != null
    modifies req, req.state, res
    ensures req.state == old(req.state)
    ensures var r := RunChain(HopCallsOf(p), old(PolicyOf(req.state)), old(ExchangeOf(req, res)), responses);
      && outcome.delivered == r.ChainDelivered?
      && ExchangeOf(req, res) == r.x
      && (outcome.delivered ==> outcome.headers == r.headers)
  {
    var calls := HopCallsOf(p);
    ghost var pol := PolicyOf(req.state);
    ghost var goal := RunChain(calls, pol, ExchangeOf(req, res), responses);
    var i := 0;
    while i < |responses|
      invariant 0 <= i <= |responses|
      invariant req.state == old(req.state) && PolicyOf(req.state) == pol
      invariant RunChain(calls, pol, ExchangeOf(req, res), responses[i..]) == goal
    {
      var up := new UpstreamResponse(responses[i].0, responses[i].1);
      ghost var before := ExchangeOf(req, res);
      assert responses[i..][1..] == responses[i + 1..];
      var delivered := OnProxyResponse(calls, up, req, res);
      if delivered {
        return Outcome(true, up.headers);
      }
      i := i + 1;
    }
    outcome := Outcome(false, []);
  }

  /**
   * The answer of the rate-limit callback to the handler and the table the
   * limiter is left with: the limiter is asked exactly when the request reaches the
   * callback and a limiter is configured.
   */
  ghost predicate RateOutcome(c: Calls, o: Options, view: IncomingRequest, limiter: RateLimiter?, before: map<string, nat>, answer: Option<string>)
    reads limiter
  {
    if limiter != null && ReachesRateCheck(c, o, view) then
      (answer, limiter.accessedHosts) == Decide(limiter.limit, before, Origin(Seen(c, view).headers))
    else answer.None? && (limiter != null ==> limiter.accessedHosts == before)
  }

  /**
   * The handler of `getHandler` (src/proxy.ts:223-323) for `req`, with the optional
   * rate limiter standing for `checkRateLimit`. Its decision is `Admission.Handle`'s
   * for the request as it arrived and what the limiter answers; a forwarded request
   * leaves with the rewritten headers, a fresh request state pointing at the target,
   * and the request line `proxyRequest` chose. `portAsWritten` chooses the port
   * check, as `Admission.Calls` says: `true` is the string comparison of the source.
   */
  method HandleRequest(p: Platform, o: Options, portAsWritten: bool, req: Request, limiter: RateLimiter?) returns (d: Decision, ghost answer: Option<string>)
    modifies req, limiter
    ensures var c := PlatformCalls(p, o.corsMaxAge, portAsWritten);
      && RateOutcome(c, o, old(ViewOf(req)), limiter, old(if limiter != null then limiter.accessedHosts else map[]), answer)
      && d == Handle(c, o, old(ViewOf(req)), answer)
    ensures req.state != null && fresh(req.state)
    ensures req.state.maxRedirects == o.maxRedirects && req.state.corsMaxAge == o.corsMaxAge
    ensures req.state.getProxyForUrl == o.getProxyForUrl && req.state.redirectCount == 0
    ensures d.Forward? ==>
      && req.headers == d.headers
      && req.state.location == d.location && req.state.proxyBaseUrl == d.proxyBaseUrl
      && req.url == RouteFor(d.location, o.getProxyForUrl).url
    ensures !d.Forward? ==> req.headers == Seen(PlatformCalls(p, o.corsMaxAge, portAsWritten), old(ViewOf(req))).headers
  {
    ghost var c := PlatformCalls(p, o.corsMaxAge, portAsWritten);
    ghost var view := ViewOf(req);
    ghost var table := if limiter != null then limiter.accessedHosts else map[];
    answer := None;
    var st := new RequestState(o.getProxyForUrl, o.maxRedirects, o.corsMaxAge, Location(None, None, "", None, "", ""));
    req.state := st;
    var corsHeaders := WithCors([], req);
    assert corsHeaders == c.withCors(view.verb, view.headers).response;
    assert ViewOf(req) == Seen(c, view);
    if req.verb == OptionsVerb {
      return Reply(200, "", corsHeaders, ""), answer;
    }
    var location := ParseUrl(Slice1(req.url), p);
    assert location == c.parse(Slice1(view.url));
    if Claims(o, ViewOf(req), location) {
      return Claimed, answer;
    }
    d, answer := TargetStep(c, p, o, portAsWritten, req, location, corsHeaders, limiter);
  }

  /**
   * The handler from the parsed target on (src/proxy.ts:243-270): the answer for a
   * path without a target, the checks on the target, then `Admit`.
   */
  method TargetStep(ghost c: Calls, p: Platform, o: Options, portAsWritten: bool, req: Request, location: Option<Location>, cors: HeaderMap, limiter: RateLimiter?)
    returns (d: Decision, ghost answer: Option<string>)
    requires req.state != null && c == PlatformCalls(p, o.corsMaxAge, portAsWritten)
    modifies req, req.state, limiter
    ensures req.state == old(req.state)
    ensures limiter != null && location.Some? && PassesTargetChecks(c, old(req.url), location.value) && PassesOriginChecks(o, old(req.headers)) ==>
      (answer, limiter.accessedHosts) == Decide(limiter.limit, old(limiter.accessedHosts), Origin(old(req.headers)))
    ensures !(limiter != null && location.Some? && PassesTargetChecks(c, old(req.url), location.value) && PassesOriginChecks(o, old(req.headers))) ==>
      answer.None? && (limiter != null ==> limiter.accessedHosts == old(limiter.accessedHosts))
    ensures d == match location
      case None => NoTarget(old(req.url), cors)
      case Some(loc) => CheckTarget(c, o, old(ViewOf(req)), loc, cors, answer)
    ensures req.state.maxRedirects == old(req.state.maxRedirects) && req.state.corsMaxAge == old(req.state.corsMaxAge)
    ensures req.state.getProxyForUrl == old(req.state.getProxyForUrl) && req.state.redirectCount == old(req.state.redirectCount)
    ensures d.Forward? ==>
      && req.headers == d.headers
      && req.state.location == d.location && req.state.proxyBaseUrl == d.proxyBaseUrl
      && req.url == RouteFor(d.location, req.state.getProxyForUrl).url
    ensures !d.Forward? ==> req.headers == old(req.headers)
  {
    answer := None;
    if location.None? {
      if MissingSlash(req.url) {
        return Reply(400, MissingSlashReason, cors, MissingSlashBody), answer;
      }
      return Reply(200, "", [(ContentTypeField, TextPlain)], OkBody), answer;
    }
    var loc := location.value;
    if loc.host == Some(CorsNeededHost) {
      return Reply(200, "", [(ContentTypeField, TextPlain)], NoBody), answer;
    }
    if RefusesPort(portAsWritten, loc.port) {
      return Reply(400, InvalidPortReason, cors, PortTooLargeBody + loc.port.value), answer;
    }
    if !NamesScheme(req.url) && !IsValidHostName(p, loc.hostname) {
      return Reply(404, InvalidHostReason, cors, InvalidHostBody + loc.hostname), answer;
    }
    d, answer := Admit(o, req, loc, cors, limiter);
  }

  /**
   * The second half of the handler (src/proxy.ts:272-322), for a request whose
   * target `loc` passed the target checks: the header and origin checks, the rate
   * limit, the same-origin redirect, and the forwarded request.
   */
  method Admit(o: Options, req: Request, loc: Location, cors: HeaderMap, limiter: RateLimiter?) returns (d: Decision, ghost answer: Option<string>)
    requires req.state != null
    modifies req, req.state, limiter
    ensures req.state == old(req.state)
    ensures limiter != null && PassesOriginChecks(o, old(req.headers)) ==>
      (answer, limiter.accessedHosts) == Decide(limiter.limit, old(limiter.accessedHosts), Origin(old(req.headers)))
    ensures !(limiter != null && PassesOriginChecks(o, old(req.headers))) ==>
      answer.None? && (limiter != null ==> limiter.accessedHosts == old(limiter.accessedHosts))
    ensures d == CheckOrigin(o, old(ViewOf(req)), loc, cors, answer)
    ensures req.state.maxRedirects == old(req.state.maxRedirects) && req.state.corsMaxAge == old(req.state.corsMaxAge)
    ensures req.state.getProxyForUrl == old(req.state.getProxyForUrl) && req.state.redirectCount == old(req.state.redirectCount)
    ensures d.Forward? ==>
      && req.headers == d.headers
      && req.state.location == d.location && req.state.proxyBaseUrl == d.proxyBaseUrl
      && req.url == RouteFor(d.location, req.state.getProxyForUrl).url
    ensures !d.Forward? ==> req.headers == old(req.headers)
  {
    answer := None;
    var required := NormalizeRequireHeader(o.requireHeader);
    if !HasRequiredHeaders(required, req.headers) {
      return Reply(400, HeaderRequiredReason, cors, HeaderRequiredBody + Join(required.value, ",")), answer;
    }
    var origin := Origin(req.headers);
    if origin in o.originBlacklist {
      return Reply(403, ForbiddenReason, cors, OriginPrefix + origin + BlacklistedTail), answer;
    }
    if |o.originWhitelist| != 0 && origin !in o.originWhitelist {
      return Reply(403, ForbiddenReason, cors, OriginPrefix + origin + NotWhitelistedTail), answer;
    }
    var rateLimitMessage := None;
    if limiter != null {
      rateLimitMessage := limiter.Check(origin);
    }
    answer := rateLimitMessage;
    if RateLimited(rateLimitMessage) {
      return Reply(429, TooManyReason, cors, OriginPrefix + origin + TooManyTail + rateLimitMessage.value), answer;
    }
    if o.redirectSameOrigin && SameOrigin(loc.href, origin) {
      var h := Set(cors, VaryHeader, OriginHeader);
      h := Set(h, CacheControlHeader, Private);
      h := Set(h, LocationField, loc.href);
      return Reply(301, DirectRequestReason, h, ""), answer;
    }
    var proxyBaseUrl := ProxyBaseUrl(req.encrypted, req.headers);
    RemoveHeaders(req, o.removeHeaders);
    InjectHeaders(req, o.setHeaders);
    req.state.location := loc;
    req.state.proxyBaseUrl := proxyBaseUrl;
    var _ := ProxyRequest(req);
    d := Forward(loc, proxyBaseUrl, req.headers);
  }

  /** `removeHeaders.forEach(header => { delete req.headers[header]; })` (src/proxy.ts:311-313). */
  method RemoveHeaders(req: Request, names: seq<string>)
    modifies req
    ensures req.verb == old(req.verb) && req.url == old(req.url) && req.state == old(req.state)
    ensures req.headers == DeleteAll(old(req.headers), names)
  {
    ghost var h0 := req.headers;
    var i := 0;
    while i < |names|
      invariant 0 <= i <= |names|
      invariant req.verb == old(req.verb) && req.url == old(req.url) && req.state == old(req.state)
      invariant DeleteAll(req.headers, names[i..]) == DeleteAll(h0, names)
    {
      assert names[i..][1..] == names[i + 1..];
      req.headers := Delete(req.headers, names[i]);
      i := i + 1;
    }
  }

  /**
   * `Object.keys(setHeaders).forEach(header => { req.headers[header] = setHeaders[header]; })`
   * (src/proxy.ts:315-317), over the properties of `values` in order.
   */
  method InjectHeaders(req: Request, values: HeaderMap)
    modifies req
    ensures req.verb == old(req.verb) && req.url == old(req.url) && req.state == old(req.state)
    ensures req.headers == SetAll(old(req.headers), values)
  {
    ghost var h0 := req.headers;
    var j := 0;
    while j < |values|
      invariant 0 <= j <= |values|
      invariant req.verb == old(req.verb) && req.url == old(req.url) && req.state == old(req.state)
      invariant SetAll(req.headers, values[j..]) == SetAll(h0, values)
    {
      assert values[j..][1..] == values[j + 1..];
      req.headers := Set(req.headers, values[j].0, values[j].1);
      j := j + 1;
    }
  }
}
