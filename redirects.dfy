/**
 * `onProxyResponse` (src/proxy.ts:96-141): what the proxy does with each response of
 * the upstream server. A 301, 302 or 303 whose `Location` resolves to a parseable
 * target is followed with a GET (the method change that sections 15.4.2 to 15.4.4 of
 * RFC 9110 allow) while the redirect count stays within `maxRedirects`; a 307 or 308
 * (sections 15.4.8 and 15.4.9) and a redirect over the limit are delivered with their
 * `Location` routed back through the proxy. This module states one hop and a chain of
 * hops as functions; the class-based steps in module Proxy are proved against them.
 */
module Redirects {
  import opened Wrappers
  import opened JsStrings
  import opened Headers
  import opened TargetUrl
  import opened Cors

  /**
   * The state one proxied exchange carries from hop to hop: the request state's
   * `location` and `redirectCount_` (0 standing for unset), the method and headers of
   * the client's request, and the headers already set on the reply to the client
   * (kept with lower-case names, as Node matches them ignoring case).
   */
  datatype Exchange = Exchange(
    location: Location,
    redirectCount: nat,
    verb: string,
    requestHeaders: HeaderMap,
    clientHeaders: HeaderMap)

  /**
   * The library calls a hop makes: `url.resolve` and the proxy's own `parseURL`
   * (`TargetUrl.ParseUrl` on the platform), kept apart so that the
   * redirect logic is stated for any parser.
   */
  datatype HopCalls = HopCalls(resolve: (string, string) -> string, parse: string -> Option<Location>)

  /** The parts of the request state fixed for the whole exchange. */
  datatype Policy = Policy(maxRedirects: int, corsMaxAge: int, proxyBaseUrl: string)

  /** What `onProxyResponse` decides: follow the redirect (`false`) or deliver the response with these headers (`true`). */
  datatype HopResult =
    | Followed(x: Exchange)
    | Delivered(x: Exchange, headers: HeaderMap)

  const LocationHeader := "location"
  const SetCookie := "set-cookie"
  const SetCookie2 := "set-cookie2"
  const FinalUrl := "x-final-url"
  const RequestUrl := "x-request-url"
  const ContentLength := "content-length"
  const ContentType := "content-type"

  /** The header names a hop writes or deletes differ from each other and from the CORS response headers. */
  lemma HeaderNamesDistinct()
    ensures LocationHeader != SetCookie && LocationHeader != SetCookie2 && LocationHeader != FinalUrl
    ensures SetCookie != SetCookie2 && SetCookie != FinalUrl && SetCookie2 != FinalUrl
    ensures ContentLength != ContentType
    ensures !IsCorsName(LocationHeader) && !IsCorsName(SetCookie) && !IsCorsName(SetCookie2) && !IsCorsName(FinalUrl)
  {
    assert |LocationHeader| == 8 && |SetCookie| == 10 && |SetCookie2| == 11 && |FinalUrl| == 11;
    assert SetCookie2[0] != FinalUrl[0] && ContentLength[8] != ContentType[8];
    assert |AllowOrigin| == 27 && |MaxAge| == 22 && |AllowMethods| == 28 && |AllowHeaders| == 28 && |ExposeHeaders| == 29;
  }

  /** The statuses whose `Location` is looked at. */
  predicate IsRedirect(status: int) {
    status == 301 || status == 302 || status == 303 || status == 307 || status == 308
  }

  /** The statuses that are followed. */
  predicate ChangesMethod(status: int) {
    status == 301 || status == 302 || status == 303
  }

  /** The diagnostic header written for the `n`-th followed redirect, `X-CORS-Redirect-<n>`. */
  function RedirectHeader(n: nat): string {
    "x-cors-redirect-" + NatToString(n)
  }

  /** Different redirects get different diagnostic headers, none of them `x-request-url`. */
  lemma RedirectHeaderInjective(m: nat, n: nat)
    ensures RedirectHeader(m) == RedirectHeader(n) ==> m == n
    ensures RedirectHeader(n) != RequestUrl
  {
    var p := "x-cors-redirect-";
    if RedirectHeader(m) == RedirectHeader(n) {
      assert NatToString(m) == RedirectHeader(m)[|p|..];
      assert NatToString(n) == RedirectHeader(n)[|p|..];
      NatToStringInjective(m, n);
    }
    assert RedirectHeader(n)[2] == 'c' && RequestUrl[2] == 'r';
  }

  /** The redirect target as the proxy sees it: `Location` resolved against the current URL, when present and non-empty. */
  function ResolvedLocation(p: HopCalls, x: Exchange, upstream: HeaderMap): (r: Option<string>)
    ensures r.Some? <==> Truthy(upstream, LocationHeader)
  {
    if Truthy(upstream, LocationHeader) then Some(p.resolve(x.location.href, Get(upstream, LocationHeader).value))
    else None
  }

  /** The `Location` the client sees instead of `target`: the target behind the proxy's own address. */
  function ThroughProxy(pol: Policy, target: string): string {
    pol.proxyBaseUrl + "/" + target
  }

  /** The target of a redirect: its `Location` resolved and parsed, when the status is a redirect and both succeed. */
  function RedirectTarget(p: HopCalls, x: Exchange, status: int, upstream: HeaderMap): (r: Option<(string, Location)>)
    ensures r.Some? <==> IsRedirect(status) && Truthy(upstream, LocationHeader) && p.parse(ResolvedLocation(p, x, upstream).value).Some?
    ensures r.Some? ==> ResolvedLocation(p, x, upstream) == Some(r.value.0) && p.parse(r.value.0) == Some(r.value.1)
  {
    var resolved := ResolvedLocation(p, x, upstream);
    if !IsRedirect(status) || resolved.None? then None
    else match p.parse(resolved.value)
      case None => None
      case Some(target) => Some((resolved.value, target))
  }

  /** The headers of the reply to the client once `x-request-url` has been written on the first hop. */
  function WithRequestUrl(x: Exchange): HeaderMap {
    if x.redirectCount == 0 then Set(x.clientHeaders, RequestUrl, x.location.href) else x.clientHeaders
  }

  /** `redirectCount_` after the hop: one more for a 301, 302 or 303 with a usable target. */
  function CountAfter(p: HopCalls, x: Exchange, status: int, upstream: HeaderMap): nat {
    if ChangesMethod(status) && RedirectTarget(p, x, status, upstream).Some? then x.redirectCount + 1 else x.redirectCount
  }

  /** Whether the hop follows the redirect instead of delivering the response. */
  predicate Follows(p: HopCalls, pol: Policy, x: Exchange, status: int, upstream: HeaderMap) {
    ChangesMethod(status) && RedirectTarget(p, x, status, upstream).Some? && x.redirectCount + 1 <= pol.maxRedirects
  }

  /** The response headers of a delivered response before the CORS headers are added: `Location` routed through the proxy when the redirect had a usable target, cookies dropped, `x-final-url` added. */
  function BeforeCors(p: HopCalls, pol: Policy, x: Exchange, status: int, upstream: HeaderMap): HeaderMap {
    var h := match RedirectTarget(p, x, status, upstream)
      case Some(t) => Set(upstream, LocationHeader, ThroughProxy(pol, t.0))
      case None => upstream;
    Set(Delete(Delete(h, SetCookie), SetCookie2), FinalUrl, x.location.href)
  }

  /** `onProxyResponse` for an upstream response with `status` and `upstream` headers. */
  function OnResponse(p: HopCalls, pol: Policy, x: Exchange, status: int, upstream: HeaderMap): (r: HopResult)
    ensures r.x.redirectCount == x.redirectCount || r.x.redirectCount == x.redirectCount + 1
    ensures r.Followed? ==> r.x.redirectCount <= pol.maxRedirects
  {
    var client := WithRequestUrl(x);
    var n := CountAfter(p, x, status, upstream);
    if Follows(p, pol, x, status, upstream) then
      var t := RedirectTarget(p, x, status, upstream).value;
      Followed(x.(
        redirectCount := n,
        location := t.1,
        verb := "GET",
        requestHeaders := Delete(Set(x.requestHeaders, ContentLength, "0"), ContentType),
        clientHeaders := Set(client, RedirectHeader(n), IntToString(status) + " " + t.0)))
    else
      var c := CorsHeaders(BeforeCors(p, pol, x, status, upstream), x.verb, x.requestHeaders, pol.corsMaxAge);
      Delivered(x.(clientHeaders := client, redirectCount := n, requestHeaders := c.request), c.response)
  }

  /** A hop that does not follow delivers the CORS-completed headers of `BeforeCors`. */
  lemma DeliveredShape(p: HopCalls, pol: Policy, x: Exchange, status: int, upstream: HeaderMap)
    requires !Follows(p, pol, x, status, upstream)
    ensures var c := CorsHeaders(BeforeCors(p, pol, x, status, upstream), x.verb, x.requestHeaders, pol.corsMaxAge);
      OnResponse(p, pol, x, status, upstream) ==
        Delivered(x.(clientHeaders := WithRequestUrl(x), redirectCount := CountAfter(p, x, status, upstream), requestHeaders := c.request), c.response)
  {
  }

  /** A hop that follows moves the exchange to the redirect target with a bodiless GET. */
  lemma FollowedShape(p: HopCalls, pol: Policy, x: Exchange, status: int, upstream: HeaderMap)
    requires Follows(p, pol, x, status, upstream)
    ensures var t := RedirectTarget(p, x, status, upstream).value;
      var n := x.redirectCount + 1;
      OnResponse(p, pol, x, status, upstream) ==
        Followed(x.(
          redirectCount := n,
          location := t.1,
          verb := "GET",
          requestHeaders := Delete(Set(x.requestHeaders, ContentLength, "0"), ContentType),
          clientHeaders := Set(WithRequestUrl(x), RedirectHeader(n), IntToString(status) + " " + t.0)))
  {
  }

  /** `FollowedShape` with the redirect target named: `resolved` is the resolved `Location`, `target` its parse. */
  lemma FollowedTo(p: HopCalls, pol: Policy, x: Exchange, status: int, upstream: HeaderMap, resolved: string, target: Location)
    requires Follows(p, pol, x, status, upstream)
    requires RedirectTarget(p, x, status, upstream) == Some((resolved, target))
    ensures OnResponse(p, pol, x, status, upstream) ==
      Followed(x.(
        redirectCount := x.redirectCount + 1,
        location := target,
        verb := "GET",
        requestHeaders := Delete(Set(x.requestHeaders, ContentLength, "0"), ContentType),
        clientHeaders := Set(WithRequestUrl(x), RedirectHeader(x.redirectCount + 1), IntToString(status) + " " + resolved)))
  {
    FollowedShape(p, pol, x, status, upstream);
  }

  /** Before the CORS headers: no cookies, `x-final-url` is the current target, and `location` is rewritten exactly when the redirect had a usable target. */
  lemma BeforeCorsHeaders(p: HopCalls, pol: Policy, x: Exchange, status: int, upstream: HeaderMap)
    ensures var h := BeforeCors(p, pol, x, status, upstream);
      && Get(h, SetCookie) == None
      && Get(h, SetCookie2) == None
      && Get(h, FinalUrl) == Some(x.location.href)
      && Get(h, LocationHeader) == match RedirectTarget(p, x, status, upstream)
        case Some(t) => Some(ThroughProxy(pol, t.0))
        case None => Get(upstream, LocationHeader)
  {
    var h0 := match RedirectTarget(p, x, status, upstream)
      case Some(t) => Set(upstream, LocationHeader, ThroughProxy(pol, t.0))
      case None => upstream;
    var h1 := Delete(h0, SetCookie);
    var h2 := Delete(h1, SetCookie2);
    HeaderNamesDistinct();
    assert Get(h2, SetCookie) == None && Get(h2, LocationHeader) == Get(h0, LocationHeader);
  }

  /**
   * A followed redirect: the count goes up by exactly one and stays within the limit,
   * the diagnostic header for it is written, the request becomes a bodiless GET and the
   * state moves to the parsed target.
   */
  lemma FollowedRedirect(p: HopCalls, pol: Policy, x: Exchange, status: int, upstream: HeaderMap)
    requires OnResponse(p, pol, x, status, upstream).Followed?
    ensures var y := OnResponse(p, pol, x, status, upstream).x;
      var resolved := p.resolve(x.location.href, Get(upstream, LocationHeader).value);
      && ChangesMethod(status) && Truthy(upstream, LocationHeader)
      && y.redirectCount == x.redirectCount + 1 <= pol.maxRedirects
      && p.parse(resolved) == Some(y.location)
      && Get(y.clientHeaders, RedirectHeader(y.redirectCount)) == Some(IntToString(status) + " " + resolved)
      && y.verb == "GET"
      && Get(y.requestHeaders, ContentLength) == Some("0")
      && Get(y.requestHeaders, ContentType) == None
      && (forall name :: name != ContentLength && name != ContentType ==> Get(y.requestHeaders, name) == Get(x.requestHeaders, name))
  {
    FollowedShape(p, pol, x, status, upstream);
    HeaderNamesDistinct();
  }

  /** Exactly the 301, 302 and 303 responses with a parseable target are followed, while the limit allows. */
  lemma FollowedIff(p: HopCalls, pol: Policy, x: Exchange, status: int, upstream: HeaderMap)
    ensures OnResponse(p, pol, x, status, upstream).Followed? <==>
      && ChangesMethod(status)
      && Truthy(upstream, LocationHeader)
      && p.parse(p.resolve(x.location.href, Get(upstream, LocationHeader).value)).Some?
      && x.redirectCount + 1 <= pol.maxRedirects
  {
  }

  /**
   * A 307 or 308, or a 301 to 303 over the limit, with a parseable target is delivered
   * with its `Location` pointing back through the proxy, and the state keeps its target.
   */
  lemma NotFollowedRewritesLocation(p: HopCalls, pol: Policy, x: Exchange, status: int, upstream: HeaderMap)
    requires IsRedirect(status) && Truthy(upstream, LocationHeader)
    requires p.parse(p.resolve(x.location.href, Get(upstream, LocationHeader).value)).Some?
    requires !ChangesMethod(status) || x.redirectCount + 1 > pol.maxRedirects
    ensures var r := OnResponse(p, pol, x, status, upstream);
      && r.Delivered?
      && Get(r.headers, LocationHeader) == Some(ThroughProxy(pol, p.resolve(x.location.href, Get(upstream, LocationHeader).value)))
      && r.x.location == x.location
      && r.x.redirectCount == if ChangesMethod(status) then x.redirectCount + 1 else x.redirectCount
  {
    HeaderNamesDistinct();
    DeliveredShape(p, pol, x, status, upstream);
    BeforeCorsHeaders(p, pol, x, status, upstream);
    CorsKeepsOtherHeaders(BeforeCors(p, pol, x, status, upstream), x.verb, x.requestHeaders, pol.corsMaxAge, LocationHeader);
  }

  /** A response whose `Location` is missing, empty or unparseable keeps that header and the count. */
  lemma UnusableLocationUntouched(p: HopCalls, pol: Policy, x: Exchange, status: int, upstream: HeaderMap)
    requires !Truthy(upstream, LocationHeader) || p.parse(p.resolve(x.location.href, Get(upstream, LocationHeader).value)).None?
    ensures var r := OnResponse(p, pol, x, status, upstream);
      && r.Delivered?
      && Get(r.headers, LocationHeader) == Get(upstream, LocationHeader)
      && r.x.redirectCount == x.redirectCount
      && r.x.location == x.location
  {
    HeaderNamesDistinct();
    DeliveredShape(p, pol, x, status, upstream);
    BeforeCorsHeaders(p, pol, x, status, upstream);
    CorsKeepsOtherHeaders(BeforeCors(p, pol, x, status, upstream), x.verb, x.requestHeaders, pol.corsMaxAge, LocationHeader);
  }

  /**
   * Every delivered response has no cookies, names the URL finally fetched in
   * `x-final-url`, carries the CORS headers of its request, and has dropped the
   * preflight headers from the request.
   */
  lemma DeliveredHeaders(p: HopCalls, pol: Policy, x: Exchange, status: int, upstream: HeaderMap)
    requires OnResponse(p, pol, x, status, upstream).Delivered?
    ensures var r := OnResponse(p, pol, x, status, upstream);
      var c := CorsHeaders(BeforeCors(p, pol, x, status, upstream), r.x.verb, x.requestHeaders, pol.corsMaxAge);
      && r.headers == c.response
      && r.x.requestHeaders == c.request
      && r.x.verb == x.verb
      && Get(r.headers, SetCookie) == None
      && Get(r.headers, SetCookie2) == None
      && Get(r.headers, FinalUrl) == Some(x.location.href)
      && Get(r.headers, AllowOrigin) == Some("*")
  {
    var h := BeforeCors(p, pol, x, status, upstream);
    HeaderNamesDistinct();
    DeliveredShape(p, pol, x, status, upstream);
    BeforeCorsHeaders(p, pol, x, status, upstream);
    CorsKeepsOtherHeaders(h, x.verb, x.requestHeaders, pol.corsMaxAge, SetCookie);
    CorsKeepsOtherHeaders(h, x.verb, x.requestHeaders, pol.corsMaxAge, SetCookie2);
    CorsKeepsOtherHeaders(h, x.verb, x.requestHeaders, pol.corsMaxAge, FinalUrl);
    CorsAllowsAnyOrigin(h, x.verb, x.requestHeaders, pol.corsMaxAge);
  }

  /** `x-request-url` is written, with the original target, only on the first hop. */
  lemma RequestUrlOnFirstHop(p: HopCalls, pol: Policy, x: Exchange, status: int, upstream: HeaderMap)
    ensures Get(OnResponse(p, pol, x, status, upstream).x.clientHeaders, RequestUrl) ==
      if x.redirectCount == 0 then Some(x.location.href) else Get(x.clientHeaders, RequestUrl)
  {
    RedirectHeaderInjective(x.redirectCount + 1, x.redirectCount + 1);
    if Follows(p, pol, x, status, upstream) {
      FollowedShape(p, pol, x, status, upstream);
    } else {
      DeliveredShape(p, pol, x, status, upstream);
    }
  }

  /** How a chain of hops ends: delivered after `hops` followed redirects, or out of upstream responses while following. */
  datatype ChainResult =
    | ChainDelivered(x: Exchange, headers: HeaderMap)
    | ChainExhausted(x: Exchange)

  /** The recursion through `proxyRequest`: the hops over the upstream responses in `responses`, one per request sent. */
  function RunChain(p: HopCalls, pol: Policy, x: Exchange, responses: seq<(int, HeaderMap)>): ChainResult
    decreases |responses|
  {
    if responses == [] then ChainExhausted(x)
    else match OnResponse(p, pol, x, responses[0].0, responses[0].1)
      case Followed(y) => RunChain(p, pol, y, responses[1..])
      case Delivered(y, h) => ChainDelivered(y, h)
  }

  /** The diagnostic headers present in `h` are exactly those of redirects 1 to `n`. */
  ghost predicate DiagnosticsUpTo(h: HeaderMap, n: int) {
    forall k: nat :: Has(h, RedirectHeader(k)) <==> 1 <= k <= n
  }

  /** The smaller of the redirect count and the limit: the number of diagnostic headers written. */
  function Written(pol: Policy, count: nat): int {
    if count <= pol.maxRedirects then count else pol.maxRedirects
  }

  /** Each hop keeps the diagnostic headers those of redirects 1 to min(count, maxRedirects). */
  lemma HopKeepsDiagnostics(p: HopCalls, pol: Policy, x: Exchange, status: int, upstream: HeaderMap)
    requires DiagnosticsUpTo(x.clientHeaders, Written(pol, x.redirectCount))
    ensures var r := OnResponse(p, pol, x, status, upstream);
      DiagnosticsUpTo(r.x.clientHeaders, Written(pol, r.x.redirectCount))
  {
    RequestUrlKeepsDiagnostics(x, Written(pol, x.redirectCount));
    if Follows(p, pol, x, status, upstream) {
      FollowedShape(p, pol, x, status, upstream);
      var t := RedirectTarget(p, x, status, upstream).value;
      AddDiagnostic(WithRequestUrl(x), x.redirectCount + 1, IntToString(status) + " " + t.0);
    } else {
      DeliveredShape(p, pol, x, status, upstream);
    }
  }

  /** Writing `x-request-url` adds no diagnostic header. */
  lemma RequestUrlKeepsDiagnostics(x: Exchange, n: int)
    requires DiagnosticsUpTo(x.clientHeaders, n)
    ensures DiagnosticsUpTo(WithRequestUrl(x), n)
  {
    forall k: nat ensures Has(WithRequestUrl(x), RedirectHeader(k)) <==> Has(x.clientHeaders, RedirectHeader(k)) {
      RedirectHeaderInjective(k, k);
    }
  }

  /** Writing the diagnostic header of redirect `n` after those of 1 to `n - 1`. */
  lemma AddDiagnostic(h: HeaderMap, n: nat, value: string)
    requires n >= 1 && DiagnosticsUpTo(h, n - 1)
    ensures DiagnosticsUpTo(Set(h, RedirectHeader(n), value), n)
  {
    forall k: nat ensures Has(Set(h, RedirectHeader(n), value), RedirectHeader(k)) <==> 1 <= k <= n {
      assert Has(h, RedirectHeader(k)) <==> 1 <= k <= n - 1;
      RedirectHeaderInjective(k, n);
    }
  }

  /** Over a whole chain, the diagnostic headers are those of redirects 1 to min(count, maxRedirects). */
  lemma {:induction false} ChainKeepsDiagnostics(p: HopCalls, pol: Policy, x: Exchange, responses: seq<(int, HeaderMap)>)
    requires DiagnosticsUpTo(x.clientHeaders, Written(pol, x.redirectCount))
    ensures var r := RunChain(p, pol, x, responses);
      DiagnosticsUpTo(r.x.clientHeaders, Written(pol, r.x.redirectCount))
    decreases |responses|
  {
    if responses != [] {
      HopKeepsDiagnostics(p, pol, x, responses[0].0, responses[0].1);
      match OnResponse(p, pol, x, responses[0].0, responses[0].1)
      case Followed(y) => ChainKeepsDiagnostics(p, pol, y, responses[1..]);
      case Delivered(y, h) =>
    }
  }

  /** No exchange ever carries more than `maxRedirects` diagnostic headers. */
  lemma AtMostMaxRedirectsWritten(p: HopCalls, pol: Policy, x: Exchange, responses: seq<(int, HeaderMap)>, k: nat)
    requires x.redirectCount == 0 && DiagnosticsUpTo(x.clientHeaders, 0)
    requires Has(RunChain(p, pol, x, responses).x.clientHeaders, RedirectHeader(k))
    ensures 1 <= k <= pol.maxRedirects
  {
    ChainKeepsDiagnostics(p, pol, x, responses);
  }

  /** A platform on which every redirect target resolves to a parseable URL. */
  ghost predicate TargetsAlwaysParse(p: HopCalls) {
    forall base, target :: p.parse(p.resolve(base, target)).Some?
  }

  /** Every response is a 302 with a `Location`. */
  predicate AllFound(responses: seq<(int, HeaderMap)>) {
    forall i :: 0 <= i < |responses| ==> responses[i].0 == 302 && Truthy(responses[i].1, LocationHeader)
  }

  /**
   * Against a server that answers 302 for ever, the redirect that would be number
   * `maxRedirects + 1` is delivered instead of followed, after exactly `maxRedirects`
   * diagnostic headers, with its `Location` resolved against the URL the last request
   * went to and routed back through the proxy.
   */
  lemma EndlessRedirectsStop(p: HopCalls, pol: Policy, x: Exchange, responses: seq<(int, HeaderMap)>)
    requires TargetsAlwaysParse(p) && AllFound(responses)
    requires x.redirectCount <= pol.maxRedirects
    requires |responses| == pol.maxRedirects + 1 - x.redirectCount
    requires DiagnosticsUpTo(x.clientHeaders, x.redirectCount)
    ensures var r := RunChain(p, pol, x, responses);
      && r.ChainDelivered?
      && r.x.redirectCount == pol.maxRedirects + 1
      && DiagnosticsUpTo(r.x.clientHeaders, pol.maxRedirects)
      && var before := RunChain(p, pol, x, responses[..|responses| - 1]).x;
         var last := responses[|responses| - 1].1;
         && r.x.location == before.location
         && Get(r.headers, LocationHeader) == Some(ThroughProxy(pol, p.resolve(before.location.href, Get(last, LocationHeader).value)))
  {
    EndlessRedirectsLastHop(p, pol, x, responses);
    var before := RunChain(p, pol, x, responses[..|responses| - 1]).x;
    var last := responses[|responses| - 1];
    NotFollowedRewritesLocation(p, pol, before, last.0, last.1);
    ChainKeepsDiagnostics(p, pol, x, responses);
  }

  /**
   * The hop-by-hop half of `EndlessRedirectsStop`: every response but the last is
   * followed, leaving the count at the limit, and the chain delivers what one hop
   * from there makes of the last response.
   */
  lemma EndlessRedirectsLastHop(p: HopCalls, pol: Policy, x: Exchange, responses: seq<(int, HeaderMap)>)
    requires TargetsAlwaysParse(p) && AllFound(responses)
    requires x.redirectCount <= pol.maxRedirects
    requires |responses| == pol.maxRedirects + 1 - x.redirectCount
    ensures var before := RunChain(p, pol, x, responses[..|responses| - 1]);
      && before.ChainExhausted?
      && before.x.redirectCount == pol.maxRedirects
      && var last := responses[|responses| - 1];
         var h := OnResponse(p, pol, before.x, last.0, last.1);
         h.Delivered? && RunChain(p, pol, x, responses) == ChainDelivered(h.x, h.headers)
  {
    var init, last := SplitLast(responses);
    EndlessRedirectsFollowed(p, pol, x, init);
    var before := RunChain(p, pol, x, init).x;
    FollowedIff(p, pol, before, last.0, last.1);
    ChainSnoc(p, pol, x, init, last);
  }

  /** A non-empty run of 302 responses is its first responses, all 302, and a last 302. */
  lemma SplitLast(responses: seq<(int, HeaderMap)>) returns (init: seq<(int, HeaderMap)>, last: (int, HeaderMap))
    requires AllFound(responses) && responses != []
    ensures init == responses[..|responses| - 1] && last == responses[|responses| - 1]
    ensures init + [last] == responses && AllFound(init)
    ensures last.0 == 302 && Truthy(last.1, LocationHeader)
  {
    init, last := responses[..|responses| - 1], responses[|responses| - 1];
    assert init + [last] == responses;
  }

  /** Against 302 after 302, the first `maxRedirects - count` responses are all followed, leaving the count at the limit. */
  lemma {:induction false} EndlessRedirectsFollowed(p: HopCalls, pol: Policy, x: Exchange, responses: seq<(int, HeaderMap)>)
    requires TargetsAlwaysParse(p) && AllFound(responses)
    requires x.redirectCount <= pol.maxRedirects
    requires |responses| == pol.maxRedirects - x.redirectCount
    ensures var r := RunChain(p, pol, x, responses);
      r.ChainExhausted? && r.x.redirectCount == pol.maxRedirects
    decreases |responses|
  {
    if responses != [] {
      assert responses[0].0 == 302 && Truthy(responses[0].1, LocationHeader);
      FollowedIff(p, pol, x, 302, responses[0].1);
      match OnResponse(p, pol, x, 302, responses[0].1)
      case Followed(y) =>
        EndlessRedirectsFollowed(p, pol, y, responses[1..]);
      case Delivered(y, h) =>
    }
  }

  /** One more response after a chain: it is a hop from where the chain stopped, if it stopped for lack of responses. */
  lemma {:induction false} ChainSnoc(p: HopCalls, pol: Policy, x: Exchange, responses: seq<(int, HeaderMap)>, last: (int, HeaderMap))
    ensures var r := RunChain(p, pol, x, responses);
      RunChain(p, pol, x, responses + [last]) ==
        if r.ChainDelivered? then r
        else match OnResponse(p, pol, r.x, last.0, last.1)
          case Followed(y) => ChainExhausted(y)
          case Delivered(y, h) => ChainDelivered(y, h)
    decreases |responses|
  {
    if responses == [] {
      assert [] + [last] == [last] && [last][1..] == [];
    } else {
      assert (responses + [last])[0] == responses[0];
      assert (responses + [last])[1..] == responses[1..] + [last];
      ChainSnoc(p, pol, OnResponse(p, pol, x, responses[0].0, responses[0].1).x, responses[1..], last);
    }
  }
}
