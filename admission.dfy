/**
 * The request handler of `getHandler` (src/proxy.ts:191-323) up to the moment it hands
 * the request to `proxyRequest`: the ordered checks that answer a request directly,
 * each with its own status, and the request the proxy forwards when all of them pass.
 * The handler is the function `Handle` over the incoming request, the configuration,
 * the platform and what the rate-limit callback answers for the request's origin.
 */
module Admission {
  import opened Wrappers
  import opened JsStrings
  import opened Headers
  import opened TargetUrl
  import opened Cors

  /** The `requireHeader` option as configured: unset, a string, an array, or any other truthy value. */
  datatype RequireOption = Absent | Text(name: string) | List(names: seq<string>) | Other

  function LowerAll(names: seq<string>): (r: seq<string>)
    ensures |r| == |names| && forall i :: 0 <= i < |names| ==> r[i] == Lower(names[i])
  {
    seq(|names|, i requires 0 <= i < |names| => Lower(names[i]))
  }

  /**
   * The normalised `requireHeader` (src/proxy.ts:207-217): a non-empty list of
   * lower-case header names, or `None` when nothing is required.
   */
  function NormalizeRequireHeader(o: RequireOption): (r: Option<seq<string>>)
    ensures r.None? <==> o.Absent? || o.Other? || o == Text("") || o == List([])
    ensures r.Some? ==> |r.value| == (if o.Text? then 1 else |o.names|)
    ensures r.Some? ==> forall i :: 0 <= i < |r.value| ==> r.value[i] == Lower(if o.Text? then o.name else o.names[i])
  {
    match o
    case Absent => None
    case Other => None
    case Text(s) => if s == "" then None else Some([Lower(s)])
    case List(ns) => if ns == [] then None else Some(LowerAll(ns))
  }

  /** Some header of `names` is a property of `h`. */
  function AnyPresent(names: seq<string>, h: HeaderMap): (r: bool)
    ensures r <==> exists i :: 0 <= i < |names| && Has(h, names[i])
  {
    if names == [] then false
    else if Has(h, names[0]) then true
    else
      var r := AnyPresent(names[1..], h);
      assert forall i :: 1 <= i < |names| ==> names[i] == names[1..][i - 1];
      r
  }

  /** `hasRequiredHeaders` (src/proxy.ts:219-221). */
  predicate HasRequiredHeaders(required: Option<seq<string>>, h: HeaderMap) {
    required.None? || AnyPresent(required.value, h)
  }

  /** The normalised names are all lower case, so a required header is found under the name Node gives it. */
  lemma {:induction false} RequiredNamesLowerCase(o: RequireOption)
    ensures var r := NormalizeRequireHeader(o);
      r.Some? ==> forall i :: 0 <= i < |r.value| ==> Lower(r.value[i]) == r.value[i]
  {
    var r := NormalizeRequireHeader(o);
    if r.Some? {
      forall i | 0 <= i < |r.value| ensures Lower(r.value[i]) == r.value[i] {
        LowerIdempotent(if o.Text? then o.name else o.names[i]);
      }
    }
  }

  /** The parts of the incoming request the handler reads. */
  datatype IncomingRequest = IncomingRequest(verb: string, url: string, headers: HeaderMap, encrypted: bool)

  /**
   * The calls the handler makes: `withCORS` on an empty header record for a request
   * with a method and headers, `parseURL` and `isValidHostName`. They are kept apart
   * so that the order of the checks is stated once for any of them; `PlatformCalls`
   * gives the proxy's own. `portAsWritten` chooses the port check: the string
   * comparison of src/proxy.ts:260 as written, or the numeric one it evidently intends.
   */
  datatype Calls = Calls(
    withCors: (string, HeaderMap) -> CorsResult,
    parse: string -> Option<Location>,
    validHost: string -> bool,
    portAsWritten: bool)

  function PlatformCalls(p: Platform, corsMaxAge: int, portAsWritten: bool): (c: Calls)
    ensures forall verb, h :: c.withCors(verb, h) == CorsHeaders([], verb, h, corsMaxAge)
    ensures forall s :: c.parse(s) == ParseUrl(s, p)
    ensures forall h :: c.validHost(h) == IsValidHostName(p, h)
    ensures c.portAsWritten == portAsWritten
  {
    Calls((verb, h) => CorsHeaders([], verb, h, corsMaxAge), s => ParseUrl(s, p), h => IsValidHostName(p, h), portAsWritten)
  }

  /**
   * The options of `createServer` that the handler reads. `checkRateLimit` is not a field:
   * what it answers for the request's origin is an argument of `Handle`.
   */
  datatype Options = Options(
    handleInitialRequest: Option<(IncomingRequest, Option<Location>) -> bool>,
    getProxyForUrl: string -> string,
    maxRedirects: int,
    originBlacklist: seq<string>,
    originWhitelist: seq<string>,
    redirectSameOrigin: bool,
    requireHeader: RequireOption,
    removeHeaders: seq<string>,
    setHeaders: HeaderMap,
    corsMaxAge: int)

  /** The defaults the handler spreads the options over (src/proxy.ts:192-205). */
  function Defaults(getProxyForUrl: string -> string): Options {
    Options(None, getProxyForUrl, 5, [], [], false, Absent, [], [], 0)
  }

  /**
   * What the handler does with a request: write a reply (`reason` empty for the
   * standard phrase), leave it to the initial-request hook, or proxy it to `location`.
   */
  datatype Decision =
    | Reply(status: int, reason: string, headers: HeaderMap, body: string)
    | Claimed
    | Forward(location: Location, proxyBaseUrl: string, headers: HeaderMap)

  const OptionsVerb := "OPTIONS"
  const CorsNeededHost := "iscorsneeded"
  const MaxPortText := "65535"
  const OriginHeader := "origin"
  const HostHeader := "host"
  const ForwardedProto := "x-forwarded-proto"
  const VaryHeader := "vary"
  const CacheControlHeader := "cache-control"
  const LocationField := "location"
  const Private := "private"
  const ContentTypeField := "Content-Type"
  const TextPlain := "text/plain"
  const OkBody := "ok"
  const NoBody := "no"
  const HttpsToken := "https"
  const HttpsBase := "https://"
  const HttpBase := "http://"
  const Undefined := "undefined"
  const LowerHttp := "/http:"
  const LowerHttps := "/https:"
  const HttpSingleSlash := "/http:/"
  const HttpsSingleSlash := "/https:/"

  const MissingSlashReason := "Missing slash"
  const InvalidPortReason := "Invalid port"
  const InvalidHostReason := "Invalid host"
  const HeaderRequiredReason := "Header required"
  const ForbiddenReason := "Forbidden"
  const TooManyReason := "Too Many Requests"
  const DirectRequestReason := "Please use a direct request"

  const MissingSlashBody := "The URL is invalid: two slashes are needed after the http(s):."
  const PortTooLargeBody := "Port number too large: "
  const InvalidHostBody := "Invalid host: "
  const HeaderRequiredBody := "Missing required request header. Must specify one of: "
  const OriginPrefix := "The origin \""
  const BlacklistedTail := "\" was blacklisted by the operator of this proxy."
  const NotWhitelistedTail := "\" was not whitelisted by the operator of this proxy."
  const TooManyTail := "\" has sent too many requests.\n"

  /** The reason phrases of the refusals with status 400 differ from each other and from the standard phrase. */
  lemma ReasonsDistinct()
    ensures MissingSlashReason != InvalidPortReason && MissingSlashReason != HeaderRequiredReason
    ensures InvalidPortReason != HeaderRequiredReason
    ensures MissingSlashReason != "" && InvalidPortReason != "" && HeaderRequiredReason != ""
  {
    assert |MissingSlashReason| == 13 && |InvalidPortReason| == 12 && |HeaderRequiredReason| == 15;
  }

  /** `req.url.slice(1)`. */
  function Slice1(url: string): string {
    if url == [] then [] else url[1..]
  }

  /** `/^\/https?:\/[^/]/i.test(req.url)`: a scheme followed by a single slash. */
  predicate MissingSlash(url: string) {
    || (StartsWithIgnoreCase(url, HttpSingleSlash) && |url| > 7 && url[7] != '/')
    || (StartsWithIgnoreCase(url, HttpsSingleSlash) && |url| > 8 && url[8] != '/')
  }

  /** `/^\/https?:/.test(req.url)`: the target names its scheme, in lower case. */
  predicate NamesScheme(url: string) {
    StartsWith(url, LowerHttp) || StartsWith(url, LowerHttps)
  }

  /**
   * `location.port > '65535'` as written (src/proxy.ts:260): with a string on both
   * sides JavaScript compares character by character; `null > '65535'` is false.
   */
  predicate PortTooLarge(port: Option<string>) {
    port.Some? && LexLess(MaxPortText, port.value)
  }

  /** The evidently intended check: the port, read as a number, exceeds 65535. */
  predicate PortOutOfRange(port: Option<string>) {
    port.Some? && port.value != "" && AllDigits(port.value) && DecimalValue(port.value) > 65535
  }

  /** The port check the handler applies: as written, or read as a number. */
  predicate RefusesPort(asWritten: bool, port: Option<string>) {
    if asWritten then PortTooLarge(port) else PortOutOfRange(port)
  }

  /** `req.headers.origin || ''`. */
  function Origin(h: HeaderMap): string {
    Get(h, OriginHeader).GetOr("")
  }

  /** The same-origin test of src/proxy.ts:298-299: `href` continues the origin with a `/`. */
  predicate SameOrigin(href: string, origin: string) {
    origin != "" && |origin| < |href| && href[|origin|] == '/' && StartsWith(href, origin)
  }

  /** `req.connection.encrypted || /^\s*https/.test(req.headers['x-forwarded-proto'])`; a missing header is matched as the text `undefined`. */
  predicate RequestedOverHttps(encrypted: bool, h: HeaderMap) {
    encrypted || (var v := Get(h, ForwardedProto).GetOr(Undefined); StartsWith(v[SpaceRun(v)..], HttpsToken))
  }

  /** The address of the proxy itself (src/proxy.ts:308-309). */
  function ProxyBaseUrl(encrypted: bool, h: HeaderMap): string {
    (if RequestedOverHttps(encrypted, h) then HttpsBase else HttpBase) + Get(h, HostHeader).GetOr(Undefined)
  }

  /** The request headers after the removal and injection loops (src/proxy.ts:311-317). */
  function Forwarded(o: Options, h: HeaderMap): HeaderMap {
    SetAll(DeleteAll(h, o.removeHeaders), o.setHeaders)
  }

  /** The rate-limit message is truthy. */
  predicate RateLimited(rateAnswer: Option<string>) {
    rateAnswer.Some? && rateAnswer.value != ""
  }

  /** The initial-request hook is configured and claims the request. */
  predicate Claims(o: Options, seen: IncomingRequest, target: Option<Location>) {
    o.handleInitialRequest.Some? && o.handleInitialRequest.value(seen, target)
  }

  /** The reply to a request without a usable target (src/proxy.ts:243-252). */
  function NoTarget(url: string, cors: HeaderMap): Decision {
    if MissingSlash(url) then Reply(400, MissingSlashReason, cors, MissingSlashBody)
    else Reply(200, "", [(ContentTypeField, TextPlain)], OkBody)
  }

  /** The checks on the target itself (src/proxy.ts:254-270), with the port check `c` chooses. */
  function CheckTarget(c: Calls, o: Options, seen: IncomingRequest, loc: Location, cors: HeaderMap, rateAnswer: Option<string>): Decision {
    if loc.host == Some(CorsNeededHost) then Reply(200, "", [(ContentTypeField, TextPlain)], NoBody)
    else if RefusesPort(c.portAsWritten, loc.port) then Reply(400, InvalidPortReason, cors, PortTooLargeBody + loc.port.value)
    else if !NamesScheme(seen.url) && !c.validHost(loc.hostname) then
      Reply(404, InvalidHostReason, cors, InvalidHostBody + loc.hostname)
    else CheckOrigin(o, seen, loc, cors, rateAnswer)
  }

  /** The checks on the request's headers and origin (src/proxy.ts:272-306), then the forwarded request. */
  function CheckOrigin(o: Options, seen: IncomingRequest, loc: Location, cors: HeaderMap, rateAnswer: Option<string>): Decision {
    var required := NormalizeRequireHeader(o.requireHeader);
    var origin := Origin(seen.headers);
    if !HasRequiredHeaders(required, seen.headers) then
      Reply(400, HeaderRequiredReason, cors, HeaderRequiredBody + Join(required.value, ","))
    else if origin in o.originBlacklist then
      Reply(403, ForbiddenReason, cors, OriginPrefix + origin + BlacklistedTail)
    else if |o.originWhitelist| != 0 && origin !in o.originWhitelist then
      Reply(403, ForbiddenReason, cors, OriginPrefix + origin + NotWhitelistedTail)
    else if RateLimited(rateAnswer) then
      Reply(429, TooManyReason, cors, OriginPrefix + origin + TooManyTail + rateAnswer.value)
    else if o.redirectSameOrigin && SameOrigin(loc.href, origin) then
      Reply(301, DirectRequestReason, Set(Set(Set(cors, VaryHeader, OriginHeader), CacheControlHeader, Private), LocationField, loc.href), "")
    else Forward(loc, ProxyBaseUrl(seen.encrypted, seen.headers), Forwarded(o, seen.headers))
  }

  /**
   * The handler of src/proxy.ts:223-323 for `req`, where `rateAnswer` is what
   * `checkRateLimit(origin)` returns (`None` also when no checker is configured).
   * The CORS headers are computed first, and the request as seen from then on has
   * lost its preflight headers.
   */
  function Handle(c: Calls, o: Options, req: IncomingRequest, rateAnswer: Option<string>): (d: Decision)
    ensures d.Reply? ==> d.status in {200, 301, 400, 403, 404, 429}
    ensures d.Forward? ==> c.parse(Slice1(req.url)) == Some(d.location)
  {
    var cors := c.withCors(req.verb, req.headers);
    if req.verb == OptionsVerb then Reply(200, "", cors.response, "")
    else
      var seen := req.(headers := cors.request);
      var target := c.parse(Slice1(req.url));
      if Claims(o, seen, target) then Claimed
      else match target
        case None => NoTarget(req.url, cors.response)
        case Some(loc) => CheckTarget(c, o, seen, loc, cors.response, rateAnswer)
  }

  /** The request as the checks after `withCORS` see it: without its preflight headers. */
  function Seen(c: Calls, req: IncomingRequest): IncomingRequest {
    req.(headers := c.withCors(req.verb, req.headers).request)
  }

  /** The target passes the checks of src/proxy.ts:254-270. */
  predicate PassesTargetChecks(c: Calls, url: string, loc: Location) {
    && loc.host != Some(CorsNeededHost)
    && !RefusesPort(c.portAsWritten, loc.port)
    && (NamesScheme(url) || c.validHost(loc.hostname))
  }

  /** The request's headers and origin pass the checks of src/proxy.ts:272-289. */
  predicate PassesOriginChecks(o: Options, h: HeaderMap) {
    && HasRequiredHeaders(NormalizeRequireHeader(o.requireHeader), h)
    && Origin(h) !in o.originBlacklist
    && (|o.originWhitelist| == 0 || Origin(h) in o.originWhitelist)
  }

  /** The request is no preflight, the hook leaves it and its path yields a target: the checks of src/proxy.ts:254-306 apply. */
  predicate ReachesTargetChecks(c: Calls, o: Options, req: IncomingRequest) {
    var target := c.parse(Slice1(req.url));
    && req.verb != OptionsVerb
    && !Claims(o, Seen(c, req), target)
    && target.Some?
  }

  /** The request gets as far as the rate-limit callback, the only point where its answer is asked for. */
  predicate ReachesRateCheck(c: Calls, o: Options, req: IncomingRequest) {
    && ReachesTargetChecks(c, o, req)
    && PassesTargetChecks(c, req.url, c.parse(Slice1(req.url)).value)
    && PassesOriginChecks(o, Seen(c, req).headers)
  }

  /**
   * A preflight is answered 200 with the CORS headers and no body, whatever the
   * configuration, the target and the rate limit.
   */
  lemma PreflightAnswered(c: Calls, o: Options, req: IncomingRequest, rateAnswer: Option<string>, other: Options, url: string)
    requires req.verb == OptionsVerb
    ensures var d := Handle(c, o, req, rateAnswer);
      && d.Reply? && d.status == 200 && d.body == ""
      && d.headers == c.withCors(req.verb, req.headers).response
      && d == Handle(c, other, req.(url := url), None)
  {
  }

  /** Every header record the CORS call produces allows any origin. */
  ghost predicate AllowsAnyOrigin(c: Calls) {
    forall verb, h :: Get(c.withCors(verb, h).response, AllowOrigin) == Some("*")
  }

  /** The proxy's own CORS call does, and writes the preflight's maximum age. */
  lemma PlatformCallsCors(p: Platform, corsMaxAge: int, asWritten: bool, verb: string, h: HeaderMap)
    ensures AllowsAnyOrigin(PlatformCalls(p, corsMaxAge, asWritten))
    ensures Get(PlatformCalls(p, corsMaxAge, asWritten).withCors(verb, h).response, MaxAge) ==
      if verb == OptionsVerb && corsMaxAge != 0 then Some(IntToString(corsMaxAge)) else None
  {
    forall verb', h' ensures Get(PlatformCalls(p, corsMaxAge, asWritten).withCors(verb', h').response, AllowOrigin) == Some("*") {
      CorsAllowsAnyOrigin([], verb', h', corsMaxAge);
    }
    CorsMaxAge([], verb, h, corsMaxAge);
  }

  /** Only the initial-request hook makes the handler stop without a reply of its own. */
  lemma ClaimedOnlyByHook(c: Calls, o: Options, req: IncomingRequest, rateAnswer: Option<string>)
    ensures Handle(c, o, req, rateAnswer).Claimed? <==>
      req.verb != OptionsVerb && Claims(o, Seen(c, req), c.parse(Slice1(req.url)))
  {
  }

  /**
   * A request is forwarded exactly when it passes every check in order, the rate
   * limit answers nothing truthy and no same-origin redirect applies; it then goes
   * to the parsed target with the proxy's own address and the rewritten headers.
   */
  lemma ForwardIff(c: Calls, o: Options, req: IncomingRequest, rateAnswer: Option<string>)
    ensures var d := Handle(c, o, req, rateAnswer);
      var loc := c.parse(Slice1(req.url));
      var h := Seen(c, req).headers;
      d.Forward? <==>
        && ReachesRateCheck(c, o, req)
        && !RateLimited(rateAnswer)
        && !(o.redirectSameOrigin && SameOrigin(loc.value.href, Origin(h)))
    ensures var d := Handle(c, o, req, rateAnswer);
      d.Forward? ==>
        && d.proxyBaseUrl == ProxyBaseUrl(req.encrypted, Seen(c, req).headers)
        && d.headers == Forwarded(o, Seen(c, req).headers)
  {
  }

  /** What the rate-limit callback answers matters only to a request that reaches it. */
  lemma RateAnswerUnused(c: Calls, o: Options, req: IncomingRequest, a: Option<string>, b: Option<string>)
    requires !ReachesRateCheck(c, o, req)
    ensures Handle(c, o, req, a) == Handle(c, o, req, b)
  {
  }

  /** A target whose host is `iscorsneeded` is answered 200 with the text `no`, without the CORS headers. */
  lemma CorsNeededAnswered(c: Calls, o: Options, req: IncomingRequest, rateAnswer: Option<string>)
    requires ReachesTargetChecks(c, o, req)
    requires c.parse(Slice1(req.url)).value.host == Some(CorsNeededHost)
    ensures var d := Handle(c, o, req, rateAnswer);
      && d.Reply? && d.status == 200 && d.body == NoBody
      && d.headers == [(ContentTypeField, TextPlain)]
  {
  }

  /** A port the chosen check refuses is answered 400 with the port after the message. */
  lemma PortRefused(c: Calls, o: Options, req: IncomingRequest, rateAnswer: Option<string>)
    requires ReachesTargetChecks(c, o, req)
    requires var t := c.parse(Slice1(req.url)).value;
      t.host != Some(CorsNeededHost) && RefusesPort(c.portAsWritten, t.port)
    ensures var d := Handle(c, o, req, rateAnswer);
      && d.Reply? && d.status == 400 && d.reason == InvalidPortReason
      && d.body == PortTooLargeBody + c.parse(Slice1(req.url)).value.port.value
  {
  }

  /** A target that passes its checks but lacks every required header is refused with 400 and the list of names. */
  lemma HeaderRequiredRefused(c: Calls, o: Options, req: IncomingRequest, rateAnswer: Option<string>)
    requires ReachesTargetChecks(c, o, req) && PassesTargetChecks(c, req.url, c.parse(Slice1(req.url)).value)
    requires !HasRequiredHeaders(NormalizeRequireHeader(o.requireHeader), Seen(c, req).headers)
    ensures var d := Handle(c, o, req, rateAnswer);
      && d.Reply? && d.status == 400 && d.reason == HeaderRequiredReason
      && d.body == HeaderRequiredBody + Join(NormalizeRequireHeader(o.requireHeader).value, ",")
  {
  }

  /** Past the header check, a blacklisted origin is refused with 403. */
  lemma BlacklistRefused(c: Calls, o: Options, req: IncomingRequest, rateAnswer: Option<string>)
    requires ReachesTargetChecks(c, o, req) && PassesTargetChecks(c, req.url, c.parse(Slice1(req.url)).value)
    requires HasRequiredHeaders(NormalizeRequireHeader(o.requireHeader), Seen(c, req).headers)
    requires Origin(Seen(c, req).headers) in o.originBlacklist
    ensures var d := Handle(c, o, req, rateAnswer);
      && d.Reply? && d.status == 403 && d.reason == ForbiddenReason
      && d.body == OriginPrefix + Origin(Seen(c, req).headers) + BlacklistedTail
  {
  }

  /** Past the blacklist, an origin missing from a non-empty whitelist is refused with 403. */
  lemma NotWhitelistedRefused(c: Calls, o: Options, req: IncomingRequest, rateAnswer: Option<string>)
    requires ReachesTargetChecks(c, o, req) && PassesTargetChecks(c, req.url, c.parse(Slice1(req.url)).value)
    requires HasRequiredHeaders(NormalizeRequireHeader(o.requireHeader), Seen(c, req).headers)
    requires Origin(Seen(c, req).headers) !in o.originBlacklist
    requires |o.originWhitelist| != 0 && Origin(Seen(c, req).headers) !in o.originWhitelist
    ensures var d := Handle(c, o, req, rateAnswer);
      && d.Reply? && d.status == 403 && d.reason == ForbiddenReason
      && d.body == OriginPrefix + Origin(Seen(c, req).headers) + NotWhitelistedTail
  {
  }

  /** A request that reaches the callback and gets a message is refused with 429 and the message after the origin. */
  lemma RateLimitedRefused(c: Calls, o: Options, req: IncomingRequest, rateAnswer: Option<string>)
    requires ReachesRateCheck(c, o, req) && RateLimited(rateAnswer)
    ensures var d := Handle(c, o, req, rateAnswer);
      && d.Reply? && d.status == 429 && d.reason == TooManyReason
      && d.body == OriginPrefix + Origin(Seen(c, req).headers) + TooManyTail + rateAnswer.value
  {
  }

  /**
   * A request without a usable target is answered 400 exactly when its path has a
   * scheme with a single slash, and `ok` otherwise; the required headers are never
   * consulted for it.
   */
  lemma NoTargetAnswered(c: Calls, o: Options, req: IncomingRequest, rateAnswer: Option<string>)
    requires req.verb != OptionsVerb && c.parse(Slice1(req.url)).None?
    requires !Claims(o, Seen(c, req), None)
    ensures var d := Handle(c, o, req, rateAnswer);
      && d.Reply?
      && (d.status == 400 <==> MissingSlash(req.url))
      && (d.status == 400 || (d.status == 200 && d.body == OkBody))
      && d.reason != HeaderRequiredReason
  {
    ReasonsDistinct();
  }

  /** A scheme followed by a single slash never yields a target, so such a request is refused unless the hook claims it. */
  lemma MissingSlashHasNoTarget(p: Platform, url: string)
    requires MissingSlash(url)
    ensures ParseUrl(Slice1(url), p).None?
  {
    if StartsWithIgnoreCase(url, HttpSingleSlash) && |url| > 7 && url[7] != '/' {
      HttpSingleSlashRefused(url);
    } else {
      HttpsSingleSlashRefused(url);
    }
  }

  /** `/http:/` and a character other than `/`: the rest of the path starts with a scheme that lacks a slash. */
  lemma HttpSingleSlashRefused(url: string)
    requires StartsWithIgnoreCase(url, HttpSingleSlash) && |url| > 7 && url[7] != '/'
    ensures UrlToParse(Slice1(url)).None?
  {
    var s := Slice1(url);
    assert url[0] == '/' && s == url[1..];
    assert Lower(url[..7])[1..] == Lower(s[..6]);
    assert StartsWithIgnoreCase(s, "http:") by {
      assert Lower(s[..5]) == Lower(s[..6])[..5];
    }
    assert !StartsWithIgnoreCase(s, "http://") by {
      assert Lower(s[..7])[6] == LowerChar(url[7]);
    }
    assert LowerChar(s[4]) == ':' by {
      assert Lower(url[..7])[5] == LowerChar(url[5]);
    }
    if |s| >= 8 {
      assert Lower(s[..8])[4] == LowerChar(s[4]);
    }
    MissingSlashRefused(s);
  }

  /** `/https:/` and a character other than `/`: the same for the secure scheme. */
  lemma HttpsSingleSlashRefused(url: string)
    requires StartsWithIgnoreCase(url, HttpsSingleSlash) && |url| > 8 && url[8] != '/'
    ensures UrlToParse(Slice1(url)).None?
  {
    var s := Slice1(url);
    assert url[0] == '/' && s == url[1..];
    assert Lower(url[..8])[1..] == Lower(s[..7]);
    assert StartsWithIgnoreCase(s, "https:") by {
      assert Lower(s[..6]) == Lower(s[..7])[..6];
    }
    assert !StartsWithIgnoreCase(s, "https://") by {
      assert Lower(s[..8])[7] == LowerChar(url[8]);
    }
    assert LowerChar(s[4]) == 's' by {
      assert Lower(url[..8])[5] == LowerChar(url[5]);
    }
    assert Lower(s[..7])[4] == LowerChar(s[4]);
    MissingSlashRefused(s);
  }

  /** On the proxy's own parser, a path with a scheme and a single slash is refused with 400 unless the hook claims it. */
  lemma MissingSlashAnswered(p: Platform, o: Options, asWritten: bool, req: IncomingRequest, rateAnswer: Option<string>)
    requires req.verb != OptionsVerb && MissingSlash(req.url)
    requires !Claims(o, Seen(PlatformCalls(p, o.corsMaxAge, asWritten), req), None)
    ensures var d := Handle(PlatformCalls(p, o.corsMaxAge, asWritten), o, req, rateAnswer);
      d.Reply? && d.status == 400 && d.reason == MissingSlashReason && d.body == MissingSlashBody
  {
    MissingSlashHasNoTarget(p, req.url);
  }

  /**
   * As written, the port check compares strings: a port whose first digit is above
   * 6 is refused however small it is, among them 80, 8080 and 7000.
   */
  lemma PortCheckAsWritten(port: string)
    requires port != "" && port[0] > '6'
    ensures PortTooLarge(Some(port))
  {
    assert MaxPortText[0] == '6';
  }

  /** The port 8080 is refused as written although it is in range. */
  lemma Port8080Refused()
    ensures PortTooLarge(Some("8080")) && !PortOutOfRange(Some("8080"))
  {
    PortCheckAsWritten("8080");
    assert DecimalValue("8080") == 8080 by {
      assert "8080"[..3] == "808" && "808"[..2] == "80" && "80"[..1] == "8" && "8"[..0] == "";
    }
  }

  /** The numeric check refuses the decimal numeral of a port exactly when it is above 65535. */
  lemma PortCheckCorrected(n: nat)
    ensures PortOutOfRange(Some(NatToString(n))) <==> n > 65535
  {
  }

  /** As written, the handler answers a request for port 8080 with 400 `Invalid port`. */
  lemma Port8080RefusedByHandler(c: Calls, o: Options, req: IncomingRequest, rateAnswer: Option<string>)
    requires c.portAsWritten && ReachesTargetChecks(c, o, req)
    requires var t := c.parse(Slice1(req.url)).value;
      t.host != Some(CorsNeededHost) && t.port == Some("8080")
    ensures var d := Handle(c, o, req, rateAnswer);
      d.Reply? && d.status == 400 && d.reason == InvalidPortReason && d.body == PortTooLargeBody + "8080"
  {
    Port8080Refused();
    PortRefused(c, o, req, rateAnswer);
  }

  /**
   * With the numeric check, a request for port 8080 on a host that passes the host
   * check is forwarded under the default options, where as written it got a 400.
   */
  lemma Port8080Forwarded(c: Calls, g: string -> string, req: IncomingRequest)
    requires !c.portAsWritten && req.verb != OptionsVerb
    requires var t := c.parse(Slice1(req.url));
      && t.Some? && t.value.port == Some("8080") && t.value.host != Some(CorsNeededHost)
      && (NamesScheme(req.url) || c.validHost(t.value.hostname))
    ensures var d := Handle(c, Defaults(g), req, None);
      d.Forward? && d.location.port == Some("8080")
  {
    Port8080Refused();
    DefaultsForward(c, g, req);
  }

  /**
   * The host check is skipped only for a path that starts with a lower-case
   * `/http:` or `/https:`; any other path, `/HTTP:` among them, needs an IP literal.
   */
  lemma HostCheckCaseSensitive(c: Calls, o: Options, req: IncomingRequest, rateAnswer: Option<string>)
    requires req.verb != OptionsVerb
    requires var t := c.parse(Slice1(req.url));
      && t.Some? && t.value.host != Some(CorsNeededHost) && !RefusesPort(c.portAsWritten, t.value.port)
      && !c.validHost(t.value.hostname) && !Claims(o, Seen(c, req), t)
    ensures var d := Handle(c, o, req, rateAnswer);
      (d.Reply? && d.status == 404) <==> !NamesScheme(req.url)
  {
  }

  /** The scheme test is case-sensitive: `/http://a` names its scheme, `/HTTP://a` does not. */
  lemma SchemeTestCaseSensitive()
    ensures NamesScheme("/http://a") && !NamesScheme("/HTTP://a")
  {
    assert "/HTTP://a"[..6][1] == 'H';
    assert "/HTTP://a"[..7][1] == 'H';
    assert "/http://a"[..6] == LowerHttp;
  }

  /**
   * With `redirectSameOrigin` on, a request whose target continues its origin with
   * a `/` gets a 301 to the target itself, marked as varying with the origin and
   * private, with the CORS headers.
   */
  lemma SameOriginRedirected(c: Calls, o: Options, req: IncomingRequest, rateAnswer: Option<string>)
    requires AllowsAnyOrigin(c)
    requires ReachesRateCheck(c, o, req) && !RateLimited(rateAnswer) && o.redirectSameOrigin
    requires SameOrigin(c.parse(Slice1(req.url)).value.href, Origin(Seen(c, req).headers))
    ensures var d := Handle(c, o, req, rateAnswer);
      var href := c.parse(Slice1(req.url)).value.href;
      && d.Reply? && d.status == 301 && d.reason == DirectRequestReason && d.body == ""
      && Get(d.headers, LocationField) == Some(href)
      && Get(d.headers, VaryHeader) == Some(OriginHeader)
      && Get(d.headers, CacheControlHeader) == Some(Private)
      && Get(d.headers, AllowOrigin) == Some("*")
  {
    SameOriginNamesDistinct();
  }

  /**
   * The forwarded request carries every configured header with its configured value,
   * none of the removed ones, and otherwise the client's headers minus the preflight
   * ones that `withCORS` consumed.
   */
  lemma ForwardedHeaders(c: Calls, o: Options, req: IncomingRequest, rateAnswer: Option<string>, name: string)
    requires Handle(c, o, req, rateAnswer).Forward? && WellFormed(o.setHeaders)
    ensures Get(Handle(c, o, req, rateAnswer).headers, name) ==
      if Has(o.setHeaders, name) then Get(o.setHeaders, name)
      else if name in o.removeHeaders then None
      else Get(Seen(c, req).headers, name)
  {
    var h := Seen(c, req).headers;
    ForwardIff(c, o, req, rateAnswer);
    SetAllGet(DeleteAll(h, o.removeHeaders), o.setHeaders, name);
    DeleteAllGet(h, o.removeHeaders, name);
  }

  /**
   * The second `withCORS`, on the forwarded request (src/proxy.ts:139), mirrors no
   * preflight header when `setHeaders` sets neither: the first pass stripped them, so
   * the response keeps the upstream's allow-methods and allow-headers.
   */
  lemma ForwardedMirrorsNothing(p: Platform, o: Options, asWritten: bool, req: IncomingRequest, rateAnswer: Option<string>,
                                upstream: HeaderMap, verb: string)
    requires Handle(PlatformCalls(p, o.corsMaxAge, asWritten), o, req, rateAnswer).Forward? && WellFormed(o.setHeaders)
    requires !Has(o.setHeaders, RequestMethod) && !Has(o.setHeaders, RequestHeaders)
    ensures var d := Handle(PlatformCalls(p, o.corsMaxAge, asWritten), o, req, rateAnswer);
      var r := CorsHeaders(upstream, verb, d.headers, o.corsMaxAge);
      && Get(r.response, AllowMethods) == Get(upstream, AllowMethods)
      && Get(r.response, AllowHeaders) == Get(upstream, AllowHeaders)
  {
    var c := PlatformCalls(p, o.corsMaxAge, asWritten);
    var d := Handle(c, o, req, rateAnswer);
    ForwardedHeaders(c, o, req, rateAnswer, RequestMethod);
    ForwardedHeaders(c, o, req, rateAnswer, RequestHeaders);
    CorsStripsPreflight([], req.verb, req.headers, o.corsMaxAge, RequestMethod);
    CorsStripsPreflight([], req.verb, req.headers, o.corsMaxAge, RequestHeaders);
    CorsMirrorsMethod(upstream, verb, d.headers, o.corsMaxAge);
    CorsMirrorsHeaders(upstream, verb, d.headers, o.corsMaxAge);
  }

  /**
   * A preflight header that `setHeaders` sets to a non-empty value is put back on the
   * forwarded request (src/proxy.ts:315-317), and the second `withCORS` copies it onto
   * the response in place of the upstream's.
   */
  lemma ForwardedMirrorsSetHeader(c: Calls, o: Options, req: IncomingRequest, rateAnswer: Option<string>,
                                  upstream: HeaderMap, verb: string, corsMaxAge: int)
    requires Handle(c, o, req, rateAnswer).Forward? && WellFormed(o.setHeaders)
    requires Truthy(o.setHeaders, RequestMethod)
    ensures var d := Handle(c, o, req, rateAnswer);
      Get(CorsHeaders(upstream, verb, d.headers, corsMaxAge).response, AllowMethods) == Get(o.setHeaders, RequestMethod)
  {
    var d := Handle(c, o, req, rateAnswer);
    ForwardedHeaders(c, o, req, rateAnswer, RequestMethod);
    CorsMirrorsMethod(upstream, verb, d.headers, corsMaxAge);
  }

  /** The proxy's address uses `https` exactly when the connection is encrypted or the forwarded protocol says so, and the client's `Host`. */
  lemma ProxyBaseUrlScheme(encrypted: bool, h: HeaderMap)
    ensures var u := ProxyBaseUrl(encrypted, h);
      && (StartsWith(u, HttpsBase) <==> RequestedOverHttps(encrypted, h))
      && u == (if RequestedOverHttps(encrypted, h) then HttpsBase else HttpBase) + Get(h, HostHeader).GetOr(Undefined)
  {
    var u := ProxyBaseUrl(encrypted, h);
    if !RequestedOverHttps(encrypted, h) {
      assert u[4] == ':';
    }
  }

  /**
   * Under the default options every request with a target that passes the target
   * checks is forwarded, with the headers `withCORS` left it and nothing removed or added.
   */
  lemma DefaultsForward(c: Calls, g: string -> string, req: IncomingRequest)
    requires req.verb != OptionsVerb
    requires var t := c.parse(Slice1(req.url)); t.Some? && PassesTargetChecks(c, req.url, t.value)
    ensures var d := Handle(c, Defaults(g), req, None);
      && d.Forward?
      && d.location == c.parse(Slice1(req.url)).value
      && d.headers == Seen(c, req).headers
  {
  }

  /** Every refusal (status 301, 400, 403, 404 or 429) carries `access-control-allow-origin: *`, so the client can read it. */
  lemma RefusalsCarryCors(c: Calls, o: Options, req: IncomingRequest, rateAnswer: Option<string>)
    requires AllowsAnyOrigin(c)
    ensures var d := Handle(c, o, req, rateAnswer);
      d.Reply? && d.status != 200 ==> Get(d.headers, AllowOrigin) == Some("*")
  {
    var cors := c.withCors(req.verb, req.headers);
    assert Get(cors.response, AllowOrigin) == Some("*");
    var target := c.parse(Slice1(req.url));
    if target.Some? {
      TargetRefusalsCarryCors(c, o, req.(headers := cors.request), target.value, cors.response, rateAnswer);
    }
  }

  /** The refusals of `CheckTarget` and `CheckOrigin` carry the CORS headers they are given. */
  lemma TargetRefusalsCarryCors(c: Calls, o: Options, seen: IncomingRequest, loc: Location, cors: HeaderMap, rateAnswer: Option<string>)
    requires Get(cors, AllowOrigin) == Some("*")
    ensures var d := CheckTarget(c, o, seen, loc, cors, rateAnswer);
      d.Reply? && d.status != 200 ==> Get(d.headers, AllowOrigin) == Some("*")
  {
    SameOriginNamesDistinct();
  }

  /** The headers of the same-origin redirect differ from each other and from `access-control-allow-origin`. */
  lemma SameOriginNamesDistinct()
    ensures LocationField != VaryHeader && LocationField != CacheControlHeader && VaryHeader != CacheControlHeader
    ensures LocationField != AllowOrigin && VaryHeader != AllowOrigin && CacheControlHeader != AllowOrigin
  {
    assert |LocationField| == 8 && |VaryHeader| == 4 && |CacheControlHeader| == 13 && |AllowOrigin| == 27;
  }
}
