# tiny-cors-proxy: the admission pipeline, CORS headers, redirect following and rate limiter

This project models the core of tiny-cors-proxy, a CORS proxy for Node. A client asks for
`http://proxy/<target URL>`. The proxy:

- extracts the target from the request path (`parseURL`);
- answers preflights;
- refuses bad targets, missing required headers, listed origins and rate-limited origins;
- forwards everything else upstream;
- follows 301, 302 and 303 redirects of the upstream server up to `maxRedirects`;
- adds the CORS headers (`withCORS`) to every reply except the two plain-text 200 answers: `ok` for a path without a target, and `no` for the host `iscorsneeded`.

`createRateLimitChecker` parses a limit such as `"50 3 my.host /re/"` and returns a callback.
The callback counts the requests of each origin within a period.

The modules follow the two source files:

| module | file | what it holds |
|---|---|---|
| `Wrappers` | — | `Option` |
| `JsStrings` | — | the JavaScript string operations the source relies on: `\s`, `\d`, `\w`, ASCII `toLowerCase`, string `<`, `String(n)`, `join` |
| `Headers` | — | a header record or other plain object as a sequence of (name, value) pairs in insertion order, with property read, assignment and `delete` |
| `TargetUrl` | src/proxy.ts | `parseURL` and `isValidHostName`; the regular expression of its first line is matched by hand with the same captures and preferences |
| `Cors` | src/proxy.ts | `withCORS` as a function on header records |
| `Redirects` | src/proxy.ts | `onProxyResponse` as a function of one hop, and the chain of hops through `proxyRequest` |
| `Admission` | src/proxy.ts | the request handler of `getHandler` as a function from the request, the options and the rate-limit answer to a decision |
| `RateLimit` | src/rate-limiter.ts | the limit grammar, the exemption pattern, and the class `RateLimiter` with its table of counts |
| `Proxy` | src/proxy.ts | the request, the request state and both responses as classes whose fields the methods update, as the source does; each method is proved against the functions of `Cors`, `Redirects` and `Admission` |

Node's `url.parse`, `url.resolve`, `net.isIPv4` and `net.isIPv6` are function fields of a
`TargetUrl.Platform` value. The upstream proxy resolver `getProxyForUrl` and the hook
`handleInitialRequest` are function-valued options. Every property about the handler
holds for any choice of them.

## Model

| member | source | states |
|---|---|---|
| `Headers.HasIffNamed` | src/proxy.ts:219-220 | `Object.hasOwnProperty.call(h, name)` holds exactly when `name` is among `Object.keys(h)` |
| `Headers.Set` | src/proxy.ts:59 | assigning a property gives it the new value, leaves every other property alone, and appends the name to the keys only when it is new |
| `Headers.SetKeepsWellFormed` | src/proxy.ts:59 | assigning a property never creates a second property of the same name |
| `Headers.Delete` | src/proxy.ts:66 | `delete h[name]` removes exactly that property and keeps the record free of duplicates |
| `Headers.DeleteAllGet` | src/proxy.ts:311-313 | after the removal loop exactly the listed headers are absent and the others keep their values |
| `Headers.SetAllGet` | src/proxy.ts:315-317 | after the injection loop every configured header has its configured value and the others keep theirs |
| `Headers.LoopsKeepWellFormed` | src/proxy.ts:311-317 | both loops keep the record free of duplicate properties |
| `JsStrings.NatToString` | src/proxy.ts:62 | `String(n)` is the shortest decimal numeral of `n`: digits only, reading back as `n`, no leading zero |
| `JsStrings.NatToStringInjective` | src/proxy.ts:116 | different numbers give different numerals, so the diagnostic header names of different redirects differ |
| `Cors.Mirror` | src/proxy.ts:64-71 | a present, non-empty preflight request header is copied to its response header and deleted from the request; nothing else changes |
| `Cors.AllowAnyOrigin` | src/proxy.ts:59-63 | `access-control-allow-origin` becomes `*`; `access-control-max-age` is written only for `OPTIONS` with a non-zero `corsMaxAge` |
| `Cors.CorsAllowsAnyOrigin` | src/proxy.ts:59 | every result of `withCORS` allows any origin |
| `Cors.CorsMaxAge` | src/proxy.ts:60-63 | the maximum age is written exactly for a preflight with a non-zero `corsMaxAge`, as `String(corsMaxAge)` |
| `Cors.CorsMirrorsMethod` | src/proxy.ts:64-67 | `access-control-allow-methods` is the request's `access-control-request-method` when that is non-empty, else unchanged |
| `Cors.CorsMirrorsHeaders` | src/proxy.ts:68-71 | `access-control-allow-headers` is the request's `access-control-request-headers` when that is non-empty, else unchanged |
| `Cors.CorsKeepsOtherHeaders` | src/proxy.ts:58-76 | every header other than the five CORS response headers keeps its value |
| `Cors.CorsExposesNames` | src/proxy.ts:73 | `access-control-expose-headers` is the comma-joined list of the header names in insertion order; when new, it comes last and is not in its own list |
| `Cors.ExposeLast` | src/proxy.ts:73 | the same for the last assignment on any header record |
| `Cors.CorsStripsPreflight` | src/proxy.ts:64-71 | the mirrored preflight headers are deleted from the request and no other request header is |
| `Cors.CorsKeepsWellFormed` | src/proxy.ts:58-76 | `withCORS` never duplicates a header of the response or of the request |
| `Cors.SecondPassMirrorsNothing` | src/proxy.ts:139 | a request that has been through `withCORS` once mirrors nothing the second time |
| `TargetUrl.AuthorityEnd` | src/proxy.ts:79 | the host[:port] part runs to the first `/` or `?` |
| `TargetUrl.FirstPortAt` | src/proxy.ts:79 | the lazy host name gives way to the port group at the first place where `:` and at most five digits run to the end of the host[:port] part |
| `TargetUrl.MatchAuthority` | src/proxy.ts:79 | groups 2 to 5 match exactly when the host[:port] part is non-empty; the captures spell the input and satisfy every constraint of the pattern |
| `TargetUrl.SplitShaped` | src/proxy.ts:79 | the split at the first possible port is well shaped and spells the host[:port] part and the rest |
| `TargetUrl.MatchAfter` | src/proxy.ts:79 | after a prefix, the captures spell the input and are well shaped |
| `TargetUrl.MatchTarget` | src/proxy.ts:79 | the whole pattern: the captures spell the input; a captured scheme is `http:` or `https:` in any case, followed by `//`; without a scheme the prefix is empty or `//` |
| `TargetUrl.SchemeOfPrefix` | src/proxy.ts:79 | a prefix `http://` or `https://` matched ignoring case splits into a scheme and `//` |
| `TargetUrl.MatchTargetFailsIff` | src/proxy.ts:79-82 | the pattern fails exactly on the empty string, on a string that starts with `?`, and on one that starts with `/` not followed by `/` and a host |
| `TargetUrl.UrlToParse` | src/proxy.ts:80-89 | `url.parse` gets the input itself, or the input behind `http://` or `https://`; it gets nothing when the pattern fails |
| `TargetUrl.MissingSlashRefused` | src/proxy.ts:83-86 | a scheme followed by fewer than two slashes yields no target |
| `TargetUrl.UrlToParseHasScheme` | src/proxy.ts:83-89 | every string handed to `url.parse` starts with `http://` or `https://`, ignoring case |
| `TargetUrl.ImplicitSchemeSameTarget` | src/proxy.ts:83-93 | a target without a scheme parses exactly as the same target with `https://` for port "443" and `http://` otherwise in front |
| `TargetUrl.MatchWithHttps` | src/proxy.ts:79 | behind `https://` a host always makes the pattern capture the scheme |
| `TargetUrl.MatchWithHttp` | src/proxy.ts:79 | behind `http://` a host always makes the pattern capture the scheme |
| `TargetUrl.ShapeDeterminesCaptures` | src/proxy.ts:79 | two well-shaped matches of the same text capture the same host[:port] part and rest: the captures are unique |
| `TargetUrl.ParseUrl` | src/proxy.ts:78-94 | `parseURL` gives a location exactly when there is a string to parse and `url.parse` finds a non-empty host name in it; the location is what `url.parse` returns |
| `Redirects.RedirectHeaderInjective` | src/proxy.ts:116 | different redirects get different `X-CORS-Redirect-<n>` headers, none of them `x-request-url` |
| `Redirects.ResolvedLocation` | src/proxy.ts:106-109 | a resolved target exists exactly when the upstream `Location` is present and non-empty |
| `Redirects.RedirectTarget` | src/proxy.ts:105-112 | a redirect has a target exactly when its status is 301, 302, 303, 307 or 308, its `Location` is non-empty, and the resolved URL parses |
| `Redirects.OnResponse` | src/proxy.ts:96-141 | one hop raises the redirect count by at most one, and a followed hop stays within `maxRedirects` |
| `Redirects.DeliveredShape` | src/proxy.ts:130-140 | a hop that does not follow delivers the CORS-completed headers with the count raised only for a usable 301 to 303 |
| `Redirects.FollowedShape` | src/proxy.ts:113-127 | a hop that follows moves to the target with a bodiless GET and writes the diagnostic header |
| `Redirects.FollowedTo` | src/proxy.ts:113-127 | the same, with the resolved URL and its parse named |
| `Redirects.BeforeCorsHeaders` | src/proxy.ts:131-138 | before the CORS headers: no cookies; `x-final-url` is the current target; `Location` is routed through the proxy exactly when the redirect had a usable target |
| `Redirects.FollowedRedirect` | src/proxy.ts:113-127 | a followed redirect: the count goes up by one and stays within the limit; the diagnostic header says status and target; `content-length` is 0; `content-type` is gone; other request headers are kept |
| `Redirects.FollowedIff` | src/proxy.ts:105-115 | exactly the 301, 302 and 303 responses whose non-empty `Location` resolves to a parseable target are followed, while the limit allows |
| `Redirects.NotFollowedRewritesLocation` | src/proxy.ts:113-131 | a 307 or 308, or a 301 to 303 over the limit, is delivered with `Location` pointing back through the proxy, and the target stays the same |
| `Redirects.UnusableLocationUntouched` | src/proxy.ts:106-112 | a missing, empty or unparseable `Location` is left as it was, with the count and target unchanged |
| `Redirects.DeliveredHeaders` | src/proxy.ts:135-139 | every delivered response has no cookies, names the final URL, allows any origin and carries `withCORS` of its request |
| `Redirects.RequestUrlOnFirstHop` | src/proxy.ts:101-103 | `x-request-url` is written, with the original target, only while no redirect has been followed |
| `Redirects.HopKeepsDiagnostics` | src/proxy.ts:101-127 | each hop keeps the diagnostic headers exactly those of redirects 1 to min(count, maxRedirects) |
| `Redirects.RequestUrlKeepsDiagnostics` | src/proxy.ts:101-103 | writing `x-request-url` adds no diagnostic header |
| `Redirects.AddDiagnostic` | src/proxy.ts:116 | writing the header of redirect n after those of 1 to n-1 gives those of 1 to n |
| `Redirects.ChainKeepsDiagnostics` | src/proxy.ts:96-189 | over any chain of hops the diagnostic headers are those of redirects 1 to min(count, maxRedirects) |
| `Redirects.AtMostMaxRedirectsWritten` | src/proxy.ts:114-116 | no exchange ever carries a diagnostic header numbered 0 or above `maxRedirects` |
| `Redirects.EndlessRedirectsStop` | src/proxy.ts:114-131 | against a server that answers 302 for ever, redirect number `maxRedirects + 1` is delivered instead of followed, after exactly `maxRedirects` diagnostic headers, with its `Location` resolved against the last target and routed back through the proxy |
| `Redirects.EndlessRedirectsLastHop` | src/proxy.ts:114-131 | every 302 but the last is followed, leaving the count at the limit, and the chain delivers what one hop from there makes of the last |
| `Redirects.EndlessRedirectsFollowed` | src/proxy.ts:114-127 | while the limit allows, 302 after 302 is followed, one count each |
| `Redirects.ChainSnoc` | src/proxy.ts:96-189 | one more upstream response after a chain is one more hop from where the chain stopped, unless it already delivered |
| `Admission.LowerAll` | src/proxy.ts:213-215 | each normalised name is the lower-cased configured name |
| `Admission.NormalizeRequireHeader` | src/proxy.ts:207-217 | nothing is required for an absent, empty, non-list or empty-list option; otherwise the lower-cased names, one for a string |
| `Admission.AnyPresent` | src/proxy.ts:220 | true exactly when some required name is a property of the request headers |
| `Admission.RequiredNamesLowerCase` | src/proxy.ts:207-217 | every normalised name is its own lower case |
| `Admission.PlatformCalls` | src/proxy.ts:230-237 | the handler's calls are `withCORS` on an empty record, `parseURL` and `isValidHostName` on the platform, with the chosen port check |
| `Admission.Handle` | src/proxy.ts:223-323 | every reply has status 200, 301, 400, 403, 404 or 429, and a forwarded request goes to the target parsed from its path |
| `Admission.PreflightAnswered` | src/proxy.ts:230-235 | an `OPTIONS` request gets 200 with the CORS headers and no body, whatever the options, the path and the rate limit |
| `Admission.PlatformCallsCors` | src/proxy.ts:58-63 | the proxy's own `withCORS` allows any origin and writes the maximum age only for a preflight with a non-zero `corsMaxAge` |
| `Admission.ClaimedOnlyByHook` | src/proxy.ts:239-241 | the handler stops without a reply of its own exactly when the hook claims a non-preflight request |
| `Admission.ForwardIff` | src/proxy.ts:243-322 | a request is forwarded exactly when it passes every check in order, the rate limit says nothing truthy, and no same-origin redirect applies; it then carries the proxy's address and the rewritten headers |
| `Admission.RateAnswerUnused` | src/proxy.ts:291 | the rate-limit answer matters only to a request that reaches the callback |
| `Admission.CorsNeededAnswered` | src/proxy.ts:254-258 | a target whose host is `iscorsneeded` is answered 200 `no` with only a `Content-Type: text/plain` header |
| `Admission.PortRefused` | src/proxy.ts:260-264 | past the `iscorsneeded` test, a port the check refuses gets 400 "Invalid port" with the port after the message |
| `Admission.HeaderRequiredRefused` | src/proxy.ts:272-276 | a target that passes its checks but lacks every required header gets 400 "Header required" listing the names |
| `Admission.BlacklistRefused` | src/proxy.ts:278-283 | past the header check, a blacklisted origin gets 403 "Forbidden" naming it |
| `Admission.NotWhitelistedRefused` | src/proxy.ts:285-289 | past the blacklist, an origin missing from a non-empty whitelist gets 403 "Forbidden" naming it |
| `Admission.RateLimitedRefused` | src/proxy.ts:291-296 | a request that reaches the callback and gets a message is refused with 429 and that message after the origin |
| `Admission.NoTargetAnswered` | src/proxy.ts:243-252 | without a target the reply is 400 exactly for a scheme with a single slash and `ok` otherwise; the required headers are not consulted |
| `Admission.MissingSlashHasNoTarget` | src/proxy.ts:244 | a path with a scheme and a single slash never yields a target |
| `Admission.HttpSingleSlashRefused` | src/proxy.ts:244 | the same for `/http:/` |
| `Admission.HttpsSingleSlashRefused` | src/proxy.ts:244 | the same for `/https:/` |
| `Admission.MissingSlashAnswered` | src/proxy.ts:243-248 | on the proxy's own parser such a path gets 400 "Missing slash" unless the hook claims it |
| `Admission.PortCheckAsWritten` | src/proxy.ts:260 | as written, any port whose first digit is above 6 is refused, however small |
| `Admission.Port8080Refused` | src/proxy.ts:260 | the port 8080 is refused by the string comparison although it is in range |
| `Admission.Port8080RefusedByHandler` | src/proxy.ts:260-264 | with the check as written, the handler answers a request for port 8080 with 400 "Invalid port" |
| `Admission.PortCheckCorrected` | src/proxy.ts:260 | the numeric check refuses the numeral of a port exactly when it is above 65535 |
| `Admission.Port8080Forwarded` | src/proxy.ts:260-264 | with the numeric check, a request for port 8080 that passes the host check is forwarded under the defaults |
| `Admission.HostCheckCaseSensitive` | src/proxy.ts:266-270 | a target that is not an IP literal gets 404 exactly when the path does not start with a lower-case `/http:` or `/https:` |
| `Admission.SchemeTestCaseSensitive` | src/proxy.ts:266 | `/http://a` names its scheme for this test; `/HTTP://a` does not |
| `Admission.SameOriginRedirected` | src/proxy.ts:298-306 | with `redirectSameOrigin`, a target that continues the origin with `/` gets a 301 to itself with `vary: origin`, `cache-control: private` and the CORS headers |
| `Admission.ForwardedHeaders` | src/proxy.ts:311-317 | the forwarded request carries every configured header with its value and none of the removed ones; the other headers are the client's, minus the preflight headers |
| `Admission.ForwardedMirrorsNothing` | src/proxy.ts:311-317 | when `setHeaders` sets neither preflight header, the second `withCORS` on the forwarded request leaves the upstream's allow-methods and allow-headers |
| `Admission.ForwardedMirrorsSetHeader` | src/proxy.ts:311-317 | a non-empty `access-control-request-method` set by `setHeaders` reaches the forwarded request and becomes the response's allow-methods |
| `Admission.ProxyBaseUrlScheme` | src/proxy.ts:308-309 | the proxy's address uses `https` exactly when the connection is encrypted or `x-forwarded-proto` starts with `https` after white space |
| `Admission.DefaultsForward` | src/proxy.ts:192-205 | under the default options every request whose target passes the target checks is forwarded with its headers unchanged beyond `withCORS` |
| `Admission.RefusalsCarryCors` | src/proxy.ts:245-303 | every refusal (301, 400, 403, 404, 429) carries `access-control-allow-origin: *` |
| `Admission.TargetRefusalsCarryCors` | src/proxy.ts:260-303 | the refusals after the target is known carry the CORS headers they are given |
| `RateLimit.DigitRun` | src/rate-limiter.ts:7 | `\d+` takes the longest run of digits |
| `RateLimit.MatchLimit` | src/rate-limiter.ts:7-11 | a match has two non-empty digit counts, and an exemption text, when present, starts with a non-space and has no line terminator |
| `RateLimit.MatchTail` | src/rate-limiter.ts:7 | the tail after the counts keeps them and gives an exemption text of the same kind |
| `RateLimit.Trim` | src/rate-limiter.ts:19 | `trim()` leaves no white space at either end |
| `RateLimit.SplitWs` | src/rate-limiter.ts:19 | `split(/\s+/)` gives at least one piece |
| `RateLimit.Escape` | src/rate-limiter.ts:27 | escaping never shortens a host name |
| `RateLimit.UnescapeEscape` | src/rate-limiter.ts:27 | an escaped host name stands for exactly that host name in the pattern |
| `RateLimit.ClassEscapeNotLiteral` | src/rate-limiter.ts:20-23 | a source with an escaped letter or digit, such as `\d` or `\b`, is not read as a literal |
| `RateLimit.AlternativeEnd` | src/rate-limiter.ts:31-32 | the first alternative ends at an unescaped `\|` or at the end |
| `RateLimit.EscapedAlternativeEnd` | src/rate-limiter.ts:27-31 | an escaped host name contains no unescaped `\|`: its alternative runs to its end |
| `RateLimit.PartOf` | src/rate-limiter.ts:20 | a token is a regular expression exactly when it starts and ends with `/` |
| `RateLimit.PartTexts` | src/rate-limiter.ts:19-29 | one text per token, each the rendering of that token |
| `RateLimit.AlternativesOfJoin` | src/rate-limiter.ts:31 | escaped host names joined with `\|` split back into those escaped names |
| `RateLimit.HostListExempts` | src/rate-limiter.ts:19-47 | with host names only, a host is exempt exactly when it equals one of them, ignoring case |
| `RateLimit.RegExpTokenAsWritten` | src/rate-limiter.ts:23-31 | as written, the token `/foo/` becomes the text `/foo/i`, so `foo` is not exempt and `/foo/i` is |
| `RateLimit.FooRendered` | src/rate-limiter.ts:23-31 | the rendering of `/foo/` as written |
| `RateLimit.RegExpTokenCorrected` | src/rate-limiter.ts:20-23 | with the source of a `/…/` token in the pattern, a plain source exempts exactly that host, ignoring case |
| `RateLimit.PeriodTextSingular` | src/rate-limiter.ts:43 | the message says `minute` exactly for a period of one, and never `1 minutes` |
| `RateLimit.StripScheme` | src/rate-limiter.ts:46 | removing the scheme never lengthens the origin |
| `RateLimit.SchemesShareCounter` | src/rate-limiter.ts:46 | `http://` and `https://` origins of the same host are counted as one host |
| `RateLimit.Decide` | src/rate-limiter.ts:45-56 | without a limit the callback answers null and counts nothing |
| `RateLimit.ExemptLeavesTable` | src/rate-limiter.ts:47-49 | an exempt host is answered null and the table is not touched |
| `RateLimit.CheckCountsOnce` | src/rate-limiter.ts:50-55 | any other host's count rises by exactly one, whether it passes or not, and no other count changes; it is refused, with the message, exactly when the new count exceeds the maximum |
| `RateLimit.KthRequestLimited` | src/rate-limiter.ts:50-55 | within one period the k-th request of a host is counted k times and refused exactly when k exceeds the maximum |
| `RateLimit.FirstRequestAfterClearPasses` | src/rate-limiter.ts:37-55 | right after the periodic clear, the next request of every host passes when the maximum is at least one |
| `RateLimit.MalformedLimitNeverLimits` | src/rate-limiter.ts:7-11 | a limit text that does not match gives a callback that answers null to everything and counts nothing |
| `RateLimit.LimitRoundTrip` | src/rate-limiter.ts:7-19 | writing a maximum, a period and exempt tokens as a limit text and reading it back gives them back |
| `RateLimit.MatchOfFormatted` | src/rate-limiter.ts:7 | two digit runs and a space are matched as the two counts |
| `RateLimit.JoinOfTokens` | src/rate-limiter.ts:7-19 | tokens joined with spaces start and end with a non-space and have no line terminator |
| `RateLimit.SplitJoin` | src/rate-limiter.ts:19 | splitting at white space undoes joining tokens with single spaces |
| `RateLimit.RateLimiter.constructor` | src/rate-limiter.ts:5-35 | the checker starts with the parsed limit and an empty table |
| `RateLimit.RateLimiter.Check` | src/rate-limiter.ts:45-56 | `checkRateLimit(origin)` answers and updates the table as `Decide` says |
| `RateLimit.RateLimiter.Reset` | src/rate-limiter.ts:37-41 | the timer body deletes every host, leaving the table empty |
| `RateLimit.OnePerMinute` | tests/cors-server-limiter.test.ts:5-22 | with the limit `1 1` the first request of a host passes and the second is refused |
| `RateLimit.OnePerMinuteConfig` | src/rate-limiter.ts:7-14 | `1 1` configures one request per minute with no exemptions |
| `Proxy.RequestState.constructor` | src/proxy.ts:224-228 | a fresh state has the configured redirect limit, maximum age and resolver, and no redirect yet |
| `Proxy.Request.constructor` | src/proxy.ts:223 | an incoming request with its method, URL, headers and connection |
| `Proxy.ClientResponse.constructor` | src/proxy.ts:223 | the reply to the client starts with no headers |
| `Proxy.UpstreamResponse.constructor` | src/proxy.ts:96-99 | an upstream response with its status and headers |
| `Proxy.WithCors` | src/proxy.ts:58-76 | returns `Cors.CorsHeaders` of the headers and strips the mirrored preflight headers from the request |
| `Proxy.RouteChoice` | src/proxy.ts:144-182 | a request goes straight to the target with its path exactly when no upstream proxy applies; towards a proxy the request line is the full URL; `Host` is the target's either way |
| `Proxy.ProxyRequest` | src/proxy.ts:143-182 | sets the request line to the route's and changes nothing else |
| `Proxy.OnProxyResponse` | src/proxy.ts:96-141 | the new request, request state and headers are those `Redirects.OnResponse` gives; a followed redirect leaves the upstream headers alone and re-routes the request |
| `Proxy.FollowTo` | src/proxy.ts:113-127 | after a followed redirect, the state is `Redirects.OnResponse`'s and the request line is the new target's |
| `Proxy.Deliver` | src/proxy.ts:130-140 | the delivered headers and the request are those `Redirects.OnResponse` gives |
| `Proxy.LocateRedirect` | src/proxy.ts:105-111 | the resolved and parsed `Location` is the redirect target of `Redirects.RedirectTarget` |
| `Proxy.FollowRedirects` | src/proxy.ts:96-189 | running the hops over a list of upstream responses ends as `Redirects.RunChain` says |
| `Proxy.HandleRequest` | src/proxy.ts:223-323 | the decision is `Admission.Handle`'s under the chosen port check; the limiter is asked exactly when the request reaches the callback; a forwarded request leaves with the rewritten headers, a fresh state at the target and `proxyRequest`'s request line |
| `Proxy.TargetStep` | src/proxy.ts:243-270 | the reply without a target, the target checks, then `Admit`, as `Admission.NoTarget` and `Admission.CheckTarget` say |
| `Proxy.Admit` | src/proxy.ts:272-322 | the header, origin and rate checks, the same-origin redirect and the forwarded request, as `Admission.CheckOrigin` says |
| `Proxy.RemoveHeaders` | src/proxy.ts:311-313 | the loop leaves the request headers as `Headers.DeleteAll` says |
| `Proxy.InjectHeaders` | src/proxy.ts:315-317 | the loop leaves the request headers as `Headers.SetAll` says |

## Left out

- The HTTP server, `createServer`, the `http-proxy` library, `proxy.web`, body streaming and the error handler are not modelled. The model stops at the decision to forward and at each upstream status and header record.
- Replacing `proxyReq.on`, and the `removeAllListeners`, `once('error')` and `abort` calls before a redirect is followed, are not modelled. They manage the previous connection's events.
- `url.parse`, `url.resolve`, `net.isIPv4` and `net.isIPv6` are parameters (`TargetUrl.Platform`). Properties that depend on what they return are stated for any such function.
- `getProxyForUrl` and `handleInitialRequest` are options holding functions. The hook sees the request as a value, so a hook that writes the reply itself is not modelled.
- `checkRateLimit` is the `RateLimit.RateLimiter` passed to `Proxy.HandleRequest`. In `Admission.Handle` it is the answer the callback gives, so any callback is covered.
- The `setInterval` timer is not modelled. `RateLimit.RateLimiter.Reset` is its body, and the clock that calls it is outside the model.
- `RateLimit.Exempts`: a `/…/` token's own source is matched only as a literal of plain characters and of backslashes before characters other than letters and digits. Sources that use regular-expression operators, or escapes such as `\d`, `\w`, `\b` or `\1`, match nothing in the model. A source that is not a valid regular expression makes `new RegExp` throw at creation; the model does not cover that throw.
- `RateLimit.RateLimiter.constructor`: builds the exemption pattern with the source of each `/…/` token, the evidently intended behaviour. The rendering as written is `RateLimit.RegExpTokenAsWritten` (see Findings).
- `Admission.Handle`: takes the port check as a choice (`Admission.Calls.portAsWritten`). With `true` it compares strings as the source does; with `false` it reads the port as a number, the evidently intended behaviour (see Findings). Every property of the handler is stated for both, except the two lemmas about port 8080.
- `Proxy.HandleRequest`: takes the same choice as its `portAsWritten` argument, `true` being the source's comparison.
- `Proxy.TargetStep`: takes the same choice from `Proxy.HandleRequest`.
- `parseInt` is exact here. JavaScript loses precision above 2^53, which the model does not reproduce.
- `Object.keys` puts integer-like names first. Names such as `__proto__` inherited from the object prototype are not modelled. Header records and the counts table keep insertion order and plain keys.
- `toLowerCase` and the `i` flag are modelled on ASCII letters only. String `<` compares characters, not UTF-16 code units; the two agree on the digits it is used with.
- Node matches reply header names ignoring case and stores them in lower case. The model stores reply header names in lower case too, so `X-CORS-Redirect-<n>` is kept as `x-cors-redirect-<n>`.
- Concurrency between requests is not modelled: each request runs to completion, as it does on Node's single thread.

## Findings

| source | as written | input that shows it | evidently intended | confidence | as-written member | corrected member |
|---|---|---|---|---|---|---|
| src/proxy.ts:260 | `location.port > '65535'` compares two strings character by character | a target on port 8080 (also 80 or 7000) is refused with 400 "Invalid port" | refuse a port whose numeric value exceeds 65535 | not executed | `Admission.Port8080RefusedByHandler` | `Admission.Port8080Forwarded` |
| src/rate-limiter.ts:23-31 | a `/…/` token becomes a `RegExp` object, and `join('\|')` turns it into `/source/i` | the limit `1 1 /foo/` does not exempt the origin `http://foo`, but exempts a host spelled `/foo/i` | put the token's source into the joined pattern | not executed | `RateLimit.RegExpTokenAsWritten` | `RateLimit.RegExpTokenCorrected` |

The port check compares strings (see Findings). The required-header check runs only after the
target checks, so a request without a target gets 200 `ok` or 400 "Missing slash" whatever its
headers (`Admission.NoTargetAnswered`).
