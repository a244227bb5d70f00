/**
 * `parseURL` (src/proxy.ts:78-94): extracting the proxied target from the request path.
 * The anchored pattern of its first line is matched by hand, with the same captures
 * and the same preferences as the regular expression engine; Node's `url.parse`,
 * `url.resolve` and `net.isIPv4`/`net.isIPv6` are fields of a `Platform` value.
 */
module TargetUrl {
  import opened Wrappers
  import opened JsStrings

  /** The fields of a parsed URL that the proxy reads; `hostname` is "" where Node gives null. */
  datatype Location = Location(
    protocol: Option<string>,
    host: Option<string>,
    hostname: string,
    port: Option<string>,
    path: string,
    href: string)

  /** The Node library functions the proxy calls but does not define. */
  datatype Platform = Platform(
    urlParse: string -> Location,
    urlResolve: (string, string) -> string,
    isIPv4: string -> bool,
    isIPv6: string -> bool)

  /** `isValidHostName`: the host name is an IPv4 or an IPv6 literal. */
  predicate IsValidHostName(p: Platform, hostname: string) {
    p.isIPv4(hostname) || p.isIPv6(hostname)
  }

  /** `[\/?]`: the characters that end the host[:port] part. */
  predicate EndsAuthority(c: char) {
    c == '/' || c == '?'
  }

  /** Where the host[:port] part that starts `s` ends. */
  function AuthorityEnd(s: string): (k: nat)
    ensures k <= |s|
    ensures forall i :: 0 <= i < k ==> !EndsAuthority(s[i])
    ensures k < |s| ==> EndsAuthority(s[k])
  {
    if s == [] || EndsAuthority(s[0]) then 0 else 1 + AuthorityEnd(s[1..])
  }

  /** `(?::(\d{0,5})(?=[\/?]|$))` matches from index `j` of the host[:port] part `a` to its end. */
  predicate PortAt(a: string, j: nat) {
    j < |a| && a[j] == ':' && |a| - (j + 1) <= 5 && AllDigits(a[j + 1..])
  }

  /** The lazy `[^\/?]+?`: the first index from `j` on at which the port group can take over. */
  function FirstPortAt(a: string, j: nat): (r: Option<nat>)
    requires j <= |a|
    ensures r.Some? ==> j <= r.value < |a| && PortAt(a, r.value)
    ensures forall i :: j <= i < |a| && (r.None? || i < r.value) ==> !PortAt(a, i)
    decreases |a| - j
  {
    if j == |a| then None
    else if PortAt(a, j) then Some(j)
    else FirstPortAt(a, j + 1)
  }

  /**
   * The captures of a successful match: `prefix` is the text before the host,
   * `scheme` is group 1, `hostname` group 3, `port` group 4 and `rest` group 5.
   */
  datatype TargetMatch = TargetMatch(
    prefix: string,
    scheme: Option<string>,
    hostname: string,
    port: Option<string>,
    rest: string)
  {
    /** Group 2: host and optional port, as they appear in the input. */
    function Authority(): string {
      hostname + (if port.Some? then ":" + port.value else "")
    }
  }

  /**
   * What the pattern demands of its captures: a non-empty host name (`+?`), a host and
   * port free of `/` and `?`, at most five port digits, a rest that is empty or starts
   * with `/` or `?`, and no earlier place where the lazy host name could have stopped.
   */
  predicate WellShaped(m: TargetMatch) {
    && m.hostname != []
    && (forall i :: 0 <= i < |m.Authority()| ==> !EndsAuthority(m.Authority()[i]))
    && (m.rest == [] || EndsAuthority(m.rest[0]))
    && (m.port.Some? ==> |m.port.value| <= 5 && AllDigits(m.port.value))
    && (forall i :: 1 <= i < |m.hostname| ==> !PortAt(m.Authority(), i))
  }

  /** Groups 2 to 5, matched against what follows the prefix. */
  function MatchAuthority(prefix: string, scheme: Option<string>, r: string): (m: Option<TargetMatch>)
    ensures m.Some? <==> AuthorityEnd(r) > 0
    ensures m.Some? ==> WellShaped(m.value)
    ensures m.Some? ==> m.value.prefix == prefix && m.value.scheme == scheme
    ensures m.Some? ==> r == m.value.Authority() + m.value.rest
  {
    var k := AuthorityEnd(r);
    if k == 0 then None
    else
      assert r == r[..k] + r[k..];
      SplitShaped(prefix, scheme, r[..k], r[k..]);
      Some(Split(prefix, scheme, r[..k], r[k..]))
  }

  /** The captures for the host[:port] part `a` and the rest: the port starts at the first place the lazy host name lets it. */
  function Split(prefix: string, scheme: Option<string>, a: string, rest: string): TargetMatch
    requires a != []
  {
    match FirstPortAt(a, 1)
    case Some(j) => TargetMatch(prefix, scheme, a[..j], Some(a[j + 1..]), rest)
    case None => TargetMatch(prefix, scheme, a, None, rest)
  }

  lemma SplitShaped(prefix: string, scheme: Option<string>, a: string, rest: string)
    requires a != [] && forall i :: 0 <= i < |a| ==> !EndsAuthority(a[i])
    requires rest == [] || EndsAuthority(rest[0])
    ensures var m := Split(prefix, scheme, a, rest);
      WellShaped(m) && m.Authority() == a && m.rest == rest && m.prefix == prefix && m.scheme == scheme
  {
    match FirstPortAt(a, 1)
    case Some(j) =>
      var m := TargetMatch(prefix, scheme, a[..j], Some(a[j + 1..]), rest);
      assert a == a[..j] + ":" + a[j + 1..];
      ShapedWhen(m, a);
    case None =>
      ShapedWhen(TargetMatch(prefix, scheme, a, None, rest), a);
  }

  /** The conditions of `WellShaped`, stated about the host[:port] text `a` the captures spell. */
  lemma ShapedWhen(m: TargetMatch, a: string)
    requires m.Authority() == a && m.hostname != []
    requires forall i :: 0 <= i < |a| ==> !EndsAuthority(a[i])
    requires m.rest == [] || EndsAuthority(m.rest[0])
    requires m.port.Some? ==> |m.port.value| <= 5 && AllDigits(m.port.value)
    requires forall i :: 1 <= i < |m.hostname| ==> !PortAt(a, i)
    ensures WellShaped(m)
  {
  }

  /** Groups 2 to 5 after the first `n` characters of `s`, which form the prefix. */
  function MatchAfter(s: string, n: nat, scheme: Option<string>): (m: Option<TargetMatch>)
    requires n <= |s|
    ensures m.Some? <==> AuthorityEnd(s[n..]) > 0
    ensures m.Some? ==> s == m.value.prefix + m.value.Authority() + m.value.rest && WellShaped(m.value)
    ensures m.Some? ==> m.value.prefix == s[..n] && m.value.scheme == scheme
  {
    var m := MatchAuthority(s[..n], scheme, s[n..]);
    assert s == s[..n] + s[n..];
    m
  }

  /**
   * `req_url.match(/^(?:(https?:)?\/\/)?(([^\/?]+?)(?::(\d{0,5})(?=[\/?]|$))?)([\/?][\S\s]*|$)/i)`.
   * The optional prefix is greedy: a scheme with `//` is taken when the rest still
   * matches, then a bare `//`, then nothing.
   */
  function MatchTarget(s: string): (r: Option<TargetMatch>)
    ensures r.Some? ==> s == r.value.prefix + r.value.Authority() + r.value.rest && WellShaped(r.value)
    ensures r.Some? && r.value.scheme.Some? ==>
      r.value.prefix == r.value.scheme.value + "//"
      && (EqualsIgnoreCase(r.value.scheme.value, "http:") || EqualsIgnoreCase(r.value.scheme.value, "https:"))
    ensures r.Some? && r.value.scheme.None? ==> r.value.prefix == "" || r.value.prefix == "//"
  {
    if StartsWithIgnoreCase(s, "https://") && AuthorityEnd(s[8..]) > 0 then
      SchemeOfPrefix(s, "https://");
      MatchAfter(s, 8, Some(s[..6]))
    else if StartsWithIgnoreCase(s, "http://") && AuthorityEnd(s[7..]) > 0 then
      SchemeOfPrefix(s, "http://");
      MatchAfter(s, 7, Some(s[..5]))
    else if StartsWith(s, "//") && AuthorityEnd(s[2..]) > 0 then
      MatchAfter(s, 2, None)
    else
      MatchAfter(s, 0, None)
  }

  /** A prefix `<scheme>//` that matches ignoring case splits into the scheme and `//`. */
  lemma SchemeOfPrefix(s: string, p: string)
    requires p == "https://" || p == "http://"
    requires StartsWithIgnoreCase(s, p)
    ensures s[..|p|] == s[..|p| - 2] + "//"
    ensures EqualsIgnoreCase(s[..|p| - 2], "http:") || EqualsIgnoreCase(s[..|p| - 2], "https:")
  {
    var n := |p|;
    assert Lower(s[..n])[n - 2] == '/' && Lower(s[..n])[n - 1] == '/';
    assert Lower(s[..n - 2]) == Lower(s[..n])[..n - 2];
    assert Lower(s[..n - 2]) == Lower(p)[..n - 2] == p[..n - 2];
  }

  /** `/^https?:/i.test(req_url)`. */
  predicate HasSchemeToken(s: string) {
    StartsWithIgnoreCase(s, "http:") || StartsWithIgnoreCase(s, "https:")
  }

  /**
   * The string `parseURL` hands to `url.parse`: the input itself when the pattern
   * captured a scheme; nothing when it did not but the input starts with `http:` or
   * `https:` (a scheme missing a slash); otherwise the input behind a default scheme,
   * `https:` exactly when the captured port is "443".
   */
  function UrlToParse(s: string): (r: Option<string>)
    ensures MatchTarget(s).None? ==> r.None?
    ensures r.Some? ==> r.value == s || r.value == "http://" + s || r.value == "https://" + s
  {
    match MatchTarget(s)
    case None => None
    case Some(m) =>
      if m.scheme.Some? then Some(s)
      else if HasSchemeToken(s) then None
      else if m.port == Some("443") then Some("https://" + s)
      else Some("http://" + s)
  }

  /** `parseURL`: the parsed target, or `None` where the source returns null. */
  function ParseUrl(s: string, p: Platform): (r: Option<Location>)
    ensures r.Some? ==> r.value.hostname != ""
    ensures r.Some? <==> UrlToParse(s).Some? && p.urlParse(UrlToParse(s).value).hostname != ""
    ensures r.Some? ==> r.value == p.urlParse(UrlToParse(s).value)
  {
    match UrlToParse(s)
    case None => None
    case Some(u) =>
      var loc := p.urlParse(u);
      if loc.hostname == "" then None else Some(loc)
  }

  /** The pattern fails exactly on an empty input, one that starts with `?`, and one that starts with `/` but not with `//` and a host. */
  lemma MatchTargetFailsIff(s: string)
    ensures MatchTarget(s).None? <==>
      (s == [] || s[0] == '?' || (s[0] == '/' && !(|s| > 2 && s[1] == '/' && !EndsAuthority(s[2]))))
  {
    if s != [] && !EndsAuthority(s[0]) {
      assert AuthorityEnd(s) > 0;
    }
    if |s| > 2 && s[0] == '/' && s[1] == '/' && !EndsAuthority(s[2]) {
      assert StartsWith(s, "//") && s[2..][0] == s[2];
    }
  }

  /** A scheme followed by fewer than two slashes is refused, whatever follows. */
  lemma MissingSlashRefused(s: string)
    requires HasSchemeToken(s)
    requires !StartsWithIgnoreCase(s, "http://") && !StartsWithIgnoreCase(s, "https://")
    ensures UrlToParse(s).None?
  {
  }

  /** Every string handed to `url.parse` names its scheme before `//`. */
  lemma {:induction false} UrlToParseHasScheme(s: string)
    requires UrlToParse(s).Some?
    ensures StartsWithIgnoreCase(UrlToParse(s).value, "http://") || StartsWithIgnoreCase(UrlToParse(s).value, "https://")
  {
    var m := MatchTarget(s).value;
    var u := UrlToParse(s).value;
    if m.scheme.Some? {
      assert u == s;
      SchemeThenSlashes(u, m.scheme.value);
    } else if m.port == Some("443") {
      DefaultScheme("https://", s);
    } else {
      DefaultScheme("http://", s);
    }
  }

  /** A captured scheme followed by `//` starts the string as `http://` or `https://`, ignoring case. */
  lemma SchemeThenSlashes(u: string, sc: string)
    requires |sc| + 2 <= |u| && u[..|sc| + 2] == sc + "//"
    requires EqualsIgnoreCase(sc, "http:") || EqualsIgnoreCase(sc, "https:")
    ensures StartsWithIgnoreCase(u, "http://") || StartsWithIgnoreCase(u, "https://")
  {
    if EqualsIgnoreCase(sc, "http:") {
      assert Lower(u[..7]) == Lower(sc) + "//";
    } else {
      assert Lower(u[..8]) == Lower(sc) + "//";
    }
  }

  /** A default scheme put in front starts the string. */
  lemma DefaultScheme(prefix: string, s: string)
    requires prefix == "http://" || prefix == "https://"
    ensures StartsWithIgnoreCase(prefix + s, prefix)
  {
    assert (prefix + s)[..|prefix|] == prefix;
  }

  /**
   * A target written without a scheme is parsed exactly as the same target written
   * with the default scheme in front: `https://` for port "443", `http://` otherwise.
   */
  lemma {:induction false} ImplicitSchemeSameTarget(s: string, p: Platform)
    requires MatchTarget(s).Some? && MatchTarget(s).value.prefix == ""
    requires !HasSchemeToken(s)
    ensures var m := MatchTarget(s).value;
      var explicit := (if m.port == Some("443") then "https://" else "http://") + s;
      && MatchTarget(explicit).Some?
      && MatchTarget(explicit).value.scheme.Some?
      && MatchTarget(explicit).value.Authority() == m.Authority()
      && MatchTarget(explicit).value.rest == m.rest
      && UrlToParse(explicit) == UrlToParse(s) == Some(explicit)
      && ParseUrl(explicit, p) == ParseUrl(s, p)
  {
    var m := MatchTarget(s).value;
    assert s == m.Authority() + m.rest;
    assert AuthorityEnd(s) > 0 by {
      assert s[0] == m.Authority()[0];
    }
    var e := (if m.port == Some("443") then "https://" else "http://") + s;
    var n := if m.port == Some("443") then 8 else 7;
    if n == 8 {
      MatchWithHttps(s);
    } else {
      MatchWithHttp(s);
    }
    var x := MatchTarget(e).value;
    assert x.prefix == e[..n] && e == e[..n] + s;
    assert s == x.Authority() + x.rest;
    ShapeDeterminesCaptures(s, x, m);
  }

  /** Behind an explicit `https://`, a host always makes the pattern capture the scheme. */
  lemma MatchWithHttps(s: string)
    requires AuthorityEnd(s) > 0
    ensures var e := "https://" + s;
      MatchTarget(e) == MatchAfter(e, 8, Some(e[..6]))
  {
    var e := "https://" + s;
    assert e[8..] == s;
    assert e[..8] == "https://";
  }

  /** Behind an explicit `http://`, a host always makes the pattern capture the scheme. */
  lemma MatchWithHttp(s: string)
    requires AuthorityEnd(s) > 0
    ensures var e := "http://" + s;
      MatchTarget(e) == MatchAfter(e, 7, Some(e[..5]))
  {
    var e := "http://" + s;
    assert e[7..] == s;
    assert e[..7] == "http://";
    assert !StartsWithIgnoreCase(e, "https://") by {
      assert Lower(e[..8])[4] == ':';
    }
  }

  /** Two well-shaped matches of the same text after their prefixes capture the same groups. */
  lemma ShapeDeterminesCaptures(s: string, a: TargetMatch, b: TargetMatch)
    requires WellShaped(a) && WellShaped(b)
    requires s == a.Authority() + a.rest == b.Authority() + b.rest
    ensures a.Authority() == b.Authority() && a.rest == b.rest
  {
    var k := AuthorityEnd(s);
    AuthorityEndOf(a.Authority(), a.rest);
    AuthorityEndOf(b.Authority(), b.rest);
    assert a.Authority() == s[..k] && a.rest == s[k..];
    assert b.Authority() == s[..k] && b.rest == s[k..];
  }

  lemma {:induction false} AuthorityEndOf(a: string, rest: string)
    requires forall i :: 0 <= i < |a| ==> !EndsAuthority(a[i])
    requires rest == [] || EndsAuthority(rest[0])
    ensures AuthorityEnd(a + rest) == |a|
    decreases |a|
  {
    if a != [] {
      AuthorityEndOf(a[1..], rest);
      assert (a + rest)[1..] == a[1..] + rest;
    } else {
      assert a + rest == rest;
    }
  }
}
