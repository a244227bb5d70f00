/**
 * `createRateLimitChecker` (src/rate-limiter.ts): a limit of the form
 * "<count> <minutes> [exempt hosts]", a table counting the requests of each host in the
 * current period, and the periodic clear of that table. The configuration is read by
 * functions; the checker is the class `RateLimiter`, whose `Check` and `Reset` change
 * the table in place and are proved against `Decide` and the empty table.
 */
module RateLimit {
  import opened Wrappers
  import opened JsStrings

  /** The length of the run of `\d` that starts `s`. */
  function DigitRun(s: string): (k: nat)
    ensures k <= |s| && AllDigits(s[..k])
    ensures k < |s| ==> !IsDigit(s[k])
  {
    if s == [] || !IsDigit(s[0]) then 0
    else
      var k := 1 + DigitRun(s[1..]);
      assert s[..k] == [s[0]] + s[1..][..k - 1];
      k
  }

  predicate AllSpace(s: string) {
    forall i :: 0 <= i < |s| ==> IsSpace(s[i])
  }

  predicate NoLineTerminator(s: string) {
    forall i :: 0 <= i < |s| ==> !IsLineTerminator(s[i])
  }

  predicate NoSpace(s: string) {
    forall i :: 0 <= i < |s| ==> !IsSpace(s[i])
  }

  /** The three groups of `^(\d+) (\d+)(?:\s*$|\s+(.+)$)`. */
  datatype LimitMatch = LimitMatch(count: string, period: string, exempt: Option<string>)

  /**
   * `/^(\d+) (\d+)(?:\s*$|\s+(.+)$)/.exec(limit)`. Both digit runs are maximal, as a
   * space or the end must follow them; a tail of white space only leaves the third
   * group unset; otherwise the tail must start with white space, and the third group
   * is what follows the longest such run, which `.` must cover to the end.
   */
  function MatchLimit(s: string): (r: Option<LimitMatch>)
    ensures r.Some? ==> r.value.count != [] && AllDigits(r.value.count) && r.value.period != [] && AllDigits(r.value.period)
    ensures r.Some? && r.value.exempt.Some? ==>
      var e := r.value.exempt.value;
      e != [] && !IsSpace(e[0]) && NoLineTerminator(e)
  {
    var a := DigitRun(s);
    if a == 0 || a == |s| || s[a] != ' ' then None
    else
      var t := s[a + 1..];
      var b := DigitRun(t);
      if b == 0 then None else MatchTail(s[..a], t[..b], t[b..])
  }

  /** `(?:\s*$|\s+(.+)$)` after the two counts. */
  function MatchTail(count: string, period: string, tail: string): (r: Option<LimitMatch>)
    ensures r.Some? ==> r.value.count == count && r.value.period == period
    ensures r.Some? && r.value.exempt.Some? ==>
      var e := r.value.exempt.value;
      e != [] && !IsSpace(e[0]) && NoLineTerminator(e)
  {
    if AllSpace(tail) then Some(LimitMatch(count, period, None))
    else
      var w := SpaceRun(tail);
      if w == 0 || !NoLineTerminator(tail[w..]) then None
      else Some(LimitMatch(count, period, Some(tail[w..])))
  }

  /** `s.trim()`. */
  function Trim(s: string): (r: string)
    ensures r == [] || (!IsSpace(r[0]) && !IsSpace(r[|r| - 1]))
  {
    var k := SpaceRun(s);
    TrimEnd(s[k..])
  }

  function TrimEnd(s: string): (r: string)
    ensures r == [] || !IsSpace(r[|r| - 1])
    ensures |r| <= |s| && r == s[..|r|]
  {
    if s == [] then s
    else if IsSpace(s[|s| - 1]) then TrimEnd(s[..|s| - 1])
    else s
  }

  /** `s.split(/\s+/)`: the pieces between runs of white space. */
  function SplitWs(s: string): (r: seq<string>)
    ensures |r| >= 1
    decreases |s|
  {
    var k := NonSpaceRun(s);
    if k == |s| then [s]
    else [s[..k]] + SplitWs(s[k + SpaceRun(s[k..])..])
  }

  /** The length of the run of characters other than `\s` that starts `s`. */
  function NonSpaceRun(s: string): (k: nat)
    ensures k <= |s|
    ensures forall i :: 0 <= i < k ==> !IsSpace(s[i])
    ensures k < |s| ==> IsSpace(s[k])
  {
    if s == [] || IsSpace(s[0]) then 0 else 1 + NonSpaceRun(s[1..])
  }

  /** The characters the exemption builder escapes: `$()*+.?[\]^{|}`. */
  predicate IsSpecial(c: char) {
    c == '$' || c == '(' || c == ')' || c == '*' || c == '+' || c == '.' || c == '?'
    || c == '[' || c == '\\' || c == ']' || c == '^' || c == '{' || c == '|' || c == '}'
  }

  /** `t.replace(/[$()*+.?[\\\]^{|}]/g, '\\$&')`. */
  function Escape(t: string): (r: string)
    ensures |r| >= |t|
  {
    if t == [] then []
    else (if IsSpecial(t[0]) then ['\\', t[0]] else [t[0]]) + Escape(t[1..])
  }

  /**
   * The literal a regular expression source stands for, when it is a plain sequence of
   * ordinary characters and of backslashes before a character that is neither a letter
   * nor a digit; `None` when it uses an operator, or an escape such as `\d`, `\b` or
   * `\1` whose letter or digit gives it a meaning of its own.
   */
  function Unescape(p: string): Option<string>
    decreases |p|
  {
    if p == [] then Some([])
    else if p[0] == '\\' then
      if |p| < 2 || IsLetterOrDigit(p[1]) then None
      else match Unescape(p[2..])
        case Some(rest) => Some([p[1]] + rest)
        case None => None
    else if IsSpecial(p[0]) then None
    else match Unescape(p[1..])
      case Some(rest) => Some([p[0]] + rest)
      case None => None
  }

  /** The characters after a backslash that make a class, an assertion, a back-reference or a code escape. */
  predicate IsLetterOrDigit(c: char) {
    IsWordChar(c) && c != '_'
  }

  /** A source with `\d`, `\w`, `\s`, `\b`, `\1` or any other escaped letter or digit is not read as a literal. */
  lemma ClassEscapeNotLiteral(c: char, rest: string)
    requires IsLetterOrDigit(c)
    ensures Unescape(['\\', c] + rest) == None
  {
  }

  /** An escaped host name reads back as that host name. */
  lemma {:induction false} UnescapeEscape(t: string)
    ensures Unescape(Escape(t)) == Some(t)
  {
    if t != [] {
      UnescapeEscape(t[1..]);
      var e := Escape(t);
      if IsSpecial(t[0]) {
        assert e == ['\\', t[0]] + Escape(t[1..]);
        assert e[0] == '\\' && e[1] == t[0] && e[2..] == Escape(t[1..]);
      } else {
        assert e == [t[0]] + Escape(t[1..]);
        assert e[0] == t[0] && e[1..] == Escape(t[1..]);
      }
      assert [t[0]] + t[1..] == t;
    }
  }

  /** Where the first alternative of `p` ends: its first `|` that is not escaped, or its end. */
  function AlternativeEnd(p: string): (k: nat)
    ensures k <= |p|
    ensures k < |p| ==> p[k] == '|'
    decreases |p|
  {
    if p == [] || p[0] == '|' then 0
    else if p[0] == '\\' && |p| >= 2 then 2 + AlternativeEnd(p[2..])
    else 1 + AlternativeEnd(p[1..])
  }

  /** The alternatives of a regular expression source, split at its unescaped `|`. */
  function Alternatives(p: string): (r: seq<string>)
    ensures |r| >= 1
    decreases |p|
  {
    var k := AlternativeEnd(p);
    if k == |p| then [p] else [p[..k]] + Alternatives(p[k + 1..])
  }

  /** An escaped token has no unescaped `|`: the alternative it starts runs to its end. */
  lemma {:induction false} EscapedAlternativeEnd(t: string, q: string)
    ensures AlternativeEnd(Escape(t) + q) == |Escape(t)| + AlternativeEnd(q)
  {
    if t != [] {
      EscapedAlternativeEnd(t[1..], q);
      var r := Escape(t[1..]) + q;
      if IsSpecial(t[0]) {
        assert Escape(t) + q == ['\\', t[0]] + r;
        AlternativeEndEscaped(t[0], r);
      } else {
        assert Escape(t) + q == [t[0]] + r;
        AlternativeEndOrdinary(t[0], r);
      }
    } else {
      assert Escape(t) + q == q;
    }
  }

  /** An escaped character never ends an alternative. */
  lemma AlternativeEndEscaped(c: char, r: string)
    ensures AlternativeEnd(['\\', c] + r) == 2 + AlternativeEnd(r)
  {
    assert (['\\', c] + r)[2..] == r;
  }

  /** An ordinary character never ends an alternative. */
  lemma AlternativeEndOrdinary(c: char, r: string)
    requires !IsSpecial(c)
    ensures AlternativeEnd([c] + r) == 1 + AlternativeEnd(r)
  {
    assert ([c] + r)[1..] == r;
  }

  /** How `createRateLimitChecker` renders one exemption token inside the joined pattern. */
  datatype Part = Literal(host: string) | Raw(source: string)

  /** A token wrapped in slashes is a regular expression, any other token a host name. */
  function PartOf(token: string): (r: Part)
    ensures r.Raw? <==> |token| >= 1 && token[0] == '/' && token[|token| - 1] == '/'
  {
    if |token| >= 1 && token[0] == '/' && token[|token| - 1] == '/' then
      Raw(if |token| >= 2 then token[1..|token| - 1] else "")
    else Literal(token)
  }

  /** `String(new RegExp(source, 'i'))`: the slashes and the flag around the source, `(?:)` for an empty one. */
  function RegExpText(source: string): string {
    "/" + (if source == "" then "(?:)" else source) + "/i"
  }

  /**
   * The text a part contributes to `unlimitedPatternParts.join('|')`. As written, a
   * regular expression part is a `RegExp` object, which `join` turns into its
   * `/source/i` form; the evidently intended text is its source.
   */
  function PartText(part: Part, asWritten: bool): string {
    match part
    case Literal(host) => Escape(host)
    case Raw(source) => if asWritten then RegExpText(source) else source
  }

  function PartTexts(tokens: seq<string>, asWritten: bool): (r: seq<string>)
    ensures |r| == |tokens|
    ensures forall i :: 0 <= i < |tokens| ==> r[i] == PartText(PartOf(tokens[i]), asWritten)
  {
    if tokens == [] then [] else [PartText(PartOf(tokens[0]), asWritten)] + PartTexts(tokens[1..], asWritten)
  }

  /** The body of `^(?:…)$`: the parts joined with `|`. */
  function JoinedPattern(tokens: seq<string>, asWritten: bool): string {
    Join(PartTexts(tokens, asWritten), "|")
  }

  /**
   * `new RegExp('^(?:' + body + ')$', 'i').test(host)`, for a body whose alternatives
   * are literal: one of them equals the host, ignoring case. An alternative that uses
   * an operator matches nothing here.
   */
  predicate Exempts(body: string, host: string) {
    exists a :: a in Alternatives(body) && Unescape(a).Some? && EqualsIgnoreCase(Unescape(a).value, host)
  }

  /** Escaped host names joined with `|` split back into the escaped host names. */
  lemma {:induction false} AlternativesOfJoin(tokens: seq<string>, texts: seq<string>)
    requires |tokens| >= 1 && |texts| == |tokens|
    requires forall i :: 0 <= i < |tokens| ==> texts[i] == Escape(tokens[i])
    ensures Alternatives(Join(texts, "|")) == texts
    decreases |tokens|
  {
    if |tokens| == 1 {
      EscapedAlternativeEnd(tokens[0], "");
      assert Escape(tokens[0]) + "" == Escape(tokens[0]);
    } else {
      AlternativesOfJoin(tokens[1..], texts[1..]);
      AlternativesOfJoinCons(tokens[0], texts);
    }
  }

  /** The step of `AlternativesOfJoin`: the first escaped host name is split off at the `|` after it. */
  lemma AlternativesOfJoinCons(token: string, texts: seq<string>)
    requires |texts| >= 2 && texts[0] == Escape(token)
    requires Alternatives(Join(texts[1..], "|")) == texts[1..]
    ensures Alternatives(Join(texts, "|")) == texts
  {
    var rest := Join(texts[1..], "|");
    assert Join(texts, "|") == texts[0] + ("|" + rest);
    EscapedAlternativeEnd(token, "|" + rest);
    AlternativesCons(texts[0], rest);
    assert [texts[0]] + texts[1..] == texts;
  }

  /** An alternative that runs to a `|` is split off at it. */
  lemma AlternativesCons(first: string, rest: string)
    requires AlternativeEnd(first + ("|" + rest)) == |first|
    ensures Alternatives(first + ("|" + rest)) == [first] + Alternatives(rest)
  {
    var j := first + ("|" + rest);
    assert j[..|first|] == first && j[|first| + 1..] == rest;
  }

  /** With host names only, a host is exempt exactly when it equals one of them, ignoring case. */
  lemma HostListExempts(tokens: seq<string>, host: string)
    requires |tokens| >= 1
    requires forall i :: 0 <= i < |tokens| ==> PartOf(tokens[i]).Literal?
    ensures Exempts(JoinedPattern(tokens, true), host) <==> exists i :: 0 <= i < |tokens| && EqualsIgnoreCase(tokens[i], host)
  {
    var texts := PartTexts(tokens, true);
    assert forall i :: 0 <= i < |tokens| ==> texts[i] == Escape(tokens[i]);
    AlternativesOfJoin(tokens, texts);
    EscapedListExempts(tokens, texts, host);
  }

  /** `HostListExempts` once the joined text is known to split back into the escaped host names. */
  lemma EscapedListExempts(tokens: seq<string>, texts: seq<string>, host: string)
    requires |texts| == |tokens|
    requires forall i :: 0 <= i < |tokens| ==> texts[i] == Escape(tokens[i])
    requires Alternatives(Join(texts, "|")) == texts
    ensures Exempts(Join(texts, "|"), host) <==> exists i :: 0 <= i < |tokens| && EqualsIgnoreCase(tokens[i], host)
  {
    if exists i :: 0 <= i < |tokens| && EqualsIgnoreCase(tokens[i], host) {
      var i :| 0 <= i < |tokens| && EqualsIgnoreCase(tokens[i], host);
      ListedHostExempt(texts, tokens[i], texts[i], host);
    }
    if Exempts(Join(texts, "|"), host) {
      var a :| a in texts && Unescape(a).Some? && EqualsIgnoreCase(Unescape(a).value, host);
      var i :| 0 <= i < |texts| && texts[i] == a;
      UnescapeEscape(tokens[i]);
    }
  }

  /** An escaped host name among the alternatives exempts that host. */
  lemma ListedHostExempt(texts: seq<string>, token: string, text: string, host: string)
    requires text == Escape(token) && text in texts && Alternatives(Join(texts, "|")) == texts
    requires EqualsIgnoreCase(token, host)
    ensures Exempts(Join(texts, "|"), host)
  {
    UnescapeEscape(token);
  }

  /**
   * As written, a `/…/` token never exempts the host its source names: `join` renders
   * the token "/foo/" as the text "/foo/i", so the joined pattern `^(?:/foo/i)$` admits
   * the host "/foo/i" and not "foo".
   */
  lemma RegExpTokenAsWritten()
    ensures JoinedPattern(["/foo/"], true) == "/foo/i"
    ensures !Exempts(JoinedPattern(["/foo/"], true), "foo")
    ensures Exempts(JoinedPattern(["/foo/"], true), "/foo/i")
  {
    var body := JoinedPattern(["/foo/"], true);
    FooRendered();
    AlternativeEndPlain(body);
    UnescapePlain(body);
    assert Lower(body) != Lower("foo") by {
      assert |Lower(body)| == 6 && |Lower("foo")| == 3;
    }
  }

  /** As written, the token "/foo/" becomes the text "/foo/i" of the joined pattern. */
  lemma FooRendered()
    ensures JoinedPattern(["/foo/"], true) == "/foo/i"
  {
    assert "/foo/"[1..4] == "foo";
    assert PartOf("/foo/") == Raw("foo");
    assert RegExpText("foo") == "/foo/i";
    assert PartTexts(["/foo/"], true) == [PartText(Raw("foo"), true)];
  }

  /** A source free of operators has no unescaped `|`: its only alternative is itself. */
  lemma {:induction false} AlternativeEndPlain(p: string)
    requires forall i :: 0 <= i < |p| ==> !IsSpecial(p[i])
    ensures AlternativeEnd(p) == |p|
    ensures Alternatives(p) == [p]
    decreases |p|
  {
    if p != [] {
      AlternativeEndPlain(p[1..]);
    }
  }

  /**
   * With the source of a `/…/` token in the joined pattern, as evidently intended, a
   * token whose source is a plain host name exempts exactly that host, ignoring case.
   */
  lemma RegExpTokenCorrected(token: string, host: string)
    requires PartOf(token).Raw?
    requires forall i :: 0 <= i < |PartOf(token).source| ==> !IsSpecial(PartOf(token).source[i])
    ensures Exempts(JoinedPattern([token], false), host) <==> EqualsIgnoreCase(PartOf(token).source, host)
  {
    var src := PartOf(token).source;
    assert JoinedPattern([token], false) == src;
    AlternativeEndPlain(src);
    UnescapePlain(src);
    assert src in Alternatives(src);
  }

  /** A source free of operators stands for itself. */
  lemma {:induction false} UnescapePlain(p: string)
    requires forall i :: 0 <= i < |p| ==> !IsSpecial(p[i])
    ensures Unescape(p) == Some(p)
    decreases |p|
  {
    if p != [] {
      UnescapePlain(p[1..]);
      assert [p[0]] + p[1..] == p;
    }
  }

  /** What the checker is configured with: nothing when the limit is malformed. */
  datatype Limit =
    | Unlimited
    | Limited(maxRequests: nat, periodMinutes: nat, exempt: Option<string>)

  /** `parseInt` of the two counts and, when the third group is set, the joined exemption body. */
  function Configure(limit: string, asWritten: bool): Limit {
    match MatchLimit(limit)
    case None => Unlimited
    case Some(m) =>
      Limited(DecimalValue(m.count), DecimalValue(m.period),
        if m.exempt.Some? then Some(JoinedPattern(SplitWs(Trim(m.exempt.value)), asWritten)) else None)
  }

  /** The message returned to a limited host. */
  function Message(maxRequests: nat, periodMinutes: nat): string {
    MessageHead + NatToString(maxRequests) + " per " + PeriodText(periodMinutes) + MessageTail
  }

  const MessageHead := "The number of requests is limited to "
  const MessageTail := ". Please self-host CORS Anywhere if you need more quota. See https://github.com/Rob--W/cors-anywhere#demo-server"

  /** `periodInMinutes === 1 ? 'minute' : periodInMinutes + ' minutes'`. */
  function PeriodText(periodMinutes: nat): string {
    if periodMinutes == 1 then "minute" else NatToString(periodMinutes) + " minutes"
  }

  /** The message says `minute` for a period of one minute and `<n> minutes` otherwise, never `1 minutes`. */
  lemma PeriodTextSingular(periodMinutes: nat)
    ensures PeriodText(periodMinutes) == "minute" <==> periodMinutes == 1
    ensures periodMinutes != 1 ==> PeriodText(periodMinutes) != "1 minutes"
  {
    if periodMinutes != 1 {
      assert |PeriodText(periodMinutes)| >= 9;
    }
  }

  /** `origin.replace(/^[\w\-]+:\/\//i, '')`: the origin without its scheme. */
  function StripScheme(origin: string): (host: string)
    ensures |host| <= |origin|
  {
    var k := SchemeRun(origin);
    if k > 0 && StartsWith(origin[k..], "://") then origin[k + 3..] else origin
  }

  /** The length of the run of `[\w\-]` that starts `s`. */
  function SchemeRun(s: string): (k: nat)
    ensures k <= |s|
    ensures k < |s| ==> !(IsWordChar(s[k]) || s[k] == '-')
  {
    if s == [] || !(IsWordChar(s[0]) || s[0] == '-') then 0 else 1 + SchemeRun(s[1..])
  }

  /** `http://` and `https://` origins of the same host share one counter. */
  lemma SchemesShareCounter(host: string)
    ensures StripScheme("http://" + host) == host
    ensures StripScheme("https://" + host) == host
  {
    SchemeRunOf("http", "://" + host);
    SchemeRunOf("https", "://" + host);
    assert "http://" + host == "http" + ("://" + host);
    assert "https://" + host == "https" + ("://" + host);
  }

  lemma {:induction false} SchemeRunOf(w: string, rest: string)
    requires forall i :: 0 <= i < |w| ==> IsWordChar(w[i])
    requires rest != [] && rest[0] == ':'
    ensures SchemeRun(w + rest) == |w|
    decreases |w|
  {
    if w == [] {
      assert w + rest == rest;
    } else {
      SchemeRunOf(w[1..], rest);
      assert (w + rest)[1..] == w[1..] + rest;
    }
  }

  /** The count of `host` in the table, 0 when absent (`accessedHosts[host] || 0`). */
  function CountOf(table: map<string, nat>, host: string): nat {
    if host in table then table[host] else 0
  }

  /** `checkRateLimit(origin)`: the message (or `None` for null) and the table afterwards. */
  function Decide(limit: Limit, table: map<string, nat>, origin: string): (r: (Option<string>, map<string, nat>))
    ensures limit.Unlimited? ==> r == (None, table)
  {
    match limit
    case Unlimited => (None, table)
    case Limited(maxRequests, periodMinutes, exempt) =>
      var host := StripScheme(origin);
      if exempt.Some? && Exempts(exempt.value, host) then (None, table)
      else
        var count := CountOf(table, host) + 1;
        (if count > maxRequests then Some(Message(maxRequests, periodMinutes)) else None, table[host := count])
  }

  /** An exempt host is answered null and the table is left as it was. */
  lemma ExemptLeavesTable(limit: Limit, table: map<string, nat>, origin: string)
    requires limit.Limited? && limit.exempt.Some? && Exempts(limit.exempt.value, StripScheme(origin))
    ensures Decide(limit, table, origin) == (None, table)
  {
  }

  /**
   * Any other host has its count raised by exactly one, whether it passes or not, no
   * other count changes, and it is limited exactly when the new count exceeds the maximum.
   */
  lemma CheckCountsOnce(limit: Limit, table: map<string, nat>, origin: string)
    requires limit.Limited? && !(limit.exempt.Some? && Exempts(limit.exempt.value, StripScheme(origin)))
    ensures var host := StripScheme(origin);
      var r := Decide(limit, table, origin);
      && CountOf(r.1, host) == CountOf(table, host) + 1
      && (forall other :: other != host ==> CountOf(r.1, other) == CountOf(table, other))
      && r.1.Keys == table.Keys + {host}
      && (r.0.Some? <==> CountOf(table, host) + 1 > limit.maxRequests)
      && (r.0.Some? ==> r.0.value == Message(limit.maxRequests, limit.periodMinutes))
  {
  }

  /** The table after `k` checks of `origin`, and the answer to the last one. */
  function Repeat(limit: Limit, table: map<string, nat>, origin: string, k: nat): (Option<string>, map<string, nat>)
    decreases k
  {
    if k == 0 then (None, table)
    else Decide(limit, Repeat(limit, table, origin, k - 1).1, origin)
  }

  /**
   * Within one period, the `k`-th request of a host that is not exempt is the first
   * counted `k` times, and it is refused exactly when `k` exceeds the maximum.
   */
  lemma {:induction false} KthRequestLimited(limit: Limit, table: map<string, nat>, origin: string, k: nat)
    requires limit.Limited? && !(limit.exempt.Some? && Exempts(limit.exempt.value, StripScheme(origin)))
    requires StripScheme(origin) !in table
    requires k >= 1
    ensures CountOf(Repeat(limit, table, origin, k).1, StripScheme(origin)) == k
    ensures Repeat(limit, table, origin, k).0.Some? <==> k > limit.maxRequests
  {
    var host := StripScheme(origin);
    if k == 1 {
      CheckCountsOnce(limit, table, origin);
    } else {
      KthRequestLimited(limit, table, origin, k - 1);
      CheckCountsOnce(limit, Repeat(limit, table, origin, k - 1).1, origin);
    }
  }

  /** Right after the periodic clear, every host's next request passes when at least one request is allowed. */
  lemma FirstRequestAfterClearPasses(limit: Limit, origin: string)
    requires limit.Limited? ==> limit.maxRequests >= 1
    ensures Decide(limit, map[], origin).0 == None
  {
  }

  /** A malformed limit gives a checker that answers null to everything and counts nothing. */
  lemma MalformedLimitNeverLimits(limit: string, asWritten: bool, table: map<string, nat>, origin: string)
    requires MatchLimit(limit).None?
    ensures Configure(limit, asWritten) == Unlimited
    ensures Decide(Configure(limit, asWritten), table, origin) == (None, table)
  {
  }

  /** The limit text for a maximum, a period and a list of exempt hosts. */
  function FormatLimit(maxRequests: nat, periodMinutes: nat, exempt: seq<string>): string {
    NatToString(maxRequests) + " " + NatToString(periodMinutes) + (if exempt == [] then "" else " " + Join(exempt, " "))
  }

  /** A well-formed token: non-empty and free of white space. */
  predicate IsToken(t: string) {
    t != [] && NoSpace(t)
  }

  /** Writing a limit and reading it back gives the maximum, the period and the exempt hosts. */
  lemma LimitRoundTrip(maxRequests: nat, periodMinutes: nat, exempt: seq<string>)
    requires forall i :: 0 <= i < |exempt| ==> IsToken(exempt[i])
    ensures var m := MatchLimit(FormatLimit(maxRequests, periodMinutes, exempt));
      && m.Some?
      && DecimalValue(m.value.count) == maxRequests
      && DecimalValue(m.value.period) == periodMinutes
      && (m.value.exempt.Some? <==> exempt != [])
      && (exempt != [] ==> SplitWs(Trim(m.value.exempt.value)) == exempt)
  {
    var a := NatToString(maxRequests);
    var b := NatToString(periodMinutes);
    if exempt == [] {
      MatchOfFormatted(a, b, "");
      assert FormatLimit(maxRequests, periodMinutes, exempt) == a + " " + b + "";
    } else {
      var j := Join(exempt, " ");
      var tail := " " + j;
      JoinOfTokens(exempt);
      assert tail[1..] == j;
      assert SpaceRun(tail[1..]) == 0;
      assert !AllSpace(tail) by {
        assert tail[1] == j[0];
      }
      MatchOfFormatted(a, b, tail);
      assert FormatLimit(maxRequests, periodMinutes, exempt) == a + " " + b + tail;
      TrimOfTrimmed(j);
      SplitJoin(exempt);
    }
  }

  /** The pattern on two digit runs separated by a space and followed by `tail`. */
  lemma MatchOfFormatted(a: string, b: string, tail: string)
    requires a != [] && AllDigits(a) && b != [] && AllDigits(b)
    requires tail == [] || !IsDigit(tail[0])
    ensures MatchLimit(a + " " + b + tail) == MatchTail(a, b, tail)
  {
    FormattedRuns(a, b, tail);
  }

  /** Where the digit runs of a formatted limit end. */
  lemma FormattedRuns(a: string, b: string, tail: string)
    requires a != [] && AllDigits(a) && b != [] && AllDigits(b)
    requires tail == [] || !IsDigit(tail[0])
    ensures var s := a + " " + b + tail;
      && DigitRun(s) == |a| < |s| && s[|a|] == ' ' && s[..|a|] == a && s[|a| + 1..] == b + tail
      && DigitRun(b + tail) == |b| && (b + tail)[..|b|] == b && (b + tail)[|b|..] == tail
  {
    var s := a + " " + b + tail;
    var t := b + tail;
    assert s == a + (" " + t);
    DigitRunOf(a, " " + t);
    DigitRunOf(b, tail);
  }

  lemma {:induction false} DigitRunOf(d: string, rest: string)
    requires AllDigits(d)
    requires rest == [] || !IsDigit(rest[0])
    ensures DigitRun(d + rest) == |d|
    decreases |d|
  {
    if d == [] {
      assert d + rest == rest;
    } else {
      DigitRunOf(d[1..], rest);
      assert (d + rest)[1..] == d[1..] + rest;
    }
  }

  /** Tokens joined with single spaces: first and last characters are not white space, and no line terminator occurs. */
  lemma {:induction false} JoinOfTokens(tokens: seq<string>)
    requires |tokens| >= 1
    requires forall i :: 0 <= i < |tokens| ==> IsToken(tokens[i])
    ensures var j := Join(tokens, " ");
      && j != [] && !IsSpace(j[0]) && !IsSpace(j[|j| - 1]) && NoLineTerminator(j)
    decreases |tokens|
  {
    var j := Join(tokens, " ");
    if |tokens| == 1 {
      assert j == tokens[0];
      forall i | 0 <= i < |j| ensures !IsLineTerminator(j[i]) {
        assert !IsSpace(j[i]);
      }
    } else {
      JoinOfTokens(tokens[1..]);
      var rest := Join(tokens[1..], " ");
      assert j == tokens[0] + " " + rest;
      assert j[0] == tokens[0][0];
      assert j[|j| - 1] == rest[|rest| - 1];
      forall i | 0 <= i < |j| ensures !IsLineTerminator(j[i]) {
        if i < |tokens[0]| {
          assert j[i] == tokens[0][i] && !IsSpace(tokens[0][i]);
        } else if i > |tokens[0]| {
          assert j[i] == rest[i - |tokens[0]| - 1];
        }
      }
    }
  }

  lemma TrimOfTrimmed(s: string)
    requires s != [] && !IsSpace(s[0]) && !IsSpace(s[|s| - 1])
    ensures Trim(s) == s
  {
    assert s[0..] == s;
  }

  /** Splitting tokens joined by single spaces at white space gives the tokens back. */
  lemma {:induction false} SplitJoin(tokens: seq<string>)
    requires |tokens| >= 1
    requires forall i :: 0 <= i < |tokens| ==> IsToken(tokens[i])
    ensures SplitWs(Join(tokens, " ")) == tokens
    decreases |tokens|
  {
    var t := tokens[0];
    if |tokens| == 1 {
      SplitSingle(t);
    } else {
      var rest := Join(tokens[1..], " ");
      JoinFirst(tokens[1..], " ");
      JoinCons(tokens, " ");
      SplitCons(t, rest);
      SplitJoin(tokens[1..]);
      HeadTail(tokens);
    }
  }

  /** A sequence is its first element followed by the rest. */
  lemma HeadTail<T>(s: seq<T>)
    requires |s| >= 1
    ensures [s[0]] + s[1..] == s
  {
  }

  /** Joining two or more parts puts the separator after the first. */
  lemma JoinCons(parts: seq<string>, sep: string)
    requires |parts| >= 2
    ensures Join(parts, sep) == parts[0] + (sep + Join(parts[1..], sep))
  {
    assert parts[0] + sep + Join(parts[1..], sep) == parts[0] + (sep + Join(parts[1..], sep));
  }

  /** A single token splits into itself. */
  lemma SplitSingle(t: string)
    requires IsToken(t)
    ensures SplitWs(t) == [t]
  {
    NonSpaceRunOf(t, []);
    assert t + [] == t;
  }

  /** A join starts with the first character of its first part. */
  lemma JoinFirst(parts: seq<string>, sep: string)
    requires |parts| >= 1 && parts[0] != []
    ensures Join(parts, sep) != [] && Join(parts, sep)[0] == parts[0][0]
  {
  }

  /** A token, one space and a text that starts with no white space split into the token and the pieces of the text. */
  lemma SplitCons(t: string, rest: string)
    requires IsToken(t) && rest != [] && !IsSpace(rest[0])
    ensures SplitWs(t + (" " + rest)) == [t] + SplitWs(rest)
  {
    var j := t + (" " + rest);
    var k := |t|;
    assert NonSpaceRun(j) == k by {
      NonSpaceRunOf(t, " " + rest);
    }
    assert j[k + SpaceRun(j[k..])..] == rest by {
      assert j[k..] == " " + rest;
      assert (" " + rest)[1..] == rest;
    }
    assert j[..k] == t;
  }

  lemma {:induction false} NonSpaceRunOf(t: string, rest: string)
    requires NoSpace(t)
    requires rest == [] || IsSpace(rest[0])
    ensures NonSpaceRun(t + rest) == |t|
    decreases |t|
  {
    if t == [] {
      assert t + rest == rest;
    } else {
      NonSpaceRunOf(t[1..], rest);
      assert (t + rest)[1..] == t[1..] + rest;
    }
  }

  /**
   * The checker `createRateLimitChecker` returns. `limit` is fixed at creation;
   * `accessedHosts` is the table of counts of the current period.
   */
  class RateLimiter {
    const limit: Limit
    var accessedHosts: map<string, nat>

    /** `createRateLimitChecker(text)`, with an empty table. */
    constructor (text: string)
      ensures limit == Configure(text, false)
      ensures accessedHosts == map[]
    {
      limit := Configure(text, false);
      accessedHosts := map[];
    }

    /** `checkRateLimit(origin)`. */
    method Check(origin: string) returns (message: Option<string>)
      modifies this
      ensures (message, accessedHosts) == Decide(limit, old(accessedHosts), origin)
    {
      if limit.Unlimited? {
        return None;
      }
      var host := StripScheme(origin);
      if limit.exempt.Some? && Exempts(limit.exempt.value, host) {
        return None;
      }
      var count := if host in accessedHosts then accessedHosts[host] else 0;
      accessedHosts := accessedHosts[host := count + 1];
      if count + 1 > limit.maxRequests {
        message := Some(Message(limit.maxRequests, limit.periodMinutes));
      } else {
        message := None;
      }
    }

    /** The body of the periodic timer: every host of the table deleted, one by one. */
    method Reset()
      modifies this
      ensures accessedHosts == map[]
    {
      var keys := accessedHosts.Keys;
      while keys != {}
        invariant accessedHosts.Keys == keys
        decreases |keys|
      {
        var host :| host in keys;
        accessedHosts := map h | h in accessedHosts && h != host :: accessedHosts[h];
        keys := keys - {host};
      }
    }
  }

  /** With the limit "1 1" the first request of a host passes and the second is refused with status 429. */
  method OnePerMinute() returns (first: Option<string>, second: Option<string>)
    ensures first.None? && second.Some?
  {
    OnePerMinuteConfig();
    var limiter := new RateLimiter("1 1");
    first := limiter.Check("");
    second := limiter.Check("");
  }

  lemma OnePerMinuteConfig()
    ensures Configure("1 1", false) == Limited(1, 1, None)
  {
    var s := "1 1";
    assert DigitRun(s[2..]) == 1 by {
      assert s[2..][1..] == [];
    }
    assert DigitRun(s) == 1 by {
      assert s[1..][0] == ' ';
    }
    assert s[2..][1..] == [];
    assert s[..1] == "1" && DecimalValue("1") == 1;
  }
}
