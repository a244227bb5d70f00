/**
 * `withCORS` (src/proxy.ts:58-76): the response headers of the CORS protocol (section
 * 3.3 of the WHATWG Fetch Standard) added to a header record, and the preflight
 * request headers taken off the request so that they are not forwarded.
 */
module Cors {
  import opened Wrappers
  import opened JsStrings
  import opened Headers

  const AllowOrigin := "access-control-allow-origin"
  const MaxAge := "access-control-max-age"
  const AllowMethods := "access-control-allow-methods"
  const AllowHeaders := "access-control-allow-headers"
  const ExposeHeaders := "access-control-expose-headers"
  const RequestMethod := "access-control-request-method"
  const RequestHeaders := "access-control-request-headers"

  /** The seven header names are pairwise different. */
  lemma NamesDistinct()
    ensures AllowOrigin != MaxAge && AllowOrigin != AllowMethods && AllowOrigin != AllowHeaders
    ensures AllowOrigin != ExposeHeaders && MaxAge != AllowMethods && MaxAge != AllowHeaders
    ensures MaxAge != ExposeHeaders && AllowMethods != AllowHeaders && AllowMethods != ExposeHeaders
    ensures AllowHeaders != ExposeHeaders && RequestMethod != RequestHeaders
  {
    assert |AllowOrigin| == 27 && |MaxAge| == 22 && |AllowMethods| == 28 && |AllowHeaders| == 28;
    assert |ExposeHeaders| == 29 && |RequestMethod| == 29 && |RequestHeaders| == 30;
    assert AllowMethods[21] != AllowHeaders[21];
  }

  /** The headers `withCORS` may write. */
  predicate IsCorsName(name: string) {
    name == AllowOrigin || name == MaxAge || name == AllowMethods || name == AllowHeaders || name == ExposeHeaders
  }

  /** The response and the request header records after `withCORS(response, request)`. */
  datatype CorsResult = CorsResult(response: HeaderMap, request: HeaderMap)

  /** Copy a present, non-empty request header `from` into the response header `to` and delete it from the request. */
  function Mirror(response: HeaderMap, request: HeaderMap, from: string, to: string): (r: CorsResult)
    ensures Get(r.response, to) == if Truthy(request, from) then Get(request, from) else Get(response, to)
    ensures forall name :: name != to ==> Get(r.response, name) == Get(response, name)
    ensures Names(response) <= Names(r.response)
    ensures Get(r.request, from) == if Truthy(request, from) then None else Get(request, from)
    ensures forall name :: name != from ==> Get(r.request, name) == Get(request, name)
  {
    if Truthy(request, from) then
      CorsResult(Set(response, to, Get(request, from).value), Delete(request, from))
    else CorsResult(response, request)
  }

  lemma MirrorKeepsWellFormed(response: HeaderMap, request: HeaderMap, from: string, to: string)
    requires WellFormed(response) && WellFormed(request)
    ensures WellFormed(Mirror(response, request, from, to).response) && WellFormed(Mirror(response, request, from, to).request)
  {
    if Truthy(request, from) {
      SetKeepsWellFormed(response, to, Get(request, from).value);
    }
  }

  /** `access-control-allow-origin` and, for a preflight with a configured maximum age, `access-control-max-age`. */
  function AllowAnyOrigin(response: HeaderMap, verb: string, corsMaxAge: int): (r: HeaderMap)
    ensures Get(r, AllowOrigin) == Some("*")
    ensures Get(r, MaxAge) == if verb == "OPTIONS" && corsMaxAge != 0 then Some(IntToString(corsMaxAge)) else Get(response, MaxAge)
    ensures forall name :: name != AllowOrigin && name != MaxAge ==> Get(r, name) == Get(response, name)
    ensures Names(response) <= Names(r)
  {
    var h := Set(response, AllowOrigin, "*");
    if verb == "OPTIONS" && corsMaxAge != 0 then
      Set(h, MaxAge, IntToString(corsMaxAge))
    else h
  }

  /**
   * `withCORS(response, request)` for a request with method `verb` and a proxy
   * configured with `corsMaxAge`; the properties of the result are the lemmas below.
   */
  function CorsHeaders(response: HeaderMap, verb: string, request: HeaderMap, corsMaxAge: int): (r: CorsResult)
    ensures Names(response) <= Names(r.response)
  {
    var h := AllowAnyOrigin(response, verb, corsMaxAge);
    var m := Mirror(h, request, RequestMethod, AllowMethods);
    var b := Mirror(m.response, m.request, RequestHeaders, AllowHeaders);
    CorsResult(Set(b.response, ExposeHeaders, Join(Names(b.response), ",")), b.request)
  }

  /** The response always allows every origin. */
  lemma CorsAllowsAnyOrigin(response: HeaderMap, verb: string, request: HeaderMap, corsMaxAge: int)
    ensures Get(CorsHeaders(response, verb, request, corsMaxAge).response, AllowOrigin) == Some("*")
  {
    NamesDistinct();
  }

  /** `access-control-max-age` is written exactly for a preflight with a non-zero `corsMaxAge`. */
  lemma CorsMaxAge(response: HeaderMap, verb: string, request: HeaderMap, corsMaxAge: int)
    ensures Get(CorsHeaders(response, verb, request, corsMaxAge).response, MaxAge) ==
      if verb == "OPTIONS" && corsMaxAge != 0 then Some(IntToString(corsMaxAge)) else Get(response, MaxAge)
  {
    NamesDistinct();
  }

  /** A non-empty `access-control-request-method` becomes `access-control-allow-methods`. */
  lemma CorsMirrorsMethod(response: HeaderMap, verb: string, request: HeaderMap, corsMaxAge: int)
    ensures Get(CorsHeaders(response, verb, request, corsMaxAge).response, AllowMethods) ==
      if Truthy(request, RequestMethod) then Get(request, RequestMethod) else Get(response, AllowMethods)
  {
    NamesDistinct();
  }

  /** A non-empty `access-control-request-headers` becomes `access-control-allow-headers`. */
  lemma CorsMirrorsHeaders(response: HeaderMap, verb: string, request: HeaderMap, corsMaxAge: int)
    ensures Get(CorsHeaders(response, verb, request, corsMaxAge).response, AllowHeaders) ==
      if Truthy(request, RequestHeaders) then Get(request, RequestHeaders) else Get(response, AllowHeaders)
  {
    NamesDistinct();
  }

  /** Every header other than the five CORS response headers keeps its value. */
  lemma CorsKeepsOtherHeaders(response: HeaderMap, verb: string, request: HeaderMap, corsMaxAge: int, name: string)
    requires !IsCorsName(name)
    ensures Get(CorsHeaders(response, verb, request, corsMaxAge).response, name) == Get(response, name)
  {
  }

  /**
   * `access-control-expose-headers` lists, comma-separated and in insertion order,
   * the names present before it is written: all names of the result when it was
   * already there, and all but itself, which comes last, when it is new.
   */
  lemma CorsExposesNames(response: HeaderMap, verb: string, request: HeaderMap, corsMaxAge: int)
    ensures var r := CorsHeaders(response, verb, request, corsMaxAge).response;
      var names := Names(r);
      if Has(response, ExposeHeaders) then Get(r, ExposeHeaders) == Some(Join(names, ","))
      else |names| > 0 && names[|names| - 1] == ExposeHeaders && ExposeHeaders !in names[..|names| - 1]
           && Get(r, ExposeHeaders) == Some(Join(names[..|names| - 1], ","))
  {
    NamesDistinct();
    var h := AllowAnyOrigin(response, verb, corsMaxAge);
    var m := Mirror(h, request, RequestMethod, AllowMethods);
    var b := Mirror(m.response, m.request, RequestHeaders, AllowHeaders);
    assert Get(b.response, ExposeHeaders) == Get(response, ExposeHeaders);
    ExposeLast(b.response);
  }

  /** Writing `access-control-expose-headers` as the names before it: it keeps its place, or comes last when new. */
  lemma ExposeLast(h: HeaderMap)
    ensures var r := Set(h, ExposeHeaders, Join(Names(h), ","));
      var names := Names(r);
      if Has(h, ExposeHeaders) then Get(r, ExposeHeaders) == Some(Join(names, ","))
      else |names| > 0 && names[|names| - 1] == ExposeHeaders && ExposeHeaders !in names[..|names| - 1]
           && Get(r, ExposeHeaders) == Some(Join(names[..|names| - 1], ","))
  {
    var names := Names(Set(h, ExposeHeaders, Join(Names(h), ",")));
    if !Has(h, ExposeHeaders) {
      assert names == Names(h) + [ExposeHeaders];
      assert names[..|names| - 1] == Names(h);
      HasIffNamed(h, ExposeHeaders);
    }
  }

  /** The preflight headers that were mirrored are deleted from the request, and nothing else is. */
  lemma CorsStripsPreflight(response: HeaderMap, verb: string, request: HeaderMap, corsMaxAge: int, name: string)
    ensures Get(CorsHeaders(response, verb, request, corsMaxAge).request, name) ==
      if (name == RequestMethod || name == RequestHeaders) && Truthy(request, name) then None else Get(request, name)
  {
    NamesDistinct();
  }

  /** `withCORS` never introduces a duplicate header. */
  lemma CorsKeepsWellFormed(response: HeaderMap, verb: string, request: HeaderMap, corsMaxAge: int)
    requires WellFormed(response) && WellFormed(request)
    ensures var r := CorsHeaders(response, verb, request, corsMaxAge);
      WellFormed(r.response) && WellFormed(r.request)
  {
    var h := Set(response, AllowOrigin, "*");
    SetKeepsWellFormed(response, AllowOrigin, "*");
    SetKeepsWellFormed(h, MaxAge, IntToString(corsMaxAge));
    var a := AllowAnyOrigin(response, verb, corsMaxAge);
    MirrorKeepsWellFormed(a, request, RequestMethod, AllowMethods);
    var m := Mirror(a, request, RequestMethod, AllowMethods);
    MirrorKeepsWellFormed(m.response, m.request, RequestHeaders, AllowHeaders);
    var b := Mirror(m.response, m.request, RequestHeaders, AllowHeaders);
    SetKeepsWellFormed(b.response, ExposeHeaders, Join(Names(b.response), ","));
  }

  /**
   * Once a request has been through `withCORS`, a second pass over it mirrors no
   * preflight header: the request no longer carries them. On the forwarded request
   * this holds unless the `setHeaders` option puts one back; module Admission states
   * both cases.
   */
  lemma SecondPassMirrorsNothing(first: HeaderMap, response: HeaderMap, verb: string, request: HeaderMap, corsMaxAge: int)
    ensures var stripped := CorsHeaders(first, verb, request, corsMaxAge).request;
      var r := CorsHeaders(response, verb, stripped, corsMaxAge);
      && Get(r.response, AllowMethods) == Get(response, AllowMethods)
      && Get(r.response, AllowHeaders) == Get(response, AllowHeaders)
      && r.request == stripped
  {
    var stripped := CorsHeaders(first, verb, request, corsMaxAge).request;
    assert !Truthy(stripped, RequestMethod) && !Truthy(stripped, RequestHeaders);
  }
}
