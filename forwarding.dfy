/**
 * The three proxy handlers of function/function_app.py (lines 110-234):
 * how each builds the request it sends upstream, and how each turns the
 * upstream outcome into the response it returns.
 *
 * Sending is a function parameter `upstream`: it stands for
 * `urllib.request.urlopen` together with reading the response, and says
 * for each outgoing request whether a response came back or which
 * exception was raised.
 */
module Forwarding {
  import opened Wrappers
  import opened Text
  import opened Headers
  import opened ClientAddress
  import opened UrlEncoding
  import opened Settings

  /** What the handlers read from `func.HttpRequest`. */
  datatype InboundRequest = InboundRequest(
    httpMethod: string,
    headers: seq<Header>,
    params: seq<Param>,
    body: Bytes,
    routeParams: Option<map<string, string>>)

  /**
   * The `urllib.request.Request` a handler builds, with the `timeout` and
   * optional TLS `context` it is opened with. `headers` is the dict given
   * to the constructor.
   */
  datatype OutboundRequest = OutboundRequest(
    url: string,
    httpMethod: string,
    data: Option<Bytes>,
    headers: seq<Header>,
    timeout: nat,
    context: Option<TlsContext>)

  /** What `urlopen` can raise: `HTTPError` (a subclass of `URLError`), another `URLError`, or anything else. */
  datatype UpstreamError =
    | HttpError(code: int, headers: seq<Header>, body: Bytes)
    | UrlError
    | OtherError

  datatype Upstream =
    | Returned(status: int, headers: seq<Header>, body: Bytes)
    | Raised(error: UpstreamError)

  /** A response body as given to `func.HttpResponse`: bytes as read, or text. */
  datatype Body = Raw(bytes: Bytes) | Str(text: string)

  /** The `func.HttpResponse` a handler returns. */
  datatype Response = Response(status: int, headers: seq<Header>, body: Body)

  /** The classes named by the `except` clauses, in source order. */
  datatype ExceptionClass = HttpErrorClass | UrlErrorClass | ExceptionBaseClass

  /** `isinstance(e, cls)`: an `HTTPError` is also a `URLError`, and everything is an `Exception`. */
  predicate IsInstance(e: UpstreamError, cls: ExceptionClass)
  {
    match cls
    case HttpErrorClass => e.HttpError?
    case UrlErrorClass => e.HttpError? || e.UrlError?
    case ExceptionBaseClass => true
  }

  const ExceptClauses: seq<ExceptionClass> := [HttpErrorClass, UrlErrorClass, ExceptionBaseClass]

  /** Python runs the first `except` clause whose class the exception is an instance of. */
  function FirstMatchingClause(e: UpstreamError, clauses: seq<ExceptionClass>): (i: nat)
    ensures i <= |clauses|
    ensures i < |clauses| ==> IsInstance(e, clauses[i])
    ensures forall j :: 0 <= j < i ==> !IsInstance(e, clauses[j])
  {
    if clauses == [] then 0
    else if IsInstance(e, clauses[0]) then 0
    else 1 + FirstMatchingClause(e, clauses[1..])
  }

  /** `func.HttpResponse("Bad Gateway", status_code=502)`. */
  function BadGateway(): Response
  {
    Response(502, [], Str("Bad Gateway"))
  }

  /** `func.HttpResponse("Internal Server Error", status_code=500)`. */
  function InternalServerError(): Response
  {
    Response(500, [], Str("Internal Server Error"))
  }

  /** The body of the `except` clause for `cls`. */
  function Handle(cls: ExceptionClass, e: UpstreamError): Response
    requires IsInstance(e, cls)
  {
    match cls
    case HttpErrorClass => Response(e.code, SanitizeResponseHeaders(MessageDict(e.headers)), Raw(e.body))
    case UrlErrorClass => BadGateway()
    case ExceptionBaseClass => InternalServerError()
  }

  /**
   * The `try` block of every handler: what came back, or which `except`
   * clause ran. No hop-by-hop header is ever returned.
   */
  function Relay(outcome: Upstream): (resp: Response)
    ensures IsDict(resp.headers)
    ensures forall e :: e in resp.headers ==> Lower(e.0) !in HopByHopHeaders
  {
    match outcome
    case Returned(status, headers, body) =>
      Response(status, SanitizeResponseHeaders(DictFromItems(headers)), Raw(body))
    case Raised(e) =>
      var i := FirstMatchingClause(e, ExceptClauses);
      assert IsInstance(e, ExceptClauses[2]);
      Handle(ExceptClauses[i], e)
  }

  /**
   * A response is relayed with its status and body; of its headers (as
   * `dict(response.getheaders())` keeps them: the last value of each name)
   * every one but the hop-by-hop ones.
   */
  lemma RelayReturned(status: int, headers: seq<Header>, body: Bytes)
    ensures var resp := Relay(Returned(status, headers, body));
      && resp.status == status && resp.body == Raw(body)
      && forall k :: Lookup(resp.headers, k) ==
           if Lower(k) in HopByHopHeaders then None else LastValue(headers, k)
  {
    SanitizeResponseLookup(DictFromItems(headers));
  }

  /**
   * An upstream HTTP error is relayed in the same way, except that
   * `dict(e.headers)` gives each name the value of its FIRST header in any
   * case.
   */
  lemma RelayHttpError(code: int, headers: seq<Header>, body: Bytes)
    ensures var resp := Relay(Raised(HttpError(code, headers, body)));
      && resp.status == code && resp.body == Raw(body)
      && forall k :: Lookup(resp.headers, k) ==
           if Lower(k) in HopByHopHeaders then None else MessageValue(headers, k)
  {
    var e := HttpError(code, headers, body);
    assert FirstMatchingClause(e, ExceptClauses) == 0;
    assert Relay(Raised(e)) == Response(code, SanitizeResponseHeaders(MessageDict(headers)), Raw(body));
    SanitizeResponseLookup(MessageDict(headers));
  }

  /** An unreachable upstream gives 502, with a fixed body and no headers. */
  lemma RelayUrlError()
    ensures Relay(Raised(UrlError)) == BadGateway()
  {
    assert FirstMatchingClause(UrlError, ExceptClauses) == 1;
  }

  /** Any other exception gives 500, with a fixed body and no headers. */
  lemma RelayOtherError()
    ensures Relay(Raised(OtherError)) == InternalServerError()
  {
    assert FirstMatchingClause(OtherError, ExceptClauses) == 2;
  }

  /** Every exception is caught by one of the three clauses. */
  lemma EveryErrorIsCaught(e: UpstreamError)
    ensures FirstMatchingClause(e, ExceptClauses) < |ExceptClauses|
    ensures e.HttpError? <==> FirstMatchingClause(e, ExceptClauses) == 0
    ensures e.UrlError? <==> FirstMatchingClause(e, ExceptClauses) == 1
  {
    assert IsInstance(e, ExceptClauses[2]);
  }

  /**
   * The `HTTPError` clause must come first: an `HTTPError` is a `URLError`,
   * so with the two clauses swapped an upstream 404 would become a 502.
   */
  lemma ClauseOrderMatters(code: int, headers: seq<Header>, body: Bytes)
    ensures IsInstance(HttpError(code, headers, body), UrlErrorClass)
    ensures FirstMatchingClause(HttpError(code, headers, body), ExceptClauses) == 0
    ensures FirstMatchingClause(HttpError(code, headers, body), [UrlErrorClass, HttpErrorClass, ExceptionBaseClass]) == 0
    ensures Handle(UrlErrorClass, HttpError(code, headers, body)) == BadGateway()
    ensures Relay(Raised(HttpError(code, headers, body))).status == code
  {
  }

  /**
   * The dict of request headers with `X-Forwarded-For` set to the client
   * address when one was found (`if client_ip:`), as it stands.
   */
  function WithClientIp(d: seq<Header>, ip: Option<string>): (r: seq<Header>)
    ensures Lookup(r, ForwardedFor) == if Truthy(ip) then ip else Lookup(d, ForwardedFor)
    ensures forall k :: k != ForwardedFor ==> Lookup(r, k) == Lookup(d, k)
    ensures IsDict(d) ==> IsDict(r)
  {
    if Truthy(ip) then Set(d, ForwardedFor, ip.value) else d
  }

  /** The name the handlers set, which no policy drops. */
  const ForwardedFor: string := "X-Forwarded-For"

  lemma ForwardedForIsKept()
    ensures Lower(ForwardedFor) !in RequestDropped(true)
  {
    NameOfFifteenIsKept(ForwardedFor);
  }

  /** No name the request policy drops is fifteen characters long. */
  lemma NameOfFifteenIsKept(k: string)
    requires |k| == 15
    ensures Lower(k) !in RequestDropped(true)
  {
    assert |Lower(k)| == 15;
  }

  /**
   * The headers every handler sends (lines 115-119, 145-149, 179-183): the
   * inbound headers without hop-by-hop names, `content-length` and `host`,
   * with `X-Forwarded-For` set to the validated client address when there
   * is one.
   */
  function OutboundHeaders(h: seq<Header>): (r: seq<Header>)
    requires IsDict(h)
    ensures IsDict(r)
  {
    FilterDict(h, RequestDropped(true));
    WithClientIp(Filter(h, RequestDropped(true)), GetRealClientIp(h))
  }

  /**
   * `X-Forwarded-For` carries the validated address when there is one;
   * otherwise whatever the client sent under that exact name goes through.
   */
  lemma OutboundForwardedFor(h: seq<Header>)
    requires IsDict(h)
    ensures Lookup(OutboundHeaders(h), ForwardedFor) ==
      if GetRealClientIp(h).Some? then GetRealClientIp(h) else Lookup(h, ForwardedFor)
  {
    ForwardedForIsKept();
    FilterLookup(h, RequestDropped(true), ForwardedFor);
  }

  /** Every other name is dropped by the request policy or passed on unchanged. */
  lemma OutboundOtherName(h: seq<Header>, k: string)
    requires IsDict(h) && k != ForwardedFor
    ensures Lookup(OutboundHeaders(h), k) ==
      if Lower(k) in RequestDropped(true) then None else Lookup(h, k)
  {
    FilterLookup(h, RequestDropped(true), k);
  }

  /** The validated address is never empty, so `if client_ip:` is the same as "one was found". */
  lemma ClientIpTruthy(h: seq<Header>)
    ensures Truthy(GetRealClientIp(h)) <==> GetRealClientIp(h).Some?
  {
  }

  /** Outbound headers carry no connection-level name, no `content-length` and no `host`. */
  lemma OutboundHeadersExclusions(h: seq<Header>, e: Header)
    requires IsDict(h) && e in OutboundHeaders(h)
    ensures Lower(e.0) !in RequestDropped(true)
  {
    DictLookup(OutboundHeaders(h), e.0, e.1);
    if e.0 == ForwardedFor {
      ForwardedForIsKept();
    } else {
      OutboundOtherName(h, e.0);
    }
  }

  /**
   * The model does not assume how the host spells inbound names. Where a
   * client's `x-forwarded-for` arrives in lower case, it is a different key
   * from the `X-Forwarded-For` the handler sets and passes the request
   * policy as the client sent it (`ForwardedForOnTheWire` says which value
   * urllib then keeps).
   */
  lemma LowerCaseForwardedForIsKept(h: seq<Header>)
    requires IsDict(h)
    ensures Lookup(OutboundHeaders(h), "x-forwarded-for") == Lookup(h, "x-forwarded-for")
  {
    assert "x-forwarded-for" != ForwardedFor;
    NameOfFifteenIsKept("x-forwarded-for");
    OutboundOtherName(h, "x-forwarded-for");
  }

  /** The names of `headers` as `urllib.request.Request` stores them, each `capitalize()`d. */
  function CapitalizeNames(headers: seq<Header>): (r: seq<Header>)
    ensures |r| == |headers|
    ensures forall i :: 0 <= i < |headers| ==> r[i] == (Capitalize(headers[i].0), headers[i].1)
  {
    if headers == [] then []
    else
      var last := headers[|headers| - 1];
      CapitalizeNames(headers[..|headers| - 1]) + [(Capitalize(last.0), last.1)]
  }

  /**
   * The headers the `Request` holds (`Request.headers`): the constructor's
   * dict with every name capitalised, a later entry replacing an earlier one
   * whose name capitalises the same way.
   */
  function WireHeaders(headers: seq<Header>): (r: seq<Header>)
    ensures IsDict(r)
    ensures forall k :: Lookup(r, k) == LastValue(CapitalizeNames(headers), k)
  {
    DictFromItems(CapitalizeNames(headers))
  }

  /**
   * Two spellings of one name become a single capitalised entry, and the one
   * given later is the value the `Request` keeps.
   */
  lemma SpellingsMerge(a: string, b: string, v: string, w: string)
    requires EqualsIgnoringCase(a, b)
    ensures Lookup(WireHeaders([(a, v), (b, w)]), Capitalize(a)) == Some(w)
  {
    CapitalizeIgnoresCase(a, b);
    var c := CapitalizeNames([(a, v), (b, w)]);
    assert c[1] == (Capitalize(a), w);
  }

  /**
   * When the inbound names arrive in lower case, the handler's
   * `X-Forwarded-For` is a new key added last, so once urllib merges every
   * spelling of the name into its capitalised form it is the value the
   * `Request` holds: a client cannot override the validated address.
   */
  lemma ForwardedForOnTheWire(h: seq<Header>)
    requires IsDict(h)
    requires forall i :: 0 <= i < |h| ==> Lower(h[i].0) == h[i].0
    requires GetRealClientIp(h).Some?
    ensures Lookup(WireHeaders(OutboundHeaders(h)), Capitalize(ForwardedFor)) == GetRealClientIp(h)
  {
    var f := Filter(h, RequestDropped(true));
    var ip := GetRealClientIp(h);
    CapitalNameIsNew(h, RequestDropped(true), ForwardedFor);
    var r := f + [(ForwardedFor, ip.value)];
    assert OutboundHeaders(h) == r;
    var c := CapitalizeNames(r);
    assert c[|c| - 1] == (Capitalize(ForwardedFor), ip.value);
  }

  /** A name starting with a capital letter is never among lower-case names. */
  lemma CapitalNameIsNew(h: seq<Header>, drop: set<string>, name: string)
    requires forall i :: 0 <= i < |h| ==> Lower(h[i].0) == h[i].0
    requires name != [] && 'A' <= name[0] <= 'Z'
    ensures !Occurs(Filter(h, drop), name)
  {
    var f := Filter(h, drop);
    forall j | 0 <= j < |f| ensures f[j].0 != name {
      FilterMember(h, drop, f[j]);
      var i :| 0 <= i < |h| && h[i] == f[j];
      var n := h[i].0;
      if n != [] {
        assert n[0] == Lower(n)[0] == LowerChar(n[0]);
      }
    }
    FindUnique(f, name, |f|);
  }

  /**
   * The header preparation every handler starts with: `get_real_client_ip`,
   * `sanitize_request_headers(dict(req.headers))`, then `X-Forwarded-For`
   * set when an address was found.
   */
  method PrepareHeaders(inbound: seq<Header>) returns (headers: seq<Header>)
    requires IsDict(inbound)
    ensures headers == OutboundHeaders(inbound)
  {
    var clientIp := GetRealClientIp(inbound);
    headers := SanitizeRequestHeaders(inbound, true);
    if Truthy(clientIp) {
      headers := Set(headers, ForwardedFor, clientIp.value);
    }
  }

  /**
   * The web server's base URL and the extra path (lines 188-190). Without a
   * path it is the server URL with its trailing slashes gone; with one it is
   * that prefix, one slash, and the path with its leading slashes gone.
   */
  function WebBase(server: string, extraPath: string): (base: string)
    ensures extraPath == [] ==>
      && |base| <= |server| && base == server[..|base|]
      && (forall i :: |base| <= i < |server| ==> server[i] == '/')
      && (base == [] || base[|base| - 1] != '/')
    ensures extraPath != [] ==> exists n, m ::
      && 0 <= n <= |server| && 0 <= m <= |extraPath|
      && base == server[..n] + "/" + extraPath[m..]
      && (forall i :: n <= i < |server| ==> server[i] == '/')
      && (n == 0 || server[n - 1] != '/')
      && (forall i :: 0 <= i < m ==> extraPath[i] == '/')
      && (m == |extraPath| || extraPath[m] != '/')
  {
    var b := RStrip(server, '/');
    if extraPath != [] then
      var p := LStrip(extraPath, '/');
      assert b == server[..|b|] && p == extraPath[|extraPath| - |p|..];
      b + "/" + p
    else b
  }

  /**
   * The URL `_forward_web` sends to (lines 188-195): the base and path,
   * followed by `?` and the encoded query only when there are parameters.
   */
  function TargetUrl(server: string, extraPath: string, params: seq<Param>): (url: string)
    ensures params == [] ==> url == WebBase(server, extraPath)
    ensures params != [] ==>
      var b := WebBase(server, extraPath);
      && |url| > |b| && url[..|b|] == b && url[|b|] == '?'
      && DecodeQuery(url[|b| + 1..]) == Utf8Params(params)
  {
    var q := UrlEncode(params);
    UrlEncodeRoundTrip(params);
    var b := WebBase(server, extraPath);
    if q != [] then
      assert (b + "?" + q)[..|b|] == b && (b + "?" + q)[|b| + 1..] == q;
      b + "?" + q
    else b
  }

  /** A trailing slash on the server, a leading slash on the path and one parameter. */
  lemma TargetUrlExample()
    ensures TargetUrl("http://example.com/", "/foo", [("a", "1")]) == "http://example.com/foo?a=1"
  {
    ExampleBase();
    OneParameterQuery();
    TargetUrlOfParts("http://example.com/", "/foo", [("a", "1")], "http://example.com/foo", "a=1");
    ExampleUrlJoined();
  }

  lemma ExampleUrlJoined()
    ensures "http://example.com/foo" + "?" + "a=1" == "http://example.com/foo?a=1"
  {
  }

  lemma TargetUrlOfParts(server: string, extraPath: string, params: seq<Param>, b: string, q: string)
    requires WebBase(server, extraPath) == b && UrlEncode(params) == q && q != []
    ensures TargetUrl(server, extraPath, params) == b + "?" + q
  {
  }

  lemma ExampleBase()
    ensures WebBase("http://example.com/", "/foo") == "http://example.com/foo"
  {
    ExampleServerStripped();
    ExamplePathStripped();
    WebBaseOfStripped("http://example.com/", "http://example.com", "/foo", "foo");
  }

  lemma ExampleServerStripped()
    ensures RStrip("http://example.com/", '/') == "http://example.com"
  {
    assert RStrip("http://example.com", '/') == "http://example.com";
  }

  lemma ExamplePathStripped()
    ensures LStrip("/foo", '/') == "foo"
  {
    assert LStrip("foo", '/') == "foo";
  }

  lemma WebBaseOfStripped(server: string, b: string, extraPath: string, p: string)
    requires extraPath != [] && RStrip(server, '/') == b && LStrip(extraPath, '/') == p
    ensures WebBase(server, extraPath) == b + "/" + p
  {
  }

  lemma OneParameterQuery()
    ensures UrlEncode([("a", "1")]) == "a=1"
  {
    QuotePlusUnreserved("a");
    QuotePlusUnreserved("1");
    assert EncodePair(("a", "1")) == "a" + ['='] + "1" == "a=1";
    assert EncodePairs([("a", "1")]) == ["a=1"];
  }

  /** At the seam of server URL and path there is exactly one slash. */
  lemma WebBaseSingleSlash(server: string, extraPath: string)
    requires extraPath != [] && LStrip(extraPath, '/') != []
    ensures var b := RStrip(server, '/'); var base := WebBase(server, extraPath);
      && |base| > |b| + 1
      && base[..|b|] == b && base[|b|] == '/' && base[|b| + 1] != '/'
      && (b == [] || base[|b| - 1] != '/')
  {
    var b := RStrip(server, '/');
    var p := LStrip(extraPath, '/');
    var base := b + "/" + p;
    assert base[|b| + 1] == p[0];
    assert base[..|b|] == b;
  }

  /** `data=body if req.httpMethod.upper() != "GET" else None`. */
  function WebData(httpMethod: string, body: Bytes): (data: Option<Bytes>)
    ensures data.None? <==> EqualsIgnoringCase(httpMethod, "GET")
    ensures data.Some? ==> data.value == body
  {
    UpperIsCaseInsensitive(httpMethod);
    if Upper(httpMethod) != "GET" then Some(body) else None
  }

  lemma UpperIsCaseInsensitive(httpMethod: string)
    ensures Upper(httpMethod) == "GET" <==> EqualsIgnoringCase(httpMethod, "GET")
  {
    if EqualsIgnoringCase(httpMethod, "GET") {
      assert forall i :: 0 <= i < 3 ==> UpperChar(httpMethod[i]) == "GET"[i];
    }
  }

  /** `get_teamserver`: a GET to the configured URL with a 10-second timeout. */
  method GetTeamserver(cfg: Config, req: InboundRequest, upstream: OutboundRequest -> Upstream)
    returns (sent: OutboundRequest, resp: Response)
    requires IsDict(req.headers)
    ensures sent.url == cfg.teamserverGetUrl && sent.httpMethod == "GET"
    ensures sent.data == None && sent.timeout == 10 && sent.context == None
    ensures sent.headers == OutboundHeaders(req.headers)
    ensures resp == Relay(upstream(sent))
  {
    var headers := PrepareHeaders(req.headers);
    sent := OutboundRequest(cfg.teamserverGetUrl, "GET", None, headers, 10, None);
    resp := Relay(upstream(sent));
  }

  /** `post_teamserver`: a POST of the request body with a 15-second timeout. */
  method PostTeamserver(cfg: Config, req: InboundRequest, upstream: OutboundRequest -> Upstream)
    returns (sent: OutboundRequest, resp: Response)
    requires IsDict(req.headers)
    ensures sent.url == cfg.teamserverPostUrl && sent.httpMethod == "POST"
    ensures sent.data == Some(req.body) && sent.timeout == 15 && sent.context == None
    ensures sent.headers == OutboundHeaders(req.headers)
    ensures resp == Relay(upstream(sent))
  {
    var headers := PrepareHeaders(req.headers);
    var data := req.body;
    sent := OutboundRequest(cfg.teamserverPostUrl, "POST", Some(data), headers, 15, None);
    resp := Relay(upstream(sent));
  }

  /**
   * `_forward_web(req, extra_path)`: the request's own method, its body
   * unless it is a GET, the query re-encoded onto the web server URL, a
   * 20-second timeout and the insecure TLS context when so configured.
   */
  method ForwardWeb(cfg: Config, req: InboundRequest, extraPath: string, upstream: OutboundRequest -> Upstream)
    returns (sent: OutboundRequest, resp: Response)
    requires IsDict(req.headers)
    ensures sent.url == TargetUrl(cfg.webServerUrl, extraPath, req.params)
    ensures sent.httpMethod == req.httpMethod
    ensures sent.data == WebData(req.httpMethod, req.body)
    ensures sent.timeout == 20
    ensures sent.context == BuildSslContext(cfg.allowInsecureSsl)
    ensures sent.headers == OutboundHeaders(req.headers)
    ensures resp == Relay(upstream(sent))
  {
    var headers := PrepareHeaders(req.headers);
    var context := BuildSslContext(cfg.allowInsecureSsl);
    var body := req.body;

    var base := RStrip(cfg.webServerUrl, '/');
    if extraPath != [] {
      base := base + "/" + LStrip(extraPath, '/');
    }

    var targetUrl := base;
    var urlParams := UrlEncode(req.params);
    if urlParams != [] {
      targetUrl := targetUrl + "?" + urlParams;
    }

    var data := if Upper(req.httpMethod) != "GET" then Some(body) else None;
    sent := OutboundRequest(targetUrl, req.httpMethod, data, headers, 20, context);
    resp := Relay(upstream(sent));
  }

  /** `web_server`: the web route without an extra path. */
  method WebServer(cfg: Config, req: InboundRequest, upstream: OutboundRequest -> Upstream)
    returns (sent: OutboundRequest, resp: Response)
    requires IsDict(req.headers)
    ensures sent.url == TargetUrl(cfg.webServerUrl, [], req.params)
    ensures sent.httpMethod == req.httpMethod && sent.data == WebData(req.httpMethod, req.body)
    ensures sent.timeout == 20 && sent.context == BuildSslContext(cfg.allowInsecureSsl)
    ensures sent.headers == OutboundHeaders(req.headers)
    ensures resp == Relay(upstream(sent))
  {
    sent, resp := ForwardWeb(cfg, req, [], upstream);
  }

  /** The `path` route parameter, or nothing when it (or the whole mapping) is missing. */
  function RoutePath(routeParams: Option<map<string, string>>): (path: string)
    ensures routeParams.Some? && "path" in routeParams.value ==> path == routeParams.value["path"]
    ensures routeParams.None? || "path" !in routeParams.value ==> path == []
  {
    if routeParams.Some? && "path" in routeParams.value then routeParams.value["path"] else []
  }

  /** `web_server_wildcard`: the web route with the captured `{*path}` appended. */
  method WebServerWildcard(cfg: Config, req: InboundRequest, upstream: OutboundRequest -> Upstream)
    returns (sent: OutboundRequest, resp: Response)
    requires IsDict(req.headers)
    ensures sent.url == TargetUrl(cfg.webServerUrl, RoutePath(req.routeParams), req.params)
    ensures sent.httpMethod == req.httpMethod && sent.data == WebData(req.httpMethod, req.body)
    ensures sent.timeout == 20 && sent.context == BuildSslContext(cfg.allowInsecureSsl)
    ensures sent.headers == OutboundHeaders(req.headers)
    ensures resp == Relay(upstream(sent))
  {
    var extraPath := RoutePath(req.routeParams);
    sent, resp := ForwardWeb(cfg, req, extraPath, upstream);
  }
}
