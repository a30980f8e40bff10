/** The gateway's request handlers: each route strips its prefix from the
    request path and hands the call to the proxy's forwarder for its service
    (GatewayController.java). */
module Gateway {
  import opened Wrappers
  import opened Discovery
  import opened Proxy

  /** `String.substring(begin)`: the text from `begin` on, or nothing where
      Java throws `StringIndexOutOfBoundsException` (a begin index past the
      end). */
  function Substring(s: string, begin: nat): (r: Option<string>)
    ensures r.Some? <==> begin <= |s|
    ensures r.Some? ==> |r.value| == |s| - begin && s == s[..begin] + r.value
  {
    if begin <= |s| then Some(s[begin..]) else None
  }

  /** `extractPathAfterPrefix`: drop as many leading characters of the request
      URI as the context path has, then as many as the route prefix has.
      Nothing means the handler throws. */
  function ExtractPathAfterPrefix(requestUri: string, contextPath: string, prefix: string): Option<string>
  {
    match Substring(requestUri, |contextPath|)
    case None => None
    case Some(path) => Substring(path, |prefix|)
  }

  /** The extraction succeeds exactly when the URI is at least as long as the
      context path and the prefix together, and then it is the URI's suffix
      after that many characters. */
  lemma ExtractDefined(requestUri: string, contextPath: string, prefix: string)
    ensures var r := ExtractPathAfterPrefix(requestUri, contextPath, prefix);
            var n := |contextPath| + |prefix|;
            && (r.Some? <==> n <= |requestUri|)
            && (r.Some? ==> |r.value| == |requestUri| - n && requestUri == requestUri[..n] + r.value)
  {
    var n := |contextPath| + |prefix|;
    if n <= |requestUri| {
      var path := requestUri[|contextPath|..];
      assert path[|prefix|..] == requestUri[n..];
      assert requestUri == requestUri[..n] + requestUri[n..];
    }
  }

  /** A URI made of the context path, the route prefix and a rest yields that
      rest. */
  lemma ExtractRoundTrip(contextPath: string, prefix: string, rest: string)
    ensures ExtractPathAfterPrefix(contextPath + prefix + rest, contextPath, prefix) == Some(rest)
  {
    var uri := contextPath + prefix + rest;
    assert uri[|contextPath|..] == prefix + rest;
    assert (prefix + rest)[|prefix|..] == rest;
  }

  /** Only the lengths of the context path and of the prefix matter: the
      characters dropped are never compared with them. */
  lemma ExtractIgnoresPrefixText(requestUri: string, contextPath: string, prefix: string,
                                 otherContext: string, otherPrefix: string)
    requires |otherContext| == |contextPath| && |otherPrefix| == |prefix|
    ensures ExtractPathAfterPrefix(requestUri, otherContext, otherPrefix) ==
            ExtractPathAfterPrefix(requestUri, contextPath, prefix)
  {
  }

  /** The eight handler methods of the controller. */
  datatype Handler =
    | HandleUserGet | HandleUserPost | HandleUserPut | HandleUserDelete
    | HandleNotificationGet | HandleNotificationPost | HandleNotificationPut | HandleNotificationDelete

  /** Which forwarder a handler calls. */
  function HandlerService(h: Handler): Service
  {
    match h
    case HandleUserGet | HandleUserPost | HandleUserPut | HandleUserDelete => UserService
    case HandleNotificationGet | HandleNotificationPost | HandleNotificationPut | HandleNotificationDelete =>
      NotificationService
  }

  /** The HTTP method a handler is mapped to and passes on as text. */
  function HandlerMethod(h: Handler): HttpMethod
  {
    match h
    case HandleUserGet | HandleNotificationGet => GET
    case HandleUserPost | HandleNotificationPost => POST
    case HandleUserPut | HandleNotificationPut => PUT
    case HandleUserDelete | HandleNotificationDelete => DELETE
  }

  /** The prefix a handler strips. */
  function HandlerPrefix(h: Handler): string
  {
    match h
    case HandleUserGet | HandleUserPost | HandleUserPut | HandleUserDelete => "/users"
    case HandleNotificationGet | HandleNotificationPost | HandleNotificationPut | HandleNotificationDelete =>
      "/notifications"
  }

  /** The handler mapped to a service and a method. */
  function HandlerFor(svc: Service, m: HttpMethod): (h: Handler)
    ensures HandlerService(h) == svc && HandlerMethod(h) == m
  {
    match (svc, m)
    case (UserService, GET) => HandleUserGet
    case (UserService, POST) => HandleUserPost
    case (UserService, PUT) => HandleUserPut
    case (UserService, DELETE) => HandleUserDelete
    case (NotificationService, GET) => HandleNotificationGet
    case (NotificationService, POST) => HandleNotificationPost
    case (NotificationService, PUT) => HandleNotificationPut
    case (NotificationService, DELETE) => HandleNotificationDelete
  }

  /** Each handler is the one mapped to its service and method: the table
      has one handler per pair and no other. */
  lemma HandlerTable(h: Handler)
    ensures HandlerFor(HandlerService(h), HandlerMethod(h)) == h
  {
  }

  /** What the controller reads of the servlet request: the request URI, the
      context path, what the proxy reads (header names, header lookup, query)
      and the request body, already decoded, or nothing. */
  datatype ServletRequest = ServletRequest(requestUri: string, contextPath: string, inbound: Inbound,
                                           body: Option<string>)

  /** The forwarder call a handler makes: the service, the path after the
      prefix, the method text, the body (only POST and PUT pass one on) and
      the inbound request. Nothing when extracting the path throws. */
  function HandlerCall(h: Handler, req: ServletRequest): Option<Call>
  {
    match ExtractPathAfterPrefix(req.requestUri, req.contextPath, HandlerPrefix(h))
    case None => None
    case Some(path) =>
      var body := if HandlerMethod(h) in {POST, PUT} then req.body else None;
      Some(Call(HandlerService(h), path, MethodName(HandlerMethod(h)), body, req.inbound))
  }

  /** A handler forwards to its own service with its own method text; GET
      and DELETE forward no body, POST and PUT the request's body; and the
      path is the request URI after the context path and the prefix. */
  lemma HandlerCallShape(h: Handler, req: ServletRequest)
    ensures var c := HandlerCall(h, req);
            && (c.Some? <==> |req.contextPath| + |HandlerPrefix(h)| <= |req.requestUri|)
            && (c.Some? ==>
                  && c.value.svc == HandlerService(h)
                  && c.value.verb == MethodName(HandlerMethod(h))
                  && (HandlerMethod(h) in {GET, DELETE} ==> c.value.body == None)
                  && (HandlerMethod(h) in {POST, PUT} ==> c.value.body == req.body)
                  && c.value.path == req.requestUri[|req.contextPath| + |HandlerPrefix(h)|..]
                  && c.value.inbound == req.inbound)
  {
    ExtractDefined(req.requestUri, req.contextPath, HandlerPrefix(h));
  }

  /** The prefix a handler strips is the one the proxy puts back. */
  lemma HandlerPrefixRestored(h: Handler)
    ensures HandlerPrefix(h) == RoutePrefix(HandlerService(h))
  {
  }

  /** A handler's method text is always dispatched to the handler's method, so
      a routed request never gets the proxy's 405 answer. */
  lemma HandlerNever405(h: Handler, req: ServletRequest)
    requires HandlerCall(h, req).Some?
    ensures Dispatch(HandlerCall(h, req).value.verb) == Some(HandlerMethod(h))
  {
    DispatchMethodName(HandlerMethod(h));
  }

  /** For a request URI that carries the handler's prefix after the context
      path, every attempt's upstream URL is the instance's base URL followed
      by the URI without the context path and then by the query string: the
      gateway strips its prefix and puts it back unchanged. */
  lemma HandlerUpstreamUrl(h: Handler, req: ServletRequest, rest: string, baseUrl: string)
    requires req.requestUri == req.contextPath + HandlerPrefix(h) + rest
    ensures HandlerCall(h, req).Some?
    ensures var c := HandlerCall(h, req).value;
            UpstreamUrl(baseUrl, c.svc, c.path, c.inbound.queryString) ==
            baseUrl + req.requestUri[|req.contextPath|..] + QueryString(req.inbound.queryString)
  {
    ExtractRoundTrip(req.contextPath, HandlerPrefix(h), rest);
    HandlerPrefixRestored(h);
    RegroupAfterContext(req.contextPath, baseUrl, HandlerPrefix(h), rest, QueryString(req.inbound.queryString));
  }

  /** Cutting the context path off `contextPath + prefix + rest` and putting
      the prefix and rest behind a base URL gives the same text as the pieces
      concatenated one by one. */
  lemma RegroupAfterContext(contextPath: string, baseUrl: string, prefix: string, rest: string, query: string)
    ensures (contextPath + prefix + rest)[|contextPath|..] == prefix + rest
    ensures baseUrl + prefix + rest + query == baseUrl + (prefix + rest) + query
  {
    assert (contextPath + prefix + rest)[|contextPath|..] == prefix + rest;
  }

  /** A handler end to end: extract the path (a failure propagates as the
      handler's exception, nothing here), then call the service's forwarder,
      whose answer passes through the circuit breaker's fallback. */
  method Handle(proxy: ProxyService, h: Handler, req: ServletRequest, send: (nat, Request) -> Outcome,
                clock: nat -> int) returns (resp: Option<Response>)
    requires proxy.serviceDiscovery.Valid()
    modifies proxy.serviceDiscovery`serviceInstances, proxy.serviceDiscovery`instancesFailureTimes,
             proxy.serviceDiscovery`roundRobinIndexes
    ensures proxy.serviceDiscovery.Valid()
    ensures HandlerCall(h, req).None? ==> resp.None? && unchanged(proxy.serviceDiscovery)
    ensures HandlerCall(h, req).Some? ==>
              var svc := HandlerService(h);
              var run := Retry(Attempts(HandlerCall(h, req).value, send),
                               old(proxy.serviceDiscovery.GetAvailableInstances(Name(svc))),
                               old(proxy.serviceDiscovery.Cursor(Name(svc))));
              resp == Some(Guarded(svc, Returned(svc, run.ending)))
  {
    var call := HandlerCall(h, req);
    if call.None? {
      return None;
    }
    var c := call.value;
    var r, tried := proxy.ForwardToService(c.svc, c.path, c.verb, c.body, c.inbound, send, clock);
    resp := Some(Guarded(c.svc, r));
  }
}
