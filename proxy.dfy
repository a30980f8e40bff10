/** Forwarding of one inbound call to an upstream instance, with round-robin
    retries over the available instances and the circuit-breaker fallback
    (ProxyService.java). */
module Proxy {
  import opened Wrappers
  import opened RoundRobin
  import opened Discovery

  /** The two upstream services the gateway fronts. */
  datatype Service = UserService | NotificationService

  /** The service's key in the discovery registry. */
  function Name(svc: Service): string
  {
    match svc
    case UserService => USER
    case NotificationService => NOTIFICATION
  }

  /** The route prefix put back in front of the path on the upstream URL. */
  function RoutePrefix(svc: Service): string
  {
    match svc
    case UserService => "/users"
    case NotificationService => "/notifications"
  }

  /** The service's name in exception messages and fallback bodies. */
  function DisplayName(svc: Service): string
  {
    match svc
    case UserService => "UserService"
    case NotificationService => "NotificationService"
  }

  datatype HttpMethod = GET | POST | PUT | DELETE

  /** A header added to the upstream request; the value is what the inbound
      request's `getHeader` gave, which may be absent. */
  datatype Header = Header(name: string, value: Option<string>)

  /** What the proxy reads of the inbound servlet request: its header names in
      enumeration order, its header lookup, and its raw query string. */
  datatype Inbound = Inbound(headerNames: seq<string>, getHeader: string -> Option<string>,
                             queryString: Option<string>)

  /** The request handed to the HTTP client. */
  datatype Request = Request(url: string, verb: HttpMethod, headers: seq<Header>, body: Option<string>)

  datatype Response = Response(status: int, body: Option<string>)

  /** A Java exception: its message (possibly null) and its cause. */
  datatype Throwable = Throwable(message: Option<string>, cause: Option<Throwable>)

  /** What one call into the HTTP client did: it returned a response, or it threw. */
  datatype Outcome = Responded(response: Response) | Threw(error: Throwable)

  // ---------------------------------------------------------------------------
  // ASCII case folding, as used by `equalsIgnoreCase` and `toUpperCase`

  function UpperChar(c: char): char
  {
    if 'a' <= c <= 'z' then (c as int - 32) as char else c
  }

  function LowerChar(c: char): char
  {
    if 'A' <= c <= 'Z' then (c as int + 32) as char else c
  }

  /** `String.toUpperCase` on ASCII text. */
  function UpperCase(s: string): (r: string)
    ensures |r| == |s|
  {
    seq(|s|, i requires 0 <= i < |s| => UpperChar(s[i]))
  }

  /** `String.equalsIgnoreCase` on ASCII text: same length, and the characters
      agree position by position once folded to lower case. */
  predicate EqualsIgnoreCase(a: string, b: string)
  {
    |a| == |b| && forall i :: 0 <= i < |a| ==> LowerChar(a[i]) == LowerChar(b[i])
  }

  /** For an upper-case letter, upper-casing a character hits it exactly when
      lower-casing hits its lower-case form. */
  lemma UpperLowerAgree(x: char, c: char)
    requires 'A' <= c <= 'Z'
    ensures UpperChar(x) == c <==> LowerChar(x) == LowerChar(c)
  {
  }

  /** Comparing the upper-cased text with an upper-case word is comparing the
      text with the word ignoring case. */
  lemma {:induction false} UpperCaseMatchesIgnoringCase(s: string, w: string)
    requires forall i :: 0 <= i < |w| ==> 'A' <= w[i] <= 'Z'
    ensures UpperCase(s) == w <==> EqualsIgnoreCase(s, w)
  {
    if |s| == |w| {
      forall i | 0 <= i < |s|
        ensures UpperChar(s[i]) == w[i] <==> LowerChar(s[i]) == LowerChar(w[i])
      {
        UpperLowerAgree(s[i], w[i]);
      }
      if UpperCase(s) != w {
        var i :| 0 <= i < |s| && UpperCase(s)[i] != w[i];
        assert LowerChar(s[i]) != LowerChar(w[i]);
      }
    }
  }

  // ---------------------------------------------------------------------------
  // The request `forward` builds

  /** Every header except `Host` and `Content-Length` (in any case) is copied. */
  predicate Forwardable(name: string)
  {
    !EqualsIgnoreCase(name, "host") && !EqualsIgnoreCase(name, "content-length")
  }

  /** The headers `forward` adds for a list of inbound header names, in order. */
  function FilterHeaders(names: seq<string>, getHeader: string -> Option<string>): (r: seq<Header>)
    ensures |r| <= |names|
    ensures forall h :: h in r ==> h.name in names && Forwardable(h.name) && h.value == getHeader(h.name)
    ensures forall n :: n in names && Forwardable(n) ==> Header(n, getHeader(n)) in r
  {
    if names == [] then
      []
    else
      var init := names[..|names| - 1];
      var last := names[|names| - 1];
      assert names == init + [last];
      FilterHeaders(init, getHeader) + (if Forwardable(last) then [Header(last, getHeader(last))] else [])
  }

  /** The header loop of `forward`, over a list of header names that each
      attempt enumerates afresh. */
  method BuildHeaders(names: seq<string>, getHeader: string -> Option<string>) returns (headers: seq<Header>)
    ensures headers == FilterHeaders(names, getHeader)
  {
    headers := [];
    var i := 0;
    while i < |names|
      invariant 0 <= i <= |names|
      invariant headers == FilterHeaders(names[..i], getHeader)
    {
      var name := names[i];
      assert names[..i + 1][..i] == names[..i];
      if !EqualsIgnoreCase(name, "host") && !EqualsIgnoreCase(name, "content-length") {
        headers := headers + [Header(name, getHeader(name))];
      }
      i := i + 1;
    }
    assert names[..i] == names;
  }

  /** The servlet request's header-name enumeration as the retry loop holds
      it: one enumeration per inbound request, whose position `nextElement`
      advances and never rewinds. */
  class HeaderEnumeration {
    const names: seq<string>
    var position: nat

    ghost predicate Valid()
      reads this
    {
      position <= |names|
    }

    constructor (names: seq<string>)
      ensures Valid() && this.names == names && position == 0
    {
      this.names := names;
      position := 0;
    }

    /** The names `nextElement` has yet to hand out. */
    function Remaining(): seq<string>
      reads this
      requires Valid()
    {
      names[position..]
    }

    method HasMoreElements() returns (more: bool)
      requires Valid()
      ensures more <==> Remaining() != []
    {
      more := position < |names|;
    }

    method NextElement() returns (name: string)
      requires Valid() && Remaining() != []
      modifies this
      ensures Valid()
      ensures name == old(Remaining())[0] && Remaining() == old(Remaining())[1..]
    {
      name := names[position];
      position := position + 1;
    }
  }

  /** The header loop of `forward` as written: it reads the enumeration it is
      handed until it is exhausted, so it copies the headers still remaining
      and leaves none for a later attempt. */
  method CopyHeadersAsWritten(e: HeaderEnumeration, getHeader: string -> Option<string>)
    returns (headers: seq<Header>)
    requires e.Valid()
    modifies e
    ensures e.Valid() && e.Remaining() == []
    ensures headers == FilterHeaders(old(e.Remaining()), getHeader)
  {
    ghost var start := e.Remaining();
    ghost var done := 0;
    headers := [];
    var more := e.HasMoreElements();
    while more
      invariant e.Valid() && 0 <= done <= |start| && e.Remaining() == start[done..]
      invariant more <==> e.Remaining() != []
      invariant headers == FilterHeaders(start[..done], getHeader)
      decreases |e.Remaining()|
    {
      var name := e.NextElement();
      assert start[..done + 1] == start[..done] + [name];
      assert start[..done + 1][..done] == start[..done];
      if !EqualsIgnoreCase(name, "host") && !EqualsIgnoreCase(name, "content-length") {
        headers := headers + [Header(name, getHeader(name))];
      }
      done := done + 1;
      assert e.Remaining() == start[done..];
      more := e.HasMoreElements();
    }
    assert start[..done] == start;
  }

  /** Two attempts of the retry loop as written share the request's one
      enumeration: the first forwards the filtered headers, the second
      forwards none, although the inbound request still has them. */
  method RetryForwardsNoHeaders(names: seq<string>, getHeader: string -> Option<string>)
    returns (first: seq<Header>, second: seq<Header>)
    ensures first == FilterHeaders(names, getHeader)
    ensures second == []
    ensures (exists n :: n in names && Forwardable(n)) ==> first != second
  {
    var e := new HeaderEnumeration(names);
    assert e.Remaining() == names;
    first := CopyHeadersAsWritten(e, getHeader);
    second := CopyHeadersAsWritten(e, getHeader);
    if exists n :: n in names && Forwardable(n) {
      var n :| n in names && Forwardable(n);
      assert Header(n, getHeader(n)) in first;
    }
  }

  /** The text of a method as the client library names it. */
  function MethodName(m: HttpMethod): string
  {
    match m
    case GET => "GET"
    case POST => "POST"
    case PUT => "PUT"
    case DELETE => "DELETE"
  }

  /** The `switch` of `forward` on the upper-cased method text. */
  function Dispatch(verb: string): Option<HttpMethod>
  {
    var m := UpperCase(verb);
    if m == "GET" then Some(GET)
    else if m == "POST" then Some(POST)
    else if m == "PUT" then Some(PUT)
    else if m == "DELETE" then Some(DELETE)
    else None
  }

  /** A method text is dispatched to a method exactly when it names that method
      ignoring case; every other text gets the 405 answer. */
  lemma DispatchIgnoresCase(verb: string, m: HttpMethod)
    ensures Dispatch(verb) == Some(m) <==> EqualsIgnoreCase(verb, MethodName(m))
  {
    UpperCaseMatchesIgnoringCase(verb, "GET");
    UpperCaseMatchesIgnoringCase(verb, "POST");
    UpperCaseMatchesIgnoringCase(verb, "PUT");
    UpperCaseMatchesIgnoringCase(verb, "DELETE");
  }

  /** `DispatchIgnoresCase` for every method at once. */
  lemma DispatchNamesMatch(verb: string)
    ensures forall m :: Dispatch(verb) == Some(m) <==> EqualsIgnoreCase(verb, MethodName(m))
  {
    forall m {
      DispatchIgnoresCase(verb, m);
    }
  }

  /** The canonical name of each method is dispatched back to it. */
  lemma DispatchMethodName(m: HttpMethod)
    ensures Dispatch(MethodName(m)) == Some(m)
  {
    DispatchIgnoresCase(MethodName(m), m);
  }

  /** `getQueryString`: the query with its `?`, or nothing. */
  function QueryString(query: Option<string>): (r: string)
    ensures query.None? <==> r == ""
  {
    if query.Some? then "?" + query.value else ""
  }

  /** How an upstream server reads the query back off the URL suffix. */
  function ParseQuery(s: string): Option<string>
  {
    if |s| > 0 && s[0] == '?' then Some(s[1..]) else None
  }

  /** The query string survives the trip to the upstream URL unchanged. */
  lemma QueryStringRoundTrip(query: Option<string>)
    ensures ParseQuery(QueryString(query)) == query
  {
    if query.Some? {
      assert QueryString(query)[1..] == query.value;
    }
  }

  /** The URL an instance is sent: the instance's base URL, the route prefix,
      the path after the prefix and the query string. */
  function UpstreamUrl(baseUrl: string, svc: Service, path: string, query: Option<string>): string
  {
    baseUrl + RoutePrefix(svc) + path + QueryString(query)
  }

  /** Four concatenated pieces can be cut apart again at their lengths. */
  lemma ConcatParts(a: string, b: string, c: string, d: string)
    ensures var r := a + b + c + d;
            && |r| == |a| + |b| + |c| + |d|
            && r[..|a|] == a
            && r[|a|..|a| + |b|] == b
            && r[|a| + |b|..|a| + |b| + |c|] == c
            && r[|a| + |b| + |c|..] == d
  {
  }

  /** The upstream URL can be taken apart again: the instance's base URL, the
      route prefix, then the forwarded path and query, each where it was put. */
  lemma UpstreamUrlParts(baseUrl: string, svc: Service, path: string, query: Option<string>)
    ensures var r := UpstreamUrl(baseUrl, svc, path, query);
            var n := |baseUrl| + |RoutePrefix(svc)|;
            && r[..|baseUrl|] == baseUrl
            && r[|baseUrl|..n] == RoutePrefix(svc)
            && r[n..n + |path|] == path
            && ParseQuery(r[n + |path|..]) == query
  {
    ConcatParts(baseUrl, RoutePrefix(svc), path, QueryString(query));
    QueryStringRoundTrip(query);
  }

  /** What `forward` does once its headers are built: an unknown method gets a
      405 without any upstream call; otherwise the client is called with the
      dispatched method, the headers and the body (attempt `k` of the call). */
  function ForwardOutcome(url: string, verb: string, body: Option<string>, headers: seq<Header>,
                          send: (nat, Request) -> Outcome, k: nat): (o: Outcome)
    ensures Dispatch(verb).None? ==> o == Responded(Response(405, Some("method is not allowed")))
    ensures Dispatch(verb).Some? ==> o == send(k, Request(url, Dispatch(verb).value, headers, body))
  {
    match Dispatch(verb)
    case None => Responded(Response(405, Some("method is not allowed")))
    case Some(m) => send(k, Request(url, m, headers, body))
  }

  /** `forward`'s `switch` in the terms of `equalsIgnoreCase`: a method text
      that equals no method name ignoring case gets the 405 answer without an
      upstream call, and one that equals a method's name ignoring case sends
      the request with that method. */
  lemma ForwardOutcomeIgnoresCase(url: string, verb: string, body: Option<string>, headers: seq<Header>,
                                  send: (nat, Request) -> Outcome, k: nat)
    ensures (forall m :: !EqualsIgnoreCase(verb, MethodName(m))) ==>
              ForwardOutcome(url, verb, body, headers, send, k) == Responded(Response(405, Some("method is not allowed")))
    ensures forall m :: EqualsIgnoreCase(verb, MethodName(m)) ==>
              ForwardOutcome(url, verb, body, headers, send, k) == send(k, Request(url, m, headers, body))
  {
    DispatchNamesMatch(verb);
  }

  /** `forward`: builds the headers from a fresh enumeration of the inbound
      names, then dispatches. */
  method Forward(url: string, verb: string, body: Option<string>, inbound: Inbound,
                 send: (nat, Request) -> Outcome, k: nat) returns (o: Outcome)
    ensures o == ForwardOutcome(url, verb, body, FilterHeaders(inbound.headerNames, inbound.getHeader), send, k)
  {
    var headers := BuildHeaders(inbound.headerNames, inbound.getHeader);
    var m := UpperCase(verb);
    if m == "GET" {
      o := send(k, Request(url, GET, headers, body));
    } else if m == "POST" {
      o := send(k, Request(url, POST, headers, body));
    } else if m == "PUT" {
      o := send(k, Request(url, PUT, headers, body));
    } else if m == "DELETE" {
      o := send(k, Request(url, DELETE, headers, body));
    } else {
      o := Responded(Response(405, Some("method is not allowed")));
    }
  }

  // ---------------------------------------------------------------------------
  // The retry loop of `forwardToUserService` / `forwardToNotificationService`

  /** One inbound call as a controller handler hands it to the proxy. */
  datatype Call = Call(svc: Service, path: string, verb: string, body: Option<string>, inbound: Inbound)

  /** What attempt `k` of a call gets back when it is sent to `baseUrl`. */
  function AttemptOutcome(call: Call, send: (nat, Request) -> Outcome, k: nat, baseUrl: string): Outcome
  {
    ForwardOutcome(UpstreamUrl(baseUrl, call.svc, call.path, call.inbound.queryString), call.verb, call.body,
                   FilterHeaders(call.inbound.headerNames, call.inbound.getHeader), send, k)
  }

  /** The outcome of every possible attempt of a call: attempt `k` sent to
      `baseUrl`. */
  function Attempts(call: Call, send: (nat, Request) -> Outcome): (nat, string) -> Outcome
  {
    (k: nat, baseUrl: string) => AttemptOutcome(call, send, k, baseUrl)
  }

  /** How a retry loop ended: an instance answered, every available instance
      threw (the last exception kept), or there was nothing to try. */
  datatype Ending = Answered(response: Response) | AllFailed(last: Throwable) | NoneAvailable

  /** A retry loop's trace: the instances it tried, in order, those of them it
      marked failed, and how it ended. */
  datatype Run = Run(tried: seq<string>, failed: seq<string>, ending: Ending)

  /** Thrown when the last available instance has failed too; the last
      attempt's exception is the cause. */
  function ExhaustedError(svc: Service, cause: Throwable): Throwable
  {
    Throwable(Some("all " + DisplayName(svc) + " isntances are failed"), Some(cause))
  }

  /** Thrown when no instance was available to try at all. */
  function NoAttemptError(svc: Service): Throwable
  {
    Throwable(Some("Failed to forward request to " + DisplayName(svc) + " after retries"), None)
  }

  /** What the proxy method returns or throws for each ending. */
  function Returned(svc: Service, ending: Ending): Result<Response, Throwable>
  {
    match ending
    case Answered(response) => Success(response)
    case AllFailed(last) => Failure(ExhaustedError(svc, last))
    case NoneAvailable => Failure(NoAttemptError(svc))
  }

  /** The instance attempt `|tried|` goes to: the round-robin choice among the
      instances available at entry that have not failed yet. (Under the
      preconditions of `RetryFrom` that list is never empty.) */
  function RetryPick(avail0: seq<string>, cursor0: nat, tried: seq<string>): string
  {
    var candidates := Without(avail0, Elems(tried));
    if candidates == [] then "" else Pick(candidates, cursor0 + |tried|)
  }

  /** Under the loop's preconditions the next pick is an untried instance
      available at entry. */
  lemma RetryFromStepDefined(avail0: seq<string>, cursor0: nat, tried: seq<string>)
    requires NoDuplicates(avail0) && NoDuplicates(tried)
    requires forall u :: u in tried ==> u in avail0
    requires |tried| < |avail0|
    ensures var b := RetryPick(avail0, cursor0, tried);
            b in avail0 && b !in tried && NoDuplicates(tried + [b])
  {
    WithoutSize(avail0, tried);
    var b := RetryPick(avail0, cursor0, tried);
    assert b in Without(avail0, Elems(tried));
    NoDuplicatesAppend(tried, b);
  }

  /** While the budget lasts, the instances not tried yet are not exhausted,
      `RetryPick` is their round-robin pick at the advanced cursor, and trying
      it leaves one fewer. */
  lemma RetryPickLeft(avail0: seq<string>, cursor0: nat, tried: seq<string>, cursor: nat)
    requires NoDuplicates(avail0)
    requires |Without(avail0, Elems(tried))| + |tried| == |avail0|
    requires |tried| < |avail0| && cursor == cursor0 + |tried|
    ensures var left := Without(avail0, Elems(tried));
            var b := RetryPick(avail0, cursor0, tried);
            && left != []
            && b == Pick(left, cursor)
            && b in avail0
            && |Without(avail0, Elems(tried + [b]))| + |tried + [b]| == |avail0|
  {
    var left := Without(avail0, Elems(tried));
    assert |left| > 0;
    var b := Pick(left, cursor);
    assert RetryPick(avail0, cursor0, tried) == b;
    assert b in left;
    assert b in avail0;
    WithoutStep(avail0, tried, b);
  }

  /** After the loop has failed the instances `tried`, the service's available
      list is the one at entry without them; while the budget lasts it is not
      empty, its round-robin pick at the advanced cursor is `RetryPick`, a
      registered instance, and failing that pick leaves one fewer. */
  lemma RetryPickAfterFailures(order: seq<string>, flags0: map<string, bool>, failures0: map<string, int>,
                               avail0: seq<string>, cursor0: nat, tried: seq<string>, cursor: nat, clock: nat -> int)
    requires avail0 == AvailableOf(order, flags0) && NoDuplicates(avail0)
    requires |Without(avail0, Elems(tried))| + |tried| == |avail0|
    requires |tried| < |avail0| && cursor == cursor0 + |tried|
    ensures var left := AvailableOf(order, MarkAllFailed(flags0, failures0, tried, clock).0);
            var b := RetryPick(avail0, cursor0, tried);
            && left == Without(avail0, Elems(tried))
            && left != []
            && b == Pick(left, cursor)
            && b in flags0
            && |Without(avail0, Elems(tried + [b]))| + |tried + [b]| == |avail0|
  {
    MarkAllFailedAvailable(order, flags0, failures0, tried, clock);
    RetryPickLeft(avail0, cursor0, tried, cursor);
  }

  /** The retry loop from the attempt after `tried` on: every attempt takes the
      next round-robin instance, a response ends the loop, and an exception
      fails that instance and moves on, up to the number of instances available
      at entry. */
  function RetryFrom(attempt: (nat, string) -> Outcome, avail0: seq<string>, cursor0: nat,
                     tried: seq<string>): Run
    requires |tried| < |avail0|
    decreases |avail0| - |tried|
  {
    var b := RetryPick(avail0, cursor0, tried);
    match attempt(|tried|, b)
    case Responded(resp) => Run(tried + [b], tried, Answered(resp))
    case Threw(e) =>
      if |tried| + 1 >= |avail0| then Run(tried + [b], tried + [b], AllFailed(e))
      else RetryFrom(attempt, avail0, cursor0, tried + [b])
  }

  /** The whole retry loop, given the instances available when the call came in
      and the service's cursor then. */
  function Retry(attempt: (nat, string) -> Outcome, avail0: seq<string>, cursor0: nat): Run
  {
    if |avail0| == 0 then Run([], [], NoneAvailable)
    else RetryFrom(attempt, avail0, cursor0, [])
  }

  /** A run marks failed every instance it tried, except the last one when
      that one answered. */
  lemma {:induction false} RetryFromFailed(attempt: (nat, string) -> Outcome, avail0: seq<string>, cursor0: nat,
                                           tried: seq<string>)
    requires |tried| < |avail0|
    ensures var run := RetryFrom(attempt, avail0, cursor0, tried);
            && |run.tried| > 0
            && run.failed == if run.ending.Answered? then run.tried[..|run.tried| - 1] else run.tried
    decreases |avail0| - |tried|
  {
    var b := RetryPick(avail0, cursor0, tried);
    match attempt(|tried|, b)
    case Responded(_) =>
      assert (tried + [b])[..|tried|] == tried;
    case Threw(_) =>
      if |tried| + 1 < |avail0| {
        RetryFromFailed(attempt, avail0, cursor0, tried + [b]);
      }
  }

  /** What the loop's `markInstanceAsFailed` calls do to one service's maps:
      failed instance number `k` is flagged unavailable and stamped with the
      clock reading `clock(k)`. */
  function MarkAllFailed(flags: map<string, bool>, failures: map<string, int>, failed: seq<string>,
                         clock: nat -> int): (r: (map<string, bool>, map<string, int>))
    ensures r.0.Keys == flags.Keys
    decreases |failed|
  {
    if failed == [] then
      (flags, failures)
    else
      var k := |failed| - 1;
      var prev := MarkAllFailed(flags, failures, failed[..k], clock);
      if failed[k] in prev.0 then (prev.0[failed[k] := false], prev.1[failed[k] := clock(k)]) else prev
  }

  /** One step of the loop: attempt `|tried|` goes to `RetryPick`, which has
      not been tried yet; a response or the last budgeted attempt ends the run,
      any other exception continues it. */
  lemma RetryFromStep(attempt: (nat, string) -> Outcome, avail0: seq<string>, cursor0: nat,
                      tried: seq<string>)
    requires NoDuplicates(avail0) && NoDuplicates(tried)
    requires forall u :: u in tried ==> u in avail0
    requires |tried| < |avail0|
    ensures var b := RetryPick(avail0, cursor0, tried);
            && b in avail0 && b !in tried && NoDuplicates(tried + [b])
            && var o := attempt(|tried|, b);
               RetryFrom(attempt, avail0, cursor0, tried) ==
                 if o.Responded? then Run(tried + [b], tried, Answered(o.response))
                 else if |tried| + 1 >= |avail0| then Run(tried + [b], tried + [b], AllFailed(o.error))
                 else RetryFrom(attempt, avail0, cursor0, tried + [b])
  {
    RetryFromStepDefined(avail0, cursor0, tried);
  }

  /** The trace extends `tried` by distinct instances available at entry, at
      most one per available instance. */
  lemma {:induction false} RetryFromShape(attempt: (nat, string) -> Outcome, avail0: seq<string>,
                                          cursor0: nat, tried: seq<string>)
    requires NoDuplicates(avail0) && NoDuplicates(tried)
    requires forall u :: u in tried ==> u in avail0
    requires |tried| < |avail0|
    ensures var run := RetryFrom(attempt, avail0, cursor0, tried);
            && |tried| < |run.tried| <= |avail0|
            && run.tried[..|tried|] == tried
            && NoDuplicates(run.tried)
            && (forall u :: u in run.tried ==> u in avail0)
    decreases |avail0| - |tried|
  {
    RetryFromStep(attempt, avail0, cursor0, tried);
    var b := RetryPick(avail0, cursor0, tried);
    var next := tried + [b];
    assert next[..|tried|] == tried;
    var o := attempt(|tried|, b);
    if o.Threw? && |tried| + 1 < |avail0| {
      RetryFromShape(attempt, avail0, cursor0, next);
      var run := RetryFrom(attempt, avail0, cursor0, next);
      assert run.tried[..|tried|] == run.tried[..|next|][..|tried|];
    }
  }

  /** The trace extends the instances already tried by at least one more. */
  lemma {:induction false} RetryFromPrefix(attempt: (nat, string) -> Outcome, avail0: seq<string>,
                                           cursor0: nat, tried: seq<string>)
    requires |tried| < |avail0|
    ensures var run := RetryFrom(attempt, avail0, cursor0, tried);
            |tried| < |run.tried| && run.tried[..|tried|] == tried
    decreases |avail0| - |tried|
  {
    var b := RetryPick(avail0, cursor0, tried);
    var next := tried + [b];
    assert next[..|tried|] == tried;
    match attempt(|tried|, b)
    case Responded(_) =>
    case Threw(_) =>
      if |tried| + 1 < |avail0| {
        RetryFromPrefix(attempt, avail0, cursor0, next);
        var run := RetryFrom(attempt, avail0, cursor0, next);
        assert run.tried[..|tried|] == run.tried[..|next|][..|tried|];
      }
  }

  /** Each attempt of the trace goes to the round-robin choice among the
      instances not tried before it. */
  lemma {:induction false} RetryFromPicks(attempt: (nat, string) -> Outcome, avail0: seq<string>,
                                          cursor0: nat, tried: seq<string>)
    requires |tried| < |avail0|
    ensures var run := RetryFrom(attempt, avail0, cursor0, tried);
            |tried| < |run.tried| &&
            forall k :: |tried| <= k < |run.tried| ==> run.tried[k] == RetryPick(avail0, cursor0, run.tried[..k])
    decreases |avail0| - |tried|
  {
    var b := RetryPick(avail0, cursor0, tried);
    var next := tried + [b];
    var run := RetryFrom(attempt, avail0, cursor0, tried);
    RetryFromPrefix(attempt, avail0, cursor0, tried);
    match attempt(|tried|, b)
    case Responded(_) =>
      assert run.tried == next;
    case Threw(_) =>
      if |tried| + 1 < |avail0| {
        assert run == RetryFrom(attempt, avail0, cursor0, next);
        RetryFromPicks(attempt, avail0, cursor0, next);
        RetryFromPrefix(attempt, avail0, cursor0, next);
        assert run.tried[|tried|] == b by {
          assert run.tried[|tried|] == run.tried[..|next|][|tried|];
        }
      } else {
        assert run.tried == next;
      }
  }

  /** Every attempt of the trace but the last threw. */
  lemma {:induction false} RetryFromThrew(attempt: (nat, string) -> Outcome, avail0: seq<string>,
                                          cursor0: nat, tried: seq<string>)
    requires NoDuplicates(avail0) && NoDuplicates(tried)
    requires forall u :: u in tried ==> u in avail0
    requires |tried| < |avail0|
    ensures var run := RetryFrom(attempt, avail0, cursor0, tried);
            forall k :: |tried| <= k < |run.tried| - 1 ==> attempt(k, run.tried[k]).Threw?
    decreases |avail0| - |tried|
  {
    RetryFromStep(attempt, avail0, cursor0, tried);
    var b := RetryPick(avail0, cursor0, tried);
    var next := tried + [b];
    var o := attempt(|tried|, b);
    var run := RetryFrom(attempt, avail0, cursor0, tried);
    if o.Threw? && |tried| + 1 < |avail0| {
      assert run == RetryFrom(attempt, avail0, cursor0, next);
      RetryFromThrew(attempt, avail0, cursor0, next);
      RetryFromShape(attempt, avail0, cursor0, next);
      forall k | |tried| <= k < |run.tried| - 1
        ensures attempt(k, run.tried[k]).Threw?
      {
        if k == |tried| {
          assert run.tried[k] == run.tried[..|next|][k];
        }
      }
    }
  }

  /** The run answers with the last attempt's response, or, once the budget is
      spent, throws `ExhaustedError` with the last attempt's exception. */
  lemma {:induction false} RetryFromLast(attempt: (nat, string) -> Outcome, avail0: seq<string>,
                                         cursor0: nat, tried: seq<string>)
    requires |tried| < |avail0|
    ensures var run := RetryFrom(attempt, avail0, cursor0, tried);
            |run.tried| > 0 &&
            var last := attempt(|run.tried| - 1, run.tried[|run.tried| - 1]);
            && (last.Responded? ==> run.ending == Answered(last.response))
            && (last.Threw? ==> |run.tried| == |avail0| && run.ending == AllFailed(last.error))
    decreases |avail0| - |tried|
  {
    var b := RetryPick(avail0, cursor0, tried);
    match attempt(|tried|, b)
    case Responded(_) =>
      assert (tried + [b])[|tried|] == b;
    case Threw(_) =>
      if |tried| + 1 < |avail0| {
        RetryFromLast(attempt, avail0, cursor0, tried + [b]);
      } else {
        assert (tried + [b])[|tried|] == b;
      }
  }

  /** A call's retry loop tries nothing when no instance is available, and
      otherwise at most one attempt per available instance, never the same
      instance twice. */
  lemma RetryTriesEachAtMostOnce(attempt: (nat, string) -> Outcome, avail0: seq<string>, cursor0: nat)
    requires NoDuplicates(avail0)
    ensures var run := Retry(attempt, avail0, cursor0);
            && (|avail0| == 0 <==> run.tried == [])
            && (|avail0| == 0 <==> run.ending == NoneAvailable)
            && |run.tried| <= |avail0|
            && NoDuplicates(run.tried)
            && (forall u :: u in run.tried ==> u in avail0)
  {
    if |avail0| > 0 {
      RetryFromShape(attempt, avail0, cursor0, []);
      RetryFromLast(attempt, avail0, cursor0, []);
    }
  }

  /** Each attempt goes to the round-robin choice among the instances that
      have not failed yet; the first one to the ordinary choice at the
      service's cursor. */
  lemma RetryRoundRobin(attempt: (nat, string) -> Outcome, avail0: seq<string>, cursor0: nat)
    requires NoDuplicates(avail0)
    ensures var run := Retry(attempt, avail0, cursor0);
            && (forall k :: 0 <= k < |run.tried| ==> run.tried[k] == RetryPick(avail0, cursor0, run.tried[..k]))
            && (|avail0| > 0 ==> |run.tried| > 0 && run.tried[0] == Pick(avail0, cursor0))
  {
    if |avail0| > 0 {
      RetryFromPicks(attempt, avail0, cursor0, []);
      var run := Retry(attempt, avail0, cursor0);
      assert run.tried[..0] == [];
      WithoutAbsent(avail0, Elems([]));
    }
  }

  /** Every attempt but the last threw; the call answers with the last
      attempt's response, or ends with the last exception once every
      instance available at entry has been tried and has failed. */
  lemma RetryOutcome(attempt: (nat, string) -> Outcome, avail0: seq<string>, cursor0: nat)
    requires NoDuplicates(avail0)
    ensures var run := Retry(attempt, avail0, cursor0);
            && (forall k :: 0 <= k < |run.tried| - 1 ==> attempt(k, run.tried[k]).Threw?)
            && (|avail0| > 0 ==>
                  |run.tried| > 0 &&
                  var last := attempt(|run.tried| - 1, run.tried[|run.tried| - 1]);
                  && (last.Responded? ==> run.ending == Answered(last.response))
                  && (last.Threw? ==> run.ending == AllFailed(last.error)
                                      && forall u :: u in avail0 ==> u in run.tried))
            && run.failed == if run.ending.Answered? then run.tried[..|run.tried| - 1] else run.tried
  {
    if |avail0| > 0 {
      RetryFromFailed(attempt, avail0, cursor0, []);
      RetryFromShape(attempt, avail0, cursor0, []);
      RetryFromThrew(attempt, avail0, cursor0, []);
      RetryFromLast(attempt, avail0, cursor0, []);
      var run := Retry(attempt, avail0, cursor0);
      if run.ending.AllFailed? {
        WithoutSize(avail0, run.tried);
        assert Without(avail0, Elems(run.tried)) == [];
        assert forall u :: u in avail0 ==> u in Elems(run.tried);
      }
    }
  }

  /** When every instance throws, the loop tries each instance available at
      entry exactly once, marks every one of them failed, and the caller gets
      the fallback's 503 naming the exhausted service. */
  lemma ExhaustedAnswers503(svc: Service, attempt: (nat, string) -> Outcome, avail0: seq<string>, cursor0: nat)
    requires NoDuplicates(avail0) && |avail0| > 0
    requires forall k: nat, u :: u in avail0 ==> attempt(k, u).Threw?
    ensures var run := Retry(attempt, avail0, cursor0);
            && |run.tried| == |avail0|
            && (forall u :: u in avail0 <==> u in run.tried)
            && run.failed == run.tried
            && Guarded(svc, Returned(svc, run.ending)) ==
               Response(503, Some(DisplayName(svc) + " is unavailable: " + "all " + DisplayName(svc) + " isntances are failed"))
  {
    var run := Retry(attempt, avail0, cursor0);
    RetryTriesEachAtMostOnce(attempt, avail0, cursor0);
    RetryFromLast(attempt, avail0, cursor0, []);
    ghost var u := run.tried[|run.tried| - 1];
    assert u in run.tried;
    assert attempt(|run.tried| - 1, u).Threw?;
    RetryOutcome(attempt, avail0, cursor0);
    ExhaustedBody(svc, run.ending.last);
  }

  /** The fallback body for the exhausted-instances exception. */
  lemma ExhaustedBody(svc: Service, last: Throwable)
    ensures Guarded(svc, Returned(svc, AllFailed(last))) ==
            Response(503, Some(DisplayName(svc) + " is unavailable: " + "all " + DisplayName(svc) + " isntances are failed"))
  {
    var d := DisplayName(svc);
    assert d + " is unavailable: " + ("all " + d + " isntances are failed")
        == d + " is unavailable: " + "all " + d + " isntances are failed";
  }

  /** With no instance available nothing is tried, nothing is marked, and the
      caller gets the fallback's 503 for the "after retries" exception. */
  lemma NoneAvailableAnswers503(svc: Service, attempt: (nat, string) -> Outcome, cursor0: nat)
    ensures var run := Retry(attempt, [], cursor0);
            && run.tried == [] && run.failed == []
            && Guarded(svc, Returned(svc, run.ending)) ==
               Response(503, Some(DisplayName(svc) + " is unavailable: " + "Failed to forward request to " +
                                  DisplayName(svc) + " after retries"))
  {
    RetryNone(attempt, [], cursor0);
    var d := DisplayName(svc);
    assert d + " is unavailable: " + ("Failed to forward request to " + d + " after retries")
        == d + " is unavailable: " + "Failed to forward request to " + d + " after retries";
  }

  /** Two instances `a` and `b` and a cursor at 0, where `a` throws and `b`
      answers: the first attempt goes to `a`, the retry goes to `b`, only `a`
      is marked failed and the caller gets `b`'s response. */
  lemma FailoverExample(svc: Service, attempt: (nat, string) -> Outcome, a: string, b: string,
                        e: Throwable, resp: Response)
    requires a != b
    requires forall k: nat :: attempt(k, a) == Threw(e) && attempt(k, b) == Responded(resp)
    ensures var run := Retry(attempt, [a, b], 0);
            && run == Run([a, b], [a], Answered(resp))
            && Guarded(svc, Returned(svc, run.ending)) == resp
  {
    var avail0 := [a, b];
    assert Elems([]) == {};
    assert Without(avail0, {}) == avail0 by {
      assert Without([b], {}) == [b];
    }
    assert Slot(0, 2) == 0;
    assert RetryPick(avail0, 0, []) == a;
    assert attempt(0, a) == Threw(e);
    assert Elems([a]) == {a};
    assert Without(avail0, {a}) == [b] by {
      assert avail0[1..] == [b];
      assert Without([b], {a}) == [b];
    }
    assert Slot(1, 1) == 0 by {
      assert Slot(0, 1) == 0;
    }
    assert RetryPick(avail0, 0, [a]) == b;
    assert attempt(1, b) == Responded(resp);
    assert [a] + [b] == [a, b];
    assert RetryFrom(attempt, avail0, 0, [a]) == Run([a, b], [a], Answered(resp));
    assert Retry(attempt, avail0, 0) == RetryFrom(attempt, avail0, 0, [] + [a]);
  }

  /** Failing one more instance extends `MarkAllFailed` by one mark, stamped
      with the attempt's own clock reading. */
  lemma MarkAllFailedStep(flags: map<string, bool>, failures: map<string, int>, failed: seq<string>, u: string,
                          clock: nat -> int)
    requires u in flags
    ensures var prev := MarkAllFailed(flags, failures, failed, clock);
            MarkAllFailed(flags, failures, failed + [u], clock) == (prev.0[u := false], prev.1[u := clock(|failed|)])
  {
    assert (failed + [u])[..|failed|] == failed;
  }

  /** After the loop has failed the instances `failed`, the available list is
      the one at entry without them. */
  lemma {:induction false} MarkAllFailedAvailable(order: seq<string>, flags: map<string, bool>,
                                                  failures: map<string, int>, failed: seq<string>,
                                                  clock: nat -> int)
    ensures AvailableOf(order, MarkAllFailed(flags, failures, failed, clock).0)
            == Without(AvailableOf(order, flags), Elems(failed))
  {
    if failed == [] {
      WithoutAbsent(AvailableOf(order, flags), Elems(failed));
    } else {
      var k := |failed| - 1;
      var prev := MarkAllFailed(flags, failures, failed[..k], clock);
      MarkAllFailedAvailable(order, flags, failures, failed[..k], clock);
      assert Elems(failed) == Elems(failed[..k]) + {failed[k]} by {
        assert failed == failed[..k] + [failed[k]];
      }
      WithoutOneMore(AvailableOf(order, flags), Elems(failed[..k]), failed[k]);
      if failed[k] in prev.0 {
        AvailableAfterMarkFailed(order, prev.0, failed[k]);
      } else {
        WithoutAbsent(AvailableOf(order, prev.0), {failed[k]});
      }
    }
  }

  /** The exception messages reach the caller through the fallback body. */
  function MessageText(message: Option<string>): string
  {
    if message.Some? then message.value else "null"
  }

  /** `fallbackUserService` / `fallbackNotificationService`: a 503 whose body
      names the service and the exception's message. */
  function Fallback(svc: Service, t: Option<Throwable>): (r: Response)
    ensures r.status == 503
    ensures r.body.Some?
    ensures var prefix := DisplayName(svc) + " is unavailable: ";
            |prefix| <= |r.body.value| && r.body.value[..|prefix|] == prefix
  {
    Response(503, Some(DisplayName(svc) + " is unavailable: " +
                       (if t.Some? then MessageText(t.value.message) else "unknown error")))
  }

  /** What the caller of a forwarding method receives through the circuit
      breaker: the upstream response, or the fallback's 503 for the exception
      the method threw. */
  function Guarded(svc: Service, r: Result<Response, Throwable>): (resp: Response)
    ensures r.Success? ==> resp == r.value
    ensures r.Failure? ==> resp.status == 503
  {
    match r
    case Success(response) => response
    case Failure(t) => Fallback(svc, Some(t))
  }

  /** The registry maps `si`, `ft` and `rr` after a retry loop has failed the
      instances `failed` of service `name` and moved its cursor to `cursor`,
      starting from the maps `si0`, `ft0` and `rr0`. */
  ghost predicate Marked(si: map<string, map<string, bool>>, ft: map<string, map<string, int>>, rr: map<string, nat>,
                         si0: map<string, map<string, bool>>, ft0: map<string, map<string, int>>,
                         rr0: map<string, nat>, name: string, failed: seq<string>, clock: nat -> int, cursor: nat)
  {
    && name in si0 && name in ft0
    && var marked := MarkAllFailed(si0[name], ft0[name], failed, clock);
       && si == si0[name := marked.0]
       && ft == ft0[name := marked.1]
       && rr == rr0[name := cursor]
  }

  /** Before the loop nothing is marked. */
  lemma MarkedAtStart(si0: map<string, map<string, bool>>, ft0: map<string, map<string, int>>,
                      rr0: map<string, nat>, name: string, clock: nat -> int, cursor: nat)
    requires name in si0 && name in ft0 && name in rr0 && rr0[name] == cursor
    ensures Marked(si0, ft0, rr0, si0, ft0, rr0, name, [], clock, cursor)
  {
    UpdateSame(si0, name);
    UpdateSame(ft0, name);
    UpdateSame(rr0, name);
  }

  /** One attempt of the loop on instance `b` (attempt `k`): the cursor moves
      on, and an exception adds `b` to the failed instances. */
  lemma MarkedAfterAttempt(si: map<string, map<string, bool>>, ft: map<string, map<string, int>>,
                           rr: map<string, nat>, si0: map<string, map<string, bool>>,
                           ft0: map<string, map<string, int>>, rr0: map<string, nat>, name: string,
                           failed: seq<string>, clock: nat -> int, cursor: nat, k: nat, b: string, threw: bool,
                           si': map<string, map<string, bool>>, ft': map<string, map<string, int>>,
                           rr': map<string, nat>)
    requires Marked(si, ft, rr, si0, ft0, rr0, name, failed, clock, cursor)
    requires b in si0[name] && k == |failed|
    requires rr' == rr[name := cursor + 1]
    requires threw ==> si' == si[name := si[name][b := false]] && ft' == ft[name := ft[name][b := clock(k)]]
    requires !threw ==> si' == si && ft' == ft
    ensures threw ==> Marked(si', ft', rr', si0, ft0, rr0, name, failed + [b], clock, cursor + 1)
    ensures !threw ==> Marked(si', ft', rr', si0, ft0, rr0, name, failed, clock, cursor + 1)
  {
    var marked := MarkAllFailed(si0[name], ft0[name], failed, clock);
    UpdateTwice(rr0, name, cursor, cursor + 1);
    if threw {
      MarkAllFailedStep(si0[name], ft0[name], failed, b, clock);
      UpdateTwice(si0, name, marked.0, marked.0[b := false]);
      UpdateTwice(ft0, name, marked.1, marked.1[b := clock(|failed|)]);
    }
  }

  /** One pass of the loop as seen by its trace: attempt `k` of the call goes
      to `RetryPick`; a response ends the run with every earlier attempt
      failed, an exception either ends it (budget spent) or continues it. */
  lemma RetryStep(call: Call, send: (nat, Request) -> Outcome, avail0: seq<string>, cursor0: nat,
                  tried: seq<string>, k: nat, run: Run, b: string, o: Outcome)
    requires k == |tried| < |avail0| && run == RetryFrom(Attempts(call, send), avail0, cursor0, tried)
    requires b == RetryPick(avail0, cursor0, tried) && o == AttemptOutcome(call, send, k, b)
    ensures o.Responded? ==>
              && Answered(o.response) == run.ending && tried + [b] == run.tried && run.failed == tried
    ensures o.Threw? && k + 1 >= |avail0| ==>
              && AllFailed(o.error) == run.ending && tried + [b] == run.tried && run.failed == tried + [b]
    ensures o.Threw? && k + 1 < |avail0| ==> run == RetryFrom(Attempts(call, send), avail0, cursor0, tried + [b])
  {
    assert Attempts(call, send)(|tried|, b) == o;
    if o.Responded? {
      assert (tried + [b])[..|tried|] == tried;
    }
  }

  /** With nothing available the loop does not run: nothing is tried and
      nothing is marked. */
  lemma RetryNone(attempt: (nat, string) -> Outcome, avail0: seq<string>, cursor0: nat)
    requires |avail0| == 0
    ensures var run := Retry(attempt, avail0, cursor0);
            NoneAvailable == run.ending && [] == run.tried && run.failed == []
  {
  }

  /** What one pass of the retry loop establishes, from what the registry
      reports about the attempt on `b` at cursor `cursor`: the trace moves on
      by `b`, and the registry stays the one `Marked` describes. */
  lemma StepFacts(call: Call, send: (nat, Request) -> Outcome, clock: nat -> int, name: string, k: nat,
                  si0: map<string, map<string, bool>>, ft0: map<string, map<string, int>>, rr0: map<string, nat>,
                  avail0: seq<string>, cursor0: nat, tried: seq<string>, run: Run, cursor: nat, cursor': nat,
                  si: map<string, map<string, bool>>, ft: map<string, map<string, int>>, rr: map<string, nat>,
                  order: seq<string>, left: seq<string>, b: string, o: Outcome,
                  si': map<string, map<string, bool>>, ft': map<string, map<string, int>>, rr': map<string, nat>)
    requires name in si0
    requires Marked(si, ft, rr, si0, ft0, rr0, name, tried, clock, cursor)
    requires k == |tried| < |avail0| && |Without(avail0, Elems(tried))| + |tried| == |avail0|
    requires cursor == cursor0 + k && cursor' == cursor + 1
    requires avail0 == AvailableOf(order, si0[name]) && NoDuplicates(avail0)
    requires run == RetryFrom(Attempts(call, send), avail0, cursor0, tried)
    requires left == AvailableOf(order, si[name]) && left != [] && b == Pick(left, cursor)
    requires o == AttemptOutcome(call, send, k, b)
    requires rr' == rr[name := cursor + 1]
    requires o.Responded? ==> si' == si && ft' == ft
    requires o.Threw? ==> si' == si[name := si[name][b := false]] && ft' == ft[name := ft[name][b := clock(k)]]
    ensures |tried + [b]| == k + 1 && |Without(avail0, Elems(tried + [b]))| + |tried + [b]| == |avail0|
    ensures o.Responded? ==>
              && Answered(o.response) == run.ending && tried + [b] == run.tried && run.failed == tried
              && Marked(si', ft', rr', si0, ft0, rr0, name, tried, clock, cursor')
    ensures o.Threw? ==> Marked(si', ft', rr', si0, ft0, rr0, name, tried + [b], clock, cursor')
    ensures o.Threw? && k + 1 >= |avail0| ==>
              && AllFailed(o.error) == run.ending && tried + [b] == run.tried && run.failed == tried + [b]
    ensures o.Threw? && k + 1 < |avail0| ==> run == RetryFrom(Attempts(call, send), avail0, cursor0, tried + [b])
  {
    RetryPickAfterFailures(order, si0[name], ft0[name], avail0, cursor0, tried, cursor, clock);
    MarkedAfterAttempt(si, ft, rr, si0, ft0, rr0, name, tried, clock, cursor, k, b, o.Threw?, si', ft', rr');
    RetryStep(call, send, avail0, cursor0, tried, k, run, b, o);
  }

  /** The retry loop's state after the attempts `tried`: the registry keeps
      its invariant, `avail0` is the list the service had available when the
      call came in, the attempts so far are marked as `Marked` says, each
      attempt has used up one available instance, and `run` is the rest of
      the trace from here. */
  ghost predicate LoopState(si: map<string, map<string, bool>>, order: map<string, seq<string>>,
                            ft: map<string, map<string, int>>, rr: map<string, nat>,
                            si0: map<string, map<string, bool>>, ft0: map<string, map<string, int>>,
                            rr0: map<string, nat>, name: string, clock: nat -> int,
                            attempt: (nat, string) -> Outcome, avail0: seq<string>, cursor0: nat,
                            tried: seq<string>, cursor: nat, run: Run)
  {
    && RegistryValid(si, order, ft, rr)
    && name in order && name in si0
    && avail0 == AvailableOf(order[name], si0[name]) && NoDuplicates(avail0)
    && |tried| < |avail0| && |Without(avail0, Elems(tried))| + |tried| == |avail0|
    && cursor == cursor0 + |tried|
    && run == RetryFrom(attempt, avail0, cursor0, tried)
    && Marked(si, ft, rr, si0, ft0, rr0, name, tried, clock, cursor)
  }

  /** `LoopState` behind `depth` layers of definition. The retry loop carries
      it at depth 3, so that the loop's own proof handles the state as a
      single fact; `FoldLoopState` and `UnfoldLoopState` convert. */
  ghost predicate LoopStateAt(depth: nat, si: map<string, map<string, bool>>, order: map<string, seq<string>>,
                              ft: map<string, map<string, int>>, rr: map<string, nat>,
                              si0: map<string, map<string, bool>>, ft0: map<string, map<string, int>>,
                              rr0: map<string, nat>, name: string, clock: nat -> int,
                              attempt: (nat, string) -> Outcome, avail0: seq<string>, cursor0: nat,
                              tried: seq<string>, cursor: nat, run: Run)
    decreases depth
  {
    if depth == 0 then LoopState(si, order, ft, rr, si0, ft0, rr0, name, clock, attempt, avail0, cursor0, tried, cursor, run) else LoopStateAt(depth - 1, si, order, ft, rr, si0, ft0, rr0, name, clock, attempt, avail0, cursor0, tried, cursor, run)
  }

  lemma FoldLoopState(si: map<string, map<string, bool>>, order: map<string, seq<string>>,
                        ft: map<string, map<string, int>>, rr: map<string, nat>,
                        si0: map<string, map<string, bool>>, ft0: map<string, map<string, int>>,
                        rr0: map<string, nat>, name: string, clock: nat -> int,
                        attempt: (nat, string) -> Outcome, avail0: seq<string>, cursor0: nat,
                        tried: seq<string>, cursor: nat, run: Run)
    requires LoopState(si, order, ft, rr, si0, ft0, rr0, name, clock, attempt, avail0, cursor0, tried, cursor, run)
    ensures LoopStateAt(3, si, order, ft, rr, si0, ft0, rr0, name, clock, attempt, avail0, cursor0, tried, cursor, run)
  {
    assert LoopStateAt(0, si, order, ft, rr, si0, ft0, rr0, name, clock, attempt, avail0, cursor0, tried, cursor, run);
    assert LoopStateAt(1, si, order, ft, rr, si0, ft0, rr0, name, clock, attempt, avail0, cursor0, tried, cursor, run);
    assert LoopStateAt(2, si, order, ft, rr, si0, ft0, rr0, name, clock, attempt, avail0, cursor0, tried, cursor, run);
  }

  lemma UnfoldLoopState(si: map<string, map<string, bool>>, order: map<string, seq<string>>,
                          ft: map<string, map<string, int>>, rr: map<string, nat>,
                          si0: map<string, map<string, bool>>, ft0: map<string, map<string, int>>,
                          rr0: map<string, nat>, name: string, clock: nat -> int,
                          attempt: (nat, string) -> Outcome, avail0: seq<string>, cursor0: nat,
                          tried: seq<string>, cursor: nat, run: Run)
    requires LoopStateAt(3, si, order, ft, rr, si0, ft0, rr0, name, clock, attempt, avail0, cursor0, tried, cursor, run)
    ensures LoopState(si, order, ft, rr, si0, ft0, rr0, name, clock, attempt, avail0, cursor0, tried, cursor, run)
  {
    assert LoopStateAt(2, si, order, ft, rr, si0, ft0, rr0, name, clock, attempt, avail0, cursor0, tried, cursor, run);
    assert LoopStateAt(1, si, order, ft, rr, si0, ft0, rr0, name, clock, attempt, avail0, cursor0, tried, cursor, run);
    assert LoopStateAt(0, si, order, ft, rr, si0, ft0, rr0, name, clock, attempt, avail0, cursor0, tried, cursor, run);
  }

  /** The retry loop's state when it has ended: it ended as `run` did, after
      trying what `run` tried, with the registry valid, the failed instances
      marked and the cursor moved on by one per attempt. */
  ghost predicate LoopEnded(si: map<string, map<string, bool>>, order: map<string, seq<string>>,
                            ft: map<string, map<string, int>>, rr: map<string, nat>,
                            si0: map<string, map<string, bool>>, ft0: map<string, map<string, int>>,
                            rr0: map<string, nat>, name: string, clock: nat -> int, cursor0: nat,
                            ending: Ending, tried: seq<string>, cursor: nat, run: Run)
  {
    && ending == run.ending && tried == run.tried
    && RegistryValid(si, order, ft, rr)
    && cursor == cursor0 + |tried|
    && Marked(si, ft, rr, si0, ft0, rr0, name, run.failed, clock, cursor)
  }

  /** `LoopEnded` behind `depth` layers of definition, as `LoopStateAt`. */
  ghost predicate LoopEndedAt(depth: nat, si: map<string, map<string, bool>>, order: map<string, seq<string>>,
                              ft: map<string, map<string, int>>, rr: map<string, nat>,
                              si0: map<string, map<string, bool>>, ft0: map<string, map<string, int>>,
                              rr0: map<string, nat>, name: string, clock: nat -> int, cursor0: nat,
                              ending: Ending, tried: seq<string>, cursor: nat, run: Run)
    decreases depth
  {
    if depth == 0 then LoopEnded(si, order, ft, rr, si0, ft0, rr0, name, clock, cursor0, ending, tried, cursor, run) else LoopEndedAt(depth - 1, si, order, ft, rr, si0, ft0, rr0, name, clock, cursor0, ending, tried, cursor, run)
  }

  lemma FoldLoopEnded(si: map<string, map<string, bool>>, order: map<string, seq<string>>,
                      ft: map<string, map<string, int>>, rr: map<string, nat>,
                      si0: map<string, map<string, bool>>, ft0: map<string, map<string, int>>,
                      rr0: map<string, nat>, name: string, clock: nat -> int, cursor0: nat,
                      ending: Ending, tried: seq<string>, cursor: nat, run: Run)
    requires LoopEnded(si, order, ft, rr, si0, ft0, rr0, name, clock, cursor0, ending, tried, cursor, run)
    ensures LoopEndedAt(3, si, order, ft, rr, si0, ft0, rr0, name, clock, cursor0, ending, tried, cursor, run)
  {
    assert LoopEndedAt(0, si, order, ft, rr, si0, ft0, rr0, name, clock, cursor0, ending, tried, cursor, run);
    assert LoopEndedAt(1, si, order, ft, rr, si0, ft0, rr0, name, clock, cursor0, ending, tried, cursor, run);
    assert LoopEndedAt(2, si, order, ft, rr, si0, ft0, rr0, name, clock, cursor0, ending, tried, cursor, run);
  }

  lemma UnfoldLoopEnded(si: map<string, map<string, bool>>, order: map<string, seq<string>>,
                        ft: map<string, map<string, int>>, rr: map<string, nat>,
                        si0: map<string, map<string, bool>>, ft0: map<string, map<string, int>>,
                        rr0: map<string, nat>, name: string, clock: nat -> int, cursor0: nat,
                        ending: Ending, tried: seq<string>, cursor: nat, run: Run)
    requires LoopEndedAt(3, si, order, ft, rr, si0, ft0, rr0, name, clock, cursor0, ending, tried, cursor, run)
    ensures LoopEnded(si, order, ft, rr, si0, ft0, rr0, name, clock, cursor0, ending, tried, cursor, run)
  {
    assert LoopEndedAt(2, si, order, ft, rr, si0, ft0, rr0, name, clock, cursor0, ending, tried, cursor, run);
    assert LoopEndedAt(1, si, order, ft, rr, si0, ft0, rr0, name, clock, cursor0, ending, tried, cursor, run);
    assert LoopEndedAt(0, si, order, ft, rr, si0, ft0, rr0, name, clock, cursor0, ending, tried, cursor, run);
  }

  /** Entering the retry loop: when the service has an instance available,
      the loop's state holds before the first pass with nothing tried and the
      registry as it was. */
  lemma StartRetry(sd: ServiceDiscoveryManager, name: string, clock: nat -> int, attempt: (nat, string) -> Outcome,
                   avail0: seq<string>, cursor0: nat, run: Run)
    requires sd.Valid()
    requires avail0 == sd.GetAvailableInstances(name) && cursor0 == sd.Cursor(name)
    requires run == Retry(attempt, avail0, cursor0)
    ensures |avail0| > 0 ==>
              LoopStateAt(3, sd.serviceInstances, sd.instanceOrder, sd.instancesFailureTimes, sd.roundRobinIndexes,
                          sd.serviceInstances, sd.instancesFailureTimes, sd.roundRobinIndexes, name, clock,
                          attempt, avail0, cursor0, [], cursor0, run)
  {
    if |avail0| > 0 {
      assert sd.ValidService(name);
      MarkedAtStart(sd.serviceInstances, sd.instancesFailureTimes, sd.roundRobinIndexes, name, clock, cursor0);
      WithoutAbsent(avail0, Elems([]));
      FoldLoopState(sd.serviceInstances, sd.instanceOrder, sd.instancesFailureTimes, sd.roundRobinIndexes,
                    sd.serviceInstances, sd.instancesFailureTimes, sd.roundRobinIndexes, name, clock,
                    attempt, avail0, cursor0, [], cursor0, run);
    }
  }

  /** Leaving the retry loop: the registry is valid, the loop ended as `run`
      did after trying what `run` tried, and (for a registered service) the
      failed instances are marked with the cursor moved on by one per attempt.
      With nothing available the loop did not run and nothing changed. */
  lemma EndRetry(si: map<string, map<string, bool>>, order: map<string, seq<string>>,
                 ft: map<string, map<string, int>>, rr: map<string, nat>,
                 si0: map<string, map<string, bool>>, ft0: map<string, map<string, int>>, rr0: map<string, nat>,
                 name: string, clock: nat -> int, attempt: (nat, string) -> Outcome, avail0: seq<string>,
                 cursor0: nat, ending: Ending, tried: seq<string>, cursor: nat, run: Run, cursor': nat)
    requires RegistryValid(si0, order, ft0, rr0)
    requires run == Retry(attempt, avail0, cursor0)
    requires cursor0 == (if name in rr0 then rr0[name] else 0) && cursor' == cursor0 + |tried|
    requires |avail0| > 0 ==>
               LoopEndedAt(3, si, order, ft, rr, si0, ft0, rr0, name, clock, cursor0, ending, tried, cursor, run)
    requires |avail0| == 0 ==> ending == NoneAvailable && tried == [] && si == si0 && ft == ft0 && rr == rr0
    ensures RegistryValid(si, order, ft, rr)
    ensures ending == run.ending && tried == run.tried
    ensures name in si0 ==> Marked(si, ft, rr, si0, ft0, rr0, name, run.failed, clock, cursor')
  {
    if |avail0| > 0 {
      UnfoldLoopEnded(si, order, ft, rr, si0, ft0, rr0, name, clock, cursor0, ending, tried, cursor, run);
    } else {
      RetryNone(attempt, avail0, cursor0);
      if name in si0 {
        assert ServiceValidAt(si0, order, ft0, name);
        MarkedAtStart(si0, ft0, rr0, name, clock, cursor0);
      }
    }
  }

  // ---------------------------------------------------------------------------
  // The proxy service

  class ProxyService {
    const serviceDiscovery: ServiceDiscoveryManager

    constructor (serviceDiscovery: ServiceDiscoveryManager)
      ensures this.serviceDiscovery == serviceDiscovery
    {
      this.serviceDiscovery := serviceDiscovery;
    }

    /** One pass of the retry loop's `try` block up to the response: ask the
        registry for the next instance of service `name`, build the upstream
        URL and forward to it. When some instance is available, the instance
        is the round-robin pick among the available ones and only that
        service's cursor moves. */
    method TryNext(call: Call, send: (nat, Request) -> Outcome, k: nat, name: string,
                   ghost available: seq<string>, ghost cursor: nat)
      returns (baseUrl: string, outcome: Outcome)
      requires serviceDiscovery.Valid()
      requires name in serviceDiscovery.serviceInstances && name in serviceDiscovery.roundRobinIndexes
      requires AvailableOf(serviceDiscovery.instanceOrder[name], serviceDiscovery.serviceInstances[name]) == available != []
      requires serviceDiscovery.roundRobinIndexes[name] == cursor
      modifies serviceDiscovery`roundRobinIndexes
      ensures serviceDiscovery.Valid()
      ensures baseUrl == Pick(available, cursor)
      ensures serviceDiscovery.roundRobinIndexes == old(serviceDiscovery.roundRobinIndexes)[name := cursor + 1]
      ensures outcome == AttemptOutcome(call, send, k, baseUrl)
    {
      var sd := serviceDiscovery;
      assert name in sd.serviceInstances && name in sd.instanceOrder && name in sd.roundRobinIndexes;
      assert sd.Instances(name) != [] by {
        assert sd.GetAvailableInstances(name)[0] in sd.serviceInstances[name];
      }
      ghost var cursors := sd.roundRobinIndexes;
      assert cursors[name] == cursor;
      var next := sd.GetNextInstance(name);
      assert sd.Instances(name) != [];
      assert sd.roundRobinIndexes == cursors[name := cursor + 1];
      baseUrl := next.value;
      var url := UpstreamUrl(baseUrl, call.svc, call.path, call.inbound.queryString);
      outcome := Forward(url, call.verb, call.body, call.inbound, send, k);
    }

    /** One pass of the retry loop's `try`/`catch` block, attempt `k` for
        service `name`: the round-robin pick among the available instances is
        forwarded to; an exception marks it failed at clock reading
        `clock(k)`. */
    method AttemptNext(call: Call, send: (nat, Request) -> Outcome, clock: nat -> int, k: nat, name: string,
                       ghost available: seq<string>, ghost cursor: nat, ghost si: map<string, map<string, bool>>,
                       ghost ft: map<string, map<string, int>>, ghost rr: map<string, nat>)
      returns (baseUrl: string, outcome: Outcome)
      requires serviceDiscovery.serviceInstances == si && serviceDiscovery.instancesFailureTimes == ft
      requires serviceDiscovery.roundRobinIndexes == rr
      requires RegistryValid(si, serviceDiscovery.instanceOrder, ft, rr)
      requires name in si && name in rr && rr[name] == cursor
      requires AvailableOf(serviceDiscovery.instanceOrder[name], si[name]) == available != []
      modifies serviceDiscovery`serviceInstances, serviceDiscovery`instancesFailureTimes,
               serviceDiscovery`roundRobinIndexes
      ensures RegistryValid(serviceDiscovery.serviceInstances, serviceDiscovery.instanceOrder,
                            serviceDiscovery.instancesFailureTimes, serviceDiscovery.roundRobinIndexes)
      ensures serviceDiscovery.instanceOrder == old(serviceDiscovery.instanceOrder)
      ensures baseUrl == Pick(available, cursor)
      ensures outcome == AttemptOutcome(call, send, k, baseUrl)
      ensures serviceDiscovery.roundRobinIndexes == rr[name := cursor + 1]
      ensures outcome.Responded? ==> serviceDiscovery.serviceInstances == si && serviceDiscovery.instancesFailureTimes == ft
      ensures outcome.Threw? ==>
                && serviceDiscovery.serviceInstances == si[name := si[name][baseUrl := false]]
                && serviceDiscovery.instancesFailureTimes == ft[name := ft[name][baseUrl := clock(k)]]
    {
      var sd := serviceDiscovery;
      ghost var order := sd.instanceOrder;
      assert sd.Valid();
      assert available[0] in si[name];
      baseUrl, outcome := TryNext(call, send, k, name, available, cursor);
      assert sd.instanceOrder == order;
      if outcome.Threw? {
        assert baseUrl in available;
        sd.MarkInstanceAsFailed(name, baseUrl, clock(k));
        assert sd.instanceOrder == order;
      }
    }

    /** One pass of the retry loop: attempt `k`, at cursor `cursor`, with
        what it does to the registry and to the run `Retry` describes. */
    method AttemptStep(call: Call, send: (nat, Request) -> Outcome, clock: nat -> int, name: string, k: nat,
                       ghost si0: map<string, map<string, bool>>, ghost ft0: map<string, map<string, int>>,
                       ghost rr0: map<string, nat>, ghost avail0: seq<string>, ghost cursor0: nat,
                       ghost tried: seq<string>, ghost run: Run, ghost cursor: nat)
      returns (baseUrl: string, outcome: Outcome, ghost next: seq<string>, ghost nextCursor: nat)
      requires RegistryValid(serviceDiscovery.serviceInstances, serviceDiscovery.instanceOrder,
                             serviceDiscovery.instancesFailureTimes, serviceDiscovery.roundRobinIndexes)
      requires name in serviceDiscovery.instanceOrder && name in si0
      requires k == |tried| < |avail0| && |Without(avail0, Elems(tried))| + |tried| == |avail0|
      requires cursor == cursor0 + k
      requires avail0 == AvailableOf(serviceDiscovery.instanceOrder[name], si0[name]) && NoDuplicates(avail0)
      requires run == RetryFrom(Attempts(call, send), avail0, cursor0, tried)
      requires Marked(serviceDiscovery.serviceInstances, serviceDiscovery.instancesFailureTimes,
                      serviceDiscovery.roundRobinIndexes, si0, ft0, rr0, name, tried, clock, cursor)
      modifies serviceDiscovery`serviceInstances, serviceDiscovery`instancesFailureTimes,
               serviceDiscovery`roundRobinIndexes
      ensures RegistryValid(serviceDiscovery.serviceInstances, serviceDiscovery.instanceOrder,
                            serviceDiscovery.instancesFailureTimes, serviceDiscovery.roundRobinIndexes)
      ensures serviceDiscovery.instanceOrder == old(serviceDiscovery.instanceOrder)
      ensures next == tried + [baseUrl] && nextCursor == cursor + 1
      ensures |next| == k + 1 && |Without(avail0, Elems(next))| + |next| == |avail0|
      ensures outcome.Responded? ==>
                && Answered(outcome.response) == run.ending && next == run.tried && run.failed == tried
                && Marked(serviceDiscovery.serviceInstances, serviceDiscovery.instancesFailureTimes,
                          serviceDiscovery.roundRobinIndexes, si0, ft0, rr0, name, tried, clock, nextCursor)
      ensures outcome.Threw? ==>
                Marked(serviceDiscovery.serviceInstances, serviceDiscovery.instancesFailureTimes,
                       serviceDiscovery.roundRobinIndexes, si0, ft0, rr0, name, next, clock, nextCursor)
      ensures outcome.Threw? && k + 1 >= |avail0| ==>
                && AllFailed(outcome.error) == run.ending && next == run.tried && run.failed == next
      ensures outcome.Threw? && k + 1 < |avail0| ==> run == RetryFrom(Attempts(call, send), avail0, cursor0, next)
    {
      var sd := serviceDiscovery;
      ghost var si, ft, rr := sd.serviceInstances, sd.instancesFailureTimes, sd.roundRobinIndexes;
      ghost var order := sd.instanceOrder[name];
      ghost var left := AvailableOf(order, si[name]);
      RetryPickAfterFailures(order, si0[name], ft0[name], avail0, cursor0, tried, cursor, clock);
      baseUrl, outcome := AttemptNext(call, send, clock, k, name, left, cursor, si, ft, rr);
      next := tried + [baseUrl];
      nextCursor := cursor + 1;
      StepFacts(call, send, clock, name, k, si0, ft0, rr0, avail0, cursor0, tried, run, cursor, nextCursor, si, ft, rr, order,
                left, baseUrl, outcome, sd.serviceInstances, sd.instancesFailureTimes, sd.roundRobinIndexes);
    }

    /** One pass of the retry loop on its folded state: a response or the
        last budgeted exception ends the run as `run` says, with the registry
        marked as `Marked` says; any other exception leaves the loop in its
        state for the next attempt. */
    method LoopStep(call: Call, send: (nat, Request) -> Outcome, clock: nat -> int, name: string, k: nat,
                    ghost si0: map<string, map<string, bool>>, ghost ft0: map<string, map<string, int>>,
                    ghost rr0: map<string, nat>, ghost avail0: seq<string>, ghost cursor0: nat,
                    ghost tried: seq<string>, ghost run: Run, ghost cursor: nat)
      returns (baseUrl: string, outcome: Outcome, ghost next: seq<string>, ghost nextCursor: nat)
      requires k == |tried|
      requires LoopStateAt(3, serviceDiscovery.serviceInstances, serviceDiscovery.instanceOrder, serviceDiscovery.instancesFailureTimes, serviceDiscovery.roundRobinIndexes,
                           si0, ft0, rr0, name, clock, Attempts(call, send), avail0, cursor0, tried, cursor, run)
      modifies serviceDiscovery`serviceInstances, serviceDiscovery`instancesFailureTimes,
               serviceDiscovery`roundRobinIndexes
      ensures next == tried + [baseUrl] && nextCursor == cursor + 1
      ensures outcome.Responded? ==>
                LoopEndedAt(3, serviceDiscovery.serviceInstances, serviceDiscovery.instanceOrder, serviceDiscovery.instancesFailureTimes,
                             serviceDiscovery.roundRobinIndexes,
                            si0, ft0, rr0, name, clock, cursor0, Answered(outcome.response), next, nextCursor, run)
      ensures outcome.Threw? && k + 1 >= |avail0| ==>
                LoopEndedAt(3, serviceDiscovery.serviceInstances, serviceDiscovery.instanceOrder, serviceDiscovery.instancesFailureTimes,
                             serviceDiscovery.roundRobinIndexes,
                            si0, ft0, rr0, name, clock, cursor0, AllFailed(outcome.error), next, nextCursor, run)
      ensures outcome.Threw? && k + 1 < |avail0| ==>
                LoopStateAt(3, serviceDiscovery.serviceInstances, serviceDiscovery.instanceOrder, serviceDiscovery.instancesFailureTimes,
                             serviceDiscovery.roundRobinIndexes,
                            si0, ft0, rr0, name, clock, Attempts(call, send), avail0, cursor0, next, nextCursor, run)
    {
      var sd := serviceDiscovery;
      UnfoldLoopState(sd.serviceInstances, sd.instanceOrder, sd.instancesFailureTimes, sd.roundRobinIndexes,
                      si0, ft0, rr0, name, clock, Attempts(call, send), avail0, cursor0, tried, cursor, run);
      baseUrl, outcome, next, nextCursor := AttemptStep(call, send, clock, name, k, si0, ft0, rr0,
                                                        avail0, cursor0, tried, run, cursor);
      if outcome.Threw? && k + 1 < |avail0| {
        FoldLoopState(sd.serviceInstances, sd.instanceOrder, sd.instancesFailureTimes, sd.roundRobinIndexes,
                      si0, ft0, rr0, name, clock, Attempts(call, send), avail0, cursor0, next, nextCursor, run);
      } else if outcome.Responded? {
        FoldLoopEnded(sd.serviceInstances, sd.instanceOrder, sd.instancesFailureTimes, sd.roundRobinIndexes,
                      si0, ft0, rr0, name, clock, cursor0, Answered(outcome.response), next, nextCursor, run);
      } else {
        FoldLoopEnded(sd.serviceInstances, sd.instanceOrder, sd.instancesFailureTimes, sd.roundRobinIndexes,
                      si0, ft0, rr0, name, clock, cursor0, AllFailed(outcome.error), next, nextCursor, run);
      }
    }

    /** The `while` loop of the retry loop, on the loop's folded state: up
        to `maxRetries` passes, each ending the loop on a response or once
        the budget is spent; with a budget of zero nothing happens and the
        loop ends with nothing available. */
    method RetryPasses(name: string, call: Call, send: (nat, Request) -> Outcome, clock: nat -> int,
                       maxRetries: nat, ghost si0: map<string, map<string, bool>>,
                       ghost ft0: map<string, map<string, int>>, ghost rr0: map<string, nat>,
                       ghost avail0: seq<string>, ghost cursor0: nat, ghost run: Run)
      returns (ending: Ending, ghost tried: seq<string>, ghost cursor: nat)
      requires maxRetries == |avail0|
      requires maxRetries > 0 ==>
                 LoopStateAt(3, serviceDiscovery.serviceInstances, serviceDiscovery.instanceOrder, serviceDiscovery.instancesFailureTimes,
                             serviceDiscovery.roundRobinIndexes,
                             si0, ft0, rr0, name, clock, Attempts(call, send), avail0, cursor0, [], cursor0, run)
      modifies serviceDiscovery`serviceInstances, serviceDiscovery`instancesFailureTimes,
               serviceDiscovery`roundRobinIndexes
      ensures maxRetries > 0 ==>
                LoopEndedAt(3, serviceDiscovery.serviceInstances, serviceDiscovery.instanceOrder, serviceDiscovery.instancesFailureTimes,
                             serviceDiscovery.roundRobinIndexes,
                            si0, ft0, rr0, name, clock, cursor0, ending, tried, cursor, run)
      ensures maxRetries == 0 ==> ending == NoneAvailable && tried == [] && unchanged(serviceDiscovery)
    {
      var sd := serviceDiscovery;
      var retryCount := 0;
      tried := [];
      cursor := cursor0;
      while retryCount < maxRetries
        invariant retryCount == |tried|
        invariant maxRetries == 0 || retryCount < maxRetries
        invariant maxRetries > 0 ==>
                    LoopStateAt(3, sd.serviceInstances, sd.instanceOrder, sd.instancesFailureTimes, sd.roundRobinIndexes,
                                si0, ft0, rr0, name, clock, Attempts(call, send), avail0, cursor0, tried, cursor, run)
        invariant maxRetries == 0 ==> unchanged(sd)
      {
        var baseUrl, outcome, next, nextCursor := LoopStep(call, send, clock, name, retryCount, si0, ft0, rr0,
                                                           avail0, cursor0, tried, run, cursor);
        tried := next;
        cursor := nextCursor;
        if outcome.Responded? {
          return Answered(outcome.response), tried, cursor;
        }
        retryCount := retryCount + 1;
        if retryCount >= maxRetries {
          return AllFailed(outcome.error), tried, cursor;
        }
      }
      return NoneAvailable, [], cursor0;
    }

    /** The retry loop shared by `forwardToUserService` and
        `forwardToNotificationService`, for service `name`. The retry budget
        is the number of instances available when the call comes in; each
        attempt asks the registry for the next instance, forwards to it, and
        on an exception marks that instance failed (at clock reading
        `clock(k)` for attempt `k`). The ending and the instances tried are
        those of `Retry`; the registry ends with exactly the failed instances
        marked and the cursor moved on by one per attempt. */
    method RetryLoop(name: string, call: Call, send: (nat, Request) -> Outcome, clock: nat -> int)
      returns (ending: Ending, ghost tried: seq<string>)
      requires serviceDiscovery.Valid()
      modifies serviceDiscovery`serviceInstances, serviceDiscovery`instancesFailureTimes,
               serviceDiscovery`roundRobinIndexes
      ensures serviceDiscovery.Valid()
      ensures var run := Retry(Attempts(call, send), old(serviceDiscovery.GetAvailableInstances(name)),
                               old(serviceDiscovery.Cursor(name)));
              && ending == run.ending
              && tried == run.tried
              && (name in old(serviceDiscovery.serviceInstances) ==>
                    Marked(serviceDiscovery.serviceInstances, serviceDiscovery.instancesFailureTimes,
                           serviceDiscovery.roundRobinIndexes, old(serviceDiscovery.serviceInstances),
                           old(serviceDiscovery.instancesFailureTimes), old(serviceDiscovery.roundRobinIndexes),
                           name, run.failed, clock, old(serviceDiscovery.Cursor(name)) + |tried|))
      ensures name !in old(serviceDiscovery.serviceInstances) ==> unchanged(serviceDiscovery)
    {
      var sd := serviceDiscovery;
      ghost var attempt := Attempts(call, send);
      ghost var cursor0 := sd.Cursor(name);
      ghost var si0, ft0, rr0 := sd.serviceInstances, sd.instancesFailureTimes, sd.roundRobinIndexes;
      var available := sd.GetAvailableInstances(name);
      ghost var run := Retry(attempt, available, cursor0);
      var maxRetries := |available|;
      StartRetry(sd, name, clock, attempt, available, cursor0, run);
      ghost var cursor;
      ending, tried, cursor := RetryPasses(name, call, send, clock, maxRetries, si0, ft0, rr0, available, cursor0, run);
      EndRetry(sd.serviceInstances, sd.instanceOrder, sd.instancesFailureTimes, sd.roundRobinIndexes,
               si0, ft0, rr0, name, clock, attempt, available, cursor0, ending, tried, cursor, run,
               old(serviceDiscovery.Cursor(name)) + |tried|);
      ValidOf(sd);
    }

    /** `forwardToUserService` / `forwardToNotificationService`: the retry
        loop for the service's registry entry, with its ending turned into the
        response or the exception the method ends with. */
    method ForwardToService(svc: Service, path: string, verb: string, body: Option<string>, inbound: Inbound,
                            send: (nat, Request) -> Outcome, clock: nat -> int)
      returns (r: Result<Response, Throwable>, ghost tried: seq<string>)
      requires serviceDiscovery.Valid()
      modifies serviceDiscovery`serviceInstances, serviceDiscovery`instancesFailureTimes,
               serviceDiscovery`roundRobinIndexes
      ensures serviceDiscovery.Valid()
      ensures var run := Retry(Attempts(Call(svc, path, verb, body, inbound), send),
                               old(serviceDiscovery.GetAvailableInstances(Name(svc))),
                               old(serviceDiscovery.Cursor(Name(svc))));
              && r == Returned(svc, run.ending)
              && tried == run.tried
              && (Name(svc) in old(serviceDiscovery.serviceInstances) ==>
                    var marked := MarkAllFailed(old(serviceDiscovery.serviceInstances[Name(svc)]),
                                                old(serviceDiscovery.instancesFailureTimes[Name(svc)]),
                                                run.failed, clock);
                    && serviceDiscovery.serviceInstances == old(serviceDiscovery.serviceInstances)[Name(svc) := marked.0]
                    && serviceDiscovery.instancesFailureTimes ==
                       old(serviceDiscovery.instancesFailureTimes)[Name(svc) := marked.1]
                    && serviceDiscovery.roundRobinIndexes ==
                       old(serviceDiscovery.roundRobinIndexes)[Name(svc) := old(serviceDiscovery.Cursor(Name(svc))) + |tried|])
      ensures Name(svc) !in old(serviceDiscovery.serviceInstances) ==> unchanged(serviceDiscovery)
    {
      var ending;
      ending, tried := RetryLoop(Name(svc), Call(svc, path, verb, body, inbound), send, clock);
      r := Returned(svc, ending);
    }
  }
}
