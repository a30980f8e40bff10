# Gateway routing and failover, modelled in Dafny

This project models the routing and failover core of a small Java API gateway
(`GetwayUserService`). The gateway fronts two upstream services, the user service and
the notification service, each run as several instances. The core has four parts:

* **Configuration** (`config.dfy`, module `Config`). The per-service settings: the
  instance list, the legacy single base URL, and the timeouts with their defaults.
  `getInstancesOrSingle` picks the instance list, or the single URL when there is no list.
* **Service discovery** (`roundrobin.dfy`, module `RoundRobin`; `discovery.dfy`, module
  `Discovery`). This is the registry class `ServiceDiscoveryManager`. Per service it keeps:
  * a map from instance URL to an availability flag;
  * a map from instance URL to the time the instance was last marked failed;
  * a round-robin cursor.

  Its operations are `init`, `getNextInstance`, `markInstanceAsFailed`,
  `getAvailableInstances`, and the periodic probe cycle `performHealthChecks` /
  `checkServiceInstances` with its 30-second failure cooldown. The class keeps its maps as
  fields that its methods reassign. The registry invariant `Valid` says:
  * an instance is unavailable exactly when it has a failure time;
  * failure times exist only for registered instances;
  * every service has all four entries.

  Every method preserves the invariant. `RoundRobin` holds the value-level side:
  * the available-instance filter;
  * the fall-back to every instance when none is available;
  * the pick `cursor mod count`;
  * the fairness of consecutive picks.
* **Proxy** (`proxy.dfy`, module `Proxy`). This is the class `ProxyService`. Its
  `forwardToUserService` / `forwardToNotificationService` run a retry loop. The retry budget
  is the number of instances available when the call comes in. Each attempt takes the next
  round-robin instance and forwards the call to it. An exception marks that instance failed
  and moves on; a response ends the loop. Around the loop:
  * `forward` copies every header except `Host` and `Content-Length`;
  * it dispatches on the upper-cased method text, answering 405 for an unknown method;
  * it builds the upstream URL as base URL + route prefix + path + query string;
  * the circuit-breaker fallbacks turn an exception into a 503 whose body names the service.

  The loop is specified by the function `Retry`. It gives the trace of a call from the
  instances available at entry, the cursor at entry and what each attempt returns. The loop
  method `ProxyService.RetryLoop` is proved to end as `Retry` says. It leaves the registry
  with exactly the failed instances marked, and the cursor moved on by one per attempt.
* **Controller** (`gateway.dfy`, module `Gateway`). The eight handlers of `GatewayController`
  (GET, POST, PUT and DELETE for `/users/**` and `/notifications/**`) and
  `extractPathAfterPrefix`. That function drops as many leading characters of the request
  URI as the context path and the route prefix have.

Inputs the code gets from outside become parameters:
* the HTTP client is `send: (nat, Request) -> Outcome`, indexed by attempt number;
* a health probe is `probe: string -> Probe`, giving the outcome and the clock reading;
* the clock read when an attempt marks an instance failed is `clock: nat -> int`.

Java `null` is `Option`'s `None`. An exception a caller receives is `Result`'s `Failure`,
or `Option`'s `None` where only the fact of the exception matters.

The iteration order of a Java map's keys is unspecified. The model fixes it as a field,
`instanceOrder`: per service, the keys of the flag map, each once, in insertion order.
Nothing here depends on which order it is, only on its not changing between calls, which
holds because no instance is ever added after `init`.

The retry budget is the number of instances *available* when the call comes in
(`ProxyService.java:69` and `:99`), not the number registered. The model follows the code.

The header loop of `forward` consumes the request's one header-name enumeration, so a
retry forwards no inbound headers (see Findings). `Proxy.RetryForwardsNoHeaders` models
that behaviour as written. The retry loop itself uses the corrected behaviour: every
attempt forwards the full filtered header list (`Proxy.Forward`, `Proxy.BuildHeaders`).

## Model

| member | source | states |
|---|---|---|
| `Config.DefaultServiceProps` | src/main/java/ru/vicsergeev/GetwayUserService/config/ServicesProperties.java:22-28 | unbound settings have connect 2000 ms, response 5000 ms, interval 30 s, health timeout 3000 ms, no base URL and an empty instance list, so they yield no instance |
| `Config.GetInstancesOrSingle` | src/main/java/ru/vicsergeev/GetwayUserService/config/ServicesProperties.java:30-39 | a non-empty instance list wins; otherwise a non-empty base URL alone; otherwise nothing; and every URL returned comes from the list or the base URL |
| `RoundRobin.AvailableOf` | src/main/java/ru/vicsergeev/GetwayUserService/services/ServiceDiscoveryManager.java:170-173 | the filtered list holds exactly the registered instances whose flag is true, no more than there are, with no duplicates when the registry has none |
| `RoundRobin.SlotIsMod` | src/main/java/ru/vicsergeev/GetwayUserService/services/ServiceDiscoveryManager.java:87 | the selected position is the cursor modulo the candidate count |
| `RoundRobin.SelectionIsRegistered` | src/main/java/ru/vicsergeev/GetwayUserService/services/ServiceDiscoveryManager.java:75-88 | a selection is always a registered instance; it is an available one whenever one is available; otherwise it is `instances[cursor % n]` over all of them |
| `RoundRobin.RoundRobinRotation` | src/main/java/ru/vicsergeev/GetwayUserService/services/ServiceDiscoveryManager.java:86-88 | `n` consecutive picks over `n` unchanged candidates are the list rotated to start at `cursor mod n` |
| `RoundRobin.RoundRobinVisitsEachOnce` | src/main/java/ru/vicsergeev/GetwayUserService/services/ServiceDiscoveryManager.java:86-88 | fairness: `n` consecutive picks over `n` distinct unchanged candidates return each candidate exactly once (as a multiset) |
| `RoundRobin.AvailableAfterMarkFailed` | src/main/java/ru/vicsergeev/GetwayUserService/services/ServiceDiscoveryManager.java:96-103 | marking one instance failed removes exactly that instance from the available list and keeps the order of the rest |
| `RoundRobin.WithoutSize` | src/main/java/ru/vicsergeev/GetwayUserService/services/ProxyService.java:69-83 | after `k` distinct available instances have failed, exactly `n - k` of the `n` remain available, so the budget never outruns the candidates |
| `Discovery.ServiceDiscoveryManager.StateOf` | src/main/java/ru/vicsergeev/GetwayUserService/services/ServiceDiscoveryManager.java:28-32 | under the registry invariant every registered instance is unavailable exactly when it has a failure time |
| `Discovery.ServiceDiscoveryManager.GetAvailableInstances` | src/main/java/ru/vicsergeev/GetwayUserService/services/ServiceDiscoveryManager.java:164-174 | an unknown service has none; otherwise exactly the instances flagged available, without duplicates, at most the registered ones |
| `Discovery.ServiceDiscoveryManager.constructor` | src/main/java/ru/vicsergeev/GetwayUserService/services/ServiceDiscoveryManager.java:41-66 | `init` registers exactly the configured URLs of each service, all available, with no failure times, cursors at 0 and the interval in ms; the invariant holds |
| `Discovery.ServiceDiscoveryManager.Register` | src/main/java/ru/vicsergeev/GetwayUserService/services/ServiceDiscoveryManager.java:46-54 | one service's registration replaces only its own entries: exactly the given URLs, all available, no failure times, cursor 0 |
| `Discovery.ServiceDiscoveryManager.GetNextInstance` | src/main/java/ru/vicsergeev/GetwayUserService/services/ServiceDiscoveryManager.java:69-93 | fails with the "no instances available" message for an unknown or empty service; otherwise returns the pick at the old cursor among the available instances (all of them when none is), advances only that cursor by one, and returns a registered, and when possible available, instance |
| `Discovery.ServiceDiscoveryManager.MarkInstanceAsFailed` | src/main/java/ru/vicsergeev/GetwayUserService/services/ServiceDiscoveryManager.java:96-103 | a registered instance gets flag false and failure time `now` (overwritten on every call); an unknown one changes nothing; the invariant is kept |
| `Discovery.ServiceDiscoveryManager.CheckServiceInstances` | src/main/java/ru/vicsergeev/GetwayUserService/services/ServiceDiscoveryManager.java:113-161 | an unknown service changes nothing; otherwise every registered instance's state becomes `HealthStep` of its old state and its probe of `url + endpoint`, no instance is added or removed, and other services are untouched |
| `Discovery.ServiceDiscoveryManager.PerformHealthChecks` | src/main/java/ru/vicsergeev/GetwayUserService/services/ServiceDiscoveryManager.java:107-111 | probes user instances at `/users` and notification instances at `/actuator/health`, each instance stepping by `HealthStep` |
| `Discovery.ProbeUpdate` | src/main/java/ru/vicsergeev/GetwayUserService/services/ServiceDiscoveryManager.java:137-158 | probing one instance never adds or removes a registered instance |
| `Discovery.ProbeUpdateCases` | src/main/java/ru/vicsergeev/GetwayUserService/services/ServiceDiscoveryManager.java:137-158 | the three effects of one probe: recover (flag true, failure time removed), fail at the probe's time, or nothing, each with the exact condition that selects it |
| `Discovery.ProbeUpdateSpec` | src/main/java/ru/vicsergeev/GetwayUserService/services/ServiceDiscoveryManager.java:124-159 | one probe keeps the service's invariant, applies `HealthStep` to that instance and leaves every other instance unchanged |
| `Discovery.ProbeAll` | src/main/java/ru/vicsergeev/GetwayUserService/services/ServiceDiscoveryManager.java:124-160 | a probe cycle keeps the set of registered instances |
| `Discovery.ProbeCycle` | src/main/java/ru/vicsergeev/GetwayUserService/services/ServiceDiscoveryManager.java:124-160 | the loop over the instances computes `ProbeAll`, one probe per instance in iteration order |
| `Discovery.ProbeStep` | src/main/java/ru/vicsergeev/GetwayUserService/services/ServiceDiscoveryManager.java:125-159 | the loop body, branch by branch, has the effect `ProbeUpdate` describes |
| `Discovery.ProbeAllSpec` | src/main/java/ru/vicsergeev/GetwayUserService/services/ServiceDiscoveryManager.java:124-160 | a cycle over distinct instances keeps the invariant, steps each probed instance by `HealthStep` exactly once and leaves the others alone |
| `Discovery.AddKeepsServiceValid` | src/main/java/ru/vicsergeev/GetwayUserService/services/ServiceDiscoveryManager.java:51-54 | registering a URL (again) keeps the service's invariant, a new URL joining the iteration order once |
| `Discovery.MarkFailedKeepsServiceValid` | src/main/java/ru/vicsergeev/GetwayUserService/services/ServiceDiscoveryManager.java:98-100 | flag false plus a failure time keeps the service's invariant |
| `Discovery.RecoverKeepsServiceValid` | src/main/java/ru/vicsergeev/GetwayUserService/services/ServiceDiscoveryManager.java:138-142 | flag true plus removing the failure time keeps the service's invariant |
| `Discovery.EmptyFlagsIffEmptyOrder` | src/main/java/ru/vicsergeev/GetwayUserService/services/ServiceDiscoveryManager.java:70-73 | the `isEmpty` test on the instance map is the test on the registered list |
| `Discovery.FillInstances` | src/main/java/ru/vicsergeev/GetwayUserService/services/ServiceDiscoveryManager.java:51-54 | the registration loop registers exactly the configured URLs, each once, all available, with the invariant holding |
| `Discovery.HealthStepKeepsConsistent` | src/main/java/ru/vicsergeev/GetwayUserService/services/ServiceDiscoveryManager.java:137-158 | every probe outcome keeps "unavailable iff failure time recorded" |
| `Discovery.HealthyProbeRecovers` | src/main/java/ru/vicsergeev/GetwayUserService/services/ServiceDiscoveryManager.java:137-142 | a 2xx probe leaves the instance available without failure time, and changes it iff it was unavailable |
| `Discovery.UnhealthyProbeFails` | src/main/java/ru/vicsergeev/GetwayUserService/services/ServiceDiscoveryManager.java:143-146 | a non-2xx probe fails an available instance at the probe's time and leaves an unavailable one as it was |
| `Discovery.ProbeErrorOnlyAfterCooldown` | src/main/java/ru/vicsergeev/GetwayUserService/services/ServiceDiscoveryManager.java:148-158 | a probe exception changes an instance only when it is available and has no failure time or one older than 30000 ms, and then fails it |
| `Discovery.ProbeErrorIgnoresCooldown` | src/main/java/ru/vicsergeev/GetwayUserService/services/ServiceDiscoveryManager.java:150-156 | under the invariant the cooldown test never decides: an exception fails exactly the available instances |
| `Discovery.RepeatedProbeErrorKeepsStamp` | src/main/java/ru/vicsergeev/GetwayUserService/services/ServiceDiscoveryManager.java:148-158 | a second failing probe keeps the first failure time |
| `Proxy.UpperCaseMatchesIgnoringCase` | src/main/java/ru/vicsergeev/GetwayUserService/services/ProxyService.java:132-139 | comparing the upper-cased text with an upper-case word is `equalsIgnoreCase`, both directions |
| `Proxy.FilterHeaders` | src/main/java/ru/vicsergeev/GetwayUserService/services/ProxyService.java:129-135 | the copied headers are exactly the inbound names other than `Host`/`Content-Length` in any case, each with the inbound value |
| `Proxy.BuildHeaders` | src/main/java/ru/vicsergeev/GetwayUserService/services/ProxyService.java:129-135 | the header loop over the names builds `FilterHeaders` of them |
| `Proxy.HeaderEnumeration.constructor` | src/main/java/ru/vicsergeev/GetwayUserService/services/ProxyService.java:65-66 | a fresh enumeration has every header name still to hand out |
| `Proxy.HeaderEnumeration.HasMoreElements` | src/main/java/ru/vicsergeev/GetwayUserService/services/ProxyService.java:130 | true exactly while names remain |
| `Proxy.HeaderEnumeration.NextElement` | src/main/java/ru/vicsergeev/GetwayUserService/services/ProxyService.java:131 | hands out the first remaining name and consumes it |
| `Proxy.CopyHeadersAsWritten` | src/main/java/ru/vicsergeev/GetwayUserService/services/ProxyService.java:129-135 | the header loop on the enumeration it is given copies the filtered remaining names and leaves the enumeration exhausted |
| `Proxy.RetryForwardsNoHeaders` | src/main/java/ru/vicsergeev/GetwayUserService/services/ProxyService.java:71-89 | a second attempt on the same enumeration forwards no headers, and this differs from the first whenever some header is forwardable |
| `Proxy.DispatchIgnoresCase` | src/main/java/ru/vicsergeev/GetwayUserService/services/ProxyService.java:139-145 | a method text is dispatched to a method iff it equals the method's name ignoring case; every other text gets 405 |
| `Proxy.DispatchMethodName` | src/main/java/ru/vicsergeev/GetwayUserService/services/ProxyService.java:139-143 | each method's own name is dispatched back to it |
| `Proxy.QueryString` | src/main/java/ru/vicsergeev/GetwayUserService/services/ProxyService.java:148-151 | the suffix is empty exactly when there is no query |
| `Proxy.QueryStringRoundTrip` | src/main/java/ru/vicsergeev/GetwayUserService/services/ProxyService.java:148-151 | the query read back off the URL suffix is the query |
| `Proxy.UpstreamUrlParts` | src/main/java/ru/vicsergeev/GetwayUserService/services/ProxyService.java:74 | the upstream URL splits back into base URL, route prefix, path and query, each where it was put |
| `Proxy.ForwardOutcomeIgnoresCase` | src/main/java/ru/vicsergeev/GetwayUserService/services/ProxyService.java:137-145 | a method text that equals no method name ignoring case answers 405 "method is not allowed" without calling the client; a text that equals a method's name ignoring case calls the client with that method, the headers and the body |
| `Proxy.Forward` | src/main/java/ru/vicsergeev/GetwayUserService/services/ProxyService.java:124-146 | `forward` over a fresh header list does what `ForwardOutcome` says with `FilterHeaders` of the inbound names |
| `Proxy.RetryFromStep` | src/main/java/ru/vicsergeev/GetwayUserService/services/ProxyService.java:71-88 | each attempt goes to an untried instance available at entry; a response or the last budgeted exception ends the run, another exception continues it |
| `Proxy.RetryFromShape` | src/main/java/ru/vicsergeev/GetwayUserService/services/ProxyService.java:71-89 | the run extends the instances tried so far by distinct instances available at entry, no more attempts than the budget |
| `Proxy.RetryFromPicks` | src/main/java/ru/vicsergeev/GetwayUserService/services/ProxyService.java:73 | every attempt goes to the round-robin choice among the instances not yet tried |
| `Proxy.RetryFromThrew` | src/main/java/ru/vicsergeev/GetwayUserService/services/ProxyService.java:72-88 | every attempt but the last threw |
| `Proxy.RetryFromLast` | src/main/java/ru/vicsergeev/GetwayUserService/services/ProxyService.java:79-87 | the run answers with the last attempt's response, or, after using the whole budget, ends with the last attempt's exception |
| `Proxy.RetryFromFailed` | src/main/java/ru/vicsergeev/GetwayUserService/services/ProxyService.java:80-83 | the instances marked failed are all those tried, except the last when it answered |
| `Proxy.RetryPickAfterFailures` | src/main/java/ru/vicsergeev/GetwayUserService/services/ProxyService.java:69-83 | after the loop failed some instances, the registry's available list is the one at entry without them, non-empty while budget remains, and its round-robin pick is the next attempt's instance |
| `Proxy.RetryTriesEachAtMostOnce` | src/main/java/ru/vicsergeev/GetwayUserService/services/ProxyService.java:69-89 | nothing is tried iff nothing is available; otherwise at most one attempt per available instance, never the same one twice, only available ones |
| `Proxy.RetryRoundRobin` | src/main/java/ru/vicsergeev/GetwayUserService/services/ProxyService.java:71-73 | each attempt takes the round-robin choice among the not-yet-failed instances, the first one the ordinary choice at the service's cursor |
| `Proxy.RetryOutcome` | src/main/java/ru/vicsergeev/GetwayUserService/services/ProxyService.java:71-91 | all attempts but the last threw; the call answers with the last response, or throws with the last exception only after every available instance was tried; the failed ones are marked |
| `Proxy.ExhaustedAnswers503` | src/main/java/ru/vicsergeev/GetwayUserService/services/ProxyService.java:79-87 | when every instance throws, each available instance is tried and marked failed exactly once and the caller gets 503 "… is unavailable: all … isntances are failed" |
| `Proxy.ExhaustedBody` | src/main/java/ru/vicsergeev/GetwayUserService/services/ProxyService.java:153-158 | the fallback for the exhausted-instances exception is a 503 naming the service twice |
| `Proxy.NoneAvailableAnswers503` | src/main/java/ru/vicsergeev/GetwayUserService/services/ProxyService.java:69-91 | with no instance available nothing is tried or marked, and the caller gets 503 "… is unavailable: Failed to forward request to … after retries" |
| `Proxy.FailoverExample` | src/main/java/ru/vicsergeev/GetwayUserService/services/ProxyService.java:71-88 | two instances, the first throwing: the retry reaches the second, only the first is marked, the caller gets the second's response |
| `Proxy.RetryNone` | src/main/java/ru/vicsergeev/GetwayUserService/services/ProxyService.java:69-71 | a zero budget tries and marks nothing |
| `Proxy.MarkAllFailed` | src/main/java/ru/vicsergeev/GetwayUserService/services/ProxyService.java:80-83 | marking the failed instances one by one never adds or removes an instance |
| `Proxy.MarkAllFailedStep` | src/main/java/ru/vicsergeev/GetwayUserService/services/ProxyService.java:82 | one more failure flags that instance false with the attempt's own clock reading |
| `Proxy.MarkAllFailedAvailable` | src/main/java/ru/vicsergeev/GetwayUserService/services/ProxyService.java:80-83 | after the marks, the available list is the one before without the failed instances |
| `Proxy.MarkedAfterAttempt` | src/main/java/ru/vicsergeev/GetwayUserService/services/ProxyService.java:73-83 | an attempt moves the cursor on by one and, when it threw, adds its instance to the marked ones |
| `Proxy.RetryStep` | src/main/java/ru/vicsergeev/GetwayUserService/services/ProxyService.java:71-88 | one pass of the loop moves the trace on by its instance: answered, exhausted, or continuing |
| `Proxy.Fallback` | src/main/java/ru/vicsergeev/GetwayUserService/services/ProxyService.java:153-165 | a fallback is a 503 whose body starts with "<Service> is unavailable: " |
| `Proxy.Guarded` | src/main/java/ru/vicsergeev/GetwayUserService/services/ProxyService.java:64-65 | through the circuit breaker a response passes unchanged and an exception becomes a 503 |
| `Proxy.StartRetry` | src/main/java/ru/vicsergeev/GetwayUserService/services/ProxyService.java:67-71 | on entry with something available, the loop state holds with nothing tried and the registry as it was |
| `Proxy.EndRetry` | src/main/java/ru/vicsergeev/GetwayUserService/services/ProxyService.java:71-91 | on exit the registry is valid, the loop ended as `Retry` says, and exactly the failed instances are marked with the cursor moved on by one per attempt |
| `Proxy.ProxyService.TryNext` | src/main/java/ru/vicsergeev/GetwayUserService/services/ProxyService.java:73-77 | one try block: the round-robin pick among the available instances, only that service's cursor advanced, forwarded to its upstream URL with the corrected headers (see Left out) |
| `Proxy.ProxyService.AttemptNext` | src/main/java/ru/vicsergeev/GetwayUserService/services/ProxyService.java:72-83 | one try/catch: a response leaves flags and failure times alone; an exception marks the picked instance failed at `clock(k)` |
| `Proxy.ProxyService.AttemptStep` | src/main/java/ru/vicsergeev/GetwayUserService/services/ProxyService.java:71-88 | one pass keeps the invariant and the marks, and moves the trace on as `RetryFrom` says |
| `Proxy.ProxyService.LoopStep` | src/main/java/ru/vicsergeev/GetwayUserService/services/ProxyService.java:71-88 | one pass either ends the loop as `Retry` says or re-establishes the loop state for the next attempt |
| `Proxy.ProxyService.RetryPasses` | src/main/java/ru/vicsergeev/GetwayUserService/services/ProxyService.java:68-91 | the `while` loop ends as `Retry` says; a zero budget does nothing and ends with nothing available |
| `Proxy.ProxyService.RetryLoop` | src/main/java/ru/vicsergeev/GetwayUserService/services/ProxyService.java:64-92 | the retry loop's ending and tried instances are `Retry`'s; the registry stays valid with exactly the failed instances marked and the cursor advanced once per attempt; an unknown service changes nothing |
| `Proxy.ProxyService.ForwardToService` | src/main/java/ru/vicsergeev/GetwayUserService/services/ProxyService.java:94-122 | the forwarding method returns the response or throws the exhausted / no-attempt exception as `Retry` ends, with the registry updated as in `RetryLoop`; every attempt forwards the corrected headers (see Left out) |
| `Gateway.Substring` | src/main/java/ru/vicsergeev/GetwayUserService/controllers/GatewayController.java:89-90 | `substring(begin)` is defined iff `begin <= length` and then is the suffix of that length |
| `Gateway.ExtractDefined` | src/main/java/ru/vicsergeev/GetwayUserService/controllers/GatewayController.java:86-91 | the path is extracted iff the URI is at least as long as context path and prefix together, and is then the URI's suffix after them |
| `Gateway.ExtractRoundTrip` | src/main/java/ru/vicsergeev/GetwayUserService/controllers/GatewayController.java:86-91 | `contextPath + prefix + rest` yields `rest` |
| `Gateway.ExtractIgnoresPrefixText` | src/main/java/ru/vicsergeev/GetwayUserService/controllers/GatewayController.java:89-90 | only the lengths of context path and prefix matter; their characters are never compared |
| `Gateway.HandlerFor` | src/main/java/ru/vicsergeev/GetwayUserService/controllers/GatewayController.java:28-82 | there is a handler for every service and method |
| `Gateway.HandlerTable` | src/main/java/ru/vicsergeev/GetwayUserService/controllers/GatewayController.java:28-82 | each handler is the only one for its service and method |
| `Gateway.HandlerCallShape` | src/main/java/ru/vicsergeev/GetwayUserService/controllers/GatewayController.java:28-82 | a handler calls its own service's forwarder with its own method text, GET/DELETE with a null body, POST/PUT with the request body, and the path after context path and prefix |
| `Gateway.HandlerPrefixRestored` | src/main/java/ru/vicsergeev/GetwayUserService/controllers/GatewayController.java:28-82 | the prefix a handler strips is the one the proxy puts back |
| `Gateway.HandlerNever405` | src/main/java/ru/vicsergeev/GetwayUserService/services/ProxyService.java:139-145 | a handler's method text always dispatches to its method: a routed call never gets 405 |
| `Gateway.HandlerUpstreamUrl` | src/main/java/ru/vicsergeev/GetwayUserService/controllers/GatewayController.java:86-91 | for a URI carrying the handler's prefix, each upstream URL is base URL + the URI without the context path + the query string |
| `Gateway.Handle` | src/main/java/ru/vicsergeev/GetwayUserService/controllers/GatewayController.java:28-82 | a handler end to end: a too-short URI throws and changes nothing; otherwise the caller gets `Retry`'s ending through the fallback, with the corrected headers on every attempt (see Left out) |

## Left out

- Resilience4j's circuit-breaker state machine (closed, open, half-open, failure-rate window). `Guarded` models only what reaches the caller: the result, or the fallback for the exception. Short-circuiting an open breaker is not modelled.
- HTTP client construction (`buildRestTemplate`, connection pooling, timeouts) and the null check on the client in `forward` (`ProxyService.java:126-128`). The client is the parameter `send`, always initialised. It may answer or throw for any request, so the client's default throwing on 4xx/5xx answers is covered without being singled out.
- Concurrency. The real maps are `ConcurrentHashMap`s shared by request threads and the scheduled prober. Each model method runs alone, and the retry loop sees no probe between its attempts.
- Scheduling. `@Scheduled(fixedDelay = 30000)` is not modelled; `PerformHealthChecks` is one cycle.
- The round-robin cursor is an unbounded `nat`. Java's `AtomicInteger` wraps to a negative value after 2^31 increments, and `%` then gives a negative index.
- The iteration order of the Java maps is unspecified. The model fixes one order per service (`instanceOrder`).
- Case folding is ASCII-only (`UpperCase`, `EqualsIgnoreCase`). Java also folds non-ASCII letters.
- UTF-8 decoding of request bodies. `ServletRequest.body` is the decoded text or nothing.
- Spring's URL-pattern routing to handlers. The lemmas about a handler take the request as routed to it.
- `Gateway.HandlerUpstreamUrl`: requires the URI to carry the prefix, which Spring's routing provides.
- `Proxy.ProxyService.RetryLoop`, `Proxy.ProxyService.TryNext`, `Proxy.ProxyService.AttemptNext`, `Proxy.ProxyService.AttemptStep`, `Proxy.ProxyService.LoopStep`, `Proxy.ProxyService.RetryPasses`, `Proxy.ProxyService.ForwardToService` and `Gateway.Handle`: every attempt forwards the full filtered header list of a fresh name list. This is the corrected behaviour from Findings. As written, every retry after the first forwards no inbound headers, so for a client that reads headers these members differ from the code on each retry.
- Logging, and the application's `main`.
- The health-check interval and timeout are stored but not acted on.
- The probe's HTTP call is the parameter `probe`, which also supplies the clock reading taken while the probe is handled. That one reading stands for both of the code's `currentTimeMillis()` calls: the one compared with the 30-second cooldown and the one `markInstanceAsFailed` stamps. Under the registry invariant the cooldown comparison never decides anything (`Discovery.ProbeErrorIgnoresCooldown`), so only the stamp's value could differ, by the time elapsed between the two calls.

## Findings

| source | as written | input that shows it | evidently intended | confidence | as-written member | corrected member |
|---|---|---|---|---|---|---|
| src/main/java/ru/vicsergeev/GetwayUserService/services/ProxyService.java:77 | every attempt of the retry loop passes the same `Enumeration` of header names to `forward`, whose header loop consumes it | two instances, the first throwing, and an inbound request with a forwardable header such as `Authorization`: the retry to the second instance is sent with no inbound headers | each attempt forwards all inbound headers except `Host` and `Content-Length` | not executed | `Proxy.RetryForwardsNoHeaders` | `Proxy.Forward` |
