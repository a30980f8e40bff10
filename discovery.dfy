/** The instance registry, round-robin selector and health prober
    (ServiceDiscoveryManager.java). */
module Discovery {
  import opened Wrappers
  import opened Config
  import opened RoundRobin

  const USER: string := "user"
  const NOTIFICATION: string := "notification"

  /** How long a failure stamp holds off the exception branch of a probe. */
  const FAILURE_COOLDOWN_IN_MS: int := 30000

  const USER_HEALTH_ENDPOINT: string := "/users"
  const NOTIFICATION_HEALTH_ENDPOINT: string := "/actuator/health"

  /** What a health probe got back: a response with a status code, or an exception. */
  datatype ProbeOutcome = HttpStatus(code: int) | ProbeError

  /** A probe's outcome and the clock reading taken while handling it. */
  datatype Probe = Probe(outcome: ProbeOutcome, now: int)

  /** One instance's entries in the two per-service maps. */
  datatype InstanceState = InstanceState(available: bool, failureTime: Option<int>)

  predicate Is2xx(code: int)
  {
    200 <= code < 300
  }

  /** The registry's invariant for one instance: unavailable exactly when a
      failure time is recorded. */
  predicate Consistent(st: InstanceState)
  {
    st.available <==> st.failureTime.None?
  }

  /** What one probe does to one instance in `checkServiceInstances`. */
  function HealthStep(st: InstanceState, p: Probe): InstanceState
  {
    match p.outcome
    case HttpStatus(code) =>
      if Is2xx(code) then
        if !st.available then InstanceState(true, None) else st
      else
        if st.available then InstanceState(false, Some(p.now)) else st
    case ProbeError =>
      if (st.failureTime.None? || p.now - st.failureTime.value > FAILURE_COOLDOWN_IN_MS) && st.available then
        InstanceState(false, Some(p.now))
      else
        st
  }

  /** The per-service part of the registry invariant: the iteration order lists
      each key of the flag map once, failure times are kept only for registered
      instances, and each instance is `Consistent`. */
  ghost predicate ServiceValid(order: seq<string>, flags: map<string, bool>, failures: map<string, int>)
  {
    && NoDuplicates(order)
    && (forall u :: u in flags <==> u in order)
    && (forall u :: u in failures ==> u in flags)
    && (forall u :: u in flags ==> (flags[u] <==> u !in failures))
  }

  /** The registry invariant over the four per-service maps. */
  ghost predicate RegistryValid(flags: map<string, map<string, bool>>, order: map<string, seq<string>>,
                                failures: map<string, map<string, int>>, cursors: map<string, nat>)
  {
    && flags.Keys == order.Keys
    && failures.Keys == order.Keys
    && cursors.Keys == order.Keys
    && forall s {:trigger ServiceValidAt(flags, order, failures, s)} ::
         s in order ==> ServiceValidAt(flags, order, failures, s)
  }

  /** `ServiceValid` for the entries of service `s` in the three maps. */
  ghost predicate ServiceValidAt(flags: map<string, map<string, bool>>, order: map<string, seq<string>>,
                                 failures: map<string, map<string, int>>, s: string)
  {
    s in flags && s in order && s in failures && ServiceValid(order[s], flags[s], failures[s])
  }

  /** An instance's entries in one service's flag and failure-time maps. */
  function StateIn(flags: map<string, bool>, failures: map<string, int>, u: string): InstanceState
    requires u in flags
  {
    InstanceState(flags[u], if u in failures then Some(failures[u]) else None)
  }

  class ServiceDiscoveryManager {
    /** Per service, instance URL to its availability flag. */
    var serviceInstances: map<string, map<string, bool>>
    /** Per service, the iteration order of the keys of its flag map. */
    var instanceOrder: map<string, seq<string>>
    /** Per service, instance URL to the time it was last marked failed. */
    var instancesFailureTimes: map<string, map<string, int>>
    /** Per service, the round-robin cursor. */
    var roundRobinIndexes: map<string, nat>
    var healthCheckIntervalMs: int

    ghost predicate Valid()
      reads this
    {
      RegistryValid(serviceInstances, instanceOrder, instancesFailureTimes, roundRobinIndexes)
    }

    /** The registry invariant for the entries of service `name`; `Valid`
        implies it for every registered service. */
    ghost predicate ValidService(name: string)
      reads this
    {
      ServiceValidAt(serviceInstances, instanceOrder, instancesFailureTimes, name)
    }

    /** The registered instances of a service, in iteration order. */
    function Instances(name: string): seq<string>
      reads this`instanceOrder
    {
      if name in instanceOrder then instanceOrder[name] else []
    }

    /** The round-robin cursor of a service (zero for an unknown one). */
    function Cursor(name: string): nat
      reads this`roundRobinIndexes
    {
      if name in roundRobinIndexes then roundRobinIndexes[name] else 0
    }

    /** The two map entries of a registered instance. */
    function StateOf(name: string, u: string): (st: InstanceState)
      reads this
      requires Valid() && name in instanceOrder && u in instanceOrder[name]
      ensures Consistent(st)
    {
      assert ValidService(name);
      StateIn(serviceInstances[name], instancesFailureTimes[name], u)
    }

    /** `getAvailableInstances`: nothing for an unknown service, otherwise the
        instances whose flag is true, in iteration order. */
    function GetAvailableInstances(name: string): (r: seq<string>)
      reads this
      ensures name !in serviceInstances ==> r == []
      ensures Valid() ==> forall u ::
                u in r <==> name in serviceInstances && u in serviceInstances[name] && serviceInstances[name][u]
      ensures Valid() ==> NoDuplicates(r) && |r| <= |Instances(name)|
    {
      if name in serviceInstances && name in instanceOrder then
        assert Valid() ==> ValidService(name);
        AvailableOf(instanceOrder[name], serviceInstances[name])
      else
        []
    }

    /** `init`: registers the configured instances of both services, each one
        available, with no failure time and a cursor at zero. */
    constructor (props: ServicesProperties)
      ensures Valid()
      ensures healthCheckIntervalMs == props.user.healthCheckInterval * 1000
      ensures instanceOrder.Keys == {USER, NOTIFICATION}
      ensures forall u :: u in Instances(USER) <==> u in GetInstancesOrSingle(props.user)
      ensures forall u :: u in Instances(NOTIFICATION) <==> u in GetInstancesOrSingle(props.notification)
      ensures GetAvailableInstances(USER) == Instances(USER)
      ensures GetAvailableInstances(NOTIFICATION) == Instances(NOTIFICATION)
      ensures instancesFailureTimes == map[USER := map[], NOTIFICATION := map[]]
      ensures roundRobinIndexes == map[USER := 0, NOTIFICATION := 0]
    {
      serviceInstances := map[];
      instanceOrder := map[];
      instancesFailureTimes := map[];
      roundRobinIndexes := map[];
      healthCheckIntervalMs := props.user.healthCheckInterval * 1000;
      new;
      Register(USER, GetInstancesOrSingle(props.user));
      Register(NOTIFICATION, GetInstancesOrSingle(props.notification));
    }

    /** One service's block of `init`: a fresh cursor, no failure times, and an
        instance map filled by a `put(u, true)` per configured URL (a repeated URL
        keeps its first place in the iteration order). */
    method Register(name: string, urls: seq<string>)
      requires Valid()
      modifies this`serviceInstances, this`instanceOrder, this`instancesFailureTimes, this`roundRobinIndexes
      ensures Valid() && name in instanceOrder
      ensures instanceOrder == old(instanceOrder)[name := instanceOrder[name]]
      ensures serviceInstances == old(serviceInstances)[name := serviceInstances[name]]
      ensures forall u :: u in instanceOrder[name] <==> u in urls
      ensures AvailableOf(instanceOrder[name], serviceInstances[name]) == instanceOrder[name]
      ensures instancesFailureTimes == old(instancesFailureTimes)[name := map[]]
      ensures roundRobinIndexes == old(roundRobinIndexes)[name := 0]
    {
      var order, flags := FillInstances(urls);
      ServiceUpdateKeepsValid(serviceInstances, instanceOrder, instancesFailureTimes, roundRobinIndexes,
                              name, order, flags, map[], 0);
      serviceInstances := serviceInstances[name := flags];
      instanceOrder := instanceOrder[name := order];
      instancesFailureTimes := instancesFailureTimes[name := map[]];
      roundRobinIndexes := roundRobinIndexes[name := 0];
      AllAvailable(order, flags);
    }

    /** `getNextInstance`: fails for an unknown service or one without instances;
        otherwise picks `candidates[cursor mod |candidates|]`, where the candidates
        are the available instances or, when none is, all of them, and advances
        that service's cursor by one. Nothing else changes. */
    method GetNextInstance(name: string) returns (r: Result<string, string>)
      requires Valid()
      modifies this`roundRobinIndexes
      ensures Valid()
      ensures Instances(name) == [] ==>
                r == Failure("no instances available for service: " + name)
                && roundRobinIndexes == old(roundRobinIndexes)
      ensures Instances(name) != [] ==>
                && r == Success(Pick(Candidates(Instances(name), serviceInstances[name]), old(roundRobinIndexes[name])))
                && roundRobinIndexes == old(roundRobinIndexes)[name := old(roundRobinIndexes[name]) + 1]
      ensures r.Success? ==> r.value in Instances(name)
      ensures r.Success? && GetAvailableInstances(name) != [] ==> r.value in GetAvailableInstances(name)
    {
      if name in serviceInstances {
        assert ValidService(name);
        EmptyFlagsIffEmptyOrder(instanceOrder[name], serviceInstances[name]);
      }
      if name !in serviceInstances || serviceInstances[name] == map[] {
        return Failure("no instances available for service: " + name);
      }
      var instances := serviceInstances[name];
      var order := instanceOrder[name];
      var availableInstances := AvailableOf(order, instances);
      if availableInstances == [] {
        availableInstances := order;
      }
      var index := roundRobinIndexes[name];
      roundRobinIndexes := roundRobinIndexes[name := index + 1];
      var currentIndex := index % |availableInstances|;
      SlotIsMod(index, |availableInstances|);
      SelectionIsRegistered(order, instances, index);
      return Success(availableInstances[currentIndex]);
    }

    /** `markInstanceAsFailed`: for a registered instance, flag it unavailable and
        stamp `now` as its failure time (again on every call); otherwise nothing. */
    method MarkInstanceAsFailed(name: string, url: string, now: int)
      requires Valid()
      modifies this`serviceInstances, this`instancesFailureTimes
      ensures Valid()
      ensures name in serviceInstances && url in old(serviceInstances[name]) ==>
                && serviceInstances == old(serviceInstances)[name := old(serviceInstances[name])[url := false]]
                && instancesFailureTimes == old(instancesFailureTimes)[name := old(instancesFailureTimes[name])[url := now]]
      ensures !(name in serviceInstances && url in old(serviceInstances[name])) ==>
                serviceInstances == old(serviceInstances) && instancesFailureTimes == old(instancesFailureTimes)
    {
      var instances := serviceInstances;
      if name in instances && url in instances[name] {
        assert ValidService(name);
        var flags := instances[name][url := false];
        var failures := instancesFailureTimes[name][url := now];
        MarkFailedKeepsServiceValid(instanceOrder[name], instances[name], instancesFailureTimes[name], url, now);
        ServiceUpdateKeepsValid(serviceInstances, instanceOrder, instancesFailureTimes, roundRobinIndexes,
                                name, instanceOrder[name], flags, failures, roundRobinIndexes[name]);
        UpdateSame(roundRobinIndexes, name);
        UpdateSame(instanceOrder, name);
        serviceInstances := serviceInstances[name := flags];
        instancesFailureTimes := instancesFailureTimes[name := failures];
      }
    }

    /** `checkServiceInstances`: probes `url + healthEndpoint` for every registered
        instance of the service and applies `HealthStep` to it; no instance is
        added or removed and no other service changes. The loop runs on the
        service's two maps (`ProbeCycle`), which are then stored back. */
    method CheckServiceInstances(name: string, healthEndpoint: string, probe: string -> Probe)
      requires Valid()
      modifies this`serviceInstances, this`instancesFailureTimes
      ensures Valid()
      ensures name !in instanceOrder ==> unchanged(this)
      ensures name in instanceOrder ==>
                old(ValidService(name)) &&
                var r := ProbeAll(instanceOrder[name], old(serviceInstances[name]), old(instancesFailureTimes[name]),
                                  probe, healthEndpoint);
                && serviceInstances == old(serviceInstances)[name := r.0]
                && instancesFailureTimes == old(instancesFailureTimes)[name := r.1]
      ensures forall u :: u in Instances(name) ==>
                StateOf(name, u) == HealthStep(old(StateOf(name, u)), probe(u + healthEndpoint))
    {
      if name !in serviceInstances {
        return;
      }
      var urls := instanceOrder[name];
      assert ValidService(name);
      var flags, failures := ProbeCycle(urls, serviceInstances[name], instancesFailureTimes[name],
                                        probe, healthEndpoint);
      ProbeAllSpec(urls, urls, serviceInstances[name], instancesFailureTimes[name], probe, healthEndpoint);
      ServiceUpdateKeepsValid(serviceInstances, instanceOrder, instancesFailureTimes, roundRobinIndexes,
                              name, urls, flags, failures, roundRobinIndexes[name]);
      UpdateSame(roundRobinIndexes, name);
      UpdateSame(instanceOrder, name);
      serviceInstances := serviceInstances[name := flags];
      instancesFailureTimes := instancesFailureTimes[name := failures];
    }

    /** `performHealthChecks`: one probe cycle over both services. */
    method PerformHealthChecks(probe: string -> Probe)
      requires Valid()
      modifies this`serviceInstances, this`instancesFailureTimes
      ensures Valid()
      ensures forall u :: u in Instances(USER) ==>
                StateOf(USER, u) == HealthStep(old(StateOf(USER, u)), probe(u + USER_HEALTH_ENDPOINT))
      ensures forall u :: u in Instances(NOTIFICATION) ==>
                StateOf(NOTIFICATION, u) ==
                HealthStep(old(StateOf(NOTIFICATION, u)), probe(u + NOTIFICATION_HEALTH_ENDPOINT))
    {
      CheckServiceInstances(USER, USER_HEALTH_ENDPOINT, probe);
      CheckServiceInstances(NOTIFICATION, NOTIFICATION_HEALTH_ENDPOINT, probe);
    }
  }

  /** One service's flag and failure-time maps after probing instance `u`:
      its entries become `HealthStep`'s result, removing the failure time when
      there is none. */
  function ProbeUpdate(flags: map<string, bool>, failures: map<string, int>, u: string, p: Probe)
    : (r: (map<string, bool>, map<string, int>))
    requires u in flags
    ensures r.0.Keys == flags.Keys
  {
    var st := StateIn(flags, failures, u);
    var next := HealthStep(st, p);
    if next == st then
      (flags, failures)
    else
      (flags[u := next.available],
       if next.failureTime.Some? then failures[u := next.failureTime.value] else failures - {u})
  }

  /** The three things probing one instance can do to its service's maps:
      recover it, mark it failed at the probe's time, or nothing. */
  lemma ProbeUpdateCases(flags: map<string, bool>, failures: map<string, int>, u: string, p: Probe)
    requires u in flags
    ensures p.outcome.HttpStatus? && Is2xx(p.outcome.code) && !flags[u] ==>
              ProbeUpdate(flags, failures, u, p) == (flags[u := true], failures - {u})
    ensures flags[u] && ((p.outcome.HttpStatus? && !Is2xx(p.outcome.code))
                         || (p.outcome.ProbeError? && (u !in failures || p.now - failures[u] > FAILURE_COOLDOWN_IN_MS))) ==>
              ProbeUpdate(flags, failures, u, p) == (flags[u := false], failures[u := p.now])
    ensures (p.outcome.HttpStatus? && (Is2xx(p.outcome.code) == flags[u]))
            || (p.outcome.ProbeError? && !(flags[u] && (u !in failures || p.now - failures[u] > FAILURE_COOLDOWN_IN_MS))) ==>
              ProbeUpdate(flags, failures, u, p) == (flags, failures)
  {
  }

  /** Probing one instance keeps its service valid, applies `HealthStep` to that
      instance and leaves every other instance as it was. */
  lemma ProbeUpdateSpec(order: seq<string>, flags: map<string, bool>, failures: map<string, int>, u: string, p: Probe)
    requires ServiceValid(order, flags, failures) && u in flags
    ensures var next := ProbeUpdate(flags, failures, u, p);
            && ServiceValid(order, next.0, next.1)
            && next.0.Keys == flags.Keys
            && StateIn(next.0, next.1, u) == HealthStep(StateIn(flags, failures, u), p)
            && forall v :: v in flags && v != u ==> StateIn(next.0, next.1, v) == StateIn(flags, failures, v)
  {
  }

  /** The effect of the whole loop of `checkServiceInstances` on one service's
      maps: `ProbeUpdate` applied to each URL in turn. */
  function ProbeAll(urls: seq<string>, flags: map<string, bool>, failures: map<string, int>,
                    probe: string -> Probe, endpoint: string): (r: (map<string, bool>, map<string, int>))
    requires forall u :: u in urls ==> u in flags
    ensures r.0.Keys == flags.Keys
    decreases |urls|
  {
    if urls == [] then
      (flags, failures)
    else
      var last := urls[|urls| - 1];
      var prev := ProbeAll(urls[..|urls| - 1], flags, failures, probe, endpoint);
      ProbeUpdate(prev.0, prev.1, last, probe(last + endpoint))
  }

  /** The loop of `checkServiceInstances` over one service's maps: one
      `ProbeStep` per registered URL, in iteration order. */
  method ProbeCycle(urls: seq<string>, flags0: map<string, bool>, failures0: map<string, int>,
                    probe: string -> Probe, endpoint: string)
    returns (flags: map<string, bool>, failures: map<string, int>)
    requires forall u :: u in urls ==> u in flags0
    ensures (flags, failures) == ProbeAll(urls, flags0, failures0, probe, endpoint)
  {
    flags, failures := flags0, failures0;
    var i := 0;
    while i < |urls|
      invariant 0 <= i <= |urls|
      invariant (flags, failures) == ProbeAll(urls[..i], flags0, failures0, probe, endpoint)
    {
      var u := urls[i];
      ProbeAllStep(urls, i, flags0, failures0, probe, endpoint);
      flags, failures := ProbeStep(flags, failures, u, probe(u + endpoint));
      i := i + 1;
    }
    assert urls[..i] == urls;
  }

  /** The body of the loop of `checkServiceInstances` for one instance, branch
      by branch: a 2xx answer brings an unavailable instance back (flag set,
      failure time removed); any other status fails an available one (as
      `markInstanceAsFailed` does); an exception fails an available one only
      when it has no failure time or its last one is more than the cooldown
      old. */
  method ProbeStep(flags0: map<string, bool>, failures0: map<string, int>, u: string, p: Probe)
    returns (flags: map<string, bool>, failures: map<string, int>)
    requires u in flags0
    ensures (flags, failures) == ProbeUpdate(flags0, failures0, u, p)
  {
    flags, failures := flags0, failures0;
    var isCurrentAvailable := flags[u];
    match p.outcome {
      case HttpStatus(code) =>
        if Is2xx(code) {
          if !isCurrentAvailable {
            flags := flags[u := true];
            failures := failures - {u};
          }
        } else if isCurrentAvailable {
          flags, failures := flags[u := false], failures[u := p.now];
        }
      case ProbeError =>
        if u !in failures || p.now - failures[u] > FAILURE_COOLDOWN_IN_MS {
          if isCurrentAvailable {
            flags, failures := flags[u := false], failures[u := p.now];
          }
        }
    }
    ProbeUpdateCases(flags0, failures0, u, p);
  }

  /** One more probe extends the cycle by one `ProbeUpdate`. */
  lemma ProbeAllStep(urls: seq<string>, i: nat, flags: map<string, bool>, failures: map<string, int>,
                     probe: string -> Probe, endpoint: string)
    requires i < |urls| && forall u :: u in urls ==> u in flags
    ensures var prev := ProbeAll(urls[..i], flags, failures, probe, endpoint);
            ProbeAll(urls[..i + 1], flags, failures, probe, endpoint)
            == ProbeUpdate(prev.0, prev.1, urls[i], probe(urls[i] + endpoint))
  {
    assert urls[..i + 1][..i] == urls[..i];
  }

  /** A probe cycle over distinct registered URLs keeps the service valid,
      applies `HealthStep` to each probed instance exactly once and leaves the
      others alone. */
  lemma {:induction false} ProbeAllSpec(order: seq<string>, urls: seq<string>, flags: map<string, bool>,
                                        failures: map<string, int>, probe: string -> Probe, endpoint: string)
    requires ServiceValid(order, flags, failures) && NoDuplicates(urls)
    requires forall u :: u in urls ==> u in flags
    ensures var r := ProbeAll(urls, flags, failures, probe, endpoint);
            && ServiceValid(order, r.0, r.1)
            && (forall u :: u in urls ==>
                  StateIn(r.0, r.1, u) == HealthStep(StateIn(flags, failures, u), probe(u + endpoint)))
            && (forall u :: u in flags && u !in urls ==> StateIn(r.0, r.1, u) == StateIn(flags, failures, u))
  {
    if urls != [] {
      var init := urls[..|urls| - 1];
      var last := urls[|urls| - 1];
      assert urls == init + [last];
      NoDuplicatesPrefix(urls, |urls| - 1);
      NoDuplicatesLast(urls);
      ProbeAllSpec(order, init, flags, failures, probe, endpoint);
      var prev := ProbeAll(init, flags, failures, probe, endpoint);
      ProbeUpdateSpec(order, prev.0, prev.1, last, probe(last + endpoint));
    }
  }

  /** Replacing one service's maps by valid ones keeps the registry valid. */
  lemma ServiceUpdateKeepsValid(flags: map<string, map<string, bool>>, order: map<string, seq<string>>,
                                failures: map<string, map<string, int>>, cursors: map<string, nat>,
                                name: string, o: seq<string>, f: map<string, bool>, t: map<string, int>, c: nat)
    requires RegistryValid(flags, order, failures, cursors) && ServiceValid(o, f, t)
    ensures RegistryValid(flags[name := f], order[name := o], failures[name := t], cursors[name := c])
  {
    var flags', order', failures' := flags[name := f], order[name := o], failures[name := t];
    forall s | s in order'
      ensures ServiceValidAt(flags', order', failures', s)
    {
      if s != name {
        assert ServiceValidAt(flags, order, failures, s);
      }
    }
  }

  /** A `put(u, true)` during registration: a new URL is appended to the order. */
  lemma AddKeepsServiceValid(order: seq<string>, flags: map<string, bool>, u: string)
    requires ServiceValid(order, flags, map[])
    ensures ServiceValid(if u in flags then order else order + [u], flags[u := true], map[])
  {
    if u !in flags {
      NoDuplicatesAppend(order, u);
    }
  }

  /** Marking a registered instance failed keeps its service valid. */
  lemma MarkFailedKeepsServiceValid(order: seq<string>, flags: map<string, bool>, failures: map<string, int>,
                                    u: string, now: int)
    requires ServiceValid(order, flags, failures) && u in flags
    ensures ServiceValid(order, flags[u := false], failures[u := now])
  {
  }

  /** Recovering a registered instance keeps its service valid. */
  lemma RecoverKeepsServiceValid(order: seq<string>, flags: map<string, bool>, failures: map<string, int>, u: string)
    requires ServiceValid(order, flags, failures) && u in flags
    ensures ServiceValid(order, flags[u := true], failures - {u})
  {
  }

  /** A service's flag map is empty exactly when its order is. */
  lemma EmptyFlagsIffEmptyOrder(order: seq<string>, flags: map<string, bool>)
    requires forall u :: u in flags <==> u in order
    ensures flags == map[] <==> order == []
  {
    if order != [] {
      assert order[0] in flags;
    } else {
      assert flags.Keys == {};
    }
  }

  /** The registration loop of `init` for one service: a `put(u, true)` per
      configured URL, on a fresh map. Every configured URL ends up registered,
      once, and available. */
  method FillInstances(urls: seq<string>) returns (order: seq<string>, flags: map<string, bool>)
    ensures ServiceValid(order, flags, map[])
    ensures forall u :: u in order <==> u in urls
    ensures forall u :: u in flags ==> flags[u]
  {
    order := [];
    flags := map[];
    var i := 0;
    while i < |urls|
      invariant 0 <= i <= |urls|
      invariant ServiceValid(order, flags, map[])
      invariant forall u :: u in order <==> u in urls[..i]
      invariant forall u :: u in flags ==> flags[u]
    {
      var u := urls[i];
      AddKeepsServiceValid(order, flags, u);
      if u !in flags {
        order := order + [u];
      }
      flags := flags[u := true];
      assert urls[..i + 1] == urls[..i] + [u];
      i := i + 1;
    }
    assert urls[..i] == urls;
  }

  /** When every flag is true, the available list is the whole list. */
  lemma {:induction false} AllAvailable(order: seq<string>, flags: map<string, bool>)
    requires forall u :: u in order ==> u in flags && flags[u]
    ensures AvailableOf(order, flags) == order
  {
    if order != [] {
      AllAvailable(order[1..], flags);
    }
  }

  /** Every probe outcome keeps an instance `Consistent`. */
  lemma HealthStepKeepsConsistent(st: InstanceState, p: Probe)
    requires Consistent(st)
    ensures Consistent(HealthStep(st, p))
  {
  }

  /** A 2xx probe makes an instance available and clears its failure time; only
      an unavailable instance changes. */
  lemma HealthyProbeRecovers(st: InstanceState, p: Probe)
    requires Consistent(st) && p.outcome.HttpStatus? && Is2xx(p.outcome.code)
    ensures HealthStep(st, p) == InstanceState(true, None)
    ensures HealthStep(st, p) != st <==> !st.available
  {
  }

  /** A non-2xx probe marks an available instance failed at the probe's time and
      leaves an unavailable one, and its failure time, alone. */
  lemma UnhealthyProbeFails(st: InstanceState, p: Probe)
    requires p.outcome.HttpStatus? && !Is2xx(p.outcome.code)
    ensures st.available ==> HealthStep(st, p) == InstanceState(false, Some(p.now))
    ensures !st.available ==> HealthStep(st, p) == st
  {
  }

  /** A probe exception changes an instance only if it is available and has no
      failure time or one older than the cooldown, and then marks it failed. */
  lemma ProbeErrorOnlyAfterCooldown(st: InstanceState, p: Probe)
    requires p.outcome.ProbeError?
    ensures HealthStep(st, p) != st ==>
              && st.available
              && (st.failureTime.None? || p.now - st.failureTime.value > FAILURE_COOLDOWN_IN_MS)
              && HealthStep(st, p) == InstanceState(false, Some(p.now))
  {
  }

  /** Under the registry invariant an available instance has no failure time,
      so a probe exception always marks an available instance failed and never
      touches an unavailable one: the cooldown test never decides anything. */
  lemma ProbeErrorIgnoresCooldown(st: InstanceState, p: Probe)
    requires Consistent(st) && p.outcome.ProbeError?
    ensures HealthStep(st, p) == if st.available then InstanceState(false, Some(p.now)) else st
  {
  }

  /** A second failing probe does not push the failure time forward. */
  lemma RepeatedProbeErrorKeepsStamp(st: InstanceState, first: Probe, second: Probe)
    requires Consistent(st) && first.outcome.ProbeError? && second.outcome.ProbeError?
    requires st.available
    ensures HealthStep(HealthStep(st, first), second) == InstanceState(false, Some(first.now))
  {
  }

  /** Storing a key twice keeps the second value. */
  lemma UpdateTwice<K, V>(m: map<K, V>, k: K, a: V, b: V)
    ensures m[k := a][k := b] == m[k := b]
  {
  }

  /** `Valid` is the registry invariant over the manager's four fields. */
  lemma ValidOf(sd: ServiceDiscoveryManager)
    requires RegistryValid(sd.serviceInstances, sd.instanceOrder, sd.instancesFailureTimes, sd.roundRobinIndexes)
    ensures sd.Valid()
  {
  }

  /** Storing a key's own value changes nothing. */
  lemma UpdateSame<K, V>(m: map<K, V>, k: K)
    requires k in m
    ensures m[k := m[k]] == m
  {
  }
}
