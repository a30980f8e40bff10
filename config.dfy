/** The `services.user.*` and `services.notification.*` configuration properties
    (ServicesProperties.java). */
module Config {
  import opened Wrappers

  /** The settings of one backend service. A Java `null` is `None`. */
  datatype ServiceProps = ServiceProps(
    baseUrl: Option<string>,
    instances: Option<seq<string>>,
    connectTimeout: int,
    responseTimeout: int,
    healthCheckInterval: int,
    healthCheckTimeout: int)

  /** Both services' settings, as bound from the configuration. */
  datatype ServicesProperties = ServicesProperties(user: ServiceProps, notification: ServiceProps)

  /** A `ServiceProps` nothing has been bound to: the field initialisers. */
  function DefaultServiceProps(): (p: ServiceProps)
    ensures p.connectTimeout == 2000 && p.responseTimeout == 5000
    ensures p.healthCheckInterval == 30 && p.healthCheckTimeout == 3000
    ensures p.baseUrl == None && p.instances == Some([])
    ensures GetInstancesOrSingle(p) == []
  {
    ServiceProps(None, Some([]), 2000, 5000, 30, 3000)
  }

  /** The explicit instance list wins when it has an element; otherwise the
      legacy single base URL, when it is non-empty; otherwise nothing. */
  function GetInstancesOrSingle(p: ServiceProps): (r: seq<string>)
    ensures p.instances.Some? && |p.instances.value| > 0 ==> r == p.instances.value
    ensures (p.instances.None? || p.instances.value == []) && p.baseUrl.Some? && p.baseUrl.value != "" ==>
              r == [p.baseUrl.value]
    ensures r == [] <==>
              (p.instances.None? || p.instances.value == []) && (p.baseUrl.None? || p.baseUrl.value == "")
    ensures forall u :: u in r ==> (p.instances.Some? && u in p.instances.value) || p.baseUrl == Some(u)
  {
    if p.instances.Some? && |p.instances.value| > 0 then
      p.instances.value
    else if p.baseUrl.Some? && |p.baseUrl.value| > 0 then
      [p.baseUrl.value]
    else
      []
  }
}
