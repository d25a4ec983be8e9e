/** `getServiceAddress` of the API gateway (api-gateway/server.js): service name to base URL. */
module GatewayDiscovery {
  import opened Results
  import opened Registry

  const UserService := "user-service"
  const ProductService := "product-service"
  const OrderService := "order-service"

  predicate IsKnownService(name: string)
  {
    name == UserService || name == ProductService || name == OrderService
  }

  function UnknownServiceError(name: string): string
  {
    "Unknown service: " + name
  }

  /** The static address of the `switch`, used both when Consul is unavailable and when
      the catalog query fails. */
  function StaticUrl(env: Env, name: string): (r: Result<string, string>)
    ensures r.Ok? <==> IsKnownService(name)
    ensures r.Err? ==> r.error == UnknownServiceError(name)
    ensures name == UserService ==>
      r == Ok("http://" + HostPort(EnvOr(env, "USER_SERVICE_HOST", "localhost"), EnvOr(env, "USER_SERVICE_PORT", "3001")))
    ensures name == ProductService ==>
      r == Ok("http://" + HostPort(EnvOr(env, "PRODUCT_SERVICE_HOST", "localhost"), EnvOr(env, "PRODUCT_SERVICE_PORT", "3002")))
    ensures name == OrderService ==>
      r == Ok("http://" + HostPort(EnvOr(env, "ORDER_SERVICE_HOST", "localhost"), EnvOr(env, "ORDER_SERVICE_PORT", "3003")))
  {
    if name == UserService then
      Ok("http://" + HostPort(EnvOr(env, "USER_SERVICE_HOST", "localhost"), EnvOr(env, "USER_SERVICE_PORT", "3001")))
    else if name == ProductService then
      Ok("http://" + HostPort(EnvOr(env, "PRODUCT_SERVICE_HOST", "localhost"), EnvOr(env, "PRODUCT_SERVICE_PORT", "3002")))
    else if name == OrderService then
      Ok("http://" + HostPort(EnvOr(env, "ORDER_SERVICE_HOST", "localhost"), EnvOr(env, "ORDER_SERVICE_PORT", "3003")))
    else
      Err(UnknownServiceError(name))
  }

  /** `getServiceAddress(name)`: an `Err` is the thrown `Error`. */
  function ServiceAddress(d: Discovery, env: Env, name: string, pick: nat): (r: Result<string, string>)
    ensures !d.consulAvailable ==> r == StaticUrl(env, name)
    ensures d.consulAvailable && (ReplyFor(d, name).QueryFailed? || ReplyFor(d, name) == Nodes([])) ==>
      r == StaticUrl(env, name)
    ensures d.consulAvailable && ReplyFor(d, name).Nodes? && |ReplyFor(d, name).nodes| > 0 ==>
      exists n :: n in ReplyFor(d, name).nodes && r == Ok("http://" + HostPort(n.serviceAddress, n.servicePort))
  {
    if !d.consulAvailable then StaticUrl(env, name)
    else
      match ReplyFor(d, name)
      case Nodes(nodes) =>
        if |nodes| == 0 then StaticUrl(env, name)
        else
          var n := PickNode(nodes, pick);
          Ok("http://" + HostPort(n.serviceAddress, n.servicePort))
      case QueryFailed => StaticUrl(env, name)
  }

  /** Without Consul the address is the static one and the catalog is never consulted:
      any two catalogs and any two draws give the same answer. */
  lemma NoCatalogWhenUnavailable(d1: Discovery, d2: Discovery, env: Env, name: string, p1: nat, p2: nat)
    requires !d1.consulAvailable && !d2.consulAvailable
    ensures ServiceAddress(d1, env, name, p1) == StaticUrl(env, name)
    ensures ServiceAddress(d1, env, name, p1) == ServiceAddress(d2, env, name, p2)
  {
  }

  /** Discovery never fails for the three services, whatever the registry does. */
  lemma KnownServicesResolve(d: Discovery, env: Env, name: string, pick: nat)
    requires IsKnownService(name)
    ensures ServiceAddress(d, env, name, pick).Ok?
  {
  }
}
