/** The address selection of `createGrpcClient` in the order service
    (services/order-service/server.js). Unlike the gateway it knows only the user and
    product services, and its addresses are bare `host:port`. */
module OrderDiscovery {
  import opened Results
  import opened Registry
  import opened GatewayDiscovery

  /** The static address of the two `switch` statements. */
  function StaticGrpcAddress(env: Env, name: string): (r: Result<string, string>)
    ensures r.Ok? <==> name == UserService || name == ProductService
    ensures r.Err? ==> r.error == UnknownServiceError(name)
    ensures name == UserService ==>
      r == Ok(HostPort(EnvOr(env, "USER_SERVICE_HOST", "localhost"), EnvOr(env, "USER_SERVICE_PORT", "3001")))
    ensures name == ProductService ==>
      r == Ok(HostPort(EnvOr(env, "PRODUCT_SERVICE_HOST", "localhost"), EnvOr(env, "PRODUCT_SERVICE_PORT", "3002")))
  {
    if name == UserService then
      Ok(HostPort(EnvOr(env, "USER_SERVICE_HOST", "localhost"), EnvOr(env, "USER_SERVICE_PORT", "3001")))
    else if name == ProductService then
      Ok(HostPort(EnvOr(env, "PRODUCT_SERVICE_HOST", "localhost"), EnvOr(env, "PRODUCT_SERVICE_PORT", "3002")))
    else
      Err(UnknownServiceError(name))
  }

  /** The address `createGrpcClient(name, ...)` builds its client for; an `Err` is the
      thrown or rejected `Error`. */
  function GrpcAddress(d: Discovery, env: Env, name: string, pick: nat): (r: Result<string, string>)
    ensures !d.consulAvailable ==> r == StaticGrpcAddress(env, name)
    ensures d.consulAvailable && (ReplyFor(d, name).QueryFailed? || ReplyFor(d, name) == Nodes([])) ==>
      r == StaticGrpcAddress(env, name)
    ensures d.consulAvailable && ReplyFor(d, name).Nodes? && |ReplyFor(d, name).nodes| > 0 ==>
      exists n :: n in ReplyFor(d, name).nodes && r == Ok(HostPort(n.serviceAddress, n.servicePort))
  {
    if !d.consulAvailable then StaticGrpcAddress(env, name)
    else
      match ReplyFor(d, name)
      case Nodes(nodes) =>
        if |nodes| == 0 then StaticGrpcAddress(env, name)
        else
          var n := PickNode(nodes, pick);
          Ok(HostPort(n.serviceAddress, n.servicePort))
      case QueryFailed => StaticGrpcAddress(env, name)
  }

  /** The order service has no static entry for itself, though the gateway does. */
  lemma NoStaticEntryForOrders(env: Env)
    ensures StaticGrpcAddress(env, "order-service").Err?
    ensures GatewayDiscovery.StaticUrl(env, "order-service").Ok?
  {
  }

  /** For the two services both know, the gateway's static URL is this address behind
      `http://`. */
  lemma SameStaticTargetsAsGateway(env: Env, name: string)
    requires name == UserService || name == ProductService
    ensures GatewayDiscovery.StaticUrl(env, name) == Ok("http://" + StaticGrpcAddress(env, name).value)
  {
  }

  /** The two clients `createOrder` builds can always be built. */
  lemma OrderClientsResolve(d: Discovery, env: Env, pick: nat)
    ensures GrpcAddress(d, env, UserService, pick).Ok?
    ensures GrpcAddress(d, env, ProductService, pick).Ok?
  {
  }
}
