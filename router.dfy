/** The probe-then-proxy decision of `createProxyMiddleware` and the `/health` and
    `/status` endpoints of the API gateway (api-gateway/server.js). */
module Router {
  import opened Results
  import opened Json
  import opened Registry
  import opened GatewayDiscovery
  import opened Fallback

  /** The probe `fetch(`${serviceUrl}/health`)` is aborted by a timer after this long. */
  const ProbeTimeoutMs := 1000

  /** How the `/health` fetch of a proxied request went: an HTTP answer (of any status)
      arriving after `elapsedMs`, or an error thrown before any answer (connection
      refused, DNS failure, failing to load the fetch module). */
  datatype ProbeResult = Answered(statusCode: nat, elapsedMs: nat) | Threw(reason: string)

  /** The `await fetch(...)` completes: an answer that beats the abort timer. */
  predicate ProbeCompletes(p: ProbeResult)
  {
    p.Answered? && p.elapsedMs < ProbeTimeoutMs
  }

  /** What the middleware does with a request: hand it to the proxy for `url` (the
      forwarding itself is not modelled) or answer it itself. */
  datatype Outcome = Forward(url: string) | Respond(response: HttpResponse)

  /** The routing error of the outer `catch`: discovery threw. */
  function RoutingFailure(service: string): HttpResponse
  {
    HttpResponse(503, JObj([("error", JStr(UnavailableError(service)))]))
  }

  /** `createProxyMiddleware(service)` applied to one request. */
  function Route(d: Discovery, env: Env, service: string, pick: nat, probe: ProbeResult,
                 req: Request, loadedAt: string): (o: Outcome)
    ensures ServiceAddress(d, env, service, pick).Err? ==> o == Respond(RoutingFailure(service))
    ensures ServiceAddress(d, env, service, pick).Ok? && ProbeCompletes(probe) ==>
              o == Forward(ServiceAddress(d, env, service, pick).value)
    ensures ServiceAddress(d, env, service, pick).Ok? && !ProbeCompletes(probe) ==>
              o == Respond(FallbackResponse(service, req, loadedAt))
  {
    match ServiceAddress(d, env, service, pick)
    case Err(_) => Respond(RoutingFailure(service))
    case Ok(url) =>
      if ProbeCompletes(probe) then Forward(url)
      else Respond(FallbackResponse(service, req, loadedAt))
  }

  /** The status code of the probe's answer is never inspected: any completed probe
      forwards, to the discovered address. */
  lemma AnyCompletedProbeForwards(d: Discovery, env: Env, service: string, pick: nat,
                                  code1: nat, code2: nat, ms: nat, req: Request, loadedAt: string)
    requires IsKnownService(service) && ms < ProbeTimeoutMs
    ensures Route(d, env, service, pick, Answered(code1, ms), req, loadedAt)
            == Route(d, env, service, pick, Answered(code2, ms), req, loadedAt)
    ensures Route(d, env, service, pick, Answered(code1, ms), req, loadedAt).Forward?
  {
    KnownServicesResolve(d, env, service, pick);
  }

  /** A probe that throws or is aborted after 1000 ms is answered from the fallback table,
      and the content of the error never reaches the client. */
  lemma ProbeFailureServedByFallback(d: Discovery, env: Env, service: string, pick: nat,
                                     probe1: ProbeResult, probe2: ProbeResult, req: Request, loadedAt: string)
    requires IsKnownService(service) && !ProbeCompletes(probe1) && !ProbeCompletes(probe2)
    ensures Route(d, env, service, pick, probe1, req, loadedAt) == Respond(FallbackResponse(service, req, loadedAt))
    ensures Route(d, env, service, pick, probe1, req, loadedAt) == Route(d, env, service, pick, probe2, req, loadedAt)
  {
    KnownServicesResolve(d, env, service, pick);
  }

  /** The middleware either forwards or answers 200, 404 or 503; it has no other answer. */
  lemma RouteAnswers(d: Discovery, env: Env, service: string, pick: nat, probe: ProbeResult,
                     req: Request, loadedAt: string)
    ensures var o := Route(d, env, service, pick, probe, req, loadedAt);
            o.Forward? || o.response.status in {200, 404, 503}
  {
  }

  /** `consulAvailable ? 'connected' : 'fallback mode'` */
  function ConsulLabel(consulAvailable: bool): (r: string)
    ensures r == "connected" <==> consulAvailable
    ensures r == "connected" || r == "fallback mode"
  {
    if consulAvailable then "connected" else "fallback mode"
  }

  /** The `/health` body; `process.uptime()` is taken in whole seconds and `Date.now()`
      is the input `timestampMs`. */
  function HealthBody(consulAvailable: bool, uptimeSeconds: nat, timestampMs: int): (j: Json)
    ensures Keys(j) == ["status", "consul", "uptime", "timestamp"]
    ensures Get(j, "status") == Some(JStr("ok"))
    ensures Get(j, "consul") == Some(JStr(ConsulLabel(consulAvailable)))
    ensures Get(j, "consul") == Some(JStr("connected")) <==> consulAvailable
    ensures Get(j, "uptime") == Some(JInt(uptimeSeconds)) && Get(j, "timestamp") == Some(JInt(timestampMs))
  {
    GetOfFour("status", JStr("ok"), "consul", JStr(ConsulLabel(consulAvailable)),
              "uptime", JInt(uptimeSeconds), "timestamp", JInt(timestampMs));
    KeysOfFour("status", JStr("ok"), "consul", JStr(ConsulLabel(consulAvailable)),
               "uptime", JInt(uptimeSeconds), "timestamp", JInt(timestampMs));
    JObj([("status", JStr("ok")), ("consul", JStr(ConsulLabel(consulAvailable))),
          ("uptime", JInt(uptimeSeconds)), ("timestamp", JInt(timestampMs))])
  }

  /** How the `fetch(service.url)` of `/status` went: an answer with its status code,
      arriving after `elapsedMs`, and its body parsed as JSON (None when `response.json()`
      throws); or an error thrown before any answer, with its message. */
  datatype StatusProbe = Responded(statusCode: nat, elapsedMs: nat, body: Option<Json>) | FetchThrew(message: string)

  /** The message node-fetch gives the error it throws when the abort signal fires. */
  const AbortMessage := "The operation was aborted."

  /** `response.ok`: a 2xx status. */
  predicate IsOk(statusCode: nat)
  {
    200 <= statusCode <= 299
  }

  /** The `status` member `/status` reports for a service. */
  function StatusOf(p: StatusProbe): (status: string)
    ensures status == "online" <==> p.Responded? && p.elapsedMs < ProbeTimeoutMs && IsOk(p.statusCode)
    ensures status == "error" <==> p.Responded? && p.elapsedMs < ProbeTimeoutMs && !IsOk(p.statusCode)
    ensures status == "offline" <==> p.FetchThrew? || p.elapsedMs >= ProbeTimeoutMs
  {
    match p
    case FetchThrew(_) => "offline"
    case Responded(code, ms, _) =>
      if ms >= ProbeTimeoutMs then "offline"
      else if IsOk(code) then "online" else "error"
  }

  /** The `details` member `/status` reports for a service. */
  function DetailsOf(p: StatusProbe): (details: Json)
    ensures StatusOf(p) == "online" ==>
      details == (if p.body.Some? then p.body.value else JObj([("error", JStr("Invalid JSON response"))]))
    ensures StatusOf(p) == "error" ==> details == JObj([("error", JStr("Service not responding properly"))])
    ensures StatusOf(p) == "offline" ==>
      Keys(details) == ["error", "note", "uptime"] && Get(details, "uptime") == Some(JInt(0))
      && Get(details, "note") == Some(JStr(MockNotice))
    ensures p.FetchThrew? ==> Get(details, "error") == Some(JStr(p.message))
    ensures p.Responded? && p.elapsedMs >= ProbeTimeoutMs ==> Get(details, "error") == Some(JStr(AbortMessage))
  {
    match p
    case FetchThrew(msg) => OfflineDetails(msg)
    case Responded(code, ms, body) =>
      if ms >= ProbeTimeoutMs then OfflineDetails(AbortMessage)
      else if IsOk(code) then (if body.Some? then body.value else JObj([("error", JStr("Invalid JSON response"))]))
      else JObj([("error", JStr("Service not responding properly"))])
  }

  /** The details of a service whose probe threw: the error's message, the mock notice
      and an uptime of 0. */
  function OfflineDetails(message: string): (j: Json)
    ensures Keys(j) == ["error", "note", "uptime"] && Get(j, "uptime") == Some(JInt(0))
    ensures Get(j, "error") == Some(JStr(message)) && Get(j, "note") == Some(JStr(MockNotice))
  {
    GetOfThree("error", JStr(message), "note", JStr(MockNotice), "uptime", JInt(0));
    JObj([("error", JStr(message)), ("note", JStr(MockNotice)), ("uptime", JInt(0))])
  }

  /** One element of the `services` array of `/status`. */
  function ServiceEntry(service: string, p: StatusProbe): (e: Json)
    ensures Keys(e) == ["name", "status", "details"]
    ensures Get(e, "name") == Some(JStr(service))
    ensures Get(e, "status") == Some(JStr(StatusOf(p))) && Get(e, "details") == Some(DetailsOf(p))
  {
    GetOfThree("name", JStr(service), "status", JStr(StatusOf(p)), "details", DetailsOf(p));
    JObj([("name", JStr(service)), ("status", JStr(StatusOf(p))), ("details", DetailsOf(p))])
  }

  /** `${getServiceAddress(service)}/health`, the URL `/status` probes. */
  function StatusProbeUrl(d: Discovery, env: Env, service: string, pick: nat): (r: Result<string, string>)
    ensures IsKnownService(service) ==> r.Ok?
    ensures r.Ok? ==> ServiceAddress(d, env, service, pick).Ok? && r.value == ServiceAddress(d, env, service, pick).value + "/health"
  {
    match ServiceAddress(d, env, service, pick)
    case Ok(url) => Ok(url + "/health")
    case Err(e) => Err(e)
  }

  /** The `gateway` member of the `/status` body. */
  function GatewayStatus(consulAvailable: bool, uptimeSeconds: nat): (g: Json)
    ensures Keys(g) == ["status", "uptime", "consul"]
    ensures Get(g, "status") == Some(JStr("online")) && Get(g, "uptime") == Some(JInt(uptimeSeconds))
    ensures Get(g, "consul") == Some(JStr(ConsulLabel(consulAvailable)))
    ensures Get(g, "consul") == Some(JStr("connected")) <==> consulAvailable
  {
    GetOfThree("status", JStr("online"), "uptime", JInt(uptimeSeconds), "consul", JStr(ConsulLabel(consulAvailable)));
    JObj([("status", JStr("online")), ("uptime", JInt(uptimeSeconds)), ("consul", JStr(ConsulLabel(consulAvailable)))])
  }

  /** The `/status` body, given what each of the three probes did. */
  function StatusBody(consulAvailable: bool, uptimeSeconds: nat,
                      userProbe: StatusProbe, productProbe: StatusProbe, orderProbe: StatusProbe): (j: Json)
    ensures Keys(j) == ["gateway", "services"]
    ensures Get(j, "gateway") == Some(GatewayStatus(consulAvailable, uptimeSeconds))
    ensures Get(j, "services") == Some(JArr([ServiceEntry(UserService, userProbe), ServiceEntry(ProductService, productProbe),
                                             ServiceEntry(OrderService, orderProbe)]))
  {
    var services := JArr([ServiceEntry(UserService, userProbe), ServiceEntry(ProductService, productProbe),
                          ServiceEntry(OrderService, orderProbe)]);
    GetOfTwo("gateway", GatewayStatus(consulAvailable, uptimeSeconds), "services", services);
    JObj([("gateway", GatewayStatus(consulAvailable, uptimeSeconds)), ("services", services)])
  }

  /** `/status` reports the gateway online, with `consul: 'connected'` exactly when the
      flag is set. */
  lemma StatusReportsGateway(consulAvailable: bool, uptimeSeconds: nat,
                             userProbe: StatusProbe, productProbe: StatusProbe, orderProbe: StatusProbe)
    ensures var gateway := Get(StatusBody(consulAvailable, uptimeSeconds, userProbe, productProbe, orderProbe), "gateway").value;
            && Get(gateway, "status") == Some(JStr("online"))
            && (Get(gateway, "consul") == Some(JStr("connected")) <==> consulAvailable)
  {
    var j := StatusBody(consulAvailable, uptimeSeconds, userProbe, productProbe, orderProbe);
    assert Get(j, "gateway").value == GatewayStatus(consulAvailable, uptimeSeconds);
  }

  /** Every service `/status` reports is online, offline or error. */
  lemma StatusIsOneOfThree(p: StatusProbe)
    ensures StatusOf(p) in {"online", "offline", "error"}
  {
  }
}
