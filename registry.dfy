/** What both the gateway and the order service see of their environment and of the
    Consul service catalog. */
module Registry {

  /** `process.env`: variable name to value. */
  type Env = map<string, string>

  /** `process.env[name] || fallback`: an unset variable and the empty string (both falsy
      in JavaScript) give the default. */
  function EnvOr(env: Env, name: string, fallback: string): (r: string)
    ensures name in env && env[name] != "" ==> r == env[name]
    ensures !(name in env && env[name] != "") ==> r == fallback
  {
    if name in env && env[name] != "" then env[name] else fallback
  }

  /** One entry of `consul.catalog.service.nodes(name)`. The port is kept as the text it
      is rendered to, since it is only ever interpolated into an address. */
  datatype CatalogNode = CatalogNode(serviceAddress: string, servicePort: string)

  /** The outcome of one catalog query: it failed (transport error, or a null result),
      or it returned a list of nodes, possibly empty. */
  datatype CatalogReply = QueryFailed | Nodes(nodes: seq<CatalogNode>)

  /** The process-wide discovery context: the `consulAvailable` flag, set once at startup,
      and what the catalog would answer for each service name (a name missing from
      `replies` is a failing query). */
  datatype Discovery = Discovery(consulAvailable: bool, replies: map<string, CatalogReply>)

  function ReplyFor(d: Discovery, name: string): CatalogReply
  {
    if name in d.replies then d.replies[name] else QueryFailed
  }

  /** `result[Math.floor(Math.random() * result.length)]`: the random draw is the
      arbitrary number `pick`, reduced to an index of the non-empty list. */
  function PickNode(nodes: seq<CatalogNode>, pick: nat): (n: CatalogNode)
    requires |nodes| > 0
    ensures n in nodes
  {
    nodes[pick % |nodes|]
  }

  /** `${ServiceAddress}:${ServicePort}` */
  function HostPort(host: string, port: string): string
  {
    host + ":" + port
  }
}
