/** What the gateway offloader does to its own bookkeeping and to the gateway, as values. */
module Dataplane {
  import opened Common
  import opened Deployments
  import opened Routes
  import opened RouteTable
  import opened WeightedDraw
  import Failover

  /** `managedRoutes` and `workspace` are the offloader's, `gateway` is the proxy it talks to. */
  datatype Plane = Plane(managedRoutes: set<string>, workspace: string, gateway: Table)

  /** The part of a plane that work on one model name can see: whether the offloader tracks the name, the route
      stored under it, and what is shared between names. */
  datatype Cell = Cell(
    tracked: bool,
    route: Option<Route>,
    workspace: string,
    hosts: map<string, string>,
    backendHosts: map<string, string>)

  function ReadCell(p: Plane, name: string): Cell {
    Cell(name in p.managedRoutes, Stored(p.gateway, name), p.workspace, p.gateway.hosts, p.gateway.backendHosts)
  }

  function WriteCell(p: Plane, name: string, c: Cell): Plane {
    Plane(
      if c.tracked then p.managedRoutes + {name} else p.managedRoutes - {name},
      c.workspace,
      Table(
        c.hosts,
        c.backendHosts,
        if c.route.Some? then p.gateway.routes[name := c.route.value] else p.gateway.routes - {name}))
  }

  /** The answers met while a route is written: the service lookup, and the gateway's. A failed gateway call
      leaves the gateway as it was. */
  datatype OffloadReply = OffloadReply(read: Call, clusterIP: string, gatewayOk: bool)

  datatype CellStep = CellStep(cell: Cell, finish: Finish)

  function Digits(n: nat): (r: string)
    ensures |r| > 0 && ':' !in r
  {
    var d := ['0' + (n % 10) as char];
    if n < 10 then d else Digits(n / 10) + d
  }

  /** Every occurrence of `what`, from the left and without overlap, is replaced. */
  function ReplaceAll(s: string, what: string, replacement: string): string
    requires what != ""
  {
    if |s| < |what| then s
    else if what <= s then replacement + ReplaceAll(s[|what|..], what, replacement)
    else [s[0]] + ReplaceAll(s[1..], what, replacement)
  }

  function LocalHost(local: ServiceRef): string {
    local.service.name + "." + local.service.namespace + ".svc.cluster.local:" + Digits(local.port)
  }

  function Hostnames(svc: Service, clusterIP: string): seq<string> {
    var short := svc.name + "." + svc.namespace;
    [clusterIP, svc.name, short, short + ".svc", short + ".svc.cluster.local"]
  }

  function RemotePrefix(prefix: string, workspace: string, remoteModel: string): string {
    ReplaceAll(ReplaceAll(prefix, "$workspace", workspace), "$model", remoteModel)
  }

  /** The route of a model: its local backend keeps `100 - weight`, the remote one gets `weight`. */
  function BuildRoute(
    name: string, m: Model, svc: Service, clusterIP: string, local: ServiceRef, remote: RemoteBackend,
    workspace: string, weight: int) : (r: Route)
    ensures r.name == name && Weights(r.backends) == Split(weight)
    ensures |r.backends| == 2 && r.backends[1].host == remote.host
  {
    var prefix := RemotePrefix(remote.pathPrefix, workspace, m.remoteModel);
    Route(name, Hostnames(svc, clusterIP), [
      Backend(LocalHost(local), 100 - weight, "http", "", false),
      Backend(remote.host, weight, remote.scheme, prefix, remote.oauth)
    ])
  }

  /** The workspace is taken from the first model that has one. */
  function WorkspaceOf(workspace: string, m: Model): string {
    if workspace == "" then m.workspace else workspace
  }

  /** Without any remote backend the missing pointer is dereferenced. */
  function Configure(
    c: Cell, name: string, m: Model, svc: Service, local: ServiceRef, remote: Option<RemoteBackend>,
    weight: int, r: OffloadReply) : CellStep
  {
    if !r.read.Done? then CellStep(c, FinishOf(r.read))
    else
      var workspace := WorkspaceOf(c.workspace, m);
      if remote.None? then CellStep(c.(workspace := workspace), Panic)
      else if !r.gatewayOk then CellStep(c.(workspace := workspace), OtherError)
      else
        var route := BuildRoute(name, m, svc, r.clusterIP, local, remote.value, workspace, weight);
        CellStep(
          Cell(
            true, Some(route), workspace,
            Point(c.hosts, HostsOf(route, Served), name),
            Point(c.backendHosts, HostsOf(route, Upstream), name)),
          Success)
  }

  /** The route is forgotten by the offloader even when the gateway fails to delete it. */
  function Cleanup(c: Cell, deleteOk: bool): CellStep {
    if !c.tracked then CellStep(c, Success)
    else if deleteOk && c.route.Some? then CellStep(c.(tracked := false, route := None), Success)
    else CellStep(c.(tracked := false), OtherError)
  }

  /** A route the offloader writes has the shape that failover relies on, and its local backend always has a port. */
  lemma BuiltRouteShape(
    name: string, m: Model, svc: Service, clusterIP: string, local: ServiceRef, remote: RemoteBackend,
    workspace: string, weight: int)
    ensures var bs := BuildRoute(name, m, svc, clusterIP, local, remote, workspace, weight).backends;
            Failover.OffloaderShape(bs, RemotePrefix(remote.pathPrefix, workspace, m.remoteModel)) && ':' in bs[0].host
  {
  }
}
