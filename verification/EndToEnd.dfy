/** From the controller's state to the requests that the gateway sends. */
module EndToEnd {
  import opened Common
  import opened Deployments
  import opened Hosts
  import opened Routes
  import opened WeightedDraw
  import opened Dataplane
  import opened Failover
  import opened Handler
  import opened Histories
  import opened Reachability
  import opened Requests
  import LocalServices
  import RouteTable
  import Controller
  import Runs

  // ----- the routes of reachable states -----

  /** A route as the offloader writes it: under its own name, with a ported local backend without prefix, then a
      remote one, which share 100 draws. */
  predicate Offloading(route: Route, name: string) {
    && route.name == name && |route.backends| == 2
    && var local, remote := route.backends[0], route.backends[1];
    && OffloaderShape(route.backends, remote.pathPrefix) && ':' in local.host && !local.oauth
    && local.weight >= 0 && remote.weight >= 0 && local.weight + remote.weight == 100
  }

  predicate CellOffloading(c: Cell, name: string) { c.route.Some? ==> Offloading(c.route.value, name) }

  lemma ConfigureShape(
    c: Cell, name: string, m: Model, svc: Service, local: ServiceRef, remote: Option<RemoteBackend>,
    weight: int, r: OffloadReply)
    requires CellOffloading(c, name) && 0 <= weight <= 100
    ensures CellOffloading(Dataplane.Configure(c, name, m, svc, local, remote, weight, r).cell, name)
  {
    if remote.Some? {
      var workspace := WorkspaceOf(c.workspace, m);
      BuiltRouteShape(name, m, svc, r.clusterIP, local, remote.value, workspace, weight);
      var bs := BuildRoute(name, m, svc, r.clusterIP, local, remote.value, workspace, weight).backends;
      assert Weights(bs)[0] == 100 - weight && Weights(bs)[1] == weight;
    }
  }

  lemma RerouteShape(v: Controller.View, k: Key, m: Model, weight: int, o: OffloadReply)
    requires m.config.Some? && CellOffloading(v.cell, k.name) && 0 <= weight <= 100
    ensures CellOffloading(Controller.Reroute(v, k, m, weight, o).view.cell, k.name)
  {
    if m.service.Some? {
      var local := LocalServices.LocalOf(v.registry, m.service.value);
      if local.Some? {
        ConfigureShape(
          v.cell, k.name, m, m.service.value.service, local.value, Controller.RemoteOf(v, m.config.value), weight, o);
      }
    }
  }

  lemma SetUpShape(
    v: Controller.View, k: Key, m: Model, ref: ServiceRef, c: OffloadingConfig, r: Controller.ReconcileReply)
    requires CellOffloading(v.cell, k.name)
    ensures CellOffloading(Controller.SetUp(v, k, m, ref, c, r).view.cell, k.name)
  {
    ConfigureShape(v.cell, k.name, m, ref.service, Beside(ref), Controller.RemoteOf(v, c), 0, r.offload);
  }

  lemma ConfigureOffloadingShape(v: Controller.View, k: Key, m: Model, r: Controller.ReconcileReply)
    requires CellOffloading(v.cell, k.name)
    ensures CellOffloading(Controller.ConfigureOffloading(v, k, m, r).view.cell, k.name)
  {
    if m.service.Some? && m.config.Some? {
      var down := Controller.TearDown(v, m.service.value.service, r);
      SetUpShape(Controller.Forget(down.view), k, m, m.service.value, m.config.value, r);
    }
  }

  lemma ReconcileShape(v: Controller.View, k: Key, m: Model, r: Controller.ReconcileReply)
    requires CellOffloading(v.cell, k.name)
    ensures CellOffloading(Controller.ReconcileModel(v, k, m, r).view.cell, k.name)
  {
    var v1 := v.(claims := v.claims[Controller.ClaimKey(m) := k.name]);
    ConfigureOffloadingShape(v1, k, m.(workspace := r.workspace), r);
  }

  lemma NextShape(v: Controller.View, e: Controller.Event)
    requires CellOffloading(v.cell, e.key.name)
    ensures CellOffloading(Controller.Next(v, e).view.cell, e.key.name)
  {
    if e.read.Some? {
      var k, m := e.key, e.read.value;
      match e
      case Reconcile(_, _, r) => ReconcileShape(v, k, m, r);
      case Health(_, healthy, _, o) =>
        if m.config.Some? {
          RerouteShape(v, k, m, if healthy then m.config.value.percentage else 100, o);
        }
      case Metric(_, reached, _, o) =>
        if m.config.Some? {
          RerouteShape(v, k, m, m.config.value.percentage, o);
          RerouteShape(v.(ongoing := None), k, m, 0, o);
        }
    }
  }

  /** After any run, whatever fails and whatever the names are, every stored route is one of the offloader's. */
  lemma {:induction false} RunShape(d: Option<RemoteBackend>, es: seq<Controller.Event>, name: string)
    ensures var routes := Controller.Run(Controller.Init(d), es).plane.gateway.routes;
            name in routes ==> Offloading(routes[name], name)
  {
    if es != [] {
      var init, e := es[..|es| - 1], es[|es| - 1];
      RunShape(d, init, name);
      var s := Controller.Run(Controller.Init(d), init);
      if e.key.name == name {
        NextShape(Controller.Read(s, e.key), e);
      }
    }
  }

  // ----- whole requests -----

  /** In every reachable state each backend of each stored route has an entry in the index. */
  lemma ReachableIndexed(d: Option<RemoteBackend>, es: seq<Controller.Event>)
    ensures RouteTable.Indexed(Controller.Run(Controller.Init(d), es).plane.gateway)
  {
    RunHistory(d, es);
    RouteTable.EveryBackendIndexed(History(Controller.Init(d), es));
  }

  /** No later operation of the run on another route listed a backend host of route `n`, and if the first attempt may
      be refused a token, the request's own host does not lead to another route. */
  ghost predicate Undisputed(
    d: Option<RemoteBackend>, es: seq<Controller.Event>, t: RouteTable.Table, n: string, r: Request)
    requires n in t.routes
  {
    && (forall h | h in RouteTable.HostsOf(t.routes[n], RouteTable.Upstream) ::
          !RouteTable.Taken(History(Controller.Init(d), es), RouteTable.Upstream, h, n))
    && (Refusable(t.routes[n].backends) ==> Leads(t, r.host, n))
  }

  /** In every reachable state and for every request that a stored route serves, whatever the request meets: it stays on
      its route and the remote backend is sent exactly one copy of its prefix, if and only if the route's backend hosts
      are undisputed and stripping the prefix leaves the path alone; and both backends are sent the path meant for them,
      if and only if, besides, the remote host has a port or there is no prefix. An absolute path that does not begin
      with the prefix is left alone. */
  lemma ReachableRequestsExact(d: Option<RemoteBackend>, es: seq<Controller.Event>, n: string, r: Request)
    requires var routes := Controller.Run(Controller.Init(d), es).plane.gateway.routes;
             && n in routes && |routes[n].backends| == 2
             && routes[n].backends[1].host != ExtractHost(routes[n].backends[0].host)
    ensures var t := Controller.Run(Controller.Init(d), es).plane.gateway;
            var remote := t.routes[n].backends[1];
            var p := remote.pathPrefix;
            && ((forall life | Over(life, t) :: StaysWithOneCopy(t, n, r, life, p)) <==>
                  Undisputed(d, es, t, n, r) && Inert(r.path, p))
            && ((forall life | Over(life, t) :: StaysOnRightPaths(t, n, r, life)) <==>
                  Undisputed(d, es, t, n, r) && Inert(r.path, p) && (p == "" || ':' in remote.host))
            && (HasPrefix(r.path, "/") && !HasPrefix(r.path, p) ==> Inert(r.path, p))
  {
    var t := Controller.Run(Controller.Init(d), es).plane.gateway;
    RunShape(d, es, n);
    ReachableIndexed(d, es);
    OwnUndisputed(d, es, n, r);
    OneCopyExact(t, n, r);
    RightPathsExactly(t, n, r);
    AbsoluteInert(r.path, t.routes[n].backends[1].pathPrefix);
  }

  lemma AbsoluteInert(path: string, p: string)
    ensures HasPrefix(path, "/") && !HasPrefix(path, p) ==> Inert(path, p)
  {
    if HasPrefix(path, "/") && !HasPrefix(path, p) {
      AbsolutePathInert(path, p);
    }
  }

  lemma OwnUndisputed(d: Option<RemoteBackend>, es: seq<Controller.Event>, n: string, r: Request)
    requires n in Controller.Run(Controller.Init(d), es).plane.gateway.routes
    ensures var t := Controller.Run(Controller.Init(d), es).plane.gateway;
            OwnHosts(t, n, r) <==> Undisputed(d, es, t, n, r)
  {
    RunHistory(d, es);
    RouteTable.OwnFailoverOfExact(History(Controller.Init(d), es), n);
  }

  /** In every possible run a request on one of a model's hostnames resolves to the model's route, if and only if no
      later operation on another route listed that hostname; then exactly the recorded share of the first draws, out of
      100, falls on the remote backend. */
  lemma HostnameShareExact(w: World, es: seq<Controller.Event>, k: Key, host: string, r: Request, random: nat)
    requires PossibleRun(w, es) && Runs.UniqueNames(w.models) && Writable(w)
    requires k in Controller.Run(Controller.Init(w.defaultRemote), es).ongoing
    requires var routes := Controller.Run(Controller.Init(w.defaultRemote), es).plane.gateway.routes;
             k.name in routes && ExtractHost(host) in routes[k.name].hostnames
    ensures var s := Controller.Run(Controller.Init(w.defaultRemote), es);
            var ops := History(Controller.Init(w.defaultRemote), es);
            var t, h := s.plane.gateway, ExtractHost(host);
            && (RouteTable.Resolve(t, h) == Some(t.routes[k.name]) <==>
                  !RouteTable.Taken(ops, RouteTable.Served, h, k.name))
            && (!RouteTable.Taken(ops, RouteTable.Served, h, k.name) ==>
                  var bs := RouteTable.Resolve(t, h).value.backends;
                  var ws := Weights(Candidates(First, bs, r, |bs|));
                  && |bs| == |ws| == 2 && Total(ws) == 100 && |DrawsFor(ws, 1)| == s.ongoing[k]
                  && (random in DrawsFor(ws, 1) ==>
                        var o := Try(r, Attempt(First, Some(bs), random, true)).outcome;
                        o.Out? && o.sent.backend == bs[1]))
  {
    var s := Controller.Run(Controller.Init(w.defaultRemote), es);
    RunHistory(w.defaultRemote, es);
    ReachableIndexed(w.defaultRemote, es);
    var ops := History(Controller.Init(w.defaultRemote), es);
    RouteTable.OwnEntryExact(ops, RouteTable.Served, ExtractHost(host), k.name);
    Runs.OngoingIsShare(w, es, k, r, random);
  }

  // ----- models that share a remote host -----

  /** Everything that retries on route `name` send goes to a backend of that route as the store then holds it. */
  lemma {:induction false} RetriesStayOnRoute(r: Request, name: string, replies: seq<Reply>, i: nat)
    requires i < |replies| && Outcomes(r, AttemptsOn(name, replies))[i].Out?
    ensures name in replies[i].store
    ensures var sent := Outcomes(r, AttemptsOn(name, replies))[i].sent;
            exists b | b in replies[i].store[name].backends :: sent.backend == Weighted(TransportError, b)
  {
    var attempts, n := AttemptsOn(name, replies), |replies| - 1;
    if i < n {
      assert attempts[..n] == AttemptsOn(name, replies[..n]);
      RetriesStayOnRoute(r, name, replies[..n], i);
    } else {
      var r', a := After(r, attempts[..n]), attempts[n];
      assert a == AttemptOn(TransportError, name, replies[n]);
      TryDraws(r', a);
      CandidateOrigin(TransportError, a.backends.value, r', |a.backends.value|, Try(r', a).outcome.sent.backend);
    }
  }

  /** The service beside the one taken over, on the same port. */
  function Beside(ref: ServiceRef): ServiceRef { ref.(service := LocalServices.BeamlitService(ref.service)) }

  /** The plane after the offloader has written the route of model `name`. */
  function Written(p: Plane, name: string, m: Model, ref: ServiceRef, remote: RemoteBackend, w: int, o: OffloadReply)
    : Plane
  {
    var c := Dataplane.Configure(ReadCell(p, name), name, m, ref.service, Beside(ref), Some(remote), w, o).cell;
    WriteCell(p, name, c)
  }

  lemma WrittenRoute(
    p: Plane, name: string, m: Model, ref: ServiceRef, remote: RemoteBackend, w: int, o: OffloadReply, other: string)
    requires o.read.Done? && o.gatewayOk
    ensures var p' := Written(p, name, m, ref, remote, w, o);
            && name in p'.gateway.routes && |p'.gateway.routes[name].backends| == 2
            && var bs := p'.gateway.routes[name].backends;
            && bs[0].host == LocalHost(Beside(ref)) && bs[0].weight == 100 - w && bs[0].pathPrefix == "" && !bs[0].oauth
            && bs[1].host == remote.host && bs[1].weight == w
            && ExtractHost(remote.host) in p'.gateway.backendHosts
            && p'.gateway.backendHosts[ExtractHost(remote.host)] == name
            && (other != name && other in p.gateway.routes ==>
                  other in p'.gateway.routes && p'.gateway.routes[other] == p.gateway.routes[other])
  {
  }

  /** Where the index names route `b` for the host of a failed backend, every retry goes to a backend of `b`; if the
      failed backend has no port, the first one goes to the local backend of `b` on the path as it is. */
  lemma RetriesGoTo(t: RouteTable.Table, failed: Request, b: string, replies: seq<Reply>)
    requires b in t.routes && forall y | y in replies :: y.store == t.routes
    ensures var os := Outcomes(failed, AttemptsOn(b, replies)); var bs := t.routes[b].backends;
            && (forall o | o in os && o.Out? ::
                  exists c | c in bs :: o.sent.backend == Weighted(TransportError, c))
            && (replies != [] && RetriedLocally(bs, failed) ==>
                  os[0].Out? && os[0].sent.backend.host == bs[0].host && os[0].sent.path == failed.path)
  {
    var os := Outcomes(failed, AttemptsOn(b, replies));
    forall o | o in os && o.Out?
      ensures exists c | c in t.routes[b].backends :: o.sent.backend == Weighted(TransportError, c)
    {
      var i :| 0 <= i < |os| && os[i] == o;
      RetriesStayOnRoute(failed, b, replies, i);
      assert replies[i] in replies;
    }
    if replies != [] && RetriedLocally(t.routes[b].backends, failed) {
      assert replies[0] in replies;
      FirstRetryLocal(failed, t.routes[b].backends, b, replies);
    }
  }

  /** Two models offload to one remote host, `b` after `a`. When the remote backend of `a` fails, every retry of
      that request goes to a backend of `b`; if the remote host has no port, the first one goes to the local service
      beside that of `b`, with the remote prefix of `a` on its path. */
  lemma FailoverCrossesModels(
    p: Plane, a: string, b: string, ma: Model, mb: Model, sa: ServiceRef, sb: ServiceRef,
    remote: RemoteBackend, wa: int, wb: int, oa: OffloadReply, ob: OffloadReply, r: Request, replies: seq<Reply>)
    requires a != b && oa.read.Done? && ob.read.Done? && oa.gatewayOk && ob.gatewayOk && 0 <= wb <= 100
    requires var p2 := Written(Written(p, a, ma, sa, remote, wa, oa), b, mb, sb, remote, wb, ob);
             forall y | y in replies :: y.store == p2.gateway.routes
    ensures var t := Written(Written(p, a, ma, sa, remote, wa, oa), b, mb, sb, remote, wb, ob).gateway;
            && a in t.routes && b in t.routes && |t.routes[a].backends| == 2
            && var failed := Rewritten(r, t.routes[a].backends[1]);
            && failed.host in t.backendHosts
            && var os := Outcomes(failed, AttemptsOn(t.backendHosts[failed.host], replies));
            && (forall o | o in os && o.Out? ::
                  exists c | c in t.routes[b].backends :: o.sent.backend == Weighted(TransportError, c))
            && (replies != [] && ':' !in remote.host ==>
                  && os[0].Out? && os[0].sent.backend.host == LocalHost(Beside(sb)) && os[0].sent.path == failed.path)
  {
    var p1 := Written(p, a, ma, sa, remote, wa, oa);
    var t := Written(p1, b, mb, sb, remote, wb, ob).gateway;
    WrittenRoute(p, a, ma, sa, remote, wa, oa, b);
    WrittenRoute(p1, b, mb, sb, remote, wb, ob, a);
    RetriesGoTo(t, Rewritten(r, t.routes[a].backends[1]), b, replies);
  }

  /** Of two backends a retry passes over the second, whose host just failed, and finds the first ready. */
  predicate RetriedLocally(bs: seq<Backend>, failed: Request) {
    && |bs| == 2 && ':' in bs[0].host && !bs[0].oauth && bs[0].weight >= 0 && bs[0].pathPrefix == ""
    && bs[1].host == failed.host && ':' !in failed.host
  }

  /** After a port-less remote backend failed, the first retry goes to the local backend on the path as it is. */
  lemma FirstRetryLocal(failed: Request, bs: seq<Backend>, name: string, replies: seq<Reply>)
    requires RetriedLocally(bs, failed)
    requires replies != [] && name in replies[0].store && replies[0].store[name].backends == bs
    ensures var os := Outcomes(failed, AttemptsOn(name, replies));
            os[0].Out? && os[0].sent.backend.host == bs[0].host && os[0].sent.path == failed.path
  {
    var a, attempts := AttemptOn(TransportError, name, replies[0]), AttemptsOn(name, replies);
    FirstOutcome(failed, attempts);
    assert bs == [bs[0], bs[1]];
    Pair(TransportError, bs[0], bs[1], failed);
    var cs := [Weighted(TransportError, bs[0])];
    assert Candidates(TransportError, bs, failed, 2) == cs;
    assert Prefix(Weights(cs), 1) == cs[0].weight;
    TryDraws(failed, a);
  }

  lemma {:induction false} FirstOutcome(r: Request, attempts: seq<Attempt>)
    requires attempts != []
    ensures Outcomes(r, attempts)[0] == Try(r, attempts[0]).outcome
  {
    if |attempts| > 1 {
      FirstOutcome(r, attempts[..|attempts| - 1]);
    }
  }
}
