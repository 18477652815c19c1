/** The gateway's table in a state of the controller, as what its history of operations leaves. */
module Histories {
  import opened Common
  import opened Deployments
  import opened Dataplane
  import opened Controller
  import RouteTable

  /** What a step that finds cell `c` and leaves cell `d` has asked of the gateway: a route replaced within one step
      counts as updated. */
  function OpsOf(c: Cell, d: Cell, name: string): seq<RouteTable.Op> {
    if d.route == c.route && d.hosts == c.hosts && d.backendHosts == c.backendHosts then []
    else if d.route.Some? then [RouteTable.Update(d.route.value)]
    else [RouteTable.Delete(name)]
  }

  /** All operations of a run. */
  function History(s: State, es: seq<Event>): seq<RouteTable.Op> {
    if es == [] then []
    else
      var init, e := es[..|es| - 1], es[|es| - 1];
      var v := Read(Run(s, init), e.key);
      History(s, init) + OpsOf(v.cell, Next(v, e).view.cell, e.key.name)
  }

  /** The cell after at most one operation on the route called `name`. */
  predicate Operates(c: Cell, d: Cell, name: string) {
    || (d.route == c.route && d.hosts == c.hosts && d.backendHosts == c.backendHosts)
    || (d.route.None? && d.hosts == c.hosts && d.backendHosts == c.backendHosts)
    || (d.route.Some? && d.route.value.name == name
        && var route := d.route.value;
        && d.hosts == RouteTable.Point(c.hosts, RouteTable.HostsOf(route, RouteTable.Served), name)
        && d.backendHosts == RouteTable.Point(c.backendHosts, RouteTable.HostsOf(route, RouteTable.Upstream), name))
  }

  lemma RerouteOperates(v: View, k: Key, m: Model, weight: int, o: OffloadReply)
    requires m.config.Some?
    ensures Operates(v.cell, Reroute(v, k, m, weight, o).view.cell, k.name)
  {
  }

  lemma TearDownOperates(v: View, svc: Service, r: ReconcileReply)
    ensures var c, d := v.cell, TearDown(v, svc, r).view.cell;
            (d.route == c.route || d.route.None?) && d.hosts == c.hosts && d.backendHosts == c.backendHosts
  {
  }

  lemma SetUpOperates(v: View, k: Key, m: Model, ref: ServiceRef, c: OffloadingConfig, r: ReconcileReply)
    ensures Operates(v.cell, SetUp(v, k, m, ref, c, r).view.cell, k.name)
  {
  }

  lemma ConfigureOperates(v: View, k: Key, m: Model, r: ReconcileReply)
    ensures Operates(v.cell, ConfigureOffloading(v, k, m, r).view.cell, k.name)
  {
    if m.service.Some? {
      TearDownOperates(v, m.service.value.service, r);
      if m.config.Some? {
        var down := TearDown(v, m.service.value.service, r);
        SetUpOperates(Forget(down.view), k, m, m.service.value, m.config.value, r);
      }
    }
  }

  lemma ReconcileOperates(v: View, k: Key, m: Model, r: ReconcileReply)
    ensures Operates(v.cell, ReconcileModel(v, k, m, r).view.cell, k.name)
  {
    if Finalizes(m) {
      if m.service.Some? {
        TearDownOperates(Forget(v).(claims := v.claims - {ClaimKey(m)}), m.service.value.service, r);
      }
    } else {
      ConfigureOperates(v.(claims := v.claims[ClaimKey(m) := k.name]), k, m.(workspace := r.workspace), r);
    }
  }

  lemma NextOperates(v: View, e: Event)
    ensures Operates(v.cell, Next(v, e).view.cell, e.key.name)
  {
    if e.read.Some? {
      var k, m := e.key, e.read.value;
      match e
      case Reconcile(_, _, r) => ReconcileOperates(v, k, m, r);
      case Health(_, healthy, _, o) =>
        if m.config.Some? {
          RerouteOperates(v, k, m, if healthy then m.config.value.percentage else 100, o);
        }
      case Metric(_, reached, _, o) =>
        if m.config.Some? {
          RerouteOperates(v, k, m, m.config.value.percentage, o);
          RerouteOperates(v.(ongoing := None), k, m, 0, o);
        }
    }
  }

  lemma OperatesTable(p: Plane, name: string, d: Cell)
    requires Operates(ReadCell(p, name), d, name)
    ensures var ops := OpsOf(ReadCell(p, name), d, name);
            WriteCell(p, name, d).gateway == if ops == [] then p.gateway else RouteTable.Apply(p.gateway, ops[0])
  {
  }

  /** After any run the gateway's table is what its history of operations leaves: every law on histories holds of
      every reachable state. */
  lemma {:induction false} RunHistory(d: Option<RemoteBackend>, es: seq<Event>)
    ensures Run(Init(d), es).plane.gateway == RouteTable.Run(History(Init(d), es))
  {
    if es != [] {
      var init, e := es[..|es| - 1], es[|es| - 1];
      RunHistory(d, init);
      var s := Run(Init(d), init);
      var v := Read(s, e.key);
      NextOperates(v, e);
      var ops, before := OpsOf(v.cell, Next(v, e).view.cell, e.key.name), History(Init(d), init);
      OperatesTable(s.plane, e.key.name, Next(v, e).view.cell);
      if ops == [] {
        assert before + ops == before;
      } else {
        assert (before + ops)[..|before|] == before;
      }
    }
  }
}
