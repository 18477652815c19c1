/** The gateway proxy and its in-memory persistence, updated in place. */
module Gateway {
  import opened Common
  import opened Hosts
  import opened Routes
  import opened RouteTable

  /** The in-memory route store. */
  class InMem {
    var routes: map<string, Route>

    constructor ()
      ensures routes == map[]
    {
      routes := map[];
    }

    /** `RegisterRoute` and `UpdateRoute` both store unconditionally. */
    method Store(route: Route)
      modifies this
      ensures routes == old(routes)[route.name := route]
    {
      routes := routes[route.name := route];
    }

    method GetRoute(name: string) returns (r: Option<Route>)
      ensures r.Some? <==> name in routes
      ensures r.Some? ==> r.value == routes[name]
    {
      if name in routes {
        r := Some(routes[name]);
      } else {
        r := None;
      }
    }

    /** The deleted route, or nothing when no route has that name. */
    method DeleteRoute(name: string) returns (r: Option<Route>)
      modifies this
      ensures routes == old(routes) - {name}
      ensures r.Some? <==> name in old(routes)
      ensures r.Some? ==> r.value == old(routes)[name]
    {
      r := GetRoute(name);
      if r.Some? {
        routes := routes - {name};
      }
    }
  }

  class Proxy {
    const store: InMem
    var routesPerHost: map<string, string>
    var backendHostToRoute: map<string, string>

    ghost function View(): Table
      reads this, store
    {
      Table(routesPerHost, backendHostToRoute, store.routes)
    }

    constructor ()
      ensures View() == EMPTY && fresh(store)
    {
      store := new InMem();
      routesPerHost, backendHostToRoute := map[], map[];
    }

    /** The loop over the served hostnames. */
    method IndexHostnames(route: Route)
      modifies this`routesPerHost
      ensures routesPerHost == Point(old(routesPerHost), HostsOf(route, Served), route.name)
    {
      ghost var before, done := routesPerHost, {};
      assert routesPerHost == Point(before, {}, route.name);
      for i := 0 to |route.hostnames|
        invariant forall h :: h in done <==> h in route.hostnames[..i]
        invariant routesPerHost == Point(before, done, route.name)
      {
        var h := route.hostnames[i];
        PointOne(before, done, route.name, h);
        routesPerHost := routesPerHost[h := route.name];
        done := done + {h};
      }
      assert done == HostsOf(route, Served);
    }

    /** The loop over the backends, whose hosts are indexed without their port. */
    method IndexBackends(route: Route)
      modifies this`backendHostToRoute
      ensures backendHostToRoute == Point(old(backendHostToRoute), HostsOf(route, Upstream), route.name)
    {
      ghost var before, done := backendHostToRoute, {};
      assert backendHostToRoute == Point(before, {}, route.name);
      for i := 0 to |route.backends|
        invariant forall b | b in route.backends[..i] :: ExtractHost(b.host) in done
        invariant done <= HostsOf(route, Upstream)
        invariant backendHostToRoute == Point(before, done, route.name)
      {
        var h := ExtractHost(route.backends[i].host);
        PointOne(before, done, route.name, h);
        backendHostToRoute := backendHostToRoute[h := route.name];
        done := done + {h};
      }
      assert done == HostsOf(route, Upstream);
    }

    method RegisterRoute(route: Route)
      modifies this, store
      ensures View() == Apply(old(View()), Register(route))
    {
      IndexHostnames(route);
      IndexBackends(route);
      store.Store(route);
    }

    method UpdateRoute(route: Route)
      modifies this, store
      ensures View() == Apply(old(View()), Update(route))
    {
      IndexHostnames(route);
      IndexBackends(route);
      store.Store(route);
    }

    method DeleteRoute(name: string) returns (r: Option<Route>)
      modifies store
      ensures View() == Apply(old(View()), Delete(name))
      ensures r == Stored(old(View()), name)
    {
      r := store.DeleteRoute(name);
    }

    /** The lookups of a proxied request: the port-less inbound host, then the route it names. */
    method ResolveHost(host: string) returns (r: Option<Route>)
      ensures r == Resolve(View(), ExtractHost(host))
    {
      var h := ExtractHost(host);
      if h !in routesPerHost {
        return None;
      }
      r := store.GetRoute(routesPerHost[h]);
    }
  }
}
