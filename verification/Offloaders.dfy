/** The gateway offloader, updated in place. */
module Offloaders {
  import opened Common
  import opened Deployments
  import opened Routes
  import opened Dataplane
  import Gateway

  class Offloader {
    const gateway: Gateway.Proxy
    var managedRoutes: set<string>
    var workspace: string

    ghost function View(): Plane
      reads this, gateway, gateway.store
    {
      Plane(managedRoutes, workspace, gateway.View())
    }

    constructor (gateway: Gateway.Proxy)
      ensures this.gateway == gateway && managedRoutes == {} && workspace == ""
    {
      this.gateway := gateway;
      managedRoutes, workspace := {}, "";
    }

    method Configure(
      name: string, m: Model, svc: Service, local: ServiceRef, remote: Option<RemoteBackend>,
      weight: int, r: OffloadReply) returns (finish: Finish)
      modifies this, gateway, gateway.store
      ensures var t := Dataplane.Configure(ReadCell(old(View()), name), name, m, svc, local, remote, weight, r);
              View() == WriteCell(old(View()), name, t.cell) && finish == t.finish
    {
      if !r.read.Done? {
        return FinishOf(r.read);
      }
      if workspace == "" && m.workspace != "" {
        workspace := m.workspace;
      }
      if remote.None? {
        return Panic;
      }
      var route := BuildRoute(name, m, svc, r.clusterIP, local, remote.value, workspace, weight);
      if !r.gatewayOk {
        return OtherError;
      }
      if name in managedRoutes {
        gateway.UpdateRoute(route);
      } else {
        gateway.RegisterRoute(route);
      }
      managedRoutes := managedRoutes + {name};
      return Success;
    }

    method Cleanup(name: string, deleteOk: bool) returns (finish: Finish)
      modifies this, gateway.store
      ensures var t := Dataplane.Cleanup(ReadCell(old(View()), name), deleteOk);
              View() == WriteCell(old(View()), name, t.cell) && finish == t.finish
    {
      if name !in managedRoutes {
        return Success;
      }
      var deleted: Option<Route> := None;
      if deleteOk {
        deleted := gateway.DeleteRoute(name);
      }
      managedRoutes := managedRoutes - {name};
      return if deleted.Some? then Success else OtherError;
    }
  }
}
