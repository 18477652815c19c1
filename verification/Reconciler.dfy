/** The model-deployment reconciler, updated in place. Each method is tied to the step function of the same name:
    it reads the model's view of the state and writes the view that the function returns. */
module Reconcilers {
  import opened Common
  import opened Deployments
  import opened LocalServices
  import opened Dataplane
  import opened Controller
  import opened Reachability
  import Gateway
  import Offloaders

  lemma SetTwice<V>(m: map<Key, V>, k: Key, a: Option<V>, b: Option<V>)
    ensures Set(Set(m, k, a), k, b) == Set(m, k, b)
  {
  }

  lemma WriteCellTwice(p: Plane, name: string, a: Cell, b: Cell)
    ensures WriteCell(WriteCell(p, name, a), name, b) == WriteCell(p, name, b)
  {
  }

  lemma WriteTwice(s: State, k: Key, v: View, w: View)
    ensures Write(Write(s, k, v), k, w) == Write(s, k, w)
  {
    SetTwice(s.ongoing, k, v.ongoing, w.ongoing);
    SetTwice(s.modelState, k, v.health, w.health);
    SetTwice(s.managed, k, v.managed, w.managed);
    WriteCellTwice(s.plane, k.name, v.cell, w.cell);
  }

  /** The configurer behind the controller's interface: it registers the services it has taken over and keeps a stop
      channel for each one it watches, which it never drops. */
  class ServiceConfigurer {
    var registry: Registry
    var watched: set<Service>

    constructor ()
      ensures registry == map[] && watched == {}
    {
      registry, watched := map[], {};
    }

    method Configure(svc: Service, r: ConfigureReply) returns (finish: Finish)
      modifies this
      ensures ServiceStep(registry, watched, finish) == LocalServices.Configure(old(registry), old(watched), svc, r)
    {
      if r.call.Done? || !r.stage.Unregistered? {
        registry := registry[svc := BeamlitService(svc)];
      }
      if r.call.Done? || r.stage.Watched? {
        watched := watched + {svc};
      }
      return FinishOf(r.call);
    }

    method Unconfigure(svc: Service, r: UnconfigureReply) returns (finish: Finish)
      modifies this
      ensures ServiceStep(registry, watched, finish) == LocalServices.Unconfigure(old(registry), old(watched), svc, r)
    {
      if svc !in registry {
        return Success;
      }
      if svc !in watched {
        return OtherError;
      }
      if r.call.Done? || r.entryRemoved {
        registry := registry - {svc};
      }
      return FinishOf(r.call);
    }
  }

  class Reconciler {
    const offloader: Offloaders.Offloader
    const configurer: ServiceConfigurer
    const defaultRemote: Option<RemoteBackend>
    var ongoing: map<Key, int>
    var modelState: map<Key, bool>
    var managed: map<Key, Managed>
    var claims: map<string, string>

    ghost function Snapshot(): State
      reads this, configurer, offloader, offloader.gateway, offloader.gateway.store
    {
      State(
        ongoing, modelState, managed, claims, configurer.registry, configurer.watched, offloader.View(), defaultRemote)
    }

    constructor (remote: Option<RemoteBackend>)
      ensures Snapshot() == Init(remote)
      ensures fresh(configurer) && fresh(offloader) && fresh(offloader.gateway) && fresh(offloader.gateway.store)
    {
      var gateway := new Gateway.Proxy();
      offloader := new Offloaders.Offloader(gateway);
      configurer := new ServiceConfigurer();
      defaultRemote := remote;
      ongoing, modelState, managed, claims := map[], map[], map[], map[];
    }

    /** The three deletions that drop a model. */
    method DropEntries(k: Key)
      modifies this
      ensures Snapshot() == Write(old(Snapshot()), k, Forget(Read(old(Snapshot()), k)))
    {
      WriteUnchanged(Snapshot(), k);
      ongoing := ongoing - {k};
      modelState := modelState - {k};
      managed := managed - {k};
    }

    method TearDown(k: Key, svc: Service, r: ReconcileReply) returns (o: Outcome)
      modifies configurer, offloader, offloader.gateway.store
      ensures var t := Controller.TearDown(Read(old(Snapshot()), k), svc, r);
              Snapshot() == Write(old(Snapshot()), k, t.view) && o == t.outcome
    {
      WriteUnchanged(Snapshot(), k);
      var u := configurer.Unconfigure(svc, r.unconfigure);
      if !u.Success? {
        return OutcomeOf(u);
      }
      var c := offloader.Cleanup(k.name, r.deleteOk);
      return OutcomeOf(c);
    }

    method SetUp(k: Key, m: Model, ref: ServiceRef, c: OffloadingConfig, r: ReconcileReply) returns (o: Outcome)
      modifies this, configurer, offloader, offloader.gateway, offloader.gateway.store
      ensures var t := Controller.SetUp(Read(old(Snapshot()), k), k, m, ref, c, r);
              Snapshot() == Write(old(Snapshot()), k, t.view) && o == t.outcome
    {
      WriteUnchanged(Snapshot(), k);
      var remote := if c.remote.Some? then c.remote else defaultRemote;
      var t := configurer.Configure(ref.service, r.configure);
      if !t.Success? {
        return OutcomeOf(t);
      }
      ongoing := ongoing[k := 0];
      modelState := modelState[k := true];
      var local := ref.(service := BeamlitService(ref.service));
      var f := offloader.Configure(k.name, m, ref.service, local, remote, 0, r.offload);
      return OutcomeOf(f);
    }

    method ConfigureOffloading(k: Key, m: Model, r: ReconcileReply) returns (o: Outcome)
      modifies this, configurer, offloader, offloader.gateway, offloader.gateway.store
      ensures var t := Controller.ConfigureOffloading(Read(old(Snapshot()), k), k, m, r);
              Snapshot() == Write(old(Snapshot()), k, t.view) && o == t.outcome
    {
      ghost var s := Snapshot();
      WriteUnchanged(s, k);
      if m.service.None? {
        return Panicked;
      }
      var ref := m.service.value;
      o := TearDown(k, ref.service, r);
      if !o.Succeeded? {
        return;
      }
      ghost var down := Controller.TearDown(Read(s, k), ref.service, r).view;
      ReadOwn(s, k, down);
      DropEntries(k);
      WriteTwice(s, k, down, Forget(down));
      if !m.enabled || m.config.None? {
        return Succeeded;
      }
      ReadOwn(s, k, Forget(down));
      o := SetUp(k, m, ref, m.config.value, r);
      WriteTwice(s, k, Forget(down), Controller.SetUp(Forget(down), k, m, ref, m.config.value, r).view);
    }

    method CreateOrUpdate(k: Key, m: Model, r: ReconcileReply) returns (o: Outcome)
      modifies this, configurer, offloader, offloader.gateway, offloader.gateway.store
      ensures var t := Controller.CreateOrUpdate(Read(old(Snapshot()), k), k, m, r);
              Snapshot() == Write(old(Snapshot()), k, t.view) && o == t.outcome
    {
      ghost var s := Snapshot();
      WriteUnchanged(s, k);
      if ClaimKey(m) in claims && claims[ClaimKey(m)] != k.name {
        return NotOwner;
      }
      if k in managed && managed[k].lastGeneration == m.generation {
        return SameGeneration;
      }
      if !r.lookups.Done? {
        return OutcomeOf(FinishOf(r.lookups));
      }
      claims := claims[ClaimKey(m) := k.name];
      ghost var v := Read(s, k).(claims := claims);
      assert Snapshot() == Write(s, k, v);
      if !r.publish.Done? {
        return OutcomeOf(FinishOf(r.publish));
      }
      ReadOwn(s, k, v);
      var published := m.(workspace := r.workspace);
      o := ConfigureOffloading(k, published, r);
      ghost var c := Controller.ConfigureOffloading(v, k, published, r).view;
      WriteTwice(s, k, v, c);
      if !o.Succeeded? {
        return;
      }
      if !r.status.Done? {
        return OutcomeOf(FinishOf(r.status));
      }
      managed := managed[k := Managed(true, m.generation)];
      WriteTwice(s, k, c, c.(managed := Some(Managed(true, m.generation))));
    }

    method Finalize(k: Key, m: Model, r: ReconcileReply) returns (o: Outcome)
      modifies this, configurer, offloader, offloader.gateway.store
      ensures var t := Controller.Finalize(Read(old(Snapshot()), k), m, r);
              Snapshot() == Write(old(Snapshot()), k, t.view) && o == t.outcome
    {
      ghost var s := Snapshot();
      claims := claims - {ClaimKey(m)};
      DropEntries(k);
      ghost var v := Forget(Read(s, k)).(claims := claims);
      assert Snapshot() == Write(s, k, v);
      if m.config.None? {
        return Finalized;
      }
      if m.service.None? {
        return Panicked;
      }
      ReadOwn(s, k, v);
      var down := TearDown(k, m.service.value.service, r);
      WriteTwice(s, k, v, Controller.TearDown(v, m.service.value.service, r).view);
      return if down.Succeeded? && r.retire.Done? then Finalized else FinalizeFailed;
    }

    method Reconcile(k: Key, read: Option<Model>, r: ReconcileReply) returns (o: Outcome)
      modifies this, configurer, offloader, offloader.gateway, offloader.gateway.store
      ensures Snapshot() == Apply(old(Snapshot()), Event.Reconcile(k, read, r))
      ensures o == Next(Read(old(Snapshot()), k), Event.Reconcile(k, read, r)).outcome
    {
      ghost var s := Snapshot();
      WriteUnchanged(s, k);
      if read.None? {
        return Ignored;
      }
      var m := read.value;
      if m.deleting {
        if m.finalizer {
          o := Finalize(k, m, r);
        } else {
          o := Ignored;
        }
        return;
      }
      if !m.finalizer {
        return Ignored;
      }
      o := CreateOrUpdate(k, m, r);
      if o.Errored? {
        ghost var c := Controller.CreateOrUpdate(Read(s, k), k, m, r).view;
        ReadOwn(s, k, c);
        DropEntries(k);
        WriteTwice(s, k, c, Forget(c));
      }
    }

    method Reroute(k: Key, m: Model, weight: int, reply: OffloadReply) returns (o: Outcome)
      requires m.config.Some?
      modifies offloader, offloader.gateway, offloader.gateway.store
      ensures var t := Controller.Reroute(Read(old(Snapshot()), k), k, m, weight, reply);
              Snapshot() == Write(old(Snapshot()), k, t.view) && o == t.outcome
    {
      WriteUnchanged(Snapshot(), k);
      if m.service.None? {
        return Panicked;
      }
      var local := LocalOf(configurer.registry, m.service.value);
      if local.None? {
        return HandlerFailed;
      }
      var remote := if m.config.value.remote.Some? then m.config.value.remote else defaultRemote;
      var f := offloader.Configure(k.name, m, m.service.value.service, local.value, remote, weight, reply);
      return HandlerOutcome(f);
    }

    method MetricCallback(k: Key, m: Model, reached: bool, reply: OffloadReply) returns (o: Outcome)
      requires m.config.Some?
      modifies this, offloader, offloader.gateway, offloader.gateway.store
      ensures var t := Controller.MetricCallback(Read(old(Snapshot()), k), k, m, reached, reply);
              Snapshot() == Write(old(Snapshot()), k, t.view) && o == t.outcome
    {
      ghost var s := Snapshot();
      WriteUnchanged(s, k);
      if k in modelState && !modelState[k] {
        return Handled;
      }
      if k !in ongoing {
        return Handled;
      }
      if !reached {
        if ongoing[k] == 0 {
          return Handled;
        }
        ongoing := ongoing - {k};
        ghost var v := Read(s, k).(ongoing := None);
        assert Snapshot() == Write(s, k, v);
        ReadOwn(s, k, v);
        o := Reroute(k, m, 0, reply);
        WriteTwice(s, k, v, Controller.Reroute(v, k, m, 0, reply).view);
        return;
      }
      var p := m.config.value.percentage;
      if ongoing[k] == p {
        return Handled;
      }
      o := Reroute(k, m, p, reply);
      if o.Handled? {
        ghost var c := Controller.Reroute(Read(s, k), k, m, p, reply).view;
        ongoing := ongoing[k := p];
        WriteTwice(s, k, c, c.(ongoing := Some(p as int)));
      }
    }

    method HealthCallback(k: Key, m: Model, healthy: bool, reply: OffloadReply) returns (o: Outcome)
      requires m.config.Some?
      modifies this, offloader, offloader.gateway, offloader.gateway.store
      ensures var t := Controller.HealthCallback(Read(old(Snapshot()), k), k, m, healthy, reply);
              Snapshot() == Write(old(Snapshot()), k, t.view) && o == t.outcome
    {
      ghost var s := Snapshot();
      WriteUnchanged(s, k);
      var p: int := 100;
      if healthy {
        p := m.config.value.percentage;
        if k !in ongoing || ongoing[k] == p {
          return Handled;
        }
      }
      o := Reroute(k, m, p, reply);
      if o.Handled? {
        ghost var c := Controller.Reroute(Read(s, k), k, m, p, reply).view;
        ongoing := ongoing[k := p];
        modelState := modelState[k := healthy];
        WriteTwice(s, k, c, c.(ongoing := Some(p), health := Some(healthy)));
      }
    }

    /** One turn of the controller: a reconciliation, or an event taken off one of the two channels. */
    method Handle(e: Event) returns (o: Outcome)
      modifies this, configurer, offloader, offloader.gateway, offloader.gateway.store
      ensures Snapshot() == Apply(old(Snapshot()), e)
      ensures o == Next(Read(old(Snapshot()), e.key), e).outcome
    {
      WriteUnchanged(Snapshot(), e.key);
      match e {
        case Reconcile(k, read, r) =>
          o := Reconcile(k, read, r);
        case Health(k, healthy, read, reply) =>
          if k !in managed || read.None? {
            return Ignored;
          }
          if read.value.config.None? {
            return Panicked;
          }
          o := HealthCallback(k, read.value, healthy, reply);
        case Metric(k, reached, read, reply) =>
          if k !in managed || !managed[k].healthy || read.None? {
            return Ignored;
          }
          if read.value.config.None? {
            return Panicked;
          }
          o := MetricCallback(k, read.value, reached, reply);
      }
    }

    /** The event loop, over the events that arrive. */
    method Process(events: seq<Event>)
      modifies this, configurer, offloader, offloader.gateway, offloader.gateway.store
      ensures Snapshot() == Run(old(Snapshot()), events)
    {
      ghost var s := Snapshot();
      assert events[..0] == [];
      for i := 0 to |events|
        invariant Snapshot() == Run(s, events[..i])
      {
        assert events[..i + 1][..i] == events[..i];
        var _ := Handle(events[i]);
      }
      assert events[..|events|] == events;
    }
  }
}
