/** What runs of events achieve when the outside world cooperates, and what they can no longer achieve. */
module Callbacks {
  import opened Common
  import opened Deployments
  import opened Routes
  import opened WeightedDraw
  import opened Dataplane
  import opened Controller
  import opened Reachability
  import opened Phases
  import Lifecycle

  /** The stored route sends `p` of 100 draws to the remote backend. */
  predicate RoutedAt(v: View, p: int) { v.cell.route.Some? && Weights(v.cell.route.value.backends) == Split(p) }

  /** The model can be rerouted: it is managed, its service is taken over, there is a remote backend and the calls
      succeed. */
  predicate Reroutable(v: View, m: Model, o: OffloadReply) {
    && v.managed.Some? && v.managed.value.healthy
    && m.config.Some? && m.service.Some? && m.service.value.service in v.registry
    && RemoteOf(v, m.config.value).Some? && o.read.Done? && o.gatewayOk
  }

  // ----- phases -----

  /** The model's entries and its stored route are those of a phase; its service is taken over and it is managed at
      generation `g`. */
  predicate InPhase(v: View, svc: Service, g: int, p: int, phase: Phase) {
    && v.managed == Some(Managed(true, g)) && svc in v.registry
    && RoutedAt(v, Share(phase, p))
    && v.ongoing == (if phase.Left() then None else Some(Share(phase, p)))
    && (v.health == Some(false) <==> phase.Down?) && (!phase.Left() ==> v.health.Some?)
  }

  /** The event gets to the callback of its model, if that is managed. */
  predicate Speaks(e: Event) { !e.Reconcile? && e.read.Some? && e.read.value.config.Some? }

  function SignalOf(e: Event, d: Option<RemoteBackend>): Signal
    requires Speaks(e)
  {
    Signal(
      if e.Health? then (if e.healthy then Healthy else Unhealthy) else (if e.reached then Reached else Calm),
      && e.read.value.service.Some? && (e.read.value.config.value.remote.Some? || d.Some?)
      && e.offload.read.Done? && e.offload.gatewayOk)
  }

  /** What the events of a run say about `k`. */
  function Signals(es: seq<Event>, k: Key, d: Option<RemoteBackend>): seq<Signal> {
    if es == [] then []
    else
      var init, e := Signals(es[..|es| - 1], k, d), es[|es| - 1];
      if e.key == k && Speaks(e) then init + [SignalOf(e, d)] else init
  }

  /** Until `k` changes: its events read it with service `svc` and share `p`, its reconciliations find generation `g`
      and no deletion, and other models have another name and are not reconciled with that service. Any call may
      fail. */
  predicate Unchanged(e: Event, k: Key, svc: Service, g: int, p: int) {
    if e.key != k then e.key.name != k.name && !Lifecycle.UsesService(e, svc)
    else if e.read.None? then true
    else
      var m := e.read.value;
      if e.Reconcile? then !Finalizes(m) && (Updates(m) ==> m.generation == g)
      else
        && (m.service.Some? ==> m.service.value.service == svc)
        && (m.config.Some? ==> m.config.value.percentage == p)
  }

  lemma ReroutePhase(v: View, e: Event, weight: int)
    requires Speaks(e) && (e.read.value.service.Some? ==> e.read.value.service.value.service in v.registry)
    ensures var c := Reroute(v, e.key, e.read.value, weight, e.offload);
            && c.view == v.(cell := c.view.cell)
            && (if SignalOf(e, v.defaultRemote).ok then c.outcome.Handled? && RoutedAt(c.view, weight)
                else !c.outcome.Handled? && c.view.cell.route == v.cell.route)
  {
  }

  lemma MetricPhase(v: View, e: Event, svc: Service, g: int, p: int, phase: Phase)
    requires InPhase(v, svc, g, p, phase) && Unchanged(e, e.key, svc, g, p) && e.Metric? && Speaks(e)
    ensures InPhase(Next(v, e).view, svc, g, p, Move(phase, p, SignalOf(e, v.defaultRemote)))
  {
    ReroutePhase(v, e, p);
    ReroutePhase(v.(ongoing := None), e, 0);
  }

  lemma HealthyPhase(v: View, e: Event, svc: Service, g: int, p: int, phase: Phase)
    requires InPhase(v, svc, g, p, phase) && Unchanged(e, e.key, svc, g, p) && e.Health? && e.healthy && Speaks(e)
    ensures InPhase(Next(v, e).view, svc, g, p, Move(phase, p, SignalOf(e, v.defaultRemote)))
  {
    ReroutePhase(v, e, p);
  }

  lemma UnhealthyPhase(v: View, e: Event, svc: Service, g: int, p: int, phase: Phase)
    requires InPhase(v, svc, g, p, phase) && Unchanged(e, e.key, svc, g, p) && e.Health? && !e.healthy && Speaks(e)
    ensures InPhase(Next(v, e).view, svc, g, p, Move(phase, p, SignalOf(e, v.defaultRemote)))
  {
    ReroutePhase(v, e, 100);
  }

  lemma NextPhase(v: View, e: Event, svc: Service, g: int, p: int, phase: Phase)
    requires InPhase(v, svc, g, p, phase) && Unchanged(e, e.key, svc, g, p)
    ensures var phase' := if Speaks(e) then Move(phase, p, SignalOf(e, v.defaultRemote)) else phase;
            InPhase(Next(v, e).view, svc, g, p, phase')
  {
    if Speaks(e) {
      if e.Metric? {
        MetricPhase(v, e, svc, g, p, phase);
      } else if e.healthy {
        HealthyPhase(v, e, svc, g, p, phase);
      } else {
        UnhealthyPhase(v, e, svc, g, p, phase);
      }
    } else {
      QuietStep(v, e, g);
    }
  }

  lemma QuietStep(v: View, e: Event, g: int)
    requires v.managed == Some(Managed(true, g)) && !Speaks(e)
    requires e.Reconcile? && e.read.Some? ==>
               !Finalizes(e.read.value) && (Updates(e.read.value) ==> e.read.value.generation == g)
    ensures Next(v, e).view == v
  {
  }

  lemma {:induction false} RunPhase(s: State, es: seq<Event>, k: Key, svc: Service, g: int, p: int)
    requires InPhase(Read(s, k), svc, g, p, Home)
    requires forall e | e in es :: Unchanged(e, k, svc, g, p)
    ensures var t := Run(s, es);
            && t.defaultRemote == s.defaultRemote
            && InPhase(Read(t, k), svc, g, p, After(p, Signals(es, k, s.defaultRemote)))
  {
    if es != [] {
      var init, e := es[..|es| - 1], es[|es| - 1];
      assert e in es;
      RunPhase(s, init, k, svc, g, p);
      var t := Run(s, init);
      var v := Read(t, e.key);
      NextDefault(v, e);
      if e.key == k {
        var ss := Signals(init, k, s.defaultRemote);
        NextPhase(v, e, svc, g, p, After(p, ss));
        ReadOwn(t, k, Next(v, e).view);
        if Speaks(e) {
          assert (ss + [SignalOf(e, s.defaultRemote)])[..|ss|] == ss;
        }
      } else {
        Lifecycle.NextRegistry(v, e, svc);
        ReadOther(t, e.key, Next(v, e).view, k);
      }
    }
  }

  lemma SuccessInstalls(v: View, k: Key, m: Model, r: ReconcileReply)
    requires Updates(m) && ReconcileModel(v, k, m, r).outcome.Succeeded? && m.enabled && m.config.Some?
    ensures m.service.Some?
    ensures InPhase(
              ReconcileModel(v, k, m, r).view, m.service.value.service, m.generation, m.config.value.percentage, Home)
  {
  }

  /** After a successful reconciliation of an enabled model with an offloading config, its share, its health and its
      route follow the phases through every run until the model changes, whatever fails and whatever happens to
      other models. */
  lemma RunFollowsPhases(s: State, e: Event, es: seq<Event>, k: Key)
    requires Lifecycle.UpdatesModel(e, k) && Next(Read(s, k), e).outcome.Succeeded?
    requires e.read.value.enabled && e.read.value.config.Some?
    requires var m := e.read.value;
             m.service.Some? ==>
               forall l | l in es :: Unchanged(l, k, m.service.value.service, m.generation, m.config.value.percentage)
    ensures var p, v := e.read.value.config.value.percentage, Read(Run(Apply(s, e), es), k);
            var phase := After(p, Signals(es, k, s.defaultRemote));
            && RoutedAt(v, Share(phase, p))
            && v.ongoing == (if phase.Left() then None else Some(Share(phase, p)))
            && (v.health == Some(false) <==> phase.Down?)
  {
    var m, v := e.read.value, Read(s, k);
    SuccessInstalls(v, k, m, e.reply);
    NextDefault(v, e);
    ReadOwn(s, k, Next(v, e).view);
    RunPhase(Apply(s, e), es, k, m.service.value.service, m.generation, m.config.value.percentage);
  }

  // ----- what events can no longer achieve -----

  /** The event is a metric event or a healthy one for `k`, or concerns a model of another name. */
  predicate NoNewStart(e: Event, k: Key) {
    if e.key == k then e.Metric? || (e.Health? && e.healthy) else e.key.name != k.name
  }

  lemma {:induction false} WithoutEntryNothing(s: State, es: seq<Event>, k: Key)
    requires k !in s.ongoing && forall e | e in es :: NoNewStart(e, k)
    ensures SameModel(Read(Run(s, es), k), Read(s, k))
  {
    if es != [] {
      var init, e := es[..|es| - 1], es[|es| - 1];
      assert e in es;
      WithoutEntryNothing(s, init, k);
      var t := Run(s, init);
      var v := Read(t, e.key);
      if e.key == k {
        assert Next(v, e).view == v;
        WriteUnchanged(t, k);
      } else {
        ReadOther(t, e.key, Next(v, e).view, k);
      }
    }
  }

  /** Once a model has fallen back, it stays at zero: no run of metric and healthy events offloads it again, however
      often its metrics are reached; only an unhealthy event or a new reconciliation can. */
  lemma FallbackIsFinal(s: State, k: Key, m: Model, o: OffloadReply, es: seq<Event>)
    requires Reroutable(Read(s, k), m, o) && k in s.ongoing && s.ongoing[k] != 0
    requires k in s.modelState ==> s.modelState[k]
    requires forall e | e in es :: NoNewStart(e, k)
    ensures var t := Run(Apply(s, Metric(k, false, Some(m), o)), es);
            RoutedAt(Read(t, k), 0) && k !in t.ongoing
  {
    var e := Metric(k, false, Some(m), o);
    ReadOwn(s, k, Next(Read(s, k), e).view);
    WithoutEntryNothing(Apply(s, e), es, k);
  }

  /** A healthy event for `k` reads a configured share of 100; no event reconciles `k` or is about a namesake. */
  predicate FullShare(e: Event, k: Key) {
    if e.key == k then
      && !e.Reconcile? && (e.Health? ==> e.healthy)
      && (e.Health? && e.read.Some? && e.read.value.config.Some? ==> e.read.value.config.value.percentage == 100)
    else e.key.name != k.name
  }

  lemma FullShareStep(v: View, e: Event)
    requires v.health == Some(false) && v.ongoing == Some(100) && FullShare(e, e.key)
    ensures Next(v, e).view == v
  {
    if e.read.Some? && e.read.value.config.Some? {
      if e.Health? {
        assert HealthCallback(v, e.key, e.read.value, true, e.offload) == Local(v, Handled);
      } else {
        assert MetricCallback(v, e.key, e.read.value, e.reached, e.offload) == Local(v, Handled);
      }
    }
  }

  /** With a configured share of 100, no run of healthy and metric events lifts the unhealthy state, whatever the
      calls answer: the recovered model stays remote until it is reconciled. */
  lemma {:induction false} FullShareStaysDown(s: State, es: seq<Event>, k: Key)
    requires k in s.modelState && !s.modelState[k] && k in s.ongoing && s.ongoing[k] == 100
    requires forall e | e in es :: FullShare(e, k)
    ensures SameModel(Read(Run(s, es), k), Read(s, k))
  {
    if es != [] {
      var init, e := es[..|es| - 1], es[|es| - 1];
      assert e in es;
      FullShareStaysDown(s, init, k);
      var t := Run(s, init);
      var v := Read(t, e.key);
      if e.key == k {
        FullShareStep(v, e);
        WriteUnchanged(t, k);
      } else {
        ReadOther(t, e.key, Next(v, e).view, k);
      }
    }
  }

  // ----- finalizers -----

  /** A finalizer that ran to its end leaves neither entries nor a claim. It takes the service and the route along
      exactly when the model still has its offloading config and, for the route, when the offloader tracks it. */
  lemma FinalizedCleans(v: View, k: Key, m: Model, r: ReconcileReply, svc: Service)
    requires Finalizes(m) && ReconcileModel(v, k, m, r).outcome.Finalized?
    ensures var v' := ReconcileModel(v, k, m, r).view;
            && Wiped(v') && ClaimKey(m) !in v'.claims
            && (v'.cell.route.None? <==> v.cell.route.None? || (m.config.Some? && v.cell.tracked))
            && (v'.cell.tracked <==> v.cell.tracked && m.config.None?)
            && (svc in v'.registry <==>
                  svc in v.registry && !(m.config.Some? && m.service.Some? && m.service.value.service == svc))
  {
  }
}
