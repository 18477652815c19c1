/** What holds in every state that the controller can reach, whatever fails on the way. */
module Reachability {
  import opened Common
  import opened Deployments
  import opened Routes
  import opened WeightedDraw
  import opened Dataplane
  import opened Controller

  // ----- reading back what a step wrote -----

  lemma ReadOwn(s: State, k: Key, v: View)
    ensures Read(Write(s, k, v), k) == v
  {
  }

  lemma WriteUnchanged(s: State, k: Key)
    ensures Write(s, k, Read(s, k)) == s
  {
  }

  /** Two views hold the same entries and the same route for a model. */
  predicate SameModel(v: View, w: View) {
    && v.ongoing == w.ongoing && v.health == w.health && v.managed == w.managed
    && v.cell.tracked == w.cell.tracked && v.cell.route == w.cell.route
  }

  /** A step leaves every model of another name alone. */
  lemma ReadOther(s: State, k: Key, v: View, other: Key)
    requires other.name != k.name
    ensures SameModel(Read(Write(s, k, v), other), Read(s, other))
  {
  }

  // ----- what every step keeps, for the model it works on -----

  /** An entry in `ongoing` is a percentage, and the weight of the stored route. */
  predicate Agrees(v: View) {
    v.ongoing.Some? ==>
      && 0 <= v.ongoing.value <= 100
      && v.cell.route.Some? && Weights(v.cell.route.value.backends) == Split(v.ongoing.value)
  }

  /** A model held to be unhealthy is offloaded entirely. */
  predicate FullWhenUnhealthy(v: View) { v.health == Some(false) ==> v.ongoing == Some(100) }

  /** Its stored route sends everything to the remote backend too. */
  predicate RemoteWhenUnhealthy(v: View) {
    v.health == Some(false) ==>
      v.ongoing == Some(100) && v.cell.route.Some? && Weights(v.cell.route.value.backends) == Split(100)
  }

  /** What can happen to the controller: the models there may be, its default remote backend, whether the service
      lookup of a reconciliation may answer with a conflict, whether an offloading config may leave the remote
      backend out, whether the gateway may fail to delete a route, and whether a deployment may lose its offloading
      config before it is deleted. */
  datatype World = World(
    models: set<Key>, defaultRemote: Option<RemoteBackend>, readsConflict: bool, remotesOmitted: bool,
    deletesFail: bool, configsDropped: bool)

  predicate Possible(w: World, e: Event) {
    && e.key in w.models
    && (e.Reconcile? && !w.readsConflict ==> !e.reply.offload.read.Conflict?)
    && (e.Reconcile? && !w.deletesFail ==> e.reply.deleteOk)
    && (e.read.Some? && e.read.value.config.Some? && !w.remotesOmitted ==> e.read.value.config.value.remote.Some?)
  }

  predicate PossibleRun(w: World, es: seq<Event>) { forall e | e in es :: Possible(w, e) }

  /** A route can always be written or its failure is a plain error. */
  predicate Writable(w: World) { !w.readsConflict && (w.defaultRemote.Some? || !w.remotesOmitted) }

  lemma RerouteAgrees(v: View, k: Key, m: Model, weight: int, o: OffloadReply)
    requires m.config.Some? && Agrees(v) && 0 <= weight <= 100
    ensures var c := Reroute(v, k, m, weight, o);
            && (c.outcome.Handled? ==> Agrees(c.view.(ongoing := Some(weight))))
            && (!c.outcome.Handled? ==> Agrees(c.view))
            && c.view.ongoing == v.ongoing && c.view.health == v.health
  {
  }

  lemma SetUpAgrees(v: View, k: Key, m: Model, ref: ServiceRef, c: OffloadingConfig, r: ReconcileReply)
    requires v.ongoing.None? && !r.offload.read.Conflict? && RemoteOf(v, c).Some?
    ensures var t := SetUp(v, k, m, ref, c, r); t.outcome.Errored? || Agrees(t.view)
    ensures var t := SetUp(v, k, m, ref, c, r); t.view.health == v.health || t.view.health == Some(true)
  {
  }

  lemma ReconcileAgrees(v: View, k: Key, m: Model, r: ReconcileReply)
    requires Agrees(v) && !r.offload.read.Conflict?
    requires m.config.Some? ==> RemoteOf(v, m.config.value).Some?
    ensures Agrees(ReconcileModel(v, k, m, r).view)
  {
    if Updates(m) && m.service.Some? {
      var v1 := v.(claims := v.claims[ClaimKey(m) := k.name]);
      var down := TearDown(v1, m.service.value.service, r);
      assert down.outcome.Requeued? ==> down.view.cell == v.cell;
      if m.config.Some? {
        SetUpAgrees(Forget(down.view), k, m.(workspace := r.workspace), m.service.value, m.config.value, r);
      }
    }
  }

  lemma NextAgrees(v: View, e: Event)
    requires Agrees(v)
    requires e.Reconcile? ==> !e.reply.offload.read.Conflict?
    requires e.read.Some? && e.read.value.config.Some? ==> RemoteOf(v, e.read.value.config.value).Some?
    ensures Agrees(Next(v, e).view)
  {
    if e.read.Some? {
      var k, m := e.key, e.read.value;
      match e
      case Reconcile(_, _, r) => ReconcileAgrees(v, k, m, r);
      case Health(_, healthy, _, o) =>
        if m.config.Some? {
          RerouteAgrees(v, k, m, if healthy then m.config.value.percentage else 100, o);
        }
      case Metric(_, reached, _, o) =>
        if m.config.Some? {
          RerouteAgrees(v, k, m, m.config.value.percentage, o);
          RerouteAgrees(v.(ongoing := None), k, m, 0, o);
        }
    }
  }

  // ----- how a reconciliation leaves the three maps -----

  /** The model has no entry in the three maps. */
  predicate Wiped(v: View) { v.ongoing.None? && v.health.None? && v.managed.None? }

  /** The model has just been set up. */
  predicate Fresh(v: View) { v.ongoing == Some(0) && v.health == Some(true) }

  predicate SameEntries(v: View, w: View) {
    v.ongoing == w.ongoing && v.health == w.health && v.managed == w.managed
  }

  /** The reconciliation of a live model got past the ownership and generation checks. */
  predicate Attempted(o: Outcome) { o.Succeeded? || o.Requeued? || o.Errored? || o.Panicked? }

  lemma ConfigureEntries(v: View, k: Key, m: Model, r: ReconcileReply)
    ensures var t := ConfigureOffloading(v, k, m, r);
            && t.view.defaultRemote == v.defaultRemote && Attempted(t.outcome)
            && (SameEntries(t.view, v) || t.view.managed.None?)
            && (SameEntries(t.view, v) || Wiped(t.view) || Fresh(t.view))
            && (t.outcome.Succeeded? ==> t.view.managed.None? && (Wiped(t.view) || Fresh(t.view)))
            && (t.outcome.Succeeded? && !m.enabled ==>
                  Wiped(t.view) && m.service.Some? && m.service.value.service !in t.view.registry)
  {
  }

  lemma CreateEntries(v: View, k: Key, m: Model, r: ReconcileReply)
    ensures var t := CreateOrUpdate(v, k, m, r);
            && t.view.defaultRemote == v.defaultRemote
            && (Attempted(t.outcome) || ((t.outcome.NotOwner? || t.outcome.SameGeneration?) && t.view == v))
            && (Attempted(t.outcome) ==> v.managed.None? || v.managed.value.lastGeneration != m.generation)
            && (t.outcome.SameGeneration? ==> v.managed.Some? && v.managed.value.lastGeneration == m.generation)
            && (SameEntries(t.view, v) || Wiped(t.view.(managed := None)) || Fresh(t.view))
            && (if t.outcome.Succeeded? then t.view.managed == Some(Managed(true, m.generation))
                else t.view.managed == v.managed || t.view.managed.None?)
            && (t.outcome.Succeeded? && !m.enabled ==>
                  t.view.ongoing.None? && m.service.Some? && m.service.value.service !in t.view.registry)
  {
    var v1 := v.(claims := v.claims[ClaimKey(m) := k.name]);
    ConfigureEntries(v1, k, m.(workspace := r.workspace), r);
  }

  /** An update leaves the entries as they were, wipes them, or makes them those of a model just set up; only a
      success makes the model managed, at the generation it was given. */
  lemma UpdateEntries(v: View, k: Key, m: Model, r: ReconcileReply)
    requires Updates(m)
    ensures var t := ReconcileModel(v, k, m, r);
            && t.view.defaultRemote == v.defaultRemote
            && (!Attempted(t.outcome) ==> t.view == v)
            && (Attempted(t.outcome) ==>
                  v.managed.None? || v.managed.value.lastGeneration != m.generation)
            && (t.outcome.SameGeneration? ==>
                  v.managed.Some? && v.managed.value.lastGeneration == m.generation)
            && (SameEntries(t.view, v) || Wiped(t.view.(managed := None)) || Fresh(t.view))
            && (t.outcome.Errored? ==> Wiped(t.view))
            && (if t.outcome.Succeeded? then t.view.managed == Some(Managed(true, m.generation))
                else t.view.managed == v.managed || t.view.managed.None?)
            && (t.outcome.Succeeded? && !m.enabled ==>
                  t.view.ongoing.None? && m.service.Some? && m.service.value.service !in t.view.registry)
            && !t.outcome.Finalized? && !t.outcome.FinalizeFailed? && !t.outcome.Handled? && !t.outcome.HandlerFailed?
  {
    CreateEntries(v, k, m, r);
  }

  /** A finalize attempt wipes the entries, however it ends. */
  lemma FinalizeEntries(v: View, k: Key, m: Model, r: ReconcileReply)
    requires Finalizes(m)
    ensures var t := ReconcileModel(v, k, m, r);
            && Wiped(t.view) && t.view.defaultRemote == v.defaultRemote
            && !t.outcome.SameGeneration? && !t.outcome.Succeeded?
  {
  }

  lemma NextFull(v: View, e: Event)
    requires FullWhenUnhealthy(v)
    ensures FullWhenUnhealthy(Next(v, e).view)
  {
    if e.read.Some? && e.Reconcile? {
      if Updates(e.read.value) {
        UpdateEntries(v, e.key, e.read.value, e.reply);
      } else if Finalizes(e.read.value) {
        FinalizeEntries(v, e.key, e.read.value, e.reply);
      }
    }
  }

  lemma ConfigureRemote(v: View, k: Key, m: Model, r: ReconcileReply)
    requires RemoteWhenUnhealthy(v)
    ensures var t := ConfigureOffloading(v, k, m, r); t.outcome.Errored? || RemoteWhenUnhealthy(t.view)
  {
  }

  /** The route leaves the remote backend only together with the unhealthy entry. */
  lemma NextRemote(v: View, e: Event)
    requires RemoteWhenUnhealthy(v)
    ensures RemoteWhenUnhealthy(Next(v, e).view)
  {
    if e.read.Some? && e.Reconcile? {
      var m := e.read.value;
      ConfigureRemote(
        v.(claims := v.claims[ClaimKey(m) := e.key.name]), e.key, m.(workspace := e.reply.workspace), e.reply);
    }
  }

  lemma NextDefault(v: View, e: Event)
    ensures Next(v, e).view.defaultRemote == v.defaultRemote
  {
    if e.read.Some? && e.Reconcile? {
      if Updates(e.read.value) {
        UpdateEntries(v, e.key, e.read.value, e.reply);
      } else if Finalizes(e.read.value) {
        FinalizeEntries(v, e.key, e.read.value, e.reply);
      }
    }
  }
}
