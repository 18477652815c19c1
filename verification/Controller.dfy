/** The steps of the model-deployment controller, as functions of its state and of what the outside world
    answers. A step is one reconciliation or one health or metric event, and is atomic. */
module Controller {
  import opened Common
  import opened Deployments
  import opened LocalServices
  import opened Dataplane
  import opened RouteTable

  datatype Managed = Managed(healthy: bool, lastGeneration: int)

  /** `ongoing` holds the share sent to the remote backend, `modelState` the health the controller acts on,
      `claims` which deployment owns a remote model, `registry` the services taken over by the configurer, and
      `watched` those it ever watched. */
  datatype State = State(
    ongoing: map<Key, int>,
    modelState: map<Key, bool>,
    managed: map<Key, Managed>,
    claims: map<string, string>,
    registry: Registry,
    watched: set<Service>,
    plane: Plane,
    defaultRemote: Option<RemoteBackend>)

  function Init(defaultRemote: Option<RemoteBackend>): State {
    State(map[], map[], map[], map[], map[], {}, Plane({}, "", EMPTY), defaultRemote)
  }

  /** The state as a step on one model sees it: that model's entries, and what all models share. */
  datatype View = View(
    ongoing: Option<int>,
    health: Option<bool>,
    managed: Option<Managed>,
    cell: Cell,
    claims: map<string, string>,
    registry: Registry,
    watched: set<Service>,
    defaultRemote: Option<RemoteBackend>)

  function Get<V>(m: map<Key, V>, k: Key): Option<V> { if k in m then Some(m[k]) else None }

  function Set<V>(m: map<Key, V>, k: Key, v: Option<V>): map<Key, V> {
    if v.Some? then m[k := v.value] else m - {k}
  }

  function Read(s: State, k: Key): View {
    View(
      Get(s.ongoing, k), Get(s.modelState, k), Get(s.managed, k), ReadCell(s.plane, k.name),
      s.claims, s.registry, s.watched, s.defaultRemote)
  }

  function Write(s: State, k: Key, v: View): State {
    State(
      Set(s.ongoing, k, v.ongoing), Set(s.modelState, k, v.health), Set(s.managed, k, v.managed),
      v.claims, v.registry, v.watched, WriteCell(s.plane, k.name, v.cell), v.defaultRemote)
  }

  /** The answers met by one reconciliation: `lookups` before the remote model is claimed (port lookups and
      conversion), `publish` on the remote control plane, then the dataplane's, then the status update;
      `retire` is the remote deletion of a finalized model. */
  datatype ReconcileReply = ReconcileReply(
    lookups: Call,
    publish: Call,
    workspace: string,
    unconfigure: UnconfigureReply,
    deleteOk: bool,
    configure: ConfigureReply,
    offload: OffloadReply,
    status: Call,
    retire: Call)

  /** `read` is the object that the API server returns for `key`, if any. */
  datatype Event =
    | Reconcile(key: Key, read: Option<Model>, reply: ReconcileReply)
    | Health(key: Key, healthy: bool, read: Option<Model>, offload: OffloadReply)
    | Metric(key: Key, reached: bool, read: Option<Model>, offload: OffloadReply)

  datatype Outcome =
    | Ignored          // nothing to do, or the object could not be read
    | NotOwner         // another deployment claims the remote model
    | SameGeneration   // skipped: this generation is already in place
    | Succeeded
    | Requeued         // failed with a conflict
    | Errored          // failed with any other error
    | Panicked
    | Finalized
    | FinalizeFailed
    | Handled          // an event's callback returned no error
    | HandlerFailed

  /** What a step makes of the view it works on. */
  datatype Local = Local(view: View, outcome: Outcome)

  function OutcomeOf(f: Finish): Outcome {
    match f
    case Success => Succeeded
    case ConflictError => Requeued
    case OtherError => Errored
    case Panic => Panicked
  }

  function HandlerOutcome(f: Finish): Outcome {
    match f
    case Success => Handled
    case Panic => Panicked
    case _ => HandlerFailed
  }

  function ClaimKey(m: Model): string { m.environment + "/" + m.remoteModel }

  function RemoteOf(v: View, c: OffloadingConfig): Option<RemoteBackend> {
    if c.remote.Some? then c.remote else v.defaultRemote
  }

  /** The view without the model's entries in the three maps. */
  function Forget(v: View): View { v.(ongoing := None, health := None, managed := None) }

  /** Takes the model's service and route down. */
  function TearDown(v: View, svc: Service, r: ReconcileReply): Local {
    var u := Unconfigure(v.registry, v.watched, svc, r.unconfigure);
    var v1 := v.(registry := u.registry, watched := u.watched);
    if !u.finish.Success? then Local(v1, OutcomeOf(u.finish))
    else
      var c := Cleanup(v1.cell, r.deleteOk);
      Local(v1.(cell := c.cell), OutcomeOf(c.finish))
  }

  /** Takes the service over and installs a route that sends everything to the local backend. The maps are
      written before the route is. */
  function SetUp(v: View, k: Key, m: Model, ref: ServiceRef, c: OffloadingConfig, r: ReconcileReply): Local {
    var t := LocalServices.Configure(v.registry, v.watched, ref.service, r.configure);
    var v1 := v.(registry := t.registry, watched := t.watched);
    if !t.finish.Success? then Local(v1, OutcomeOf(t.finish))
    else
      var v2 := v1.(ongoing := Some(0), health := Some(true));
      var local := ref.(service := BeamlitService(ref.service));
      var o := Dataplane.Configure(v2.cell, k.name, m, ref.service, local, RemoteOf(v2, c), 0, r.offload);
      Local(v2.(cell := o.cell), OutcomeOf(o.finish))
  }

  function ConfigureOffloading(v: View, k: Key, m: Model, r: ReconcileReply): Local {
    if m.service.None? then Local(v, Panicked)
    else
      var down := TearDown(v, m.service.value.service, r);
      if !down.outcome.Succeeded? then down
      else
        var v1 := Forget(down.view);
        if !m.enabled || m.config.None? then Local(v1, Succeeded)
        else SetUp(v1, k, m, m.service.value, m.config.value, r)
  }

  function CreateOrUpdate(v: View, k: Key, m: Model, r: ReconcileReply): Local {
    if ClaimKey(m) in v.claims && v.claims[ClaimKey(m)] != k.name then Local(v, NotOwner)
    else if v.managed.Some? && v.managed.value.lastGeneration == m.generation then Local(v, SameGeneration)
    else if !r.lookups.Done? then Local(v, OutcomeOf(FinishOf(r.lookups)))
    else
      var v1 := v.(claims := v.claims[ClaimKey(m) := k.name]);
      if !r.publish.Done? then Local(v1, OutcomeOf(FinishOf(r.publish)))
      else
        var c := ConfigureOffloading(v1, k, m.(workspace := r.workspace), r);
        if !c.outcome.Succeeded? then c
        else if !r.status.Done? then Local(c.view, OutcomeOf(FinishOf(r.status)))
        else Local(c.view.(managed := Some(Managed(true, m.generation))), Succeeded)
  }

  /** The maps are cleared before anything can fail. */
  function Finalize(v: View, m: Model, r: ReconcileReply): Local {
    var v1 := Forget(v).(claims := v.claims - {ClaimKey(m)});
    if m.config.None? then Local(v1, Finalized)
    else if m.service.None? then Local(v1, Panicked)
    else
      var down := TearDown(v1, m.service.value.service, r);
      Local(down.view, if down.outcome.Succeeded? && r.retire.Done? then Finalized else FinalizeFailed)
  }

  predicate Finalizes(m: Model) { m.deleting && m.finalizer }

  /** The reconciliation gets to create or update the model. */
  predicate Updates(m: Model) { !m.deleting && m.finalizer }

  /** An error other than a conflict wipes the three maps. */
  function ReconcileModel(v: View, k: Key, m: Model, r: ReconcileReply): Local {
    if Finalizes(m) then Finalize(v, m, r)
    else if !Updates(m) then Local(v, Ignored)
    else
      var c := CreateOrUpdate(v, k, m, r);
      if c.outcome.Errored? then Local(Forget(c.view), Errored) else c
  }

  /** Looks the local service up and writes the route with a new weight. */
  function Reroute(v: View, k: Key, m: Model, weight: int, o: OffloadReply): Local
    requires m.config.Some?
  {
    if m.service.None? then Local(v, Panicked)
    else
      var local := LocalOf(v.registry, m.service.value);
      if local.None? then Local(v, HandlerFailed)
      else
        var p := Dataplane.Configure(
          v.cell, k.name, m, m.service.value.service, local.value, RemoteOf(v, m.config.value), weight, o);
        Local(v.(cell := p.cell), HandlerOutcome(p.finish))
  }

  function MetricCallback(v: View, k: Key, m: Model, reached: bool, o: OffloadReply): Local
    requires m.config.Some?
  {
    if v.health == Some(false) || v.ongoing.None? then Local(v, Handled)
    else if !reached then
      if v.ongoing.value == 0 then Local(v, Handled)
      else Reroute(v.(ongoing := None), k, m, 0, o)
    else
      var p := m.config.value.percentage;
      if v.ongoing.value == p then Local(v, Handled)
      else
        var c := Reroute(v, k, m, p, o);
        if c.outcome.Handled? then Local(c.view.(ongoing := Some(p)), Handled) else c
  }

  function HealthCallback(v: View, k: Key, m: Model, healthy: bool, o: OffloadReply): Local
    requires m.config.Some?
  {
    var p := if healthy then m.config.value.percentage else 100;
    if healthy && (v.ongoing.None? || v.ongoing.value == p) then Local(v, Handled)
    else
      var c := Reroute(v, k, m, p, o);
      if c.outcome.Handled? then Local(c.view.(ongoing := Some(p), health := Some(healthy)), Handled) else c
  }

  /** Events count only for managed models; a model without offloading config is dereferenced in vain. */
  function Next(v: View, e: Event): Local {
    if e.read.None? then Local(v, Ignored)
    else
      var k, m := e.key, e.read.value;
      match e
      case Reconcile(_, _, r) => ReconcileModel(v, k, m, r)
      case Health(_, healthy, _, o) =>
        if v.managed.None? then Local(v, Ignored)
        else if m.config.None? then Local(v, Panicked)
        else HealthCallback(v, k, m, healthy, o)
      case Metric(_, reached, _, o) =>
        if v.managed.None? || !v.managed.value.healthy then Local(v, Ignored)
        else if m.config.None? then Local(v, Panicked)
        else MetricCallback(v, k, m, reached, o)
  }

  /** One step of the whole controller. */
  function Apply(s: State, e: Event): State { Write(s, e.key, Next(Read(s, e.key), e).view) }

  /** The state after a run of events. */
  function Run(s: State, es: seq<Event>): State {
    if es == [] then s else Apply(Run(s, es[..|es| - 1]), es[|es| - 1])
  }

  /** What came of event `i` of a run. */
  function OutcomeAt(s: State, es: seq<Event>, i: nat): Outcome
    requires i < |es|
  {
    Next(Read(Run(s, es[..i]), es[i].key), es[i]).outcome
  }
}
