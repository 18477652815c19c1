/** The controller's guarantees over whole runs. */
module Runs {
  import opened Common
  import opened Deployments
  import opened LocalServices
  import opened Routes
  import opened WeightedDraw
  import opened Dataplane
  import opened Controller
  import opened Reachability
  import Failover

  lemma PrefixPossible(w: World, es: seq<Event>)
    requires PossibleRun(w, es) && es != []
    ensures PossibleRun(w, es[..|es| - 1]) && Possible(w, es[|es| - 1])
  {
  }

  lemma NoModelsNoEvents(w: World, es: seq<Event>)
    requires PossibleRun(w, es)
    ensures es != [] ==> w.models != {}
  {
    if es != [] {
      assert es[0] in es;
    }
  }

  predicate UniqueNames(ks: set<Key>) {
    forall k, k' | k in ks && k' in ks :: k.name == k'.name ==> k == k'
  }

  // ----- weights -----

  /** Every entry of `ongoing` is the weight of the model's stored route. */
  ghost predicate WeightsAgree(s: State) { forall k | k in s.ongoing :: Agrees(Read(s, k)) }

  /** The invariant behind it, over all possible models. */
  ghost predicate Sound(w: World, s: State) {
    && s.ongoing.Keys <= w.models && s.defaultRemote == w.defaultRemote
    && forall k | k in w.models :: Agrees(Read(s, k))
  }

  lemma ApplySound(w: World, s: State, e: Event)
    requires Sound(w, s) && Possible(w, e) && UniqueNames(w.models) && Writable(w)
    ensures Sound(w, Apply(s, e))
  {
    var v := Read(s, e.key);
    NextAgrees(v, e);
    NextDefault(v, e);
    var v' := Next(v, e).view;
    var s' := Write(s, e.key, v');
    ReadOwn(s, e.key, v');
    forall k | k in w.models ensures Agrees(Read(s', k)) {
      if k != e.key {
        ReadOther(s, e.key, v', k);
      }
    }
  }

  lemma {:induction false} RunSound(w: World, es: seq<Event>)
    requires PossibleRun(w, es) && UniqueNames(w.models) && Writable(w)
    ensures Sound(w, Run(Init(w.defaultRemote), es))
  {
    if es != [] {
      PrefixPossible(w, es);
      RunSound(w, es[..|es| - 1]);
      ApplySound(w, Run(Init(w.defaultRemote), es[..|es| - 1]), es[|es| - 1]);
    }
  }

  /** In every possible run, a model's entry is the exact number of first draws, out of 100, that its stored route
      sends to the remote backend. */
  lemma OngoingIsShare(w: World, es: seq<Event>, k: Key, r: Failover.Request, random: nat)
    requires PossibleRun(w, es) && UniqueNames(w.models) && Writable(w)
    requires k in Run(Init(w.defaultRemote), es).ongoing
    ensures var s := Run(Init(w.defaultRemote), es);
            && k.name in s.plane.gateway.routes
            && var bs := s.plane.gateway.routes[k.name].backends;
            var ws := Weights(Failover.Candidates(Failover.First, bs, r, |bs|));
            && |bs| == |ws| == 2 && Total(ws) == 100 && |DrawsFor(ws, 1)| == s.ongoing[k]
            && (random in DrawsFor(ws, 1) ==>
                  var o := Failover.Try(r, Failover.Attempt(Failover.First, Some(bs), random, true)).outcome;
                  o.Out? && o.sent.backend == bs[1])
  {
    RunSound(w, es);
    var s := Run(Init(w.defaultRemote), es);
    assert Agrees(Read(s, k));
    var bs := s.plane.gateway.routes[k.name].backends;
    PercentageSplit(s.ongoing[k]);
    Failover.FirstShare(bs, r, 1, random, true);
  }

  // ----- health -----

  ghost predicate HealthSound(s: State) { forall k | k in s.modelState :: FullWhenUnhealthy(Read(s, k)) }

  lemma ApplyHealthSound(s: State, e: Event)
    requires HealthSound(s)
    ensures HealthSound(Apply(s, e))
  {
    var v := Read(s, e.key);
    NextFull(v, e);
    var v' := Next(v, e).view;
    ReadOwn(s, e.key, v');
    forall k | k in Apply(s, e).modelState ensures FullWhenUnhealthy(Read(Apply(s, e), k)) {
      if k != e.key {
        assert FullWhenUnhealthy(Read(s, k));
      }
    }
  }

  lemma {:induction false} RunHealthSound(r: Option<RemoteBackend>, es: seq<Event>)
    ensures HealthSound(Run(Init(r), es))
  {
    if es != [] {
      RunHealthSound(r, es[..|es| - 1]);
      ApplyHealthSound(Run(Init(r), es[..|es| - 1]), es[|es| - 1]);
    }
  }

  // ----- exactly when the weights agree -----

  const SAMPLE_SERVICE := Service("n", "s")

  /** A live, enabled model with an offloading config. */
  function Sample(remote: Option<RemoteBackend>): Model {
    Model(1, false, true, "e", "m", true, Some(ServiceRef(SAMPLE_SERVICE, 80)),
          Some(OffloadingConfig(remote, 50)), "")
  }

  const SOME_REMOTE := Some(RemoteBackend("r", "http", "", false))

  /** Every call succeeds, save for what the service lookup and the gateway's deletion answer. */
  function Smooth(read: Call, deleteOk: bool): ReconcileReply {
    ReconcileReply(
      Done, Done, "", UnconfigureReply(Done, true), deleteOk, ConfigureReply(Done, Watched),
      OffloadReply(read, "", true), Done, Done)
  }

  function FirstReconcile(k: Key, remote: Option<RemoteBackend>, read: Call): Event {
    Reconcile(k, Some(Sample(remote)), Smooth(read, true))
  }

  lemma FirstReconcileResult(d: Option<RemoteBackend>, k: Key, remote: Option<RemoteBackend>, read: Call)
    requires read.Done? || read.Conflict?
    ensures var v := Read(Apply(Init(d), FirstReconcile(k, remote, read)), k);
            && v.ongoing == Some(0)
            && (read.Done? && (remote.Some? || d.Some?) ==>
                  && v.cell.tracked && v.cell.route.Some? && v.managed == Some(Managed(true, 1))
                  && SAMPLE_SERVICE in v.registry && SAMPLE_SERVICE in v.watched)
            && (read.Conflict? || (remote.None? && d.None?) ==> v.cell.route.None?)
  {
    var e := FirstReconcile(k, remote, read);
    var v := Read(Init(d), k);
    ReadOwn(Init(d), k, Next(v, e).view);
    assert v.cell == Cell(false, None, "", map[], map[]);
    var v1 := v.(claims := map[ClaimKey(Sample(remote)) := k.name]);
    assert TearDown(v1, SAMPLE_SERVICE, e.reply) == Local(v1, Succeeded);
  }

  lemma RunOne(s: State, e: Event)
    ensures Run(s, [e]) == Apply(s, e)
  {
  }

  lemma RunSnoc(s: State, es: seq<Event>, e: Event)
    ensures Run(s, es + [e]) == Apply(Run(s, es), e)
  {
  }

  lemma PossibleSnoc(w: World, es: seq<Event>, e: Event)
    requires PossibleRun(w, es) && Possible(w, e)
    ensures PossibleRun(w, es + [e])
  {
  }

  /** A run that sets a model up. */
  lemma SetUpRun(w: World, k: Key) returns (es: seq<Event>)
    requires k in w.models
    ensures PossibleRun(w, es) && forall e | e in es :: e == FirstReconcile(k, SOME_REMOTE, Done)
    ensures var v := Read(Run(Init(w.defaultRemote), es), k);
            && v.ongoing == Some(0) && v.managed.Some?
            && v.cell.tracked && v.cell.route.Some? && SAMPLE_SERVICE in v.registry && SAMPLE_SERVICE in v.watched
  {
    var e := FirstReconcile(k, SOME_REMOTE, Done);
    es := [e];
    RunOne(Init(w.defaultRemote), e);
    FirstReconcileResult(w.defaultRemote, k, SOME_REMOTE, Done);
  }

  /** The finalization of the sample model, with the gateway deleting its route or failing to. */
  function LastReconcile(k: Key, deleteOk: bool): Event {
    Reconcile(k, Some(Sample(SOME_REMOTE).(deleting := true)), Smooth(Done, deleteOk))
  }

  lemma LastReconcileResult(s: State, k: Key, deleteOk: bool)
    requires Read(s, k).cell.tracked && Read(s, k).cell.route.Some? && SAMPLE_SERVICE in s.watched
    ensures var s' := Apply(s, LastReconcile(k, deleteOk));
            && s'.watched == s.watched
            && k.name !in s'.plane.managedRoutes
            && (k.name in s'.plane.gateway.routes <==> !deleteOk)
            && forall k' | k' != k ::
                 Get(s'.ongoing, k') == Get(s.ongoing, k') && Get(s'.modelState, k') == Get(s.modelState, k')
  {
  }

  /** Where no route can be written, a first reconciliation leaves an entry without a route. */
  lemma UnwritableBreaks(w: World) returns (es: seq<Event>)
    requires w.models != {} && !Writable(w)
    ensures PossibleRun(w, es) && !WeightsAgree(Run(Init(w.defaultRemote), es))
  {
    var k :| k in w.models;
    var e := if w.readsConflict then FirstReconcile(k, SOME_REMOTE, Conflict) else FirstReconcile(k, None, Done);
    es := [e];
    RunOne(Init(w.defaultRemote), e);
    FirstReconcileResult(w.defaultRemote, k, if w.readsConflict then SOME_REMOTE else None, e.reply.offload.read);
    var s := Apply(Init(w.defaultRemote), e);
    assert k in s.ongoing;
    assert !Agrees(Read(s, k));
  }

  /** Where two models share a name, finalizing one takes the other's route away. */
  lemma SharedNameBreaks(w: World, k: Key, k': Key) returns (es: seq<Event>)
    requires k in w.models && k' in w.models && k != k' && k.name == k'.name
    ensures PossibleRun(w, es) && !WeightsAgree(Run(Init(w.defaultRemote), es))
  {
    var start := SetUpRun(w, k);
    var s, e := Run(Init(w.defaultRemote), start), LastReconcile(k', true);
    assert Read(s, k').cell == Read(s, k).cell;
    LastReconcileResult(s, k', true);
    es := start + [e];
    RunSnoc(Init(w.defaultRemote), start, e);
    PossibleSnoc(w, start, e);
    assert k in Apply(s, e).ongoing && !Agrees(Read(Apply(s, e), k));
  }

  /** In every possible run every entry of `ongoing` is the weight of the stored route (100 - p local, p remote),
      if and only if no two models share a name and a route can always be written: the service lookup never
      answers with a conflict, which skips the clean-up, and there is always a remote backend, without which
      the offloader panics. */
  lemma WeightsExact(w: World)
    ensures (forall es | PossibleRun(w, es) :: WeightsAgree(Run(Init(w.defaultRemote), es)))
            <==> UniqueNames(w.models) && (w.models == {} || Writable(w))
  {
    if UniqueNames(w.models) && (w.models == {} || Writable(w)) {
      forall es | PossibleRun(w, es) ensures WeightsAgree(Run(Init(w.defaultRemote), es)) {
        if w.models == {} {
          NoModelsNoEvents(w, es);
        } else {
          RunSound(w, es);
        }
      }
    } else if !UniqueNames(w.models) {
      var k, k' :| k in w.models && k' in w.models && k.name == k'.name && k != k';
      var es := SharedNameBreaks(w, k, k');
    } else {
      var es := UnwritableBreaks(w);
    }
  }

  // ----- exactly when unhealthy models are remote -----

  /** Every model held to be unhealthy has share 100 and a stored route that sends everything to the remote
      backend. */
  ghost predicate UnhealthyIsRemote(s: State) { forall k | k in s.modelState :: RemoteWhenUnhealthy(Read(s, k)) }

  ghost predicate RemoteSound(w: World, s: State) {
    s.modelState.Keys <= w.models && forall k | k in w.models :: RemoteWhenUnhealthy(Read(s, k))
  }

  lemma {:induction false} RunRemoteSound(w: World, es: seq<Event>)
    requires PossibleRun(w, es) && UniqueNames(w.models)
    ensures RemoteSound(w, Run(Init(w.defaultRemote), es))
  {
    if es != [] {
      PrefixPossible(w, es);
      RunRemoteSound(w, es[..|es| - 1]);
      var s, e := Run(Init(w.defaultRemote), es[..|es| - 1]), es[|es| - 1];
      var v' := Next(Read(s, e.key), e).view;
      NextRemote(Read(s, e.key), e);
      ReadOwn(s, e.key, v');
      forall k | k in w.models ensures RemoteWhenUnhealthy(Read(Apply(s, e), k)) {
        if k != e.key {
          ReadOther(s, e.key, v', k);
        }
      }
    }
  }

  /** In every reachable state where a model is held to be unhealthy its share is 100, metric events change
      nothing, and every draw on its stored route falls on the remote backend. */
  lemma UnhealthyAllRemote(w: World, es: seq<Event>, k: Key, e: Event, draw: int)
    requires PossibleRun(w, es) && UniqueNames(w.models)
    requires var s := Run(Init(w.defaultRemote), es); k in s.modelState && !s.modelState[k]
    requires e.Metric? && e.key == k
    requires 0 <= draw < 100
    ensures var s := Run(Init(w.defaultRemote), es);
            && k in s.ongoing && s.ongoing[k] == 100
            && Apply(s, e) == s
            && k.name in s.plane.gateway.routes
            && var ws := Weights(s.plane.gateway.routes[k.name].backends);
            Total(ws) == 100 && |ws| == 2 && Pick(ws, draw) == 1
  {
    var s := Run(Init(w.defaultRemote), es);
    RunRemoteSound(w, es);
    assert RemoteWhenUnhealthy(Read(s, k));
    WriteUnchanged(s, k);
    PercentageSplit(100);
  }

  /** The sample model is found unhealthy. */
  function Sick(k: Key): Event { Health(k, false, Some(Sample(SOME_REMOTE)), OffloadReply(Done, "", true)) }

  lemma SickResult(s: State, k: Key)
    requires Read(s, k).managed.Some? && SAMPLE_SERVICE in s.registry
    ensures var v := Read(Apply(s, Sick(k)), k);
            v.health == Some(false) && v.cell.tracked && v.cell.route.Some? && v.watched == s.watched
  {
  }

  /** A run that sets a model up and finds it unhealthy. */
  lemma SickRun(w: World, k: Key) returns (es: seq<Event>)
    requires k in w.models
    ensures PossibleRun(w, es)
    ensures var v := Read(Run(Init(w.defaultRemote), es), k);
            v.health == Some(false) && v.cell.tracked && v.cell.route.Some? && SAMPLE_SERVICE in v.watched
  {
    var start := SetUpRun(w, k);
    SickResult(Run(Init(w.defaultRemote), start), k);
    RunSnoc(Init(w.defaultRemote), start, Sick(k));
    PossibleSnoc(w, start, Sick(k));
    es := start + [Sick(k)];
  }

  lemma NamesakeFinalized(d: Option<RemoteBackend>, es: seq<Event>, k: Key, k': Key)
    requires k != k' && k.name == k'.name
    requires var v := Read(Run(Init(d), es), k);
             v.health == Some(false) && v.cell.tracked && v.cell.route.Some? && SAMPLE_SERVICE in v.watched
    ensures !UnhealthyIsRemote(Run(Init(d), es + [LastReconcile(k', true)]))
  {
    var s := Run(Init(d), es);
    LastReconcileResult(s, k', true);
    RunSnoc(Init(d), es, LastReconcile(k', true));
    var s' := Apply(s, LastReconcile(k', true));
    assert k in s'.modelState && !RemoteWhenUnhealthy(Read(s', k));
  }

  /** A model is set up and becomes unhealthy; then its namesake is finalized and takes the route away. */
  lemma NamesakeTakesRemote(w: World, k: Key, k': Key) returns (es: seq<Event>)
    requires k in w.models && k' in w.models && k != k' && k.name == k'.name
    ensures PossibleRun(w, es) && !UnhealthyIsRemote(Run(Init(w.defaultRemote), es))
  {
    var start := SickRun(w, k);
    NamesakeFinalized(w.defaultRemote, start, k, k');
    PossibleSnoc(w, start, LastReconcile(k', true));
    es := start + [LastReconcile(k', true)];
  }

  /** In every possible run every model held to be unhealthy is served by the remote backend alone, if and only if
      no two models share a name. */
  lemma UnhealthyExact(w: World)
    ensures (forall es | PossibleRun(w, es) :: UnhealthyIsRemote(Run(Init(w.defaultRemote), es)))
            <==> UniqueNames(w.models)
  {
    if UniqueNames(w.models) {
      forall es | PossibleRun(w, es) ensures UnhealthyIsRemote(Run(Init(w.defaultRemote), es)) {
        RunRemoteSound(w, es);
      }
    } else {
      var k, k' :| k in w.models && k' in w.models && k.name == k'.name && k != k';
      var es := NamesakeTakesRemote(w, k, k');
    }
  }
}
