/** Routes that outlive their model, and routes that the offloader has forgotten. */
module Orphans {
  import opened Common
  import opened Deployments
  import opened Dataplane
  import opened Controller
  import opened Reachability
  import opened Runs

  // ----- orphan routes -----

  /** The gateway stores exactly the routes that the offloader tracks. */
  predicate NoOrphans(s: State) { s.plane.gateway.routes.Keys == s.plane.managedRoutes }

  /** A tracked name has a route; without lost deletions, only a tracked name has one. */
  predicate Tracks(c: Cell, exact: bool) { (c.tracked ==> c.route.Some?) && (exact ==> c.tracked == c.route.Some?) }

  lemma RerouteTracks(v: View, k: Key, m: Model, weight: int, o: OffloadReply, exact: bool)
    requires m.config.Some? && Tracks(v.cell, exact)
    ensures Tracks(Reroute(v, k, m, weight, o).view.cell, exact)
  {
  }

  lemma TearDownTracks(v: View, svc: Service, r: ReconcileReply, exact: bool)
    requires Tracks(v.cell, exact) && (exact ==> r.deleteOk)
    ensures Tracks(TearDown(v, svc, r).view.cell, exact)
  {
  }

  lemma ConfigureTracks(v: View, k: Key, m: Model, r: ReconcileReply, exact: bool)
    requires Tracks(v.cell, exact) && (exact ==> r.deleteOk)
    ensures Tracks(ConfigureOffloading(v, k, m, r).view.cell, exact)
  {
    if m.service.Some? {
      TearDownTracks(v, m.service.value.service, r, exact);
    }
  }

  lemma ReconcileTracks(v: View, k: Key, m: Model, r: ReconcileReply, exact: bool)
    requires Tracks(v.cell, exact) && (exact ==> r.deleteOk)
    ensures Tracks(ReconcileModel(v, k, m, r).view.cell, exact)
  {
    if Finalizes(m) {
      if m.service.Some? {
        TearDownTracks(Forget(v).(claims := v.claims - {ClaimKey(m)}), m.service.value.service, r, exact);
      }
    } else {
      var v1 := v.(claims := v.claims[ClaimKey(m) := k.name]);
      ConfigureTracks(v1, k, m.(workspace := r.workspace), r, exact);
    }
  }

  lemma NextTracks(v: View, e: Event, exact: bool)
    requires Tracks(v.cell, exact) && (exact && e.Reconcile? ==> e.reply.deleteOk)
    ensures Tracks(Next(v, e).view.cell, exact)
  {
    if e.read.Some? {
      var k, m := e.key, e.read.value;
      match e
      case Reconcile(_, _, r) => ReconcileTracks(v, k, m, r, exact);
      case Health(_, healthy, _, o) =>
        if m.config.Some? {
          RerouteTracks(v, k, m, if healthy then m.config.value.percentage else 100, o, exact);
        }
      case Metric(_, reached, _, o) =>
        if m.config.Some? {
          RerouteTracks(v, k, m, m.config.value.percentage, o, exact);
          RerouteTracks(v.(ongoing := None), k, m, 0, o, exact);
        }
    }
  }

  /** In every possible run the offloader tracks only stored routes, so its deletions never miss; unless the
      gateway may fail to delete, every stored route is tracked too. */
  lemma {:induction false} RunTracks(w: World, es: seq<Event>)
    requires PossibleRun(w, es)
    ensures var s := Run(Init(w.defaultRemote), es);
            s.plane.managedRoutes <= s.plane.gateway.routes.Keys && (w.deletesFail || NoOrphans(s))
  {
    if es != [] {
      PrefixPossible(w, es);
      RunTracks(w, es[..|es| - 1]);
      var s, e := Run(Init(w.defaultRemote), es[..|es| - 1]), es[|es| - 1];
      NextTracks(Read(s, e.key), e, !w.deletesFail);
    }
  }

  /** No run leaves a route behind that the offloader has forgotten, if and only if the gateway never fails
      to delete one: the next clean-up does not ask again. */
  lemma OrphansExact(w: World)
    ensures (forall es | PossibleRun(w, es) :: NoOrphans(Run(Init(w.defaultRemote), es)))
            <==> w.models == {} || !w.deletesFail
  {
    if w.models == {} || !w.deletesFail {
      forall es | PossibleRun(w, es) ensures NoOrphans(Run(Init(w.defaultRemote), es)) {
        NoModelsNoEvents(w, es);
        RunTracks(w, es);
      }
    } else {
      var es := LostDeletion(w);
    }
  }

  /** A deployment is set up, then finalized while the gateway fails to delete its route. */
  lemma LostDeletion(w: World) returns (es: seq<Event>)
    requires w.models != {} && w.deletesFail
    ensures PossibleRun(w, es) && !NoOrphans(Run(Init(w.defaultRemote), es))
  {
    var k :| k in w.models;
    es := LostDeletionOf(w, k);
  }

  /** The route is stored but not tracked; the sample service can be unconfigured. */
  predicate Forgotten(s: State, k: Key) {
    && k.name in s.plane.gateway.routes && k.name !in s.plane.managedRoutes
    && SAMPLE_SERVICE in s.watched
  }

  lemma LostDeletionOf(w: World, k: Key) returns (es: seq<Event>)
    requires k in w.models && w.deletesFail
    ensures PossibleRun(w, es) && !NoOrphans(Run(Init(w.defaultRemote), es))
    ensures forall e | e in es :: e.read.Some? && e.read.value.config.Some?
    ensures Forgotten(Run(Init(w.defaultRemote), es), k)
  {
    var start := SetUpRun(w, k);
    LastReconcileResult(Run(Init(w.defaultRemote), start), k, false);
    RunSnoc(Init(w.defaultRemote), start, LastReconcile(k, false));
    PossibleSnoc(w, start, LastReconcile(k, false));
    es := start + [LastReconcile(k, false)];
  }

  // ----- routes that outlive their model -----

  predicate ShowsConfig(e: Event, k: Key) { e.key == k && e.read.Some? && e.read.value.config.Some? }

  /** The last event of the run ran the finalizer of its model to the end. */
  predicate Completes(s: State, es: seq<Event>) { es != [] && OutcomeAt(s, es, |es| - 1).Finalized? }

  /** Since its last completed finalization, if any, `k` has been read with an offloading config. */
  predicate Carried(s: State, es: seq<Event>, k: Key) {
    if es == [] then false
    else
      var init, e := es[..|es| - 1], es[|es| - 1];
      !(e.key == k && Completes(s, es)) && (ShowsConfig(e, k) || Carried(s, init, k))
  }

  /** The finalizer meets a model that had an offloading config and no longer does. */
  predicate Drops(s: State, es: seq<Event>, i: nat)
    requires i < |es|
  {
    var e := es[i];
    e.Reconcile? && e.read.Some? && Finalizes(e.read.value) && e.read.value.config.None? && Carried(s, es[..i], e.key)
  }

  predicate KeepsConfigs(s: State, es: seq<Event>) { forall i | 0 <= i < |es| :: !Drops(s, es, i) }

  /** A possible run, in which configs are dropped before deletion only where the world has it so. */
  predicate PossibleLives(w: World, es: seq<Event>) {
    PossibleRun(w, es) && (w.configsDropped || KeepsConfigs(Init(w.defaultRemote), es))
  }

  /** The run ends as a model is finalized, and a route is still stored under its name. */
  predicate Outlives(s: State, es: seq<Event>) {
    Completes(s, es) && es[|es| - 1].key.name in Run(s, es).plane.gateway.routes
  }

  lemma PrefixKeeps(s: State, es: seq<Event>)
    requires KeepsConfigs(s, es) && es != []
    ensures KeepsConfigs(s, es[..|es| - 1]) && !Drops(s, es, |es| - 1)
  {
    var init := es[..|es| - 1];
    forall i | 0 <= i < |init| ensures !Drops(s, init, i) {
      assert init[..i] == es[..i];
      assert !Drops(s, es, i);
    }
  }

  lemma FinalizeRoute(v: View, k: Key, m: Model, r: ReconcileReply)
    requires Finalizes(m)
    ensures var t := ReconcileModel(v, k, m, r);
            && (t.view.cell.route.Some? ==> v.cell.route.Some?)
            && (t.outcome.Finalized? ==>
                  (t.view.cell.route.Some? <==> v.cell.route.Some? && (m.config.None? || !v.cell.tracked)))
  {
  }

  lemma UpdateRoute(v: View, k: Key, m: Model, r: ReconcileReply)
    requires Updates(m)
    ensures var t := ReconcileModel(v, k, m, r);
            (t.view.cell.route.Some? && v.cell.route.None? ==> m.config.Some?) && !t.outcome.Finalized?
  {
    UpdateEntries(v, k, m, r);
  }

  /** A step gives a model a route only from an offloading config, and a completed finalizer leaves one only if it
      met no config or the offloader did not track the route. */
  lemma NextRoute(v: View, e: Event)
    ensures var t := Next(v, e);
            && (t.view.cell.route.Some? && v.cell.route.None? ==> ShowsConfig(e, e.key))
            && (t.outcome.Finalized? ==>
                  && e.Reconcile? && e.read.Some? && Finalizes(e.read.value)
                  && (t.view.cell.route.Some? <==>
                        v.cell.route.Some? && (e.read.value.config.None? || !v.cell.tracked)))
  {
    if e.Reconcile? && e.read.Some? {
      if Finalizes(e.read.value) {
        FinalizeRoute(v, e.key, e.read.value, e.reply);
      } else if Updates(e.read.value) {
        UpdateRoute(v, e.key, e.read.value, e.reply);
      }
    }
  }

  /** Where names are unique, deletions work and configs are kept, a stored route belongs to a model that has
      carried a config since it was last finalized. */
  lemma {:induction false} RoutesCarried(w: World, es: seq<Event>, k: Key)
    requires PossibleRun(w, es) && KeepsConfigs(Init(w.defaultRemote), es) && !w.deletesFail
    requires UniqueNames(w.models) && k in w.models
    ensures k.name in Run(Init(w.defaultRemote), es).plane.gateway.routes ==> Carried(Init(w.defaultRemote), es, k)
  {
    if es != [] {
      var s0 := Init(w.defaultRemote);
      var init, e := es[..|es| - 1], es[|es| - 1];
      PrefixPossible(w, es);
      PrefixKeeps(s0, es);
      RoutesCarried(w, init, k);
      RunTracks(w, init);
      var s := Run(s0, init);
      var v := Read(s, e.key);
      if e.key == k {
        NextRoute(v, e);
        ReadOwn(s, k, Next(v, e).view);
      } else {
        ReadOther(s, e.key, Next(v, e).view, k);
      }
    }
  }

  /** The finalization of the sample model once its offloading config is gone. */
  function Bare(k: Key): Event {
    Reconcile(k, Some(Sample(SOME_REMOTE).(deleting := true, config := None)), Smooth(Done, true))
  }

  /** Such a finalization completes without touching what is stored under the name. */
  lemma BareOutlives(d: Option<RemoteBackend>, es: seq<Event>, k: Key)
    requires k.name in Run(Init(d), es).plane.gateway.routes
    ensures Outlives(Init(d), es + [Bare(k)]) && k !in Run(Init(d), es + [Bare(k)]).managed
  {
  }

  /** A model is set up, loses its offloading config and is deleted: it is no longer managed, and its route
      stays. */
  lemma DroppedConfig(d: Option<RemoteBackend>, k: Key)
    ensures var es := [FirstReconcile(k, SOME_REMOTE, Done), Bare(k)];
            Outlives(Init(d), es) && k !in Run(Init(d), es).managed
  {
    var start := [FirstReconcile(k, SOME_REMOTE, Done)];
    RunOne(Init(d), start[0]);
    FirstReconcileResult(d, k, SOME_REMOTE, Done);
    BareOutlives(d, start, k);
    assert start + [Bare(k)] == [FirstReconcile(k, SOME_REMOTE, Done), Bare(k)];
  }

  /** A run that sets one model up and finalizes another of the same name, or the same one, without config. */
  lemma SetUpThenBare(w: World, k: Key, k': Key) returns (es: seq<Event>)
    requires k in w.models && k' in w.models && k.name == k'.name && (k != k' || w.configsDropped)
    ensures PossibleLives(w, es) && Outlives(Init(w.defaultRemote), es)
  {
    var start := SetUpRun(w, k);
    BareOutlives(w.defaultRemote, start, k');
    PossibleSnoc(w, start, Bare(k'));
    es := start + [Bare(k')];
    if k != k' {
      OthersKeep(Init(w.defaultRemote), start, Bare(k'));
    }
  }

  lemma {:induction false} NotCarried(s: State, es: seq<Event>, k: Key)
    requires forall e | e in es :: e.key != k
    ensures !Carried(s, es, k)
  {
    if es != [] {
      NotCarried(s, es[..|es| - 1], k);
    }
  }

  lemma OthersKeep(s: State, es: seq<Event>, e: Event)
    requires forall x | x in es :: x.key != e.key && x.read.Some? && !Finalizes(x.read.value)
    ensures KeepsConfigs(s, es + [e])
  {
    var all := es + [e];
    NotCarried(s, es, e.key);
    assert all[..|es|] == es;
    forall i | 0 <= i < |all| ensures !Drops(s, all, i) {
      if i < |es| {
        assert all[i] in es;
      }
    }
  }

  /** A finalization fails because the gateway fails to delete the route; the next one completes without it. */
  lemma FailedDeletionOutlives(w: World, k: Key) returns (es: seq<Event>)
    requires k in w.models && w.deletesFail
    ensures PossibleLives(w, es) && Outlives(Init(w.defaultRemote), es)
  {
    var start := LostDeletionOf(w, k);
    UntrackedOutlives(w.defaultRemote, start, k);
    PossibleSnoc(w, start, LastReconcile(k, true));
    es := start + [LastReconcile(k, true)];
    forall i | 0 <= i < |es| ensures !Drops(Init(w.defaultRemote), es, i) {
      assert es[i] in start || es[i] == LastReconcile(k, true);
    }
  }

  lemma UntrackedOutlives(d: Option<RemoteBackend>, es: seq<Event>, k: Key)
    requires Forgotten(Run(Init(d), es), k)
    ensures Outlives(Init(d), es + [LastReconcile(k, true)])
  {
    var s, e := Run(Init(d), es), LastReconcile(k, true);
    RunSnoc(Init(d), es, e);
    assert (es + [e])[..|es|] == es;
    ReadOwn(s, k, Next(Read(s, k), e).view);
  }

  /** No route outlives its model in any possible run, if and only if no two models share a name, the gateway never
      fails to delete a route, and no deployment loses its offloading config before it is deleted. */
  lemma OutlivesExact(w: World)
    ensures (forall es | PossibleLives(w, es) :: !Outlives(Init(w.defaultRemote), es))
            <==> w.models == {} || (UniqueNames(w.models) && !w.deletesFail && !w.configsDropped)
  {
    var d := w.defaultRemote;
    if w.models == {} || (UniqueNames(w.models) && !w.deletesFail && !w.configsDropped) {
      forall es: seq<Event> | PossibleLives(w, es) ensures !Outlives(Init(d), es) {
        NoModelsNoEvents(w, es);
        if es != [] {
          PrefixPossible(w, es);
          RoutesCarried(w, es, es[|es| - 1].key);
        }
      }
    } else if !UniqueNames(w.models) {
      var k, k' :| k in w.models && k' in w.models && k.name == k'.name && k != k';
      var es := SetUpThenBare(w, k, k');
    } else {
      var k :| k in w.models;
      if w.configsDropped {
        var es := SetUpThenBare(w, k, k);
      } else {
        var es := FailedDeletionOutlives(w, k);
      }
    }
  }
}
