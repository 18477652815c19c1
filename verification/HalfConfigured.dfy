/** Services whose configuration stopped half-way: registered, but without the watchers that undoing it stops first. */
module HalfConfigured {
  import opened Common
  import opened Deployments
  import opened LocalServices
  import opened Controller
  import opened Runs
  import opened Lifecycle

  predicate Half(s: State, svc: Service) { svc in s.registry && svc !in s.watched }

  predicate HalfIn(v: View, svc: Service) { svc in v.registry && svc !in v.watched }

  /** The step gets as far as configuring the service. */
  predicate Reaches(v: View, e: Event, svc: Service) {
    && UsesService(e, svc) && Updates(e.read.value)
    && var m, r := e.read.value, e.reply;
    && (ClaimKey(m) in v.claims ==> v.claims[ClaimKey(m)] == e.key.name)
    && (v.managed.Some? ==> v.managed.value.lastGeneration != m.generation)
    && r.lookups.Done? && r.publish.Done? && TearDown(v, svc, r).outcome.Succeeded?
    && m.enabled && m.config.Some?
  }

  /** The configuration that the step gets to stops between the registry entry and the first watcher. */
  predicate Strands(v: View, e: Event, svc: Service) {
    Reaches(v, e, svc) && !e.reply.configure.call.Done? && e.reply.configure.stage.Unwatched?
  }

  /** It gets past the first watcher. */
  predicate Watches(v: View, e: Event, svc: Service) {
    Reaches(v, e, svc) && (e.reply.configure.call.Done? || e.reply.configure.stage.Watched?)
  }

  lemma TearDownServices(v: View, svc: Service, r: ReconcileReply)
    ensures var t := TearDown(v, svc, r);
            && t.view.watched == v.watched
            && (HalfIn(v, svc) ==> t.view.registry == v.registry && t.outcome.Errored?)
            && (svc !in v.registry ==> svc !in t.view.registry)
            && (t.outcome.Succeeded? ==> svc !in t.view.registry)
  {
  }

  lemma ConfigureServices(v: View, k: Key, m: Model, r: ReconcileReply)
    requires m.service.Some?
    ensures var svc, t := m.service.value.service, ConfigureOffloading(v, k, m, r);
            var reached := TearDown(v, svc, r).outcome.Succeeded? && m.enabled && m.config.Some?;
            && (svc in t.view.watched <==>
                  svc in v.watched || (reached && (r.configure.call.Done? || r.configure.stage.Watched?)))
            && (svc !in v.watched ==>
                  (HalfIn(t.view, svc) <==>
                     HalfIn(v, svc) || (reached && !r.configure.call.Done? && r.configure.stage.Unwatched?)))
            && (HalfIn(v, svc) ==> t.outcome.Errored?)
  {
    TearDownServices(v, m.service.value.service, r);
  }

  lemma UpdateServices(v: View, e: Event, svc: Service)
    requires UsesService(e, svc) && Updates(e.read.value)
    ensures var t := Next(v, e);
            && (svc in t.view.watched <==> svc in v.watched || Watches(v, e, svc))
            && (HalfIn(t.view, svc) <==> HalfIn(v, svc) || (svc !in v.watched && Strands(v, e, svc)))
            && (HalfIn(v, svc) ==> !t.outcome.Succeeded?) && !t.outcome.Finalized?
  {
    var m := e.read.value;
    ConfigureServices(
      v.(claims := v.claims[ClaimKey(m) := e.key.name]), e.key, m.(workspace := e.reply.workspace), e.reply);
  }

  lemma FinalizeServices(v: View, e: Event, svc: Service)
    requires UsesService(e, svc) && Finalizes(e.read.value)
    ensures var t := Next(v, e);
            && t.view.watched == v.watched && (HalfIn(t.view, svc) <==> HalfIn(v, svc))
            && !t.outcome.Succeeded?
            && (HalfIn(v, svc) && t.outcome.Finalized? ==> e.read.value.config.None?)
  {
    TearDownServices(Forget(v).(claims := v.claims - {ClaimKey(e.read.value)}), svc, e.reply);
  }

  /** What a step does to the bookkeeping on a service: it becomes watched when a configuration gets that far, and
      half-configured when one of a service never watched stops before that, and stays so. */
  lemma NextServices(v: View, e: Event, svc: Service)
    ensures var t := Next(v, e);
            && (svc in t.view.watched <==> svc in v.watched || Watches(v, e, svc))
            && (HalfIn(t.view, svc) <==> HalfIn(v, svc) || (svc !in v.watched && Strands(v, e, svc)))
            && (HalfIn(v, svc) && UsesService(e, svc) ==>
                  !t.outcome.Succeeded? && (t.outcome.Finalized? ==> e.read.value.config.None?))
  {
    if !UsesService(e, svc) {
      NextRegistry(v, e, svc);
    } else if Updates(e.read.value) {
      UpdateServices(v, e, svc);
    } else if Finalizes(e.read.value) {
      FinalizeServices(v, e, svc);
    }
  }

  lemma ApplyServices(s: State, e: Event, svc: Service)
    ensures var v := Read(s, e.key);
            && (svc in Apply(s, e).watched <==> svc in s.watched || Watches(v, e, svc))
            && (Half(Apply(s, e), svc) <==> Half(s, svc) || (svc !in s.watched && Strands(v, e, svc)))
  {
    var v := Read(s, e.key);
    NextServices(v, e, svc);
    assert Half(s, svc) == HalfIn(v, svc);
    assert Half(Apply(s, e), svc) == HalfIn(Next(v, e).view, svc);
  }

  // ----- how services come to be half-configured -----

  /** Some configuration of the service stopped between its registry entry and its first watcher. */
  predicate EverStranded(s: State, es: seq<Event>, svc: Service) {
    es != [] &&
    var init, e := es[..|es| - 1], es[|es| - 1];
    EverStranded(s, init, svc) || Strands(Read(Run(s, init), e.key), e, svc)
  }

  /** Some configuration of it got further. */
  predicate EverWatched(s: State, es: seq<Event>, svc: Service) {
    es != [] &&
    var init, e := es[..|es| - 1], es[|es| - 1];
    EverWatched(s, init, svc) || Watches(Read(Run(s, init), e.key), e, svc)
  }

  lemma {:induction false} WatchedExact(d: Option<RemoteBackend>, es: seq<Event>, svc: Service)
    ensures svc in Run(Init(d), es).watched <==> EverWatched(Init(d), es, svc)
  {
    if es != [] {
      var init, e := es[..|es| - 1], es[|es| - 1];
      WatchedExact(d, init, svc);
      ApplyServices(Run(Init(d), init), e, svc);
    }
  }

  /** After any run a service is half-configured if and only if some configuration of it stopped between its registry
      entry and its first watcher, and none ever got further. */
  lemma {:induction false} HalfExact(d: Option<RemoteBackend>, es: seq<Event>, svc: Service)
    ensures Half(Run(Init(d), es), svc) <==> EverStranded(Init(d), es, svc) && !EverWatched(Init(d), es, svc)
  {
    if es != [] {
      var init, e := es[..|es| - 1], es[|es| - 1];
      HalfExact(d, init, svc);
      WatchedExact(d, init, svc);
      ApplyServices(Run(Init(d), init), e, svc);
      HalfNotWatching(Run(Init(d), init), e, svc);
    }
  }

  lemma HalfNotWatching(s: State, e: Event, svc: Service)
    ensures Half(s, svc) || Strands(Read(s, e.key), e, svc) ==> !Watches(Read(s, e.key), e, svc)
  {
  }

  // ----- and what becomes of them -----

  /** Whatever happens, a half-configured service stays so: no reconciliation with it succeeds any more, and no model
      with it and an offloading config is finalized. */
  lemma {:induction false} HalfForever(s: State, es: seq<Event>, svc: Service)
    requires Half(s, svc)
    ensures Half(Run(s, es), svc)
    ensures forall i | 0 <= i < |es| && UsesService(es[i], svc) ::
              !OutcomeAt(s, es, i).Succeeded? && (OutcomeAt(s, es, i).Finalized? ==> es[i].read.value.config.None?)
  {
    if es != [] {
      var init, n := es[..|es| - 1], |es| - 1;
      HalfForever(s, init, svc);
      ApplyServices(Run(s, init), es[n], svc);
      NextServices(Read(Run(s, init), es[n].key), es[n], svc);
      forall i | 0 <= i < n ensures OutcomeAt(s, es, i) == OutcomeAt(s, init, i) {
        assert init[..i] == es[..i];
      }
      forall i | 0 <= i < |es| && UsesService(es[i], svc)
        ensures !OutcomeAt(s, es, i).Succeeded? && (OutcomeAt(s, es, i).Finalized? ==> es[i].read.value.config.None?)
      {
        if i < n {
          assert UsesService(init[i], svc);
        }
      }
    }
  }

  /** A first reconciliation whose configuration of the service stops before the first watcher. */
  function Stranded(k: Key): Event {
    Reconcile(k, Some(Sample(SOME_REMOTE)), Smooth(Done, true).(configure := ConfigureReply(Failed, Unwatched)))
  }

  /** The very first reconciliation of any model can leave its service half-configured. */
  lemma HalfReached(d: Option<RemoteBackend>, k: Key)
    ensures Half(Run(Init(d), [Stranded(k)]), SAMPLE_SERVICE)
  {
    RunOne(Init(d), Stranded(k));
    ApplyServices(Init(d), Stranded(k), SAMPLE_SERVICE);
    var v := Read(Init(d), k).(claims := map[ClaimKey(Sample(SOME_REMOTE)) := k.name]);
    assert TearDown(Read(Init(d), k), SAMPLE_SERVICE, Stranded(k).reply).outcome.Succeeded?;
  }
}
