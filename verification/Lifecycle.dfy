/** What one model's past allows: when a reconciliation may be skipped, and when late events are harmless. */
module Lifecycle {
  import opened Common
  import opened Deployments
  import opened Dataplane
  import opened Controller
  import opened Reachability

  /** The event reconciles a live deployment `k`. */
  predicate UpdatesModel(e: Event, k: Key) { e.Reconcile? && e.key == k && e.read.Some? && Updates(e.read.value) }

  /** The event runs the finalizer of deployment `k`. */
  predicate FinalizesModel(e: Event, k: Key) { e.Reconcile? && e.key == k && e.read.Some? && Finalizes(e.read.value) }

  /** What an event of a run is to one model: whether it updates or finalizes it, at which generation, and what
      came of it. */
  datatype Mark = Mark(updates: bool, finalizes: bool, generation: int, outcome: Outcome) {
    predicate Attempt() { updates && Attempted(outcome) }
    predicate Success() { updates && outcome.Succeeded? }
    predicate Failure() { updates && outcome.Errored? }
  }

  function MarkOf(v: View, e: Event, k: Key): Mark {
    Mark(
      UpdatesModel(e, k), FinalizesModel(e, k), if e.read.Some? then e.read.value.generation else 0,
      Next(v, e).outcome)
  }

  function Marks(s: State, es: seq<Event>, k: Key): (ms: seq<Mark>)
    ensures |ms| == |es|
    ensures forall i | 0 <= i < |es| :: ms[i] == MarkOf(Read(Run(s, es[..i]), es[i].key), es[i], k)
  {
    seq(|es|, i requires 0 <= i < |es| => MarkOf(Read(Run(s, es[..i]), es[i].key), es[i], k))
  }

  /** The generation at which `k` is managed, if it is. */
  function ManagedAt(s: State, k: Key): Option<int> {
    GenerationOf(Read(s, k))
  }

  function Managements(s: State, es: seq<Event>, k: Key): (gs: seq<Option<int>>)
    ensures |gs| == |es| + 1
    ensures forall i | 0 <= i <= |es| :: gs[i] == ManagedAt(Run(s, es[..i]), k)
  {
    seq(|es| + 1, i requires 0 <= i <= |es| => ManagedAt(Run(s, es[..i]), k))
  }

  /** How an event moves the generation at which its model is managed. */
  predicate Moves(before: Option<int>, m: Mark, after: Option<int>) {
    && (!m.updates && !m.finalizes ==> after == before)
    && (m.finalizes || m.Failure() ==> after.None?)
    && (m.Success() ==> after == Some(m.generation))
    && (m.updates && !m.Success() && after.Some? ==> after == before)
    && (m.Attempt() ==> before != Some(m.generation))
    && (m.updates && m.outcome.SameGeneration? ==> before == Some(m.generation))
  }

  lemma RunSplit(s: State, es: seq<Event>, n: nat)
    requires n < |es|
    ensures Run(s, es[..n + 1]) == Apply(Run(s, es[..n]), es[n])
  {
    assert es[..n + 1][..n] == es[..n];
  }

  function GenerationOf(v: View): Option<int> {
    if v.managed.Some? then Some(v.managed.value.lastGeneration) else None
  }

  lemma NextMoves(v: View, e: Event)
    ensures Moves(GenerationOf(v), MarkOf(v, e, e.key), GenerationOf(Next(v, e).view))
  {
    if e.Reconcile? && e.read.Some? {
      if Updates(e.read.value) {
        UpdateEntries(v, e.key, e.read.value, e.reply);
      } else if Finalizes(e.read.value) {
        FinalizeEntries(v, e.key, e.read.value, e.reply);
      }
    }
  }

  lemma ApplyMoves(s: State, e: Event, k: Key)
    ensures Moves(ManagedAt(s, k), MarkOf(Read(s, e.key), e, k), ManagedAt(Apply(s, e), k))
  {
    var v := Read(s, e.key);
    if e.key == k {
      NextMoves(v, e);
      ReadOwn(s, k, Next(v, e).view);
    }
  }

  predicate AllMove(gs: seq<Option<int>>, ms: seq<Mark>) {
    |gs| == |ms| + 1 && forall i | 0 <= i < |ms| :: Moves(gs[i], ms[i], gs[i + 1])
  }

  lemma RunMoves(s: State, es: seq<Event>, k: Key)
    ensures AllMove(Managements(s, es, k), Marks(s, es, k))
  {
    var gs, ms := Managements(s, es, k), Marks(s, es, k);
    forall i | 0 <= i < |es| ensures Moves(gs[i], ms[i], gs[i + 1]) {
      RunSplit(s, es, i);
      ApplyMoves(Run(s, es[..i]), es[i], k);
    }
  }

  // ----- skipped generations -----

  /** The finalizer of `k` does not run strictly between events `i` and `j`. */
  predicate SameLife(es: seq<Event>, k: Key, i: int, j: int)
    requires 0 <= i <= j <= |es|
  {
    forall l | i < l < j :: !FinalizesModel(es[l], k)
  }

  /** The generation of `k` never decreases between two runs of its finalizer. */
  predicate GenerationsGrow(es: seq<Event>, k: Key) {
    forall i, j | 0 <= i < j < |es| && UpdatesModel(es[i], k) && UpdatesModel(es[j], k) && SameLife(es, k, i, j) ::
      es[i].read.value.generation <= es[j].read.value.generation
  }

  /** A managed model owes its entry to a success at that generation; since then its finalizer has not run, and
      every attempt past the checks was at another generation. */
  lemma {:induction false} ManagedOrigin(gs: seq<Option<int>>, ms: seq<Mark>, n: nat) returns (j: nat)
    requires AllMove(gs, ms) && n <= |ms| && gs[0].None? && gs[n].Some?
    ensures j < n && ms[j].Success() && gs[n] == Some(ms[j].generation)
    ensures forall l | j < l < n ::
              !ms[l].finalizes && (ms[l].Attempt() ==> ms[l].generation != ms[j].generation)
  {
    assert Moves(gs[n - 1], ms[n - 1], gs[n]);
    if ms[n - 1].Success() {
      j := n - 1;
    } else {
      j := ManagedOrigin(gs, ms, n - 1);
    }
  }

  /** Event `i` of a run from the start was skipped because its generation is in place already. */
  predicate Skipped(r: Option<RemoteBackend>, es: seq<Event>, k: Key, i: nat)
    requires i < |es|
  {
    UpdatesModel(es[i], k) && OutcomeAt(Init(r), es, i).SameGeneration?
  }

  /** Event `j` succeeded at the generation of event `i`, and between the two nothing else was attempted on `k`. */
  predicate Justifies(r: Option<RemoteBackend>, es: seq<Event>, k: Key, j: nat, i: nat)
    requires j < i < |es| && UpdatesModel(es[i], k)
  {
    && UpdatesModel(es[j], k) && OutcomeAt(Init(r), es, j).Succeeded?
    && es[j].read.value.generation == es[i].read.value.generation
    && forall l | j < l < i :: var m := Marks(Init(r), es, k)[l]; !m.Attempt() && !m.finalizes
  }

  /** A reconciliation is skipped for an unchanged generation only if the latest attempt on that model that got
      past the checks succeeded, at that same generation and in the same life of the object. */
  lemma SkipJustified(r: Option<RemoteBackend>, es: seq<Event>, k: Key, i: nat)
    requires i < |es| && GenerationsGrow(es, k)
    ensures Skipped(r, es, k, i) ==> exists j :: 0 <= j < i && Justifies(r, es, k, j, i)
  {
    if Skipped(r, es, k, i) {
      var gs, ms := Managements(Init(r), es, k), Marks(Init(r), es, k);
      RunMoves(Init(r), es, k);
      assert es[..0] == [];
      assert Moves(gs[i], ms[i], gs[i + 1]);
      var j := ManagedOrigin(gs, ms, i);
      NoAttemptBetween(es, k, ms, j, i);
      assert Justifies(r, es, k, j, i);
    }
  }

  /** Attempts at other generations cannot lie between two events of one generation. */
  lemma NoAttemptBetween(es: seq<Event>, k: Key, ms: seq<Mark>, j: nat, i: nat)
    requires GenerationsGrow(es, k) && |ms| == |es| && j < i < |es|
    requires forall l | 0 <= l < |es| ::
               && ms[l].updates == UpdatesModel(es[l], k) && ms[l].finalizes == FinalizesModel(es[l], k)
               && (es[l].read.Some? ==> ms[l].generation == es[l].read.value.generation)
    requires ms[i].updates && ms[j].updates && ms[i].generation == ms[j].generation
    requires forall l | j < l < i ::
               !ms[l].finalizes && (ms[l].Attempt() ==> ms[l].generation != ms[j].generation)
    ensures forall l | j < l < i :: !ms[l].Attempt()
  {
  }

  // ----- late events -----

  lemma {:induction false} StaysUnmanaged(gs: seq<Option<int>>, ms: seq<Mark>, i: nat, n: nat)
    requires AllMove(gs, ms) && i <= n <= |ms| && gs[i].None?
    requires forall l | i <= l < n :: !ms[l].Success()
    ensures gs[n].None?
    decreases n
  {
    if i < n {
      StaysUnmanaged(gs, ms, i, n - 1);
      assert Moves(gs[n - 1], ms[n - 1], gs[n]);
    }
  }

  /** After a finalize attempt, however it ended, or a reconciliation that failed with anything but a conflict,
      health and metric events on the model change nothing at all until a reconciliation of it succeeds. */
  lemma LateEventsIgnored(s: State, es: seq<Event>, k: Key, i: nat, j: nat)
    requires i < j < |es|
    requires FinalizesModel(es[i], k) || (UpdatesModel(es[i], k) && OutcomeAt(s, es, i).Errored?)
    requires forall l | i < l < j :: !Marks(s, es, k)[l].Success()
    requires es[j].key == k && !es[j].Reconcile?
    ensures Run(s, es[..j + 1]) == Run(s, es[..j])
  {
    var gs, ms := Managements(s, es, k), Marks(s, es, k);
    RunMoves(s, es, k);
    assert Moves(gs[i], ms[i], gs[i + 1]);
    StaysUnmanaged(gs, ms, i + 1, j);
    UnmanagedIgnored(Run(s, es[..j]), es[j]);
    RunSplit(s, es, j);
  }

  lemma UnmanagedIgnored(s: State, e: Event)
    requires e.key !in s.managed && !e.Reconcile?
    ensures Apply(s, e) == s
  {
  }

  // ----- disabled models -----

  /** The event reconciles a model with service `svc`. */
  predicate UsesService(e: Event, svc: Service) {
    e.Reconcile? && e.read.Some? && e.read.value.service.Some? && e.read.value.service.value.service == svc
  }

  /** Health and metric events read the model with service `svc`; no other model of the run is called like `k`
      or is reconciled with that service; `k` itself is not reconciled. */
  predicate LateAndUnshared(e: Event, k: Key, svc: Service) {
    if e.key == k then
      !e.Reconcile? && (e.read.Some? && e.read.value.service.Some? ==> e.read.value.service.value.service == svc)
    else e.key.name != k.name && !UsesService(e, svc)
  }

  /** The configurer's bookkeeping on a service is the same in both views. */
  predicate SameService(v: View, w: View, svc: Service) {
    (svc in v.registry <==> svc in w.registry) && (svc in v.watched <==> svc in w.watched)
  }

  lemma TearDownRegistry(v: View, own: Service, r: ReconcileReply, svc: Service)
    requires own != svc
    ensures SameService(TearDown(v, own, r).view, v, svc)
  {
  }

  lemma ConfigureRegistry(v: View, k: Key, m: Model, r: ReconcileReply, svc: Service)
    requires m.service.Some? ==> m.service.value.service != svc
    ensures SameService(ConfigureOffloading(v, k, m, r).view, v, svc)
  {
  }

  lemma ReconcileRegistry(v: View, k: Key, m: Model, r: ReconcileReply, svc: Service)
    requires m.service.Some? ==> m.service.value.service != svc
    ensures SameService(ReconcileModel(v, k, m, r).view, v, svc)
  {
    if Finalizes(m) {
      if m.service.Some? {
        TearDownRegistry(Forget(v).(claims := v.claims - {ClaimKey(m)}), m.service.value.service, r, svc);
      }
    } else {
      ConfigureRegistry(v.(claims := v.claims[ClaimKey(m) := k.name]), k, m.(workspace := r.workspace), r, svc);
    }
  }

  /** Only the reconciliation of a model with that service takes a service over or lets it go. */
  lemma NextRegistry(v: View, e: Event, svc: Service)
    requires !UsesService(e, svc)
    ensures SameService(Next(v, e).view, v, svc)
  {
    if e.Reconcile? && e.read.Some? {
      ReconcileRegistry(v, e.key, e.read.value, e.reply, svc);
    }
  }

  /** With no entry in `ongoing` and no local service, an event leaves the model as it is. */
  lemma NextWithoutService(v: View, e: Event)
    requires !e.Reconcile? && v.ongoing.None?
    requires e.read.Some? && e.read.value.service.Some? ==> e.read.value.service.value.service !in v.registry
    ensures Next(v, e).view == v
  {
  }

  lemma {:induction false} DisabledStaysQuiet(s: State, es: seq<Event>, k: Key, svc: Service)
    requires k !in s.ongoing && svc !in s.registry
    requires forall e | e in es :: LateAndUnshared(e, k, svc)
    ensures var t := Run(s, es);
            SameModel(Read(t, k), Read(s, k)) && svc !in t.registry
  {
    if es != [] {
      var init, e := es[..|es| - 1], es[|es| - 1];
      assert e in es;
      DisabledStaysQuiet(s, init, k, svc);
      var t := Run(s, init);
      var v := Read(t, e.key);
      if e.key == k {
        NextWithoutService(v, e);
        WriteUnchanged(t, k);
      } else {
        NextRegistry(v, e, svc);
        ReadOther(t, e.key, Next(v, e).view, k);
      }
    }
  }

  /** After a successful reconciliation of a disabled model with an offloading config, no late health or metric
      event creates or changes a route or an entry for it, provided no other model shares its service. */
  lemma DisabledGetsNoRoute(s: State, e: Event, es: seq<Event>, k: Key)
    requires UpdatesModel(e, k) && Next(Read(s, k), e).outcome.Succeeded?
    requires !e.read.value.enabled && e.read.value.config.Some?
    requires e.read.value.service.Some? ==>
               forall l | l in es :: LateAndUnshared(l, k, e.read.value.service.value.service)
    ensures var before, after := Apply(s, e), Run(Apply(s, e), es);
            && k !in after.ongoing
            && SameModel(Read(after, k), Read(before, k))
  {
    UpdateEntries(Read(s, k), k, e.read.value, e.reply);
    ReadOwn(s, k, Next(Read(s, k), e).view);
    DisabledStaysQuiet(Apply(s, e), es, k, e.read.value.service.value.service);
  }

  // ----- bursts -----

  lemma MetricTwice(v: View, k: Key, reached: bool, m: Option<Model>, o: OffloadReply, o': OffloadReply)
    requires reached ==> !Next(v, Metric(k, reached, m, o)).outcome.HandlerFailed?
    ensures var once := Next(v, Metric(k, reached, m, o)).view;
            Next(once, Metric(k, reached, m, o')).view == once
  {
  }

  /** However many times the same metric event repeats, and whatever the dataplane answers to the repetitions,
      the effect is that of the first one, unless that one asked for offloading and failed. */
  lemma {:induction false} MetricBurst(s: State, k: Key, reached: bool, m: Option<Model>, replies: seq<OffloadReply>)
    requires replies != []
    requires reached ==> !Next(Read(s, k), Metric(k, reached, m, replies[0])).outcome.HandlerFailed?
    ensures Run(s, Burst(k, reached, m, replies)) == Apply(s, Metric(k, reached, m, replies[0]))
    decreases |replies|
  {
    var es, n := Burst(k, reached, m, replies), |replies| - 1;
    if n == 0 {
      assert es[..0] == [];
    } else {
      assert es[..n] == Burst(k, reached, m, replies[..n]);
      MetricBurst(s, k, reached, m, replies[..n]);
      var once := Next(Read(s, k), Metric(k, reached, m, replies[0])).view;
      ReadOwn(s, k, once);
      MetricTwice(Read(s, k), k, reached, m, replies[0], replies[n]);
      WriteUnchanged(Apply(s, Metric(k, reached, m, replies[0])), k);
    }
  }

  function Burst(k: Key, reached: bool, m: Option<Model>, replies: seq<OffloadReply>): (es: seq<Event>)
    ensures |es| == |replies| && forall i | 0 <= i < |es| :: es[i] == Metric(k, reached, m, replies[i])
  {
    seq(|replies|, i requires 0 <= i < |replies| => Metric(k, reached, m, replies[i]))
  }
}
