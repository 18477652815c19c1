/** Which deployment owns a remote model, and when the claims protect it. */
module Ownership {
  import opened Common
  import opened Deployments
  import opened Controller
  import opened Reachability
  import opened Runs
  import Lifecycle

  /** The remote model that a deployment stands for. */
  datatype Site = Site(environment: string, remoteModel: string) {
    function Claim(): string { environment + "/" + remoteModel }
  }

  type Sites = map<Key, Site>

  /** Each deployment stands for one remote model throughout. */
  predicate Fits(sites: Sites, e: Event) {
    && e.key in sites
    && (e.read.Some? ==> Site(e.read.value.environment, e.read.value.remoteModel) == sites[e.key])
  }

  /** The event finalizes a deployment whose remote model another name has claimed. */
  predicate FinalizesRefused(s: State, e: Event) {
    && Lifecycle.FinalizesModel(e, e.key)
    && ClaimKey(e.read.value) in s.claims && s.claims[ClaimKey(e.read.value)] != e.key.name
  }

  /** A run over the given sites; deployments that were refused ownership are deleted only if `refusedDeleted`. */
  predicate FittingRun(sites: Sites, refusedDeleted: bool, s: State, es: seq<Event>) {
    && (forall e | e in es :: Fits(sites, e))
    && (refusedDeleted || forall i | 0 <= i < |es| :: !FinalizesRefused(Run(s, es[..i]), es[i]))
  }

  /** Every managed deployment holds the claim on its remote model. */
  ghost predicate Owned(s: State, sites: Sites) {
    forall k | k in s.managed :: k in sites && Holds(Read(s, k), k, sites[k].Claim())
  }

  predicate Holds(v: View, k: Key, c: string) { c in v.claims && v.claims[c] == k.name }

  /** Two managed deployments stand for one remote model. */
  ghost predicate Doubled(s: State, sites: Sites) {
    exists k, k' :: k in s.managed && k' in s.managed && Rivals(sites, k, k')
  }

  predicate Rivals(sites: Sites, k: Key, k': Key) {
    k in sites && k' in sites && k != k' && sites[k].Claim() == sites[k'].Claim()
  }

  /** Rivals have different names, and one that was refused ownership is never deleted. */
  ghost predicate Protected(sites: Sites, refusedDeleted: bool) {
    forall k, k' | Rivals(sites, k, k') :: k.name != k'.name && !refusedDeleted
  }

  lemma ConfigureClaims(v: View, k: Key, m: Model, r: ReconcileReply)
    ensures ConfigureOffloading(v, k, m, r).view.claims == v.claims
  {
  }

  lemma UpdateClaims(v: View, k: Key, m: Model, r: ReconcileReply)
    requires Updates(m)
    ensures var t, c := ReconcileModel(v, k, m, r), ClaimKey(m);
            && (t.view.claims == v.claims
                || (t.view.claims == v.claims[c := k.name] && (c !in v.claims || v.claims[c] == k.name)))
            && (t.outcome.Succeeded? ==> Holds(t.view, k, c))
            && (t.view.managed.Some? ==> t.outcome.Succeeded? || t.view.managed == v.managed)
  {
    UpdateEntries(v, k, m, r);
    ConfigureClaims(v.(claims := v.claims[ClaimKey(m) := k.name]), k, m.(workspace := r.workspace), r);
  }

  lemma FinalizeClaims(v: View, k: Key, m: Model, r: ReconcileReply)
    requires Finalizes(m)
    ensures var v' := ReconcileModel(v, k, m, r).view; v'.managed.None? && v'.claims == v.claims - {ClaimKey(m)}
  {
  }

  predicate SameClaim(v: View, w: View, c: string) {
    (c in w.claims <==> c in v.claims) && (c in v.claims ==> w.claims[c] == v.claims[c])
  }

  /** The event may take or drop claim `c`: it is on that remote model, and finalizes it or finds no other owner. */
  predicate MayMove(v: View, e: Event, c: string) {
    && e.read.Some? && c == ClaimKey(e.read.value)
    && (c !in v.claims || v.claims[c] == e.key.name || Lifecycle.FinalizesModel(e, e.key))
  }

  /** A step leaves all other claims alone, and a deployment that is managed after it holds its claim if it did
      before. */
  lemma NextClaims(v: View, e: Event, c: string)
    requires v.managed.Some? && e.read.Some? ==> Holds(v, e.key, ClaimKey(e.read.value))
    ensures var v' := Next(v, e).view;
            && (MayMove(v, e, c) || SameClaim(v, v', c))
            && (v'.managed.Some? && e.read.Some? ==> Holds(v', e.key, ClaimKey(e.read.value)))
            && (e.read.None? ==> v' == v)
  {
    if e.Reconcile? && e.read.Some? {
      if Updates(e.read.value) {
        UpdateClaims(v, e.key, e.read.value, e.reply);
      } else if Finalizes(e.read.value) {
        FinalizeClaims(v, e.key, e.read.value, e.reply);
      }
    }
  }

  /** A rival cannot move the claim of another deployment. */
  lemma RivalCannotMove(s: State, e: Event, sites: Sites, refusedDeleted: bool, k: Key)
    requires k in sites && k != e.key && Holds(Read(s, k), k, sites[k].Claim())
    requires Fits(sites, e) && Protected(sites, refusedDeleted) && (refusedDeleted || !FinalizesRefused(s, e))
    ensures !MayMove(Read(s, e.key), e, sites[k].Claim())
  {
  }

  lemma ClaimsAfter(s: State, e: Event, k: Key)
    ensures Read(Apply(s, e), k).claims == Next(Read(s, e.key), e).view.claims
    ensures k in Apply(s, e).managed <==>
            if k == e.key then Next(Read(s, e.key), e).view.managed.Some? else k in s.managed
  {
  }

  lemma ApplyOwned(s: State, e: Event, sites: Sites, refusedDeleted: bool)
    requires Owned(s, sites) && Fits(sites, e) && Protected(sites, refusedDeleted)
    requires refusedDeleted || !FinalizesRefused(s, e)
    ensures Owned(Apply(s, e), sites)
  {
    var v := Read(s, e.key);
    forall k | k in Apply(s, e).managed ensures k in sites && Holds(Read(Apply(s, e), k), k, sites[k].Claim()) {
      ClaimsAfter(s, e, k);
      assert k != e.key ==> k in sites && Holds(Read(s, k), k, sites[k].Claim());
      NextClaims(v, e, sites[k].Claim());
      if k != e.key {
        RivalCannotMove(s, e, sites, refusedDeleted, k);
      }
    }
  }

  lemma {:induction false} RunOwned(d: Option<RemoteBackend>, es: seq<Event>, sites: Sites, refusedDeleted: bool)
    requires FittingRun(sites, refusedDeleted, Init(d), es) && Protected(sites, refusedDeleted)
    ensures Owned(Run(Init(d), es), sites)
  {
    if es != [] {
      var init, n := es[..|es| - 1], |es| - 1;
      forall i | 0 <= i < n && !refusedDeleted ensures !FinalizesRefused(Run(Init(d), init[..i]), init[i]) {
        assert init[..i] == es[..i];
      }
      RunOwned(d, init, sites, refusedDeleted);
      assert es[n] in es;
      ApplyOwned(Run(Init(d), init), es[n], sites, refusedDeleted);
    }
  }

  // ----- rivals at work -----

  /** The sample model at a site. */
  function At(site: Site): Model {
    Sample(SOME_REMOTE).(environment := site.environment, remoteModel := site.remoteModel)
  }

  function Create(k: Key, site: Site): Event { Reconcile(k, Some(At(site)), Smooth(Done, true)) }

  /** The deletion of a deployment without offloading config. */
  function Discard(k: Key, site: Site): Event {
    Reconcile(k, Some(At(site).(deleting := true, config := None)), Smooth(Done, true))
  }

  /** The offloader tracks only stored routes, and the sample service can be unconfigured if it is registered. */
  predicate Ready(s: State) {
    && s.plane.managedRoutes <= s.plane.gateway.routes.Keys
    && (SAMPLE_SERVICE in s.registry ==> SAMPLE_SERVICE in s.watched)
  }

  lemma CreateResult(s: State, k: Key, site: Site)
    requires k !in s.managed && Ready(s)
    requires site.Claim() in s.claims ==> s.claims[site.Claim()] == k.name
    ensures var s' := Apply(s, Create(k, site));
            && k in s'.managed && Holds(Read(s', k), k, site.Claim()) && Ready(s')
            && (forall k' | k' != k :: k' in s'.managed <==> k' in s.managed)
  {
    var e, v := Create(k, site), Read(s, k);
    ReadOwn(s, k, Next(v, e).view);
    var v1 := v.(claims := v.claims[site.Claim() := k.name]);
    assert TearDown(v1, SAMPLE_SERVICE, e.reply).outcome.Succeeded?;
  }

  lemma DiscardResult(s: State, k: Key, site: Site)
    ensures var s' := Apply(s, Discard(k, site));
            && s'.claims == s.claims - {site.Claim()} && k !in s'.managed
            && (Ready(s) ==> Ready(s')) && (forall k' | k' != k :: k' in s'.managed <==> k' in s.managed)
  {
  }

  lemma FittingSnoc(sites: Sites, refusedDeleted: bool, s: State, es: seq<Event>, e: Event)
    requires FittingRun(sites, refusedDeleted, s, es) && Fits(sites, e)
    requires refusedDeleted || !FinalizesRefused(Run(s, es), e)
    ensures FittingRun(sites, refusedDeleted, s, es + [e]) && Run(s, es + [e]) == Apply(Run(s, es), e)
  {
    RunSnoc(s, es, e);
    var all := es + [e];
    forall i | 0 <= i < |all| && !refusedDeleted ensures !FinalizesRefused(Run(s, all[..i]), all[i]) {
      assert all[..i] == es[..i];
      assert i == |es| ==> es[..i] == es;
    }
  }

  /** One deployment is set up. Its rival has the same name, so that the claim does not stop it, or it is deleted
      once, which drops the claim that it never held, and created again: both are managed. */
  lemma RivalsMeet(d: Option<RemoteBackend>, sites: Sites, refusedDeleted: bool, k: Key, k': Key)
    returns (es: seq<Event>)
    requires Rivals(sites, k, k') && (k.name == k'.name || refusedDeleted)
    ensures FittingRun(sites, refusedDeleted, Init(d), es) && Doubled(Run(Init(d), es), sites)
  {
    es := [];
    CreateResult(Run(Init(d), es), k, sites[k]);
    FittingSnoc(sites, refusedDeleted, Init(d), es, Create(k, sites[k]));
    es := es + [Create(k, sites[k])];
    if refusedDeleted {
      DiscardResult(Run(Init(d), es), k', sites[k']);
      FittingSnoc(sites, refusedDeleted, Init(d), es, Discard(k', sites[k']));
      es := es + [Discard(k', sites[k'])];
    }
    CreateResult(Run(Init(d), es), k', sites[k']);
    FittingSnoc(sites, refusedDeleted, Init(d), es, Create(k', sites[k']));
    es := es + [Create(k', sites[k'])];
  }

  /** No run manages two deployments of one remote model at once, if and only if such deployments have different
      names and one that was refused ownership is never deleted: its finalizer drops the claim it does not hold. */
  lemma ExclusiveExact(d: Option<RemoteBackend>, sites: Sites, refusedDeleted: bool)
    ensures (forall es | FittingRun(sites, refusedDeleted, Init(d), es) :: !Doubled(Run(Init(d), es), sites))
            <==> Protected(sites, refusedDeleted)
  {
    if Protected(sites, refusedDeleted) {
      forall es | FittingRun(sites, refusedDeleted, Init(d), es) ensures !Doubled(Run(Init(d), es), sites) {
        RunOwned(d, es, sites, refusedDeleted);
        OwnedNotDoubled(Run(Init(d), es), sites, refusedDeleted);
      }
    } else {
      var k, k' :| Rivals(sites, k, k') && !(k.name != k'.name && !refusedDeleted);
      var es := RivalsMeet(d, sites, refusedDeleted, k, k');
    }
  }

  lemma OwnedNotDoubled(s: State, sites: Sites, refusedDeleted: bool)
    requires Owned(s, sites) && Protected(sites, refusedDeleted)
    ensures !Doubled(s, sites)
  {
  }
}
