/** Exactly when a step of the controller ends in which way, in terms of the state and of the calls it makes. */
module Outcomes {
  import opened Deployments
  import opened Dataplane
  import opened Controller

  /** The service is not registered, or it is watched and unconfiguring it goes well. */
  predicate Unconfigures(v: View, svc: Service, r: ReconcileReply) {
    svc !in v.registry || (svc in v.watched && r.unconfigure.call.Done?)
  }

  /** The offloader does not track the route, or the gateway has it and deletes it. */
  predicate CleansUp(v: View, r: ReconcileReply) { !v.cell.tracked || (v.cell.route.Some? && r.deleteOk) }

  lemma TearDownExact(v: View, svc: Service, r: ReconcileReply)
    ensures var t := TearDown(v, svc, r);
            && (t.outcome.Succeeded? <==> Unconfigures(v, svc, r) && CleansUp(v, r))
            && (t.outcome.Requeued? <==> svc in v.registry && svc in v.watched && r.unconfigure.call.Conflict?)
            && (t.outcome.Succeeded? || t.outcome.Requeued? || t.outcome.Errored?)
            && t.view.claims == v.claims && t.view.defaultRemote == v.defaultRemote
  {
  }

  lemma SetUpExact(v: View, k: Key, m: Model, ref: ServiceRef, c: OffloadingConfig, r: ReconcileReply)
    ensures var t := SetUp(v, k, m, ref, c, r); var named := c.remote.Some? || v.defaultRemote.Some?;
            && (t.outcome.Succeeded? <==>
                  r.configure.call.Done? && r.offload.read.Done? && named && r.offload.gatewayOk)
            && (t.outcome.Requeued? <==>
                  r.configure.call.Conflict? || (r.configure.call.Done? && r.offload.read.Conflict?))
            && (t.outcome.Panicked? <==> r.configure.call.Done? && r.offload.read.Done? && !named)
            && (t.outcome.Succeeded? || t.outcome.Requeued? || t.outcome.Panicked? || t.outcome.Errored?)
            && t.view.claims == v.claims
  {
  }

  /** Nobody else owns the remote model, and the generation is new. */
  predicate Due(v: View, k: Key, m: Model) {
    && (ClaimKey(m) in v.claims ==> v.claims[ClaimKey(m)] == k.name)
    && (v.managed.Some? ==> v.managed.value.lastGeneration != m.generation)
  }

  /** The lookups and the publication went well and the service and the route have been taken down. */
  predicate Cleared(v: View, k: Key, m: Model, r: ReconcileReply) {
    && Due(v, k, m) && r.lookups.Done? && r.publish.Done?
    && m.service.Some? && Unconfigures(v, m.service.value.service, r) && CleansUp(v, r)
  }

  /** The model is to be offloaded. */
  predicate Wanted(m: Model) { m.enabled && m.config.Some? }

  /** The model has been set up, if it is to be. */
  predicate Installed(v: View, k: Key, m: Model, r: ReconcileReply) {
    && Cleared(v, k, m, r)
    && (Wanted(m) ==>
          && r.configure.call.Done? && r.offload.read.Done? && r.offload.gatewayOk
          && (m.config.value.remote.Some? || v.defaultRemote.Some?))
  }

  lemma ConfigureExact(v: View, k: Key, m: Model, r: ReconcileReply)
    ensures var t := ConfigureOffloading(v, k, m, r);
            var down := m.service.Some? && Unconfigures(v, m.service.value.service, r) && CleansUp(v, r);
            var named := m.config.Some? && (m.config.value.remote.Some? || v.defaultRemote.Some?);
            && (t.outcome.Succeeded? <==>
                  down && (Wanted(m) ==>
                             r.configure.call.Done? && r.offload.read.Done? && named && r.offload.gatewayOk))
            && (t.outcome.Requeued? <==>
                  || (m.service.Some? && m.service.value.service in v.registry && m.service.value.service in v.watched
                      && r.unconfigure.call.Conflict?)
                  || (down && Wanted(m) &&
                      (r.configure.call.Conflict? || (r.configure.call.Done? && r.offload.read.Conflict?))))
            && (t.outcome.Panicked? <==>
                  m.service.None? || (down && Wanted(m) && r.configure.call.Done? && r.offload.read.Done? && !named))
            && (t.outcome.Succeeded? || t.outcome.Requeued? || t.outcome.Panicked? || t.outcome.Errored?)
            && t.view.claims == v.claims
  {
    if m.service.Some? {
      TearDownExact(v, m.service.value.service, r);
      if m.config.Some? {
        var down := TearDown(v, m.service.value.service, r);
        SetUpExact(Forget(down.view), k, m, m.service.value, m.config.value, r);
      }
    }
  }

  /** A reconciliation succeeds exactly when the model is due, everything it asks for goes well, the status update
      included, and there is a remote backend if one is needed. It is queued again for a conflict, wherever it comes
      from, and panics exactly for a missing service or remote backend. The claim is taken as soon as the lookups are
      done, whatever comes later. */
  lemma UpdateExact(v: View, k: Key, m: Model, r: ReconcileReply)
    requires Updates(m)
    ensures var t := ReconcileModel(v, k, m, r);
            && (t.outcome.NotOwner? <==> ClaimKey(m) in v.claims && v.claims[ClaimKey(m)] != k.name)
            && (t.outcome.NotOwner? || t.outcome.SameGeneration? <==> !Due(v, k, m))
            && (t.outcome.Succeeded? <==> Installed(v, k, m, r) && r.status.Done?)
            && (t.outcome.Requeued? <==>
                  Due(v, k, m) &&
                  (|| r.lookups.Conflict?
                   || (r.lookups.Done? && r.publish.Conflict?)
                   || (r.lookups.Done? && r.publish.Done? && m.service.Some? && m.service.value.service in v.registry
                       && m.service.value.service in v.watched && r.unconfigure.call.Conflict?)
                   || (Cleared(v, k, m, r) && Wanted(m) &&
                       (r.configure.call.Conflict? || (r.configure.call.Done? && r.offload.read.Conflict?)))
                   || (Installed(v, k, m, r) && r.status.Conflict?)))
            && (t.outcome.Panicked? <==>
                  Due(v, k, m) && r.lookups.Done? && r.publish.Done? &&
                  (|| m.service.None?
                   || (Cleared(v, k, m, r) && Wanted(m) && r.configure.call.Done? && r.offload.read.Done?
                       && m.config.value.remote.None? && v.defaultRemote.None?)))
            && t.view.claims == if Due(v, k, m) && r.lookups.Done? then v.claims[ClaimKey(m) := k.name] else v.claims
  {
    ConfigureExact(v.(claims := v.claims[ClaimKey(m) := k.name]), k, m.(workspace := r.workspace), r);
  }

  /** A finalizer completes exactly when there is no config left, or the service and the route have been taken down and
      the remote deployment is gone. */
  lemma FinalizeExact(v: View, k: Key, m: Model, r: ReconcileReply)
    requires Finalizes(m)
    ensures var t := ReconcileModel(v, k, m, r);
            && (t.outcome.Finalized? <==>
                  || m.config.None?
                  || (m.service.Some? && Unconfigures(v, m.service.value.service, r) && CleansUp(v, r)
                      && r.retire.Done?))
            && (t.outcome.Panicked? <==> m.config.Some? && m.service.None?)
            && (t.outcome.Finalized? || t.outcome.Panicked? || t.outcome.FinalizeFailed?)
  {
    if m.service.Some? {
      TearDownExact(Forget(v).(claims := v.claims - {ClaimKey(m)}), m.service.value.service, r);
    }
  }

  /** A change of weight is carried out exactly when the service has been taken over, there is a remote backend and the
      calls go well; it panics exactly for a missing service or, once the service has been read, a missing remote. */
  lemma RerouteExact(v: View, k: Key, m: Model, weight: int, o: OffloadReply)
    requires m.config.Some?
    ensures var t := Reroute(v, k, m, weight, o);
            var named := m.config.value.remote.Some? || v.defaultRemote.Some?;
            && (t.outcome.Handled? <==>
                  m.service.Some? && m.service.value.service in v.registry && o.read.Done? && named && o.gatewayOk)
            && (t.outcome.Panicked? <==>
                  m.service.None? || (m.service.value.service in v.registry && o.read.Done? && !named))
            && (t.outcome.Handled? || t.outcome.Panicked? || t.outcome.HandlerFailed?)
  {
  }

  /** An event comes to nothing exactly when its model cannot be read or is not managed, and panics on a managed model
      without an offloading config; none touches more than share, health and route, and no metric event the health. A
      reconciliation comes to nothing exactly when there is nothing to read, or nothing to finalize or update. */
  lemma EventExact(v: View, e: Event)
    ensures !e.Reconcile? ==>
              && (Next(v, e).outcome.Ignored? <==>
                    e.read.None? || v.managed.None? || (e.Metric? && !v.managed.value.healthy))
              && (!Next(v, e).outcome.Ignored? && e.read.value.config.None? ==> Next(v, e).outcome.Panicked?)
    ensures !e.Reconcile? ==>
              var v' := Next(v, e).view;
              && v' == v.(ongoing := v'.ongoing, health := v'.health, cell := v'.cell)
              && (e.Metric? ==> v'.health == v.health)
    ensures e.Reconcile? ==>
              (Next(v, e).outcome.Ignored? <==> e.read.None? || !e.read.value.finalizer)
    ensures Next(v, e).outcome.Ignored? || (!e.Reconcile? && e.read.value.config.None?) ==> Next(v, e).view == v
  {
    if e.Reconcile? && e.read.Some? {
      if Updates(e.read.value) {
        UpdateExact(v, e.key, e.read.value, e.reply);
      } else if Finalizes(e.read.value) {
        FinalizeExact(v, e.key, e.read.value, e.reply);
      }
    }
  }
}
