/** The configurer as the controller sees it: a registry of the services it has taken over, and which of them it ever
    watched. */
module LocalServices {
  import opened Common
  import opened Deployments

  type Registry = map<Service, Service>

  /** How far a configuration got: not to the registry entry, not to the first watcher, or past it. */
  datatype Stage = Unregistered | Unwatched | Watched

  /** How a configuration goes: its result and, for a failed one, how far it got. */
  datatype ConfigureReply = ConfigureReply(call: Call, stage: Stage)

  /** How an unconfiguration goes: its result and, for a failed one, whether the registry entry was gone by then. */
  datatype UnconfigureReply = UnconfigureReply(call: Call, entryRemoved: bool)

  datatype ServiceStep = ServiceStep(registry: Registry, watched: set<Service>, finish: Finish)

  /** The service that stands beside `svc` and still selects its pods. */
  function BeamlitService(svc: Service): Service { svc.(name := svc.name + "-beamlit") }

  function Configure(reg: Registry, watched: set<Service>, svc: Service, r: ConfigureReply): (s: ServiceStep)
    ensures Configured(reg, watched, svc, s.finish.Success?, s.registry, s.watched)
  {
    var stage := if r.call.Done? then Watched else r.stage;
    ServiceStep(
      if stage.Unregistered? then reg else reg[svc := BeamlitService(svc)],
      if stage.Watched? then watched + {svc} else watched,
      FinishOf(r.call))
  }

  /** A service that is not registered needs no work; one without watchers cannot be unconfigured. */
  function Unconfigure(reg: Registry, watched: set<Service>, svc: Service, r: UnconfigureReply): (s: ServiceStep)
    ensures Unconfigured(reg, watched, svc, s.finish.Success?, s.registry, s.watched)
  {
    if svc !in reg then ServiceStep(reg, watched, Success)
    else if svc !in watched then ServiceStep(reg, watched, OtherError)
    else ServiceStep(if r.call.Done? || r.entryRemoved then reg - {svc} else reg, watched, FinishOf(r.call))
  }

  function LocalOf(reg: Registry, ref: ServiceRef): Option<ServiceRef> {
    if ref.service in reg then Some(ServiceRef(reg[ref.service], ref.port)) else None
  }

  /** What any call that configures `svc` may do to the registry and to the watched services. */
  predicate Configured(
    reg: Registry, watched: set<Service>, svc: Service, success: bool, reg': Registry, watched': set<Service>)
  {
    var on := reg[svc := BeamlitService(svc)];
    if success then reg' == on && watched' == watched + {svc}
    else
      || (reg' == reg && watched' == watched)
      || (reg' == on && (watched' == watched || watched' == watched + {svc}))
  }

  /** What any call that unconfigures `svc` may do to them. */
  predicate Unconfigured(
    reg: Registry, watched: set<Service>, svc: Service, success: bool, reg': Registry, watched': set<Service>)
  {
    && watched' == watched
    && (svc !in reg ==> success)
    && (svc in reg && svc !in watched ==> !success && reg' == reg)
    && (if success then reg' == reg - {svc} else reg' == reg || reg' == reg - {svc})
  }
}
