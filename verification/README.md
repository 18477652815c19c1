# Verified model of the Beamlit controller's traffic offloading

A Kubernetes controller decides which share of a model's requests goes to a remote backend, and an HTTP gateway
carries the split out. This project models the parts of that system whose correctness does not show in any single
function, and proves what they guarantee over every input, every run and every reachable state. `dafny verify
dfyconfig.toml` checks all of it.

| files | part of the system |
|---|---|
| `Controller`, `Reachability`, `Runs`, `Orphans`, `Ownership`, `HalfConfigured`, `Lifecycle`, `Outcomes`, `Phases`, `Callbacks`, `Reconciler` | the reconciler: its maps, its events, its error paths |
| `Deployments`, `LocalServices`, `Dataplane`, `WrittenRoutes`, `Offloaders` | model deployments, the configurer's registry, the gateway offloader |
| `Routes`, `Hosts`, `WeightedDraw`, `RouteTable`, `Gateway`, `Failover`, `Handler`, `Requests` | the gateway: store, host indexes, weighted draw, retries, whole requests |
| `Histories`, `EndToEnd` | from the controller's state to the requests the gateway sends |
| `MetricSpecs`, `ReachedCondition`, `Utilization`, `MetricEvaluation`, `MetricVerdicts`, `MetricWatcher` | the metric informer |
| `EndpointSlices`, `MirrorPorts`, `Selections`, `Configurers` | taking endpoint slices over and handing them back |

What the program changes in place is a class here, and each of its methods is tied to a function on values; the
theorems are about those functions. A step of the controller is written as a function of one model's *view* of the
state (`Read`, `Write`), which makes it plain that a step touches one model only.

## What is proved, in short

* The share recorded for a model is the weight of its stored route in every run **if and only if** no two models share
  a name and a route can always be written. Two situations break it besides a shared name: a conflict reported by the
  offloader's service lookup (the conflict path of `Reconcile` skips the clean-up that every other error gets), and no
  remote backend at all (the offloader panics after the maps have been written, past the clean-up).
* A model held to be unhealthy is fully remote in every reachable state, down to each first draw, **if and only if** no
  two models share a name; conflicts, missing remote backends and lost deletions do no harm to this.
* Until a model is reconciled at another generation or finalized, its share, health and route follow a machine of five
  phases, whatever fails. The phases are known in closed form: an unhealthy model recovers exactly when a healthy event
  comes and its share is not 100, and a model that has fallen back is never offloaded again by a metric. If the call
  behind the fall-back fails, the model stays offloaded and nobody tries again. The user guide promises the share
  whenever the metric reaches its threshold; the code is followed, and the runs in which it keeps the promise are
  characterised.
* A reconciliation is skipped for an unchanged generation only when the latest real attempt succeeded at it.
* Late events are harmless after a reconciliation that failed with anything but a conflict, after a finalizer, and for a
  disabled model.
* No route outlives its model **if and only if** no two models share a name, the gateway never fails to delete a route
  and no deployment loses its offloading config before it is deleted: the finalizer returns early on a missing config.
* No two managed deployments stand for one remote model **if and only if** such deployments have different names and one
  that was refused ownership is never deleted: its finalizer drops the claim it does not hold.
* A service is half-configured, registered without a watcher, **if and only if** some configuration of it stopped
  between the two and none ever got further. Then it stays so whatever happens: no reconciliation with it succeeds any
  more and no deployment with it and an offloading config is finalized.
* A request is followed through its whole life: the first backend, the retry after a bad response, the retries after
  errors, each on the route that the backend index names for the host the request then carries. In every reachable state
  every request stays on its route and reaches both backends on the path meant for them **if and only if** no later
  operation on another route listed one of the route's port-less backend hosts, the path is not shortened by stripping
  the remote prefix, and the remote host has a port or there is no prefix (and, where a token may be refused, the
  request's own host leads to no other route). Which retries are made is fixed by the answers, and every request is
  addressed to the whole host, port included, of a backend of a stored route.
* Models that share a remote host, as they do under the default remote backend of `chart/values.yaml`, break this: a
  failed remote request of one is retried on the backends of the other, on its local service if the remote host has no
  port, or on its remote one with both prefixes on the path.
* A stored route says what the model does: the service's names, the service beside it on the same port, and the remote
  backend that the offloading config names, or the default one only if it names none, after any run whose events agree
  on the model.
* A model's hostname resolves to its route **if and only if** no later operation on another route listed that hostname;
  then the recorded share is the exact share of first draws that go to the remote backend.
* The list of reached metrics is exact for well-formed specs, malformed ones beside them or not; a malformed one that is
  ever reached stays for good, and the resource metrics with a utilization target can be. A pass over metrics whose
  source is set panics only where an evaluation does.
* Utilization is compared with target times request times replicas, and equality counts. The documentation speaks of an
  average usage higher than the target. On the strict reading and on the lenient one the condition under which the two
  agree for every usage is exact; beyond one unit of usage it comes down to a single replica and, on the strict reading,
  a threshold that no usage meets exactly.
* The range-and-delete loop over the ports equals the plain filter if and only if no two neighbours carry the port and
  the last entry does not, unless it is the only one.
* Configuring and unconfiguring a service hands all its slices back if and only if none was operator-managed before and
  the mirror's name was free or the service's own; any number of such cycles leaves the slices as they began.

## Assumptions

* Steps of the controller are atomic. A failed gateway call leaves the gateway as it was. The gateway keeps its store.
* The gateway's routes do not change while one request is served. The order of its handlers is that of the standard
  library's reverse proxy.
* The API server's answers, the random numbers, the clock, the token endpoint and the backends are inputs; any of them
  may fail at any time.
* The custom resource's schema fills the offloading behaviour in and bounds the percentage to 0..100.
* A panic leaves the state as it was at that moment, and the run may go on from there.

## Model

| member | source | states |
|---|---|---|
| Runs.WeightsExact | internal/controller/modeldeployment_controller.go:133-281 | in every possible run each entry p of the offloading map is stored as weights (100 - p, p), if and only if model names are unique, the offloader's lookup never reports a conflict and there is always a remote backend |
| Runs.RunSound | internal/controller/modeldeployment_controller.go:94-475 | under those conditions the weights agree for every model after any run of reconciliations, finalizations, metric and health events with arbitrary failures |
| Runs.OngoingIsShare | gateway/internal/proxy/handler.go:34-47 | in every reachable state the recorded share is the exact number of first draws out of 100 that the stored route sends to the remote backend |
| Runs.UnhealthyExact | internal/controller/modeldeployment_controller.go:428-475 | in every possible run each model held unhealthy has share 100 and a stored route that sends everything to the remote backend, if and only if no two models share a name |
| Runs.UnhealthyAllRemote | internal/controller/modeldeployment_controller.go:379-449 | where names are unique, in every reachable state where a model is held unhealthy its share is 100, metric events change nothing and every draw on its route picks the remote backend, whatever lookups and deletions answered |
| Runs.NamesakeTakesRemote | internal/controller/modeldeployment_controller.go:283-314 | a run in which a model is set up, becomes unhealthy and loses its route to the finalizer of its namesake |
| Runs.RunHealthSound | internal/controller/modeldeployment_controller.go:428-475 | an unhealthy model is fully offloaded after any run, whatever fails and whatever the names are |
| Orphans.RunTracks | internal/dataplane/offloader/beamlit_gateway_offloader.go:75-94 | in every run the offloader tracks only stored routes, so its deletions never miss; without lost deletions it tracks all of them |
| Orphans.OrphansExact | internal/dataplane/offloader/beamlit_gateway_offloader.go:87-94 | no run leaves an untracked route behind if and only if the gateway never fails to delete one |
| Runs.SharedNameBreaks | internal/dataplane/offloader/beamlit_gateway_offloader.go:36-36 | a run in which finalizing one of two namesakes takes the other's route away while its share stays recorded |
| Runs.UnwritableBreaks | internal/controller/modeldeployment_controller.go:133-142 | a run that leaves a recorded share without any route: the conflict path, or the panic without a remote backend |
| Orphans.LostDeletion | internal/dataplane/offloader/beamlit_gateway_offloader.go:91-93 | a run that leaves an orphan route after a failed deletion |
| Orphans.OutlivesExact | internal/controller/modeldeployment_controller.go:283-314 | no run completes a finalizer while a route is stored under the name, if and only if names are unique, deletions never fail and no deployment loses its config before its deletion |
| Orphans.RoutesCarried | internal/controller/modeldeployment_controller.go:291-309 | under those conditions a stored route belongs to a model that has carried a config since it was last finalized |
| Orphans.DroppedConfig | internal/controller/modeldeployment_controller.go:291-293 | set up, then deleted without its config: the finalizer completes, the model is unmanaged, and its route stays |
| Orphans.FailedDeletionOutlives | internal/dataplane/offloader/beamlit_gateway_offloader.go:87-94 | a failed deletion makes one finalization fail and the next complete with the route still stored |
| Ownership.ExclusiveExact | internal/controller/modeldeployment_controller.go:148-155 | no run manages two deployments of one remote model, if and only if such deployments have different names and one that was refused ownership is never deleted |
| Ownership.RunOwned | internal/controller/modeldeployment_controller.go:148-286 | under that condition every managed deployment holds the claim on its remote model, after any run |
| Ownership.RivalsMeet | internal/controller/modeldeployment_controller.go:286-286 | a run that ends with two managed deployments of one remote model: a namesake, or a refused rival deleted once and created again |
| Reachability.ReconcileAgrees | internal/controller/modeldeployment_controller.go:133-146 | the error path of a reconciliation restores agreement between share and route after a half-done configuration |
| Reachability.UpdateEntries | internal/controller/modeldeployment_controller.go:148-230 | an update leaves a model's entries, wipes them, or makes them those of a model just set up; only a success makes it managed, at its generation; an error wipes them |
| Reachability.ReadOther | internal/controller/modeldeployment_controller.go:67-69 | a step leaves the entries and the route of every model of another name alone |
| Lifecycle.SkipJustified | internal/controller/modeldeployment_controller.go:148-161 | a reconciliation is skipped for an unchanged generation only if the latest attempt past the checks succeeded at that generation, in the same life of the object |
| Lifecycle.LateEventsIgnored | internal/controller/modeldeployment_controller.go:323-374 | after a finalize attempt or a non-conflict failure, events on the model change nothing at all until a reconciliation succeeds |
| Lifecycle.DisabledGetsNoRoute | internal/controller/modeldeployment_controller.go:232-252 | after a successful reconciliation of a disabled model no late event creates or changes a route or an entry for it, provided no other model shares its service |
| HalfConfigured.HalfExact | internal/dataplane/configurer/kubernetes_configurer.go:82-124 | after any run a service is registered without a watcher if and only if some configuration of it stopped between the registry entry and the first watcher, and none ever got further |
| HalfConfigured.HalfForever | internal/dataplane/configurer/kubernetes_configurer.go:348-366 | with no assumption on any answer, such a service stays so over every run: no reconciliation with it succeeds, and no model with it and a config is finalized |
| HalfConfigured.HalfReached | internal/dataplane/configurer/kubernetes_configurer.go:82-108 | the first reconciliation of any model can end that way |
| HalfConfigured.NextServices | internal/controller/modeldeployment_controller.go:232-281 | what any step does to the registry entry and the watchers of any service |
| Lifecycle.MetricBurst | internal/controller/modeldeployment_controller.go:376-426 | any number of repetitions of a metric event has the effect of the first, whatever later calls answer, unless the first asked for offloading and failed |
| Callbacks.RunFollowsPhases | internal/controller/modeldeployment_controller.go:376-475 | after a successful set-up, through any run until the model changes and whatever fails, share, health and stored route are those of the phase that the signals lead to |
| Phases.DownExactly | internal/controller/modeldeployment_controller.go:451-474 | a model is down exactly when some unhealthy signal was carried out and no healthy one was since, or the share is 100 |
| Phases.LeftExactly | internal/controller/modeldeployment_controller.go:388-407 | a model has lost its entry exactly when a calm signal met it offloaded and not down, with nothing unhealthy since; it is stuck at its share exactly when the first such signal failed |
| Phases.DocumentedExactly | docs/docs/user-guide/offloading-metric.md:35-35 | where only metrics speak and nothing fails, the share is the documented one if and only if it is zero, the latest signal is not a reached one, or none was calm after a reached one |
| Callbacks.FallbackIsFinal | internal/controller/modeldeployment_controller.go:384-407 | after a fall-back no run of metric and healthy events offloads the model again |
| Callbacks.FullShareStaysDown | internal/controller/modeldeployment_controller.go:451-456 | with a configured share of 100 no run of healthy and metric events lifts the unhealthy state, whatever the calls answer |
| Outcomes.UpdateExact | internal/controller/modeldeployment_controller.go:133-281 | success, requeueing, panic, refusal and skipping of a reconciliation, each exactly in terms of the state and the answers; the claim is taken once the lookups are done |
| Outcomes.FinalizeExact | internal/controller/modeldeployment_controller.go:283-314 | a finalizer completes exactly without a config, or after the service and the route are down and the remote deployment is gone |
| Outcomes.RerouteExact | internal/controller/modeldeployment_controller.go:410-418 | a weight is carried out exactly for a taken-over service with a remote backend and working calls; the panics are exact |
| Outcomes.EventExact | internal/controller/modeldeployment_controller.go:323-374 | which events and reconciliations come to nothing, and which events panic; neither changes anything |
| Reconcilers.Reconciler.constructor | internal/controller/modeldeployment_controller.go:55-73 | a new reconciler holds empty maps |
| Reconcilers.Reconciler.Process | internal/controller/modeldeployment_controller.go:323-374 | the event loop runs the controller's step function over the events in order |
| Reconcilers.Reconciler.Handle | internal/controller/modeldeployment_controller.go:323-374 | one turn: events count only for managed models, and the whole state after it is that of the step function |
| Reconcilers.Reconciler.Reconcile | internal/controller/modeldeployment_controller.go:94-146 | finalize, skip, create or update, and the wiping of the maps on an error that is no conflict |
| Reconcilers.Reconciler.CreateOrUpdate | internal/controller/modeldeployment_controller.go:148-230 | ownership and generation checks, the claim, and the order of stores |
| Reconcilers.Reconciler.ConfigureOffloading | internal/controller/modeldeployment_controller.go:232-281 | tear-down, then set-up when enabled and configured |
| Reconcilers.Reconciler.TearDown | internal/controller/modeldeployment_controller.go:238-245 | the service is unconfigured, then the route is cleaned up |
| Reconcilers.Reconciler.SetUp | internal/controller/modeldeployment_controller.go:253-281 | the maps are written before the route is |
| Reconcilers.Reconciler.DropEntries | internal/controller/modeldeployment_controller.go:246-248 | the three deletions touch this model only |
| Reconcilers.Reconciler.Finalize | internal/controller/modeldeployment_controller.go:283-314 | claims and maps are cleared before anything can fail |
| Reconcilers.Reconciler.Reroute | internal/controller/modeldeployment_controller.go:410-418 | the local service is looked up and the route written with a weight |
| Reconcilers.Reconciler.MetricCallback | internal/controller/modeldeployment_controller.go:376-426 | the whole new state after a metric event |
| Reconcilers.Reconciler.HealthCallback | internal/controller/modeldeployment_controller.go:428-475 | the whole new state after a health event |
| LocalServices.Configure | internal/dataplane/configurer/kubernetes_configurer.go:82-126 | a successful call registers and watches the service; a failed one leaves the entry and the watcher as they were, or writes the first, or both |
| LocalServices.Unconfigure | internal/dataplane/configurer/kubernetes_configurer.go:348-359 | an unregistered service needs nothing, one without a watcher fails unchanged, a successful call leaves the service unregistered; watchers stay on record |
| Dataplane.BuildRoute | internal/dataplane/offloader/beamlit_gateway_offloader.go:35-58 | the route carries the model's name, the remote host, and weights (100 - w, w) |
| Dataplane.BuiltRouteShape | internal/dataplane/offloader/beamlit_gateway_offloader.go:44-57 | a local backend without prefix and with a port, then a remote one with the substituted prefix |
| WrittenRoutes.RunDescribed | internal/dataplane/offloader/beamlit_gateway_offloader.go:27-85 | after any run whose events agree on a model, its stored route has the service's five names, the service beside it on the same port, and host, scheme, token requirement and substituted prefix of the config's remote backend, or of the default one only if the config names none |
| WrittenRoutes.DigitsExact | internal/dataplane/offloader/beamlit_gateway_offloader.go:46-46 | a port is written as its decimal numeral without leading zeros |
| WrittenRoutes.ReplaceAllCuts | internal/dataplane/offloader/beamlit_gateway_offloader.go:54-54 | the prefix is cut at the occurrences of a variable, found from the left, and glued together with its value |
| WrittenRoutes.DefaultPrefix | chart/values.yaml:98-98 | the chart's default prefix becomes workspace and remote model in their places |
| WrittenRoutes.NextWorkspace | internal/dataplane/offloader/beamlit_gateway_offloader.go:32-34 | the workspace in use comes with an event, and the first one stays |
| Offloaders.Offloader.Configure | internal/dataplane/offloader/beamlit_gateway_offloader.go:27-85 | the route is registered or updated and tracked; a failure leaves the gateway as it was |
| Offloaders.Offloader.Cleanup | internal/dataplane/offloader/beamlit_gateway_offloader.go:87-94 | the name is forgotten even when the gateway fails to delete its route |
| Hosts.ExtractHost | gateway/internal/proxy/utils.go:47-49 | the longest prefix without a colon, the whole host exactly when it has none |
| Hosts.ExtractHostDropsPort | gateway/internal/proxy/utils.go:47-49 | a name with any port gives back the name |
| WeightedDraw.WeightedRandomBackend | gateway/internal/proxy/utils.go:18-28 | the loop returns the first backend whose running total exceeds the draw; the fallback is used exactly when no running total does |
| WeightedDraw.PickInterval | gateway/internal/proxy/utils.go:18-28 | backend i is drawn exactly between two consecutive prefix sums, and the fallback is unreachable |
| WeightedDraw.DrawShare | gateway/internal/proxy/utils.go:18-28 | backend i gets exactly its weight out of the total number of draws |
| WeightedDraw.PercentageSplit | internal/dataplane/offloader/beamlit_gateway_offloader.go:44-57 | a route at percentage p sends exactly p of 100 draws to the remote backend |
| RouteTable.Point | gateway/internal/proxy/proxy.go:41-46 | the listed hosts point to the route, all others as before |
| RouteTable.StoreLaw | gateway/internal/persistence/inmem.go:18-43 | after any history the store holds the route of the last operation on that name |
| RouteTable.IndexLaw | gateway/internal/proxy/proxy.go:40-62 | after any history each index names the route of the last register or update that listed the host, deletions notwithstanding |
| RouteTable.UnlistedHost | gateway/internal/proxy/proxy.go:40-62 | a host that no operation listed has no entry |
| RouteTable.ResolveLaw | gateway/internal/proxy/handler.go:18-32 | a hostname resolves to the route now stored under the name that last listed it, and to nothing once that name is deleted |
| RouteTable.EveryBackendIndexed | gateway/internal/proxy/proxy.go:44-46 | after any history every backend of every stored route has an entry under its port-less host |
| RouteTable.OwnEntryExact | gateway/internal/proxy/proxy.go:40-62 | a host listed by a stored route leads to that route in the index, if and only if no later operation on another route listed it |
| RouteTable.OwnFailoverExact | gateway/internal/proxy/proxy.go:40-62 | after any history every backend of every stored route is indexed to that route, if and only if no later operation on another route listed its port-less host |
| Gateway.InMem.Store | gateway/internal/persistence/inmem.go:18-21 | the route is stored under its name |
| Gateway.InMem.GetRoute | gateway/internal/persistence/inmem.go:23-29 | the stored route, or nothing exactly when there is none |
| Gateway.InMem.DeleteRoute | gateway/internal/persistence/inmem.go:36-43 | the route is removed and returned, or not found |
| Gateway.Proxy.IndexHostnames | gateway/internal/proxy/proxy.go:41-43 | the loop points exactly the route's hostnames to it |
| Gateway.Proxy.IndexBackends | gateway/internal/proxy/proxy.go:44-46 | the loop points exactly the port-less backend hosts to it |
| Gateway.Proxy.RegisterRoute | gateway/internal/proxy/proxy.go:40-48 | both indexes and the store after registration |
| Gateway.Proxy.UpdateRoute | gateway/internal/proxy/proxy.go:54-62 | an update indexes and stores like a registration |
| Gateway.Proxy.DeleteRoute | gateway/internal/proxy/proxy.go:64-66 | the store loses the route, the indexes keep its hosts |
| Gateway.Proxy.ResolveHost | gateway/internal/proxy/handler.go:18-32 | the route behind a port-less inbound host |
| Failover.RemovePathPrefix | gateway/internal/proxy/handler.go:228-236 | what remains after the effective prefix, or the path itself |
| Failover.PrefixRoundTrip | gateway/internal/proxy/handler.go:72-74 | stripping undoes prefixing, and is without effect exactly on inert paths |
| Failover.StrippedExactly | gateway/internal/proxy/handler.go:228-236 | what is taken off a path, said for paths and prefixes with and without a leading slash |
| Failover.AbsolutePathInert | gateway/internal/proxy/handler.go:228-236 | a path that starts with a slash and not with the prefix is inert |
| Failover.OnePrefixCopy | gateway/internal/proxy/handler.go:54-127 | over any number of attempts with any weights, hosts and failures, everything sent to the remote backend carries exactly one prefix before the original path |
| Failover.OnePrefixExact | gateway/internal/proxy/handler.go:101-128 | in all runs on an offloader route the remote backend is sent one copy of its prefix, if and only if stripping it leaves the original path alone |
| Failover.PrefixConditionNeeded | gateway/internal/proxy/handler.go:108-121 | where the path is not inert, some run sends the remote backend another path, for any weights that can be drawn |
| Failover.LocalPathAfterRemote | gateway/internal/proxy/handler.go:108-121 | after a remote failure or bad response, whatever the token endpoint answers, the local backend gets the original path exactly when the remote host has a port, and the prefixed one otherwise |
| Failover.EveryPathKept | gateway/internal/proxy/handler.go:101-128 | over any number of attempts on offloader routes whose remote host has a port, everything sent carries its own backend's prefix before the original path |
| Failover.PortlessRemoteBreaks | gateway/internal/proxy/handler.go:108-121 | without a port on the remote host, some run sends the local backend the prefixed path |
| Failover.RightPathsExact | gateway/internal/proxy/handler.go:101-128 | in all runs on an offloader route both backends are sent the path meant for them, if and only if the path is inert and the remote host has a port or there is no prefix |
| Failover.FirstShare | gateway/internal/proxy/handler.go:34-47 | the first draw is over all backends, each getting its weight; a draw of a backend sends the request there unless its token is refused |
| Failover.RetryShare | gateway/internal/proxy/handler.go:101-201 | in a retry every backend with another host than the request's, or after a bad response another scheme, gets max(weight, 1) of the draws, parked ones included, and is sent the request; the others get none |
| Failover.ConsecutiveHostsDiffer | gateway/internal/proxy/handler.go:88-127 | along error retries, consecutive requests never go to the same port-less host, even across attempts that sent nothing |
| Failover.SentAddresses | gateway/internal/proxy/handler.go:54-76 | along any attempts each request is addressed to the whole host and the scheme of the backend drawn, and names its host without port |
| Handler.HandleBackend | gateway/internal/proxy/handler.go:54-76 | the request is addressed to the backend's whole host and scheme, or left alone when the token cannot be fetched |
| Handler.Gather | gateway/internal/proxy/handler.go:106-121 | the loop yields the candidates, their total weight and the stripped path |
| Handler.TryBackend | gateway/internal/proxy/handler.go:101-128 | one choice of a backend up to the moment of sending, with every way it can fail |
| Handler.Rewrite | gateway/internal/proxy/handler.go:17-52 | the route of the inbound host decides the first backend |
| Handler.ModifyResponse | gateway/internal/proxy/handler.go:162-201 | a status from 399 up triggers one retry on the indexed route |
| Handler.Retry | gateway/internal/proxy/handler.go:88-94 | attempts are made until one is answered, panics, or the replies run out, and no later; the status says which |
| Handler.ErrorHandler | gateway/internal/proxy/handler.go:78-99 | up to four retries on the route indexed for the failed host, or not found |
| Requests.StaysExact | gateway/internal/proxy/handler.go:78-99 | every attempt of every request on a route is made on that route, if and only if the index leads its backend hosts to it, and the request's own host nowhere else where a token may be refused |
| Requests.OneCopyExact | gateway/internal/proxy/handler.go:78-201 | a request stays on its route and its remote backend is sent one copy of the prefix, if and only if, besides, the path is inert |
| Requests.RightPathsExactly | gateway/internal/proxy/handler.go:78-201 | a request stays on its route and both backends are sent the right path, if and only if, besides, the remote host has a port or there is no prefix |
| Requests.MadeAddresses | gateway/internal/proxy/handler.go:65-69 | whatever is sent in a request's life is addressed to the whole host and the scheme of a backend of a stored route, of its own route if it stays on it |
| Requests.CrossedPrefixes | gateway/internal/proxy/handler.go:80-120 | where the index names another route for a shared remote host, a failed remote request is sent to that host with the other prefix before what cannot be stripped |
| Requests.CrossedExample | gateway/internal/proxy/handler.go:80-120 | with prefixes /a and /b, a request for /x, inert for both, is sent as /b/a/x |
| Requests.Serve | gateway/internal/proxy/proxy.go:29-33 | which attempts the reverse proxy makes: the retry after a bad response exactly from 399 up on a known host, the error handler exactly without an answer or after a failed retry, and its retries up to the first that is answered or panics |
| EndToEnd.RunShape | internal/dataplane/offloader/beamlit_gateway_offloader.go:35-58 | after any run every stored route is one of the offloader's: its own name, a ported local backend without prefix, a remote one, 100 draws between them |
| EndToEnd.ReachableRequestsExact | gateway/internal/proxy/handler.go:34-201 | in every reachable state and whatever a request meets, it stays on its route and is sent on the right paths, if and only if no later operation on another route listed a backend host of it, the path is inert and the remote host has a port or there is no prefix (unless the remote host is the local backend's port-less one) |
| EndToEnd.HostnameShareExact | gateway/internal/proxy/handler.go:18-47 | a request on a model's hostname resolves to its route if and only if no later operation on another route listed the hostname; then exactly the recorded share of 100 first draws is remote |
| EndToEnd.ReachableIndexed | gateway/internal/proxy/proxy.go:44-46 | in every reachable state every backend of every stored route has an entry in the index |
| Histories.RunHistory | gateway/internal/proxy/proxy.go:40-66 | the table after any run of the controller is what a history of updates and deletions leaves |
| EndToEnd.RetriesStayOnRoute | gateway/internal/proxy/handler.go:101-128 | everything that retries on a route send goes to a backend of that route as then stored |
| EndToEnd.FailoverCrossesModels | gateway/internal/proxy/handler.go:78-99 | of two models that share a remote host, a failed remote request of the first is retried on the backends of the second, and on its local service when the host has no port |
| MetricSpecs.EqualByIdentity | internal/informers/metric/kubernetes_helper.go:35-113 | two specs are equal exactly when both are well formed with one identity; the comparison panics exactly on one kind with a missing source |
| MetricSpecs.EqualityLaws | internal/informers/metric/kubernetes_helper.go:37-113 | the equality is symmetric and transitive, and reflexive on well-formed specs only |
| ReachedCondition.Find | internal/informers/metric/kubernetes_informer.go:404-419 | the first equal element, or none, or the panic of the comparison |
| ReachedCondition.FlagMeansNonEmpty | internal/informers/metric/kubernetes_informer.go:396-435 | after any updates the flag is set exactly when the list is not empty |
| ReachedCondition.SinceStretch | internal/informers/metric/kubernetes_informer.go:388-435 | the start is the time of the first update of the latest unbroken stretch over which the list was never empty |
| ReachedCondition.ReachedExactly | internal/informers/metric/kubernetes_informer.go:437-446 | the condition is reported exactly when there is such a stretch and it began more than the window ago |
| ReachedCondition.ListRepresents | internal/informers/metric/kubernetes_informer.go:396-435 | for specs whose source is set, malformed or not, the list holds no two equal specs and represents exactly the specs whose latest verdict was positive |
| ReachedCondition.MalformedNeverLeaves | internal/informers/metric/kubernetes_informer.go:404-433 | a malformed spec is added at every positive verdict and never removed, so the condition stays reached for good |
| MetricWatcher.ConditionStatus.Update | internal/informers/metric/kubernetes_informer.go:396-435 | the loop, the removal, the additions and the deferred reset, as one transition |
| MetricWatcher.ConditionStatus.IsReached | internal/informers/metric/kubernetes_informer.go:438-446 | reached, and for longer than the window |
| MetricWatcher.Watcher.CheckMetric | internal/informers/metric/kubernetes_informer.go:208-386 | a pass crashes exactly when an evaluation or a comparison panics, with the condition as the metrics before left it; otherwise every verdict updates the condition, and an error is returned exactly for a failure that is not overlooked |
| MetricWatcher.PassesRepresent | internal/informers/metric/kubernetes_informer.go:208-386 | after any passes each well-formed metric is in the list exactly when its latest evaluation that did not fail was reached |
| MetricWatcher.PassPanicsExactly | internal/informers/metric/kubernetes_informer.go:404-419 | over metrics whose source is set a pass panics only where an evaluation does |
| MetricWatcher.PassContinues | internal/informers/metric/kubernetes_informer.go:208-249 | one more pass is one more step of the history |
| MetricEvaluation.FindRequestedResource | internal/informers/metric/kubernetes_helper.go:168-191 | the 64-bit sum over all containers of all pods of what they request |
| MetricEvaluation.IsMetricReached | internal/informers/metric/kubernetes_helper.go:193-223 | the verdict of each kind of target, with its error and its panic |
| MetricEvaluation.PlainReachedExact | internal/informers/metric/kubernetes_helper.go:193-219 | the verdict in closed form where sums fit: from target times replicas up, or up to the target |
| MetricEvaluation.EvaluateResource | internal/informers/metric/kubernetes_informer.go:279-322 | utilization against requests, or the recent values; no request at all panics |
| MetricEvaluation.EvaluatePlain | internal/informers/metric/kubernetes_informer.go:250-278 | a selector that must parse, then the values as they come |
| MetricEvaluation.EvaluateMetric | internal/informers/metric/kubernetes_informer.go:210-376 | the verdict on any metric, zero replicas counting as not reached |
| MetricVerdicts.RequestedExactly | internal/informers/metric/kubernetes_helper.go:168-191 | each of the four resources is the 64-bit sum of its own field, any other is zero |
| MetricVerdicts.ReplicasFirst | internal/informers/metric/kubernetes_informer.go:211-219 | a failed replica count fails, no replicas means not reached, a missing or unknown source panics |
| MetricVerdicts.FetchesExactly | internal/informers/metric/kubernetes_informer.go:220-264 | which metrics need a selector that parses, and how a failed fetch ends |
| MetricVerdicts.PlainExactly | internal/informers/metric/kubernetes_helper.go:193-223 | the verdict on all but resource metrics in closed form over all samples, targets without their field included |
| MetricVerdicts.RecentExactly | internal/informers/metric/kubernetes_informer.go:306-322 | a resource metric without utilization target is judged by its recent samples only |
| MetricVerdicts.RecentSelects | internal/informers/metric/kubernetes_informer.go:306-311 | the recent values are those of the recent samples, in order |
| MetricVerdicts.UtilizationExactly | internal/informers/metric/kubernetes_informer.go:279-304 | a resource metric with a utilization target is judged against the true requests; no requests panic, a failed listing fails |
| MetricEvaluation.MalformedReachable | internal/informers/metric/kubernetes_informer.go:279-322 | a malformed spec can get a positive verdict if and only if it is a resource metric with a utilization target on a resource that pods request |
| MetricEvaluation.GatherValues | internal/informers/metric/kubernetes_informer.go:306-311 | all values, or the recent ones only |
| Utilization.Accumulate | internal/informers/metric/kubernetes_informer.go:297-300 | a sum that wraps in 64 bits |
| Utilization.UtilizationExact | internal/informers/metric/kubernetes_informer.go:290-304 | where a hundred times the usage fits, nothing overflows and utilization is reached exactly when 100 * usage >= target * request * replicas |
| Utilization.OverflowMisses | internal/informers/metric/kubernetes_informer.go:301-301 | just beyond the bound a huge usage is not reached |
| Utilization.DocumentationExact | docs/docs/user-guide/offloading-metric.md:105-105 | on the strict and on the lenient reading the verdict is the documented one for every usage that fits, if and only if no usage lies between the documented threshold and the one raised by the replicas; beyond one unit of usage, exactly for one replica and, on the strict reading, no usage at the threshold |
| EndpointSlices.RoundTrip | internal/dataplane/configurer/kubernetes_configurer.go:219-448 | configuring and unconfiguring pristine slices hands the service's slices back, emptied, deletes the mirror and leaves all others as they were |
| EndpointSlices.RoundTripExact | internal/dataplane/configurer/kubernetes_configurer.go:219-448 | everything is handed back if and only if no slice of the service was operator-managed and the mirror's name was free or the service's own |
| EndpointSlices.ManyCycles | internal/dataplane/configurer/kubernetes_configurer.go:348-386 | any number of cycles, with slices refilled in between, ends with the same slices, labels intact, none operator-managed |
| EndpointSlices.ConfiguredElsewhere | internal/dataplane/configurer/kubernetes_configurer.go:219-346 | while taken over, the service's slices are operator-managed and empty, and other slices untouched |
| EndpointSlices.ConfiguredMirror | internal/dataplane/configurer/kubernetes_configurer.go:262-311 | after a configuration the mirror has the endpoints and the address type of the slice beside, its ports without the target in order and without application protocol, and the three labels |
| Configurers.Configurer.Configure | internal/dataplane/configurer/kubernetes_configurer.go:82-126 | on success the slices are those of a configured service, whose mirror shows endpoints and filtered ports of the one slice of the service beside, and the taken ones are remembered; on failure each slice of the service but the mirror is as it was, relabelled or emptied, and all others are untouched; the registry entry survives a late failure |
| Configurers.Configurer.TakeOverSlices | internal/dataplane/configurer/kubernetes_configurer.go:219-242 | the loop takes over and remembers exactly the slices not yet operator-managed |
| Configurers.Configurer.CreateMirror | internal/dataplane/configurer/kubernetes_configurer.go:246-323 | the mirror shows the one slice of the service beside, without the port; none or several are an error |
| Configurers.Configurer.CleanSlices | internal/dataplane/configurer/kubernetes_configurer.go:325-346 | the loop empties every slice of the service but the mirror |
| Configurers.Configurer.Unconfigure | internal/dataplane/configurer/kubernetes_configurer.go:348-386 | on success the remembered slices are handed back and operator-managed ones deleted; the service is unregistered; on failure some remembered slices may be handed back and some operator-managed ones gone, and all others are untouched; an unregistered service needs nothing; one without watchers fails at once and nothing changes |
| Configurers.Configurer.HandBackSlices | internal/dataplane/configurer/kubernetes_configurer.go:415-429 | the loop hands back every remembered slice, or fails on a missing one |
| Configurers.Configurer.DeleteOperated | internal/dataplane/configurer/kubernetes_configurer.go:431-448 | the loop deletes exactly the service's operator-managed slices |
| Configurers.Configurer.AwaitSlices | internal/dataplane/configurer/kubernetes_configurer.go:475-508 | the remembered slices are forgotten exactly when a poll finds one filled or five polls are over, those of other services untouched |
| Configurers.FindTarget | internal/dataplane/configurer/kubernetes_configurer.go:96-102 | the target port of the first service port with that number, or zero if there is none |
| Configurers.ConfigureThenUnconfigure | internal/dataplane/configurer/kubernetes_configurer.go:82-126 | the two methods compose to the round trip, with any slices of the service still remembered from before |
| Configurers.ManyTimes | internal/dataplane/configurer/kubernetes_configurer.go:475-508 | any number of cycles of the methods with refills ends with the slices it began with, even where a wait was cut short |
| MirrorPorts.CopyPorts | internal/dataplane/configurer/kubernetes_configurer.go:288-305 | the ports without the target, stripped of the application protocol |
| MirrorPorts.DeletePort | internal/dataplane/configurer/kubernetes_configurer_helper.go:56-64 | the loop over the array it shifts, with its panic |
| MirrorPorts.DeleteIsFilter | internal/dataplane/configurer/kubernetes_configurer_helper.go:56-64 | the loop yields the plain filter without panicking if and only if no two neighbours carry the port and the last entry does not, unless it is the only one |

## Left out

- Remote control plane client, OAuth token fetching, configuration, entry points and the JSON/YAML admin API: input and output only; a remote call is an answer given to a step.
- Notifications of the remote control plane: their result is only logged.
- Pod-port lookups and conversion are one answer before the claim, and creation with the parsing of its timestamps one answer after it.
- Prometheus informer, policy and tool reconcilers, generated code: they would only add easy members.
- External IPs and ports of the gateway service: the code overwrites the addresses instead of merging them, so there is no invariant over runs; the calls appear as calls that may fail.
- A deployment that changes the remote model it stands for, which leaves its old claim behind.
- Goroutine interleavings, registration of informers and the stop channels of watchers, which have no effect on stored slices.
- A restart of the gateway, which loses its routes while the controller keeps its entries.
- Headers, bodies and the re-encoding of the URL of a retried request; the branches of the first rewrite that answer not found are an absent outcome.
- Configurers.Configurer.Configure: after a failure it says what each slice may look like, not which slices were reached; the mirror may exist.
- The watch loop around the mirrored ports, beyond the removal of the port.
- Endpoint conditions that are missing, which panic while the mirror is built.
