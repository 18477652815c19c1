/** The parts of a ModelDeployment that the controller acts on. */
module Deployments {
  import opened Common

  /** Namespace and name of a model deployment. */
  datatype Key = Key(namespace: string, name: string)

  /** Namespace and name of a Kubernetes service. */
  datatype Service = Service(namespace: string, name: string)

  datatype ServiceRef = ServiceRef(service: Service, port: nat)

  datatype RemoteBackend = RemoteBackend(host: string, scheme: string, pathPrefix: string, oauth: bool)

  /** The custom resource's schema bounds the percentage. */
  type Percent = p: int | 0 <= p <= 100

  datatype OffloadingConfig = OffloadingConfig(remote: Option<RemoteBackend>, percentage: Percent)

  /** A model deployment as the API server returns it. */
  datatype Model = Model(
    generation: int,
    deleting: bool,
    finalizer: bool,
    environment: string,
    remoteModel: string,
    enabled: bool,
    service: Option<ServiceRef>,
    config: Option<OffloadingConfig>,
    workspace: string)

  /** How an operation of the controller or the dataplane ends. */
  datatype Finish = Success | ConflictError | OtherError | Panic

  function FinishOf(c: Call): Finish {
    match c
    case Done => Success
    case Conflict => ConflictError
    case Failed => OtherError
  }
}
