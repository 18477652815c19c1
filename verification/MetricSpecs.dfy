/** Metric specifications and the equality that the informer tracks them by. */
module MetricSpecs {
  import opened Common

  datatype TargetKind = Utilization | Value | AverageValue | OtherTarget(name: string)

  /** A target carries the field that its kind calls for, or should. */
  datatype Target = Target(
    kind: TargetKind, averageUtilization: Option<int>, value: Option<real>, averageValue: Option<real>)

  /** A metric name with the rendering of its label selector. */
  datatype Identifier = Identifier(name: string, selector: Option<string>)

  datatype ObjectRef = ObjectRef(apiVersion: string, kind: string, name: string)

  datatype ContainerResourceSource = ContainerResourceSource(name: string, container: string, target: Target)
  datatype ExternalSource = ExternalSource(metric: Identifier, target: Target)
  datatype ObjectSource = ObjectSource(described: ObjectRef, metric: Identifier, target: Target)
  datatype PodsSource = PodsSource(metric: Identifier, target: Target)
  datatype ResourceSource = ResourceSource(name: string, target: Target)

  datatype SourceKind = ContainerResource | External | Object | Pods | Resource | OtherSource(name: string)

  /** The source that `kind` names is one of five pointers. */
  datatype Spec = Spec(
    kind: SourceKind,
    containerResource: Option<ContainerResourceSource>,
    external: Option<ExternalSource>,
    object_: Option<ObjectSource>,
    pods: Option<PodsSource>,
    resource: Option<ResourceSource>)

  predicate EqualTargets(a: Target, b: Target) {
    && a.kind == b.kind
    && match a.kind
       case Utilization => a.averageUtilization.Some? && b.averageUtilization == a.averageUtilization
       case Value => a.value.Some? && b.value == a.value
       case AverageValue => a.averageValue.Some? && b.averageValue == a.averageValue
       case OtherTarget(_) => false
  }

  /** The pointer that the kind names is set; the kinds without a pointer need none. */
  predicate Present(s: Spec) {
    match s.kind
    case ContainerResource => s.containerResource.Some?
    case External => s.external.Some?
    case Object => s.object_.Some?
    case Pods => s.pods.Some?
    case Resource => s.resource.Some?
    case OtherSource(_) => true
  }

  /** `None` is the panic on a missing pointer, which only specs of one kind can meet. */
  function Equal(a: Spec, b: Spec): Option<bool> {
    if a.kind != b.kind then Some(false)
    else if !Present(a) || !Present(b) then None
    else Some(
      match a.kind
      case ContainerResource =>
        var x, y := a.containerResource.value, b.containerResource.value;
        x.name == y.name && x.container == y.container && EqualTargets(x.target, y.target)
      case External =>
        var x, y := a.external.value, b.external.value;
        x.metric == y.metric && EqualTargets(x.target, y.target)
      case Object =>
        var x, y := a.object_.value, b.object_.value;
        x.described == y.described && x.metric == y.metric && EqualTargets(x.target, y.target)
      case Pods =>
        var x, y := a.pods.value, b.pods.value;
        x.metric == y.metric && EqualTargets(x.target, y.target)
      case Resource =>
        var x, y := a.resource.value, b.resource.value;
        x.name == y.name && EqualTargets(x.target, y.target)
      case OtherSource(_) => false)
  }

  predicate Same(a: Spec, b: Spec) { Equal(a, b) == Some(true) }

  // ----- what the equality means -----

  datatype TargetId = UtilizationId(percent: int) | ValueId(value: real) | AverageValueId(average: real)

  /** All that the equality looks at. */
  datatype SpecId =
    | ContainerResourceId(name: string, container: string, target: TargetId)
    | ExternalId(metric: Identifier, target: TargetId)
    | ObjectId(described: ObjectRef, metric: Identifier, target: TargetId)
    | PodsId(metric: Identifier, target: TargetId)
    | ResourceId(name: string, target: TargetId)

  function TargetIdOf(t: Target): Option<TargetId> {
    match t.kind
    case Utilization => if t.averageUtilization.Some? then Some(UtilizationId(t.averageUtilization.value)) else None
    case Value => if t.value.Some? then Some(ValueId(t.value.value)) else None
    case AverageValue => if t.averageValue.Some? then Some(AverageValueId(t.averageValue.value)) else None
    case OtherTarget(_) => None
  }

  /** The target of the source that the kind names. */
  function TargetOf(s: Spec): Target
    requires Present(s) && !s.kind.OtherSource?
  {
    match s.kind
    case ContainerResource => s.containerResource.value.target
    case External => s.external.value.target
    case Object => s.object_.value.target
    case Pods => s.pods.value.target
    case Resource => s.resource.value.target
  }

  /** A known kind, its pointer set, and the target field that the target's kind calls for. */
  predicate WellFormed(s: Spec) { Present(s) && !s.kind.OtherSource? && TargetIdOf(TargetOf(s)).Some? }

  function IdOf(s: Spec): SpecId
    requires WellFormed(s)
  {
    var t := TargetIdOf(TargetOf(s)).value;
    match s.kind
    case ContainerResource =>
      ContainerResourceId(s.containerResource.value.name, s.containerResource.value.container, t)
    case External => ExternalId(s.external.value.metric, t)
    case Object => ObjectId(s.object_.value.described, s.object_.value.metric, t)
    case Pods => PodsId(s.pods.value.metric, t)
    case Resource => ResourceId(s.resource.value.name, t)
  }

  /** Two specs are equal exactly when both are well formed and have the same identity; the informer panics
      exactly when they are of one kind and one of them lacks its source. */
  lemma EqualByIdentity(a: Spec, b: Spec)
    ensures Same(a, b) <==> WellFormed(a) && WellFormed(b) && IdOf(a) == IdOf(b)
    ensures Equal(a, b).None? <==> a.kind == b.kind && !(Present(a) && Present(b))
  {
  }

  /** The equality is symmetric and transitive, and reflexive on well-formed specs only. */
  lemma EqualityLaws(a: Spec, b: Spec, c: Spec)
    ensures Same(a, a) <==> WellFormed(a)
    ensures Same(a, b) ==> Same(b, a)
    ensures Same(a, b) && Same(b, c) ==> Same(a, c)
  {
  }
}
