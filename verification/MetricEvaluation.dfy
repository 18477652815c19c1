/** From what the metrics API answers to a verdict on one metric. */
module MetricEvaluation {
  import opened MetricSpecs
  import U = Utilization

  /** The answer of a call; `benign` marks the error text that the informer overlooks. */
  datatype Fetch<T> = Fetched(value: T) | FetchError(benign: bool)

  datatype Sample = Sample(value: int, recent: bool)

  /** What one container requests, in thousandths. */
  datatype Requests = Requests(cpu: int, memory: int, ephemeral: int, storage: int)

  /** What the cluster answers while one metric is evaluated. */
  datatype Reply = Reply(
    replicas: Fetch<int>, selectorOk: bool, usage: Fetch<seq<Sample>>, pods: Fetch<seq<seq<Requests>>>, now: int)

  datatype Verdict = Panicked | NotEvaluated(benign: bool) | Known(reached: bool)

  function Values(samples: seq<Sample>): seq<int> {
    seq(|samples|, i requires 0 <= i < |samples| => samples[i].value)
  }

  function RecentValues(samples: seq<Sample>): seq<int> {
    if samples == [] then []
    else
      var s := samples[|samples| - 1];
      RecentValues(samples[..|samples| - 1]) + if s.recent then [s.value] else []
  }

  // ----- requested resources -----

  function RequestOf(r: Requests, resource: string): int {
    if resource == "cpu" then r.cpu
    else if resource == "memory" then r.memory
    else if resource == "ephemeral-storage" then r.ephemeral
    else if resource == "storage" then r.storage
    else 0
  }

  function ContainerRequests(cs: seq<Requests>, resource: string): seq<int> {
    seq(|cs|, i requires 0 <= i < |cs| => RequestOf(cs[i], resource))
  }

  /** What all containers of all pods request, pod by pod. */
  function PodRequests(pods: seq<seq<Requests>>, resource: string): seq<int> {
    if pods == [] then []
    else PodRequests(pods[..|pods| - 1], resource) + ContainerRequests(pods[|pods| - 1], resource)
  }

  lemma OneMoreRequest(before: seq<int>, all: seq<int>, j: nat)
    requires j < |all|
    ensures U.Sum64(before + all[..j + 1]) == U.Wrap64(U.Sum64(before + all[..j]) + all[j])
  {
    assert (before + all[..j + 1])[..|before| + j] == before + all[..j];
  }

  method FindRequestedResource(pods: seq<seq<Requests>>, resource: string) returns (sum: int)
    ensures sum == U.Sum64(PodRequests(pods, resource))
  {
    sum := 0;
    assert pods[..0] == [];
    for i := 0 to |pods|
      invariant sum == U.Sum64(PodRequests(pods[..i], resource))
    {
      var cs := pods[i];
      ghost var before, all := PodRequests(pods[..i], resource), ContainerRequests(cs, resource);
      assert before + all[..0] == before;
      for j := 0 to |cs|
        invariant sum == U.Sum64(before + all[..j])
      {
        OneMoreRequest(before, all, j);
        sum := U.Wrap64(sum + RequestOf(cs[j], resource));
      }
      assert all[..|cs|] == all;
      assert pods[..i + 1][..i] == pods[..i];
    }
    assert pods[..|pods|] == pods;
  }

  // ----- verdicts -----

  /** `Value` and `AverageValue` are reached while the usage is at most the target. */
  function MetricReached(replicas: int, target: Target, values: seq<int>): Verdict
    requires replicas != 0
  {
    match target.kind
    case Utilization =>
      if target.averageUtilization.None? then NotEvaluated(false)
      else Known(U.Quotient(U.Sum64(values), replicas) >= target.averageUtilization.value)
    case Value =>
      if target.value.None? then Panicked else Known(target.value.value >= U.Sum64(values) as real)
    case AverageValue =>
      if target.averageValue.None? then Panicked
      else Known(target.averageValue.value >= U.Quotient(U.Sum64(values), replicas) as real)
    case OtherTarget(_) => NotEvaluated(false)
  }

  method IsMetricReached(replicas: int, target: Target, values: seq<int>) returns (v: Verdict)
    requires replicas != 0
    ensures v == MetricReached(replicas, target, values)
  {
    match target.kind {
      case Utilization =>
        if target.averageUtilization.None? {
          return NotEvaluated(false);
        }
        var sum := U.Accumulate(values);
        return Known(U.Quotient(sum, replicas) >= target.averageUtilization.value);
      case Value =>
        if target.value.None? {
          return Panicked;
        }
        var sum := U.Accumulate(values);
        return Known(target.value.value >= sum as real);
      case AverageValue =>
        var sum := U.Accumulate(values);
        if target.averageValue.None? {
          return Panicked;
        }
        return Known(target.averageValue.value >= U.Quotient(sum, replicas) as real);
      case OtherTarget(_) =>
        return NotEvaluated(false);
    }
  }

  /** A resource metric with a utilization target compares against the pods' requests; without any request
      the division panics. */
  function ResourceVerdict(m: ResourceSource, replicas: int, r: Reply): Verdict
    requires replicas != 0
  {
    if r.usage.FetchError? then NotEvaluated(r.usage.benign)
    else if m.target.averageUtilization.None? then MetricReached(replicas, m.target, RecentValues(r.usage.value))
    else if r.pods.FetchError? then NotEvaluated(r.pods.benign)
    else
      var request := U.Sum64(PodRequests(r.pods.value, m.name));
      if request == 0 then Panicked
      else Known(U.AverageUtilization(Values(r.usage.value), request, replicas) >= m.target.averageUtilization.value)
  }

  /** The other sources: a selector that must parse, where there is one, then the values as they come. */
  function PlainVerdict(target: Target, selected: bool, replicas: int, r: Reply): Verdict
    requires replicas != 0
  {
    if selected && !r.selectorOk then NotEvaluated(false)
    else if r.usage.FetchError? then NotEvaluated(r.usage.benign)
    else MetricReached(replicas, target, Values(r.usage.value))
  }

  /** Zero replicas count as not reached; a missing source panics while its error is being formatted. */
  function Evaluate(m: Spec, r: Reply): Verdict {
    if r.replicas.FetchError? then NotEvaluated(r.replicas.benign)
    else if r.replicas.value == 0 then Known(false)
    else if !Present(m) then Panicked
    else
      var n := r.replicas.value;
      match m.kind
      case Object => PlainVerdict(m.object_.value.target, true, n, r)
      case Pods => PlainVerdict(m.pods.value.target, true, n, r)
      case Resource => ResourceVerdict(m.resource.value, n, r)
      case ContainerResource => PlainVerdict(m.containerResource.value.target, false, n, r)
      case External => PlainVerdict(m.external.value.target, true, n, r)
      case OtherSource(_) => Panicked
  }

  /** The loops over the samples, which gather the values to sum. */
  method GatherValues(samples: seq<Sample>, onlyRecent: bool) returns (vs: seq<int>)
    ensures vs == if onlyRecent then RecentValues(samples) else Values(samples)
  {
    vs := [];
    assert samples[..0] == [];
    for i := 0 to |samples|
      invariant onlyRecent ==> vs == RecentValues(samples[..i])
      invariant !onlyRecent ==> vs == Values(samples[..i])
    {
      assert samples[..i + 1][..i] == samples[..i];
      if !onlyRecent || samples[i].recent {
        vs := vs + [samples[i].value];
      }
    }
    assert samples[..|samples|] == samples;
  }

  method EvaluateResource(m: ResourceSource, replicas: int, r: Reply) returns (v: Verdict)
    requires replicas != 0
    ensures v == ResourceVerdict(m, replicas, r)
  {
    if r.usage.FetchError? {
      return NotEvaluated(r.usage.benign);
    }
    if m.target.averageUtilization.None? {
      var recent := GatherValues(r.usage.value, true);
      v := IsMetricReached(replicas, m.target, recent);
      return;
    }
    if r.pods.FetchError? {
      return NotEvaluated(r.pods.benign);
    }
    var request := FindRequestedResource(r.pods.value, m.name);
    var vs := GatherValues(r.usage.value, false);
    var sum := U.Accumulate(vs);
    sum := U.Wrap64(sum * 100);
    if request == 0 {
      return Panicked;
    }
    sum := U.Quotient(sum, request);
    sum := U.Quotient(sum, replicas);
    return Known(sum >= m.target.averageUtilization.value);
  }

  method EvaluatePlain(target: Target, selected: bool, replicas: int, r: Reply) returns (v: Verdict)
    requires replicas != 0
    ensures v == PlainVerdict(target, selected, replicas, r)
  {
    if selected && !r.selectorOk {
      return NotEvaluated(false);
    }
    if r.usage.FetchError? {
      return NotEvaluated(r.usage.benign);
    }
    var vs := GatherValues(r.usage.value, false);
    v := IsMetricReached(replicas, target, vs);
  }

  method EvaluateMetric(m: Spec, r: Reply) returns (v: Verdict)
    ensures v == Evaluate(m, r)
  {
    if r.replicas.FetchError? {
      return NotEvaluated(r.replicas.benign);
    }
    var n := r.replicas.value;
    if n == 0 {
      return Known(false);
    }
    if !Present(m) {
      return Panicked;
    }
    match m.kind {
      case Object => v := EvaluatePlain(m.object_.value.target, true, n, r);
      case Pods => v := EvaluatePlain(m.pods.value.target, true, n, r);
      case Resource => v := EvaluateResource(m.resource.value, n, r);
      case ContainerResource => v := EvaluatePlain(m.containerResource.value.target, false, n, r);
      case External => v := EvaluatePlain(m.external.value.target, true, n, r);
      case OtherSource(_) => return Panicked;
    }
  }

  /** The verdict in closed form, for non-negative values whose sum fits: a utilization is reached from target times
      replicas up, a value up to the target, an average value while the average's whole part is at most the target. */
  lemma PlainReachedExact(replicas: int, target: Target, values: seq<int>)
    requires replicas > 0 && U.NonNegative(values) && U.Sum(values) < U.TWO63
    requires TargetIdOf(target).Some?
    ensures MetricReached(replicas, target, values) == Known(
              match target.kind
              case Utilization => U.Sum(values) >= target.averageUtilization.value * replicas
              case Value => U.Sum(values) as real <= target.value.value
              case _ => U.Sum(values) < (target.averageValue.value.Floor + 1) * replicas)
  {
    U.SumExact(values);
    var sum := U.Sum(values);
    U.QuotientExact(sum, replicas);
    match target.kind
    case Utilization => U.DivisionBound(sum, replicas, target.averageUtilization.value);
    case Value =>
    case AverageValue =>
      var t := target.averageValue.value;
      U.DivisionBound(sum, replicas, t.Floor + 1);
      assert t >= (sum / replicas) as real <==> t.Floor >= sum / replicas;
  }

  // ----- malformed specs -----

  predicate KnownResource(resource: string) {
    resource == "cpu" || resource == "memory" || resource == "ephemeral-storage" || resource == "storage"
  }

  predicate AllZero(vs: seq<int>) { forall i | 0 <= i < |vs| :: vs[i] == 0 }

  lemma {:induction false} ZeroSum(vs: seq<int>)
    requires AllZero(vs)
    ensures U.Sum64(vs) == 0
  {
    if vs != [] {
      ZeroSum(vs[..|vs| - 1]);
    }
  }

  lemma {:induction false} UnknownRequests(pods: seq<seq<Requests>>, resource: string)
    requires !KnownResource(resource)
    ensures AllZero(PodRequests(pods, resource))
  {
    if pods != [] {
      UnknownRequests(pods[..|pods| - 1], resource);
      assert AllZero(ContainerRequests(pods[|pods| - 1], resource));
    }
  }

  /** A usage of `t` over a request of 100, in one pod and with one replica. */
  function HighUsage(t: nat): Reply {
    Reply(Fetched(1), true, Fetched([Sample(t, true)]), Fetched([[Requests(100, 100, 100, 100)]]), 0)
  }

  lemma OneContainer(r: Requests, resource: string)
    ensures U.Sum64(PodRequests([[r]], resource)) == U.Wrap64(RequestOf(r, resource))
  {
  }

  lemma UsageOfHundred(t: nat)
    requires t < 0x8000_0000
    ensures U.AverageUtilization([t], 100, 1) == t
  {
    assert [t as int][..0] == [];
    assert U.Sum64([t]) == t;
    assert U.Wrap64(t * 100) == t * 100;
    assert t * 100 / 100 == t;
    U.QuotientExact(t * 100, 100);
    U.QuotientExact(t, 1);
  }

  lemma HighUsageReached(m: ResourceSource, t: nat)
    requires t < 0x8000_0000 && KnownResource(m.name)
    requires m.target.averageUtilization.Some? && m.target.averageUtilization.value <= t
    ensures ResourceVerdict(m, 1, HighUsage(t)) == Known(true)
  {
    OneContainer(Requests(100, 100, 100, 100), m.name);
    assert Values(HighUsage(t).usage.value) == [t];
    UsageOfHundred(t);
  }

  /** A malformed spec, with its 32-bit utilization target if it has one, can get a positive verdict if and only if it
      is a resource metric with such a target on a resource that pods request: that branch never looks at the kind of
      the target. */
  lemma MalformedReachable(m: Spec)
    requires !WellFormed(m)
    requires m.resource.Some? && m.resource.value.target.averageUtilization.Some? ==>
               m.resource.value.target.averageUtilization.value < 0x8000_0000
    ensures (exists r :: Evaluate(m, r) == Known(true)) <==>
            && m.kind.Resource? && m.resource.Some?
            && m.resource.value.target.averageUtilization.Some? && KnownResource(m.resource.value.name)
  {
    if m.kind.Resource? && m.resource.Some? && m.resource.value.target.averageUtilization.Some? {
      var s := m.resource.value;
      if KnownResource(s.name) {
        var t: nat := if s.target.averageUtilization.value > 0 then s.target.averageUtilization.value else 0;
        HighUsageReached(s, t);
        assert Evaluate(m, HighUsage(t)) == Known(true);
      } else {
        forall r: Reply | r.pods.Fetched?
          ensures U.Sum64(PodRequests(r.pods.value, s.name)) == 0
        {
          UnknownRequests(r.pods.value, s.name);
          ZeroSum(PodRequests(r.pods.value, s.name));
        }
      }
    }
  }
}
