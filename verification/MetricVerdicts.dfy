/** The verdict on a metric, said directly in terms of what the cluster answers. */
module MetricVerdicts {
  import opened MetricSpecs
  import opened MetricEvaluation
  import Selections
  import U = Utilization

  // ----- requests -----

  /** The true sum of one field over all containers of all pods. */
  function Total(pods: seq<seq<Requests>>, field: Requests -> int): int {
    if pods == [] then 0 else Total(pods[..|pods| - 1], field) + PodTotal(pods[|pods| - 1], field)
  }

  function PodTotal(cs: seq<Requests>, field: Requests -> int): int {
    if cs == [] then 0 else PodTotal(cs[..|cs| - 1], field) + field(cs[|cs| - 1])
  }

  lemma {:induction false} SumWraps(vs: seq<int>)
    ensures U.Sum64(vs) == U.Wrap64(U.Sum(vs))
  {
    if vs != [] {
      SumWraps(vs[..|vs| - 1]);
      WrapTwice(U.Sum(vs[..|vs| - 1]), vs[|vs| - 1]);
    }
  }

  lemma WrapTwice(a: int, b: int)
    ensures U.Wrap64(U.Wrap64(a) + b) == U.Wrap64(a + b)
  {
  }

  lemma {:induction false} SumJoined(a: seq<int>, b: seq<int>)
    ensures U.Sum(a + b) == U.Sum(a) + U.Sum(b)
  {
    if b == [] {
      assert a + b == a;
    } else {
      assert (a + b)[..|a + b| - 1] == a + b[..|b| - 1];
      SumJoined(a, b[..|b| - 1]);
    }
  }

  lemma {:induction false} PodTotalExact(cs: seq<Requests>, resource: string, field: Requests -> int)
    requires forall c :: RequestOf(c, resource) == field(c)
    ensures U.Sum(ContainerRequests(cs, resource)) == PodTotal(cs, field)
  {
    if cs != [] {
      PodTotalExact(cs[..|cs| - 1], resource, field);
      assert ContainerRequests(cs, resource)[..|cs| - 1] == ContainerRequests(cs[..|cs| - 1], resource);
    }
  }

  lemma {:induction false} TotalExact(pods: seq<seq<Requests>>, resource: string, field: Requests -> int)
    requires forall c :: RequestOf(c, resource) == field(c)
    ensures U.Sum64(PodRequests(pods, resource)) == U.Wrap64(Total(pods, field))
    ensures U.Sum(PodRequests(pods, resource)) == Total(pods, field)
  {
    if pods != [] {
      var init, cs := pods[..|pods| - 1], pods[|pods| - 1];
      TotalExact(init, resource, field);
      SumJoined(PodRequests(init, resource), ContainerRequests(cs, resource));
      PodTotalExact(cs, resource, field);
    }
    SumWraps(PodRequests(pods, resource));
  }

  /** What the pods request of a resource is the 64-bit sum of the field of that name; of any other there is none. */
  lemma RequestedExactly(pods: seq<seq<Requests>>)
    ensures U.Sum64(PodRequests(pods, "cpu")) == U.Wrap64(Total(pods, (r: Requests) => r.cpu))
    ensures U.Sum64(PodRequests(pods, "memory")) == U.Wrap64(Total(pods, (r: Requests) => r.memory))
    ensures U.Sum64(PodRequests(pods, "ephemeral-storage")) == U.Wrap64(Total(pods, (r: Requests) => r.ephemeral))
    ensures U.Sum64(PodRequests(pods, "storage")) == U.Wrap64(Total(pods, (r: Requests) => r.storage))
    ensures forall name | name !in {"cpu", "memory", "ephemeral-storage", "storage"} ::
              U.Sum64(PodRequests(pods, name)) == 0
  {
    TotalExact(pods, "cpu", (r: Requests) => r.cpu);
    TotalExact(pods, "memory", (r: Requests) => r.memory);
    TotalExact(pods, "ephemeral-storage", (r: Requests) => r.ephemeral);
    TotalExact(pods, "storage", (r: Requests) => r.storage);
    forall name | name !in {"cpu", "memory", "ephemeral-storage", "storage"}
      ensures U.Sum64(PodRequests(pods, name)) == 0
    {
      UnknownRequests(pods, name);
      ZeroSum(PodRequests(pods, name));
    }
  }

  // ----- values -----

  /** The recent values are those of the recent samples, in their order. */
  lemma {:induction false} RecentSelects(samples: seq<Sample>) returns (ks: seq<nat>)
    ensures Selections.Lists(ks, |samples|, (k: nat) => k < |samples| && samples[k].recent)
    ensures |RecentValues(samples)| == |ks|
    ensures forall i | 0 <= i < |ks| :: RecentValues(samples)[i] == samples[ks[i]].value
  {
    ks := [];
    if samples != [] {
      var n := |samples| - 1;
      ks := RecentSelects(samples[..n]);
      if samples[n].recent {
        ks := ks + [n];
      }
    }
  }

  /** The sum of the recent samples. */
  function RecentSum(samples: seq<Sample>): int {
    if samples == [] then 0
    else RecentSum(samples[..|samples| - 1]) + if samples[|samples| - 1].recent then samples[|samples| - 1].value else 0
  }

  /** The sum of all samples. */
  function SampleSum(samples: seq<Sample>): int {
    if samples == [] then 0 else SampleSum(samples[..|samples| - 1]) + samples[|samples| - 1].value
  }

  predicate Usages(samples: seq<Sample>) { forall s | s in samples :: s.value >= 0 }

  lemma {:induction false} SumsExact(samples: seq<Sample>)
    requires Usages(samples)
    ensures U.NonNegative(Values(samples)) && U.Sum(Values(samples)) == SampleSum(samples)
    ensures U.NonNegative(RecentValues(samples)) && U.Sum(RecentValues(samples)) == RecentSum(samples)
    ensures 0 <= RecentSum(samples) <= SampleSum(samples)
  {
    if samples != [] {
      var init, s := samples[..|samples| - 1], samples[|samples| - 1];
      assert s in samples;
      SumsExact(init);
      assert Values(samples)[..|samples| - 1] == Values(init);
      SumJoined(RecentValues(init), if s.recent then [s.value] else []);
      assert [s.value][..0] == [];
    }
  }

  // ----- verdicts -----

  /** Whatever the metric is: a failed replica count fails the evaluation, no replicas means not reached, and a source
      that is missing or of an unknown kind panics. */
  lemma ReplicasFirst(m: Spec, r: Reply)
    ensures r.replicas.FetchError? ==> Evaluate(m, r) == NotEvaluated(r.replicas.benign)
    ensures r.replicas == Fetched(0) ==> Evaluate(m, r) == Known(false)
    ensures r.replicas.Fetched? && r.replicas.value != 0 && (!Present(m) || m.kind.OtherSource?) ==>
              Evaluate(m, r) == Panicked
  {
  }

  /** The metric has a source of a known kind, and there are replicas. */
  predicate Live(m: Spec, r: Reply) {
    Present(m) && !m.kind.OtherSource? && r.replicas.Fetched? && r.replicas.value != 0
  }

  /** Object, pods and external metrics need a selector that parses, before anything is fetched; a failed fetch fails
      the evaluation, and is as benign as the error. */
  lemma FetchesExactly(m: Spec, r: Reply)
    requires Live(m, r)
    ensures m.kind in {SourceKind.Object, Pods, External} && !r.selectorOk ==> Evaluate(m, r) == NotEvaluated(false)
    ensures (m.kind in {SourceKind.ContainerResource, Resource} || r.selectorOk) && r.usage.FetchError? ==>
              Evaluate(m, r) == NotEvaluated(r.usage.benign)
  {
  }

  /** The verdict on non-negative usage whose sum fits: a utilization of so many percent is reached from percent times
      replicas up, a value up to the target, an average up to the target, rounded down. A target without its field fails
      or panics. */
  predicate PlainVerdictIs(v: Verdict, target: Target, replicas: int, sum: int) {
    match target.kind
    case Utilization =>
      if target.averageUtilization.None? then v == NotEvaluated(false)
      else v == Known(sum >= target.averageUtilization.value * replicas)
    case Value => if target.value.None? then v.Panicked? else v == Known(sum as real <= target.value.value)
    case AverageValue =>
      if target.averageValue.None? then v.Panicked?
      else v == Known(sum < (target.averageValue.value.Floor + 1) * replicas)
    case OtherTarget(_) => v == NotEvaluated(false)
  }

  /** Object, pods, container and external metrics are judged by all samples. */
  lemma PlainExactly(m: Spec, r: Reply)
    requires Live(m, r) && !m.kind.Resource? && (m.kind.ContainerResource? || r.selectorOk) && r.usage.Fetched?
    requires r.replicas.value > 0 && Usages(r.usage.value) && SampleSum(r.usage.value) < U.TWO63
    ensures PlainVerdictIs(Evaluate(m, r), TargetOf(m), r.replicas.value, SampleSum(r.usage.value))
  {
    SumsExact(r.usage.value);
    if TargetIdOf(TargetOf(m)).Some? {
      PlainReachedExact(r.replicas.value, TargetOf(m), Values(r.usage.value));
    }
  }

  /** A resource metric without a utilization target is judged by its recent samples only. */
  lemma RecentExactly(m: Spec, r: Reply)
    requires Live(m, r) && m.kind.Resource? && TargetOf(m).averageUtilization.None? && r.usage.Fetched?
    requires r.replicas.value > 0 && Usages(r.usage.value) && RecentSum(r.usage.value) < U.TWO63
    ensures PlainVerdictIs(Evaluate(m, r), TargetOf(m), r.replicas.value, RecentSum(r.usage.value))
  {
    SumsExact(r.usage.value);
    if TargetIdOf(TargetOf(m)).Some? {
      PlainReachedExact(r.replicas.value, TargetOf(m), RecentValues(r.usage.value));
    }
  }

  /** A resource metric with a utilization target, whatever the kind of the target, is judged by all samples against
      what the pods request; it fails if those cannot be listed, and panics if they request nothing. */
  lemma UtilizationExactly(m: Spec, r: Reply, field: Requests -> int)
    requires Live(m, r) && m.kind.Resource? && TargetOf(m).averageUtilization.Some? && r.usage.Fetched?
    requires forall c :: RequestOf(c, m.resource.value.name) == field(c)
    ensures r.pods.FetchError? ==> Evaluate(m, r) == NotEvaluated(r.pods.benign)
    ensures r.pods.Fetched? && U.Wrap64(Total(r.pods.value, field)) == 0 ==> Evaluate(m, r) == Panicked
    ensures r.pods.Fetched? && 0 < Total(r.pods.value, field) < U.TWO63 && r.replicas.value > 0
              && Usages(r.usage.value) && 100 * SampleSum(r.usage.value) < U.TWO63 ==>
              Evaluate(m, r) == Known(
                                  100 * SampleSum(r.usage.value) >=
                                  TargetOf(m).averageUtilization.value * Total(r.pods.value, field) * r.replicas.value)
  {
    if r.pods.Fetched? {
      TotalExact(r.pods.value, m.resource.value.name, field);
      var request := Total(r.pods.value, field);
      if 0 < request < U.TWO63 && r.replicas.value > 0 && Usages(r.usage.value) {
        SumsExact(r.usage.value);
        if 100 * SampleSum(r.usage.value) < U.TWO63 {
          U.UtilizationExact(
            Values(r.usage.value), request, r.replicas.value, TargetOf(m).averageUtilization.value);
        }
      }
    }
  }
}
