/** The watcher that evaluates a model's metrics pass after pass. */
module MetricWatcher {
  import opened Common
  import opened MetricSpecs
  import opened ReachedCondition
  import opened MetricEvaluation

  /** The verdicts of one pass that reach the condition. */
  function VerdictOf(v: Verdict): (o: Option<bool>)
    ensures o == Some(true) <==> v == Known(true)
    ensures o == Some(false) <==> v == Known(false)
  {
    if v.Known? then Some(v.reached) else None
  }

  function Observed(m: Spec, r: Reply): (o: Observation)
    ensures o.spec == m && o.now == r.now
    ensures (o.verdict == Some(true) <==> Evaluate(m, r) == Known(true))
            && (o.verdict.None? <==> !Evaluate(m, r).Known?)
  {
    Observation(m, VerdictOf(Evaluate(m, r)), r.now)
  }

  function ObservedPass(metrics: seq<Spec>, replies: seq<Reply>): (os: seq<Observation>)
    requires |metrics| == |replies|
    ensures |os| == |metrics| && forall i | 0 <= i < |os| :: os[i] == Observed(metrics[i], replies[i])
  {
    seq(|metrics|, i requires 0 <= i < |metrics| => Observed(metrics[i], replies[i]))
  }

  function RunFrom(c: Condition, os: seq<Observation>): Condition {
    if os == [] then c else Observe(RunFrom(c, os[..|os| - 1]), os[|os| - 1])
  }

  lemma {:induction false} RunContinues(past: seq<Observation>, os: seq<Observation>)
    ensures RunFrom(Run(past), os) == Run(past + os)
  {
    if os == [] {
      assert past + os == past;
    } else {
      RunContinues(past, os[..|os| - 1]);
      assert (past + os)[..|past + os| - 1] == past + os[..|os| - 1];
    }
  }

  /** The outcome of a pass. */
  datatype Report = Crashed | Error | Reported(reached: bool)

  /** The comparison of `m` with the elements of the list panics before it finds an equal one. */
  predicate ComparisonPanics(list: seq<Spec>, m: Spec) {
    exists j | 0 <= j < |list| ::
      Equal(list[j], m).None? && forall l | 0 <= l < j :: Equal(list[l], m) == Some(false)
  }

  /** A pass from condition `c` panics at metric `i`: while it is evaluated, or while its verdict is entered. */
  predicate PanicsAt(c: Condition, metrics: seq<Spec>, replies: seq<Reply>, i: nat)
    requires |metrics| == |replies| && i < |metrics|
  {
    var v := Evaluate(metrics[i], replies[i]);
    v.Panicked? ||
    (v.Known? && ComparisonPanics(RunFrom(c, ObservedPass(metrics, replies)[..i]).list, metrics[i]))
  }

  lemma FindCrash(list: seq<Spec>, m: Spec)
    ensures Find(list, m, 0).Crash? <==> ComparisonPanics(list, m)
  {
  }

  class ConditionStatus {
    var list: seq<Spec>
    var reached: bool
    var since: Time
    const window: int

    ghost function View(): Condition
      reads this
    {
      Condition(list, reached, since)
    }

    /** The flag says whether the list is empty, and an empty list has no start. */
    ghost predicate Valid()
      reads this
    {
      (reached <==> list != []) && (!reached ==> since == ZERO_TIME)
    }

    constructor (window: int)
      ensures Valid() && View() == UNMET && this.window == window
    {
      this.window := window;
      list, reached, since := [], false, ZERO_TIME;
    }

    /** `crashed` is the panic of the comparison, which leaves the status as it was. */
    method Update(m: Spec, isReached: bool, now: Time) returns (crashed: bool)
      requires Valid()
      modifies this
      ensures Valid()
      ensures View() == Observe(old(View()), Observation(m, Some(isReached), now))
      ensures crashed <==> Find(old(list), m, 0).Crash?
    {
      for i := 0 to |list|
        invariant View() == old(View())
        invariant Find(list, m, 0) == Find(list, m, i)
      {
        var e := Equal(list[i], m);
        if e.None? {
          return true;
        }
        if e.value && !isReached {
          list := if |list| == 1 then [] else list[..i] + list[i + 1..];
          if list == [] {
            reached, since := false, ZERO_TIME;
          }
          return false;
        }
        if e.value && isReached {
          return false;
        }
      }
      if isReached && !reached {
        list := list + [m];
        reached := true;
        since := now;
      } else if isReached && reached {
        list := list + [m];
      }
      return false;
    }

    method IsReached(now: Time) returns (r: bool)
      ensures r <==> ReachedCondition.IsReached(View(), window, now)
    {
      if !reached {
        return false;
      }
      return now - since > window;
    }
  }

  class Watcher {
    const metrics: seq<Spec>
    const condition: ConditionStatus

    constructor (metrics: seq<Spec>, window: int)
      ensures this.metrics == metrics && condition.window == window
      ensures fresh(condition) && condition.Valid() && condition.View() == UNMET
    {
      this.metrics := metrics;
      condition := new ConditionStatus(window);
    }

    /** One pass. Every evaluation that yields a verdict updates the condition, also when others fail; the pass
        reports the condition unless some failure is not overlooked. */
    method CheckMetric(replies: seq<Reply>, now: Time) returns (report: Report)
      requires |replies| == |metrics|
      requires condition.Valid()
      modifies condition
      ensures condition.Valid()
      ensures report.Crashed? <==>
                exists i: nat :: i < |metrics| && PanicsAt(old(condition.View()), metrics, replies, i)
      ensures report.Crashed? ==>
                exists i: nat :: i < |metrics|
                  && PanicsAt(old(condition.View()), metrics, replies, i)
                  && (forall j: nat | j < i :: !PanicsAt(old(condition.View()), metrics, replies, j))
                  && condition.View() == RunFrom(old(condition.View()), ObservedPass(metrics, replies)[..i])
      ensures !report.Crashed? ==>
                condition.View() == RunFrom(old(condition.View()), ObservedPass(metrics, replies))
      ensures report.Error? <==>
                && !report.Crashed?
                && exists i | 0 <= i < |metrics| :: Evaluate(metrics[i], replies[i]) == NotEvaluated(false)
      ensures report.Reported? ==> report.reached == IsReached(condition.View(), condition.window, now)
    {
      ghost var c, os := condition.View(), ObservedPass(metrics, replies);
      var failed := false;
      assert os[..0] == [];
      for i := 0 to |metrics|
        invariant condition.View() == RunFrom(c, os[..i])
        invariant condition.Valid()
        invariant failed <==> exists j | 0 <= j < i :: Evaluate(metrics[j], replies[j]) == NotEvaluated(false)
        invariant forall j: nat | j < i :: !PanicsAt(c, metrics, replies, j)
      {
        assert os[..i + 1][..i] == os[..i];
        FindCrash(condition.list, metrics[i]);
        var v := EvaluateMetric(metrics[i], replies[i]);
        match v {
          case Panicked =>
            assert PanicsAt(c, metrics, replies, i);
            return Crashed;
          case NotEvaluated(benign) => failed := failed || !benign;
          case Known(reached) =>
            var crashed := condition.Update(metrics[i], reached, replies[i].now);
            if crashed {
              assert PanicsAt(c, metrics, replies, i);
              return Crashed;
            }
        }
      }
      assert os[..|metrics|] == os;
      if failed {
        return Error;
      }
      var r := condition.IsReached(now);
      return Reported(r);
    }
  }

  // ----- many passes -----

  /** All observations of a sequence of passes, in order. */
  function ObservedPasses(metrics: seq<Spec>, passes: seq<seq<Reply>>): seq<Observation>
    requires forall p | p in passes :: |p| == |metrics|
  {
    if passes == [] then []
    else
      ObservedPasses(metrics, passes[..|passes| - 1]) + ObservedPass(metrics, passes[|passes| - 1])
  }

  lemma {:induction false} PassesUsual(metrics: seq<Spec>, passes: seq<seq<Reply>>)
    requires forall p | p in passes :: |p| == |metrics|
    requires forall m | m in metrics :: Present(m)
    ensures Usual(ObservedPasses(metrics, passes))
  {
    if passes != [] {
      PassesUsual(metrics, passes[..|passes| - 1]);
      var os := ObservedPass(metrics, passes[|passes| - 1]);
      forall i | 0 <= i < |os| ensures Present(os[i].spec) { assert metrics[i] in metrics; }
    }
  }

  /** After any number of passes over metrics whose source is set, each well-formed one is in the list exactly when its
      latest evaluation that did not fail was reached, and is not in it twice. */
  lemma PassesRepresent(metrics: seq<Spec>, passes: seq<seq<Reply>>, q: Spec)
    requires forall p | p in passes :: |p| == |metrics|
    requires forall m | m in metrics :: Present(m)
    ensures var c, os := Run(ObservedPasses(metrics, passes)), ObservedPasses(metrics, passes);
            && (Represented(c.list, q) <==> LatestReached(os, q))
            && Distinct(c.list)
            && (c.reached <==> c.list != [])
  {
    PassesUsual(metrics, passes);
    ListRepresents(ObservedPasses(metrics, passes), q);
    FlagMeansNonEmpty(ObservedPasses(metrics, passes));
  }

  /** Over metrics whose source is set a pass panics only where an evaluation does: no comparison ever panics. */
  lemma PassPanicsExactly(metrics: seq<Spec>, passes: seq<seq<Reply>>, replies: seq<Reply>, i: nat)
    requires forall p | p in passes :: |p| == |metrics|
    requires |replies| == |metrics| && i < |metrics| && forall m | m in metrics :: Present(m)
    ensures PanicsAt(Run(ObservedPasses(metrics, passes)), metrics, replies, i) <==>
            Evaluate(metrics[i], replies[i]).Panicked?
  {
    var past, os := ObservedPasses(metrics, passes), ObservedPass(metrics, replies)[..i];
    PassesUsual(metrics, passes);
    forall o | o in os ensures Present(o.spec) {
      var j :| 0 <= j < |os| && os[j] == o;
      assert metrics[j] in metrics;
    }
    RunContinues(past, os);
    var any: Spec :| true;
    ListRepresents(past + os, any);
    assert metrics[i] in metrics;
    FindNeverCrashes(Run(past + os).list, metrics[i], 0);
    FindCrash(Run(past + os).list, metrics[i]);
  }

  /** A pass continues the history: what `CheckMetric` does to the condition is one more pass. */
  lemma PassContinues(metrics: seq<Spec>, passes: seq<seq<Reply>>, replies: seq<Reply>)
    requires forall p | p in passes :: |p| == |metrics|
    requires |replies| == |metrics|
    ensures RunFrom(Run(ObservedPasses(metrics, passes)), ObservedPass(metrics, replies)) ==
            Run(ObservedPasses(metrics, passes + [replies]))
  {
    assert (passes + [replies])[..|passes|] == passes;
    RunContinues(ObservedPasses(metrics, passes), ObservedPass(metrics, replies));
  }
}
