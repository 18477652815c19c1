/** The condition that collects which metrics are reached, and since when. */
module ReachedCondition {
  import opened Common
  import opened MetricSpecs

  type Time = int

  /** The zero time, to which the start is reset. */
  const ZERO_TIME: Time := 0

  /** `list` holds the specs now reached, `since` the time at which the list last stopped being empty. */
  datatype Condition = Condition(list: seq<Spec>, reached: bool, since: Time)

  const UNMET := Condition([], false, ZERO_TIME)

  /** An evaluation of a metric at some time: its verdict, or nothing when the evaluation failed. */
  datatype Observation = Observation(spec: Spec, verdict: Option<bool>, now: Time)

  datatype Search = At(index: nat) | Absent | Crash

  /** The first element of `list` from `i` on that equals `m`, unless the comparison panics before it. */
  function Find(list: seq<Spec>, m: Spec, i: nat): (r: Search)
    requires i <= |list|
    ensures r.At? ==>
              && i <= r.index < |list| && Same(list[r.index], m)
              && forall j | i <= j < r.index :: Equal(list[j], m) == Some(false)
    ensures r.Crash? ==>
              exists j | i <= j < |list| ::
                Equal(list[j], m).None? && forall l | i <= l < j :: Equal(list[l], m) == Some(false)
    ensures r.Absent? ==> forall j | i <= j < |list| :: Equal(list[j], m) == Some(false)
    decreases |list| - i
  {
    if i == |list| then Absent
    else
      var e := Equal(list[i], m);
      if e.None? then Crash else if e.value then At(i) else Find(list, m, i + 1)
  }

  function Remove(list: seq<Spec>, i: nat): seq<Spec>
    requires i < |list|
  {
    list[..i] + list[i + 1..]
  }

  function UpdatedList(list: seq<Spec>, m: Spec, reached: bool): seq<Spec> {
    match Find(list, m, 0)
    case At(i) => if reached then list else Remove(list, i)
    case Absent => if reached then list + [m] else list
    case Crash => list
  }

  /** The condition after one observation; a failed evaluation and a panic leave it as it was. */
  function Observe(c: Condition, o: Observation): Condition {
    if o.verdict.None? || Find(c.list, o.spec, 0).Crash? then c
    else
      var list := UpdatedList(c.list, o.spec, o.verdict.value);
      if list == [] then UNMET
      else if Find(c.list, o.spec, 0).Absent? && o.verdict.value && !c.reached then Condition(list, true, o.now)
      else Condition(list, c.reached, c.since)
  }

  function Run(os: seq<Observation>): Condition {
    if os == [] then UNMET else Observe(Run(os[..|os| - 1]), os[|os| - 1])
  }

  predicate IsReached(c: Condition, window: int, now: Time) { c.reached && now - c.since > window }

  // ----- since when -----

  /** The flag says whether the list is empty, after every run. */
  lemma {:induction false} FlagMeansNonEmpty(os: seq<Observation>)
    ensures Run(os).reached <==> Run(os).list != []
    ensures !Run(os).reached ==> Run(os) == UNMET
  {
    if os != [] {
      FlagMeansNonEmpty(os[..|os| - 1]);
    }
  }

  /** `j` starts the latest unbroken stretch of observations that all left the list non-empty. */
  ghost predicate StartsStretch(os: seq<Observation>, j: int) {
    && 0 <= j < |os|
    && Run(os[..j]).list == []
    && forall n | j < n <= |os| :: Run(os[..n]).list != []
  }

  /** After any observations, either the list is empty, or the start is the time of the observation that began
      the latest stretch over which the list has never been empty. */
  lemma {:induction false} SinceStretch(os: seq<Observation>)
    ensures Run(os).list == [] ==> Run(os) == UNMET
    ensures Run(os).list != [] ==> exists j :: StartsStretch(os, j) && Run(os).since == os[j].now
  {
    FlagMeansNonEmpty(os);
    if os != [] && Run(os).list != [] {
      var init, o := os[..|os| - 1], os[|os| - 1];
      assert os[..|os|] == os;
      FlagMeansNonEmpty(init);
      SinceStretch(init);
      if Run(init).list == [] {
        assert StartsStretch(os, |init|);
      } else {
        var j :| StartsStretch(init, j) && Run(init).since == init[j].now;
        forall n | j < n <= |os| ensures Run(os[..n]).list != [] {
          if n <= |init| {
            assert init[..n] == os[..n];
          }
        }
        assert init[..j] == os[..j];
        assert StartsStretch(os, j);
      }
    }
  }

  lemma StretchUnique(os: seq<Observation>, i: int, j: int)
    requires StartsStretch(os, i) && StartsStretch(os, j)
    ensures i == j
  {
  }

  /** The condition is reported exactly when there is such a stretch and it began more than the window ago. */
  lemma ReachedExactly(os: seq<Observation>, window: int, now: Time)
    ensures IsReached(Run(os), window, now) <==>
            exists j :: StartsStretch(os, j) && now - os[j].now > window
  {
    FlagMeansNonEmpty(os);
    SinceStretch(os);
    assert os[..|os|] == os;
    if Run(os).list != [] {
      var j :| StartsStretch(os, j) && Run(os).since == os[j].now;
      forall i | StartsStretch(os, i) ensures i == j {
        StretchUnique(os, i, j);
      }
    }
  }

  // ----- which metrics -----

  /** No two elements of the list are equal. */
  predicate Distinct(list: seq<Spec>) {
    forall i, j | 0 <= i < j < |list| :: !Same(list[i], list[j])
  }

  ghost predicate Represented(list: seq<Spec>, m: Spec) { exists x :: x in list && Same(x, m) }

  /** Verdicts come only for specs whose source is set. */
  predicate Usual(os: seq<Observation>) { forall o | o in os && o.verdict.Some? :: Present(o.spec) }

  predicate AllPresent(list: seq<Spec>) { forall i | 0 <= i < |list| :: Present(list[i]) }

  /** The latest verdict on `m` was positive. */
  ghost predicate LatestReached(os: seq<Observation>, m: Spec) {
    exists j | 0 <= j < |os| ::
      && Same(os[j].spec, m) && os[j].verdict == Some(true)
      && forall l | j < l < |os| && Same(os[l].spec, m) :: os[l].verdict.None?
  }

  lemma {:induction false} FindNeverCrashes(list: seq<Spec>, m: Spec, i: nat)
    requires i <= |list| && Present(m) && AllPresent(list)
    ensures !Find(list, m, i).Crash?
    decreases |list| - i
  {
    if i < |list| {
      EqualByIdentity(list[i], m);
      FindNeverCrashes(list, m, i + 1);
    }
  }

  // A list is best followed through the identities of its well-formed specs; a malformed spec has none.

  function KeyOf(s: Spec): Option<SpecId> { if WellFormed(s) then Some(IdOf(s)) else None }

  function Ids(list: seq<Spec>): (ids: seq<Option<SpecId>>)
    ensures |ids| == |list| && forall i | 0 <= i < |list| :: ids[i] == KeyOf(list[i])
  {
    seq(|list|, i requires 0 <= i < |list| => KeyOf(list[i]))
  }

  predicate NoRepeats<T(==)>(s: seq<Option<T>>) { forall i, j | 0 <= i < j < |s| :: s[i].Some? ==> s[i] != s[j] }

  lemma ByIds(list: seq<Spec>, q: Spec)
    ensures Distinct(list) <==> NoRepeats(Ids(list))
    ensures Represented(list, q) <==> WellFormed(q) && KeyOf(q) in Ids(list)
  {
    forall i, j | 0 <= i < j < |list|
      ensures Same(list[i], list[j]) <==> Ids(list)[i].Some? && Ids(list)[i] == Ids(list)[j]
    {
      EqualByIdentity(list[i], list[j]);
    }
    forall i | 0 <= i < |list| ensures Same(list[i], q) <==> WellFormed(q) && Ids(list)[i] == KeyOf(q) {
      EqualByIdentity(list[i], q);
    }
  }

  lemma WithoutOne<T>(s: seq<Option<T>>, i: nat, t: T)
    requires i < |s| && NoRepeats(s) && s[i].Some?
    ensures NoRepeats(s[..i] + s[i + 1..])
    ensures Some(t) in s[..i] + s[i + 1..] <==> Some(t) in s && Some(t) != s[i]
  {
  }

  /** The identities after one verdict: that of `m` is put in or taken out, all others stay. */
  lemma UpdatedIds(list: seq<Spec>, m: Spec, reached: bool, id: SpecId)
    requires AllPresent(list) && NoRepeats(Ids(list)) && Present(m)
    ensures var list' := UpdatedList(list, m, reached);
            && !Find(list, m, 0).Crash?
            && AllPresent(list') && NoRepeats(Ids(list'))
            && (Some(id) in Ids(list') <==> if KeyOf(m) == Some(id) then reached else Some(id) in Ids(list))
  {
    FindNeverCrashes(list, m, 0);
    forall j | 0 <= j < |list| ensures Same(list[j], m) <==> WellFormed(m) && Ids(list)[j] == KeyOf(m) {
      EqualByIdentity(list[j], m);
    }
    var list' := UpdatedList(list, m, reached);
    match Find(list, m, 0)
    case At(i) =>
      assert KeyOf(m) == Ids(list)[i];
      if !reached {
        assert Ids(list') == Ids(list)[..i] + Ids(list)[i + 1..];
        WithoutOne(Ids(list), i, id);
      }
    case Absent =>
      if reached {
        assert Ids(list') == Ids(list) + [KeyOf(m)];
      }
  }

  /** What one verdict does to a list of distinct specs. */
  lemma UpdateRepresents(list: seq<Spec>, m: Spec, reached: bool, q: Spec)
    requires AllPresent(list) && Distinct(list) && Present(m)
    ensures var list' := UpdatedList(list, m, reached);
            && !Find(list, m, 0).Crash?
            && AllPresent(list') && Distinct(list')
            && (Represented(list', q) <==> if Same(m, q) then reached else Represented(list, q))
  {
    ByIds(list, q);
    var any: SpecId :| true;
    var id := if WellFormed(q) then IdOf(q) else any;
    UpdatedIds(list, m, reached, id);
    ByIds(UpdatedList(list, m, reached), q);
    EqualByIdentity(m, q);
  }

  /** After any usual observations, malformed specs among them or not, the list holds no two equal specs, and a metric
      is represented in it exactly when its latest verdict was positive, whatever failed to evaluate in between. */
  lemma {:induction false} ListRepresents(os: seq<Observation>, q: Spec)
    requires Usual(os)
    ensures AllPresent(Run(os).list) && Distinct(Run(os).list)
    ensures Represented(Run(os).list, q) <==> LatestReached(os, q)
  {
    if os != [] {
      var init, o := os[..|os| - 1], os[|os| - 1];
      assert o in os;
      ListRepresents(init, q);
      LatestReachedStep(init, o, q);
      assert init + [o] == os;
      if o.verdict.Some? {
        UpdateRepresents(Run(init).list, o.spec, o.verdict.value, q);
      }
    }
  }

  lemma LatestReachedStep(init: seq<Observation>, o: Observation, q: Spec)
    ensures LatestReached(init + [o], q) <==>
            if Same(o.spec, q) && o.verdict.Some? then o.verdict.value else LatestReached(init, q)
  {
    var os := init + [o];
    if LatestReached(init, q) && !(Same(o.spec, q) && o.verdict.Some?) {
      var j :| 0 <= j < |init| && Same(init[j].spec, q) && init[j].verdict == Some(true)
        && forall l | j < l < |init| && Same(init[l].spec, q) :: init[l].verdict.None?;
      assert os[j] == init[j];
      assert forall l | j < l < |os| && Same(os[l].spec, q) :: os[l].verdict.None?;
    }
    if LatestReached(os, q) {
      var j :| 0 <= j < |os| && Same(os[j].spec, q) && os[j].verdict == Some(true)
        && forall l | j < l < |os| && Same(os[l].spec, q) :: os[l].verdict.None?;
      assert os[|init|] == o;
      if j < |init| {
        assert forall l | j < l < |init| && Same(init[l].spec, q) :: init[l].verdict.None? by {
          forall l | j < l < |init| && Same(init[l].spec, q) ensures init[l].verdict.None? { assert os[l] == init[l]; }
        }
      }
    }
    if Same(o.spec, q) && o.verdict == Some(true) {
      assert os[|init|] == o;
      assert LatestReached(os, q);
    }
  }

  // ----- malformed specs -----

  /** How often `m` itself was found to be reached. */
  function TimesReached(os: seq<Observation>, m: Spec): nat {
    if os == [] then 0
    else
      var o := os[|os| - 1];
      TimesReached(os[..|os| - 1], m) + if o.spec == m && o.verdict == Some(true) then 1 else 0
  }

  lemma MalformedUpdate(list: seq<Spec>, m: Spec, o: Spec, reached: bool)
    requires !WellFormed(m) && Present(o) && AllPresent(list)
    ensures !Find(list, o, 0).Crash?
    ensures var list' := UpdatedList(list, o, reached);
            && multiset(list')[m] == multiset(list)[m] + (if o == m && reached then 1 else 0)
            && AllPresent(list')
  {
    FindNeverCrashes(list, o, 0);
    match Find(list, o, 0)
    case At(i) =>
      EqualByIdentity(list[i], o);
      assert list == list[..i] + [list[i]] + list[i + 1..];
    case Absent =>
  }

  /** A malformed spec equals nothing, not even itself: every positive verdict adds another copy and none is ever
      taken out again, so once reached it keeps the condition reached for good. */
  lemma {:induction false} MalformedNeverLeaves(os: seq<Observation>, m: Spec)
    requires Usual(os) && !WellFormed(m)
    ensures multiset(Run(os).list)[m] == TimesReached(os, m)
    ensures AllPresent(Run(os).list)
    ensures TimesReached(os, m) > 0 ==> Run(os).reached
  {
    FlagMeansNonEmpty(os);
    if os != [] {
      var init, o := os[..|os| - 1], os[|os| - 1];
      assert o in os;
      MalformedNeverLeaves(init, m);
      if o.verdict.Some? {
        MalformedUpdate(Run(init).list, m, o.spec, o.verdict.value);
      }
    }
  }
}
