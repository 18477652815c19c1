/** The life of a routed model between two of its reconciliations, as a machine of five phases. */
module Phases {
  datatype Kind = Reached | Calm | Healthy | Unhealthy

  /** What an event tells the controller about one model, and whether the dataplane would carry a new weight out. */
  datatype Signal = Signal(kind: Kind, ok: bool)

  /** `Home` is the phase of a model just set up, `Away` offloads the configured share and `Down` everything, because
      the model is unhealthy. `Gone` and `Stuck` have no entry in the controller: `Gone` is local again, `Stuck` still
      offloads the configured share. */
  datatype Phase = Home | Away | Down | Gone | Stuck {
    predicate Left() { Gone? || Stuck? }
  }

  /** How a signal moves a model whose configured share is `p`. */
  function Move(phase: Phase, p: int, s: Signal): Phase {
    match s.kind
    case Unhealthy => if s.ok then Down else phase
    case Healthy => if !s.ok || phase.Left() || (phase.Down? && p == 100) then phase else Away
    case Reached => if s.ok && phase.Home? then Away else phase
    case Calm => if phase.Away? && p != 0 then (if s.ok then Gone else Stuck) else phase
  }

  /** The phase after signals received since the model was set up. */
  function After(p: int, ss: seq<Signal>): Phase {
    if ss == [] then Home else Move(After(p, ss[..|ss| - 1]), p, ss[|ss| - 1])
  }

  /** How many of 100 draws go to the remote backend. */
  function Share(phase: Phase, p: int): int {
    match phase
    case Home => 0
    case Away => p
    case Down => 100
    case Gone => 0
    case Stuck => p
  }

  // ----- the phases in closed form -----

  /** An unhealthy signal that nothing has lifted: only a healthy one does, and not at a share of 100. */
  predicate Unlifted(p: int, ss: seq<Signal>, u: int)
    requires 0 <= u < |ss|
  {
    ss[u] == Signal(Unhealthy, true) && (p == 100 || forall i | u < i < |ss| :: ss[i] != Signal(Healthy, true))
  }

  ghost predicate HeldDown(p: int, ss: seq<Signal>) { exists u :: 0 <= u < |ss| && Unlifted(p, ss, u) }

  /** A model is down exactly when some unhealthy signal was not lifted; at a share of 100, that is for good. */
  lemma {:induction false} DownExactly(p: int, ss: seq<Signal>)
    ensures After(p, ss).Down? <==> HeldDown(p, ss)
  {
    if ss != [] {
      var init, n := ss[..|ss| - 1], |ss| - 1;
      DownExactly(p, init);
      if After(p, ss).Down? {
        if ss[n] == Signal(Unhealthy, true) {
          assert Unlifted(p, ss, n);
        } else {
          var u :| 0 <= u < |init| && Unlifted(p, init, u);
          assert Unlifted(p, ss, u);
        }
      }
      if u :| 0 <= u < |ss| && Unlifted(p, ss, u) {
        if u < n {
          assert Unlifted(p, init, u);
        }
      }
    }
  }

  /** The signal asked for offloading and got it. */
  predicate Starts(s: Signal) { s.ok && !s.kind.Calm? }

  lemma {:induction false} HomeExactly(p: int, ss: seq<Signal>)
    ensures After(p, ss).Home? <==> forall i | 0 <= i < |ss| :: !Starts(ss[i])
  {
    if ss != [] {
      HomeExactly(p, ss[..|ss| - 1]);
    }
  }

  /** A calm signal met a model that had been offloaded and was not held down, and no unhealthy one came since. */
  ghost predicate SentHome(p: int, ss: seq<Signal>, c: int)
    requires 0 <= c < |ss|
  {
    && ss[c].kind.Calm? && !HeldDown(p, ss[..c]) && (exists a :: 0 <= a < c && Starts(ss[a]))
    && forall i | c < i < |ss| :: ss[i] != Signal(Unhealthy, true)
  }

  /** It was the first to do so. */
  ghost predicate SentHomeFirst(p: int, ss: seq<Signal>, c: int)
    requires 0 <= c < |ss|
  {
    SentHome(p, ss, c) && forall i | 0 <= i < c :: !SentHome(p, ss, i)
  }

  lemma SentHomeStep(p: int, ss: seq<Signal>)
    requires ss != []
    ensures var init, n := ss[..|ss| - 1], |ss| - 1;
            && (forall c | 0 <= c < n ::
                  SentHome(p, ss, c) <==> SentHome(p, init, c) && ss[n] != Signal(Unhealthy, true))
            && (SentHome(p, ss, n) <==> ss[n].kind.Calm? && !After(p, init).Down? && !After(p, init).Home?)
  {
    var init, n := ss[..|ss| - 1], |ss| - 1;
    DownExactly(p, init);
    HomeExactly(p, init);
    forall c | 0 <= c < n ensures SentHome(p, ss, c) <==> SentHome(p, init, c) && ss[n] != Signal(Unhealthy, true) {
      assert init[..c] == ss[..c];
    }
  }

  /** A model has lost its entry exactly when such a calm signal came: nothing but an unhealthy signal offloads it
      again. It is stuck at the configured share exactly when the first of those signals failed to reroute it:
      nobody tries again. */
  lemma {:induction false} LeftExactly(p: int, ss: seq<Signal>)
    ensures After(p, ss).Left() <==> p != 0 && exists c :: 0 <= c < |ss| && SentHome(p, ss, c)
    ensures After(p, ss).Stuck? <==> p != 0 && exists c :: 0 <= c < |ss| && SentHomeFirst(p, ss, c) && !ss[c].ok
  {
    if ss != [] {
      LeftExactly(p, ss[..|ss| - 1]);
      SentHomeStep(p, ss);
    }
  }

  // ----- the documented behaviour -----

  /** Only metric signals, and every weight asked for is carried out. */
  predicate WorkingMetrics(ss: seq<Signal>) {
    forall i | 0 <= i < |ss| :: ss[i].ok && (ss[i].kind.Reached? || ss[i].kind.Calm?)
  }

  /** The documented share: what the latest metric signal asks for. */
  function Documented(p: int, ss: seq<Signal>): int { if ss != [] && ss[|ss| - 1].kind.Reached? then p else 0 }

  /** A calm signal after a reached one. */
  predicate FellBack(ss: seq<Signal>, a: int, c: int) { 0 <= a < c < |ss| && ss[a].kind.Reached? && ss[c].kind.Calm? }

  /** Where only metrics speak and nothing fails, the share is the documented one if and only if the configured share
      is zero, the latest signal is not a reached one, or none was calm after a reached one. */
  lemma DocumentedExactly(p: int, ss: seq<Signal>)
    requires WorkingMetrics(ss)
    ensures Share(After(p, ss), p) == Documented(p, ss) <==>
            p == 0 || ss == [] || !ss[|ss| - 1].kind.Reached? || forall a, c :: !FellBack(ss, a, c)
  {
    HomeExactly(p, ss);
    DownExactly(p, ss);
    LeftExactly(p, ss);
    forall c | 0 <= c < |ss| ensures SentHome(p, ss, c) <==> exists a :: FellBack(ss, a, c) {
      if SentHome(p, ss, c) {
        var a :| 0 <= a < c && Starts(ss[a]);
        assert FellBack(ss, a, c);
      }
    }
    if a, c :| FellBack(ss, a, c) {
      assert SentHome(p, ss, c);
    }
  }
}
