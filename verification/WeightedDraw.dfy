/** The weighted random choice of a backend. */
module WeightedDraw {
  import opened Routes

  /** The sum of the first `n` weights. */
  function Prefix(ws: seq<int>, n: nat): int
    requires n <= |ws|
  {
    if n == 0 then 0 else Prefix(ws, n - 1) + ws[n - 1]
  }

  function Total(ws: seq<int>): int { Prefix(ws, |ws|) }

  predicate NonNegative(ws: seq<int>) {
    forall i | 0 <= i < |ws| :: ws[i] >= 0
  }

  /** The first index at or after `i` whose running total exceeds `draw`; the last index
      when there is none. */
  function PickFrom(ws: seq<int>, draw: int, i: nat): (r: nat)
    requires i < |ws|
    ensures i <= r < |ws|
    decreases |ws| - i
  {
    if draw < Prefix(ws, i + 1) || i + 1 == |ws| then i else PickFrom(ws, draw, i + 1)
  }

  function Pick(ws: seq<int>, draw: int): (r: nat)
    requires |ws| > 0
    ensures r < |ws|
  {
    PickFrom(ws, draw, 0)
  }

  /** The loop of `weightedRandomBackend`. `draw` is the answer of the random generator;
      `exhausted` tells that the loop ran out and the fallback after it was used. */
  method WeightedRandomBackend(backends: seq<Backend>, draw: int) returns (b: Backend, exhausted: bool)
    requires |backends| > 0
    ensures b == backends[Pick(Weights(backends), draw)]
    ensures exhausted <==> forall n | 0 < n <= |backends| :: Prefix(Weights(backends), n) <= draw
  {
    ghost var ws := Weights(backends);
    var lastWeight := 0;
    for i := 0 to |backends|
      invariant lastWeight == Prefix(ws, i)
      invariant forall n | 0 < n <= i :: Prefix(ws, n) <= draw
      invariant i < |backends| ==> Pick(ws, draw) == PickFrom(ws, draw, i)
      invariant i == |backends| ==> Pick(ws, draw) == |backends| - 1
    {
      lastWeight := lastWeight + backends[i].weight;
      if draw < lastWeight {
        assert draw < Prefix(ws, i + 1);
        return backends[i], false;
      }
    }
    return backends[|backends| - 1], true;
  }

  lemma {:induction false} PrefixMonotone(ws: seq<int>, m: nat, n: nat)
    requires NonNegative(ws) && m <= n <= |ws|
    ensures Prefix(ws, m) <= Prefix(ws, n)
  {
    if m < n {
      PrefixMonotone(ws, m, n - 1);
    }
  }

  lemma {:induction false} PickFromBounds(ws: seq<int>, draw: int, i: nat)
    requires i < |ws| && Prefix(ws, i) <= draw < Total(ws)
    ensures var r := PickFrom(ws, draw, i); Prefix(ws, r) <= draw < Prefix(ws, r + 1)
    decreases |ws| - i
  {
    if draw < Prefix(ws, i + 1) || i + 1 == |ws| {
    } else {
      PickFromBounds(ws, draw, i + 1);
    }
  }

  /** Backend `i` is chosen by exactly the draws between two consecutive prefix sums, and
      the fallback after the loop is never reached. */
  lemma PickInterval(ws: seq<int>, draw: int, i: nat)
    requires NonNegative(ws) && 0 <= draw < Total(ws) && i < |ws|
    ensures Pick(ws, draw) == i <==> Prefix(ws, i) <= draw < Prefix(ws, i + 1)
    ensures exists n | 0 < n <= |ws| :: draw < Prefix(ws, n)
  {
    PickFromBounds(ws, draw, 0);
    var r := Pick(ws, draw);
    if r < i {
      PrefixMonotone(ws, r + 1, i);
    } else if i < r {
      PrefixMonotone(ws, i + 1, r);
    }
  }

  /** The draws, out of `Total(ws)` equally likely ones, that choose backend `i`. */
  function DrawsFor(ws: seq<int>, i: nat): set<int>
    requires i < |ws|
  {
    set d | 0 <= d < Total(ws) && Pick(ws, d) == i
  }

  /** The integers from `lo` up to, but not including, `hi`. */
  function Interval(lo: int, hi: int): (r: set<int>)
    requires lo <= hi
    ensures forall d :: d in r <==> lo <= d < hi
    ensures |r| == hi - lo
    decreases hi - lo
  {
    if lo == hi then {} else Interval(lo, hi - 1) + {hi - 1}
  }

  /** Backend `i` gets exactly `ws[i]` of the draws. */
  lemma DrawShare(ws: seq<int>, i: nat)
    requires NonNegative(ws) && Total(ws) > 0 && i < |ws|
    ensures |DrawsFor(ws, i)| == ws[i]
  {
    PrefixMonotone(ws, 0, i);
    PrefixMonotone(ws, i + 1, |ws|);
    forall d ensures d in DrawsFor(ws, i) <==> d in Interval(Prefix(ws, i), Prefix(ws, i + 1)) {
      if 0 <= d < Total(ws) {
        PickInterval(ws, d, i);
      }
    }
    assert DrawsFor(ws, i) == Interval(Prefix(ws, i), Prefix(ws, i + 1));
  }

  /** The weights of an offloaded route: what stays local, then what goes to the remote. */
  function Split(p: int): seq<int> { [100 - p, p] }

  /** A split at `p` sends exactly `p` of 100 draws to the remote backend. */
  lemma PercentageSplit(p: int)
    requires 0 <= p <= 100
    ensures Total(Split(p)) == 100
    ensures |DrawsFor(Split(p), 1)| == p
    ensures forall d | 0 <= d < 100 :: Pick(Split(p), d) == 1 <==> 100 - p <= d
  {
    var ws := Split(p);
    assert Prefix(ws, 1) == 100 - p;
    assert Total(ws) == 100;
    DrawShare(ws, 1);
    forall d | 0 <= d < 100 ensures Pick(ws, d) == 1 <==> 100 - p <= d {
      PickInterval(ws, d, 1);
    }
  }
}
