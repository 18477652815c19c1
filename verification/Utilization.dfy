/** The 64-bit arithmetic behind the verdict on a metric. */
module Utilization {

  const TWO63 := 0x8000_0000_0000_0000
  const TWO64 := 0x1_0000_0000_0000_0000

  /** The value that a 64-bit signed integer keeps of `x`. */
  function Wrap64(x: int): (r: int)
    ensures -TWO63 <= r < TWO63
    ensures -TWO63 <= x < TWO63 ==> r == x
  {
    (x + TWO63) % TWO64 - TWO63
  }

  /** Division that truncates toward zero. */
  function Quotient(a: int, b: int): int
    requires b != 0
  {
    var q := (if a < 0 then -a else a) / (if b < 0 then -b else b);
    Wrap64(if (a < 0) == (b < 0) then q else -q)
  }

  /** A sum accumulated in 64 bits. */
  function Sum64(vs: seq<int>): int {
    if vs == [] then 0 else Wrap64(Sum64(vs[..|vs| - 1]) + vs[|vs| - 1])
  }

  /** The true sum. */
  function Sum(vs: seq<int>): int {
    if vs == [] then 0 else Sum(vs[..|vs| - 1]) + vs[|vs| - 1]
  }

  method Accumulate(vs: seq<int>) returns (sum: int)
    ensures sum == Sum64(vs)
  {
    sum := 0;
    assert vs[..0] == [];
    for i := 0 to |vs|
      invariant sum == Sum64(vs[..i])
    {
      assert vs[..i + 1][..i] == vs[..i];
      sum := Wrap64(sum + vs[i]);
    }
    assert vs[..|vs|] == vs;
  }

  /** Usage as a percentage of the total request, divided once more by the number of replicas. */
  function AverageUtilization(usage: seq<int>, request: int, replicas: int): int
    requires request != 0 && replicas != 0
  {
    Quotient(Quotient(Wrap64(Sum64(usage) * 100), request), replicas)
  }

  predicate NonNegative(vs: seq<int>) { forall i | 0 <= i < |vs| :: vs[i] >= 0 }

  lemma {:induction false} SumExact(vs: seq<int>)
    requires NonNegative(vs) && Sum(vs) < TWO63
    ensures Sum64(vs) == Sum(vs) && 0 <= Sum(vs)
  {
    if vs != [] {
      SumNonNegative(vs[..|vs| - 1]);
      SumExact(vs[..|vs| - 1]);
    }
  }

  lemma {:induction false} SumNonNegative(vs: seq<int>)
    requires NonNegative(vs)
    ensures Sum(vs) >= 0
  {
    if vs != [] {
      SumNonNegative(vs[..|vs| - 1]);
    }
  }

  lemma DivisionBound(x: int, d: int, t: int)
    requires x >= 0 && d > 0
    ensures x / d >= t <==> x >= t * d
  {
    var q := x / d;
    assert q * d <= x < q * d + d;
    if q >= t {
      assert t * d <= q * d;
    } else {
      assert (q + 1) * d <= t * d;
      assert (q + 1) * d == q * d + d;
    }
  }

  lemma QuotientExact(x: int, d: int)
    requires 0 <= x < TWO63 && d > 0
    ensures 0 <= x / d <= x && Quotient(x, d) == x / d
  {
    DivisionShrinks(x, d);
    var q := x / d;
    assert Wrap64(q) == q;
  }

  lemma DivisionShrinks(x: int, d: int)
    requires x >= 0 && d > 0
    ensures 0 <= x / d <= x
  {
    DivisionBound(x, d, 0);
    DivisionBound(x, d, x + 1);
    ProductGrows(d, x + 1);
  }

  /** Two divisions in a row compare like one by the product. */
  lemma NestedDivision(x: int, a: int, b: int, t: int)
    requires x >= 0 && a > 0 && b > 0
    ensures x / a / b >= t <==> x >= t * a * b
  {
    DivisionBound(x, a, 0);
    DivisionBound(x / a, b, t);
    DivisionBound(x, a, t * b);
    assert (t * b) * a == t * a * b;
  }

  lemma AverageExact(usage: seq<int>, request: int, replicas: int)
    requires NonNegative(usage) && request > 0 && replicas > 0 && 100 * Sum(usage) < TWO63
    ensures Sum(usage) >= 0 && Sum64(usage) == Sum(usage) && Wrap64(Sum64(usage) * 100) == 100 * Sum(usage)
    ensures AverageUtilization(usage, request, replicas) == 100 * Sum(usage) / request / replicas
  {
    SumNonNegative(usage);
    SumExact(usage);
    var x := 100 * Sum(usage);
    QuotientExact(x, request);
    QuotientExact(x / request, replicas);
  }

  /** For non-negative usage that fits, the two truncating divisions lose nothing: utilization is reached exactly
      when a hundred times the usage is at least target times request times replicas. No step overflows. */
  lemma UtilizationExact(usage: seq<int>, request: int, replicas: int, target: int)
    requires NonNegative(usage) && request > 0 && replicas > 0 && 100 * Sum(usage) < TWO63
    ensures AverageUtilization(usage, request, replicas) >= target
            <==> 100 * Sum(usage) >= target * request * replicas
    ensures Sum64(usage) == Sum(usage) && Wrap64(Sum64(usage) * 100) == 100 * Sum(usage)
  {
    AverageExact(usage, request, replicas);
    NestedDivision(100 * Sum(usage), request, replicas, target);
  }

  /** The bound on usage matters: one step beyond it the product wraps and a huge usage is not reached. */
  lemma OverflowMisses()
    ensures var usage := [92233720368547759];
            && NonNegative(usage) && 100 * Sum(usage) >= 1 * 1 * 1
            && !(AverageUtilization(usage, 1, 1) >= 1)
  {
  }

  /** The documented verdict: usage as a percentage of what the pods request, all together, is higher than the target,
      or at least the target. The documentation says the former, the code decides by the latter. */
  predicate DocumentedReached(strict: bool, usage: seq<int>, request: int, target: int) {
    100 * Sum(usage) >= target * request + if strict then 1 else 0
  }

  /** The verdict is the documented one for every usage that fits. */
  ghost predicate AsDocumented(strict: bool, request: int, replicas: int, target: int)
    requires request > 0 && replicas > 0
  {
    forall usage | NonNegative(usage) && 100 * Sum(usage) < TWO63 ::
      (AverageUtilization(usage, request, replicas) >= target <==> DocumentedReached(strict, usage, request, target))
  }

  /** A hundred times the least usage that passes a threshold, or 2^63 if none that fits does. */
  function LeastFrom(threshold: int): int {
    var least := 100 * ((threshold + 99) / 100);
    if threshold <= 0 then 0 else if least < TWO63 then least else TWO63
  }

  lemma PassesLeast(x: int, threshold: int)
    requires 0 <= x < TWO63 && x % 100 == 0
    ensures x >= threshold <==> x >= LeastFrom(threshold)
  {
  }

  /** The request is already a total over the pods, so each further replica raises the threshold. On either reading
      the verdict is the documented one for every usage if and only if no usage lies between the documented threshold
      and the raised one. Where the documented threshold is more than one unit of usage and fits, that leaves a single
      replica and, on the strict reading, a threshold that no usage meets exactly. */
  lemma DocumentationExact(strict: bool, request: int, replicas: int, target: int)
    requires request > 0 && replicas > 0
    ensures var need := target * request;
            && (AsDocumented(strict, request, replicas, target) <==>
                  LeastFrom(need + if strict then 1 else 0) == LeastFrom(need * replicas))
            && (100 < need < TWO63 - 100 ==>
                  (AsDocumented(strict, request, replicas, target) <==>
                     replicas == 1 && (strict ==> need % 100 != 0)))
  {
    var need := target * request;
    var documented, raised := need + if strict then 1 else 0, need * replicas;
    if LeastFrom(documented) == LeastFrom(raised) {
      forall usage | NonNegative(usage) && 100 * Sum(usage) < TWO63
        ensures AverageUtilization(usage, request, replicas) >= target <==>
                DocumentedReached(strict, usage, request, target)
      {
        SumNonNegative(usage);
        UtilizationExact(usage, request, replicas, target);
        PassesLeast(100 * Sum(usage), documented);
        PassesLeast(100 * Sum(usage), raised);
      }
    } else {
      var usage := BetweenThresholds(request, replicas, target, documented);
    }
    RaisedThreshold(need, replicas);
  }

  lemma RaisedThreshold(need: int, replicas: int)
    requires replicas > 0
    ensures 100 < need < TWO63 - 100 ==>
              && (LeastFrom(need) == LeastFrom(need * replicas) <==> replicas == 1)
              && (LeastFrom(need + 1) == LeastFrom(need * replicas) <==> replicas == 1 && need % 100 != 0)
  {
    if need > 100 && replicas > 1 {
      ProductGrows(replicas - 1, need);
      assert need * replicas == need + (replicas - 1) * need;
    }
  }

  /** Otherwise there is a usage on which the two disagree. */
  lemma BetweenThresholds(request: int, replicas: int, target: int, documented: int) returns (usage: seq<int>)
    requires request > 0 && replicas > 0 && LeastFrom(documented) != LeastFrom(target * request * replicas)
    ensures NonNegative(usage) && 100 * Sum(usage) < TWO63
    ensures AverageUtilization(usage, request, replicas) >= target <==> !(100 * Sum(usage) >= documented)
  {
    var raised := target * request * replicas;
    var x := Between(documented, raised);
    usage := [x / 100];
    assert usage[..0] == [];
    assert Sum(usage) == x / 100;
    UtilizationExact(usage, request, replicas, target);
  }

  /** A multiple of 100 that passes one threshold only. */
  lemma Between(a: int, b: int) returns (x: int)
    requires LeastFrom(a) != LeastFrom(b)
    ensures 0 <= x < TWO63 && x % 100 == 0 && (x >= b <==> !(x >= a))
  {
    x := if LeastFrom(a) < LeastFrom(b) then LeastFrom(a) else LeastFrom(b);
  }

  lemma ProductGrows(a: int, b: int)
    requires a > 0 && b >= 0
    ensures a * b >= b
  {
  }
}
