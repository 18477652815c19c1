/** Taking the offloaded port out of a mirrored endpoint slice. */
module MirrorPorts {
  import opened Common
  import Selections

  datatype Port = Port(name: Option<string>, number: Option<int>, protocol: Option<string>, appProtocol: Option<string>)

  predicate Hits(p: Port, target: int) { p.number == Some(target) }

  /** The ports without the target: what the mirror is created with. */
  function WithoutPort(ps: seq<Port>, target: int): (r: seq<Port>)
    ensures forall p | p in r :: !Hits(p, target)
  {
    if ps == [] then []
    else if Hits(ps[0], target) then WithoutPort(ps[1..], target)
    else [ps[0]] + WithoutPort(ps[1..], target)
  }

  lemma {:induction false} WithoutLast(ps: seq<Port>, target: int)
    requires ps != []
    ensures var init, p := ps[..|ps| - 1], ps[|ps| - 1];
            WithoutPort(ps, target) == WithoutPort(init, target) + if Hits(p, target) then [] else [p]
  {
    if |ps| > 1 {
      WithoutLast(ps[1..], target);
      assert ps[1..][..|ps| - 2] == ps[..|ps| - 1][1..];
    } else {
      assert ps[..0] == [];
    }
  }

  /** Exactly the ports whose number is set and not the target, or not set, remain, in their order. */
  lemma {:induction false} WithoutPortSelects(ps: seq<Port>, target: int) returns (ks: seq<nat>)
    ensures Selections.Lists(ks, |ps|, (k: nat) => k < |ps| && ps[k].number != Some(target))
    ensures |WithoutPort(ps, target)| == |ks| && forall i | 0 <= i < |ks| :: WithoutPort(ps, target)[i] == ps[ks[i]]
  {
    ks := [];
    if ps != [] {
      var n := |ps| - 1;
      ks := WithoutPortSelects(ps[..n], target);
      WithoutLast(ps, target);
      if ps[n].number != Some(target) {
        ks := ks + [n];
      }
    }
  }

  /** The loop that builds the mirror's ports; what it applies drops the application protocol. */
  method CopyPorts(ps: seq<Port>, target: int) returns (r: seq<Port>)
    ensures |r| == |WithoutPort(ps, target)|
    ensures forall i | 0 <= i < |r| :: r[i] == WithoutPort(ps, target)[i].(appProtocol := None)
  {
    r := [];
    for i := 0 to |ps|
      invariant var w, rest := WithoutPort(ps, target), WithoutPort(ps[i..], target);
                |r| + |rest| == |w| && w[|r|..] == rest &&
                forall k | 0 <= k < |r| :: r[k] == w[k].(appProtocol := None)
    {
      assert ps[i..][1..] == ps[i + 1..];
      if Hits(ps[i], target) {
        continue;
      }
      assert WithoutPort(ps, target)[|r|] == ps[i] by {
        assert WithoutPort(ps, target)[|r|..][0] == ps[i];
      }
      assert WithoutPort(ps, target)[|r|..][1..] == WithoutPort(ps, target)[|r| + 1..];
      r := r + [ps[i].(appProtocol := None)];
    }
  }

  /** Ranging over a slice whose backing array is `b` from index `i`, while the entries that hit the target are
      deleted from the first `len` ones by shifting the rest down. `None` is the panic of a deletion beyond `len`. */
  function RangeDelete(b: seq<Port>, len: nat, i: nat, target: int): Option<seq<Port>>
    requires len <= |b| && i <= |b|
    decreases |b| - i
  {
    if i == |b| then Some(b[..len])
    else if !Hits(b[i], target) then RangeDelete(b, len, i + 1, target)
    else if i >= len then None
    else RangeDelete(Shifted(b, len, i), len - 1, i + 1, target)
  }

  /** The backing array after entry `i` of the first `len` has been deleted. */
  function Shifted(b: seq<Port>, len: nat, i: nat): (r: seq<Port>)
    requires i < len <= |b|
    ensures |r| == |b|
    ensures forall k | 0 <= k < |b| :: r[k] == if i <= k < len - 1 then b[k + 1] else b[k]
  {
    b[..i] + b[i + 1..len] + b[len - 1..]
  }

  lemma DeleteStep(b: seq<Port>, len: nat, i: nat, target: int)
    requires i < len <= |b| && Hits(b[i], target)
    ensures RangeDelete(b, len, i, target) == RangeDelete(Shifted(b, len, i), len - 1, i + 1, target)
  {
  }

  method ShiftDown(a: array<Port>, len: nat, i: nat)
    requires i < len <= a.Length
    modifies a
    ensures a[..] == Shifted(old(a[..]), len, i)
  {
    forall k | i <= k < len - 1 {
      a[k] := a[k + 1];
    }
  }

  /** The same, on the array itself. */
  method DeletePort(a: array<Port>, target: int) returns (len: nat, panicked: bool)
    modifies a
    ensures len <= a.Length
    ensures var r := RangeDelete(old(a[..]), a.Length, 0, target);
            (panicked <==> r.None?) && (!panicked ==> a[..len] == r.value)
  {
    len := a.Length;
    for i := 0 to a.Length
      invariant len <= a.Length
      invariant RangeDelete(old(a[..]), a.Length, 0, target) == RangeDelete(a[..], len, i, target)
    {
      if Hits(a[i], target) {
        if i >= len {
          return len, true;
        }
        DeleteStep(a[..], len, i, target);
        ShiftDown(a, len, i);
        len := len - 1;
      }
    }
    return len, false;
  }

  // ----- what the loop computes -----

  /** Each deletion makes the loop pass over the entry that follows. */
  function Skim(ps: seq<Port>, target: int): seq<Port> {
    if ps == [] then []
    else if !Hits(ps[0], target) then [ps[0]] + Skim(ps[1..], target)
    else if |ps| == 1 then []
    else [ps[1]] + Skim(ps[2..], target)
  }

  /** With `j` deletions made and entry `x` of the original list next, the loop will run into a stale copy of a
      last entry that hits. */
  predicate RunsOff(ps: seq<Port>, target: int, x: nat, j: nat)
    requires ps != []
    decreases |ps| + 1 - x
  {
    if x >= |ps| then Hits(ps[|ps| - 1], target) && x - j < |ps|
    else if Hits(ps[x], target) then RunsOff(ps, target, x + 2, j + 1)
    else RunsOff(ps, target, x + 1, j)
  }

  /** After `j` deletions, index `k` of the array holds the original entry `k + j`, or a copy of the last one. */
  predicate Aligned(ps: seq<Port>, b: seq<Port>, i: nat, j: nat)
    requires ps != [] && |b| == |ps|
  {
    forall k | i <= k < |b| :: b[k] == ps[if k + j < |ps| then k + j else |ps| - 1]
  }

  /** Past the live entries the loop either stops at once, or changes nothing more. */
  lemma {:induction false} StaleTail(ps: seq<Port>, b: seq<Port>, len: nat, i: nat, j: nat, target: int)
    requires ps != [] && |b| == |ps| && len + j == |ps| && len <= i <= |b| && Aligned(ps, b, i, j)
    ensures RangeDelete(b, len, i, target) ==
            if i < |b| && Hits(ps[|ps| - 1], target) then None else Some(b[..len])
    decreases |b| - i
  {
    if i < |b| {
      StaleTail(ps, b, len, i + 1, j, target);
    }
  }

  lemma SkimStep(ps: seq<Port>, x: nat, target: int, front: seq<Port>)
    requires x < |ps|
    ensures !Hits(ps[x], target) ==>
              front + Skim(ps[x..], target) == (front + [ps[x]]) + Skim(ps[x + 1..], target)
    ensures Hits(ps[x], target) && x + 1 < |ps| ==>
              front + Skim(ps[x..], target) == (front + [ps[x + 1]]) + Skim(ps[x + 2..], target)
  {
    var rest := ps[x..];
    assert rest[1..] == ps[x + 1..];
    if !Hits(ps[x], target) {
      assert Skim(rest, target) == [ps[x]] + Skim(ps[x + 1..], target);
    } else if x + 1 < |ps| {
      assert rest[2..] == ps[x + 2..];
      assert Skim(rest, target) == [ps[x + 1]] + Skim(ps[x + 2..], target);
    }
  }

  lemma AlignedShift(ps: seq<Port>, b: seq<Port>, len: nat, i: nat, j: nat)
    requires ps != [] && |b| == |ps| && len + j == |ps| && i < len && Aligned(ps, b, i, j)
    ensures Aligned(ps, Shifted(b, len, i), i + 1, j + 1)
    ensures i + 1 < len ==> Shifted(b, len, i)[..i + 1] == b[..i] + [ps[i + j + 1]]
    ensures Shifted(b, len, i)[..i] == b[..i]
  {
    var c := Shifted(b, len, i);
    forall k | i + 1 <= k < |c| ensures c[k] == ps[if k + (j + 1) < |ps| then k + (j + 1) else |ps| - 1] {
      assert k >= len - 1 ==> b[k] == ps[|ps| - 1];
    }
    if i + 1 < len {
      assert c[i] == b[i + 1] == ps[i + 1 + j];
      assert c[..i + 1] == c[..i] + [c[i]];
    }
  }

  /** The result when the loop has just read, or is about to pass, the last live entry. */
  lemma LoopEnds(ps: seq<Port>, b: seq<Port>, len: nat, i: nat, j: nat, target: int)
    requires ps != [] && |b| == |ps| && len + j == |ps| && Aligned(ps, b, i, j)
    requires i == len || (i + 1 == len && Hits(b[i], target))
    ensures RangeDelete(b, len, i, target) ==
            if RunsOff(ps, target, i + j, j) then None else Some(b[..i] + Skim(ps[i + j..], target))
  {
    if i == len {
      StaleTail(ps, b, len, i, j, target);
      assert Skim(ps[i + j..], target) == [];
    } else {
      assert b[i] == ps[i + j];
      AlignedShift(ps, b, len, i, j);
      StaleTail(ps, Shifted(b, len, i), len - 1, i + 1, j + 1, target);
      assert Skim(ps[i + j..], target) == [];
    }
    assert b[..i] + [] == b[..i];
  }

  /** What the loop makes of the array from index `i` on, `j` deletions made. */
  predicate Results(ps: seq<Port>, b: seq<Port>, len: nat, i: nat, j: nat, target: int)
    requires ps != [] && len <= |b| && i <= |b| && i + j <= |ps|
  {
    RangeDelete(b, len, i, target) ==
    if RunsOff(ps, target, i + j, j) then None else Some(b[..i] + Skim(ps[i + j..], target))
  }

  lemma KeepsEntry(ps: seq<Port>, b: seq<Port>, len: nat, i: nat, j: nat, target: int)
    requires ps != [] && |b| == |ps| && len + j == |ps| && i < len && Aligned(ps, b, i, j)
    requires !Hits(b[i], target) && Results(ps, b, len, i + 1, j, target)
    ensures Results(ps, b, len, i, j, target)
  {
    assert b[i] == ps[i + j];
    SkimStep(ps, i + j, target, b[..i]);
    assert b[..i + 1] == b[..i] + [ps[i + j]];
  }

  lemma DeletesEntry(ps: seq<Port>, b: seq<Port>, len: nat, i: nat, j: nat, target: int)
    requires ps != [] && |b| == |ps| && len + j == |ps| && i + 1 < len && Aligned(ps, b, i, j)
    requires Hits(b[i], target) && Results(ps, Shifted(b, len, i), len - 1, i + 1, j + 1, target)
    ensures Results(ps, b, len, i, j, target)
  {
    assert b[i] == ps[i + j];
    SkimStep(ps, i + j, target, b[..i]);
    AlignedShift(ps, b, len, i, j);
    DeleteStep(b, len, i, target);
  }

  lemma {:induction false} LoopResult(ps: seq<Port>, b: seq<Port>, len: nat, i: nat, j: nat, target: int)
    requires ps != [] && |b| == |ps| && len + j == |ps| && i <= len && Aligned(ps, b, i, j)
    ensures Results(ps, b, len, i, j, target)
    decreases |b| - i
  {
    if i == len || (i + 1 == len && Hits(b[i], target)) {
      LoopEnds(ps, b, len, i, j, target);
    } else if !Hits(b[i], target) {
      LoopResult(ps, b, len, i + 1, j, target);
      KeepsEntry(ps, b, len, i, j, target);
    } else {
      AlignedShift(ps, b, len, i, j);
      LoopResult(ps, Shifted(b, len, i), len - 1, i + 1, j + 1, target);
      DeletesEntry(ps, b, len, i, j, target);
    }
  }

  // ----- when that is the filter -----

  function CountHits(ps: seq<Port>, target: int): nat {
    if ps == [] then 0 else (if Hits(ps[0], target) then 1 else 0) + CountHits(ps[1..], target)
  }

  predicate NoneAdjacent(ps: seq<Port>, target: int) {
    forall i | 0 < i < |ps| :: !(Hits(ps[i - 1], target) && Hits(ps[i], target))
  }

  /** No two entries in a row carry the port, and the last entry does not unless it is the only one. */
  predicate Harmless(ps: seq<Port>, target: int) {
    NoneAdjacent(ps, target) && (CountHits(ps, target) <= 1 || !Hits(ps[|ps| - 1], target))
  }

  lemma {:induction false} SkimIsFilter(ps: seq<Port>, target: int)
    ensures Skim(ps, target) == WithoutPort(ps, target) <==> NoneAdjacent(ps, target)
    decreases |ps|
  {
    if |ps| >= 2 {
      assert NoneAdjacent(ps, target) <==>
             !(Hits(ps[0], target) && Hits(ps[1], target)) && NoneAdjacent(ps[1..], target) by {
        Adjacency(ps, target);
      }
      if !Hits(ps[0], target) {
        SkimIsFilter(ps[1..], target);
        SameTails(ps[0], Skim(ps[1..], target), WithoutPort(ps[1..], target));
      } else if Hits(ps[1], target) {
        assert Skim(ps, target)[0] == ps[1];
        assert ps[1] !in WithoutPort(ps, target);
      } else {
        Adjacency(ps[1..], target);
        assert ps[1..][1..] == ps[2..];
        SkimIsFilter(ps[2..], target);
        SameTails(ps[1], Skim(ps[2..], target), WithoutPort(ps[2..], target));
      }
    }
  }

  lemma SameTails(p: Port, s: seq<Port>, r: seq<Port>)
    ensures [p] + s == [p] + r <==> s == r
  {
    assert ([p] + s)[1..] == s;
    assert ([p] + r)[1..] == r;
  }

  lemma Adjacency(ps: seq<Port>, target: int)
    requires ps != []
    ensures NoneAdjacent(ps, target) <==>
            (|ps| >= 2 ==> !(Hits(ps[0], target) && Hits(ps[1], target))) && NoneAdjacent(ps[1..], target)
  {
  }

  lemma {:induction false} RunsOffCount(ps: seq<Port>, target: int, x: nat, j: nat)
    requires NoneAdjacent(ps, target) && x < |ps|
    ensures RunsOff(ps, target, x, j) <==>
            Hits(ps[|ps| - 1], target) && j + CountHits(ps[x..], target) >= 2
    decreases |ps| - x
  {
    assert ps[x..][1..] == ps[x + 1..];
    if !Hits(ps[x], target) {
      if x + 1 < |ps| {
        RunsOffCount(ps, target, x + 1, j);
      }
    } else if x + 1 < |ps| {
      assert !Hits(ps[x + 1], target);
      assert ps[x + 1..][1..] == ps[x + 2..];
      if x + 2 < |ps| {
        RunsOffCount(ps, target, x + 2, j + 1);
      }
    }
  }

  /** The range-and-delete loop yields exactly the filter that the mirror was created with, without panicking, if
      and only if the ports are harmless; at most one entry with the port is always harmless. */
  lemma DeleteIsFilter(ps: seq<Port>, target: int)
    ensures RangeDelete(ps, |ps|, 0, target) == Some(WithoutPort(ps, target)) <==> Harmless(ps, target)
    ensures CountHits(ps, target) <= 1 ==> Harmless(ps, target)
  {
    if ps == [] {
      assert ps[..0] == [];
    } else {
      LoopResult(ps, ps, |ps|, 0, 0, target);
      assert ps[0..] == ps && ps[..0] + Skim(ps, target) == Skim(ps, target);
      SkimIsFilter(ps, target);
      if NoneAdjacent(ps, target) {
        RunsOffCount(ps, target, 0, 0);
      }
    }
    FewHits(ps, target);
  }

  lemma {:induction false} FewHits(ps: seq<Port>, target: int)
    ensures CountHits(ps, target) <= 1 ==> NoneAdjacent(ps, target)
  {
    if |ps| >= 2 {
      FewHits(ps[1..], target);
      Adjacency(ps, target);
      assert ps[1..][0] == ps[1];
    }
  }
}
