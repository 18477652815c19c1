/** What it means that a sequence keeps some elements of another, in order. */
module Selections {
  /** `ks` lists, in order, exactly the indices below `n` at which `keep` holds. */
  ghost predicate Lists(ks: seq<nat>, n: nat, keep: nat -> bool) {
    && (forall i | 0 <= i < |ks| :: ks[i] < n && keep(ks[i]))
    && (forall i, j | 0 <= i < j < |ks| :: ks[i] < ks[j])
    && (forall k: nat | k < n && keep(k) :: k in ks)
  }

  lemma ListsNext(ks: seq<nat>, n: nat, keep: nat -> bool)
    requires Lists(ks, n, keep)
    ensures Lists(if keep(n) then ks + [n] else ks, n + 1, keep)
  {
  }
}
