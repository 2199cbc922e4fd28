/**
 True LRU by ranks, as the caches, the SHiP sampler and the signature table keep it:
 rank 0 is the most recently used way, rank N-1 the victim.
 */
module Recency {
  import opened Counting

  /** Ranks are a permutation of 0..N-1. */
  predicate IsPermutation(ranks: seq<nat>) {
    && (forall i :: 0 <= i < |ranks| ==> ranks[i] < |ranks|)
    && (forall i, j :: 0 <= i < j < |ranks| ==> ranks[i] != ranks[j])
  }

  /** Every more recent way ages by one, and the used way becomes the most recent. */
  function Promote(ranks: seq<nat>, way: nat): (r: seq<nat>)
    requires way < |ranks|
    ensures |r| == |ranks|
  {
    seq(|ranks|, i requires 0 <= i < |ranks| =>
      if i == way then 0 else if ranks[i] < ranks[way] then ranks[i] + 1 else ranks[i])
  }

  lemma PromoteKeepsPermutation(ranks: seq<nat>, way: nat)
    requires IsPermutation(ranks) && way < |ranks|
    ensures IsPermutation(Promote(ranks, way))
  {
    forall i | 0 <= i < |ranks| ensures Promote(ranks, way)[i] < |ranks| {
      assert ranks[way] < |ranks|;
    }
  }

  lemma {:induction false} ImageSize(ranks: seq<nat>)
    requires forall i, j :: 0 <= i < j < |ranks| ==> ranks[i] != ranks[j]
    ensures |set i | 0 <= i < |ranks| :: ranks[i]| == |ranks|
  {
    if ranks != [] {
      var last := |ranks| - 1;
      ImageSize(ranks[..last]);
      assert (set i | 0 <= i < |ranks[..last]| :: ranks[..last][i]) == set i | 0 <= i < last :: ranks[i];
      assert (set i | 0 <= i < |ranks| :: ranks[i]) == (set i | 0 <= i < last :: ranks[i]) + {ranks[last]};
    }
  }

  /** Every rank is held by some way, so the search for a victim always ends with one. */
  lemma RankIsHeld(ranks: seq<nat>, rank: nat) returns (way: nat)
    requires IsPermutation(ranks) && rank < |ranks|
    ensures way < |ranks| && ranks[way] == rank
  {
    var image := set i | 0 <= i < |ranks| :: ranks[i];
    ImageSize(ranks);
    SubsetOfSameSize(image, UpTo(|ranks|));
    assert rank in image;
    way :| 0 <= way < |ranks| && ranks[way] == rank;
  }

  // ---- Ranks against the history of uses ----

  /** The ranks a set starts with. */
  function Identity(n: nat): (r: seq<nat>) { seq(n, i requires 0 <= i < n => i) }

  /** The ranks after a history of uses. */
  function AfterUses(n: nat, uses: seq<nat>): (r: seq<nat>)
    requires forall i :: 0 <= i < |uses| ==> uses[i] < n
    ensures |r| == n
  {
    if uses == [] then Identity(n) else Promote(AfterUses(n, uses[..|uses| - 1]), uses[|uses| - 1])
  }

  /** The time of the last use of a way; ways not used yet count as used before the start, way 0 last. */
  function LastUse(uses: seq<nat>, way: nat): (t: int)
    ensures t < |uses|
  {
    if uses == [] then -1 - way
    else if uses[|uses| - 1] == way then |uses| - 1
    else LastUse(uses[..|uses| - 1], way)
  }

  /** After any history the ranks are a permutation that orders the ways by their last use. */
  lemma {:induction false} RanksFollowUses(n: nat, uses: seq<nat>)
    requires forall i :: 0 <= i < |uses| ==> uses[i] < n
    ensures IsPermutation(AfterUses(n, uses))
    ensures forall a, b :: 0 <= a < n && 0 <= b < n ==>
      (AfterUses(n, uses)[a] < AfterUses(n, uses)[b] <==> LastUse(uses, a) > LastUse(uses, b))
  {
    if uses != [] {
      var before := uses[..|uses| - 1];
      RanksFollowUses(n, before);
      PromoteKeepsPermutation(AfterUses(n, before), uses[|uses| - 1]);
    }
  }

  /** The way of the last rank is the least recently used one. */
  lemma VictimIsLeastRecent(n: nat, uses: seq<nat>, victim: nat, other: nat)
    requires forall i :: 0 <= i < |uses| ==> uses[i] < n
    requires victim < n && other < n && other != victim
    requires AfterUses(n, uses)[victim] == n - 1
    ensures LastUse(uses, victim) < LastUse(uses, other)
  {
    RanksFollowUses(n, uses);
  }
}
