/** Replacement in place: LRU ranks, the SHiP victim search with aging, and the SHiP sampler. */
module Replacement {
  import opened Recency

  // ---- LRU ----

  /** The first way that is not valid, or the number of ways. */
  function FirstInvalid(valid: seq<bool>): (w: nat)
    ensures w <= |valid| && (w < |valid| ==> !valid[w])
    ensures forall i :: 0 <= i < w ==> valid[i]
  {
    if valid == [] || !valid[0] then 0 else 1 + FirstInvalid(valid[1..])
  }

  /** The way of a rank, which exists in a permutation. */
  method FindRank(ranks: array<nat>, rank: nat) returns (way: nat)
    requires IsPermutation(ranks[..]) && rank < ranks.Length
    ensures way < ranks.Length && ranks[way] == rank
  {
    ghost var held := RankIsHeld(ranks[..], rank);
    way := 0;
    while ranks[way] != rank
      invariant way <= held
      decreases held - way
    {
      way := way + 1;
    }
  }

  /** An invalid way is filled first; otherwise the least recently used way is the victim. */
  method LruVictim(valid: array<bool>, ranks: array<nat>) returns (way: nat)
    requires valid.Length == ranks.Length > 0 && IsPermutation(ranks[..])
    ensures way < ranks.Length
    ensures FirstInvalid(valid[..]) < valid.Length ==> way == FirstInvalid(valid[..])
    ensures FirstInvalid(valid[..]) == valid.Length ==> ranks[way] == ranks.Length - 1
  {
    way := 0;
    while way < valid.Length && valid[way]
      invariant way <= valid.Length && forall i :: 0 <= i < way ==> valid[i]
    {
      way := way + 1;
    }
    assert way == FirstInvalid(valid[..]);
    if way == valid.Length {
      way := FindRank(ranks, ranks.Length - 1);
    }
  }

  /** Promote a way to the most recent rank. */
  method LruUpdate(ranks: array<nat>, way: nat)
    requires way < ranks.Length
    modifies ranks
    ensures ranks[..] == Promote(old(ranks[..]), way)
  {
    for i := 0 to ranks.Length
      invariant forall k :: 0 <= k < ranks.Length ==>
        ranks[k] == if k < i && old(ranks[k]) < old(ranks[way]) then old(ranks[k]) + 1 else old(ranks[k])
    {
      if ranks[i] < ranks[way] {
        ranks[i] := ranks[i] + 1;
      }
    }
    ranks[way] := 0;
  }

  // ---- SHiP: the victim search ----

  const MAX_RRPV: nat := 3

  /** The first way of the largest value. */
  predicate IsFirstLargest(rrpv: seq<nat>, way: nat) {
    && way < |rrpv|
    && (forall i :: 0 <= i < |rrpv| ==> rrpv[i] <= rrpv[way])
    && (forall i :: 0 <= i < way ==> rrpv[i] < rrpv[way])
  }

  /** All values raised alike. */
  function Aged(rrpv: seq<nat>, years: nat): (r: seq<nat>)
    ensures |r| == |rrpv|
  {
    seq(|rrpv|, i requires 0 <= i < |rrpv| => rrpv[i] + years)
  }

  /** The first way with the maximal value, or the number of ways. */
  method FindMaximal(rrpv: array<nat>) returns (way: nat)
    ensures way <= rrpv.Length && (way < rrpv.Length ==> rrpv[way] == MAX_RRPV)
    ensures forall i :: 0 <= i < way ==> rrpv[i] != MAX_RRPV
  {
    way := 0;
    while way < rrpv.Length && rrpv[way] != MAX_RRPV
      invariant way <= rrpv.Length && forall i :: 0 <= i < way ==> rrpv[i] != MAX_RRPV
    {
      way := way + 1;
    }
  }

  method AgeAll(rrpv: array<nat>)
    modifies rrpv
    ensures rrpv[..] == Aged(old(rrpv[..]), 1)
  {
    for i := 0 to rrpv.Length
      invariant forall k :: 0 <= k < rrpv.Length ==>
        rrpv[k] == if k < i then old(rrpv[k]) + 1 else old(rrpv[k])
    {
      rrpv[i] := rrpv[i] + 1;
    }
  }

  /**
   Age the set until some value is maximal, and take the first such way: it is the first way of the
   largest value before, and all values stay in range.
   */
  method FindVictim(rrpv: array<nat>) returns (way: nat)
    requires rrpv.Length > 0 && forall i :: 0 <= i < rrpv.Length ==> rrpv[i] <= MAX_RRPV
    modifies rrpv
    ensures IsFirstLargest(old(rrpv[..]), way)
    ensures rrpv[..] == Aged(old(rrpv[..]), MAX_RRPV - old(rrpv[..])[way])
    ensures forall i :: 0 <= i < rrpv.Length ==> rrpv[i] <= MAX_RRPV
  {
    ghost var years := 0;
    assert rrpv[..] == Aged(rrpv[..], 0);
    way := FindMaximal(rrpv);
    while way == rrpv.Length
      invariant years <= MAX_RRPV && rrpv[..] == Aged(old(rrpv[..]), years)
      invariant forall i :: 0 <= i < rrpv.Length ==> rrpv[i] <= MAX_RRPV
      invariant way <= rrpv.Length && (way < rrpv.Length ==> rrpv[way] == MAX_RRPV)
      invariant forall i :: 0 <= i < way ==> rrpv[i] != MAX_RRPV
      decreases MAX_RRPV - rrpv[0]
    {
      AgeAll(rrpv);
      years := years + 1;
      way := FindMaximal(rrpv);
    }
    ghost var was := old(rrpv[..]);
    assert forall i :: 0 <= i < rrpv.Length ==> rrpv[i] == rrpv[..][i] == was[i] + years;
    assert IsFirstLargest(was, way);
  }

  // ---- SHiP: the sampler ----

  const SHCT_PRIME: nat := 16381
  const SHCT_MAX: nat := 7

  datatype Sample = Sample(valid: bool, tag: nat, ip: nat, used: bool)

  /** The first valid sample with this tag, or the number of samples. */
  function FirstMatch(samples: seq<Sample>, tag: nat): (w: nat)
    ensures w <= |samples| && (w < |samples| ==> samples[w].valid && samples[w].tag == tag)
    ensures forall i :: 0 <= i < w ==> !(samples[i].valid && samples[i].tag == tag)
  {
    if samples == [] || (samples[0].valid && samples[0].tag == tag) then 0 else 1 + FirstMatch(samples[1..], tag)
  }

  function FirstUnused(samples: seq<Sample>): (w: nat)
    ensures w <= |samples| && (w < |samples| ==> !samples[w].valid)
    ensures forall i :: 0 <= i < w ==> samples[i].valid
  {
    if samples == [] || !samples[0].valid then 0 else 1 + FirstUnused(samples[1..])
  }

  /** Ranks are a permutation, the tags of valid samples differ, and counters saturate at 7. */
  ghost predicate SamplerOk(samples: seq<Sample>, ranks: seq<nat>, counters: seq<nat>) {
    && |ranks| == |samples| > 0 && IsPermutation(ranks)
    && (forall i, j :: 0 <= i < j < |samples| && samples[i].valid && samples[j].valid ==>
          samples[i].tag != samples[j].tag)
    && |counters| >= SHCT_PRIME && (forall i :: 0 <= i < |counters| ==> counters[i] <= SHCT_MAX)
  }

  class Sampler {
    const samples: array<Sample>
    const ranks: array<nat>
    const counters: array<nat>

    ghost predicate Valid()
      reads samples, ranks, counters
    {
      ranks != counters && SamplerOk(samples[..], ranks[..], counters[..])
    }

    constructor (ways: nat, size: nat)
      requires ways > 0 && size >= SHCT_PRIME
      ensures Valid() && fresh(samples) && fresh(ranks) && fresh(counters)
    {
      samples := new Sample[ways](_ => Sample(false, 0, 0, false));
      ranks := new nat[ways](i => i);
      counters := new nat[size](_ => 0);
    }

    /** Look for a tag; a hit lowers the counter of the instruction that brought it in. */
    method TryHit(tag: nat) returns (way: nat)
      requires Valid()
      modifies samples, counters
      ensures Valid() && way == FirstMatch(old(samples[..]), tag)
      ensures samples[..] == if way < samples.Length then old(samples[..])[way := old(samples[way]).(used := true)]
                             else old(samples[..])
      ensures counters[..] == if way < samples.Length then Lowered(old(counters[..]), old(samples[way]).ip)
                              else old(counters[..])
    {
      way := 0;
      while way < samples.Length
        invariant way <= samples.Length && samples[..] == old(samples[..]) && counters[..] == old(counters[..])
        invariant forall i :: 0 <= i < way ==> !(samples[i].valid && samples[i].tag == tag)
      {
        if samples[way].valid && samples[way].tag == tag {
          var i := samples[way].ip % SHCT_PRIME;
          if counters[i] > 0 { counters[i] := counters[i] - 1; }
          samples[way] := samples[way].(used := true);
          break;
        }
        way := way + 1;
      }
    }

    /** Take an unused sample, or else the least recently used one; an unused victim raises its counter. */
    method Replace(tag: nat, ip: nat) returns (way: nat)
      requires Valid() && FirstMatch(samples[..], tag) == samples.Length
      modifies samples, counters
      ensures Valid() && way < samples.Length
      ensures FirstUnused(old(samples[..])) < samples.Length ==> way == FirstUnused(old(samples[..]))
      ensures FirstUnused(old(samples[..])) == samples.Length ==> ranks[way] == ranks.Length - 1
      ensures samples[..] == old(samples[..])[way := Sample(true, tag, ip, false)]
      ensures counters[..] == if old(samples[way]).valid && !old(samples[way]).used
                              then Raised(old(counters[..]), old(samples[way]).ip) else old(counters[..])
    {
      way := 0;
      while way < samples.Length && samples[way].valid
        invariant way <= samples.Length && forall i :: 0 <= i < way ==> samples[i].valid
      {
        way := way + 1;
      }
      if way == samples.Length {
        way := FindRank(ranks, ranks.Length - 1);
        if !samples[way].used {
          var i := samples[way].ip % SHCT_PRIME;
          if counters[i] < SHCT_MAX { counters[i] := counters[i] + 1; }
        }
      }
      samples[way] := Sample(true, tag, ip, false);
    }

    /** After an access its tag is in the sampler exactly once, with the most recent rank. */
    method UpdateSampler(tag: nat, ip: nat) returns (way: nat)
      requires Valid()
      modifies samples, ranks, counters
      ensures Valid() && way < samples.Length
      ensures samples[way].valid && samples[way].tag == tag && ranks[way] == 0
      ensures ranks[..] == Promote(old(ranks[..]), way)
      ensures forall i :: 0 <= i < samples.Length && i != way ==> samples[i] == old(samples[i])
      ensures FirstMatch(old(samples[..]), tag) < samples.Length ==>
        && way == FirstMatch(old(samples[..]), tag) && samples[way] == old(samples[way]).(used := true)
        && counters[..] == Lowered(old(counters[..]), samples[way].ip)
      ensures FirstMatch(old(samples[..]), tag) == samples.Length ==>
        && samples[way] == Sample(true, tag, ip, false)
        && (if FirstUnused(old(samples[..])) < samples.Length then way == FirstUnused(old(samples[..]))
            else old(ranks[way]) == ranks.Length - 1)
        && counters[..] == if old(samples[way]).valid && !old(samples[way]).used
                           then Raised(old(counters[..]), old(samples[way]).ip) else old(counters[..])
    {
      way := TryHit(tag);
      if way == samples.Length {
        way := Replace(tag, ip);
      }
      PromoteKeepsPermutation(ranks[..], way);
      LruUpdate(ranks, way);
    }
  }

  /** The counter of an instruction, one lower but not below 0; the others stay. */
  function Lowered(counters: seq<nat>, ip: nat): (r: seq<nat>)
    requires |counters| >= SHCT_PRIME
    ensures |r| == |counters|
    ensures r[ip % 16381] + 1 == counters[ip % 16381] || r[ip % 16381] == counters[ip % 16381] == 0
    ensures forall k :: 0 <= k < |r| && k != ip % 16381 ==> r[k] == counters[k]
  {
    var i := ip % SHCT_PRIME;
    counters[i := if counters[i] > 0 then counters[i] - 1 else 0]
  }

  /** The counter of an instruction, one higher but not above 7; the others stay. */
  function Raised(counters: seq<nat>, ip: nat): (r: seq<nat>)
    requires |counters| >= SHCT_PRIME
    ensures |r| == |counters|
    ensures r[ip % 16381] == counters[ip % 16381] + 1 <= 7 || r[ip % 16381] == counters[ip % 16381] >= 7
    ensures forall k :: 0 <= k < |r| && k != ip % 16381 ==> r[k] == counters[k]
  {
    var i := ip % SHCT_PRIME;
    counters[i := if counters[i] < SHCT_MAX then counters[i] + 1 else counters[i]]
  }
}
