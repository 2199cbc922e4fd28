/** Counting the true positions of a mask, sizes of finite sets, and the shared Option type. */
module Counting {

  datatype Option<+T> = None | Some(value: T)

  /** How many positions of the mask are set. */
  function Count(mask: seq<bool>): nat {
    if mask == [] then 0 else Count(mask[..|mask| - 1]) + (if mask[|mask| - 1] then 1 else 0)
  }

  lemma {:induction false} CountUpdate(mask: seq<bool>, i: nat, v: bool)
    requires i < |mask|
    ensures Count(mask[i := v]) == Count(mask) - (if mask[i] then 1 else 0) + (if v then 1 else 0)
  {
    var last := |mask| - 1;
    if i == last {
      assert mask[i := v][..last] == mask[..last];
    } else {
      CountUpdate(mask[..last], i, v);
      assert mask[i := v][..last] == mask[..last][i := v];
    }
  }

  /** A mask counts zero exactly when no position is set, and its length exactly when all are. */
  lemma {:induction false} CountExtremes(mask: seq<bool>)
    ensures Count(mask) <= |mask|
    ensures Count(mask) == 0 <==> forall i :: 0 <= i < |mask| ==> !mask[i]
    ensures Count(mask) == |mask| <==> forall i :: 0 <= i < |mask| ==> mask[i]
  {
    if mask != [] {
      var rest := mask[..|mask| - 1];
      CountExtremes(rest);
      assert forall i :: 0 <= i < |rest| ==> rest[i] == mask[i];
      assert mask[|mask| - 1] in mask;
    }
  }

  /** A pointwise smaller mask counts no more, and strictly less when it misses one position. */
  lemma {:induction false} CountMonotone(small: seq<bool>, big: seq<bool>)
    requires |small| == |big|
    requires forall i :: 0 <= i < |small| && small[i] ==> big[i]
    ensures Count(small) <= Count(big)
    ensures (exists i :: 0 <= i < |small| && big[i] && !small[i]) ==> Count(small) < Count(big)
  {
    if small != [] {
      var last := |small| - 1;
      CountMonotone(small[..last], big[..last]);
      if i :| 0 <= i < |small| && big[i] && !small[i] {
        if i < last {
          assert big[..last][i] && !small[..last][i];
        }
      }
    }
  }

  // ---- Finite sets ----

  function UpTo(n: nat): (s: set<int>)
    ensures |s| == n
    ensures forall k: int :: k in s <==> 0 <= k < n
  {
    if n == 0 then {} else UpTo(n - 1) + {n - 1}
  }

  lemma {:induction false} SubsetSize<T>(a: set<T>, b: set<T>)
    requires a <= b
    ensures |a| <= |b|
  {
    if a != {} {
      var x :| x in a;
      SubsetSize(a - {x}, b - {x});
    }
  }

  lemma SubsetOfSameSize<T>(a: set<T>, b: set<T>)
    requires a <= b && |a| == |b|
    ensures a == b
  {
    if x :| x in b && x !in a {
      SubsetSize(a, b - {x});
    }
  }
}
