/**
 A first-level cache or TLB: its array of sets beside its misses in flight. No block is cached twice, and
 no block is cached and missed at the same time.
 */
module CacheArray {
  import opened Counting
  import opened Recency
  import opened CacheProtocol
  import opened CacheQueues

  datatype Block = Block(valid: bool, dirty: bool, tag: nat, rank: nat)

  function Ranks(row: seq<Block>): (r: seq<nat>)
    ensures |r| == |row|
  {
    seq(|row|, w requires 0 <= w < |row| => row[w].rank)
  }

  predicate At(row: seq<Block>, w: nat, a: nat) { w < |row| && row[w].valid && row[w].tag == a }

  /** The block is in this set. */
  ghost predicate InRow(row: seq<Block>, a: nat) { exists w: nat :: At(row, w, a) }

  /** Valid tags of a set differ and belong to the set, and the ranks are a permutation. */
  ghost predicate RowOk(row: seq<Block>, s: nat, sets: nat) {
    && sets > 0 && IsPermutation(Ranks(row))
    && (forall v, w :: 0 <= v < w < |row| && row[v].valid && row[w].valid ==> row[v].tag != row[w].tag)
    && (forall w :: 0 <= w < |row| && row[w].valid ==> row[w].tag != 0 && row[w].tag % sets == s)
  }

  /** The set after way w was used: only the ranks change. */
  function Used(row: seq<Block>, w: nat): (r: seq<Block>)
    requires w < |row|
    ensures |r| == |row|
  {
    seq(|row|, v requires 0 <= v < |row| => row[v].(rank := Promote(Ranks(row), w)[v]))
  }

  lemma UsedKeepsRow(row: seq<Block>, w: nat, s: nat, sets: nat)
    requires RowOk(row, s, sets) && w < |row|
    ensures RowOk(Used(row, w), s, sets)
    ensures forall a: nat :: InRow(Used(row, w), a) <==> InRow(row, a)
  {
    var row' := Used(row, w);
    PromoteKeepsPermutation(Ranks(row), w);
    assert Ranks(row') == Promote(Ranks(row), w);
    assert forall v: nat, a: nat :: At(row', v, a) <==> At(row, v, a);
  }

  /** The first way that is not valid, or else the least recently used one. */
  predicate IsVictim(row: seq<Block>, w: nat) {
    && w < |row|
    && (if row[w].valid then (forall v :: 0 <= v < |row| ==> row[v].valid) && row[w].rank == |row| - 1
        else forall v :: 0 <= v < w ==> row[v].valid)
  }

  /** Block a replaces the victim, and nothing else leaves the set. */
  lemma FillKeepsRow(row: seq<Block>, w: nat, a: nat, dirty: bool, s: nat, sets: nat)
    requires RowOk(row, s, sets) && w < |row| && a != 0 && a % sets == s && !InRow(row, a)
    ensures var row' := row[w := Block(true, dirty, a, row[w].rank)];
      && RowOk(row', s, sets)
      && forall b: nat :: InRow(row', b) <==> b == a || (InRow(row, b) && !At(row, w, b))
  {
    var row' := row[w := Block(true, dirty, a, row[w].rank)];
    assert Ranks(row') == Ranks(row);
    assert At(row', w, a);
    forall v | 0 <= v < |row| && v != w && row[v].valid ensures row[v].tag != a {
      assert At(row, v, row[v].tag);
    }
    forall b: nat ensures InRow(row', b) <==> b == a || (InRow(row, b) && !At(row, w, b)) {
      if v: nat :| At(row, v, b) {
        assert v != w ==> At(row', v, b);
      }
      if v: nat :| At(row', v, b) {
        assert v != w ==> At(row, v, b);
      }
    }
  }

  lemma InvalidKeepsRow(row: seq<Block>, w: nat, s: nat, sets: nat)
    requires RowOk(row, s, sets) && w < |row| && row[w].valid
    ensures var row' := row[w := row[w].(valid := false)];
      && RowOk(row', s, sets)
      && forall b: nat :: InRow(row', b) <==> InRow(row, b) && b != row[w].tag
  {
    var row' := row[w := row[w].(valid := false)];
    assert Ranks(row') == Ranks(row);
    assert At(row, w, row[w].tag);
    forall b: nat ensures InRow(row', b) <==> InRow(row, b) && b != row[w].tag {
      if v: nat :| At(row, v, b) {
        assert v != w ==> At(row', v, b);
      }
      if v: nat :| At(row', v, b) {
        assert v != w && At(row, v, b);
      }
    }
  }

  /** Way w was used, and marked dirty if asked; the ranks follow, and nothing else changes. */
  predicate RowUsed(row: seq<Block>, row': seq<Block>, w: nat, dirty: bool) {
    && w < |row| == |row'|
    && forall v :: 0 <= v < |row| ==>
         row'[v] == Block(row[v].valid, row[v].dirty || (dirty && v == w), row[v].tag, Promote(Ranks(row), w)[v])
  }

  /** Way w holds block a as the most recently used; the other ways age, and keep what they hold. */
  predicate RowFilled(row: seq<Block>, row': seq<Block>, w: nat, a: nat, dirty: bool) {
    && w < |row| == |row'| && row'[w] == Block(true, dirty, a, 0)
    && forall v :: 0 <= v < |row| && v != w ==>
         row'[v] == Block(row[v].valid, row[v].dirty, row[v].tag, Promote(Ranks(row), w)[v])
  }

  /** All sets but one are as before. */
  predicate OnlyRow(rows: seq<seq<Block>>, rows': seq<seq<Block>>, s: nat) {
    |rows'| == |rows| && forall t :: 0 <= t < |rows| && t != s ==> rows'[t] == rows[t]
  }

  /** The victim of a set is unique. */
  lemma VictimIsUnique(row: seq<Block>, v: nat, w: nat)
    requires IsPermutation(Ranks(row)) && IsVictim(row, v) && IsVictim(row, w)
    ensures v == w
  {
    assert Ranks(row)[v] == row[v].rank && Ranks(row)[w] == row[w].rank;
  }

  class CacheUnit {
    const rows: array<seq<Block>>
    const ways: nat
    const mshr: MissRegisters

    ghost predicate Holds(a: nat)
      reads rows
    {
      rows.Length > 0 && InRow(rows[a % rows.Length], a)
    }

    ghost predicate RowsOk()
      reads rows
    {
      rows.Length > 0 && ways > 0
      && forall s: nat :: s < rows.Length ==> |rows[s]| == ways && RowOk(rows[s], s, rows.Length)
    }

    /** Cached and missed blocks are different, and each is there once. */
    ghost predicate Valid()
      reads this, rows, mshr, mshr.entry
    {
      && RowsOk() && mshr.Valid() && 0 !in mshr.contents
      && forall a: nat :: a in mshr.contents ==> !Holds(a)
    }

    constructor (sets: nat, ways: nat, misses: nat)
      requires sets > 0 && ways > 0
      ensures Valid() && mshr.contents == map[] && forall a: nat :: !Holds(a)
    {
      var row := seq(ways, w requires 0 <= w < ways => Block(false, false, 0, w));
      rows := new seq<Block>[sets](_ => row);
      this.ways := ways;
      mshr := new MissRegisters(misses);
    }

    /** The way that holds the block, or -1. */
    method CheckHit(a: nat) returns (w: int)
      requires RowsOk()
      ensures w == -1 <==> !Holds(a)
      ensures w != -1 ==> w >= 0 && At(rows[a % rows.Length], w, a)
    {
      var row := rows[a % rows.Length];
      for v := 0 to ways
        invariant forall u: nat :: u < v ==> !At(row, u, a)
      {
        if row[v].valid && row[v].tag == a {
          assert At(row, v, a);
          return v;
        }
      }
      return -1;
    }

    /** A read, or a store, which marks the block dirty on a hit: hit, join a miss, start one, or stall. */
    method HandleAccess(a: nat, isStore: bool, now: nat) returns (hit: bool, handled: bool)
      requires Valid() && a != 0
      modifies rows, mshr, mshr.entry
      ensures Valid() && hit == old(Holds(a)) && forall b: nat :: Holds(b) == old(Holds(b))
      ensures !hit ==> rows[..] == old(rows[..])
      ensures hit ==> exists w: nat ::
        && At(old(rows[..])[a % rows.Length], w, a)
        && RowUsed(old(rows[..])[a % rows.Length], rows[a % rows.Length], w, isStore)
        && OnlyRow(old(rows[..]), rows[..], a % rows.Length)
      ensures handled <==> hit || a in mshr.contents
      ensures mshr.contents ==
        if hit || a in old(mshr.contents) || |old(mshr.contents)| == mshr.entry.Length then old(mshr.contents)
        else old(mshr.contents)[a := Miss(false, false, FILL_L1, false, false)]
    {
      hide MissRegisters.Valid;
      var w := CheckHit(a);
      if w != -1 {
        UseWay(a % rows.Length, w, isStore);
        return true, true;
      }
      var i := mshr.CheckMshr(a);
      if i != -1 {
        return false, true;
      }
      if mshr.IsFull() {
        return false, false;
      }
      mshr.AddMshr(a, Miss(false, false, FILL_L1, false, false), now);
      return false, true;
    }

    /** Make a way the most recently used one of its set. */
    method UseWay(s: nat, w: nat, dirty: bool)
      requires RowsOk() && s < rows.Length && w < ways && rows[s][w].valid
      modifies rows
      ensures RowsOk() && forall b: nat :: Holds(b) == old(Holds(b))
      ensures RowUsed(old(rows[s]), rows[s], w, dirty) && OnlyRow(old(rows[..]), rows[..], s)
    {
      var row := rows[s];
      UsedKeepsRow(row, w, s, rows.Length);
      var used := Used(row, w);
      if dirty {
        DirtyKeepsRow(used, w, s, rows.Length);
        used := used[w := used[w].(dirty := true)];
      }
      rows[s] := used;
    }

    /** The data of a miss arrive. */
    method DataReturn(a: nat, cycle: nat)
      requires Valid() && a in mshr.contents
      modifies mshr, mshr.entry
      ensures Valid() && mshr.contents == old(mshr.contents)[a := old(mshr.contents)[a].(returned := true)]
    {
      hide MissRegisters.Valid, RowsOk;
      var i := mshr.CheckMshr(a);
      mshr.Update(i, mshr.entry[i].miss.(returned := true), cycle);
    }

    method FindVictim(s: nat) returns (w: nat)
      requires RowsOk() && s < rows.Length
      ensures IsVictim(rows[s], w)
    {
      var row := rows[s];
      w := 0;
      while w < ways && row[w].valid
        invariant w <= ways && forall v :: 0 <= v < w ==> row[v].valid
      {
        w := w + 1;
      }
      if w == ways {
        ghost var last := RankIsHeld(Ranks(row), ways - 1);
        w := 0;
        while row[w].rank != ways - 1
          invariant w <= last
          decreases last - w
        {
          w := w + 1;
        }
      }
    }

    /**
     Data that are due replace the victim, unless it is dirty and there is no room to write it back.
     Only the victim leaves the array, and the miss that was filled leaves the registers.
     */
    method HandleFill(now: nat, room: bool, isStore: bool) returns (filled: Option<nat>, evicted: Option<nat>)
      requires Valid()
      modifies rows, mshr, mshr.entry
      ensures Valid()
      ensures var i := old(mshr.NextReady(now));
        if i == -1 then filled == None
        else
          var a := old(mshr.entry[i]).address;
          var row := old(rows[..])[a % rows.Length];
          exists w: nat ::
            && IsVictim(row, w)
            && (filled == if row[w].dirty && !room then None else Some(a))
            && (filled.Some? ==>
                  && evicted == (if row[w].valid then Some(row[w].tag) else None)
                  && RowFilled(row, rows[a % rows.Length], w, a, isStore)
                  && OnlyRow(old(rows[..]), rows[..], a % rows.Length))
      ensures filled == None ==> rows[..] == old(rows[..])
      ensures match filled
        case None => mshr.contents == old(mshr.contents) && forall b: nat :: Holds(b) == old(Holds(b))
        case Some(a) =>
          && a in old(mshr.contents) && old(mshr.contents)[a].returned && mshr.contents == old(mshr.contents) - {a}
          && (evicted.Some? ==> old(Holds(evicted.value)) && evicted.value % rows.Length == a % rows.Length)
          && forall b: nat :: Holds(b) <==> b == a || (old(Holds(b)) && evicted != Some(b))
    {
      hide MissRegisters.Valid;
      filled, evicted := None, None;
      var i := mshr.NextReady(now);
      if i == -1 { return; }
      var a := mshr.entry[i].address;
      var s := a % rows.Length;
      var w := FindVictim(s);
      if rows[s][w].dirty && !room { return; }
      assert !Holds(a);
      evicted := PutBlock(s, w, a, isStore);
      mshr.RemoveMshr(i);
      filled := Some(a);
    }

    /** Put a block in a way and use it; what was there is evicted. */
    method PutBlock(s: nat, w: nat, a: nat, dirty: bool) returns (evicted: Option<nat>)
      requires RowsOk() && a != 0 && s == a % rows.Length && w < ways && !Holds(a)
      modifies rows
      ensures RowsOk()
      ensures evicted == if old(rows[s][w].valid) then Some(old(rows[s][w].tag)) else None
      ensures RowFilled(old(rows[s]), rows[s], w, a, dirty) && OnlyRow(old(rows[..]), rows[..], s)
      ensures evicted.Some? ==> old(Holds(evicted.value)) && evicted.value % rows.Length == s
      ensures forall b: nat :: Holds(b) <==> b == a || (old(Holds(b)) && evicted != Some(b))
    {
      var row := rows[s];
      evicted := if row[w].valid then Some(row[w].tag) else None;
      assert row[w].valid ==> At(row, w, row[w].tag);
      FillKeepsRow(row, w, a, dirty, s, rows.Length);
      var put := row[w := Block(true, dirty, a, row[w].rank)];
      assert Ranks(put) == Ranks(row);
      rows[s] := put;
      UseWay(s, w, false);
    }

    /** Remove a block, as when its page is swapped out. */
    method Invalidate(a: nat) returns (w: int)
      requires Valid()
      modifies rows
      ensures Valid() && (w == -1 <==> !old(Holds(a)))
      ensures forall b: nat :: Holds(b) <==> old(Holds(b)) && b != a
    {
      hide MissRegisters.Valid;
      w := CheckHit(a);
      if w != -1 {
        var s := a % rows.Length;
        InvalidKeepsRow(rows[s], w, s, rows.Length);
        rows[s] := rows[s][w := rows[s][w].(valid := false)];
      }
    }
  }

  lemma DirtyKeepsRow(row: seq<Block>, w: nat, s: nat, sets: nat)
    requires RowOk(row, s, sets) && w < |row| && row[w].valid
    ensures var row' := row[w := row[w].(dirty := true)];
      RowOk(row', s, sets) && forall a: nat :: InRow(row', a) <==> InRow(row, a)
  {
    var row' := row[w := row[w].(dirty := true)];
    assert Ranks(row') == Ranks(row);
    assert forall v: nat, a: nat :: At(row', v, a) <==> At(row, v, a);
  }
}
