/** The prefetcher as it is programmed: tables and the prefetch buffer are changed in place. */
module Kpcp {
  import opened Counting
  import opened Recency
  import opened KpcpModel

  const TAG_RANGE: nat := 65536

  datatype StEntry = StEntry(valid: bool, tag: nat, lastBlock: int, signature: Signature, firstHit: bool, lru: nat)

  function Ranks(st: seq<StEntry>): (r: seq<nat>)
    ensures |r| == |st|
  {
    seq(|st|, i requires 0 <= i < |st| => st[i].lru)
  }

  /** Ranks form a permutation, no two valid entries track the same page, blocks lie in the page. */
  predicate StOk(st: seq<StEntry>) {
    && |st| > 0
    && IsPermutation(Ranks(st))
    && (forall i, j :: 0 <= i < j < |st| && st[i].valid && st[j].valid ==> st[i].tag != st[j].tag)
    && (forall i :: 0 <= i < |st| ==> 0 <= st[i].lastBlock <= 63)
  }

  predicate Tracks(e: StEntry, tag: nat) { e.valid && e.tag == tag }

  /** The way an access to a page goes to: its entry, else a free one, else the least recently used. */
  predicate IsTarget(st: seq<StEntry>, tag: nat, way: int) {
    && 0 <= way < |st|
    && if exists i :: 0 <= i < |st| && Tracks(st[i], tag) then Tracks(st[way], tag)
       else if exists i :: 0 <= i < |st| && !st[i].valid then
         !st[way].valid && forall i :: 0 <= i < way ==> st[i].valid
       else st[way].lru == |st| - 1
  }

  /** The entry after an access to one of its blocks, and the delta it teaches the pattern table. */
  function Access(e: StEntry, tag: nat, block: int): (StEntry, Option<(Signature, int)>)
    requires 0 <= block <= 63 && 0 <= e.lastBlock <= 63
  {
    var delta := block - e.lastBlock;
    if !Tracks(e, tag) then
      (e.(valid := true, tag := tag, signature := 0, firstHit := false, lastBlock := block), None)
    else if e.signature == 0 then
      (e.(signature := DeltaCode(delta), firstHit := true, lastBlock := block), None)
    else if delta == 0 then (e.(firstHit := false), None)
    else
      (e.(signature := GetNewSignature(e.signature, delta), firstHit := false, lastBlock := block),
       Some((e.signature, delta)))
  }

  /** The entry of a page after an access: its last block, its signature, and whether this was its first hit. */
  function Accessed(e: StEntry, rank: nat, tag: nat, block: int): StEntry
    requires 0 <= block <= 63 && 0 <= e.lastBlock <= 63
  {
    if !Tracks(e, tag) then StEntry(true, tag, block, 0, false, rank)
    else if e.signature == 0 then StEntry(true, tag, block, DeltaCode(block - e.lastBlock), true, rank)
    else StEntry(true, tag, block, GetNewSignature(e.signature, block - e.lastBlock), false, rank)
  }

  /** Both ways to say what an access does to an entry, and what it teaches. */
  lemma AccessCases(e: StEntry, tag: nat, block: int)
    requires 0 <= block <= 63 && 0 <= e.lastBlock <= 63
    ensures Access(e, tag, block).0 == Accessed(e, e.lru, tag, block)
    ensures Access(e, tag, block).1 ==
      if Tracks(e, tag) && e.signature != 0 && block != e.lastBlock then Some((e.signature, block - e.lastBlock)) else None
  {}

  function Reranked(st: seq<StEntry>, ranks: seq<nat>): (r: seq<StEntry>)
    requires |ranks| == |st|
    ensures |r| == |st|
  {
    seq(|st|, i requires 0 <= i < |st| => st[i].(lru := ranks[i]))
  }

  /** The signature table after an access through this way. */
  function AfterAccess(st: seq<StEntry>, tag: nat, block: int, way: nat): seq<StEntry>
    requires 0 <= block <= 63 && way < |st| && 0 <= st[way].lastBlock <= 63
  {
    Reranked(st[way := Access(st[way], tag, block).0], Promote(Ranks(st), way))
  }

  /** An access keeps the table in order, leaves its page tracked at rank 0, and teaches a real delta. */
  lemma AccessKeepsTable(st: seq<StEntry>, tag: nat, block: int, way: nat)
    requires StOk(st) && 0 <= block <= 63 && IsTarget(st, tag, way)
    ensures StOk(AfterAccess(st, tag, block, way))
    ensures Tracks(AfterAccess(st, tag, block, way)[way], tag)
    ensures AfterAccess(st, tag, block, way)[way].lru == 0
    ensures forall i :: 0 <= i < |st| && i != way ==> !Tracks(AfterAccess(st, tag, block, way)[i], tag)
    ensures match Access(st[way], tag, block).1
      case None => true
      case Some((signature, delta)) => signature != 0 && delta != 0 && DeltaInPage(delta)
  {
    var st' := AfterAccess(st, tag, block, way);
    PromoteKeepsPermutation(Ranks(st), way);
    assert Ranks(st') == Promote(Ranks(st), way);
    forall i | 0 <= i < |st| && i != way ensures !Tracks(st[i], tag) || Tracks(st[way], tag) {}
  }

  // ---- All accesses to one page ----

  /** The signature of a page after these blocks: the codes of the steps between them, mixed in order. */
  function PathSignature(blocks: seq<int>): Signature
    requires forall i :: 0 <= i < |blocks| ==> 0 <= blocks[i] <= 63
  {
    if |blocks| < 2 then 0
    else
      var n := |blocks| - 1;
      var before, step := PathSignature(blocks[..n]), blocks[n] - blocks[n - 1];
      if before == 0 then DeltaCode(step) else GetNewSignature(before, step)
  }

  /** An access to a block of a page, and the way it went to. */
  datatype Visit = Visit(tag: nat, block: int, way: nat)

  predicate InRange(ways: nat, h: seq<Visit>) {
    forall i :: 0 <= i < |h| ==> 0 <= h[i].block <= 63 && h[i].way < ways
  }

  function FirstTable(ways: nat): seq<StEntry> {
    seq(ways, i requires 0 <= i < ways => StEntry(false, 0, 0, 0, false, i))
  }

  /** The signature table after these accesses. */
  function TableAfter(ways: nat, h: seq<Visit>): (st: seq<StEntry>)
    requires InRange(ways, h)
    ensures |st| == ways && forall i :: 0 <= i < ways ==> 0 <= st[i].lastBlock <= 63
  {
    if h == [] then FirstTable(ways)
    else
      var v := h[|h| - 1];
      AfterAccess(TableAfter(ways, h[..|h| - 1]), v.tag, v.block, v.way)
  }

  /** The page a way was last used for. */
  function PageIn(h: seq<Visit>, way: nat): Option<nat> {
    if h == [] then None
    else if h[|h| - 1].way == way then Some(h[|h| - 1].tag)
    else PageIn(h[..|h| - 1], way)
  }

  /** The blocks accessed through a way since it was given to the page it was last used for. */
  function BlocksIn(h: seq<Visit>, way: nat): (blocks: seq<int>)
    requires forall i :: 0 <= i < |h| ==> 0 <= h[i].block <= 63
    ensures forall i :: 0 <= i < |blocks| ==> 0 <= blocks[i] <= 63
  {
    if h == [] then []
    else
      var before, v := h[..|h| - 1], h[|h| - 1];
      if v.way != way then BlocksIn(before, way)
      else if PageIn(before, way) == Some(v.tag) then BlocksIn(before, way) + [v.block]
      else [v.block]
  }

  /** An entry that holds a page and the steps of these accesses to it; an unused one holds neither. */
  predicate Represents(e: StEntry, page: Option<nat>, blocks: seq<int>)
    requires forall i :: 0 <= i < |blocks| ==> 0 <= blocks[i] <= 63
  {
    && page == (if e.valid then Some(e.tag) else None)
    && (e.valid <==> blocks != [])
    && (e.valid ==> e.lastBlock == blocks[|blocks| - 1] && e.signature == PathSignature(blocks))
    && (e.valid && e.firstHit ==> |blocks| > 1)
  }

  lemma AccessRepresents(e: StEntry, page: Option<nat>, blocks: seq<int>, tag: nat, block: int, rank: nat)
    requires forall i :: 0 <= i < |blocks| ==> 0 <= blocks[i] <= 63
    requires Represents(e, page, blocks) && 0 <= block <= 63 && 0 <= e.lastBlock <= 63
    ensures Represents(Access(e, tag, block).0.(lru := rank), Some(tag),
                       if page == Some(tag) then blocks + [block] else [block])
  {
    if page == Some(tag) {
      assert (blocks + [block])[..|blocks|] == blocks;
    }
  }

  /**
   In every run, an entry is determined by the accesses to its page since the page was given the way:
   its signature mixes exactly their steps, and its last block is the last of them.
   */
  lemma {:induction false} EntriesFollowBlocks(ways: nat, h: seq<Visit>, way: nat)
    requires InRange(ways, h) && way < ways
    ensures Represents(TableAfter(ways, h)[way], PageIn(h, way), BlocksIn(h, way))
  {
    if h != [] {
      var before, v := h[..|h| - 1], h[|h| - 1];
      EntriesFollowBlocks(ways, before, way);
      var st := TableAfter(ways, before);
      hide Access, Represents, Promote;
      var rank := Promote(Ranks(st), v.way)[way];
      if v.way == way {
        AccessRepresents(st[way], PageIn(before, way), BlocksIn(before, way), v.tag, v.block, rank);
      } else {
        assert TableAfter(ways, h)[way] == st[way].(lru := rank);
        RankIsFree(st[way], PageIn(before, way), BlocksIn(before, way), rank);
      }
    } else {
      assert TableAfter(ways, h)[way] == StEntry(false, 0, 0, 0, false, way);
    }
  }

  lemma RankIsFree(e: StEntry, page: Option<nat>, blocks: seq<int>, rank: nat)
    requires forall i :: 0 <= i < |blocks| ==> 0 <= blocks[i] <= 63
    requires Represents(e, page, blocks)
    ensures Represents(e.(lru := rank), page, blocks)
  {}

  /** What an access teaches in a run: the step from the block before it, with the signature so far. */
  lemma VisitTeachesStep(ways: nat, h: seq<Visit>, v: Visit)
    requires InRange(ways, h) && 0 <= v.block <= 63 && v.way < ways
    ensures var blocks, lesson := BlocksIn(h, v.way), Access(TableAfter(ways, h)[v.way], v.tag, v.block).1;
      lesson == if PageIn(h, v.way) == Some(v.tag) && PathSignature(blocks) != 0 && v.block != blocks[|blocks| - 1]
                then Some((PathSignature(blocks), v.block - blocks[|blocks| - 1])) else None
  {
    EntriesFollowBlocks(ways, h, v.way);
  }

  class Prefetcher {
    const st: array<StEntry>
    const pt: array2<Pattern>
    const pfBuffer: array<Prefetch>
    var numPf: nat
    var currConf: nat
    var currDelta: int

    predicate Shaped() {
      st.Length > 0 && pt.Length0 == PT_SET && pt.Length1 == PT_WAY && pfBuffer.Length == BUFFER_SIZE
    }

    function RowAt(i: nat): Row
      requires Shaped() && i < PT_SET
      reads pt
    {
      [pt[i, 0], pt[i, 1], pt[i, 2], pt[i, 3]]
    }

    function Patterns(): Table
      requires Shaped()
      reads pt
    {
      seq(PT_SET, i requires 0 <= i < PT_SET reads pt => RowAt(i))
    }

    ghost predicate Valid()
      reads st, pt
    {
      Shaped() && StOk(st[..]) && TableOk(Patterns())
    }

    constructor (ways: nat)
      requires ways > 0
      ensures Valid() && fresh(st) && fresh(pt) && fresh(pfBuffer) && st.Length == ways && numPf == 0
      ensures st[..] == FirstTable(ways)
    {
      st := new StEntry[ways](i => StEntry(false, 0, 0, 0, false, if i < 0 then 0 else i));
      pt := new Pattern[PT_SET, PT_WAY]((i, j) => Pattern(0, 0, 0));
      pfBuffer := new Prefetch[BUFFER_SIZE](_ => Prefetch(0, 0, 0, 0));
      numPf, currConf, currDelta := 0, 0, 0;
    }

    // ---- Pattern table ----

    /** Count a signature and the delta that followed it. */
    method PtUpdate(signature: Signature, delta: int)
      requires Shaped() && TableOk(Patterns()) && DeltaInPage(delta) && delta != 0
      modifies pt
      ensures TableOk(Patterns())
      ensures Patterns() == Taught(old(Patterns()), signature, delta)
    {
      var x := TableIndex(signature);
      ghost var row := RowAt(x);
      assert row == Patterns()[x];
      UpdateKeepsRow(row, delta);
      CountRow(x);
      UpdateCounted(x, delta);
      ghost var row' := UpdateRow(row, delta);
      ghost var expected := old(Patterns())[x := row'];
      forall i | 0 <= i < PT_SET ensures Patterns()[i] == expected[i] {
        assert i != x ==> old(Patterns())[i] == old(RowAt(i));
      }
      assert Patterns() == expected;
    }

    /** A hit is counted; otherwise the delta takes an unused way, or the weakest. */
    method UpdateCounted(x: nat, delta: int)
      requires Shaped() && x < PT_SET
      requires UpdateWay(RowAt(x), delta) != -1
      modifies pt
      ensures var row := old(RowAt(x));
        var k := UpdateWay(row, delta);
        RowAt(x) == if row[k].delta == delta then row[k := row[k].(cDelta := row[k].cDelta + 1)]
                    else row[k := row[k].(delta := delta, cDelta := 0)]
      ensures forall i :: 0 <= i < PT_SET && i != x ==> RowAt(i) == old(RowAt(i))
    {
      var way := SearchDelta(x, delta);
      if way != -1 {
        pt[x, way] := pt[x, way].(cDelta := pt[x, way].cDelta + 1);
      } else {
        way := SearchDelta(x, 0);
        if way == -1 {
          way := WeakestWay(x);
        }
        pt[x, way] := pt[x, way].(delta := delta, cDelta := 0);
      }
    }

    method SearchDelta(x: nat, delta: int) returns (way: int)
      requires Shaped() && x < PT_SET
      ensures way == FindDelta(RowAt(x), delta, PT_WAY)
    {
      ghost var row := RowAt(x);
      for i := 0 to PT_WAY
        invariant FindDelta(row, delta, i) == -1
      {
        if pt[x, i].delta == delta {
          assert FindDelta(row, delta, i + 1) == i;
          FindDeltaStays(row, delta, i + 1);
          return i;
        }
      }
      return -1;
    }

    method CountRow(x: nat)
      requires Shaped() && x < PT_SET
      modifies pt
      ensures RowAt(x) == CountSignature(old(RowAt(x)))
      ensures forall i :: 0 <= i < PT_SET && i != x ==> RowAt(i) == old(RowAt(i))
    {
      pt[x, 0] := pt[x, 0].(cSig := pt[x, 0].cSig + 1);
      if pt[x, 0].cSig == CSIG_MAX {
        pt[x, 0] := pt[x, 0].(cSig := CSIG_MAX / 2);
        ghost var before := RowAt(x);
        for i := 0 to PT_WAY
          invariant forall j :: 0 <= j < i ==> pt[x, j] == Halve(before[j])
          invariant forall j :: i <= j < PT_WAY ==> pt[x, j] == before[j]
          invariant forall k, j :: 0 <= k < PT_SET && k != x && 0 <= j < PT_WAY ==> pt[k, j] == old(pt[k, j])
        {
          pt[x, i] := pt[x, i].(cDelta := pt[x, i].cDelta / 2);
        }
      }
    }

    /** The victim of a full set; there is always one. */
    method WeakestWay(x: nat) returns (minIdx: int)
      requires Shaped() && x < PT_SET
      ensures minIdx == Weakest(RowAt(x), PT_WAY)
    {
      ghost var row := RowAt(x);
      minIdx := -1;
      var minVal := CDELTA_MAX;
      for i := 0 to PT_WAY
        invariant minIdx == Weakest(row, i)
        invariant minVal == if minIdx == -1 then CDELTA_MAX else row[minIdx].cDelta
      {
        if pt[x, i].cDelta < minVal {
          minIdx, minVal := i, pt[x, i].cDelta;
        }
      }
    }

    // ---- Signature table ----

    /** The way tracking a page, or -1. */
    method StCheck(tag: nat) returns (way: int)
      ensures -1 <= way < st.Length
      ensures way == -1 ==> forall i :: 0 <= i < st.Length ==> !Tracks(st[i], tag)
      ensures way != -1 ==> Tracks(st[way], tag) && forall i :: 0 <= i < way ==> !Tracks(st[i], tag)
    {
      for i := 0 to st.Length
        invariant forall j :: 0 <= j < i ==> !Tracks(st[j], tag)
      {
        if st[i].valid && st[i].tag == tag { return i; }
      }
      return -1;
    }

    /** The way an access goes to; the search for a victim always finds one. */
    method FindWay(tag: nat) returns (way: nat)
      requires Valid()
      ensures IsTarget(st[..], tag, way)
    {
      var found := StCheck(tag);
      if found != -1 { return found; }
      for i := 0 to st.Length
        invariant forall j :: 0 <= j < i ==> st[j].valid
      {
        if !st[i].valid { return i; }
      }
      ghost var victim := RankIsHeld(Ranks(st[..]), st.Length - 1);
      way := 0;
      while st[way].lru != st.Length - 1
        invariant way <= victim
        decreases victim - way
      {
        way := way + 1;
      }
    }

    /** An access to a block of a page: train, update the signature, and make its entry most recent. */
    method StUpdate(tag: nat, block: int) returns (way: nat)
      requires Valid() && 0 <= block <= 63
      modifies st, pt
      ensures Valid()
      ensures way < st.Length && IsTarget(old(st[..]), tag, way)
      ensures st[..] == AfterAccess(old(st[..]), tag, block, way)
      ensures st[way] == Accessed(old(st[way]), 0, tag, block)
      ensures forall v :: 0 <= v < st.Length && v != way ==>
        st[v] == old(st[v]).(lru := Promote(Ranks(old(st[..])), way)[v])
      ensures var e, delta := old(st[way]), block - old(st[way]).lastBlock;
        Patterns() == if Tracks(e, tag) && e.signature != 0 && delta != 0
                      then Taught(old(Patterns()), e.signature, delta) else old(Patterns())
    {
      way := FindWay(tag);
      ghost var e := st[way];
      AccessKeepsTable(st[..], tag, block, way);
      AccessCases(e, tag, block);
      hide Access, Accessed, Taught, UpdateRow, UpdateWay, TableOk;
      if st[way].valid && st[way].tag == tag {
        Train(way, block);
      } else {
        st[way] := st[way].(valid := true, tag := tag, signature := 0, firstHit := false, lastBlock := block);
      }
      assert Ranks(st[..]) == Ranks(old(st[..]));
      assert st[..] == old(st[..])[way := st[way]];
      Touch(way);
    }

    /** A hit: the first one sets the signature, later ones teach the delta and extend the signature. */
    method Train(way: nat, block: int)
      requires Valid() && way < st.Length && st[way].valid && 0 <= block <= 63
      modifies st, pt
      ensures TableOk(Patterns())
      ensures st[way] == Accessed(old(st[way]), old(st[way]).lru, old(st[way]).tag, block)
      ensures forall v :: 0 <= v < st.Length && v != way ==> st[v] == old(st[v])
      ensures var e, delta := old(st[way]), block - old(st[way]).lastBlock;
        Patterns() == if e.signature != 0 && delta != 0
                      then Taught(old(Patterns()), e.signature, delta) else old(Patterns())
    {
      hide Taught, UpdateRow, UpdateWay, TableOk, DeltaCode;
      var delta, signature := block - st[way].lastBlock, st[way].signature;
      if signature == 0 {
        st[way] := st[way].(signature := DeltaCode(delta), firstHit := true);
      } else {
        st[way] := st[way].(firstHit := false);
        if delta == 0 {
          return;
        }
        PtUpdate(signature, delta);
        st[way] := st[way].(signature := GetNewSignature(signature, delta));
      }
      st[way] := st[way].(lastBlock := block);
    }

    /** Make a way the most recent one. */
    method Touch(way: nat)
      requires way < st.Length
      modifies st
      ensures st[..] == Reranked(old(st[..]), Promote(Ranks(old(st[..])), way))
    {
      var position := st[way].lru;
      for i := 0 to st.Length
        invariant forall j :: 0 <= j < st.Length ==>
          st[j] == if j < i && old(st[j]).lru < position then old(st[j]).(lru := old(st[j]).lru + 1) else old(st[j])
      {
        if st[i].lru < position {
          st[i] := st[i].(lru := st[i].lru + 1);
        }
      }
      st[way] := st[way].(lru := 0);
    }

    // ---- Prefetch candidates ----

    /** The buffered prefetches, in order. */
    function Buffered(): seq<Prefetch>
      requires numPf <= pfBuffer.Length
      reads this, pfBuffer
    {
      pfBuffer[..numPf]
    }

    method Push(p: Prefetch)
      requires numPf < pfBuffer.Length
      modifies this`numPf, pfBuffer
      ensures numPf == old(numPf) + 1 && Buffered() == old(Buffered()) + [p]
    {
      pfBuffer[numPf] := p;
      numPf := numPf + 1;
    }

    /** Collect the confident in-page candidates of a signature and set the path's start. */
    method Collect(signature: Signature, block: int)
      requires Shaped() && numPf == 0
      modifies this, pfBuffer
      ensures numPf <= PT_WAY
      ensures var row := RowAt(TableIndex(signature));
        && Buffered() == FirstCandidates(row, signature, block)
        && Path(signature, currConf, currDelta, 0) == Start(row, signature)
    {
      var x := TableIndex(signature);
      ghost var row := RowAt(x);
      currConf, currDelta := 0, 0;
      if pt[x, 0].cSig > 0 {
        var pfMax, pfIdx, confMax := 0, -1, 100;
        for i := 0 to PT_WAY
          invariant numPf <= i && Buffered() == Candidates(row, signature, block, i)
          invariant currConf == 0 && currDelta == 0
          invariant pfIdx == Strongest(row, Confident(row), i)
          invariant pfMax == if pfIdx == -1 then 0 else row[pfIdx].cDelta
          invariant pfIdx != -1 ==> confMax == Confidence(row, pfIdx)
        {
          var conf := 100 * pt[x, i].cDelta / pt[x, 0].cSig;
          if conf >= PF_THRESHOLD {
            if SamePage(block, pt[x, i].delta) {
              Push(Prefetch(pt[x, i].delta, signature, conf, 1));
            }
            if pfMax < pt[x, i].cDelta {
              pfMax, pfIdx, confMax := pt[x, i].cDelta, i, conf;
            }
          }
        }
        if pfIdx >= 0 {
          currConf, currDelta := confMax, pt[x, pfIdx].delta;
        }
      }
    }

    /** The most used way whose extension of the path is confident enough, and its confidence. */
    method BestStep(x: nat, maxConf: nat) returns (bestIdx: int, confMax: nat)
      requires Shaped() && x < PT_SET && pt[x, 0].cSig > 0
      ensures bestIdx == Strongest(RowAt(x), PathConfident(RowAt(x), currConf, maxConf), PT_WAY)
      ensures bestIdx != -1 ==> confMax == PathConfidence(RowAt(x), bestIdx, currConf, maxConf)
    {
      ghost var row := RowAt(x);
      ghost var mask := PathConfident(row, currConf, maxConf);
      var bestMax := 0;
      bestIdx, confMax := -1, 0;
      for i := 0 to PT_WAY
        invariant bestIdx == Strongest(row, mask, i)
        invariant bestMax == if bestIdx == -1 then 0 else row[bestIdx].cDelta
        invariant bestIdx != -1 ==> confMax == PathConfidence(row, bestIdx, currConf, maxConf)
      {
        var conf := currConf * pt[x, i].cDelta / pt[x, 0].cSig * maxConf / 100;
        assert conf == PathConfidence(row, i, currConf, maxConf);
        if conf >= PF_THRESHOLD && bestMax < pt[x, i].cDelta {
          bestMax, bestIdx, confMax := pt[x, i].cDelta, i, conf;
        }
      }
    }

    /** One iteration of the path walk. */
    method WalkOnce(signature: Signature, last: int, block: int, maxConf: nat) returns (next: Signature, nextLast: int)
      requires Shaped() && numPf <= BUFFER_SIZE && DeltaInPage(currDelta - last)
      modifies this, pfBuffer
      ensures numPf <= BUFFER_SIZE
      ensures var (q, added) := Walk(Patterns(), Path(signature, old(currConf), old(currDelta), last),
                                     old(numPf), block, maxConf);
        && Path(next, currConf, currDelta, nextLast) == q
        && Buffered() == old(Buffered()) + Listed(added)
    {
      hide PathConfident, PathConfidence, Strongest, GetNewSignature;
      next := GetNewSignature(signature, currDelta - last);
      nextLast := currDelta;
      var x := TableIndex(next);
      assert RowAt(x) == Patterns()[x];
      var bestIdx, confMax := -1, 0;
      if pt[x, 0].cSig > 0 {
        bestIdx, confMax := BestStep(x, maxConf);
      }
      if bestIdx >= 0 && numPf < BUFFER_SIZE {
        var delta := currDelta + pt[x, bestIdx].delta;
        if SamePage(block, delta) && delta != 0 {
          Push(Prefetch(delta, next, confMax, numPf + 1));
        }
        currConf, currDelta := confMax, delta;
      } else {
        currConf, currDelta := 0, 0;
      }
    }

    /** Walk the most confident path while it is confident enough. */
    method WalkPath(signature: Signature, block: int, maxConf: nat)
      requires Valid() && numPf <= BUFFER_SIZE && maxConf <= 99 && currConf <= 100
      requires currConf >= PF_THRESHOLD ==> DeltaInPage(currDelta)
      modifies this, pfBuffer
      ensures numPf <= BUFFER_SIZE
      ensures Buffered() == old(Buffered())
        + Lookahead(Patterns(), Path(signature, old(currConf), old(currDelta), 0), old(numPf), block, maxConf)
    {
      hide Walk, TableOk, Lookahead, Falling;
      ghost var t := Patterns();
      ghost var all := Buffered() + Lookahead(t, Path(signature, currConf, currDelta, 0), numPf, block, maxConf);
      var path, last := signature, 0;
      while currConf >= PF_THRESHOLD
        invariant numPf <= BUFFER_SIZE && currConf <= 100
        invariant currConf >= PF_THRESHOLD ==> DeltaInPage(currDelta - last)
        invariant Buffered() + Lookahead(t, Path(path, currConf, currDelta, last), numPf, block, maxConf) == all
        decreases currConf
      {
        ghost var p, count, before := Path(path, currConf, currDelta, last), numPf, Buffered();
        LookaheadStep(t, p, count, block, maxConf);
        ghost var (q, added) := Walk(t, p, count, block, maxConf);
        path, last := WalkOnce(path, last, block, maxConf);
        assert numPf == |Buffered()| == count + |Listed(added)|;
        ghost var rest := Lookahead(t, q, numPf, block, maxConf);
        assert before + (Listed(added) + rest) == (before + Listed(added)) + rest;
      }
      LookaheadEnds(t, Path(path, currConf, currDelta, last), numPf, block, maxConf);
    }

    /** All candidates of a signature: its own, then those along the most confident path. */
    method Check(signature: Signature, block: int, maxConf: nat)
      requires Valid() && numPf == 0 && maxConf <= 99
      modifies this, pfBuffer
      ensures numPf <= BUFFER_SIZE && Buffered() == PfCheck(Patterns(), signature, block, maxConf)
    {
      assert RowAt(TableIndex(signature)) == Patterns()[TableIndex(signature)];
      StartOk(RowAt(TableIndex(signature)), signature);
      hide Lookahead, Start, FirstCandidates, TableIndex;
      Collect(signature, block);
      WalkPath(signature, block, maxConf);
    }

    // ---- The prefetcher as the L2 cache calls it ----

    /** The requests of the buffered prefetches: address and confidence. */
    method Request(address: nat) returns (requests: seq<(nat, nat)>)
      requires numPf <= pfBuffer.Length
      requires forall i :: 0 <= i < numPf ==> Good(pfBuffer[i], BlockOf(address))
      ensures |requests| == numPf
      ensures forall i :: 0 <= i < numPf ==>
        requests[i] == (PrefetchAddress(address, pfBuffer[i].delta), pfBuffer[i].conf)
      ensures forall i :: 0 <= i < numPf ==>
        PageOf(requests[i].0) == PageOf(address) && BlockOf(requests[i].0) != BlockOf(address)
    {
      hide PrefetchAddress, PageOf, BlockOf;
      requests := [];
      for i := 0 to numPf
        invariant |requests| == i
        invariant forall j :: 0 <= j < i ==>
          && requests[j] == (PrefetchAddress(address, pfBuffer[j].delta), pfBuffer[j].conf)
          && PageOf(requests[j].0) == PageOf(address) && BlockOf(requests[j].0) != BlockOf(address)
      {
        var p := pfBuffer[i];
        // no prefetch repeats the block that triggered it
        assert p.delta != 0;
        GoodPrefetchStaysInPage(address, p);
        requests := requests + [(PrefetchAddress(address, p.delta), p.conf)];
      }
    }

    /** Train on an access, check for prefetches, and list the addresses to request with their confidence. */
    method Operate(address: nat, maxConf: nat) returns (way: int, requests: seq<(nat, nat)>)
      requires Valid() && maxConf <= 99
      modifies this, st, pt, pfBuffer
      ensures Valid() && numPf <= BUFFER_SIZE
      ensures IsTarget(old(st[..]), PageOf(address) % TAG_RANGE, way)
      ensures Tracks(st[way], PageOf(address) % TAG_RANGE)
      ensures st[..] == AfterAccess(old(st[..]), PageOf(address) % TAG_RANGE, BlockOf(address), way)
      ensures var e, delta := old(st[..])[way], BlockOf(address) - old(st[..])[way].lastBlock;
        Patterns() == if Tracks(e, PageOf(address) % TAG_RANGE) && e.signature != 0 && delta != 0
                      then Taught(old(Patterns()), e.signature, delta) else old(Patterns())
      ensures Buffered() ==
        if st[way].signature != 0 && !st[way].firstHit
        then PfCheck(Patterns(), st[way].signature, BlockOf(address), maxConf) else []
      ensures |requests| == numPf
      ensures forall i :: 0 <= i < numPf ==>
        requests[i] == (PrefetchAddress(address, pfBuffer[i].delta), pfBuffer[i].conf)
      ensures forall i :: 0 <= i < numPf ==>
        PageOf(requests[i].0) == PageOf(address) && BlockOf(requests[i].0) != BlockOf(address)
    {
      hide AfterAccess, StOk, TableOk, PrefetchAddress, Access, Accessed, Taught, PfCheck, Promote, Good;
      var tag, block := PageOf(address) % TAG_RANGE, BlockOf(address);
      var updated := StUpdate(tag, block);
      AccessKeepsTable(old(st[..]), tag, block, updated);
      way := StCheck(tag);
      // the table was just updated: the page is tracked
      assert Tracks(st[..][updated], tag);
      assert way == updated;
      numPf, currConf, currDelta := 0, 0, 0;
      if st[way].signature != 0 && !st[way].firstHit {
        Check(st[way].signature, block, maxConf);
        PfCheckIsGood(Patterns(), st[way].signature, block, maxConf);
        assert forall i :: 0 <= i < numPf ==> pfBuffer[i] == Buffered()[i];
      }
      requests := Request(address);
    }
  }

  /** The walk from a confident stand is its next step followed by the walk from there. */
  lemma LookaheadStep(t: Table, p: Path, count: nat, block: int, maxConf: nat)
    requires TableOk(t) && maxConf <= 99 && count <= BUFFER_SIZE && PF_THRESHOLD <= p.conf <= 100
    requires DeltaInPage(p.delta - p.last)
    ensures var (q, added) := Walk(t, p, count, block, maxConf);
      && q.conf < p.conf && (q.conf >= PF_THRESHOLD ==> DeltaInPage(q.delta - q.last))
      && count + |Listed(added)| <= BUFFER_SIZE
      && Lookahead(t, p, count, block, maxConf)
         == Listed(added) + Lookahead(t, q, count + |Listed(added)|, block, maxConf)
  {
    hide Walk;
    WalkFalls(t, p, count, block, maxConf);
    WalkIsGood(t, p, count, block, maxConf);
  }

  /** A first match among the first n ways is the first match. */
  lemma FindDeltaStays(row: Row, delta: int, n: nat)
    requires n <= PT_WAY && FindDelta(row, delta, n) >= 0
    ensures FindDelta(row, delta, PT_WAY) == FindDelta(row, delta, n)
  {}

  lemma LookaheadEnds(t: Table, p: Path, count: nat, block: int, maxConf: nat)
    requires TableOk(t) && maxConf <= 99 && count <= BUFFER_SIZE && p.conf < PF_THRESHOLD
    ensures Lookahead(t, p, count, block, maxConf) == []
  {}
}
