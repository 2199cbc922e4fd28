/**
 The PC-localised successor prefetcher: its map agrees with the load history, its candidates are the
 chain of successors, and it counts the changes of mind.
 */
module Sisb {
  import opened Counting

  /** A load by an instruction to a block; block 0 ends a chain. */
  datatype Access = Access(pc: nat, block: nat)

  const BLOCK_SIZE: nat := 64

  // ---- What the history says ----

  /** The blocks that one instruction loads, in order. */
  function Stream(history: seq<Access>, pc: nat): seq<nat> {
    if history == [] then []
    else
      var last := |history| - 1;
      Stream(history[..last], pc) + (if history[last].pc == pc then [history[last].block] else [])
  }

  /** The block that followed the latest followed occurrence of a in the stream. */
  function Successor(s: seq<nat>, a: nat): Option<nat> {
    if |s| < 2 then None
    else if s[|s| - 2] == a then Some(s[|s| - 1])
    else Successor(s[..|s| - 1], a)
  }

  /** Position i is the latest occurrence of a that something follows. */
  ghost predicate IsLatest(s: seq<nat>, a: nat, i: nat) {
    i + 1 < |s| && s[i] == a && forall k :: i < k < |s| - 1 ==> s[k] != a
  }

  /** There is a successor exactly when a is followed somewhere, and it follows the latest such place. */
  lemma {:induction false} SuccessorIsLatest(s: seq<nat>, a: nat)
    ensures Successor(s, a) == None <==> forall i :: 0 <= i < |s| - 1 ==> s[i] != a
    ensures forall i: nat :: IsLatest(s, a, i) ==> Successor(s, a) == Some(s[i + 1])
  {
    if |s| >= 2 {
      SuccessorIsLatest(s[..|s| - 1], a);
      forall i: nat | IsLatest(s, a, i) ensures Successor(s, a) == Some(s[i + 1]) {
        if i < |s| - 2 {
          assert IsLatest(s[..|s| - 1], a, i);
        }
      }
      assert s[|s| - 2] == a ==> IsLatest(s, a, |s| - 2);
    }
  }

  /** How often an instruction's block was followed by another block than the last time. */
  function Changes(s: seq<nat>): nat {
    if |s| < 2 then 0
    else Changes(s[..|s| - 1]) + (if IsChange(Successor(s[..|s| - 1], s[|s| - 2]), s[|s| - 1]) then 1 else 0)
  }

  /** A known successor is replaced by another block. */
  predicate IsChange(known: Option<nat>, block: nat) { known.Some? && known.value != block }

  /** The changes over all instructions, each counted when it happens. */
  function AllChanges(history: seq<Access>): nat {
    if history == [] then 0
    else
      var last := |history| - 1;
      var pc := history[last].pc;
      AllChanges(history[..last]) + Changes(Stream(history, pc)) - Changes(Stream(history[..last], pc))
  }

  // ---- Chains ----

  type Links = map<(nat, nat), nat>

  function Next(links: Links, pc: nat, a: nat): nat { if (pc, a) in links then links[(pc, a)] else 0 }

  /** The successor chain from a, cut at its length or at the first missing link. */
  function Chain(links: Links, pc: nat, a: nat, degree: nat): (c: seq<nat>)
    ensures |c| <= degree
    ensures forall i :: 0 <= i < |c| ==> c[i] != 0 && c[i] == Next(links, pc, if i == 0 then a else c[i - 1])
    ensures |c| < degree ==> Next(links, pc, if c == [] then a else c[|c| - 1]) == 0
    decreases degree
  {
    var b := Next(links, pc, a);
    if degree == 0 || b == 0 then [] else [b] + Chain(links, pc, b, degree - 1)
  }

  function Addresses(blocks: seq<nat>): (r: seq<nat>) {
    seq(|blocks|, i requires 0 <= i < |blocks| => blocks[i] * BLOCK_SIZE)
  }

  lemma ChainStep(links: Links, pc: nat, a: nat, degree: nat, c: seq<nat>)
    requires degree > 0 && Next(links, pc, a) != 0
    ensures var b := Next(links, pc, a);
      c + Addresses(Chain(links, pc, a, degree))
        == (c + [b * BLOCK_SIZE]) + Addresses(Chain(links, pc, b, degree - 1))
  {
    var b := Next(links, pc, a);
    var rest := Chain(links, pc, b, degree - 1);
    assert Chain(links, pc, a, degree) == [b] + rest;
    assert Addresses([b] + rest) == [b * BLOCK_SIZE] + Addresses(rest);
  }

  lemma ChainEnds(links: Links, pc: nat, a: nat, degree: nat)
    requires degree == 0 || Next(links, pc, a) == 0
    ensures Addresses(Chain(links, pc, a, degree)) == []
  {}

  // ---- The prefetcher ----

  class Prefetcher {
    var lastBlock: map<nat, nat>
    var links: Links
    var divergence: nat
    ghost var history: seq<Access>

    /** The maps and the counter say what the history says. */
    ghost predicate Valid()
      reads this
    {
      Agrees(history, lastBlock, links) && divergence == AllChanges(history)
    }

    constructor ()
      ensures Valid() && history == []
    {
      lastBlock, links, divergence, history := map[], map[], 0, [];
    }

    /** A demand load trains the maps; its candidates follow the chain from its block. */
    method Operate(addr: nat, pc: nat, isLoad: bool, degree: nat) returns (candidates: seq<nat>)
      requires Valid()
      modifies this
      ensures Valid()
      ensures history == if isLoad then old(history) + [Access(pc, addr / BLOCK_SIZE)] else old(history)
      ensures candidates == if isLoad then Addresses(Chain(links, pc, addr / BLOCK_SIZE, degree)) else []
    {
      candidates := [];
      if !isLoad { return; }
      var block := addr / BLOCK_SIZE;
      Train(pc, block);
      candidates := Predict(pc, block, degree);
    }

    method Train(pc: nat, block: nat)
      requires Valid()
      modifies this
      ensures Valid() && history == old(history) + [Access(pc, block)]
    {
      ghost var x := Access(pc, block);
      TrainingAgrees(history, lastBlock, links, x);
      hide Agrees, AllChanges;
      if pc in lastBlock {
        var last := lastBlock[pc];
        if (pc, last) in links && links[(pc, last)] != block {
          divergence := divergence + 1;
        }
        links := links[(pc, last) := block];
      }
      lastBlock := lastBlock[pc := block];
      history := history + [x];
    }

    method Predict(pc: nat, block: nat, degree: nat) returns (candidates: seq<nat>)
      ensures candidates == Addresses(Chain(links, pc, block, degree))
    {
      hide Chain, Addresses, Next;
      candidates := [];
      var pred: nat, count: nat := Next(links, pc, block), 0;
      ghost var from: nat, all := block, Addresses(Chain(links, pc, block, degree));
      while count < degree && pred != 0
        invariant count <= degree && pred == Next(links, pc, from)
        invariant candidates + Addresses(Chain(links, pc, from, degree - count)) == all
      {
        ChainStep(links, pc, from, degree - count, candidates);
        candidates := candidates + [pred * BLOCK_SIZE];
        from := pred;
        count := count + 1;
        pred := Next(links, pc, pred);
      }
      ChainEnds(links, pc, from, degree - count);
    }
  }

  // ---- Agreement of the maps with the history ----

  ghost predicate Agrees(history: seq<Access>, lastBlock: map<nat, nat>, links: Links) {
    (forall pc: nat :: LastOk(history, lastBlock, pc)) && (forall pc: nat, a: nat :: LinkOk(history, links, pc, a))
  }

  predicate LastOk(history: seq<Access>, lastBlock: map<nat, nat>, pc: nat) {
    var s := Stream(history, pc);
    if s == [] then pc !in lastBlock else pc in lastBlock && lastBlock[pc] == s[|s| - 1]
  }

  predicate LinkOk(history: seq<Access>, links: Links, pc: nat, a: nat) {
    match Successor(Stream(history, pc), a)
    case None => (pc, a) !in links
    case Some(b) => (pc, a) in links && links[(pc, a)] == b
  }

  /** The links after an access: the instruction's previous block, if there is one, is followed by this one. */
  function Trained(lastBlock: map<nat, nat>, links: Links, x: Access): Links {
    if x.pc in lastBlock then links[(x.pc, lastBlock[x.pc]) := x.block] else links
  }

  lemma TrainingAgrees(history: seq<Access>, lastBlock: map<nat, nat>, links: Links, x: Access)
    requires Agrees(history, lastBlock, links)
    ensures Agrees(history + [x], lastBlock[x.pc := x.block], Trained(lastBlock, links, x))
    ensures AllChanges(history + [x]) == AllChanges(history) +
      if x.pc in lastBlock && (x.pc, lastBlock[x.pc]) in links && links[(x.pc, lastBlock[x.pc])] != x.block
      then 1 else 0
  {
    var history', lastBlock', links' := history + [x], lastBlock[x.pc := x.block], Trained(lastBlock, links, x);
    assert LastOk(history, lastBlock, x.pc);
    StreamGrows(history, x);
    if x.pc in lastBlock { assert LinkOk(history, links, x.pc, lastBlock[x.pc]); }
    hide AllChanges, Changes;
    hide LastOk, LinkOk, Trained;
    forall p: nat ensures LastOk(history', lastBlock', p) {
      LastTrained(history, lastBlock, x, p);
    }
    forall p: nat, a: nat ensures LinkOk(history', links', p, a) {
      LinkTrained(history, lastBlock, links, x, p, a);
    }
  }

  lemma LastTrained(history: seq<Access>, lastBlock: map<nat, nat>, x: Access, p: nat)
    requires LastOk(history, lastBlock, p)
    ensures LastOk(history + [x], lastBlock[x.pc := x.block], p)
  {
    StreamOf(history, x, p);
    hide Stream;
  }

  lemma LinkTrained(history: seq<Access>, lastBlock: map<nat, nat>, links: Links, x: Access, p: nat, a: nat)
    requires LastOk(history, lastBlock, p) && LinkOk(history, links, p, a)
    ensures LinkOk(history + [x], Trained(lastBlock, links, x), p, a)
  {
    StreamOf(history, x, p);
    hide Stream, Successor;
  }

  predicate EndsIn(s: seq<nat>, a: nat) { s != [] && s[|s| - 1] == a }

  lemma StreamOf(history: seq<Access>, x: Access, pc: nat)
    ensures var s, s' := Stream(history, pc), Stream(history + [x], pc);
      s' == if x.pc == pc then s + [x.block] else s
    ensures forall a: nat :: Successor(Stream(history + [x], pc), a) ==
              if x.pc == pc && EndsIn(Stream(history, pc), a) then Some(x.block)
              else Successor(Stream(history, pc), a)
  {
    assert (history + [x])[..|history|] == history;
    var s := Stream(history, pc);
    assert (s + [x.block])[..|s|] == s;
  }

  /** The count grows by one exactly when the latest link of the instruction's previous block changes. */
  lemma StreamGrows(history: seq<Access>, x: Access)
    ensures var s := Stream(history, x.pc);
      AllChanges(history + [x]) == AllChanges(history) +
        if s != [] && IsChange(Successor(s, s[|s| - 1]), x.block) then 1 else 0
  {
    assert (history + [x])[..|history|] == history;
    StreamOf(history, x, x.pc);
    var s := Stream(history, x.pc);
    assert (s + [x.block])[..|s|] == s;
  }
}
