/**
 Store-to-load forwarding: every load in the queue waits for exactly the youngest older store to its
 address, that store has not executed, and its execution serves the load exactly once.
 Instructions have at most one store here; see TwoStores for what happens otherwise.
 */
module Forwarding {
  import opened Counting
  import opened CoreTypes
  import opened LsqModel
  import opened StoreOrder
  import opened StoreOrderSteps

  predicate AtMostOneStore(x: MemInstr) { x.destinations[0] == 0 || x.destinations[1] == 0 }

  ghost predicate SingleStores(m: Lsq)
    requires Shape(m)
  {
    forall a :: 0 <= a < |Window(m)| ==> AtMostOneStore(Window(m)[a])
  }

  /** Destination k of entry s is in the store queue and has executed. */
  predicate OperandDone(m: Lsq, s: nat, k: nat)
    requires s < |m.rob| && k < NUM_DESTINATIONS
  {
    match m.rob[s].sqIndex[k]
    case None => false
    case Some(q) => q < |m.sq| && m.sq[q].Store? && m.sq[q].executed
  }

  /** Entry s has executed its store to this address. */
  predicate StoreDone(m: Lsq, s: nat, address: nat)
    requires s < |m.rob|
  {
    || (m.rob[s].instr.destinations[0] == address && OperandDone(m, s, 0))
    || (m.rob[s].instr.destinations[1] == address && OperandDone(m, s, 1))
  }

  /** Slot l holds the load of operand j of entry i. */
  predicate Holds(m: Lsq, l: nat, i: nat, j: nat) {
    l < |m.lq| && m.lq[l].Load? && m.lq[l].robIndex == i && m.lq[l].operand == j
  }

  /**
   A load in slot l describes its operand, and names the youngest older store to its address as producer.
   The producer has not executed; only loads of store s0 from operand number n on may be late.
   */
  ghost predicate LoadOk(m: Lsq, l: nat, s0: int, n: int)
    requires Shape(m) && l < |m.lq|
  {
    match m.lq[l]
    case FreeLoad => true
    case Load(i, j, address, id, producer) =>
      && Live(m, i) && j < NUM_SOURCES && address != 0
      && DescribesOperand(m, l, i, j, address, id)
      && match ProducerIndex(m, i, address)
         case None => producer == None
         case Some(s) =>
           && producer == Some(m.rob[s].instr.id) && i in m.rob[s].dependents
           && (StoreDone(m, s, address) ==> s == s0 && i * NUM_SOURCES + j >= n)
  }

  predicate DescribesOperand(m: Lsq, l: nat, i: nat, j: nat, address: nat, id: nat)
    requires i < |m.rob| && j < NUM_SOURCES
  {
    && m.rob[i].sourceAdded[j] && m.rob[i].lqIndex[j] == Some(l)
    && address == m.rob[i].instr.sources[j] && id == m.rob[i].instr.id
  }

  ghost predicate LoadsOk(m: Lsq, s0: int, n: int)
    requires Shape(m)
  {
    forall l: nat :: l < |m.lq| ==> LoadOk(m, l, s0, n)
  }

  /** Nothing holds operand j of entry i back: the youngest older store, if any, has executed and served it. */
  predicate Clear(m: Lsq, i: nat, j: nat, s0: int, n: int)
    requires Shape(m) && Live(m, i) && j < NUM_SOURCES
  {
    match ProducerIndex(m, i, m.rob[i].instr.sources[j])
    case None => true
    case Some(s) => StoreDone(m, s, m.rob[i].instr.sources[j]) && !(s == s0 && i * NUM_SOURCES + j >= n)
  }

  /** A load that was added is in the queue, or nothing holds it back any more. */
  predicate AddedOk(m: Lsq, i: nat, j: nat, s0: int, n: int)
    requires Shape(m) && Live(m, i) && j < NUM_SOURCES
  {
    m.rob[i].sourceAdded[j] ==>
      match m.rob[i].lqIndex[j]
      case None => false
      case Some(l) => m.rob[i].instr.sources[j] != 0 && l < |m.lq| && (Holds(m, l, i, j) || Clear(m, i, j, s0, n))
  }

  ghost predicate AddedLoadsOk(m: Lsq, s0: int, n: int)
    requires Shape(m)
  {
    forall i: nat, j: nat :: Live(m, i) && j < NUM_SOURCES ==> AddedOk(m, i, j, s0, n)
  }

  /** The dependents of a store are loads for which it is the youngest older store to its address. */
  predicate DependentOk(m: Lsq, s: nat, d: nat)
    requires Shape(m) && Live(m, s)
  {
    d in m.rob[s].dependents ==>
      && Live(m, d) && Age(m.head, |m.rob|, s) < Age(m.head, |m.rob|, d)
      && forall k :: 0 <= k < NUM_DESTINATIONS && m.rob[s].instr.destinations[k] != 0 ==>
           ProducerIndex(m, d, m.rob[s].instr.destinations[k]) == Some(s)
  }

  ghost predicate DependentsOk(m: Lsq)
    requires Shape(m)
  {
    forall s: nat, d: nat :: Live(m, s) ==> DependentOk(m, s, d)
  }

  /** The loads of entry i that are not served yet. */
  function OpenLoads(m: Lsq, i: nat): Flags4
    requires i < |m.rob|
  {
    seq(NUM_SOURCES, j requires 0 <= j < NUM_SOURCES =>
      m.rob[i].instr.sources[j] != 0 && (m.rob[i].sourceAdded[j] ==>
        m.rob[i].lqIndex[j].Some? && Holds(m, m.rob[i].lqIndex[j].value, i, j)))
  }

  /** The stores of entry i that have not executed. */
  function OpenStores(m: Lsq, i: nat): Flags2
    requires i < |m.rob|
  {
    seq(NUM_DESTINATIONS, k requires 0 <= k < NUM_DESTINATIONS =>
      m.rob[i].instr.destinations[k] != 0 && !OperandDone(m, i, k))
  }

  /** num_mem_ops is exact, and a complete entry has no operation left. */
  ghost predicate OpsOk(m: Lsq) {
    forall i: nat :: Live(m, i) ==> EntryOpsOk(m, i)
  }

  predicate EntryOpsOk(m: Lsq, i: nat)
    requires i < |m.rob|
  {
    && m.rob[i].numOps == Count(OpenLoads(m, i)) + Count(OpenStores(m, i))
    && (m.rob[i].completed ==> m.rob[i].numOps == 0)
  }

  function InUse(lq: seq<LoadSlot>): (u: seq<bool>)
    ensures |u| == |lq|
  {
    seq(|lq|, l requires 0 <= l < |lq| => lq[l].Load?)
  }

  /** The invariant in the middle of executing store s0, when operand number n is next to be served. */
  ghost predicate ServingInv(m: Lsq, s0: int, n: int) {
    && OrderInv(m) && SingleStores(m)
    && LoadsOk(m, s0, n) && AddedLoadsOk(m, s0, n) && DependentsOk(m) && OpsOk(m)
    && m.lqOccupancy == Count(InUse(m.lq))
  }

  ghost predicate ForwardInv(m: Lsq) { ServingInv(m, -1, 0) }

  // ---- What the producer search depends on ----

  lemma ProducerStays(m: Lsq, m': Lsq, i: nat, address: nat)
    requires Shape(m) && Shape(m') && |m'.rob| == |m.rob| && m'.head == m.head && Window(m') == Window(m)
    requires Live(m, i) && Live(m', i)
    ensures ProducerIndex(m', i, address) == ProducerIndex(m, i, address)
  {}

  /** The producer found is a live store to the address, older than the load, and unique as such. */
  lemma ProducerIsStore(m: Lsq, i: nat, address: nat)
    requires Shape(m) && Live(m, i)
    ensures match ProducerIndex(m, i, address)
      case None => true
      case Some(s) => Live(m, s) && WritesTo(m.rob[s].instr, address) && s != i
  {
    var p := YoungestStore(Window(m), address, Age(m.head, |m.rob|, i));
    if p.Some? {
      AgesInvert(m.head, |m.rob|, p.value);
      WindowAt(m, At(m.head, |m.rob|, p.value));
    }
  }

  lemma IsSingle(m: Lsq, i: nat)
    requires Shape(m) && SingleStores(m) && Live(m, i)
    ensures AtMostOneStore(m.rob[i].instr)
  {
    WindowAt(m, i);
  }
}
