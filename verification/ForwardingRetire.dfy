/** Retirement of the oldest instruction keeps the forwarding invariant. */
module ForwardingRetire {
  import opened Counting
  import opened CoreTypes
  import opened LsqModel
  import opened StoreOrder
  import opened StoreOrderSteps
  import opened Forwarding
  import opened ForwardingServe

  lemma {:induction false} YoungestWithoutFirst(w: seq<MemInstr>, address: nat, n: nat)
    requires 0 < n <= |w|
    ensures YoungestStore(w[1..], address, n - 1) ==
      match YoungestStore(w, address, n)
      case None => None
      case Some(a) => if a == 0 then None else Some(a - 1)
  {
    if n > 1 {
      YoungestWithoutFirst(w, address, n - 1);
    } else {
      assert YoungestStore(w, address, 0) == None;
    }
  }

  lemma RetiredProducer(m: Lsq, i: nat, address: nat)
    requires OrderInv(m) && CanRetire(m) && SlotsOfHeadExist(m) && Live(Retire(m), i)
    ensures Shape(Retire(m)) && Live(m, i) && i != m.head
    ensures ProducerIndex(Retire(m), i, address) ==
      if ProducerIndex(m, i, address) == Some(m.head) then None else ProducerIndex(m, i, address)
  {
    hide IdsOk, EntriesOk, StoresOk, SlotsOk, PendingOk, CompletedOk;
    RetireShape(m);
    RetireFields(m);
    hide Retire, Window;
    var n := Age(m.head, |m.rob|, i);
    YoungestWithoutFirst(Window(m), address, n);
    hide YoungestStore;
  }

  lemma RetiredOperand(m: Lsq, s: nat, k: nat)
    requires OrderInv(m) && CanRetire(m) && SlotsOfHeadExist(m) && Live(Retire(m), s) && k < NUM_DESTINATIONS
    ensures OperandDone(Retire(m), s, k) == OperandDone(m, s, k)
  {
    RetireKeepsStore(m, s, k);
    RetireFields(m);
    hide IdsOk, EntriesOk, SlotsOk, PendingOk, CompletedOk, Retire, Rank;
    RetireShape(m);
    assert StoreOk(m, s, k);
  }

  /** The retiring instruction has no load in the queue and no store left to execute. */
  lemma RetiringIsDone(m: Lsq)
    requires ForwardInv(m) && CanRetire(m)
    ensures Live(m, m.head)
    ensures forall l: nat :: l < |m.lq| && m.lq[l].Load? ==> m.lq[l].robIndex != m.head
    ensures forall k: nat :: k < NUM_DESTINATIONS && m.rob[m.head].instr.destinations[k] != 0 ==>
      OperandDone(m, m.head, k)
  {
    hide AddedLoadsOk, DependentsOk, InUse, SingleStores;
    OrderedShape(m);
    hide OrderInv, Window;
    var h := m.head;
    assert EntryOpsOk(m, h);
    CountExtremes(OpenLoads(m, h));
    CountExtremes(OpenStores(m, h));
    forall l: nat | l < |m.lq| && m.lq[l].Load? ensures m.lq[l].robIndex != h {
      assert LoadOk(m, l, -1, 0);
      assert OpenLoads(m, m.lq[l].robIndex)[m.lq[l].operand];
    }
    forall k: nat | k < NUM_DESTINATIONS && m.rob[h].instr.destinations[k] != 0 ensures OperandDone(m, h, k) {
      assert !OpenStores(m, h)[k];
    }
  }

  /** What retirement leaves as it is for an entry that stays. */
  lemma StayingEntry(m: Lsq, i: nat)
    requires OrderInv(m) && CanRetire(m) && SlotsOfHeadExist(m) && Live(Retire(m), i)
    ensures Live(m, i) && i != m.head && Retire(m).rob[i] == m.rob[i]
    ensures OperandDone(Retire(m), i, 0) == OperandDone(m, i, 0) && OperandDone(Retire(m), i, 1) == OperandDone(m, i, 1)
  {
    RetiredOperand(m, i, 0);
    RetiredOperand(m, i, 1);
    RetiredProducer(m, i, 0);
    RetireFields(m);
  }

  lemma RetireKeepsLq(m: Lsq)
    requires CanRetire(m) && SlotsOfHeadExist(m)
    ensures Retire(m).lq == m.lq && Retire(m).lqOccupancy == m.lqOccupancy && |Retire(m).rob| == |m.rob|
  {}

  /** Neither a waiting load nor its producer is the instruction that retires. */
  lemma WaitingLoadStays(m: Lsq, l: nat)
    requires ForwardInv(m) && CanRetire(m) && l < |m.lq| && m.lq[l].Load?
    ensures Shape(m) && LoadOk(m, l, -1, 0)
    ensures Live(m, m.lq[l].robIndex) && m.lq[l].robIndex != m.head
    ensures ProducerIndex(m, m.lq[l].robIndex, m.lq[l].address) != Some(m.head)
  {
    hide AddedLoadsOk, DependentsOk, OpsOk, InUse, SingleStores;
    RetiringIsDone(m);
    OrderedShape(m);
    hide OrderInv, Window, CanRetire, OperandDone;
    assert LoadOk(m, l, -1, 0);
    ProducerIsStore(m, m.lq[l].robIndex, m.lq[l].address);
    hide ProducerIndex;
  }

  /** A load stays as described when its entry and its producer stay. */
  lemma SameLoadOk(m: Lsq, m': Lsq, l: nat)
    requires Shape(m) && Shape(m') && |m'.rob| == |m.rob| && m'.lq == m.lq
    requires l < |m.lq| && m.lq[l].Load? && LoadOk(m, l, -1, 0)
    requires var i, address := m.lq[l].robIndex, m.lq[l].address;
      Live(m', i) && m'.rob[i] == m.rob[i] && ProducerIndex(m', i, address) == ProducerIndex(m, i, address)
    requires var p, address := ProducerIndex(m, m.lq[l].robIndex, m.lq[l].address), m.lq[l].address;
      && (p.Some? ==> m'.rob[p.value] == m.rob[p.value])
      && (p.Some? ==> StoreDone(m', p.value, address) == StoreDone(m, p.value, address))
    ensures LoadOk(m', l, -1, 0)
  {
    hide ProducerIndex, StoreDone;
  }

  lemma RetireKeepsLoad(m: Lsq, l: nat)
    requires ForwardInv(m) && CanRetire(m) && SlotsOfHeadExist(m) && l < |m.lq|
    ensures Shape(Retire(m)) && Retire(m).lq == m.lq && LoadOk(Retire(m), l, -1, 0)
  {
    RetireShape(m);
    RetireKeepsLq(m);
    if m.lq[l].Load? {
      WaitingLoadStays(m, l);
      hide ForwardInv, LoadOk, Retire, SlotsOfHeadExist;
      var i, address := m.lq[l].robIndex, m.lq[l].address;
      var p := ProducerIndex(m, i, address);
      StayingEntry(m, i) by { assert ServingInv(m, -1, 0); }
      RetiredProducer(m, i, address);
      ProducerIsStore(m, i, address);
      hide ProducerIndex, OperandDone;
      if p.Some? { StayingEntry(m, p.value); }
      SameLoadOk(m, Retire(m), l);
    }
  }

  lemma RetireKeepsAdded(m: Lsq, i: nat, j: nat)
    requires ForwardInv(m) && CanRetire(m) && SlotsOfHeadExist(m) && Live(Retire(m), i) && j < NUM_SOURCES
    ensures Shape(Retire(m)) && AddedOk(Retire(m), i, j, -1, 0)
  {
    hide LoadsOk, DependentsOk, OpsOk, InUse, SingleStores;
    RetireShape(m);
    RetireKeepsLq(m);
    hide Retire, SlotsOfHeadExist, CanRetire;
    var address := m.rob[i].instr.sources[j];
    StayingEntry(m, i);
    RetiredProducer(m, i, address);
    ProducerIsStore(m, i, address);
    var p := ProducerIndex(m, i, address);
    if p.Some? && p.value != m.head { StayingEntry(m, p.value); }
    hide OrderInv, ProducerIndex, Window, OperandDone;
    assert AddedOk(m, i, j, -1, 0);
  }

  lemma RetireKeepsDependent(m: Lsq, s: nat, d: nat)
    requires ForwardInv(m) && CanRetire(m) && SlotsOfHeadExist(m) && Live(Retire(m), s)
    ensures Shape(Retire(m)) && DependentOk(Retire(m), s, d)
  {
    hide LoadsOk, AddedLoadsOk, OpsOk, InUse, SingleStores;
    RetireShape(m);
    StayingEntry(m, s);
    assert DependentOk(m, s, d);
    if d in m.rob[s].dependents {
      assert Live(Retire(m), d);
      forall k | 0 <= k < NUM_DESTINATIONS && m.rob[s].instr.destinations[k] != 0
        ensures ProducerIndex(Retire(m), d, m.rob[s].instr.destinations[k]) == Some(s)
      {
        RetiredProducer(m, d, m.rob[s].instr.destinations[k]);
      }
    }
  }

  lemma RetireKeepsOps(m: Lsq, i: nat)
    requires ForwardInv(m) && CanRetire(m) && SlotsOfHeadExist(m) && Live(Retire(m), i)
    ensures |Retire(m).rob| == |m.rob| && EntryOpsOk(Retire(m), i)
  {
    hide LoadsOk, AddedLoadsOk, DependentsOk, InUse, SingleStores;
    RetireFields(m);
    StayingEntry(m, i);
    assert EntryOpsOk(m, i);
    hide OrderInv, Window, OperandDone;
    assert OpenLoads(Retire(m), i) == OpenLoads(m, i);
    assert OpenStores(Retire(m), i) == OpenStores(m, i);
  }

  lemma RetireKeepsForwarding(m: Lsq)
    requires ForwardInv(m) && CanRetire(m)
    ensures SlotsOfHeadExist(m) && ForwardInv(Retire(m))
  {
    hide LoadOk, AddedOk, DependentOk, EntryOpsOk, InUse;
    RetireKeepsInv(m);
    RetireFields(m);
    RetireShape(m);
    var m' := Retire(m);
    RetireKeepsLq(m);
    assert SingleStores(m') by {
      hide OrderInv, Retire;
      assert forall a :: 0 <= a < |Window(m')| ==> Window(m')[a] == Window(m)[a + 1];
    }
    hide OrderInv, Window, Retire, SingleStores;
    forall l: nat | l < |m'.lq| ensures LoadOk(m', l, -1, 0) {
      RetireKeepsLoad(m, l);
    }
    forall i: nat, h: nat | Live(m', i) && h < NUM_SOURCES ensures AddedOk(m', i, h, -1, 0) {
      RetireKeepsAdded(m, i, h);
    }
    forall s: nat, d: nat | Live(m', s) ensures DependentOk(m', s, d) {
      RetireKeepsDependent(m, s, d);
    }
    forall i: nat | Live(m', i) ensures EntryOpsOk(m', i) {
      RetireKeepsOps(m, i);
    }
  }
}
