/** Every step of the load and store queues keeps the forwarding invariant. */
module ForwardingSteps {
  import opened Counting
  import opened CoreTypes
  import opened LsqModel
  import opened StoreOrder
  import opened StoreOrderSteps
  import opened Forwarding

  // ---- Steps that leave the load queue alone ----

  /** Entry i keeps its loads, its dependents and the state of its stores. */
  predicate QuietEntry(m: Lsq, m': Lsq, i: nat)
    requires i < |m.rob| == |m'.rob|
  {
    var e, e' := m.rob[i], m'.rob[i];
    && e'.instr == e.instr && e'.sourceAdded == e.sourceAdded && e'.lqIndex == e.lqIndex
    && e'.dependents == e.dependents && e'.numOps == e.numOps
    && (e'.completed ==> e.completed || e.numOps == 0)
    && OperandDone(m', i, 0) == OperandDone(m, i, 0) && OperandDone(m', i, 1) == OperandDone(m, i, 1)
  }

  /** Only new entries differ in what matters to loads. */
  ghost predicate Quiet(m: Lsq, m': Lsq)
    requires Shape(m) && Shape(m')
  {
    && |m'.rob| == |m.rob| && m'.head == m.head && m'.lq == m.lq && m'.lqOccupancy == m.lqOccupancy
    && Window(m) <= Window(m')
    && (forall i: nat :: Live(m, i) ==> Live(m', i) && QuietEntry(m, m', i))
    && (forall i: nat :: Live(m', i) && !Live(m, i) ==> m'.rob[i] == Fresh(m'.rob[i].instr))
  }

  lemma {:induction false} YoungestStoreOfPrefix(w: seq<MemInstr>, w': seq<MemInstr>, address: nat, n: nat)
    requires w <= w' && n <= |w|
    ensures YoungestStore(w', address, n) == YoungestStore(w, address, n)
  {
    if n > 0 {
      YoungestStoreOfPrefix(w, w', address, n - 1);
    }
  }

  lemma QuietProducer(m: Lsq, m': Lsq, i: nat, address: nat)
    requires Shape(m) && Shape(m') && Quiet(m, m') && Live(m, i)
    ensures ProducerIndex(m', i, address) == ProducerIndex(m, i, address)
  {
    YoungestStoreOfPrefix(Window(m), Window(m'), address, Age(m.head, |m.rob|, i));
  }

  lemma QuietLoad(m: Lsq, m': Lsq, l: nat)
    requires Shape(m) && Shape(m') && Quiet(m, m') && l < |m.lq| && LoadOk(m, l, -1, 0)
    ensures LoadOk(m', l, -1, 0)
  {
    match m.lq[l]
    case FreeLoad =>
    case Load(i, j, address, id, producer) =>
      assert QuietEntry(m, m', i);
      QuietProducer(m, m', i, address);
      ProducerIsStore(m, i, address);
      match ProducerIndex(m, i, address)
      case None =>
      case Some(s) => assert QuietEntry(m, m', s);
  }

  lemma QuietAdded(m: Lsq, m': Lsq, i: nat, j: nat)
    requires Shape(m) && Shape(m') && Quiet(m, m') && Live(m, i) && j < NUM_SOURCES && AddedOk(m, i, j, -1, 0)
    ensures AddedOk(m', i, j, -1, 0)
  {
    assert QuietEntry(m, m', i);
    var address := m.rob[i].instr.sources[j];
    QuietProducer(m, m', i, address);
    ProducerIsStore(m, i, address);
    match ProducerIndex(m, i, address)
    case None =>
    case Some(s) => assert QuietEntry(m, m', s);
  }

  lemma QuietDependent(m: Lsq, m': Lsq, s: nat, d: nat)
    requires Shape(m) && Shape(m') && Quiet(m, m') && Live(m, s) && DependentOk(m, s, d)
    ensures DependentOk(m', s, d)
  {
    assert QuietEntry(m, m', s);
    if d in m.rob[s].dependents {
      forall k | 0 <= k < NUM_DESTINATIONS && m.rob[s].instr.destinations[k] != 0
        ensures ProducerIndex(m', d, m.rob[s].instr.destinations[k]) == Some(s)
      {
        QuietProducer(m, m', d, m.rob[s].instr.destinations[k]);
      }
    }
  }

  lemma QuietOps(m: Lsq, m': Lsq, i: nat)
    requires Shape(m) && Shape(m') && Quiet(m, m') && Live(m, i) && EntryOpsOk(m, i)
    ensures EntryOpsOk(m', i)
  {
    assert QuietEntry(m, m', i);
    assert OpenLoads(m', i) == OpenLoads(m, i);
    assert OpenStores(m', i) == OpenStores(m, i);
  }

  lemma FreshOps(m: Lsq, i: nat)
    requires i < |m.rob| && m.rob[i] == Fresh(m.rob[i].instr)
    ensures EntryOpsOk(m, i)
  {
    assert OpenLoads(m, i) == IsLoad(m.rob[i].instr);
    assert OpenStores(m, i) == IsStore(m.rob[i].instr);
  }

  lemma QuietKeepsInv(m: Lsq, m': Lsq)
    requires ForwardInv(m) && OrderInv(m') && Quiet(m, m') && SingleStores(m')
    ensures ForwardInv(m')
  {
    hide OrderInv, LoadOk, AddedOk, DependentOk, EntryOpsOk, QuietEntry, SingleStores, Window;
    assert Shape(m) && Shape(m') by { OrderedShape(m); OrderedShape(m'); }
    forall l: nat | l < |m'.lq| ensures LoadOk(m', l, -1, 0) {
      QuietLoad(m, m', l);
    }
    forall i: nat, j: nat | Live(m', i) && j < NUM_SOURCES ensures AddedOk(m', i, j, -1, 0) {
      if Live(m, i) {
        QuietAdded(m, m', i, j);
      } else {
        FreshAdded(m', i, j);
      }
    }
    forall s: nat, d: nat | Live(m', s) ensures DependentOk(m', s, d) {
      if Live(m, s) {
        QuietDependent(m, m', s, d);
      } else {
        FreshDependent(m', s, d);
      }
    }
    forall i: nat | Live(m', i) ensures EntryOpsOk(m', i) {
      if Live(m, i) {
        QuietOps(m, m', i);
      } else {
        FreshOps(m', i);
      }
    }
  }

  lemma FreshAdded(m: Lsq, i: nat, j: nat)
    requires Shape(m) && Live(m, i) && j < NUM_SOURCES && m.rob[i] == Fresh(m.rob[i].instr)
    ensures AddedOk(m, i, j, -1, 0)
  {}

  lemma FreshDependent(m: Lsq, s: nat, d: nat)
    requires Shape(m) && Live(m, s) && m.rob[s] == Fresh(m.rob[s].instr)
    ensures DependentOk(m, s, d)
  {}

  lemma ReadKeepsForwarding(m: Lsq, x: MemInstr)
    requires ForwardInv(m) && CanRead(m, x) && AtMostOneStore(x)
    ensures ForwardInv(Read(m, x))
  {
    hide LoadsOk, AddedLoadsOk, DependentsOk, OpsOk;
    ReadKeepsInv(m, x);
    hide OrderInv, Window;
    OrderedShape(m);
    OrderedShape(Read(m, x));
    assert Quiet(m, Read(m, x));
    QuietKeepsInv(m, Read(m, x));
  }

  lemma DispatchKeepsForwarding(m: Lsq)
    requires ForwardInv(m) && CanDispatch(m)
    ensures ForwardInv(Dispatch(m))
  {
    hide LoadsOk, AddedLoadsOk, DependentsOk, OpsOk;
    DispatchKeepsInv(m);
    DispatchKeepsWindow(m);
    OrderedShape(m);
    OrderedShape(Dispatch(m));
    hide OrderInv, Window;
    QuietKeepsInv(m, Dispatch(m));
  }

  lemma AddStoreIsQuiet(m: Lsq, c: nat, k: nat, i: nat)
    requires OrderInv(m) && CanAddStore(m, c, k) && Live(m, i)
    ensures QuietEntry(m, AddStore(m, c, k), i)
  {
    hide SlotsOk, PendingOk, IdsOk, EntriesOk, CompletedOk, Window, Rank;
    TailIsFree(m) by { assert OrderInv(m); }
    assert StoreOk(m, i, 0) && StoreOk(m, i, 1);
  }

  lemma AddStoreKeepsForwarding(m: Lsq, c: nat, k: nat)
    requires ForwardInv(m) && CanAddStore(m, c, k)
    ensures ForwardInv(AddStore(m, c, k))
  {
    hide LoadsOk, AddedLoadsOk, DependentsOk, OpsOk, QuietEntry;
    var m' := AddStore(m, c, k);
    AddStoreKeepsInv(m, c, k);
    AddStoreShape(m, c, k);
    forall i: nat | Live(m, i) ensures Live(m', i) && QuietEntry(m, m', i) {
      AddStoreIsQuiet(m, c, k, i);
    }
    hide OrderInv, Window;
    QuietKeepsInv(m, m');
  }

  lemma CompleteKeepsForwarding(m: Lsq, c: nat)
    requires ForwardInv(m) && CanComplete(m, c)
    ensures ForwardInv(Complete(m, c))
  {
    hide LoadsOk, AddedLoadsOk, DependentsOk, OpsOk;
    CompleteKeepsOrder(m, c);
    SameWindow(m, Complete(m, c));
    OrderedShape(m);
    hide OrderInv, Window;
    QuietKeepsInv(m, Complete(m, c));
  }
}
