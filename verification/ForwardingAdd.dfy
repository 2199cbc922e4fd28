/** A load enters the queue: it is linked to its producer, or served at once from an executed store. */
module ForwardingAdd {
  import opened Counting
  import opened CoreTypes
  import opened LsqModel
  import opened StoreOrder
  import opened StoreOrderSteps
  import opened Forwarding
  import opened ForwardingServe

  /** The search in the store queue finds an executed slot exactly when the producer has executed its store. */
  lemma ForwardsIffDone(m: Lsq, p: nat, address: nat)
    requires OrderInv(m) && SingleStores(m) && Live(m, p) && address != 0 && WritesTo(m.rob[p].instr, address)
    ensures Forwards(m.sq, address, m.rob[p].instr.id) <==> StoreDone(m, p, address)
  {
    hide IdsOk, PendingOk, EntriesOk, CompletedOk, Window, Rank, RankOf;
    var r := ForwardingSlot(m.sq, address, m.rob[p].instr.id, 0);
    IsSingle(m, p);
    if r < |m.sq| {
      assert SlotOk(m, r);
      var i, k := m.sq[r].robIndex, m.sq[r].operand;
      assert StoreOk(m, i, k);
      IdsAreUnique(m, i, p);
    }
    if StoreDone(m, p, address) {
      var k := if m.rob[p].instr.destinations[0] == address then 0 else 1;
      assert StoreOk(m, p, k);
    }
  }

  /** The producer of the load of operand j of entry c, and whether its data are there already. */
  ghost predicate Served(m: Lsq, c: nat, j: nat)
    requires Shape(m) && CanAddLoad(m, c, j)
  {
    var p := ProducerIndex(m, c, m.rob[c].instr.sources[j]);
    p.Some? && Forwards(m.sq, m.rob[c].instr.sources[j], m.rob[p.value].instr.id)
  }

  /** Entry i after operand j of entry c was added; p is the producer. */
  function Added(e: MemEntry, i: nat, c: nat, j: nat, l: nat, p: Option<nat>, served: bool): MemEntry
    requires j < NUM_SOURCES
  {
    if i == c then
      e.(sourceAdded := e.sourceAdded[j := true], lqIndex := e.lqIndex[j := Some(l)],
         numOps := if served then e.numOps - 1 else e.numOps)
    else if p == Some(i) then e.(dependents := e.dependents + {c})
    else e
  }

  lemma AddLoadEffect(m: Lsq, c: nat, j: nat)
    requires Shape(m) && CanAddLoad(m, c, j)
    ensures var m', l, address := AddLoad(m, c, j), FreeSlot(m.lq, 0), m.rob[c].instr.sources[j];
      var p, served := ProducerIndex(m, c, address), Served(m, c, j);
      && (forall i: nat :: i < |m.rob| ==> m'.rob[i] == Added(m.rob[i], i, c, j, l, p, served))
      && m'.lq == (if served then m.lq
                   else m.lq[l := Load(c, j, address, m.rob[c].instr.id,
                                       if p.Some? then Some(m.rob[p.value].instr.id) else None)])
      && m'.lqOccupancy == m.lqOccupancy + (if served then 0 else 1)
      && SameOrder(m, m')
  {
    AddLoadSameOrder(m, c, j);
    ProducerIsStore(m, c, m.rob[c].instr.sources[j]);
    hide Forwards, ProducerIndex, FreeSlot, SameOrder;
  }

  /** What adding operand j of entry c to slot l does to the state, as far as loads are concerned. */
  ghost predicate Links(m: Lsq, m': Lsq, c: nat, j: nat, l: nat, p: Option<nat>, served: bool)
    requires Shape(m) && Shape(m')
  {
    && Live(m, c) && j < NUM_SOURCES && !m.rob[c].sourceAdded[j] && m.rob[c].instr.sources[j] != 0
    && p == ProducerIndex(m, c, m.rob[c].instr.sources[j])
    && (p.Some? ==> Live(m, p.value) && p.value != c && WritesTo(m.rob[p.value].instr, m.rob[c].instr.sources[j]))
    && (served <==> p.Some? && StoreDone(m, p.value, m.rob[c].instr.sources[j]))
    && l < |m.lq| && m.lq[l] == FreeLoad
    && |m'.rob| == |m.rob| && m'.head == m.head && m'.occupancy == m.occupancy && m'.sq == m.sq
    && Window(m') == Window(m)
    && (forall i: nat :: i < |m.rob| ==> m'.rob[i] == Added(m.rob[i], i, c, j, l, p, served))
    && m'.lq == (if served then m.lq
                 else m.lq[l := Load(c, j, m.rob[c].instr.sources[j], m.rob[c].instr.id,
                                     if p.Some? then Some(m.rob[p.value].instr.id) else None)])
  }

  lemma AddLinks(m: Lsq, c: nat, j: nat)
    requires OrderInv(m) && SingleStores(m) && CanAddLoad(m, c, j)
    ensures var m', p := AddLoad(m, c, j), ProducerIndex(m, c, m.rob[c].instr.sources[j]);
      && OrderInv(m') && Shape(m') && SingleStores(m')
      && Links(m, m', c, j, FreeSlot(m.lq, 0), p, Served(m, c, j))
  {
    OrderedShape(m);
    var m', p, address := AddLoad(m, c, j), ProducerIndex(m, c, m.rob[c].instr.sources[j]), m.rob[c].instr.sources[j];
    ProducerIsStore(m, c, address);
    if p.Some? { ForwardsIffDone(m, p.value, address); }
    AddLoadEffect(m, c, j);
    SameOrderKeepsInv(m, m');
    SameWindow(m, m');
    assert m'.sq == m.sq && m'.head == m.head && m'.occupancy == m.occupancy by { hide OrderInv, ProducerIndex; }
    hide OrderInv, AddLoad, ProducerIndex, StoreDone, Forwards, Window;
  }

  lemma LinkedOperand(m: Lsq, m': Lsq, c: nat, j: nat, l: nat, p: Option<nat>, served: bool, i: nat, address: nat)
    requires Shape(m) && Shape(m') && Links(m, m', c, j, l, p, served) && Live(m, i)
    ensures Live(m', i) && ProducerIndex(m', i, address) == ProducerIndex(m, i, address)
    ensures StoreDone(m', i, address) == StoreDone(m, i, address)
    ensures OperandDone(m', i, 0) == OperandDone(m, i, 0) && OperandDone(m', i, 1) == OperandDone(m, i, 1)
  {
    LinkedProducer(m, m', c, j, l, p, served, i, address);
    hide ProducerIndex, Window;
    assert m'.rob[i] == Added(m.rob[i], i, c, j, l, p, served);
    assert m'.rob[i].instr == m.rob[i].instr && m'.rob[i].sqIndex == m.rob[i].sqIndex && m'.sq == m.sq;
    hide Links, Added;
  }

  lemma LinkedProducer(m: Lsq, m': Lsq, c: nat, j: nat, l: nat, p: Option<nat>, served: bool, i: nat, address: nat)
    requires Shape(m) && Shape(m') && Links(m, m', c, j, l, p, served) && Live(m, i)
    ensures Live(m', i) && ProducerIndex(m', i, address) == ProducerIndex(m, i, address)
  {
    hide StoreDone, Added, WritesTo, Window, ProducerIndex;
    ProducerStays(m, m', i, address);
  }

  lemma LinkKeepsLoad(m: Lsq, m': Lsq, c: nat, j: nat, l: nat, p: Option<nat>, served: bool, k: nat)
    requires Shape(m) && Shape(m') && Links(m, m', c, j, l, p, served)
    requires k < |m.lq| && LoadOk(m, k, -1, 0)
    ensures |m'.lq| == |m.lq| && LoadOk(m', k, -1, 0)
  {
    hide StoreDone, YoungestStore, Window;
    if m.lq[k].Load? {
      LinkKeepsOldLoad(m, m', c, j, l, p, served, k);
    } else if k == l && !served {
      LinkedOperand(m, m', c, j, l, p, served, c, m.rob[c].instr.sources[j]);
      if p.Some? {
        LinkedOperand(m, m', c, j, l, p, served, p.value, m.rob[c].instr.sources[j]);
      }
      hide ProducerIndex;
    }
  }

  lemma LinkKeepsOldLoad(m: Lsq, m': Lsq, c: nat, j: nat, l: nat, p: Option<nat>, served: bool, k: nat)
    requires Shape(m) && Shape(m') && Links(m, m', c, j, l, p, served)
    requires k < |m.lq| && m.lq[k].Load? && LoadOk(m, k, -1, 0)
    ensures |m'.lq| == |m.lq| && LoadOk(m', k, -1, 0)
  {
    hide StoreDone, YoungestStore, Window;
    var i, address := m.lq[k].robIndex, m.lq[k].address;
    ProducerIsStore(m, i, address);
    LinkedOperand(m, m', c, j, l, p, served, i, address);
    assert i == c ==> m.lq[k].operand != j;
    if ProducerIndex(m, i, address).Some? {
      LinkedOperand(m, m', c, j, l, p, served, ProducerIndex(m, i, address).value, address);
    }
    hide ProducerIndex;
  }

  lemma LinkKeepsAdded(m: Lsq, m': Lsq, c: nat, j: nat, l: nat, p: Option<nat>, served: bool, i: nat, h: nat)
    requires Shape(m) && Shape(m') && Links(m, m', c, j, l, p, served)
    requires Live(m, i) && h < NUM_SOURCES && AddedOk(m, i, h, -1, 0)
    ensures Live(m', i) && AddedOk(m', i, h, -1, 0)
  {
    hide StoreDone, YoungestStore, Window;
    var address := m.rob[i].instr.sources[h];
    ProducerIsStore(m, i, address);
    LinkedOperand(m, m', c, j, l, p, served, i, address);
    if ProducerIndex(m, i, address).Some? {
      LinkedOperand(m, m', c, j, l, p, served, ProducerIndex(m, i, address).value, address);
    }
    hide ProducerIndex;
  }

  lemma LinkKeepsDependent(m: Lsq, m': Lsq, c: nat, j: nat, l: nat, p: Option<nat>, served: bool, s: nat, d: nat)
    requires Shape(m) && Shape(m') && Links(m, m', c, j, l, p, served)
    requires Live(m, s) && DependentOk(m, s, d) && AtMostOneStore(m.rob[s].instr)
    ensures Live(m', s) && DependentOk(m', s, d)
  {
    hide StoreDone, YoungestStore, Window;
    if Live(m, d) {
      LinkedOperand(m, m', c, j, l, p, served, d, m.rob[s].instr.destinations[0]);
      LinkedOperand(m, m', c, j, l, p, served, d, m.rob[s].instr.destinations[1]);
    }
    hide ProducerIndex;
    if d in m'.rob[s].dependents && d !in m.rob[s].dependents {
      assert d == c && p == Some(s);
    }
  }

  lemma LinkKeepsOps(m: Lsq, m': Lsq, c: nat, j: nat, l: nat, p: Option<nat>, served: bool, i: nat)
    requires Shape(m) && Shape(m') && Links(m, m', c, j, l, p, served)
    requires Live(m, i) && EntryOpsOk(m, i)
    ensures EntryOpsOk(m', i)
  {
    hide StoreDone, Window, ProducerIndex;
    LinkedOperand(m, m', c, j, l, p, served, i, 0);
    assert m'.rob[i] == Added(m.rob[i], i, c, j, l, p, served);
    hide OperandDone;
    assert OpenStores(m', i) == OpenStores(m, i);
    if i == c {
      assert OpenLoads(m, c)[j];
      assert OpenLoads(m', c) == if served then OpenLoads(m, c)[j := false] else OpenLoads(m, c);
      CountUpdate(OpenLoads(m, c), j, false);
    } else {
      assert OpenLoads(m', i) == OpenLoads(m, i);
    }
  }

  lemma AddKeepsCount(m: Lsq, c: nat, j: nat)
    requires Shape(m) && CanAddLoad(m, c, j) && m.lqOccupancy == Count(InUse(m.lq))
    ensures AddLoad(m, c, j).lqOccupancy == Count(InUse(AddLoad(m, c, j).lq))
  {
    AddLoadEffect(m, c, j);
    var m', l := AddLoad(m, c, j), FreeSlot(m.lq, 0);
    hide AddLoad, ProducerIndex, Forwards;
    if !Served(m, c, j) {
      assert InUse(m'.lq) == InUse(m.lq)[l := true];
      CountUpdate(InUse(m.lq), l, true);
    }
  }

  lemma AddLoadKeepsForwarding(m: Lsq, c: nat, j: nat)
    requires ForwardInv(m) && CanAddLoad(m, c, j)
    ensures ForwardInv(AddLoad(m, c, j))
  {
    hide LoadOk, AddedOk, DependentOk, EntryOpsOk, InUse;
    OrderedShape(m);
    var m', l := AddLoad(m, c, j), FreeSlot(m.lq, 0);
    var p, served := ProducerIndex(m, c, m.rob[c].instr.sources[j]), Served(m, c, j);
    AddLinks(m, c, j);
    AddKeepsCount(m, c, j);
    AddKeepsSize(m, c, j);
    forall s: nat | Live(m, s) ensures AtMostOneStore(m.rob[s].instr) {
      IsSingle(m, s);
    }
    assert forall i: nat :: Live(m', i) <==> Live(m, i);
    hide OrderInv, SingleStores, ProducerIndex, Window, AddLoad, Links, Served, FreeSlot, AtMostOneStore;
    forall k: nat | k < |m'.lq| ensures LoadOk(m', k, -1, 0) {
      LinkKeepsLoad(m, m', c, j, l, p, served, k);
    }
    forall i: nat, h: nat | Live(m', i) && h < NUM_SOURCES ensures AddedOk(m', i, h, -1, 0) {
      LinkKeepsAdded(m, m', c, j, l, p, served, i, h);
    }
    forall s: nat, d: nat | Live(m', s) ensures DependentOk(m', s, d) {
      LinkKeepsDependent(m, m', c, j, l, p, served, s, d);
    }
    forall i: nat | Live(m', i) ensures EntryOpsOk(m', i) {
      LinkKeepsOps(m, m', c, j, l, p, served, i);
    }
  }

  lemma AddKeepsSize(m: Lsq, c: nat, j: nat)
    requires Shape(m) && CanAddLoad(m, c, j)
    ensures |AddLoad(m, c, j).lq| == |m.lq| && |AddLoad(m, c, j).rob| == |m.rob|
  {}

  /** The load queue has a free slot exactly when its occupancy is below its size. */
  lemma RoomMeansFreeSlot(m: Lsq)
    requires m.lqOccupancy == Count(InUse(m.lq))
    ensures FreeSlot(m.lq, 0) < |m.lq| <==> m.lqOccupancy < |m.lq|
  {
    CountExtremes(InUse(m.lq));
    var l := FreeSlot(m.lq, 0);
    if l < |m.lq| {
      assert !InUse(m.lq)[l];
    }
  }
}
