/** Trying to put all operations of one instruction in the load and store queues: what gets in and what not. */
module LsqAdding {
  import opened Counting
  import opened CoreTypes
  import opened LsqModel
  import opened StoreOrder
  import opened StoreOrderSteps
  import opened Forwarding
  import opened ForwardingSteps
  import opened ForwardingAdd

  lemma AddLoadKeepsShape(m: Lsq, c: nat, j: nat)
    requires Shape(m) && CanAddLoad(m, c, j)
    ensures Shape(AddLoad(m, c, j))
  {
    AddLoadSameOrder(m, c, j);
  }

  /** The first n loads of entry c enter the queue while it has room. */
  function AddLoads(m: Lsq, c: nat, n: nat): (m': Lsq)
    requires Shape(m) && Live(m, c) && n <= NUM_SOURCES
    ensures Shape(m') && Live(m', c)
  {
    if n == 0 then m
    else
      var m1 := AddLoads(m, c, n - 1);
      if CanAddLoad(m1, c, n - 1) then AddLoadKeepsShape(m1, c, n - 1); AddLoad(m1, c, n - 1) else m1
  }

  /** The first n stores of entry c enter the queue while it is their turn and there is room. */
  function AddStores(m: Lsq, c: nat, n: nat): (m': Lsq)
    requires Shape(m) && Live(m, c) && n <= NUM_DESTINATIONS
    ensures Shape(m') && Live(m', c)
  {
    if n == 0 then m
    else
      var m1 := AddStores(m, c, n - 1);
      if CanAddStore(m1, c, n - 1) then AddStoreShape(m1, c, n - 1); AddStore(m1, c, n - 1) else m1
  }

  // ---- What was tried ----

  predicate LoadQueueFull(m: Lsq) { forall l :: 0 <= l < |m.lq| ==> m.lq[l].Load? }

  /** The list's head is another store, or the store queue is full. */
  predicate StoreBlocked(m: Lsq, id: nat) { m.sqOccupancy == |m.sq| || m.sta == [] || m.sta[0] != id }

  /** Operand j of entry c is new in the queue. */
  predicate IsNew(m: Lsq, m': Lsq, c: nat, j: nat)
    requires c < |m.rob| == |m'.rob| && j < NUM_SOURCES
  {
    !m.rob[c].sourceAdded[j] && m'.rob[c].sourceAdded[j]
  }

  /** A new load holds a slot that was free and names its producer, unless the producer's store served it at once. */
  predicate LoadArrived(m: Lsq, m': Lsq, c: nat, j: nat)
    requires Shape(m) && Live(m, c) && |m'.rob| == |m.rob| && j < NUM_SOURCES
  {
    var e, index := m.rob[c], m'.rob[c].lqIndex[j];
    var address := e.instr.sources[j];
    && index.Some? && index.value < |m.lq| == |m'.lq| && m.lq[index.value] == FreeLoad
    && match ProducerIndex(m, c, address)
       case None => m'.lq[index.value] == Load(c, j, address, e.instr.id, None)
       case Some(p) =>
         && c in m'.rob[p].dependents
         && (!Forwards(m.sq, address, m.rob[p].instr.id) ==>
               m'.lq[index.value] == Load(c, j, address, e.instr.id, Some(m.rob[p].instr.id)))
  }

  /** Operand j stays as it was if there is nothing to add; else it is added, or the queue is full. */
  predicate LoadTried(m: Lsq, m': Lsq, c: nat, j: nat)
    requires Shape(m) && Live(m, c) && |m'.rob| == |m.rob| && j < NUM_SOURCES
  {
    var e, e' := m.rob[c], m'.rob[c];
    if e.instr.sources[j] == 0 || e.sourceAdded[j] then
      e'.sourceAdded[j] == e.sourceAdded[j] && e'.lqIndex[j] == e.lqIndex[j]
    else if e'.sourceAdded[j] then LoadArrived(m, m', c, j)
    else LoadQueueFull(m') && e'.lqIndex[j] == e.lqIndex[j]
  }

  /** Another entry changes only by gaining entry c as dependent, as the producer of a new load. */
  ghost predicate Fed(m: Lsq, m': Lsq, c: nat, i: nat)
    requires Shape(m) && Live(m, c) && i < |m.rob| == |m'.rob|
  {
    m'.rob[i] == m.rob[i]
    || (m'.rob[i] == m.rob[i].(dependents := m.rob[i].dependents + {c})
        && exists j: nat ::
             j < NUM_SOURCES && IsNew(m, m', c, j) && ProducerIndex(m, c, m.rob[c].instr.sources[j]) == Some(i))
  }

  /** Destination k stays as it was if there is nothing to add; else it is added, or blocked. */
  predicate StoreTried(m: Lsq, m': Lsq, c: nat, k: nat)
    requires c < |m.rob| == |m'.rob| && k < NUM_DESTINATIONS
  {
    var e, e' := m.rob[c], m'.rob[c];
    if e.instr.destinations[k] == 0 || e.destinationAdded[k] then
      e'.destinationAdded[k] == e.destinationAdded[k] && e'.sqIndex[k] == e.sqIndex[k]
    else if e'.destinationAdded[k] then
      && e'.sqIndex[k].Some? && e'.sqIndex[k].value < |m'.sq|
      && m'.sq[e'.sqIndex[k].value] == Store(c, k, e.instr.destinations[k], e.instr.id, false)
    else StoreBlocked(m', e.instr.id) && e'.sqIndex[k] == e.sqIndex[k]
  }

  /** Loads and stores that were in the queues stay there, and nothing else of the state changes. */
  predicate OthersKept(m: Lsq, m': Lsq) {
    && |m'.lq| == |m.lq| && |m'.sq| == |m.sq|
    && m'.head == m.head && m'.tail == m.tail && m'.occupancy == m.occupancy
    && m'.sqHead == m.sqHead && m'.front == m.front && m'.nextId == m.nextId
    && (forall l :: 0 <= l < |m.lq| && m.lq[l].Load? ==> m'.lq[l] == m.lq[l])
    && (forall q :: 0 <= q < |m.sq| && m.sq[q].Store? ==> m'.sq[q] == m.sq[q])
  }

  /** Everything that trying the operations of entry c does. */
  ghost predicate OperationsTried(m: Lsq, m': Lsq, c: nat) {
    && Shape(m) && Live(m, c) && |m'.rob| == |m.rob| && OthersKept(m, m')
    && (forall j: nat :: j < NUM_SOURCES ==> LoadTried(m, m', c, j))
    && (forall k: nat :: k < NUM_DESTINATIONS ==> StoreTried(m, m', c, k))
    && (forall i: nat :: i < |m.rob| && i != c ==> Fed(m, m', c, i))
    && m'.rob[c] == m.rob[c].(
         sourceAdded := m'.rob[c].sourceAdded, lqIndex := m'.rob[c].lqIndex, numOps := m'.rob[c].numOps,
         destinationAdded := m'.rob[c].destinationAdded, sqIndex := m'.rob[c].sqIndex)
  }

  // ---- Loads ----

  /** After n loads were tried: no later load and no store has changed. */
  ghost predicate LoadsTried(m: Lsq, m': Lsq, c: nat, n: nat) {
    && Shape(m) && Shape(m') && Live(m, c) && |m'.rob| == |m.rob| && OthersKept(m, m')
    && m'.sq == m.sq && m'.sqTail == m.sqTail && m'.sqOccupancy == m.sqOccupancy && m'.sta == m.sta
    && (forall j: nat :: j < NUM_SOURCES ==>
          if j < n then LoadTried(m, m', c, j)
          else m'.rob[c].sourceAdded[j] == m.rob[c].sourceAdded[j] && m'.rob[c].lqIndex[j] == m.rob[c].lqIndex[j])
    && (forall i: nat :: i < |m.rob| && i != c ==> Fed(m, m', c, i))
    && m'.rob[c] == m.rob[c].(
         sourceAdded := m'.rob[c].sourceAdded, lqIndex := m'.rob[c].lqIndex, numOps := m'.rob[c].numOps)
  }

  lemma {:induction false} LoadsAreTried(m: Lsq, c: nat, n: nat)
    requires Shape(m) && Live(m, c) && n <= NUM_SOURCES
    ensures LoadsTried(m, AddLoads(m, c, n), c, n)
  {
    hide LoadsTried, CanAddLoad;
    if n == 0 {
      NoLoadsTried(m, c);
    } else {
      LoadsAreTried(m, c, n - 1);
      var m1 := AddLoads(m, c, n - 1);
      hide AddLoad;
      if CanAddLoad(m1, c, n - 1) {
        OneLoadAdded(m, m1, c, n - 1);
      } else {
        OneLoadLeft(m, m1, c, n - 1);
      }
    }
  }

  lemma NoLoadsTried(m: Lsq, c: nat)
    requires Shape(m) && Live(m, c)
    ensures LoadsTried(m, m, c, 0)
  {
    hide Shape;
  }

  lemma OneLoadLeft(m: Lsq, m1: Lsq, c: nat, j: nat)
    requires LoadsTried(m, m1, c, j) && j < NUM_SOURCES && !CanAddLoad(m1, c, j)
    ensures LoadsTried(m, m1, c, j + 1)
  {
    assert Live(m1, c);
    assert m1.rob[c].instr == m.rob[c].instr;
    assert FreeSlot(m1.lq, 0) == |m1.lq| ==> LoadQueueFull(m1);
    assert LoadTried(m, m1, c, j);
  }

  /** The producer search is the same before and after other loads were added. */
  lemma TriedProducer(m: Lsq, m1: Lsq, c: nat, n: nat, address: nat)
    requires LoadsTried(m, m1, c, n)
    ensures Live(m1, c) && ProducerIndex(m1, c, address) == ProducerIndex(m, c, address)
  {
    forall i | 0 <= i < |m.rob| ensures m1.rob[i].instr == m.rob[i].instr {
      assert i != c ==> Fed(m, m1, c, i);
    }
    SameInstrs(m, m1);
    hide Window;
  }

  /** One load added to a state: slot, producer, and what changes in the buffer. */
  ghost predicate AddsOne(m1: Lsq, m2: Lsq, c: nat, j: nat, l: nat, p: Option<nat>, served: bool) {
    && Shape(m1) && Shape(m2) && Live(m1, c) && j < NUM_SOURCES && l < |m1.lq| && m1.lq[l] == FreeLoad
    && m1.rob[c].instr.sources[j] != 0 && !m1.rob[c].sourceAdded[j]
    && p == ProducerIndex(m1, c, m1.rob[c].instr.sources[j]) && (p.Some? ==> p.value < |m1.rob| && p.value != c)
    && served == (p.Some? && Forwards(m1.sq, m1.rob[c].instr.sources[j], m1.rob[p.value].instr.id))
    && |m2.rob| == |m1.rob| && OthersKept(m1, m2)
    && m2.sq == m1.sq && m2.sqTail == m1.sqTail && m2.sqOccupancy == m1.sqOccupancy && m2.sta == m1.sta
    && (forall i: nat :: i < |m1.rob| ==> m2.rob[i] == Added(m1.rob[i], i, c, j, l, p, served))
    && m2.lq == (if served then m1.lq
                 else m1.lq[l := Load(c, j, m1.rob[c].instr.sources[j], m1.rob[c].instr.id,
                                      if p.Some? then Some(m1.rob[p.value].instr.id) else None)])
  }

  lemma AddLoadAddsOne(m1: Lsq, c: nat, j: nat)
    requires Shape(m1) && CanAddLoad(m1, c, j)
    ensures AddsOne(m1, AddLoad(m1, c, j), c, j, FreeSlot(m1.lq, 0),
                    ProducerIndex(m1, c, m1.rob[c].instr.sources[j]), Served(m1, c, j))
  {
    AddLoadKeepsShape(m1, c, j);
    AddLoadEffect(m1, c, j);
    ProducerIsStore(m1, c, m1.rob[c].instr.sources[j]);
    var m2 := AddLoad(m1, c, j);
    assert m2.sq == m1.sq && m2.front == m1.front && m2.nextId == m1.nextId && m2.sta == m1.sta;
    hide AddLoad, Forwards, ProducerIndex;
  }

  lemma OneLoadAdded(m: Lsq, m1: Lsq, c: nat, j: nat)
    requires LoadsTried(m, m1, c, j) && Shape(m1) && CanAddLoad(m1, c, j)
    ensures LoadsTried(m, AddLoad(m1, c, j), c, j + 1)
  {
    AddLoadAddsOne(m1, c, j);
    var l, p, served := FreeSlot(m1.lq, 0), ProducerIndex(m1, c, m1.rob[c].instr.sources[j]), Served(m1, c, j);
    hide AddLoad, FreeSlot, ProducerIndex, Served, CanAddLoad;
    AddedTries(m, m1, AddLoad(m1, c, j), c, j, l, p, served);
  }

  lemma AddedTries(m: Lsq, m1: Lsq, m2: Lsq, c: nat, j: nat, l: nat, p: Option<nat>, served: bool)
    requires LoadsTried(m, m1, c, j) && AddsOne(m1, m2, c, j, l, p, served)
    ensures LoadsTried(m, m2, c, j + 1)
  {
    hide LoadTried, Fed, ProducerIndex;
    forall h: nat | h < NUM_SOURCES
      ensures if h < j + 1 then LoadTried(m, m2, c, h)
              else m2.rob[c].sourceAdded[h] == m.rob[c].sourceAdded[h] && m2.rob[c].lqIndex[h] == m.rob[c].lqIndex[h]
    {
      if h < j {
        EarlierLoadTried(m, m1, m2, c, j, l, p, served, h);
      } else if h == j {
        ThisLoadTried(m, m1, m2, c, j, l, p, served);
      }
    }
    forall i: nat | i < |m.rob| && i != c ensures Fed(m, m2, c, i) {
      StillFed(m, m1, m2, c, j, l, p, served, i);
    }
  }

  lemma EarlierLoadTried(
      m: Lsq, m1: Lsq, m2: Lsq, c: nat, j: nat, l: nat, p: Option<nat>, served: bool, h: nat)
    requires LoadsTried(m, m1, c, j) && AddsOne(m1, m2, c, j, l, p, served) && h < j
    ensures LoadTried(m, m2, c, h)
  {
    hide Forwards, ProducerIndex, OthersKept;
    assert LoadTried(m, m1, c, h);
    assert !LoadQueueFull(m1);
    var producer := ProducerIndex(m, c, m.rob[c].instr.sources[h]);
    if producer.Some? {
      assert m2.rob[producer.value] ==
        Added(m1.rob[producer.value], producer.value, c, j, l, p, served);
    }
  }

  lemma ThisLoadTried(m: Lsq, m1: Lsq, m2: Lsq, c: nat, j: nat, l: nat, p: Option<nat>, served: bool)
    requires LoadsTried(m, m1, c, j) && AddsOne(m1, m2, c, j, l, p, served)
    ensures LoadTried(m, m2, c, j)
  {
    TriedProducer(m, m1, c, j, m.rob[c].instr.sources[j]);
    hide Forwards, ProducerIndex;
    assert m.lq[l] == FreeLoad;
    if p.Some? {
      assert Fed(m, m1, c, p.value);
    }
  }

  lemma StillFed(m: Lsq, m1: Lsq, m2: Lsq, c: nat, j: nat, l: nat, p: Option<nat>, served: bool, i: nat)
    requires LoadsTried(m, m1, c, j) && AddsOne(m1, m2, c, j, l, p, served) && i < |m.rob| && i != c
    ensures Fed(m, m2, c, i)
  {
    TriedProducer(m, m1, c, j, m.rob[c].instr.sources[j]);
    hide Forwards, ProducerIndex, OthersKept, LoadTried;
    assert Fed(m, m1, c, i);
    assert IsNew(m, m2, c, j);
    if m1.rob[i] != m.rob[i] {
      var h: nat :| h < NUM_SOURCES && IsNew(m, m1, c, h)
        && ProducerIndex(m, c, m.rob[c].instr.sources[h]) == Some(i);
      assert IsNew(m, m2, c, h);
    }
  }

  // ---- Stores ----

  /** After n stores were tried: no load and no later store has changed. */
  ghost predicate StoresTried(m: Lsq, m': Lsq, c: nat, n: nat) {
    && OrderInv(m') && Shape(m) && Live(m, c) && |m'.rob| == |m.rob| && OthersKept(m, m')
    && m'.lq == m.lq
    && (forall k: nat :: k < NUM_DESTINATIONS ==>
          if k < n then StoreTried(m, m', c, k)
          else (m'.rob[c].destinationAdded[k] == m.rob[c].destinationAdded[k]
                && m'.rob[c].sqIndex[k] == m.rob[c].sqIndex[k]))
    && (forall i :: 0 <= i < |m.rob| && i != c ==> m'.rob[i] == m.rob[i])
    && m'.rob[c] == m.rob[c].(destinationAdded := m'.rob[c].destinationAdded, sqIndex := m'.rob[c].sqIndex)
  }

  lemma {:induction false} StoresAreTried(m: Lsq, c: nat, n: nat)
    requires OrderInv(m) && Live(m, c) && n <= NUM_DESTINATIONS
    ensures Shape(m) && StoresTried(m, AddStores(m, c, n), c, n)
  {
    OrderedShape(m);
    if n > 0 {
      StoresAreTried(m, c, n - 1);
      var m1 := AddStores(m, c, n - 1);
      hide StoresTried, OrderInv;
      if CanAddStore(m1, c, n - 1) {
        OneStoreAdded(m, m1, c, n - 1);
      } else {
        OneStoreLeft(m, m1, c, n - 1);
      }
    }
  }

  lemma OneStoreLeft(m: Lsq, m1: Lsq, c: nat, k: nat)
    requires StoresTried(m, m1, c, k) && k < NUM_DESTINATIONS && !CanAddStore(m1, c, k)
    ensures StoresTried(m, m1, c, k + 1)
  {
    OrderedShape(m1);
    hide OrderInv;
    assert Live(m1, c);
    assert k == 1 ==> StoreTried(m, m1, c, 0);
    assert StoreTried(m, m1, c, k);
  }

  lemma OneStoreAdded(m: Lsq, m1: Lsq, c: nat, k: nat)
    requires StoresTried(m, m1, c, k) && Shape(m1) && CanAddStore(m1, c, k)
    ensures StoresTried(m, AddStore(m1, c, k), c, k + 1)
  {
    AddStoreKeepsInv(m1, c, k);
    hide OrderInv;
    var m2 := AddStore(m1, c, k);
    assert k == 1 ==> StoreTried(m, m1, c, 0);
    assert StoreTried(m, m2, c, k);
    assert k == 1 ==> StoreTried(m, m2, c, 0);
  }

  // ---- Both ----

  /** Trying all loads and then all stores does exactly what is promised. */
  lemma AddingTriesAll(m: Lsq, c: nat)
    requires OrderInv(m) && Live(m, c)
    ensures Shape(m)
    ensures OperationsTried(m, AddStores(AddLoads(m, c, NUM_SOURCES), c, NUM_DESTINATIONS), c)
  {
    OrderedShape(m);
    LoadsAreTried(m, c, NUM_SOURCES);
    var m1 := AddLoads(m, c, NUM_SOURCES);
    LoadsKeepOrder(m, c, NUM_SOURCES);
    StoresAreTried(m1, c, NUM_DESTINATIONS);
    hide OrderInv, AddLoads, AddStores;
    BothTried(m, m1, AddStores(m1, c, NUM_DESTINATIONS), c);
  }

  lemma {:induction false} LoadsKeepOrder(m: Lsq, c: nat, n: nat)
    requires OrderInv(m) && Shape(m) && Live(m, c) && n <= NUM_SOURCES
    ensures OrderInv(AddLoads(m, c, n))
  {
    hide OrderInv;
    if n > 0 {
      LoadsKeepOrder(m, c, n - 1);
      var m1 := AddLoads(m, c, n - 1);
      if CanAddLoad(m1, c, n - 1) {
        AddLoadKeepsOrder(m1, c, n - 1);
      }
    }
  }

  lemma BothTried(m: Lsq, m1: Lsq, m2: Lsq, c: nat)
    requires LoadsTried(m, m1, c, NUM_SOURCES) && StoresTried(m1, m2, c, NUM_DESTINATIONS)
    ensures OperationsTried(m, m2, c)
  {
    hide OrderInv, ProducerIndex, Forwards;
    forall j: nat | j < NUM_SOURCES ensures LoadTried(m, m2, c, j) {
      assert LoadTried(m, m1, c, j);
    }
    forall k: nat | k < NUM_DESTINATIONS ensures StoreTried(m, m2, c, k) {
      assert StoreTried(m1, m2, c, k);
    }
    forall i: nat | i < |m.rob| && i != c ensures Fed(m, m2, c, i) {
      assert Fed(m, m1, c, i);
      if m1.rob[i] != m.rob[i] {
        var h: nat :| h < NUM_SOURCES && IsNew(m, m1, c, h)
          && ProducerIndex(m, c, m.rob[c].instr.sources[h]) == Some(i);
        assert IsNew(m, m2, c, h);
      }
    }
  }

  // ---- Forwarding stays exact ----

  lemma AddingKeepsForwarding(m: Lsq, c: nat)
    requires Shape(m) && Live(m, c)
    ensures ForwardInv(m) ==> ForwardInv(AddStores(AddLoads(m, c, NUM_SOURCES), c, NUM_DESTINATIONS))
  {
    if ForwardInv(m) {
      LoadsKeepForwarding(m, c, NUM_SOURCES);
      hide ForwardInv;
      StoresKeepForwarding(AddLoads(m, c, NUM_SOURCES), c, NUM_DESTINATIONS);
    }
  }

  lemma {:induction false} LoadsKeepForwarding(m: Lsq, c: nat, n: nat)
    requires ForwardInv(m) && Shape(m) && Live(m, c) && n <= NUM_SOURCES
    ensures ForwardInv(AddLoads(m, c, n))
  {
    hide ForwardInv;
    if n > 0 {
      LoadsKeepForwarding(m, c, n - 1);
      if CanAddLoad(AddLoads(m, c, n - 1), c, n - 1) {
        AddLoadKeepsForwarding(AddLoads(m, c, n - 1), c, n - 1);
      }
    }
  }

  lemma {:induction false} StoresKeepForwarding(m: Lsq, c: nat, n: nat)
    requires ForwardInv(m) && Shape(m) && Live(m, c) && n <= NUM_DESTINATIONS
    ensures ForwardInv(AddStores(m, c, n))
  {
    hide ForwardInv;
    if n > 0 {
      StoresKeepForwarding(m, c, n - 1);
      if CanAddStore(AddStores(m, c, n - 1), c, n - 1) {
        AddStoreKeepsForwarding(AddStores(m, c, n - 1), c, n - 1);
      }
    }
  }
}
