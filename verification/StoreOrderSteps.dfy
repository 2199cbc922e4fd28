/** Every step of the load and store queues keeps the store order. */
module StoreOrderSteps {
  import opened Counting
  import opened CoreTypes
  import opened LsqModel
  import opened StoreOrder

  // ---- Reading and dispatching ----

  predicate CanRead(m: Lsq, x: MemInstr) { x.id == m.nextId }

  predicate CanDispatch(m: Lsq) { m.occupancy < |m.rob| && m.front != [] }

  lemma StoreCount(x: MemInstr)
    ensures Count(IsStore(x)) == NumStores(x)
  {
    var s := IsStore(x);
    var first := s[..1];
    assert Count(first) == Count(first[..0]) + (if first[0] then 1 else 0);
    assert Count(s) == Count(first) + (if s[1] then 1 else 0);
  }

  lemma ReadKeepsInv(m: Lsq, x: MemInstr)
    requires OrderInv(m) && CanRead(m, x)
    ensures OrderInv(Read(m, x)) && Window(Read(m, x)) == Window(m) + [x]
  {
    hide SlotOk, AllAdded, StoreOk;
    var m' := Read(m, x);
    assert Window(m') == Window(m) + [x];
    forall i: nat, k: nat | Live(m', i) && k < NUM_DESTINATIONS ensures StoreOk(m', i, k) {
      ReadKeepsStore(m, x, i, k);
    }
    forall q: nat | q < |m.sq| ensures SlotOk(m', q) {
      assert SlotOk(m, q);
      ReadKeepsSlot(m, x, q);
    }
    ReadKeepsPending(m, x);
  }

  lemma ReadKeepsSlot(m: Lsq, x: MemInstr, q: nat)
    requires q < |m.sq| && SlotOk(m, q)
    ensures SlotOk(Read(m, x), q)
  {}

  lemma ReadKeepsStore(m: Lsq, x: MemInstr, i: nat, k: nat)
    requires OrderInv(m) && Live(m, i) && k < NUM_DESTINATIONS
    ensures Shape(Read(m, x)) && Live(Read(m, x), i) && StoreOk(Read(m, x), i, k)
  {
    hide SlotsOk, PendingOk, CompletedOk, EntriesOk;
    var m' := Read(m, x);
    assert Window(m') == Window(m) + [x];
    assert StoreOk(m, i, k);
    StoresOfPrefix(Window(m), [x], Age(m.head, |m.rob|, i));
    WindowAt(m, i);
    assert RankOf(m', i, k) == RankOf(m, i, k);
  }

  lemma ReadKeepsPending(m: Lsq, x: MemInstr)
    requires OrderInv(m) && CanRead(m, x)
    ensures Shape(Read(m, x)) && PendingOk(Read(m, x))
  {
    hide SlotsOk, StoresOk, CompletedOk, EntriesOk, IdsOk, Pending;
    assert Window(Read(m, x)) == Window(m) + [x];
    StoreCount(x);
    PendingAfterRead(m.sta, Window(m), m.sqOccupancy, x);
  }

  lemma PendingAfterRead(sta: seq<nat>, w: seq<MemInstr>, n: nat, x: MemInstr)
    requires Pending(sta, w, n)
    ensures Pending(sta + seq(NumStores(x), k => x.id), w + [x], n)
  {
    hide StoresBefore, NumStores, Rank;
    var w', sta' := w + [x], sta + seq(NumStores(x), k => x.id);
    StoresOfPrefix(w, [x], |w|);
    TotalStep(w', |w|);
    forall a: nat, k: nat | a < |w'| && k < NUM_DESTINATIONS ensures PendingStore(sta', w', n, a, k) {
      if w'[a].destinations[k] != 0 {
        RankInRange(w', a, k);
        if a < |w| {
          StoresOfPrefix(w, [x], a);
          assert PendingStore(sta, w, n, a, k);
          RankInRange(w, a, k);
        }
      }
    }
  }

  lemma TotalStep(w: seq<MemInstr>, n: nat)
    requires n < |w|
    ensures StoresBefore(w, n + 1) == StoresBefore(w, n) + NumStores(w[n])
  {}

  lemma DispatchKeepsWindow(m: Lsq)
    requires Shape(m) && CanDispatch(m)
    ensures Shape(Dispatch(m)) && Window(Dispatch(m)) == Window(m)
    ensures !Live(m, m.tail) && m.tail < |m.rob| && Age(m.head, |m.rob|, m.tail) == m.occupancy
    ensures forall i: nat :: Live(Dispatch(m), i) <==> Live(m, i) || i == m.tail
  {}

  /** Every slot of the queue in use belongs to an entry of the reorder buffer. */
  lemma SlotHasEntry(m: Lsq, r: nat) returns (i: nat, k: nat)
    requires OrderInv(m) && r < m.sqOccupancy
    ensures Live(m, i) && k < NUM_DESTINATIONS && m.rob[i].destinationAdded[k] && RankOf(m, i, k) == r
    ensures m.rob[i].instr.destinations[k] != 0
  {
    hide PendingOk, CompletedOk, EntriesOk, IdsOk, Rank;
    var q := At(m.sqHead, |m.sq|, r);
    AgesInvert(m.sqHead, |m.sq|, r);
    assert SlotOk(m, q);
    i, k := m.sq[q].robIndex, m.sq[q].operand;
    assert StoreOk(m, i, k);
    AgesInvert(m.sqHead, |m.sq|, RankOf(m, i, k));
  }

  lemma DispatchedStore(m: Lsq, k: nat)
    requires OrderInv(m) && CanDispatch(m) && k < NUM_DESTINATIONS && m.front[0].destinations[k] != 0
    ensures Rank(Window(m), m.occupancy, k) >= m.sqOccupancy
  {
    hide Rank, SlotsOk, StoresOk, CompletedOk, EntriesOk, IdsOk, Pending;
    FrontOfWindow(m);
    var r := Rank(Window(m), m.occupancy, k);
    if r < m.sqOccupancy {
      var i, l := SlotHasEntry(m, r);
      WindowAt(m, i);
      RankIsUnique(Window(m), m.occupancy, k, Age(m.head, |m.rob|, i), l);
      assert false;
    }
  }

  lemma DispatchKeepsInv(m: Lsq)
    requires OrderInv(m) && CanDispatch(m)
    ensures !m.rob[m.tail].live && OrderInv(Dispatch(m)) && Window(Dispatch(m)) == Window(m)
  {
    hide SlotOk, AllAdded, StoreOk, Window, Rank;
    var m' := Dispatch(m);
    DispatchKeepsWindow(m);
    forall i: nat, k: nat | Live(m', i) && k < NUM_DESTINATIONS ensures StoreOk(m', i, k) {
      DispatchKeepsStore(m, i, k);
    }
    forall q: nat | q < |m.sq| ensures SlotOk(m', q) {
      DispatchKeepsSlot(m, q);
    }
    DispatchKeepsEntries(m);
  }

  lemma DispatchKeepsEntries(m: Lsq)
    requires EntriesOk(m) && CompletedOk(m) && Shape(m) && CanDispatch(m)
    ensures EntriesOk(Dispatch(m)) && CompletedOk(Dispatch(m))
  {
    DispatchKeepsWindow(m);
  }

  lemma DispatchKeepsStore(m: Lsq, i: nat, k: nat)
    requires OrderInv(m) && CanDispatch(m) && Live(Dispatch(m), i) && k < NUM_DESTINATIONS
    ensures Shape(Dispatch(m)) && StoreOk(Dispatch(m), i, k)
  {
    hide SlotsOk, PendingOk, CompletedOk, IdsOk, Window, Rank;
    DispatchKeepsWindow(m);
    var m' := Dispatch(m);
    if i == m.tail {
      assert WindowAtFront(m) == m.front[0] by { FrontOfWindow(m); }
      if m.front[0].destinations[k] != 0 {
        DispatchedStore(m, k);
      }
    } else {
      assert StoreOk(m, i, k);
    }
  }

  function WindowAtFront(m: Lsq): MemInstr
    requires Shape(m) && m.front != []
  {
    Window(m)[m.occupancy]
  }

  lemma FrontOfWindow(m: Lsq)
    requires Shape(m) && m.front != []
    ensures WindowAtFront(m) == m.front[0]
  {}

  lemma DispatchKeepsSlot(m: Lsq, q: nat)
    requires OrderInv(m) && CanDispatch(m) && q < |m.sq|
    ensures SlotOk(Dispatch(m), q)
  {
    hide StoresOk, PendingOk, CompletedOk, IdsOk, Window;
    DispatchKeepsWindow(m);
    assert SlotOk(m, q);
  }

  // ---- Entering the store queue ----

  lemma AddStoreShape(m: Lsq, c: nat, k: nat)
    requires Shape(m) && CanAddStore(m, c, k)
    ensures var m' := AddStore(m, c, k); Shape(m') && Window(m') == Window(m)
  {
    var m' := AddStore(m, c, k);
    assert m'.head == m.head && m'.occupancy == m.occupancy && m'.front == m.front && |m'.rob| == |m.rob|;
    assert Shape(m');
    forall i | 0 <= i < |m.rob| ensures m'.rob[i].instr == m.rob[i].instr {}
    hide AddStore, CanAddStore;
    SameInstrs(m, m');
  }

  lemma SameInstrs(m: Lsq, m': Lsq)
    requires Shape(m) && Shape(m') && m'.head == m.head && m'.occupancy == m.occupancy && m'.front == m.front
    requires |m'.rob| == |m.rob| && forall i :: 0 <= i < |m.rob| ==> m'.rob[i].instr == m.rob[i].instr
    ensures Window(m') == Window(m)
  {
    forall a | 0 <= a < m.occupancy ensures Window(m')[a] == Window(m)[a] {
      AgesInvert(m.head, |m.rob|, a);
    }
  }

  lemma AddStoreKeepsInv(m: Lsq, c: nat, k: nat)
    requires OrderInv(m) && CanAddStore(m, c, k)
    ensures m.sq[m.sqTail] == FreeStore
    ensures OrderInv(AddStore(m, c, k))
  {
    hide SlotOk, StoreOk, Window, Rank, PendingOk;
    var m' := AddStore(m, c, k);
    AddStoreShape(m, c, k);
    TailIsFree(m) by { assert OrderInv(m); }
    forall i: nat, l: nat | Live(m', i) && l < NUM_DESTINATIONS ensures StoreOk(m', i, l) {
      AddStoreKeepsStore(m, c, k, i, l);
    }
    forall q: nat | q < |m.sq| ensures SlotOk(m', q) {
      AddStoreKeepsSlot(m, c, k, q);
    }
    AddStoreKeepsPending(m, c, k);
  }

  lemma AddStoreKeepsStore(m: Lsq, c: nat, k: nat, i: nat, l: nat)
    requires OrderInv(m) && CanAddStore(m, c, k) && Live(m, i) && l < NUM_DESTINATIONS
    ensures var m' := AddStore(m, c, k); Shape(m') && Live(m', i) && StoreOk(m', i, l)
  {
    hide SlotsOk, PendingOk, CompletedOk, EntriesOk, IdsOk, Window, Rank;
    var m' := AddStore(m, c, k);
    AddStoreShape(m, c, k);
    assert RankOf(m, c, k) == m.sqOccupancy by { assert OrderInv(m); NextStoreIsOldest(m, c, k); }
    assert StoreOk(m, i, l);
    if m.rob[i].instr.destinations[l] != 0 {
      OtherRank(m, c, k, i, l);
    }
    assert RankOf(m', i, l) == RankOf(m, i, l);
    AgesInvert(m.sqHead, |m.sq|, m.sqOccupancy);
    if m.rob[i].destinationAdded[l] {
      AgesInvert(m.sqHead, |m.sq|, RankOf(m, i, l));
    }
  }

  lemma OtherRank(m: Lsq, c: nat, k: nat, i: nat, l: nat)
    requires Shape(m) && Live(m, c) && Live(m, i) && k < NUM_DESTINATIONS && l < NUM_DESTINATIONS
    requires m.rob[c].instr.destinations[k] != 0 && m.rob[i].instr.destinations[l] != 0
    ensures RankOf(m, c, k) == RankOf(m, i, l) ==> c == i && k == l
  {
    hide Rank;
    WindowAt(m, c);
    WindowAt(m, i);
    AgesInvert(m.head, |m.rob|, i);
    AgesInvert(m.head, |m.rob|, c);
    hide Window;
    RankIsUnique(Window(m), Age(m.head, |m.rob|, c), k, Age(m.head, |m.rob|, i), l);
  }

  lemma AddStoreKeepsSlot(m: Lsq, c: nat, k: nat, q: nat)
    requires OrderInv(m) && CanAddStore(m, c, k) && q < |m.sq|
    ensures SlotOk(AddStore(m, c, k), q)
  {
    hide StoresOk, PendingOk, CompletedOk, EntriesOk, IdsOk;
    assert SlotOk(m, q);
    assert StoreOk(m, c, k) by { assert OrderInv(m); ThisStoreOk(m, c, k); }
    AgesInvert(m.sqHead, |m.sq|, q);
    AgesInvert(m.sqHead, |m.sq|, m.sqOccupancy);
  }

  lemma ThisStoreOk(m: Lsq, c: nat, k: nat)
    requires OrderInv(m) && Live(m, c) && k < NUM_DESTINATIONS
    ensures StoreOk(m, c, k)
  {}

  lemma AddStoreKeepsPending(m: Lsq, c: nat, k: nat)
    requires OrderInv(m) && CanAddStore(m, c, k)
    ensures var m' := AddStore(m, c, k); Shape(m') && PendingOk(m')
  {
    hide SlotsOk, StoresOk, CompletedOk, EntriesOk, IdsOk, Window, Pending;
    AddStoreShape(m, c, k);
    PendingAfterAdd(m.sta, Window(m), m.sqOccupancy);
  }

  lemma PendingAfterAdd(sta: seq<nat>, w: seq<MemInstr>, n: nat)
    requires Pending(sta, w, n) && sta != []
    ensures Pending(sta[1..], w, n + 1)
  {
    hide StoresBefore, Rank;
    var sta', n' := sta[1..], n + 1;
    forall a: nat, k: nat | a < |w| && k < NUM_DESTINATIONS ensures PendingStore(sta', w, n', a, k) {
      assert PendingStore(sta, w, n, a, k);
    }
  }

  // ---- Retirement ----

  lemma RetiredWindow(m: Lsq)
    requires OrderInv(m) && CanRetire(m)
    ensures |Window(m)| > 0 && Window(m)[0] == m.rob[m.head].instr && Age(m.head, |m.rob|, m.head) == 0
    ensures StoresBefore(Window(m), 1) == NumStores(m.rob[m.head].instr)
  {
    assert StoresBefore(Window(m), 1) == StoresBefore(Window(m), 0) + NumStores(Window(m)[0]);
  }

  /** The slots that retirement frees are the head of the store queue, one after the other. */
  lemma RetirementFreesHead(m: Lsq)
    requires OrderInv(m) && CanRetire(m)
    ensures var e, n := m.rob[m.head], |m.sq|;
      && (e.sqIndex[0] == if e.instr.destinations[0] != 0 then Some(m.sqHead) else None)
      && (e.sqIndex[1] == if e.instr.destinations[1] == 0 then None
                          else if e.instr.destinations[0] != 0 then Some(Next(m.sqHead, n)) else Some(m.sqHead))
      && NumStores(e.instr) <= m.sqOccupancy
      && SlotsOfHeadExist(m)
  {
    RetiredWindow(m);
    var e := m.rob[m.head];
    assert AllAdded(e);
    assert StoreOk(m, m.head, 0) && StoreOk(m, m.head, 1);
    hide SlotsOk, PendingOk, CompletedOk, EntriesOk, IdsOk, StoresOk, Window;
    assert RankOf(m, m.head, 0) == 0;
    assert RankOf(m, m.head, 1) == if e.instr.destinations[0] != 0 then 1 else 0;
  }

  /** The buffer fields after retirement, with the queue advanced by the number of stores. */
  lemma RetireFields(m: Lsq)
    requires OrderInv(m) && CanRetire(m) && SlotsOfHeadExist(m)
    ensures var m', n := Retire(m), NumStores(m.rob[m.head].instr);
      && m'.rob == m.rob[m.head := EMPTY_ENTRY] && m'.head == At(m.head, |m.rob|, 1)
      && m'.tail == m.tail && m'.occupancy == m.occupancy - 1
      && m'.sqOccupancy == m.sqOccupancy - n
      && m'.sqHead == At(m.sqHead, |m.sq|, n) && n <= |m.sq| && m'.sqTail == m.sqTail
      && m'.sta == m.sta && m'.front == m.front && m'.nextId == m.nextId
      && |m'.sq| == |m.sq|
      && forall q :: 0 <= q < |m.sq| ==> m'.sq[q] == if Age(m.sqHead, |m.sq|, q) < n then FreeStore else m.sq[q]
  {
    hide SlotsOk, PendingOk, CompletedOk, EntriesOk, IdsOk, StoresOk;
    RetirementFreesHead(m);
  }

  lemma RetireShape(m: Lsq)
    requires OrderInv(m) && CanRetire(m) && SlotsOfHeadExist(m)
    ensures var m' := Retire(m);
      && Shape(m') && Window(m') == Window(m)[1..]
      && (forall i: nat :: Live(m', i) <==> Live(m, i) && i != m.head)
      && (forall i: nat :: Live(m', i) ==> Age(m'.head, |m.rob|, i) == Age(m.head, |m.rob|, i) - 1)
  {
    hide SlotsOk, PendingOk, CompletedOk, EntriesOk, IdsOk, StoresOk;
    RetireFields(m);
    var m' := Retire(m);
    hide Retire;
    assert Shape(m');
    forall a | 0 <= a < |Window(m')| ensures Window(m')[a] == Window(m)[a + 1] {
      if a < m'.occupancy {
        assert At(m'.head, |m.rob|, a) == At(m.head, |m.rob|, a + 1) != m.head;
      }
    }
  }

  lemma RetiredRank(m: Lsq, i: nat, k: nat)
    requires OrderInv(m) && CanRetire(m) && SlotsOfHeadExist(m) && Live(Retire(m), i) && k < NUM_DESTINATIONS
    requires m.rob[i].instr.destinations[k] != 0
    ensures Shape(Retire(m)) && Live(m, i) && i != m.head
    ensures RankOf(Retire(m), i, k) == RankOf(m, i, k) - NumStores(m.rob[m.head].instr) >= 0
  {
    hide SlotsOk, PendingOk, CompletedOk, EntriesOk, IdsOk, StoresOk;
    RetireShape(m);
    RetiredWindow(m);
    RetireFields(m);
    hide Retire, Window, NumStores;
    var w, a := Window(m), Age(m.head, |m.rob|, i);
    StoresWithoutFirst(w, a - 1);
    StoresGrow(w, 1, a);
  }

  lemma RetireKeepsStore(m: Lsq, i: nat, k: nat)
    requires OrderInv(m) && CanRetire(m) && SlotsOfHeadExist(m) && Live(Retire(m), i) && k < NUM_DESTINATIONS
    ensures Shape(Retire(m)) && StoreOk(Retire(m), i, k)
  {
    hide SlotsOk, PendingOk, CompletedOk, EntriesOk, IdsOk;
    RetireShape(m);
    RetireFields(m);
    hide Retire, NumStores;
    assert StoreOk(m, i, k);
    if m.rob[i].instr.destinations[k] != 0 {
      RetiredRank(m, i, k);
      var r := RankOf(m, i, k);
      if r < m.sqOccupancy {
        AgesInvert(m.sqHead, |m.sq|, r);
      }
    }
  }

  lemma RetireKeepsSlot(m: Lsq, q: nat)
    requires OrderInv(m) && CanRetire(m) && SlotsOfHeadExist(m) && q < |m.sq|
    ensures SlotOk(Retire(m), q)
  {
    hide PendingOk, CompletedOk, EntriesOk, IdsOk;
    RetireShape(m);
    RetireFields(m);
    assert SlotOk(m, q);
    var n := NumStores(m.rob[m.head].instr);
    if n <= Age(m.sqHead, |m.sq|, q) < m.sqOccupancy && m.sq[q].robIndex == m.head {
      RetirementFreesHead(m);
      assert false;
    }
  }

  lemma PendingAfterRetire(sta: seq<nat>, w: seq<MemInstr>, n: nat)
    requires Pending(sta, w, n) && w != [] && NumStores(w[0]) <= n
    ensures Pending(sta, w[1..], n - NumStores(w[0]))
  {
    hide StoresBefore, NumStores;
    var w', n' := w[1..], n - NumStores(w[0]);
    StoresWithoutFirst(w, |w'|);
    forall a: nat, k: nat | a < |w'| && k < NUM_DESTINATIONS ensures PendingStore(sta, w', n', a, k) {
      StoresWithoutFirst(w, a);
      assert PendingStore(sta, w, n, a + 1, k);
    }
  }

  lemma RetireKeepsIds(m: Lsq)
    requires OrderInv(m) && CanRetire(m) && SlotsOfHeadExist(m)
    ensures Shape(Retire(m)) && IdsOk(Retire(m)) && PendingOk(Retire(m)) && Base(Retire(m)) == Base(m) + 1
    ensures EntriesOk(Retire(m)) && CompletedOk(Retire(m))
  {
    hide SlotsOk, StoresOk, AllAdded;
    RetireShape(m);
    RetireFields(m);
    RetiredWindow(m);
    RetirementFreesHead(m);
    hide Retire, Window, NumStores, Pending;
    PendingAfterRetire(m.sta, Window(m), m.sqOccupancy);
  }

  lemma RetireKeepsInv(m: Lsq)
    requires OrderInv(m) && CanRetire(m)
    ensures SlotsOfHeadExist(m) && OrderInv(Retire(m))
  {
    RetirementFreesHead(m);
    hide SlotOk, StoreOk, Retire, NumStores, SlotsOfHeadExist;
    RetireKeepsIds(m);
    RetireFields(m);
    var m' := Retire(m);
    forall i: nat, k: nat | Live(m', i) && k < NUM_DESTINATIONS ensures StoreOk(m', i, k) {
      RetireKeepsStore(m, i, k);
    }
    forall q: nat | q < |m'.sq| ensures SlotOk(m', q) {
      RetireKeepsSlot(m, q);
    }
  }

  // ---- Steps on loads and finished operations ----

  lemma AddLoadKeepsOrder(m: Lsq, c: nat, j: nat)
    requires OrderInv(m) && CanAddLoad(m, c, j)
    ensures OrderInv(AddLoad(m, c, j)) && SameOrder(m, AddLoad(m, c, j))
  {
    AddLoadSameOrder(m, c, j);
    SameOrderKeepsInv(m, AddLoad(m, c, j));
  }

  lemma AddLoadSameOrder(m: Lsq, c: nat, j: nat)
    requires Shape(m) && CanAddLoad(m, c, j)
    ensures SameOrder(m, AddLoad(m, c, j))
  {
    hide FreeSlot, Forwards, ProducerIndex;
  }

  /** A slot of the load queue in use. */
  predicate Releasable(m: Lsq, l: nat) { l < |m.lq| && m.lq[l].Load? && m.lq[l].robIndex < |m.rob| }

  lemma ReleaseLoadKeepsOrder(m: Lsq, l: nat)
    requires OrderInv(m) && Releasable(m, l)
    ensures OrderInv(ReleaseLoad(m, l)) && SameOrder(m, ReleaseLoad(m, l))
  {
    SameOrderKeepsInv(m, ReleaseLoad(m, l));
  }

  /** Serving loads leaves the store order alone, whatever the loads are. */
  lemma {:induction false} ServeKeepsOrder(m: Lsq, q: nat, n: nat)
    requires OrderInv(m) && q < |m.sq| && m.sq[q].Store? && m.sq[q].robIndex < |m.rob|
    requires n <= |m.rob| * NUM_SOURCES && ServeUpTo(m, q, n).Some?
    ensures OrderInv(ServeUpTo(m, q, n).value)
  {
    if n > 0 {
      ServeKeepsOrder(m, q, n - 1);
      var m' := ServeUpTo(m, q, n - 1).value;
      var d, j := (n - 1) / NUM_SOURCES, (n - 1) % NUM_SOURCES;
      hide OrderInv;
      if Matches(m', q, d, j) {
        ReleaseLoadKeepsOrder(m', m'.rob[d].lqIndex[j].value);
      }
    }
  }

  lemma ExecuteStoreKeepsOrder(m: Lsq, q: nat)
    requires OrderInv(m) && CanExecuteStore(m, q) && ExecuteStore(m, q).Some?
    ensures OrderInv(ExecuteStore(m, q).value)
  {
    var m' := MarkExecuted(m, q);
    SameOrderKeepsInv(m, m');
    ServeKeepsOrder(m', q, |m.rob| * NUM_SOURCES);
  }

  lemma CompleteKeepsOrder(m: Lsq, c: nat)
    requires OrderInv(m) && CanComplete(m, c)
    ensures OrderInv(Complete(m, c)) && SameOrder(m, Complete(m, c))
  {
    SameOrderKeepsInv(m, Complete(m, c));
  }
}
