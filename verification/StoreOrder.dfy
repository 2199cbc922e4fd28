/**
 Stores enter and leave the store queue in program order although memory instructions are scheduled in
 any order, and the list of pending stores is bounded.
 */
module StoreOrder {
  import opened Counting
  import opened CoreTypes
  import opened LsqModel

  // ---- Ranks: the position of a store among all stores of the window ----

  function NumStores(x: MemInstr): nat {
    (if x.destinations[0] != 0 then 1 else 0) + (if x.destinations[1] != 0 then 1 else 0)
  }

  /** How many stores the first n instructions have. */
  function StoresBefore(w: seq<MemInstr>, n: nat): nat
    requires n <= |w|
  {
    if n == 0 then 0 else StoresBefore(w, n - 1) + NumStores(w[n - 1])
  }

  function Rank(w: seq<MemInstr>, a: nat, k: nat): nat
    requires a < |w|
  {
    StoresBefore(w, a) + (if k == 1 && w[a].destinations[0] != 0 then 1 else 0)
  }

  lemma {:induction false} StoresGrow(w: seq<MemInstr>, a: nat, b: nat)
    requires a <= b <= |w|
    ensures StoresBefore(w, a) <= StoresBefore(w, b)
    decreases b
  {
    if a < b {
      StoresGrow(w, a, b - 1);
    }
  }

  lemma RankInRange(w: seq<MemInstr>, a: nat, k: nat)
    requires a < |w| && k < NUM_DESTINATIONS && w[a].destinations[k] != 0
    ensures StoresBefore(w, a) <= Rank(w, a, k) < StoresBefore(w, a + 1)
    ensures Rank(w, a, k) == StoresBefore(w, a) + (if k == 1 && w[a].destinations[0] != 0 then 1 else 0)
  {}

  lemma RankFollowsOrder(w: seq<MemInstr>, a: nat, k: nat, b: nat, l: nat)
    requires a < b < |w| && k < NUM_DESTINATIONS && l < NUM_DESTINATIONS
    requires w[a].destinations[k] != 0 && w[b].destinations[l] != 0
    ensures Rank(w, a, k) < Rank(w, b, l)
  {
    hide StoresBefore, Rank;
    RankInRange(w, a, k);
    RankInRange(w, b, l);
    StoresGrow(w, a + 1, b);
  }

  /** Ranks are unique and follow program order. */
  lemma RankIsUnique(w: seq<MemInstr>, a: nat, k: nat, b: nat, l: nat)
    requires a < |w| && b < |w| && k < NUM_DESTINATIONS && l < NUM_DESTINATIONS
    requires w[a].destinations[k] != 0 && w[b].destinations[l] != 0
    ensures Rank(w, a, k) == Rank(w, b, l) ==> a == b && k == l
    ensures a < b ==> Rank(w, a, k) < Rank(w, b, l)
    ensures Rank(w, a, k) < StoresBefore(w, |w|)
  {
    hide StoresBefore, Rank;
    RankInRange(w, a, k);
    StoresGrow(w, a + 1, |w|);
    if a < b {
      RankFollowsOrder(w, a, k, b, l);
    } else if b < a {
      RankFollowsOrder(w, b, l, a, k);
    } else {
      RankInRange(w, b, l);
    }
  }

  /** Every number below the total is the rank of some store. */
  lemma {:induction false} RankExists(w: seq<MemInstr>, n: nat, r: nat) returns (a: nat, k: nat)
    requires n <= |w| && r < StoresBefore(w, n)
    ensures a < n && k < NUM_DESTINATIONS && w[a].destinations[k] != 0 && Rank(w, a, k) == r
  {
    if r < StoresBefore(w, n - 1) {
      a, k := RankExists(w, n - 1, r);
    } else {
      a, k := n - 1, if r == StoresBefore(w, n - 1) && w[n - 1].destinations[0] != 0 then 0 else 1;
    }
  }

  lemma {:induction false} StoresOfPrefix(w: seq<MemInstr>, v: seq<MemInstr>, n: nat)
    requires n <= |w|
    ensures StoresBefore(w + v, n) == StoresBefore(w, n)
  {
    if n > 0 {
      StoresOfPrefix(w, v, n - 1);
    }
  }

  lemma {:induction false} StoresWithoutFirst(w: seq<MemInstr>, n: nat)
    requires n < |w|
    ensures StoresBefore(w[1..], n) == StoresBefore(w, n + 1) - NumStores(w[0])
  {
    if n > 0 {
      StoresWithoutFirst(w, n - 1);
    } else {
      assert StoresBefore(w, 1) == StoresBefore(w, 0) + NumStores(w[0]);
    }
  }

  // ---- The invariant ----

  /** The id of the oldest instruction in the window. */
  function Base(m: Lsq): int
    requires Shape(m)
  {
    m.nextId - |Window(m)|
  }

  /** Ids count up in program order. */
  ghost predicate IdsOk(m: Lsq)
    requires Shape(m)
  {
    Base(m) >= 0 && forall a :: 0 <= a < |Window(m)| ==> Window(m)[a].id == Base(m) + a
  }

  ghost predicate EntriesOk(m: Lsq) {
    forall i :: 0 <= i < |m.rob| ==> (m.rob[i].live <==> Live(m, i))
  }

  function RankOf(m: Lsq, i: nat, k: nat): nat
    requires Shape(m) && Live(m, i)
  {
    Rank(Window(m), Age(m.head, |m.rob|, i), k)
  }

  /** The stores in the queue are the oldest ones, and each is in the slot given by its rank. */
  ghost predicate StoreOk(m: Lsq, i: nat, k: nat)
    requires Shape(m) && Live(m, i) && k < NUM_DESTINATIONS
  {
    var e := m.rob[i];
    && (e.destinationAdded[k] <==> e.instr.destinations[k] != 0 && RankOf(m, i, k) < m.sqOccupancy)
    && e.sqIndex[k] ==
         (if e.destinationAdded[k] then Some(At(m.sqHead, |m.sq|, RankOf(m, i, k)) as nat) else None)
    && (e.destinationAdded[k] ==> HoldsStore(m, At(m.sqHead, |m.sq|, RankOf(m, i, k)), i, k))
  }

  /** Slot q of the store queue describes destination k of entry i. */
  predicate HoldsStore(m: Lsq, q: nat, i: nat, k: nat) {
    && q < |m.sq| && i < |m.rob| && k < NUM_DESTINATIONS && m.sq[q].Store?
    && m.sq[q].robIndex == i && m.sq[q].operand == k
    && m.sq[q].address == m.rob[i].instr.destinations[k] && m.sq[q].id == m.rob[i].instr.id
  }

  ghost predicate StoresOk(m: Lsq)
    requires Shape(m)
  {
    forall i: nat, k: nat :: Live(m, i) && k < NUM_DESTINATIONS ==> StoreOk(m, i, k)
  }

  /** A slot is taken exactly when it lies in the circular range, and then its entry points back to it. */
  ghost predicate SlotOk(m: Lsq, q: nat)
    requires q < |m.sq|
  {
    if Age(m.sqHead, |m.sq|, q) < m.sqOccupancy then
      && m.sq[q].Store? && Live(m, m.sq[q].robIndex) && m.sq[q].operand < NUM_DESTINATIONS
      && m.rob[m.sq[q].robIndex].sqIndex[m.sq[q].operand] == Some(q)
    else m.sq[q] == FreeStore
  }

  ghost predicate SlotsOk(m: Lsq) {
    forall q: nat :: q < |m.sq| ==> SlotOk(m, q)
  }

  /** The list holds the ids of the stores that are not in the queue yet, in program order. */
  ghost predicate PendingOk(m: Lsq)
    requires Shape(m)
  {
    Pending(m.sta, Window(m), m.sqOccupancy)
  }

  /** The list holds the ids of all but the first n stores of the window. */
  ghost predicate Pending(sta: seq<nat>, w: seq<MemInstr>, n: nat) {
    && |sta| == StoresBefore(w, |w|) - n
    && forall a: nat, k: nat :: a < |w| && k < NUM_DESTINATIONS ==> PendingStore(sta, w, n, a, k)
  }

  predicate PendingStore(sta: seq<nat>, w: seq<MemInstr>, n: nat, a: nat, k: nat)
    requires a < |w| && k < NUM_DESTINATIONS
  {
    w[a].destinations[k] != 0 && Rank(w, a, k) >= n ==>
      Rank(w, a, k) - n < |sta| && sta[Rank(w, a, k) - n] == w[a].id
  }

  /** Only complete entries are marked so, and their stores are all in the queue. */
  ghost predicate CompletedOk(m: Lsq) {
    forall i :: 0 <= i < |m.rob| && m.rob[i].completed ==> AllAdded(m.rob[i])
  }

  ghost predicate OrderInv(m: Lsq) {
    Shape(m) && IdsOk(m) && EntriesOk(m) && StoresOk(m) && SlotsOk(m) && PendingOk(m) && CompletedOk(m)
  }

  // ---- Consequences ----

  lemma OrderedShape(m: Lsq)
    requires OrderInv(m)
    ensures Shape(m)
  {}

  /** While the queue has room its tail slot is empty. */
  lemma TailIsFree(m: Lsq)
    requires OrderInv(m) && m.sqOccupancy < |m.sq|
    ensures m.sqTail < |m.sq| && m.sq[m.sqTail] == FreeStore
  {
    assert SlotOk(m, m.sqTail);
  }

  /** The list is never longer than the stores that fit in the window. */
  lemma ListIsShort(m: Lsq)
    requires OrderInv(m)
    ensures |m.sta| <= NUM_DESTINATIONS * (|m.rob| + |m.front|)
  {
    StoresAreFew(Window(m), |Window(m)|);
  }

  lemma {:induction false} StoresAreFew(w: seq<MemInstr>, n: nat)
    requires n <= |w|
    ensures StoresBefore(w, n) <= NUM_DESTINATIONS * n
  {
    if n > 0 {
      StoresAreFew(w, n - 1);
    }
  }

  /** The store that may enter the queue next is the oldest one that is not in it. */
  lemma NextStoreIsOldest(m: Lsq, c: nat, k: nat)
    requires OrderInv(m) && CanAddStore(m, c, k)
    ensures RankOf(m, c, k) == m.sqOccupancy
  {
    hide StoresBefore, Rank, SlotsOk, CompletedOk, EntriesOk;
    var w, n := Window(m), m.sqOccupancy;
    var b := Age(m.head, |m.rob|, c);
    WindowAt(m, c);
    RankIsUnique(w, b, k, b, k);
    assert StoreOk(m, c, k);
    assert |m.sta| > 0;
    var a, l := RankExists(w, |w|, n);
    assert PendingStore(m.sta, w, n, a, l);
    assert w[a].id == m.sta[0] == w[b].id;
    assert w[a].id == Base(m) + a && w[b].id == Base(m) + b;
    assert StoreOk(m, c, l);
    RankIsUnique(w, b, k, b, l);
    RankInRange(w, b, k);
    RankInRange(w, b, l);
  }

  lemma WindowAt(m: Lsq, i: nat)
    requires Shape(m) && Live(m, i)
    ensures Age(m.head, |m.rob|, i) < |Window(m)|
    ensures Window(m)[Age(m.head, |m.rob|, i)] == m.rob[i].instr
  {}

  // ---- Steps that do not concern the store order ----

  /** The two states agree on everything that the invariant looks at. */
  predicate SameOrder(m: Lsq, m': Lsq) {
    && |m'.rob| == |m.rob| && m'.head == m.head && m'.tail == m.tail && m'.occupancy == m.occupancy
    && |m'.sq| == |m.sq| && m'.sqHead == m.sqHead && m'.sqTail == m.sqTail && m'.sqOccupancy == m.sqOccupancy
    && m'.sta == m.sta && m'.front == m.front && m'.nextId == m.nextId
    && (forall i :: 0 <= i < |m.rob| ==> SameStores(m.rob[i], m'.rob[i]))
    && (forall q :: 0 <= q < |m.sq| ==> SameSlot(m.sq[q], m'.sq[q]))
  }

  predicate SameStores(e: MemEntry, e': MemEntry) {
    && e'.instr == e.instr && e'.destinationAdded == e.destinationAdded && e'.sqIndex == e.sqIndex
    && e'.live == e.live
    && (e'.completed ==> e.completed || AllAdded(e')) && (AllAdded(e) ==> AllAdded(e'))
  }

  predicate SameSlot(s: StoreSlot, s': StoreSlot) {
    s' == s || (s.Store? && s'.Store? && s' == s.(executed := s'.executed))
  }

  lemma SameWindow(m: Lsq, m': Lsq)
    requires Shape(m) && SameOrder(m, m')
    ensures Shape(m') && Window(m') == Window(m)
  {
    hide SameSlot;
    forall a | 0 <= a < |Window(m)| ensures Window(m')[a] == Window(m)[a] {
      if a < m.occupancy {
        AgesInvert(m.head, |m.rob|, a);
        assert SameStores(m.rob[At(m.head, |m.rob|, a)], m'.rob[At(m.head, |m.rob|, a)]);
      }
    }
  }

  lemma SameStoreOk(m: Lsq, m': Lsq, i: nat, k: nat)
    requires Shape(m) && SameOrder(m, m') && Live(m, i) && k < NUM_DESTINATIONS && StoreOk(m, i, k)
    ensures Shape(m') && Live(m', i) && StoreOk(m', i, k)
  {
    SameWindow(m, m');
    hide Window, Rank;
    assert SameStores(m.rob[i], m'.rob[i]);
    if m.rob[i].destinationAdded[k] {
      var q := At(m.sqHead, |m.sq|, RankOf(m, i, k));
      assert SameSlot(m.sq[q], m'.sq[q]);
    }
  }

  lemma SameSlotOk(m: Lsq, m': Lsq, q: nat)
    requires SameOrder(m, m') && q < |m.sq| && SlotOk(m, q)
    ensures SlotOk(m', q)
  {
    assert SameSlot(m.sq[q], m'.sq[q]);
    if m.sq[q].Store? {
      var i := m.sq[q].robIndex;
      assert i < |m.rob| ==> SameStores(m.rob[i], m'.rob[i]);
    }
  }

  lemma SameOrderKeepsInv(m: Lsq, m': Lsq)
    requires OrderInv(m) && SameOrder(m, m')
    ensures OrderInv(m')
  {
    hide StoreOk, SlotOk, Window, Rank, AllAdded;
    SameWindow(m, m');
    forall i: nat, k: nat | Live(m', i) && k < NUM_DESTINATIONS ensures StoreOk(m', i, k) {
      assert Live(m, i);
      SameStoreOk(m, m', i, k);
    }
    forall q: nat | q < |m'.sq| ensures SlotOk(m', q) {
      SameSlotOk(m, m', q);
    }
    SameEntriesOk(m, m');
  }

  lemma SameEntriesOk(m: Lsq, m': Lsq)
    requires EntriesOk(m) && CompletedOk(m) && SameOrder(m, m')
    ensures EntriesOk(m') && CompletedOk(m')
  {
    hide AllAdded;
    forall i | 0 <= i < |m.rob|
      ensures m'.rob[i].live <==> Live(m', i)
      ensures m'.rob[i].completed ==> AllAdded(m'.rob[i])
    {
      assert SameStores(m.rob[i], m'.rob[i]);
      assert Live(m', i) <==> Live(m, i);
    }
  }
}
