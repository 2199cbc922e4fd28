/** Finishing loads, and executing a store that serves the loads that wait for it. */
module ForwardingServe {
  import opened Counting
  import opened CoreTypes
  import opened LsqModel
  import opened StoreOrder
  import opened StoreOrderSteps
  import opened Forwarding

  // ---- One load leaves the queue ----

  lemma ReleaseFrame(m: Lsq, l: nat, i: nat, address: nat)
    requires Shape(m) && Releasable(m, l) && Live(m, i)
    ensures var m' := ReleaseLoad(m, l);
      && Shape(m') && Live(m', i) && Window(m') == Window(m)
      && ProducerIndex(m', i, address) == ProducerIndex(m, i, address)
      && (forall s: nat :: s < |m.rob| ==> StoreDone(m', s, address) == StoreDone(m, s, address))
  {
    SameWindow(m, ReleaseLoad(m, l));
    ProducerStays(m, ReleaseLoad(m, l), i, address);
  }

  lemma ReleaseKeepsLoads(m: Lsq, l: nat, s0: int, n: int)
    requires Shape(m) && Releasable(m, l) && LoadsOk(m, s0, n)
    ensures Shape(ReleaseLoad(m, l)) && LoadsOk(ReleaseLoad(m, l), s0, n)
  {
    var m' := ReleaseLoad(m, l);
    forall k: nat | k < |m.lq| ensures LoadOk(m', k, s0, n) {
      assert LoadOk(m, k, s0, n);
      if k != l && m.lq[k].Load? {
        ReleaseFrame(m, l, m.lq[k].robIndex, m.lq[k].address);
        ProducerIsStore(m, m.lq[k].robIndex, m.lq[k].address);
      }
    }
  }

  lemma ReleaseKeepsAdded(m: Lsq, l: nat, s0: int, n: int)
    requires Shape(m) && Releasable(m, l) && AddedLoadsOk(m, s0, n)
    requires Live(m, m.lq[l].robIndex) && m.lq[l].operand < NUM_SOURCES
    requires Clear(m, m.lq[l].robIndex, m.lq[l].operand, s0, n)
    ensures Shape(ReleaseLoad(m, l)) && AddedLoadsOk(ReleaseLoad(m, l), s0, n)
  {
    var m' := ReleaseLoad(m, l);
    forall i: nat, j: nat | Live(m', i) && j < NUM_SOURCES ensures AddedOk(m', i, j, s0, n) {
      assert Live(m, i) && AddedOk(m, i, j, s0, n);
      ReleaseFrame(m, l, i, m.rob[i].instr.sources[j]);
    }
  }

  lemma ReleaseKeepsDependents(m: Lsq, l: nat)
    requires Shape(m) && Releasable(m, l) && DependentsOk(m)
    ensures Shape(ReleaseLoad(m, l)) && DependentsOk(ReleaseLoad(m, l))
  {
    var m' := ReleaseLoad(m, l);
    forall s: nat, d: nat | Live(m', s) ensures DependentOk(m', s, d) {
      assert Live(m, s) && DependentOk(m, s, d);
      if d in m.rob[s].dependents {
        forall k | 0 <= k < NUM_DESTINATIONS && m.rob[s].instr.destinations[k] != 0
          ensures ProducerIndex(m', d, m.rob[s].instr.destinations[k]) == Some(s)
        {
          ReleaseFrame(m, l, d, m.rob[s].instr.destinations[k]);
        }
      }
    }
  }

  /** Releasing the load of an operand closes exactly that operation of its instruction. */
  lemma ReleaseKeepsEntryOps(m: Lsq, l: nat, s0: int, n: int, i: nat)
    requires Shape(m) && Releasable(m, l) && LoadOk(m, l, s0, n) && i < |m.rob| && EntryOpsOk(m, i)
    ensures EntryOpsOk(ReleaseLoad(m, l), i)
  {
    var m', j := ReleaseLoad(m, l), m.lq[l].operand;
    assert OpenStores(m', i) == OpenStores(m, i);
    if i == m.lq[l].robIndex {
      assert OpenLoads(m, i)[j];
      assert OpenLoads(m', i) == OpenLoads(m, i)[j := false];
      CountUpdate(OpenLoads(m, i), j, false);
    } else {
      assert OpenLoads(m', i) == OpenLoads(m, i);
    }
  }

  lemma ReleaseKeepsCount(m: Lsq, l: nat)
    requires Releasable(m, l) && m.lqOccupancy == Count(InUse(m.lq))
    ensures ReleaseLoad(m, l).lqOccupancy == Count(InUse(ReleaseLoad(m, l).lq))
  {
    assert InUse(ReleaseLoad(m, l).lq) == InUse(m.lq)[l := false];
    CountUpdate(InUse(m.lq), l, false);
  }

  /** A load that nothing holds back may leave the queue; only its own slot changes. */
  lemma ReleaseKeepsInv(m: Lsq, l: nat, s0: int, n: int, n': int)
    requires ServingInv(m, s0, n) && n <= n' && Releasable(m, l) && m.lq[l].operand < NUM_SOURCES
    requires Live(m, m.lq[l].robIndex) && Clear(m, m.lq[l].robIndex, m.lq[l].operand, s0, n')
    ensures var m' := ReleaseLoad(m, l);
      && OrderInv(m') && SingleStores(m') && LoadsOk(m', s0, n) && AddedLoadsOk(m', s0, n')
      && DependentsOk(m') && OpsOk(m') && m'.lqOccupancy == Count(InUse(m'.lq))
  {
    hide LoadOk, AddedOk, DependentsOk, EntryOpsOk, Clear, InUse;
    var m' := ReleaseLoad(m, l);
    OrderedShape(m);
    ReleaseLoadKeepsOrder(m, l);
    SameWindow(m, m');
    hide OrderInv, SameOrder, Window;
    ReleaseKeepsLoads(m, l, s0, n);
    AddedLater(m, s0, n, n');
    ReleaseKeepsAdded(m, l, s0, n');
    ReleaseKeepsDependents(m, l);
    ReleaseKeepsCount(m, l);
    assert LoadOk(m, l, s0, n);
    forall i: nat | Live(m', i) ensures EntryOpsOk(m', i) {
      assert Live(m, i);
      ReleaseKeepsEntryOps(m, l, s0, n, i);
    }
  }

  lemma AddedLater(m: Lsq, s0: int, n: int, n': int)
    requires Shape(m) && AddedLoadsOk(m, s0, n) && n <= n'
    ensures AddedLoadsOk(m, s0, n')
  {
    forall i: nat, j: nat | Live(m, i) && j < NUM_SOURCES ensures AddedOk(m, i, j, s0, n') {
      assert AddedOk(m, i, j, s0, n);
    }
  }

  lemma FinishLoadKeepsForwarding(m: Lsq, l: nat)
    requires ForwardInv(m) && CanFinishLoad(m, l)
    ensures m.lq[l].robIndex < |m.rob| && ForwardInv(ReleaseLoad(m, l))
  {
    OrderedShape(m);
    assert LoadOk(m, l, -1, 0);
    ReleaseKeepsInv(m, l, -1, 0, 0);
  }

  // ---- The store's own operation ----

  /** The entry and operand of the store in slot q. */
  lemma ExecutingStore(m: Lsq, q: nat)
    requires OrderInv(m) && CanExecuteStore(m, q)
    ensures var s, k := m.sq[q].robIndex, m.sq[q].operand;
      && Live(m, s) && k < NUM_DESTINATIONS && m.rob[s].sqIndex[k] == Some(q)
      && m.sq[q].address == m.rob[s].instr.destinations[k] != 0 && m.sq[q].id == m.rob[s].instr.id
      && forall i: nat, h: nat :: Live(m, i) && h < NUM_DESTINATIONS && m.rob[i].sqIndex[h] == Some(q) ==>
           i == s && h == k
  {
    hide PendingOk, IdsOk, EntriesOk, CompletedOk, Window, Rank;
    assert SlotOk(m, q);
    assert StoreOk(m, m.sq[q].robIndex, m.sq[q].operand);
    forall i: nat, h: nat | Live(m, i) && h < NUM_DESTINATIONS && m.rob[i].sqIndex[h] == Some(q)
      ensures i == m.sq[q].robIndex && h == m.sq[q].operand
    {
      assert StoreOk(m, i, h);
    }
  }

  /** Marking the store executed changes the state of this one operand only. */
  lemma MarkedOperands(m: Lsq, q: nat, i: nat, k: nat)
    requires OrderInv(m) && CanExecuteStore(m, q) && Live(m, i) && k < NUM_DESTINATIONS
    ensures OperandDone(MarkExecuted(m, q), i, k)
      == (OperandDone(m, i, k) || (i == m.sq[q].robIndex && k == m.sq[q].operand))
    ensures i == m.sq[q].robIndex && k == m.sq[q].operand ==> !OperandDone(m, i, k)
  {
    ExecutingStore(m, q);
  }

  lemma MarkFrame(m: Lsq, q: nat)
    requires OrderInv(m) && CanExecuteStore(m, q)
    ensures var m' := MarkExecuted(m, q);
      && OrderInv(m') && Shape(m) && Shape(m') && Window(m') == Window(m) && m'.sq[q].executed
      && forall i: nat :: Live(m', i) <==> Live(m, i)
  {
    SameOrderKeepsInv(m, MarkExecuted(m, q));
    SameWindow(m, MarkExecuted(m, q));
  }

  lemma MarkKeepsLoad(m: Lsq, q: nat, l: nat)
    requires OrderInv(m) && CanExecuteStore(m, q) && l < |m.lq| && LoadOk(m, l, -1, 0)
    ensures Shape(MarkExecuted(m, q)) && LoadOk(MarkExecuted(m, q), l, m.sq[q].robIndex, 0)
  {
    MarkFrame(m, q);
    hide OrderInv, Window;
    match m.lq[l]
    case FreeLoad =>
    case Load(i, j, address, id, producer) =>
      ProducerStays(m, MarkExecuted(m, q), i, address);
      ProducerIsStore(m, i, address);
      match ProducerIndex(m, i, address)
      case None =>
      case Some(s) =>
        MarkedOperands(m, q, s, 0);
        MarkedOperands(m, q, s, 1);
  }

  lemma MarkKeepsAdded(m: Lsq, q: nat, i: nat, j: nat)
    requires ForwardInv(m) && CanExecuteStore(m, q) && Live(m, i) && j < NUM_SOURCES && AddedOk(m, i, j, -1, 0)
    ensures Shape(MarkExecuted(m, q)) && AddedOk(MarkExecuted(m, q), i, j, m.sq[q].robIndex, 0)
  {
    hide LoadsOk, AddedLoadsOk, DependentsOk, OpsOk;
    MarkFrame(m, q);
    var address := m.rob[i].instr.sources[j];
    ProducerStays(m, MarkExecuted(m, q), i, address);
    ProducerIsStore(m, i, address);
    ExecutingStore(m, q);
    IsSingle(m, m.sq[q].robIndex);
    match ProducerIndex(m, i, address)
    case None =>
    case Some(s) =>
      MarkedOperands(m, q, s, 0);
      MarkedOperands(m, q, s, 1);
  }

  lemma MarkKeepsDependents(m: Lsq, q: nat)
    requires OrderInv(m) && DependentsOk(m) && CanExecuteStore(m, q)
    ensures Shape(MarkExecuted(m, q)) && DependentsOk(MarkExecuted(m, q))
  {
    hide DependentOk;
    MarkFrame(m, q);
    hide OrderInv;
    var m' := MarkExecuted(m, q);
    forall s: nat, d: nat | Live(m', s) ensures DependentOk(m', s, d) {
      assert Live(m, s) && DependentOk(m, s, d);
      MarkKeepsDependent(m, q, s, d);
    }
  }

  lemma MarkKeepsDependent(m: Lsq, q: nat, s: nat, d: nat)
    requires OrderInv(m) && CanExecuteStore(m, q) && Live(m, s) && DependentOk(m, s, d)
    ensures Shape(MarkExecuted(m, q)) && DependentOk(MarkExecuted(m, q), s, d)
  {
    MarkFrame(m, q);
    hide OrderInv, Window, YoungestStore;
    if d in m.rob[s].dependents {
      forall k | 0 <= k < NUM_DESTINATIONS && m.rob[s].instr.destinations[k] != 0
        ensures ProducerIndex(MarkExecuted(m, q), d, m.rob[s].instr.destinations[k]) == Some(s)
      {
        ProducerStays(m, MarkExecuted(m, q), d, m.rob[s].instr.destinations[k]);
      }
    }
  }

  lemma MarkKeepsOps(m: Lsq, q: nat, i: nat)
    requires OrderInv(m) && CanExecuteStore(m, q) && Live(m, i) && EntryOpsOk(m, i)
    ensures EntryOpsOk(MarkExecuted(m, q), i)
  {
    ExecutingStore(m, q);
    var m' := MarkExecuted(m, q);
    MarkedOperands(m, q, i, 0);
    MarkedOperands(m, q, i, 1);
    hide OrderInv, OperandDone;
    assert OpenLoads(m', i) == OpenLoads(m, i);
    if i == m.sq[q].robIndex {
      var k := m.sq[q].operand;
      assert OpenStores(m', i) == OpenStores(m, i)[k := false];
      CountUpdate(OpenStores(m, i), k, false);
    } else {
      assert OpenStores(m', i) == OpenStores(m, i);
    }
  }

  lemma MarkKeepsInv(m: Lsq, q: nat)
    requires ForwardInv(m) && CanExecuteStore(m, q)
    ensures ServingInv(MarkExecuted(m, q), m.sq[q].robIndex, 0)
  {
    hide OrderInv, LoadOk, AddedOk, DependentsOk, EntryOpsOk, Window, InUse;
    MarkFrame(m, q);
    MarkKeepsDependents(m, q);
    var m' := MarkExecuted(m, q);
    forall l: nat | l < |m'.lq| ensures LoadOk(m', l, m.sq[q].robIndex, 0) {
      MarkKeepsLoad(m, q, l);
    }
    forall i: nat, j: nat | Live(m', i) && j < NUM_SOURCES ensures AddedOk(m', i, j, m.sq[q].robIndex, 0) {
      MarkKeepsAdded(m, q, i, j);
    }
    forall i: nat | Live(m', i) ensures EntryOpsOk(m', i) {
      MarkKeepsOps(m, q, i);
    }
  }

  // ---- Serving the waiting loads ----

  /** The store in slot q has been marked executed, and its instruction is still in the buffer. */
  ghost predicate Executing(m: Lsq, q: nat) {
    && q < |m.sq| && m.sq[q].Store? && m.sq[q].executed && Live(m, m.sq[q].robIndex)
    && m.sq[q].operand < NUM_DESTINATIONS
    && m.rob[m.sq[q].robIndex].sqIndex[m.sq[q].operand] == Some(q)
    && m.sq[q].address == m.rob[m.sq[q].robIndex].instr.destinations[m.sq[q].operand] != 0
    && m.sq[q].id == m.rob[m.sq[q].robIndex].instr.id
  }

  /** A matching operand is still in the queue, in the slot it names, with this store as producer. */
  lemma MatchIsWaiting(m: Lsq, q: nat, d: nat, j: nat)
    requires Executing(m, q) && d < |m.rob| && j < NUM_SOURCES
    requires ServingInv(m, m.sq[q].robIndex, d * NUM_SOURCES + j) && Matches(m, q, d, j)
    ensures Live(m, d) && WaitsFor(m, q, d, j)
    ensures Holds(m, m.rob[d].lqIndex[j].value, d, j)
    ensures ProducerIndex(m, d, m.rob[d].instr.sources[j]) == Some(m.sq[q].robIndex)
  {
    hide OpsOk, InUse, SingleStores;
    var s := m.sq[q].robIndex;
    OrderedShape(m);
    hide OrderInv, Window, YoungestStore;
    assert DependentOk(m, s, d);
    assert ProducerIndex(m, d, m.sq[q].address) == Some(s);
    assert AddedOk(m, d, j, s, d * NUM_SOURCES + j);
    var l := m.rob[d].lqIndex[j].value;
    assert Holds(m, l, d, j);
    assert LoadOk(m, l, s, d * NUM_SOURCES + j);
  }

  /** A load that waits for the executing store and is next in turn matches it. */
  lemma WaitingMatches(m: Lsq, q: nat, l: nat, s0: int, n: int)
    requires Executing(m, q) && OrderInv(m) && SingleStores(m) && l < |m.lq| && LoadOk(m, l, s0, n)
    requires m.lq[l].Load? && ProducerIndex(m, m.lq[l].robIndex, m.lq[l].address) == Some(m.sq[q].robIndex)
    ensures m.lq[l].operand < NUM_SOURCES && Matches(m, q, m.lq[l].robIndex, m.lq[l].operand)
  {
    var s := m.sq[q].robIndex;
    hide PendingOk, IdsOk, EntriesOk, CompletedOk, SlotsOk, StoresOk;
    ProducerIsStore(m, m.lq[l].robIndex, m.lq[l].address);
    IsSingle(m, s);
  }

  /** The number of the operand that a slot holds, in the order in which operands are served. */
  function Number(m: Lsq, l: nat): int
    requires l < |m.lq|
  {
    if m.lq[l].Load? then m.lq[l].robIndex * NUM_SOURCES + m.lq[l].operand else -1
  }

  predicate MatchesLoad(m: Lsq, q: nat, l: nat)
    requires Executing(m, q) && l < |m.lq|
  {
    && m.lq[l].Load? && m.lq[l].operand < NUM_SOURCES && m.lq[l].robIndex < |m.rob|
    && Matches(m, q, m.lq[l].robIndex, m.lq[l].operand)
  }

  /** Once operand number n has been served, only later operands may still wait for the store. */
  lemma ServedUpTo(m: Lsq, q: nat, n: nat)
    requires Executing(m, q) && OrderInv(m) && SingleStores(m) && n < |m.rob| * NUM_SOURCES
    requires LoadsOk(m, m.sq[q].robIndex, n)
    requires forall l: nat :: l < |m.lq| && Number(m, l) == n ==> !MatchesLoad(m, q, l)
    ensures LoadsOk(m, m.sq[q].robIndex, n + 1)
  {
    OrderedShape(m);
    var s, n' := m.sq[q].robIndex, n + 1;
    forall l: nat | l < |m.lq| ensures LoadOk(m, l, s, n') {
      assert LoadOk(m, l, s, n);
      if m.lq[l].Load? && ProducerIndex(m, m.lq[l].robIndex, m.lq[l].address) == Some(s) {
        WaitingMatches(m, q, l, s, n);
        assert MatchesLoad(m, q, l) && Number(m, l) != n;
      }
    }
  }

  lemma ServeKeepsInv(m: Lsq, q: nat, d: nat, j: nat)
    requires Executing(m, q) && d < |m.rob| && j < NUM_SOURCES
    requires ServingInv(m, m.sq[q].robIndex, d * NUM_SOURCES + j)
    ensures Serve(m, q, d, j).Some?
    ensures var m' := Serve(m, q, d, j).value;
      && ServingInv(m', m.sq[q].robIndex, d * NUM_SOURCES + j + 1) && Executing(m', q)
      && ServedLoads(m, m', m.sq[q].id, d, j)
      && m'.sq == m.sq && |m'.rob| == |m.rob|
  {
    var s, n := m.sq[q].robIndex, d * NUM_SOURCES + j;
    OrderedShape(m);
    hide OrderInv, LoadOk, AddedOk, DependentsOk, OpsOk, InUse, Window, SingleStores;
    NumbersAreUnique(m, d, j, s, n);
    if Matches(m, q, d, j) {
      ServeMatching(m, q, d, j);
      OnlyOneSlot(m, m.rob[d].lqIndex[j].value, d, j, s, n);
    } else {
      ServedUpTo(m, q, n);
      AddedLater(m, s, n, n + 1);
      NothingServed(m, q, d, j);
    }
  }

  /** The load of operand j of entry d leaves the queue if it waits for this producer; the others stay. */
  ghost predicate ServedLoads(m: Lsq, m': Lsq, producer: nat, d: nat, j: nat) {
    && |m'.lq| == |m.lq|
    && forall l: nat :: l < |m.lq| ==>
         m'.lq[l] == if Holds(m, l, d, j) && m.lq[l].producer == Some(producer) then FreeLoad else m.lq[l]
  }

  /** An operand that does not match the executing store does not wait for it either. */
  lemma NothingServed(m: Lsq, q: nat, d: nat, j: nat)
    requires Executing(m, q) && d < |m.rob| && j < NUM_SOURCES && !Matches(m, q, d, j)
    requires OrderInv(m) && SingleStores(m) && LoadsOk(m, m.sq[q].robIndex, d * NUM_SOURCES + j)
    ensures ServedLoads(m, m, m.sq[q].id, d, j)
  {
    var s, n := m.sq[q].robIndex, d * NUM_SOURCES + j;
    OrderedShape(m);
    forall l: nat | l < |m.lq| && Holds(m, l, d, j) ensures m.lq[l].producer != Some(m.sq[q].id) {
      assert LoadOk(m, l, s, n);
      ProducerIsNamed(m, l, s, n, s);
      if m.lq[l].producer == Some(m.sq[q].id) {
        WaitingMatches(m, q, l, s, n);
      }
    }
  }

  /** A load names a producer by its id, which identifies the entry. */
  lemma ProducerIsNamed(m: Lsq, l: nat, s0: int, n: int, s: nat)
    requires OrderInv(m) && l < |m.lq| && LoadOk(m, l, s0, n) && m.lq[l].Load? && Live(m, s)
    ensures m.lq[l].producer == Some(m.rob[s].instr.id) <==>
      ProducerIndex(m, m.lq[l].robIndex, m.lq[l].address) == Some(s)
  {
    hide PendingOk, EntriesOk, CompletedOk, SlotsOk, StoresOk, YoungestStore;
    ProducerIsStore(m, m.lq[l].robIndex, m.lq[l].address);
    match ProducerIndex(m, m.lq[l].robIndex, m.lq[l].address)
    case None =>
    case Some(p) => IdsAreUnique(m, p, s);
  }

  lemma IdsAreUnique(m: Lsq, i: nat, j: nat)
    requires Shape(m) && IdsOk(m) && Live(m, i) && Live(m, j)
    ensures m.rob[i].instr.id == m.rob[j].instr.id ==> i == j
  {
    WindowAt(m, i);
    WindowAt(m, j);
    AgesInvert(m.head, |m.rob|, i);
    AgesInvert(m.head, |m.rob|, j);
    hide Window;
    assert Window(m)[Age(m.head, |m.rob|, i)].id == Base(m) + Age(m.head, |m.rob|, i);
    assert Window(m)[Age(m.head, |m.rob|, j)].id == Base(m) + Age(m.head, |m.rob|, j);
  }

  lemma NumbersAreUnique(m: Lsq, d: nat, j: nat, s: int, n: int)
    requires Shape(m) && j < NUM_SOURCES && LoadsOk(m, s, n)
    ensures forall l: nat :: l < |m.lq| && Number(m, l) == d * NUM_SOURCES + j ==> Holds(m, l, d, j)
  {
    forall l: nat | l < |m.lq| && Number(m, l) == d * NUM_SOURCES + j ensures Holds(m, l, d, j) {
      assert LoadOk(m, l, s, n);
    }
  }

  lemma ServeMatching(m: Lsq, q: nat, d: nat, j: nat)
    requires Executing(m, q) && d < |m.rob| && j < NUM_SOURCES && Matches(m, q, d, j)
    requires ServingInv(m, m.sq[q].robIndex, d * NUM_SOURCES + j)
    ensures WaitsFor(m, q, d, j)
    ensures var l := m.rob[d].lqIndex[j].value;
      var m' := ReleaseLoad(m, l);
      && Holds(m, l, d, j)
      && ServingInv(m', m.sq[q].robIndex, d * NUM_SOURCES + j + 1) && Executing(m', q)
  {
    hide InUse, SingleStores, Window, LoadOk, AddedOk, DependentsOk, OpsOk;
    var s, n := m.sq[q].robIndex, d * NUM_SOURCES + j;
    OrderedShape(m);
    MatchIsWaiting(m, q, d, j);
    var l := m.rob[d].lqIndex[j].value;
    hide OrderInv;
    ExecutedIsDone(m, q);
    MatchIsClear(m, q, d, j);
    ReleaseKeepsInv(m, l, s, n, n + 1);
    ServedThis(m, q, d, j, l);
  }

  lemma MatchIsClear(m: Lsq, q: nat, d: nat, j: nat)
    requires Shape(m) && Executing(m, q) && Live(m, d) && j < NUM_SOURCES && Matches(m, q, d, j)
    requires ProducerIndex(m, d, m.rob[d].instr.sources[j]) == Some(m.sq[q].robIndex)
    ensures Clear(m, d, j, m.sq[q].robIndex, d * NUM_SOURCES + j + 1)
  {}

  lemma ServedThis(m: Lsq, q: nat, d: nat, j: nat, l: nat)
    requires Executing(m, q) && Shape(m) && d < |m.rob| && j < NUM_SOURCES && Holds(m, l, d, j)
    requires LoadsOk(m, m.sq[q].robIndex, d * NUM_SOURCES + j)
    requires var m' := ReleaseLoad(m, l);
      OrderInv(m') && SingleStores(m') && LoadsOk(m', m.sq[q].robIndex, d * NUM_SOURCES + j)
    ensures Executing(ReleaseLoad(m, l), q)
    ensures LoadsOk(ReleaseLoad(m, l), m.sq[q].robIndex, d * NUM_SOURCES + j + 1)
  {
    hide OrderInv, SingleStores, LoadsOk;
    var m', s, n := ReleaseLoad(m, l), m.sq[q].robIndex, d * NUM_SOURCES + j;
    assert Shape(m') && Executing(m', q);
    NumbersAreUnique(m', d, j, s, n);
    OnlyOneSlot(m, l, d, j, s, n);
    forall k: nat | k < |m'.lq| ensures Number(m', k) != n {
      assert Holds(m', k, d, j) ==> Holds(m, k, d, j);
    }
    ServedUpTo(m', q, n);
  }

  lemma ExecutedIsDone(m: Lsq, q: nat)
    requires Executing(m, q)
    ensures StoreDone(m, m.sq[q].robIndex, m.sq[q].address)
  {}

  /** No other slot holds the same operand. */
  lemma OnlyOneSlot(m: Lsq, l: nat, d: nat, j: nat, s: int, n: int)
    requires Shape(m) && LoadsOk(m, s, n) && Holds(m, l, d, j)
    ensures forall k: nat :: k < |m.lq| && k != l ==> !Holds(m, k, d, j)
  {
    assert LoadOk(m, l, s, n);
    forall k: nat | k < |m.lq| && k != l ensures !Holds(m, k, d, j) {
      assert LoadOk(m, k, s, n);
    }
  }

  // ---- The whole execution ----

  /** Of the loads below number n, those that wait for the producer left the queue; no other slot changed. */
  ghost predicate ServedBelow(m: Lsq, m': Lsq, producer: nat, n: int) {
    && |m'.lq| == |m.lq|
    && forall l: nat :: l < |m.lq| ==>
         m'.lq[l] == if m.lq[l].Load? && Number(m, l) < n && m.lq[l].producer == Some(producer) then FreeLoad
                     else m.lq[l]
  }

  lemma {:induction false} ServeUpToKeepsInv(m: Lsq, q: nat, n: nat)
    requires Executing(m, q) && ServingInv(m, m.sq[q].robIndex, 0) && n <= |m.rob| * NUM_SOURCES
    ensures ServeUpTo(m, q, n).Some?
    ensures var m' := ServeUpTo(m, q, n).value;
      && Executing(m', q) && ServingInv(m', m.sq[q].robIndex, n)
      && ServedBelow(m, m', m.sq[q].id, n)
  {
    hide ServingInv;
    if n == 0 {
      NothingBelow(m, q);
    } else {
      ServeUpToKeepsInv(m, q, n - 1);
      var m1 := ServeUpTo(m, q, n - 1).value;
      var d, j := (n - 1) / NUM_SOURCES, (n - 1) % NUM_SOURCES;
      assert d * NUM_SOURCES + j == n - 1;
      ServeKeepsInv(m1, q, d, j);
      OperandsInRange(m, q);
      ServedOneMore(m, m1, Serve(m1, q, d, j).value, m.sq[q].id, d, j);
    }
  }

  lemma OperandsInRange(m: Lsq, q: nat)
    requires Executing(m, q) && ServingInv(m, m.sq[q].robIndex, 0)
    ensures forall l: nat :: l < |m.lq| && m.lq[l].Load? ==> m.lq[l].operand < NUM_SOURCES
  {
    OrderedShape(m);
    forall l: nat | l < |m.lq| && m.lq[l].Load? ensures m.lq[l].operand < NUM_SOURCES {
      assert LoadOk(m, l, m.sq[q].robIndex, 0);
    }
  }

  lemma NothingBelow(m: Lsq, q: nat)
    requires Executing(m, q)
    ensures ServedBelow(m, m, m.sq[q].id, 0)
  {}

  lemma ServedOneMore(m: Lsq, m1: Lsq, m2: Lsq, producer: nat, d: nat, j: nat)
    requires j < NUM_SOURCES && forall l: nat :: l < |m.lq| && m.lq[l].Load? ==> m.lq[l].operand < NUM_SOURCES
    requires ServedBelow(m, m1, producer, d * NUM_SOURCES + j) && ServedLoads(m1, m2, producer, d, j)
    ensures ServedBelow(m, m2, producer, d * NUM_SOURCES + j + 1)
  {
    forall l: nat | l < |m.lq|
      ensures m2.lq[l] ==
        if m.lq[l].Load? && Number(m, l) < d * NUM_SOURCES + j + 1 && m.lq[l].producer == Some(producer)
        then FreeLoad else m.lq[l]
    {
      if m.lq[l].Load? && Number(m, l) == d * NUM_SOURCES + j {
        assert Holds(m, l, d, j);
      }
      assert Holds(m1, l, d, j) ==> Holds(m, l, d, j);
    }
  }

  /**
   Executing a store never fails its producer check, and the loads that leave the queue are exactly
   those that name the store as their producer.
   */
  lemma ExecuteStoreServesItsLoads(m: Lsq, q: nat)
    requires ForwardInv(m) && CanExecuteStore(m, q)
    ensures ExecuteStore(m, q).Some? && ForwardInv(ExecuteStore(m, q).value)
    ensures var m' := ExecuteStore(m, q).value;
      && |m'.lq| == |m.lq|
      && forall l: nat :: l < |m.lq| ==>
           m'.lq[l] == if m.lq[l].Load? && m.lq[l].producer == Some(m.sq[q].id) then FreeLoad else m.lq[l]
  {
    var m1, n, s := MarkExecuted(m, q), |m.rob| * NUM_SOURCES, m.sq[q].robIndex;
    MarkKeepsInv(m, q);
    assert Executing(m1, q) by { ExecutingStore(m, q); }
    ServeUpToKeepsInv(m1, q, n);
    var m' := ServeUpTo(m1, q, n).value;
    NumbersAreSmall(m1, s, 0);
    hide ServeUpTo, OrderInv, AddedOk, DependentsOk, OpsOk, SingleStores, InUse, Window, LoadOk;
    AllServed(m', s, n);
  }

  lemma NumbersAreSmall(m: Lsq, s0: int, n: int)
    requires ServingInv(m, s0, n)
    ensures forall l: nat :: l < |m.lq| ==> Number(m, l) < |m.rob| * NUM_SOURCES
  {
    OrderedShape(m);
    forall l: nat | l < |m.lq| ensures Number(m, l) < |m.rob| * NUM_SOURCES {
      assert LoadOk(m, l, s0, n);
    }
  }

  /** When every operand has had its turn, the exception for the executing store is void. */
  lemma AllServed(m: Lsq, s0: nat, n: nat)
    requires ServingInv(m, s0, n) && n == |m.rob| * NUM_SOURCES
    ensures ForwardInv(m)
  {
    OrderedShape(m);
    hide OrderInv, Window, YoungestStore;
    forall l: nat | l < |m.lq| ensures LoadOk(m, l, -1, 0) {
      assert LoadOk(m, l, s0, n);
    }
    forall i: nat, j: nat | Live(m, i) && j < NUM_SOURCES ensures AddedOk(m, i, j, -1, 0) {
      assert AddedOk(m, i, j, s0, n);
    }
  }

  /** Besides freeing load slots, serving changes nothing but operation counts. */
  lemma {:induction false} ServingCounts(m: Lsq, q: nat, n: nat)
    requires q < |m.sq| && m.sq[q].Store? && m.sq[q].robIndex < |m.rob| && n <= |m.rob| * NUM_SOURCES
    requires ServeUpTo(m, q, n).Some?
    ensures OnlyCounts(m, ServeUpTo(m, q, n).value)
  {
    if n > 0 {
      ServingCounts(m, q, n - 1);
    }
  }

  predicate OnlyCounts(m: Lsq, m': Lsq) {
    && |m'.rob| == |m.rob| && (forall i :: 0 <= i < |m.rob| ==> m'.rob[i] == m.rob[i].(numOps := m'.rob[i].numOps))
    && m' == m.(rob := m'.rob, lq := m'.lq, lqOccupancy := m'.lqOccupancy)
  }

  /** An executed store is marked so, and besides the loads served and the counts nothing else changes. */
  lemma ExecuteStoreMarks(m: Lsq, q: nat)
    requires CanExecuteStore(m, q) && ExecuteStore(m, q).Some?
    ensures var m' := ExecuteStore(m, q).value;
      && m'.sq == m.sq[q := m.sq[q].(executed := true)]
      && OnlyCounts(m.(sq := m'.sq), m')
  {
    ServingCounts(MarkExecuted(m, q), q, |m.rob| * NUM_SOURCES);
  }
}
