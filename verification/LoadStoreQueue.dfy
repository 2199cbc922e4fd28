/** The load and store queues, updated in place. */
module LoadStoreQueue {
  import opened Counting
  import opened CoreTypes
  import opened Rings
  import opened LsqModel
  import opened StoreOrder
  import opened StoreOrderSteps
  import opened Forwarding
  import opened ForwardingServe
  import opened ForwardingAdd
  import opened ForwardingRetire
  import opened LsqAdding
  import LsqRun

  class MemoryUnit {
    const rob: array<MemEntry>
    const lq: array<LoadSlot>
    const sq: array<StoreSlot>
    const sta: SentinelRing
    var head: nat
    var tail: nat
    var occupancy: nat
    var lqOccupancy: int
    var sqHead: nat
    var sqTail: nat
    var sqOccupancy: nat
    var front: seq<MemInstr>
    var nextId: nat

    ghost function View(): Lsq
      reads this, rob, lq, sq, sta
    {
      Lsq(rob[..], head, tail, occupancy, lq[..], lqOccupancy, sq[..], sqHead, sqTail, sqOccupancy,
          sta.queue, front, nextId)
    }

    ghost predicate Valid()
      reads this, rob, lq, sq, sta, sta.slot
    {
      sta.Valid() && Shape(View())
    }

    constructor (robSize: nat, lqSize: nat, sqSize: nat, staSize: nat, maxId: nat)
      requires robSize > 0 && sqSize > 0 && staSize > 0
      ensures Valid() && View() == LsqRun.EmptyLsq(robSize, lqSize, sqSize)
      ensures sta.slot.Length == staSize && sta.empty == maxId
    {
      rob := new MemEntry[robSize](_ => EMPTY_ENTRY);
      lq := new LoadSlot[lqSize](_ => FreeLoad);
      sq := new StoreSlot[sqSize](_ => FreeStore);
      sta := new SentinelRing(staSize, maxId);
      head, tail, occupancy, lqOccupancy, sqHead, sqTail, sqOccupancy := 0, 0, 0, 0, 0, 0, 0;
      front, nextId := [], 0;
    }

    // ---- Reading and dispatching ----

    /** Read an instruction, and list each of its stores in the store array. */
    method ReadInstruction(x: MemInstr)
      requires Valid() && x.id == nextId < sta.empty && |sta.queue| + NUM_DESTINATIONS <= sta.slot.Length
      modifies this, sta, sta.slot
      ensures Valid() && View() == Read(old(View()), x)
    {
      hide IsStore;
      for k := 0 to NUM_DESTINATIONS
        invariant sta.Valid() && unchanged(this)
        invariant sta.queue == old(sta.queue) + seq(Count(IsStore(x)[..k]), i => x.id)
        invariant Count(IsStore(x)[..k]) <= k
      {
        StoreSlotCounts(x, k);
        if x.destinations[k] != 0 {
          sta.Add(x.id);
        }
      }
      assert IsStore(x)[..NUM_DESTINATIONS] == IsStore(x);
      front := front + [x];
      nextId := nextId + 1;
    }

    method DispatchInstruction()
      requires Valid() && CanDispatch(View())
      modifies this, rob
      ensures Valid() && View() == Dispatch(old(View())) && front == old(front)[1..]
      ensures rob[..] == old(rob[..])[old(tail) := Fresh(old(front)[0])] && occupancy == old(occupancy) + 1
    {
      ghost var m := View();
      DispatchKeepsWindow(m);
      rob[tail] := Fresh(front[0]);
      assert rob[..] == m.rob[m.tail := Fresh(m.front[0])];
      occupancy := occupancy + 1;
      tail := tail + 1;
      if tail >= rob.Length { tail := 0; }
      front := front[1..];
    }

    // ---- Stores ----

    method AddStoreQueue(c: nat, k: nat)
      requires Valid() && OrderInv(View()) && CanAddStore(View(), c, k)
      modifies this, rob, sq, sta, sta.slot
      ensures Valid() && View() == AddStore(old(View()), c, k)
    {
      ghost var m := View();
      TailIsFree(m);
      AddStoreShape(m, c, k);
      hide OrderInv, Window;
      assert sq[sqTail] == FreeStore;
      var q := sqTail;
      rob[c] := rob[c].(sqIndex := rob[c].sqIndex[k := Some(q)]);
      sq[q] := Store(c, k, rob[c].instr.destinations[k], rob[c].instr.id, false);
      sqOccupancy := sqOccupancy + 1;
      sqTail := sqTail + 1;
      if sqTail == sq.Length { sqTail := 0; }
      rob[c] := rob[c].(destinationAdded := rob[c].destinationAdded[k := true]);
      sta.Remove();
    }

    // ---- Loads ----

    method FindFreeSlot() returns (l: nat)
      ensures l == FreeSlot(lq[..], 0)
    {
      l := 0;
      while l < lq.Length && lq[l] != FreeLoad
        invariant l <= lq.Length && FreeSlot(lq[..], 0) == FreeSlot(lq[..], l)
      {
        l := l + 1;
      }
    }

    method FindForwardingSlot(address: nat, id: nat) returns (q: nat)
      ensures q == ForwardingSlot(sq[..], address, id, 0)
    {
      q := 0;
      while q < sq.Length
        invariant q <= sq.Length && ForwardingSlot(sq[..], address, id, 0) == ForwardingSlot(sq[..], address, id, q)
      {
        if sq[q].Store? && sq[q].address == address && sq[q].id == id {
          return;
        }
        q := q + 1;
      }
    }

    /** If entry prior stores to the address in slot l, make it the producer of that load of entry c. */
    method MemRawDependency(prior: nat, c: nat, l: nat) returns (found: bool)
      requires prior < rob.Length && l < lq.Length && lq[l].Load? && lq[l].address != 0
      modifies rob, lq
      ensures found == WritesTo(old(rob[prior].instr), old(lq[l].address))
      ensures rob[..] == if found then old(rob[..])[prior := Feeding(old(rob[prior]), c)] else old(rob[..])
      ensures lq[..] ==
        if found then old(lq[..])[l := old(lq[l]).(producer := Some(old(rob[prior].instr.id)))] else old(lq[..])
    {
      var d := rob[prior].instr.destinations;
      for k := 0 to NUM_DESTINATIONS
        invariant rob[..] == old(rob[..]) && lq[..] == old(lq[..])
        invariant lq[l].address !in d[..k]
      {
        if d[k] == lq[l].address {
          rob[prior] := rob[prior].(dependents := rob[prior].dependents + {c});
          lq[l] := lq[l].(producer := Some(rob[prior].instr.id));
          return true;
        }
      }
      assert d[..NUM_DESTINATIONS] == d;
      return false;
    }

    /** Look for the producer among the entries from..to, which have consecutive ages, youngest first. */
    method SearchRange(from: nat, to: nat, c: nat, l: nat) returns (p: Option<nat>)
      requires to <= from < rob.Length && l < lq.Length && lq[l].Load? && lq[l].address != 0
      modifies rob, lq
      ensures match p
        case None =>
          && rob[..] == old(rob[..]) && lq[..] == old(lq[..])
          && forall i :: to <= i <= from ==> !WritesTo(rob[i].instr, lq[l].address)
        case Some(i) =>
          && to <= i <= from && WritesTo(old(rob[i].instr), old(lq[l].address))
          && (forall h :: i < h <= from ==> !WritesTo(old(rob[h].instr), old(lq[l].address)))
          && rob[..] == old(rob[..])[i := Feeding(old(rob[i]), c)]
          && lq[..] == old(lq[..])[l := old(lq[l]).(producer := Some(old(rob[i].instr.id)))]
    {
      var i := from + 1;
      while i > to
        invariant to <= i <= from + 1
        invariant rob[..] == old(rob[..]) && lq[..] == old(lq[..])
        invariant forall h :: i <= h <= from ==> !WritesTo(rob[h].instr, lq[l].address)
      {
        i := i - 1;
        assert rob[i] == old(rob[i]) && lq[l] == old(lq[l]);
        var found := MemRawDependency(i, c, l);
        if found {
          return Some(i);
        }
      }
      return None;
    }

    /** Link the load in slot l to the youngest older store of its address. */
    method LinkProducer(c: nat, l: nat) returns (p: Option<nat>)
      requires Shape(View()) && Live(View(), c) && l < lq.Length && lq[l].Load? && lq[l].address != 0
      modifies rob, lq
      ensures p == ProducerIndex(old(View()), c, old(lq[l].address))
      ensures match p
        case None => rob[..] == old(rob[..]) && lq[..] == old(lq[..])
        case Some(i) =>
          && rob[..] == old(rob[..])[i := Feeding(old(rob[i]), c)]
          && lq[..] == old(lq[..])[l := old(lq[l]).(producer := Some(old(rob[i].instr.id)))]
    {
      ghost var m, address := View(), lq[l].address;
      p := None;
      var prior := if c == 0 then rob.Length - 1 else c - 1;
      if c != head {
        if head <= prior {
          p := SearchRange(prior, head, c, l);
        } else {
          p := SearchRange(prior, 0, c, l);
          if p == None {
            p := SearchRange(rob.Length - 1, head, c, l);
          }
        }
      }
      ProducerByAge(m, c, address, p);
    }

    /** Put operand j of entry c in a free slot, with no producer yet. */
    method EnterLoad(c: nat, j: nat) returns (l: nat)
      requires Live(View(), c) && j < NUM_SOURCES && FreeSlot(lq[..], 0) < lq.Length
      modifies this`lqOccupancy, rob, lq
      ensures l == FreeSlot(old(lq[..]), 0) && lqOccupancy == old(lqOccupancy) + 1
      ensures rob[..] == old(rob[..])[c := old(rob[c]).(lqIndex := old(rob[c]).lqIndex[j := Some(l)])]
      ensures lq[..] == old(lq[..])[l := Load(c, j, old(rob[c]).instr.sources[j], old(rob[c]).instr.id, None)]
    {
      l := FindFreeSlot();
      rob[c] := rob[c].(lqIndex := rob[c].lqIndex[j := Some(l)]);
      lq[l] := Load(c, j, rob[c].instr.sources[j], rob[c].instr.id, None);
      lqOccupancy := lqOccupancy + 1;
    }

    /** Serve the load in slot l at once if the store that it waits for has executed. */
    method TryForward(c: nat, l: nat) returns (served: bool)
      requires c < rob.Length && l < lq.Length && lq[l].Load? && lq[l].producer.Some?
      modifies this`lqOccupancy, rob, lq
      ensures served == Forwards(sq[..], old(lq[l].address), old(lq[l].producer.value))
      ensures lqOccupancy == old(lqOccupancy) - (if served then 1 else 0)
      ensures rob[..] == if served then old(rob[..])[c := old(rob[c]).(numOps := old(rob[c]).numOps - 1)] else old(rob[..])
      ensures lq[..] == if served then old(lq[..])[l := FreeLoad] else old(lq[..])
    {
      var q := FindForwardingSlot(lq[l].address, lq[l].producer.value);
      served := q < sq.Length && sq[q].executed;
      if served {
        rob[c] := rob[c].(numOps := rob[c].numOps - 1);
        lq[l] := FreeLoad;
        lqOccupancy := lqOccupancy - 1;
      }
    }

    /** Put operand j of entry c in the queue, linked to its producer. */
    method EnterAndLink(c: nat, j: nat) returns (l: nat, p: Option<nat>)
      requires Valid() && CanAddLoad(View(), c, j)
      modifies this`lqOccupancy, rob, lq
      ensures l == FreeSlot(old(lq[..]), 0) && l < lq.Length && lqOccupancy == old(lqOccupancy) + 1
      ensures p == ProducerIndex(old(View()), c, old(rob[c]).instr.sources[j])
      ensures rob[..] == Linking(old(rob[..]), c, j, l, p)
      ensures lq[..] == old(lq[..])[l := NewLoad(old(rob[..]), c, j, p)]
    {
      ghost var m, address := View(), rob[c].instr.sources[j];
      hide ProducerIndex, Window, FreeSlot;
      l := EnterLoad(c, j);
      EnteredProducer(m, View(), c, address);
      p := LinkProducer(c, l);
    }

    /** A load enters the queue, and leaves it again at once when its store has executed. */
    method AddLoadQueue(c: nat, j: nat)
      requires Valid() && CanAddLoad(View(), c, j)
      modifies this`lqOccupancy, rob, lq
      ensures Valid() && View() == AddLoad(old(View()), c, j)
    {
      ghost var m := View();
      AddLoadKeepsShape(m, c, j);
      hide ProducerIndex, Window, FreeSlot, AddLoad, Linking;
      var l, p := EnterAndLink(c, j);
      var served := false;
      if p.Some? {
        served := TryForward(c, l);
      }
      rob[c] := rob[c].(sourceAdded := rob[c].sourceAdded[j := true]);
      AddLoadInSteps(m, View(), c, j, l, p, served);
    }

    /** Put the operations of entry c in the queues as far as there is room; how many are still outside? */
    method CheckAndAddLsq(c: nat) returns (notAvailable: nat)
      requires Valid() && OrderInv(View()) && lqOccupancy == Count(InUse(lq[..]))
      requires Live(View(), c) && rob[c].instr.id < sta.empty
      modifies this, rob, lq, sq, sta, sta.slot
      ensures Valid() && OrderInv(View()) && lqOccupancy == Count(InUse(lq[..]))
      ensures View() == AddStores(AddLoads(old(View()), c, NUM_SOURCES), c, NUM_DESTINATIONS)
      ensures OperationsTried(old(View()), View(), c)
      ensures old(ForwardInv(View())) ==> ForwardInv(View())
      ensures c < rob.Length && (notAvailable == 0 <==> AllAdded(rob[c]))
    {
      hide OrderInv, InUse, AddLoads, AddStores, Window, OperationsTried;
      AddingTriesAll(View(), c);
      AddingKeepsForwarding(View(), c);
      AddAllLoads(c);
      AddAllStores(c);
      notAvailable := CountOutside(c);
    }

    method CountOutside(c: nat) returns (n: nat)
      requires c < rob.Length
      ensures n == 0 <==> AllAdded(rob[c])
    {
      n := 0;
      for j := 0 to NUM_SOURCES
        invariant n == 0 <==>
          forall i :: 0 <= i < j && rob[c].instr.sources[i] != 0 ==> rob[c].sourceAdded[i]
      {
        if rob[c].instr.sources[j] != 0 && !rob[c].sourceAdded[j] { n := n + 1; }
      }
      for k := 0 to NUM_DESTINATIONS
        invariant n == 0 <==>
          && (forall i :: 0 <= i < NUM_SOURCES && rob[c].instr.sources[i] != 0 ==> rob[c].sourceAdded[i])
          && (forall i :: 0 <= i < k && rob[c].instr.destinations[i] != 0 ==> rob[c].destinationAdded[i])
      {
        if rob[c].instr.destinations[k] != 0 && !rob[c].destinationAdded[k] { n := n + 1; }
      }
    }

    method AddAllLoads(c: nat)
      requires Valid() && OrderInv(View()) && lqOccupancy == Count(InUse(lq[..])) && Live(View(), c)
      modifies this`lqOccupancy, rob, lq
      ensures Valid() && OrderInv(View()) && lqOccupancy == Count(InUse(lq[..])) && Live(View(), c)
      ensures View() == AddLoads(old(View()), c, NUM_SOURCES) && rob[c].instr == old(rob[c].instr)
    {
      hide OrderInv, InUse, AddLoad, FreeSlot, CanAddLoad;
      for j := 0 to NUM_SOURCES
        invariant Valid() && OrderInv(View()) && lqOccupancy == Count(InUse(lq[..])) && Live(View(), c)
        invariant View() == AddLoads(old(View()), c, j) && rob[c].instr == old(rob[c].instr)
      {
        TryAddLoad(c, j);
      }
    }

    method TryAddLoad(c: nat, j: nat)
      requires Valid() && OrderInv(View()) && lqOccupancy == Count(InUse(lq[..]))
      requires Live(View(), c) && j < NUM_SOURCES
      modifies this`lqOccupancy, rob, lq
      ensures Valid() && OrderInv(View()) && lqOccupancy == Count(InUse(lq[..]))
      ensures Live(View(), c) && rob[c].instr == old(rob[c].instr)
      ensures View() == if CanAddLoad(old(View()), c, j) then AddLoad(old(View()), c, j) else old(View())
    {
      ghost var m := View();
      RoomMeansFreeSlot(m);
      hide InUse, AddLoad, FreeSlot;
      if rob[c].instr.sources[j] != 0 && !rob[c].sourceAdded[j] && lqOccupancy < lq.Length {
        AddLoadKeepsOrder(m, c, j);
        AddKeepsCount(m, c, j);
        hide OrderInv;
        AddLoadQueue(c, j);
        assert SameStores(m.rob[c], rob[c]);
      }
    }

    method AddAllStores(c: nat)
      requires Valid() && OrderInv(View()) && Live(View(), c) && rob[c].instr.id < sta.empty
      modifies this, rob, sq, sta, sta.slot
      ensures Valid() && OrderInv(View()) && Live(View(), c)
      ensures View() == AddStores(old(View()), c, NUM_DESTINATIONS)
      ensures lqOccupancy == old(lqOccupancy)
    {
      hide OrderInv, AddStore;
      for k := 0 to NUM_DESTINATIONS
        invariant Valid() && OrderInv(View()) && Live(View(), c) && rob[c].instr.id < sta.empty
        invariant View() == AddStores(old(View()), c, k) && lqOccupancy == old(lqOccupancy)
        invariant k > 0 && rob[c].instr.destinations[0] != 0 && !rob[c].destinationAdded[0] ==>
          sqOccupancy == sq.Length || sta.queue == [] || sta.queue[0] != rob[c].instr.id
      {
        ghost var m := View();
        if rob[c].instr.destinations[k] != 0 && !rob[c].destinationAdded[k] && sqOccupancy < sq.Length {
          var next := sta.First();
          if next == rob[c].instr.id {
            AddStoreKeepsInv(m, c, k);
            AddStoreEntry(m, c, k);
            AddStoreQueue(c, k);
          }
        }
      }
    }

    // ---- Finishing ----

    /** Free a slot of the load queue and count its operation as done. */
    method ReleaseLoadQueue(l: nat)
      requires l < lq.Length && lq[l].Load? && lq[l].robIndex < rob.Length
      modifies this`lqOccupancy, rob, lq
      ensures View() == ReleaseLoad(old(View()), l)
      ensures lq[..] == old(lq[..])[l := FreeLoad] && lqOccupancy == old(lqOccupancy) - 1
      ensures var i := old(lq[l].robIndex);
        rob[..] == old(rob[..])[i := old(rob[i]).(numOps := old(rob[i]).numOps - 1)]
    {
      var i := lq[l].robIndex;
      rob[i] := rob[i].(numOps := rob[i].numOps - 1);
      lq[l] := FreeLoad;
      lqOccupancy := lqOccupancy - 1;
    }

    /** The data of a load without producer have come; its operation count was positive. */
    method FinishLoad(l: nat)
      requires Valid() && ForwardInv(View()) && CanFinishLoad(View(), l) && Releasable(View(), l)
      modifies this`lqOccupancy, rob, lq
      ensures Valid() && ForwardInv(View()) && View() == ReleaseLoad(old(View()), l)
    {
      FinishLoadKeepsForwarding(View(), l);
      OrderedShape(ReleaseLoad(View(), l));
      hide ForwardInv;
      ReleaseLoadQueue(l);
    }

    /** Execute the store in slot q: serve each load that waits for it, each exactly once. */
    method ExecuteStoreQueue(q: nat)
      requires Valid() && ForwardInv(View()) && CanExecuteStore(View(), q)
      modifies this`lqOccupancy, rob, lq, sq
      ensures Valid() && ForwardInv(View()) && Some(View()) == ExecuteStore(old(View()), q)
      ensures sq[..] == old(sq[..])[q := old(sq[q]).(executed := true)]
      ensures forall l :: 0 <= l < lq.Length ==>
        lq[l] == if old(lq[l]).Load? && old(lq[l]).producer == Some(old(sq[q]).id) then FreeLoad else old(lq[l])
    {
      ghost var m := View();
      hide ForwardInv, InService, ServeUpTo;
      MarkedIsServing(m, q);
      ExecutedShape(m, q);
      MarkStore(q);
      ghost var m1 := View();
      NoneServed(m1, q);
      ServeDependents(q, m1);
    }

    /** The store's own operation is done. */
    method MarkStore(q: nat)
      requires CanExecuteStore(View(), q)
      modifies rob, sq
      ensures View() == MarkExecuted(old(View()), q)
      ensures sq[..] == old(sq[..])[q := old(sq[q]).(executed := true)]
    {
      var i := sq[q].robIndex;
      sq[q] := sq[q].(executed := true);
      rob[i] := rob[i].(numOps := rob[i].numOps - 1);
    }

    /** The first n operands have been served after the store in slot q was marked executed in m1. */
    ghost predicate ServedTo(m1: Lsq, q: nat, n: nat)
      reads this, rob, lq, sq, sta
    {
      && StoreAt(m1, q) && InService(m1, q) && rob.Length == |m1.rob| && n <= rob.Length * NUM_SOURCES
      && Some(View()) == ServeUpTo(m1, q, n)
    }

    /** Go through the dependents of the store in slot q, which was just marked executed. */
    method ServeDependents(q: nat, ghost m1: Lsq)
      requires ServedTo(m1, q, 0)
      modifies this`lqOccupancy, rob, lq
      ensures ServedTo(m1, q, rob.Length * NUM_SOURCES)
    {
      hide ServedTo;
      for d := 0 to rob.Length
        invariant ServedTo(m1, q, d * NUM_SOURCES)
      {
        ServeEntry(q, d, m1);
      }
    }

    /** Serve the operands of entry d, if it is a dependent. */
    method ServeEntry(q: nat, d: nat, ghost m1: Lsq)
      requires d < rob.Length && ServedTo(m1, q, d * NUM_SOURCES)
      modifies this`lqOccupancy, rob, lq
      ensures ServedTo(m1, q, (d + 1) * NUM_SOURCES)
    {
      hide InService, ServeUpTo;
      ServedPrefix(m1, q, d * NUM_SOURCES);
      if d !in rob[sq[q].robIndex].dependents {
        EntrySkipped(m1, q, d);
        return;
      }
      for j := 0 to NUM_SOURCES
        invariant Some(View()) == ServeUpTo(m1, q, d * NUM_SOURCES + j) && sq[..] == m1.sq
        invariant d in rob[sq[q].robIndex].dependents
      {
        NextServed(m1, q, d, j);
        ServeOperand(q, d, j);
      }
    }

    /** Serve one operand if it matches; the producer check cannot fail. */
    method ServeOperand(q: nat, d: nat, j: nat)
      requires q < sq.Length && sq[q].Store? && sq[q].robIndex < rob.Length && d < rob.Length && j < NUM_SOURCES
      requires d in rob[sq[q].robIndex].dependents
      requires Matches(View(), q, d, j) ==> WaitsFor(View(), q, d, j)
      modifies this`lqOccupancy, rob, lq
      ensures Some(View()) == Serve(old(View()), q, d, j)
      ensures d in rob[sq[q].robIndex].dependents
    {
      if rob[d].instr.sources[j] != 0 && rob[d].sourceAdded[j] && rob[d].instr.sources[j] == sq[q].address {
        assert Matches(View(), q, d, j);
        var l := rob[d].lqIndex[j].value;
        assert lq[l].producer == Some(sq[q].id);
        ReleaseLoadQueue(l);
      }
    }

    // ---- Leaving ----

    method CompleteInstruction(c: nat)
      requires Valid() && CanComplete(View(), c)
      modifies rob
      ensures Valid() && View() == Complete(old(View()), c)
      ensures rob[..] == old(rob[..])[c := old(rob[c]).(completed := true)]
    {
      rob[c] := rob[c].(completed := true);
    }

    /** Retire the oldest entry if it has completed, and free its slots of the store queue. */
    method RetireOldest() returns (retired: bool)
      requires Valid() && OrderInv(View())
      modifies this, rob, sq
      ensures Valid() && (retired <==> CanRetire(old(View())))
      ensures CanRetire(old(View())) ==> SlotsOfHeadExist(old(View()))
      ensures View() == if retired then Retire(old(View())) else old(View())
    {
      ghost var m := View();
      if !rob[head].live || !rob[head].completed {
        assert Live(m, m.head) <==> m.occupancy > 0;
        return false;
      }
      assert Live(m, m.head) && CanRetire(m);
      RetirementFreesHead(m);
      RetireShape(m);
      hide OrderInv, Window;
      RetireHead();
      return true;
    }

    method RetireHead()
      requires CanRetire(View()) && SlotsOfHeadExist(View())
      modifies this, rob, sq
      ensures View() == Retire(old(View()))
    {
      FreeStoreQueue(rob[head].sqIndex[0]);
      FreeStoreQueue(rob[head].sqIndex[1]);
      rob[head] := EMPTY_ENTRY;
      head := head + 1;
      if head == rob.Length { head := 0; }
      occupancy := occupancy - 1;
    }

    method FreeStoreQueue(slot: Option<nat>)
      requires slot.Some? ==> slot.value < sq.Length && sqOccupancy > 0
      modifies this`sqHead, this`sqOccupancy, sq
      ensures View() == FreeStoreSlot(old(View()), slot)
    {
      if slot.Some? {
        sq[slot.value] := FreeStore;
        sqOccupancy := sqOccupancy - 1;
        sqHead := sqHead + 1;
        if sqHead == sq.Length { sqHead := 0; }
      }
    }
  }
  // ---- Serving, seen from the loops ----

  lemma ExecutedShape(m: Lsq, q: nat)
    requires ForwardInv(m) && CanExecuteStore(m, q)
    ensures ExecuteStore(m, q).Some? && ForwardInv(ExecuteStore(m, q).value) && Shape(ExecuteStore(m, q).value)
    ensures var m' := ExecuteStore(m, q).value;
      && |m'.lq| == |m.lq|
      && forall l :: 0 <= l < |m.lq| ==>
           m'.lq[l] == if m.lq[l].Load? && m.lq[l].producer == Some(m.sq[q].id) then FreeLoad else m.lq[l]
  {
    ExecuteStoreServesItsLoads(m, q);
    OrderedShape(ExecuteStore(m, q).value);
  }

  predicate StoreAt(m: Lsq, q: nat) { q < |m.sq| && m.sq[q].Store? && m.sq[q].robIndex < |m.rob| }

  /** The store in slot q has been marked executed, and none of its loads has been served yet. */
  ghost predicate InService(m: Lsq, q: nat) { Executing(m, q) && ServingInv(m, m.sq[q].robIndex, 0) }

  lemma MarkedIsServing(m: Lsq, q: nat)
    requires ForwardInv(m) && CanExecuteStore(m, q)
    ensures StoreAt(MarkExecuted(m, q), q) && InService(MarkExecuted(m, q), q)
  {
    ForwardingServe.ExecutingStore(m, q);
    MarkKeepsInv(m, q);
  }

  lemma NoneServed(m: Lsq, q: nat)
    requires StoreAt(m, q)
    ensures ServeUpTo(m, q, 0) == Some(m)
  {}

  lemma ServedPrefix(m: Lsq, q: nat, n: nat)
    requires StoreAt(m, q) && InService(m, q) && n <= |m.rob| * NUM_SOURCES
    ensures ServeUpTo(m, q, n).Some?
    ensures var m' := ServeUpTo(m, q, n).value; |m'.rob| == |m.rob| && m'.sq == m.sq
  {
    ServeUpToKeepsInv(m, q, n);
  }

  lemma ServeNext(m: Lsq, q: nat, d: nat, j: nat)
    requires q < |m.sq| && m.sq[q].Store? && m.sq[q].robIndex < |m.rob| && d < |m.rob| && j < NUM_SOURCES
    requires ServeUpTo(m, q, d * NUM_SOURCES + j).Some?
    ensures ServeUpTo(m, q, d * NUM_SOURCES + j + 1) == Serve(ServeUpTo(m, q, d * NUM_SOURCES + j).value, q, d, j)
  {
    var n := d * NUM_SOURCES + j;
    assert (n + 1 - 1) / NUM_SOURCES == d && (n + 1 - 1) % NUM_SOURCES == j;
    hide Serve;
  }

  /** The next operand, when it matches, waits in its slot for this store. */
  lemma NextServed(m: Lsq, q: nat, d: nat, j: nat)
    requires StoreAt(m, q) && InService(m, q) && d < |m.rob| && j < NUM_SOURCES
    ensures ServeUpTo(m, q, d * NUM_SOURCES + j).Some?
    ensures var m' := ServeUpTo(m, q, d * NUM_SOURCES + j).value;
      && |m'.rob| == |m.rob| && m'.sq == m.sq
      && ServeUpTo(m, q, d * NUM_SOURCES + j + 1) == Serve(m', q, d, j)
      && (Matches(m', q, d, j) ==> WaitsFor(m', q, d, j))
  {
    var n := d * NUM_SOURCES + j;
    hide ServeUpTo, ServingInv;
    ServeUpToKeepsInv(m, q, n);
    ServeNext(m, q, d, j);
    if Matches(ServeUpTo(m, q, n).value, q, d, j) {
      MatchIsWaiting(ServeUpTo(m, q, n).value, q, d, j);
    }
  }

  lemma EntrySkipped(m: Lsq, q: nat, d: nat)
    requires StoreAt(m, q) && InService(m, q) && d < |m.rob|
    requires var r := ServeUpTo(m, q, d * NUM_SOURCES);
      r.Some? ==> d !in r.value.rob[m.sq[q].robIndex].dependents
    ensures ServeUpTo(m, q, (d + 1) * NUM_SOURCES) == ServeUpTo(m, q, d * NUM_SOURCES)
  {
    hide ServeUpTo, InService;
    NextServed(m, q, d, 0);
    NextServed(m, q, d, 1);
    NextServed(m, q, d, 2);
    NextServed(m, q, d, 3);
  }

  lemma AddStoreEntry(m: Lsq, c: nat, k: nat)
    requires Shape(m) && CanAddStore(m, c, k)
    ensures var m' := AddStore(m, c, k);
      && m'.rob[c].instr == m.rob[c].instr && m'.rob[c].destinationAdded == m.rob[c].destinationAdded[k := true]
      && m'.lqOccupancy == m.lqOccupancy && Live(m', c)
  {}

  /** The buffer after operand j of entry c was put in slot l with producer p. */
  function Linking(rob: seq<MemEntry>, c: nat, j: nat, l: nat, p: Option<nat>): (r: seq<MemEntry>)
    requires c < |rob| && j < NUM_SOURCES && (p.Some? ==> p.value < |rob|)
    ensures |r| == |rob|
  {
    var entered := rob[c := rob[c].(lqIndex := rob[c].lqIndex[j := Some(l)])];
    if p.Some? then entered[p.value := Feeding(entered[p.value], c)] else entered
  }

  function NewLoad(rob: seq<MemEntry>, c: nat, j: nat, p: Option<nat>): LoadSlot
    requires c < |rob| && j < NUM_SOURCES && (p.Some? ==> p.value < |rob|)
  {
    Load(c, j, rob[c].instr.sources[j], rob[c].instr.id, if p.Some? then Some(rob[p.value].instr.id) else None)
  }

  /** Linking, serving and marking a load, one after the other, is adding it. */
  lemma AddLoadInSteps(m: Lsq, m': Lsq, c: nat, j: nat, l: nat, p: Option<nat>, served: bool)
    requires Shape(m) && CanAddLoad(m, c, j)
    requires l == FreeSlot(m.lq, 0) && p == ProducerIndex(m, c, m.rob[c].instr.sources[j])
    requires served == (p.Some? && Forwards(m.sq, m.rob[c].instr.sources[j], m.rob[p.value].instr.id))
    requires m' == m.(rob := m'.rob, lq := m'.lq, lqOccupancy := m.lqOccupancy + (if served then 0 else 1))
    requires var linked := Linking(m.rob, c, j, l, p);
      var done := if served then linked[c := linked[c].(numOps := linked[c].numOps - 1)] else linked;
      m'.rob == done[c := done[c].(sourceAdded := done[c].sourceAdded[j := true])]
    requires m'.lq == if served then m.lq else m.lq[l := NewLoad(m.rob, c, j, p)]
    ensures m' == AddLoad(m, c, j)
  {
    AddLoadEffect(m, c, j);
    ProducerIsStore(m, c, m.rob[c].instr.sources[j]);
    hide ProducerIndex, ForwardingSlot, FreeSlot;
  }

  /** The search reads only positions and instructions. */
  lemma EnteredProducer(m: Lsq, m': Lsq, c: nat, address: nat)
    requires Shape(m) && Live(m, c) && m' == m.(rob := m'.rob, lq := m'.lq, lqOccupancy := m'.lqOccupancy)
    requires |m'.rob| == |m.rob| && forall i :: 0 <= i < |m.rob| ==> m'.rob[i].instr == m.rob[i].instr
    ensures Shape(m') && Live(m', c) && ProducerIndex(m', c, address) == ProducerIndex(m, c, address)
  {
    SameInstrs(m, m');
  }

  /** Entry e gains a load that depends on it. */
  function Feeding(e: MemEntry, c: nat): MemEntry { e.(dependents := e.dependents + {c}) }

  lemma StoreSlotCounts(x: MemInstr, k: nat)
    requires k < NUM_DESTINATIONS
    ensures Count(IsStore(x)[..k + 1]) == Count(IsStore(x)[..k]) + (if x.destinations[k] != 0 then 1 else 0)
  {
    assert IsStore(x)[..k + 1][..k] == IsStore(x)[..k];
  }

  /** An entry older than c that stores to the address, with none younger before c, is the producer. */
  lemma ProducerByAge(m: Lsq, c: nat, address: nat, p: Option<nat>)
    requires Shape(m) && Live(m, c)
    requires match p
      case None => forall i: nat :: i < |m.rob| && OlderThan(m, i, c) ==> !WritesTo(m.rob[i].instr, address)
      case Some(s) =>
        && s < |m.rob| && OlderThan(m, s, c) && WritesTo(m.rob[s].instr, address)
        && forall i: nat :: i < |m.rob| && OlderThan(m, i, c) && OlderThan(m, s, i) ==>
             !WritesTo(m.rob[i].instr, address)
    ensures p == ProducerIndex(m, c, address)
  {
    var n := Age(m.head, |m.rob|, c);
    var a := YoungestStore(Window(m), address, n);
    if p.Some? {
      WindowAt(m, p.value);
      AgesInvert(m.head, |m.rob|, p.value);
    }
    if a.Some? {
      AgesInvert(m.head, |m.rob|, a.value);
      WindowAt(m, At(m.head, |m.rob|, a.value));
    }
  }

  predicate OlderThan(m: Lsq, i: nat, j: nat) { Age(m.head, |m.rob|, i) < Age(m.head, |m.rob|, j) }
}