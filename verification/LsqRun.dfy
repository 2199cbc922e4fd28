/** Whole runs of the load and store queues, under any timing of translation, cache and scheduling. */
module LsqRun {
  import opened Counting
  import opened CoreTypes
  import opened LsqModel
  import opened StoreOrder
  import opened StoreOrderSteps
  import opened Forwarding
  import opened ForwardingSteps
  import opened ForwardingServe
  import opened ForwardingAdd
  import opened ForwardingRetire

  datatype Action =
    | Reading(instr: MemInstr)
    | Dispatching
    | AddingLoad(index: nat, operand: nat)
    | AddingStore(index: nat, operand: nat)
    | FinishingLoad(slot: nat)
    | ExecutingStore(slot: nat)
    | Completing(index: nat)
    | Retiring

  /** The guards of the stages; fetch and decode hold at most `capacity` instructions. */
  predicate Enabled(m: Lsq, a: Action, capacity: nat) {
    Shape(m) &&
    match a
    case Reading(x) => CanRead(m, x) && |m.front| < capacity
    case Dispatching => CanDispatch(m)
    case AddingLoad(c, j) => CanAddLoad(m, c, j)
    case AddingStore(c, k) => CanAddStore(m, c, k)
    case FinishingLoad(l) => CanFinishLoad(m, l) && Releasable(m, l)
    case ExecutingStore(q) => CanExecuteStore(m, q)
    case Completing(c) => CanComplete(m, c)
    case Retiring => CanRetire(m) && SlotsOfHeadExist(m)
  }

  /** None stands for a failed producer check. */
  function Step(m: Lsq, a: Action, capacity: nat): Option<Lsq>
    requires Enabled(m, a, capacity)
  {
    match a
    case Reading(x) => Some(Read(m, x))
    case Dispatching => Some(Dispatch(m))
    case AddingLoad(c, j) => Some(AddLoad(m, c, j))
    case AddingStore(c, k) => Some(AddStore(m, c, k))
    case FinishingLoad(l) => Some(ReleaseLoad(m, l))
    case ExecutingStore(q) => ExecuteStore(m, q)
    case Completing(c) => Some(Complete(m, c))
    case Retiring => Some(Retire(m))
  }

  function EmptyLsq(robSize: nat, lqSize: nat, sqSize: nat): Lsq {
    Lsq(seq(robSize, i => EMPTY_ENTRY), 0, 0, 0, seq(lqSize, i => FreeLoad), 0,
        seq(sqSize, i => FreeStore), 0, 0, 0, [], [], 0)
  }

  /** states[k + 1] results from states[k] by actions[k]; all queues start empty. */
  ghost predicate IsRun(states: seq<Lsq>, actions: seq<Action>, capacity: nat) {
    && |states| == |actions| + 1
    && |states[0].rob| > 0 && |states[0].sq| > 0
    && states[0] == EmptyLsq(|states[0].rob|, |states[0].lq|, |states[0].sq|)
    && forall k :: 0 <= k < |actions| ==> Follows(states[k], actions[k], states[k + 1], capacity)
  }

  ghost predicate Follows(m: Lsq, a: Action, m': Lsq, capacity: nat) {
    Enabled(m, a, capacity) && Step(m, a, capacity) == Some(m')
  }

  // ---- Store order, for all programs ----

  lemma EmptyOrder(robSize: nat, lqSize: nat, sqSize: nat)
    requires robSize > 0 && sqSize > 0
    ensures OrderInv(EmptyLsq(robSize, lqSize, sqSize))
  {}

  lemma StepKeepsOrder(m: Lsq, a: Action, capacity: nat)
    requires OrderInv(m) && |m.front| <= capacity && Enabled(m, a, capacity) && Step(m, a, capacity).Some?
    ensures var m' := Step(m, a, capacity).value;
      OrderInv(m') && |m'.rob| == |m.rob| && |m'.front| <= capacity
  {
    hide OrderInv, CanAddLoad, CanComplete, SlotsOfHeadExist;
    match a
    case Reading(x) => ReadKeepsInv(m, x);
    case Dispatching => DispatchKeepsInv(m);
    case AddingLoad(c, j) => AddLoadKeepsOrder(m, c, j);
    case AddingStore(c, k) => AddStoreKeepsInv(m, c, k);
    case FinishingLoad(l) => ReleaseLoadKeepsOrder(m, l);
    case ExecutingStore(q) => ExecuteStoreKeepsOrder(m, q); ServingKeepsFront(MarkExecuted(m, q), q, |m.rob| * NUM_SOURCES);
    case Completing(c) => CompleteKeepsOrder(m, c);
    case Retiring => RetireKeepsInv(m);
  }

  lemma {:induction false} ServingKeepsFront(m: Lsq, q: nat, n: nat)
    requires q < |m.sq| && m.sq[q].Store? && m.sq[q].robIndex < |m.rob| && n <= |m.rob| * NUM_SOURCES
    requires ServeUpTo(m, q, n).Some?
    ensures ServeUpTo(m, q, n).value.front == m.front
  {
    if n > 0 {
      ServingKeepsFront(m, q, n - 1);
    }
  }

  lemma {:induction false} RunKeepsOrder(states: seq<Lsq>, actions: seq<Action>, capacity: nat, n: nat)
    requires IsRun(states, actions, capacity) && n < |states|
    ensures OrderInv(states[n]) && |states[n].rob| == |states[0].rob| && |states[n].front| <= capacity
  {
    hide OrderInv, Enabled, Step;
    if n == 0 {
      EmptyOrder(|states[0].rob|, |states[0].lq|, |states[0].sq|);
    } else {
      RunKeepsOrder(states, actions, capacity, n - 1);
      assert Follows(states[n - 1], actions[n - 1], states[n - 1 + 1], capacity);
      StepKeepsOrder(states[n - 1], actions[n - 1], capacity);
    }
  }

  /**
   In every reachable state, whatever the instructions write: the tail slot is free while the queue has
   room, the list of pending stores is bounded, a store that enters the queue is the oldest one that is
   not in it, and retirement frees the head of the queue.
   */
  lemma StoresKeepProgramOrder(states: seq<Lsq>, actions: seq<Action>, capacity: nat, n: nat)
    requires IsRun(states, actions, capacity) && n < |states|
    ensures var m := states[n];
      && Shape(m)
      && (m.sqOccupancy < |m.sq| ==> m.sq[m.sqTail] == FreeStore)
      && |m.sta| <= NUM_DESTINATIONS * (|m.rob| + capacity)
      && (forall c: nat, k: nat :: CanAddStore(m, c, k) ==> RankOf(m, c, k) == m.sqOccupancy)
      && (CanRetire(m) ==> SlotsOfHeadExist(m))
      && (CanRetire(m) && m.rob[m.head].sqIndex[0].Some? ==> m.rob[m.head].sqIndex[0] == Some(m.sqHead))
  {
    var m := states[n];
    RunKeepsOrder(states, actions, capacity, n);
    ListIsShort(m);
    if m.sqOccupancy < |m.sq| {
      TailIsFree(m);
    }
    if CanRetire(m) {
      RetirementFreesHead(m);
    }
    hide OrderInv;
    forall c: nat, k: nat | CanAddStore(m, c, k) ensures RankOf(m, c, k) == m.sqOccupancy {
      NextStoreIsOldest(m, c, k);
    }
  }

  /** With the sizes of the simulator the list of pending stores never fills its 1408 places. */
  lemma ListNeverWraps(states: seq<Lsq>, actions: seq<Action>, n: nat)
    requires IsRun(states, actions, 12 + 18) && n < |states| && |states[0].rob| == 352
    ensures |states[n].sta| <= 764 < 352 * 4
  {
    RunKeepsOrder(states, actions, 12 + 18, n);
    StoresKeepProgramOrder(states, actions, 12 + 18, n);
  }

  // ---- Forwarding, for programs whose instructions store at most once ----

  lemma EmptyForwarding(robSize: nat, lqSize: nat, sqSize: nat)
    requires robSize > 0 && sqSize > 0
    ensures ForwardInv(EmptyLsq(robSize, lqSize, sqSize))
  {
    var m := EmptyLsq(robSize, lqSize, sqSize);
    EmptyOrder(robSize, lqSize, sqSize);
    CountExtremes(InUse(m.lq));
  }

  lemma StepKeepsForwarding(m: Lsq, a: Action, capacity: nat)
    requires ForwardInv(m) && Enabled(m, a, capacity)
    requires a.Reading? ==> AtMostOneStore(a.instr)
    ensures Step(m, a, capacity).Some? && ForwardInv(Step(m, a, capacity).value)
  {
    hide ForwardInv, CanAddStore, CanAddLoad, CanComplete, SlotsOfHeadExist;
    match a
    case Reading(x) => ReadKeepsForwarding(m, x);
    case Dispatching => DispatchKeepsForwarding(m);
    case AddingLoad(c, j) => AddLoadKeepsForwarding(m, c, j);
    case AddingStore(c, k) => AddStoreKeepsForwarding(m, c, k);
    case FinishingLoad(l) => FinishLoadKeepsForwarding(m, l);
    case ExecutingStore(q) => ExecuteStoreServesItsLoads(m, q);
    case Completing(c) => CompleteKeepsForwarding(m, c);
    case Retiring => RetireKeepsForwarding(m);
  }

  /** Every instruction that is read satisfies p. */
  ghost predicate AllRead(actions: seq<Action>, p: MemInstr -> bool) {
    forall k :: 0 <= k < |actions| && actions[k].Reading? ==> p(actions[k].instr)
  }

  lemma {:induction false} RunKeepsForwarding(states: seq<Lsq>, actions: seq<Action>, capacity: nat, n: nat)
    requires IsRun(states, actions, capacity) && n < |states| && AllRead(actions, AtMostOneStore)
    ensures ForwardInv(states[n])
  {
    hide ForwardInv, Enabled, Step;
    if n == 0 {
      EmptyForwarding(|states[0].rob|, |states[0].lq|, |states[0].sq|);
    } else {
      RunKeepsForwarding(states, actions, capacity, n - 1);
      assert Follows(states[n - 1], actions[n - 1], states[n - 1 + 1], capacity);
      StepKeepsForwarding(states[n - 1], actions[n - 1], capacity);
    }
  }

  /**
   In every reachable state: a load in the queue names exactly the youngest older store to its address,
   that store has not executed and lists the load among its dependents; a store that may execute passes
   its check, and then exactly the loads that name it leave the queue.
   */
  lemma ForwardingIsExact(states: seq<Lsq>, actions: seq<Action>, capacity: nat, n: nat, l: nat)
    requires IsRun(states, actions, capacity) && n < |states| && AllRead(actions, AtMostOneStore)
    requires l < |states[n].lq| && states[n].lq[l].Load?
    ensures var m, load := states[n], states[n].lq[l];
      && Shape(m) && Live(m, load.robIndex)
      && (match ProducerIndex(m, load.robIndex, load.address)
          case None => load.producer == None
          case Some(s) =>
            load.producer == Some(m.rob[s].instr.id) && load.robIndex in m.rob[s].dependents
            && !StoreDone(m, s, load.address))
      && forall q: nat :: CanExecuteStore(m, q) ==>
           && ExecuteStore(m, q).Some?
           && |ExecuteStore(m, q).value.lq| == |m.lq|
           && (ExecuteStore(m, q).value.lq[l] == FreeLoad <==> load.producer == Some(m.sq[q].id))
  {
    var m := states[n];
    RunKeepsForwarding(states, actions, capacity, n);
    OrderedShape(m);
    assert LoadOk(m, l, -1, 0);
    hide ForwardInv, LoadOk, ProducerIndex, StoreDone, ExecuteStore;
    forall q: nat | CanExecuteStore(m, q)
      ensures ExecuteStore(m, q).Some? && |ExecuteStore(m, q).value.lq| == |m.lq|
      ensures ExecuteStore(m, q).value.lq[l] == FreeLoad <==> m.lq[l].producer == Some(m.sq[q].id)
    {
      ExecuteStoreServesItsLoads(m, q);
    }
  }

  /**
   In every reachable state num_mem_ops of an instruction is the number of its loads and stores that are
   not done, so it never becomes negative, and a completed instruction has none left.
   */
  lemma OperationCountIsExact(states: seq<Lsq>, actions: seq<Action>, capacity: nat, n: nat, i: nat)
    requires IsRun(states, actions, capacity) && n < |states| && AllRead(actions, AtMostOneStore)
    requires Live(states[n], i)
    ensures var m := states[n];
      && m.rob[i].numOps == Count(OpenLoads(m, i)) + Count(OpenStores(m, i)) >= 0
      && (m.rob[i].completed ==> Count(OpenLoads(m, i)) == 0 && Count(OpenStores(m, i)) == 0)
  {
    RunKeepsForwarding(states, actions, capacity, n);
    assert EntryOpsOk(states[n], i);
    hide OpenLoads, OpenStores;
  }

  // ---- The window is the program ----

  /** The instructions read by the first n actions. */
  function ReadBy(actions: seq<Action>, n: nat): seq<MemInstr>
    requires n <= |actions|
  {
    if n == 0 then []
    else ReadBy(actions, n - 1) + (if actions[n - 1].Reading? then [actions[n - 1].instr] else [])
  }

  /** How many instructions the first n actions retired. */
  function RetiredBy(actions: seq<Action>, n: nat): nat
    requires n <= |actions|
  {
    if n == 0 then 0 else RetiredBy(actions, n - 1) + (if actions[n - 1].Retiring? then 1 else 0)
  }

  lemma ActionsKeepWindow(m: Lsq, a: Action, capacity: nat)
    requires OrderInv(m) && |m.front| <= capacity && Enabled(m, a, capacity) && Step(m, a, capacity).Some?
    ensures var m' := Step(m, a, capacity).value;
      && Shape(m')
      && Window(m') == match a
                       case Reading(x) => Window(m) + [x]
                       case Retiring => Window(m)[1..]
                       case _ => Window(m)
  {
    StepKeepsOrder(m, a, capacity);
    OrderedShape(Step(m, a, capacity).value);
    hide OrderInv, CanAddLoad, CanComplete, SlotsOfHeadExist, AddLoad, ExecuteStore, Retire, Complete, Window;
    match a
    case Reading(x) => ReadKeepsInv(m, x);
    case Dispatching => DispatchKeepsInv(m);
    case AddingLoad(c, j) => AddLoadKeepsOrder(m, c, j); SameWindow(m, AddLoad(m, c, j));
    case AddingStore(c, k) => AddStoreShape(m, c, k);
    case FinishingLoad(l) => ReleaseLoadKeepsOrder(m, l); SameWindow(m, ReleaseLoad(m, l));
    case ExecutingStore(q) => ExecuteStoreMarks(m, q); CountsKeepWindow(m, ExecuteStore(m, q).value, q);
    case Completing(c) => CompleteKeepsOrder(m, c); SameWindow(m, Complete(m, c));
    case Retiring => RetireShape(m);
  }

  lemma CountsKeepWindow(m: Lsq, m': Lsq, q: nat)
    requires Shape(m) && CanExecuteStore(m, q) && m'.sq == m.sq[q := m.sq[q].(executed := true)]
    requires OnlyCounts(m.(sq := m'.sq), m')
    ensures Shape(m') && Window(m') == Window(m)
  {
    SameInstrs(m, m');
  }

  /** In every run the window holds the instructions read, in order, without those that have retired. */
  lemma {:induction false} WindowFollowsProgram(states: seq<Lsq>, actions: seq<Action>, capacity: nat, n: nat)
    requires IsRun(states, actions, capacity) && n <= |actions|
    ensures Shape(states[n]) && RetiredBy(actions, n) <= |ReadBy(actions, n)|
    ensures Window(states[n]) == ReadBy(actions, n)[RetiredBy(actions, n)..]
  {
    hide OrderInv, Enabled, Step;
    RunKeepsOrder(states, actions, capacity, n);
    OrderedShape(states[n]);
    if n > 0 {
      WindowFollowsProgram(states, actions, capacity, n - 1);
      RunKeepsOrder(states, actions, capacity, n - 1);
      var m, a := states[n - 1], actions[n - 1];
      assert Follows(m, a, states[n - 1 + 1], capacity);
      ActionsKeepWindow(m, a, capacity);
      if a.Retiring? {
        RetiringHasWindow(m, a, capacity);
      }
    }
  }

  lemma RetiringHasWindow(m: Lsq, a: Action, capacity: nat)
    requires Enabled(m, a, capacity) && a.Retiring?
    ensures |Window(m)| > 0
  {}
}
