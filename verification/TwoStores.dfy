/**
 The producer check of store execution, for instructions that store twice. It holds in every run exactly
 when no instruction has two memory destinations, whether they are distinct or equal.
 */
module TwoStores {
  import opened Counting
  import opened CoreTypes
  import opened LsqModel
  import opened StoreOrder
  import opened StoreOrderSteps
  import opened Forwarding
  import ForwardingServe
  import opened LsqRun

  /** Some run over single stores and instructions with these destinations ends in state m. */
  ghost predicate Reaches(destinations: Operands2, m: Lsq) {
    exists states: seq<Lsq>, actions: seq<Action>, capacity: nat ::
      IsRun(states, actions, capacity) && AllRead(actions, x => Allowed(x, destinations)) && states[|actions|] == m
  }

  predicate Allowed(x: MemInstr, destinations: Operands2) {
    AtMostOneStore(x) || x.destinations == destinations
  }

  /** In no such run does the producer check fail. */
  ghost predicate IsSafe(destinations: Operands2) {
    forall m: Lsq, q: nat :: Reaches(destinations, m) && CanExecuteStore(m, q) ==> ExecuteStore(m, q).Some?
  }

  // ---- Serving, step by step ----

  lemma {:induction false} FaultStays(m: Lsq, q: nat, a: nat, b: nat)
    requires q < |m.sq| && m.sq[q].Store? && m.sq[q].robIndex < |m.rob| && a <= b <= |m.rob| * NUM_SOURCES
    requires ServeUpTo(m, q, a) == None
    ensures ServeUpTo(m, q, b) == None
    decreases b
  {
    if a < b {
      FaultStays(m, q, a, b - 1);
    }
  }

  /** Operands below number n of entries that do not depend on the store are passed over. */
  lemma {:induction false} NothingToServe(m: Lsq, q: nat, d: nat, n: nat)
    requires q < |m.sq| && m.sq[q].Store? && m.sq[q].robIndex < |m.rob| && d <= |m.rob| && n <= d * NUM_SOURCES
    requires m.rob[m.sq[q].robIndex].dependents <= {d}
    ensures ServeUpTo(m, q, n) == Some(m)
  {
    if n > 0 {
      NothingToServe(m, q, d, n - 1);
    }
  }

  /** The only dependent has its first operand served by this store, but it names another producer or none. */
  lemma FirstOperandFaults(m: Lsq, q: nat, d: nat)
    requires CanExecuteStore(m, q) && d < |m.rob| && m.sq[q].robIndex != d
    requires m.rob[m.sq[q].robIndex].dependents == {d}
    requires m.rob[d].instr.sources[0] == m.sq[q].address != 0 && m.rob[d].sourceAdded[0]
    requires m.rob[d].lqIndex[0] == Some(0) && |m.lq| > 0
    requires m.lq[0] == FreeLoad || m.lq[0].producer != Some(m.sq[q].id)
    ensures ExecuteStore(m, q) == None
  {
    var m1, n := MarkExecuted(m, q), d * NUM_SOURCES;
    NothingToServe(m1, q, d, n);
    assert (n + 1 - 1) / NUM_SOURCES == d && (n + 1 - 1) % NUM_SOURCES == 0;
    assert Matches(m1, q, d, 0) && !WaitsFor(m1, q, d, 0);
    assert ServeUpTo(m1, q, n + 1) == Serve(m1, q, d, 0);
    FaultStays(m1, q, n + 1, |m.rob| * NUM_SOURCES);
  }

  // ---- Runs of a few steps ----

  const CAPACITY: nat := 3

  ghost predicate Arrives(destinations: Operands2, m: Lsq) {
    exists states: seq<Lsq>, actions: seq<Action> ::
      IsRun(states, actions, CAPACITY) && AllRead(actions, x => Allowed(x, destinations)) && states[|actions|] == m
  }

  lemma Starts(destinations: Operands2, robSize: nat, lqSize: nat, sqSize: nat)
    requires robSize > 0 && sqSize > 0
    ensures Arrives(destinations, EmptyLsq(robSize, lqSize, sqSize))
  {
    var m := EmptyLsq(robSize, lqSize, sqSize);
    var none: seq<Action> := [];
    assert IsRun([m], none, CAPACITY) && AllRead(none, x => Allowed(x, destinations)) && [m][|none|] == m;
  }

  lemma Continues(destinations: Operands2, m: Lsq, a: Action, m': Lsq)
    requires Arrives(destinations, m) && Follows(m, a, m', CAPACITY)
    requires a.Reading? ==> Allowed(a.instr, destinations)
    ensures Arrives(destinations, m')
  {
    hide Follows;
    var states: seq<Lsq>, actions: seq<Action> :|
      IsRun(states, actions, CAPACITY) && AllRead(actions, x => Allowed(x, destinations)) && states[|actions|] == m;
    var states', actions' := states + [m'], actions + [a];
    forall k | 0 <= k < |actions'| ensures Follows(states'[k], actions'[k], states'[k + 1], CAPACITY) {
      if k < |actions| {
        assert Follows(states[k], actions[k], states[k + 1], CAPACITY);
      }
    }
    assert IsRun(states', actions', CAPACITY) && states'[|actions'|] == m';
    assert AllRead(actions', x => Allowed(x, destinations));
  }

  lemma AddsStore(destinations: Operands2, m: Lsq, c: nat, k: nat)
    requires Arrives(destinations, m) && Shape(m) && CanAddStore(m, c, k)
    ensures Arrives(destinations, AddStore(m, c, k))
  {
    Continues(destinations, m, AddingStore(c, k), AddStore(m, c, k));
  }

  lemma AddsLoad(destinations: Operands2, m: Lsq, c: nat, j: nat)
    requires Arrives(destinations, m) && Shape(m) && CanAddLoad(m, c, j)
    ensures Arrives(destinations, AddLoad(m, c, j))
  {
    Continues(destinations, m, AddingLoad(c, j), AddLoad(m, c, j));
  }

  lemma Executes(destinations: Operands2, m: Lsq, q: nat)
    requires Arrives(destinations, m) && Shape(m) && CanExecuteStore(m, q) && ExecuteStore(m, q).Some?
    ensures Arrives(destinations, ExecuteStore(m, q).value)
  {
    Continues(destinations, m, ExecutingStore(q), ExecuteStore(m, q).value);
  }

  /** A check that fails after such a run makes the destinations unsafe. */
  lemma Refutes(destinations: Operands2, m: Lsq, q: nat)
    requires Arrives(destinations, m) && CanExecuteStore(m, q) && ExecuteStore(m, q) == None
    ensures !IsSafe(destinations)
  {
    assert Reaches(destinations, m);
  }

  // ---- States of these runs ----

  function Storing(a: nat, b: nat, id: nat): MemInstr { MemInstr(id, [0, 0, 0, 0], [a, b]) }
  function Loading(a: nat, b: nat, id: nat): MemInstr { MemInstr(id, [a, b, 0, 0], [0, 0]) }

  /** A state from which nothing has retired, with n entries in the buffer and s stores in their queue. */
  function Early(rob: seq<MemEntry>, n: nat, lq: seq<LoadSlot>, lqOccupancy: int,
                 sq: seq<StoreSlot>, s: nat, sta: seq<nat>, front: seq<MemInstr>): Lsq
  {
    Lsq(rob, 0, if n == |rob| then 0 else n, n, lq, lqOccupancy, sq, 0, if s == |sq| then 0 else s, s,
        sta, front, n + |front|)
  }

  lemma Reads(destinations: Operands2, rob: seq<MemEntry>, lq: seq<LoadSlot>, sq: seq<StoreSlot>,
              sta: seq<nat>, front: seq<MemInstr>, x: MemInstr)
    requires |rob| > 0 && |sq| > 0 && Arrives(destinations, Early(rob, 0, lq, 0, sq, 0, sta, front))
    requires x.id == |front| < CAPACITY && Allowed(x, destinations)
    ensures Arrives(destinations,
              Early(rob, 0, lq, 0, sq, 0, sta + seq(NumStores(x), k => x.id), front + [x]))
  {
    StoreCount(x);
    var m := Early(rob, 0, lq, 0, sq, 0, sta, front);
    Continues(destinations, m, Reading(x), Read(m, x));
  }

  lemma Dispatches(destinations: Operands2, rob: seq<MemEntry>, n: nat, lq: seq<LoadSlot>, sq: seq<StoreSlot>,
                   sta: seq<nat>, x: MemInstr, front: seq<MemInstr>)
    requires n < |rob| && |sq| > 0 && Arrives(destinations, Early(rob, n, lq, 0, sq, 0, sta, [x] + front))
    ensures Arrives(destinations, Early(rob[n := Fresh(x)], n + 1, lq, 0, sq, 0, sta, front))
  {
    var m := Early(rob, n, lq, 0, sq, 0, sta, [x] + front);
    assert ([x] + front)[1..] == front;
    Continues(destinations, m, LsqRun.Dispatching, Dispatch(m));
  }

  // ---- Two stores to one address ----

  lemma OperandCounts(a: nat, b: nat, id: nat)
    ensures Fresh(Storing(a, b, id)).numOps == (if a != 0 then 1 else 0) + (if b != 0 then 1 else 0)
  {
    StoreCount(Storing(a, b, id));
    CountExtremes(IsLoad(Storing(a, b, id)));
  }

  function Writer(a: nat, first: bool, second: bool, open: int): MemEntry {
    Fresh(Storing(a, a, 0)).(
      destinationAdded := [first, second], numOps := open,
      sqIndex := [if first then Some(0) else None, if second then Some(1) else None])
  }

  /** A buffer of two entries, with a store to [a, a] and a load of a. */
  function Pair(writer: MemEntry, reader: MemEntry, sq: seq<StoreSlot>, n: nat, sta: seq<nat>): Lsq {
    Early([writer, reader], 2, [FreeLoad], 0, sq, n, sta, [])
  }

  lemma ReachPair(a: nat)
    requires a != 0
    ensures Arrives([a, a], Pair(Writer(a, false, false, 2), Fresh(Loading(a, 0, 1)), [FreeStore, FreeStore], 0, [0, 0]))
  {
    var x, y, lq, sq := Storing(a, a, 0), Loading(a, 0, 1), [FreeLoad], [FreeStore, FreeStore];
    var e := EMPTY_ENTRY;
    Starts([a, a], 2, 1, 2);
    assert EmptyLsq(2, 1, 2) == Early([e, e], 0, lq, 0, sq, 0, [], []);
    OperandCounts(a, a, 0);
    assert Fresh(x) == Writer(a, false, false, 2);
    hide Arrives, Fresh, Writer, Early, EmptyLsq;
    Reads([a, a], [e, e], lq, sq, [], [], x);
    assert [] + seq(NumStores(x), k => x.id) == [0, 0] && [] + [x] == [x];
    Reads([a, a], [e, e], lq, sq, [0, 0], [x], y);
    assert [0, 0] + seq(NumStores(y), k => y.id) == [0, 0];
    Dispatches([a, a], [e, e], 0, lq, sq, [0, 0], x, [y]);
    assert [y] + [] == [y];
    Dispatches([a, a], [e, e][0 := Fresh(x)], 1, lq, sq, [0, 0], y, []);
    assert [e, e][0 := Fresh(x)][1 := Fresh(y)] == [Fresh(x), Fresh(y)];
  }

  /** Both stores are in their queue; `done`: the first has executed. */
  function Queued(a: nat, done: bool): Lsq {
    Pair(Writer(a, true, true, if done then 1 else 2), Fresh(Loading(a, 0, 1)),
         [Store(0, 0, a, 0, done), Store(0, 1, a, 0, false)], 2, [])
  }

  lemma QueueFirst(a: nat, y: MemEntry)
    requires a != 0
    ensures var m := Pair(Writer(a, false, false, 2), y, [FreeStore, FreeStore], 0, [0, 0]);
      && Shape(m) && CanAddStore(m, 0, 0)
      && AddStore(m, 0, 0) == Pair(Writer(a, true, false, 2), y, [Store(0, 0, a, 0, false), FreeStore], 1, [0])
  {
    hide Count;
    assert [0, 0][1..] == [0];
    assert [FreeStore, FreeStore][0 := Store(0, 0, a, 0, false)] == [Store(0, 0, a, 0, false), FreeStore];
    var e := Writer(a, false, false, 2);
    assert [e, y][0 := Writer(a, true, false, 2)] == [Writer(a, true, false, 2), y];
    assert e.destinationAdded[0 := true] == [true, false];
    assert e.sqIndex[0 := Some(0)] == [Some(0), None];
  }

  lemma QueueSecond(a: nat, y: MemEntry)
    requires a != 0
    ensures var m := Pair(Writer(a, true, false, 2), y, [Store(0, 0, a, 0, false), FreeStore], 1, [0]);
      && Shape(m) && CanAddStore(m, 0, 1)
      && AddStore(m, 0, 1) ==
           Pair(Writer(a, true, true, 2), y, [Store(0, 0, a, 0, false), Store(0, 1, a, 0, false)], 2, [])
  {
    hide Count;
    var sq := [Store(0, 0, a, 0, false), FreeStore];
    assert sq[1 := Store(0, 1, a, 0, false)] == [Store(0, 0, a, 0, false), Store(0, 1, a, 0, false)];
    var e := Writer(a, true, false, 2);
    assert [e, y][0 := Writer(a, true, true, 2)] == [Writer(a, true, true, 2), y];
    assert e.destinationAdded[1 := true] == [true, true];
    assert e.sqIndex[1 := Some(1)] == [Some(0), Some(1)];
  }

  lemma ReachQueued(a: nat)
    requires a != 0
    ensures Arrives([a, a], Queued(a, false))
  {
    var y := Fresh(Loading(a, 0, 1));
    ReachPair(a);
    QueueFirst(a, y);
    QueueSecond(a, y);
    hide Arrives, CanAddStore, AddStore, Writer, Fresh;
    AddsStore([a, a], Pair(Writer(a, false, false, 2), y, [FreeStore, FreeStore], 0, [0, 0]), 0, 0);
    AddsStore([a, a], Pair(Writer(a, true, false, 2), y, [Store(0, 0, a, 0, false), FreeStore], 1, [0]), 0, 1);
  }

  lemma ReachHalfDone(a: nat)
    requires a != 0
    ensures Arrives([a, a], Queued(a, true))
  {
    ReachQueued(a);
    var m := Queued(a, false);
    hide Arrives, Count, IsStore, IsLoad;
    var m' := MarkExecuted(m, 0);
    NothingToServe(m', 0, 2, 8);
    Executes([a, a], m, 0);
    assert m'.rob == Queued(a, true).rob && m'.sq == Queued(a, true).sq;
  }

  /** The load is then served at once; the second store still lists it and finds no such load in the queue. */
  lemma EqualStoresFault(a: nat)
    requires a != 0
    ensures !IsSafe([a, a])
  {
    ReachHalfDone(a);
    var m := Queued(a, true);
    assert Window(m) == [Storing(a, a, 0), Loading(a, 0, 1)];
    assert YoungestStore(Window(m), a, 1) == Some(0);
    hide Arrives, Count, IsStore, IsSafe;
    AddsLoad([a, a], m, 1, 0);
    assert Forwards(m.sq, a, 0);
    m := AddLoad(m, 1, 0);
    FirstOperandFaults(m, 1, 1);
    Refutes([a, a], m, 1);
  }

  // ---- Two stores to different addresses ----

  /** A buffer with a store to [a, b], a store to a, and a load of both. */
  function Trio(writer: MemEntry, second: MemEntry, reader: MemEntry,
                lq: seq<LoadSlot>, loads: int, sq: seq<StoreSlot>, n: nat, sta: seq<nat>): Lsq
  {
    Early([writer, second, reader], 3, lq, loads, sq, n, sta, [])
  }

  const NO_LOADS: seq<LoadSlot> := [FreeLoad, FreeLoad]
  const NO_STORES: seq<StoreSlot> := [FreeStore, FreeStore]

  lemma ReadTrio(a: nat, b: nat, rob: seq<MemEntry>)
    requires a != 0 && b != 0 && rob == [EMPTY_ENTRY, EMPTY_ENTRY, EMPTY_ENTRY]
    ensures Arrives([a, b], Early(rob, 0, NO_LOADS, 0, NO_STORES, 0, [0, 0, 1],
                                  [Storing(a, b, 0), Storing(a, 0, 1), Loading(a, b, 2)]))
  {
    var x, y, z := Storing(a, b, 0), Storing(a, 0, 1), Loading(a, b, 2);
    Starts([a, b], 3, 2, 2);
    assert EmptyLsq(3, 2, 2) == Early(rob, 0, NO_LOADS, 0, NO_STORES, 0, [], []);
    hide Arrives, Early, EmptyLsq;
    Reads([a, b], rob, NO_LOADS, NO_STORES, [], [], x);
    assert [] + seq(NumStores(x), k => x.id) == [0, 0] && [] + [x] == [x];
    Reads([a, b], rob, NO_LOADS, NO_STORES, [0, 0], [x], y);
    assert [0, 0] + seq(NumStores(y), k => y.id) == [0, 0, 1] && [x] + [y] == [x, y];
    Reads([a, b], rob, NO_LOADS, NO_STORES, [0, 0, 1], [x, y], z);
    assert [0, 0, 1] + seq(NumStores(z), k => z.id) == [0, 0, 1] && [x, y] + [z] == [x, y, z];
  }

  lemma DispatchTrio(destinations: Operands2, e: MemEntry, sta: seq<nat>, x: MemInstr, y: MemInstr, z: MemInstr)
    requires Arrives(destinations, Early([e, e, e], 0, NO_LOADS, 0, NO_STORES, 0, sta, [x, y, z]))
    ensures Arrives(destinations, Trio(Fresh(x), Fresh(y), Fresh(z), NO_LOADS, 0, NO_STORES, 0, sta))
  {
    hide Arrives, Fresh, Early;
    var x', y', z' := Fresh(x), Fresh(y), Fresh(z);
    assert [x, y, z] == [x] + [y, z];
    Dispatches(destinations, [e, e, e], 0, NO_LOADS, NO_STORES, sta, x, [y, z]);
    assert [y, z] == [y] + [z] && [e, e, e][0 := x'] == [x', e, e];
    Dispatches(destinations, [x', e, e], 1, NO_LOADS, NO_STORES, sta, y, [z]);
    assert [z] == [z] + [] && [x', e, e][1 := y'] == [x', y', e];
    Dispatches(destinations, [x', y', e], 2, NO_LOADS, NO_STORES, sta, z, []);
    assert [x', y', e][2 := z'] == [x', y', z'];
  }

  lemma ReachTrio(a: nat, b: nat)
    requires a != 0 && b != 0
    ensures Arrives([a, b], Trio(Fresh(Storing(a, b, 0)), Fresh(Storing(a, 0, 1)), Fresh(Loading(a, b, 2)),
                                 NO_LOADS, 0, NO_STORES, 0, [0, 0, 1]))
  {
    hide Arrives, Fresh, Early;
    ReadTrio(a, b, [EMPTY_ENTRY, EMPTY_ENTRY, EMPTY_ENTRY]);
    DispatchTrio([a, b], EMPTY_ENTRY, [0, 0, 1], Storing(a, b, 0), Storing(a, 0, 1), Loading(a, b, 2));
  }

  function FirstQueued(a: nat, b: nat): MemEntry {
    Fresh(Storing(a, b, 0)).(destinationAdded := [true, false], sqIndex := [Some(0), None])
  }

  lemma ReachFirstQueued(a: nat, b: nat)
    requires a != 0 && b != 0
    ensures Arrives([a, b], Trio(FirstQueued(a, b), Fresh(Storing(a, 0, 1)), Fresh(Loading(a, b, 2)),
                                 NO_LOADS, 0, [Store(0, 0, a, 0, false), FreeStore], 1, [0, 1]))
  {
    ReachTrio(a, b);
    var y, z := Fresh(Storing(a, 0, 1)), Fresh(Loading(a, b, 2));
    var m := Trio(Fresh(Storing(a, b, 0)), y, z, NO_LOADS, 0, NO_STORES, 0, [0, 0, 1]);
    hide Arrives, Count;
    AddsStore([a, b], m, 0, 0);
    var m' := AddStore(m, 0, 0);
    assert m'.sta == [0, 1];
    assert m'.rob[0] == FirstQueued(a, b);
    assert m'.rob == [FirstQueued(a, b), y, z];
    assert m'.sq == [Store(0, 0, a, 0, false), FreeStore];
  }

  /** The loads of entry 2 that are in the queue: of a, waiting for entry 1, and of b, waiting for entry 0. */
  function Reader(a: nat, b: nat, second: bool): MemEntry {
    Fresh(Loading(a, b, 2)).(sourceAdded := [true, second, false, false],
                             lqIndex := [Some(0), if second then Some(1) else None, None, None])
  }

  function Second(a: nat): MemEntry { Fresh(Storing(a, 0, 1)).(dependents := {2}) }

  lemma AddFirst(a: nat, b: nat, w: MemEntry, sq: seq<StoreSlot>)
    requires a != 0 && b != 0 && w == FirstQueued(a, b) && sq == [Store(0, 0, a, 0, false), FreeStore]
    ensures var m := Trio(w, Fresh(Storing(a, 0, 1)), Fresh(Loading(a, b, 2)), NO_LOADS, 0, sq, 1, [0, 1]);
      && Shape(m) && CanAddLoad(m, 2, 0)
      && AddLoad(m, 2, 0) ==
           Trio(w, Second(a), Reader(a, b, false), [Load(2, 0, a, 2, Some(1)), FreeLoad], 1, sq, 1, [0, 1])
  {
    hide Count;
    var m := Trio(w, Fresh(Storing(a, 0, 1)), Fresh(Loading(a, b, 2)), NO_LOADS, 0, sq, 1, [0, 1]);
    assert Window(m)[1] == Storing(a, 0, 1);
    assert YoungestStore(Window(m), a, 2) == Some(1);
    assert ProducerIndex(m, 2, a) == Some(1);
    hide Window, YoungestStore, ProducerIndex;
    assert !Forwards(m.sq, a, 1);
    hide Forwards;
    var m' := AddLoad(m, 2, 0);
    assert m'.rob[2].sourceAdded == Reader(a, b, false).sourceAdded;
    assert m'.rob[2].lqIndex == Reader(a, b, false).lqIndex;
    assert m'.rob[1] == Second(a);
    assert m'.rob == [w, Second(a), Reader(a, b, false)];
    assert m'.lq == [Load(2, 0, a, 2, Some(1)), FreeLoad];
  }

  lemma AddSecond(a: nat, b: nat, w: MemEntry, sq: seq<StoreSlot>)
    requires a != 0 && b != 0 && a != b && w == FirstQueued(a, b) && sq == [Store(0, 0, a, 0, false), FreeStore]
    ensures var m := Trio(w, Second(a), Reader(a, b, false), [Load(2, 0, a, 2, Some(1)), FreeLoad], 1, sq, 1, [0, 1]);
      && Shape(m) && CanAddLoad(m, 2, 1)
      && AddLoad(m, 2, 1) ==
           Trio(w.(dependents := {2}), Second(a), Reader(a, b, true),
                [Load(2, 0, a, 2, Some(1)), Load(2, 1, b, 2, Some(0))], 2, sq, 1, [0, 1])
  {
    hide Count;
    var m := Trio(w, Second(a), Reader(a, b, false), [Load(2, 0, a, 2, Some(1)), FreeLoad], 1, sq, 1, [0, 1]);
    assert Window(m)[1] == Storing(a, 0, 1) && Window(m)[0] == Storing(a, b, 0);
    assert YoungestStore(Window(m), b, 1) == Some(0);
    assert YoungestStore(Window(m), b, 2) == Some(0);
    assert ProducerIndex(m, 2, b) == Some(0);
    hide Window, YoungestStore, ProducerIndex;
    assert !Forwards(m.sq, b, 0);
    hide Forwards;
    assert FreeSlot(m.lq, 0) == FreeSlot(m.lq, 1) == 1;
    var m' := AddLoad(m, 2, 1);
    assert m'.rob[2].sourceAdded == Reader(a, b, true).sourceAdded;
    assert m'.rob[2].lqIndex == Reader(a, b, true).lqIndex;
    assert m'.rob[0] == w.(dependents := {2});
    assert m'.rob == [w.(dependents := {2}), Second(a), Reader(a, b, true)];
    assert m'.lq == [Load(2, 0, a, 2, Some(1)), Load(2, 1, b, 2, Some(0))];
  }

  /** The store to a serves nobody, but entry 2 is listed for b and its load of a names the other store. */
  lemma DistinctStoresFault(a: nat, b: nat)
    requires a != 0 && b != 0 && a != b
    ensures !IsSafe([a, b])
  {
    var w, sq := FirstQueued(a, b), [Store(0, 0, a, 0, false), FreeStore];
    ReachFirstQueued(a, b);
    AddFirst(a, b, w, sq);
    AddSecond(a, b, w, sq);
    hide Arrives, IsSafe, AddLoad, CanAddLoad, Count;
    AddsLoad([a, b], Trio(w, Fresh(Storing(a, 0, 1)), Fresh(Loading(a, b, 2)), NO_LOADS, 0, sq, 1, [0, 1]), 2, 0);
    AddsLoad([a, b],
             Trio(w, Second(a), Reader(a, b, false), [Load(2, 0, a, 2, Some(1)), FreeLoad], 1, sq, 1, [0, 1]), 2, 1);
    var m := Trio(w.(dependents := {2}), Second(a), Reader(a, b, true),
                  [Load(2, 0, a, 2, Some(1)), Load(2, 1, b, 2, Some(0))], 2, sq, 1, [0, 1]);
    FirstOperandFaults(m, 0, 2);
    Refutes([a, b], m, 0);
  }

  // ---- When the check holds ----

  /** The producer check holds in every run exactly when the destinations name at most one address. */
  lemma CheckHoldsIff(destinations: Operands2)
    ensures IsSafe(destinations) <==> destinations[0] == 0 || destinations[1] == 0
  {
    var a, b := destinations[0], destinations[1];
    assert destinations == [a, b];
    if a == 0 || b == 0 {
      forall m: Lsq, q: nat | Reaches(destinations, m) && CanExecuteStore(m, q) ensures ExecuteStore(m, q).Some? {
        SingleIsSafe(destinations, m, q);
      }
    } else if a == b {
      EqualStoresFault(a);
    } else {
      DistinctStoresFault(a, b);
    }
  }

  lemma SingleIsSafe(destinations: Operands2, m: Lsq, q: nat)
    requires destinations[0] == 0 || destinations[1] == 0
    requires Reaches(destinations, m) && CanExecuteStore(m, q)
    ensures ExecuteStore(m, q).Some?
  {
    var states: seq<Lsq>, actions: seq<Action>, capacity: nat :|
      IsRun(states, actions, capacity) && AllRead(actions, x => Allowed(x, destinations)) && states[|actions|] == m;
    hide IsRun, ExecuteStore, CanExecuteStore, ForwardInv;
    assert AllRead(actions, AtMostOneStore);
    RunLength(states, actions, capacity);
    RunKeepsForwarding(states, actions, capacity, |actions|);
    ForwardingServe.ExecuteStoreServesItsLoads(m, q);
  }

  lemma RunLength(states: seq<Lsq>, actions: seq<Action>, capacity: nat)
    requires IsRun(states, actions, capacity)
    ensures |states| == |actions| + 1
  {}
}
