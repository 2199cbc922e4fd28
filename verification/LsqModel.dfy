/**
 The load and store queues beside the reorder buffer: stores enter their queue in program order, loads
 wait for the youngest older store to their address and take its data.
 */
module LsqModel {
  import opened Counting
  import opened CoreTypes

  /** Memory operands are virtual addresses; the other fields of an instruction play no part here. */
  datatype MemInstr = MemInstr(id: nat, sources: Operands4, destinations: Operands2)

  /** `dependents` holds the indices of younger loads that wait for, or were served by, this store. */
  datatype MemEntry = MemEntry(
    live: bool, instr: MemInstr, sourceAdded: Flags4, destinationAdded: Flags2,
    lqIndex: Links4, sqIndex: Links2, dependents: set<nat>, numOps: int, completed: bool)

  datatype LoadSlot = FreeLoad | Load(robIndex: nat, operand: nat, address: nat, id: nat, producer: Option<nat>)
  datatype StoreSlot = FreeStore | Store(robIndex: nat, operand: nat, address: nat, id: nat, executed: bool)

  /** `sta` lists the ids of the stores that are not in the store queue yet; `front` is fetch and decode. */
  datatype Lsq = Lsq(
    rob: seq<MemEntry>, head: nat, tail: nat, occupancy: nat,
    lq: seq<LoadSlot>, lqOccupancy: int,
    sq: seq<StoreSlot>, sqHead: nat, sqTail: nat, sqOccupancy: nat,
    sta: seq<nat>, front: seq<MemInstr>, nextId: nat)

  const EMPTY_ENTRY := MemEntry(
    false, MemInstr(0, [0, 0, 0, 0], [0, 0]), [false, false, false, false], [false, false],
    [None, None, None, None], [None, None], {}, 0, false)

  function IsLoad(x: MemInstr): Flags4 {
    seq(NUM_SOURCES, j requires 0 <= j < NUM_SOURCES => x.sources[j] != 0)
  }

  function IsStore(x: MemInstr): Flags2 {
    seq(NUM_DESTINATIONS, k requires 0 <= k < NUM_DESTINATIONS => x.destinations[k] != 0)
  }

  function Fresh(x: MemInstr): MemEntry {
    EMPTY_ENTRY.(live := true, instr := x, numOps := Count(IsLoad(x)) + Count(IsStore(x)))
  }

  predicate Live(m: Lsq, i: nat) { i < |m.rob| && Age(m.head, |m.rob|, i) < m.occupancy }

  function Next(i: nat, size: nat): nat { if i + 1 == size then 0 else i + 1 }

  predicate Shape(m: Lsq) {
    && m.head < |m.rob| && m.occupancy <= |m.rob|
    && m.tail == At(m.head, |m.rob|, if m.occupancy == |m.rob| then 0 else m.occupancy)
    && m.sqHead < |m.sq| && m.sqOccupancy <= |m.sq|
    && m.sqTail == At(m.sqHead, |m.sq|, if m.sqOccupancy == |m.sq| then 0 else m.sqOccupancy)
  }

  // ---- Program order ----

  /** The instructions in the reorder buffer and in front of it, oldest first. */
  function Window(m: Lsq): (w: seq<MemInstr>)
    requires Shape(m)
    ensures |w| == m.occupancy + |m.front|
  {
    seq(m.occupancy, a requires 0 <= a < m.occupancy => m.rob[At(m.head, |m.rob|, a)].instr) + m.front
  }

  predicate WritesTo(x: MemInstr, address: nat) { address in x.destinations }

  /** The position of the youngest of the first n instructions that stores to this address. */
  function YoungestStore(w: seq<MemInstr>, address: nat, n: nat): (p: Option<nat>)
    requires n <= |w|
    ensures p.Some? ==> p.value < n && WritesTo(w[p.value], address)
    ensures forall a :: (if p.Some? then p.value + 1 else 0) <= a < n ==> !WritesTo(w[a], address)
  {
    if n == 0 then None
    else if WritesTo(w[n - 1], address) then Some(n - 1)
    else YoungestStore(w, address, n - 1)
  }

  // ---- Entering the window ----

  /** An instruction is read: it queues in front, and each of its stores is listed. */
  function Read(m: Lsq, x: MemInstr): Lsq {
    m.(front := m.front + [x], nextId := m.nextId + 1,
       sta := m.sta + seq(Count(IsStore(x)), k => x.id))
  }

  function Dispatch(m: Lsq): Lsq
    requires m.tail < |m.rob| && m.front != []
  {
    m.(rob := m.rob[m.tail := Fresh(m.front[0])], occupancy := m.occupancy + 1,
       tail := Next(m.tail, |m.rob|), front := m.front[1..])
  }

  // ---- Entering the queues ----

  /** A store enters the store queue only when it is the next one on the list. */
  predicate CanAddStore(m: Lsq, c: nat, k: nat) {
    && Live(m, c) && k < NUM_DESTINATIONS
    && m.rob[c].instr.destinations[k] != 0 && !m.rob[c].destinationAdded[k]
    && m.sqOccupancy < |m.sq| && m.sta != [] && m.sta[0] == m.rob[c].instr.id
    && forall k' :: 0 <= k' < k && m.rob[c].instr.destinations[k'] != 0 ==> m.rob[c].destinationAdded[k']
  }

  function AddStore(m: Lsq, c: nat, k: nat): Lsq
    requires Shape(m) && CanAddStore(m, c, k)
  {
    var e := m.rob[c];
    m.(rob := m.rob[c := e.(destinationAdded := e.destinationAdded[k := true],
                            sqIndex := e.sqIndex[k := Some(m.sqTail)])],
       sq := m.sq[m.sqTail := Store(c, k, e.instr.destinations[k], e.instr.id, false)],
       sqOccupancy := m.sqOccupancy + 1, sqTail := Next(m.sqTail, |m.sq|), sta := m.sta[1..])
  }

  /** The first free slot of the load queue at or after index l. */
  function FreeSlot(lq: seq<LoadSlot>, l: nat): (r: nat)
    requires l <= |lq|
    ensures l <= r <= |lq| && (r < |lq| ==> lq[r] == FreeLoad)
    ensures forall i :: l <= i < r ==> lq[i] != FreeLoad
    decreases |lq| - l
  {
    if l == |lq| || lq[l] == FreeLoad then l else FreeSlot(lq, l + 1)
  }

  /** The first slot of the store queue that holds the producer's store to this address. */
  function ForwardingSlot(sq: seq<StoreSlot>, address: nat, id: nat, q: nat): (r: nat)
    requires q <= |sq|
    ensures q <= r <= |sq|
    ensures r < |sq| ==> sq[r].Store? && sq[r].address == address && sq[r].id == id
    ensures forall i :: q <= i < r ==> sq[i] == FreeStore || sq[i].address != address || sq[i].id != id
    decreases |sq| - q
  {
    if q == |sq| || (sq[q].Store? && sq[q].address == address && sq[q].id == id) then q
    else ForwardingSlot(sq, address, id, q + 1)
  }

  predicate CanAddLoad(m: Lsq, c: nat, j: nat) {
    && Live(m, c) && j < NUM_SOURCES
    && m.rob[c].instr.sources[j] != 0 && !m.rob[c].sourceAdded[j]
    && FreeSlot(m.lq, 0) < |m.lq|
  }

  /** The index of the youngest older store to the address that entry c loads, if there is one. */
  function ProducerIndex(m: Lsq, c: nat, address: nat): (p: Option<nat>)
    requires Shape(m) && Live(m, c)
    ensures p.Some? ==> p.value < |m.rob| && Age(m.head, |m.rob|, p.value) < Age(m.head, |m.rob|, c)
  {
    match YoungestStore(Window(m), address, Age(m.head, |m.rob|, c))
    case None => None
    case Some(a) => Some(At(m.head, |m.rob|, a))
  }

  /** The data are already in the store queue: the load does not need the cache. */
  predicate Forwards(sq: seq<StoreSlot>, address: nat, id: nat) {
    var q := ForwardingSlot(sq, address, id, 0);
    q < |sq| && sq[q].executed
  }

  /** A load enters the queue, or is served at once from a store that has executed. */
  function AddLoad(m: Lsq, c: nat, j: nat): Lsq
    requires Shape(m) && CanAddLoad(m, c, j)
  {
    var e, l := m.rob[c], FreeSlot(m.lq, 0);
    var address := e.instr.sources[j];
    var added := e.(sourceAdded := e.sourceAdded[j := true], lqIndex := e.lqIndex[j := Some(l)]);
    var load := Load(c, j, address, e.instr.id, None);
    match ProducerIndex(m, c, address)
    case None => m.(rob := m.rob[c := added], lq := m.lq[l := load], lqOccupancy := m.lqOccupancy + 1)
    case Some(p) =>
      var id := m.rob[p].instr.id;
      var rob := m.rob[p := m.rob[p].(dependents := m.rob[p].dependents + {c})];
      if Forwards(m.sq, address, id) then m.(rob := rob[c := added.(numOps := e.numOps - 1)])
      else
        m.(rob := rob[c := added], lq := m.lq[l := load.(producer := Some(id))],
           lqOccupancy := m.lqOccupancy + 1)
  }

  // ---- Finishing ----

  /** The cache returns the data of a load that waits for no store. */
  predicate CanFinishLoad(m: Lsq, l: nat) { l < |m.lq| && m.lq[l].Load? && m.lq[l].producer == None }

  /** Free a slot of the load queue and count the operation as done. */
  function ReleaseLoad(m: Lsq, l: nat): Lsq
    requires l < |m.lq| && m.lq[l].Load? && m.lq[l].robIndex < |m.rob|
  {
    var i := m.lq[l].robIndex;
    m.(rob := m.rob[i := m.rob[i].(numOps := m.rob[i].numOps - 1)],
       lq := m.lq[l := FreeLoad], lqOccupancy := m.lqOccupancy - 1)
  }

  predicate CanExecuteStore(m: Lsq, q: nat) {
    q < |m.sq| && m.sq[q].Store? && !m.sq[q].executed && m.sq[q].robIndex < |m.rob|
  }

  /** Operand j of entry d may be one that the store in slot q serves. */
  predicate Matches(m: Lsq, q: nat, d: nat, j: nat)
    requires q < |m.sq| && m.sq[q].Store? && m.sq[q].robIndex < |m.rob|
    requires d < |m.rob| && j < NUM_SOURCES
  {
    && d in m.rob[m.sq[q].robIndex].dependents
    && m.rob[d].instr.sources[j] != 0 && m.rob[d].sourceAdded[j]
    && m.rob[d].instr.sources[j] == m.sq[q].address
  }

  /** The slot that operand j of entry d names holds a load that waits for the store in slot q. */
  predicate WaitsFor(m: Lsq, q: nat, d: nat, j: nat)
    requires q < |m.sq| && m.sq[q].Store? && d < |m.rob| && j < NUM_SOURCES
  {
    match m.rob[d].lqIndex[j]
    case None => false
    case Some(l) =>
      && l < |m.lq| && m.lq[l].Load? && m.lq[l].producer == Some(m.sq[q].id) && m.lq[l].robIndex < |m.rob|
  }

  /**
   Serve the loads among the first n (entry, operand) pairs that match the store in slot q.
   None stands for the failed check that a matching load names this store as its producer.
   */
  function ServeUpTo(m: Lsq, q: nat, n: nat): (r: Option<Lsq>)
    requires q < |m.sq| && m.sq[q].Store? && m.sq[q].robIndex < |m.rob| && n <= |m.rob| * NUM_SOURCES
    ensures r.Some? ==> |r.value.rob| == |m.rob| && r.value.sq == m.sq
  {
    if n == 0 then Some(m)
    else
      match ServeUpTo(m, q, n - 1)
      case None => None
      case Some(m') => Serve(m', q, (n - 1) / NUM_SOURCES, (n - 1) % NUM_SOURCES)
  }

  function Serve(m: Lsq, q: nat, d: nat, j: nat): (r: Option<Lsq>)
    requires q < |m.sq| && m.sq[q].Store? && m.sq[q].robIndex < |m.rob| && d < |m.rob| && j < NUM_SOURCES
    ensures r.Some? ==> |r.value.rob| == |m.rob| && r.value.sq == m.sq
  {
    if !Matches(m, q, d, j) then Some(m)
    else if WaitsFor(m, q, d, j) then Some(ReleaseLoad(m, m.rob[d].lqIndex[j].value))
    else None
  }

  /** The store's own operation is done, before any load is served. */
  function MarkExecuted(m: Lsq, q: nat): Lsq
    requires CanExecuteStore(m, q)
  {
    var i := m.sq[q].robIndex;
    m.(sq := m.sq[q := m.sq[q].(executed := true)], rob := m.rob[i := m.rob[i].(numOps := m.rob[i].numOps - 1)])
  }

  function ExecuteStore(m: Lsq, q: nat): Option<Lsq>
    requires CanExecuteStore(m, q)
  {
    ServeUpTo(MarkExecuted(m, q), q, |m.rob| * NUM_SOURCES)
  }

  // ---- Leaving ----

  /** All operations of the entry are in the queues. */
  predicate AllAdded(e: MemEntry) {
    && (forall j :: 0 <= j < NUM_SOURCES && e.instr.sources[j] != 0 ==> e.sourceAdded[j])
    && (forall k :: 0 <= k < NUM_DESTINATIONS && e.instr.destinations[k] != 0 ==> e.destinationAdded[k])
  }

  predicate CanComplete(m: Lsq, c: nat) {
    Live(m, c) && !m.rob[c].completed && m.rob[c].numOps == 0 && AllAdded(m.rob[c])
  }

  function Complete(m: Lsq, c: nat): Lsq
    requires CanComplete(m, c)
  {
    m.(rob := m.rob[c := m.rob[c].(completed := true)])
  }

  /** Free one slot of the store queue and advance its head. */
  function FreeStoreSlot(m: Lsq, slot: Option<nat>): Lsq
    requires slot.Some? ==> slot.value < |m.sq| && m.sqOccupancy > 0
  {
    match slot
    case None => m
    case Some(q) =>
      m.(sq := m.sq[q := FreeStore], sqOccupancy := m.sqOccupancy - 1, sqHead := Next(m.sqHead, |m.sq|))
  }

  predicate CanRetire(m: Lsq) { m.head < |m.rob| && m.occupancy > 0 && m.rob[m.head].completed }

  /** The slots that retirement frees exist. */
  predicate SlotsOfHeadExist(m: Lsq)
    requires m.head < |m.rob|
  {
    var e := m.rob[m.head];
    && (forall k :: 0 <= k < NUM_DESTINATIONS && e.sqIndex[k].Some? ==> e.sqIndex[k].value < |m.sq|)
    && (if e.sqIndex[0].Some? then 1 else 0) + (if e.sqIndex[1].Some? then 1 else 0) <= m.sqOccupancy
  }

  function Retire(m: Lsq): Lsq
    requires CanRetire(m) && SlotsOfHeadExist(m)
  {
    var e := m.rob[m.head];
    FreeStoreSlot(FreeStoreSlot(m, e.sqIndex[0]), e.sqIndex[1]).(
      rob := m.rob[m.head := EMPTY_ENTRY], occupancy := m.occupancy - 1, head := Next(m.head, |m.rob|))
  }
}
