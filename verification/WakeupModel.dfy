/**
 Register wakeup in the reorder buffer: which instruction waits for which, who is ready, and how
 completion releases waiters, over a circular buffer whose slots are reused.
 */
module WakeupModel {
  import opened Counting
  import opened CoreTypes

  datatype Stage = NotYet | Inflight | Completed

  /** Register 0 stands for "no operand". */
  datatype Instr = Instr(id: nat, isMemory: bool, sources: Operands4, destinations: Operands2)

  /** A buffer entry; `waiters` and `slotWaiters` hold the indices of the entries that wait for it. */
  datatype Entry = Entry(
    live: bool, instr: Instr, scheduled: Stage, executed: Stage, regReady: bool, numDependent: int,
    checked: Flags4, isProducer: bool, waiters: set<nat>, slotWaiters: Sets4)

  const NO_INSTR := Instr(0, false, [0, 0, 0, 0], [0, 0])
  const EMPTY_ENTRY := Entry(false, NO_INSTR, NotYet, NotYet, false, 0, [false, false, false, false],
                             false, {}, [{}, {}, {}, {}])

  function Fresh(x: Instr): Entry { EMPTY_ENTRY.(live := true, instr := x) }

  /** The rings hold reorder-buffer indices in the order they became ready. */
  datatype Core = Core(rob: seq<Entry>, head: nat, tail: nat, occupancy: nat, rte0: seq<nat>, rte1: seq<nat>)

  // ---- The circular buffer ----

  predicate Live(m: Core, i: nat) { i < |m.rob| && Age(m.head, |m.rob|, i) < m.occupancy }

  predicate Older(m: Core, i: nat, j: nat) { Age(m.head, |m.rob|, i) < Age(m.head, |m.rob|, j) }

  predicate Shape(m: Core) {
    && m.head < |m.rob| && m.occupancy <= |m.rob|
    && m.tail == At(m.head, |m.rob|, if m.occupancy == |m.rob| then 0 else m.occupancy)
  }

  // ---- Who waits for whom ----

  predicate Writes(e: Entry, r: nat) { r != 0 && r in e.instr.destinations }

  /** Entry e has not completed and index c waits for it with source slot j. */
  predicate Awaits(e: Entry, j: nat, c: nat) {
    e.executed != Completed && j < NUM_SOURCES && c in e.slotWaiters[j]
  }

  /** All pairs of an uncompleted producer and a source slot through which index c waits. */
  ghost function Pairs(rob: seq<Entry>, c: nat): set<(nat, nat)> {
    set p: nat, j: nat | 0 <= p < |rob| && 0 <= j < NUM_SOURCES && Awaits(rob[p], j, c) :: (p, j)
  }

  /** The youngest uncompleted writer of a register among the ages lo..hi-1. */
  function Producer(rob: seq<Entry>, head: nat, r: nat, lo: nat, hi: nat): (p: Option<nat>)
    requires head < |rob| && hi <= |rob|
    decreases hi - lo
  {
    if lo >= hi then None
    else
      var later := Producer(rob, head, r, lo + 1, hi);
      var i := At(head, |rob|, lo);
      if later.Some? then later
      else if rob[i].executed != Completed && Writes(rob[i], r) then Some(i) else None
  }

  /** What the search finds: the youngest uncompleted writer in the range, if there is one. */
  lemma {:induction false} ProducerIsYoungest(rob: seq<Entry>, head: nat, r: nat, lo: nat, hi: nat)
    requires head < |rob| && hi <= |rob|
    ensures match Producer(rob, head, r, lo, hi)
      case None => forall a :: lo <= a < hi ==>
        rob[At(head, |rob|, a)].executed == Completed || !Writes(rob[At(head, |rob|, a)], r)
      case Some(p) =>
        && p < |rob| && lo <= Age(head, |rob|, p) < hi
        && rob[p].executed != Completed && Writes(rob[p], r)
        && forall a :: Age(head, |rob|, p) < a < hi ==>
             rob[At(head, |rob|, a)].executed == Completed || !Writes(rob[At(head, |rob|, a)], r)
    decreases hi - lo
  {
    if lo < hi {
      ProducerIsYoungest(rob, head, r, lo + 1, hi);
    }
  }

  // ---- Scheduling ----

  /** The producers found for the four source slots of index c among the ages from lo on. */
  function Producers(rob: seq<Entry>, head: nat, c: nat, lo: nat): (ps: Links4)
    requires head < |rob| && c < |rob|
  {
    seq(NUM_SOURCES, j requires 0 <= j < NUM_SOURCES =>
      Producer(rob, head, rob[c].instr.sources[j], lo, Age(head, |rob|, c)))
  }

  function Found(ps: Links4): (m: Flags4) {
    seq(NUM_SOURCES, j requires 0 <= j < NUM_SOURCES => ps[j].Some?)
  }

  /** Entry p after index c was linked to its producers. */
  function Linked(e: Entry, p: nat, c: nat, ps: Links4): Entry {
    if p == c then
      e.(checked := Found(ps), numDependent := Count(Found(ps)), regReady := Count(Found(ps)) == 0)
    else if Some(p) in ps then
      e.(isProducer := true, waiters := e.waiters + {c},
         slotWaiters := seq(NUM_SOURCES, j requires 0 <= j < NUM_SOURCES =>
           if ps[j] == Some(p) then e.slotWaiters[j] + {c} else e.slotWaiters[j]))
    else e
  }

  function LinkAll(rob: seq<Entry>, c: nat, ps: Links4): (r: seq<Entry>)
    ensures |r| == |rob|
  {
    seq(|rob|, p requires 0 <= p < |rob| => Linked(rob[p], p, c, ps))
  }

  /** In-order scheduling of entry c: link its sources, and queue it when it needs nothing. */
  function Schedule(m: Core, c: nat): Core
    requires Shape(m) && c < |m.rob|
  {
    var ps := Producers(m.rob, m.head, c, 0);
    var rob := LinkAll(m.rob, c, ps);
    if m.rob[c].instr.isMemory then m.(rob := rob[c := rob[c].(scheduled := Inflight)])
    else
      m.(rob := rob[c := rob[c].(scheduled := Completed)],
         rte1 := if rob[c].regReady then m.rte1 + [c] else m.rte1)
  }

  // ---- Execution and release ----

  function Issue0(m: Core): Core
    requires m.rte0 != [] && m.rte0[0] < |m.rob|
  {
    m.(rob := m.rob[m.rte0[0] := m.rob[m.rte0[0]].(executed := Inflight)], rte0 := m.rte0[1..])
  }

  function Issue1(m: Core): Core
    requires m.rte1 != [] && m.rte1[0] < |m.rob|
  {
    m.(rob := m.rob[m.rte1[0] := m.rob[m.rte1[0]].(executed := Inflight)], rte1 := m.rte1[1..])
  }

  /** A memory instruction whose accesses are all in the load and store queues. */
  function StartMemory(m: Core, c: nat): Core
    requires c < |m.rob|
  {
    m.(rob := m.rob[c := m.rob[c].(scheduled := Completed,
      executed := if m.rob[c].executed == NotYet then Inflight else m.rob[c].executed)])
  }

  /** Through how many slots index i waits for entry e. */
  function SlotMask(e: Entry, i: nat): (m: Flags4) {
    seq(NUM_SOURCES, j requires 0 <= j < NUM_SOURCES => i in e.slotWaiters[j])
  }

  /** A waiter after n of its dependences are gone. */
  function Released(e: Entry, n: nat): Entry {
    var e' := e.(numDependent := e.numDependent - n);
    if n == 0 then e
    else if e'.numDependent != 0 then e'
    else e'.(regReady := true, scheduled := if e.instr.isMemory then Inflight else Completed)
  }

  function Release(e: Entry, p: Entry, i: nat): Entry {
    if i in p.waiters then Released(e, Count(SlotMask(p, i))) else e
  }

  function ReleaseAll(rob: seq<Entry>, p: Entry, n: nat): (r: seq<Entry>)
    ensures |r| == |rob|
  {
    seq(|rob|, i requires 0 <= i < |rob| => if i < n then Release(rob[i], p, i) else rob[i])
  }

  /** Releasing entry i from p makes it ready for the execution ring. */
  predicate Wakes(rob: seq<Entry>, p: Entry, i: nat)
    requires i < |rob|
  {
    i in p.waiters && Count(SlotMask(p, i)) > 0
    && rob[i].numDependent == Count(SlotMask(p, i)) && !rob[i].instr.isMemory
  }

  /** The indices below n that a completion wakes, in ascending order. */
  function Woken(rob: seq<Entry>, p: Entry, n: nat): (w: seq<nat>)
    requires n <= |rob|
    ensures forall i: nat :: i in w <==> i < n && Wakes(rob, p, i)
    ensures forall x, y :: 0 <= x < y < |w| ==> w[x] < w[y]
    ensures forall x :: 0 <= x < |w| ==> w[x] < n
  {
    if n == 0 then []
    else if Wakes(rob, p, n - 1) then Woken(rob, p, n - 1) + [n - 1]
    else Woken(rob, p, n - 1)
  }

  /** Completion of an entry in flight releases its waiters. */
  function Complete(m: Core, c: nat): Core
    requires Shape(m) && c < |m.rob|
  {
    var rob := m.rob[c := m.rob[c].(executed := Completed)];
    if !m.rob[c].isProducer then m.(rob := rob)
    else
      m.(rob := ReleaseAll(rob, rob[c], |rob|), rte0 := m.rte0 + Woken(rob, rob[c], |rob|))
  }

  // ---- Entering and leaving the buffer ----

  function Dispatch(m: Core, x: Instr): Core
    requires m.tail < |m.rob|
  {
    m.(rob := m.rob[m.tail := Fresh(x)], occupancy := m.occupancy + 1,
       tail := if m.tail + 1 >= |m.rob| then 0 else m.tail + 1)
  }

  function Retire(m: Core): Core
    requires m.head < |m.rob| && m.occupancy > 0
  {
    m.(rob := m.rob[m.head := EMPTY_ENTRY], occupancy := m.occupancy - 1,
       head := if m.head + 1 == |m.rob| then 0 else m.head + 1)
  }
}
