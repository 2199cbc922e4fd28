/**
 Requests between the two first-level caches and the second level: every miss in flight at the first
 level has exactly one request on its way, so no queue overflows and every answer finds its miss.
 The first-level prefetchers are off, the contents of the second-level array and the last level are open.
 */
module CacheProtocol {
  import opened Counting

  datatype Side = Instructions | Data

  /** A request of the first level, with a flag for each cache that waits for it. */
  datatype Request = Request(address: nat, forI: bool, forD: bool)

  /** A miss of the second level; `level` is the nearest level that it fills, 1 or 2. */
  datatype Miss = Miss(forI: bool, forD: bool, level: nat, isPrefetch: bool, returned: bool)

  const FILL_L1: nat := 1
  const FILL_L2: nat := 2

  datatype Sizes = Sizes(l1i: nat, l1d: nat, rq: nat, wq: nat, mshr: nat)

  const SIMULATED := Sizes(8, 16, 32, 32, 32)

  /**
   The misses of the first level map an address to whether its data have returned. The second level has
   a read queue, a write queue (of addresses) and its own misses.
   */
  datatype System = System(
    l1i: map<nat, bool>, l1d: map<nat, bool>, rq: seq<Request>, wq: seq<nat>, mshr: map<nat, Miss>)

  function Misses(m: System, s: Side): map<nat, bool> { if s == Instructions then m.l1i else m.l1d }

  function WithMisses(m: System, s: Side, f: map<nat, bool>): System {
    if s == Instructions then m.(l1i := f) else m.(l1d := f)
  }

  function SizeOf(z: Sizes, s: Side): nat { if s == Instructions then z.l1i else z.l1d }

  predicate Flagged(r: Request, s: Side) { if s == Instructions then r.forI else r.forD }

  predicate MissFlagged(x: Miss, s: Side) { if s == Instructions then x.forI else x.forD }

  // ---- Answers ----

  /** Data arrive at a first-level cache. None stands for the failed check that a miss waits for them. */
  function Return(m: System, s: Side, a: nat): Option<System> {
    if a in Misses(m, s) then Some(WithMisses(m, s, Misses(m, s)[a := true])) else None
  }

  /** Answer every flagged cache, the instruction cache first. */
  function Answer(m: System, a: nat, forI: bool, forD: bool): Option<System> {
    var m1 := if forI then Return(m, Instructions, a) else Some(m);
    if m1.None? then None
    else if forD then Return(m1.value, Data, a) else m1
  }

  // ---- Requests ----

  /** The position of the request for this address, or the length when there is none. */
  function Find(rq: seq<Request>, a: nat): (i: nat)
    ensures i <= |rq|
    ensures i < |rq| ==> rq[i].address == a
    ensures forall k :: 0 <= k < i ==> rq[k].address != a
  {
    if rq == [] || rq[0].address == a then 0 else 1 + Find(rq[1..], a)
  }

  function Flag(r: Request, s: Side): Request {
    if s == Instructions then r.(forI := true) else r.(forD := true)
  }

  /** What becomes of a request at the second level. */
  datatype Outcome =
    | Accepted(system: System)
    | Full          // the request is refused, and the first level does not notice
    | Unexpected    // an answer found no miss

  function Accept(r: Option<System>): Outcome { if r.Some? then Accepted(r.value) else Unexpected }

  /** A pending write answers at once; a request for the same address is shared; else the queue must have room. */
  function AddRequest(m: System, z: Sizes, s: Side, a: nat): Outcome {
    var i := Find(m.rq, a);
    if a in m.wq then Accept(Return(m, s, a))
    else if i < |m.rq| then Accepted(m.(rq := m.rq[i := Flag(m.rq[i], s)]))
    else if |m.rq| == z.rq then Full
    else Accepted(m.(rq := m.rq + [Request(a, s == Instructions, s == Data)]))
  }

  predicate CanMiss(m: System, z: Sizes, s: Side, a: nat) {
    a != 0 && a !in Misses(m, s) && |Misses(m, s)| < SizeOf(z, s)
  }

  /** A new miss of the first level is recorded, and then requested from the second level. */
  function FirstLevelMiss(m: System, z: Sizes, s: Side, a: nat): Outcome {
    AddRequest(WithMisses(m, s, Misses(m, s)[a := false]), z, s, a)
  }

  /** The victim of a fill is written back, if it is dirty. */
  function AddWrite(m: System, victim: Option<nat>): System {
    if victim.None? || victim.value in m.wq then m else m.(wq := m.wq + [victim.value])
  }

  predicate CanFill(m: System, z: Sizes, s: Side, a: nat, victim: Option<nat>) {
    a in Misses(m, s) && Misses(m, s)[a] && (victim.Some? ==> victim.value != 0 && |m.wq| < z.wq)
  }

  /** A returned miss fills its cache and is forgotten. */
  function FirstLevelFill(m: System, s: Side, a: nat, victim: Option<nat>): System {
    WithMisses(AddWrite(m, victim), s, Misses(m, s) - {a})
  }

  // ---- The second level ----

  /** The oldest request hits the array. */
  function ReadHit(m: System): Outcome
    requires m.rq != []
  {
    var r := m.rq[0];
    match Answer(m, r.address, r.forI, r.forD)
    case None => Unexpected
    case Some(m') => Accepted(m'.(rq := m'.rq[1..]))
  }

  /** A request joins a miss; a prefetch is replaced by the request, except that it may have returned. */
  function Merge(x: Miss, r: Request): Miss {
    var joined := x.(level := if FILL_L1 < x.level then FILL_L1 else x.level,
                     forI := x.forI || r.forI, forD := x.forD || r.forD);
    if x.isPrefetch then Miss(r.forI, r.forD, FILL_L1, false, x.returned) else joined
  }

  predicate CanReadMiss(m: System, z: Sizes) {
    m.rq != [] && (m.rq[0].address in m.mshr || |m.mshr| < z.mshr)
  }

  /** The oldest request misses: it joins the miss in flight, or becomes one. */
  function ReadMiss(m: System): System
    requires m.rq != []
  {
    var r := m.rq[0];
    var x := if r.address in m.mshr then Merge(m.mshr[r.address], r) else Miss(r.forI, r.forD, FILL_L1, false, false);
    m.(mshr := m.mshr[r.address := x], rq := m.rq[1..])
  }

  predicate CanPrefetch(m: System, z: Sizes, a: nat) { a in m.mshr || |m.mshr| < z.mshr }

  /** A prefetch of the second level that is to fill it. */
  function Prefetch(m: System, a: nat): System {
    if a in m.mshr then
      var x := m.mshr[a];
      m.(mshr := m.mshr[a := x.(level := if FILL_L2 < x.level then FILL_L2 else x.level)])
    else m.(mshr := m.mshr[a := Miss(false, false, FILL_L2, true, false)])
  }

  /** The last level answers a miss in flight, possibly more than once. */
  function LastLevelReturns(m: System, a: nat): System
    requires a in m.mshr
  {
    m.(mshr := m.mshr[a := m.mshr[a].(returned := true)])
  }

  predicate CanSecondFill(m: System, a: nat) { a in m.mshr && m.mshr[a].returned }

  /** A returned miss fills the second level, answers the first, and is forgotten. */
  function SecondLevelFill(m: System, a: nat): Outcome
    requires a in m.mshr
  {
    var x := m.mshr[a];
    var r := if x.level < FILL_L2 then Answer(m, a, x.forI, x.forD) else Some(m);
    match r
    case None => Unexpected
    case Some(m') => Accepted(m'.(mshr := m'.mshr - {a}))
  }

  /** The oldest write leaves the write queue, whatever it does to the array. */
  function WriteBack(m: System): System
    requires m.wq != []
  {
    m.(wq := m.wq[1..])
  }

  // ---- The invariant ----

  /** Some request in the queue is for this address and flagged for this cache. */
  ghost predicate InQueue(rq: seq<Request>, s: Side, a: nat) {
    exists i :: 0 <= i < |rq| && rq[i].address == a && Flagged(rq[i], s)
  }

  predicate InMisses(m: System, s: Side, a: nat) { a in m.mshr && MissFlagged(m.mshr[a], s) }

  /** How many requests are on their way to answer this miss. */
  ghost function Tokens(m: System, s: Side, a: nat): nat {
    (if InQueue(m.rq, s, a) then 1 else 0) + (if InMisses(m, s, a) then 1 else 0)
  }

  predicate InFlight(m: System, s: Side, a: nat) { a in Misses(m, s) && !Misses(m, s)[a] }

  /** A miss in flight has one request on its way; a returned or absent one has none. */
  ghost predicate Conserved(m: System) { forall s: Side, a: nat :: ConservedAt(m, s, a) }

  ghost predicate ConservedAt(m: System, s: Side, a: nat) {
    Tokens(m, s, a) == if InFlight(m, s, a) then 1 else 0
  }

  ghost predicate QueueOk(m: System) {
    && (forall i, j :: 0 <= i < j < |m.rq| ==> m.rq[i].address != m.rq[j].address)
    && (forall i :: 0 <= i < |m.rq| ==> (m.rq[i].forI || m.rq[i].forD) && m.rq[i].address != 0)
  }

  /** A prefetch answers nobody, and a miss that answers somebody fills the first level. */
  predicate MissOk(x: Miss) {
    && (x.isPrefetch ==> !x.forI && !x.forD) && (x.forI || x.forD ==> x.level == FILL_L1)
    && FILL_L1 <= x.level <= FILL_L2
  }

  ghost predicate MissesOk(m: System) { forall a :: a in m.mshr ==> MissOk(m.mshr[a]) }

  predicate Fits(m: System, z: Sizes) {
    |m.l1i| <= z.l1i && |m.l1d| <= z.l1d && |m.rq| <= z.rq && |m.wq| <= z.wq && |m.mshr| <= z.mshr
  }

  ghost predicate Inv(m: System, z: Sizes) { Conserved(m) && QueueOk(m) && MissesOk(m) && Fits(m, z) }

  // ---- The queue never holds more requests than there are misses in flight ----

  /** The misses that the requests stand for, one each. */
  function Waiting(r: Request): (Side, nat) {
    (if r.forI then Instructions else Data, r.address)
  }

  ghost function AllWaiting(rq: seq<Request>): set<(Side, nat)> { set i | 0 <= i < |rq| :: Waiting(rq[i]) }

  ghost function Tagged(s: Side, keys: set<nat>): set<(Side, nat)> { set a | a in keys :: (s, a) }

  ghost function AllMisses(m: System): set<(Side, nat)> {
    Tagged(Instructions, m.l1i.Keys) + Tagged(Data, m.l1d.Keys)
  }

  lemma {:induction false} WaitingAreMany(rq: seq<Request>)
    requires forall i, j :: 0 <= i < j < |rq| ==> rq[i].address != rq[j].address
    ensures |AllWaiting(rq)| == |rq|
  {
    if rq != [] {
      var last := |rq| - 1;
      WaitingAreMany(rq[..last]);
      assert AllWaiting(rq) == AllWaiting(rq[..last]) + {Waiting(rq[last])};
    }
  }

  lemma {:induction false} TaggedSize(s: Side, keys: set<nat>)
    ensures |Tagged(s, keys)| == |keys|
  {
    if a :| a in keys {
      TaggedSize(s, keys - {a});
      assert Tagged(s, keys) == Tagged(s, keys - {a}) + {(s, a)};
    } else {
      assert Tagged(s, keys) == {};
    }
  }

  lemma MissesAreFew(m: System)
    ensures |AllMisses(m)| <= |m.l1i| + |m.l1d|
  {
    TaggedSize(Instructions, m.l1i.Keys);
    TaggedSize(Data, m.l1d.Keys);
  }

  /** With a request for every miss, the queue holds at most as many requests as the first level has misses. */
  lemma QueueIsShort(m: System)
    requires Conserved(m) && QueueOk(m)
    ensures |m.rq| <= |m.l1i| + |m.l1d|
  {
    WaitingAreMany(m.rq);
    MissesAreFew(m);
    forall i | 0 <= i < |m.rq| ensures Waiting(m.rq[i]) in AllMisses(m) {
      var (s, a) := Waiting(m.rq[i]);
      assert InQueue(m.rq, s, a) && ConservedAt(m, s, a);
      assert InFlight(m, s, a);
    }
    SubsetSize(AllWaiting(m.rq), AllMisses(m));
  }
}
