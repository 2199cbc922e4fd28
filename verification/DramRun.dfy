/**
 Whole runs of the controller: safety from the initial state, data-bus spacing,
 conservation of requests, and draining once arrivals stop.
 */
module DramRun {
  import opened Counting
  import opened DramModel
  import opened DramInvariant

  // ---- Any history of arrivals and cycles ----

  datatype Event = Read(r: Request) | Write(r: Request) | Tick(now: nat)

  function Step(ch: Channel, ev: Event): (Channel, Option<Transfer>)
    requires |ch.banks| == BANK_COUNT
  {
    match ev
    case Read(r) => (AddRead(ch, r, true).0, None)
    case Write(r) => (AddWrite(ch, r, true).0, None)
    case Tick(now) => Operate(ch, now)
  }

  lemma StepKeepsInv(ch: Channel, ev: Event)
    requires Inv(ch)
    ensures Inv(Step(ch, ev).0)
  {
    match ev
    case Read(r) => AddReadKeepsInv(ch, r, true);
    case Write(r) => AddWriteKeepsInv(ch, r, true);
    case Tick(now) => OperateKeepsInv(ch, now);
  }

  /** A run: the states visited, one more than the events between them. */
  ghost predicate IsRun(states: seq<Channel>, evs: seq<Event>) {
    && |states| == |evs| + 1
    && (forall i :: 0 <= i < |states| ==> |states[i].banks| == BANK_COUNT)
    && (forall i :: 0 <= i < |evs| ==> states[i + 1] == Step(states[i], evs[i]).0)
  }

  lemma {:induction false} RunKeepsInv(states: seq<Channel>, evs: seq<Event>, n: nat)
    requires IsRun(states, evs) && Inv(states[0]) && n < |states|
    ensures Inv(states[n]) && states[n].t == states[0].t
  {
    if n > 0 {
      RunKeepsInv(states, evs, n - 1);
      StepKeepsInv(states[n - 1], evs[n - 1]);
      BusStep(states[n - 1], evs[n - 1]);
    }
  }

  /** In every reachable state the coupling holds, so every sanity check of the controller does. */
  lemma ReachableStatesAreCoupled(
      t: Timing, readSize: nat, writeSize: nat, states: seq<Channel>, evs: seq<Event>, n: nat)
    requires IsRun(states, evs) && n < |states|
    requires states[0] == Initial(t, readSize, writeSize)
    ensures Inv(states[n])
  {
    InitialInv(t, readSize, writeSize);
    RunKeepsInv(states, evs, n);
  }

  // ---- What each stage of a cycle leaves alone ----

  /** Same requests in the same slots, however they are scheduled. */
  predicate SameAddresses(es: seq<Packet>, es': seq<Packet>) {
    |es| == |es'| && forall i :: 0 <= i < |es| ==> es[i].address == es'[i].address
  }

  predicate SameRequests(ch: Channel, ch': Channel) {
    && ch'.t == ch.t
    && SameAddresses(ch.rq.entries, ch'.rq.entries) && SameAddresses(ch.wq.entries, ch'.wq.entries)
    && ch'.rq.occupancy == ch.rq.occupancy && ch'.wq.occupancy == ch.wq.occupancy
  }

  lemma SwitchFrame(ch: Channel, now: nat)
    requires Inv(ch)
    ensures SameRequests(ch, SwitchMode(ch, now))
    ensures SwitchMode(ch, now).writeMode == (ch.writeMode != Switches(ch))
    ensures SwitchMode(ch, now).busFree == ch.busFree + (if Switches(ch) then ch.t.turnAround else 0)
  {
  }

  lemma StartFrame(ch: Channel, k: nat, hit: bool, now: nat)
    requires |ch.banks| == BANK_COUNT && k < |Active(ch).entries|
    ensures SameRequests(ch, Start(ch, k, hit, now))
    ensures Start(ch, k, hit, now).writeMode == ch.writeMode && Start(ch, k, hit, now).busFree == ch.busFree
    ensures |Start(ch, k, hit, now).banks| == BANK_COUNT
  {
    var e, bank, q := StartParts(ch, k, hit, now);
  }

  lemma ScheduleFrame(ch: Channel, now: nat)
    requires |ch.banks| == BANK_COUNT
    ensures SameRequests(ch, MaybeSchedule(ch, now))
    ensures MaybeSchedule(ch, now).writeMode == ch.writeMode && MaybeSchedule(ch, now).busFree == ch.busFree
    ensures |MaybeSchedule(ch, now).banks| == BANK_COUNT
  {
    var (k, hit) := Choice(Active(ch).entries, ch.banks);
    if k != -1 {
      StartFrame(ch, k, hit, now);
    }
  }

  lemma ProcessFrame(ch: Channel, now: nat)
    requires |ch.banks| == BANK_COUNT
    ensures var (ch', out) := MaybeProcess(ch, now);
      && ch'.t == ch.t && ch'.writeMode == ch.writeMode
      && match out
         case None => SameRequests(ch, ch') && ch'.busFree == ch.busFree
         case Some(t) =>
           && ProcessDue(ch, now) && ch.busFree <= now
           && t.isWrite == ch.writeMode
           && t.address == Active(ch).entries[Active(ch).processIndex].address
           && t.doneAt == now + ch.t.busReturn == ch'.busFree
           && Active(ch').entries == Active(ch).entries[Active(ch).processIndex := EMPTY_PACKET]
           && Active(ch').occupancy == Active(ch).occupancy - 1
           && Inactive(ch') == Inactive(ch)
  {
  }

  // ---- Data-bus spacing ----

  /** Whether an event switches between reads and writes. */
  predicate Turns(ch: Channel, ev: Event) { ev.Tick? && Switches(ch) }

  function TurnTime(ch: Channel, ev: Event): nat { if Turns(ch, ev) then ch.t.turnAround else 0 }

  /** One event: a transfer starts on a free bus and holds it; a switch lengthens the wait. */
  lemma BusStep(ch: Channel, ev: Event)
    requires Inv(ch)
    ensures Step(ch, ev).0.t == ch.t
    ensures match Step(ch, ev).1
      case None => Step(ch, ev).0.busFree == ch.busFree + TurnTime(ch, ev)
      case Some(t) =>
        && ev.Tick? && ch.busFree + TurnTime(ch, ev) <= ev.now
        && Step(ch, ev).0.busFree == t.doneAt == ev.now + ch.t.busReturn
  {
    if ev.Tick? {
      SwitchFrame(ch, ev.now);
      OperateKeepsInv(ch, ev.now);
      ScheduleFrame(SwitchMode(ch, ev.now), ev.now);
      ProcessFrame(MaybeSchedule(SwitchMode(ch, ev.now), ev.now), ev.now);
    }
  }

  /** Which events of a run transfer data, and which turn the bus around. */
  ghost function TransferMask(states: seq<Channel>, evs: seq<Event>): (m: seq<bool>)
    requires IsRun(states, evs)
    ensures |m| == |evs|
  {
    seq(|evs|, i requires 0 <= i < |evs| => Step(states[i], evs[i]).1.Some?)
  }

  ghost function TurnMask(states: seq<Channel>, evs: seq<Event>): (m: seq<bool>)
    requires IsRun(states, evs)
    ensures |m| == |evs|
  {
    seq(|evs|, i requires 0 <= i < |evs| => Turns(states[i], evs[i]))
  }

  lemma CountOneMore(mask: seq<bool>, i: nat, j: nat, x: nat)
    requires i <= j < |mask|
    ensures Count(mask[i..j + 1]) * x == Count(mask[i..j]) * x + (if mask[j] then x else 0)
  {
    assert mask[i..j + 1][..j - i] == mask[i..j];
    var n := Count(mask[i..j]);
    assert (n + 1) * x == n * x + x;
  }

  /** A resource that each event holds for its own time is free no earlier than the sum of those times. */
  lemma {:induction false} HoldsAddUp(free: seq<nat>, transfers: seq<bool>, turns: seq<bool>,
                                      x: nat, y: nat, i: nat, j: nat)
    requires |free| == |transfers| + 1 == |turns| + 1 && i <= j < |free|
    requires forall n :: 0 <= n < |turns| ==>
      free[n + 1] >= free[n] + (if transfers[n] then x else 0) + (if turns[n] then y else 0)
    ensures free[j] >= free[i] + Count(transfers[i..j]) * x + Count(turns[i..j]) * y
    decreases j
  {
    if j > i {
      HoldsAddUp(free, transfers, turns, x, y, i, j - 1);
      CountOneMore(transfers, i, j - 1, x);
      CountOneMore(turns, i, j - 1, y);
    }
  }

  /** Two transfers are apart by the bus time of every transfer from the first on, and of every turnaround. */
  lemma TransfersAreSpaced(states: seq<Channel>, evs: seq<Event>, i: nat, j: nat)
    requires IsRun(states, evs) && Inv(states[0])
    requires i < j < |evs| && TransferMask(states, evs)[i] && TransferMask(states, evs)[j]
    ensures evs[i].Tick? && evs[j].Tick?
    ensures evs[j].now >= evs[i].now
      + Count(TransferMask(states, evs)[i..j]) * states[0].t.busReturn
      + Count(TurnMask(states, evs)[i + 1..j + 1]) * states[0].t.turnAround
  {
    var transfers, turns := TransferMask(states, evs), TurnMask(states, evs);
    var t := states[0].t;
    var free := seq(|states|, n requires 0 <= n < |states| => states[n].busFree);
    forall n | 0 <= n < |evs|
      ensures free[n + 1] >= free[n] + (if transfers[n] then t.busReturn else 0) + (if turns[n] then t.turnAround else 0)
    {
      RunKeepsInv(states, evs, n);
      BusStep(states[n], evs[n]);
    }
    HoldsAddUp(free, transfers, turns, t.busReturn, t.turnAround, i + 1, j);
    RunKeepsInv(states, evs, i);
    RunKeepsInv(states, evs, j);
    BusStep(states[i], evs[i]);
    BusStep(states[j], evs[j]);
    CountOneMore(turns, i + 1, j, t.turnAround);
    CountFirst(transfers, i, j, t.busReturn);
  }

  lemma {:induction false} CountFirst(mask: seq<bool>, i: nat, j: nat, x: nat)
    requires i < j <= |mask| && mask[i]
    ensures Count(mask[i..j]) * x == x + Count(mask[i + 1..j]) * x
    decreases j
  {
    if j == i + 1 {
      assert mask[i..j] == [true];
      assert mask[i + 1..j] == [];
      assert Count([true]) == Count([true][..0]) + 1;
    } else {
      CountFirst(mask, i, j - 1, x);
      CountOneMore(mask, i, j - 1, x);
      CountOneMore(mask, i + 1, j - 1, x);
    }
  }

  // ---- Conservation ----

  function Addresses(es: seq<Packet>): set<nat> {
    set i | 0 <= i < |es| && es[i].address != 0 :: es[i].address
  }

  /** The addresses a channel still owes a read or a write. */
  function Pending(ch: Channel, isWrite: bool): set<nat> {
    Addresses(if isWrite then ch.wq.entries else ch.rq.entries)
  }

  lemma SameAddressesSameSet(es: seq<Packet>, es': seq<Packet>)
    requires SameAddresses(es, es')
    ensures Addresses(es) == Addresses(es')
  {
    forall a | a in Addresses(es) ensures a in Addresses(es') {
      var i :| 0 <= i < |es| && es[i].address != 0 && a == es[i].address;
      assert es'[i].address == a;
    }
    forall a | a in Addresses(es') ensures a in Addresses(es) {
      var i :| 0 <= i < |es'| && es'[i].address != 0 && a == es'[i].address;
      assert es[i].address == a;
    }
  }

  /** Emptying one slot among distinct addresses removes exactly its address. */
  lemma EmptyingRemovesOne(es: seq<Packet>, k: nat)
    requires DistinctAddresses(es) && k < |es| && es[k].address != 0
    ensures es[k].address in Addresses(es)
    ensures Addresses(es[k := EMPTY_PACKET]) == Addresses(es) - {es[k].address}
  {
    var es' := es[k := EMPTY_PACKET];
    forall a | a in Addresses(es') ensures a in Addresses(es) && a != es[k].address {
      var i :| 0 <= i < |es'| && es'[i].address != 0 && a == es'[i].address;
      assert es[i].address == a;
    }
    forall a | a in Addresses(es) && a != es[k].address ensures a in Addresses(es') {
      var i :| 0 <= i < |es| && es[i].address != 0 && a == es[i].address;
      assert es'[i].address == a;
    }
  }

  /** A cycle pays off exactly the request it transfers, or none. */
  lemma OperatePays(ch: Channel, now: nat)
    requires Inv(ch)
    ensures match Operate(ch, now).1
      case None => forall w :: Pending(Operate(ch, now).0, w) == Pending(ch, w)
      case Some(t) =>
        && t.address in Pending(ch, t.isWrite)
        && Pending(Operate(ch, now).0, t.isWrite) == Pending(ch, t.isWrite) - {t.address}
        && Pending(Operate(ch, now).0, !t.isWrite) == Pending(ch, !t.isWrite)
  {
    OperateKeepsInv(ch, now);
    var s := SwitchMode(ch, now);
    var m := MaybeSchedule(s, now);
    SwitchFrame(ch, now);
    ScheduleFrame(s, now);
    ProcessFrame(m, now);
    SameAddressesSameSet(ch.rq.entries, s.rq.entries);
    SameAddressesSameSet(s.rq.entries, m.rq.entries);
    SameAddressesSameSet(ch.wq.entries, s.wq.entries);
    SameAddressesSameSet(s.wq.entries, m.wq.entries);
    if Operate(ch, now).1.Some? {
      ProcessedEntryIsServed(m, now);
      EmptyingRemovesOne(Active(m).entries, Active(m).processIndex);
    } else {
      SameAddressesSameSet(m.rq.entries, Operate(ch, now).0.rq.entries);
      SameAddressesSameSet(m.wq.entries, Operate(ch, now).0.wq.entries);
    }
  }
}
