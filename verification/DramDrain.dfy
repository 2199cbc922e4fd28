/**
 Liveness of the controller: once arrivals stop and the clock advances, both queues empty,
 and every request that was queued uses the data bus exactly once.
 */
module DramDrain {
  import opened Counting
  import opened DramModel
  import opened DramInvariant
  import opened DramRun

  predicate Drained(ch: Channel) { ch.rq.occupancy == 0 && ch.wq.occupancy == 0 }

  /** A run without arrivals: one operate() per tick of a clock that advances. */
  ghost predicate IsQuietRun(run: nat -> Channel, clock: nat -> nat) {
    && (forall i: nat :: |run(i).banks| == BANK_COUNT)
    && (forall i: nat :: run(i + 1) == Operate(run(i), clock(i)).0)
    && (forall i: nat :: clock(i) < clock(i + 1))
  }

  // ---- The measure: requests owed, a switch due, entries to start, cycles to wait ----

  function Owed(ch: Channel): int { ch.rq.occupancy + ch.wq.occupancy }

  function SwitchesDue(ch: Channel): nat { if Switches(ch) then 1 else 0 }

  function ToStart(ch: Channel): nat { Count(Waiting(Active(ch).entries)) }

  function Max(a: nat, b: nat): nat { if a > b then a else b }

  /** The cycle by which an active queue that keeps its mode makes progress. */
  function Deadline(ch: Channel): nat
    requires |ch.banks| == BANK_COUNT
  {
    var q := Active(ch);
    if q.processCycle.At? && q.processIndex < |q.entries| then
      Max(q.processCycle.c,
          Max(ch.banks[BankIndex(q.entries[q.processIndex].address)].cycleAvailable, ch.busFree))
    else if q.scheduleCycle.At? then q.scheduleCycle.c else 0
  }

  function Wait(ch: Channel, now: nat): nat
    requires |ch.banks| == BANK_COUNT
  {
    if Deadline(ch) > now then Deadline(ch) - now else 0
  }

  lemma OccupancyIsNatural(q: Queue)
    requires QueueOk(q)
    ensures q.occupancy >= 0
    ensures q.occupancy > 0 ==> exists i :: 0 <= i < |q.entries| && q.entries[i].address != 0
  {
    CountExtremes(Occupied(q.entries));
    if q.occupancy > 0 {
      var i :| 0 <= i < |q.entries| && Occupied(q.entries)[i];
      assert q.entries[i].address != 0;
    }
  }

  /** With the same occupancies, a switch is never due again right after a switch. */
  lemma SwitchSettles(ch: Channel, ch': Channel)
    requires ch.rq.occupancy >= 0 && ch.wq.occupancy >= 0 && |ch.wq.entries| >= 2
    requires |ch'.wq.entries| == |ch.wq.entries|
    requires ch'.rq.occupancy == ch.rq.occupancy && ch'.wq.occupancy == ch.wq.occupancy
    requires ch'.writeMode == (ch.writeMode != Switches(ch))
    ensures !Switches(ch')
  {
    assert LowWatermark(ch) <= HighWatermark(ch) && HighWatermark(ch) >= 1;
  }

  lemma SettledModeHasWork(ch: Channel)
    requires ch.rq.occupancy >= 0 && ch.wq.occupancy >= 0
    requires !Switches(ch) && !Drained(ch)
    ensures Active(ch).occupancy > 0
  {}

  /** Starting an entry leaves one fewer to start. */
  lemma StartReducesWaiting(ch: Channel, k: nat, hit: bool, now: nat)
    requires |ch.banks| == BANK_COUNT && k < |Active(ch).entries|
    requires IsWaiting(Active(ch).entries[k])
    ensures ToStart(Start(ch, k, hit, now)) == ToStart(ch) - 1
  {
    var es := Active(ch).entries;
    var e, bank, q := StartParts(ch, k, hit, now);
    assert Active(Start(ch, k, hit, now)).entries == es[k := e];
    assert Waiting(es[k := e]) == Waiting(es)[k := false];
    CountUpdate(Waiting(es), k, false);
  }

  lemma ScheduleReducesWaiting(ch: Channel, now: nat)
    requires Inv(ch)
    ensures MaybeSchedule(ch, now) == ch || ToStart(MaybeSchedule(ch, now)) == ToStart(ch) - 1
  {
    ChoiceIsFirstReady(Active(ch).entries, ch.banks);
    var (k, hit) := Choice(Active(ch).entries, ch.banks);
    if k != -1 {
      StartReducesWaiting(ch, k, hit, now);
    }
  }

  /** When nothing is scheduled, every occupied slot can start, and the oldest says when. */
  lemma IdleQueueStarts(ch: Channel, now: nat)
    requires Inv(ch) && Active(ch).occupancy > 0
    requires Active(ch).processCycle == Never
    ensures Active(ch).scheduleCycle.At?
    ensures now >= Active(ch).scheduleCycle.c ==> MaybeSchedule(ch, now) != ch
  {
    var q := Active(ch);
    var i := IdleQueueHasWaiting(q);
    if now >= q.scheduleCycle.c {
      IdleEntryCanStart(ch, i);
      hide Inv, BankIdle, RowHits;
      ChoiceIsFirstReady(q.entries, ch.banks);
      var (k, hit) := Choice(q.entries, ch.banks);
      StartReducesWaiting(ch, k, hit, now);
    }
  }

  lemma IdleQueueHasWaiting(q: Queue) returns (i: nat)
    requires QueueOk(q) && q.occupancy > 0 && q.processCycle == Never
    ensures i < |q.entries| && IsWaiting(q.entries[i]) && q.scheduleCycle.At?
  {
    OccupancyIsNatural(q);
    OldestIsFirstMinimum(q.entries, Scheduled(q.entries), |q.entries|);
    OldestIsFirstMinimum(q.entries, Waiting(q.entries), |q.entries|);
    i :| 0 <= i < |q.entries| && q.entries[i].address != 0;
    assert !Scheduled(q.entries)[i];
    assert Waiting(q.entries)[i];
  }

  lemma IdleEntryCanStart(ch: Channel, i: nat)
    requires Inv(ch) && i < |Active(ch).entries| && IsWaiting(Active(ch).entries[i])
    requires Active(ch).processCycle == Never
    ensures BankIdle(Active(ch).entries[i], ch.banks)
  {
    var es := Active(ch).entries;
    var b := BankIndex(es[i].address);
    assert BankOk(b, ch.banks[b], es, ch.writeMode, ch.t.tCAS);
    OldestIsFirstMinimum(es, Scheduled(es), |es|);
    assert forall j :: 0 <= j < |es| ==> Scheduled(es)[j] == es[j].scheduled;
  }

  /** A due request that does not get through leaves the channel as it was or marks the wait for the bus. */
  lemma BlockedProcessWaits(ch: Channel, now: nat)
    requires Inv(ch) && Active(ch).processCycle.At?
    requires MaybeProcess(ch, now).1 == None
    ensures Active(ch).processIndex < |Active(ch).entries|
    ensures var ch' := MaybeProcess(ch, now).0;
      && now < Deadline(ch)
      && ch'.writeMode == ch.writeMode && ch'.rq == ch.rq && ch'.wq == ch.wq
      && |ch'.banks| == BANK_COUNT && Deadline(ch') <= Deadline(ch)
  {
  }

  /** One cycle makes the measure fall: fewer owed, or a switch settled, or a start, or time passing. */
  lemma OperateProgresses(ch: Channel, now: nat)
    requires Inv(ch) && |ch.wq.entries| >= 2 && !Drained(ch)
    ensures var ch' := Operate(ch, now).0;
      && |ch'.banks| == BANK_COUNT && |ch'.wq.entries| == |ch.wq.entries|
      && 0 <= Owed(ch') <= Owed(ch)
      && (Owed(ch') == Owed(ch) ==>
            if Switches(ch) then !Switches(ch')
            else !Switches(ch') && (ToStart(ch') < ToStart(ch)
                 || (ToStart(ch') == ToStart(ch) && now < Deadline(ch) && Deadline(ch') <= Deadline(ch))))
  {
    OperateKeepsInv(ch, now);
    var s := SwitchMode(ch, now);
    var m := MaybeSchedule(s, now);
    var (ch', out) := MaybeProcess(m, now);
    SwitchFrame(ch, now);
    ScheduleFrame(s, now);
    ProcessFrame(m, now);
    OccupancyIsNatural(ch'.rq);
    OccupancyIsNatural(ch'.wq);
    OccupancyIsNatural(ch.rq);
    OccupancyIsNatural(ch.wq);
    if out == None {
      SwitchSettles(ch, ch');
      if !Switches(ch) {
        SettledStepProgresses(ch, now);
      }
    }
  }

  lemma SettledStepProgresses(ch: Channel, now: nat)
    requires Inv(ch) && !Drained(ch) && !Switches(ch)
    requires ch.rq.occupancy >= 0 && ch.wq.occupancy >= 0
    requires Operate(ch, now).1 == None
    ensures var ch' := Operate(ch, now).0;
      && |ch'.banks| == BANK_COUNT
      && (ToStart(ch') < ToStart(ch)
          || (ToStart(ch') == ToStart(ch) && now < Deadline(ch) && Deadline(ch') <= Deadline(ch)))
  {
    var m := MaybeSchedule(ch, now);
    OperateKeepsInv(ch, now);
    SettledModeHasWork(ch);
    ScheduleReducesWaiting(ch, now);
    if m == ch {
      if ch.rq.occupancy >= 0 && Active(ch).processCycle == Never {
        IdleQueueStarts(ch, now);
      } else {
        BlockedProcessWaits(ch, now);
      }
    } else if Active(m).processCycle.At? {
      BlockedProcessWaits(m, now);
    }
  }

  // ---- The theorem ----

  lemma QuietRunKeepsInv(run: nat -> Channel, clock: nat -> nat, n: nat)
    requires IsQuietRun(run, clock) && Inv(run(0))
    ensures Inv(run(n)) && |run(n).wq.entries| == |run(0).wq.entries|
  {
    if n > 0 {
      QuietRunKeepsInv(run, clock, n - 1);
      var ch, now := run(n - 1), clock(n - 1);
      assert run(n - 1 + 1) == Operate(ch, now).0;
      OperateKeepsInv(ch, now);
      SwitchFrame(ch, now);
      ScheduleFrame(SwitchMode(ch, now), now);
      ProcessFrame(MaybeSchedule(SwitchMode(ch, now), now), now);
    }
  }

  /** From any state that keeps the invariant, a run without arrivals reaches empty queues. */
  lemma {:induction false} Drains(run: nat -> Channel, clock: nat -> nat, i: nat) returns (n: nat)
    requires IsQuietRun(run, clock) && Inv(run(0)) && |run(0).wq.entries| >= 2
    requires Inv(run(i))
    ensures n >= i && Drained(run(n))
    decreases Owed(run(i)), SwitchesDue(run(i)), ToStart(run(i)), Wait(run(i), clock(i))
  {
    if Drained(run(i)) {
      return i;
    }
    QuietRunKeepsInv(run, clock, i);
    QuietRunKeepsInv(run, clock, i + 1);
    OperateProgresses(run(i), clock(i));
    n := Drains(run, clock, i + 1);
  }

  /** Cycle i of a run transfers this request. */
  ghost predicate Served(run: nat -> Channel, clock: nat -> nat, i: nat, isWrite: bool, address: nat)
    requires |run(i).banks| == BANK_COUNT
  {
    match Operate(run(i), clock(i)).1
    case None => false
    case Some(t) => t.isWrite == isWrite && t.address == address
  }

  /** A request leaves the queue in the cycle that transfers it, and only then. */
  lemma LeavingIsBeingServed(run: nat -> Channel, clock: nat -> nat, i: nat, w: bool, a: nat)
    requires IsQuietRun(run, clock) && Inv(run(0))
    ensures Served(run, clock, i, w, a) ==> a in Pending(run(i), w)
    ensures a in Pending(run(i + 1), w) <==> a in Pending(run(i), w) && !Served(run, clock, i, w, a)
  {
    QuietRunKeepsInv(run, clock, i);
    OperatePays(run(i), clock(i));
  }

  /** A request that has left the queue stays out of it and is never transferred again. */
  lemma {:induction false} GoneStaysGone(run: nat -> Channel, clock: nat -> nat, i: nat, j: nat, w: bool, a: nat)
    requires IsQuietRun(run, clock) && Inv(run(0)) && i <= j
    requires a !in Pending(run(i), w)
    ensures a !in Pending(run(j), w) && !Served(run, clock, j, w, a)
    decreases j - i
  {
    LeavingIsBeingServed(run, clock, i, w, a);
    if i < j {
      GoneStaysGone(run, clock, i + 1, j, w, a);
    }
  }

  /** A request pending at i and gone at n was transferred in between, and not before. */
  lemma {:induction false} LeavesThroughBus(
      run: nat -> Channel, clock: nat -> nat, i: nat, n: nat, w: bool, a: nat) returns (j: nat)
    requires IsQuietRun(run, clock) && Inv(run(0)) && i <= n
    requires a in Pending(run(i), w) && a !in Pending(run(n), w)
    ensures i <= j < n && Served(run, clock, j, w, a) && a !in Pending(run(j + 1), w)
    ensures forall k :: i <= k < j ==> !Served(run, clock, k, w, a)
    decreases n - i
  {
    LeavingIsBeingServed(run, clock, i, w, a);
    if Served(run, clock, i, w, a) {
      return i;
    }
    j := LeavesThroughBus(run, clock, i + 1, n, w, a);
  }

  lemma DrainedOwesNothing(ch: Channel, w: bool)
    requires Inv(ch) && Drained(ch)
    ensures Pending(ch, w) == {}
  {
    var q := if w then ch.wq else ch.rq;
    CountExtremes(Occupied(q.entries));
    assert forall i :: 0 <= i < |q.entries| ==> Occupied(q.entries)[i] == (q.entries[i].address != 0);
  }

  /**
   Every request queued at the start of a run without arrivals uses the bus in exactly one cycle,
   whatever order the scheduler picks and however often the modes switch.
   */
  lemma EveryRequestIsServedOnce(run: nat -> Channel, clock: nat -> nat, w: bool, a: nat) returns (j: nat)
    requires IsQuietRun(run, clock) && Inv(run(0)) && |run(0).wq.entries| >= 2
    requires a in Pending(run(0), w)
    ensures Served(run, clock, j, w, a)
    ensures forall k: nat :: Served(run, clock, k, w, a) ==> k == j
  {
    var n := Drains(run, clock, 0);
    QuietRunKeepsInv(run, clock, n);
    DrainedOwesNothing(run(n), w);
    j := LeavesThroughBus(run, clock, 0, n, w, a);
    forall k: nat | k > j ensures !Served(run, clock, k, w, a) {
      GoneStaysGone(run, clock, j + 1, k, w, a);
    }
  }
}
