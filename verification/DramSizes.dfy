/**
 For which write-queue sizes the controller drains. With fewer than two places the high watermark is 0,
 so an empty write queue asks for write mode, which ends at once: the mode flips in every cycle and
 cancels what was started. From two places on every run drains.
 */
module DramSizes {
  import opened Counting
  import opened DramModel
  import opened DramInvariant
  import opened DramRun
  import opened DramDrain

  /** Every run without arrivals, with this write-queue size and a positive column latency, empties both queues. */
  ghost predicate AlwaysDrains(writeSize: nat) {
    forall run: nat -> Channel, clock: nat -> nat ::
      IsQuietRun(run, clock) && Inv(run(0)) && |run(0).wq.entries| == writeSize && run(0).t.tCAS > 0 ==>
        exists n: nat :: Drained(run(n))
  }

  // ---- A channel that starves ----

  /** Only reads are pending, and the write queue is too small for its watermarks. */
  ghost predicate Starving(ch: Channel) {
    && Inv(ch) && |ch.wq.entries| < 2 && ch.wq.occupancy == 0 && ch.t.tCAS > 0
    && exists a :: a in Pending(ch, false)
  }

  lemma FlippedModeIsQuiet(ch: Channel, now: nat)
    requires Inv(ch) && Switches(ch)
    ensures Inv(SwitchMode(ch, now)) && Quiet(Active(SwitchMode(ch, now)).entries)
    ensures Active(SwitchMode(ch, now)).processCycle == Never
  {
    SwitchKeepsInv(ch, now);
    var q := Active(SwitchMode(ch, now));
    assert q.entries == Inactive(ch).entries;
    OldestIsFirstMinimum(q.entries, Scheduled(q.entries), |q.entries|);
  }

  /** What was just started in a quiet queue is not due yet. */
  lemma StartedIsNotDue(ch: Channel, now: nat)
    requires Inv(ch) && ch.t.tCAS > 0 && Quiet(Active(ch).entries) && Active(ch).processCycle == Never
    ensures !ProcessDue(MaybeSchedule(ch, now), now)
  {
    var m := MaybeSchedule(ch, now);
    if m != ch {
      ScheduleKeepsInv(ch, now);
      var (k, hit) := Choice(Active(ch).entries, ch.banks);
      ActiveOk(m);
      hide Inv, Choice;
      assert Active(m).entries ==
        Active(ch).entries[k := Active(ch).entries[k].(scheduled := true, eventCycle := Active(m).entries[k].eventCycle)];
      LaterIsNotDue(Active(m), k, now);
    }
  }

  /** A queue whose only scheduled entry is later than now has nothing due. */
  lemma LaterIsNotDue(q: Queue, k: int, now: nat)
    requires CacheOk(q) && 0 <= k < |q.entries| && q.entries[k].eventCycle > now
    requires forall i :: 0 <= i < |q.entries| && i != k ==> !q.entries[i].scheduled
    ensures !(q.processIndex < |q.entries| && Due(q.processCycle, now))
  {
    OldestIsFirstMinimum(q.entries, Scheduled(q.entries), |q.entries|);
    assert forall i :: 0 <= i < |q.entries| ==> Scheduled(q.entries)[i] == q.entries[i].scheduled;
  }

  lemma ActiveOk(ch: Channel)
    requires Inv(ch)
    ensures QueueOk(Active(ch))
  {}

  lemma StarvingServesNothing(ch: Channel, now: nat)
    requires Starving(ch)
    ensures Operate(ch, now) == (MaybeSchedule(SwitchMode(ch, now), now), None)
  {
    assert Switches(ch);
    FlippedModeIsQuiet(ch, now);
    assert SwitchMode(ch, now).t == ch.t;
    hide SwitchMode, Starving;
    StartedIsNotDue(SwitchMode(ch, now), now);
    hide MaybeSchedule, Inv;
  }

  /** A starving channel serves nothing, and goes on starving. */
  lemma StarvingStays(ch: Channel, now: nat)
    requires Starving(ch)
    ensures Operate(ch, now).1 == None && Starving(Operate(ch, now).0)
    ensures |Operate(ch, now).0.wq.entries| == |ch.wq.entries|
  {
    StarvingServesNothing(ch, now);
    OperateKeepsInv(ch, now);
    OperatePays(ch, now);
    SwitchFrame(ch, now);
    ScheduleFrame(SwitchMode(ch, now), now);
    hide Inv, MaybeSchedule, SwitchMode, Pending, Operate;
    var a :| a in Pending(ch, false);
    assert a in Pending(Operate(ch, now).0, false);
  }

  function Next(ch: Channel, now: nat): Channel {
    if |ch.banks| == BANK_COUNT then Operate(ch, now).0 else ch
  }

  function Iterate(ch: Channel, n: nat): Channel {
    if n == 0 then ch else Next(Iterate(ch, n - 1), n - 1)
  }

  lemma NextStarves(ch: Channel, now: nat)
    requires Starving(ch)
    ensures |ch.banks| == BANK_COUNT && Starving(Next(ch, now))
    ensures |Next(ch, now).wq.entries| == |ch.wq.entries|
  {
    StarvingStays(ch, now);
    hide Operate;
  }

  lemma {:induction false} IterateStarves(ch: Channel, n: nat)
    requires Starving(ch)
    ensures Starving(Iterate(ch, n)) && |Iterate(ch, n).wq.entries| == |ch.wq.entries|
  {
    hide Starving, Next;
    if n > 0 {
      IterateStarves(ch, n - 1);
      NextStarves(Iterate(ch, n - 1), n - 1);
    }
  }

  lemma StarvingIsNotDrained(ch: Channel)
    requires Starving(ch)
    ensures !Drained(ch)
  {
    if Drained(ch) {
      DrainedOwesNothing(ch, false);
    }
  }

  /** A channel with one read pending. */
  lemma OneRead(t: Timing, writeSize: nat) returns (ch: Channel)
    requires writeSize < 2 && t.tCAS > 0
    ensures Starving(ch) && |ch.wq.entries| == writeSize
  {
    var empty, r := Initial(t, 1, writeSize), Request(1, 0, 0);
    InitialInv(t, 1, writeSize);
    AddReadKeepsInv(empty, r, true);
    ch := AddRead(empty, r, true).0;
    assert ch.rq.entries[0].address == 1;
    assert 1 in Pending(ch, false);
  }

  /** The controller always drains exactly when its write queue has at least two places. */
  lemma DrainsIff(writeSize: nat)
    ensures AlwaysDrains(writeSize) <==> writeSize >= 2
  {
    if writeSize >= 2 {
      forall run: nat -> Channel, clock: nat -> nat
        | IsQuietRun(run, clock) && Inv(run(0)) && |run(0).wq.entries| == writeSize && run(0).t.tCAS > 0
        ensures exists n: nat :: Drained(run(n))
      {
        var n := Drains(run, clock, 0);
      }
    } else {
      var ch := OneRead(Timing(1, 1, 1, 1, 1), writeSize);
      IterationNeverDrains(ch);
    }
  }

  lemma IterateStep(ch: Channel, n: nat)
    requires Starving(ch)
    ensures |Iterate(ch, n).banks| == BANK_COUNT && !Drained(Iterate(ch, n))
    ensures Iterate(ch, n + 1) == Operate(Iterate(ch, n), n).0
  {
    hide Starving, Operate, Drained;
    IterateStarves(ch, n);
    NextStarves(Iterate(ch, n), n);
    StarvingIsNotDrained(Iterate(ch, n));
  }

  lemma IterationNeverDrains(ch: Channel)
    requires Starving(ch)
    ensures !AlwaysDrains(|ch.wq.entries|)
  {
    var run: nat -> Channel := (n: nat) => Iterate(ch, n);
    var clock: nat -> nat := (n: nat) => n;
    assert run(0) == ch;
    assert Inv(run(0)) && run(0).t.tCAS > 0;
    hide Inv, Operate, Iterate, Drained, Starving;
    forall n: nat
      ensures |run(n).banks| == BANK_COUNT && run(n + 1) == Operate(run(n), clock(n)).0 && !Drained(run(n))
    {
      IterateStep(ch, n);
    }
    assert IsQuietRun(run, clock);
  }
}
