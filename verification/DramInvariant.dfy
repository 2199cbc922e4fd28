/**
 The coupling between banks, queues, counters and cached minima,
 kept by every operation of the controller.
 */
module DramInvariant {
  import opened Counting
  import opened DramModel

  function Inactive(ch: Channel): Queue { if ch.writeMode then ch.rq else ch.wq }

  /** Every cached next cycle is the recomputed minimum, and its index the first entry attaining it. */
  predicate CacheOk(q: Queue) {
    && q.scheduleCycle == CycleAt(q.entries, OldestWaiting(q.entries))
    && (q.scheduleCycle.At? ==> q.scheduleIndex == OldestWaiting(q.entries))
    && q.processCycle == CycleAt(q.entries, OldestScheduled(q.entries))
    && (q.processCycle.At? ==> q.processIndex == OldestScheduled(q.entries))
  }

  predicate DistinctAddresses(es: seq<Packet>) {
    forall i, j :: 0 <= i < j < |es| && es[i].address != 0 ==> es[i].address != es[j].address
  }

  /** Occupancy counts the nonzero addresses, and an empty slot is never scheduled. */
  predicate EntriesOk(es: seq<Packet>, occupancy: int) {
    && occupancy == Count(Occupied(es))
    && (forall i :: 0 <= i < |es| && es[i].scheduled ==> es[i].address != 0)
    && DistinctAddresses(es)
  }

  predicate QueueOk(q: Queue) { EntriesOk(q.entries, q.occupancy) && CacheOk(q) }

  /** A working bank serves exactly the scheduled entry of the current mode that it names. */
  predicate BankOk(b: int, bank: Bank, es: seq<Packet>, isWrite: bool, tCAS: nat) {
    if bank.working then
      && 0 <= bank.requestIndex < |es|
      && es[bank.requestIndex].scheduled
      && BankIndex(es[bank.requestIndex].address) == b
      && bank.isWrite == isWrite && bank.isRead == !isWrite
      && bank.cycleAvailable >= tCAS
    else
      bank.requestIndex == -1 && !bank.isWrite && !bank.isRead
  }

  predicate EntryServed(i: int, e: Packet, banks: seq<Bank>)
    requires |banks| == BANK_COUNT
  {
    e.scheduled ==> banks[BankIndex(e.address)].working && banks[BankIndex(e.address)].requestIndex == i
  }

  /** Working banks and scheduled entries of one queue name each other. */
  predicate Serving(es: seq<Packet>, banks: seq<Bank>, isWrite: bool, tCAS: nat) {
    && |banks| == BANK_COUNT
    && (forall b :: 0 <= b < BANK_COUNT ==> BankOk(b, banks[b], es, isWrite, tCAS))
    && (forall i :: 0 <= i < |es| ==> EntryServed(i, es[i], banks))
  }

  predicate Quiet(es: seq<Packet>) { forall i :: 0 <= i < |es| ==> !es[i].scheduled }

  predicate Inv(ch: Channel) {
    && QueueOk(ch.rq) && QueueOk(ch.wq)
    && Serving(Active(ch).entries, ch.banks, ch.writeMode, ch.t.tCAS)
    && Quiet(Inactive(ch).entries)
    && ch.scheduledReads == Count(Scheduled(ch.rq.entries))
    && ch.scheduledWrites == Count(Scheduled(ch.wq.entries))
  }

  lemma QuietCountsZero(es: seq<Packet>)
    ensures Count(Scheduled(es)) == 0 <==> Quiet(es)
  {
    CountExtremes(Scheduled(es));
    assert forall i :: 0 <= i < |es| ==> Scheduled(es)[i] == es[i].scheduled;
  }

  /** The state the constructor leaves: a process or schedule index of 0 with no cycle to go with it. */
  function Initial(t: Timing, readSize: nat, writeSize: nat): Channel {
    var rq := Queue(seq(readSize, _ => EMPTY_PACKET), 0, 0, Never, 0, Never);
    var wq := Queue(seq(writeSize, _ => EMPTY_PACKET), 0, 0, Never, 0, Never);
    Channel(t, rq, wq, seq(BANK_COUNT, _ => EMPTY_BANK), false, 0, 0, 0)
  }

  lemma EmptyQueueOk(size: nat)
    ensures var q := Queue(seq(size, _ => EMPTY_PACKET), 0, 0, Never, 0, Never);
      QueueOk(q) && Quiet(q.entries)
  {
    var es: seq<Packet> := seq(size, _ => EMPTY_PACKET);
    CountExtremes(Occupied(es));
    OldestIsFirstMinimum(es, Waiting(es), |es|);
    OldestIsFirstMinimum(es, Scheduled(es), |es|);
  }

  lemma InitialInv(t: Timing, readSize: nat, writeSize: nat)
    ensures Inv(Initial(t, readSize, writeSize))
  {
    EmptyQueueOk(readSize);
    EmptyQueueOk(writeSize);
    QuietCountsZero(Initial(t, readSize, writeSize).rq.entries);
    QuietCountsZero(Initial(t, readSize, writeSize).wq.entries);
  }

  // ---- Mode switches ----

  lemma RefreshIsOk(q: Queue)
    requires EntriesOk(q.entries, q.occupancy)
    ensures QueueOk(Refresh(q)) && Refresh(q).entries == q.entries && Refresh(q).occupancy == q.occupancy
  {}

  /** Cancelling a queue's scheduled work frees every bank: all of them served that queue. */
  lemma ResetFreesBanks(es: seq<Packet>, banks: seq<Bank>, isWrite: bool, tCAS: nat, now: nat)
    requires Serving(es, banks, isWrite, tCAS)
    ensures var freed := ResetBanks(banks, es, tCAS, now, |es|);
      && |freed| == |banks|
      && (forall b :: 0 <= b < |banks| ==>
            freed[b] == if banks[b].working
                        then ResetBank(banks[b], GetRow(es[banks[b].requestIndex].address), tCAS, now)
                        else banks[b])
      && (forall b :: 0 <= b < |banks| ==> BankOk(b, freed[b], [], !isWrite, tCAS))
  {
    forall b | 0 <= b < |banks| ensures NamesEntry(banks[b], es) == banks[b].working {
      assert BankOk(b, banks[b], es, isWrite, tCAS);
    }
  }

  lemma ResetEntriesOk(es: seq<Packet>, occupancy: int, now: nat)
    requires EntriesOk(es, occupancy)
    ensures EntriesOk(ResetEntries(es, now, |es|), occupancy) && Quiet(ResetEntries(es, now, |es|))
  {
    assert Occupied(ResetEntries(es, now, |es|)) == Occupied(es);
  }

  lemma IdleBanksServeQuietQueue(es: seq<Packet>, banks: seq<Bank>, isWrite: bool, tCAS: nat)
    requires |banks| == BANK_COUNT && Quiet(es)
    requires forall b :: 0 <= b < BANK_COUNT ==> BankOk(b, banks[b], [], isWrite, tCAS)
    ensures Serving(es, banks, isWrite, tCAS)
  {
    forall b | 0 <= b < BANK_COUNT ensures BankOk(b, banks[b], es, isWrite, tCAS) {
      assert BankOk(b, banks[b], [], isWrite, tCAS);
    }
  }

  lemma SwitchKeepsInv(ch: Channel, now: nat)
    requires Inv(ch)
    ensures Inv(SwitchMode(ch, now))
  {
    if Switches(ch) {
      var q := Active(ch);
      var es' := ResetEntries(q.entries, now, |q.entries|);
      ResetEntriesOk(q.entries, q.occupancy, now);
      RefreshIsOk(q.(entries := es'));
      RefreshIsOk(Inactive(ch));
      var banks' := ResetBanks(ch.banks, q.entries, ch.t.tCAS, now, |q.entries|);
      ResetFreesBanks(q.entries, ch.banks, ch.writeMode, ch.t.tCAS, now);
      IdleBanksServeQuietQueue(Inactive(ch).entries, banks', !ch.writeMode, ch.t.tCAS);
      QuietCountsZero(es');
      QuietCountsZero(Inactive(ch).entries);
    }
  }

  // ---- Scheduling ----

  lemma StartServes(es: seq<Packet>, banks: seq<Bank>, isWrite: bool, tCAS: nat, k: nat, bank: Bank, e: Packet)
    requires Serving(es, banks, isWrite, tCAS)
    requires k < |es| && BankIdle(es[k], banks)
    requires e.scheduled && e.address == es[k].address
    requires bank.working && bank.requestIndex == k && bank.isWrite == isWrite && bank.isRead == !isWrite
    requires bank.cycleAvailable >= tCAS
    ensures Serving(es[k := e], banks[BankIndex(e.address) := bank], isWrite, tCAS)
  {
    var es', banks' := es[k := e], banks[BankIndex(e.address) := bank];
    forall i | 0 <= i < |es| ensures EntryServed(i, es'[i], banks') {
      assert EntryServed(i, es[i], banks);
    }
    forall b | 0 <= b < BANK_COUNT ensures BankOk(b, banks'[b], es', isWrite, tCAS) {
      assert BankOk(b, banks[b], es, isWrite, tCAS);
    }
  }

  /** Rewriting a slot without changing its address keeps the occupancy account. */
  lemma StartEntriesOk(es: seq<Packet>, occupancy: int, k: nat, e: Packet)
    requires EntriesOk(es, occupancy) && k < |es|
    requires e.address == es[k].address != 0 && e.scheduled && !es[k].scheduled
    ensures EntriesOk(es[k := e], occupancy)
    ensures Count(Scheduled(es[k := e])) == Count(Scheduled(es)) + 1
  {
    assert Occupied(es[k := e]) == Occupied(es);
    assert Scheduled(es[k := e]) == Scheduled(es)[k := true];
    CountUpdate(Scheduled(es), k, true);
  }

  /** The parts of the state after an entry is started. */
  lemma StartParts(ch: Channel, k: nat, hit: bool, now: nat)
    returns (e: Packet, bank: Bank, q: Queue)
    requires |ch.banks| == BANK_COUNT
    requires k < |Active(ch).entries|
    ensures e.address == Active(ch).entries[k].address && e.scheduled
    ensures bank.working && bank.requestIndex == k && bank.isWrite == ch.writeMode && bank.isRead == !ch.writeMode
    ensures bank.cycleAvailable >= ch.t.tCAS
    ensures q == Active(ch).(entries := Active(ch).entries[k := e])
    ensures Start(ch, k, hit, now) ==
      WithQueue(ch, ch.writeMode, Refresh(q)).(
        banks := ch.banks[BankIndex(e.address) := bank],
        scheduledReads := if ch.writeMode then ch.scheduledReads else ch.scheduledReads + 1,
        scheduledWrites := if ch.writeMode then ch.scheduledWrites + 1 else ch.scheduledWrites)
  {
    var latency := if hit then ch.t.tCAS else ch.t.tRP + ch.t.tRCD + ch.t.tCAS;
    e := Active(ch).entries[k].(scheduled := true, eventCycle := now + latency);
    bank := Bank(true, hit, ch.writeMode, !ch.writeMode, now + latency, Some(GetRow(e.address)), k);
    q := Active(ch).(entries := Active(ch).entries[k := e]);
  }

  lemma StartKeepsInv(ch: Channel, k: nat, hit: bool, now: nat)
    requires Inv(ch)
    requires k < |Active(ch).entries| && BankIdle(Active(ch).entries[k], ch.banks)
    ensures Inv(Start(ch, k, hit, now))
  {
    var q := Active(ch);
    var e, bank, q' := StartParts(ch, k, hit, now);
    StartEntriesOk(q.entries, q.occupancy, k, e);
    RefreshIsOk(q');
    StartServes(q.entries, ch.banks, ch.writeMode, ch.t.tCAS, k, bank, e);
  }

  /** What the two searches of the scheduler find: a first-ready, first-come choice. */
  lemma ChoiceIsFirstReady(es: seq<Packet>, banks: seq<Bank>)
    requires |banks| == BANK_COUNT
    ensures var (k, hit) := Choice(es, banks);
      && (k == -1 <==> forall i :: 0 <= i < |es| ==> !BankIdle(es[i], banks))
      && (hit <==> exists i :: 0 <= i < |es| && RowHits(es, banks)[i])
      && (k != -1 ==> BankIdle(es[k], banks) && RowHits(es, banks)[k] == hit)
      && (k != -1 ==> forall i :: 0 <= i < |es| && BankIdle(es[i], banks) && RowHits(es, banks)[i] == hit ==>
            es[k].eventCycle < es[i].eventCycle || (es[k].eventCycle == es[i].eventCycle && k <= i))
  {
    OldestIsFirstMinimum(es, RowHits(es, banks), |es|);
    OldestIsFirstMinimum(es, Startable(es, banks), |es|);
    assert forall i :: 0 <= i < |es| ==> Startable(es, banks)[i] == BankIdle(es[i], banks);
  }

  lemma ScheduleKeepsInv(ch: Channel, now: nat)
    requires Inv(ch)
    ensures Inv(Schedule(ch, now))
  {
    ChoiceIsFirstReady(Active(ch).entries, ch.banks);
    var (k, hit) := Choice(Active(ch).entries, ch.banks);
    if k != -1 {
      StartKeepsInv(ch, k, hit, now);
    }
  }

  // ---- Processing ----

  /** The sanity checks of a due request hold: its bank names it, and the counters can give one up. */
  lemma ProcessedEntryIsServed(ch: Channel, now: nat)
    requires Inv(ch) && ProcessDue(ch, now)
    ensures var q := Active(ch); var e := q.entries[q.processIndex];
      && e.scheduled
      && ch.banks[BankIndex(e.address)].working
      && ch.banks[BankIndex(e.address)].requestIndex == q.processIndex
      && q.occupancy > 0
      && (if ch.writeMode then ch.scheduledWrites else ch.scheduledReads) > 0
  {
    var q := Active(ch);
    var k := q.processIndex;
    OldestIsFirstMinimum(q.entries, Scheduled(q.entries), |q.entries|);
    assert Scheduled(q.entries)[k];
    assert EntryServed(k, q.entries[k], ch.banks);
    assert Occupied(q.entries)[k];
    CountExtremes(Occupied(q.entries));
    CountExtremes(Scheduled(q.entries));
  }

  /** Changing slots that a search never picks does not change what it finds. */
  lemma {:induction false} OldestIgnores(es: seq<Packet>, es': seq<Packet>, mask: seq<bool>, n: nat)
    requires |es| == |es'| == |mask| && n <= |es|
    requires forall i :: 0 <= i < n && mask[i] ==> es'[i].eventCycle == es[i].eventCycle
    ensures Oldest(es', mask, n) == Oldest(es, mask, n)
  {
    if n > 0 {
      OldestIgnores(es, es', mask, n - 1);
      OldestIsFirstMinimum(es, mask, n - 1);
    }
  }

  lemma CompletionKeepsQueue(q: Queue, k: nat)
    requires QueueOk(q) && k < |q.entries| && q.entries[k].scheduled
    ensures QueueOk(RefreshProcess(q.(entries := q.entries[k := EMPTY_PACKET], occupancy := q.occupancy - 1)))
    ensures Count(Scheduled(q.entries[k := EMPTY_PACKET])) == Count(Scheduled(q.entries)) - 1
  {
    var es' := q.entries[k := EMPTY_PACKET];
    assert Occupied(es') == Occupied(q.entries)[k := false];
    CountUpdate(Occupied(q.entries), k, false);
    assert Scheduled(es') == Scheduled(q.entries)[k := false];
    CountUpdate(Scheduled(q.entries), k, false);
    assert Waiting(es') == Waiting(q.entries);
    OldestIgnores(q.entries, es', Waiting(q.entries), |es'|);
    OldestIsFirstMinimum(q.entries, Waiting(q.entries), |es'|);
  }

  lemma CompletionServes(es: seq<Packet>, banks: seq<Bank>, isWrite: bool, tCAS: nat, k: nat)
    requires Serving(es, banks, isWrite, tCAS)
    requires k < |es| && es[k].scheduled
    ensures var b := BankIndex(es[k].address);
      Serving(es[k := EMPTY_PACKET], banks[b := FreeBank(banks[b])], isWrite, tCAS)
  {
    var b := BankIndex(es[k].address);
    var es', banks' := es[k := EMPTY_PACKET], banks[b := FreeBank(banks[b])];
    assert EntryServed(k, es[k], banks);
    forall i | 0 <= i < |es| ensures EntryServed(i, es'[i], banks') {
      assert EntryServed(i, es[i], banks);
    }
    forall c | 0 <= c < BANK_COUNT ensures BankOk(c, banks'[c], es', isWrite, tCAS) {
      assert BankOk(c, banks[c], es, isWrite, tCAS);
    }
  }

  lemma WaitingForBusServes(es: seq<Packet>, banks: seq<Bank>, isWrite: bool, tCAS: nat, b: nat, cycle: nat)
    requires Serving(es, banks, isWrite, tCAS)
    requires b < BANK_COUNT && banks[b].cycleAvailable <= cycle
    ensures Serving(es, banks[b := banks[b].(cycleAvailable := cycle)], isWrite, tCAS)
  {
    var banks' := banks[b := banks[b].(cycleAvailable := cycle)];
    forall i | 0 <= i < |es| ensures EntryServed(i, es[i], banks') {
      assert EntryServed(i, es[i], banks);
    }
    forall c | 0 <= c < BANK_COUNT ensures BankOk(c, banks'[c], es, isWrite, tCAS) {
      assert BankOk(c, banks[c], es, isWrite, tCAS);
    }
  }

  lemma ProcessKeepsInv(ch: Channel, now: nat)
    requires Inv(ch) && ProcessDue(ch, now)
    ensures Inv(Process(ch, now).0)
  {
    ProcessedEntryIsServed(ch, now);
    var q := Active(ch);
    var k := q.processIndex;
    var b := BankIndex(q.entries[k].address);
    CompletionKeepsQueue(q, k);
    CompletionServes(q.entries, ch.banks, ch.writeMode, ch.t.tCAS, k);
    if ch.banks[b].cycleAvailable <= now < ch.busFree {
      WaitingForBusServes(q.entries, ch.banks, ch.writeMode, ch.t.tCAS, b, ch.busFree);
    }
  }

  lemma OperateKeepsInv(ch: Channel, now: nat)
    requires Inv(ch)
    ensures Inv(SwitchMode(ch, now))
    ensures Inv(MaybeSchedule(SwitchMode(ch, now), now))
    ensures Inv(Operate(ch, now).0)
  {
    SwitchKeepsInv(ch, now);
    var s := SwitchMode(ch, now);
    ScheduleKeepsInv(s, now);
    var m := MaybeSchedule(s, now);
    if ProcessDue(m, now) {
      ProcessKeepsInv(m, now);
    }
  }

  // ---- Arrivals ----

  lemma EnqueueKeepsQueue(q: Queue, r: Request)
    requires QueueOk(q) && Lookup(q.entries, r.address) == -1
    ensures QueueOk(Enqueue(q, r).0)
    ensures Scheduled(Enqueue(q, r).0.entries) == Scheduled(q.entries)
    ensures Quiet(q.entries) ==> Quiet(Enqueue(q, r).0.entries)
  {
    var k := Lookup(q.entries, 0);
    if k != -1 {
      var es' := q.entries[k := Arrived(r)];
      ArrivedEntries(q, r, k);
      OldestIgnores(q.entries, es', Scheduled(q.entries), |es'|);
      OldestIsFirstMinimum(q.entries, Scheduled(q.entries), |es'|);
      hide EntriesOk, Scheduled, Occupied, Lookup;
    }
  }

  /** A new entry takes a free slot, and is not scheduled. */
  lemma ArrivedEntries(q: Queue, r: Request, k: nat)
    requires QueueOk(q) && Lookup(q.entries, r.address) == -1 && k == Lookup(q.entries, 0)
    ensures k < |q.entries| && EntriesOk(q.entries[k := Arrived(r)], q.occupancy + 1)
    ensures Scheduled(q.entries[k := Arrived(r)]) == Scheduled(q.entries)
  {
    hide CacheOk;
    var es' := q.entries[k := Arrived(r)];
    assert r.address != 0;
    assert Occupied(es') == Occupied(q.entries)[k := true];
    CountUpdate(Occupied(q.entries), k, true);
    assert Scheduled(es') == Scheduled(q.entries);
  }

  /** Filling unscheduled slots leaves the serving relation alone. */
  lemma ArrivalServes(es: seq<Packet>, es': seq<Packet>, banks: seq<Bank>, isWrite: bool, tCAS: nat)
    requires Serving(es, banks, isWrite, tCAS)
    requires |es| == |es'|
    requires forall i :: 0 <= i < |es| ==> es[i] == es'[i] || (!es[i].scheduled && !es'[i].scheduled)
    ensures Serving(es', banks, isWrite, tCAS)
  {
    forall b | 0 <= b < BANK_COUNT ensures BankOk(b, banks[b], es', isWrite, tCAS) {
      assert BankOk(b, banks[b], es, isWrite, tCAS);
    }
    forall i | 0 <= i < |es| ensures EntryServed(i, es'[i], banks) {
      assert EntryServed(i, es[i], banks);
    }
  }

  lemma EnqueueServes(q: Queue, r: Request, banks: seq<Bank>, isWrite: bool, tCAS: nat)
    requires QueueOk(q) && Lookup(q.entries, r.address) == -1
    requires Serving(q.entries, banks, isWrite, tCAS)
    ensures Serving(Enqueue(q, r).0.entries, banks, isWrite, tCAS)
  {
    ArrivalServes(q.entries, Enqueue(q, r).0.entries, banks, isWrite, tCAS);
  }

  lemma AddReadKeepsInv(ch: Channel, r: Request, warm: bool)
    requires Inv(ch)
    ensures Inv(AddRead(ch, r, warm).0)
  {
    if warm && Lookup(ch.wq.entries, r.address) == -1 && Lookup(ch.rq.entries, r.address) == -1 {
      EnqueueKeepsQueue(ch.rq, r);
      if !ch.writeMode {
        EnqueueServes(ch.rq, r, ch.banks, false, ch.t.tCAS);
      }
    }
  }

  lemma AddWriteKeepsInv(ch: Channel, r: Request, warm: bool)
    requires Inv(ch)
    ensures Inv(AddWrite(ch, r, warm).0)
  {
    if warm && Lookup(ch.wq.entries, r.address) == -1 {
      EnqueueKeepsQueue(ch.wq, r);
      if ch.writeMode {
        EnqueueServes(ch.wq, r, ch.banks, true, ch.t.tCAS);
      }
    }
  }

  /** An arrival guarded by the occupancy test is never dropped: it is answered, merged or stored. */
  lemma GuardedAddsAreKept(ch: Channel, r: Request, warm: bool)
    requires Inv(ch)
    ensures ch.rq.occupancy < |ch.rq.entries| ==> AddRead(ch, r, warm).1 != Dropped
    ensures ch.wq.occupancy < |ch.wq.entries| ==> AddWrite(ch, r, warm).1 != Dropped
    ensures 0 <= ch.rq.occupancy <= |ch.rq.entries| && 0 <= ch.wq.occupancy <= |ch.wq.entries|
  {
    CountExtremes(Occupied(ch.rq.entries));
    CountExtremes(Occupied(ch.wq.entries));
    assert forall i :: 0 <= i < |ch.rq.entries| ==> Occupied(ch.rq.entries)[i] == (ch.rq.entries[i].address != 0);
    assert forall i :: 0 <= i < |ch.wq.entries| ==> Occupied(ch.wq.entries)[i] == (ch.wq.entries[i].address != 0);
  }
}
