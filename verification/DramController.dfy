/** The controller as it is programmed: two packet arrays and a bank array changed in place. */
module DramController {
  import opened Counting
  import opened DramModel
  import opened DramInvariant

  predicate Earlier(cycle: nat, best: Cycle) { best == Never || cycle < best.c }

  class PacketQueue {
    const isWQ: bool
    const entry: array<Packet>
    var occupancy: nat
    var nextScheduleIndex: nat
    var nextScheduleCycle: Cycle
    var nextProcessIndex: nat
    var nextProcessCycle: Cycle

    constructor (size: nat, isWQ: bool)
      ensures fresh(entry) && this.isWQ == isWQ && entry.Length == size
      ensures View() == Queue(seq(size, _ => EMPTY_PACKET), 0, 0, Never, 0, Never)
    {
      this.isWQ := isWQ;
      entry := new Packet[size](_ => EMPTY_PACKET);
      occupancy := 0;
      nextScheduleIndex, nextProcessIndex := 0, 0;
      nextScheduleCycle, nextProcessCycle := Never, Never;
    }

    function View(): Queue
      reads this, entry
    {
      Queue(entry[..], occupancy, nextScheduleIndex, nextScheduleCycle, nextProcessIndex, nextProcessCycle)
    }

    /** Recompute the earliest waiting entry. */
    method UpdateScheduleCycle()
      modifies this`nextScheduleIndex, this`nextScheduleCycle
      ensures View() == RefreshSchedule(old(View()))
    {
      var minCycle, minIndex := Never, entry.Length;
      ghost var es := entry[..];
      for i := 0 to entry.Length
        invariant minCycle == CycleAt(es, Oldest(es, Waiting(es), i))
        invariant minIndex == IndexOrSize(es, Oldest(es, Waiting(es), i))
      {
        if entry[i].address != 0 && !entry[i].scheduled && Earlier(entry[i].eventCycle, minCycle) {
          minCycle, minIndex := At(entry[i].eventCycle), i;
        }
      }
      nextScheduleCycle, nextScheduleIndex := minCycle, minIndex;
    }

    /** Recompute the earliest scheduled entry. */
    method UpdateProcessCycle()
      modifies this`nextProcessIndex, this`nextProcessCycle
      ensures View() == RefreshProcess(old(View()))
    {
      var minCycle, minIndex := Never, entry.Length;
      ghost var es := entry[..];
      for i := 0 to entry.Length
        invariant minCycle == CycleAt(es, Oldest(es, Scheduled(es), i))
        invariant minIndex == IndexOrSize(es, Oldest(es, Scheduled(es), i))
      {
        if entry[i].scheduled && Earlier(entry[i].eventCycle, minCycle) {
          minCycle, minIndex := At(entry[i].eventCycle), i;
        }
      }
      nextProcessCycle, nextProcessIndex := minCycle, minIndex;
    }

    /** The first slot holding an address, or -1. */
    method CheckQueue(address: nat) returns (index: int)
      ensures index == Lookup(entry[..], address)
    {
      for i := 0 to entry.Length
        invariant forall j :: 0 <= j < i ==> entry[j].address != address
      {
        if entry[i].address == address {
          return i;
        }
      }
      return -1;
    }
  }

  /** Freeing the bank of entry i extends the freed part of the banks by one entry. */
  lemma ResetOneMore(es: seq<Packet>, banks: seq<Bank>, isWrite: bool, tCAS: nat, now: nat, i: nat)
    requires Serving(es, banks, isWrite, tCAS) && i < |es|
    ensures ResetEntries(es, now, i + 1) == ResetEntries(es, now, i)[i := ResetEntry(es[i], now)]
    ensures var b := BankIndex(es[i].address);
      ResetBanks(banks, es, tCAS, now, i + 1)
      == if es[i].scheduled
         then ResetBanks(banks, es, tCAS, now, i)[b := ResetBank(banks[b], GetRow(es[i].address), tCAS, now)]
         else ResetBanks(banks, es, tCAS, now, i)
    ensures es[i].scheduled ==>
      var b := BankIndex(es[i].address);
      && ResetBanks(banks, es, tCAS, now, i)[b] == banks[b]
      && banks[b].working && banks[b].isWrite == isWrite && banks[b].isRead == !isWrite
      && banks[b].cycleAvailable >= tCAS
  {
    var b := BankIndex(es[i].address);
    assert EntryServed(i, es[i], banks);
    forall c | 0 <= c < BANK_COUNT
      ensures banks[c].working && banks[c].requestIndex == i ==> es[i].scheduled && c == b
    {
      assert BankOk(c, banks[c], es, isWrite, tCAS);
    }
    assert BankOk(b, banks[b], es, isWrite, tCAS);
  }

  lemma CountTakeOneMore(mask: seq<bool>, i: nat)
    requires i < |mask|
    ensures Count(mask[..i + 1]) == Count(mask[..i]) + (if mask[i] then 1 else 0)
  {
    assert mask[..i + 1][..i] == mask[..i];
  }

  lemma {:induction false} CountOfPrefix(mask: seq<bool>, i: nat)
    requires i <= |mask|
    ensures Count(mask[..i]) <= Count(mask)
    decreases |mask| - i
  {
    if i < |mask| {
      CountOfPrefix(mask, i + 1);
      CountTakeOneMore(mask, i);
    } else {
      assert mask[..i] == mask;
    }
  }

  /** A channel with the parts of a start is the started channel. */
  lemma StartedParts(ch: Channel, ch': Channel, k: nat, hit: bool, now: nat, bank: Bank, q: Queue)
    requires |ch.banks| == BANK_COUNT && k < |Active(ch).entries|
    requires Start(ch, k, hit, now) ==
      WithQueue(ch, ch.writeMode, Refresh(q)).(
        banks := ch.banks[BankIndex(Active(ch).entries[k].address) := bank],
        scheduledReads := if ch.writeMode then ch.scheduledReads else ch.scheduledReads + 1,
        scheduledWrites := if ch.writeMode then ch.scheduledWrites + 1 else ch.scheduledWrites)
    requires Active(ch') == Refresh(q) && Inactive(ch') == Inactive(ch)
    requires ch'.banks == ch.banks[BankIndex(Active(ch).entries[k].address) := bank]
    requires ch'.t == ch.t && ch'.writeMode == ch.writeMode && ch'.busFree == ch.busFree
    requires ch'.scheduledReads == ch.scheduledReads + (if ch.writeMode then 0 else 1)
    requires ch'.scheduledWrites == ch.scheduledWrites + (if ch.writeMode then 1 else 0)
    ensures ch' == Start(ch, k, hit, now)
  {}

  class MemoryController {
    const t: Timing
    const RQ: PacketQueue
    const WQ: PacketQueue
    const bankRequest: array<Bank>
    var writeMode: bool
    var dbusCycleAvailable: nat
    var scheduledReads: nat
    var scheduledWrites: nat

    ghost predicate Valid()
      reads this, RQ, WQ, RQ.entry, WQ.entry, bankRequest
    {
      && RQ != WQ && RQ.entry != WQ.entry && !RQ.isWQ && WQ.isWQ
      && Inv(View())
    }

    ghost predicate Separate() {
      && RQ != WQ && RQ.entry != WQ.entry && !RQ.isWQ && WQ.isWQ
      && bankRequest.Length == BANK_COUNT
    }

    function View(): Channel
      reads this, RQ, WQ, RQ.entry, WQ.entry, bankRequest
    {
      Channel(t, RQ.View(), WQ.View(), bankRequest[..], writeMode, dbusCycleAvailable, scheduledReads, scheduledWrites)
    }

    constructor (t: Timing, readSize: nat, writeSize: nat)
      ensures fresh(RQ) && fresh(WQ) && fresh(RQ.entry) && fresh(WQ.entry) && fresh(bankRequest)
      ensures Valid() && View() == Initial(t, readSize, writeSize)
    {
      this.t := t;
      RQ := new PacketQueue(readSize, false);
      WQ := new PacketQueue(writeSize, true);
      bankRequest := new Bank[BANK_COUNT](_ => EMPTY_BANK);
      writeMode, dbusCycleAvailable, scheduledReads, scheduledWrites := false, 0, 0, 0;
      new;
      assert bankRequest[..] == seq(BANK_COUNT, _ => EMPTY_BANK);
      InitialInv(t, readSize, writeSize);
    }

    /** Cancel one entry of a queue if it is scheduled. */
    method CancelEntry(queue: PacketQueue, i: nat, now: nat)
      requires bankRequest.Length == BANK_COUNT && i < queue.entry.Length
      requires queue.entry[i].scheduled ==>
        var bank := bankRequest[BankIndex(queue.entry[i].address)];
        && bank.isWrite == queue.isWQ && bank.isRead == !queue.isWQ
        && bank.cycleAvailable >= t.tCAS
        && (if queue.isWQ then scheduledWrites else scheduledReads) > 0
      modifies this`scheduledReads, this`scheduledWrites, queue.entry, bankRequest
      ensures queue.entry[..] == old(queue.entry[..])[i := ResetEntry(old(queue.entry[i]), now)]
      ensures bankRequest[..] ==
        var e := old(queue.entry[i]);
        var b := BankIndex(e.address);
        if e.scheduled
        then old(bankRequest[..])[b := ResetBank(old(bankRequest[..])[b], GetRow(e.address), t.tCAS, now)]
        else old(bankRequest[..])
      ensures scheduledReads == old(scheduledReads) - (if old(queue.entry[i].scheduled) && !queue.isWQ then 1 else 0)
      ensures scheduledWrites == old(scheduledWrites) - (if old(queue.entry[i].scheduled) && queue.isWQ then 1 else 0)
    {
      if queue.entry[i].scheduled {
        var address := queue.entry[i].address;
        var b := BankIndex(address);
        // update open row; the subtraction cannot wrap
        var columnStart: nat := bankRequest[b].cycleAvailable - t.tCAS;
        var openRow := if columnStart <= now then Some(GetRow(address)) else None;
        // this bank is ready for another request
        bankRequest[b] := bankRequest[b].(
          openRow := openRow, requestIndex := -1, rowHit := false, working := false, cycleAvailable := now);
        if bankRequest[b].isWrite {
          scheduledWrites := scheduledWrites - 1;
          bankRequest[b] := bankRequest[b].(isWrite := false);
        } else if bankRequest[b].isRead {
          scheduledReads := scheduledReads - 1;
          bankRequest[b] := bankRequest[b].(isRead := false);
        }
        queue.entry[i] := queue.entry[i].(scheduled := false, eventCycle := now);
      }
    }

    /** Cancel every scheduled entry of a queue. */
    method CancelEntries(queue: PacketQueue, now: nat)
      requires Serving(queue.entry[..], bankRequest[..], queue.isWQ, t.tCAS)
      requires Count(Scheduled(queue.entry[..])) <= if queue.isWQ then scheduledWrites else scheduledReads
      modifies this`scheduledReads, this`scheduledWrites, queue.entry, bankRequest
      ensures queue.entry[..] == ResetEntries(old(queue.entry[..]), now, queue.entry.Length)
      ensures bankRequest[..] ==
        ResetBanks(old(bankRequest[..]), old(queue.entry[..]), t.tCAS, now, queue.entry.Length)
      ensures scheduledReads ==
        old(scheduledReads) - (if queue.isWQ then 0 else Count(Scheduled(old(queue.entry[..]))))
      ensures scheduledWrites ==
        old(scheduledWrites) - (if queue.isWQ then Count(Scheduled(old(queue.entry[..]))) else 0)
    {
      ghost var es, banks, w := queue.entry[..], bankRequest[..], queue.isWQ;
      ghost var mask := Scheduled(es);
      for i := 0 to queue.entry.Length
        invariant queue.entry[..] == ResetEntries(es, now, i)
        invariant bankRequest[..] == ResetBanks(banks, es, t.tCAS, now, i)
        invariant scheduledReads == old(scheduledReads) - (if w then 0 else Count(mask[..i]))
        invariant scheduledWrites == old(scheduledWrites) - (if w then Count(mask[..i]) else 0)
      {
        ResetOneMore(es, banks, w, t.tCAS, now, i);
        CountTakeOneMore(mask, i);
        CountOfPrefix(mask, i + 1);
        assert queue.entry[..][i] == es[i];
        CancelEntry(queue, i, now);
      }
      assert mask[..queue.entry.Length] == mask;
    }

    /** Cancel the scheduled requests of a queue; the mode flag may already have been flipped. */
    method ResetRemainRequests(queue: PacketQueue, now: nat)
      requires Separate() && (queue == RQ || queue == WQ)
      requires Inv(View().(writeMode := queue.isWQ))
      modifies this`scheduledReads, this`scheduledWrites, RQ, WQ, RQ.entry, WQ.entry, bankRequest
      ensures View() == ResetRemaining(old(View()), queue.isWQ, now)
    {
      CancelEntries(queue, now);
      RQ.UpdateScheduleCycle();
      WQ.UpdateScheduleCycle();
      RQ.UpdateProcessCycle();
      WQ.UpdateProcessCycle();
      // the simulator's sanity check
      assert if queue.isWQ then scheduledWrites == 0 else scheduledReads == 0;
    }

    /** Pick the entry to start: the oldest row hit, else the oldest whose bank is idle. */
    method Choose(queue: PacketQueue) returns (oldestIndex: int, rowBufferHit: bool)
      requires bankRequest.Length == BANK_COUNT
      ensures (oldestIndex, rowBufferHit) == Choice(queue.entry[..], bankRequest[..])
    {
      ghost var es, banks := queue.entry[..], bankRequest[..];
      oldestIndex, rowBufferHit := -1, false;
      var oldestCycle := Never;
      for i := 0 to queue.entry.Length
        invariant oldestIndex == Oldest(es, RowHits(es, banks), i)
        invariant oldestCycle == CycleAt(es, oldestIndex)
        invariant rowBufferHit == (oldestIndex != -1)
      {
        var e := queue.entry[i];
        if e.scheduled || e.address == 0 || bankRequest[BankIndex(e.address)].working { continue; }
        if bankRequest[BankIndex(e.address)].openRow != Some(GetRow(e.address)) { continue; }
        if Earlier(e.eventCycle, oldestCycle) {
          oldestCycle, oldestIndex, rowBufferHit := At(e.eventCycle), i, true;
        }
      }
      if oldestIndex == -1 {
        oldestCycle := Never;
        for i := 0 to queue.entry.Length
          invariant oldestIndex == Oldest(es, Startable(es, banks), i)
          invariant oldestCycle == CycleAt(es, oldestIndex)
        {
          var e := queue.entry[i];
          if e.scheduled || e.address == 0 || bankRequest[BankIndex(e.address)].working { continue; }
          if Earlier(e.eventCycle, oldestCycle) {
            oldestCycle, oldestIndex := At(e.eventCycle), i;
          }
        }
      }
    }

    /** Occupy the bank of an entry. */
    method OccupyBank(queue: PacketQueue, index: nat, rowBufferHit: bool, now: nat)
      requires bankRequest.Length == BANK_COUNT && index < queue.entry.Length
      modifies this`scheduledReads, this`scheduledWrites, queue.entry, bankRequest
      ensures var latency := if rowBufferHit then t.tCAS else t.tRP + t.tRCD + t.tCAS;
        var e := old(queue.entry[index]);
        && queue.entry[..] == old(queue.entry[..])[index := e.(scheduled := true, eventCycle := now + latency)]
        && bankRequest[..] == old(bankRequest[..])[BankIndex(e.address) :=
             Bank(true, rowBufferHit, queue.isWQ, !queue.isWQ, now + latency, Some(GetRow(e.address)), index)]
      ensures scheduledReads == old(scheduledReads) + (if queue.isWQ then 0 else 1)
      ensures scheduledWrites == old(scheduledWrites) + (if queue.isWQ then 1 else 0)
    {
      var latency := if rowBufferHit then t.tCAS else t.tRP + t.tRCD + t.tCAS;
      var address := queue.entry[index].address;
      var b := BankIndex(address);
      bankRequest[b] := bankRequest[b].(
        working := true, cycleAvailable := now + latency, requestIndex := index, rowHit := rowBufferHit);
      if queue.isWQ {
        bankRequest[b] := bankRequest[b].(isWrite := true, isRead := false);
        scheduledWrites := scheduledWrites + 1;
      } else {
        bankRequest[b] := bankRequest[b].(isWrite := false, isRead := true);
        scheduledReads := scheduledReads + 1;
      }
      bankRequest[b] := bankRequest[b].(openRow := Some(GetRow(address)));
      queue.entry[index] := queue.entry[index].(scheduled := true, eventCycle := now + latency);
    }

    /** Occupy the bank of an entry and refresh the cached minima. */
    method StartRequest(queue: PacketQueue, index: nat, rowBufferHit: bool, now: nat)
      requires Separate() && queue.isWQ == writeMode && (queue == RQ || queue == WQ)
      requires index < queue.entry.Length
      modifies this`scheduledReads, this`scheduledWrites, queue, queue.entry, bankRequest
      ensures View() == Start(old(View()), index, rowBufferHit, now)
    {
      ghost var other := if queue.isWQ then RQ else WQ;
      ghost var e, bank, q := StartParts(View(), index, rowBufferHit, now);
      OccupyBank(queue, index, rowBufferHit, now);
      assert queue.entry[..] == q.entries;
      queue.UpdateScheduleCycle();
      queue.UpdateProcessCycle();
      assert other.View() == old(other.View());
      StartedParts(old(View()), View(), index, rowBufferHit, now, bank, q);
    }

    /** Start the chosen entry, if there is one. */
    method ScheduleRequest(queue: PacketQueue, now: nat)
      requires Separate() && queue.isWQ == writeMode && (queue == RQ || queue == WQ)
      modifies this`scheduledReads, this`scheduledWrites, queue, queue.entry, bankRequest
      ensures View() == Schedule(old(View()), now)
    {
      var oldestIndex, rowBufferHit := Choose(queue);
      if oldestIndex != -1 {
        StartRequest(queue, oldestIndex, rowBufferHit, now);
      }
    }

    /** The bank and the slot of a served request are freed. */
    method FinishRequest(queue: PacketQueue, index: nat)
      requires bankRequest.Length == BANK_COUNT && index < queue.entry.Length
      requires queue.occupancy > 0 && (if queue.isWQ then scheduledWrites else scheduledReads) > 0
      modifies this`scheduledReads, this`scheduledWrites, queue`occupancy, queue.entry, bankRequest
      ensures var b := BankIndex(old(queue.entry[index].address));
        bankRequest[..] == old(bankRequest[..])[b := DramModel.FreeBank(old(bankRequest[..])[b])]
      ensures queue.entry[..] == old(queue.entry[..])[index := EMPTY_PACKET]
      ensures queue.occupancy == old(queue.occupancy) - 1
      ensures scheduledReads == old(scheduledReads) - (if queue.isWQ then 0 else 1)
      ensures scheduledWrites == old(scheduledWrites) - (if queue.isWQ then 1 else 0)
    {
      var b := BankIndex(queue.entry[index].address);
      bankRequest[b] := bankRequest[b].(
        requestIndex := -1, rowHit := false, working := false, isWrite := false, isRead := false);
      if queue.isWQ {
        scheduledWrites := scheduledWrites - 1;
      } else {
        scheduledReads := scheduledReads - 1;
      }
      queue.entry[index] := EMPTY_PACKET;
      queue.occupancy := queue.occupancy - 1;
    }

    /** Serve the request at the process index, or let it wait for the data bus. */
    method ProcessRequest(queue: PacketQueue, now: nat) returns (sent: Option<Transfer>)
      requires Valid() && queue.isWQ == writeMode && (queue == RQ || queue == WQ)
      requires ProcessDue(View(), now)
      modifies this`dbusCycleAvailable, this`scheduledReads, this`scheduledWrites, queue, queue.entry, bankRequest
      ensures (View(), sent) == Process(old(View()), now)
    {
      ProcessedEntryIsServed(View(), now);
      hide Inv;
      sent := None;
      var index := queue.nextProcessIndex;
      var e := queue.entry[index];
      var b := BankIndex(e.address);
      // the simulator's sanity check
      assert bankRequest[b].requestIndex == index;
      if bankRequest[b].cycleAvailable <= now {
        if dbusCycleAvailable <= now {
          dbusCycleAvailable := now + t.busReturn;
          sent := Some(Transfer(queue.isWQ, e.address, e.data, dbusCycleAvailable));
          ghost var other := if queue.isWQ then RQ else WQ;
          FinishRequest(queue, index);
          queue.UpdateProcessCycle();
          assert other.View() == old(other.View());
        } else {
          bankRequest[b] := bankRequest[b].(cycleAvailable := dbusCycleAvailable);
        }
      }
    }

    /** Flip the mode, cancel what the old mode had scheduled, and pay for turning the bus. */
    method TurnAround(now: nat)
      requires Valid()
      modifies this, RQ, WQ, RQ.entry, WQ.entry, bankRequest
      ensures Separate()
      ensures View() == ResetRemaining(old(View()), old(writeMode), now).(
        writeMode := !old(writeMode), busFree := old(dbusCycleAvailable) + t.turnAround)
    {
      var queue := if writeMode then WQ else RQ;
      writeMode := !writeMode;
      assert View().(writeMode := queue.isWQ) == old(View());
      ResetRemainRequests(queue, now);
      dbusCycleAvailable := dbusCycleAvailable + t.turnAround;
    }

    /** Switch between reads and writes when the watermarks ask for it. */
    method SwitchModes(now: nat)
      requires Valid()
      modifies this, RQ, WQ, RQ.entry, WQ.entry, bankRequest
      ensures View() == SwitchMode(old(View()), now) && Separate()
    {
      var high, low := WQ.entry.Length * 7 / 8, WQ.entry.Length * 3 / 4;
      if !writeMode && (WQ.occupancy >= high || (RQ.occupancy == 0 && WQ.occupancy > 0)) {
        TurnAround(now);
      } else if writeMode {
        if WQ.occupancy == 0 {
          TurnAround(now);
        } else if RQ.occupancy > 0 && WQ.occupancy < low {
          TurnAround(now);
        }
      }
    }

    /** Schedule from a queue when its earliest waiting entry is due. */
    method ScheduleWhenDue(queue: PacketQueue, now: nat)
      requires Separate() && queue.isWQ == writeMode && (queue == RQ || queue == WQ)
      modifies this`scheduledReads, this`scheduledWrites, queue, queue.entry, bankRequest
      ensures View() == MaybeSchedule(old(View()), now)
    {
      if queue.nextScheduleIndex < queue.entry.Length && Due(queue.nextScheduleCycle, now) {
        ScheduleRequest(queue, now);
      }
    }

    /** Process a queue when its earliest scheduled entry is due. */
    method ProcessWhenDue(queue: PacketQueue, now: nat) returns (sent: Option<Transfer>)
      requires Valid() && queue.isWQ == writeMode && (queue == RQ || queue == WQ)
      modifies this`dbusCycleAvailable, this`scheduledReads, this`scheduledWrites, queue, queue.entry, bankRequest
      ensures (View(), sent) == MaybeProcess(old(View()), now)
    {
      sent := None;
      if queue.nextProcessIndex < queue.entry.Length && Due(queue.nextProcessCycle, now) {
        sent := ProcessRequest(queue, now);
      }
    }

    /** One controller cycle: the queue of the current mode schedules and then processes. */
    method OperateCycle(now: nat) returns (sent: Option<Transfer>)
      requires Valid()
      modifies this, RQ, WQ, RQ.entry, WQ.entry, bankRequest
      ensures Valid() && (View(), sent) == Operate(old(View()), now)
    {
      OperateKeepsInv(View(), now);
      SwitchModes(now);
      if writeMode {
        ScheduleWhenDue(WQ, now);
        sent := ProcessWhenDue(WQ, now);
      } else {
        ScheduleWhenDue(RQ, now);
        sent := ProcessWhenDue(RQ, now);
      }
    }

    /** Store a request in the first free slot of a queue; a full queue loses it. */
    method Store(queue: PacketQueue, r: Request) returns (result: AddResult)
      modifies queue, queue.entry
      ensures (queue.View(), result) == Enqueue(old(queue.View()), r)
    {
      var index := queue.CheckQueue(0);
      result := Dropped;
      if index != -1 {
        queue.entry[index] := Arrived(r);
        queue.occupancy := queue.occupancy + 1;
        result := Queued(index);
      }
      queue.UpdateScheduleCycle();
    }

    /** A read is answered from a queued write, merged with a queued read, or stored. */
    method AddRq(r: Request, warm: bool) returns (result: AddResult)
      requires Valid()
      modifies RQ, RQ.entry
      ensures Valid() && (View(), result) == AddRead(old(View()), r, warm)
    {
      AddReadKeepsInv(View(), r, warm);
      if !warm { return Dummy; }
      var wqIndex := WQ.CheckQueue(r.address);
      if wqIndex != -1 { return Forwarded(WQ.entry[wqIndex].data); }
      var index := RQ.CheckQueue(r.address);
      if index != -1 { return Merged(index); }
      result := Store(RQ, r);
    }

    /** A write is merged with a queued write to the same address or stored. */
    method AddWq(r: Request, warm: bool) returns (result: AddResult)
      requires Valid()
      modifies WQ, WQ.entry
      ensures Valid() && (View(), result) == AddWrite(old(View()), r, warm)
    {
      AddWriteKeepsInv(View(), r, warm);
      if !warm { return Dummy; }
      var index := WQ.CheckQueue(r.address);
      if index != -1 { return Merged(index); }
      result := Store(WQ, r);
    }
  }
}
