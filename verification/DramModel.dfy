/**
 The DRAM controller of one channel as a value: packets, banks, the two queues,
 and the state each operation leaves behind.
 */
module DramModel {
  import opened Counting

  // Geometry of the configured memory (one channel, one rank).
  const DRAM_CHANNELS := 1
  const DRAM_BANKS := 8
  const DRAM_COLUMNS := 128
  const DRAM_RANKS := 1
  const DRAM_ROWS := 65536

  // Each field of a block address is a shift by the widths of the fields below it and a mask.
  // A field of size one has no bits and reads as zero.
  function GetChannel(address: nat): nat { address % DRAM_CHANNELS }

  function GetBank(address: nat): nat { address / DRAM_CHANNELS % DRAM_BANKS }

  function GetColumn(address: nat): nat { address / (DRAM_BANKS * DRAM_CHANNELS) % DRAM_COLUMNS }

  function GetRank(address: nat): nat { address / (DRAM_COLUMNS * DRAM_BANKS * DRAM_CHANNELS) % DRAM_RANKS }

  function GetRow(address: nat): nat {
    address / (DRAM_RANKS * DRAM_COLUMNS * DRAM_BANKS * DRAM_CHANNELS) % DRAM_ROWS
  }

  const MEMORY_BLOCKS := 67108864

  /** An address below the memory size is put together again from its five fields. */
  lemma AddressRoundTrip(a: nat)
    requires a < MEMORY_BLOCKS
    ensures a == GetChannel(a) + GetBank(a) + 8 * GetColumn(a) + 1024 * GetRank(a) + 1024 * GetRow(a)
  {
    assert a / 8 == a / 1024 * 128 + a / 8 % 128;
    assert a / 1024 < 65536;
  }

  const BANK_COUNT: nat := DRAM_RANKS * DRAM_BANKS

  /** Banks of all ranks are numbered in one array. */
  function BankIndex(address: nat): (b: nat)
    ensures b < BANK_COUNT
  {
    GetRank(address) * DRAM_BANKS + GetBank(address)
  }

  /** A simulated cycle, or the 64-bit maximum that stands for "no cycle". */
  datatype Cycle = At(c: nat) | Never

  predicate Due(cycle: Cycle, now: nat) { cycle.At? && cycle.c <= now }

  datatype Request = Request(address: nat, eventCycle: nat, data: int)

  datatype Packet = Packet(address: nat, scheduled: bool, eventCycle: nat, data: int)

  // A freed slot. The event cycle of an empty packet is never read.
  const EMPTY_PACKET := Packet(0, false, 0, 0)

  function Arrived(r: Request): Packet { Packet(r.address, false, r.eventCycle, r.data) }

  datatype Bank = Bank(
    working: bool, rowHit: bool, isWrite: bool, isRead: bool,
    cycleAvailable: nat, openRow: Option<nat>, requestIndex: int)

  const EMPTY_BANK := Bank(false, false, false, false, 0, None, -1)

  datatype Timing = Timing(tRP: nat, tRCD: nat, tCAS: nat, busReturn: nat, turnAround: nat)

  datatype Queue = Queue(
    entries: seq<Packet>, occupancy: int,
    scheduleIndex: nat, scheduleCycle: Cycle, processIndex: nat, processCycle: Cycle)

  datatype Channel = Channel(
    t: Timing, rq: Queue, wq: Queue, banks: seq<Bank>,
    writeMode: bool, busFree: nat, scheduledReads: int, scheduledWrites: int)

  /** What leaves the controller when a request has used the data bus. */
  datatype Transfer = Transfer(isWrite: bool, address: nat, data: int, doneAt: nat)

  // ---- Which entries a search may pick ----

  function Occupied(es: seq<Packet>): (m: seq<bool>) {
    seq(|es|, i requires 0 <= i < |es| => es[i].address != 0)
  }

  function Scheduled(es: seq<Packet>): (m: seq<bool>) {
    seq(|es|, i requires 0 <= i < |es| => es[i].scheduled)
  }

  predicate IsWaiting(e: Packet) { e.address != 0 && !e.scheduled }

  function Waiting(es: seq<Packet>): (m: seq<bool>) {
    seq(|es|, i requires 0 <= i < |es| => IsWaiting(es[i]))
  }

  predicate BankIdle(e: Packet, banks: seq<Bank>)
    requires |banks| == BANK_COUNT
  {
    IsWaiting(e) && !banks[BankIndex(e.address)].working
  }

  function Startable(es: seq<Packet>, banks: seq<Bank>): (m: seq<bool>)
    requires |banks| == BANK_COUNT
  {
    seq(|es|, i requires 0 <= i < |es| => BankIdle(es[i], banks))
  }

  function RowHits(es: seq<Packet>, banks: seq<Bank>): (m: seq<bool>)
    requires |banks| == BANK_COUNT
  {
    seq(|es|, i requires 0 <= i < |es| =>
      BankIdle(es[i], banks) && banks[BankIndex(es[i].address)].openRow == Some(GetRow(es[i].address)))
  }

  /** The first eligible entry with the least event cycle among the first n, or -1. */
  function Oldest(es: seq<Packet>, mask: seq<bool>, n: nat): (k: int)
    requires n <= |es| == |mask|
    ensures -1 <= k < n
  {
    if n == 0 then -1
    else
      var k := Oldest(es, mask, n - 1);
      if mask[n - 1] && (k == -1 || es[n - 1].eventCycle < es[k].eventCycle) then n - 1 else k
  }

  lemma {:induction false} OldestIsFirstMinimum(es: seq<Packet>, mask: seq<bool>, n: nat)
    requires n <= |es| == |mask|
    ensures var k := Oldest(es, mask, n);
      if k == -1 then forall i :: 0 <= i < n ==> !mask[i]
      else
        && mask[k]
        && (forall i :: 0 <= i < n && mask[i] ==> es[k].eventCycle <= es[i].eventCycle)
        && (forall i :: 0 <= i < k && mask[i] ==> es[k].eventCycle < es[i].eventCycle)
  {
    if n > 0 {
      OldestIsFirstMinimum(es, mask, n - 1);
    }
  }

  function OldestWaiting(es: seq<Packet>): int { Oldest(es, Waiting(es), |es|) }

  function OldestScheduled(es: seq<Packet>): int { Oldest(es, Scheduled(es), |es|) }

  /** The index of the first entry holding this address, or -1. */
  function Lookup(es: seq<Packet>, address: nat): (k: int)
    ensures -1 <= k < |es|
    ensures k == -1 <==> forall i :: 0 <= i < |es| ==> es[i].address != address
    ensures k >= 0 ==> es[k].address == address && forall i :: 0 <= i < k ==> es[i].address != address
  {
    if es == [] then -1
    else
      var k := Lookup(es[..|es| - 1], address);
      if k >= 0 then k else if es[|es| - 1].address == address then |es| - 1 else -1
  }

  // ---- The cached minima ----

  function CycleAt(es: seq<Packet>, k: int): Cycle
    requires -1 <= k < |es|
  {
    if k == -1 then Never else At(es[k].eventCycle)
  }

  function IndexOrSize(es: seq<Packet>, k: int): nat
    requires -1 <= k < |es|
  {
    if k == -1 then |es| else k
  }

  function RefreshSchedule(q: Queue): Queue {
    var k := OldestWaiting(q.entries);
    q.(scheduleIndex := IndexOrSize(q.entries, k), scheduleCycle := CycleAt(q.entries, k))
  }

  function RefreshProcess(q: Queue): Queue {
    var k := OldestScheduled(q.entries);
    q.(processIndex := IndexOrSize(q.entries, k), processCycle := CycleAt(q.entries, k))
  }

  function Refresh(q: Queue): Queue { RefreshProcess(RefreshSchedule(q)) }

  // ---- Operations ----

  function Active(ch: Channel): Queue { if ch.writeMode then ch.wq else ch.rq }

  function WithQueue(ch: Channel, isWrite: bool, q: Queue): Channel {
    if isWrite then ch.(wq := q) else ch.(rq := q)
  }

  function HighWatermark(ch: Channel): nat { |ch.wq.entries| * 7 / 8 }

  function LowWatermark(ch: Channel): nat { |ch.wq.entries| * 3 / 4 }

  predicate SwitchToWrite(ch: Channel) {
    !ch.writeMode
    && (ch.wq.occupancy >= HighWatermark(ch) || (ch.rq.occupancy == 0 && ch.wq.occupancy > 0))
  }

  predicate SwitchToRead(ch: Channel) {
    ch.writeMode
    && (ch.wq.occupancy == 0 || (ch.rq.occupancy > 0 && ch.wq.occupancy < LowWatermark(ch)))
  }

  predicate Switches(ch: Channel) { SwitchToWrite(ch) || SwitchToRead(ch) }

  /** A scheduled entry goes back to waiting from now on. */
  function ResetEntry(e: Packet, now: nat): Packet {
    if e.scheduled then e.(scheduled := false, eventCycle := now) else e
  }

  /** A working bank is freed; its row stays open only if the column access had begun. */
  function ResetBank(b: Bank, row: nat, tCAS: nat, now: nat): Bank {
    Bank(false, false, false, false, now,
         if b.cycleAvailable - tCAS <= now then Some(row) else None, -1)
  }

  predicate NamesEntry(b: Bank, es: seq<Packet>) { b.working && 0 <= b.requestIndex < |es| }

  function ResetEntries(es: seq<Packet>, now: nat, n: nat): (r: seq<Packet>)
    requires n <= |es|
  {
    seq(|es|, i requires 0 <= i < |es| => if i < n then ResetEntry(es[i], now) else es[i])
  }

  /** Banks serving one of the first n entries are freed. */
  function ResetBanks(banks: seq<Bank>, es: seq<Packet>, tCAS: nat, now: nat, n: nat): (r: seq<Bank>)
    requires n <= |es|
  {
    seq(|banks|, b requires 0 <= b < |banks| =>
      if NamesEntry(banks[b], es) && banks[b].requestIndex < n
      then ResetBank(banks[b], GetRow(es[banks[b].requestIndex].address), tCAS, now)
      else banks[b])
  }

  /** Cancel all scheduled work of one queue. */
  function ResetRemaining(ch: Channel, isWrite: bool, now: nat): Channel {
    var q := if isWrite then ch.wq else ch.rq;
    var n := |q.entries|;
    var freed := WithQueue(ch, isWrite, q.(entries := ResetEntries(q.entries, now, n)));
    freed.(
      banks := ResetBanks(ch.banks, q.entries, ch.t.tCAS, now, n),
      rq := Refresh(freed.rq), wq := Refresh(freed.wq),
      scheduledReads := if isWrite then ch.scheduledReads else ch.scheduledReads - Count(Scheduled(q.entries)),
      scheduledWrites := if isWrite then ch.scheduledWrites - Count(Scheduled(q.entries)) else ch.scheduledWrites)
  }

  function SwitchMode(ch: Channel, now: nat): Channel {
    if Switches(ch) then
      var cancelled := ResetRemaining(ch, ch.writeMode, now);
      cancelled.(writeMode := !ch.writeMode, busFree := ch.busFree + ch.t.turnAround)
    else ch
  }

  /** Occupy the bank of entry k of the active queue. */
  function Start(ch: Channel, k: nat, hit: bool, now: nat): Channel
    requires |ch.banks| == BANK_COUNT
    requires k < |Active(ch).entries|
  {
    var q := Active(ch);
    var e := q.entries[k];
    var latency := if hit then ch.t.tCAS else ch.t.tRP + ch.t.tRCD + ch.t.tCAS;
    var bank := Bank(true, hit, ch.writeMode, !ch.writeMode, now + latency, Some(GetRow(e.address)), k);
    var q' := q.(entries := q.entries[k := e.(scheduled := true, eventCycle := now + latency)]);
    WithQueue(ch, ch.writeMode, Refresh(q')).(
      banks := ch.banks[BankIndex(e.address) := bank],
      scheduledReads := if ch.writeMode then ch.scheduledReads else ch.scheduledReads + 1,
      scheduledWrites := if ch.writeMode then ch.scheduledWrites + 1 else ch.scheduledWrites)
  }

  /** First-ready scheduling: the oldest row hit, else the oldest entry whose bank is idle. */
  function Choice(es: seq<Packet>, banks: seq<Bank>): (choice: (int, bool))
    requires |banks| == BANK_COUNT
    ensures -1 <= choice.0 < |es|
  {
    var h := Oldest(es, RowHits(es, banks), |es|);
    if h != -1 then (h, true) else (Oldest(es, Startable(es, banks), |es|), false)
  }

  function Schedule(ch: Channel, now: nat): Channel
    requires |ch.banks| == BANK_COUNT
  {
    var (k, hit) := Choice(Active(ch).entries, ch.banks);
    if k == -1 then ch else Start(ch, k, hit, now)
  }

  function FreeBank(b: Bank): Bank {
    b.(requestIndex := -1, rowHit := false, working := false, isWrite := false, isRead := false)
  }

  /** The request at the process index uses the bus, or waits for it. */
  function Process(ch: Channel, now: nat): (r: (Channel, Option<Transfer>))
    requires |ch.banks| == BANK_COUNT
    requires Active(ch).processIndex < |Active(ch).entries|
  {
    var q := Active(ch);
    var k := q.processIndex;
    var e := q.entries[k];
    var b := BankIndex(e.address);
    if ch.banks[b].cycleAvailable > now then (ch, None)
    else if ch.busFree > now then
      (ch.(banks := ch.banks[b := ch.banks[b].(cycleAvailable := ch.busFree)]), None)
    else
      var done := now + ch.t.busReturn;
      var q' := q.(entries := q.entries[k := EMPTY_PACKET], occupancy := q.occupancy - 1);
      (WithQueue(ch, ch.writeMode, RefreshProcess(q')).(
         banks := ch.banks[b := FreeBank(ch.banks[b])],
         busFree := done,
         scheduledReads := if ch.writeMode then ch.scheduledReads else ch.scheduledReads - 1,
         scheduledWrites := if ch.writeMode then ch.scheduledWrites - 1 else ch.scheduledWrites),
       Some(Transfer(ch.writeMode, e.address, e.data, done)))
  }

  predicate ScheduleDue(ch: Channel, now: nat) {
    Active(ch).scheduleIndex < |Active(ch).entries| && Due(Active(ch).scheduleCycle, now)
  }

  predicate ProcessDue(ch: Channel, now: nat) {
    Active(ch).processIndex < |Active(ch).entries| && Due(Active(ch).processCycle, now)
  }

  function MaybeSchedule(ch: Channel, now: nat): Channel
    requires |ch.banks| == BANK_COUNT
  {
    if ScheduleDue(ch, now) then Schedule(ch, now) else ch
  }

  function MaybeProcess(ch: Channel, now: nat): (Channel, Option<Transfer>)
    requires |ch.banks| == BANK_COUNT
  {
    if ProcessDue(ch, now) then Process(ch, now) else (ch, None)
  }

  /** One controller cycle. */
  function Operate(ch: Channel, now: nat): (Channel, Option<Transfer>)
    requires |ch.banks| == BANK_COUNT
  {
    MaybeProcess(MaybeSchedule(SwitchMode(ch, now), now), now)
  }

  datatype AddResult = Dummy | Forwarded(data: int) | Merged(index: nat) | Queued(index: nat) | Dropped

  /** Put a request in the first free slot of a queue; a full queue drops it. */
  function Enqueue(q: Queue, r: Request): (Queue, AddResult) {
    var k := Lookup(q.entries, 0);
    if k == -1 then (RefreshSchedule(q), Dropped)
    else
      (RefreshSchedule(q.(entries := q.entries[k := Arrived(r)], occupancy := q.occupancy + 1)), Queued(k))
  }

  function AddRead(ch: Channel, r: Request, warm: bool): (Channel, AddResult) {
    var w, k := Lookup(ch.wq.entries, r.address), Lookup(ch.rq.entries, r.address);
    if !warm then (ch, Dummy)
    else if w != -1 then (ch, Forwarded(ch.wq.entries[w].data))
    else if k != -1 then (ch, Merged(k))
    else var (q, result) := Enqueue(ch.rq, r); (ch.(rq := q), result)
  }

  function AddWrite(ch: Channel, r: Request, warm: bool): (Channel, AddResult) {
    var k := Lookup(ch.wq.entries, r.address);
    if !warm then (ch, Dummy)
    else if k != -1 then (ch, Merged(k))
    else var (q, result) := Enqueue(ch.wq, r); (ch.(wq := q), result)
  }
}
