/**
 What each step of the controller does to the channel, read off the state before and after: which
 latency a request pays, which row stays open, whose data are sent, and which data an arrival gets.
 */
module DramEffects {
  import opened Counting
  import opened DramModel
  import opened DramInvariant
  import opened DramRun

  // ---- Scheduling ----

  /** An entry that waits for an idle bank. */
  predicate CanStart(es: seq<Packet>, banks: seq<Bank>, i: nat)
    requires i < |es| && |banks| == BANK_COUNT
  {
    es[i].address != 0 && !es[i].scheduled && !banks[BankIndex(es[i].address)].working
  }

  predicate OpensRow(e: Packet, banks: seq<Bank>)
    requires |banks| == BANK_COUNT
  {
    banks[BankIndex(e.address)].openRow == Some(GetRow(e.address))
  }

  function Latency(t: Timing, hit: bool): nat { if hit then t.tCAS else t.tRP + t.tRCD + t.tCAS }

  /** Entry k goes before entry i: row hits first, then the older, then the earlier slot. */
  predicate GoesFirst(es: seq<Packet>, banks: seq<Bank>, k: nat, i: nat)
    requires k < |es| && i < |es| && |banks| == BANK_COUNT
  {
    if OpensRow(es[k], banks) != OpensRow(es[i], banks) then OpensRow(es[k], banks)
    else es[k].eventCycle < es[i].eventCycle || (es[k].eventCycle == es[i].eventCycle && k <= i)
  }

  /** Entry k and its bank after a start at `now`, with the latency that the open row calls for. */
  predicate StartedAt(ch: Channel, ch': Channel, k: nat, now: nat)
    requires |ch.banks| == BANK_COUNT && k < |Active(ch).entries|
  {
    var es := Active(ch).entries;
    var e, b, hit := es[k], BankIndex(es[k].address), OpensRow(es[k], ch.banks);
    var ready := now + Latency(ch.t, hit);
    && CanStart(es, ch.banks, k)
    && ch'.writeMode == ch.writeMode && ch'.busFree == ch.busFree && ch'.t == ch.t
    && Active(ch').entries == es[k := e.(scheduled := true, eventCycle := ready)]
    && ch'.banks == ch.banks[b := Bank(true, hit, ch.writeMode, !ch.writeMode, ready, Some(GetRow(e.address)), k)]
    && Active(ch').occupancy == Active(ch).occupancy && Inactive(ch') == Inactive(ch)
  }

  /**
   Scheduling starts the first of the entries that can start, or nothing when none can. A row hit is
   ready after the column latency, any other request after precharge, activation and column access.
   */
  lemma SchedulingStartsFirst(ch: Channel, now: nat)
    requires |ch.banks| == BANK_COUNT
    ensures var es := Active(ch).entries;
      if forall i: nat :: i < |es| ==> !CanStart(es, ch.banks, i) then Schedule(ch, now) == ch
      else exists k: nat ::
        && k < |es| && StartedAt(ch, Schedule(ch, now), k, now)
        && forall i: nat :: i < |es| && CanStart(es, ch.banks, i) ==> GoesFirst(es, ch.banks, k, i)
  {
    var es := Active(ch).entries;
    ChoiceGoesFirst(es, ch.banks);
    var (k, hit) := Choice(es, ch.banks);
    hide Choice, CanStart, GoesFirst, OpensRow;
    if k != -1 {
      var n: nat := k;
      StartIsStartedAt(ch, n, hit, now);
      assert Schedule(ch, now) == Start(ch, n, hit, now);
      hide Schedule, Start, StartedAt;
      assert n < |es| && StartedAt(ch, Schedule(ch, now), n, now);
      assert forall i: nat :: i < |es| && CanStart(es, ch.banks, i) ==> GoesFirst(es, ch.banks, n, i);
      assert CanStart(es, ch.banks, n);
    }
  }

  lemma ChoiceGoesFirst(es: seq<Packet>, banks: seq<Bank>)
    requires |banks| == BANK_COUNT
    ensures var (k, hit) := Choice(es, banks);
      if k == -1 then forall i: nat :: i < |es| ==> !CanStart(es, banks, i)
      else
        && CanStart(es, banks, k) && hit == OpensRow(es[k], banks)
        && forall i: nat :: i < |es| && CanStart(es, banks, i) ==> GoesFirst(es, banks, k, i)
  {
    ChoiceIsFirstReady(es, banks);
    var (k, hit) := Choice(es, banks);
    hide Choice;
    forall i: nat | i < |es|
      ensures CanStart(es, banks, i) <==> BankIdle(es[i], banks)
      ensures RowHits(es, banks)[i] <==> BankIdle(es[i], banks) && OpensRow(es[i], banks)
    {}
    if k != -1 {
      forall i: nat | i < |es| && CanStart(es, banks, i) ensures GoesFirst(es, banks, k, i) {
        assert RowHits(es, banks)[i] ==> hit;
      }
    }
  }

  lemma StartIsStartedAt(ch: Channel, k: nat, hit: bool, now: nat)
    requires |ch.banks| == BANK_COUNT && k < |Active(ch).entries|
    requires CanStart(Active(ch).entries, ch.banks, k) && hit == OpensRow(Active(ch).entries[k], ch.banks)
    ensures StartedAt(ch, Start(ch, k, hit, now), k, now)
  {}

  // ---- Mode switches ----

  /** The row that bank b has open once a switch, if one is due, has cancelled the scheduled work. */
  function OpenRowAfterSwitch(ch: Channel, b: nat, now: nat): Option<nat>
    requires b < |ch.banks|
  {
    var bank, es := ch.banks[b], Active(ch).entries;
    if ModeEnds(ch) && bank.working && 0 <= bank.requestIndex < |es| then
      if bank.cycleAvailable - ch.t.tCAS <= now then Some(GetRow(es[bank.requestIndex].address)) else None
    else bank.openRow
  }

  /** Writes start at seven eighths of their queue or without reads; reads at three quarters or without writes. */
  predicate ModeEnds(ch: Channel) {
    if ch.writeMode then
      ch.wq.occupancy == 0 || (ch.rq.occupancy > 0 && ch.wq.occupancy < |ch.wq.entries| * 3 / 4)
    else
      ch.wq.occupancy >= |ch.wq.entries| * 7 / 8 || (ch.rq.occupancy == 0 && ch.wq.occupancy > 0)
  }

  /** A switch frees all banks and sends the scheduled entries back to wait from now on; the rest stays. */
  lemma SwitchingCancels(ch: Channel, now: nat)
    requires Inv(ch)
    ensures var ch' := SwitchMode(ch, now);
      if !ModeEnds(ch) then ch' == ch
      else
        && ch'.writeMode != ch.writeMode && ch'.busFree == ch.busFree + ch.t.turnAround && ch'.t == ch.t
        && |Inactive(ch').entries| == |Active(ch).entries| && Active(ch').entries == Inactive(ch).entries
        && Inactive(ch').occupancy == Active(ch).occupancy && Active(ch').occupancy == Inactive(ch).occupancy
        && (forall i :: 0 <= i < |Active(ch).entries| ==>
              Inactive(ch').entries[i] ==
                if Active(ch).entries[i].scheduled then Active(ch).entries[i].(scheduled := false, eventCycle := now)
                else Active(ch).entries[i])
        && |ch'.banks| == |ch.banks|
        && (forall b :: 0 <= b < |ch.banks| ==>
              !ch'.banks[b].working && ch'.banks[b].openRow == OpenRowAfterSwitch(ch, b, now))
  {
    if ModeEnds(ch) {
      assert Switches(ch);
      hide QueueOk, EntryServed;
      assert forall b :: 0 <= b < BANK_COUNT ==>
        BankOk(b, ch.banks[b], Active(ch).entries, ch.writeMode, ch.t.tCAS);
    }
  }

  // ---- Processing ----

  /** The scheduled entry that is ready first. */
  predicate IsNext(es: seq<Packet>, k: nat) {
    && k < |es| && es[k].scheduled
    && (forall i :: 0 <= i < |es| && es[i].scheduled ==> es[k].eventCycle <= es[i].eventCycle)
    && (forall i :: 0 <= i < k && es[i].scheduled ==> es[k].eventCycle < es[i].eventCycle)
  }

  /** Nothing is sent, or the entry that is ready first is, with its own data, when its bank and the bus are free. */
  predicate SentAt(ch: Channel, ch': Channel, sent: Option<Transfer>, k: nat, now: nat)
    requires |ch.banks| == BANK_COUNT && k < |Active(ch).entries|
  {
    var es := Active(ch).entries;
    var e, b := es[k], BankIndex(es[k].address);
    var bank := ch.banks[b];
    && ch'.writeMode == ch.writeMode && ch'.t == ch.t && Inactive(ch') == Inactive(ch)
    && if e.eventCycle > now || bank.cycleAvailable > now then ch' == ch && sent == None
       else if ch.busFree > now then
         ch' == ch.(banks := ch.banks[b := bank.(cycleAvailable := ch.busFree)]) && sent == None
       else
         && sent == Some(Transfer(ch.writeMode, e.address, e.data, now + ch.t.busReturn))
         && ch'.busFree == now + ch.t.busReturn
         && Active(ch').entries == es[k := EMPTY_PACKET] && Active(ch').occupancy == Active(ch).occupancy - 1
         && ch'.banks == ch.banks[b := bank.(requestIndex := -1, rowHit := false, working := false,
                                             isWrite := false, isRead := false)]
  }

  lemma ProcessingSendsNext(ch: Channel, now: nat)
    requires Inv(ch)
    ensures var es, r := Active(ch).entries, MaybeProcess(ch, now);
      if forall i :: 0 <= i < |es| ==> !es[i].scheduled then r == (ch, None)
      else exists k: nat :: IsNext(es, k) && SentAt(ch, r.0, r.1, k, now)
  {
    var q := Active(ch);
    var es := q.entries;
    OldestIsFirstMinimum(es, Scheduled(es), |es|);
    assert forall i :: 0 <= i < |es| ==> Scheduled(es)[i] == es[i].scheduled;
    assert CacheOk(q);
    assert |ch.banks| == BANK_COUNT;
    hide Serving, EntriesOk, Inv;
    var k := OldestScheduled(es);
    if k != -1 {
      assert IsNext(es, k);
      NextIsSent(ch, k, now);
    }
  }

  lemma NextIsSent(ch: Channel, k: nat, now: nat)
    requires |ch.banks| == BANK_COUNT && CacheOk(Active(ch)) && k == OldestScheduled(Active(ch).entries)
    ensures SentAt(ch, MaybeProcess(ch, now).0, MaybeProcess(ch, now).1, k, now)
  {}

  // ---- A whole cycle ----

  /** Entry k was started in this cycle: it pays the latency that the row open before it calls for. */
  predicate StartedInCycle(ch: Channel, ch': Channel, k: nat, now: nat)
    requires |ch.banks| == BANK_COUNT && |ch'.banks| == BANK_COUNT && k < |Active(ch').entries|
  {
    var e := Active(ch').entries[k];
    var b := BankIndex(e.address);
    var hit := OpenRowAfterSwitch(ch, b, now) == Some(GetRow(e.address));
    && (ModeEnds(ch) || !ch.banks[b].working)
    && e.eventCycle == now + Latency(ch.t, hit)
    && ch'.banks[b].working && ch'.banks[b].requestIndex == k
    && ch'.banks[b].rowHit == hit && ch'.banks[b].openRow == Some(GetRow(e.address))
    && (ch'.banks[b].cycleAvailable == now + Latency(ch.t, hit) || Latency(ch.t, hit) == 0)
  }

  /** Whatever is scheduled after a cycle but was not before, or not in this mode, was started in it. */
  lemma CycleStartsWithLatency(ch: Channel, now: nat, k: nat)
    requires Inv(ch)
    requires var ch' := Operate(ch, now).0;
      && k < |Active(ch').entries| && Active(ch').entries[k].scheduled
      && (ModeEnds(ch) || !(k < |Active(ch).entries| && Active(ch).entries[k].scheduled))
    ensures |Operate(ch, now).0.banks| == BANK_COUNT
    ensures StartedInCycle(ch, Operate(ch, now).0, k, now)
  {
    var s := SwitchMode(ch, now);
    var m := MaybeSchedule(s, now);
    OperateKeepsInv(ch, now);
    SwitchingCancels(ch, now);
    SwitchQuiet(ch, now);
    SchedulingStartsFirst(s, now);
    ProcessingSendsNext(m, now);
    ProcessFrame(m, now);
    hide SwitchMode, MaybeSchedule, MaybeProcess, QueueOk, Quiet, Schedule;
    assert m == s || m == Schedule(s, now) by { MaybeSchedules(s, now); }
    CycleSteps(ch, s, m, Operate(ch, now).0, MaybeProcess(m, now).1, now, k);
  }

  lemma MaybeSchedules(ch: Channel, now: nat)
    requires |ch.banks| == BANK_COUNT
    ensures MaybeSchedule(ch, now) == ch || MaybeSchedule(ch, now) == Schedule(ch, now)
  {}

  /** Right after a switch nothing is scheduled. */
  lemma SwitchQuiet(ch: Channel, now: nat)
    requires Inv(ch)
    ensures SwitchMode(ch, now).t == ch.t
    ensures ModeEnds(ch) ==> forall i :: 0 <= i < |Active(SwitchMode(ch, now)).entries| ==>
      !Active(SwitchMode(ch, now)).entries[i].scheduled
  {
    assert Active(SwitchMode(ch, now)).entries == Inactive(ch).entries || !ModeEnds(ch);
  }

  lemma CycleSteps(
      ch: Channel, s: Channel, m: Channel, ch': Channel, sent: Option<Transfer>, now: nat, k: nat)
    requires |ch.banks| == |s.banks| == |m.banks| == |ch'.banks| == BANK_COUNT && ch.t == s.t
    requires !ModeEnds(ch) ==> s == ch
    requires ModeEnds(ch) ==> forall i :: 0 <= i < |Active(s).entries| ==> !Active(s).entries[i].scheduled
    requires forall b :: 0 <= b < BANK_COUNT ==> s.banks[b].openRow == OpenRowAfterSwitch(ch, b, now)
    requires m == s || exists j: nat :: j < |Active(s).entries| && StartedAt(s, m, j, now)
    requires ch' == m || exists j: nat :: IsNext(Active(m).entries, j) && SentAt(m, ch', sent, j, now)
    requires Serving(Active(m).entries, m.banks, m.writeMode, m.t.tCAS)
    requires k < |Active(ch').entries| && Active(ch').entries[k].scheduled
    requires ModeEnds(ch) || !(k < |Active(ch).entries| && Active(ch).entries[k].scheduled)
    ensures StartedInCycle(ch, ch', k, now)
  {
    var es := Active(m).entries;
    assert k < |es| && es[k] == Active(ch').entries[k];
    assert m != s;
    var j: nat :| j < |Active(s).entries| && StartedAt(s, m, j, now);
    assert j == k;
    assert EntryServed(k, es[k], m.banks);
    var b := BankIndex(es[k].address);
    if ch' != m {
      var i: nat :| IsNext(es, i) && SentAt(m, ch', sent, i, now);
      assert EntryServed(i, es[i], m.banks);
      if i != k {
        assert BankIndex(es[i].address) != b;
      }
    }
  }

  // ---- Arrivals ----

  /** A slot with this address, and none before it. */
  predicate IsFirstAt(es: seq<Packet>, k: nat, address: nat) {
    k < |es| && es[k].address == address && forall i :: 0 <= i < k ==> es[i].address != address
  }

  predicate Absent(es: seq<Packet>, address: nat) { forall i :: 0 <= i < |es| ==> es[i].address != address }

  /** An arrival that is not answered takes the first free slot, or is dropped by a full queue. */
  predicate StoredIn(q: Queue, q': Queue, r: Request, result: AddResult) {
    match result
    case Queued(k) =>
      && IsFirstAt(q.entries, k, 0)
      && q'.entries == q.entries[k := Packet(r.address, false, r.eventCycle, r.data)]
      && q'.occupancy == q.occupancy + 1
    case Dropped => Absent(q.entries, 0) && q'.entries == q.entries && q'.occupancy == q.occupancy
    case _ => false
  }

  /** A read takes the data of the first pending write to its address, joins a pending read, or is stored. */
  lemma ReadArrives(ch: Channel, r: Request)
    ensures var (ch', result) := AddRead(ch, r, true);
      match result
      case Forwarded(data) =>
        ch' == ch && exists k: nat :: IsFirstAt(ch.wq.entries, k, r.address) && data == ch.wq.entries[k].data
      case Merged(k) =>
        ch' == ch && Absent(ch.wq.entries, r.address) && IsFirstAt(ch.rq.entries, k, r.address)
      case _ =>
        && Absent(ch.wq.entries, r.address) && Absent(ch.rq.entries, r.address)
        && ch' == ch.(rq := ch'.rq) && StoredIn(ch.rq, ch'.rq, r, result)
  {
    var w := Lookup(ch.wq.entries, r.address);
    if w != -1 {
      assert IsFirstAt(ch.wq.entries, w, r.address);
    }
  }

  /** A write joins a pending write to its address, or is stored. */
  lemma WriteArrives(ch: Channel, r: Request)
    ensures var (ch', result) := AddWrite(ch, r, true);
      match result
      case Merged(k) => ch' == ch && IsFirstAt(ch.wq.entries, k, r.address)
      case _ =>
        && Absent(ch.wq.entries, r.address)
        && ch' == ch.(wq := ch'.wq) && StoredIn(ch.wq, ch'.wq, r, result)
  {}
}
