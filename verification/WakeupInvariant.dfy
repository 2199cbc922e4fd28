/**
 What every step of scheduling, issue, completion and retirement keeps: dependence counters are exact,
 a ready instruction is in exactly one ring, and nothing starts before its youngest older writers are done.
 */
module WakeupInvariant {
  import opened Counting
  import opened CoreTypes
  import opened WakeupModel

  /** Flags of a live entry agree with each other. */
  ghost predicate EntryOk(e: Entry) {
    && (e.scheduled == NotYet ==>
            e.executed == NotYet && e.numDependent == 0 && !e.regReady && e.checked == EMPTY_ENTRY.checked)
    && (e.scheduled != NotYet ==> (e.regReady <==> e.numDependent == 0))
    && (e.executed != NotYet ==> e.scheduled == Completed && e.regReady)
    && (!e.instr.isMemory ==> e.scheduled != Inflight)
    && (forall j :: 0 <= j < NUM_SOURCES ==> e.slotWaiters[j] <= e.waiters)
    && (e.waiters != {} ==> e.isProducer)
  }

  ghost predicate FlagsOk(m: Core) {
    forall i :: 0 <= i < |m.rob| ==>
      if Live(m, i) then m.rob[i].live && EntryOk(m.rob[i]) else m.rob[i] == EMPTY_ENTRY
  }

  /** The scheduled entries are the oldest ones. */
  ghost predicate InOrder(m: Core) {
    forall i: nat, j: nat :: Live(m, i) && Live(m, j) && Older(m, i, j) && m.rob[j].scheduled != NotYet ==>
      m.rob[i].scheduled != NotYet
  }

  /** A dependence points from an older live writer to a scheduled reader that has not started. */
  predicate LinkOk(m: Core, p: nat, j: nat, c: nat)
    requires p < |m.rob| && j < NUM_SOURCES
  {
    && Live(m, p) && Live(m, c) && Older(m, p, c)
    && m.rob[c].scheduled != NotYet && m.rob[c].executed == NotYet
    && Writes(m.rob[p], m.rob[c].instr.sources[j])
  }

  ghost predicate LinksOk(m: Core) {
    forall p: nat, j: nat, c: nat :: p < |m.rob| && Awaits(m.rob[p], j, c) ==> LinkOk(m, p, j, c)
  }

  /** num_reg_dependent is the number of (uncompleted producer, source slot) pairs that name the entry. */
  ghost predicate CountsOk(m: Core) {
    forall c: nat :: Live(m, c) ==> m.rob[c].numDependent == |Pairs(m.rob, c)|
  }

  /** Entry w is the youngest writer of a register among the live entries older than c. */
  ghost predicate YoungestWriter(m: Core, w: nat, c: nat, r: nat) {
    && Live(m, w) && Older(m, w, c) && Writes(m.rob[w], r)
    && forall x: nat :: Live(m, x) && Older(m, w, x) && Older(m, x, c) ==> !Writes(m.rob[x], r)
  }

  /** The youngest older writer of each source is done, or the entry waits for it through that slot. */
  ghost predicate WritersOk(m: Core) {
    forall c: nat, j: nat, w: nat ::
      Live(m, c) && m.rob[c].scheduled != NotYet && j < NUM_SOURCES
      && YoungestWriter(m, w, c, m.rob[c].instr.sources[j]) ==>
        m.rob[w].executed == Completed || c in m.rob[w].slotWaiters[j]
  }

  /** Ready to be issued to a functional unit. */
  predicate Ready(e: Entry) {
    e.live && !e.instr.isMemory && e.scheduled == Completed && e.regReady && e.executed == NotYet
  }

  function InRings(m: Core, i: nat): nat { multiset(m.rte0)[i] + multiset(m.rte1)[i] }

  /** A ready instruction is in exactly one place of one ring, and nothing else is in the rings. */
  ghost predicate RingsOk(m: Core) {
    forall i: nat :: InRings(m, i) == if i < |m.rob| && Ready(m.rob[i]) then 1 else 0
  }

  ghost predicate Inv(m: Core) {
    Shape(m) && FlagsOk(m) && InOrder(m) && LinksOk(m) && CountsOk(m) && WritersOk(m) && RingsOk(m)
  }

  /** Nothing waits for a completed entry, and nothing that has started waits. */
  lemma StartedAwaitsNothing(m: Core, c: nat)
    requires LinksOk(m) && CountsOk(m) && FlagsOk(m)
    requires Live(m, c) && m.rob[c].numDependent == 0
    ensures Pairs(m.rob, c) == {}
    ensures forall p: nat, j: nat :: p < |m.rob| ==> !Awaits(m.rob[p], j, c)
  {
    forall p: nat, j: nat | p < |m.rob| ensures !Awaits(m.rob[p], j, c) {
      assert (p, j) !in Pairs(m.rob, c);
    }
  }

  // ---- The main safety theorem ----

  /** An instruction that has started has no unfinished youngest writer for any of its sources. */
  lemma StartsAfterItsWriters(m: Core, c: nat, j: nat, w: nat)
    requires Inv(m) && Live(m, c) && m.rob[c].executed != NotYet && j < NUM_SOURCES
    requires YoungestWriter(m, w, c, m.rob[c].instr.sources[j])
    ensures m.rob[w].executed == Completed
  {
    StartedAwaitsNothing(m, c);
    assert !Awaits(m.rob[w], j, c);
  }

  /** The ready flag is exactly "no uncompleted producer names me". */
  lemma ReadyMeansNoProducer(m: Core, c: nat)
    requires Inv(m) && Live(m, c) && m.rob[c].scheduled != NotYet
    ensures m.rob[c].regReady <==> forall p: nat, j: nat :: p < |m.rob| ==> !Awaits(m.rob[p], j, c)
  {
    if m.rob[c].regReady {
      StartedAwaitsNothing(m, c);
    } else {
      assert Pairs(m.rob, c) != {};
      var pair :| pair in Pairs(m.rob, c);
      assert Awaits(m.rob[pair.0], pair.1, c);
    }
  }

  // ---- Steps that start an entry ----

  /** Only the scheduled and executed stages of a ready entry change: it starts. */
  predicate StartsEntry(m: Core, m': Core, c: nat) {
    && Live(m, c)
    && m.rob[c].regReady && m.rob[c].scheduled != NotYet && m.rob[c].executed == NotYet
    && m'.head == m.head && m'.tail == m.tail && m'.occupancy == m.occupancy
    && m'.rob == m.rob[c := m.rob[c].(scheduled := Completed, executed := Inflight)]
  }

  lemma StartKeepsPairs(m: Core, m': Core, c: nat, x: nat)
    requires StartsEntry(m, m', c)
    ensures Pairs(m'.rob, x) == Pairs(m.rob, x)
  {
    assert forall p: nat, j: nat :: p < |m.rob| ==> (Awaits(m'.rob[p], j, x) <==> Awaits(m.rob[p], j, x));
  }

  lemma StartKeepsFlags(m: Core, m': Core, c: nat)
    requires Inv(m) && StartsEntry(m, m', c)
    ensures Shape(m') && FlagsOk(m') && InOrder(m')
  {
    hide LinksOk, CountsOk, WritersOk, RingsOk;
    assert EntryOk(m.rob[c]);
    forall i: nat | i < |m.rob|
      ensures if Live(m', i) then m'.rob[i].live && EntryOk(m'.rob[i]) else m'.rob[i] == EMPTY_ENTRY
    {
      LiveEntryOk(m, i);
      assert Live(m', i) <==> Live(m, i);
      assert i == c ==> m'.rob[i].slotWaiters == m.rob[c].slotWaiters && m'.rob[i].waiters == m.rob[c].waiters;
    }
  }

  lemma StartKeepsLinks(m: Core, m': Core, c: nat)
    requires Inv(m) && StartsEntry(m, m', c)
    ensures LinksOk(m') && CountsOk(m')
  {
    hide EntryOk, InOrder, WritersOk, RingsOk;
    StartedAwaitsNothing(m, c) by { LiveEntryOk(m, c); ReadyCountsZero(m, c); }
    forall x: nat | Live(m', x) ensures m'.rob[x].numDependent == |Pairs(m'.rob, x)| {
      StartKeepsPairs(m, m', c, x);
      assert Live(m, x);
    }
    forall p: nat, j: nat, x: nat | p < |m'.rob| && Awaits(m'.rob[p], j, x) ensures LinkOk(m', p, j, x) {
      assert Awaits(m.rob[p], j, x);
      assert LinkOk(m, p, j, x);
    }
  }

  lemma ReadyCountsZero(m: Core, c: nat)
    requires Inv(m) && Live(m, c) && m.rob[c].scheduled != NotYet && m.rob[c].regReady
    ensures m.rob[c].numDependent == 0
  {
    LiveEntryOk(m, c);
  }

  lemma StartKeepsWriters(m: Core, m': Core, c: nat)
    requires Inv(m) && StartsEntry(m, m', c)
    ensures WritersOk(m')
  {
    forall x: nat, j: nat, w: nat | Live(m', x) && m'.rob[x].scheduled != NotYet && j < NUM_SOURCES
      && YoungestWriter(m', w, x, m'.rob[x].instr.sources[j])
      ensures m'.rob[w].executed == Completed || x in m'.rob[w].slotWaiters[j]
    {
      YoungestWriterStays(m, m', w, x, m.rob[x].instr.sources[j]);
    }
  }

  lemma StartKeepsRest(m: Core, m': Core, c: nat)
    requires Inv(m) && StartsEntry(m, m', c)
    ensures Shape(m') && FlagsOk(m') && InOrder(m') && LinksOk(m') && CountsOk(m') && WritersOk(m')
  {
    StartKeepsFlags(m, m', c);
    StartKeepsLinks(m, m', c);
    StartKeepsWriters(m, m', c);
  }

  /** Who the youngest writer is depends only on positions and destinations. */
  lemma YoungestWriterStays(m: Core, m': Core, w: nat, c: nat, r: nat)
    requires |m.rob| == |m'.rob| && m.head == m'.head && m.occupancy == m'.occupancy
    requires forall i :: 0 <= i < |m.rob| ==> m'.rob[i].instr == m.rob[i].instr
    ensures YoungestWriter(m', w, c, r) <==> YoungestWriter(m, w, c, r)
  {
    assert forall x: nat :: Live(m', x) <==> Live(m, x);
    assert forall x: nat, y: nat :: Older(m', x, y) <==> Older(m, x, y);
    assert forall x: nat :: x < |m.rob| ==> (Writes(m'.rob[x], r) <==> Writes(m.rob[x], r));
  }

  lemma Issue0KeepsInv(m: Core)
    requires Inv(m) && m.rte0 != []
    ensures m.rte0[0] < |m.rob| && Ready(m.rob[m.rte0[0]]) && Inv(Issue0(m))
  {
    var c := m.rte0[0];
    assert m.rte0 == [c] + m.rte0[1..];
    assert InRings(m, c) > 0;
    var m' := Issue0(m);
    StartKeepsRest(m, m', c);
    forall i: nat ensures InRings(m', i) == if i < |m'.rob| && Ready(m'.rob[i]) then 1 else 0 {
      assert InRings(m, i) == InRings(m', i) + (if i == c then 1 else 0);
    }
  }

  lemma Issue1KeepsInv(m: Core)
    requires Inv(m) && m.rte1 != []
    ensures m.rte1[0] < |m.rob| && Ready(m.rob[m.rte1[0]]) && Inv(Issue1(m))
  {
    var c := m.rte1[0];
    assert m.rte1 == [c] + m.rte1[1..];
    assert InRings(m, c) > 0;
    var m' := Issue1(m);
    StartKeepsRest(m, m', c);
    forall i: nat ensures InRings(m', i) == if i < |m'.rob| && Ready(m'.rob[i]) then 1 else 0 {
      assert InRings(m, i) == InRings(m', i) + (if i == c then 1 else 0);
    }
  }

  predicate CanStartMemory(m: Core, c: nat) {
    Live(m, c) && m.rob[c].instr.isMemory && m.rob[c].regReady && m.rob[c].scheduled == Inflight
  }

  lemma StartMemoryKeepsInv(m: Core, c: nat)
    requires Inv(m) && CanStartMemory(m, c)
    ensures Inv(StartMemory(m, c))
  {
    var m' := StartMemory(m, c);
    StartKeepsRest(m, m', c);
    forall i: nat ensures InRings(m', i) == if i < |m'.rob| && Ready(m'.rob[i]) then 1 else 0 {
      assert InRings(m, i) == InRings(m', i);
    }
  }

  // ---- Completion ----

  predicate CanComplete(m: Core, c: nat) { Live(m, c) && m.rob[c].executed == Inflight }

  /** The pairs of an entry through one producer, one for each set position of its slot mask. */
  ghost function PairsThrough(c: nat, mask: seq<bool>): set<(nat, nat)> {
    set j: nat | 0 <= j < |mask| && mask[j] :: (c, j)
  }

  lemma {:induction false} PairsThroughSize(c: nat, mask: seq<bool>)
    ensures |PairsThrough(c, mask)| == Count(mask)
  {
    if mask != [] {
      var last := |mask| - 1;
      PairsThroughSize(c, mask[..last]);
      var rest := PairsThrough(c, mask[..last]);
      assert PairsThrough(c, mask) == if mask[last] then rest + {(c, last)} else rest;
    }
  }

  /** Completing a producer takes away exactly the pairs that went through it. */
  lemma CompletionRemovesPairs(m: Core, c: nat, x: nat)
    requires Inv(m) && CanComplete(m, c)
    ensures var rob := m.rob[c := m.rob[c].(executed := Completed)];
      |Pairs(rob, x)| == |Pairs(m.rob, x)| - Count(SlotMask(m.rob[c], x))
  {
    var rob := m.rob[c := m.rob[c].(executed := Completed)];
    var mask := SlotMask(m.rob[c], x);
    var through := PairsThrough(c, mask);
    PairsThroughSize(c, mask);
    assert forall j: nat :: j < NUM_SOURCES ==> (Awaits(m.rob[c], j, x) <==> mask[j]);
    forall pair ensures pair in Pairs(rob, x) <==> pair in Pairs(m.rob, x) && pair !in through {}
    assert Pairs(rob, x) == Pairs(m.rob, x) - through;
    assert through <= Pairs(m.rob, x);
  }

  /** Releasing changes only the counters and flags of waiters, so pairs and writers stay as they are. */
  lemma ReleaseKeepsPairs(rob: seq<Entry>, p: Entry, x: nat)
    ensures Pairs(ReleaseAll(rob, p, |rob|), x) == Pairs(rob, x)
  {
    var rob' := ReleaseAll(rob, p, |rob|);
    assert forall q: nat, j: nat :: q < |rob| ==> (Awaits(rob'[q], j, x) <==> Awaits(rob[q], j, x));
  }

  /** An entry that waits for a completing producer is live, scheduled and not started. */
  lemma WaiterIsWaiting(m: Core, c: nat, i: nat)
    requires Inv(m) && CanComplete(m, c) && Count(SlotMask(m.rob[c], i)) > 0
    ensures Live(m, i) && i != c && m.rob[i].scheduled != NotYet && m.rob[i].executed == NotYet
    ensures i in m.rob[c].waiters && m.rob[c].isProducer
    ensures m.rob[i].numDependent >= Count(SlotMask(m.rob[c], i))
  {
    var mask := SlotMask(m.rob[c], i);
    CountExtremes(mask);
    var j :| 0 <= j < NUM_SOURCES && mask[j];
    assert Awaits(m.rob[c], j, i);
    assert LinkOk(m, c, j, i);
    assert EntryOk(m.rob[c]);
    CompletionRemovesPairs(m, c, i);
  }

  function Completing(m: Core, c: nat, i: nat): Entry
    requires i < |m.rob|
  {
    if i == c then m.rob[i].(executed := Completed) else m.rob[i]
  }

  /** Every entry after a completion, whether it waited or not. */
  lemma CompletedEntry(m: Core, c: nat, i: nat)
    requires Inv(m) && CanComplete(m, c) && i < |m.rob|
    ensures Complete(m, c).rob[i] == Released(Completing(m, c, i), Count(SlotMask(m.rob[c], i)))
  {
    hide Inv;
    var rob := m.rob[c := m.rob[c].(executed := Completed)];
    assert SlotMask(rob[c], i) == SlotMask(m.rob[c], i);
    if Count(SlotMask(m.rob[c], i)) > 0 {
      WaiterIsWaiting(m, c, i);
    }
  }

  lemma ReleasedEntryOk(m: Core, c: nat, i: nat)
    requires Inv(m) && CanComplete(m, c) && i < |m.rob|
    ensures var e := Released(Completing(m, c, i), Count(SlotMask(m.rob[c], i)));
      && (if Live(m, i) then e.live && EntryOk(e) else e == EMPTY_ENTRY)
      && (e.scheduled == NotYet <==> m.rob[i].scheduled == NotYet)
      && e.slotWaiters == m.rob[i].slotWaiters && e.instr == m.rob[i].instr
      && e.executed == (if i == c then Completed else m.rob[i].executed)
  {
    if Count(SlotMask(m.rob[c], i)) > 0 {
      WaiterIsWaiting(m, c, i);
    }
    if Live(m, i) {
      assert EntryOk(m.rob[i]);
    }
  }

  /** Every entry after a completion: flags consistent, links and destinations as before. */
  lemma CompletedEntryOk(m: Core, c: nat, i: nat)
    requires Inv(m) && CanComplete(m, c) && i < |m.rob|
    ensures var e := Complete(m, c).rob[i];
      && (if Live(m, i) then e.live && EntryOk(e) else e == EMPTY_ENTRY)
      && (e.scheduled == NotYet <==> m.rob[i].scheduled == NotYet)
      && e.slotWaiters == m.rob[i].slotWaiters && e.instr == m.rob[i].instr
      && e.executed == (if i == c then Completed else m.rob[i].executed)
  {
    hide Complete, Inv;
    CompletedEntry(m, c, i);
    ReleasedEntryOk(m, c, i);
  }

  lemma CompleteKeepsFlags(m: Core, c: nat)
    requires Inv(m) && CanComplete(m, c)
    ensures Shape(Complete(m, c)) && FlagsOk(Complete(m, c)) && InOrder(Complete(m, c))
  {
    hide EntryOk;
    var m' := Complete(m, c);
    forall i: nat | i < |m.rob|
      ensures if Live(m', i) then m'.rob[i].live && EntryOk(m'.rob[i]) else m'.rob[i] == EMPTY_ENTRY
      ensures m'.rob[i].scheduled == NotYet <==> m.rob[i].scheduled == NotYet
    {
      CompletedEntryOk(m, c, i);
      assert Live(m', i) <==> Live(m, i);
    }
  }

  lemma CompleteKeepsLinks(m: Core, c: nat)
    requires Inv(m) && CanComplete(m, c)
    ensures LinksOk(Complete(m, c)) && CountsOk(Complete(m, c))
  {
    var m' := Complete(m, c);
    var rob := m.rob[c := m.rob[c].(executed := Completed)];
    forall i: nat | i < |m.rob|
      ensures m'.rob[i].slotWaiters == m.rob[i].slotWaiters && m'.rob[i].instr == m.rob[i].instr
      ensures i != c ==> m'.rob[i].executed == m.rob[i].executed
      ensures m.rob[i].scheduled != NotYet ==> m'.rob[i].scheduled != NotYet
      ensures m'.rob[c].executed == Completed
    {
      CompletedEntryOk(m, c, i);
      CompletedEntryOk(m, c, c);
    }
    forall p: nat, j: nat, x: nat | p < |m'.rob| && Awaits(m'.rob[p], j, x) ensures LinkOk(m', p, j, x) {
      assert Awaits(m.rob[p], j, x);
      assert LinkOk(m, p, j, x);
      assert x != c;
    }
    forall x: nat | Live(m', x) ensures m'.rob[x].numDependent == |Pairs(m'.rob, x)| {
      CompletedEntry(m, c, x);
      CompletionRemovesPairs(m, c, x);
      ReleaseKeepsPairs(rob, rob[c], x);
      assert Live(m, x);
    }
  }

  lemma CompleteKeepsWriters(m: Core, c: nat)
    requires Inv(m) && CanComplete(m, c)
    ensures WritersOk(Complete(m, c))
  {
    var m' := Complete(m, c);
    forall i: nat | i < |m.rob|
      ensures m'.rob[i].slotWaiters == m.rob[i].slotWaiters && m'.rob[i].instr == m.rob[i].instr
      ensures m'.rob[i].executed == if i == c then Completed else m.rob[i].executed
      ensures m'.rob[i].scheduled != NotYet ==> m.rob[i].scheduled != NotYet
    {
      CompletedEntryOk(m, c, i);
    }
    forall x: nat, j: nat, w: nat | Live(m', x) && m'.rob[x].scheduled != NotYet && j < NUM_SOURCES
      && YoungestWriter(m', w, x, m'.rob[x].instr.sources[j])
      ensures m'.rob[w].executed == Completed || x in m'.rob[w].slotWaiters[j]
    {
      YoungestWriterStays(m, m', w, x, m.rob[x].instr.sources[j]);
    }
  }

  lemma {:induction false} AscendingCounts(w: seq<nat>, i: nat)
    requires forall x, y :: 0 <= x < y < |w| ==> w[x] < w[y]
    ensures multiset(w)[i] == if i in w then 1 else 0
  {
    if w != [] {
      var last := |w| - 1;
      AscendingCounts(w[..last], i);
      assert w == w[..last] + [w[last]];
    }
  }

  /** An entry becomes ready through a completion exactly when the completion wakes it. */
  lemma WokenBecomesReady(m: Core, c: nat, i: nat)
    requires Inv(m) && CanComplete(m, c) && i < |m.rob|
    ensures var rob := m.rob[c := m.rob[c].(executed := Completed)];
      var e := Complete(m, c).rob[i];
      if m.rob[c].isProducer && Wakes(rob, rob[c], i) then Ready(e) && !Ready(m.rob[i])
      else Ready(e) == Ready(m.rob[i])
  {
    hide Complete, Inv;
    CompletedEntry(m, c, i);
    var rob := m.rob[c := m.rob[c].(executed := Completed)];
    assert SlotMask(rob[c], i) == SlotMask(m.rob[c], i);
    if Count(SlotMask(m.rob[c], i)) > 0 {
      WaiterIsWaiting(m, c, i);
    }
    LiveEntryOk(m, i);
  }

  lemma LiveEntryOk(m: Core, i: nat)
    requires Inv(m) && i < |m.rob|
    ensures if Live(m, i) then m.rob[i].live && EntryOk(m.rob[i]) else m.rob[i] == EMPTY_ENTRY
  {}

  lemma CompleteKeepsRings(m: Core, c: nat)
    requires Inv(m) && CanComplete(m, c)
    ensures RingsOk(Complete(m, c))
  {
    var m' := Complete(m, c);
    var rob := m.rob[c := m.rob[c].(executed := Completed)];
    var woken := if m.rob[c].isProducer then Woken(rob, rob[c], |rob|) else [];
    AscendingCountsAll(woken);
    assert m'.rte0 == m.rte0 + woken && m'.rte1 == m.rte1 && |m'.rob| == |m.rob|;
    hide Complete, FlagsOk, LinksOk, WritersOk, InOrder, CountsOk, Ready, Wakes;
    forall i: nat ensures InRings(m', i) == if i < |m'.rob| && Ready(m'.rob[i]) then 1 else 0 {
      assert InRings(m', i) == InRings(m, i) + multiset(woken)[i];
      if i < |m.rob| {
        WokenBecomesReady(m, c, i);
      }
    }
  }

  lemma AscendingCountsAll(w: seq<nat>)
    requires forall x, y :: 0 <= x < y < |w| ==> w[x] < w[y]
    ensures forall i: nat :: multiset(w)[i] == if i in w then 1 else 0
  {
    forall i: nat ensures multiset(w)[i] == if i in w then 1 else 0 {
      AscendingCounts(w, i);
    }
  }

  lemma CompleteKeepsInv(m: Core, c: nat)
    requires Inv(m) && CanComplete(m, c)
    ensures Inv(Complete(m, c))
  {
    CompleteKeepsFlags(m, c);
    CompleteKeepsLinks(m, c);
    CompleteKeepsWriters(m, c);
    CompleteKeepsRings(m, c);
  }

  // ---- Scheduling ----

  /** Scheduling takes the oldest entry that is not scheduled yet. */
  ghost predicate CanSchedule(m: Core, c: nat) {
    && Live(m, c) && m.rob[c].scheduled == NotYet
    && forall i: nat :: Live(m, i) && Older(m, i, c) ==> m.rob[i].scheduled != NotYet
  }

  /** The producers found for a slot: live, older, uncompleted writers of its register. */
  lemma FoundProducer(m: Core, c: nat, j: nat, p: nat)
    requires Shape(m) && Live(m, c) && j < NUM_SOURCES
    requires Producers(m.rob, m.head, c, 0)[j] == Some(p)
    ensures Live(m, p) && Older(m, p, c) && p != c
    ensures m.rob[p].executed != Completed && Writes(m.rob[p], m.rob[c].instr.sources[j])
  {
    ProducerIsYoungest(m.rob, m.head, m.rob[c].instr.sources[j], 0, Age(m.head, |m.rob|, c));
  }

  /** The youngest older writer of a source, if it is not done, is the producer found. */
  lemma YoungestIsFound(m: Core, c: nat, j: nat, w: nat)
    requires Shape(m) && Live(m, c) && j < NUM_SOURCES
    requires YoungestWriter(m, w, c, m.rob[c].instr.sources[j])
    ensures m.rob[w].executed == Completed || Producers(m.rob, m.head, c, 0)[j] == Some(w)
  {
    var r, n := m.rob[c].instr.sources[j], |m.rob|;
    ProducerIsYoungest(m.rob, m.head, r, 0, Age(m.head, n, c));
    AgesInvert(m.head, n, w);
    var a := Age(m.head, n, w);
    assert m.rob[At(m.head, n, a)] == m.rob[w];
    match Producer(m.rob, m.head, r, 0, Age(m.head, n, c))
    case None =>
    case Some(p) =>
      AgesInvert(m.head, n, p);
      assert Live(m, p);
      assert Older(m, w, p) ==> !Older(m, p, c);
  }

  /** Every entry after entry c was scheduled. */
  lemma ScheduledEntry(m: Core, c: nat, p: nat)
    requires Shape(m) && Live(m, c) && p < |m.rob|
    ensures var ps := Producers(m.rob, m.head, c, 0);
      var e, e' := m.rob[p], Schedule(m, c).rob[p];
      && e'.instr == e.instr && e'.live == e.live && e'.executed == e.executed
      && (p == c ==>
            && e'.scheduled == (if e.instr.isMemory then Inflight else Completed)
            && e'.numDependent == Count(Found(ps)) && e'.regReady == (Count(Found(ps)) == 0)
            && e'.slotWaiters == e.slotWaiters && e'.waiters == e.waiters && e'.isProducer == e.isProducer)
      && (p != c ==>
            && e'.scheduled == e.scheduled && e'.numDependent == e.numDependent && e'.regReady == e.regReady
            && e'.checked == e.checked
            && (forall j :: 0 <= j < NUM_SOURCES ==>
                  e'.slotWaiters[j] == if ps[j] == Some(p) then e.slotWaiters[j] + {c} else e.slotWaiters[j])
            && ((Some(p) in ps && e'.waiters == e.waiters + {c} && e'.isProducer)
                || (Some(p) !in ps && e' == e)))
  {}

  /** After scheduling c, the waits are those before and c's own on the producers found. */
  lemma ScheduledAwaits(m: Core, c: nat, p: nat, j: nat, x: nat)
    requires Inv(m) && CanSchedule(m, c) && p < |m.rob|
    ensures Awaits(Schedule(m, c).rob[p], j, x) <==>
      Awaits(m.rob[p], j, x) || (j < NUM_SOURCES && x == c && Producers(m.rob, m.head, c, 0)[j] == Some(p))
  {
    hide Schedule, Producers;
    ScheduledEntry(m, c, p);
    if j < NUM_SOURCES && Producers(m.rob, m.head, c, 0)[j] == Some(p) {
      FoundProducer(m, c, j, p);
    }
  }

  /** The pairs of a newly scheduled entry, one for each slot with a producer. */
  ghost function PairsFound(ps: seq<Option<nat>>): set<(nat, nat)> {
    set j: nat | 0 <= j < |ps| && ps[j].Some? :: (ps[j].value, j)
  }

  lemma {:induction false} PairsFoundSize(ps: seq<Option<nat>>)
    ensures |PairsFound(ps)| == Count(seq(|ps|, j requires 0 <= j < |ps| => ps[j].Some?))
  {
    var mask := seq(|ps|, j requires 0 <= j < |ps| => ps[j].Some?);
    if ps != [] {
      var last := |ps| - 1;
      PairsFoundSize(ps[..last]);
      assert mask[..last] == seq(last, j requires 0 <= j < last => ps[..last][j].Some?);
      var rest := PairsFound(ps[..last]);
      assert PairsFound(ps) == if ps[last].Some? then rest + {(ps[last].value, last)} else rest;
    }
  }

  lemma ScheduledPairs(m: Core, c: nat, x: nat)
    requires Inv(m) && CanSchedule(m, c)
    ensures Pairs(Schedule(m, c).rob, x) ==
      if x == c then PairsFound(Producers(m.rob, m.head, c, 0)) else Pairs(m.rob, x)
  {
    hide Schedule, Producers;
    var ps := Producers(m.rob, m.head, c, 0);
    var rob' := Schedule(m, c).rob;
    ScheduleKeepsSize(m, c);
    forall p: nat, j: nat
      ensures (p, j) in Pairs(rob', x) <==> (p, j) in (if x == c then PairsFound(ps) else Pairs(m.rob, x))
    {
      InPairs(rob', x, p, j);
      InPairs(m.rob, x, p, j);
      InPairsFound(ps, p, j);
      ScheduledWait(m, c, p, j, x);
    }
    SamePairs(Pairs(rob', x), if x == c then PairsFound(ps) else Pairs(m.rob, x));
  }

  /** An entry waits through a slot after scheduling c: as before, and c only on what was found. */
  lemma ScheduledWait(m: Core, c: nat, p: nat, j: nat, x: nat)
    requires Inv(m) && CanSchedule(m, c)
    ensures var ps, rob' := Producers(m.rob, m.head, c, 0), Schedule(m, c).rob;
      (p < |rob'| && j < NUM_SOURCES && Awaits(rob'[p], j, x)) <==>
        if x == c then j < NUM_SOURCES && ps[j] == Some(p)
        else p < |m.rob| && j < NUM_SOURCES && Awaits(m.rob[p], j, x)
  {
    hide Schedule, Producers, FlagsOk, InOrder, CountsOk, WritersOk, RingsOk;
    ScheduleKeepsSize(m, c);
    if p < |m.rob| && j < NUM_SOURCES {
      ScheduledAwaits(m, c, p, j, x);
      assert Awaits(m.rob[p], j, x) ==> LinkOk(m, p, j, x);
    }
    if j < NUM_SOURCES && Producers(m.rob, m.head, c, 0)[j] == Some(p) {
      FoundProducer(m, c, j, p);
    }
  }

  lemma InPairs(rob: seq<Entry>, x: nat, p: nat, j: nat)
    ensures (p, j) in Pairs(rob, x) <==> p < |rob| && j < NUM_SOURCES && Awaits(rob[p], j, x)
  {}

  lemma InPairsFound(ps: seq<Option<nat>>, p: nat, j: nat)
    ensures (p, j) in PairsFound(ps) <==> j < |ps| && ps[j] == Some(p)
  {}

  lemma SamePairs(a: set<(nat, nat)>, b: set<(nat, nat)>)
    requires forall p: nat, j: nat :: (p, j) in a <==> (p, j) in b
    ensures a == b
  {
    forall pair ensures pair in a <==> pair in b {
      assert pair == (pair.0, pair.1);
    }
  }

  lemma ScheduleKeepsSize(m: Core, c: nat)
    requires Shape(m) && c < |m.rob|
    ensures var m' := Schedule(m, c);
      && |m'.rob| == |m.rob| && m'.head == m.head && m'.tail == m.tail && m'.occupancy == m.occupancy
      && m'.rte0 == m.rte0
      && m'.rte1 == if m.rob[c].instr.isMemory || !m'.rob[c].regReady then m.rte1 else m.rte1 + [c]
  {}

  lemma ScheduleKeepsFlags(m: Core, c: nat)
    requires Inv(m) && CanSchedule(m, c)
    ensures Shape(Schedule(m, c)) && FlagsOk(Schedule(m, c)) && InOrder(Schedule(m, c))
  {
    hide Schedule, Producers, LinksOk, CountsOk, WritersOk, RingsOk;
    var m' := Schedule(m, c);
    ScheduleKeepsSize(m, c);
    forall i: nat | i < |m.rob|
      ensures Live(m', i) <==> Live(m, i)
      ensures if Live(m', i) then m'.rob[i].live && EntryOk(m'.rob[i]) else m'.rob[i] == EMPTY_ENTRY
      ensures m'.rob[i].scheduled != NotYet <==> m.rob[i].scheduled != NotYet || i == c
    {
      ScheduledEntry(m, c, i);
      LiveEntryOk(m, i);
      if Live(m, i) {
        ScheduledEntryOk(m, c, i);
      } else {
        ScheduledLiveness(m, c, i);
      }
    }
  }

  lemma ScheduledEntryOk(m: Core, c: nat, i: nat)
    requires Inv(m) && CanSchedule(m, c) && i < |m.rob| && Live(m, i)
    ensures |Schedule(m, c).rob| == |m.rob| && EntryOk(Schedule(m, c).rob[i])
  {
    hide Schedule, Producers, InOrder, LinksOk, CountsOk, WritersOk, RingsOk;
    ScheduleKeepsSize(m, c);
    var ps := Producers(m.rob, m.head, c, 0);
    var e, e' := m.rob[i], Schedule(m, c).rob[i];
    ScheduledEntry(m, c, i);
    LiveEntryOk(m, i);
    if i == c {
      UnscheduledNotStarted(m, c);
    }
    forall j | 0 <= j < NUM_SOURCES ensures e'.slotWaiters[j] <= e'.waiters {
      assert e.slotWaiters[j] <= e.waiters;
      assert ps[j] == Some(i) ==> Some(i) in ps;
    }
  }

  lemma ScheduledLiveness(m: Core, c: nat, i: nat)
    requires Inv(m) && CanSchedule(m, c) && i < |m.rob| && !Live(m, i)
    ensures Schedule(m, c).rob[i] == EMPTY_ENTRY
  {
    hide Producers;
    forall j: nat | j < NUM_SOURCES && Producers(m.rob, m.head, c, 0)[j] == Some(i) ensures false {
      FoundProducer(m, c, j, i);
    }
    ScheduledEntry(m, c, i);
  }

  lemma ScheduleKeepsLinks(m: Core, c: nat)
    requires Inv(m) && CanSchedule(m, c)
    ensures LinksOk(Schedule(m, c)) && CountsOk(Schedule(m, c))
  {
    hide Schedule, Producers, FlagsOk, InOrder, WritersOk, RingsOk;
    var m', ps := Schedule(m, c), Producers(m.rob, m.head, c, 0);
    ScheduleKeepsSize(m, c);
    forall x: nat | Live(m', x) ensures m'.rob[x].numDependent == |Pairs(m'.rob, x)| {
      ScheduledEntry(m, c, x);
      ScheduledPairs(m, c, x);
      PairsFoundSize(ps);
      assert Live(m, x);
    }
    forall p: nat, j: nat, x: nat | p < |m'.rob| && Awaits(m'.rob[p], j, x) ensures LinkOk(m', p, j, x) {
      ScheduledAwaits(m, c, p, j, x);
      ScheduledLinkOk(m, c, p, j, x);
    }
  }

  lemma ScheduledLinkOk(m: Core, c: nat, p: nat, j: nat, x: nat)
    requires Inv(m) && CanSchedule(m, c) && p < |m.rob| && j < NUM_SOURCES && Awaits(Schedule(m, c).rob[p], j, x)
    ensures LinkOk(Schedule(m, c), p, j, x)
  {
    hide Schedule, Producers, InOrder, CountsOk, WritersOk, RingsOk, EntryOk;
    ScheduleKeepsSize(m, c);
    ScheduledAwaits(m, c, p, j, x);
    ScheduledEntry(m, c, p);
    if Awaits(m.rob[p], j, x) {
      assert LinkOk(m, p, j, x);
      ScheduledEntry(m, c, x);
    } else {
      FoundProducer(m, c, j, p);
      ScheduledEntry(m, c, c);
      UnscheduledNotStarted(m, c);
    }
  }

  lemma UnscheduledNotStarted(m: Core, c: nat)
    requires Inv(m) && CanSchedule(m, c)
    ensures m.rob[c].executed == NotYet && !m.rob[c].regReady && !Ready(m.rob[c])
  {
    LiveEntryOk(m, c);
  }

  lemma ScheduleKeepsWriters(m: Core, c: nat)
    requires Inv(m) && CanSchedule(m, c)
    ensures WritersOk(Schedule(m, c))
  {
    hide Schedule, Producers, FlagsOk, InOrder, LinksOk, CountsOk, RingsOk;
    var m' := Schedule(m, c);
    ScheduleKeepsSize(m, c);
    forall i | 0 <= i < |m.rob| ensures m'.rob[i].instr == m.rob[i].instr {
      ScheduledEntry(m, c, i);
    }
    forall x: nat, j: nat, w: nat | Live(m', x) && m'.rob[x].scheduled != NotYet && j < NUM_SOURCES
      && YoungestWriter(m', w, x, m'.rob[x].instr.sources[j])
      ensures m'.rob[w].executed == Completed || x in m'.rob[w].slotWaiters[j]
    {
      YoungestWriterStays(m, m', w, x, m.rob[x].instr.sources[j]);
      ScheduledEntry(m, c, x);
      ScheduledEntry(m, c, w);
      if x == c {
        YoungestIsFound(m, c, j, w);
      } else {
        assert m.rob[w].executed == Completed || x in m.rob[w].slotWaiters[j];
      }
    }
  }

  lemma ScheduledReadiness(m: Core, c: nat, i: nat)
    requires Inv(m) && CanSchedule(m, c) && i < |m.rob| && i != c
    ensures Ready(Schedule(m, c).rob[i]) <==> Ready(m.rob[i])
  {
    hide Schedule, Producers;
    ScheduledEntry(m, c, i);
  }

  lemma ScheduleKeepsRings(m: Core, c: nat)
    requires Inv(m) && CanSchedule(m, c)
    ensures RingsOk(Schedule(m, c))
  {
    hide Schedule, Producers, InOrder, LinksOk, CountsOk, WritersOk;
    var m' := Schedule(m, c);
    ScheduleKeepsSize(m, c);
    ScheduledEntry(m, c, c);
    LiveEntryOk(m, c);
    UnscheduledNotStarted(m, c);
    assert m'.rte1 == m.rte1 + [c] <==> Ready(m'.rob[c]);
    assert multiset(m.rte1 + [c]) == multiset(m.rte1) + multiset{c};
    forall i: nat ensures InRings(m', i) == if i < |m'.rob| && Ready(m'.rob[i]) then 1 else 0 {
      if i < |m.rob| && i != c {
        ScheduledReadiness(m, c, i);
      }
      assert InRings(m', i) == InRings(m, i) + (if i == c && Ready(m'.rob[c]) then 1 else 0);
    }
  }

  lemma ScheduleKeepsInv(m: Core, c: nat)
    requires Inv(m) && CanSchedule(m, c)
    ensures Inv(Schedule(m, c))
  {
    ScheduleKeepsFlags(m, c);
    ScheduleKeepsLinks(m, c);
    ScheduleKeepsWriters(m, c);
    ScheduleKeepsRings(m, c);
  }

  // ---- Entering and leaving ----

  lemma DispatchedLiveness(m: Core, x: Instr, i: nat)
    requires Shape(m) && m.occupancy < |m.rob| && i < |m.rob|
    ensures !Live(m, m.tail) && m.tail < |m.rob|
    ensures Live(Dispatch(m, x), i) <==> Live(m, i) || i == m.tail
    ensures Age(m.head, |m.rob|, m.tail) == m.occupancy
    ensures Shape(Dispatch(m, x))
  {}

  lemma DispatchKeepsPairs(m: Core, x: Instr, c: nat)
    requires Inv(m) && m.occupancy < |m.rob|
    ensures forall p: nat, j: nat :: p < |m.rob| ==>
      (Awaits(Dispatch(m, x).rob[p], j, c) <==> Awaits(m.rob[p], j, c))
    ensures Pairs(Dispatch(m, x).rob, c) == Pairs(m.rob, c)
  {
    DispatchedLiveness(m, x, m.tail);
    LiveEntryOk(m, m.tail);
  }

  lemma DispatchKeepsInv(m: Core, x: Instr)
    requires Inv(m) && m.occupancy < |m.rob|
    ensures m.rob[m.tail] == EMPTY_ENTRY && Inv(Dispatch(m, x))
  {
    var m' := Dispatch(m, x);
    DispatchedLiveness(m, x, m.tail);
    LiveEntryOk(m, m.tail);
    DispatchKeepsFlags(m, x);
    DispatchKeepsLinks(m, x);
    DispatchKeepsWriters(m, x);
    forall i: nat ensures InRings(m', i) == if i < |m'.rob| && Ready(m'.rob[i]) then 1 else 0 {
      assert InRings(m', i) == InRings(m, i);
    }
  }

  lemma DispatchKeepsFlags(m: Core, x: Instr)
    requires Inv(m) && m.occupancy < |m.rob|
    ensures FlagsOk(Dispatch(m, x)) && InOrder(Dispatch(m, x))
  {
    hide LinksOk, CountsOk, WritersOk, RingsOk;
    var m' := Dispatch(m, x);
    forall i: nat | i < |m.rob|
      ensures if Live(m', i) then m'.rob[i].live && EntryOk(m'.rob[i]) else m'.rob[i] == EMPTY_ENTRY
      ensures Live(m', i) <==> Live(m, i) || i == m.tail
    {
      LiveEntryOk(m, i);
      DispatchedLiveness(m, x, i);
    }
    DispatchedLiveness(m, x, m.tail);
  }

  lemma DispatchKeepsLinks(m: Core, x: Instr)
    requires Inv(m) && m.occupancy < |m.rob|
    ensures LinksOk(Dispatch(m, x)) && CountsOk(Dispatch(m, x))
  {
    hide FlagsOk, InOrder, WritersOk, RingsOk;
    var m' := Dispatch(m, x);
    DispatchedLiveness(m, x, m.tail);
    forall c: nat | Live(m', c) ensures m'.rob[c].numDependent == |Pairs(m'.rob, c)| {
      DispatchKeepsPairs(m, x, c);
      DispatchedLiveness(m, x, c);
      if c == m.tail {
        NothingAwaitsEmpty(m, c);
      }
    }
    forall p: nat, j: nat, c: nat | p < |m'.rob| && Awaits(m'.rob[p], j, c) ensures LinkOk(m', p, j, c) {
      DispatchKeepsPairs(m, x, c);
      assert LinkOk(m, p, j, c);
    }
  }

  lemma NothingAwaitsEmpty(m: Core, c: nat)
    requires LinksOk(m) && !Live(m, c)
    ensures Pairs(m.rob, c) == {}
  {
    assert forall p: nat, j: nat :: p < |m.rob| && Awaits(m.rob[p], j, c) ==> LinkOk(m, p, j, c);
  }

  lemma DispatchKeepsWriters(m: Core, x: Instr)
    requires Inv(m) && m.occupancy < |m.rob|
    ensures WritersOk(Dispatch(m, x))
  {
    hide FlagsOk, InOrder, LinksOk, CountsOk, RingsOk;
    var m' := Dispatch(m, x);
    DispatchedLiveness(m, x, m.tail);
    forall c: nat, j: nat, w: nat | Live(m', c) && m'.rob[c].scheduled != NotYet && j < NUM_SOURCES
      && YoungestWriter(m', w, c, m'.rob[c].instr.sources[j])
      ensures m'.rob[w].executed == Completed || c in m'.rob[w].slotWaiters[j]
    {
      DispatchedLiveness(m, x, c);
      assert c != m.tail && w != m.tail;
      forall y: nat | Live(m, y) && Older(m, w, y) && Older(m, y, c)
        ensures !Writes(m.rob[y], m.rob[c].instr.sources[j])
      {
        DispatchedLiveness(m, x, y);
        assert Live(m', y) && Older(m', w, y) && Older(m', y, c);
      }
      assert YoungestWriter(m, w, c, m.rob[c].instr.sources[j]);
    }
  }

  /** Retirement takes the oldest entry once it has completed. */
  predicate CanRetire(m: Core) {
    m.head < |m.rob| && m.occupancy > 0 && m.rob[m.head].executed == Completed
  }

  lemma RetiredLiveness(m: Core, i: nat)
    requires Shape(m) && m.occupancy > 0 && i < |m.rob|
    ensures Live(Retire(m), i) <==> Live(m, i) && i != m.head
    ensures i != m.head ==> Age(Retire(m).head, |m.rob|, i) == Age(m.head, |m.rob|, i) - 1
    ensures Shape(Retire(m))
  {}

  lemma RetireKeepsPairs(m: Core, c: nat)
    requires Inv(m) && CanRetire(m)
    ensures forall p: nat, j: nat :: p < |m.rob| ==> (Awaits(Retire(m).rob[p], j, c) <==> Awaits(m.rob[p], j, c))
    ensures Pairs(Retire(m).rob, c) == Pairs(m.rob, c)
  {}

  lemma RetireKeepsFlags(m: Core)
    requires Inv(m) && CanRetire(m)
    ensures FlagsOk(Retire(m)) && InOrder(Retire(m))
  {
    hide LinksOk, CountsOk, WritersOk, RingsOk;
    var m' := Retire(m);
    forall i: nat | i < |m.rob|
      ensures if Live(m', i) then m'.rob[i].live && EntryOk(m'.rob[i]) else m'.rob[i] == EMPTY_ENTRY
      ensures Live(m', i) <==> Live(m, i) && i != m.head
      ensures i != m.head ==> Age(m'.head, |m.rob|, i) == Age(m.head, |m.rob|, i) - 1
    {
      LiveEntryOk(m, i);
      RetiredLiveness(m, i);
    }
  }

  lemma RetireKeepsLinks(m: Core)
    requires Inv(m) && CanRetire(m)
    ensures LinksOk(Retire(m)) && CountsOk(Retire(m))
  {
    hide FlagsOk, InOrder, WritersOk, RingsOk;
    var m' := Retire(m);
    forall c: nat | Live(m', c) ensures m'.rob[c].numDependent == |Pairs(m'.rob, c)| {
      RetireKeepsPairs(m, c);
      RetiredLiveness(m, c);
    }
    forall p: nat, j: nat, c: nat | p < |m'.rob| && Awaits(m'.rob[p], j, c) ensures LinkOk(m', p, j, c) {
      RetireKeepsPairs(m, c);
      assert LinkOk(m, p, j, c);
      assert p != m.head && c != m.head;
      RetiredLiveness(m, p);
      RetiredLiveness(m, c);
    }
  }

  lemma RetireKeepsWriters(m: Core)
    requires Inv(m) && CanRetire(m)
    ensures WritersOk(Retire(m))
  {
    hide FlagsOk, InOrder, LinksOk, CountsOk, RingsOk;
    var m' := Retire(m);
    forall c: nat, j: nat, w: nat | Live(m', c) && m'.rob[c].scheduled != NotYet && j < NUM_SOURCES
      && YoungestWriter(m', w, c, m'.rob[c].instr.sources[j])
      ensures m'.rob[w].executed == Completed || c in m'.rob[w].slotWaiters[j]
    {
      RetiredLiveness(m, c);
      RetiredLiveness(m, w);
      forall y: nat | Live(m, y) && Older(m, w, y) && Older(m, y, c)
        ensures !Writes(m.rob[y], m.rob[c].instr.sources[j])
      {
        RetiredLiveness(m, y);
        assert y != m.head;
        assert Live(m', y) && Older(m', w, y) && Older(m', y, c);
      }
      assert YoungestWriter(m, w, c, m.rob[c].instr.sources[j]);
    }
  }

  lemma RetireKeepsInv(m: Core)
    requires Inv(m) && CanRetire(m)
    ensures Inv(Retire(m))
  {
    var m' := Retire(m);
    RetiredLiveness(m, m.head);
    RetireKeepsFlags(m);
    RetireKeepsLinks(m);
    RetireKeepsWriters(m);
    forall i: nat ensures InRings(m', i) == if i < |m'.rob| && Ready(m'.rob[i]) then 1 else 0 {
      assert InRings(m', i) == InRings(m, i);
    }
  }

  // ---- Ring capacity ----

  /** The two rings together never hold more indices than the buffer has entries. */
  lemma RingsFit(m: Core)
    requires RingsOk(m)
    ensures |m.rte0| + |m.rte1| <= |m.rob|
  {
    var all := m.rte0 + m.rte1;
    assert multiset(all) == multiset(m.rte0) + multiset(m.rte1);
    forall x, y | 0 <= x < y < |all| ensures all[x] != all[y] {
      TwiceInMultiset(all, x, y);
      assert multiset(all)[all[x]] == InRings(m, all[x]);
    }
    DistinctSize(all);
    var indices := set i | 0 <= i < |all| :: all[i] as int;
    forall i | 0 <= i < |all| ensures all[i] < |m.rob| {
      assert multiset(all)[all[i]] > 0;
      assert InRings(m, all[i]) > 0;
    }
    SubsetSize(indices, UpTo(|m.rob|));
  }

  lemma TwiceInMultiset(s: seq<nat>, x: nat, y: nat)
    requires x < y < |s|
    ensures s[x] == s[y] ==> multiset(s)[s[x]] >= 2
  {
    assert s == s[..y] + [s[y]] + s[y + 1..];
    assert s[x] in s[..y];
  }

  lemma {:induction false} DistinctSize(s: seq<nat>)
    requires forall x, y :: 0 <= x < y < |s| ==> s[x] != s[y]
    ensures |set i | 0 <= i < |s| :: s[i] as int| == |s|
  {
    if s != [] {
      var last := |s| - 1;
      DistinctSize(s[..last]);
      var rest := set i | 0 <= i < last :: s[i] as int;
      assert (set i | 0 <= i < |s[..last]| :: s[..last][i] as int) == rest;
      assert (set i | 0 <= i < |s| :: s[i] as int) == rest + {s[last]};
    }
  }
}
