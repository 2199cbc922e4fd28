/** The reorder buffer and its two ready rings, updated in place. */
module ReorderBuffer {
  import opened Counting
  import opened CoreTypes
  import opened WakeupModel
  import opened WakeupInvariant
  import opened WakeupRun
  import opened Rings

  // ---- One link, and the links found so far ----

  function Producing(e: Entry, j: nat, c: nat): Entry
    requires j < NUM_SOURCES
  {
    e.(isProducer := true, waiters := e.waiters + {c}, slotWaiters := e.slotWaiters[j := e.slotWaiters[j] + {c}])
  }

  function Depending(e: Entry, j: nat): Entry
    requires j < NUM_SOURCES
  {
    e.(regReady := false, numDependent := e.numDependent + 1, checked := e.checked[j := true])
  }

  lemma LinkOne(rob: seq<Entry>, c: nat, ps: Links4, j: nat, i: nat)
    requires c < |rob| && i < |rob| && i != c && j < NUM_SOURCES && ps[j] == None
    ensures var linked := LinkAll(rob, c, ps);
      LinkAll(rob, c, ps[j := Some(i)])
        == linked[i := Producing(linked[i], j, c)][c := Depending(linked[c], j)]
  {
    var ps' := ps[j := Some(i)];
    assert Found(ps') == Found(ps)[j := true];
    CountUpdate(Found(ps), j, true);
    var linked := LinkAll(rob, c, ps);
    forall p | 0 <= p < |rob|
      ensures LinkAll(rob, c, ps')[p] == linked[i := Producing(linked[i], j, c)][c := Depending(linked[c], j)][p]
    {
      LinkOneEntry(rob[p], p, c, ps, j, i);
    }
  }

  lemma LinkOneEntry(e: Entry, p: nat, c: nat, ps: Links4, j: nat, i: nat)
    requires i != c && j < NUM_SOURCES && ps[j] == None
    requires Found(ps[j := Some(i)]) == Found(ps)[j := true]
    requires Count(Found(ps[j := Some(i)])) == Count(Found(ps)) + 1
    ensures Linked(e, p, c, ps[j := Some(i)]) ==
      if p == c then Depending(Linked(e, p, c, ps), j)
      else if p == i then Producing(Linked(e, p, c, ps), j, c)
      else Linked(e, p, c, ps)
  {
    var ps' := ps[j := Some(i)];
    assert ps'[j] == Some(i);
    forall q: nat | q != i ensures Some(q) in ps' <==> Some(q) in ps {
      if k :| 0 <= k < NUM_SOURCES && ps[k] == Some(q) {
        assert ps'[k] == Some(q);
      }
    }
    if p == i {
      assert Linked(e, p, c, ps').slotWaiters == Producing(Linked(e, p, c, ps), j, c).slotWaiters;
      assert Linked(e, p, c, ps').waiters == Producing(Linked(e, p, c, ps), j, c).waiters;
    } else if p != c {
      assert Some(p) in ps ==> Linked(e, p, c, ps').slotWaiters == Linked(e, p, c, ps).slotWaiters;
    }
  }

  /** The links after producer i was tried for the first n source slots. */
  function Joined(rob: seq<Entry>, c: nat, ps: Links4, i: nat, n: nat): Links4
    requires c < |rob| && i < |rob|
  {
    seq(NUM_SOURCES, j requires 0 <= j < NUM_SOURCES =>
      if j < n && ps[j] == None && Writes(rob[i], rob[c].instr.sources[j]) then Some(i) else ps[j])
  }

  lemma JoinedStep(rob: seq<Entry>, c: nat, ps: Links4, i: nat, n: nat)
    requires c < |rob| && i < |rob| && n < NUM_SOURCES
    ensures Joined(rob, c, ps, i, 0) == ps
    ensures Joined(rob, c, ps, i, n + 1) ==
      if ps[n] == None && Writes(rob[i], rob[c].instr.sources[n]) then Joined(rob, c, ps, i, n)[n := Some(i)]
      else Joined(rob, c, ps, i, n)
    ensures Joined(rob, c, ps, i, n)[n] == ps[n]
  {}

  /** Trying the writer one age further back extends the links as the search prescribes. */
  lemma ProducersStep(rob: seq<Entry>, head: nat, c: nat, lo: nat)
    requires head < |rob| && c < |rob| && lo < Age(head, |rob|, c)
    ensures var ps, i := Producers(rob, head, c, lo + 1), At(head, |rob|, lo);
      Producers(rob, head, c, lo) == if rob[i].executed == Completed then ps else Joined(rob, c, ps, i, NUM_SOURCES)
  {}

  class OutOfOrderCore {
    const rob: array<Entry>
    const rte0: SentinelRing
    const rte1: SentinelRing
    var head: nat
    var tail: nat
    var occupancy: nat

    ghost predicate Valid()
      reads this, rob, rte0, rte1, rte0.slot, rte1.slot
    {
      && rte0 != rte1 && rte0.slot != rte1.slot
      && rte0.Valid() && rte1.Valid()
      && rte0.slot.Length == rob.Length && rte1.slot.Length == rob.Length
      && rte0.empty == rob.Length && rte1.empty == rob.Length
      && Shape(View())
    }

    ghost function View(): Core
      reads this, rob, rte0, rte1
    {
      Core(rob[..], head, tail, occupancy, rte0.queue, rte1.queue)
    }

    constructor (size: nat)
      requires size > 0
      ensures Valid() && View() == EmptyCore(size)
    {
      rob := new Entry[size](_ => EMPTY_ENTRY);
      rte0 := new SentinelRing(size, size);
      rte1 := new SentinelRing(size, size);
      head, tail, occupancy := 0, 0, 0;
    }

    method AddToRob(x: Instr)
      requires Valid() && Inv(View()) && occupancy < rob.Length
      modifies this, rob
      ensures Valid() && View() == Dispatch(old(View()), x)
    {
      DispatchKeepsInv(View(), x);
      assert rob[tail] == EMPTY_ENTRY;
      rob[tail] := Fresh(x);
      occupancy := occupancy + 1;
      tail := tail + 1;
      if tail >= rob.Length { tail := 0; }
    }

    /** Make entry current wait for entry prior through slot j, if prior writes that source. */
    method RegRawDependency(prior: nat, current: nat, j: nat)
      requires prior < rob.Length && current < rob.Length && prior != current && j < NUM_SOURCES
      requires rob[current].instr.sources[j] != 0
      modifies rob
      ensures rob[..] ==
        if Writes(old(rob[prior]), old(rob[current].instr.sources[j])) then
          old(rob[..])[prior := Producing(old(rob[prior]), j, current)][current := Depending(old(rob[current]), j)]
        else old(rob[..])
    {
      var d := rob[prior].instr.destinations;
      var s := rob[current].instr.sources[j];
      for k := 0 to NUM_DESTINATIONS
        invariant rob[..] == old(rob[..])
        invariant s !in d[..k]
      {
        if d[k] == s {
          rob[prior] := rob[prior].(waiters := rob[prior].waiters + {current});
          rob[prior] := rob[prior].(slotWaiters :=
            rob[prior].slotWaiters[j := rob[prior].slotWaiters[j] + {current}]);
          rob[prior] := rob[prior].(isProducer := true);
          rob[current] := rob[current].(regReady := false);
          rob[current] := rob[current].(numDependent := rob[current].numDependent + 1);
          rob[current] := rob[current].(checked := rob[current].checked[j := true]);
          return;
        }
      }
      assert d[..NUM_DESTINATIONS] == d;
    }

    /** Try entry i as producer of the source slots of entry c that have none yet. */
    method LinkSlots(i: nat, c: nat, ghost was: seq<Entry>, ghost ps: Links4)
      requires |was| == rob.Length && i < rob.Length && c < rob.Length && i != c
      requires rob[..] == LinkAll(was, c, ps)
      modifies rob
      ensures rob[..] == LinkAll(was, c, Joined(was, c, ps, i, NUM_SOURCES))
    {
      JoinedStep(was, c, ps, i, 0);
      for j := 0 to NUM_SOURCES
        invariant rob[..] == LinkAll(was, c, Joined(was, c, ps, i, j))
      {
        ghost var now := Joined(was, c, ps, i, j);
        JoinedStep(was, c, ps, i, j);
        LinkedKeeps(was, c, now, i);
        LinkedKeeps(was, c, now, c);
        if rob[c].instr.sources[j] != 0 && !rob[c].checked[j] {
          RegRawDependency(i, c, j);
          LinkOne(was, c, now, j, i);
        }
      }
    }

    /** Try the entries from..to, youngest first, which have consecutive ages. */
    method LinkRange(from: nat, to: nat, c: nat, ghost was: seq<Entry>)
      requires head < rob.Length == |was| && to <= from < rob.Length && c < rob.Length && !(to <= c <= from)
      requires Age(head, rob.Length, from) == Age(head, rob.Length, to) + from - to < Age(head, rob.Length, c)
      requires rob[..] == LinkAll(was, c, Producers(was, head, c, Age(head, rob.Length, from) + 1))
      modifies rob
      ensures rob[..] == LinkAll(was, c, Producers(was, head, c, Age(head, rob.Length, to)))
    {
      var i := from + 1;
      while i > to
        invariant to <= i <= from + 1
        invariant rob[..] == LinkAll(was, c, Producers(was, head, c, Age(head, rob.Length, to) + i - to))
      {
        i := i - 1;
        ghost var lo := Age(head, rob.Length, to) + i - to;
        assert Age(head, rob.Length, i) == lo;
        AgesInvert(head, rob.Length, i);
        LinkedKeeps(was, c, Producers(was, head, c, lo + 1), i);
        ProducersStep(was, head, c, lo);
        if rob[i].executed != Completed {
          LinkSlots(i, c, was, Producers(was, head, c, lo + 1));
        }
      }
    }

    /** Link the sources of entry c to the youngest uncompleted older writers. */
    method RegDependency(c: nat)
      requires Shape(Core(rob[..], head, tail, occupancy, [], [])) && c < rob.Length
      requires rob[c].regReady && rob[c].numDependent == 0 && rob[c].checked == EMPTY_ENTRY.checked
      modifies rob
      ensures rob[..] == LinkAll(old(rob[..]), c, Producers(old(rob[..]), head, c, 0))
    {
      ghost var was := rob[..];
      NoLinks(was, head, c);
      var prior := if c == 0 then rob.Length - 1 else c - 1;
      if c != head {
        if head <= prior {
          LinkRange(prior, head, c, was);
        } else {
          LinkRange(prior, 0, c, was);
          LinkRange(rob.Length - 1, head, c, was);
        }
      }
    }

    method DoScheduling(c: nat)
      requires Valid() && Inv(View()) && CanSchedule(View(), c)
      modifies rob, rte1, rte1.slot
      ensures Valid() && View() == Schedule(old(View()), c)
    {
      ghost var m := View();
      LiveEntryOk(m, c);
      PushFindsRoom(m, Scheduling(c));
      hide Inv;
      rob[c] := rob[c].(regReady := true);
      ghost var was := rob[..];
      RegDependency(c);
      ReadyFirst(m.rob, m.head, c);
      if rob[c].instr.isMemory {
        rob[c] := rob[c].(scheduled := Inflight);
      } else {
        rob[c] := rob[c].(scheduled := Completed);
        if rob[c].regReady {
          rte1.Add(c);
        }
      }
    }

    // ---- Issue ----

    /**
     Start the due instructions at the head of the first ring, then those of the second, up to the width:
     the rings lose exactly these, they are in flight, and nothing else changes.
     */
    method ExecuteInstruction(width: nat, due: set<nat>) returns (first: nat, second: nat)
      requires Valid() && Inv(View()) && rob.Length >= 2
      modifies rob, rte0, rte0.slot, rte1, rte1.slot
      ensures Valid() && Inv(View())
      ensures IsDuePrefix(old(rte0.queue), first, due, Min(width, rob.Length - 1))
      ensures IsDuePrefix(old(rte1.queue), second, due, Min(width - first, rob.Length - 1))
      ensures rte0.queue == old(rte0.queue)[first..] && rte1.queue == old(rte1.queue)[second..]
      ensures forall i :: 0 <= i < rob.Length ==>
        rob[i] == if i in old(rte0.queue)[..first] || i in old(rte1.queue)[..second]
                  then old(rob[i]).(executed := Inflight) else old(rob[i])
    {
      hide Inv;
      first := IssueReleased(width, due);
      second := IssueScheduled(width - first, due);
    }

    /** Start the oldest instruction of the first ring if its time has come. */
    method StartReleased(due: set<nat>) returns (found: bool, started: bool)
      requires Valid() && Inv(View())
      modifies rob, rte0, rte0.slot
      ensures Valid() && Inv(View())
      ensures found <==> old(rte0.queue) != []
      ensures started <==> found && old(rte0.queue)[0] in due
      ensures found ==> old(rte0.queue)[0] < rob.Length
      ensures rte0.queue == if started then old(rte0.queue)[1..] else old(rte0.queue)
      ensures rob[..] == if started then Began(old(rob[..]), old(rte0.queue)[0]) else old(rob[..])
    {
      ghost var m := View();
      var c := rte0.First();
      found, started := c != rob.Length, false;
      if found && c in due {
        Issue0KeepsInv(m);
        hide Inv;
        rob[c] := rob[c].(executed := Inflight);
        rte0.Remove();
        started := true;
        assert View() == Issue0(m);
      }
    }

    method IssueReleased(width: nat, due: set<nat>) returns (issued: nat)
      requires Valid() && Inv(View()) && rob.Length >= 2
      modifies rob, rte0, rte0.slot
      ensures Valid() && Inv(View())
      ensures IsDuePrefix(old(rte0.queue), issued, due, Min(width, rob.Length - 1))
      ensures rte0.queue == old(rte0.queue)[issued..]
      ensures rob[..] == Started(old(rob[..]), old(rte0.queue)[..issued])
    {
      hide Inv, Started, Began;
      ghost var q, was := rte0.queue, rob[..];
      issued := 0;
      var iterations := 0;
      NoneStarted(was, q);
      while issued < width && iterations < rob.Length - 1
        invariant Valid() && Inv(View())
        invariant issued <= iterations <= rob.Length - 1 && issued <= width && issued <= |q|
        invariant issued < iterations ==> issued < |q| && q[issued] !in due
        invariant forall i :: 0 <= i < issued ==> q[i] in due
        invariant rte0.queue == q[issued..] && rob[..] == Started(was, q[..issued])
        decreases rob.Length - iterations
      {
        var found, started := StartReleased(due);
        if !found { break; }
        if started {
          StartedNext(was, q, issued);
          issued := issued + 1;
        }
        iterations := iterations + 1;
      }
    }

    /** Start the oldest instruction of the second ring if its time has come. */
    method StartScheduled(due: set<nat>) returns (found: bool, started: bool)
      requires Valid() && Inv(View())
      modifies rob, rte1, rte1.slot
      ensures Valid() && Inv(View())
      ensures found <==> old(rte1.queue) != []
      ensures started <==> found && old(rte1.queue)[0] in due
      ensures found ==> old(rte1.queue)[0] < rob.Length
      ensures rte1.queue == if started then old(rte1.queue)[1..] else old(rte1.queue)
      ensures rob[..] == if started then Began(old(rob[..]), old(rte1.queue)[0]) else old(rob[..])
    {
      ghost var m := View();
      var c := rte1.First();
      found, started := c != rob.Length, false;
      if found && c in due {
        Issue1KeepsInv(m);
        hide Inv;
        rob[c] := rob[c].(executed := Inflight);
        rte1.Remove();
        started := true;
        assert View() == Issue1(m);
      }
    }

    method IssueScheduled(width: nat, due: set<nat>) returns (issued: nat)
      requires Valid() && Inv(View()) && rob.Length >= 2
      modifies rob, rte1, rte1.slot
      ensures Valid() && Inv(View())
      ensures IsDuePrefix(old(rte1.queue), issued, due, Min(width, rob.Length - 1))
      ensures rte1.queue == old(rte1.queue)[issued..]
      ensures rob[..] == Started(old(rob[..]), old(rte1.queue)[..issued])
    {
      hide Inv, Started, Began;
      ghost var q, was := rte1.queue, rob[..];
      issued := 0;
      var iterations := 0;
      NoneStarted(was, q);
      while issued < width && iterations < rob.Length - 1
        invariant Valid() && Inv(View())
        invariant issued <= iterations <= rob.Length - 1 && issued <= width && issued <= |q|
        invariant issued < iterations ==> issued < |q| && q[issued] !in due
        invariant forall i :: 0 <= i < issued ==> q[i] in due
        invariant rte1.queue == q[issued..] && rob[..] == Started(was, q[..issued])
        decreases rob.Length - iterations
      {
        var found, started := StartScheduled(due);
        if !found { break; }
        if started {
          StartedNext(was, q, issued);
          issued := issued + 1;
        }
        iterations := iterations + 1;
      }
    }

    // ---- Completion and retirement ----

    /** Take one dependence away from entry i; the last one makes it ready. */
    method ReleaseOne(i: nat)
      requires i < rob.Length && rte0.Valid() && rte0.slot.Length == rob.Length && rte0.empty == rob.Length
      requires |rte0.queue| < rob.Length || !LastRelease(rob[i], 1)
      modifies rob, rte0, rte0.slot
      ensures rte0.Valid()
      ensures rob[..] == old(rob[..])[i := Released(old(rob[i]), 1)]
      ensures rte0.queue == old(rte0.queue) + if LastRelease(old(rob[i]), 1) then [i] else []
    {
      rob[i] := rob[i].(numDependent := rob[i].numDependent - 1);
      if rob[i].numDependent == 0 {
        rob[i] := rob[i].(regReady := true);
        if rob[i].instr.isMemory {
          rob[i] := rob[i].(scheduled := Inflight);
        } else {
          rob[i] := rob[i].(scheduled := Completed);
          rte0.Add(i);
        }
      }
    }

    /** Take away the dependences of entry i on entry c, one source slot at a time. */
    method ReleaseSlots(c: nat, i: nat)
      requires c < rob.Length && i < rob.Length && (i == c ==> Count(SlotMask(rob[c], i)) == 0)
      requires rte0.Valid() && rte0.slot.Length == rob.Length && rte0.empty == rob.Length
      requires rob[i].numDependent >= Count(SlotMask(rob[c], i))
      requires |rte0.queue| < rob.Length || !LastRelease(rob[i], Count(SlotMask(rob[c], i)))
      modifies rob, rte0, rte0.slot
      ensures rte0.Valid()
      ensures rob[..] == old(rob[..])[i := Released(old(rob[i]), Count(SlotMask(old(rob[c]), i)))]
      ensures rte0.queue == old(rte0.queue) +
        if LastRelease(old(rob[i]), Count(SlotMask(old(rob[c]), i))) then [i] else []
    {
      ghost var mask, e, was, pushed := SlotMask(rob[c], i), rob[i], rob[..], rte0.queue;
      assert rob[..] == was[i := Released(e, 0)];
      for j := 0 to NUM_SOURCES
        invariant rte0.Valid()
        invariant rob[..] == was[i := Released(e, Count(mask[..j]))]
        invariant rte0.queue == pushed + if LastRelease(e, Count(mask[..j])) then [i] else []
      {
        hide Released, LastRelease;
        ReleaseAdds(e, mask, j);
        CountPrefix(mask, j);
        assert i == c ==> rob[c] == e by { ReleasedNone(e); }
        assert SlotMask(rob[c], i) == mask;
        if i in rob[c].slotWaiters[j] {
          ReleaseOne(i);
        }
      }
      assert mask[..NUM_SOURCES] == mask;
    }

    /** Release every waiter of entry c, in ascending order of index. */
    method RegRawRelease(c: nat)
      requires c < rob.Length && rte0.Valid() && rte0.slot.Length == rob.Length && rte0.empty == rob.Length
      requires Releasable(rob[..], c)
      requires |rte0.queue| + |Woken(rob[..], rob[c], rob.Length)| <= rob.Length
      modifies rob, rte0, rte0.slot
      ensures rte0.Valid()
      ensures rob[..] == ReleaseAll(old(rob[..]), old(rob[c]), rob.Length)
      ensures rte0.queue == old(rte0.queue) + Woken(old(rob[..]), old(rob[c]), rob.Length)
    {
      hide Released, SlotMask, Count, Woken;
      ghost var was, p := rob[..], rob[c];
      ReleaseAllFrom(was, p);
      hide ReleaseAll;
      for i := 0 to rob.Length
        invariant rte0.Valid()
        invariant rob[..] == ReleaseAll(was, p, i)
        invariant rte0.queue == old(rte0.queue) + Woken(was, p, i)
      {
        ReleaseAllStep(was, p, c, i);
        WokenGrows(was, p, i + 1, rob.Length);
        if i in rob[c].waiters {
          ReleaseSlots(c, i);
        }
      }
    }

    /** Entry c completes once it is in flight, its time has come and no memory operation is pending. */
    method CompleteExecution(c: nat, due: bool)
      requires Valid() && Inv(View()) && Live(View(), c)
      modifies rob, rte0, rte0.slot
      ensures Valid()
      ensures View() == if due && CanComplete(old(View()), c) then Complete(old(View()), c) else old(View())
    {
      if rob[c].executed == Inflight && due {
        ghost var m := View();
        CompletingIsReleasable(m, c);
        rob[c] := rob[c].(executed := Completed);
        if rob[c].isProducer {
          RegRawRelease(c);
        }
      }
    }

    /** Retire the oldest entry if it has completed and its stores fit the write queue of the cache. */
    method RetireOldest(storesFit: bool) returns (retired: bool)
      requires Valid() && Inv(View())
      modifies this, rob
      ensures Valid()
      ensures retired <==> storesFit && CanRetire(old(View()))
      ensures View() == if retired then Retire(old(View())) else old(View())
    {
      LiveEntryOk(View(), head);
      assert rob[head].live <==> occupancy > 0;
      hide Inv;
      if !rob[head].live || rob[head].executed != Completed || !storesFit {
        return false;
      }
      rob[head] := EMPTY_ENTRY;
      head := head + 1;
      if head == rob.Length { head := 0; }
      occupancy := occupancy - 1;
      return true;
    }
  }

  // ---- What is issued, and facts for release ----

  function Min(a: nat, b: nat): nat { if a <= b then a else b }

  /** The first k numbers of the queue are due, and k is as large as the limit and the queue allow. */
  predicate IsDuePrefix(q: seq<nat>, k: nat, due: set<nat>, limit: nat) {
    && k <= |q| && k <= limit
    && (forall i :: 0 <= i < k ==> q[i] in due)
    && (k == limit || k == |q| || q[k] !in due)
  }

  /** The buffer after one index was started. */
  function Began(rob: seq<Entry>, c: nat): seq<Entry>
    requires c < |rob|
  {
    rob[c := rob[c].(executed := Inflight)]
  }

  /** The buffer after these indices were started. */
  function Started(rob: seq<Entry>, indices: seq<nat>): (r: seq<Entry>)
    ensures |r| == |rob|
    ensures forall i :: 0 <= i < |rob| ==> r[i] == if i in indices then rob[i].(executed := Inflight) else rob[i]
  {
    seq(|rob|, i requires 0 <= i < |rob| => if i in indices then rob[i].(executed := Inflight) else rob[i])
  }

  lemma NoneStarted(rob: seq<Entry>, q: seq<nat>)
    ensures Started(rob, q[..0]) == rob
  {}

  lemma StartedNext(rob: seq<Entry>, q: seq<nat>, k: nat)
    requires k < |q| && q[k] < |rob|
    ensures Started(rob, q[..k + 1]) == Began(Started(rob, q[..k]), q[k])
  {
    assert q[..k + 1] == q[..k] + [q[k]];
  }

  lemma {:induction false} CountPrefix(mask: seq<bool>, n: nat)
    requires n <= |mask|
    ensures Count(mask[..n]) <= Count(mask)
  {
    if n < |mask| {
      var last := |mask| - 1;
      CountPrefix(mask[..last], n);
      assert mask[..last][..n] == mask[..n];
    } else {
      assert mask[..n] == mask;
    }
  }

  /** Taking n dependences away makes the entry ready for its ring. */
  predicate LastRelease(e: Entry, n: nat) { n > 0 && e.numDependent == n && !e.instr.isMemory }

  lemma ReleasedNone(e: Entry)
    ensures Released(e, 0) == e && !LastRelease(e, 0)
  {}

  /** Releasing slot by slot adds up to releasing all slots of the mask at once. */
  lemma ReleaseAdds(e: Entry, mask: seq<bool>, j: nat)
    requires j < |mask| && e.numDependent >= Count(mask)
    ensures var n, n' := Count(mask[..j]), Count(mask[..j + 1]);
      && (mask[j] ==> Released(e, n') == Released(Released(e, n), 1) && !LastRelease(e, n))
      && (mask[j] ==> LastRelease(e, n') == LastRelease(Released(e, n), 1))
      && (mask[j] && LastRelease(e, n') ==> LastRelease(e, Count(mask)))
      && (!mask[j] ==> n' == n)
  {
    assert mask[..j + 1][..j] == mask[..j];
    CountPrefix(mask, j + 1);
    assert Count(mask[..j + 1]) == Count(mask[..j]) + (if mask[j] then 1 else 0);
    var n, all := Count(mask[..j]), Count(mask);
    hide Count;
    if mask[j] {
      ReleaseOneMore(e, n, all);
    }
  }

  lemma ReleaseOneMore(e: Entry, n: nat, all: nat)
    requires n + 1 <= all <= e.numDependent
    ensures Released(e, n + 1) == Released(Released(e, n), 1) && !LastRelease(e, n)
    ensures LastRelease(e, n + 1) == LastRelease(Released(e, n), 1)
    ensures LastRelease(e, n + 1) ==> LastRelease(e, all)
  {}

  /** Nobody waits for entry c more often than it counts, and the entry does not wait for itself. */
  ghost predicate Releasable(rob: seq<Entry>, c: nat)
    requires c < |rob|
  {
    && Count(SlotMask(rob[c], c)) == 0
    && forall i :: 0 <= i < |rob| ==> rob[i].numDependent >= Count(SlotMask(rob[c], i))
  }

  lemma {:induction false} WokenGrows(rob: seq<Entry>, p: Entry, a: nat, b: nat)
    requires a <= b <= |rob|
    ensures |Woken(rob, p, a)| <= |Woken(rob, p, b)|
    decreases b
  {
    if a < b {
      WokenGrows(rob, p, a, b - 1);
    }
  }

  lemma ReleaseAllFrom(rob: seq<Entry>, p: Entry)
    ensures ReleaseAll(rob, p, 0) == rob && Woken(rob, p, 0) == []
  {}

  lemma ReleaseAllStep(rob: seq<Entry>, p: Entry, c: nat, i: nat)
    requires c < |rob| && i < |rob| && rob[c] == p && Releasable(rob, c)
    ensures ReleaseAll(rob, p, i)[i] == rob[i] && ReleaseAll(rob, p, i)[c] == p
    ensures ReleaseAll(rob, p, i + 1) ==
      if i in p.waiters then ReleaseAll(rob, p, i)[i := Released(rob[i], Count(SlotMask(p, i)))]
      else ReleaseAll(rob, p, i)
    ensures Woken(rob, p, i + 1) == Woken(rob, p, i) +
      if i in p.waiters && LastRelease(rob[i], Count(SlotMask(p, i))) then [i] else []
  {
    assert Release(rob[c], p, c) == rob[c];
  }

  lemma CompletingIsReleasable(m: Core, c: nat)
    requires Inv(m) && CanComplete(m, c)
    ensures var rob := m.rob[c := m.rob[c].(executed := Completed)];
      Releasable(rob, c) && (m.rob[c].isProducer ==> |m.rte0| + |Woken(rob, rob[c], |rob|)| <= |rob|)
  {
    var rob := m.rob[c := m.rob[c].(executed := Completed)];
    PushFindsRoom(m, Completing(c));
    assert SlotMask(rob[c], c) == SlotMask(m.rob[c], c);
    if Count(SlotMask(m.rob[c], c)) > 0 {
      WaiterIsWaiting(m, c, c);
      assert false;
    }
    forall i | 0 <= i < |rob| ensures rob[i].numDependent >= Count(SlotMask(rob[c], i)) {
      assert SlotMask(rob[c], i) == SlotMask(m.rob[c], i);
      if Count(SlotMask(m.rob[c], i)) > 0 {
        WaiterIsWaiting(m, c, i);
      }
    }
  }

  lemma LinkedKeeps(rob: seq<Entry>, c: nat, ps: Links4, i: nat)
    requires c < |rob| && i < |rob|
    ensures var e := LinkAll(rob, c, ps)[i];
      && e.instr == rob[i].instr && e.executed == rob[i].executed
      && (i == c ==> e.checked == Found(ps))
  {}

  lemma NoLinks(rob: seq<Entry>, head: nat, c: nat)
    requires head < |rob| && c < |rob|
    requires rob[c].regReady && rob[c].numDependent == 0 && rob[c].checked == EMPTY_ENTRY.checked
    ensures LinkAll(rob, c, Producers(rob, head, c, Age(head, |rob|, c))) == rob
  {
    var ps := Producers(rob, head, c, Age(head, |rob|, c));
    assert ps == [None, None, None, None];
    assert Found(ps) == EMPTY_ENTRY.checked;
    CountExtremes(Found(ps));
    forall p: nat ensures Some(p) !in ps {}
  }

  /** The search does not look at the ready flag. */
  lemma ReadyFirst(rob: seq<Entry>, head: nat, c: nat)
    requires head < |rob| && c < |rob|
    ensures var rob' := rob[c := rob[c].(regReady := true)];
      LinkAll(rob', c, Producers(rob', head, c, 0)) == LinkAll(rob, c, Producers(rob, head, c, 0))
  {
    var rob' := rob[c := rob[c].(regReady := true)];
    forall j | 0 <= j < NUM_SOURCES
      ensures Producers(rob', head, c, 0)[j] == Producers(rob, head, c, 0)[j]
    {
      SameProducer(rob, rob', head, rob[c].instr.sources[j], 0, Age(head, |rob|, c));
    }
    assert Producers(rob', head, c, 0) == Producers(rob, head, c, 0);
  }

  lemma {:induction false} SameProducer(rob: seq<Entry>, rob': seq<Entry>, head: nat, r: nat, lo: nat, hi: nat)
    requires head < |rob| == |rob'| && hi <= |rob|
    requires forall i :: 0 <= i < |rob| ==> rob'[i].executed == rob[i].executed && rob'[i].instr == rob[i].instr
    ensures Producer(rob', head, r, lo, hi) == Producer(rob, head, r, lo, hi)
    decreases hi - lo
  {
    if lo < hi {
      SameProducer(rob, rob', head, r, lo + 1, hi);
    }
  }
}
