/** The two cache levels with their queues and miss registers, updated in place. */
module CacheLevels {
  import opened Counting
  import opened CacheProtocol
  import opened CacheRun
  import opened CacheQueues

  /** Whether the data of each miss have returned. */
  function Flags(f: map<nat, Miss>): map<nat, bool> { map a | a in f :: f[a].returned }

  lemma FlagsFollow(f: map<nat, Miss>, a: nat, x: Miss)
    ensures Flags(f[a := x]) == Flags(f)[a := x.returned]
  {}

  lemma FlagsWithout(f: map<nat, Miss>, a: nat)
    ensures Flags(f - {a}) == Flags(f) - {a}
  {}

  lemma KeysOfFlags(f: map<nat, Miss>, a: nat)
    ensures a in Flags(f) <==> a in f
    ensures |Flags(f)| == |f|
  {
    assert Flags(f).Keys == f.Keys && |Flags(f)| == |Flags(f).Keys| && |f| == |f.Keys|;
  }

  function Addresses(q: seq<Request>): (s: seq<nat>)
    ensures |s| == |q|
  {
    seq(|q|, k requires 0 <= k < |q| => q[k].address)
  }

  lemma FoundInAddresses(q: seq<Request>, a: nat)
    ensures a in Addresses(q) <==> Find(q, a) < |q|
  {
    if a in Addresses(q) {
      var k :| 0 <= k < |q| && Addresses(q)[k] == a;
      assert q[k].address == a;
    }
    if Find(q, a) < |q| {
      assert Addresses(q)[Find(q, a)] == a;
    }
  }

  class TwoLevels {
    const l1i: MissRegisters
    const l1d: MissRegisters
    const mshr: MissRegisters
    const rq: PacketFifo
    const wq: PacketFifo

    ghost predicate Valid()
      reads this, l1i, l1d, mshr, rq, wq, l1i.entry, l1d.entry, mshr.entry, rq.entry, wq.entry
    {
      && l1i != l1d && l1i != mshr && l1d != mshr && rq != wq
      && l1i.entry != l1d.entry && l1i.entry != mshr.entry && l1d.entry != mshr.entry && rq.entry != wq.entry
      && l1i.Valid() && l1d.Valid() && mshr.Valid() && rq.Valid() && wq.Valid()
    }

    ghost function View(): System
      reads this, l1i, l1d, mshr, rq, wq
    {
      System(Flags(l1i.contents), Flags(l1d.contents), rq.contents, Addresses(wq.contents), mshr.contents)
    }

    ghost function Capacities(): Sizes
      reads this
    {
      Sizes(l1i.entry.Length, l1d.entry.Length, rq.entry.Length, wq.entry.Length, mshr.entry.Length)
    }

    constructor (z: Sizes)
      requires z.rq > 0 && z.wq > 0
      ensures Valid() && View() == EMPTY && Capacities() == z
    {
      l1i := new MissRegisters(z.l1i);
      l1d := new MissRegisters(z.l1d);
      mshr := new MissRegisters(z.mshr);
      rq := new PacketFifo(z.rq);
      wq := new PacketFifo(z.wq);
    }

    function Registers(s: Side): MissRegisters { if s == Instructions then l1i else l1d }

    /** When data arrive at `now`, a register is ready after the latency of its cache. */
    function ReadyAt(cycle: nat, now: nat, latency: nat): nat {
      if cycle < now then now + latency else cycle + latency
    }

    /** Data return to a first-level cache; the register is there. */
    method ReturnData(s: Side, a: nat, now: nat, latency: nat)
      requires Valid() && a != 0 && a in Misses(View(), s)
      modifies l1i, l1d, l1i.entry, l1d.entry
      ensures Valid() && Some(View()) == Return(old(View()), s, a)
    {
      hide MissRegisters.Valid, PacketFifo.Valid, Flags, Addresses;
      var r := Registers(s);
      KeysOfFlags(r.contents, a);
      var i := r.CheckMshr(a);
      var x := r.entry[i].miss.(returned := true);
      FlagsFollow(r.contents, a, x);
      r.Update(i, x, ReadyAt(r.entry[i].cycle, now, latency));
    }

    /** Answer the caches that wait for a packet, the instruction cache first. */
    method AnswerFlagged(a: nat, forI: bool, forD: bool, now: nat, latency: nat)
      requires Valid() && a != 0 && Answer(View(), a, forI, forD).Some?
      modifies l1i, l1d, l1i.entry, l1d.entry
      ensures Valid() && Some(View()) == Answer(old(View()), a, forI, forD)
    {
      if forI { ReturnData(Instructions, a, now, latency); }
      if forD { ReturnData(Data, a, now, latency); }
    }

    /** -2: refused; the index of a request for the same address; or -1. */
    method AddRq(s: Side, a: nat, now: nat, latency: nat) returns (r: int)
      requires Valid() && a != 0 && a in Misses(View(), s)
      modifies l1i, l1d, l1i.entry, l1d.entry, rq, rq.entry
      ensures Valid()
      ensures match AddRequest(old(View()), Capacities(), s, a)
        case Accepted(m') => View() == m' && r != -2
        case Full => View() == old(View()) && r == -2
        case Unexpected => false
    {
      hide MissRegisters.Valid, PacketFifo.Valid, Flags, Addresses, Find;
      FoundInAddresses(wq.contents, a);
      var w := wq.CheckQueue(a);
      if w != -1 {
        ReturnData(s, a, now, latency);
        return -1;
      }
      r := rq.CheckQueue(a);
      if r != -1 {
        rq.AddFlag(r, s);
        return;
      }
      if rq.IsFull() {
        return -2;
      }
      rq.Add(Request(a, s == Instructions, s == Data));
    }

    /** A write from the first level; an older write to the same address stands for it. */
    method AddWq(a: nat)
      requires Valid() && a != 0 && |wq.contents| < wq.entry.Length
      modifies wq, wq.entry
      ensures Valid() && View() == AddWrite(old(View()), Some(a))
    {
      hide MissRegisters.Valid, PacketFifo.Valid, Flags, Find;
      FoundInAddresses(wq.contents, a);
      var w := wq.CheckQueue(a);
      if w == -1 {
        wq.Add(Request(a, false, false));
        assert Addresses(wq.contents) == Addresses(old(wq.contents)) + [a];
      }
    }

    // ---- The first level ----

    /** A read or a store misses: join the miss in flight, start a new one, or try again later. */
    method HandleMiss(s: Side, a: nat, now: nat, latency: nat) returns (handled: bool)
      requires Valid() && Inv(View(), Capacities()) && a != 0
      requires l1i.entry.Length + l1d.entry.Length <= rq.entry.Length
      modifies l1i, l1d, l1i.entry, l1d.entry, rq, rq.entry
      ensures Valid() && Inv(View(), Capacities())
      ensures CanMiss(old(View()), Capacities(), s, a) ==>
        FirstLevelMiss(old(View()), Capacities(), s, a) == Accepted(View())
      ensures !CanMiss(old(View()), Capacities(), s, a) ==> View() == old(View())
      ensures handled <==> a in Misses(View(), s)
    {
      hide MissRegisters.Valid, PacketFifo.Valid, Flags, Addresses, Inv, AddRequest;
      ghost var m, z := View(), Capacities();
      var r := Registers(s);
      KeysOfFlags(r.contents, a);
      var i := r.CheckMshr(a);
      if i != -1 {
        return true;
      }
      if r.IsFull() {
        return false;
      }
      MissIsAccepted(m, z, s, a);
      FlagsFollow(r.contents, a, Miss(false, false, FILL_L1, false, false));
      r.AddMshr(a, Miss(false, false, FILL_L1, false, false), now);
      assert View() == Recorded(m, s, a);
      var answer := AddRq(s, a, now, latency);
      AcceptedKeepsMisses(m, z, s, a);
      return true;
    }

    /** Fill the first level with data that are due, unless its dirty victim does not fit the write queue. */
    method FillFirstLevel(s: Side, now: nat, victim: Option<nat>) returns (filled: Option<nat>)
      requires Valid() && Inv(View(), Capacities()) && (victim.Some? ==> victim.value != 0)
      modifies l1i, l1d, l1i.entry, l1d.entry, wq, wq.entry
      ensures Valid() && Inv(View(), Capacities())
      ensures match filled
        case None => View() == old(View())
        case Some(a) =>
          CanFill(old(View()), Capacities(), s, a, victim) && View() == FirstLevelFill(old(View()), s, a, victim)
    {
      hide MissRegisters.Valid, PacketFifo.Valid, Flags, Addresses, Inv;
      ghost var m, z := View(), Capacities();
      var a := NextFill(s, now);
      if a.None? || (victim.Some? && wq.IsFull()) {
        return None;
      }
      assert CanFill(m, z, s, a.value, victim) by { AddressesLength(wq.contents); }
      FirstFillKeepsInv(m, z, s, a.value, victim);
      if victim.Some? {
        AddWq(victim.value);
      }
      Forget(s, a.value);
      return a;
    }

    /** The address whose data are to be filled next at this cache, if some are due. */
    method NextFill(s: Side, now: nat) returns (a: Option<nat>)
      requires Valid()
      ensures a.Some? ==> a.value != 0 && a.value in Misses(View(), s) && Misses(View(), s)[a.value]
    {
      var r := Registers(s);
      hide MissRegisters.Valid, PacketFifo.Valid, Flags, Addresses;
      var i := r.NextReady(now);
      if i == -1 {
        return None;
      }
      FlagOf(r.contents, r.entry[i].address);
      return Some(r.entry[i].address);
    }

    /** Free the register of a first-level miss. */
    method Forget(s: Side, a: nat)
      requires Valid() && a != 0 && a in Misses(View(), s)
      modifies l1i, l1d, l1i.entry, l1d.entry
      ensures Valid() && View() == WithMisses(old(View()), s, Misses(old(View()), s) - {a})
    {
      hide MissRegisters.Valid, PacketFifo.Valid, Flags, Addresses;
      var r := Registers(s);
      KeysOfFlags(r.contents, a);
      FlagsWithout(r.contents, a);
      var i := r.CheckMshr(a);
      r.RemoveMshr(i);
    }

    // ---- The second level ----

    /** The oldest read hits the array: answer the first level. */
    method HandleReadHit(now: nat, latency: nat)
      requires Valid() && Inv(View(), Capacities()) && rq.contents != []
      modifies l1i, l1d, l1i.entry, l1d.entry, rq, rq.entry
      ensures Valid() && Inv(View(), Capacities()) && ReadHit(old(View())) == Accepted(View())
    {
      ghost var m, z := View(), Capacities();
      hide MissRegisters.Valid, PacketFifo.Valid, Flags, Addresses, Inv, Answer;
      ReadHitKeepsInv(m, z);
      var r := rq.Front();
      assert Answer(m, r.address, r.forI, r.forD).Some?;
      AnswerFlagged(r.address, r.forI, r.forD, now, latency);
      rq.Remove();
    }

    /** The oldest read misses: join the miss in flight, start a new one, or try again later. */
    method HandleReadMiss(now: nat) returns (handled: bool)
      requires Valid() && Inv(View(), Capacities()) && rq.contents != []
      modifies mshr, mshr.entry, rq, rq.entry
      ensures Valid() && Inv(View(), Capacities())
      ensures handled <==> CanReadMiss(old(View()), Capacities())
      ensures View() == if handled then ReadMiss(old(View())) else old(View())
    {
      ghost var m, z := View(), Capacities();
      hide MissRegisters.Valid, PacketFifo.Valid, Flags, Addresses, Inv;
      var r := rq.Front();
      var i := mshr.CheckMshr(r.address);
      if i == -1 && mshr.IsFull() {
        return false;
      }
      ReadMissKeepsInv(m, z);
      if i == -1 {
        mshr.AddMshr(r.address, Miss(r.forI, r.forD, FILL_L1, false, false), now);
      } else {
        mshr.Update(i, Merge(mshr.entry[i].miss, r), mshr.entry[i].cycle);
      }
      rq.Remove();
      return true;
    }

    /** A prefetch of the second level misses its array and is to fill it. */
    method HandlePrefetchMiss(a: nat, now: nat) returns (handled: bool)
      requires Valid() && Inv(View(), Capacities()) && a != 0
      modifies mshr, mshr.entry
      ensures Valid() && Inv(View(), Capacities())
      ensures handled <==> CanPrefetch(old(View()), Capacities(), a)
      ensures View() == if handled then Prefetch(old(View()), a) else old(View())
    {
      ghost var m, z := View(), Capacities();
      hide MissRegisters.Valid, PacketFifo.Valid, Flags, Addresses, Inv;
      var i := mshr.CheckMshr(a);
      if i == -1 && mshr.IsFull() {
        return false;
      }
      PrefetchKeepsInv(m, z, a);
      if i == -1 {
        mshr.AddMshr(a, Miss(false, false, FILL_L2, true, false), now);
      } else {
        var x := mshr.entry[i].miss;
        mshr.Update(i, x.(level := if FILL_L2 < x.level then FILL_L2 else x.level), mshr.entry[i].cycle);
      }
      return true;
    }

    /** The last level returns data for a miss in flight, possibly again. */
    method LastLevelData(a: nat, now: nat, latency: nat)
      requires Valid() && Inv(View(), Capacities()) && a != 0 && a in mshr.contents
      modifies mshr, mshr.entry
      ensures Valid() && Inv(View(), Capacities()) && View() == LastLevelReturns(old(View()), a)
    {
      hide MissRegisters.Valid, PacketFifo.Valid, Flags, Addresses, Inv;
      LastLevelKeepsInv(View(), Capacities(), a);
      var i := mshr.CheckMshr(a);
      mshr.Update(i, mshr.entry[i].miss.(returned := true), ReadyAt(mshr.entry[i].cycle, now, latency));
    }

    /** Fill the second level with data that are due, and answer the first level; `room`: a dirty victim can go. */
    method FillSecondLevel(now: nat, latency: nat, room: bool) returns (filled: Option<nat>)
      requires Valid() && Inv(View(), Capacities())
      modifies l1i, l1d, mshr, l1i.entry, l1d.entry, mshr.entry
      ensures Valid() && Inv(View(), Capacities())
      ensures match filled
        case None => View() == old(View())
        case Some(a) =>
          CanSecondFill(old(View()), a) && SecondLevelFill(old(View()), a) == Accepted(View())
    {
      ghost var m, z := View(), Capacities();
      hide MissRegisters.Valid, PacketFifo.Valid, Flags, Addresses, Inv, Answer;
      var i := mshr.NextReady(now);
      if i == -1 || !room {
        return None;
      }
      var a, x := mshr.entry[i].address, mshr.entry[i].miss;
      SecondFillKeepsInv(m, z, a);
      if x.level < FILL_L2 {
        AnswerFlagged(a, x.forI, x.forD, now, latency);
      }
      mshr.RemoveMshr(i);
      return Some(a);
    }

    /** The oldest write leaves the write queue. */
    method HandleWrite()
      requires Valid() && Inv(View(), Capacities()) && wq.contents != []
      modifies wq, wq.entry
      ensures Valid() && Inv(View(), Capacities()) && View() == WriteBack(old(View()))
      ensures wq.contents == old(wq.contents)[1..]
    {
      ghost var m, z := View(), Capacities();
      AddressesLength(wq.contents);
      WriteBackKeepsInv(m, z);
      hide MissRegisters.Valid, PacketFifo.Valid, Flags, Inv;
      wq.Remove();
      assert Addresses(wq.contents) == Addresses(old(wq.contents))[1..];
    }
  }

  lemma AddressesLength(q: seq<Request>)
    ensures |Addresses(q)| == |q|
  {}

  lemma FlagOf(f: map<nat, Miss>, a: nat)
    requires a in f
    ensures a in Flags(f) && Flags(f)[a] == f[a].returned
  {}

  lemma AcceptedKeepsMisses(m: System, z: Sizes, s: Side, a: nat)
    requires FirstLevelMiss(m, z, s, a).Accepted?
    ensures a in Misses(FirstLevelMiss(m, z, s, a).system, s)
  {}
}
