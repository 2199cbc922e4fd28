/** Every step of the two cache levels conserves requests, and exactly when no request is ever refused. */
module CacheRun {
  import opened Counting
  import opened CacheProtocol

  // ---- How the queue changes ----

  lemma AppendedRequest(rq: seq<Request>, r: Request, s: Side, a: nat)
    ensures InQueue(rq + [r], s, a) <==> InQueue(rq, s, a) || (r.address == a && Flagged(r, s))
  {
    var rq' := rq + [r];
    assert rq'[|rq|] == r;
    if i :| 0 <= i < |rq| && rq[i].address == a && Flagged(rq[i], s) {
      assert rq'[i] == rq[i];
    }
  }

  lemma FlaggedRequest(rq: seq<Request>, i: nat, s: Side, s': Side, a: nat)
    requires i < |rq|
    ensures InQueue(rq[i := Flag(rq[i], s)], s', a) <==> InQueue(rq, s', a) || (rq[i].address == a && s' == s)
  {
    var rq' := rq[i := Flag(rq[i], s)];
    assert rq'[i] == Flag(rq[i], s);
    if k :| 0 <= k < |rq| && rq[k].address == a && Flagged(rq[k], s') {
      assert rq'[k].address == a && Flagged(rq'[k], s');
    }
  }

  lemma PoppedRequest(m: System, s: Side, a: nat)
    requires QueueOk(m) && m.rq != []
    ensures InQueue(m.rq[1..], s, a) <==> InQueue(m.rq, s, a) && m.rq[0].address != a
    ensures m.rq[0].address == a ==> (InQueue(m.rq, s, a) <==> Flagged(m.rq[0], s))
  {
    var rq' := m.rq[1..];
    if i :| 0 <= i < |m.rq| && m.rq[i].address == a && Flagged(m.rq[i], s) {
      if i > 0 {
        assert rq'[i - 1] == m.rq[i];
      }
    }
  }

  // ---- The first level ----

  /** The state after a miss is recorded, before its request goes out. */
  function Recorded(m: System, s: Side, a: nat): System { WithMisses(m, s, Misses(m, s)[a := false]) }

  lemma MissConserves(m: System, z: Sizes, s: Side, a: nat, s': Side, b: nat)
    requires Inv(m, z) && CanMiss(m, z, s, a) && FirstLevelMiss(m, z, s, a).Accepted?
    ensures ConservedAt(FirstLevelMiss(m, z, s, a).system, s', b)
  {
    hide QueueOk, MissesOk, Fits, Find;
    var m1, i := Recorded(m, s, a), Find(m.rq, a);
    assert m1.rq == m.rq && m1.wq == m.wq;
    assert ConservedAt(m, s', b) && ConservedAt(m, s, a);
    if a !in m.wq {
      if i < |m.rq| {
        FlaggedRequest(m.rq, i, s, s', b);
      } else {
        AppendedRequest(m.rq, Request(a, s == Instructions, s == Data), s', b);
      }
    }
  }

  /** The queue and the sizes after a miss, by what happens to its request. */
  lemma MissOutcome(m: System, z: Sizes, s: Side, a: nat)
    requires CanMiss(m, z, s, a) && |m.rq| < z.rq
    ensures FirstLevelMiss(m, z, s, a).Accepted?
    ensures var m', i := FirstLevelMiss(m, z, s, a).system, Find(m.rq, a);
      && m'.wq == m.wq && m'.mshr == m.mshr
      && m'.rq == (if a in m.wq then m.rq
                   else if i < |m.rq| then m.rq[i := Flag(m.rq[i], s)]
                   else m.rq + [Request(a, s == Instructions, s == Data)])
      && Misses(m', s) == Misses(m, s)[a := a in m.wq]
      && forall s' :: s' != s ==> Misses(m', s') == Misses(m, s')
  {
    assert Misses(m, s)[a := false][a := true] == Misses(m, s)[a := true];
  }

  lemma MissKeepsQueue(m: System, z: Sizes, s: Side, a: nat)
    requires Inv(m, z) && CanMiss(m, z, s, a) && z.l1i + z.l1d <= z.rq
    ensures FirstLevelMiss(m, z, s, a).Accepted?
    ensures QueueOk(FirstLevelMiss(m, z, s, a).system) && Fits(FirstLevelMiss(m, z, s, a).system, z)
  {
    QueueIsShort(m);
    MissOutcome(m, z, s, a);
    SizeAfterUpdate(Misses(m, s), a, a in m.wq);
    var m' := FirstLevelMiss(m, z, s, a).system;
    hide Conserved, MissesOk, FirstLevelMiss;
    assert Fits(m', z);
    hide Fits;
  }

  lemma MissIsAccepted(m: System, z: Sizes, s: Side, a: nat)
    requires Inv(m, z) && CanMiss(m, z, s, a) && z.l1i + z.l1d <= z.rq
    ensures FirstLevelMiss(m, z, s, a).Accepted? && Inv(FirstLevelMiss(m, z, s, a).system, z)
  {
    MissKeepsQueue(m, z, s, a);
    var m' := FirstLevelMiss(m, z, s, a).system;
    assert m'.mshr == m.mshr by { hide Inv; }
    hide QueueOk, Fits, ConservedAt;
    forall s': Side, b: nat ensures ConservedAt(m', s', b) {
      MissConserves(m, z, s, a, s', b);
    }
  }

  /** After a fill the miss is gone, and its dirty victim waits to be written, behind the older writes. */
  lemma FillLeavesRoom(m: System, z: Sizes, s: Side, a: nat, victim: Option<nat>)
    requires CanFill(m, z, s, a, victim)
    ensures var m' := FirstLevelFill(m, s, a, victim);
      && Misses(m', s) == Misses(m, s) - {a} && (forall s' :: s' != s ==> Misses(m', s') == Misses(m, s'))
      && m'.rq == m.rq && m'.mshr == m.mshr
      && (victim.Some? ==> victim.value in m'.wq)
      && m'.wq == m.wq + (if victim.Some? && victim.value !in m.wq then [victim.value] else [])
  {}

  lemma FirstFillKeepsInv(m: System, z: Sizes, s: Side, a: nat, victim: Option<nat>)
    requires Inv(m, z) && CanFill(m, z, s, a, victim)
    ensures Inv(FirstLevelFill(m, s, a, victim), z)
  {
    var m' := FirstLevelFill(m, s, a, victim);
    FillLeavesRoom(m, z, s, a, victim);
    SizeAfterRemoval(Misses(m, s), a);
    hide FirstLevelFill;
    assert Fits(m', z) by { hide Conserved, QueueOk, MissesOk; }
    forall s': Side, b: nat ensures ConservedAt(m', s', b) {
      assert ConservedAt(m, s', b);
      hide Conserved, QueueOk, MissesOk, Fits, InQueue;
    }
    hide Conserved, ConservedAt;
  }

  lemma SizeAfterRemoval<V>(f: map<nat, V>, a: nat)
    ensures |f - {a}| <= |f|
  {
    assert (f - {a}).Keys == f.Keys - {a} && |f - {a}| == |(f - {a}).Keys| && |f| == |f.Keys|;
  }

  // ---- Answers ----

  predicate Answered(s: Side, forI: bool, forD: bool) { if s == Instructions then forI else forD }

  /** An answer to flagged caches finds their misses, and marks exactly those returned. */
  lemma AnswerFindsMisses(m: System, a: nat, forI: bool, forD: bool)
    requires forI ==> InFlight(m, Instructions, a)
    requires forD ==> InFlight(m, Data, a)
    ensures Answer(m, a, forI, forD).Some?
    ensures var m' := Answer(m, a, forI, forD).value;
      && m'.rq == m.rq && m'.wq == m.wq && m'.mshr == m.mshr && |m'.l1i| == |m.l1i| && |m'.l1d| == |m.l1d|
      && forall s: Side, b: nat ::
           InFlight(m', s, b) <==> InFlight(m, s, b) && !(b == a && Answered(s, forI, forD))
  {
    if forI { assert m.l1i[a := true].Keys == m.l1i.Keys && |m.l1i[a := true]| == |m.l1i[a := true].Keys|; }
    if forD { assert m.l1d[a := true].Keys == m.l1d.Keys && |m.l1d[a := true]| == |m.l1d[a := true].Keys|; }
    assert |m.l1i| == |m.l1i.Keys| && |m.l1d| == |m.l1d.Keys|;
  }

  lemma HeadIsInFlight(m: System, z: Sizes)
    requires Inv(m, z) && m.rq != []
    ensures m.rq[0].forI ==> InFlight(m, Instructions, m.rq[0].address)
    ensures m.rq[0].forD ==> InFlight(m, Data, m.rq[0].address)
  {
    var a := m.rq[0].address;
    assert ConservedAt(m, Instructions, a) && ConservedAt(m, Data, a);
  }

  lemma ReadHitKeepsInv(m: System, z: Sizes)
    requires Inv(m, z) && m.rq != []
    ensures ReadHit(m).Accepted? && Inv(ReadHit(m).system, z)
  {
    var r := m.rq[0];
    HeadIsInFlight(m, z);
    AnswerFindsMisses(m, r.address, r.forI, r.forD);
    hide Answer, InFlight, InQueue;
    var m' := ReadHit(m).system;
    forall s: Side, b: nat ensures ConservedAt(m', s, b) {
      PoppedRequest(m, s, b);
      assert ConservedAt(m, s, b);
    }
  }

  lemma ReadMissConserves(m: System, z: Sizes, s: Side, b: nat)
    requires Inv(m, z) && CanReadMiss(m, z)
    ensures ConservedAt(ReadMiss(m), s, b)
  {
    PoppedRequest(m, s, b);
    assert ConservedAt(m, s, b);
    assert m.rq[0].address in m.mshr ==> MissOk(m.mshr[m.rq[0].address]);
    hide Conserved, QueueOk, MissesOk, Fits, InQueue;
  }

  lemma ReadMissKeepsInv(m: System, z: Sizes)
    requires Inv(m, z) && CanReadMiss(m, z)
    ensures Inv(ReadMiss(m), z)
  {
    var r, m' := m.rq[0], ReadMiss(m);
    forall s: Side, b: nat ensures ConservedAt(m', s, b) {
      ReadMissConserves(m, z, s, b);
    }
    hide Conserved;
    assert r.address in m.mshr ==> MissOk(m.mshr[r.address]);
    SizeAfterUpdate(m.mshr, r.address, m'.mshr[r.address]);
  }

  /**
   A request that misses waits in its miss with everyone who waited there: the miss fills the first
   level, is no prefetch any more, and if its data are back already, they stay.
   */
  lemma RequestJoinsMiss(m: System, z: Sizes)
    requires Inv(m, z) && CanReadMiss(m, z)
    ensures var r, m' := m.rq[0], ReadMiss(m);
      && m'.rq == m.rq[1..] && m'.wq == m.wq && m'.l1i == m.l1i && m'.l1d == m.l1d
      && r.address in m'.mshr && (forall b :: b in m.mshr || b == r.address <==> b in m'.mshr)
      && (forall b :: b in m.mshr && b != r.address ==> m'.mshr[b] == m.mshr[b])
      && (forall s: Side :: InMisses(m', s, r.address) <==> InMisses(m, s, r.address) || Flagged(r, s))
      && m'.mshr[r.address].level == FILL_L1 && !m'.mshr[r.address].isPrefetch
      && m'.mshr[r.address].returned == (r.address in m.mshr && m.mshr[r.address].returned)
  {
    var a := m.rq[0].address;
    assert a in m.mshr ==> MissOk(m.mshr[a]);
    hide Conserved, QueueOk, MissesOk;
  }

  lemma SizeAfterUpdate<V>(f: map<nat, V>, a: nat, v: V)
    ensures |f[a := v]| == if a in f then |f| else |f| + 1
  {
    assert f[a := v].Keys == f.Keys + {a} && |f[a := v]| == |f[a := v].Keys| && |f| == |f.Keys|;
  }

  // ---- The second level ----

  lemma PrefetchKeepsInv(m: System, z: Sizes, a: nat)
    requires Inv(m, z) && CanPrefetch(m, z, a)
    ensures Inv(Prefetch(m, a), z)
  {
    var m' := Prefetch(m, a);
    assert a in m.mshr ==> MissOk(m.mshr[a]);
    SizeAfterUpdate(m.mshr, a, m'.mshr[a]);
    forall s: Side, b: nat ensures ConservedAt(m', s, b) {
      assert ConservedAt(m, s, b);
      hide Inv, InQueue;
    }
  }

  lemma LastLevelKeepsInv(m: System, z: Sizes, a: nat)
    requires Inv(m, z) && a in m.mshr
    ensures Inv(LastLevelReturns(m, a), z)
  {
    var m' := LastLevelReturns(m, a);
    assert MissOk(m.mshr[a]);
    SizeAfterUpdate(m.mshr, a, m'.mshr[a]);
    forall s: Side, b: nat ensures ConservedAt(m', s, b) {
      assert ConservedAt(m, s, b);
      hide Inv, InQueue;
    }
  }

  /** A miss that fills answers exactly the caches that are flagged. */
  lemma SecondFillAnswers(m: System, z: Sizes, a: nat)
    requires Inv(m, z) && CanSecondFill(m, a)
    ensures SecondLevelFill(m, a).Accepted?
    ensures var m' := SecondLevelFill(m, a).system;
      && m'.mshr == m.mshr - {a} && m'.rq == m.rq && m'.wq == m.wq
      && |m'.l1i| == |m.l1i| && |m'.l1d| == |m.l1d|
      && forall s: Side, b: nat ::
           InFlight(m', s, b) <==> InFlight(m, s, b) && !(b == a && MissFlagged(m.mshr[a], s))
  {
    var x := m.mshr[a];
    assert MissOk(x) && ConservedAt(m, Instructions, a) && ConservedAt(m, Data, a);
    hide Conserved, QueueOk, MissesOk, Fits, InQueue;
    AnswerFindsMisses(m, a, x.forI, x.forD);
    hide Answer, InFlight;
  }

  lemma SecondFillKeepsInv(m: System, z: Sizes, a: nat)
    requires Inv(m, z) && CanSecondFill(m, a)
    ensures SecondLevelFill(m, a).Accepted? && Inv(SecondLevelFill(m, a).system, z)
  {
    SecondFillAnswers(m, z, a);
    SizeAfterRemoval(m.mshr, a);
    var m' := SecondLevelFill(m, a).system;
    hide SecondLevelFill, InFlight, InQueue;
    forall s: Side, b: nat ensures ConservedAt(m', s, b) {
      assert ConservedAt(m, s, b);
    }
    hide Conserved;
  }

  lemma WriteBackKeepsInv(m: System, z: Sizes)
    requires Inv(m, z) && m.wq != []
    ensures Inv(WriteBack(m), z)
  {
    forall s: Side, b: nat ensures ConservedAt(WriteBack(m), s, b) {
      assert ConservedAt(m, s, b);
    }
  }

  // ---- Runs ----

  datatype Action =
    | Missing(side: Side, address: nat)
    | Filling(side: Side, address: nat, victim: Option<nat>)
    | Hitting
    | MissingBelow
    | Prefetching(address: nat)
    | Returning(address: nat)
    | FillingBelow(address: nat)
    | Writing

  predicate Enabled(m: System, z: Sizes, c: Action) {
    match c
    case Missing(s, a) => CanMiss(m, z, s, a)
    case Filling(s, a, v) => CanFill(m, z, s, a, v)
    case Hitting => m.rq != []
    case MissingBelow => CanReadMiss(m, z)
    case Prefetching(a) => CanPrefetch(m, z, a)
    case Returning(a) => a in m.mshr
    case FillingBelow(a) => CanSecondFill(m, a)
    case Writing => m.wq != []
  }

  function Step(m: System, z: Sizes, c: Action): Outcome
    requires Enabled(m, z, c)
  {
    match c
    case Missing(s, a) => FirstLevelMiss(m, z, s, a)
    case Filling(s, a, v) => Accepted(FirstLevelFill(m, s, a, v))
    case Hitting => ReadHit(m)
    case MissingBelow => Accepted(ReadMiss(m))
    case Prefetching(a) => Accepted(Prefetch(m, a))
    case Returning(a) => Accepted(LastLevelReturns(m, a))
    case FillingBelow(a) => SecondLevelFill(m, a)
    case Writing => Accepted(WriteBack(m))
  }

  const EMPTY := System(map[], map[], [], [], map[])

  /** The system after these actions, from empty caches; anything but Accepted ends the run. */
  ghost predicate Reaches(z: Sizes, actions: seq<Action>, m: System) {
    if actions == [] then m == EMPTY
    else
      var last := |actions| - 1;
      exists m0: System ::
        Reaches(z, actions[..last], m0) && Enabled(m0, z, actions[last])
        && Step(m0, z, actions[last]) == Accepted(m)
  }

  lemma ReachesNext(z: Sizes, actions: seq<Action>, m: System, c: Action, m': System)
    requires Reaches(z, actions, m) && Enabled(m, z, c) && Step(m, z, c) == Accepted(m')
    ensures Reaches(z, actions + [c], m')
  {
    hide Step, Enabled;
    assert (actions + [c])[..|actions|] == actions;
  }

  lemma StepKeepsInv(m: System, z: Sizes, c: Action)
    requires Inv(m, z) && Enabled(m, z, c) && z.l1i + z.l1d <= z.rq
    ensures Step(m, z, c).Accepted? && Inv(Step(m, z, c).system, z)
  {
    hide Inv, CanMiss, CanFill, CanReadMiss, CanPrefetch, CanSecondFill;
    match c
    case Missing(s, a) => MissIsAccepted(m, z, s, a);
    case Filling(s, a, v) => FirstFillKeepsInv(m, z, s, a, v);
    case Hitting => ReadHitKeepsInv(m, z);
    case MissingBelow => ReadMissKeepsInv(m, z);
    case Prefetching(a) => PrefetchKeepsInv(m, z, a);
    case Returning(a) => LastLevelKeepsInv(m, z, a);
    case FillingBelow(a) => SecondFillKeepsInv(m, z, a);
    case Writing => WriteBackKeepsInv(m, z);
  }

  lemma {:induction false} RunKeepsInv(z: Sizes, actions: seq<Action>, m: System)
    requires Reaches(z, actions, m) && z.l1i + z.l1d <= z.rq
    ensures Inv(m, z)
  {
    hide Inv, Step, Enabled;
    if actions == [] {
      EmptyInv(z);
    } else {
      var last := |actions| - 1;
      var m0: System :|
        Reaches(z, actions[..last], m0) && Enabled(m0, z, actions[last])
        && Step(m0, z, actions[last]) == Accepted(m);
      RunKeepsInv(z, actions[..last], m0);
      StepKeepsInv(m0, z, actions[last]);
    }
  }

  lemma EmptyInv(z: Sizes)
    ensures Inv(EMPTY, z)
  {}

  /**
   In every reachable state each miss in flight has exactly one request on its way, and every enabled
   step is accepted: no request is refused and every answer finds its miss. The simulated sizes qualify.
   */
  lemma RequestsAreConserved(actions: seq<Action>, m: System, c: Action)
    requires Reaches(SIMULATED, actions, m) && Enabled(m, SIMULATED, c)
    ensures Conserved(m) && |m.rq| <= 24 && Step(m, SIMULATED, c).Accepted?
  {
    RunKeepsInv(SIMULATED, actions, m);
    QueueIsShort(m);
    StepKeepsInv(m, SIMULATED, c);
  }

  // ---- What prefetches leave behind ----

  /** A prefetch is in flight afterwards; it is a miss of its own, or lowers the level of the one that is there. */
  lemma PrefetchIsInFlight(m: System, a: nat)
    ensures var m' := Prefetch(m, a);
      && a in m'.mshr && m'.l1i == m.l1i && m'.l1d == m.l1d && m'.rq == m.rq && m'.wq == m.wq
      && (forall b :: b != a ==> (b in m'.mshr <==> b in m.mshr) && (b in m.mshr ==> m'.mshr[b] == m.mshr[b]))
      && (a !in m.mshr ==> m'.mshr[a].isPrefetch && !m'.mshr[a].returned && m'.mshr[a].level == FILL_L2)
      && (a in m.mshr ==>
            && m'.mshr[a].level <= FILL_L2 && m'.mshr[a].level <= m.mshr[a].level
            && m'.mshr[a] == m.mshr[a].(level := m'.mshr[a].level))
  {}

  // ---- Every miss can be answered ----

  /** The data of the miss have returned. */
  predicate HasReturned(m: System, s: Side, a: nat) { a in Misses(m, s) && Misses(m, s)[a] }

  /** A hit on the oldest request answers it, or brings every other request one place forward. */
  lemma HitComesCloser(m: System, z: Sizes, s: Side, a: nat)
    requires Inv(m, z) && InFlight(m, s, a) && InQueue(m.rq, s, a)
    ensures m.rq != [] && ReadHit(m).Accepted?
    ensures var m' := ReadHit(m).system;
      && Inv(m', z) && |m'.rq| == |m.rq| - 1
      && (HasReturned(m', s, a) || (InFlight(m', s, a) && InQueue(m'.rq, s, a)))
  {
    HeadIsInFlight(m, z);
    ReadHitKeepsInv(m, z);
    PoppedRequest(m, s, a);
    HitReturns(m, z, s, a);
    hide Inv, InQueue;
  }

  lemma HitReturns(m: System, z: Sizes, s: Side, a: nat)
    requires Inv(m, z) && m.rq != [] && InFlight(m, s, a)
    ensures ReadHit(m).Accepted?
    ensures var m' := ReadHit(m).system;
      && m'.rq == m.rq[1..]
      && if m.rq[0].address == a && Flagged(m.rq[0], s) then HasReturned(m', s, a) else InFlight(m', s, a)
  {
    HeadIsInFlight(m, z);
    hide Inv;
  }

  lemma {:induction false} QueuedMissIsAnswered(
      z: Sizes, actions: seq<Action>, m: System, s: Side, a: nat) returns (more: seq<Action>, m': System)
    requires Reaches(z, actions, m) && Inv(m, z) && InFlight(m, s, a) && InQueue(m.rq, s, a)
    ensures Reaches(z, actions + more, m') && HasReturned(m', s, a)
    decreases |m.rq|
  {
    hide Reaches, Inv, InQueue, InFlight, HasReturned;
    var next := HitExtends(z, actions, m, s, a);
    if HasReturned(next, s, a) {
      more, m' := [Hitting], next;
    } else {
      more, m' := QueuedMissIsAnswered(z, actions + [Hitting], next, s, a);
      assert actions + [Hitting] + more == actions + ([Hitting] + more);
      more := [Hitting] + more;
    }
  }

  lemma HitExtends(z: Sizes, actions: seq<Action>, m: System, s: Side, a: nat) returns (next: System)
    requires Reaches(z, actions, m) && Inv(m, z) && InFlight(m, s, a) && InQueue(m.rq, s, a)
    ensures Reaches(z, actions + [Hitting], next) && Inv(next, z) && |next.rq| < |m.rq|
    ensures HasReturned(next, s, a) || (InFlight(next, s, a) && InQueue(next.rq, s, a))
  {
    HitComesCloser(m, z, s, a);
    next := ReadHit(m).system;
    hide Reaches, Inv, InQueue, InFlight, HasReturned, ReadHit;
    ReachesNext(z, actions, m, Hitting, next);
  }

  /** A second-level miss that answers this one: its data return, and it fills. */
  lemma FillAnswers(m: System, z: Sizes, s: Side, a: nat)
    requires Inv(m, z) && InFlight(m, s, a) && InMisses(m, s, a)
    ensures var r := LastLevelReturns(m, a);
      && CanSecondFill(r, a) && SecondLevelFill(r, a).Accepted?
      && HasReturned(SecondLevelFill(r, a).system, s, a)
  {
    LastLevelKeepsInv(m, z, a);
    var r := LastLevelReturns(m, a);
    SecondFillAnswers(r, z, a);
    assert MissOk(m.mshr[a]);
    hide Inv;
  }

  /** From every reachable state, every miss in flight can be answered by the second level alone. */
  lemma EveryMissCanBeAnswered(z: Sizes, actions: seq<Action>, m: System, s: Side, a: nat)
    returns (more: seq<Action>, m': System)
    requires Reaches(z, actions, m) && z.l1i + z.l1d <= z.rq && InFlight(m, s, a)
    ensures Reaches(z, actions + more, m') && HasReturned(m', s, a)
  {
    RunKeepsInv(z, actions, m);
    assert ConservedAt(m, s, a);
    if InQueue(m.rq, s, a) {
      more, m' := QueuedMissIsAnswered(z, actions, m, s, a);
    } else {
      more, m' := FilledMissIsAnswered(z, actions, m, s, a);
    }
  }

  lemma FilledMissIsAnswered(
      z: Sizes, actions: seq<Action>, m: System, s: Side, a: nat) returns (more: seq<Action>, m': System)
    requires Reaches(z, actions, m) && Inv(m, z) && InFlight(m, s, a) && InMisses(m, s, a)
    ensures Reaches(z, actions + more, m') && HasReturned(m', s, a)
  {
    var r: System;
    r, m' := FillSteps(m, z, s, a);
    hide Inv, Reaches, Step, Enabled, HasReturned;
    ReachesNext(z, actions, m, Returning(a), r);
    ReachesNext(z, actions + [Returning(a)], r, FillingBelow(a), m');
    more := [Returning(a), FillingBelow(a)];
    assert actions + [Returning(a)] + [FillingBelow(a)] == actions + more;
  }

  lemma FillSteps(m: System, z: Sizes, s: Side, a: nat) returns (r: System, m': System)
    requires Inv(m, z) && InFlight(m, s, a) && InMisses(m, s, a)
    ensures Enabled(m, z, Returning(a)) && Step(m, z, Returning(a)) == Accepted(r)
    ensures Enabled(r, z, FillingBelow(a)) && Step(r, z, FillingBelow(a)) == Accepted(m')
    ensures HasReturned(m', s, a)
  {
    FillAnswers(m, z, s, a);
    hide Inv, InFlight, SecondLevelFill, HasReturned;
    r := LastLevelReturns(m, a);
    m' := SecondLevelFill(r, a).system;
  }

  // ---- The sizes for which no request is ever refused ----

  ghost predicate NeverRefuses(z: Sizes) {
    forall actions: seq<Action>, m: System, c: Action ::
      Reaches(z, actions, m) && Enabled(m, z, c) ==> Step(m, z, c) != Full
  }

  /** n misses to different addresses, the instruction cache first. */
  function Flood(z: Sizes, n: nat): seq<Action> {
    if n == 0 then [] else Flood(z, n - 1) + [FloodAction(z, n)]
  }

  /** The flood fills the read queue, as long as it has room. */
  lemma {:induction false} FloodReaches(z: Sizes, n: nat) returns (m: System)
    requires n <= z.rq && n <= z.l1i + z.l1d
    ensures Reaches(z, Flood(z, n), m) && IsFlooded(m, z, n)
  {
    hide Step, Enabled;
    if n == 0 {
      m := EMPTY;
    } else {
      var m0 := FloodReaches(z, n - 1);
      FloodStep(m0, z, n);
      m := Step(m0, z, FloodAction(z, n)).system;
      ReachesNext(z, Flood(z, n - 1), m0, FloodAction(z, n), m);
    }
  }

  function FloodAction(z: Sizes, n: nat): Action { Missing(if n <= z.l1i then Instructions else Data, n) }

  /** Nothing but the misses 1..n happened, and all their requests are in the queue. */
  ghost predicate IsFlooded(m: System, z: Sizes, n: nat) {
    && m.wq == [] && |m.rq| == n && (forall k :: 0 <= k < n ==> m.rq[k].address == k + 1)
    && |m.l1i| == (if n <= z.l1i then n else z.l1i) && |m.l1d| == n - |m.l1i|
    && (forall s: Side, a: nat :: a in Misses(m, s) ==> a <= n)
  }

  lemma FloodStep(m: System, z: Sizes, n: nat)
    requires 0 < n <= z.rq && n <= z.l1i + z.l1d && IsFlooded(m, z, n - 1)
    ensures Enabled(m, z, FloodAction(z, n)) && Step(m, z, FloodAction(z, n)).Accepted?
    ensures IsFlooded(Step(m, z, FloodAction(z, n)).system, z, n)
  {
    var s := FloodAction(z, n).side;
    MissOutcome(m, z, s, n);
    SizeAfterUpdate(Misses(m, s), n, false);
    hide FirstLevelMiss;
  }

  /** No request is ever refused exactly when the read queue has a place for every first-level miss. */
  lemma NeverRefusesIff(z: Sizes)
    ensures NeverRefuses(z) <==> z.l1i + z.l1d <= z.rq
  {
    if z.l1i + z.l1d <= z.rq {
      forall actions: seq<Action>, m: System, c: Action | Reaches(z, actions, m) && Enabled(m, z, c)
        ensures Step(m, z, c) != Full
      {
        RunKeepsInv(z, actions, m);
        StepKeepsInv(m, z, c);
      }
    } else {
      var m := FloodReaches(z, z.rq);
      var c := FloodAction(z, z.rq + 1);
      assert Enabled(m, z, c) && Step(m, z, c) == Full;
    }
  }
}
