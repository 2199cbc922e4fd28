/** Whole runs of the reorder buffer, under any timing of its stages. */
module WakeupRun {
  import opened CoreTypes
  import opened WakeupModel
  import opened WakeupInvariant

  /** What one stage of the core does to one instruction. */
  datatype Action =
    | Dispatching(instr: Instr)
    | Scheduling(index: nat)
    | IssuingReleased
    | IssuingScheduled
    | StartingMemory(index: nat)
    | Completing(index: nat)
    | Retiring

  /** The guards under which the stages act. */
  ghost predicate Enabled(m: Core, a: Action) {
    match a
    case Dispatching(_) => m.occupancy < |m.rob|
    case Scheduling(c) => CanSchedule(m, c)
    case IssuingReleased => m.rte0 != [] && m.rte0[0] < |m.rob|
    case IssuingScheduled => m.rte1 != [] && m.rte1[0] < |m.rob|
    case StartingMemory(c) => CanStartMemory(m, c)
    case Completing(c) => CanComplete(m, c)
    case Retiring => CanRetire(m)
  }

  ghost function Step(m: Core, a: Action): Core
    requires Shape(m) && Enabled(m, a)
  {
    match a
    case Dispatching(x) => Dispatch(m, x)
    case Scheduling(c) => Schedule(m, c)
    case IssuingReleased => Issue0(m)
    case IssuingScheduled => Issue1(m)
    case StartingMemory(c) => StartMemory(m, c)
    case Completing(c) => Complete(m, c)
    case Retiring => Retire(m)
  }

  function EmptyCore(size: nat): Core {
    Core(seq(size, i => EMPTY_ENTRY), 0, 0, 0, [], [])
  }

  /** states[k + 1] results from states[k] by actions[k]; the buffer starts empty. */
  ghost predicate IsRun(states: seq<Core>, actions: seq<Action>) {
    && |states| == |actions| + 1
    && |states[0].rob| > 0 && states[0] == EmptyCore(|states[0].rob|)
    && forall k :: 0 <= k < |actions| ==>
         Shape(states[k]) && Enabled(states[k], actions[k]) && states[k + 1] == Step(states[k], actions[k])
  }

  lemma EmptyCoreInv(size: nat)
    requires size > 0
    ensures Inv(EmptyCore(size))
  {
    var m := EmptyCore(size);
    assert forall p: nat, j: nat, c: nat :: p < |m.rob| ==> !Awaits(m.rob[p], j, c);
  }

  lemma StepKeepsInv(m: Core, a: Action)
    requires Inv(m) && Enabled(m, a)
    ensures Inv(Step(m, a)) && |Step(m, a).rob| == |m.rob|
  {
    hide FlagsOk, InOrder, LinksOk, CountsOk, WritersOk, RingsOk, CanSchedule, Schedule, Complete;
    match a
    case Dispatching(x) => DispatchKeepsInv(m, x);
    case Scheduling(c) => ScheduleKeepsInv(m, c); ScheduleSize(m, c);
    case IssuingReleased => Issue0KeepsInv(m);
    case IssuingScheduled => Issue1KeepsInv(m);
    case StartingMemory(c) => StartMemoryKeepsInv(m, c);
    case Completing(c) => CompleteKeepsInv(m, c); CompleteSize(m, c);
    case Retiring => RetireKeepsInv(m);
  }

  lemma ScheduleSize(m: Core, c: nat)
    requires Inv(m) && CanSchedule(m, c)
    ensures |Schedule(m, c).rob| == |m.rob|
  {}

  lemma CompleteSize(m: Core, c: nat)
    requires Inv(m) && CanComplete(m, c)
    ensures |Complete(m, c).rob| == |m.rob|
  {}

  /** Every reachable state satisfies the invariant. */
  lemma {:induction false} RunKeepsInv(states: seq<Core>, actions: seq<Action>, k: nat)
    requires IsRun(states, actions) && k < |states|
    ensures Inv(states[k]) && |states[k].rob| == |states[0].rob|
  {
    hide Inv, Step, Enabled;
    if k == 0 {
      EmptyCoreInv(|states[0].rob|);
    } else {
      RunKeepsInv(states, actions, k - 1);
      StepKeepsInv(states[k - 1], actions[k - 1]);
      assert states[k - 1 + 1] == Step(states[k - 1], actions[k - 1]);
    }
  }

  /**
   In every reachable state, for every instruction c in the buffer:
   its counter is the number of uncompleted producers and slots that name it, it is ready iff there are
   none, and once it has started the youngest older writer of each of its sources has completed.
   */
  lemma WakeupIsExact(states: seq<Core>, actions: seq<Action>, k: nat, c: nat)
    requires IsRun(states, actions) && k < |states| && Live(states[k], c)
    ensures var m := states[k];
      && m.rob[c].numDependent == |Pairs(m.rob, c)|
      && (m.rob[c].scheduled != NotYet ==> (m.rob[c].regReady <==> Pairs(m.rob, c) == {}))
      && (m.rob[c].executed != NotYet ==>
            forall j: nat, w: nat :: j < NUM_SOURCES && YoungestWriter(m, w, c, m.rob[c].instr.sources[j]) ==>
              m.rob[w].executed == Completed)
  {
    var m := states[k];
    RunKeepsInv(states, actions, k);
    LiveEntryOk(m, c);
    if m.rob[c].executed != NotYet {
      forall j: nat, w: nat | j < NUM_SOURCES && YoungestWriter(m, w, c, m.rob[c].instr.sources[j])
        ensures m.rob[w].executed == Completed
      {
        StartsAfterItsWriters(m, c, j, w);
      }
    }
  }

  // ---- Every instruction enters the rings once ----

  /** The indices that an action appends to the two rings. */
  ghost function Pushes(m: Core, a: Action): (s: seq<nat>)
    requires Shape(m) && Enabled(m, a)
  {
    match a
    case Scheduling(c) => if Schedule(m, c).rte1 == m.rte1 then [] else [c]
    case Completing(c) =>
      if m.rob[c].isProducer then
        var rob := m.rob[c := m.rob[c].(executed := Completed)];
        Woken(rob, rob[c], |rob|)
      else []
    case _ => []
  }

  /** A non-memory instruction that has become ready, whether or not it has started since. */
  predicate Entered(e: Entry) { e.live && !e.instr.isMemory && e.scheduled == Completed && e.regReady }

  function One(b: bool): nat { if b then 1 else 0 }

  /** Unless an action retires an index, it puts it in a ring exactly when its instruction becomes ready. */
  lemma PushedWhenEntered(m: Core, a: Action, i: nat)
    requires Inv(m) && Enabled(m, a) && i < |m.rob| && !(a.Retiring? && i == m.head)
    ensures |Step(m, a).rob| == |m.rob|
    ensures One(Entered(Step(m, a).rob[i])) == One(Entered(m.rob[i])) + multiset(Pushes(m, a))[i]
  {
    StepKeepsInv(m, a);
    match a
    case Dispatching(x) => DispatchKeepsInv(m, x);
    case Scheduling(c) => PushedByScheduling(m, c, i);
    case IssuingReleased => Issue0KeepsInv(m);
    case IssuingScheduled => Issue1KeepsInv(m);
    case StartingMemory(c) =>
    case Completing(c) => PushedByCompletion(m, c, i);
    case Retiring =>
  }

  lemma PushedByScheduling(m: Core, c: nat, i: nat)
    requires Inv(m) && CanSchedule(m, c) && i < |m.rob|
    ensures |Schedule(m, c).rob| == |m.rob|
    ensures One(Entered(Schedule(m, c).rob[i]))
         == One(Entered(m.rob[i])) + multiset(Pushes(m, Scheduling(c)))[i]
  {
    hide Schedule, InOrder, LinksOk, CountsOk, WritersOk, RingsOk;
    ScheduleKeepsSize(m, c);
    ScheduledEntry(m, c, i);
    ScheduledEntry(m, c, c);
    LiveEntryOk(m, c);
    UnscheduledNotStarted(m, c);
    assert |m.rte1 + [c]| != |m.rte1|;
  }

  lemma PushedByCompletion(m: Core, c: nat, i: nat)
    requires Inv(m) && CanComplete(m, c) && i < |m.rob|
    ensures |Complete(m, c).rob| == |m.rob|
    ensures One(Entered(Complete(m, c).rob[i]))
         == One(Entered(m.rob[i])) + multiset(Pushes(m, Completing(c)))[i]
  {
    hide Complete, Wakes;
    CompleteSize(m, c);
    WokenBecomesReady(m, c, i);
    CompletedEntryOk(m, c, i);
    LiveEntryOk(m, i);
    AscendingCountsAll(Pushes(m, Completing(c)));
  }

  /** How often index i is put in a ring by the actions a..b-1 of a run. */
  ghost function TimesPushed(states: seq<Core>, actions: seq<Action>, i: nat, a: nat, b: nat): nat
    requires IsRun(states, actions) && a <= b <= |actions|
  {
    if a == b then 0
    else TimesPushed(states, actions, i, a, b - 1) + multiset(Pushes(states[b - 1], actions[b - 1]))[i]
  }

  /** Index i is not retired by the actions a..b-1. */
  ghost predicate Kept(states: seq<Core>, actions: seq<Action>, i: nat, a: nat, b: nat)
    requires IsRun(states, actions) && a <= b <= |actions|
  {
    forall k :: a <= k < b ==> !(actions[k].Retiring? && states[k].head == i)
  }

  lemma {:induction false} PushesAddUp(states: seq<Core>, actions: seq<Action>, i: nat, a: nat, b: nat)
    requires IsRun(states, actions) && a <= b <= |actions| && i < |states[0].rob|
    requires Kept(states, actions, i, a, b)
    ensures |states[a].rob| == |states[b].rob| == |states[0].rob|
    ensures One(Entered(states[b].rob[i])) == One(Entered(states[a].rob[i])) + TimesPushed(states, actions, i, a, b)
  {
    hide Inv, Step, Enabled, Entered, Pushes;
    RunKeepsInv(states, actions, a);
    RunKeepsInv(states, actions, b);
    if a < b {
      RunKeepsInv(states, actions, b - 1);
      PushesAddUp(states, actions, i, a, b - 1);
      PushedWhenEntered(states[b - 1], actions[b - 1], i);
      assert states[b - 1 + 1] == Step(states[b - 1], actions[b - 1]);
    }
  }

  /**
   From its dispatch (action a) to its retirement (action b) an instruction is put in a ring exactly
   once if it is not a memory instruction, and never if it is.
   */
  lemma EntersRingsOnce(states: seq<Core>, actions: seq<Action>, i: nat, a: nat, b: nat)
    requires IsRun(states, actions) && a < b < |actions|
    requires actions[a].Dispatching? && states[a].tail == i
    requires actions[b].Retiring? && states[b].head == i
    requires Kept(states, actions, i, a + 1, b)
    ensures i < |states[b].rob|
    ensures TimesPushed(states, actions, i, a + 1, b) == if states[b].rob[i].instr.isMemory then 0 else 1
  {
    hide Inv, Enabled, Step, Entered, Pushes;
    RunKeepsInv(states, actions, a);
    RunKeepsInv(states, actions, b);
    DispatchedHasNotEntered(states[a], actions[a]);
    assert states[a + 1] == Step(states[a], actions[a]);
    PushesAddUp(states, actions, i, a + 1, b);
    RetiringHasEntered(states[b], actions[b]);
  }

  lemma DispatchedHasNotEntered(m: Core, a: Action)
    requires Inv(m) && Enabled(m, a) && a.Dispatching?
    ensures m.tail < |m.rob| == |Step(m, a).rob| && !Entered(Step(m, a).rob[m.tail])
  {}

  lemma RetiringHasEntered(m: Core, a: Action)
    requires Inv(m) && Enabled(m, a) && a.Retiring?
    ensures m.head < |m.rob| && (Entered(m.rob[m.head]) <==> !m.rob[m.head].instr.isMemory)
  {
    LiveEntryOk(m, m.head);
  }

  /** A ring slot is free whenever an index is put in a ring: that index is in neither ring. */
  lemma PushFindsRoom(m: Core, a: Action)
    requires Inv(m) && Enabled(m, a)
    ensures |m.rte0| + |m.rte1| + |Pushes(m, a)| <= |m.rob|
  {
    hide Wakes;
    StepKeepsInv(m, a);
    RingsFit(m);
    RingsFit(Step(m, a));
    match a
    case Scheduling(c) => ScheduleKeepsSize(m, c);
    case _ =>
  }

  // ---- The buffer is a queue in program order ----

  /** The instructions in the buffer, oldest first. */
  function Buffered(m: Core): (b: seq<Instr>)
    requires Shape(m)
    ensures |b| == m.occupancy
  {
    seq(m.occupancy, a requires 0 <= a < m.occupancy => m.rob[At(m.head, |m.rob|, a)].instr)
  }

  /** Dispatch appends an instruction, retirement removes the oldest, and no other action touches the order. */
  lemma ActionsKeepProgramOrder(m: Core, a: Action)
    requires Inv(m) && Enabled(m, a)
    ensures Shape(Step(m, a))
    ensures Buffered(Step(m, a)) ==
      match a
      case Dispatching(x) => Buffered(m) + [x]
      case Retiring => Buffered(m)[1..]
      case _ => Buffered(m)
  {
    StepKeepsInv(m, a);
    match a
    case Dispatching(x) => DispatchAppends(m, x);
    case Retiring => RetireDropsFirst(m);
    case Scheduling(c) => SchedulingKeepsInstrs(m, c); SameInstrsSameOrder(m, Schedule(m, c));
    case Completing(c) => CompletionKeepsInstrs(m, c); SameInstrsSameOrder(m, Complete(m, c));
    case _ => SameInstrsSameOrder(m, Step(m, a));
  }

  lemma DispatchAppends(m: Core, x: Instr)
    requires Shape(m) && m.occupancy < |m.rob|
    ensures Shape(Dispatch(m, x)) && Buffered(Dispatch(m, x)) == Buffered(m) + [x]
  {}

  lemma RetireDropsFirst(m: Core)
    requires Shape(m) && m.occupancy > 0
    ensures Shape(Retire(m)) && Buffered(Retire(m)) == Buffered(m)[1..]
  {
    forall a | 0 <= a < m.occupancy - 1 ensures Buffered(Retire(m))[a] == Buffered(m)[a + 1] {
      assert At(Retire(m).head, |m.rob|, a) == At(m.head, |m.rob|, a + 1) != m.head;
    }
  }

  lemma SchedulingKeepsInstrs(m: Core, c: nat)
    requires Inv(m) && CanSchedule(m, c)
    ensures var m' := Schedule(m, c);
      && |m'.rob| == |m.rob| && m'.head == m.head && m'.occupancy == m.occupancy && m'.tail == m.tail
      && forall i :: 0 <= i < |m.rob| ==> m'.rob[i].instr == m.rob[i].instr
  {
    hide Schedule, FlagsOk, InOrder, LinksOk, CountsOk, WritersOk, RingsOk;
    ScheduleKeepsSize(m, c);
    forall i | 0 <= i < |m.rob| ensures Schedule(m, c).rob[i].instr == m.rob[i].instr {
      ScheduledEntry(m, c, i);
    }
  }

  lemma CompletionKeepsInstrs(m: Core, c: nat)
    requires Inv(m) && CanComplete(m, c)
    ensures var m' := Complete(m, c);
      && |m'.rob| == |m.rob| && m'.head == m.head && m'.occupancy == m.occupancy && m'.tail == m.tail
      && forall i :: 0 <= i < |m.rob| ==> m'.rob[i].instr == m.rob[i].instr
  {
    CompleteSize(m, c);
    assert Complete(m, c).head == m.head && Complete(m, c).occupancy == m.occupancy && Complete(m, c).tail == m.tail;
    hide Complete, Inv;
    forall i | 0 <= i < |m.rob| ensures Complete(m, c).rob[i].instr == m.rob[i].instr {
      CompletedEntryOk(m, c, i);
    }
  }

  lemma SameInstrsSameOrder(m: Core, m': Core)
    requires Shape(m) && |m'.rob| == |m.rob| && m'.head == m.head && m'.occupancy == m.occupancy && m'.tail == m.tail
    requires forall i :: 0 <= i < |m.rob| ==> m'.rob[i].instr == m.rob[i].instr
    ensures Shape(m') && Buffered(m') == Buffered(m)
  {
    forall a | 0 <= a < m.occupancy ensures Buffered(m')[a] == Buffered(m)[a] {
      AgesInvert(m.head, |m.rob|, a);
    }
  }

  /** The instructions dispatched by the first n actions. */
  function Dispatched(actions: seq<Action>, n: nat): seq<Instr>
    requires n <= |actions|
  {
    if n == 0 then []
    else Dispatched(actions, n - 1) + (if actions[n - 1].Dispatching? then [actions[n - 1].instr] else [])
  }

  /** The instructions retired by the first n actions. */
  ghost function Retired(states: seq<Core>, actions: seq<Action>, n: nat): seq<Instr>
    requires IsRun(states, actions) && n <= |actions|
  {
    if n == 0 then []
    else
      Retired(states, actions, n - 1)
      + (if actions[n - 1].Retiring? && states[n - 1].head < |states[n - 1].rob|
         then [states[n - 1].rob[states[n - 1].head].instr] else [])
  }

  /** In every run the retired instructions, followed by those in the buffer, are the dispatched ones in order. */
  lemma {:induction false} InstructionsStayInOrder(states: seq<Core>, actions: seq<Action>, n: nat)
    requires IsRun(states, actions) && n <= |actions|
    ensures Shape(states[n])
    ensures Retired(states, actions, n) + Buffered(states[n]) == Dispatched(actions, n)
  {
    hide Inv, Enabled, Step;
    RunKeepsInv(states, actions, n);
    InvShape(states[n]);
    if n > 0 {
      InstructionsStayInOrder(states, actions, n - 1);
      RunKeepsInv(states, actions, n - 1);
      var m, a := states[n - 1], actions[n - 1];
      assert states[n - 1 + 1] == Step(m, a);
      ActionsKeepProgramOrder(m, a);
      if a.Retiring? {
        RetiringIsOldest(m, a);
      }
    }
  }

  lemma InvShape(m: Core)
    requires Inv(m)
    ensures Shape(m)
  {}

  /** Only a completed instruction retires, and it is the oldest. */
  lemma RetiringIsOldest(m: Core, a: Action)
    requires Inv(m) && Enabled(m, a) && a.Retiring?
    ensures m.head < |m.rob| && m.rob[m.head].executed == Completed
    ensures Shape(m) && Buffered(m) == [m.rob[m.head].instr] + Buffered(m)[1..]
  {
    assert At(m.head, |m.rob|, 0) == m.head;
  }

  /** How far an instruction that stays in the buffer has got: only its own action moves it on. */
  lemma ActionsMoveTheirInstruction(m: Core, a: Action, i: nat)
    requires Inv(m) && Enabled(m, a) && Live(m, i) && !(a.Retiring? && i == m.head)
    ensures i < |Step(m, a).rob|
    ensures Step(m, a).rob[i].executed ==
      if a == Completing(i) then Completed
      else if a == StartingMemory(i) then Inflight
      else if a == IssuingReleased && i == m.rte0[0] then Inflight
      else if a == IssuingScheduled && i == m.rte1[0] then Inflight
      else m.rob[i].executed
    ensures Step(m, a).rob[i].scheduled == NotYet <==> m.rob[i].scheduled == NotYet && a != Scheduling(i)
  {
    hide LinksOk, CountsOk, WritersOk, RingsOk, InOrder;
    StepKeepsInv(m, a);
    LiveEntryOk(m, i);
    match a
    case Scheduling(c) => hide Schedule; ScheduledEntry(m, c, i);
    case Completing(c) => hide Complete; CompletedEntryOk(m, c, i);
    case Dispatching(x) => DispatchedLiveness(m, x, i);
    case _ =>
  }

  /** A dispatched instruction starts out unscheduled. */
  lemma DispatchedIsUnscheduled(m: Core, x: Instr)
    requires Inv(m) && m.occupancy < |m.rob|
    ensures m.tail < |m.rob|
    ensures Dispatch(m, x).rob[m.tail].scheduled == NotYet && Dispatch(m, x).rob[m.tail].executed == NotYet
    ensures Dispatch(m, x).rob[m.tail].instr == x
  {
    DispatchedLiveness(m, x, m.tail);
  }
}
