/**
 The call-stack feature: what can be tracked from the functions of the executed instructions alone, for
 every balanced trace of calls and returns, with recursion, library code and calls back from it.
 */
module CallStack {
  import opened Counting

  /** A function of the user program; library code has no function. */
  type Frame = Option<nat>

  datatype Kind = Plain | Call(target: Frame) | Return

  /** What is known of an executed instruction: its function, and whether it calls or returns. */
  datatype Instr = Instr(func: Frame, isCall: bool, isReturn: bool)

  // ---- The program ----

  /** The frames after an instruction; the root frame never returns. */
  function Execute(frames: seq<Frame>, k: Kind): (r: seq<Frame>)
    requires CanExecute(frames, k)
    ensures r != []
  {
    match k
    case Plain => frames
    case Call(g) => frames + [g]
    case Return => frames[..|frames| - 1]
  }

  predicate CanExecute(frames: seq<Frame>, k: Kind) { frames != [] && (k.Return? ==> |frames| > 1) }

  /** Library instructions show neither calls nor returns. */
  function Seen(frames: seq<Frame>, k: Kind): Instr
    requires frames != []
  {
    var f := frames[|frames| - 1];
    Instr(f, f.Some? && k.Call?, f.Some? && k.Return?)
  }

  // ---- The tracker ----

  datatype Tracker = Tracker(stack: seq<nat>, prevFunc: Frame, prevCall: bool, prevReturn: bool)

  const START := Tracker([], None, false, false)

  function Observe(t: Tracker, x: Instr): Tracker {
    var stack :=
      if t.prevFunc.Some? && x.func.Some? && t.prevFunc != x.func then
        if t.prevCall then t.stack + [x.func.value]
        else if t.prevReturn && t.stack != [] then t.stack[..|t.stack| - 1]
        else t.stack
      else t.stack;
    Tracker(stack, x.func, x.isCall, x.isReturn)
  }

  // ---- What is tracked ----

  /** Frame y, called from frame x, can be told from its caller. */
  predicate Visible(x: Frame, y: Frame) { x.Some? && y.Some? && x != y }

  /** The functions of the visible frames, oldest first. */
  function Tracked(frames: seq<Frame>): seq<nat> {
    if |frames| < 2 then []
    else
      var n := |frames| - 1;
      Tracked(frames[..n]) + (if Visible(frames[n - 1], frames[n]) then [frames[n].value] else [])
  }

  /** The frames in which instruction n of the trace runs. */
  function FramesAt(root: Frame, trace: seq<Kind>, n: nat): (r: seq<Frame>)
    requires n <= |trace|
    ensures r != []
  {
    if n == 0 then [root]
    else
      var frames := FramesAt(root, trace, n - 1);
      if CanExecute(frames, trace[n - 1]) then Execute(frames, trace[n - 1]) else frames
  }

  /** Every instruction of the trace can execute, so calls and returns are balanced above the root. */
  ghost predicate IsBalanced(root: Frame, trace: seq<Kind>) {
    forall n :: 0 <= n < |trace| ==> CanExecute(FramesAt(root, trace, n), trace[n])
  }

  /** The tracker after the first n instructions. */
  function TrackerAt(root: Frame, trace: seq<Kind>, n: nat): Tracker
    requires n <= |trace|
  {
    if n == 0 then START
    else Observe(TrackerAt(root, trace, n - 1), Seen(FramesAt(root, trace, n - 1), trace[n - 1]))
  }

  /** The tracked stack after instruction n is the visible frames of the stack in which it ran. */
  ghost predicate TracksAt(root: Frame, trace: seq<Kind>, n: nat)
    requires n < |trace|
  {
    var t, frames := TrackerAt(root, trace, n + 1), FramesAt(root, trace, n);
    && t.stack == Tracked(frames) && t.prevFunc == frames[|frames| - 1]
    && (t.prevFunc.Some? ==> t.prevCall == trace[n].Call? && t.prevReturn == trace[n].Return?)
  }

  /** In every balanced trace the tracked stack is exactly the visible frames, after every instruction. */
  lemma {:induction false} TracksVisibleFrames(root: Frame, trace: seq<Kind>, n: nat)
    requires IsBalanced(root, trace) && n < |trace|
    ensures TracksAt(root, trace, n)
  {
    if n > 0 {
      TracksVisibleFrames(root, trace, n - 1);
      assert CanExecute(FramesAt(root, trace, n - 1), trace[n - 1]);
      hide TracksAt, IsBalanced;
      TracksNext(root, trace, n);
    } else {
      assert TrackerAt(root, trace, 1) == Observe(TrackerAt(root, trace, 0), Seen(FramesAt(root, trace, 0), trace[0]));
    }
  }

  lemma TracksNext(root: Frame, trace: seq<Kind>, n: nat)
    requires 0 < n < |trace| && TracksAt(root, trace, n - 1) && CanExecute(FramesAt(root, trace, n - 1), trace[n - 1])
    ensures TracksAt(root, trace, n)
  {
    var t, frames, k := TrackerAt(root, trace, n), FramesAt(root, trace, n - 1), trace[n - 1];
    assert FramesAt(root, trace, n) == Execute(frames, k);
    assert TrackerAt(root, trace, n + 1) == Observe(t, Seen(Execute(frames, k), trace[n]));
    hide FramesAt, TrackerAt, Tracked;
    StepTracks(t, frames, k, trace[n]);
    hide Execute;
  }

  lemma StepTracks(t: Tracker, frames: seq<Frame>, k: Kind, next: Kind)
    requires CanExecute(frames, k) && t.stack == Tracked(frames) && t.prevFunc == frames[|frames| - 1]
    requires t.prevFunc.Some? ==> t.prevCall == k.Call? && t.prevReturn == k.Return?
    ensures Observe(t, Seen(Execute(frames, k), next)).stack == Tracked(Execute(frames, k))
  {
    if k.Call? {
      assert (frames + [k.target])[..|frames|] == frames;
    }
  }

  // ---- Consequences ----

  /** Neighbouring equal frames count as one. */
  function Collapse(frames: seq<nat>): seq<nat> {
    if |frames| < 2 then frames
    else
      var n := |frames| - 1;
      Collapse(frames[..n]) + (if frames[n - 1] == frames[n] then [] else [frames[n]])
  }

  function Users(fs: seq<nat>): seq<Frame> { seq(|fs|, i requires 0 <= i < |fs| => Some(fs[i])) }

  /** When all frames are user functions, the stack tracked is the collapsed stack above the root. */
  lemma {:induction false} UserFramesCollapse(fs: seq<nat>)
    requires fs != []
    ensures [fs[0]] + Tracked(Users(fs)) == Collapse(fs)
  {
    if |fs| > 1 {
      var n := |fs| - 1;
      UserFramesCollapse(fs[..n]);
      assert Users(fs)[..n] == Users(fs[..n]);
    }
  }

  /** A call into library code, and whatever it does up to its return, leaves the caller's tracked stack. */
  lemma LibraryIsTransparent(root: Frame, trace: seq<Kind>, a: nat, b: nat)
    requires IsBalanced(root, trace) && a < b < |trace|
    requires trace[a] == Call(None) && FramesAt(root, trace, b) == FramesAt(root, trace, a)
    ensures TrackerAt(root, trace, b + 1).stack == TrackerAt(root, trace, a + 1).stack
    ensures TrackerAt(root, trace, a + 2).stack == TrackerAt(root, trace, a + 1).stack
  {
    TracksVisibleFrames(root, trace, a);
    TracksVisibleFrames(root, trace, b);
    TracksVisibleFrames(root, trace, a + 1);
    var frames := FramesAt(root, trace, a);
    assert CanExecute(frames, trace[a]);
    assert FramesAt(root, trace, a + 1) == frames + [None];
    assert (frames + [None])[..|frames|] == frames;
  }

  // ---- The tracker, updated in place ----

  const STK_SIZE: nat := 10

  class CallTracker {
    var stack: seq<nat>
    var prevFunc: Frame
    var prevCall: bool
    var prevReturn: bool

    ghost function View(): Tracker
      reads this
    {
      Tracker(stack, prevFunc, prevCall, prevReturn)
    }

    constructor ()
      ensures View() == START
    {
      stack, prevFunc, prevCall, prevReturn := [], None, false, false;
    }

    /** Observe an instruction, and report the newest functions; the report is valid in user code. */
    method Update(x: Instr) returns (valid: bool, feature: array<Frame>)
      modifies this
      ensures View() == Observe(old(View()), x)
      ensures valid == x.func.Some? && fresh(feature) && IsNewest(feature[..], stack)
    {
      valid := x.func != None;
      if prevFunc != None && x.func != None && prevFunc != x.func {
        if prevCall {
          stack := stack + [x.func.value];
        } else if prevReturn {
          if stack != [] { stack := stack[..|stack| - 1]; }
        }
      }
      prevFunc, prevCall, prevReturn := x.func, x.isCall, x.isReturn;
      feature := NewestFrames(stack);
    }

    /** Copy the newest functions, newest first, and pad the rest with None. */
    method NewestFrames(functions: seq<nat>) returns (feature: array<Frame>)
      ensures fresh(feature) && IsNewest(feature[..], functions)
    {
      feature := new Frame[STK_SIZE](_ => None);
      var n := if |functions| < STK_SIZE then |functions| else STK_SIZE;
      for i := 0 to n
        invariant forall k :: 0 <= k < i ==> feature[k] == Some(functions[|functions| - 1 - k])
      {
        feature[i] := Some(functions[|functions| - 1 - i]);
      }
      for i := n to STK_SIZE
        invariant forall k :: 0 <= k < n ==> feature[k] == Some(functions[|functions| - 1 - k])
        invariant forall k :: n <= k < i ==> feature[k] == None
      {
        feature[i] := None;
      }
    }
  }

  predicate IsNewest(feature: seq<Frame>, functions: seq<nat>) {
    && |feature| == STK_SIZE
    && forall i :: 0 <= i < STK_SIZE ==>
         feature[i] == if i < |functions| then Some(functions[|functions| - 1 - i]) else None
  }
}
