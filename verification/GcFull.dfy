/** The full collection: it always ends, and leaves exactly the reachable objects. */
module GcFull {
  import opened GcHeap
  import opened GcMark
  import opened GcPropagate
  import opened GcSweep
  import opened GcCycle

  /** Steps up to the wanted phase; phases still to come rank higher. */
  function Rank(p: Phase): nat {
    match p
    case Pause => 0
    case Finalize => 1
    case Sweep => 2
    case SweepString => 3
    case Propagate => 4
  }

  ghost function WhitesLeft(s: State): set<Id> {
    if s.phase == Propagate then Whites(s) else {}
  }

  function Left(s: State): int {
    match s.phase
    case Propagate => |s.gray|
    case SweepString => |s.strings| - s.sweepstr
    case Sweep => |s.rootgc| - s.sweepgc + |s.uvhead|
    case Pause | Finalize => 0
  }

  /** u is nearer to Pause: the phase changes, or an object is marked, or the gray list or
      the list to sweep gets shorter. */
  ghost predicate Descends(s: State, u: State) {
    || Rank(u.phase) < Rank(s.phase)
    || (u.phase == s.phase && WhitesLeft(u) < WhitesLeft(s))
    || (u.phase == s.phase && WhitesLeft(u) == WhitesLeft(s) && 0 <= Left(u) < Left(s))
  }

  lemma PropagateDescends(s: State)
    requires Inv(s) && s.phase == Propagate && s.gray != [] && s.gray[0] in s.heap && RefsPresent(s)
    ensures Descends(s, PropagateMark(s))
  {
    PropagateInv(s);
    hide Inv, Good, Kinds, PropagateMark, Whites, MarkReady;
    GoodLists(s);
    PropagateMarkFrame(s);
  }

  lemma SweepBounds(s: State)
    requires SweepInv(s)
    ensures s.sweepgc <= |s.rootgc|
  {}

  lemma SweepDescends(s: State)
    requires s.phase == Sweep && SweepInv(s)
    ensures Descends(s, SingleStep(s))
  {
    hide SweepRoot, SweepInv, OnlyGarbageLost, MarkReady, AtomicReady, Whites, RefsPresent;
    SweepBounds(s);
    SweepBounds(SweepRoot(s, GCSWEEPMAX));
  }

  /** Every step from another phase than Pause comes nearer to it. */
  lemma StepDescends(s: State)
    requires Inv(s) && StepReady(s) && s.phase != Pause
    ensures Descends(s, SingleStep(s))
  {
    hide Inv, SweepSeq, WhitesLeft, PropagateMark, AtomicMarks, SweepRoot, SweepInv;
    match s.phase
    case Propagate =>
      if s.gray != [] {
        PropagateDescends(s);
      }
    case SweepString =>
      WhitesLeftNone(s, SingleStep(s));
    case Sweep =>
      SweepDescends(s);
    case Finalize =>
  }

  lemma WhitesLeftNone(s: State, u: State)
    requires s.phase != Propagate && u.phase != Propagate
    ensures WhitesLeft(s) == WhitesLeft(u)
  {}

  lemma GoodLists(s: State)
    requires Good(s, {})
    ensures GrayLists(s) && RefsPresent(s)
  {}

  /** Repeats single steps until the target phase. */
  function RunTo(s: State, target: Phase): (u: State)
    requires Inv(s) && (target == Finalize || target == Pause)
    requires s.phase == Pause ==> target == Pause
    ensures Inv(u) && u.phase == target
    decreases Rank(s.phase), WhitesLeft(s), Left(s)
  {
    if s.phase == target then s
    else
      SingleStepOk(s);
      StepDescends(s);
      LeftBound(s);
      NoEarlyPause(s, target);
      hide Inv, StepReady, SingleStep, KeepsReachable, Whites;
      RunTo(SingleStep(s), target)
  }

  lemma LeftBound(s: State)
    requires Inv(s)
    ensures Left(s) >= 0
  {}

  /** Only the finalize phase leads to a pause. */
  lemma NoEarlyPause(s: State, target: Phase)
    requires StepReady(s) && s.phase != target && s.phase != Pause && (target == Finalize || target == Pause)
    ensures SingleStep(s).phase == Pause ==> target == Pause
  {
    hide MarkAll, AtomicMarks, SweepRoot, SweepSeq, AtomicReady;
    if s.phase == Propagate && s.gray != [] {
      assert PropagateMark(s).phase == Propagate;
    }
  }

  /** The first test of luaC_fullgc: an unfinished mark phase is dropped and everything swept. */
  function DropMarks(s: State): State {
    if s.phase == Pause || s.phase == Propagate then
      s.(sweepstr := 0, sweepgc := 0, gray := [], grayagain := [], phase := SweepString)
    else s
  }

  lemma DropMarksOk(s: State)
    requires Inv(s)
    ensures Inv(DropMarks(s)) && DropMarks(s).phase != Pause && DropMarks(s).phase != Propagate
    ensures OnlyGarbageLost(s, DropMarks(s))
  {
    var u := DropMarks(s);
    LostSelf(s);
    if s.phase == Pause || s.phase == Propagate {
      StartNoDead(s);
      ShapeBounds(s);
      assert SameLinks(s, u);
      hide Inv, Shape, SweptWhite, Closed, NeverBlack, NoDead, OnlyGarbageLost;
      LinksShape(s, u);
      DropColors(s, u);
      StartOfSweep(u);
      LostNothing(s, u);
      InvOf(u);
    }
  }

  lemma StartNoDead(s: State)
    requires Inv(s) && (s.phase == Pause || s.phase == Propagate)
    ensures NoDead(s) && Shape(s) && Closed(s) && NeverBlack(s)
  {}

  lemma DropColors(s: State, u: State)
    requires NoDead(s) && Closed(s) && NeverBlack(s) && u.heap == s.heap && SameRegisters(s, u)
    ensures NoDead(u) && Closed(u) && NeverBlack(u)
  {
    hide Closed;
    ClosedKept(s, u);
  }

  lemma LostNothing(s: State, u: State)
    requires u.heap == s.heap && SameRegisters(s, u)
    ensures OnlyGarbageLost(s, u)
  {}

  lemma InvOf(s: State)
    requires Shape(s) && Closed(s) && NeverBlack(s) && s.phase == SweepString && s.sweepgc <= |s.rootgc| && SweptWhite(s)
    ensures Inv(s)
  {}

  /** luaC_fullgc. */
  function FullGc(s: State): (u: State)
    requires Inv(s)
    ensures Inv(u) && u.phase == Pause
  {
    DropMarksOk(s);
    var s1 := DropMarks(s);
    var s2 := RunTo(s1, Finalize);
    StartAfterSweep(s2);
    RunTo(MarkRoot(s2), Pause)
  }

  lemma StartAfterSweep(s: State)
    requires Inv(s) && s.phase == Finalize
    ensures MarkReady(s) && Inv(MarkRoot(s)) && MarkRoot(s).phase == Propagate
  {
    IdleReady(s);
    hide Inv, MarkRoot;
    assert Inv(s);
    PauseStepOk(s);
    MarkRootPhase(s);
  }

  lemma MarkRootPhase(s: State)
    requires MarkReady(s)
    ensures MarkRoot(s).phase == Propagate
  {}

  // ---------- What a full collection leaves ----------

  lemma {:induction false} PathThroughLoss(s: State, u: State, path: seq<Id>)
    requires Closed(s) && OnlyGarbageLost(s, u) && RefPath(s, path)
    ensures RefPath(u, path)
  {
    if |path| > 1 {
      var front := path[..|path|-1];
      assert RefPath(s, front);
      PathThroughLoss(s, u, front);
      PathNotDead(s, front);
      assert front[|front|-1] == path[|path|-2];
      assert forall k :: 0 <= k < |path| - 1 ==> path[k] == front[k];
    }
  }

  /** Losing garbage changes nothing about reachability. */
  lemma LossReach(s: State, u: State, x: Id)
    requires Closed(s) && OnlyGarbageLost(s, u)
    ensures Reachable(s, x) <==> Reachable(u, x)
  {
    if Reachable(s, x) {
      var path :| PathTo(s, path, x);
      PathThroughLoss(s, u, path);
      assert PathTo(u, path, x);
    }
    if Reachable(u, x) {
      var path :| PathTo(u, path, x);
      assert PathTo(s, path, x);
    }
  }

  ghost predicate Sweeping(s: State) { s.phase == SweepString || s.phase == Sweep || s.phase == Finalize }

  lemma SweepStepLoses(s: State)
    requires Inv(s) && Sweeping(s) && StepReady(s)
    ensures OnlyGarbageLost(s, SingleStep(s))
    ensures Sweeping(SingleStep(s)) || (s.phase == Finalize && SingleStep(s).phase == Pause)
  {
    hide Inv, OnlyGarbageLost, SweepBucket, SweepRoot, SweepInv, MarkReady, AtomicReady, Distinct;
    match s.phase
    case SweepString =>
      InvSweeps(s);
      SweepBucketOk(s);
      BucketPhase(s);
    case Sweep => SweepStepOk(s);
    case Finalize => LostNothing(s, s.(phase := Pause));
  }

  lemma InvSweeps(s: State)
    requires Inv(s) && (s.phase == SweepString || s.phase == Sweep)
    ensures SweepInv(s)
  {}

  lemma BucketPhase(s: State)
    requires s.sweepstr < |s.strings| && Distinct(s.strings[s.sweepstr])
    requires forall x :: x in s.strings[s.sweepstr] ==> x in s.heap
    ensures SweepBucket(s).phase == Sweep || SweepBucket(s).phase == SweepString
  {
    hide SweepSeq;
  }

  /** The run unrolled once. */
  lemma RunToStep(s: State, target: Phase)
    requires Inv(s) && (target == Finalize || target == Pause) && s.phase != Pause && s.phase != target
    ensures StepReady(s) && Inv(SingleStep(s)) && Descends(s, SingleStep(s)) && Left(s) >= 0
    ensures SingleStep(s).phase == Pause ==> target == Pause
    ensures RunTo(s, target) == RunTo(SingleStep(s), target)
  {
    hide Inv, StepReady, SingleStep, WhitesLeft, Left, Rank, Descends;
    SingleStepOk(s);
    StepDescends(s);
    LeftBound(s);
    NoEarlyPause(s, target);
  }

  /** From the start of a sweep on, exactly the garbage goes. */
  lemma {:induction false} RunSweep(s: State, target: Phase)
    requires Inv(s) && Sweeping(s) && (target == Finalize || target == Pause)
    ensures OnlyGarbageLost(s, RunTo(s, target))
    decreases Rank(s.phase), WhitesLeft(s), Left(s)
  {
    hide Inv, OnlyGarbageLost, SingleStep, StepReady, Whites, WhitesLeft, Left, RunTo;
    if s.phase == target {
      RunToNone(s, target);
      LostSelf(s);
    } else {
      RunToStep(s, target);
      SweepStepLoses(s);
      var s1 := SingleStep(s);
      if s1.phase == target {
        RunToNone(s1, target);
        LostSelf(s1);
      } else {
        RunSweep(s1, target);
      }
      LostTrans(s, s1, RunTo(s1, target));
    }
  }

  lemma RunToNone(s: State, target: Phase)
    requires Inv(s) && (target == Finalize || target == Pause) && s.phase == target
    ensures RunTo(s, target) == s
  {}

  ghost predicate SameFixed(s: State, u: State) {
    forall x :: x in s.heap && x in u.heap ==> u.heap[x].fixed == s.heap[x].fixed
  }

  /** The reachable and the fixed objects. */
  ghost predicate Exactly(s: State, u: State) {
    forall x :: x in u.heap <==> x in s.heap && (Reachable(s, x) || s.heap[x].fixed)
  }

  /** After the flip exactly the unreachable objects are dead. */
  lemma AtomicExact(s: State)
    requires Inv(s) && s.phase == Propagate && s.gray == [] && Precise(s) && AtomicReady(s)
    ensures forall x :: x in s.heap ==> (Dead(Atomic(s), x) <==> !Reachable(s, x))
  {
    AtomicOk(s);
    AtomicPrecise(s);
    var m, a := AtomicMarks(s), Atomic(s);
    hide AtomicMarks, Precise;
    forall x | x in s.heap
      ensures Dead(a, x) <==> !Reachable(s, x)
    {
      SameGraphReach(s, a, x);
      SameGraphReach(s, m, x);
      if Reachable(a, x) {
        ReachableNotDead(a, x);
      }
      if !IsWhite(m, x) {
        PreciseAt(m, x);
      }
    }
  }

  lemma PreciseAt(s: State, x: Id)
    requires Precise(s) && x in s.heap && !IsWhite(s, x)
    ensures Reachable(s, x)
  {}

  lemma SweptExactly(s: State, a: State, u: State)
    requires Inv(u) && u.phase == Pause && OnlyGarbageLost(a, u)
    requires a.heap.Keys == s.heap.Keys && SameFixed(s, a)
    requires forall x :: x in s.heap ==> (Dead(a, x) <==> !Reachable(s, x))
    ensures Exactly(s, u) && SameFixed(s, u)
  {
    AllWhiteNoDead(u);
    hide Inv, Reachable;
  }

  /** A whole mark phase from all-white and the sweep after it keep exactly the reachable
      and the fixed objects. */
  lemma {:induction false} RunMark(s: State)
    requires Inv(s) && s.phase == Propagate && Precise(s)
    ensures Exactly(s, RunTo(s, Pause)) && SameFixed(s, RunTo(s, Pause))
    decreases WhitesLeft(s), Left(s)
  {
    hide Inv, Precise, Exactly, SameFixed, StepReady, SingleStep, WhitesLeft, OnlyGarbageLost;
    SingleStepOk(s);
    StepDescends(s);
    LeftBound(s);
    var s1 := SingleStep(s);
    MarkStepIs(s);
    if s.gray != [] {
      RunMark(s1);
      ExactlyBack(s, s1, RunTo(s1, Pause));
    } else {
      RunSweep(s1, Pause);
      SweptExactly(s, s1, RunTo(s1, Pause));
    }
  }

  lemma PropagatesGraph(s: State, u: State)
    requires OnlyPropagates(s, u.(phase := s.phase))
    ensures SameGraph(s, u) && SameFixed(s, u)
  {}

  lemma MarkOneIs(s: State)
    requires Inv(s) && s.phase == Propagate && Precise(s) && s.gray != [] && s.gray[0] in s.heap && RefsPresent(s)
    ensures var s1 := PropagateMark(s);
            SameGraph(s, s1) && SameFixed(s, s1) && s1.phase == Propagate && Precise(s1)
  {
    hide Precise, PropagateMark, Good, Inv, Kinds, MarkReady, Whites;
    PropagateInv(s);
    PropagateStepOk(s);
    PropagateMarkPrecise(s);
    PropagatesPhase(s, PropagateMark(s));
    PropagatesGraph(s, PropagateMark(s));
  }

  lemma PropagatesPhase(s: State, u: State)
    requires OnlyPropagates(s, u)
    ensures u.phase == s.phase && u == u.(phase := s.phase)
  {}

  lemma AtomicIs(s: State)
    requires AtomicReady(s)
    ensures SameGraph(s, Atomic(s)) && SameFixed(s, Atomic(s)) && Atomic(s).phase == SweepString
  {
    hide AtomicMarks, Good, Kinds, AtomicReady;
  }

  /** A step of the mark phase: either marks that stay precise, or the exact flip. */
  lemma MarkStepIs(s: State)
    requires Inv(s) && s.phase == Propagate && Precise(s) && StepReady(s)
    ensures var s1 := SingleStep(s);
            && SameGraph(s, s1) && SameFixed(s, s1)
            && (if s.gray != [] then s1.phase == Propagate && Precise(s1)
                else s1.phase == SweepString && forall x :: x in s.heap ==> (Dead(s1, x) <==> !Reachable(s, x)))
  {
    hide Precise, PropagateMark, Atomic, Inv, AtomicReady, SameGraph, SameFixed, Whites, RefsPresent, Reachable;
    if s.gray != [] {
      MarkOneIs(s);
    } else {
      AtomicExact(s);
      AtomicIs(s);
    }
  }

  lemma ExactlyBack(s: State, t: State, u: State)
    requires SameGraph(s, t) && SameFixed(s, t) && Exactly(t, u) && SameFixed(t, u)
    ensures Exactly(s, u) && SameFixed(s, u)
  {
    forall x
      ensures Reachable(s, x) <==> Reachable(t, x)
    {
      SameGraphReach(s, t, x);
    }
  }

  lemma ExactlyThroughLoss(s: State, t: State, u: State)
    requires Closed(s) && OnlyGarbageLost(s, t) && Exactly(t, u)
    ensures Exactly(s, u)
  {
    forall x
      ensures Reachable(s, x) <==> Reachable(t, x)
    {
      LossReach(s, t, x);
    }
    forall x | Reachable(s, x)
      ensures x in s.heap && !Dead(s, x)
    {
      ReachableNotDead(s, x);
    }
  }

  lemma MarkRootIs(s: State)
    requires Inv(s) && s.phase == Finalize && MarkReady(s)
    ensures SameGraph(s, MarkRoot(s)) && SameFixed(s, MarkRoot(s)) && Precise(MarkRoot(s))
  {
    assert AllWhite(s) && Kinds(s);
    hide Inv, Precise, Good, Kinds, AllWhite, MarkRoot, MarkReady, OnlyPropagates, SameGraph, SameFixed, Whites, Reachable;
    MarkRootPrecise(s);
    MarkRootGood(s);
    PropagatesGraph(s, MarkRoot(s));
  }

  /** From the end of a sweep on: the second half of a full collection. */
  lemma SecondHalfExact(s: State)
    requires Inv(s) && s.phase == Finalize && MarkReady(s) && Inv(MarkRoot(s)) && MarkRoot(s).phase == Propagate
    ensures Exactly(s, RunTo(MarkRoot(s), Pause))
  {
    hide Inv, MarkRoot, Exactly, SameGraph, SameFixed, Precise, RunTo, MarkReady;
    MarkRootIs(s);
    RunMark(MarkRoot(s));
    ExactlyBack(s, MarkRoot(s), RunTo(MarkRoot(s), Pause));
  }

  /** A full collection, whatever the state it starts from, frees every object that is
      unreachable when it is called and no other, except fixed strings. */
  lemma FullGcExact(s: State)
    requires Inv(s)
    ensures Exactly(s, FullGc(s))
  {
    assert Closed(s);
    hide Inv, MarkRoot, Exactly, OnlyGarbageLost, Closed, RunTo, MarkReady;
    DropMarksOk(s);
    var s1 := DropMarks(s);
    assert Sweeping(s1);
    RunSweep(s1, Finalize);
    var s2 := RunTo(s1, Finalize);
    LostTrans(s, s1, s2);
    StartAfterSweep(s2);
    SecondHalfExact(s2);
    ExactlyThroughLoss(s, s2, FullGc(s));
  }
}
