/** What a program says about its objects, without a collector: a plain graph.  In every run the
    collected heap agrees with it. */
module GcProgram {
  import opened GcHeap
  import opened GcMark
  import opened GcPropagate
  import opened GcSweep
  import opened GcCycle
  import opened GcFull
  import opened GcMutator
  import opened GcRuns

  // ---------- The program's graph ----------

  datatype Thing = Thing(kind: Kind, refs: seq<Id>)

  /** Things are only added; fixed ones are never to be collected. */
  datatype Graph = Graph(things: map<Id, Thing>, fixed: set<Id>, mainthread: Id, registry: Id, running: Id, mt: seq<Id>)

  /** x refers to exactly these; every other thing keeps its references. */
  function Refer(g: Graph, x: Id, refs: seq<Id>): Graph {
    if x in g.things then g.(things := g.things[x := g.things[x].(refs := refs)]) else g
  }

  /** x comes on the running stack. */
  function OnStack(g: Graph, x: Id): Graph {
    if g.running in g.things then Refer(g, g.running, g.things[g.running].refs + [x]) else g
  }

  function Create(g: Graph, x: Id, kind: Kind, refs: seq<Id>): Graph { g.(things := g.things[x := Thing(kind, refs)]) }

  /** What an action means for the program; the collector means nothing, and neither does closing
      an upvalue, which keeps the value of its slot. */
  function After(g: Graph, a: Action): Graph {
    match a
    case CollectStep | FullCollect | CloseUpvalue => g
    case NewObject(x, kind, refs) => OnStack(Create(g, x, kind, refs), x)
    case NewUserdata(x, refs, at) => OnStack(Create(g, x, UdataK, refs), x)
    case NewString(x, b) => OnStack(Create(g, x, StringK, []), x)
    case FindString(x) => OnStack(g, x)
    case FixString(x) => g.(fixed := g.fixed + {x})
    case Write(o, refs, v) => Refer(g, o, refs)
    case SetStack(t, refs) => Refer(g, t, refs)
    case SetCaptured(t, refs, x, slot) => Refer(Refer(g, t, refs), x, slot)
    case OpenUpvalue(x, refs, at) => OnStack(Create(g, x, UpvalK, refs), x)
    case FindUpvalue(x, refs) => OnStack(Refer(g, x, refs), x)
    case Resume(t) => g.(running := t)
    case SetMetatables(mt) => g.(mt := mt)
  }

  /** The main thread with its table of globals on its stack, and the registry. */
  const BEGINNING := Graph(map[0 := Thing(ThreadK, [1]), 1 := Thing(TableK, []), 2 := Thing(TableK, [])], {0}, 0, 2, 0, [])

  function AfterAll(actions: seq<Action>): Graph {
    if actions == [] then BEGINNING else After(AfterAll(actions[..|actions|-1]), actions[|actions|-1])
  }

  ghost predicate Root(g: Graph, x: Id) { x == g.mainthread || x == g.registry || x == g.running || x in g.mt }

  ghost predicate Chain(g: Graph, path: seq<Id>, x: Id) {
    && |path| > 0 && Root(g, path[0]) && path[|path|-1] == x
    && forall k :: 0 <= k < |path| - 1 ==> path[k] in g.things && path[k+1] in g.things[path[k]].refs
  }

  /** The program can get at x. */
  ghost predicate Reaches(g: Graph, x: Id) { exists path :: Chain(g, path, x) }

  // ---------- Agreement ----------

  /** What is in the heap is as the program left it, and what is fixed is there. */
  ghost predicate Agrees(g: Graph, s: State) {
    && g.mainthread == s.mainthread && g.registry == s.registry && g.running == s.running && g.mt == s.mt
    && (forall x :: x in s.heap ==> x in g.things && g.things[x] == Thing(s.heap[x].kind, s.heap[x].refs))
    && (forall x :: x in s.heap && s.heap[x].fixed ==> x in g.fixed)
    && (forall x :: x in g.fixed ==> x in s.heap && s.heap[x].fixed)
  }

  lemma {:induction false} ChainIsPath(g: Graph, s: State, path: seq<Id>, x: Id)
    requires Agrees(g, s) && Closed(s) && Chain(g, path, x)
    ensures PathTo(s, path, x) && x in s.heap
    decreases |path|
  {
    if |path| > 1 {
      var front := path[..|path|-1];
      assert Chain(g, front, path[|path|-2]);
      ChainIsPath(g, s, front, path[|path|-2]);
      assert forall k :: 0 <= k < |path| - 1 ==> path[k] == front[k];
      assert RefPath(s, path);
    } else {
      assert IsRoot(s, path[0]);
    }
    hide Agrees, Closed;
    PathNotDead(s, path);
  }

  lemma {:induction false} PathIsChain(g: Graph, s: State, path: seq<Id>, x: Id)
    requires Agrees(g, s) && PathTo(s, path, x)
    ensures Chain(g, path, x)
  {
    assert IsRoot(s, path[0]);
  }

  /** The program and the heap agree about what can be reached. */
  lemma ReachSame(g: Graph, s: State, x: Id)
    requires Agrees(g, s) && Closed(s)
    ensures Reaches(g, x) <==> Reachable(s, x)
  {
    hide Agrees, Closed, Chain, PathTo;
    if Reaches(g, x) {
      var path :| Chain(g, path, x);
      ChainIsPath(g, s, path, x);
    }
    if Reachable(s, x) {
      var path :| PathTo(s, path, x);
      PathIsChain(g, s, path, x);
    }
  }

  // ---------- The collector changes nothing for the program ----------

  /** Objects may go, but not fixed ones; those that stay are the same. */
  ghost predicate Collects(s: State, u: State) {
    && u.mainthread == s.mainthread && u.registry == s.registry && u.running == s.running && u.mt == s.mt
    && (forall x :: x in u.heap ==> x in s.heap)
    && (forall x :: x in u.heap ==>
          u.heap[x].kind == s.heap[x].kind && u.heap[x].refs == s.heap[x].refs && u.heap[x].fixed == s.heap[x].fixed)
    && (forall x :: x in s.heap && s.heap[x].fixed ==> x in u.heap)
  }

  lemma CollectsSelf(s: State)
    ensures Collects(s, s)
  {}

  lemma CollectsTrans(s: State, u: State, v: State)
    requires Collects(s, u) && Collects(u, v)
    ensures Collects(s, v)
  {}

  lemma LostCollects(s: State, u: State)
    requires OnlyGarbageLost(s, u)
    ensures Collects(s, u)
  {}

  lemma PropagatesCollects(s: State, u: State)
    requires OnlyPropagates(s, u.(phase := s.phase, white := s.white, sweepstr := s.sweepstr, sweepgc := s.sweepgc))
    ensures Collects(s, u)
  {}

  lemma CollectsAgrees(g: Graph, s: State, u: State)
    requires Agrees(g, s) && Collects(s, u)
    ensures Agrees(g, u)
  {}

  lemma MarkRootCollects(s: State)
    requires Inv(s) && (s.phase == Pause || s.phase == Finalize) && MarkReady(s)
    ensures Collects(s, MarkRoot(s))
  {
    assert AllWhite(s) && Kinds(s);
    hide Inv, Kinds, AllWhite, MarkRoot, MarkReady, OnlyPropagates, Collects;
    MarkRootGood(s);
    var u := MarkRoot(s);
    MarkRootSweeps(s);
    assert u.(phase := s.phase) == u.(phase := s.phase, white := s.white, sweepstr := s.sweepstr, sweepgc := s.sweepgc);
    PropagatesCollects(s, u);
  }

  lemma MarkRootSweeps(s: State)
    requires MarkReady(s)
    ensures var u := MarkRoot(s); u.white == s.white && u.sweepstr == s.sweepstr && u.sweepgc == s.sweepgc
  {}

  lemma AtomicCollects(s: State)
    requires AtomicReady(s)
    ensures Collects(s, Atomic(s))
  {
    hide AtomicMarks, AtomicReady, Good, Kinds;
    var m, u := AtomicMarks(s), Atomic(s);
    assert u.(phase := s.phase, white := s.white, sweepstr := s.sweepstr, sweepgc := s.sweepgc) ==
           m.(phase := s.phase, white := s.white, sweepstr := s.sweepstr, sweepgc := s.sweepgc);
    PropagatesCollects(s, u);
  }

  lemma StepCollects(s: State)
    requires Inv(s) && StepReady(s)
    ensures Collects(s, SingleStep(s))
  {
    hide Inv, MarkRoot, PropagateMark, Atomic, SweepBucket, SweepRoot, SweepInv, AtomicReady, MarkReady, RefsPresent,
      OnlyGarbageLost, OnlyPropagates, Collects, Distinct;
    match s.phase
    case Pause => MarkRootCollects(s);
    case Propagate =>
      if s.gray != [] {
        PropagateStepOk(s);
        PropagatedCollects(s, PropagateMark(s));
      } else {
        AtomicCollects(s);
      }
    case _ =>
      SweepStepLoses(s);
      LostCollects(s, SingleStep(s));
  }

  lemma PropagatedCollects(s: State, u: State)
    requires OnlyPropagates(s, u)
    ensures Collects(s, u)
  {
    assert u.(phase := s.phase, white := s.white, sweepstr := s.sweepstr, sweepgc := s.sweepgc) == u;
    PropagatesCollects(s, u);
  }

  lemma {:induction false} RunCollects(s: State, target: Phase)
    requires Inv(s) && (target == Finalize || target == Pause) && (s.phase == Pause ==> target == Pause)
    ensures Collects(s, RunTo(s, target))
    decreases Rank(s.phase), WhitesLeft(s), Left(s)
  {
    hide Inv, Collects, SingleStep, StepReady, Whites, WhitesLeft, Left, RunTo;
    if s.phase == target {
      RunToNone(s, target);
      CollectsSelf(s);
    } else {
      RunToStep(s, target);
      StepCollects(s);
      RunCollects(SingleStep(s), target);
      CollectsTrans(s, SingleStep(s), RunTo(SingleStep(s), target));
    }
  }

  lemma FullCollects(s: State)
    requires Inv(s)
    ensures Collects(s, FullGc(s))
  {
    hide Inv, MarkRoot, Collects, OnlyGarbageLost, RunTo, MarkReady;
    DropMarksOk(s);
    var s1 := DropMarks(s);
    LostCollects(s, s1);
    RunCollects(s1, Finalize);
    var s2 := RunTo(s1, Finalize);
    CollectsTrans(s, s1, s2);
    StartAfterSweep(s2);
    MarkRootCollects(s2);
    CollectsTrans(s, s2, MarkRoot(s2));
    RunCollects(MarkRoot(s2), Pause);
    CollectsTrans(s, MarkRoot(s2), RunTo(MarkRoot(s2), Pause));
  }

  /** Closing an upvalue frees it or moves it. */
  lemma CloseCollects(s: State, t: Id)
    requires CloseGuard(s, t) && !s.heap[s.open[t][0]].fixed
    ensures Collects(s, CloseHead(s, t))
  {
    hide Collects, DropHead, MoveHead, RefsPresent, MarkAll;
    DropCollects(s, t);
    MoveCollects(s, t);
    if s.phase == Propagate {
      MarkCollects(s, t);
    }
  }

  lemma DropCollects(s: State, t: Id)
    requires t in s.open && s.open[t] != [] && s.open[t][0] in s.heap && !s.heap[s.open[t][0]].fixed
    ensures Collects(s, DropHead(s, t))
  {}

  lemma MoveCollects(s: State, t: Id)
    requires t in s.open && s.open[t] != [] && s.open[t][0] in s.heap
    ensures var x, u := s.open[t][0], MoveHead(s, t);
      x in u.heap && u.white == s.white && Collects(s, u) && forall c :: Collects(s, Paint(u, x, c))
  {
    var x, u := s.open[t][0], MoveHead(s, t);
    assert u.heap == s.heap[x := s.heap[x].(home := InRoot)];
    hide MoveHead;
    forall c
      ensures Collects(s, Paint(u, x, c))
    {
      PaintCollects(s, u, x, c);
    }
  }

  lemma PaintCollects(s: State, u: State, x: Id, c: Color)
    requires Collects(s, u) && x in u.heap
    ensures Collects(s, Paint(u, x, c))
  {}

  lemma MarkCollects(s: State, t: Id)
    requires CloseGuard(s, t) && s.phase == Propagate
    ensures var x := s.open[t][0];
      var p := Paint(MoveHead(s, t), x, Black);
      && RefsPresent(p) && (forall r :: r in s.heap[x].refs ==> r in p.heap) && Collects(s, MarkAll(p, s.heap[x].refs))
  {
    var x := s.open[t][0];
    var p := Paint(MoveHead(s, t), x, Black);
    MovedRefs(s, t);
    MoveCollects(s, t);
    hide MoveHead, Paint, RefsPresent, CloseGuard;
    MarksCollect(s, p, MarkAll(p, s.heap[x].refs));
  }

  lemma MarksCollect(s: State, p: State, u: State)
    requires Collects(s, p) && OnlyMarks(p, u)
    ensures Collects(s, u)
  {}

  lemma MovedRefs(s: State, t: Id)
    requires CloseGuard(s, t) && s.phase == Propagate
    ensures var x := s.open[t][0];
      var p := Paint(MoveHead(s, t), x, Black);
      RefsPresent(p) && (forall r :: r in s.heap[x].refs ==> r in p.heap)
  {}

  // ---------- Every action does what the program means ----------

  lemma ReferAgrees(g: Graph, s: State, x: Id, refs: seq<Id>)
    requires Agrees(g, s) && x in s.heap
    ensures Agrees(Refer(g, x, refs), SetRefs(s, x, refs))
  {}

  lemma StackAgrees(g: Graph, s: State, x: Id)
    requires Agrees(g, s) && s.running in s.heap
    ensures Agrees(OnStack(g, x), Push(s, x))
  {
    ReferAgrees(g, s, s.running, s.heap[s.running].refs + [x]);
    hide Agrees, SetRefs, Refer;
    RunningThing(g, s);
  }

  lemma RunningThing(g: Graph, s: State)
    requires Agrees(g, s) && s.running in s.heap
    ensures g.running == s.running && g.running in g.things && g.things[g.running].refs == s.heap[s.running].refs
  {}

  lemma CreateAgrees(g: Graph, s: State, u: State, x: Id, kind: Kind, refs: seq<Id>)
    requires Agrees(g, s) && x !in s.heap && SameRoots(s, u) && x in u.heap
    requires u.heap == s.heap[x := u.heap[x]] && u.heap[x].kind == kind && u.heap[x].refs == refs && !u.heap[x].fixed
    ensures Agrees(Create(g, x, kind, refs), u)
  {}

  ghost predicate SameRoots(s: State, u: State) {
    u.mainthread == s.mainthread && u.registry == s.registry && u.running == s.running && u.mt == s.mt
  }

  /** Changes that the program does not see. */
  lemma HeapAgrees(g: Graph, s: State, u: State)
    requires Agrees(g, s) && SameRoots(s, u) && u.heap.Keys == s.heap.Keys
    requires forall x :: x in s.heap ==>
      u.heap[x].kind == s.heap[x].kind && u.heap[x].refs == s.heap[x].refs && u.heap[x].fixed == s.heap[x].fixed
    ensures Agrees(g, u)
  {}

  lemma StoreAgrees(g: Graph, s: State, o: Id, refs: seq<Id>, v: Id)
    requires Agrees(g, s) && o in s.heap && v in s.heap && (s.phase == Propagate ==> RefsPresent(SetRefs(s, o, refs)))
    ensures Agrees(Refer(g, o, refs), Store(s, o, refs, v))
  {
    StoreRefers(s, o, refs, v);
    hide RefsPresent, Store, SetRefs;
  }

  lemma ReviveAgrees(g: Graph, s: State, x: Id)
    requires Agrees(g, s) && x in s.heap
    ensures Agrees(g, Revive(s, x))
  {
    HeapAgrees(g, s, Revive(s, x));
  }

  lemma FixAgrees(g: Graph, s: State, x: Id)
    requires Agrees(g, s) && x in s.heap
    ensures Agrees(g.(fixed := g.fixed + {x}), Fix(s, x))
  {}

  lemma NewOnStack(g: Graph, s: State, u: State, x: Id, kind: Kind, refs: seq<Id>)
    requires Agrees(g, s) && x !in s.heap && SameRoots(s, u) && x in u.heap && s.running in s.heap
    requires u.heap == s.heap[x := u.heap[x]] && u.heap[x].kind == kind && u.heap[x].refs == refs && !u.heap[x].fixed
    ensures u.running in u.heap && Agrees(OnStack(Create(g, x, kind, refs), x), Push(u, x))
  {
    hide Agrees, Push, OnStack, Create;
    CreateAgrees(g, s, u, x, kind, refs);
    StackAgrees(Create(g, x, kind, refs), u, x);
  }

  lemma NewRootAgrees(g: Graph, s: State, x: Id, kind: Kind, refs: seq<Id>, at: nat)
    requires Agrees(g, s) && x !in s.heap && at <= |s.rootgc| && s.running in s.heap
    ensures var u := AddRoot(s, x, kind, refs, at);
      u.running in u.heap && Agrees(OnStack(Create(g, x, kind, refs), x), Push(u, x))
  {
    hide Agrees, Push, OnStack, Create;
    NewOnStack(g, s, AddRoot(s, x, kind, refs, at), x, kind, refs);
  }

  lemma NewStringAgrees(g: Graph, s: State, x: Id, b: nat)
    requires Agrees(g, s) && x !in s.heap && b < |s.strings| && s.running in s.heap
    ensures var u := AddString(s, x, b);
      u.running in u.heap && Agrees(OnStack(Create(g, x, StringK, []), x), Push(u, x))
  {
    hide Agrees, Push, OnStack, Create;
    NewOnStack(g, s, AddString(s, x, b), x, StringK, []);
  }

  lemma NewUpvalueAgrees(g: Graph, s: State, x: Id, refs: seq<Id>, at: nat)
    requires Agrees(g, s) && x !in s.heap && s.running in s.open && at <= |s.open[s.running]| && s.running in s.heap
    ensures var u := AddOpen(s, x, refs, at);
      u.running in u.heap && Agrees(OnStack(Create(g, x, UpvalK, refs), x), Push(u, x))
  {
    hide Agrees, Push, OnStack, Create;
    NewOnStack(g, s, AddOpen(s, x, refs, at), x, UpvalK, refs);
  }

  lemma FindAgrees(g: Graph, s: State, x: Id)
    requires Agrees(g, s) && x in s.heap && s.running in s.heap
    ensures Revive(s, x).running in Revive(s, x).heap && Agrees(OnStack(g, x), Push(Revive(s, x), x))
  {
    hide Agrees, Push, OnStack, Revive;
    ReviveAgrees(g, s, x);
    ReviveRunning(s, x);
    StackAgrees(g, Revive(s, x), x);
  }

  lemma FindSetAgrees(g: Graph, s: State, x: Id, refs: seq<Id>)
    requires Agrees(g, s) && x in s.heap && s.running in s.heap
    ensures var u := Revive(SetRefs(s, x, refs), x);
      x in SetRefs(s, x, refs).heap && u.running in u.heap && Agrees(OnStack(Refer(g, x, refs), x), Push(u, x))
  {
    hide Agrees, Push, OnStack, Revive, SetRefs, Refer;
    SetRefsHas(s, x, refs);
    ReferAgrees(g, s, x, refs);
    FindAgrees(Refer(g, x, refs), SetRefs(s, x, refs), x);
  }

  lemma SetRefsHas(s: State, x: Id, refs: seq<Id>)
    requires x in s.heap
    ensures var u := SetRefs(s, x, refs); u.heap.Keys == s.heap.Keys && u.running == s.running
  {}

  lemma ReviveRunning(s: State, x: Id)
    requires x in s.heap && s.running in s.heap
    ensures Revive(s, x).running in Revive(s, x).heap
  {}

  lemma CloseAgrees(g: Graph, s: State)
    requires Agrees(g, s) && Inv(s) && CloseGuard(s, s.running)
    ensures Agrees(g, CloseHead(s, s.running))
  {
    HeadReady(s, s.running);
    NotFixed(s, s.open[s.running][0]);
    hide Agrees, Inv, CloseHead, RefsPresent, Collects;
    CloseCollects(s, s.running);
    CollectsAgrees(g, s, CloseHead(s, s.running));
  }

  lemma SetCapturedAgrees(g: Graph, s: State, t: Id, refs: seq<Id>, x: Id, value: seq<Id>)
    requires Agrees(g, s) && t in s.heap && x in s.heap
    ensures x in SetRefs(s, t, refs).heap && Agrees(Refer(Refer(g, t, refs), x, value), SetRefs(SetRefs(s, t, refs), x, value))
  {
    SetRefsHas(s, t, refs);
    hide Agrees, SetRefs, Refer;
    ReferAgrees(g, s, t, refs);
    ReferAgrees(Refer(g, t, refs), SetRefs(s, t, refs), x, value);
  }

  lemma StepAgrees(g: Graph, s: State)
    requires Agrees(g, s) && Inv(s) && StepReady(s)
    ensures Agrees(g, SingleStep(s))
  {
    hide Agrees, Inv, StepReady, SingleStep, Collects;
    StepCollects(s);
    CollectsAgrees(g, s, SingleStep(s));
  }

  lemma FullAgrees(g: Graph, s: State)
    requires Agrees(g, s) && Inv(s)
    ensures Agrees(g, FullGc(s))
  {
    hide Agrees, Inv, FullGc, Collects;
    FullCollects(s);
    CollectsAgrees(g, s, FullGc(s));
  }

  lemma NewAgrees(g: Graph, s: State, a: Action)
    requires Agrees(g, s) && s.running in s.heap && Enabled(s, a) && Ready(s, a)
    requires a.NewObject? || a.NewUserdata? || a.NewString? || a.OpenUpvalue?
    ensures Agrees(After(g, a), Apply(s, a))
  {
    hide Agrees, Push, OnStack, Create, AddRoot, AddString, AddOpen, AllReachable, Reachable;
    match a
    case NewObject(x, kind, refs) => NewRootAgrees(g, s, x, kind, refs, 0);
    case NewUserdata(x, refs, at) => NewRootAgrees(g, s, x, UdataK, refs, at);
    case NewString(x, b) => NewStringAgrees(g, s, x, b);
    case OpenUpvalue(x, refs, at) => NewUpvalueAgrees(g, s, x, refs, at);
  }

  /** After every action the heap agrees with what the action means. */
  lemma ActionAgrees(g: Graph, s: State, a: Action)
    requires Agrees(g, s) && Inv(s) && Enabled(s, a) && Ready(s, a)
    ensures Agrees(After(g, a), Apply(s, a))
  {
    hide Agrees, Inv, Push, OnStack, Create, SetRefs, Refer, Store, AddRoot, AddString, AddOpen, Revive, Fix, CloseHead, SingleStep,
      FullGc, StepReady, RefsPresent, Enabled, CloseGuard;
    RunningThread(s);
    match a
    case CollectStep => StepAgrees(g, s);
    case FullCollect => FullAgrees(g, s);
    case FindString(x) => FindAgrees(g, s, x);
    case FixString(x) => FixAgrees(g, s, x);
    case Write(o, refs, v) => StoreAgrees(g, s, o, refs, v);
    case SetStack(t, refs) => ReferAgrees(g, s, t, refs);
    case SetCaptured(t, refs, x, value) => SetCapturedAgrees(g, s, t, refs, x, value);
    case FindUpvalue(x, refs) => FindSetAgrees(g, s, x, refs);
    case CloseUpvalue => CloseAgrees(g, s);
    case Resume(t) => RootsAgree(g, s, t, s.mt);
    case SetMetatables(mt) => RootsAgree(g, s, s.running, mt);
    case _ => NewAgrees(g, s, a);
  }

  lemma RootsAgree(g: Graph, s: State, running: Id, mt: seq<Id>)
    requires Agrees(g, s)
    ensures Agrees(g.(running := running, mt := mt), s.(running := running, mt := mt))
    ensures g.(running := running) == g.(running := running, mt := s.mt) && g.(mt := mt) == g.(running := s.running, mt := mt)
  {}

  // ---------- Runs ----------

  lemma BeginningAgrees()
    ensures Agrees(BEGINNING, InitialState())
  {}

  lemma {:induction false} RunAgrees(states: seq<State>, actions: seq<Action>)
    requires IsRun(states, actions)
    ensures Agrees(AfterAll(actions), states[|actions|])
    decreases |actions|
  {
    hide Inv, Enabled, Ready, Apply, InitialState, Agrees, After;
    var n := |actions|;
    if n == 0 {
      BeginningAgrees();
    } else {
      RunFront(states, actions);
      RunAgrees(states[..n], actions[..n-1]);
      LastState(states[..n], actions[..n-1]);
      ActionAgrees(AfterAll(actions[..n-1]), states[n-1], actions[n-1]);
    }
  }

  lemma AgreesReach(g: Graph, s: State)
    requires Agrees(g, s) && Closed(s)
    ensures forall x :: Reaches(g, x) ==> x in s.heap && x in g.things && g.things[x] == Thing(s.heap[x].kind, s.heap[x].refs)
    ensures forall x :: x in g.fixed ==> x in s.heap
  {
    hide Reaches, Reachable;
    forall x | Reaches(g, x)
      ensures x in s.heap
    {
      ReachSame(g, s, x);
      ReachableNotDead(s, x);
    }
  }

  /** In every run of program and collector: what the program can reach is in the heap, of its
      kind and with its references; what it has fixed is there; and right after a full
      collection there is nothing else. */
  lemma RunsFollowProgram(states: seq<State>, actions: seq<Action>)
    requires IsRun(states, actions)
    ensures |states| == |actions| + 1
    ensures var g, s := AfterAll(actions), states[|actions|];
      && (forall x :: Reaches(g, x) ==> x in s.heap && x in g.things && g.things[x] == Thing(s.heap[x].kind, s.heap[x].refs))
      && (forall x :: x in g.fixed ==> x in s.heap)
      && (actions != [] && actions[|actions|-1] == FullCollect ==> forall x :: x in s.heap ==> Reaches(g, x) || x in g.fixed)
  {
    var g, s := AfterAll(actions), states[|actions|];
    hide *;
    RunAgrees(states, actions);
    LastState(states, actions);
    AgreesReach(g, s);
    if actions != [] && actions[|actions|-1] == FullCollect {
      CollectedExactly(states, actions);
    }
  }

  lemma InvClosed(s: State)
    requires Inv(s)
    ensures Closed(s)
  {}

  /** The run without its last action. */
  lemma RunFront(states: seq<State>, actions: seq<Action>)
    requires IsRun(states, actions) && actions != []
    ensures var n := |actions|;
      && |states| == n + 1 && IsRun(states[..n], actions[..n-1]) && states[..n][n-1] == states[n-1]
      && Enabled(states[n-1], actions[n-1]) && Ready(states[n-1], actions[n-1]) && states[n] == Apply(states[n-1], actions[n-1])
      && AfterAll(actions) == After(AfterAll(actions[..n-1]), actions[n-1])
  {
    hide Enabled, Ready, Apply, InitialState, After;
  }

  lemma CollectedExactly(states: seq<State>, actions: seq<Action>)
    requires IsRun(states, actions) && actions != [] && actions[|actions|-1] == FullCollect
    ensures |states| == |actions| + 1
    ensures var g, s := AfterAll(actions), states[|actions|]; forall x :: x in s.heap ==> Reaches(g, x) || x in g.fixed
  {
    var n := |actions|;
    RunFront(states, actions);
    assert After(AfterAll(actions[..n-1]), FullCollect) == AfterAll(actions[..n-1]);
    hide *;
    RunAgrees(states[..n], actions[..n-1]);
    LastState(states[..n], actions[..n-1]);
    CollectedIs(states[n-1]);
    CollectedNow(AfterAll(actions), states[n-1], states[n]);
  }

  lemma LastState(states: seq<State>, actions: seq<Action>)
    requires IsRun(states, actions)
    ensures |states| == |actions| + 1 && Inv(states[|actions|]) && Closed(states[|actions|])
  {
    RunsAreSafe(states, actions);
    hide Enabled, Ready, Apply, InitialState, Inv, Reachable;
    InvClosed(states[|actions|]);
  }

  lemma CollectedIs(s: State)
    requires Inv(s)
    ensures Ready(s, FullCollect) && Exactly(s, Apply(s, FullCollect))
  {
    hide Inv, FullGc, Exactly, Push, Store, SetRefs, Revive, AddRoot, AddString, AddOpen, CloseHead, Fix, SingleStep, StepReady,
      CloseGuard, RefsPresent;
    FullGcExact(s);
  }

  lemma CollectedNow(g: Graph, s: State, u: State)
    requires Agrees(g, s) && Closed(s) && Exactly(s, u)
    ensures forall x :: x in u.heap ==> Reaches(g, x) || x in g.fixed
  {
    FixedAgree(g, s);
    hide Agrees, Closed, Reaches, Reachable;
    forall x | x in u.heap
      ensures Reaches(g, x) || x in g.fixed
    {
      ReachSame(g, s, x);
    }
  }

  lemma FixedAgree(g: Graph, s: State)
    requires Agrees(g, s)
    ensures forall x :: x in s.heap && s.heap[x].fixed ==> x in g.fixed
  {}
}
