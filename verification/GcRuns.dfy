/** Runs: any interleaving of program actions and collector work, from a fresh state. */
module GcRuns {
  import opened GcHeap
  import opened GcMark
  import opened GcSweep
  import opened GcCycle
  import opened GcFull
  import opened GcMutator

  /** New references are anchored on the stack of the running thread, as the interface does
      before the collector can run again. */
  datatype Action =
    | CollectStep                                          // one unit of luaC_step
    | FullCollect
    | NewObject(x: Id, kind: Kind, refs: seq<Id>)          // closure, table, thread, prototype, closed upvalue
    | NewUserdata(x: Id, refs: seq<Id>, at: nat)           // linked right behind the main thread
    | NewString(x: Id, bucket: nat)
    | FindString(x: Id)                                    // the string table already has it
    | FixString(x: Id)                                     // a reserved word or the name of an event
    | Write(holder: Id, refs: seq<Id>, value: Id)
    | SetStack(thread: Id, refs: seq<Id>)
    | SetCaptured(thread: Id, refs: seq<Id>, x: Id, slot: seq<Id>)  // the stack, with the slot that x stands for
    | OpenUpvalue(x: Id, refs: seq<Id>, at: nat)           // refs: the value in the captured slot
    | FindUpvalue(x: Id, refs: seq<Id>)
    | CloseUpvalue
    | Resume(thread: Id)
    | SetMetatables(mt: seq<Id>)

  ghost predicate AllReachable(s: State, refs: seq<Id>) {
    forall r :: r in refs ==> Reachable(s, r)
  }

  /** A program only gets at what is reachable; captured slots lie on the running stack. */
  ghost predicate Enabled(s: State, a: Action) {
    match a
    case CollectStep | FullCollect => true
    case NewObject(x, kind, refs) => x !in s.heap && kind != StringK && kind != UdataK && AllReachable(s, refs)
    case NewUserdata(x, refs, at) =>
      x !in s.heap && AllReachable(s, refs) && 0 < at <= |s.rootgc| && s.rootgc[at-1] == s.mainthread
    case NewString(x, b) => x !in s.heap && b < |s.strings|
    case FindString(x) => x in s.heap && s.heap[x].kind == StringK
    case FixString(x) => Reachable(s, x) && x in s.heap && s.heap[x].kind == StringK
    case Write(o, refs, v) =>
      && Reachable(s, o) && Reachable(s, v) && o in s.heap
      && s.heap[o].kind != StringK && s.heap[o].kind != ThreadK
      && forall r :: r in refs ==> r == v || r in s.heap[o].refs
    case SetStack(t, refs) => Reachable(s, t) && t in s.heap && s.heap[t].kind == ThreadK && AllReachable(s, refs)
    case SetCaptured(t, refs, x, value) =>
      && Reachable(s, t) && t in s.heap && s.heap[t].kind == ThreadK && AllReachable(s, refs)
      && t in s.open && x in s.open[t] && forall r :: r in value ==> r in refs
    case OpenUpvalue(x, refs, at) =>
      && x !in s.heap && s.running in s.open && at <= |s.open[s.running]|
      && s.running in s.heap && forall r :: r in refs ==> r in s.heap[s.running].refs
    case FindUpvalue(x, refs) =>
      && s.running in s.open && x in s.open[s.running]
      && s.running in s.heap && forall r :: r in refs ==> r in s.heap[s.running].refs
    case CloseUpvalue => s.running in s.open && s.open[s.running] != []
    case Resume(t) => Reachable(s, t) && t in s.heap && s.heap[t].kind == ThreadK
    case SetMetatables(mt) => AllReachable(s, mt)
  }

  ghost predicate Ready(s: State, a: Action) {
    match a
    case CollectStep => StepReady(s)
    case FullCollect => Inv(s)
    case NewObject(x, kind, refs) => s.running in s.heap
    case NewUserdata(x, refs, at) => s.running in s.heap && at <= |s.rootgc|
    case NewString(x, b) => s.running in s.heap && b < |s.strings|
    case FindString(x) => s.running in s.heap && x in s.heap
    case FixString(x) => x in s.heap
    case Write(o, refs, v) =>
      StoreGuard(s, o, refs, v) && (s.phase == Propagate ==> RefsPresent(SetRefs(s, o, refs)))
    case SetStack(t, refs) => t in s.heap
    case SetCaptured(t, refs, x, value) => t in s.heap && x in s.heap
    case OpenUpvalue(x, refs, at) => s.running in s.heap && s.running in s.open && at <= |s.open[s.running]|
    case FindUpvalue(x, refs) => s.running in s.heap && x in s.heap
    case CloseUpvalue => CloseGuard(s, s.running)
    case Resume(t) => true
    case SetMetatables(mt) => true
  }

  /** What an action does to the state. */
  function Apply(s: State, a: Action): State
    requires Ready(s, a)
  {
    match a
    case CollectStep => SingleStep(s)
    case FullCollect => FullGc(s)
    case NewObject(x, kind, refs) => Push(AddRoot(s, x, kind, refs, 0), x)
    case NewUserdata(x, refs, at) => Push(AddRoot(s, x, UdataK, refs, at), x)
    case NewString(x, b) => Push(AddString(s, x, b), x)
    case FindString(x) => Push(Revive(s, x), x)
    case FixString(x) => Fix(s, x)
    case Write(o, refs, v) => Store(s, o, refs, v)
    case SetStack(t, refs) => SetRefs(s, t, refs)
    case SetCaptured(t, refs, x, value) => SetRefs(SetRefs(s, t, refs), x, value)
    case OpenUpvalue(x, refs, at) => Push(AddOpen(s, x, refs, at), x)
    case FindUpvalue(x, refs) => Push(Revive(SetRefs(s, x, refs), x), x)
    case CloseUpvalue => CloseHead(s, s.running)
    case Resume(t) => s.(running := t)
    case SetMetatables(mt) => s.(mt := mt)
  }

  lemma CloseReady(s: State)
    requires Inv(s) && s.running in s.open && s.open[s.running] != []
    ensures CloseGuard(s, s.running)
  {
    HeadReady(s, s.running);
    if s.phase == Propagate {
      PropagateInv(s);
    }
  }

  lemma ReachAlive(s: State, x: Id)
    requires Inv(s) && Reachable(s, x)
    ensures Alive(s, x)
  {
    ReachableNotDead(s, x);
  }

  lemma AllAlive(s: State, refs: seq<Id>)
    requires Inv(s) && AllReachable(s, refs)
    ensures forall r :: r in refs ==> Alive(s, r)
  {
    forall r | r in refs
      ensures Alive(s, r)
    {
      ReachAlive(s, r);
    }
  }

  lemma OpenPresent(s: State, t: Id, x: Id)
    requires Inv(s) && t in s.open && x in s.open[t]
    ensures x in s.heap && s.heap[x].kind == UpvalK && x != t
  {}

  lemma WriteReady(s: State, o: Id, refs: seq<Id>, v: Id)
    requires Inv(s) && Enabled(s, Write(o, refs, v))
    ensures Ready(s, Write(o, refs, v))
  {
    hide Inv, Reachable, RefsPresent, SetRefs;
    ReachAlive(s, o);
    ReachAlive(s, v);
    StoreReady(s, o, refs, v);
  }

  lemma ActionReady(s: State, a: Action)
    requires Inv(s) && Enabled(s, a)
    ensures Ready(s, a)
  {
    RunningThread(s);
    hide Inv, Reachable, StepReady, RefsPresent, Alive;
    match a
    case CollectStep => StepIsReady(s);
    case Write(o, refs, v) => WriteReady(s, o, refs, v);
    case SetCaptured(t, refs, x, value) => OpenPresent(s, t, x);
    case FindUpvalue(x, refs) => OpenPresent(s, s.running, x);
    case CloseUpvalue => CloseReady(s);
    case _ =>
  }

  // ---------- Every action keeps the invariant ----------

  lemma NewRootOk(s: State, x: Id, kind: Kind, refs: seq<Id>, at: nat)
    requires Inv(s) && x !in s.heap && kind != StringK && at <= |s.rootgc| && AllReachable(s, refs) && s.running in s.heap
    ensures Inv(Push(AddRoot(s, x, kind, refs, at), x)) && KeepsReachable(s, Push(AddRoot(s, x, kind, refs, at), x))
  {
    AllAlive(s, refs);
    var u := AddRoot(s, x, kind, refs, at);
    assert forall y :: y in s.heap ==> y in Push(u, x).heap;
    hide Inv, Reachable, AddRoot, Push;
    AddRootInv(s, x, kind, refs, at);
    PushInv(u, x);
    NothingLost(s, Push(u, x));
  }

  lemma NothingLost(s: State, u: State)
    requires Inv(s) && forall x :: x in s.heap ==> x in u.heap
    ensures KeepsReachable(s, u)
  {
    forall x | Reachable(s, x)
      ensures x in u.heap
    {
      ReachAlive(s, x);
    }
  }

  lemma NewStringOk(s: State, x: Id, b: nat)
    requires Inv(s) && x !in s.heap && b < |s.strings| && s.running in s.heap
    ensures Inv(Push(AddString(s, x, b), x)) && KeepsReachable(s, Push(AddString(s, x, b), x))
  {
    var u := AddString(s, x, b);
    assert forall y :: y in s.heap ==> y in Push(u, x).heap;
    hide Inv, Reachable, AddString, Push;
    AddStringInv(s, x, b);
    PushInv(u, x);
    NothingLost(s, Push(u, x));
  }

  lemma FindStringOk(s: State, x: Id)
    requires Inv(s) && x in s.heap && s.heap[x].kind == StringK && s.running in s.heap
    ensures Inv(Push(Revive(s, x), x)) && KeepsReachable(s, Push(Revive(s, x), x))
  {
    assert s.heap[x].refs == [];
    var u := Revive(s, x);
    assert forall y :: y in s.heap ==> y in Push(u, x).heap;
    hide Inv, Reachable, Revive, Push;
    ReviveInv(s, x);
    PushInv(u, x);
    NothingLost(s, Push(u, x));
  }

  lemma FixStringOk(s: State, x: Id)
    requires Inv(s) && x in s.heap && s.heap[x].kind == StringK
    ensures Inv(Fix(s, x)) && KeepsReachable(s, Fix(s, x))
  {
    hide Inv, Reachable;
    FixInv(s, x);
    NothingLost(s, Fix(s, x));
  }

  lemma RunningRefs(s: State, refs: seq<Id>)
    requires Inv(s) && s.running in s.heap && forall r :: r in refs ==> r in s.heap[s.running].refs
    ensures forall r :: r in refs ==> Alive(s, r)
  {
    assert Closed(s);
    AliveRoots(s);
    RefsAlive(s, s.running);
  }

  lemma OpenUpvalueOk(s: State, x: Id, refs: seq<Id>, at: nat)
    requires Inv(s) && x !in s.heap && s.running in s.open && at <= |s.open[s.running]| && s.running in s.heap
    requires forall r :: r in refs ==> r in s.heap[s.running].refs
    ensures Inv(Push(AddOpen(s, x, refs, at), x)) && KeepsReachable(s, Push(AddOpen(s, x, refs, at), x))
  {
    var u := AddOpen(s, x, refs, at);
    assert forall y :: y in s.heap ==> y in Push(u, x).heap;
    hide Inv, Reachable, AddOpen, Push;
    RunningRefs(s, refs);
    AddOpenInv(s, x, refs, at);
    PushInv(u, x);
    NothingLost(s, Push(u, x));
  }

  lemma FindUpvalueOk(s: State, x: Id, refs: seq<Id>)
    requires Inv(s) && s.running in s.open && x in s.open[s.running] && s.running in s.heap && x in s.heap
    requires forall r :: r in refs ==> r in s.heap[s.running].refs
    ensures var u := Push(Revive(SetRefs(s, x, refs), x), x); Inv(u) && KeepsReachable(s, u)
  {
    hide *;
    OpenPresent(s, s.running, x);
    UpvalNotBlack(s, s.running, x);
    RunningRefs(s, refs);
    SetRefsInv(s, x, refs);
    FoundFacts(s, x, refs);
    var u1 := SetRefs(s, x, refs);
    ReviveInv(u1, x);
    PushInv(Revive(u1, x), x);
    NothingLost(s, Push(Revive(u1, x), x));
  }

  lemma FoundFacts(s: State, x: Id, refs: seq<Id>)
    requires x in s.heap && s.running in s.heap && forall r :: r in refs ==> Alive(s, r)
    ensures var u := SetRefs(s, x, refs);
      && x in u.heap && u.heap[x].refs == refs && (forall r :: r in refs ==> Alive(u, r))
      && Revive(u, x).running in Revive(u, x).heap && forall y :: y in s.heap ==> y in Push(Revive(u, x), x).heap
  {}

  lemma UpvalNotBlack(s: State, t: Id, x: Id)
    requires Inv(s) && t in s.open && x in s.open[t] && x in s.heap
    ensures !s.heap[x].color.Black?
  {
    assert s.heap[x].home == InOpen(t);
  }

  lemma SetStackOk(s: State, t: Id, refs: seq<Id>)
    requires Inv(s) && t in s.heap && s.heap[t].kind == ThreadK && AllReachable(s, refs)
    ensures Inv(SetRefs(s, t, refs)) && KeepsReachable(s, SetRefs(s, t, refs))
  {
    AllAlive(s, refs);
    assert !s.heap[t].color.Black?;
    hide Inv, Reachable;
    SetRefsInv(s, t, refs);
    NothingLost(s, SetRefs(s, t, refs));
  }

  /** The stack and the open upvalue of the slot change together, without a barrier. */
  lemma SetCapturedOk(s: State, t: Id, refs: seq<Id>, x: Id, value: seq<Id>)
    requires Inv(s) && t in s.heap && s.heap[t].kind == ThreadK && AllReachable(s, refs)
    requires t in s.open && x in s.open[t] && x in s.heap && forall r :: r in value ==> r in refs
    ensures var u := SetRefs(SetRefs(s, t, refs), x, value); Inv(u) && KeepsReachable(s, u)
  {
    hide *;
    OpenPresent(s, t, x);
    UpvalNotBlack(s, t, x);
    AllAlive(s, refs);
    SetStackOk(s, t, refs);
    StackSet(s, t, refs, x, value);
    SetRefsInv(SetRefs(s, t, refs), x, value);
    NothingLost(s, SetRefs(SetRefs(s, t, refs), x, value));
  }

  lemma StackSet(s: State, t: Id, refs: seq<Id>, x: Id, value: seq<Id>)
    requires t in s.heap && x in s.heap && x != t && forall r :: r in refs ==> Alive(s, r)
    ensures var u := SetRefs(s, t, refs);
      && x in u.heap && u.heap[x] == s.heap[x] && (forall r :: r in refs ==> Alive(u, r))
      && forall y :: y in s.heap ==> y in SetRefs(u, x, value).heap
  {}

  lemma WriteOk(s: State, o: Id, refs: seq<Id>, v: Id)
    requires Inv(s) && StoreGuard(s, o, refs, v) && (s.phase == Propagate ==> RefsPresent(SetRefs(s, o, refs)))
    ensures Inv(Store(s, o, refs, v)) && KeepsReachable(s, Store(s, o, refs, v))
  {
    hide Inv, Reachable;
    StoreInv(s, o, refs, v);
    NothingLost(s, Store(s, o, refs, v));
  }

  lemma FullCollectOk(s: State)
    requires Inv(s)
    ensures Inv(FullGc(s)) && KeepsReachable(s, FullGc(s))
  {
    hide Inv, FullGc, Reachable;
    FullGcExact(s);
    forall x | Reachable(s, x)
      ensures x in FullGc(s).heap
    {
      ReachAlive(s, x);
    }
  }

  /** Whatever a program or the collector does next, the invariant stays and no reachable
      object is freed. */
  lemma ActionOk(s: State, a: Action)
    requires Inv(s) && Enabled(s, a)
    ensures Ready(s, a) && Inv(Apply(s, a)) && KeepsReachable(s, Apply(s, a))
  {
    ActionReady(s, a);
    hide Inv, Reachable, KeepsReachable, Push, Store, SetRefs, Revive, AddRoot, AddString, AddOpen, CloseHead, Fix, SingleStep,
      FullGc, StepReady, CloseGuard, RefsPresent;
    match a
    case CollectStep => SingleStepOk(s);
    case FullCollect => FullCollectOk(s);
    case NewObject(x, kind, refs) => NewRootOk(s, x, kind, refs, 0);
    case NewUserdata(x, refs, at) => NewRootOk(s, x, UdataK, refs, at);
    case NewString(x, b) => NewStringOk(s, x, b);
    case FindString(x) => FindStringOk(s, x);
    case FixString(x) => FixStringOk(s, x);
    case Write(o, refs, v) => WriteOk(s, o, refs, v);
    case SetStack(t, refs) => SetStackOk(s, t, refs);
    case SetCaptured(t, refs, x, value) => SetCapturedOk(s, t, refs, x, value);
    case OpenUpvalue(x, refs, at) => OpenUpvalueOk(s, x, refs, at);
    case FindUpvalue(x, refs) => FindUpvalueOk(s, x, refs);
    case CloseUpvalue => CloseHeadInv(s, s.running);
    case Resume(t) => ResumeOk(s, t);
    case SetMetatables(mt) => SetMtOk(s, mt);
  }

  lemma ResumeOk(s: State, t: Id)
    requires Inv(s) && Reachable(s, t) && t in s.heap && s.heap[t].kind == ThreadK
    ensures Inv(s.(running := t)) && KeepsReachable(s, s.(running := t))
  {
    ReachAlive(s, t);
    assert Closed(s);
    AliveRoots(s);
    hide Inv, Reachable;
    RootsInv(s, s.(running := t));
    NothingLost(s, s.(running := t));
  }

  lemma SetMtOk(s: State, mt: seq<Id>)
    requires Inv(s) && AllReachable(s, mt)
    ensures Inv(s.(mt := mt)) && KeepsReachable(s, s.(mt := mt))
  {
    AllAlive(s, mt);
    assert Closed(s);
    AliveRoots(s);
    RunningThread(s);
    hide Inv, Reachable;
    RootsInv(s, s.(mt := mt));
    NothingLost(s, s.(mt := mt));
  }

  // ---------- Runs ----------

  /** The state lua_newstate builds: the main thread, its table of globals and the registry. */
  const MINSTRTABSIZE := 32

  function InitialState(): State {
    State(map[0 := Object(ThreadK, White(false), [1], InRoot, true),
              1 := Object(TableK, White(false), [], InRoot, false),
              2 := Object(TableK, White(false), [], InRoot, false)],
          false, Pause, [], [], seq(MINSTRTABSIZE, _ => []), 0, [2, 1, 0], 0, map[0 := []], [], 0, 2, 0, [])
  }

  lemma InitialHomes()
    ensures Homes(InitialState())
  {
    InitialRoots();
    InitialBuckets();
    InitialOpens();
  }

  lemma InitialRoots()
    ensures RootHomes(InitialState())
  {}

  lemma InitialBuckets()
    ensures BucketHomes(InitialState())
  {
    var s := InitialState();
    assert forall b :: 0 <= b < |s.strings| ==> s.strings[b] == [];
    assert forall x :: x in s.heap ==> s.heap[x].home == InRoot;
  }

  lemma InitialOpens()
    ensures OpenHomes(InitialState())
  {
    var s := InitialState();
    assert forall x :: x in s.heap ==> s.heap[x].home == InRoot;
  }

  lemma InitialLists()
    ensures NoRepeats(InitialState()) && Kinds(InitialState())
  {}

  lemma InitialShape()
    ensures Shape(InitialState())
  {
    hide Homes, NoRepeats, Kinds;
    InitialHomes();
    InitialLists();
  }

  lemma InitialInv()
    ensures Inv(InitialState())
  {
    InitialShape();
    hide Shape;
    assert Closed(InitialState());
    assert AllWhite(InitialState());
  }

  ghost predicate IsRun(states: seq<State>, actions: seq<Action>) {
    && |states| == |actions| + 1 && states[0] == InitialState()
    && forall i :: 0 <= i < |actions| ==>
         Enabled(states[i], actions[i]) && Ready(states[i], actions[i]) && states[i+1] == Apply(states[i], actions[i])
  }

  /** In every run no step frees an object that is reachable, and whatever the program can
      reach is always there and not about to be swept. */
  lemma {:induction false} RunsAreSafe(states: seq<State>, actions: seq<Action>)
    requires IsRun(states, actions)
    ensures forall i :: 0 <= i < |states| ==> Inv(states[i])
    ensures forall i, x :: 0 <= i < |actions| && Reachable(states[i], x) ==> x in states[i+1].heap
    ensures forall i, x :: 0 <= i < |states| && Reachable(states[i], x) ==> Alive(states[i], x)
    decreases |actions|
  {
    hide Inv, Reachable, Enabled, Ready, Apply, InitialState;
    var n := |actions|;
    if n == 0 {
      InitialInv();
    } else {
      assert IsRun(states[..n], actions[..n-1]);
      RunsAreSafe(states[..n], actions[..n-1]);
      assert states[..n][n-1] == states[n-1];
      ActionOk(states[n-1], actions[n-1]);
      forall i | 0 <= i < |states|
        ensures Inv(states[i])
      {
        if i < n {
          assert states[i] == states[..n][i];
        }
      }
      forall i, x | 0 <= i < n && Reachable(states[i], x)
        ensures x in states[i+1].heap
      {
        if i < n - 1 {
          assert states[i] == states[..n][i] && states[i+1] == states[..n][i+1];
        }
      }
    }
    forall i, x | 0 <= i < |states| && Reachable(states[i], x)
      ensures Alive(states[i], x)
    {
      ReachAlive(states[i], x);
    }
  }
}
