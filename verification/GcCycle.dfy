/** The steps of the collector: starting a cycle, the atomic end of the mark phase, the
    sweep phases and a full collection. */
module GcCycle {
  import opened GcHeap
  import opened GcMark
  import opened GcPropagate
  import opened GcSweep

  const GCSWEEPMAX := 40

  // ---------- Starting and ending the mark phase ----------

  /** The global table is the first thing a thread refers to. */
  function GlobalsOf(o: Object): seq<Id> { if o.refs == [] then [] else [o.refs[0]] }

  ghost predicate MarkReady(s: State) {
    && RefsPresent(s) && s.mainthread in s.heap && s.registry in s.heap && s.running in s.heap
    && forall m :: m in s.mt ==> m in s.heap
  }

  /** Marks one object and then a list of others. */
  function MarkThen(s: State, x: Id, list: seq<Id>): (u: State)
    requires RefsPresent(s) && x in s.heap && forall r :: r in list ==> r in s.heap
    ensures OnlyMarks(s, u) && !IsWhite(u, x) && forall r :: r in list ==> !IsWhite(u, r)
  {
    MarksCompose(s, Mark(s, x), MarkAll(Mark(s, x), list));
    MarkAll(Mark(s, x), list)
  }

  lemma MarkThenGood(s: State, x: Id, list: seq<Id>)
    requires Good(s, {}) && Kinds(s) && x in s.heap && forall r :: r in list ==> r in s.heap
    ensures Good(MarkThen(s, x, list), {}) && Kinds(MarkThen(s, x, list))
    ensures OpenMarked(s, {}) ==> OpenMarked(MarkThen(s, x, list), {})
    ensures OnlyPropagates(s, MarkThen(s, x, list))
  {
    hide Good, Kinds, OpenMarked, Whites;
    GoodRefs(s);
    MarkGood(s, x, {});
    MarkAllGood(Mark(s, x), list, {});
    MarksPropagate(s, MarkThen(s, x, list));
  }

  lemma MarkThenPrecise(s: State, x: Id, list: seq<Id>)
    requires RefsPresent(s) && Precise(s) && x in s.heap && Reachable(s, x)
    requires forall r :: r in list ==> r in s.heap && Reachable(s, r)
    ensures Precise(MarkThen(s, x, list))
  {
    MarkPrecise(s, x);
    var s1 := Mark(s, x);
    forall r | r in list
      ensures Reachable(s1, r)
    {
      SameGraphReach(s, s1, r);
    }
    MarkAllPrecise(s1, list);
  }

  lemma GoodRefs(s: State)
    requires Good(s, {})
    ensures RefsPresent(s)
  {}

  lemma MarksPropagate(s: State, u: State)
    requires OnlyMarks(s, u)
    ensures OnlyPropagates(s, u)
  {}

  /** markroot: empties the gray lists and marks the main thread, its globals, the registry
      and the metatables of the basic types. */
  function MarkRoot(s: State): State
    requires MarkReady(s)
  {
    var s1 := MarkThen(s.(gray := [], grayagain := []), s.mainthread, GlobalsOf(s.heap[s.mainthread]));
    MarkThen(s1, s.registry, s.mt).(phase := Propagate)
  }

  function RemarkOne(s: State, x: Id): (u: State)
    requires RefsPresent(s) && x in s.heap
    ensures OnlyMarks(s, u)
  {
    if s.heap[x].color.Gray? then MarkAll(s, s.heap[x].refs) else s
  }

  /** remarkupvals: marks again the value of every gray open upvalue. */
  function RemarkUpvals(s: State, list: seq<Id>): (u: State)
    requires RefsPresent(s) && forall x :: x in list ==> x in s.heap
    ensures OnlyMarks(s, u)
    decreases |list|
  {
    if list == [] then s
    else
      var s1 := RemarkOne(s, list[0]);
      var u := RemarkUpvals(s1, list[1..]);
      MarksCompose(s, s1, u);
      u
  }

  ghost predicate AtomicReady(s: State) {
    && Good(s, {}) && Kinds(s) && MarkReady(s) && s.gray == []
    && OpenHomes(s) && forall x :: x in s.uvhead ==> x in s.heap
  }

  /** The values of open upvalues, and what they lead to. */
  function FirstWave(s: State): (u: State)
    requires AtomicReady(s)
    ensures Good(u, {}) && Kinds(u) && u.gray == [] && OnlyPropagates(s, u)
  {
    RemarkGood(s, s.uvhead);
    var a := RemarkUpvals(s, s.uvhead);
    MarksPropagate(s, a);
    PropagatesCompose(s, a, PropagateAll(a));
    PropagateAll(a)
  }

  /** The running thread and the metatables of the basic types. */
  function SecondWave(s: State): (u: State)
    requires Good(s, {}) && Kinds(s) && MarkReady(s)
    ensures Good(u, {}) && Kinds(u) && u.gray == [] && OnlyPropagates(s, u)
  {
    MarkThenGood(s, s.running, s.mt);
    var a := MarkThen(s, s.running, s.mt);
    PropagatesCompose(s, a, PropagateAll(a));
    PropagateAll(a)
  }

  function TakeAgain(s: State): State { s.(gray := s.grayagain, grayagain := []) }

  /** The objects kept for a second traversal. */
  function LastWave(s: State): (u: State)
    requires Good(s, {}) && Kinds(s) && s.gray == []
    ensures Good(u, {}) && Kinds(u) && u.gray == [] && OnlyPropagates(s, u)
  {
    TakeAgainGood(s);
    PropagatesCompose(s, TakeAgain(s), PropagateAll(TakeAgain(s)));
    PropagateAll(TakeAgain(s))
  }

  lemma ReadyStill(s: State, u: State)
    requires OnlyPropagates(s, u) && MarkReady(s)
    ensures MarkReady(u)
  {}

  /** The marks that atomic adds before it flips the white. */
  function AtomicMarks(s: State): (u: State)
    requires AtomicReady(s)
    ensures Good(u, {}) && Kinds(u) && u.gray == [] && OnlyPropagates(s, u)
  {
    var a1 := FirstWave(s);
    ReadyStill(s, a1);
    var a2 := SecondWave(a1);
    PropagatesCompose(s, a1, a2);
    PropagatesCompose(s, a2, LastWave(a2));
    LastWave(a2)
  }

  /** atomic, in a heap without weak tables and finalizers. */
  function Atomic(s: State): State
    requires AtomicReady(s)
  {
    AtomicMarks(s).(white := !s.white, sweepstr := 0, sweepgc := 0, phase := SweepString)
  }

  /** Open upvalues turned gray between s and u, or gray in list all along, have their value marked. */
  ghost predicate Remarked(s: State, u: State, list: seq<Id>)
    requires u.heap.Keys == s.heap.Keys
  {
    forall x :: x in s.heap && u.heap[x].color.Gray? && IsOpen(u.heap[x]) && (IsWhite(s, x) || x in list) ==> RefsMarked(u, x)
  }

  lemma RemarkOneGood(s: State, x: Id)
    requires Good(s, {}) && Kinds(s) && x in s.heap
    ensures Good(RemarkOne(s, x), {}) && Kinds(RemarkOne(s, x)) && Remarked(s, RemarkOne(s, x), [x])
  {
    hide Good, Kinds, MarkAll, OnlyMarks, Whites;
    if s.heap[x].color.Gray? {
      GoodRefs(s);
      assert forall r :: r in s.heap[x].refs ==> r in s.heap;
      MarkAllGood(s, s.heap[x].refs, {});
      MarkAllFresh(s, s.heap[x].refs);
      MarkAllRefs(s, x);
    }
  }

  lemma MarkAllRefs(s: State, x: Id)
    requires RefsPresent(s) && x in s.heap && forall r :: r in s.heap[x].refs ==> r in s.heap
    ensures var u := MarkAll(s, s.heap[x].refs);
            && u.heap.Keys == s.heap.Keys && RefsMarked(u, x)
            && forall y :: y in s.heap ==> SameObject(s.heap[y], u.heap[y])
  {
    hide MarkAll;
  }

  lemma RemarkedNone(s: State)
    ensures Remarked(s, s, [])
  {}

  lemma RemarkedTrans(s: State, u: State, v: State, x: Id, list: seq<Id>)
    requires OnlyMarks(s, u) && OnlyMarks(u, v) && Remarked(s, u, [x]) && Remarked(u, v, list)
    ensures Remarked(s, v, [x] + list)
  {
    forall y | y in s.heap && v.heap[y].color.Gray? && IsOpen(v.heap[y]) && (IsWhite(s, y) || y in [x] + list)
      ensures RefsMarked(v, y)
    {
      if !IsWhite(u, y) && y !in list {
        RefsMarkedGrows(u, v, y);
      }
    }
  }

  lemma {:induction false} RemarkGood(s: State, list: seq<Id>)
    requires Good(s, {}) && Kinds(s) && forall x :: x in list ==> x in s.heap
    ensures Good(RemarkUpvals(s, list), {}) && Kinds(RemarkUpvals(s, list)) && Remarked(s, RemarkUpvals(s, list), list)
    decreases |list|
  {
    hide Good, Kinds, Remarked, RemarkOne, MarkAll, Whites;
    RemarkedNone(s);
    if list != [] {
      GoodRefs(s);
      var s1 := RemarkOne(s, list[0]);
      RemarkOneGood(s, list[0]);
      GoodRefs(s1);
      RemarkGood(s1, list[1..]);
      RemarkedTrans(s, s1, RemarkUpvals(s1, list[1..]), list[0], list[1..]);
      assert list == [list[0]] + list[1..];
    }
  }

  /** Open upvalues that marking turns gray have had their values marked with them. */
  lemma MarkAllFresh(s: State, refs: seq<Id>)
    requires Good(s, {}) && Kinds(s) && forall r :: r in refs ==> r in s.heap
    ensures var u := MarkAll(s, refs);
            forall x :: x in s.heap && IsWhite(s, x) && u.heap[x].color.Gray? && IsOpen(s.heap[x]) ==> RefsMarked(u, x)
  {
    var ex := set x | x in s.heap && !IsWhite(s, x);
    GoodMore(s, ex);
    MarkAllGood(s, refs, ex);
  }

  lemma GoodMore(s: State, ex: set<Id>)
    requires Good(s, {}) && forall x :: x in s.heap && s.heap[x].color.Gray? && IsOpen(s.heap[x]) ==> x in ex
    ensures Good(s, ex) && OpenMarked(s, ex)
  {}

  /** The mark invariant depends on the heap and on the two gray lists taken together. */
  lemma SameHeapGood(s: State, u: State)
    requires Good(s, {}) && u.heap == s.heap && u.gray + u.grayagain == s.gray + s.grayagain
    ensures Good(u, {}) && (OpenMarked(s, {}) ==> OpenMarked(u, {}))
  {
    assert forall x :: x in u.gray || x in u.grayagain <==> x in u.gray + u.grayagain;
    assert forall x :: x in s.gray || x in s.grayagain <==> x in s.gray + s.grayagain;
    assert forall x :: x in s.heap && RefsMarked(s, x) ==> RefsMarked(u, x);
  }

  lemma TakeAgainGood(s: State)
    requires Good(s, {}) && Kinds(s) && s.gray == []
    ensures Good(TakeAgain(s), {}) && Kinds(TakeAgain(s)) && OnlyPropagates(s, TakeAgain(s))
    ensures OpenMarked(s, {}) ==> OpenMarked(TakeAgain(s), {})
    ensures AgainMarked(TakeAgain(s))
  {
    hide Good, Kinds, OpenMarked;
    var u := TakeAgain(s);
    assert u.gray + u.grayagain == s.grayagain == s.gray + s.grayagain;
    SameHeapGood(s, u);
    KindsSame(s, u);
  }

  lemma RemarkOpen(s: State)
    requires Good(s, {}) && Kinds(s) && OpenHomes(s) && forall x :: x in s.uvhead ==> x in s.heap
    ensures OpenMarked(RemarkUpvals(s, s.uvhead), {}) && Good(RemarkUpvals(s, s.uvhead), {})
  {
    RemarkGood(s, s.uvhead);
    var u := RemarkUpvals(s, s.uvhead);
    forall x | x in u.heap && u.heap[x].color.Gray? && IsOpen(u.heap[x])
      ensures RefsMarked(u, x)
    {
      assert x in s.uvhead;
    }
  }

  ghost predicate RootsMarked(s: State) {
    forall x :: IsRoot(s, x) ==> x in s.heap && !IsWhite(s, x)
  }

  lemma RootsStill(s: State, u: State)
    requires OnlyPropagates(s, u) && RootsMarked(s)
    ensures RootsMarked(u)
  {}

  lemma FixedRootsStill(s: State, u: State)
    requires OnlyPropagates(s, u) && MarkReady(s) && !IsWhite(s, s.mainthread) && !IsWhite(s, s.registry)
    ensures MarkReady(u) && !IsWhite(u, u.mainthread) && !IsWhite(u, u.registry)
  {}

  /** At the end of the mark phase the roots are marked, the late ones included. */
  lemma AtomicRoots(s: State)
    requires AtomicReady(s) && !IsWhite(s, s.mainthread) && !IsWhite(s, s.registry)
    ensures RootsMarked(AtomicMarks(s))
  {
    hide Good, Kinds, OpenHomes, FirstWave, SecondWave, LastWave, OnlyPropagates, RootsMarked, MarkReady;
    var a1 := FirstWave(s);
    FixedRootsStill(s, a1);
    SecondWaveRoots(a1);
    RootsStill(SecondWave(a1), LastWave(SecondWave(a1)));
  }

  lemma SecondWaveRoots(s: State)
    requires Good(s, {}) && Kinds(s) && MarkReady(s) && !IsWhite(s, s.mainthread) && !IsWhite(s, s.registry)
    ensures RootsMarked(SecondWave(s))
  {
    hide Good, Kinds, PropagateAll, MarkThen;
    MarkThenGood(s, s.running, s.mt);
    assert RootsMarked(MarkThen(s, s.running, s.mt));
  }

  lemma FirstWaveOpen(s: State)
    requires AtomicReady(s)
    ensures OpenMarked(FirstWave(s), {})
  {
    hide Good, Kinds, OpenMarked, OpenHomes, PropagateAll, RemarkUpvals;
    RemarkOpen(s);
    RemarkGood(s, s.uvhead);
    PropagateAllKeeps(RemarkUpvals(s, s.uvhead));
  }

  lemma SecondWaveOpen(s: State)
    requires Good(s, {}) && Kinds(s) && MarkReady(s) && OpenMarked(s, {})
    ensures OpenMarked(SecondWave(s), {})
  {
    hide Good, Kinds, OpenMarked, PropagateAll, MarkThen;
    MarkThenGood(s, s.running, s.mt);
    PropagateAllKeeps(MarkThen(s, s.running, s.mt));
  }

  /** ... and the marked objects are closed under references. */
  lemma AtomicClosed(s: State)
    requires AtomicReady(s)
    ensures forall x :: x in s.heap && !IsWhite(AtomicMarks(s), x) ==> RefsMarked(AtomicMarks(s), x)
  {
    hide Good, Kinds, OpenMarked, AgainMarked, RefsMarked, OpenHomes, PropagateAll, FirstWave, SecondWave;
    var a1 := FirstWave(s);
    FirstWaveOpen(s);
    ReadyStill(s, a1);
    SecondWaveOpen(a1);
    var a2 := SecondWave(a1);
    TakeAgainGood(a2);
    PropagateAllKeeps(TakeAgain(a2));
    MarkedClosed(AtomicMarks(s));
  }

  lemma {:induction false} RemarkPrecise(s: State, list: seq<Id>)
    requires RefsPresent(s) && Precise(s) && forall x :: x in list ==> x in s.heap
    ensures Precise(RemarkUpvals(s, list))
    decreases |list|
  {
    if list != [] {
      var s1 := RemarkOne(s, list[0]);
      if s.heap[list[0]].color.Gray? {
        forall r | r in s.heap[list[0]].refs
          ensures Reachable(s, r)
        {
          ReachRef(s, list[0], r);
        }
        MarkAllPrecise(s, s.heap[list[0]].refs);
      }
      RemarkPrecise(s1, list[1..]);
    }
  }

  lemma FirstWavePrecise(s: State)
    requires AtomicReady(s) && Precise(s)
    ensures Precise(FirstWave(s))
  {
    hide Good, Kinds, OpenHomes, PropagateAll, RemarkUpvals, Precise;
    GoodRefs(s);
    RemarkGood(s, s.uvhead);
    RemarkPrecise(s, s.uvhead);
    PropagateAllKeeps(RemarkUpvals(s, s.uvhead));
  }

  lemma SecondWavePrecise(s: State)
    requires Good(s, {}) && Kinds(s) && MarkReady(s) && Precise(s)
    ensures Precise(SecondWave(s))
  {
    hide Good, Kinds, PropagateAll, MarkThen, Precise;
    MarkThenGood(s, s.running, s.mt);
    forall r | IsRoot(s, r)
      ensures Reachable(s, r)
    {
      ReachRoot(s, r);
    }
    MarkThenPrecise(s, s.running, s.mt);
    PropagateAllKeeps(MarkThen(s, s.running, s.mt));
  }

  lemma AtomicPrecise(s: State)
    requires AtomicReady(s) && Precise(s)
    ensures Precise(AtomicMarks(s))
  {
    hide Good, Kinds, OpenHomes, PropagateAll, FirstWave, SecondWave, Precise;
    var a1 := FirstWave(s);
    FirstWavePrecise(s);
    ReadyStill(s, a1);
    SecondWavePrecise(a1);
    var a2 := SecondWave(a1);
    TakeAgainGood(a2);
    PreciseThrough(a2, TakeAgain(a2));
    PropagateAllKeeps(TakeAgain(a2));
  }

  // ---------- Starting a cycle ----------

  ghost predicate Idle(s: State) { s.phase == Pause || s.phase == Finalize }

  lemma IdleReady(s: State)
    requires Inv(s) && (Idle(s) || s.phase == Propagate)
    ensures MarkReady(s)
  {
    assert NoDead(s);
    assert IsRoot(s, s.mainthread) && IsRoot(s, s.registry) && IsRoot(s, s.running);
    assert forall m :: m in s.mt ==> IsRoot(s, m);
  }

  /** An all-white heap with empty gray lists meets the tri-colour invariant. */
  lemma EmptyGood(s: State)
    requires AllWhite(s) && RefsPresent(s)
    ensures Good(s.(gray := [], grayagain := []), {}) && Precise(s.(gray := [], grayagain := []))
  {}

  lemma MarkRootGood(s: State)
    requires MarkReady(s) && AllWhite(s) && Kinds(s)
    ensures var u := MarkRoot(s);
            && Good(u, {}) && Kinds(u) && OnlyPropagates(s, u.(phase := s.phase)) && u.phase == Propagate
            && !IsWhite(u, s.mainthread) && !IsWhite(u, s.registry)
  {
    hide Good, Kinds, Whites, MarkThen;
    EmptyGood(s);
    var s0 := s.(gray := [], grayagain := []);
    KindsSame(s, s0);
    MarkThenGood(s0, s.mainthread, GlobalsOf(s.heap[s.mainthread]));
    var s1 := MarkThen(s0, s.mainthread, GlobalsOf(s.heap[s.mainthread]));
    MarkThenGood(s1, s.registry, s.mt);
    var s2 := MarkThen(s1, s.registry, s.mt);
    PropagatesCompose(s, s0, s1);
    PropagatesCompose(s, s1, s2);
    SameHeapGood(s2, s2.(phase := Propagate));
    KindsPhase(s2, Propagate);
  }

  lemma KindsPhase(s: State, p: Phase)
    requires Kinds(s)
    ensures Kinds(s.(phase := p))
  {}

  lemma MarkRootPrecise(s: State)
    requires MarkReady(s) && AllWhite(s)
    ensures Precise(MarkRoot(s))
  {
    var s0 := s.(gray := [], grayagain := []);
    EmptyGood(s);
    hide Whites, Precise, MarkThen;
    ReachRoot(s0, s.mainthread);
    forall r | r in GlobalsOf(s.heap[s.mainthread])
      ensures Reachable(s0, r)
    {
      ReachRef(s0, s.mainthread, r);
    }
    MarkThenPrecise(s0, s.mainthread, GlobalsOf(s.heap[s.mainthread]));
    var s1 := MarkThen(s0, s.mainthread, GlobalsOf(s.heap[s.mainthread]));
    forall r | IsRoot(s1, r)
      ensures Reachable(s1, r)
    {
      ReachRoot(s1, r);
    }
    MarkThenPrecise(s1, s.registry, s.mt);
    PrecisePhase(MarkThen(s1, s.registry, s.mt), Propagate);
  }

  lemma PrecisePhase(s: State, p: Phase)
    requires Precise(s)
    ensures Precise(s.(phase := p))
  {
    PreciseThrough(s, s.(phase := p));
  }

  // ---------- The invariant through marking ----------

  lemma ShapeThrough(s: State, u: State)
    requires Shape(s) && OnlyPropagates(s, u)
    ensures Shape(u)
  {
    hide NoRepeats, Homes, Kinds;
    HomesSame(s, u);
    KindsSame(s, u);
    NoRepeatsSame(s, u);
  }

  lemma HomesSame(s: State, u: State)
    requires Homes(s) && OnlyPropagates(s, u)
    ensures Homes(u)
  {
    assert forall x :: x in s.heap ==> SameObject(s.heap[x], u.heap[x]);
    hide Homes;
    HomesKept(s, u);
  }

  lemma NoRepeatsSame(s: State, u: State)
    requires NoRepeats(s) && OnlyPropagates(s, u)
    ensures NoRepeats(u)
  {}

  /** While marks propagate nothing is dead, so marking keeps the heap closed. */
  lemma ClosedThrough(s: State, u: State)
    requires Closed(s) && NoDead(s) && OnlyPropagates(s, u)
    ensures Closed(u) && NoDead(u)
  {
    hide Closed;
    forall x | x in u.heap
      ensures !Dead(u, x) && u.heap[x].refs == s.heap[x].refs
    {
      assert SameObject(s.heap[x], u.heap[x]);
    }
    ClosedKept(s, u);
  }

  lemma PropagateInv(s: State)
    requires Inv(s) && s.phase == Propagate
    ensures Good(s, {}) && Kinds(s) && MarkReady(s)
  {
    IdleReady(s);
  }

  /** Marks that keep the tri-colour invariant keep the whole invariant of the mark phase. */
  lemma MarkingInv(s: State, u: State)
    requires Inv(s) && s.phase == Propagate && OnlyPropagates(s, u) && Good(u, {})
    ensures Inv(u)
  {
    hide Shape, Closed, TriColor, NeverBlack, NoDead, Kinds;
    PropagateInv(s);
    FixedRootsStill(s, u);
    ShapeThrough(s, u);
    ClosedThrough(s, u);
  }

  /** The mark phase is over: roots are marked, and what is marked refers to marked objects. */
  ghost predicate MarkComplete(m: State) {
    && Shape(m) && NoDead(m) && NeverBlack(m) && RootsMarked(m)
    && forall x :: x in m.heap && !IsWhite(m, x) ==> RefsMarked(m, x)
  }

  lemma AtomicComplete(s: State)
    requires Inv(s) && s.phase == Propagate && s.gray == []
    ensures AtomicReady(s) && MarkComplete(AtomicMarks(s))
  {
    PropagateInv(s);
    AtomicHomes(s);
    hide Shape, Closed, Good, Kinds, NoDead, NeverBlack, AtomicMarks, RefsMarked, RootsMarked, TriColor;
    AtomicRoots(s);
    AtomicClosed(s);
    ShapeThrough(s, AtomicMarks(s));
    ClosedThrough(s, AtomicMarks(s));
    GoodNeverBlack(AtomicMarks(s));
  }

  lemma FlipInv(m: State, u: State)
    requires MarkComplete(m) && Flipped(m, u)
    ensures Inv(u) && forall x :: x in u.heap ==> (Dead(u, x) <==> IsWhite(m, x))
  {
    hide Shape, NoDead, NeverBlack, RootsMarked, RefsMarked, Closed, SweptWhite;
    FlipDead(m, u);
    assert SameLinks(m, u);
    LinksShape(m, u);
    FlipClosed(m, u);
    StartOfSweep(u);
    FlipNeverBlack(m, u);
  }

  /** Atomic turns the marks into the sweep invariant: what was not marked is now dead. */
  lemma AtomicOk(s: State)
    requires Inv(s) && s.phase == Propagate && s.gray == []
    ensures AtomicReady(s) && Inv(Atomic(s))
    ensures forall x :: x in s.heap ==> (Dead(Atomic(s), x) <==> IsWhite(AtomicMarks(s), x))
  {
    AtomicComplete(s);
    hide Inv, MarkComplete, AtomicMarks;
    FlipInv(AtomicMarks(s), Atomic(s));
  }

  lemma AtomicHomes(s: State)
    requires Inv(s)
    ensures OpenHomes(s) && forall x :: x in s.uvhead ==> x in s.heap
  {}

  lemma GoodNeverBlack(s: State)
    requires Good(s, {})
    ensures NeverBlack(s)
  {}

  ghost predicate Flipped(m: State, u: State) {
    u == m.(white := !m.white, sweepstr := 0, sweepgc := 0, phase := SweepString)
  }

  lemma FlipDead(m: State, u: State)
    requires NoDead(m) && Flipped(m, u)
    ensures forall x :: x in u.heap ==> (Dead(u, x) <==> IsWhite(m, x))
  {}

  lemma FlipNeverBlack(m: State, u: State)
    requires NeverBlack(m) && Flipped(m, u)
    ensures NeverBlack(u)
  {}

  /** The structure does not depend on the phase, the white or the sweep pointers. */
  ghost predicate SameLinks(s: State, u: State) {
    u.heap == s.heap && u.strings == s.strings && u.rootgc == s.rootgc && u.open == s.open && u.uvhead == s.uvhead
    && u.mainthread == s.mainthread && u.running == s.running
    && u.sweepstr <= |u.strings| && u.sweepgc <= |u.rootgc|
  }

  lemma LinksHomes(s: State, u: State)
    requires SameLinks(s, u) && Homes(s)
    ensures Homes(u)
  {}

  lemma LinksKinds(s: State, u: State)
    requires SameLinks(s, u) && Kinds(s) && NoRepeats(s)
    ensures Kinds(u) && NoRepeats(u)
  {}

  lemma LinksShape(s: State, u: State)
    requires SameLinks(s, u) && Shape(s)
    ensures Shape(u)
  {
    hide Homes, Kinds, NoRepeats;
    LinksHomes(s, u);
    LinksKinds(s, u);
  }

  lemma FlipClosed(m: State, u: State)
    requires RootsMarked(m) && NoDead(m) && Flipped(m, u)
    requires forall x :: x in m.heap && !IsWhite(m, x) ==> RefsMarked(m, x)
    ensures Closed(u)
  {
    FlipDead(m, u);
    assert forall x :: IsRoot(u, x) <==> IsRoot(m, x);
  }

  /** With the sweep pointers at the start, nothing has been swept. */
  lemma StartOfSweep(u: State)
    requires Shape(u) && u.sweepstr == 0 && u.sweepgc == 0 && u.phase == SweepString
    ensures u.sweepgc <= |u.rootgc| && SweptWhite(u)
  {
    hide NoRepeats;
    assert u.rootgc[0..] == u.rootgc;
    forall x | x in u.heap
      ensures Unswept(u, x)
    {
      if u.heap[x].home.InOpen? {
        var t := u.heap[x].home.thread;
        assert t in u.open && u.heap[t].kind == ThreadK && u.heap[t].home == InRoot;
      }
    }
  }

  // ---------- singlestep ----------

  /** sweeplist over at most count objects of rootgc. */
  function SweepRoot(s: State, count: nat): (u: State)
    requires SweepInv(s) && s.phase == Sweep
    ensures SweepInv(u) && u.phase == Sweep && OnlyGarbageLost(s, u)
    ensures s.sweepgc >= |s.rootgc| ==> u == s
    ensures |u.rootgc| - u.sweepgc + |u.uvhead| <= |s.rootgc| - s.sweepgc + |s.uvhead|
    ensures count > 0 && s.sweepgc < |s.rootgc| ==>
              |u.rootgc| - u.sweepgc + |u.uvhead| < |s.rootgc| - s.sweepgc + |s.uvhead|
    decreases count
  {
    LostSelf(s);
    if count == 0 || s.sweepgc >= |s.rootgc| then s
    else
      RootIsReady(s);
      SweepRootOneOk(s);
      SweepRootOneSize(s);
      var s1 := SweepRootOne(s);
      var u := SweepRoot(s1, count - 1);
      LostTrans(s, s1, u);
      u
  }

  ghost predicate StepReady(s: State) {
    match s.phase
    case Pause => MarkReady(s)
    case Propagate => if s.gray == [] then AtomicReady(s) else s.gray[0] in s.heap && RefsPresent(s)
    case SweepString =>
      && s.sweepstr < |s.strings| && Distinct(s.strings[s.sweepstr])
      && forall x :: x in s.strings[s.sweepstr] ==> x in s.heap
    case Sweep => SweepInv(s)
    case Finalize => true
  }

  /** singlestep: one unit of collector work. */
  function SingleStep(s: State): State
    requires StepReady(s)
  {
    match s.phase
    case Pause => MarkRoot(s)
    case Propagate => if s.gray != [] then PropagateMark(s) else Atomic(s)
    case SweepString => SweepBucket(s)
    case Sweep =>
      var u := SweepRoot(s, GCSWEEPMAX);
      if u.sweepgc >= |u.rootgc| then u.(phase := Finalize) else u
    case Finalize => s.(phase := Pause)
  }

  lemma StepIsReady(s: State)
    requires Inv(s)
    ensures StepReady(s)
  {
    match s.phase
    case Pause => IdleReady(s);
    case Propagate =>
      if s.gray == [] {
        AtomicOk(s);
      } else {
        PropagateInv(s);
        assert s.gray[0] in s.gray;
      }
    case SweepString => BucketReady(s);
    case Sweep =>
    case Finalize =>
  }

  lemma PauseStepOk(s: State)
    requires Inv(s) && Idle(s) && MarkReady(s)
    ensures Inv(MarkRoot(s)) && MarkRoot(s).heap.Keys == s.heap.Keys
  {
    MarkRootGood(s);
    var u := MarkRoot(s);
    var v := u.(phase := s.phase);
    assert NoDead(s);
    hide Shape, Closed, Kinds, Good, NoDead, MarkRoot, MarkReady;
    ShapeThrough(s, v);
    ClosedThrough(s, v);
    PhaseOnly(v, u);
    MarkStarted(u);
  }

  lemma PhaseClosed(s: State, u: State)
    requires u == s.(phase := u.phase) && Closed(s) && NoDead(s)
    ensures Closed(u) && NoDead(u)
  {
    hide Closed;
    ClosedKept(s, u);
  }

  lemma PhaseOnly(s: State, u: State)
    requires u == s.(phase := u.phase) && Shape(s) && Closed(s) && NoDead(s)
    ensures Shape(u) && Closed(u) && NoDead(u)
  {
    assert SameLinks(s, u);
    hide Shape, Closed, NoDead;
    LinksShape(s, u);
    PhaseClosed(s, u);
  }

  lemma MarkStarted(u: State)
    requires Shape(u) && Closed(u) && NoDead(u) && Good(u, {}) && u.phase == Propagate
    requires u.mainthread in u.heap && u.registry in u.heap
    requires !IsWhite(u, u.mainthread) && !IsWhite(u, u.registry)
    ensures Inv(u)
  {
    hide Shape, Closed, NoDead;
  }

  lemma PropagateStepOk(s: State)
    requires Inv(s) && s.phase == Propagate && s.gray != [] && s.gray[0] in s.heap && RefsPresent(s)
    ensures Inv(PropagateMark(s)) && OnlyPropagates(s, PropagateMark(s)) && Good(PropagateMark(s), {})
  {
    PropagateInv(s);
    PropagateMarkGood(s);
    PropagateMarkFrame(s);
    hide Inv, PropagateMark, Good;
    MarkingInv(s, PropagateMark(s));
  }

  /** The last sweep step leaves only current white. */
  lemma SweepEnds(s: State)
    requires SweepInv(s) && s.phase == Sweep && s.sweepgc >= |s.rootgc|
    ensures Inv(s.(phase := Finalize))
  {
    var u := s.(phase := Finalize);
    assert s.rootgc[s.sweepgc..] == [];
    assert AllWhite(u);
    assert AllWhite(s);
    AllWhiteNoDead(s);
    hide AllWhite, Shape, Closed, NoDead;
    PhaseOnly(s, u);
    assert NeverBlack(u);
  }

  lemma AllWhiteNoDead(s: State)
    requires AllWhite(s)
    ensures NoDead(s)
  {}

  lemma SweepStepOk(s: State)
    requires Inv(s) && s.phase == Sweep
    ensures Inv(SingleStep(s)) && KeepsReachable(s, SingleStep(s)) && OnlyGarbageLost(s, SingleStep(s))
  {
    hide SweepRoot;
    var u := SweepRoot(s, GCSWEEPMAX);
    if u.sweepgc >= |u.rootgc| {
      SweepEnds(u);
    }
    LostPhase(s, u, SingleStep(s).phase);
    GarbageUnreachable(s, SingleStep(s));
  }

  lemma LostPhase(s: State, u: State, p: Phase)
    requires OnlyGarbageLost(s, u)
    ensures OnlyGarbageLost(s, u.(phase := p))
  {}

  lemma FinalizeStepOk(s: State)
    requires Inv(s) && s.phase == Finalize
    ensures Inv(s.(phase := Pause))
  {
    AllWhiteNoDead(s);
    PhaseOnly(s, s.(phase := Pause));
  }

  /** Every step of the collector keeps the invariant and erases nothing reachable. */
  lemma SingleStepOk(s: State)
    requires Inv(s)
    ensures StepReady(s) && Inv(SingleStep(s)) && KeepsReachable(s, SingleStep(s))
  {
    StepIsReady(s);
    hide Inv, KeepsReachable, MarkRoot, PropagateMark, Atomic, SweepBucket, SweepRoot, SweepInv, AtomicReady, MarkReady, RefsPresent,
      OnlyGarbageLost, Good, Distinct;
    match s.phase
    case Pause =>
      PauseStepOk(s);
      AllKept(s, SingleStep(s));
    case Propagate =>
      if s.gray != [] {
        PropagateStepOk(s);
        SameKeys(s, SingleStep(s));
      } else {
        AtomicOk(s);
        AtomicKeys(s);
      }
      AllKept(s, SingleStep(s));
    case SweepString => BucketStepOk(s);
    case Sweep => SweepStepOk(s);
    case Finalize =>
      FinalizeStepOk(s);
      AllKept(s, SingleStep(s));
  }

  lemma SameKeys(s: State, u: State)
    requires OnlyPropagates(s, u)
    ensures u.heap.Keys == s.heap.Keys
  {}

  lemma AtomicKeys(s: State)
    requires AtomicReady(s)
    ensures Atomic(s).heap.Keys == s.heap.Keys
  {
    hide AtomicMarks, AtomicReady;
  }

  lemma SweepNow(s: State)
    requires Inv(s) && s.phase == SweepString && StepReady(s)
    ensures SweepInv(s) && Closed(s) && s.sweepstr < |s.strings| && Distinct(s.strings[s.sweepstr])
    ensures forall x :: x in s.strings[s.sweepstr] ==> x in s.heap
  {
    hide Shape, NeverBlack, SweptWhite;
  }

  lemma BucketStepOk(s: State)
    requires Inv(s) && s.phase == SweepString && StepReady(s)
    ensures Inv(SweepBucket(s)) && KeepsReachable(s, SweepBucket(s))
  {
    SweepNow(s);
    hide Inv, SweepInv, StepReady, Whites, SweepBucket, Shape, Closed, NeverBlack, SweptWhite, OnlyGarbageLost, KeepsReachable;
    SweepBucketOk(s);
    GarbageUnreachable(s, SweepBucket(s));
  }

  lemma AllKept(s: State, u: State)
    requires Inv(s) && u.heap.Keys == s.heap.Keys
    ensures KeepsReachable(s, u)
  {
    forall x | Reachable(s, x)
      ensures x in u.heap
    {
      ReachableNotDead(s, x);
    }
  }
}
