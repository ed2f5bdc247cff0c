/** The collector as it runs: the global state updated in place, each operation tied to the
    function of GcMark, GcSweep, GcCycle or GcMutator that says what it computes. */
module CollectorObject {
  import opened GcHeap
  import opened GcMark
  import opened GcPropagate
  import opened GcSweep
  import opened GcCycle
  import opened GcFull
  import opened GcMutator
  import opened GcRuns
  import opened GcProgram

  // ---------- Facts the methods need ----------

  lemma MarksPresent(s: State, u: State)
    requires OnlyMarks(s, u) && RefsPresent(s)
    ensures RefsPresent(u)
  {}

  lemma MarksSelf(s: State)
    ensures OnlyMarks(s, s)
  {}

  lemma MarkAllNone(s: State)
    requires RefsPresent(s)
    ensures MarkAll(s, []) == s
  {}

  /** Marking leaves no more to mark, which is what bounds the recursion. */
  lemma MarksFewer(s: State, u: State)
    requires OnlyMarks(s, u)
    ensures u == s || Whites(u) < Whites(s)
  {}

  lemma MarkAllAt(s: State, refs: seq<Id>, i: nat)
    requires RefsPresent(s) && i < |refs| && forall r :: r in refs[i..] ==> r in s.heap
    ensures refs[i] in s.heap && (forall r :: r in refs[i+1..] ==> r in s.heap)
    ensures var u := Mark(s, refs[i]);
      && OnlyMarks(s, u) && RefsPresent(u) && (forall r :: r in refs[i+1..] ==> r in u.heap)
      && MarkAll(s, refs[i..]) == MarkAll(u, refs[i+1..])
  {
    hide Mark, Whites;
    var rest := refs[i..];
    assert rest[0] == refs[i] && rest[1..] == refs[i+1..];
    MarksPresent(s, Mark(s, refs[i]));
  }

  lemma NoListsPresent(s: State)
    requires RefsPresent(s)
    ensures RefsPresent(s.(gray := [], grayagain := []))
  {}

  lemma GlobalsPresent(s: State)
    requires MarkReady(s)
    ensures forall r :: r in GlobalsOf(s.heap[s.mainthread]) ==> r in s.heap
  {}

  /** The first half of markroot: the main thread and its globals. */
  function MainMarked(s: State): (u: State)
    requires MarkReady(s)
    ensures RefsPresent(u) && u.registry == s.registry && u.registry in u.heap && u.mt == s.mt && forall r :: r in u.mt ==> r in u.heap
  {
    NoListsPresent(s);
    GlobalsPresent(s);
    var s0 := s.(gray := [], grayagain := []);
    var u := MarkThen(s0, s.mainthread, GlobalsOf(s.heap[s.mainthread]));
    MarksPresent(s0, u);
    u
  }

  lemma RootSteps(s: State)
    requires MarkReady(s)
    ensures MarkRoot(s) == MarkThen(MainMarked(s), s.registry, s.mt).(phase := Propagate)
  {
    hide MarkThen, Whites, RefsPresent, GlobalsOf;
  }

  /** A freshly swept open upvalue is neither freed nor repainted when it is closed. */
  lemma CurrentMoves(s: State, t: Id)
    requires t in s.open && s.open[t] != [] && AllCurrent(s, t) && s.phase != Propagate
    requires s.open[t][0] in s.heap
    ensures CloseHead(s, t) == MoveHead(s, t) && MoveHead(s, t).phase == s.phase && t in MoveHead(s, t).open
  {}

  /** Unlinking a thread before or after its upvalues are closed leaves the same lists. */
  lemma {:induction false} CloseUnlinked(s: State, t: Id)
    requires t in s.open && forall y :: y in s.open[t] ==> y in s.heap && y != t
    ensures CloseAll(Unlink(s, t), t) == Unlink(CloseAll(s, t), t)
    decreases |s.open[t]|
  {
    if s.open[t] != [] {
      assert s.open[t][0] in s.open[t];
      var x := s.open[t][0];
      assert [x] + s.rootgc == s.rootgc[..0] + [x] + s.rootgc[0..];
      assert ([x] + s.rootgc)[1..] == s.rootgc;
      assert Without([x] + s.rootgc, t) == [x] + Without(s.rootgc, t);
      assert [x] + Without(s.rootgc, t) == Without(s.rootgc, t)[..0] + [x] + Without(s.rootgc, t)[0..];
      assert MoveHead(Unlink(s, t), t) == Unlink(MoveHead(s, t), t);
      assert MoveHead(s, t).open[t] == s.open[t][1..];
      assert forall y :: y in s.open[t][1..] ==> y in s.open[t];
      CloseUnlinked(MoveHead(s, t), t);
    }
  }

  /** What the turn of the sweep at the sweep pointer relies on. */
  lemma SweepAt(s: State)
    requires SweepInv(s) && s.sweepgc < |s.rootgc|
    ensures RootReady(s) && Distinct(s.rootgc) && s.heap[s.rootgc[s.sweepgc]].home == InRoot
  {
    assert Shape(s);
    hide BucketHomes, OpenHomes, RootHomes, Kinds;
    RootIsReady(s);
  }

  /** The object at the sweep pointer can be freed: a thread has only swept upvalues left. */
  ghost predicate FreeReady(s: State, x: Id) {
    && s.sweepgc < |s.rootgc| && x == s.rootgc[s.sweepgc] && Distinct(s.rootgc) && s.phase != Propagate
    && x in s.heap && s.heap[x].home == InRoot
    && (s.heap[x].kind == ThreadK ==>
          && x in s.open && x !in s.open[x] && AllCurrent(s, x)
          && forall y :: y in s.open[x] ==> y !in s.rootgc)
  }

  /** The thread at the sweep pointer after its open upvalues have been swept. */
  lemma SweepAtThread(s: State, x: Id)
    requires SweepInv(s) && s.phase == Sweep && RootReady(s) && x == s.rootgc[s.sweepgc] && s.heap[x].kind == ThreadK
    ensures FreeReady(SweepOpen(s, x), x) && SweepOpen(s, x).sweepgc == s.sweepgc
  {
    var u := SweepOpen(s, x);
    assert Shape(s);
    SweepAt(s);
    hide SweepOpen, SweepInv, Shape, OpenSwept, Distinct;
    SweepOpenIs(s, x);
    SweepOpenRoot(s, u, x);
    OpenAreUpvals(s, x);
    OpenSweptAre(s, u, x);
  }

  lemma SweepAtOther(s: State, x: Id)
    requires SweepInv(s) && s.phase == Sweep && RootReady(s) && x == s.rootgc[s.sweepgc] && s.heap[x].kind != ThreadK
    ensures FreeReady(s, x)
  {
    SweepAt(s);
  }

  lemma OpenSweptAre(s: State, u: State, x: Id)
    requires OpenSwept(s, u, x)
    ensures u.white == s.white && x in u.open && AllCurrent(u, x) && forall y :: y in u.open[x] ==> y in s.open[x]
  {}

  lemma AtomicWhite(s: State)
    requires AtomicReady(s)
    ensures AtomicMarks(s).white == s.white
  {
    hide AtomicMarks, AtomicReady, Good, Kinds, Whites;
  }

  lemma SweepSeqNone(s: State)
    ensures SweepSeq(s, []) == (s, [])
  {}

  /** Sweeping a list element by element. */
  lemma SweepSeqAt(s: State, list: seq<Id>, i: nat)
    requires i < |list| && Distinct(list[i..]) && forall x :: x in list[i..] ==> x in s.heap
    ensures list[i] in s.heap && Distinct(list[i+1..]) && list[i] !in list[i+1..]
    ensures forall x :: x in list[i+1..] ==> x in s.heap
    ensures Garbage(s, list[i]) ==> SweepSeq(s, list[i..]) == SweepSeq(Erase(s, list[i]), list[i+1..])
    ensures !Garbage(s, list[i]) ==>
              var r := SweepSeq(Whiten(s, list[i]), list[i+1..]);
              SweepSeq(s, list[i..]) == (r.0, [list[i]] + r.1)
  {
    hide SweptList;
    var rest := list[i..];
    assert rest == [list[i]] + list[i+1..] && rest[1..] == list[i+1..] && rest[0] == list[i];
  }

  lemma OpenAreUpvals(s: State, t: Id)
    requires Shape(s) && t in s.open
    ensures forall y :: y in s.open[t] ==> y !in s.rootgc
  {}

  lemma RunningStays(s: State, x: Id)
    requires s.running in s.heap
    ensures forall kind, refs, at: nat :: at <= |s.rootgc| ==>
              AddRoot(s, x, kind, refs, at).running in AddRoot(s, x, kind, refs, at).heap
    ensures forall b: nat :: b < |s.strings| ==> AddString(s, x, b).running in AddString(s, x, b).heap
    ensures forall refs, at: nat :: s.running in s.open && at <= |s.open[s.running]| ==>
              AddOpen(s, x, refs, at).running in AddOpen(s, x, refs, at).heap
    ensures x in s.heap ==> Revive(s, x).running in Revive(s, x).heap
  {}

  class GlobalState {
    var heap: map<Id, Object>
    var currentwhite: bool
    var gcstate: Phase
    var gray: seq<Id>
    var grayagain: seq<Id>
    var strt: seq<seq<Id>>
    var sweepstrgc: nat
    var rootgc: seq<Id>
    var sweepgc: nat
    var openupval: map<Id, seq<Id>>
    var uvhead: seq<Id>
    var mainthread: Id
    var registry: Id
    var running: Id
    var mt: seq<Id>

    function Abs(): State
      reads this
    {
      State(heap, currentwhite, gcstate, gray, grayagain, strt, sweepstrgc, rootgc, sweepgc, openupval, uvhead,
            mainthread, registry, running, mt)
    }

    // ---------- Marking ----------

    method SetColor(x: Id, c: Color)
      requires x in heap
      modifies this
      ensures Abs() == Paint(old(Abs()), x, c)
    {
      heap := heap[x := heap[x].(color := c)];
    }

    method MarkObject(x: Id)
      requires RefsPresent(Abs()) && x in heap
      modifies this
      ensures Abs() == Mark(old(Abs()), x)
      decreases Whites(Abs()), 1
    {
      if heap[x].color.White? {
        ReallyMarkObject(x);
      }
    }

    method MarkUserdata(x: Id)
      requires RefsPresent(Abs()) && x in heap && heap[x].color.White? && heap[x].kind == UdataK
      modifies this
      ensures Abs() == ReallyMark(old(Abs()), x)
      decreases Whites(Abs()), 0, 0
    {
      var refs := heap[x].refs;
      PaintMarks(Abs(), x, Black);
      hide OnlyMarks, Whites, RefsPresent;
      SetColor(x, Black);
      MarkValues(refs);
    }

    /** The value of the upvalue is marked; a closed one is then done with. */
    method MarkUpvalue(x: Id)
      requires RefsPresent(Abs()) && x in heap && heap[x].color.White? && heap[x].kind == UpvalK
      modifies this
      ensures Abs() == ReallyMark(old(Abs()), x)
      decreases Whites(Abs()), 0, 0
    {
      var refs := heap[x].refs;
      PaintMarks(Abs(), x, Gray);
      hide OnlyMarks, Whites, RefsPresent;
      var isOpen := IsOpen(heap[x]);
      SetColor(x, Gray);
      ghost var s := Abs();
      MarkValues(refs);
      MarkStays(s, Abs(), x);
      if !isOpen {
        SetColor(x, Black);
      }
    }

    method ReallyMarkObject(x: Id)
      requires RefsPresent(Abs()) && x in heap && heap[x].color.White?
      modifies this
      ensures Abs() == ReallyMark(old(Abs()), x)
      decreases Whites(Abs()), 0
    {
      hide OnlyMarks, Whites, RefsPresent, MarkAll;
      match heap[x].kind
      case StringK =>
        SetColor(x, Gray);
      case UdataK =>
        MarkUserdata(x);
      case UpvalK =>
        MarkUpvalue(x);
      case FunctionK | TableK | ThreadK | ProtoK =>
        SetColor(x, Gray);
        gray := [x] + gray;
    }

    /** The loops over the references of an object. */
    method MarkValues(refs: seq<Id>)
      requires RefsPresent(Abs()) && forall r :: r in refs ==> r in heap
      modifies this
      ensures Abs() == MarkAll(old(Abs()), refs)
      decreases Whites(Abs()), 2 + |refs|
    {
      hide MarkAll, Mark, Whites, RefsPresent, OnlyMarks;
      ghost var s := Abs();
      var i := 0;
      MarksSelf(s);
      assert refs[0..] == refs;
      while i < |refs|
        invariant 0 <= i <= |refs|
        invariant OnlyMarks(s, Abs()) && RefsPresent(Abs())
        invariant forall r :: r in refs[i..] ==> r in heap
        invariant MarkAll(Abs(), refs[i..]) == MarkAll(s, refs)
      {
        ghost var u := Abs();
        MarkAllAt(u, refs, i);
        MarksFewer(s, u);
        MarkObject(refs[i]);
        MarksCompose(s, u, Abs());
        i := i + 1;
      }
      assert refs[i..] == [];
      MarkAllNone(Abs());
    }

    // ---------- Propagation ----------

    method PropagateOne()
      requires gray != [] && gray[0] in heap && RefsPresent(Abs())
      modifies this
      ensures Abs() == PropagateMark(old(Abs()))
    {
      var o := gray[0];
      var refs := heap[o].refs;
      gray := gray[1..];
      if heap[o].kind == ThreadK {
        grayagain := [o] + grayagain;
      } else {
        SetColor(o, Black);
      }
      assert Abs() == PopGray(old(Abs()));
      MarkValues(refs);
    }

    method PropagateGray()
      requires Good(Abs(), {}) && Kinds(Abs())
      modifies this
      ensures Abs() == PropagateAll(old(Abs()))
    {
      ghost var s := Abs();
      while gray != []
        invariant Good(Abs(), {}) && Kinds(Abs())
        invariant PropagateAll(Abs()) == PropagateAll(s)
        decreases Whites(Abs()), |gray|
      {
        PropagateMarkGood(Abs());
        PropagateMarkFrame(Abs());
        KindsSame(Abs(), PropagateMark(Abs()));
        assert gray[0] in gray;
        PropagateOne();
      }
    }

    method RemarkOpen()
      requires RefsPresent(Abs()) && forall x :: x in uvhead ==> x in heap
      modifies this
      ensures Abs() == RemarkUpvals(old(Abs()), old(uvhead))
    {
      hide MarkAll, Whites, RefsPresent;
      ghost var s := Abs();
      var list := uvhead;
      var i := 0;
      while i < |list|
        invariant 0 <= i <= |list|
        invariant OnlyMarks(s, Abs()) && RefsPresent(Abs())
        invariant forall x :: x in list[i..] ==> x in heap
        invariant RemarkUpvals(Abs(), list[i..]) == RemarkUpvals(s, list)
      {
        assert list[i..][1..] == list[i+1..];
        RemarkOneGray(list[i], s);
        i := i + 1;
      }
    }

    /** One turn of the loop of remarkupvals, which started in s. */
    method RemarkOneGray(x: Id, ghost s: State)
      requires RefsPresent(Abs()) && x in heap && OnlyMarks(s, Abs())
      modifies this
      ensures Abs() == RemarkOne(old(Abs()), x) && OnlyMarks(s, Abs()) && RefsPresent(Abs())
    {
      hide MarkAll, Whites;
      ghost var u := Abs();
      var refs := heap[x].refs;
      if heap[x].color.Gray? {
        MarkValues(refs);
      }
      assert Abs() == RemarkOne(u, x);
      MarksCompose(s, u, Abs());
      MarksPresent(u, Abs());
    }

    /** markobject followed by a loop over a list. */
    method MarkThese(x: Id, list: seq<Id>)
      requires RefsPresent(Abs()) && x in heap && forall r :: r in list ==> r in heap
      modifies this
      ensures Abs() == MarkThen(old(Abs()), x, list) && RefsPresent(Abs())
    {
      hide Mark, MarkAll, Whites, RefsPresent;
      ghost var s := Abs();
      MarkObject(x);
      MarksPresent(s, Abs());
      MarkValues(list);
      MarksPresent(s, Abs());
    }

    method SetPhase(p: Phase)
      modifies `gcstate
      ensures Abs() == old(Abs()).(phase := p)
    {
      gcstate := p;
    }

    method MarkMain()
      requires MarkReady(Abs())
      modifies this
      ensures Abs() == MainMarked(old(Abs()))
    {
      NoListsPresent(Abs());
      GlobalsPresent(Abs());
      hide MarkThen, Whites, RefsPresent, GlobalsOf, OnlyMarks, IsWhite;
      gray, grayagain := [], [];
      MarkThese(mainthread, GlobalsOf(heap[mainthread]));
    }

    method MarkRoots()
      requires MarkReady(Abs())
      modifies this
      ensures Abs() == MarkRoot(old(Abs()))
    {
      ghost var s := Abs();
      RootSteps(s);
      hide MainMarked, MarkThen, MarkRoot, MarkReady, Whites, RefsPresent, OnlyMarks, IsWhite;
      MarkMain();
      MarkThese(registry, mt);
      hide *;
      SetPhase(Propagate);
    }

    /** remarkupvals and the propagation after it. */
    method RemarkWave()
      requires AtomicReady(Abs())
      modifies this
      ensures Abs() == FirstWave(old(Abs()))
    {
      hide Good, Kinds, RemarkUpvals, PropagateAll, Whites, OpenHomes, Remarked, OnlyPropagates;
      ghost var s := Abs();
      GoodRefs(s);
      RemarkGood(s, uvhead);
      RemarkOpen();
      PropagateGray();
    }

    method RootWave()
      requires Good(Abs(), {}) && Kinds(Abs()) && MarkReady(Abs())
      modifies this
      ensures Abs() == SecondWave(old(Abs()))
    {
      hide Good, Kinds, MarkThen, PropagateAll, Whites, OnlyPropagates;
      MarkThenGood(Abs(), running, mt);
      MarkThese(running, mt);
      PropagateGray();
    }

    method AgainWave()
      requires Good(Abs(), {}) && Kinds(Abs()) && gray == []
      modifies this
      ensures Abs() == LastWave(old(Abs()))
    {
      hide Good, Kinds, PropagateAll, Whites, OnlyPropagates;
      TakeAgainGood(Abs());
      gray, grayagain := grayagain, [];
      PropagateGray();
    }

    method FinishMarking()
      requires AtomicReady(Abs())
      modifies this
      ensures Abs() == Atomic(old(Abs()))
    {
      AtomicWhite(Abs());
      hide Good, Kinds, AtomicMarks, Whites, OnlyPropagates, AtomicReady;
      MarkAtomic();
      Flip();
    }

    method MarkAtomic()
      requires AtomicReady(Abs())
      modifies this
      ensures Abs() == AtomicMarks(old(Abs()))
    {
      hide Good, Kinds, FirstWave, SecondWave, LastWave, Whites, OnlyPropagates, MarkReady, OpenHomes;
      ghost var s := Abs();
      RemarkWave();
      ReadyStill(s, Abs());
      RootWave();
      AgainWave();
    }

    /** The other white from now on, and the sweep starts. */
    method Flip()
      modifies `currentwhite, `sweepstrgc, `sweepgc, `gcstate
      ensures Abs() == old(Abs()).(white := !old(Abs()).white, sweepstr := 0, sweepgc := 0, phase := SweepString)
    {
      currentwhite := !currentwhite;
      sweepstrgc, sweepgc := 0, 0;
      gcstate := SweepString;
    }

    // ---------- Sweeping ----------

    /** sweeplist over a list without threads; what stays linked is returned. */
    method SweepList(list: seq<Id>) returns (kept: seq<Id>)
      requires Distinct(list) && forall x :: x in list ==> x in heap
      modifies this
      ensures (Abs(), kept) == SweepSeq(old(Abs()), list)
    {
      hide SweptList, Distinct, SweepSeq;
      ghost var s := Abs();
      kept := [];
      var i := 0;
      assert list[0..] == list;
      while i < |list|
        invariant 0 <= i <= |list|
        invariant Distinct(list[i..]) && forall x :: x in list[i..] ==> x in heap
        invariant SweepSeq(s, list).0 == SweepSeq(Abs(), list[i..]).0
        invariant SweepSeq(s, list).1 == kept + SweepSeq(Abs(), list[i..]).1
      {
        SweepSeqAt(Abs(), list, i);
        ghost var u := Abs();
        if heap[list[i]].color == White(!currentwhite) && !heap[list[i]].fixed {
          FreeObject(list[i]);
        } else {
          SetColor(list[i], White(currentwhite));
          kept := kept + [list[i]];
        }
        i := i + 1;
      }
      assert list[i..] == [];
      SweepSeqNone(Abs());
      assert kept + [] == kept;
    }

    /** freeobj; an open upvalue is unlinked from the list of all open upvalues. */
    method FreeObject(x: Id)
      requires x in heap
      modifies this
      ensures Abs() == Erase(old(Abs()), x)
    {
      if IsOpen(heap[x]) {
        uvhead := Without(uvhead, x);
      }
      heap := heap - {x};
    }

    method SweepStrings()
      requires sweepstrgc < |strt| && Distinct(strt[sweepstrgc])
      requires forall x :: x in strt[sweepstrgc] ==> x in heap
      modifies this
      ensures Abs() == SweepBucket(old(Abs()))
    {
      hide SweepSeq, SweptHeap, SweptUvhead;
      var kept := SweepList(strt[sweepstrgc]);
      strt := strt[sweepstrgc := kept];
      sweepstrgc := sweepstrgc + 1;
      gcstate := if sweepstrgc >= |strt| then Sweep else SweepString;
    }

    method SweepUpvals(t: Id)
      requires t in openupval && Distinct(openupval[t]) && forall x :: x in openupval[t] ==> x in heap
      modifies this
      ensures Abs() == SweepOpen(old(Abs()), t)
    {
      hide SweepSeq, SweptHeap, SweptUvhead;
      var kept := SweepList(openupval[t]);
      openupval := openupval[t := kept];
    }

    /** luaC_link and the linking half of luaC_linkupval. */
    method LinkFront(x: Id)
      modifies this
      ensures Abs() == LinkRoot(old(Abs()), x, 0)
    {
      rootgc := [x] + rootgc;
      if sweepgc > 0 {
        sweepgc := sweepgc + 1;
      }
    }

    /** One turn of the loop of luaF_close. */
    method CloseUpval(t: Id)
      requires t in openupval && openupval[t] != [] && openupval[t][0] in heap
      requires gcstate == Propagate ==> RefsPresent(Abs())
      modifies this
      ensures Abs() == CloseHead(old(Abs()), t)
    {
      hide MarkAll, Whites;
      ghost var s := Abs();
      var x := openupval[t][0];
      openupval := openupval[t := openupval[t][1..]];
      if heap[x].color == White(!currentwhite) {
        FreeObject(x);
      } else {
        uvhead := Without(uvhead, x);
        heap := heap[x := heap[x].(home := InRoot)];
        LinkFront(x);
        assert Abs() == MoveHead(s, t);
        if heap[x].color.Gray? {
          if gcstate == Propagate {
            var refs := heap[x].refs;
            SetColor(x, Black);
            MarkValues(refs);
          } else {
            SetColor(x, White(currentwhite));
          }
        }
      }
    }

    /** luaF_close on all open upvalues of a thread whose upvalues have just been swept. */
    method CloseThread(t: Id)
      requires t in openupval && AllCurrent(Abs(), t) && gcstate != Propagate
      modifies this
      ensures Abs() == CloseAll(old(Abs()), t)
    {
      hide MoveHead;
      ghost var s := Abs();
      while openupval[t] != []
        invariant t in openupval && AllCurrent(Abs(), t) && gcstate != Propagate
        invariant CloseAll(Abs(), t) == CloseAll(s, t)
        decreases |openupval[t]|
      {
        ghost var u := Abs();
        assert openupval[t][0] in openupval[t];
        MoveHeadFrame(u, t);
        CurrentMoves(u, t);
        CloseUpval(t);
      }
    }

    /** Unlinks the object at the sweep pointer and frees it. */
    method FreeAtPointer()
      requires sweepgc < |rootgc| && Distinct(rootgc) && gcstate != Propagate
      requires var x := rootgc[sweepgc];
        && x in heap && heap[x].home == InRoot
        && (heap[x].kind == ThreadK ==> x in openupval && x !in openupval[x] && AllCurrent(Abs(), x)
                                        && forall y :: y in openupval[x] ==> y !in rootgc)
      modifies this
      ensures Abs() == FreeRoot(old(Abs()), old(rootgc[sweepgc]))
    {
      hide CloseAll;
      ghost var s := Abs();
      var x := rootgc[sweepgc];
      WithoutAt(rootgc, sweepgc);
      rootgc := rootgc[..sweepgc] + rootgc[sweepgc+1..];
      assert Abs() == Unlink(s, x);
      if heap[x].kind == ThreadK {
        CloseUnlinked(s, x);
        CloseThread(x);
        assert Abs() == Unlink(CloseAll(s, x), x);
        openupval := openupval - {x};
      }
      heap := heap - {x};
    }

    /** Frees the object at the sweep pointer, or whitens it and moves on. */
    method FreeOrKeep(x: Id)
      requires FreeReady(Abs(), x)
      modifies this
      ensures Abs() == if Garbage(old(Abs()), x) then FreeRoot(old(Abs()), x)
                       else Whiten(old(Abs()), x).(sweepgc := old(sweepgc) + 1)
    {
      hide FreeRoot, Distinct;
      if heap[x].color == White(!currentwhite) && !heap[x].fixed {
        FreeAtPointer();
      } else {
        SetColor(x, White(currentwhite));
        sweepgc := sweepgc + 1;
      }
    }

    /** One turn of sweeplist over rootgc. */
    method SweepOneRoot()
      requires SweepInv(Abs()) && gcstate == Sweep && sweepgc < |rootgc| && RootReady(Abs())
      modifies this
      ensures Abs() == SweepRootOne(old(Abs()))
    {
      hide SweepInv, SweepOpen, FreeRoot, Distinct, Garbage, Whiten, FreeReady;
      ghost var s := Abs();
      var x := rootgc[sweepgc];
      if heap[x].kind == ThreadK {
        SweepAtThread(s, x);
        SweepUpvals(x);
      } else {
        SweepAtOther(s, x);
      }
      FreeOrKeep(x);
    }

    method SweepRoots(count: nat)
      requires SweepInv(Abs()) && gcstate == Sweep
      modifies this
      ensures Abs() == SweepRoot(old(Abs()), count)
    {
      hide SweepInv, OnlyGarbageLost, SweepRootOne, RootReady;
      ghost var s := Abs();
      var left := count;
      while sweepgc < |rootgc| && left > 0
        invariant 0 <= left <= count
        invariant SweepInv(Abs()) && gcstate == Sweep
        invariant SweepRoot(Abs(), left) == SweepRoot(s, count)
        decreases left
      {
        SweepAt(Abs());
        SweepRootOneOk(Abs());
        SweepRootOneSize(Abs());
        SweepOneRoot();
        left := left - 1;
      }
    }

    // ---------- Steps and full collections ----------

    method Step()
      requires StepReady(Abs())
      modifies this
      ensures Abs() == SingleStep(old(Abs()))
    {
      hide MarkRoot, PropagateMark, Atomic, SweepBucket, SweepRoot, MarkReady, AtomicReady, SweepInv, RefsPresent;
      match gcstate
      case Pause =>
        MarkRoots();
      case Propagate =>
        if gray != [] {
          PropagateOne();
        } else {
          FinishMarking();
        }
      case SweepString =>
        SweepStrings();
      case Sweep =>
        SweepRoots(GCSWEEPMAX);
        if sweepgc >= |rootgc| {
          gcstate := Finalize;
        }
      case Finalize =>
        gcstate := Pause;
    }

    /** The loops of luaC_fullgc: single steps until the target phase. */
    method StepUntil(target: Phase)
      requires Inv(Abs()) && (target == Finalize || target == Pause)
      requires gcstate == Pause ==> target == Pause
      modifies this
      ensures Abs() == RunTo(old(Abs()), target)
    {
      hide Inv, StepReady, SingleStep, WhitesLeft, Left, Rank;
      ghost var s := Abs();
      while gcstate != target
        invariant Inv(Abs()) && (gcstate == Pause ==> target == Pause)
        invariant RunTo(Abs(), target) == RunTo(s, target)
        decreases Rank(gcstate), WhitesLeft(Abs()), Left(Abs())
      {
        RunToStep(Abs(), target);
        Step();
      }
      RunToNone(Abs(), target);
    }

    method FullCollection()
      requires Inv(Abs())
      modifies this
      ensures Abs() == FullGc(old(Abs()))
    {
      hide Inv, RunTo, MarkRoot, MarkReady, OnlyGarbageLost;
      DropMarksOk(Abs());
      if gcstate == Pause || gcstate == Propagate {
        sweepstrgc, sweepgc := 0, 0;
        gray, grayagain := [], [];
        gcstate := SweepString;
      }
      StepUntil(Finalize);
      StartAfterSweep(Abs());
      MarkRoots();
      StepUntil(Pause);
    }

    // ---------- Barriers ----------

    method BarrierForward(o: Id, v: Id)
      requires o in heap && v in heap && heap[v].color.White? && (gcstate == Propagate ==> RefsPresent(Abs()))
      modifies this
      ensures Abs() == BarrierF(old(Abs()), o, v)
    {
      if gcstate == Propagate {
        ReallyMarkObject(v);
      } else {
        SetColor(o, White(currentwhite));
      }
    }

    method BarrierBackward(t: Id)
      requires t in heap
      modifies this
      ensures Abs() == BarrierBack(old(Abs()), t)
    {
      SetColor(t, Gray);
      grayagain := [t] + grayagain;
    }

    /** A store followed by the barrier macro for the kind of the holder. */
    method StoreRefs(o: Id, refs: seq<Id>, v: Id)
      requires o in heap && v in heap && (gcstate == Propagate ==> RefsPresent(SetRefs(Abs(), o, refs)))
      modifies this
      ensures Abs() == Store(old(Abs()), o, refs, v)
    {
      heap := heap[o := heap[o].(refs := refs)];
      if heap[v].color.White? && heap[o].color.Black? {
        if heap[o].kind == TableK {
          BarrierBackward(o);
        } else {
          BarrierForward(o, v);
        }
      }
    }

    // ---------- Allocation and lookup ----------

    /** luaC_link; a new thread also gets an empty list of open upvalues. */
    method Link(x: Id, kind: Kind, refs: seq<Id>)
      modifies this
      ensures Abs() == AddRoot(old(Abs()), x, kind, refs, 0)
    {
      heap := heap[x := Object(kind, White(currentwhite), refs, InRoot, false)];
      if kind == ThreadK {
        openupval := openupval[x := []];
      }
      LinkFront(x);
    }

    /** luaS_newudata: linked behind the object at position at - 1. */
    method LinkUdata(x: Id, refs: seq<Id>, at: nat)
      requires at <= |rootgc|
      modifies this
      ensures Abs() == AddRoot(old(Abs()), x, UdataK, refs, at)
    {
      heap := heap[x := Object(UdataK, White(currentwhite), refs, InRoot, false)];
      rootgc := rootgc[..at] + [x] + rootgc[at..];
      if at < sweepgc {
        sweepgc := sweepgc + 1;
      }
    }

    /** newlstr: at the front of its bucket. */
    method LinkString(x: Id, b: nat)
      requires b < |strt|
      modifies this
      ensures Abs() == AddString(old(Abs()), x, b)
    {
      heap := heap[x := Object(StringK, White(currentwhite), [], InBucket(b), false)];
      strt := strt[b := [x] + strt[b]];
    }

    /** The creating half of luaF_findupval. */
    method LinkUpval(x: Id, refs: seq<Id>, at: nat)
      requires running in openupval && at <= |openupval[running]|
      modifies this
      ensures Abs() == AddOpen(old(Abs()), x, refs, at)
    {
      var list := openupval[running];
      heap := heap[x := Object(UpvalK, White(currentwhite), refs, InOpen(running), false)];
      openupval := openupval[running := list[..at] + [x] + list[at..]];
      uvhead := [x] + uvhead;
    }

    /** The finding half of luaS_newlstr and luaF_findupval: changewhite on a dead object. */
    method Resurrect(x: Id)
      requires x in heap
      modifies this
      ensures Abs() == Revive(old(Abs()), x)
    {
      if heap[x].color == White(!currentwhite) {
        SetColor(x, White(currentwhite));
      }
    }

    method PushValue(x: Id)
      requires running in heap
      modifies this
      ensures Abs() == Push(old(Abs()), x)
    {
      heap := heap[running := heap[running].(refs := heap[running].refs + [x])];
    }

    /** Any action of the program or the collector: does what the action says, keeps the
        invariant, frees nothing reachable, and means for the program what it should. */
    method Perform(a: Action)
      requires Inv(Abs()) && Enabled(Abs(), a)
      modifies this
      ensures Ready(old(Abs()), a) && Abs() == Apply(old(Abs()), a)
      ensures Inv(Abs()) && KeepsReachable(old(Abs()), Abs())
      ensures forall g :: Agrees(g, old(Abs())) ==> Agrees(After(g, a), Abs())
    {
      hide Inv, Enabled, Ready, Apply, KeepsReachable, Agrees, After;
      ghost var s := Abs();
      ActionOk(s, a);
      Act(a);
      forall g | Agrees(g, s)
        ensures Agrees(After(g, a), Apply(s, a))
      {
        ActionAgrees(g, s, a);
      }
    }

    method Act(a: Action)
      requires Ready(Abs(), a)
      modifies this
      ensures Abs() == Apply(old(Abs()), a)
    {
      hide SingleStep, FullGc, StepReady, Inv, Store, RefsPresent, Revive, Push, AddRoot, AddString, AddOpen, CloseHead;
      ghost var s := Abs();
      match a
      case CollectStep => Step();
      case FullCollect => FullCollection();
      case NewObject(x, kind, refs) =>
        Link(x, kind, refs);
        RunningStays(s, x);
        PushValue(x);
      case NewUserdata(x, refs, at) =>
        LinkUdata(x, refs, at);
        RunningStays(s, x);
        PushValue(x);
      case NewString(x, b) =>
        LinkString(x, b);
        RunningStays(s, x);
        PushValue(x);
      case FindString(x) =>
        Resurrect(x);
        RunningStays(s, x);
        PushValue(x);
      case FixString(x) =>
        heap := heap[x := heap[x].(fixed := true)];
      case Write(o, refs, v) =>
        StoreRefs(o, refs, v);
      case SetStack(t, refs) =>
        heap := heap[t := heap[t].(refs := refs)];
      case SetCaptured(t, refs, x, value) =>
        heap := heap[t := heap[t].(refs := refs)];
        heap := heap[x := heap[x].(refs := value)];
      case OpenUpvalue(x, refs, at) =>
        LinkUpval(x, refs, at);
        RunningStays(s, x);
        PushValue(x);
      case FindUpvalue(x, refs) =>
        heap := heap[x := heap[x].(refs := refs)];
        Resurrect(x);
        RunningStays(SetRefs(s, x, refs), x);
        PushValue(x);
      case CloseUpvalue => CloseUpval(running);
      case Resume(t) => running := t;
      case SetMetatables(list) => mt := list;
    }
  }
}
