/** The program running beside the collector: allocation, guarded writes, stack changes,
    string and upvalue lookup, and the safety of every interleaving with the collector. */
module GcMutator {
  import opened GcHeap
  import opened GcMark
  import opened GcPropagate
  import opened GcSweep
  import opened GcCycle

  ghost predicate Alive(s: State, x: Id) { x in s.heap && !Dead(s, x) }

  // ---------- Writing references ----------

  function SetRefs(s: State, x: Id, refs: seq<Id>): State
    requires x in s.heap
  {
    s.(heap := s.heap[x := s.heap[x].(refs := refs)])
  }

  lemma SetRefsHomes(s: State, x: Id, refs: seq<Id>)
    requires Homes(s) && x in s.heap
    ensures Homes(SetRefs(s, x, refs))
  {
    hide Homes;
    HomesKept(s, SetRefs(s, x, refs));
  }

  lemma SetRefsKinds(s: State, x: Id, refs: seq<Id>)
    requires Kinds(s) && x in s.heap && s.heap[x].kind != StringK
    ensures Kinds(SetRefs(s, x, refs))
  {}

  lemma SetRefsShape(s: State, x: Id, refs: seq<Id>)
    requires Shape(s) && x in s.heap && s.heap[x].kind != StringK
    ensures Shape(SetRefs(s, x, refs))
  {
    hide Homes, Kinds;
    SetRefsHomes(s, x, refs);
    SetRefsKinds(s, x, refs);
  }

  lemma SetRefsClosed(s: State, x: Id, refs: seq<Id>)
    requires Closed(s) && x in s.heap && forall r :: r in refs ==> Alive(s, r)
    ensures Closed(SetRefs(s, x, refs))
  {
    var u := SetRefs(s, x, refs);
    assert forall y :: y in s.heap ==> (Dead(u, y) <==> Dead(s, y));
    assert forall y :: IsRoot(u, y) <==> IsRoot(s, y);
  }

  lemma SetRefsColors(s: State, x: Id, refs: seq<Id>)
    requires x in s.heap
    ensures NeverBlack(s) ==> NeverBlack(SetRefs(s, x, refs))
    ensures NoDead(s) ==> NoDead(SetRefs(s, x, refs))
    ensures AllWhite(s) ==> AllWhite(SetRefs(s, x, refs))
    ensures s.sweepgc <= |s.rootgc| && SweptWhite(s) ==> SweptWhite(SetRefs(s, x, refs))
  {
    var u := SetRefs(s, x, refs);
    assert forall y :: y in s.heap ==> u.heap[y].color == s.heap[y].color && u.heap[y].home == s.heap[y].home;
    assert s.sweepgc <= |s.rootgc| ==> forall y :: y in s.heap ==> (Unswept(u, y) <==> Unswept(s, y));
  }

  lemma SetRefsTri(s: State, x: Id, refs: seq<Id>)
    requires TriColor(s, {}) && x in s.heap
    ensures TriColor(SetRefs(s, x, refs), {x})
    ensures !s.heap[x].color.Black? ==> TriColor(SetRefs(s, x, refs), {})
    ensures (forall r :: r in refs ==> r in s.heap && !IsWhite(s, r)) ==> TriColor(SetRefs(s, x, refs), {})
  {
    var u := SetRefs(s, x, refs);
    SetRefsMarked(s, x, refs);
    hide RefsMarked;
    assert GrayLists(u);
  }

  lemma SetRefsMarked(s: State, x: Id, refs: seq<Id>)
    requires x in s.heap
    ensures forall y :: y in s.heap && y != x && RefsMarked(s, y) ==> RefsMarked(SetRefs(s, x, refs), y)
    ensures (forall r :: r in refs ==> r in s.heap && !IsWhite(s, r)) ==> RefsMarked(SetRefs(s, x, refs), x)
  {
    var u := SetRefs(s, x, refs);
    assert forall y :: y in s.heap && y != x ==> u.heap[y] == s.heap[y];
    assert forall y :: y in s.heap ==> (IsWhite(u, y) <==> IsWhite(s, y));
  }

  lemma SetRefsPhase(s: State, x: Id, refs: seq<Id>)
    requires PhaseInv(s) && x in s.heap
    requires !s.heap[x].color.Black? || s.phase != Propagate || forall r :: r in refs ==> r in s.heap && !IsWhite(s, r)
    ensures PhaseInv(SetRefs(s, x, refs))
  {
    hide NoDead, AllWhite, SweptWhite, TriColor, NeverBlack;
    SetRefsColors(s, x, refs);
    if s.phase == Propagate {
      SetRefsTri(s, x, refs);
    }
  }

  /** A write that needs no barrier. */
  lemma SetRefsInv(s: State, x: Id, refs: seq<Id>)
    requires Inv(s) && x in s.heap && s.heap[x].kind != StringK && forall r :: r in refs ==> Alive(s, r)
    requires !s.heap[x].color.Black? || s.phase != Propagate || forall r :: r in refs ==> r in s.heap && !IsWhite(s, r)
    ensures Inv(SetRefs(s, x, refs))
  {
    hide Shape, Closed, NeverBlack, PhaseInv, SweptWhite, NoDead, AllWhite, TriColor;
    SetRefsShape(s, x, refs);
    SetRefsClosed(s, x, refs);
    SetRefsColors(s, x, refs);
    SetRefsPhase(s, x, refs);
  }

  lemma AliveRoots(s: State)
    requires Closed(s)
    ensures Alive(s, s.mainthread) && Alive(s, s.registry) && Alive(s, s.running)
    ensures forall m :: m in s.mt ==> Alive(s, m)
  {
    assert IsRoot(s, s.mainthread) && IsRoot(s, s.registry) && IsRoot(s, s.running);
    assert forall m :: m in s.mt ==> IsRoot(s, m);
  }

  /** The running thread gets x on its stack. */
  function Push(s: State, x: Id): State
    requires s.running in s.heap
  {
    SetRefs(s, s.running, s.heap[s.running].refs + [x])
  }

  lemma PushInv(s: State, x: Id)
    requires Inv(s) && Alive(s, x)
    ensures s.running in s.heap && Inv(Push(s, x)) && Alive(Push(s, x), x)
  {
    AliveRoots(s);
    var refs := s.heap[s.running].refs + [x];
    RunningThread(s);
    hide Inv;
    assert Inv(s);
    RefsAlive(s, s.running);
    SetRefsInv(s, s.running, refs);
  }

  lemma RunningThread(s: State)
    requires Inv(s)
    ensures s.running in s.heap && s.heap[s.running].kind == ThreadK && !s.heap[s.running].color.Black?
  {}

  lemma RefsAlive(s: State, x: Id)
    requires Inv(s) && Alive(s, x)
    ensures forall r :: r in s.heap[x].refs ==> Alive(s, r)
  {}

  // ---------- Barriers ----------

  /** luaC_barrierback: a black table turns gray and waits for the atomic step. */
  function BarrierBack(s: State, t: Id): State
    requires t in s.heap
  {
    Paint(s, t, Gray).(grayagain := [t] + s.grayagain)
  }

  /** luaC_barrierf: marks the value while marks propagate; in a sweep it whitens the holder
      instead, to save further barriers. */
  function BarrierF(s: State, o: Id, v: Id): State
    requires o in s.heap && v in s.heap && (s.phase == Propagate ==> RefsPresent(s))
  {
    if s.phase == Propagate then Mark(s, v) else Whiten(s, o)
  }

  /** A write of v into o behind the barrier macro of its kind. */
  function Store(s: State, o: Id, refs: seq<Id>, v: Id): State
    requires o in s.heap && v in s.heap
    requires s.phase == Propagate ==> RefsPresent(SetRefs(s, o, refs))
  {
    var u := SetRefs(s, o, refs);
    if IsWhite(s, v) && s.heap[o].color.Black? then
      if s.heap[o].kind == TableK then BarrierBack(u, o) else BarrierF(u, o, v)
    else u
  }

  lemma PaintHomes(s: State, x: Id, c: Color)
    requires Homes(s) && x in s.heap
    ensures Homes(Paint(s, x, c))
  {
    hide Homes;
    HomesKept(s, Paint(s, x, c));
  }

  lemma PaintShape(s: State, x: Id, c: Color)
    requires Shape(s) && x in s.heap
    ensures Shape(Paint(s, x, c))
  {
    hide Homes, Kinds;
    PaintHomes(s, x, c);
    PaintKinds(s, x, c);
  }

  /** Repainting something alive, but not with the dead white. */
  lemma PaintClosed(s: State, x: Id, c: Color)
    requires Closed(s) && Alive(s, x) && c != White(!s.white)
    ensures Closed(Paint(s, x, c))
  {
    var u := Paint(s, x, c);
    hide Closed;
    ClosedKept(s, u);
  }

  /** Gray lists are no part of structure and closedness. */
  lemma GrayFree(s: State, again: seq<Id>)
    requires Shape(s) && Closed(s) && NeverBlack(s)
    ensures Shape(s.(grayagain := again)) && Closed(s.(grayagain := again)) && NeverBlack(s.(grayagain := again))
  {
    var u := s.(grayagain := again);
    assert NeverBlack(u);
    hide Shape, Closed, NeverBlack;
    assert SameLinks(s, u) by { ShapeBounds(s); }
    ClosedKept(s, u);
    LinksShape(s, u);
  }

  lemma BackTri(s: State, t: Id)
    requires TriColor(s, {t}) && NoDead(s) && t in s.heap && s.heap[t].color.Black? && s.heap[t].kind == TableK
    ensures TriColor(BarrierBack(s, t), {}) && NoDead(BarrierBack(s, t))
  {
    var u := BarrierBack(s, t);
    assert t !in s.gray && t !in s.grayagain;
    assert Distinct(u.gray + u.grayagain) by {
      assert u.gray + u.grayagain == s.gray + ([t] + s.grayagain);
      InsertDistinct(s.gray, s.grayagain, t);
    }
    assert forall y :: y in s.heap && y != t ==> u.heap[y] == s.heap[y];
    assert forall y :: y in s.heap && y != t && RefsMarked(s, y) ==> RefsMarked(u, y);
  }

  lemma InsertDistinct(a: seq<Id>, b: seq<Id>, t: Id)
    requires Distinct(a + b) && t !in a && t !in b
    ensures Distinct(a + ([t] + b))
  {
    var c, d := a + b, a + ([t] + b);
    assert forall i :: 0 <= i < |d| ==> d[i] == if i < |a| then c[i] else if i == |a| then t else c[i-1];
    forall i, j | 0 <= i < j < |d|
      ensures d[i] != d[j]
    {
      if i == |a| {
        assert d[j] in b;
      } else if j == |a| {
        assert d[i] in a;
      } else {
        assert d[i] == c[if i < |a| then i else i - 1] && d[j] == c[if j < |a| then j else j - 1];
      }
    }
  }

  lemma BackSwept(s: State, t: Id)
    requires s.sweepgc <= |s.rootgc| && SweptWhite(s) && t in s.heap && s.heap[t].color.Black?
    ensures SweptWhite(BarrierBack(s, t))
  {
    var u := BarrierBack(s, t);
    assert forall y :: y in s.heap ==> (Unswept(u, y) <==> Unswept(s, y));
  }

  lemma BarrierBackInv(s: State, t: Id)
    requires Shape(s) && Closed(s) && NeverBlack(s) && t in s.heap && s.heap[t].color.Black? && s.heap[t].kind == TableK
    requires if s.phase == Propagate
             then NoDead(s) && TriColor(s, {t}) && s.mainthread in s.heap && !IsWhite(s, s.mainthread)
                  && s.registry in s.heap && !IsWhite(s, s.registry)
             else PhaseInv(s)
    ensures Inv(BarrierBack(s, t))
  {
    var s1 := Paint(s, t, Gray);
    PaintNeverBlack(s, t);
    hide Shape, Closed, NeverBlack, NoDead, TriColor, SweptWhite, AllWhite;
    PaintShape(s, t, Gray);
    PaintClosed(s, t, Gray);
    GrayFree(s1, [t] + s1.grayagain);
    BackPhase(s, t);
  }

  lemma PaintNeverBlack(s: State, t: Id)
    requires NeverBlack(s) && t in s.heap
    ensures NeverBlack(Paint(s, t, Gray))
  {}

  lemma BackPhase(s: State, t: Id)
    requires t in s.heap && s.heap[t].color.Black? && s.heap[t].kind == TableK
    requires if s.phase == Propagate
             then NoDead(s) && TriColor(s, {t}) && s.mainthread in s.heap && !IsWhite(s, s.mainthread)
                  && s.registry in s.heap && !IsWhite(s, s.registry)
             else PhaseInv(s)
    ensures PhaseInv(BarrierBack(s, t))
  {
    assert s.phase != Pause && s.phase != Finalize;
    hide NoDead, TriColor, SweptWhite, AllWhite;
    if s.phase == Propagate {
      BackTri(s, t);
    } else {
      BackSwept(s, t);
    }
  }

  /** Marking from a state that is in order but for some exempt objects. */
  lemma MarkedInv(s: State, u: State)
    requires Shape(s) && Closed(s) && NoDead(s) && s.phase == Propagate && OnlyPropagates(s, u) && Good(u, {})
    requires s.mainthread in s.heap && !IsWhite(s, s.mainthread) && s.registry in s.heap && !IsWhite(s, s.registry)
    ensures Inv(u)
  {
    hide Shape, Closed, TriColor, NeverBlack, NoDead;
    ShapeThrough(s, u);
    ClosedThrough(s, u);
  }

  lemma ForwardReady(s: State, o: Id)
    requires Shape(s) && NeverBlack(s) && TriColor(s, {o}) && RefsPresent(s)
    ensures Kinds(s) && Good(s, {o})
  {}

  lemma ForwardMarks(s: State, o: Id, v: Id)
    requires o in s.heap && s.heap[o].color.Black? && v in s.heap && RefsPresent(s)
    requires forall r :: r in s.heap[o].refs ==> r == v || (r in s.heap && !IsWhite(s, r))
    ensures OnlyMarks(s, Mark(s, v)) && o in Mark(s, v).heap
    ensures RefsMarked(Mark(s, v), o) && Mark(s, v).heap[o] == s.heap[o]
  {
    hide Mark, Whites, RefsPresent;
    MarksKeep(s, Mark(s, v), o, v);
  }

  lemma MarksKeep(s: State, u: State, o: Id, v: Id)
    requires OnlyMarks(s, u) && o in s.heap && s.heap[o].color.Black? && v in s.heap && !IsWhite(u, v)
    requires forall r :: r in s.heap[o].refs ==> r == v || (r in s.heap && !IsWhite(s, r))
    ensures RefsMarked(u, o) && u.heap[o] == s.heap[o]
  {
    hide Whites;
    assert SameObject(s.heap[o], u.heap[o]);
    forall r | r in s.heap[o].refs
      ensures r in u.heap && !IsWhite(u, r)
    {}
  }

  lemma BlackClosed(s: State, o: Id)
    requires NeverBlack(s) && o in s.heap && s.heap[o].color.Black?
    ensures !IsOpen(s.heap[o])
  {}

  lemma BarrierForwardInv(s: State, o: Id, v: Id)
    requires Shape(s) && Closed(s) && NeverBlack(s) && NoDead(s) && s.phase == Propagate && TriColor(s, {o})
    requires s.mainthread in s.heap && !IsWhite(s, s.mainthread) && s.registry in s.heap && !IsWhite(s, s.registry)
    requires o in s.heap && s.heap[o].color.Black? && v in s.heap && RefsPresent(s)
    requires forall r :: r in s.heap[o].refs ==> r == v || (r in s.heap && !IsWhite(s, r))
    ensures Inv(Mark(s, v))
  {
    hide *;
    ForwardReady(s, o);
    ForwardMarks(s, o, v);
    BlackClosed(s, o);
    ForwardGood(s, o, v);
    MarksPropagate(s, Mark(s, v));
    MarkedInv(s, Mark(s, v));
  }

  lemma ForwardGood(s: State, o: Id, v: Id)
    requires Good(s, {o}) && Kinds(s) && o in s.heap && v in s.heap && s.heap[o].color.Black? && !IsOpen(s.heap[o])
    requires RefsPresent(s) && o in Mark(s, v).heap && RefsMarked(Mark(s, v), o) && Mark(s, v).heap[o] == s.heap[o]
    ensures Good(Mark(s, v), {})
  {
    hide *;
    MarkGood(s, v, {o});
    assert {} + {o} == {o};
    BlackSettles(Mark(s, v), o);
  }

  lemma BlackSettles(u: State, o: Id)
    requires Good(u, {} + {o}) && o in u.heap && u.heap[o].color.Black? && !IsOpen(u.heap[o]) && RefsMarked(u, o)
    ensures Good(u, {})
  {
    hide Good, RefsMarked;
    Settle(u, {}, o);
  }

  lemma WhitenInv(s: State, o: Id)
    requires Inv(s) && Alive(s, o) && s.phase != Propagate
    ensures Inv(Whiten(s, o))
  {
    hide Shape, Closed, NeverBlack, AllWhite, SweptWhite;
    WhitenColors(s, o);
    PaintShape(s, o, White(s.white));
    PaintClosed(s, o, White(s.white));
  }

  lemma WhitenColors(s: State, o: Id)
    requires NeverBlack(s) && o in s.heap
    ensures NeverBlack(Whiten(s, o)) && (AllWhite(s) ==> AllWhite(Whiten(s, o)))
    ensures s.sweepgc <= |s.rootgc| && SweptWhite(s) ==> SweptWhite(Whiten(s, o))
  {
    var u := Whiten(s, o);
    assert s.sweepgc <= |s.rootgc| ==> forall y :: y in s.heap ==> (Unswept(u, y) <==> Unswept(s, y));
  }

  ghost predicate StoreGuard(s: State, o: Id, refs: seq<Id>, v: Id) {
    && Alive(s, o) && Alive(s, v) && s.heap[o].kind != StringK && s.heap[o].kind != ThreadK
    && forall r :: r in refs ==> r == v || r in s.heap[o].refs
  }

  lemma StoreReady(s: State, o: Id, refs: seq<Id>, v: Id)
    requires Inv(s) && StoreGuard(s, o, refs, v)
    ensures s.phase == Propagate ==> RefsPresent(SetRefs(s, o, refs))
    ensures forall r :: r in refs ==> Alive(s, r)
  {
    hide *;
    InvPhaseNoDead(s);
    GuardAlive(s, o, refs, v);
    if s.phase == Propagate {
      SetPresent(s, o, refs);
    }
  }

  lemma GuardAlive(s: State, o: Id, refs: seq<Id>, v: Id)
    requires Closed(s) && StoreGuard(s, o, refs, v)
    ensures o in s.heap && forall r :: r in refs ==> Alive(s, r)
  {
    hide Closed;
    AliveRefs(s, o);
  }

  lemma SetPresent(s: State, o: Id, refs: seq<Id>)
    requires Closed(s) && NoDead(s) && o in s.heap && forall r :: r in refs ==> Alive(s, r)
    ensures RefsPresent(SetRefs(s, o, refs))
  {}

  lemma InvPhaseNoDead(s: State)
    requires Inv(s)
    ensures Closed(s) && (s.phase == Propagate ==> NoDead(s))
  {}

  lemma AliveRefs(s: State, o: Id)
    requires Closed(s) && Alive(s, o)
    ensures forall r :: r in s.heap[o].refs ==> Alive(s, r)
  {}

  lemma StorePlainInv(s: State, o: Id, refs: seq<Id>, v: Id)
    requires Inv(s) && StoreGuard(s, o, refs, v) && !(IsWhite(s, v) && s.heap[o].color.Black?)
    ensures Inv(SetRefs(s, o, refs))
  {
    StoreReady(s, o, refs, v);
    if s.phase == Propagate && s.heap[o].color.Black? {
      assert RefsMarked(s, o);
    }
    hide Inv;
    SetRefsInv(s, o, refs);
  }

  lemma StoreBarrierParts(s: State, o: Id, refs: seq<Id>, v: Id)
    requires Inv(s) && StoreGuard(s, o, refs, v)
    ensures var u := SetRefs(s, o, refs);
            && Shape(u) && Closed(u) && NeverBlack(u)
            && (if s.phase == Propagate
                then NoDead(u) && TriColor(u, {o}) && u.mainthread in u.heap && !IsWhite(u, u.mainthread)
                     && u.registry in u.heap && !IsWhite(u, u.registry)
                else PhaseInv(u))
  {
    StoreReady(s, o, refs, v);
    hide Shape, Closed, NeverBlack, NoDead, TriColor, SweptWhite, AllWhite, RefsPresent;
    SetRefsShape(s, o, refs);
    SetRefsClosed(s, o, refs);
    SetRefsColors(s, o, refs);
    hide SetRefs;
    if s.phase == Propagate {
      SetRefsTri(s, o, refs);
      SetRefsMarks(s, o, refs);
    } else {
      SetRefsPhase(s, o, refs);
    }
  }

  lemma SetRefsMarks(s: State, o: Id, refs: seq<Id>)
    requires o in s.heap && s.mainthread in s.heap && s.registry in s.heap
    ensures var u := SetRefs(s, o, refs);
      && u.phase == s.phase && u.mainthread == s.mainthread && u.registry == s.registry
      && u.mainthread in u.heap && u.registry in u.heap
      && (IsWhite(u, u.mainthread) <==> IsWhite(s, s.mainthread)) && (IsWhite(u, u.registry) <==> IsWhite(s, s.registry))
  {}

  lemma BlackRefs(s: State, o: Id)
    requires Inv(s) && s.phase == Propagate && o in s.heap && s.heap[o].color.Black?
    ensures RefsMarked(s, o)
  {}

  /** One object has these references now; every other has its own, and the roots are the same. */
  ghost predicate OnlyRefers(s: State, u: State, o: Id, refs: seq<Id>) {
    && u.mainthread == s.mainthread && u.registry == s.registry && u.running == s.running && u.mt == s.mt
    && u.heap.Keys == s.heap.Keys
    && (forall x :: x in s.heap ==> u.heap[x].kind == s.heap[x].kind && u.heap[x].fixed == s.heap[x].fixed)
    && (forall x :: x in s.heap ==> u.heap[x].refs == if x == o then refs else s.heap[x].refs)
  }

  lemma PaintRefers(s: State, u: State, o: Id, refs: seq<Id>, c: Color)
    requires OnlyRefers(s, u, o, refs) && o in s.heap
    ensures OnlyRefers(s, Paint(u, o, c), o, refs)
  {}

  lemma MarkRefers(s: State, u: State, v: State, o: Id, refs: seq<Id>)
    requires OnlyRefers(s, u, o, refs) && OnlyMarks(u, v)
    ensures OnlyRefers(s, v, o, refs)
  {}

  lemma AgainRefers(s: State, u: State, o: Id, refs: seq<Id>, again: seq<Id>)
    requires OnlyRefers(s, u, o, refs)
    ensures OnlyRefers(s, u.(grayagain := again), o, refs)
  {}

  /** After a write the holder has exactly the references given; the barrier changes colours only. */
  lemma StoreRefers(s: State, o: Id, refs: seq<Id>, v: Id)
    requires o in s.heap && v in s.heap && (s.phase == Propagate ==> RefsPresent(SetRefs(s, o, refs)))
    ensures OnlyRefers(s, Store(s, o, refs, v), o, refs)
  {
    var u := SetRefs(s, o, refs);
    assert OnlyRefers(s, u, o, refs) && o in u.heap && v in u.heap && u.phase == s.phase;
    hide OnlyRefers, RefsPresent, SetRefs, Paint;
    PaintRefers(s, u, o, refs, Gray);
    AgainRefers(s, Paint(u, o, Gray), o, refs, [o] + Paint(u, o, Gray).grayagain);
    PaintRefers(s, u, o, refs, White(u.white));
    if s.phase == Propagate {
      MarkRefers(s, u, Mark(u, v), o, refs);
    }
  }

  /** A write behind its barrier keeps the invariant. */
  lemma StoreInv(s: State, o: Id, refs: seq<Id>, v: Id)
    requires Inv(s) && StoreGuard(s, o, refs, v) && (s.phase == Propagate ==> RefsPresent(SetRefs(s, o, refs)))
    ensures Inv(Store(s, o, refs, v))
  {
    hide Inv, Shape, Closed, NeverBlack, NoDead, TriColor, PhaseInv, RefsPresent;
    if IsWhite(s, v) && s.heap[o].color.Black? {
      StoreBarrierParts(s, o, refs, v);
      var u := SetRefs(s, o, refs);
      if s.heap[o].kind == TableK {
        BarrierBackInv(u, o);
      } else if s.phase == Propagate {
        BlackRefs(s, o);
        BarrierForwardInv(u, o, v);
      } else {
        InvOf(u);
        WhitenInv(u, o);
      }
    } else {
      StorePlainInv(s, o, refs, v);
    }
  }

  lemma InvOf(s: State)
    requires Shape(s) && Closed(s) && NeverBlack(s) && PhaseInv(s)
    ensures Inv(s)
  {}

  // ---------- Allocation ----------

  /** luaC_link and its like: a new current-white object linked into rootgc. */
  function AddRoot(s: State, x: Id, kind: Kind, refs: seq<Id>, at: nat): State
    requires at <= |s.rootgc|
  {
    LinkRoot(s.(heap := s.heap[x := Object(kind, White(s.white), refs, InRoot, false)],
                open := if kind == ThreadK then s.open[x := []] else s.open), x, at)
  }

  function AddString(s: State, x: Id, b: nat): State
    requires b < |s.strings|
  {
    s.(heap := s.heap[x := Object(StringK, White(s.white), [], InBucket(b), false)],
       strings := s.strings[b := [x] + s.strings[b]])
  }

  /** luaF_findupval when there is no upvalue for the slot yet. */
  function AddOpen(s: State, x: Id, refs: seq<Id>, at: nat): State
    requires s.running in s.open && at <= |s.open[s.running]|
  {
    var list := s.open[s.running];
    s.(heap := s.heap[x := Object(UpvalK, White(s.white), refs, InOpen(s.running), false)],
       open := s.open[s.running := list[..at] + [x] + list[at..]],
       uvhead := [x] + s.uvhead)
  }

  /** What every kind of allocation has in common. */
  ghost predicate Added(s: State, u: State, x: Id) {
    && x !in s.heap && x in u.heap && u.heap[x].color == White(s.white) && !u.heap[x].fixed
    && (forall y :: y in u.heap <==> y == x || y in s.heap)
    && (forall y :: y in s.heap ==> u.heap[y] == s.heap[y])
    && u.phase == s.phase && SameRegisters(s, u) && u.gray == s.gray && u.grayagain == s.grayagain
  }

  lemma AddedClosed(s: State, u: State, x: Id)
    requires Closed(s) && Added(s, u, x) && forall r :: r in u.heap[x].refs ==> Alive(s, r)
    ensures Closed(u) && Alive(u, x)
  {
    assert forall y :: IsRoot(u, y) <==> IsRoot(s, y);
    assert forall y :: y in s.heap ==> (Dead(u, y) <==> Dead(s, y));
  }

  lemma AddedTri(s: State, u: State, x: Id)
    requires TriColor(s, {}) && NoDead(s) && Added(s, u, x)
    ensures TriColor(u, {}) && NoDead(u)
  {
    assert x !in s.gray && x !in s.grayagain;
    assert forall y :: y in s.heap && RefsMarked(s, y) ==> RefsMarked(u, y);
  }

  lemma AddedPhase(s: State, u: State, x: Id)
    requires PhaseInv(s) && Added(s, u, x) && u.sweepstr == s.sweepstr && |u.strings| == |s.strings|
    requires u.sweepgc <= |u.rootgc| && (s.sweepgc == 0 ==> u.sweepgc == 0)
    requires s.phase == SweepString || s.phase == Sweep ==> s.sweepgc <= |s.rootgc|
    requires s.phase == SweepString || s.phase == Sweep ==>
               forall y :: y in s.heap && s.sweepgc <= |s.rootgc| && Unswept(s, y) ==> Unswept(u, y)
    ensures PhaseInv(u)
  {
    hide NoDead, TriColor;
    if s.phase == Propagate {
      AddedTri(s, u, x);
    }
  }

  lemma AddedNeverBlack(s: State, u: State, x: Id)
    requires NeverBlack(s) && Added(s, u, x)
    ensures NeverBlack(u)
  {}

  lemma AddedKinds(s: State, u: State, x: Id)
    requires Kinds(s) && Added(s, u, x)
    requires u.heap[x].home.InBucket? <==> u.heap[x].kind == StringK
    requires u.heap[x].home.InOpen? ==> u.heap[x].kind == UpvalK
    requires u.heap[x].kind == StringK ==> u.heap[x].refs == []
    requires forall t :: t in u.open <==> t in s.open || (t == x && u.heap[x].kind == ThreadK)
    ensures Kinds(u)
  {}

  lemma AddRootSeq(s: State, x: Id, kind: Kind, refs: seq<Id>, at: nat)
    requires Distinct(s.rootgc) && x !in s.rootgc && at <= |s.rootgc|
    ensures Distinct(AddRoot(s, x, kind, refs, at).rootgc)
    ensures forall y :: y in AddRoot(s, x, kind, refs, at).rootgc <==> y == x || y in s.rootgc
  {
    var u := AddRoot(s, x, kind, refs, at);
    var front, back := s.rootgc[..at], s.rootgc[at..];
    assert s.rootgc == front + back;
    InsertDistinct(front, back, x);
    assert front + ([x] + back) == u.rootgc;
  }

  lemma AddRootLists(s: State, x: Id, kind: Kind, refs: seq<Id>, at: nat)
    requires Homes(s) && Distinct(s.rootgc) && x !in s.heap && x !in s.open && at <= |s.rootgc| && kind != StringK
    ensures Homes(AddRoot(s, x, kind, refs, at)) && Distinct(AddRoot(s, x, kind, refs, at).rootgc)
  {
    assert x !in s.rootgc;
    hide Distinct;
    AddRootSeq(s, x, kind, refs, at);
    AddRootOthers(s, x, kind, refs, at);
  }

  lemma AddRootOthers(s: State, x: Id, kind: Kind, refs: seq<Id>, at: nat)
    requires Homes(s) && x !in s.heap && x !in s.open && at <= |s.rootgc| && kind != StringK
    requires forall y :: y in AddRoot(s, x, kind, refs, at).rootgc <==> y == x || y in s.rootgc
    ensures Homes(AddRoot(s, x, kind, refs, at))
  {
    AddRootRoots(s, x, kind, refs, at);
    AddRootBuckets(s, x, kind, refs, at);
    AddRootOpens(s, x, kind, refs, at);
  }

  lemma AddRootRoots(s: State, x: Id, kind: Kind, refs: seq<Id>, at: nat)
    requires RootHomes(s) && at <= |s.rootgc|
    requires forall y :: y in AddRoot(s, x, kind, refs, at).rootgc <==> y == x || y in s.rootgc
    ensures RootHomes(AddRoot(s, x, kind, refs, at))
  {}

  lemma AddRootBuckets(s: State, x: Id, kind: Kind, refs: seq<Id>, at: nat)
    requires BucketHomes(s) && x !in s.heap && at <= |s.rootgc|
    ensures BucketHomes(AddRoot(s, x, kind, refs, at))
  {}

  lemma AddRootOpens(s: State, x: Id, kind: Kind, refs: seq<Id>, at: nat)
    requires OpenHomes(s) && x !in s.heap && x !in s.open && at <= |s.rootgc|
    ensures OpenHomes(AddRoot(s, x, kind, refs, at))
  {}

  lemma AddRootRepeats(s: State, x: Id, kind: Kind, refs: seq<Id>, at: nat)
    requires NoRepeats(s) && at <= |s.rootgc| && Distinct(AddRoot(s, x, kind, refs, at).rootgc)
    ensures NoRepeats(AddRoot(s, x, kind, refs, at))
  {}

  lemma AddRootAdded(s: State, x: Id, kind: Kind, refs: seq<Id>, at: nat)
    requires x !in s.heap && at <= |s.rootgc|
    ensures Added(s, AddRoot(s, x, kind, refs, at), x)
  {}

  lemma NotInUse(s: State, x: Id)
    requires Shape(s) && x !in s.heap
    ensures x !in s.open && Distinct(s.rootgc) && Homes(s) && NoRepeats(s) && Kinds(s)
    ensures |s.strings| > 0 && s.sweepstr <= |s.strings| && s.sweepgc <= |s.rootgc|
  {}

  lemma AddRootShape(s: State, x: Id, kind: Kind, refs: seq<Id>, at: nat)
    requires Shape(s) && x !in s.heap && at <= |s.rootgc| && kind != StringK
    ensures Shape(AddRoot(s, x, kind, refs, at))
  {
    var u := AddRoot(s, x, kind, refs, at);
    NotInUse(s, x);
    hide *;
    AddRootLists(s, x, kind, refs, at);
    AddRootRepeats(s, x, kind, refs, at);
    AddRootAdded(s, x, kind, refs, at);
    AddRootIs(s, x, kind, refs, at);
    AddedKinds(s, u, x);
    ShapeWhole(u);
  }

  lemma AddRootIs(s: State, x: Id, kind: Kind, refs: seq<Id>, at: nat)
    requires at <= |s.rootgc| && kind != StringK && s.sweepgc <= |s.rootgc|
    ensures var u := AddRoot(s, x, kind, refs, at);
      && x in u.heap && u.heap[x].home == InRoot && u.heap[x].kind == kind
      && (forall t :: t in u.open <==> t in s.open || (t == x && kind == ThreadK))
      && u.strings == s.strings && u.sweepstr == s.sweepstr && u.sweepgc <= |u.rootgc|
  {}

  lemma ShapeWhole(s: State)
    requires Homes(s) && NoRepeats(s) && Kinds(s)
    requires |s.strings| > 0 && s.sweepstr <= |s.strings| && s.sweepgc <= |s.rootgc|
    ensures Shape(s)
  {
    hide Homes, NoRepeats, Kinds;
  }

  lemma AddRootUnswept(s: State, x: Id, kind: Kind, refs: seq<Id>, at: nat, y: Id)
    requires s.sweepgc <= |s.rootgc| && at <= |s.rootgc| && x !in s.heap && y in s.heap && Unswept(s, y)
    ensures AddRoot(s, x, kind, refs, at).sweepgc <= |AddRoot(s, x, kind, refs, at).rootgc|
    ensures Unswept(AddRoot(s, x, kind, refs, at), y)
  {
    var u := AddRoot(s, x, kind, refs, at);
    var tail := s.rootgc[s.sweepgc..];
    forall z | z in tail
      ensures z in u.rootgc[u.sweepgc..]
    {
      var i :| s.sweepgc <= i < |s.rootgc| && s.rootgc[i] == z;
      assert u.rootgc[if i < at then i else i + 1] == z;
    }
    assert u.heap[y] == s.heap[y];
  }

  /** An allocation that keeps the structure and what is still to be swept keeps the invariant. */
  lemma AddedInv(s: State, u: State, x: Id)
    requires Inv(s) && Shape(u) && Added(s, u, x) && (forall r :: r in u.heap[x].refs ==> Alive(s, r))
    requires u.sweepstr == s.sweepstr && |u.strings| == |s.strings| && (s.sweepgc == 0 ==> u.sweepgc == 0)
    requires s.sweepgc <= |s.rootgc| && u.sweepgc <= |u.rootgc|
    requires forall y :: y in s.heap && Unswept(s, y) ==> Unswept(u, y)
    ensures Inv(u) && Alive(u, x)
  {
    hide Shape, Closed, NeverBlack, PhaseInv;
    AddedClosed(s, u, x);
    AddedNeverBlack(s, u, x);
    AddedPhase(s, u, x);
  }

  lemma AddRootInv(s: State, x: Id, kind: Kind, refs: seq<Id>, at: nat)
    requires Inv(s) && x !in s.heap && at <= |s.rootgc| && kind != StringK
    requires forall r :: r in refs ==> Alive(s, r)
    ensures Inv(AddRoot(s, x, kind, refs, at)) && Alive(AddRoot(s, x, kind, refs, at), x)
  {
    var u := AddRoot(s, x, kind, refs, at);
    hide Shape, Closed, NeverBlack, PhaseInv, Added;
    ShapeBounds(s);
    AddRootAdded(s, x, kind, refs, at);
    AddRootShape(s, x, kind, refs, at);
    ShapeBounds(u);
    forall y | y in s.heap && Unswept(s, y)
      ensures Unswept(u, y)
    {
      AddRootUnswept(s, x, kind, refs, at, y);
    }
    AddedInv(s, u, x);
  }

  lemma AddStringLists(s: State, x: Id, b: nat)
    requires Homes(s) && NoRepeats(s) && x !in s.heap && b < |s.strings|
    ensures Homes(AddString(s, x, b)) && NoRepeats(AddString(s, x, b))
  {
    AddStringRoots(s, x, b);
    AddStringBuckets(s, x, b);
    AddStringOpens(s, x, b);
    AddStringRepeats(s, x, b);
  }

  lemma AddStringRoots(s: State, x: Id, b: nat)
    requires RootHomes(s) && x !in s.heap && b < |s.strings|
    ensures RootHomes(AddString(s, x, b))
  {}

  lemma AddStringBuckets(s: State, x: Id, b: nat)
    requires BucketHomes(s) && x !in s.heap && b < |s.strings|
    ensures BucketHomes(AddString(s, x, b))
  {
    var u := AddString(s, x, b);
    forall c, y | 0 <= c < |u.strings|
      ensures y in u.strings[c] <==> y in u.heap && u.heap[y].home == InBucket(c)
    {
      assert y in s.strings[c] <==> y in s.heap && s.heap[y].home == InBucket(c);
    }
  }

  lemma AddStringOpens(s: State, x: Id, b: nat)
    requires OpenHomes(s) && x !in s.heap && b < |s.strings|
    ensures OpenHomes(AddString(s, x, b))
  {}

  lemma AddStringRepeats(s: State, x: Id, b: nat)
    requires BucketHomes(s) && NoRepeats(s) && x !in s.heap && b < |s.strings|
    ensures NoRepeats(AddString(s, x, b))
  {
    assert x !in s.strings[b];
  }

  lemma AddStringShape(s: State, x: Id, b: nat)
    requires Shape(s) && x !in s.heap && b < |s.strings|
    ensures Shape(AddString(s, x, b))
  {
    hide Homes, NoRepeats, Kinds;
    assert Added(s, AddString(s, x, b), x);
    hide Added;
    AddStringLists(s, x, b);
    AddedKinds(s, AddString(s, x, b), x);
  }

  lemma AddStringUnswept(s: State, x: Id, b: nat)
    requires s.sweepgc <= |s.rootgc| && x !in s.heap && b < |s.strings|
    ensures forall y :: y in s.heap && Unswept(s, y) ==> Unswept(AddString(s, x, b), y)
  {}

  lemma AddStringInv(s: State, x: Id, b: nat)
    requires Inv(s) && x !in s.heap && b < |s.strings|
    ensures Inv(AddString(s, x, b)) && Alive(AddString(s, x, b), x)
  {
    var u := AddString(s, x, b);
    assert Added(s, u, x);
    hide Shape, Closed, NeverBlack, PhaseInv, Added;
    ShapeBounds(s);
    AddStringShape(s, x, b);
    ShapeBounds(u);
    AddStringUnswept(s, x, b);
    AddedInv(s, u, x);
  }

  lemma AddOpenLists(s: State, x: Id, refs: seq<Id>, at: nat)
    requires Homes(s) && NoRepeats(s) && x !in s.heap && s.running in s.open && at <= |s.open[s.running]|
    ensures Homes(AddOpen(s, x, refs, at)) && NoRepeats(AddOpen(s, x, refs, at))
  {
    AddOpenSeq(s, x, refs, at);
    AddOpenRoots(s, x, refs, at);
    AddOpenBuckets(s, x, refs, at);
    AddOpenOpens(s, x, refs, at);
    AddOpenRepeats(s, x, refs, at);
  }

  lemma AddOpenSeq(s: State, x: Id, refs: seq<Id>, at: nat)
    requires OpenHomes(s) && NoRepeats(s) && x !in s.heap && s.running in s.open && at <= |s.open[s.running]|
    ensures var u := AddOpen(s, x, refs, at);
      && Distinct(u.open[s.running]) && Distinct(u.uvhead)
      && forall y :: y in u.open[s.running] <==> y == x || y in s.open[s.running]
  {
    var t := s.running;
    var u := AddOpen(s, x, refs, at);
    var front, back := s.open[t][..at], s.open[t][at..];
    assert s.open[t] == front + back && x !in s.open[t];
    InsertDistinct(front, back, x);
    assert front + ([x] + back) == u.open[t];
    assert x !in s.uvhead;
  }

  lemma AddOpenRoots(s: State, x: Id, refs: seq<Id>, at: nat)
    requires RootHomes(s) && x !in s.heap && s.running in s.open && at <= |s.open[s.running]|
    ensures RootHomes(AddOpen(s, x, refs, at))
  {}

  lemma AddOpenBuckets(s: State, x: Id, refs: seq<Id>, at: nat)
    requires BucketHomes(s) && x !in s.heap && s.running in s.open && at <= |s.open[s.running]|
    ensures BucketHomes(AddOpen(s, x, refs, at))
  {}

  lemma AddOpenOpens(s: State, x: Id, refs: seq<Id>, at: nat)
    requires OpenHomes(s) && x !in s.heap && s.running in s.open && at <= |s.open[s.running]|
    requires forall y :: y in AddOpen(s, x, refs, at).open[s.running] <==> y == x || y in s.open[s.running]
    ensures OpenHomes(AddOpen(s, x, refs, at))
  {
    var u := AddOpen(s, x, refs, at);
    forall c, y | c in u.open
      ensures y in u.open[c] <==> y in u.heap && u.heap[y].home == InOpen(c)
    {
      assert y in s.open[c] <==> y in s.heap && s.heap[y].home == InOpen(c);
    }
  }

  lemma AddOpenRepeats(s: State, x: Id, refs: seq<Id>, at: nat)
    requires NoRepeats(s) && s.running in s.open && at <= |s.open[s.running]|
    requires var u := AddOpen(s, x, refs, at); Distinct(u.open[s.running]) && Distinct(u.uvhead)
    ensures NoRepeats(AddOpen(s, x, refs, at))
  {
    hide Distinct;
  }

  lemma AddOpenShape(s: State, x: Id, refs: seq<Id>, at: nat)
    requires Shape(s) && x !in s.heap && s.running in s.open && at <= |s.open[s.running]|
    ensures Shape(AddOpen(s, x, refs, at))
  {
    hide Homes, NoRepeats, Kinds;
    assert Added(s, AddOpen(s, x, refs, at), x);
    hide Added;
    AddOpenLists(s, x, refs, at);
    AddedKinds(s, AddOpen(s, x, refs, at), x);
  }

  lemma AddOpenUnswept(s: State, x: Id, refs: seq<Id>, at: nat)
    requires s.sweepgc <= |s.rootgc| && x !in s.heap && s.running in s.open && at <= |s.open[s.running]|
    ensures forall y :: y in s.heap && Unswept(s, y) ==> Unswept(AddOpen(s, x, refs, at), y)
  {}

  lemma AddOpenInv(s: State, x: Id, refs: seq<Id>, at: nat)
    requires Inv(s) && x !in s.heap && s.running in s.open && at <= |s.open[s.running]|
    requires forall r :: r in refs ==> Alive(s, r)
    ensures Inv(AddOpen(s, x, refs, at)) && Alive(AddOpen(s, x, refs, at), x)
  {
    var u := AddOpen(s, x, refs, at);
    assert Added(s, u, x);
    hide Shape, Closed, NeverBlack, PhaseInv, Added;
    ShapeBounds(s);
    AddOpenShape(s, x, refs, at);
    ShapeBounds(u);
    AddOpenUnswept(s, x, refs, at);
    AddedInv(s, u, x);
  }

  // ---------- Lookup of strings and upvalues ----------

  /** A dead string or upvalue that is found again gets the current white. */
  function Revive(s: State, x: Id): State
    requires x in s.heap
  {
    if Dead(s, x) then Whiten(s, x) else s
  }

  lemma ReviveClosed(s: State, x: Id)
    requires Closed(s) && x in s.heap && forall r :: r in s.heap[x].refs ==> Alive(s, r)
    ensures Closed(Revive(s, x)) && Alive(Revive(s, x), x)
  {
    var u := Revive(s, x);
    assert forall y :: IsRoot(u, y) <==> IsRoot(s, y);
  }

  lemma RevivePhase(s: State, x: Id)
    requires PhaseInv(s) && NeverBlack(s) && x in s.heap && Dead(s, x)
    ensures PhaseInv(Whiten(s, x)) && NeverBlack(Whiten(s, x))
  {
    var u := Whiten(s, x);
    assert s.phase == SweepString || s.phase == Sweep;
    assert forall y :: y in s.heap ==> (Unswept(u, y) <==> Unswept(s, y));
  }

  lemma ReviveInv(s: State, x: Id)
    requires Inv(s) && x in s.heap && forall r :: r in s.heap[x].refs ==> Alive(s, r)
    ensures Inv(Revive(s, x)) && Alive(Revive(s, x), x)
  {
    if Dead(s, x) {
      hide Shape, Closed, NeverBlack, PhaseInv;
      PaintShape(s, x, White(s.white));
      ReviveClosed(s, x);
      RevivePhase(s, x);
    }
  }

  // ---------- Fixed strings ----------

  /** luaS_fix: the string is never collected from now on. */
  function Fix(s: State, x: Id): State
    requires x in s.heap
  {
    s.(heap := s.heap[x := s.heap[x].(fixed := true)])
  }

  lemma FixInv(s: State, x: Id)
    requires Inv(s) && x in s.heap && s.heap[x].kind == StringK
    ensures Inv(Fix(s, x))
  {
    hide Shape, Closed, NeverBlack, PhaseInv, SweptWhite, NoDead, AllWhite, TriColor;
    FixShape(s, x);
    ClosedKept(s, Fix(s, x));
    FixColors(s, x);
    FixPhase(s, x);
  }

  lemma FixShape(s: State, x: Id)
    requires Shape(s) && x in s.heap && s.heap[x].kind == StringK
    ensures Shape(Fix(s, x))
  {
    hide Homes, Kinds;
    HomesKept(s, Fix(s, x));
    FixKinds(s, x);
  }

  lemma FixKinds(s: State, x: Id)
    requires Kinds(s) && x in s.heap && s.heap[x].kind == StringK
    ensures Kinds(Fix(s, x))
  {}

  lemma FixColors(s: State, x: Id)
    requires x in s.heap
    ensures NeverBlack(s) ==> NeverBlack(Fix(s, x))
    ensures NoDead(s) ==> NoDead(Fix(s, x))
    ensures AllWhite(s) ==> AllWhite(Fix(s, x))
    ensures s.sweepgc <= |s.rootgc| && SweptWhite(s) ==> SweptWhite(Fix(s, x))
  {
    var u := Fix(s, x);
    assert forall y :: y in s.heap ==> u.heap[y].color == s.heap[y].color && u.heap[y].home == s.heap[y].home;
    assert s.sweepgc <= |s.rootgc| ==> forall y :: y in s.heap ==> (Unswept(u, y) <==> Unswept(s, y));
  }

  lemma FixTri(s: State, x: Id)
    requires TriColor(s, {}) && x in s.heap
    ensures TriColor(Fix(s, x), {})
  {
    var u := Fix(s, x);
    FixMarked(s, x);
    hide RefsMarked;
    assert GrayLists(u);
  }

  lemma FixMarked(s: State, x: Id)
    requires x in s.heap
    ensures forall y :: y in s.heap && RefsMarked(s, y) ==> RefsMarked(Fix(s, x), y)
  {
    var u := Fix(s, x);
    assert forall y :: y in s.heap ==> u.heap[y].refs == s.heap[y].refs && (IsWhite(u, y) <==> IsWhite(s, y));
  }

  lemma FixPhase(s: State, x: Id)
    requires PhaseInv(s) && x in s.heap
    ensures PhaseInv(Fix(s, x))
  {
    hide SweptWhite, NoDead, AllWhite, TriColor;
    FixColors(s, x);
    if s.phase == Propagate {
      FixTri(s, x);
    }
  }

  // ---------- Roots that change without a barrier ----------

  lemma RootsInv(s: State, u: State)
    requires Inv(s) && u == s.(running := u.running, mt := u.mt)
    requires Alive(s, u.running) && s.heap[u.running].kind == ThreadK && forall m :: m in u.mt ==> Alive(s, m)
    ensures Inv(u)
  {
    RootsShape(s, u);
    RootsClosed(s, u);
    RootsPhase(s, u);
    hide Shape, Closed, PhaseInv;
    assert NeverBlack(u);
  }

  lemma RootsShape(s: State, u: State)
    requires Shape(s) && u == s.(running := u.running, mt := u.mt)
    requires u.running in s.heap && s.heap[u.running].kind == ThreadK
    ensures Shape(u)
  {
    LinksHomes(s, u.(running := s.running));
    hide Homes;
    assert Kinds(u) && NoRepeats(u);
    HomesRunning(u.(running := s.running), u);
  }

  lemma HomesRunning(s: State, u: State)
    requires Homes(s) && u == s.(running := u.running)
    ensures Homes(u)
  {}

  lemma RootsClosed(s: State, u: State)
    requires Closed(s) && u == s.(running := u.running, mt := u.mt)
    requires Alive(s, u.running) && forall m :: m in u.mt ==> Alive(s, m)
    ensures Closed(u)
  {
    assert forall y :: IsRoot(u, y) ==> IsRoot(s, y) || y == u.running || y in u.mt;
  }

  lemma RootsPhase(s: State, u: State)
    requires PhaseInv(s) && u == s.(running := u.running, mt := u.mt)
    ensures PhaseInv(u)
  {
    assert forall y :: y in s.heap && RefsMarked(s, y) ==> RefsMarked(u, y);
    assert s.sweepgc <= |s.rootgc| ==> forall y :: y in s.heap ==> (Unswept(u, y) <==> Unswept(s, y));
  }

  // ---------- Closing the first open upvalue of the running thread ----------

  lemma MoveHeadTri(s: State, t: Id)
    requires t in s.open && s.open[t] != [] && s.open[t][0] in s.heap && TriColor(s, {}) && NoDead(s)
    ensures TriColor(MoveHead(s, t), {s.open[t][0]}) && NoDead(MoveHead(s, t))
    ensures IsWhite(s, s.open[t][0]) ==> TriColor(MoveHead(s, t), {})
  {
    var x, u := s.open[t][0], MoveHead(s, t);
    assert forall y :: y in s.heap && y != x ==> u.heap[y] == s.heap[y];
    assert forall y :: y in s.heap && y != x && RefsMarked(s, y) ==> RefsMarked(u, y);
  }

  lemma MoveHeadPhase(s: State, t: Id)
    requires t in s.open && s.open[t] != [] && s.open[t][0] in s.heap && PhaseInv(s) && NeverBlack(s)
    requires s.heap[s.open[t][0]].color == White(s.white)
    ensures PhaseInv(MoveHead(s, t)) && NeverBlack(MoveHead(s, t))
  {
    assert NeverBlack(MoveHead(s, t));
    hide TriColor, NoDead, SweptWhite, NeverBlack;
    match s.phase
    case Propagate => MoveHeadTri(s, t);
    case SweepString | Sweep => MoveHeadWhite(s, t);
    case Pause | Finalize =>
  }

  lemma MoveHeadInv(s: State, t: Id)
    requires Inv(s) && t in s.open && s.open[t] != [] && s.open[t][0] in s.heap
    requires s.heap[s.open[t][0]].color == White(s.white)
    ensures Inv(MoveHead(s, t))
  {
    hide Shape, Closed, PhaseInv, NeverBlack;
    MoveHeadShape(s, t);
    MoveHeadClosed(s, t);
    MoveHeadPhase(s, t);
  }

  lemma CloseGrayInv(s: State, t: Id)
    requires Inv(s) && s.phase == Propagate && t in s.open && s.open[t] != [] && s.open[t][0] in s.heap
    requires RefsPresent(s) && s.heap[s.open[t][0]].color.Gray?
    ensures var x := s.open[t][0]; Inv(MarkAll(Paint(MoveHead(s, t), x, Black), s.heap[x].refs))
  {
    var x := s.open[t][0];
    var u2 := Paint(MoveHead(s, t), x, Black);
    CloseGrayReady(s, t);
    hide *;
    MarkAllGood(u2, s.heap[x].refs, {x});
    var u := MarkAll(u2, s.heap[x].refs);
    CloseSettles(u2, u, x);
    MarksPropagate(u2, u);
    MarkedInv(u2, u);
  }

  /** The upvalue is closed and black; what it refers to is not marked yet. */
  lemma CloseGrayReady(s: State, t: Id)
    requires Inv(s) && s.phase == Propagate && t in s.open && s.open[t] != [] && s.open[t][0] in s.heap
    requires RefsPresent(s) && s.heap[s.open[t][0]].color.Gray?
    ensures var x := s.open[t][0]; var u := Paint(MoveHead(s, t), x, Black);
      && Shape(u) && Closed(u) && NoDead(u) && Good(u, {x}) && Kinds(u) && u.phase == Propagate
      && u.mainthread in u.heap && !IsWhite(u, u.mainthread) && u.registry in u.heap && !IsWhite(u, u.registry)
      && (forall r :: r in s.heap[x].refs ==> r in u.heap)
      && u.heap[x].color.Black? && !IsOpen(u.heap[x]) && u.heap[x].refs == s.heap[x].refs
  {
    var x := s.open[t][0];
    var u1 := MoveHead(s, t);
    PropagateParts(s);
    hide Inv, Shape, Closed, NoDead, NeverBlack, TriColor, RefsPresent, Good, Kinds, MoveHead, Paint;
    HeadReady(s, t);
    HeadMoved(s, t);
    HeadBlack(s, t);
    CloseGrayTri(s, t);
    MoveHeadShape(s, t);
    MoveHeadClosed(s, t);
    PaintShape(u1, x, Black);
    PaintClosed(u1, x, Black);
    ShapeKinds(Paint(u1, x, Black));
  }

  lemma HeadBlack(s: State, t: Id)
    requires t in s.open && s.open[t] != [] && s.open[t][0] in s.heap && s.heap[s.open[t][0]].color.Gray? && RefsPresent(s)
    requires s.mainthread in s.heap && !IsWhite(s, s.mainthread) && s.registry in s.heap && !IsWhite(s, s.registry)
    ensures var x := s.open[t][0];
      var u := Paint(MoveHead(s, t), x, Black);
      && u.phase == s.phase && x in u.heap && u.mainthread in u.heap && !IsWhite(u, u.mainthread)
      && u.registry in u.heap && !IsWhite(u, u.registry) && (forall r :: r in s.heap[x].refs ==> r in u.heap)
      && u.heap[x].color.Black? && !IsOpen(u.heap[x]) && u.heap[x].refs == s.heap[x].refs
  {
    HeadMoved(s, t);
    hide MoveHead, RefsPresent, Alive, IsOpen;
  }

  lemma PropagateParts(s: State)
    requires Inv(s) && s.phase == Propagate
    ensures Shape(s) && Closed(s) && NeverBlack(s) && NoDead(s) && TriColor(s, {})
    ensures s.mainthread in s.heap && !IsWhite(s, s.mainthread) && s.registry in s.heap && !IsWhite(s, s.registry)
  {}

  lemma HeadMoved(s: State, t: Id)
    requires t in s.open && s.open[t] != [] && s.open[t][0] in s.heap && s.heap[s.open[t][0]].color.Gray? && RefsPresent(s)
    ensures var x, u := s.open[t][0], MoveHead(s, t);
      && x in u.heap && Alive(u, x) && !IsOpen(u.heap[x]) && u.heap[x].refs == s.heap[x].refs
      && u.phase == s.phase && u.mainthread == s.mainthread && u.registry == s.registry
      && (forall y :: y in s.heap ==> y in u.heap && (IsWhite(u, y) <==> IsWhite(s, y)))
      && forall r :: r in s.heap[x].refs ==> r in u.heap
  {}

  lemma ShapeKinds(s: State)
    requires Shape(s)
    ensures Kinds(s)
  {}

  lemma CloseGrayTri(s: State, t: Id)
    requires TriColor(s, {}) && NoDead(s) && NeverBlack(s)
    requires t in s.open && s.open[t] != [] && s.open[t][0] in s.heap
    requires RefsPresent(s) && s.heap[s.open[t][0]].kind == UpvalK && s.heap[s.open[t][0]].color.Gray?
    ensures var u := Paint(MoveHead(s, t), s.open[t][0], Black);
            Good(u, {s.open[t][0]}) && NoDead(u)
  {
    var x, u1 := s.open[t][0], MoveHead(s, t);
    MoveHeadTri(s, t);
    assert NeverBlack(u1) && RefsPresent(u1);
    assert !IsOpen(u1.heap[x]) && u1.heap[x].kind == UpvalK && u1.heap[x].color.Gray?;
    assert NoDead(Paint(u1, x, Black));
    hide MoveHead, TriColor, NoDead, NeverBlack, RefsPresent;
    RepaintExempt(u1, x, Black, {x});
  }

  lemma CloseSettles(s: State, u: State, x: Id)
    requires OnlyMarks(s, u) && Good(u, {x}) && x in s.heap && s.heap[x].color.Black? && !IsOpen(s.heap[x])
    requires forall r :: r in s.heap[x].refs ==> r in s.heap && !IsWhite(u, r)
    ensures Good(u, {})
  {
    assert {} + {x} == {x};
    Settle(u, {}, x);
  }

  lemma DropHeadHomes(s: State, t: Id)
    requires Homes(s) && t in s.open && s.open[t] != [] && s.open[t][0] in s.heap
    requires s.heap[s.open[t][0]].home == InOpen(t) && s.open[t][0] !in s.open[t][1..]
    ensures Homes(DropHead(s, t))
  {
    var x, u := s.open[t][0], DropHead(s, t);
    assert s.open[t] == [x] + s.open[t][1..];
    assert RootHomes(u);
    assert BucketHomes(u);
    forall c, y | c in u.open
      ensures y in u.open[c] <==> y in u.heap && u.heap[y].home == InOpen(c)
    {
      assert y in s.open[c] <==> y in s.heap && s.heap[y].home == InOpen(c);
    }
    assert OpenHomes(u);
  }

  lemma DropHeadKinds(s: State, t: Id)
    requires Kinds(s) && NoRepeats(s) && t in s.open && s.open[t] != [] && s.open[t][0] in s.heap
    requires s.heap[s.open[t][0]].kind == UpvalK
    ensures Kinds(DropHead(s, t)) && NoRepeats(DropHead(s, t))
  {
    assert Distinct(s.open[t]);
  }

  lemma DropHeadShape(s: State, t: Id)
    requires Shape(s) && t in s.open && s.open[t] != [] && s.open[t][0] in s.heap
    ensures Shape(DropHead(s, t))
  {
    HeadReady(s, t);
    hide Homes, Kinds, NoRepeats;
    DropHeadHomes(s, t);
    DropHeadKinds(s, t);
  }

  lemma DropHeadClosed(s: State, t: Id)
    requires Closed(s) && t in s.open && s.open[t] != [] && s.open[t][0] in s.heap && Garbage(s, s.open[t][0])
    ensures Closed(DropHead(s, t)) && OnlyGarbageLost(s, DropHead(s, t))
  {
    assert OnlyGarbageLost(s, DropHead(s, t));
    hide DropHead;
    GarbageClosed(s, DropHead(s, t));
  }

  lemma DropHeadPhase(s: State, t: Id)
    requires PhaseInv(s) && NeverBlack(s)
    requires t in s.open && s.open[t] != [] && s.open[t][0] in s.heap && Dead(s, s.open[t][0])
    ensures PhaseInv(DropHead(s, t)) && NeverBlack(DropHead(s, t))
  {
    var u := DropHead(s, t);
    assert s.phase == SweepString || s.phase == Sweep;
    assert forall y :: y in u.heap && Unswept(s, y) ==> Unswept(u, y);
  }

  ghost predicate CloseGuard(s: State, t: Id) {
    t in s.open && s.open[t] != [] && s.open[t][0] in s.heap && (s.phase == Propagate ==> RefsPresent(s))
  }

  lemma CloseDeadInv(s: State, t: Id)
    requires Inv(s) && CloseGuard(s, t) && Dead(s, s.open[t][0])
    ensures Inv(CloseHead(s, t)) && KeepsReachable(s, CloseHead(s, t))
  {
    HeadReady(s, t);
    NotFixed(s, s.open[t][0]);
    hide Shape, Closed, NeverBlack, PhaseInv, OnlyGarbageLost, DropHead, MoveHead;
    DropHeadShape(s, t);
    DropHeadClosed(s, t);
    DropHeadPhase(s, t);
    GarbageUnreachable(s, DropHead(s, t));
  }

  /** An open upvalue that is alive is gray or current white, and gray only in a cycle. */
  lemma OpenColors(s: State, t: Id)
    requires Inv(s) && CloseGuard(s, t) && !Dead(s, s.open[t][0])
    ensures var c := s.heap[s.open[t][0]].color; c == White(s.white) || (c == Gray && s.phase != Pause && s.phase != Finalize)
  {
    HeadReady(s, t);
    hide Shape, Closed;
  }

  lemma CloseAliveInv(s: State, t: Id)
    requires Inv(s) && CloseGuard(s, t) && !Dead(s, s.open[t][0])
    ensures Inv(CloseHead(s, t)) && KeepsReachable(s, CloseHead(s, t))
  {
    var x := s.open[t][0];
    OpenColors(s, t);
    hide Inv, RefsPresent, MoveHead, DropHead;
    if s.heap[x].color == White(s.white) {
      MoveHeadInv(s, t);
    } else if s.phase == Propagate {
      CloseGrayInv(s, t);
    } else {
      WhitenInv(s, x);
      WhitenMoves(s, t);
      MoveHeadInv(Whiten(s, x), t);
    }
    CloseKeys(s, t);
    AllKept(s, CloseHead(s, t));
  }

  /** Closing an upvalue keeps the invariant and frees at most a dead upvalue. */
  lemma CloseHeadInv(s: State, t: Id)
    requires Inv(s) && CloseGuard(s, t)
    ensures Inv(CloseHead(s, t)) && KeepsReachable(s, CloseHead(s, t))
  {
    hide Inv, CloseHead;
    if Dead(s, s.open[t][0]) {
      CloseDeadInv(s, t);
    } else {
      CloseAliveInv(s, t);
    }
  }

  lemma NotFixed(s: State, x: Id)
    requires Inv(s) && x in s.heap && s.heap[x].kind == UpvalK
    ensures !s.heap[x].fixed
  {}

  lemma WhitenMoves(s: State, t: Id)
    requires t in s.open && s.open[t] != [] && s.open[t][0] in s.heap
    ensures var x := s.open[t][0];
            MoveHead(s, t).heap.Keys == s.heap.Keys && Whiten(MoveHead(s, t), x) == MoveHead(Whiten(s, x), t)
  {
    var x := s.open[t][0];
    assert Whiten(MoveHead(s, t), x).heap == MoveHead(Whiten(s, x), t).heap;
  }

  lemma CloseKeys(s: State, t: Id)
    requires CloseGuard(s, t) && !Dead(s, s.open[t][0])
    ensures CloseHead(s, t).heap.Keys == s.heap.Keys
  {
    hide MarkAll;
  }
}
