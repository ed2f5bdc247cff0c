/** Propagation of marks through the gray list, and what has been marked when it is empty. */
module GcPropagate {
  import opened GcHeap
  import opened GcMark

  // ---------- Marks stay inside the reachable part ----------

  ghost predicate SameGraph(s: State, u: State) {
    && (forall x :: IsRoot(s, x) <==> IsRoot(u, x))
    && u.heap.Keys == s.heap.Keys
    && forall x :: x in s.heap ==> u.heap[x].refs == s.heap[x].refs
  }

  lemma SameGraphReach(s: State, u: State, x: Id)
    requires SameGraph(s, u)
    ensures Reachable(s, x) <==> Reachable(u, x)
  {
    if Reachable(s, x) {
      var path :| PathTo(s, path, x);
      assert PathTo(u, path, x);
    }
    if Reachable(u, x) {
      var path :| PathTo(u, path, x);
      assert PathTo(s, path, x);
    }
  }

  /** Only reachable objects are marked. */
  ghost predicate Precise(s: State) {
    forall x :: x in s.heap && !IsWhite(s, x) ==> Reachable(s, x)
  }

  lemma PreciseThrough(s: State, u: State)
    requires Precise(s) && SameGraph(s, u)
    requires forall x :: x in u.heap && !IsWhite(u, x) ==> !IsWhite(s, x)
    ensures Precise(u)
  {
    forall x | x in u.heap && !IsWhite(u, x)
      ensures Reachable(u, x)
    {
      SameGraphReach(s, u, x);
    }
  }

  lemma PaintPrecise(s: State, x: Id, c: Color)
    requires Precise(s) && x in s.heap && Reachable(s, x)
    ensures Precise(Paint(s, x, c))
    ensures forall y :: Reachable(s, y) <==> Reachable(Paint(s, x, c), y)
  {
    var u := Paint(s, x, c);
    forall y
      ensures Reachable(s, y) <==> Reachable(u, y)
    {
      SameGraphReach(s, u, y);
    }
  }

  lemma MarkUdataPrecise(s: State, x: Id)
    requires RefsPresent(s) && Precise(s) && x in s.heap && Reachable(s, x)
    requires IsWhite(s, x) && s.heap[x].kind == UdataK
    ensures Precise(Mark(s, x))
    decreases Whites(s), 0
  {
    PaintPrecise(s, x, Black);
    PaintedWhites(s, x, Black);
    forall r | r in s.heap[x].refs
      ensures Reachable(Paint(s, x, Black), r)
    {
      ReachRef(s, x, r);
    }
    MarkAllPrecise(Paint(s, x, Black), s.heap[x].refs);
  }

  lemma MarkUpvalPrecise(s: State, x: Id)
    requires RefsPresent(s) && Precise(s) && x in s.heap && Reachable(s, x)
    requires IsWhite(s, x) && s.heap[x].kind == UpvalK
    ensures Precise(Mark(s, x))
    decreases Whites(s), 0
  {
    var s1 := Paint(s, x, Gray);
    PaintPrecise(s, x, Gray);
    PaintedWhites(s, x, Gray);
    assert OnlyMarks(s, s1);
    assert Whites(s1) < Whites(s);
    MarkUpvalIs(s, x);
    hide Precise, Reachable, Mark, MarkAll, Whites, OnlyMarks;
    forall r | r in s.heap[x].refs
      ensures Reachable(s1, r)
    {
      ReachRef(s, x, r);
    }
    MarkAllPrecise(s1, s.heap[x].refs);
    RepaintPrecise(s, MarkAll(s1, s.heap[x].refs), x);
  }

  lemma MarkUpvalIs(s: State, x: Id)
    requires RefsPresent(s) && x in s.heap && IsWhite(s, x) && s.heap[x].kind == UpvalK
    ensures var s1 := Paint(s, x, Gray);
      && RefsPresent(s1) && (forall r :: r in s.heap[x].refs ==> r in s1.heap)
      && OnlyMarks(s1, MarkAll(s1, s.heap[x].refs))
      && var u := MarkAll(s1, s.heap[x].refs);
         Mark(s, x) == if IsOpen(s.heap[x]) then u else Paint(u, x, Black)
  {
    hide MarkAll;
    assert Mark(s, x) == ReallyMark(s, x);
  }

  lemma RepaintPrecise(s: State, u: State, x: Id)
    requires x in s.heap && Reachable(s, x) && Precise(u) && OnlyMarks(Paint(s, x, Gray), u)
    ensures Precise(Paint(u, x, Black))
  {
    SameGraphReach(s, u, x);
    PaintPrecise(u, x, Black);
  }

  lemma {:induction false} MarkPrecise(s: State, x: Id)
    requires RefsPresent(s) && Precise(s) && x in s.heap && Reachable(s, x)
    ensures Precise(Mark(s, x))
    decreases Whites(s), 1
  {
    if IsWhite(s, x) {
      PaintPrecise(s, x, Gray);
      match s.heap[x].kind
      case StringK =>
      case UdataK => MarkUdataPrecise(s, x);
      case UpvalK => MarkUpvalPrecise(s, x);
      case FunctionK | TableK | ThreadK | ProtoK =>
        assert ReallyMark(s, x) == PushGray(Paint(s, x, Gray), x);
        PreciseThrough(Paint(s, x, Gray), PushGray(Paint(s, x, Gray), x));
    }
  }

  lemma {:induction false} MarkAllPrecise(s: State, refs: seq<Id>)
    requires RefsPresent(s) && Precise(s)
    requires forall r :: r in refs ==> r in s.heap && Reachable(s, r)
    ensures Precise(MarkAll(s, refs))
    decreases Whites(s), 2 + |refs|
  {
    if refs != [] {
      MarkPrecise(s, refs[0]);
      var s1 := Mark(s, refs[0]);
      forall r | r in refs[1..]
        ensures Reachable(s1, r)
      {
        SameGraphReach(s, s1, r);
      }
      MarkAllPrecise(s1, refs[1..]);
    }
  }

  // ---------- One gray object ----------

  /** Takes the first gray object off the list; a thread goes to grayagain and stays gray,
      any other object turns black. */
  function PopGray(s: State): (u: State)
    requires s.gray != [] && s.gray[0] in s.heap
    ensures SameGraph(s, u)
  {
    var o := s.gray[0];
    if s.heap[o].kind == ThreadK then s.(gray := s.gray[1..], grayagain := [o] + s.grayagain)
    else Paint(s.(gray := s.gray[1..]), o, Black)
  }

  /** propagatemark: traverses one gray object. */
  function PropagateMark(s: State): (u: State)
    requires s.gray != [] && s.gray[0] in s.heap && RefsPresent(s)
    ensures SameGraph(s, u)
  {
    MarkAll(PopGray(s), s.heap[s.gray[0]].refs)
  }

  /** What propagation may change: colours and the two gray lists. */
  ghost predicate OnlyPropagates(s: State, u: State) {
    && u == s.(heap := u.heap, gray := u.gray, grayagain := u.grayagain)
    && u.heap.Keys == s.heap.Keys
    && (forall x :: x in s.heap ==> SameObject(s.heap[x], u.heap[x]))
    && (forall x :: x in s.heap && !IsWhite(s, x) ==> !IsWhite(u, x))
    && (forall x :: x in s.heap && IsWhite(u, x) ==> u.heap[x].color == s.heap[x].color)
  }

  /** The order in which propagation runs down. */
  ghost predicate Closer(s: State, u: State) {
    Whites(u) < Whites(s) || (Whites(u) == Whites(s) && |u.gray| < |s.gray|)
  }

  /** Taking the head of the first list, and moving it to the front of the second. */
  lemma HeadTaken(a: seq<Id>, b: seq<Id>)
    requires a != [] && Distinct(a + b)
    ensures a[0] !in a[1..] && a[0] !in b && Distinct(a[1..] + b) && Distinct(a[1..] + ([a[0]] + b))
  {
    var c := a + b;
    var d := a[1..] + b;
    var e := a[1..] + ([a[0]] + b);
    assert c[0] == a[0];
    assert forall i :: 0 <= i < |d| ==> d[i] == c[i+1];
    assert forall i :: 0 <= i < |e| ==> e[i] == if i < |a| - 1 then c[i+1] else if i == |a| - 1 then c[0] else c[i];
    assert forall i :: 0 < i < |a| ==> a[i] == c[i];
    assert forall i :: 0 <= i < |b| ==> b[i] == c[|a| + i];
  }

  lemma PopLists(s: State)
    requires GrayLists(s) && s.gray != []
    ensures GrayLists(PopGray(s)) || s.heap[s.gray[0]].kind != ThreadK
    ensures GrayLists(PopGray(s)) && s.gray[0] in s.heap
    ensures s.gray[0] !in PopGray(s).gray && s.gray[0] !in s.grayagain
  {
    HeadTaken(s.gray, s.grayagain);
    assert s.gray == [s.gray[0]] + s.gray[1..];
  }

  /** Popping adds marks only, so marked references stay marked. */
  lemma PopRefs(s: State, x: Id)
    requires GrayLists(s) && s.gray != [] && x in s.heap && RefsMarked(s, x)
    ensures RefsMarked(PopGray(s), x)
  {
    assert s.gray[0] in s.gray;
  }

  lemma PopOthers(s: State, x: Id)
    requires GrayLists(s) && s.gray != [] && x in s.heap && x != s.gray[0]
    ensures PopGray(s).heap[x] == s.heap[x]
    ensures x in s.gray || x in s.grayagain ==> x in PopGray(s).gray || x in PopGray(s).grayagain
  {
    assert s.gray == [s.gray[0]] + s.gray[1..];
  }

  lemma PopTri(s: State)
    requires TriColor(s, {}) && s.gray != []
    ensures TriColor(PopGray(s), {s.gray[0]})
    ensures OpenMarked(s, {}) ==> OpenMarked(PopGray(s), {s.gray[0]})
  {
    var u := PopGray(s);
    PopLists(s);
    hide GrayLists, PopGray;
    forall x | x in s.heap && x != s.gray[0]
      ensures u.heap[x] == s.heap[x] && (RefsMarked(s, x) ==> RefsMarked(u, x))
      ensures x in s.gray || x in s.grayagain ==> x in u.gray || x in u.grayagain
    {
      PopOthers(s, x);
      if RefsMarked(s, x) {
        PopRefs(s, x);
      }
    }
  }

  lemma PopGood(s: State)
    requires Good(s, {}) && Kinds(s) && s.gray != []
    ensures Good(PopGray(s), {s.gray[0]})
    ensures OpenMarked(s, {}) ==> OpenMarked(PopGray(s), {s.gray[0]})
  {
    PopTri(s);
    PopKept(s);
    hide TriColor, OpenMarked, RefsPresent, NeverBlack, Kinds;
  }

  lemma PopKept(s: State)
    requires RefsPresent(s) && NeverBlack(s) && Kinds(s) && GrayLists(s) && s.gray != []
    ensures s.gray[0] in s.heap && RefsPresent(PopGray(s)) && NeverBlack(PopGray(s))
  {
    assert s.gray[0] in s.gray;
  }

  lemma KindsSame(s: State, u: State)
    requires OnlyPropagates(s, u) && Kinds(s)
    ensures Kinds(u)
  {}

  lemma PopFrame(s: State)
    requires GrayLists(s) && s.gray != []
    ensures OnlyPropagates(s, PopGray(s)) && Whites(PopGray(s)) == Whites(s) && |PopGray(s).gray| < |s.gray|
  {
    assert s.gray[0] in s.gray;
  }

  lemma PropagateMarkFrame(s: State)
    requires GrayLists(s) && RefsPresent(s) && s.gray != []
    ensures OnlyPropagates(s, PropagateMark(s)) && Closer(s, PropagateMark(s))
  {
    PopFrame(s);
    hide PopGray, Whites, MarkAll, OnlyPropagates, OnlyMarks, RefsPresent;
    PopPresent(s);
    var s1, u := PopGray(s), PropagateMark(s);
    assert OnlyMarks(s1, u);
    MarksPropagated(s, s1, u);
  }

  lemma PopPresent(s: State)
    requires GrayLists(s) && RefsPresent(s) && s.gray != []
    ensures s.gray[0] in s.heap && RefsPresent(PopGray(s)) && forall r :: r in s.heap[s.gray[0]].refs ==> r in PopGray(s).heap
  {
    assert s.gray[0] in s.gray;
  }

  lemma MarksPropagated(s: State, s1: State, u: State)
    requires OnlyPropagates(s, s1) && OnlyMarks(s1, u) && Whites(s1) == Whites(s) && |s1.gray| < |s.gray|
    ensures OnlyPropagates(s, u) && Closer(s, u)
  {
    hide Whites;
  }

  lemma PropagateMarkGood(s: State)
    requires Good(s, {}) && Kinds(s) && s.gray != []
    ensures Good(PropagateMark(s), {})
    ensures OpenMarked(s, {}) ==> OpenMarked(PropagateMark(s), {})
  {
    var o := s.gray[0];
    var s1 := PopGray(s);
    PopGood(s);
    PopFrame(s);
    KindsSame(s, s1);
    PopHead(s);
    hide PopGray, MarkAll, Good, Kinds, OpenMarked, Whites, OnlyMarks, RefsMarked, RefsPresent, OnlyPropagates;
    GoodPresent(s1, {o});
    MarkAllGood(s1, s.heap[o].refs, {o});
    MarkAllSettled(s1, o);
    PropagateSettles(PropagateMark(s), o);
  }

  lemma MarkAllSettled(s: State, o: Id)
    requires RefsPresent(s) && o in s.heap && !IsWhite(s, o) && forall r :: r in s.heap[o].refs ==> r in s.heap
    ensures var u := MarkAll(s, s.heap[o].refs);
      && o in u.heap && RefsMarked(u, o) && u.heap[o].kind == s.heap[o].kind && u.heap[o].color == s.heap[o].color
      && u.grayagain == s.grayagain
  {
    hide MarkAll, RefsPresent, Whites;
    var u := MarkAll(s, s.heap[o].refs);
    assert OnlyMarks(s, u);
  }

  lemma GoodPresent(s: State, ex: set<Id>)
    requires Good(s, ex)
    ensures RefsPresent(s)
  {}

  lemma PopHead(s: State)
    requires Good(s, {}) && s.gray != []
    ensures var o, u := s.gray[0], PopGray(s);
      && o in s.heap && o in u.heap && u.heap[o].refs == s.heap[o].refs && Listed(u.heap[o].kind) && !IsWhite(u, o)
      && RefsPresent(s) && (forall r :: r in s.heap[o].refs ==> r in u.heap) && (u.heap[o].color.Gray? ==> o in u.grayagain)
  {
    assert s.gray[0] in s.gray;
  }

  lemma PropagateSettles(u: State, o: Id)
    requires Good(u, {o}) && o in u.heap && RefsMarked(u, o) && Listed(u.heap[o].kind)
    requires u.heap[o].color.Gray? ==> o in u.grayagain
    ensures Good(u, {}) && (OpenMarked(u, {o}) ==> OpenMarked(u, {}))
  {}

  lemma PropagateMarkAgain(s: State)
    requires Good(s, {}) && s.gray != [] && AgainMarked(s)
    ensures AgainMarked(PropagateMark(s))
  {
    var o := s.gray[0];
    var s1 := PopGray(s);
    var u := PropagateMark(s);
    HeadPresent(s);
    PopAgain(s);
    hide Good, PopGray, MarkAll, OnlyMarks;
    forall x | x in u.grayagain
      ensures x in u.heap && RefsMarked(u, x)
    {
      if x != o {
        assert x in s.grayagain;
        PopMarked(s, x);
        RefsMarkedGrows(s1, u, x);
      }
    }
  }

  lemma HeadPresent(s: State)
    requires Good(s, {}) && s.gray != []
    ensures s.gray[0] in s.heap && RefsPresent(s)
  {
    assert s.gray[0] in s.gray;
  }

  lemma PopAgain(s: State)
    requires s.gray != [] && s.gray[0] in s.heap && RefsPresent(s)
    ensures OnlyMarks(PopGray(s), PropagateMark(s)) && PropagateMark(s).heap.Keys == s.heap.Keys
    ensures forall x :: x in PropagateMark(s).grayagain ==> x == s.gray[0] || x in s.grayagain
    ensures RefsMarked(PropagateMark(s), s.gray[0])
  {}

  lemma PopMarked(s: State, x: Id)
    requires s.gray != [] && s.gray[0] in s.heap && x in s.heap && RefsMarked(s, x)
    ensures x in PopGray(s).heap && RefsMarked(PopGray(s), x)
  {}

  lemma PropagateMarkPrecise(s: State)
    requires Good(s, {}) && s.gray != [] && Precise(s)
    ensures Precise(PropagateMark(s))
  {
    var o := s.gray[0];
    var s1 := PopGray(s);
    PreciseThrough(s, s1);
    forall r | r in s.heap[o].refs
      ensures Reachable(s1, r)
    {
      ReachRef(s, o, r);
      SameGraphReach(s, s1, r);
    }
    MarkAllPrecise(s1, s.heap[o].refs);
  }

  // ---------- The whole gray list ----------

  lemma PropagatesCompose(s: State, u: State, v: State)
    requires OnlyPropagates(s, u) && OnlyPropagates(u, v)
    ensures OnlyPropagates(s, v)
  {}

  /** propagateall: terminates because every turn marks something or shortens the list. */
  function PropagateAll(s: State): (u: State)
    requires Good(s, {}) && Kinds(s)
    ensures u.gray == [] && Good(u, {}) && Kinds(u) && OnlyPropagates(s, u)
    decreases Whites(s), |s.gray|
  {
    if s.gray == [] then s
    else
      var s1 := PropagateMark(s);
      PropagateMarkGood(s);
      PropagateMarkFrame(s);
      KindsSame(s, s1);
      var u := PropagateAll(s1);
      PropagatesCompose(s, s1, u);
      u
  }

  lemma {:induction false} PropagateAllKeeps(s: State)
    requires Good(s, {}) && Kinds(s)
    ensures OpenMarked(s, {}) ==> OpenMarked(PropagateAll(s), {})
    ensures AgainMarked(s) ==> AgainMarked(PropagateAll(s))
    ensures Precise(s) ==> Precise(PropagateAll(s))
    decreases Whites(s), |s.gray|
  {
    if s.gray != [] {
      PropagateMarkGood(s);
      PropagateMarkFrame(s);
      KindsSame(s, PropagateMark(s));
      if AgainMarked(s) {
        PropagateMarkAgain(s);
      }
      if Precise(s) {
        PropagateMarkPrecise(s);
      }
      PropagateAllKeeps(PropagateMark(s));
    }
  }

  /** With nothing gray left to traverse, every marked object refers to marked ones only. */
  lemma MarkedClosed(s: State)
    requires Good(s, {}) && Kinds(s) && s.gray == [] && OpenMarked(s, {}) && AgainMarked(s)
    ensures forall x :: x in s.heap && !IsWhite(s, x) ==> RefsMarked(s, x)
  {
    forall x | x in s.heap && !IsWhite(s, x)
      ensures RefsMarked(s, x)
    {
      if s.heap[x].color.Gray? && Listed(s.heap[x].kind) {
        assert x in s.grayagain;
      }
    }
  }
}
