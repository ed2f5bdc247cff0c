/** Marking: gray and black painting, the gray lists, and propagation. */
module GcMark {
  import opened GcHeap

  ghost function Whites(s: State): set<Id> {
    set x | x in s.heap && IsWhite(s, x)
  }

  /** What no collector step changes in an object. */
  ghost predicate SameObject(a: Object, b: Object) {
    a.kind == b.kind && a.refs == b.refs && a.home == b.home && a.fixed == b.fixed
  }

  /** Marking changes colours from white to a mark and the gray list, nothing else. */
  ghost predicate OnlyMarks(s: State, u: State) {
    && u == s.(heap := u.heap, gray := u.gray)
    && u.heap.Keys == s.heap.Keys
    && (forall x :: x in s.heap ==> SameObject(s.heap[x], u.heap[x]))
    && (forall x :: x in s.heap && (!IsWhite(s, x) || IsWhite(u, x)) ==> u.heap[x].color == s.heap[x].color)
    && (u == s || Whites(u) < Whites(s))
  }

  ghost predicate RefsPresent(s: State) {
    forall x, r :: x in s.heap && r in s.heap[x].refs ==> r in s.heap
  }

  lemma PaintedWhites(s: State, x: Id, c: Color)
    requires x in s.heap && !c.White?
    ensures Whites(Paint(s, x, c)) == Whites(s) - {x}
    ensures IsWhite(s, x) ==> OnlyMarks(s, Paint(s, x, c)) && Whites(Paint(s, x, c)) < Whites(s)
  {
    if IsWhite(s, x) {
      assert x in Whites(s);
    }
  }

  lemma MarksCompose(s: State, u: State, v: State)
    requires OnlyMarks(s, u) && OnlyMarks(u, v)
    ensures OnlyMarks(s, v)
  {}

  /** A repainted mark of an object that was white at the start is still one mark. */
  lemma MarksRepaint(s: State, u: State, x: Id, c: Color)
    requires OnlyMarks(s, u) && x in s.heap && IsWhite(s, x) && !IsWhite(u, x) && !c.White?
    ensures OnlyMarks(s, Paint(u, x, c))
  {
    PaintedWhites(u, x, c);
    assert Whites(u) - {x} == Whites(u);
  }

  lemma PaintMarks(s: State, x: Id, c: Color)
    requires RefsPresent(s) && x in s.heap && IsWhite(s, x) && !c.White?
    ensures var u := Paint(s, x, c);
      OnlyMarks(s, u) && Whites(u) < Whites(s) && RefsPresent(u) && forall r :: r in s.heap[x].refs ==> r in u.heap
  {
    PaintedWhites(s, x, c);
  }

  lemma MarkStays(s: State, u: State, x: Id)
    requires OnlyMarks(s, u) && x in s.heap && !IsWhite(s, x)
    ensures x in u.heap && !IsWhite(u, x)
  {}

  lemma PushMarks(s: State, u: State, x: Id)
    requires OnlyMarks(s, u) && u != s && Whites(u) < Whites(s)
    ensures OnlyMarks(s, PushGray(u, x))
  {
    assert Whites(PushGray(u, x)) == Whites(u);
  }

  /** markobject: marks x when it is white. */
  function Mark(s: State, x: Id): (u: State)
    requires RefsPresent(s) && x in s.heap
    ensures OnlyMarks(s, u) && !IsWhite(u, x)
    decreases Whites(s), 1
  {
    if IsWhite(s, x) then ReallyMark(s, x) else s
  }

  /** reallymarkobject: strings stay gray, userdata turn black at once, upvalues mark their
      value and turn black when closed, all others go to the gray list. */
  function ReallyMark(s: State, x: Id): (u: State)
    requires RefsPresent(s) && x in s.heap && IsWhite(s, x)
    ensures OnlyMarks(s, u) && !IsWhite(u, x)
    decreases Whites(s), 0
  {
    PaintMarks(s, x, Gray);
    PaintMarks(s, x, Black);
    hide OnlyMarks, Whites, RefsPresent;
    match s.heap[x].kind
    case StringK => Paint(s, x, Gray)
    case UdataK =>
      var s1 := Paint(s, x, Black);
      var u := MarkAll(s1, s.heap[x].refs);
      MarksCompose(s, s1, u);
      MarkStays(s1, u, x);
      u
    case UpvalK =>
      var s1 := Paint(s, x, Gray);
      var s2 := MarkAll(s1, s.heap[x].refs);
      MarksCompose(s, s1, s2);
      MarkStays(s1, s2, x);
      MarksRepaint(s, s2, x, Black);
      if IsOpen(s.heap[x]) then s2 else Paint(s2, x, Black)
    case FunctionK | TableK | ThreadK | ProtoK =>
      PushMarks(s, Paint(s, x, Gray), x);
      PushGray(Paint(s, x, Gray), x)
  }

  function PushGray(s: State, x: Id): State { s.(gray := [x] + s.gray) }

  function MarkAll(s: State, refs: seq<Id>): (u: State)
    requires RefsPresent(s) && forall r :: r in refs ==> r in s.heap
    ensures OnlyMarks(s, u) && forall r :: r in refs ==> !IsWhite(u, r)
    decreases Whites(s), 2 + |refs|
  {
    if refs == [] then s
    else
      var s1 := Mark(s, refs[0]);
      var u := MarkAll(s1, refs[1..]);
      MarksCompose(s, s1, u);
      u
  }

  // ---------- Marking keeps the tri-colour invariant ----------

  ghost predicate Good(s: State, ex: set<Id>) {
    RefsPresent(s) && TriColor(s, ex) && NeverBlack(s)
  }

  /** Gray open upvalues have had their value marked. */
  ghost predicate OpenMarked(s: State, ex: set<Id>) {
    forall x :: x in s.heap && x !in ex && s.heap[x].color.Gray? && IsOpen(s.heap[x]) ==> RefsMarked(s, x)
  }

  /** Objects put back for the atomic step have had their references marked. */
  ghost predicate AgainMarked(s: State) {
    forall x :: x in s.grayagain ==> x in s.heap && RefsMarked(s, x)
  }

  lemma RefsMarkedGrows(s: State, u: State, x: Id)
    requires OnlyMarks(s, u) && x in s.heap && RefsMarked(s, x)
    ensures RefsMarked(u, x)
  {}

  /** Once the references of an exempt, correctly painted object are marked, it is exempt no more. */
  lemma Settle(s: State, ex: set<Id>, x: Id)
    requires Good(s, ex + {x}) && x in s.heap && RefsMarked(s, x) && !IsWhite(s, x)
    requires s.heap[x].color.Gray? ==> IsOpen(s.heap[x])
    requires IsOpen(s.heap[x]) ==> s.heap[x].kind == UpvalK
    ensures Good(s, ex)
    ensures OpenMarked(s, ex + {x}) ==> OpenMarked(s, ex)
  {}

  /** Painting keeps the kinds. */
  lemma PaintKinds(s: State, x: Id, c: Color)
    requires Kinds(s) && x in s.heap
    ensures Kinds(Paint(s, x, c))
  {}

  /** Painting a white object leaves the gray lists as they were: it is in none of them. */
  lemma PaintLists(s: State, x: Id, c: Color)
    requires GrayLists(s) && x in s.heap && IsWhite(s, x)
    ensures GrayLists(Paint(s, x, c)) && x !in s.gray && x !in s.grayagain
  {}

  lemma PaintRefs(s: State, x: Id, c: Color, y: Id)
    requires x in s.heap && y in s.heap && RefsMarked(s, y) && !c.White?
    ensures RefsMarked(Paint(s, x, c), y)
  {}

  /** Painting a white object that is exempt from now on. */
  lemma PaintExempt(s: State, x: Id, c: Color, ex: set<Id>)
    requires Good(s, ex) && x in s.heap && IsWhite(s, x) && !c.White?
    requires c.Black? ==> s.heap[x].kind != ThreadK && !IsOpen(s.heap[x])
    ensures Good(Paint(s, x, c), ex + {x})
    ensures OpenMarked(s, ex) ==> OpenMarked(Paint(s, x, c), ex + {x})
  {
    var u := Paint(s, x, c);
    PaintLists(s, x, c);
    forall y | y in s.heap && RefsMarked(s, y)
      ensures RefsMarked(u, y)
    {
      PaintRefs(s, x, c, y);
    }
    assert forall y :: y in u.heap && y != x ==> u.heap[y] == s.heap[y];
  }

  /** An exempt gray object of a listed kind joins the gray list. */
  lemma PushSettles(s: State, x: Id, ex: set<Id>)
    requires Good(s, ex + {x}) && x in s.heap && s.heap[x].color.Gray? && Listed(s.heap[x].kind)
    requires x !in s.gray && x !in s.grayagain
    ensures Good(PushGray(s, x), ex)
  {
    var u := PushGray(s, x);
    assert u.gray + u.grayagain == [x] + (s.gray + s.grayagain);
    assert forall y :: y in u.gray <==> y == x || y in s.gray;
    assert forall y :: y in s.heap && RefsMarked(s, y) ==> RefsMarked(u, y);
  }

  lemma PushGood(s: State, x: Id, ex: set<Id>)
    requires Good(s, ex) && Kinds(s) && x in s.heap && IsWhite(s, x) && Listed(s.heap[x].kind)
    ensures Good(PushGray(Paint(s, x, Gray), x), ex)
    ensures OpenMarked(s, ex) ==> OpenMarked(PushGray(Paint(s, x, Gray), x), ex)
  {
    var s1 := Paint(s, x, Gray);
    PaintExempt(s, x, Gray, ex);
    PaintLists(s, x, Gray);
    PushSettles(s1, x, ex);
    assert forall y :: y in s1.heap && RefsMarked(s1, y) ==> RefsMarked(PushGray(s1, x), y);
  }

  lemma MarkStringGood(s: State, x: Id, ex: set<Id>)
    requires Good(s, ex) && Kinds(s) && x in s.heap && IsWhite(s, x) && s.heap[x].kind == StringK
    ensures Good(Paint(s, x, Gray), ex) && (OpenMarked(s, ex) ==> OpenMarked(Paint(s, x, Gray), ex))
  {
    PaintExempt(s, x, Gray, ex);
  }

  lemma MarkUdataGood(s: State, x: Id, ex: set<Id>)
    requires Good(s, ex) && Kinds(s) && x in s.heap && IsWhite(s, x) && s.heap[x].kind == UdataK
    ensures Good(Mark(s, x), ex) && Kinds(Mark(s, x))
    ensures OpenMarked(s, ex) ==> OpenMarked(Mark(s, x), ex)
    decreases Whites(s), 0
  {
    var s1 := Paint(s, x, Black);
    PaintedWhites(s, x, Black);
    PaintKinds(s, x, Black);
    PaintExempt(s, x, Black, ex);
    MarkAllGood(s1, s.heap[x].refs, ex + {x});
    Settle(MarkAll(s1, s.heap[x].refs), ex, x);
  }

  lemma MarkOpenGood(s: State, x: Id, ex: set<Id>)
    requires Good(s, ex) && Kinds(s) && x in s.heap && IsWhite(s, x) && s.heap[x].kind == UpvalK && IsOpen(s.heap[x])
    ensures Good(Mark(s, x), ex) && Kinds(Mark(s, x))
    ensures OpenMarked(s, ex) ==> OpenMarked(Mark(s, x), ex)
    decreases Whites(s), 0
  {
    var s1 := Paint(s, x, Gray);
    PaintedWhites(s, x, Gray);
    PaintKinds(s, x, Gray);
    PaintExempt(s, x, Gray, ex);
    MarkAllGood(s1, s.heap[x].refs, ex + {x});
    Settle(MarkAll(s1, s.heap[x].refs), ex, x);
  }

  lemma GoodPresent(s: State, ex: set<Id>, x: Id)
    requires Good(s, ex) && x in s.heap
    ensures RefsPresent(s) && forall r :: r in s.heap[x].refs ==> r in s.heap
  {
    hide TriColor, NeverBlack;
  }

  lemma MarkClosedGood(s: State, x: Id, ex: set<Id>)
    requires Good(s, ex) && Kinds(s) && x in s.heap && IsWhite(s, x) && s.heap[x].kind == UpvalK && !IsOpen(s.heap[x])
    ensures Good(Mark(s, x), ex) && Kinds(Mark(s, x))
    ensures OpenMarked(s, ex) ==> OpenMarked(Mark(s, x), ex)
    decreases Whites(s), 0
  {
    var s1 := Paint(s, x, Gray);
    PaintedWhites(s, x, Gray);
    PaintKinds(s, x, Gray);
    PaintExempt(s, x, Gray, ex);
    GoodPresent(s1, ex + {x}, x);
    hide Good, Kinds, OpenMarked, MarkAll, RefsPresent, RefsMarked, Whites;
    MarkAllGood(s1, s.heap[x].refs, ex + {x});
    var s2 := MarkAll(s1, s.heap[x].refs);
    RepaintExempt(s2, x, Black, ex + {x});
    PaintKinds(s2, x, Black);
    PaintRefs(s2, x, Black, x);
    Settle(Paint(s2, x, Black), ex, x);
  }

  lemma {:induction false} MarkGood(s: State, x: Id, ex: set<Id>)
    requires Good(s, ex) && Kinds(s) && x in s.heap
    ensures Good(Mark(s, x), ex) && Kinds(Mark(s, x))
    ensures OpenMarked(s, ex) ==> OpenMarked(Mark(s, x), ex)
    decreases Whites(s), 1
  {
    if IsWhite(s, x) {
      match s.heap[x].kind
      case StringK =>
        PaintKinds(s, x, Gray);
        MarkStringGood(s, x, ex);
      case UdataK =>
        MarkUdataGood(s, x, ex);
      case UpvalK =>
        if IsOpen(s.heap[x]) {
          MarkOpenGood(s, x, ex);
        } else {
          MarkClosedGood(s, x, ex);
        }
      case FunctionK | TableK | ThreadK | ProtoK =>
        PaintKinds(s, x, Gray);
        PushGood(s, x, ex);
    }
  }

  /** Repainting leaves the gray lists as they were: an upvalue is in none of them. */
  lemma RepaintLists(s: State, x: Id, c: Color)
    requires GrayLists(s) && x in s.heap && !Listed(s.heap[x].kind)
    ensures GrayLists(Paint(s, x, c))
  {}

  lemma RepaintTri(s: State, x: Id, c: Color, ex: set<Id>)
    requires TriColor(s, ex) && x in s.heap && x in ex && !Listed(s.heap[x].kind) && !c.White?
    ensures TriColor(Paint(s, x, c), ex)
    ensures OpenMarked(s, ex) ==> OpenMarked(Paint(s, x, c), ex)
  {
    var u := Paint(s, x, c);
    RepaintLists(s, x, c);
    hide GrayLists;
    forall y | y in s.heap && y != x
      ensures u.heap[y] == s.heap[y] && (RefsMarked(s, y) ==> RefsMarked(u, y))
    {
      if RefsMarked(s, y) {
        PaintRefs(s, x, c, y);
      }
    }
    hide RefsMarked;
  }

  lemma RepaintExempt(s: State, x: Id, c: Color, ex: set<Id>)
    requires Good(s, ex) && x in s.heap && x in ex && s.heap[x].color.Gray? && c.Black?
    requires s.heap[x].kind == UpvalK && !IsOpen(s.heap[x])
    ensures Good(Paint(s, x, c), ex)
    ensures OpenMarked(s, ex) ==> OpenMarked(Paint(s, x, c), ex)
  {
    hide TriColor, OpenMarked;
    RepaintTri(s, x, c, ex);
  }

  lemma {:induction false} MarkAllGood(s: State, refs: seq<Id>, ex: set<Id>)
    requires Good(s, ex) && Kinds(s) && forall r :: r in refs ==> r in s.heap
    ensures Good(MarkAll(s, refs), ex) && Kinds(MarkAll(s, refs))
    ensures OpenMarked(s, ex) ==> OpenMarked(MarkAll(s, refs), ex)
    decreases Whites(s), 2 + |refs|
  {
    if refs != [] {
      MarkGood(s, refs[0], ex);
      MarkAllGood(Mark(s, refs[0]), refs[1..], ex);
    }
  }
}
