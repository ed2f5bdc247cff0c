/** Sweeping: erasing dead objects, whitening the others, and the lists the sweep walks. */
module GcSweep {
  import opened GcHeap
  import opened GcMark

  // ---------- List surgery ----------

  function Without(s: seq<Id>, x: Id): (r: seq<Id>)
    ensures forall y :: y in r <==> y in s && y != x
    ensures Distinct(s) ==> Distinct(r)
  {
    if s == [] then []
    else
      var r := Without(s[1..], x);
      assert s == [s[0]] + s[1..];
      assert Distinct(s) ==> Distinct(s[1..]) && s[0] !in s[1..];
      if s[0] == x then r else [s[0]] + r
  }

  /** Links an object into rootgc; the sweep pointer is the address of a next field, so
      an object linked right at it is still to be swept. */
  function LinkRoot(s: State, x: Id, at: nat): State
    requires at <= |s.rootgc|
  {
    s.(rootgc := s.rootgc[..at] + [x] + s.rootgc[at..],
       sweepgc := if at < s.sweepgc then s.sweepgc + 1 else s.sweepgc)
  }

  // ---------- Sweeping a plain list ----------

  /** Dead and not fixed: what the sweep erases. */
  predicate Garbage(s: State, x: Id)
    requires x in s.heap
  {
    Dead(s, x) && !s.heap[x].fixed
  }

  /** freeobj: an open upvalue also leaves the list of all open upvalues. */
  function Erase(s: State, x: Id): State
    requires x in s.heap
  {
    s.(heap := s.heap - {x}, uvhead := if IsOpen(s.heap[x]) then Without(s.uvhead, x) else s.uvhead)
  }

  function Whiten(s: State, x: Id): State
    requires x in s.heap
  {
    Paint(s, x, White(s.white))
  }

  /** sweeplist over a whole list without threads: the new state and what stays in the list. */
  function SweepSeq(s: State, list: seq<Id>): (r: (State, seq<Id>))
    requires Distinct(list) && forall x :: x in list ==> x in s.heap
    ensures SweptList(s, r.0, list)
    ensures Distinct(r.1) && forall x :: x in r.1 <==> x in list && !Garbage(s, x)
    decreases |list|
  {
    if list == [] then (s, [])
    else
      var x := list[0];
      assert list == [x] + list[1..] && x !in list[1..];
      if Garbage(s, x) then
        var s1 := Erase(s, x);
        var r := SweepSeq(s1, list[1..]);
        SweepErased(s, x, r.0, list[1..]);
        r
      else
        var s1 := Whiten(s, x);
        var r := SweepSeq(s1, list[1..]);
        SweepKept(s, x, r.0, list[1..]);
        (r.0, [x] + r.1)
  }

  /** The garbage of the list is gone, the rest of it is current white, all else is untouched. */
  ghost predicate SweptHeap(s: State, heap: map<Id, Object>, list: seq<Id>)
    requires forall x :: x in list ==> x in s.heap
  {
    && (forall x :: x in heap <==> x in s.heap && !(x in list && Garbage(s, x)))
    && (forall x :: x in heap ==>
          heap[x] == (if x in list then s.heap[x].(color := White(s.white)) else s.heap[x]))
  }

  ghost predicate SweptUvhead(s: State, uvhead: seq<Id>, list: seq<Id>)
    requires forall x :: x in list ==> x in s.heap
  {
    && (forall x :: x in uvhead <==> x in s.uvhead && !(x in list && Garbage(s, x) && IsOpen(s.heap[x])))
    && (Distinct(s.uvhead) ==> Distinct(uvhead))
  }

  ghost predicate SweptList(s: State, u: State, list: seq<Id>)
    requires forall x :: x in list ==> x in s.heap
  {
    u == s.(heap := u.heap, uvhead := u.uvhead) && SweptHeap(s, u.heap, list) && SweptUvhead(s, u.uvhead, list)
  }

  lemma SweepErased(s: State, x: Id, u: State, rest: seq<Id>)
    requires x in s.heap && x !in rest && Garbage(s, x) && forall y :: y in rest ==> y in s.heap
    requires SweptList(Erase(s, x), u, rest)
    ensures SweptList(s, u, [x] + rest)
  {
    assert forall y :: y in [x] + rest <==> y == x || y in rest;
  }

  lemma SweepKept(s: State, x: Id, u: State, rest: seq<Id>)
    requires x in s.heap && x !in rest && !Garbage(s, x) && forall y :: y in rest ==> y in s.heap
    requires SweptList(Whiten(s, x), u, rest)
    ensures SweptList(s, u, [x] + rest)
  {
    assert forall y :: y in [x] + rest <==> y == x || y in rest;
  }

  // ---------- Sweeping one bucket of the string table ----------

  function SweepBucket(s: State): State
    requires s.sweepstr < |s.strings| && Distinct(s.strings[s.sweepstr])
    requires forall x :: x in s.strings[s.sweepstr] ==> x in s.heap
  {
    var r := SweepSeq(s, s.strings[s.sweepstr]);
    r.0.(strings := s.strings[s.sweepstr := r.1], sweepstr := s.sweepstr + 1,
         phase := if s.sweepstr + 1 >= |s.strings| then Sweep else SweepString)
  }

  // ---------- Open upvalues ----------

  /** The open upvalues of a thread are swept when the sweep reaches the thread. */
  function SweepOpen(s: State, t: Id): State
    requires t in s.open && Distinct(s.open[t]) && forall x :: x in s.open[t] ==> x in s.heap
  {
    var r := SweepSeq(s, s.open[t]);
    r.0.(open := s.open[t := r.1])
  }

  /** Takes the first open upvalue of a thread off the lists of open upvalues and links it,
      now closed, into rootgc. */
  function MoveHead(s: State, t: Id): State
    requires t in s.open && s.open[t] != [] && s.open[t][0] in s.heap
  {
    var x := s.open[t][0];
    LinkRoot(s.(heap := s.heap[x := s.heap[x].(home := InRoot)], uvhead := Without(s.uvhead, x),
                open := s.open[t := s.open[t][1..]]), x, 0)
  }

  /** Frees the first open upvalue of a thread. */
  function DropHead(s: State, t: Id): State
    requires t in s.open && s.open[t] != [] && s.open[t][0] in s.heap
  {
    Erase(s.(open := s.open[t := s.open[t][1..]]), s.open[t][0])
  }

  /** One turn of luaF_close on the first open upvalue of a thread: a dead one is freed, any
      other is closed and linked; luaC_linkupval turns a gray one black behind a barrier while
      marks propagate, and white while sweeping. */
  function CloseHead(s: State, t: Id): State
    requires t in s.open && s.open[t] != [] && s.open[t][0] in s.heap
    requires s.phase == Propagate ==> RefsPresent(s)
  {
    var x := s.open[t][0];
    if Dead(s, x) then DropHead(s, t)
    else if !s.heap[x].color.Gray? then MoveHead(s, t)
    else if s.phase == Propagate then MarkAll(Paint(MoveHead(s, t), x, Black), s.heap[x].refs)
    else Whiten(MoveHead(s, t), x)
  }

  // ---------- The invariant while sweeping ----------

  ghost predicate SweepInv(s: State) {
    Shape(s) && Closed(s) && NeverBlack(s) && SweptWhite(s) && (s.phase == SweepString || s.phase == Sweep)
  }

  /** Nothing reachable is lost between two states. */
  ghost predicate KeepsReachable(s: State, u: State) {
    forall x :: Reachable(s, x) ==> x in u.heap
  }

  /** Objects survive with their references; whatever is gone was garbage, and garbage that
      is still there is still dead. */
  ghost predicate OnlyGarbageLost(s: State, u: State) {
    && (forall x :: x in u.heap ==> x in s.heap && u.heap[x].kind == s.heap[x].kind && u.heap[x].refs == s.heap[x].refs)
    && (forall x :: x in s.heap && x !in u.heap ==> Garbage(s, x))
    && (forall x :: x in u.heap && Dead(u, x) ==> Dead(s, x))
    && (forall x :: x in u.heap && Garbage(s, x) ==> Dead(u, x))
    && (forall x :: x in u.heap ==> u.heap[x].fixed == s.heap[x].fixed)
    && u.white == s.white && u.mainthread == s.mainthread && u.registry == s.registry
    && u.running == s.running && u.mt == s.mt
  }

  /** Losing only garbage keeps a state closed. */
  lemma GarbageClosed(s: State, u: State)
    requires Closed(s) && OnlyGarbageLost(s, u)
    requires forall x :: x in u.heap && Dead(s, x) && !Dead(u, x) ==> u.heap[x].refs == []
    ensures Closed(u)
  {}

  lemma GarbageUnreachable(s: State, u: State)
    requires Closed(s) && OnlyGarbageLost(s, u)
    ensures KeepsReachable(s, u)
  {
    forall x | Reachable(s, x)
      ensures x in u.heap
    {
      ReachableNotDead(s, x);
    }
  }

  /** A fixed object that is dead is a string, and has no references. */
  lemma DeadFixed(s: State, x: Id)
    requires Closed(s) && Kinds(s) && x in s.heap && Dead(s, x) && s.heap[x].fixed
    ensures s.heap[x].refs == []
  {
    assert IsRoot(s, s.mainthread);
  }

  lemma BucketReady(s: State)
    requires Shape(s) && s.sweepstr < |s.strings|
    ensures Distinct(s.strings[s.sweepstr]) && forall x :: x in s.strings[s.sweepstr] ==> x in s.heap
  {}

  ghost predicate SameRegisters(s: State, u: State) {
    u.white == s.white && u.mainthread == s.mainthread && u.registry == s.registry
    && u.running == s.running && u.mt == s.mt
  }

  /** The effect of a swept list on the kinds, when the list holds no thread. */
  lemma SweptKinds(s: State, u: State, list: seq<Id>)
    requires Kinds(s) && Closed(s) && (forall x :: x in list ==> x in s.heap && s.heap[x].kind != ThreadK)
    requires u.open.Keys == s.open.Keys && SameRegisters(s, u) && SweptHeap(s, u.heap, list)
    ensures Kinds(u)
  {}

  lemma SweptLosesGarbage(s: State, u: State, list: seq<Id>)
    requires forall x :: x in list ==> x in s.heap
    requires SameRegisters(s, u) && SweptHeap(s, u.heap, list)
    ensures OnlyGarbageLost(s, u)
  {}

  lemma SweptClosed(s: State, u: State, list: seq<Id>)
    requires Closed(s) && Kinds(s) && (forall x :: x in list ==> x in s.heap)
    requires SameRegisters(s, u) && SweptHeap(s, u.heap, list)
    ensures OnlyGarbageLost(s, u) && Closed(u)
  {
    SweptLosesGarbage(s, u, list);
    forall x | x in u.heap && Dead(s, x) && !Dead(u, x)
      ensures u.heap[x].refs == []
    {
      DeadFixed(s, x);
    }
    GarbageClosed(s, u);
  }

  /** The state after list b of the string table has been swept. */
  ghost predicate BucketSwept(s: State, u: State, b: nat) {
    && b < |s.strings| && |u.strings| == |s.strings|
    && (forall x :: x in s.strings[b] ==> x in s.heap)
    && SweptHeap(s, u.heap, s.strings[b]) && SweptUvhead(s, u.uvhead, s.strings[b])
    && (forall c :: 0 <= c < |s.strings| && c != b ==> u.strings[c] == s.strings[c])
    && Distinct(u.strings[b]) && (forall x :: x in u.strings[b] <==> x in s.strings[b] && !Garbage(s, x))
    && u.rootgc == s.rootgc && u.open == s.open && u.sweepgc == s.sweepgc && SameRegisters(s, u)
  }

  lemma BucketSweptHomes(s: State, u: State, b: nat)
    requires Homes(s) && BucketSwept(s, u, b)
    ensures BucketHomes(u)
  {
    assert forall x :: x in s.strings[b] ==> s.heap[x].home == InBucket(b);
  }

  lemma BucketSweptRoots(s: State, u: State, b: nat)
    requires Homes(s) && BucketSwept(s, u, b)
    ensures RootHomes(u)
  {
    assert forall x :: x in s.strings[b] ==> s.heap[x].home == InBucket(b);
  }

  lemma BucketSweptOpens(s: State, u: State, b: nat)
    requires Homes(s) && BucketSwept(s, u, b)
    ensures OpenHomes(u)
  {
    assert forall x :: x in s.strings[b] ==> s.heap[x].home == InBucket(b);
  }

  lemma BucketSweptKinds(s: State, u: State, b: nat)
    requires Homes(s) && Kinds(s) && Closed(s) && BucketSwept(s, u, b)
    ensures Kinds(u)
  {
    hide SweptHeap, SweptUvhead, Closed, RootHomes, OpenHomes;
    assert forall x :: x in s.strings[b] ==> s.heap[x].kind == StringK;
    SweptKinds(s, u, s.strings[b]);
  }

  lemma BucketSweptWhite(s: State, u: State, b: nat)
    requires Shape(s) && NeverBlack(s) && SweptWhite(s) && BucketSwept(s, u, b)
    requires s.phase == SweepString && b == s.sweepstr && u.sweepstr == b + 1
    requires if b + 1 >= |s.strings| then u.phase == Sweep else u.phase == SweepString
    ensures SweptWhite(u) && NeverBlack(u)
  {
    BucketPointer(s, u, b);
    hide Shape, Unswept, BucketSwept;
    forall x | x in u.heap
      ensures Unswept(u, x) || u.heap[x].color == White(u.white)
      ensures u.heap[x].color.Black? ==> s.heap[x] == u.heap[x]
    {
      BucketOneWhite(s, u, b, x);
    }
  }

  lemma BucketPointer(s: State, u: State, b: nat)
    requires BucketSwept(s, u, b) && s.sweepgc <= |s.rootgc|
    ensures u.sweepgc == s.sweepgc && u.rootgc == s.rootgc && |u.strings| == |s.strings|
    ensures forall x :: x in u.heap ==> x in s.heap
  {}

  lemma BucketOneWhite(s: State, u: State, b: nat, x: Id)
    requires Shape(s) && SweptWhite(s) && BucketSwept(s, u, b) && x in u.heap
    requires s.phase == SweepString && b == s.sweepstr && u.sweepstr == b + 1
    requires if b + 1 >= |s.strings| then u.phase == Sweep else u.phase == SweepString
    ensures u.sweepgc <= |u.rootgc| && x in s.heap && (u.heap[x] == s.heap[x] || u.heap[x].color == White(u.white))
    ensures Unswept(u, x) || u.heap[x].color == White(u.white)
  {
    hide RootHomes, OpenHomes, NoRepeats, Kinds;
    if x !in s.strings[b] && Unswept(s, x) {
      assert u.heap[x] == s.heap[x];
      if s.heap[x].home.InBucket? {
        assert s.heap[x].home.bucket != b;
      }
    }
  }

  lemma SweepBucketIs(s: State)
    requires s.sweepstr < |s.strings| && Distinct(s.strings[s.sweepstr])
    requires forall x :: x in s.strings[s.sweepstr] ==> x in s.heap
    ensures BucketSwept(s, SweepBucket(s), s.sweepstr)
  {}

  /** Sweeping a bucket keeps the invariant and erases nothing reachable. */
  lemma SweepBucketOk(s: State)
    requires SweepInv(s) && s.phase == SweepString && s.sweepstr < |s.strings|
    requires Distinct(s.strings[s.sweepstr]) && forall x :: x in s.strings[s.sweepstr] ==> x in s.heap
    ensures SweepInv(SweepBucket(s)) && OnlyGarbageLost(s, SweepBucket(s))
  {
    hide SweepSeq, RootHomes, BucketHomes, OpenHomes, Kinds, Closed, NeverBlack, SweptHeap,
      OnlyGarbageLost, SweptWhite;
    var u := SweepBucket(s);
    var b := s.sweepstr;
    SweepBucketIs(s);
    BucketSweptHomes(s, u, b);
    BucketSweptRoots(s, u, b);
    BucketSweptOpens(s, u, b);
    BucketSweptKinds(s, u, b);
    BucketSweptWhite(s, u, b);
    SweptClosed(s, u, s.strings[b]);
  }

  // ---------- Open upvalues of one thread ----------

  ghost predicate OpenSwept(s: State, u: State, t: Id) {
    && t in s.open && u.open.Keys == s.open.Keys
    && (forall x :: x in s.open[t] ==> x in s.heap)
    && SweptHeap(s, u.heap, s.open[t]) && SweptUvhead(s, u.uvhead, s.open[t])
    && (forall c :: c in s.open && c != t ==> u.open[c] == s.open[c])
    && Distinct(u.open[t]) && (forall x :: x in u.open[t] <==> x in s.open[t] && !Garbage(s, x))
    && u.rootgc == s.rootgc && u.strings == s.strings && u.sweepgc == s.sweepgc && u.sweepstr == s.sweepstr
    && u.phase == s.phase && SameRegisters(s, u)
  }

  lemma OpenReady(s: State, t: Id)
    requires Shape(s) && t in s.open
    ensures Distinct(s.open[t]) && forall x :: x in s.open[t] ==> x in s.heap
  {}

  lemma SweepOpenIs(s: State, t: Id)
    requires t in s.open && Distinct(s.open[t]) && forall x :: x in s.open[t] ==> x in s.heap
    ensures OpenSwept(s, SweepOpen(s, t), t)
  {}

  lemma OpenSweptBuckets(s: State, u: State, t: Id)
    requires BucketHomes(s) && OpenHomes(s) && OpenSwept(s, u, t)
    ensures BucketHomes(u)
  {
    assert forall x :: x in s.open[t] ==> s.heap[x].home == InOpen(t);
  }

  lemma OpenSweptRoots(s: State, u: State, t: Id)
    requires RootHomes(s) && OpenHomes(s) && OpenSwept(s, u, t)
    ensures RootHomes(u)
  {
    assert forall x :: x in s.open[t] ==> s.heap[x].home == InOpen(t);
  }

  lemma OpenSweptOpens(s: State, u: State, t: Id)
    requires OpenHomes(s) && OpenSwept(s, u, t)
    ensures OpenHomes(u)
  {
    hide Garbage;
    assert forall x :: x in s.open[t] ==> s.heap[x].home == InOpen(t);
  }

  lemma OpenSweptKinds(s: State, u: State, t: Id)
    requires OpenHomes(s) && Kinds(s) && Closed(s) && OpenSwept(s, u, t)
    ensures Kinds(u)
  {
    hide SweptHeap;
    assert forall x :: x in s.open[t] ==> s.heap[x].home == InOpen(t);
    SweptKinds(s, u, s.open[t]);
  }

  lemma OpenSweptWhite(s: State, u: State, t: Id)
    requires s.sweepgc <= |s.rootgc| && OpenHomes(s) && NeverBlack(s) && SweptWhite(s) && OpenSwept(s, u, t)
    ensures SweptWhite(u) && NeverBlack(u)
    ensures forall x :: x in u.open[t] ==> x in u.heap && u.heap[x].color == White(u.white)
  {
    hide SweptUvhead, OpenHomes;
    forall x | x in u.heap && x !in s.open[t] && Unswept(s, x)
      ensures Unswept(u, x)
    {
      assert u.heap[x] == s.heap[x];
    }
  }

  lemma SweepOpenOk(s: State, t: Id)
    requires SweepInv(s) && t in s.open
    requires Distinct(s.open[t]) && forall x :: x in s.open[t] ==> x in s.heap
    ensures SweepInv(SweepOpen(s, t)) && OnlyGarbageLost(s, SweepOpen(s, t)) && OpenSwept(s, SweepOpen(s, t), t)
    ensures forall x :: x in SweepOpen(s, t).open[t] ==>
              x in SweepOpen(s, t).heap && SweepOpen(s, t).heap[x].color == White(SweepOpen(s, t).white)
  {
    hide SweepSeq, SweepOpen, RootHomes, BucketHomes, OpenHomes, Kinds, Closed, NeverBlack, SweptHeap, OnlyGarbageLost, SweptWhite;
    var u := SweepOpen(s, t);
    SweepOpenIs(s, t);
    OpenSweptBuckets(s, u, t);
    OpenSweptRoots(s, u, t);
    OpenSweptOpens(s, u, t);
    OpenSweptKinds(s, u, t);
    OpenSweptWhite(s, u, t);
    SweptClosed(s, u, s.open[t]);
  }

  // ---------- Closing an upvalue ----------

  lemma HeadReady(s: State, t: Id)
    requires Shape(s) && t in s.open && s.open[t] != []
    ensures s.open[t][0] in s.heap && s.heap[s.open[t][0]].home == InOpen(t) && s.heap[s.open[t][0]].kind == UpvalK
    ensures s.open[t][0] !in s.open[t][1..] && s.open[t][0] !in s.rootgc
  {
    assert s.open[t][0] in s.open[t];
  }

  lemma MoveHeadHomes(s: State, t: Id)
    requires Homes(s) && t in s.open && s.open[t] != [] && s.open[t][0] in s.heap
    requires s.heap[s.open[t][0]].home == InOpen(t) && s.open[t][0] !in s.open[t][1..]
    ensures Homes(MoveHead(s, t))
  {
    var x, u := s.open[t][0], MoveHead(s, t);
    hide RootHomes, BucketHomes, OpenHomes, MoveHead;
    MoveHeadRoots(s, t);
    MoveHeadBuckets(s, t);
    MoveHeadOpen(s, t);
  }

  lemma MoveHeadRoots(s: State, t: Id)
    requires RootHomes(s) && t in s.open && s.open[t] != [] && s.open[t][0] in s.heap
    ensures RootHomes(MoveHead(s, t))
  {
    assert MoveHead(s, t).rootgc == [s.open[t][0]] + s.rootgc;
  }

  lemma MoveHeadBuckets(s: State, t: Id)
    requires BucketHomes(s) && t in s.open && s.open[t] != [] && s.open[t][0] in s.heap
    requires s.heap[s.open[t][0]].home == InOpen(t)
    ensures BucketHomes(MoveHead(s, t))
  {}

  lemma MoveHeadOpen(s: State, t: Id)
    requires OpenHomes(s) && t in s.open && s.open[t] != [] && s.open[t][0] in s.heap
    requires s.heap[s.open[t][0]].home == InOpen(t) && s.open[t][0] !in s.open[t][1..]
    ensures OpenHomes(MoveHead(s, t))
  {
    var x, u := s.open[t][0], MoveHead(s, t);
    assert s.open[t] == [x] + s.open[t][1..];
    forall c, y | c in u.open
      ensures y in u.open[c] <==> y in u.heap && u.heap[y].home == InOpen(c)
    {
      assert y in s.open[c] <==> y in s.heap && s.heap[y].home == InOpen(c);
    }
  }

  lemma MoveHeadShape(s: State, t: Id)
    requires Shape(s) && t in s.open && s.open[t] != [] && s.open[t][0] in s.heap
    ensures Shape(MoveHead(s, t))
  {
    hide Homes;
    var x, u := s.open[t][0], MoveHead(s, t);
    HeadReady(s, t);
    MoveHeadHomes(s, t);
    assert u.rootgc == [x] + s.rootgc;
    assert Kinds(u);
  }

  lemma MoveHeadClosed(s: State, t: Id)
    requires Closed(s) && t in s.open && s.open[t] != [] && s.open[t][0] in s.heap
    ensures Closed(MoveHead(s, t))
  {
    var u := MoveHead(s, t);
    assert forall x :: x in s.heap ==> x in u.heap && u.heap[x].refs == s.heap[x].refs && (Dead(u, x) <==> Dead(s, x));
    assert forall x :: IsRoot(u, x) <==> IsRoot(s, x);
  }

  /** Linking at the head of rootgc leaves what was unswept unswept. */
  lemma MoveHeadUnswept(s: State, t: Id, y: Id)
    requires t in s.open && s.open[t] != [] && s.open[t][0] in s.heap
    requires s.sweepgc <= |s.rootgc| && y in s.heap && y != s.open[t][0] && Unswept(s, y)
    ensures MoveHead(s, t).sweepgc <= |MoveHead(s, t).rootgc| && Unswept(MoveHead(s, t), y)
  {
    var x, u := s.open[t][0], MoveHead(s, t);
    assert u.rootgc == [x] + s.rootgc;
    assert if s.sweepgc == 0 then u.rootgc[u.sweepgc..] == [x] + s.rootgc[s.sweepgc..]
           else u.rootgc[u.sweepgc..] == s.rootgc[s.sweepgc..];
  }

  lemma MoveHeadWhite(s: State, t: Id)
    requires t in s.open && s.open[t] != [] && s.open[t][0] in s.heap
    requires s.sweepgc <= |s.rootgc| && NeverBlack(s) && SweptWhite(s)
    requires s.heap[s.open[t][0]].color == White(s.white)
    ensures SweptWhite(MoveHead(s, t)) && NeverBlack(MoveHead(s, t))
  {
    var x, u := s.open[t][0], MoveHead(s, t);
    forall y | y in u.heap && y != x && Unswept(s, y)
      ensures Unswept(u, y)
    {
      MoveHeadUnswept(s, t, y);
    }
  }

  lemma MoveHeadOk(s: State, t: Id)
    requires SweepInv(s) && t in s.open && s.open[t] != [] && s.open[t][0] in s.heap
    requires s.heap[s.open[t][0]].color == White(s.white)
    ensures SweepInv(MoveHead(s, t)) && OnlyGarbageLost(s, MoveHead(s, t))
  {
    hide Shape, Closed, NeverBlack, SweptWhite;
    assert s.sweepgc <= |s.rootgc| by { ShapeBounds(s); }
    MoveHeadShape(s, t);
    MoveHeadClosed(s, t);
    MoveHeadWhite(s, t);
    ShapeBounds(MoveHead(s, t));
  }

  lemma ShapeBounds(s: State)
    requires Shape(s)
    ensures s.sweepgc <= |s.rootgc| && 0 < |s.strings| && s.sweepstr <= |s.strings|
  {}

  // ---------- Erasing a root object ----------

  /** What luaE_freethread closes: every open upvalue left on the thread. */
  function CloseAll(s: State, t: Id): State
    requires t in s.open && forall x :: x in s.open[t] ==> x in s.heap
    decreases |if t in s.open then s.open[t] else []|
  {
    if s.open[t] == [] then s else CloseAll(MoveHead(s, t), t)
  }

  ghost predicate AllCurrent(s: State, t: Id)
    requires t in s.open
  {
    forall x :: x in s.open[t] ==> x in s.heap && s.heap[x].color == White(s.white)
  }

  lemma MoveHeadFrame(s: State, t: Id)
    requires t in s.open && s.open[t] != [] && AllCurrent(s, t)
    requires s.open[t][0] in s.heap
    ensures MoveHead(s, t).open[t] == s.open[t][1..] && AllCurrent(MoveHead(s, t), t)
    ensures forall x :: x in s.heap <==> x in MoveHead(s, t).heap
    ensures forall x :: x in s.heap ==> MoveHead(s, t).heap[x].color == s.heap[x].color
  {}

  lemma LostTrans(s: State, u: State, v: State)
    requires OnlyGarbageLost(s, u) && OnlyGarbageLost(u, v)
    ensures OnlyGarbageLost(s, v)
  {}

  lemma {:induction false} CloseAllOk(s: State, t: Id)
    requires SweepInv(s) && t in s.open && AllCurrent(s, t)
    ensures SweepInv(CloseAll(s, t)) && OnlyGarbageLost(s, CloseAll(s, t))
    ensures t in CloseAll(s, t).open && CloseAll(s, t).open[t] == []
    ensures forall x :: x in s.heap <==> x in CloseAll(s, t).heap
    ensures forall x :: x in s.heap ==> CloseAll(s, t).heap[x].color == s.heap[x].color
    decreases |s.open[t]|
  {
    if s.open[t] == [] {
      LostSelf(s);
    } else {
      hide SweepInv, MoveHead;
      assert s.open[t][0] in s.open[t];
      var u := MoveHead(s, t);
      MoveHeadOk(s, t);
      MoveHeadFrame(s, t);
      CloseAllOk(u, t);
      LostTrans(s, u, CloseAll(u, t));
    }
  }

  lemma LostSelf(s: State)
    ensures OnlyGarbageLost(s, s)
  {}

  /** The object the sweep pointer stands at leaves rootgc. */
  function Unlink(s: State, x: Id): State { s.(rootgc := Without(s.rootgc, x)) }

  /** freeobj on an object of rootgc; freeing a thread first closes its open upvalues. */
  function FreeRoot(s: State, x: Id): State
    requires x in s.heap && (s.heap[x].kind == ThreadK ==> x in s.open && forall y :: y in s.open[x] ==> y in s.heap)
  {
    if s.heap[x].kind == ThreadK then
      var u := Unlink(CloseAll(s, x), x);
      u.(heap := u.heap - {x}, open := u.open - {x})
    else
      var u := Unlink(s, x);
      u.(heap := u.heap - {x})
  }

  /** There is an object at the sweep pointer, and its list of open upvalues can be swept. */
  ghost predicate RootReady(s: State) {
    && s.sweepgc < |s.rootgc| && s.rootgc[s.sweepgc] in s.heap
    && var x := s.rootgc[s.sweepgc];
       s.heap[x].kind == ThreadK ==>
         && x in s.open && Distinct(s.open[x]) && x !in s.open[x]
         && forall y :: y in s.open[x] ==> y in s.heap
  }

  /** One turn of sweeplist over rootgc. */
  function SweepRootOne(s: State): State
    requires RootReady(s)
  {
    var x := s.rootgc[s.sweepgc];
    var s1 := if s.heap[x].kind == ThreadK then SweepOpen(s, x) else s;
    if Garbage(s1, x) then FreeRoot(s1, x)
    else Whiten(s1, x).(sweepgc := s.sweepgc + 1)
  }

  // ---------- One turn over rootgc ----------

  lemma {:induction false} WithoutAt(s: seq<Id>, k: nat)
    requires Distinct(s) && k < |s|
    ensures Without(s, s[k]) == s[..k] + s[k+1..]
  {
    var rest := s[1..];
    assert s == [s[0]] + rest;
    if k == 0 {
      WithoutAbsent(rest, s[0]);
    } else {
      WithoutAt(rest, k - 1);
      assert s[..k] + s[k+1..] == [s[0]] + (rest[..k-1] + rest[k..]);
    }
  }

  lemma {:induction false} WithoutAbsent(s: seq<Id>, x: Id)
    requires x !in s
    ensures Without(s, x) == s
  {
    if s != [] {
      WithoutAbsent(s[1..], x);
      assert s == [s[0]] + s[1..];
    }
  }

  /** The state after an object of rootgc, with no open upvalues left, has been erased. */
  ghost predicate RootErased(s: State, u: State, x: Id) {
    && x in s.heap && s.heap[x].home == InRoot
    && (s.heap[x].kind == ThreadK ==> x in s.open && s.open[x] == [])
    && u == s.(heap := s.heap - {x}, rootgc := Without(s.rootgc, x),
               open := if s.heap[x].kind == ThreadK then s.open - {x} else s.open)
  }

  lemma RootErasedHomes(s: State, u: State, x: Id)
    requires Homes(s) && RootErased(s, u, x)
    ensures Homes(u)
  {
    assert RootHomes(u) && BucketHomes(u);
    RootErasedOpen(s, u, x);
    hide RootHomes, BucketHomes, OpenHomes, RootErased;
  }

  lemma RootErasedOpen(s: State, u: State, x: Id)
    requires OpenHomes(s) && RootErased(s, u, x)
    ensures OpenHomes(u)
  {
    assert forall y :: y in s.heap && s.heap[y].home == InOpen(x) && x in s.open ==> y in s.open[x];
  }

  lemma RootErasedKinds(s: State, u: State, x: Id)
    requires Kinds(s) && RootErased(s, u, x) && x != s.mainthread && x != s.running
    ensures Kinds(u)
  {}

  lemma RootErasedTail(s: State, u: State, x: Id)
    requires RootErased(s, u, x) && Distinct(s.rootgc) && s.sweepgc <= |s.rootgc| && x in s.rootgc[s.sweepgc..]
    ensures u.sweepgc <= |u.rootgc| && forall y :: y in s.rootgc[s.sweepgc..] && y != x ==> y in u.rootgc[u.sweepgc..]
  {
    var k :| s.sweepgc <= k < |s.rootgc| && s.rootgc[k] == x;
    WithoutAt(s.rootgc, k);
    assert u.rootgc == s.rootgc[..k] + s.rootgc[k+1..] && u.sweepgc == s.sweepgc;
    hide *;
    forall y | y in s.rootgc[s.sweepgc..] && y != x
      ensures y in u.rootgc[u.sweepgc..]
    {
      var i :| s.sweepgc <= i < |s.rootgc| && s.rootgc[i] == y;
      assert u.rootgc[if i < k then i else i - 1] == y;
    }
  }

  lemma RootErasedWhite(s: State, u: State, x: Id)
    requires s.sweepgc <= |s.rootgc| && Distinct(s.rootgc) && OpenHomes(s)
    requires NeverBlack(s) && SweptWhite(s) && RootErased(s, u, x) && x in s.rootgc[s.sweepgc..]
    requires x in s.open <==> s.heap[x].kind == ThreadK
    ensures u.sweepgc <= |u.rootgc| && SweptWhite(u) && NeverBlack(u)
  {
    hide Distinct;
    RootErasedTail(s, u, x);
    NoneOpen(s, x);
    forall y | y in u.heap && Unswept(s, y)
      ensures Unswept(u, y)
    {
      assert u.heap[y] == s.heap[y];
    }
  }

  lemma NoneOpen(s: State, x: Id)
    requires OpenHomes(s) && (x in s.open ==> s.open[x] == [])
    ensures forall y :: y in s.heap ==> s.heap[y].home != InOpen(x)
  {}

  lemma RootErasedClosed(s: State, u: State, x: Id)
    requires Closed(s) && RootErased(s, u, x) && Garbage(s, x)
    ensures OnlyGarbageLost(s, u) && Closed(u)
  {
    GarbageClosed(s, u);
  }

  /** What is swept of a dead object of rootgc: not a root, and still in front of the pointer. */
  lemma RootErasedParts(s: State, u: State, x: Id)
    requires SweepInv(s) && RootErased(s, u, x) && Garbage(s, x)
    ensures x in s.rootgc[s.sweepgc..] && x != s.mainthread && x != s.running && s.sweepgc <= |s.rootgc|
    ensures x in s.open <==> s.heap[x].kind == ThreadK
    ensures Homes(s) && Kinds(s) && Closed(s) && NeverBlack(s) && SweptWhite(s) && Distinct(s.rootgc) && OpenHomes(s) && NoRepeats(s)
    ensures u.phase == s.phase && u.strings == s.strings && u.sweepstr == s.sweepstr
    ensures |u.strings| > 0 && u.sweepstr <= |u.strings| && (u.phase == SweepString || u.phase == Sweep)
  {
    hide RootHomes, BucketHomes, NoRepeats;
    assert Unswept(s, x);
    assert IsRoot(s, s.mainthread) && IsRoot(s, s.running);
    assert NoRepeats(s) && Distinct(s.rootgc) by { ShapeRepeats(s); }
  }

  lemma ShapeRepeats(s: State)
    requires Shape(s)
    ensures NoRepeats(s) && Distinct(s.rootgc)
  {}

  lemma RootErasedRepeats(s: State, u: State, x: Id)
    requires RootErased(s, u, x) && NoRepeats(s)
    ensures NoRepeats(u)
  {
    hide Distinct;
  }

  lemma RootErasedOk(s: State, u: State, x: Id)
    requires SweepInv(s) && RootErased(s, u, x) && Garbage(s, x)
    ensures SweepInv(u) && OnlyGarbageLost(s, u)
  {
    hide Homes, RootHomes, BucketHomes, OpenHomes, Kinds, OnlyGarbageLost, NeverBlack, SweptWhite, Closed, NoRepeats, RootErased, Garbage, Distinct;
    RootErasedParts(s, u, x);
    RootErasedHomes(s, u, x);
    RootErasedKinds(s, u, x);
    RootErasedWhite(s, u, x);
    RootErasedClosed(s, u, x);
    RootErasedRepeats(s, u, x);
  }

  lemma FreeRootOk(s: State, x: Id)
    requires SweepInv(s) && x in s.heap && s.heap[x].home == InRoot && Garbage(s, x)
    requires s.heap[x].kind == ThreadK ==> x in s.open && AllCurrent(s, x)
    ensures SweepInv(FreeRoot(s, x)) && OnlyGarbageLost(s, FreeRoot(s, x))
  {
    hide SweepInv, CloseAll;
    if s.heap[x].kind == ThreadK {
      var c := CloseAll(s, x);
      CloseAllOk(s, x);
      CloseAllHome(s, x, x);
      assert RootErased(c, FreeRoot(s, x), x);
      RootErasedOk(c, FreeRoot(s, x), x);
      LostTrans(s, c, FreeRoot(s, x));
    } else {
      assert RootErased(s, FreeRoot(s, x), x);
      RootErasedOk(s, FreeRoot(s, x), x);
    }
  }

  lemma {:induction false} CloseAllHome(s: State, t: Id, x: Id)
    requires t in s.open && (forall y :: y in s.open[t] ==> y in s.heap) && x in s.heap && s.heap[x].home == InRoot
    ensures x in CloseAll(s, t).heap && CloseAll(s, t).heap[x].home == InRoot
    decreases |s.open[t]|
  {
    if s.open[t] != [] {
      assert s.open[t][0] in s.open[t];
      CloseAllHome(MoveHead(s, t), t, x);
    }
  }

  lemma WhitenRootOk(s: State, x: Id)
    requires SweepInv(s) && s.sweepgc < |s.rootgc| && x == s.rootgc[s.sweepgc] && x in s.heap && !Garbage(s, x)
    requires s.heap[x].home == InRoot && s.phase == Sweep
    requires s.heap[x].kind == ThreadK ==> x in s.open && AllCurrent(s, x)
    ensures SweepInv(Whiten(s, x).(sweepgc := s.sweepgc + 1))
    ensures OnlyGarbageLost(s, Whiten(s, x).(sweepgc := s.sweepgc + 1))
  {
    hide RootHomes, BucketHomes, OpenHomes, Kinds, OnlyGarbageLost, NeverBlack, SweptWhite, Closed;
    var u := Whiten(s, x).(sweepgc := s.sweepgc + 1);
    WhitenHomes(s, x, u);
    WhitenKinds(s, x, u);
    WhitenClosed(s, x, u);
    WhitenWhite(s, x, u);
  }

  /** Painting touches no list and no home. */
  lemma WhitenHomes(s: State, x: Id, u: State)
    requires Homes(s) && x in s.heap && u == Whiten(s, x).(sweepgc := s.sweepgc + 1)
    ensures Homes(u)
  {
    hide Homes;
    HomesKept(s, u);
  }

  lemma WhitenKinds(s: State, x: Id, u: State)
    requires Kinds(s) && x in s.heap && u == Whiten(s, x).(sweepgc := s.sweepgc + 1)
    ensures Kinds(u)
  {}

  lemma WhitenClosed(s: State, x: Id, u: State)
    requires Closed(s) && Kinds(s) && x in s.heap && !Garbage(s, x) && u == Whiten(s, x).(sweepgc := s.sweepgc + 1)
    ensures OnlyGarbageLost(s, u) && Closed(u)
  {
    hide Closed, Kinds, OnlyGarbageLost;
    if Dead(s, x) {
      DeadFixed(s, x);
    }
    WhitenLoses(s, x, u);
    hide *;
    GarbageClosed(s, u);
  }

  lemma WhitenLoses(s: State, x: Id, u: State)
    requires x in s.heap && !Garbage(s, x) && u == Whiten(s, x).(sweepgc := s.sweepgc + 1)
    requires Dead(s, x) ==> s.heap[x].refs == []
    ensures OnlyGarbageLost(s, u)
    ensures forall y :: y in u.heap && Dead(s, y) && !Dead(u, y) ==> u.heap[y].refs == []
  {}

  lemma WhitenWhite(s: State, x: Id, u: State)
    requires Homes(s) && NeverBlack(s) && s.sweepgc < |s.rootgc| && SweptWhite(s) && s.phase == Sweep
    requires x == s.rootgc[s.sweepgc] && x in s.heap && s.heap[x].home == InRoot
    requires s.heap[x].kind == ThreadK ==> x in s.open && AllCurrent(s, x)
    requires Kinds(s) && u == Whiten(s, x).(sweepgc := s.sweepgc + 1)
    ensures SweptWhite(u) && NeverBlack(u)
  {
    hide RootHomes, BucketHomes, OpenHomes, Unswept;
    assert u.heap[x].color == White(u.white);
    forall y | y in u.heap && y != x && Unswept(s, y)
      ensures Unswept(u, y) || u.heap[y].color == White(u.white)
    {
      WhitenUnswept(s, x, u, y);
    }
    forall y | y in u.heap && y != x && !Unswept(s, y)
      ensures u.heap[y].color == White(u.white)
    {}
  }

  /** What waited behind the pointer still does, unless it is an open upvalue of the thread passed. */
  lemma WhitenUnswept(s: State, x: Id, u: State, y: Id)
    requires OpenHomes(s) && s.sweepgc < |s.rootgc| && s.phase == Sweep
    requires x == s.rootgc[s.sweepgc] && x in s.heap && s.heap[x].home == InRoot && Kinds(s)
    requires s.heap[x].kind == ThreadK ==> x in s.open && AllCurrent(s, x)
    requires u == Whiten(s, x).(sweepgc := s.sweepgc + 1) && y in u.heap && y != x && Unswept(s, y)
    ensures Unswept(u, y) || u.heap[y].color == White(u.white)
  {
    assert s.rootgc[s.sweepgc..] == [x] + s.rootgc[u.sweepgc..];
    assert u.heap[y] == s.heap[y];
    if s.heap[y].home == InOpen(x) {
      assert x in s.open && y in s.open[x];
    }
  }

  lemma RootIsReady(s: State)
    requires Shape(s) && s.sweepgc < |s.rootgc|
    ensures RootReady(s) && s.heap[s.rootgc[s.sweepgc]].home == InRoot
  {
    hide BucketHomes;
    var x := s.rootgc[s.sweepgc];
    assert x in s.rootgc;
    if s.heap[x].kind == ThreadK {
      OpenReady(s, x);
    }
  }

  /** Sweeping its open upvalues leaves the thread itself and rootgc alone. */
  lemma SweepOpenRoot(s: State, u: State, x: Id)
    requires OpenSwept(s, u, x) && x in s.heap && x !in s.open[x]
    ensures x in u.heap && u.heap[x] == s.heap[x] && u.rootgc == s.rootgc && u.sweepgc == s.sweepgc && u.phase == s.phase
    ensures x in u.open && forall y :: y in u.open[x] ==> y in u.heap
    ensures Garbage(u, x) <==> Garbage(s, x)
  {}

  lemma SweepPlainOk(s: State)
    requires SweepInv(s) && s.phase == Sweep && RootReady(s) && s.heap[s.rootgc[s.sweepgc]].home == InRoot
    requires s.heap[s.rootgc[s.sweepgc]].kind != ThreadK
    ensures SweepInv(SweepRootOne(s)) && OnlyGarbageLost(s, SweepRootOne(s))
  {
    hide SweepInv, OnlyGarbageLost;
    var x := s.rootgc[s.sweepgc];
    if Garbage(s, x) {
      FreeRootOk(s, x);
    } else {
      WhitenRootOk(s, x);
    }
  }

  lemma SweepThreadOk(s: State)
    requires SweepInv(s) && s.phase == Sweep && RootReady(s) && s.heap[s.rootgc[s.sweepgc]].home == InRoot
    requires s.heap[s.rootgc[s.sweepgc]].kind == ThreadK
    ensures SweepInv(SweepRootOne(s)) && OnlyGarbageLost(s, SweepRootOne(s))
  {
    hide SweepInv, SweepOpen, FreeRoot, OpenSwept, OnlyGarbageLost;
    var x := s.rootgc[s.sweepgc];
    var s1 := SweepOpen(s, x);
    SweepOpenOk(s, x);
    SweepOpenRoot(s, s1, x);
    if Garbage(s1, x) {
      FreeRootOk(s1, x);
    } else {
      WhitenRootOk(s1, x);
    }
    LostTrans(s, s1, SweepRootOne(s));
  }

  /** One turn of the sweep keeps the invariant and erases only unreachable objects. */
  lemma SweepRootOneOk(s: State)
    requires SweepInv(s) && s.phase == Sweep && s.sweepgc < |s.rootgc|
    ensures RootReady(s) && SweepInv(SweepRootOne(s)) && OnlyGarbageLost(s, SweepRootOne(s))
  {
    assert Shape(s);
    hide SweepInv, OnlyGarbageLost, SweepRootOne, Shape;
    RootIsReady(s);
    if s.heap[s.rootgc[s.sweepgc]].kind == ThreadK {
      SweepThreadOk(s);
    } else {
      SweepPlainOk(s);
    }
  }

  /** What a turn of the sweep leaves alone, and the measure that runs down: objects in front
      of the sweep pointer plus open upvalues, which closing may still put there. */
  ghost predicate SweepFrame(s: State, u: State) {
    && u.phase == s.phase && u.strings == s.strings && u.sweepstr == s.sweepstr
    && u.sweepgc <= |u.rootgc| && u.gray == s.gray && u.grayagain == s.grayagain
    && |u.rootgc| - u.sweepgc + |u.uvhead| <= |s.rootgc| - s.sweepgc + |s.uvhead|
  }

  lemma {:induction false} WithoutSize(s: seq<Id>, x: Id)
    ensures |Without(s, x)| <= |s| && (x in s ==> |Without(s, x)| < |s|)
  {
    if s != [] {
      WithoutSize(s[1..], x);
      assert s == [s[0]] + s[1..];
    }
  }

  lemma {:induction false} SweepSeqSize(s: State, list: seq<Id>)
    requires Distinct(list) && forall x :: x in list ==> x in s.heap
    ensures |SweepSeq(s, list).0.uvhead| <= |s.uvhead|
    decreases |list|
  {
    if list != [] {
      var x := list[0];
      assert list == [x] + list[1..] && x !in list[1..];
      if Garbage(s, x) {
        WithoutSize(s.uvhead, x);
        SweepSeqSize(Erase(s, x), list[1..]);
      } else {
        SweepSeqSize(Whiten(s, x), list[1..]);
      }
    }
  }

  lemma MoveHeadSize(s: State, t: Id)
    requires t in s.open && s.open[t] != [] && s.open[t][0] in s.heap && s.open[t][0] in s.uvhead
    requires s.sweepgc <= |s.rootgc|
    ensures SweepFrame(s, MoveHead(s, t))
  {
    WithoutSize(s.uvhead, s.open[t][0]);
  }

  lemma {:induction false} CloseAllSize(s: State, t: Id)
    requires SweepInv(s) && t in s.open && AllCurrent(s, t)
    ensures SweepFrame(s, CloseAll(s, t))
    decreases |s.open[t]|
  {
    assert s.sweepgc <= |s.rootgc|;
    if s.open[t] != [] {
      assert s.open[t][0] in s.open[t] && s.open[t][0] in s.uvhead;
      hide SweepInv, MoveHead, SweepFrame;
      MoveHeadOk(s, t);
      MoveHeadFrame(s, t);
      MoveHeadSize(s, t);
      CloseAllSize(MoveHead(s, t), t);
      SweepFrameTrans(s, MoveHead(s, t), CloseAll(s, t));
    }
  }

  lemma SweepFrameTrans(s: State, u: State, v: State)
    requires SweepFrame(s, u) && SweepFrame(u, v)
    ensures SweepFrame(s, v)
  {}

  lemma FreeRootSize(s: State, x: Id)
    requires SweepInv(s) && x in s.heap && s.heap[x].home == InRoot && Garbage(s, x)
    requires s.heap[x].kind == ThreadK ==> x in s.open && AllCurrent(s, x)
    ensures |FreeRoot(s, x).rootgc| - FreeRoot(s, x).sweepgc + |FreeRoot(s, x).uvhead| < |s.rootgc| - s.sweepgc + |s.uvhead|
    ensures FreeRoot(s, x).phase == s.phase && FreeRoot(s, x).strings == s.strings && FreeRoot(s, x).sweepstr == s.sweepstr
    ensures FreeRoot(s, x).gray == s.gray && FreeRoot(s, x).grayagain == s.grayagain
  {
    if s.heap[x].kind == ThreadK {
      CloseAllOk(s, x);
      CloseAllSize(s, x);
      CloseAllHome(s, x, x);
      WithoutSize(CloseAll(s, x).rootgc, x);
      assert x in CloseAll(s, x).rootgc;
    } else {
      WithoutSize(s.rootgc, x);
    }
  }

  /** Every turn of the sweep brings its end nearer. */
  lemma SweepRootOneSize(s: State)
    requires SweepInv(s) && s.phase == Sweep && RootReady(s) && s.heap[s.rootgc[s.sweepgc]].home == InRoot
    ensures var u := SweepRootOne(s);
            && u.phase == s.phase && u.strings == s.strings && u.sweepstr == s.sweepstr
            && u.gray == s.gray && u.grayagain == s.grayagain
            && |u.rootgc| - u.sweepgc + |u.uvhead| < |s.rootgc| - s.sweepgc + |s.uvhead|
  {
    hide SweepInv, SweepSeq, FreeRoot, OnlyGarbageLost, OpenSwept;
    var x := s.rootgc[s.sweepgc];
    var s1 := if s.heap[x].kind == ThreadK then SweepOpen(s, x) else s;
    if s.heap[x].kind == ThreadK {
      SweepOpenOk(s, x);
      SweepOpenRoot(s, s1, x);
      SweepSeqSize(s, s.open[x]);
    }
    if Garbage(s1, x) {
      FreeRootSize(s1, x);
    }
  }
}
