/** The collector's view of the Lua heap: objects with a kind, a colour, references
    and the one list each is linked in, and the lists and registers of the global state. */
module GcHeap {

  type Id = nat

  datatype Kind = StringK | UdataK | UpvalK | FunctionK | TableK | ThreadK | ProtoK

  /** Two whites, so that objects made during a sweep differ from those left unmarked. */
  datatype Color = White(which: bool) | Gray | Black

  /** The list an object is linked in by its only `next' field. */
  datatype Home = InRoot | InBucket(bucket: nat) | InOpen(thread: Id)

  /** Refs are the references of the object in the order the collector traverses them. */
  datatype Object = Object(kind: Kind, color: Color, refs: seq<Id>, home: Home, fixed: bool)

  datatype Phase = Pause | Propagate | SweepString | Sweep | Finalize

  datatype State = State(
    heap: map<Id, Object>,
    white: bool,                // the current white
    phase: Phase,
    gray: seq<Id>,              // lists threaded through gclist
    grayagain: seq<Id>,
    strings: seq<seq<Id>>,      // the string table
    sweepstr: nat,              // next bucket to sweep
    rootgc: seq<Id>,            // all other collectable objects
    sweepgc: nat,               // how many of them the sweep pointer has passed
    open: map<Id, seq<Id>>,     // the open upvalues of each thread
    uvhead: seq<Id>,            // all open upvalues
    mainthread: Id, registry: Id, running: Id,
    mt: seq<Id>)                // metatables of the basic types

  ghost predicate Distinct(s: seq<Id>) {
    forall i, j :: 0 <= i < j < |s| ==> s[i] != s[j]
  }

  // ---------- Colours ----------

  predicate IsWhite(s: State, x: Id)
    requires x in s.heap
  {
    s.heap[x].color.White?
  }

  /** White of the other kind: left over from the last mark phase. */
  predicate Dead(s: State, x: Id)
    requires x in s.heap
  {
    s.heap[x].color == White(!s.white)
  }

  predicate IsOpen(o: Object) { o.home.InOpen? }

  /** Objects that wait in the gray lists while gray. */
  predicate Listed(k: Kind) { k == FunctionK || k == TableK || k == ThreadK || k == ProtoK }

  function Paint(s: State, x: Id, c: Color): State
    requires x in s.heap
  {
    s.(heap := s.heap[x := s.heap[x].(color := c)])
  }

  // ---------- Reachability ----------

  ghost predicate IsRoot(s: State, x: Id) {
    x == s.mainthread || x == s.registry || x == s.running || x in s.mt
  }

  ghost predicate RefPath(s: State, path: seq<Id>) {
    && |path| > 0 && IsRoot(s, path[0])
    && forall k :: 0 <= k < |path| - 1 ==> path[k] in s.heap && path[k+1] in s.heap[path[k]].refs
  }

  ghost predicate PathTo(s: State, path: seq<Id>, x: Id) {
    RefPath(s, path) && path[|path|-1] == x
  }

  /** The program can get at x. */
  ghost predicate Reachable(s: State, x: Id) {
    exists path :: PathTo(s, path, x)
  }

  /** Roots exist and are not dead, and what is not dead only refers to such objects. */
  ghost predicate Closed(s: State) {
    && (forall x :: IsRoot(s, x) ==> x in s.heap && !Dead(s, x))
    && (forall x, r :: x in s.heap && !Dead(s, x) && r in s.heap[x].refs ==> r in s.heap && !Dead(s, r))
  }

  lemma {:induction false} PathNotDead(s: State, path: seq<Id>)
    requires Closed(s) && RefPath(s, path)
    ensures path[|path|-1] in s.heap && !Dead(s, path[|path|-1])
  {
    if |path| > 1 {
      assert RefPath(s, path[..|path|-1]);
      PathNotDead(s, path[..|path|-1]);
    }
  }

  /** The safety core: in a closed state everything reachable exists and is not dead. */
  lemma ReachableNotDead(s: State, x: Id)
    requires Closed(s) && Reachable(s, x)
    ensures x in s.heap && !Dead(s, x)
  {
    var path :| PathTo(s, path, x);
    PathNotDead(s, path);
  }

  lemma ReachRoot(s: State, x: Id)
    requires IsRoot(s, x)
    ensures Reachable(s, x)
  {
    assert PathTo(s, [x], x);
  }

  lemma ReachRef(s: State, x: Id, r: Id)
    requires Reachable(s, x) && x in s.heap && r in s.heap[x].refs
    ensures Reachable(s, r)
  {
    var path :| PathTo(s, path, x);
    assert PathTo(s, path + [r], r);
  }

  /** Closedness depends on the references, on what is dead and on the roots. */
  lemma ClosedKept(s: State, u: State)
    requires Closed(s) && u.mainthread == s.mainthread && u.registry == s.registry && u.running == s.running && u.mt == s.mt
    requires forall x :: x in u.heap <==> x in s.heap
    requires forall x :: x in s.heap ==> u.heap[x].refs == s.heap[x].refs && (Dead(u, x) <==> Dead(s, x))
    ensures Closed(u)
  {
    forall x | IsRoot(u, x)
      ensures x in u.heap && !Dead(u, x)
    {
      assert IsRoot(s, x);
    }
    forall x, r | x in u.heap && !Dead(u, x) && r in u.heap[x].refs
      ensures r in u.heap && !Dead(u, r)
    {
      assert !Dead(s, x) && r in s.heap[x].refs;
    }
  }

  // ---------- Structure ----------

  ghost predicate RootHomes(s: State) {
    forall x :: x in s.rootgc <==> x in s.heap && s.heap[x].home == InRoot
  }

  ghost predicate BucketHomes(s: State) {
    && (forall b, x :: 0 <= b < |s.strings| ==> (x in s.strings[b] <==> x in s.heap && s.heap[x].home == InBucket(b)))
    && (forall x :: x in s.heap && s.heap[x].home.InBucket? ==> s.heap[x].home.bucket < |s.strings|)
  }

  ghost predicate OpenHomes(s: State) {
    && (forall t, x :: t in s.open ==> (x in s.open[t] <==> x in s.heap && s.heap[x].home == InOpen(t)))
    && (forall x :: x in s.heap && s.heap[x].home.InOpen? ==> s.heap[x].home.thread in s.open)
    && (forall x :: x in s.uvhead <==> x in s.heap && IsOpen(s.heap[x]))
  }

  /** Every object is linked exactly where it says, and the lists hold nothing else. */
  ghost predicate Homes(s: State) {
    RootHomes(s) && BucketHomes(s) && OpenHomes(s)
  }

  /** The lists and homes of two states are the same. */
  ghost predicate SameHomes(s: State, u: State) {
    && u.rootgc == s.rootgc && u.strings == s.strings && u.open == s.open && u.uvhead == s.uvhead
    && (forall x :: x in u.heap <==> x in s.heap)
    && (forall x :: x in s.heap ==> u.heap[x].home == s.heap[x].home)
  }

  lemma HomesKept(s: State, u: State)
    requires Homes(s) && SameHomes(s, u)
    ensures Homes(u)
  {
    assert RootHomes(u) by { hide BucketHomes, OpenHomes; }
    assert BucketHomes(u) by { hide RootHomes, OpenHomes; }
    assert OpenHomes(u) by { hide RootHomes, BucketHomes; }
  }

  ghost predicate NoRepeats(s: State) {
    && Distinct(s.rootgc) && Distinct(s.uvhead)
    && (forall b :: 0 <= b < |s.strings| ==> Distinct(s.strings[b]))
    && (forall t :: t in s.open ==> Distinct(s.open[t]))
  }

  ghost predicate Kinds(s: State) {
    && (forall x :: x in s.heap ==> (s.heap[x].home.InBucket? <==> s.heap[x].kind == StringK))
    && (forall x :: x in s.heap ==> (s.heap[x].home.InOpen? ==> s.heap[x].kind == UpvalK))
    && (forall x :: x in s.open <==> x in s.heap && s.heap[x].kind == ThreadK)
    && (forall x :: x in s.heap && s.heap[x].kind == StringK ==> s.heap[x].refs == [])
    && (forall x :: x in s.heap && s.heap[x].fixed ==> s.heap[x].kind == StringK || x == s.mainthread)
    && s.mainthread in s.heap && s.heap[s.mainthread].kind == ThreadK
    && s.running in s.heap && s.heap[s.running].kind == ThreadK
  }

  ghost predicate Shape(s: State) {
    && Homes(s) && NoRepeats(s) && Kinds(s)
    && |s.strings| > 0 && s.sweepstr <= |s.strings| && s.sweepgc <= |s.rootgc|
  }

  // ---------- Colour invariants ----------

  /** Threads and open upvalues are written without barriers and so never black. */
  ghost predicate NeverBlack(s: State) {
    forall x :: x in s.heap && (s.heap[x].kind == ThreadK || IsOpen(s.heap[x])) ==> !s.heap[x].color.Black?
  }

  ghost predicate NoDead(s: State) {
    forall x :: x in s.heap ==> !Dead(s, x)
  }

  ghost predicate AllWhite(s: State) {
    forall x :: x in s.heap ==> s.heap[x].color == White(s.white)
  }

  ghost predicate RefsMarked(s: State, x: Id)
    requires x in s.heap
  {
    forall r :: r in s.heap[x].refs ==> r in s.heap && !IsWhite(s, r)
  }

  /** The gray lists hold gray objects of the listed kinds, each once. */
  ghost predicate GrayLists(s: State) {
    && Distinct(s.gray + s.grayagain)
    && forall x :: x in s.gray || x in s.grayagain ==>
         x in s.heap && s.heap[x].color == Gray && Listed(s.heap[x].kind)
  }

  /** No black object refers to a white one, and every gray object of a listed kind
      waits in a list; userdata and closed upvalues are never gray.  Objects in ex are
      being marked and are exempt. */
  ghost predicate TriColor(s: State, ex: set<Id>) {
    && GrayLists(s)
    && (forall x :: x in s.heap && x !in ex && s.heap[x].color.Black? ==> RefsMarked(s, x))
    && (forall x :: x in s.heap && x !in ex && s.heap[x].color.Gray? && Listed(s.heap[x].kind) ==>
          x in s.gray || x in s.grayagain)
    && (forall x :: x in s.heap && x !in ex && s.heap[x].color.Gray? && !Listed(s.heap[x].kind) ==>
          s.heap[x].kind == StringK || IsOpen(s.heap[x]))
  }

  /** What is still in front of the sweep pointers. */
  ghost predicate Unswept(s: State, x: Id)
    requires x in s.heap && s.sweepgc <= |s.rootgc|
  {
    match s.heap[x].home
    case InBucket(b) => s.phase == SweepString && s.sweepstr <= b
    case InRoot => x in s.rootgc[s.sweepgc..]
    case InOpen(t) => t in s.rootgc[s.sweepgc..]
  }

  ghost predicate SweptWhite(s: State)
    requires s.sweepgc <= |s.rootgc|
  {
    && (s.phase == SweepString ==> s.sweepgc == 0 && s.sweepstr < |s.strings|)
    && forall x :: x in s.heap && !Unswept(s, x) ==> s.heap[x].color == White(s.white)
  }

  /** What holds of the colours in each phase. */
  ghost predicate PhaseInv(s: State) {
    match s.phase
    case Pause | Finalize => AllWhite(s)
    case Propagate =>
      && NoDead(s) && TriColor(s, {})
      && s.mainthread in s.heap && !IsWhite(s, s.mainthread) && s.registry in s.heap && !IsWhite(s, s.registry)
    case SweepString | Sweep => s.sweepgc <= |s.rootgc| && SweptWhite(s)
  }

  /** The invariant of every reachable collector state. */
  ghost predicate Inv(s: State) {
    Shape(s) && Closed(s) && NeverBlack(s) && PhaseInv(s)
  }
}
