/** References into a table: luaL_ref and luaL_unref keep a list of free references in the
    table itself, headed by key zero. */
module References {
  import opened HashPart
  import opened LuaTableObject

  const FREELIST := 0
  const REFNIL := -1

  type Map = imap<Key, Value>

  ghost function Look(m: Map, n: int): Value { if IntKey(n) in m then m[IntKey(n)] else Nil }

  /** lua_tointeger: zero for what is no number; the numbers stored here are references. */
  function ToInteger(v: Value): int { if v.Val? then v.id else 0 }

  /** The free references, from the head on: each holds the next, the last holds nil or zero. */
  ghost predicate FreeFrom(m: Map, head: Value, free: seq<int>)
    decreases |free|
  {
    if free == [] then ToInteger(head) == 0
    else ToInteger(head) == free[0] && free[0] > 0 && FreeFrom(m, Look(m, free[0]), free[1..])
  }

  ghost predicate Distinct(s: seq<int>) { forall i, j :: 0 <= i < j < |s| ==> s[i] != s[j] }

  /** References 1 to top have been handed out: the live ones hold values, the others are free. */
  ghost predicate RefsOk(m: Map, top: int, live: set<int>, free: seq<int>) {
    && 0 <= top && FreeFrom(m, Look(m, FREELIST), free) && Distinct(free)
    && (forall r :: r in live || r in free ==> 1 <= r <= top)
    && (forall r :: 1 <= r <= top ==> (r in live <==> r !in free))
    && (forall r :: r in live ==> Look(m, r) != Nil)
    && (forall n :: n > top ==> Look(m, n) == Nil)
  }

  /** u is m with v under n. */
  ghost predicate Updated(m: Map, u: Map, n: int, v: Value) {
    Look(u, n) == v && forall x :: x != n ==> Look(u, x) == Look(m, x)
  }

  /** The list depends on the entries of the free references only. */
  lemma {:induction false} FreeSame(m: Map, u: Map, head: Value, free: seq<int>)
    requires FreeFrom(m, head, free) && forall r :: r in free ==> Look(u, r) == Look(m, r)
    ensures FreeFrom(u, head, free)
    decreases |free|
  {
    if free != [] {
      assert free[0] in free && forall r :: r in free[1..] ==> r in free;
      FreeSame(m, u, Look(m, free[0]), free[1..]);
    }
  }

  ghost predicate BorderOf(m: Map, n: int) {
    n >= 0 && (n == 0 || Look(m, n) != Nil) && Look(m, n + 1) == Nil
  }

  /** Without free references the only boundary is the last one handed out. */
  lemma OnlyBorder(m: Map, top: int, live: set<int>, n: int)
    requires RefsOk(m, top, live, []) && BorderOf(m, n)
    ensures n == top
  {
    assert n < top ==> n + 1 in live;
  }

  /** The first free reference is taken off the list and used. */
  lemma TakeFree(m: Map, u: Map, w: Map, top: int, live: set<int>, free: seq<int>, v: Value)
    requires RefsOk(m, top, live, free) && free != [] && v != Nil
    requires Updated(m, u, FREELIST, Look(m, free[0])) && Updated(u, w, free[0], v)
    ensures free[0] !in live && free[0] > 0 && RefsOk(w, top, live + {free[0]}, free[1..])
  {
    var ref, rest := free[0], free[1..];
    assert free == [ref] + rest && ref in free;
    assert forall r :: r in free <==> r == ref || r in rest;
    assert ref !in rest;
    assert FreeFrom(m, Look(m, ref), rest);
    FreeSame(m, w, Look(m, ref), rest);
  }

  /** Without a free one, the reference behind the last is used. */
  lemma TakeNew(m: Map, w: Map, top: int, live: set<int>, v: Value)
    requires RefsOk(m, top, live, []) && v != Nil && Updated(m, w, top + 1, v)
    ensures top + 1 !in live && RefsOk(w, top + 1, live + {top + 1}, [])
  {}

  /** A live reference is put at the head of the list. */
  lemma GiveBack(m: Map, u: Map, w: Map, top: int, live: set<int>, free: seq<int>, ref: int)
    requires RefsOk(m, top, live, free) && ref in live
    requires Updated(m, u, ref, Look(m, FREELIST)) && Updated(u, w, FREELIST, Val(ref))
    ensures RefsOk(w, top, live - {ref}, [ref] + free)
  {
    var free1 := [ref] + free;
    assert ref !in free && forall r :: r in free1 <==> r == ref || r in free;
    FreeSame(m, w, Look(m, FREELIST), free);
    assert free1[1..] == free && free1[0] == ref;
    assert Distinct(free1);
  }

  lemma HeadOf(m: Map, top: int, live: set<int>, free: seq<int>)
    requires RefsOk(m, top, live, free)
    ensures ToInteger(Look(m, FREELIST)) == if free == [] then 0 else free[0]
    ensures free != [] ==> free[0] > 0
  {}

  // ---------- On a table ----------

  lemma MapBorder(t: Table, n: int)
    requires t.Border(n)
    ensures BorderOf(t.Contents(), n)
  {}

  /** What luaL_ref leaves for a value that is not nil. */
  ghost predicate Referred(m: Map, w: Map, top1: int, live: set<int>, free1: seq<int>, ref: int, v: Value) {
    && ref !in live && ref > 0 && Look(w, ref) == v && RefsOk(w, top1, live + {ref}, free1)
    && forall r :: r in live ==> Look(w, r) == Look(m, r)
  }

  lemma FreeReferred(m: Map, u: Map, w: Map, top: int, live: set<int>, free: seq<int>, v: Value)
    requires RefsOk(m, top, live, free) && free != [] && v != Nil
    requires Updated(m, u, FREELIST, Look(m, free[0])) && Updated(u, w, free[0], v)
    ensures Referred(m, w, top, live, free[1..], free[0], v)
  {
    TakeFree(m, u, w, top, live, free, v);
    ZeroDead(m, top, live, free);
    hide RefsOk;
  }

  lemma NewReferred(m: Map, w: Map, top: int, live: set<int>, v: Value)
    requires RefsOk(m, top, live, []) && v != Nil && Updated(m, w, top + 1, v)
    ensures Referred(m, w, top + 1, live, [], top + 1, v)
  {
    TakeNew(m, w, top, live, v);
    hide RefsOk;
  }

  /** The first free reference is taken off the list in the table. */
  method PopFree(t: Table, ref: int)
    returns (err: Error)
    requires t.Valid()
    modifies t`node, t`dummy, t`lastfree, t`arr, t`rank
    ensures err == NoError ==> t.Valid() && Updated(old(t.Contents()), t.Contents(), FREELIST, Look(old(t.Contents()), ref))
  {
    var next := t.Get(IntKey(ref));
    err := t.Set(IntKey(FREELIST), next);
  }

  method PutAt(t: Table, n: int, v: Value)
    returns (err: Error)
    requires t.Valid()
    modifies t`node, t`dummy, t`lastfree, t`arr, t`rank
    ensures err == NoError ==> t.Valid() && Updated(old(t.Contents()), t.Contents(), n, v)
  {
    err := t.Set(IntKey(n), v);
  }

  method HeadRef(t: Table) returns (ref: int)
    requires t.Valid()
    ensures ref == ToInteger(Look(t.Contents(), FREELIST))
  {
    var first := t.Get(IntKey(FREELIST));
    ref := ToInteger(first);
  }

  /** A free reference is taken off the list and gets the value. */
  method RefFree(t: Table, v: Value, ref: int, ghost top: int, ghost live: set<int>, ghost free: seq<int>)
    returns (err: Error)
    requires t.Valid() && RefsOk(t.Contents(), top, live, free) && free != [] && ref == free[0] && v != Nil
    modifies t`node, t`dummy, t`lastfree, t`arr, t`rank
    ensures err == NoError ==> t.Valid() && Referred(old(t.Contents()), t.Contents(), top, live, free[1..], ref, v)
  {
    hide *;
    ghost var m := t.Contents();
    err := PopFree(t, ref);
    if err != NoError {
      return;
    }
    ghost var u := t.Contents();
    err := PutAt(t, ref, v);
    if err == NoError {
      FreeReferred(m, u, t.Contents(), top, live, free, v);
    }
  }

  /** lua_objlen: some border of the table. */
  method Length(t: Table) returns (n: int)
    requires t.Valid()
    ensures BorderOf(t.Contents(), n)
  {
    n := t.GetN();
    MapBorder(t, n);
  }

  /** The reference behind the last one gets the value. */
  method RefNew(t: Table, v: Value, ghost top: int, ghost live: set<int>)
    returns (err: Error, ref: int)
    requires t.Valid() && RefsOk(t.Contents(), top, live, []) && v != Nil
    modifies t`node, t`dummy, t`lastfree, t`arr, t`rank
    ensures err == NoError ==> t.Valid() && Referred(old(t.Contents()), t.Contents(), top + 1, live, [], ref, v) && ref == top + 1
  {
    hide *;
    ghost var m := t.Contents();
    var n := Length(t);
    OnlyBorder(m, top, live, n);
    ref := n + 1;
    err := PutAt(t, ref, v);
    if err == NoError {
      NewReferred(m, t.Contents(), top, live, v);
    }
  }

  /** luaL_ref: the value gets a reference that is not in use. */
  method Ref(t: Table, v: Value, ghost top: int, ghost live: set<int>, ghost free: seq<int>)
    returns (err: Error, ref: int, ghost top1: int, ghost free1: seq<int>)
    requires t.Valid() && RefsOk(t.Contents(), top, live, free)
    modifies t`node, t`dummy, t`lastfree, t`arr, t`rank
    ensures v == Nil ==> err == NoError && ref == REFNIL && t.Valid() && t.Contents() == old(t.Contents())
    ensures v != Nil && err == NoError ==> t.Valid() && Referred(old(t.Contents()), t.Contents(), top1, live, free1, ref, v)
    ensures v != Nil && err == NoError ==> (ref, top1, free1) == if free == [] then (top + 1, top + 1, []) else (free[0], top, free[1..])
  {
    hide *;
    top1, free1 := top, free;
    if v == Nil {
      return NoError, REFNIL, top1, free1;
    }
    HeadOf(t.Contents(), top, live, free);
    ref := HeadRef(t);
    if ref != 0 {
      free1 := free[1..];
      err := RefFree(t, v, ref, top, live, free);
    } else {
      top1 := top + 1;
      err, ref := RefNew(t, v, top, live);
    }
  }

  lemma ZeroDead(m: Map, top: int, live: set<int>, free: seq<int>)
    requires RefsOk(m, top, live, free)
    ensures FREELIST !in live
  {}

  /** A table in which no reference was handed out. */
  lemma Unused(m: Map)
    requires forall n :: Look(m, n) == Nil
    ensures Holds(m, Refs(0, [], map[]))
  {}

  /** luaL_unref: a live reference is the first to be used again, a negative one is ignored. */
  method Unref(t: Table, ref: int, ghost top: int, ghost live: set<int>, ghost free: seq<int>)
    returns (err: Error, ghost free1: seq<int>)
    requires t.Valid() && RefsOk(t.Contents(), top, live, free) && (ref in live || ref < 0)
    modifies t`node, t`dummy, t`lastfree, t`arr, t`rank
    ensures ref < 0 ==> err == NoError && free1 == free && t.Valid() && t.Contents() == old(t.Contents())
    ensures ref >= 0 && err == NoError ==>
      && free1 == [ref] + free && t.Valid() && RefsOk(t.Contents(), top, live - {ref}, free1)
      && forall r :: r in live && r != ref ==> Look(t.Contents(), r) == old(Look(t.Contents(), r))
  {
    hide RefsOk;
    if ref < 0 {
      return NoError, free;
    }
    free1 := [ref] + free;
    ghost var m := t.Contents();
    ZeroDead(m, top, live, free);
    var first := t.Get(IntKey(FREELIST));
    err := t.Set(IntKey(ref), first);
    if err != NoError {
      return;
    }
    ghost var u := t.Contents();
    err := t.Set(IntKey(FREELIST), Val(ref));
    if err == NoError {
      GiveBack(m, u, t.Contents(), top, live, free, ref);
    }
  }

  // ---------- A reference given back twice ----------

  lemma {:induction false} FreeLinks(m: Map, head: Value, free: seq<int>, j: nat)
    requires FreeFrom(m, head, free) && j < |free|
    ensures free[j] > 0 && (j == 0 ==> ToInteger(head) == free[0])
    ensures j + 1 < |free| ==> ToInteger(Look(m, free[j])) == free[j+1]
    decreases j
  {
    if j > 0 {
      FreeLinks(m, Look(m, free[0]), free[1..], j - 1);
    } else if |free| > 1 {
      assert free[1..][0] == free[1];
    }
  }

  /** Each entry of a ring holds the next. */
  ghost predicate Ring(m: Map, ring: seq<int>) {
    forall j :: 0 <= j < |ring| ==> ring[j] > 0 && ToInteger(Look(m, ring[j])) == ring[if j + 1 < |ring| then j + 1 else 0]
  }

  lemma {:induction false} RingEndless(m: Map, ring: seq<int>, j: nat, head: Value, free: seq<int>)
    requires Ring(m, ring) && j < |ring| && ToInteger(head) == ring[j]
    ensures !FreeFrom(m, head, free)
    decreases |free|
  {
    if FreeFrom(m, head, free) {
      RingEndless(m, ring, if j + 1 < |ring| then j + 1 else 0, Look(m, ring[j]), free[1..]);
    }
  }

  /** The free list up to the reference given back again becomes a ring. */
  lemma FreeRing(m: Map, u: Map, w: Map, free: seq<int>, i: nat)
    requires FreeFrom(m, Look(m, FREELIST), free) && Distinct(free) && i < |free|
    requires Updated(m, u, free[i], Look(m, FREELIST)) && Updated(u, w, FREELIST, Val(free[i]))
    ensures Ring(w, free[..i+1]) && Look(w, FREELIST) == Val(free[i])
  {
    forall j | 0 <= j <= i
      ensures free[j] > 0 && ToInteger(Look(w, free[j])) == free[if j < i then j + 1 else 0]
    {
      FreeLinks(m, Look(m, FREELIST), free, j);
      FreeLinks(m, Look(m, FREELIST), free, 0);
    }
  }

  /** Of the references handed out, exactly those in use may be given back: another one turns
      the list of free references into a ring. */
  lemma GiveBackIff(m: Map, u: Map, w: Map, top: int, live: set<int>, free: seq<int>, ref: int)
    requires RefsOk(m, top, live, free) && 1 <= ref <= top
    requires Updated(m, u, ref, Look(m, FREELIST)) && Updated(u, w, FREELIST, Val(ref))
    ensures (exists live1, free1 :: RefsOk(w, top, live1, free1)) <==> ref in live
  {
    if ref in live {
      GiveBack(m, u, w, top, live, free, ref);
    } else {
      var i :| 0 <= i < |free| && free[i] == ref;
      FreeRing(m, u, w, free, i);
      forall live1, free1
        ensures !RefsOk(w, top, live1, free1)
      {
        RingEndless(w, free[..i+1], i, Look(w, FREELIST), free1);
      }
    }
  }

  // ---------- Runs ----------

  /** The references handed out, those given back, the last one first, and the values held. */
  datatype Refs = Refs(top: int, free: seq<int>, held: map<int, Value>)

  datatype Call = Take(v: Value) | Drop(ref: int)

  /** nil needs no reference; any other value gets the one given back last, or a new one. */
  function After(s: Refs, c: Call): Refs {
    match c
    case Take(v) =>
      if v == Nil then s
      else if s.free == [] then Refs(s.top + 1, [], s.held[s.top + 1 := v])
      else Refs(s.top, s.free[1..], s.held[s.free[0] := v])
    case Drop(ref) => if ref < 0 then s else Refs(s.top, [ref] + s.free, s.held - {ref})
  }

  function AfterAll(calls: seq<Call>): Refs {
    if calls == [] then Refs(0, [], map[]) else After(AfterAll(calls[..|calls|-1]), calls[|calls|-1])
  }

  /** A reference is given back only while it holds a value. */
  predicate Allowed(s: Refs, c: Call) { c.Drop? ==> c.ref < 0 || c.ref in s.held }

  ghost predicate Holds(m: Map, s: Refs) {
    RefsOk(m, s.top, s.held.Keys, s.free) && forall r :: r in s.held ==> Look(m, r) == s.held[r]
  }

  lemma TakenHolds(m: Map, w: Map, s: Refs, v: Value, ref: int)
    requires Holds(m, s) && v != Nil && ref == if s.free == [] then s.top + 1 else s.free[0]
    requires Referred(m, w, After(s, Take(v)).top, s.held.Keys, After(s, Take(v)).free, ref, v)
    ensures Holds(w, After(s, Take(v)))
  {
    hide RefsOk;
    assert After(s, Take(v)).held.Keys == s.held.Keys + {ref};
  }

  lemma DroppedHolds(m: Map, w: Map, s: Refs, ref: int)
    requires Holds(m, s) && ref in s.held && RefsOk(w, s.top, s.held.Keys - {ref}, [ref] + s.free) && ref >= 0
    requires forall r :: r in s.held.Keys && r != ref ==> Look(w, r) == Look(m, r)
    ensures Holds(w, After(s, Drop(ref)))
  {
    hide RefsOk;
    assert After(s, Drop(ref)).held.Keys == s.held.Keys - {ref};
  }

  lemma HeldOk(m: Map, s: Refs)
    requires Holds(m, s)
    ensures RefsOk(m, s.top, s.held.Keys, s.free) && forall r :: r in s.held ==> r > 0
  {}

  method DoCall(t: Table, c: Call, ghost s: Refs)
    returns (err: Error)
    requires t.Valid() && Holds(t.Contents(), s) && Allowed(s, c)
    modifies t`node, t`dummy, t`lastfree, t`arr, t`rank
    ensures err == NoError ==> t.Valid() && Holds(t.Contents(), After(s, c))
  {
    ghost var m := t.Contents();
    HeldOk(m, s);
    hide RefsOk, Referred, Holds, Look;
    match c {
      case Take(v) =>
        var ref: int;
        ghost var top, free;
        err, ref, top, free := Ref(t, v, s.top, s.held.Keys, s.free);
        if err == NoError && v != Nil {
          TakenHolds(m, t.Contents(), s, v, ref);
        }
      case Drop(ref) =>
        ghost var free;
        err, free := Unref(t, ref, s.top, s.held.Keys, s.free);
        if err == NoError && ref >= 0 {
          DroppedHolds(m, t.Contents(), s, ref);
        }
    }
  }

  /** Any calls on a new table: the references are those of a stack of free ones, and each
      reference not given back holds its own value. */
  method CallAll(h: Hash, calls: seq<Call>)
    returns (err: Error, t: Table)
    requires forall i :: 0 <= i < |calls| ==> Allowed(AfterAll(calls[..i]), calls[i])
    ensures err == NoError ==> t.Valid() && Holds(t.Contents(), AfterAll(calls))
  {
    t := new Table(h, 0, 0);
    Unused(t.Contents());
    hide Holds, After;
    var i := 0;
    err := NoError;
    while i < |calls|
      invariant 0 <= i <= |calls| && fresh(t)
      invariant t.Valid() && Holds(t.Contents(), AfterAll(calls[..i]))
    {
      assert calls[..i+1][..i] == calls[..i];
      err := DoCall(t, calls[i], AfterAll(calls[..i]));
      if err != NoError {
        return;
      }
      i := i + 1;
    }
    assert calls[..|calls|] == calls;
  }
}
