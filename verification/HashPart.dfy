/** The hash part of a table: nodes chained through next fields, each key reachable from the
    node that its hash gives to it. */
module HashPart {

  /** Numbers that are not whole are told apart by an identity, and so are strings and objects. */
  datatype Key = NilKey | NaNKey | IntKey(n: int) | FloatKey(id: nat) | StrKey(id: nat) | BoolKey(b: bool) | RefKey(id: nat)

  datatype Value = Nil | Val(id: int)

  const NULL := -1

  datatype Node = Node(key: Key, val: Value, next: int)

  const FREE := Node(NilKey, Nil, NULL)

  type Hash = Key -> nat

  /** hashpow2 for strings and booleans, hashmod for the others, the first node for zero. */
  function MainPosition(h: Hash, k: Key, size: nat): (m: nat)
    requires size > 0
    ensures m < size
  {
    if k == IntKey(0) then 0
    else if k.StrKey? || k.BoolKey? then h(k) % size
    else h(k) % (if size == 1 then 1 else size - 1)
  }

  predicate Keyed(nodes: seq<Node>, i: int) { 0 <= i < |nodes| && nodes[i].key != NilKey }

  function Main(h: Hash, nodes: seq<Node>, k: Key): (m: nat)
    requires |nodes| > 0
    ensures m < |nodes|
  {
    MainPosition(h, k, |nodes|)
  }

  // ---------- Chains ----------

  /** b is met within k links from a. */
  predicate Within(nodes: seq<Node>, k: nat, a: int, b: int) {
    0 <= a < |nodes| && (a == b || (k > 0 && Within(nodes, k - 1, nodes[a].next, b)))
  }

  ghost predicate Reach(nodes: seq<Node>, a: int, b: int) {
    exists k: nat :: Within(nodes, k, a, b)
  }

  /** Links lead to nodes, upwards in some ranking, so that no chain comes back to itself. */
  ghost predicate Ranked(nodes: seq<Node>, rank: seq<nat>) {
    |rank| == |nodes| && forall i :: 0 <= i < |nodes| && nodes[i].next != NULL ==>
      0 <= nodes[i].next < |nodes| && rank[i] < rank[nodes[i].next]
  }

  /** No node is linked twice; free nodes are not linked at all and hold nothing. */
  ghost predicate Linked(nodes: seq<Node>) {
    && (forall i, j :: 0 <= i < j < |nodes| && nodes[i].next != NULL ==> nodes[i].next != nodes[j].next)
    && (forall i :: 0 <= i < |nodes| && nodes[i].next != NULL ==> Keyed(nodes, nodes[i].next))
    && (forall i :: 0 <= i < |nodes| && nodes[i].key == NilKey ==> nodes[i] == FREE)
  }

  ghost predicate Distinct(nodes: seq<Node>) {
    forall i, j :: 0 <= i < j < |nodes| && Keyed(nodes, i) && Keyed(nodes, j) ==> nodes[i].key != nodes[j].key
  }

  /** A key is found from its main position, and a main position in use holds one of its own keys. */
  ghost predicate Placed(h: Hash, nodes: seq<Node>)
    requires |nodes| > 0
  {
    && (forall i :: Keyed(nodes, i) ==> Reach(nodes, Main(h, nodes, nodes[i].key), i))
    && (forall i :: Keyed(nodes, i) ==> Owned(h, nodes, Main(h, nodes, nodes[i].key)))
  }

  /** The node holds a key in its main position. */
  ghost predicate Owned(h: Hash, nodes: seq<Node>, m: nat)
    requires |nodes| > 0
  {
    Keyed(nodes, m) && Main(h, nodes, nodes[m].key) == m
  }

  ghost predicate HashOk(h: Hash, nodes: seq<Node>, rank: seq<nat>) {
    |nodes| > 0 && Ranked(nodes, rank) && Linked(nodes) && Distinct(nodes) && Placed(h, nodes)
  }

  // ---------- What the nodes hold ----------

  ghost predicate Holds(nodes: seq<Node>, k: Key, v: Value) {
    exists i :: Keyed(nodes, i) && nodes[i].key == k && nodes[i].val == v
  }

  ghost predicate Has(nodes: seq<Node>, k: Key) { exists i :: Keyed(nodes, i) && nodes[i].key == k }

  ghost function At(nodes: seq<Node>, k: Key): Value {
    if Has(nodes, k) then var i :| Keyed(nodes, i) && nodes[i].key == k; nodes[i].val else Nil
  }

  lemma AtIs(nodes: seq<Node>, i: int)
    requires Distinct(nodes) && Keyed(nodes, i)
    ensures Has(nodes, nodes[i].key) && At(nodes, nodes[i].key) == nodes[i].val
  {}

  // ---------- Reaching along links ----------

  lemma ReachSelf(nodes: seq<Node>, a: int)
    requires 0 <= a < |nodes|
    ensures Reach(nodes, a, a)
  {
    assert Within(nodes, 0, a, a);
  }

  lemma ReachNext(nodes: seq<Node>, a: int, b: int)
    requires 0 <= a < |nodes| && Reach(nodes, nodes[a].next, b)
    ensures Reach(nodes, a, b)
  {
    var k: nat :| Within(nodes, k, nodes[a].next, b);
    assert Within(nodes, k + 1, a, b);
  }

  lemma ReachStep(nodes: seq<Node>, a: int, b: int)
    requires Reach(nodes, a, b)
    ensures 0 <= a < |nodes| && (a == b || Reach(nodes, nodes[a].next, b))
  {
    var k: nat :| Within(nodes, k, a, b);
    if a != b {
      assert Within(nodes, k - 1, nodes[a].next, b);
    }
  }

  /** Chains only depend on the links of nodes that hold keys. */
  lemma {:induction false} WithinSame(nodes: seq<Node>, other: seq<Node>, k: nat, a: int, b: int)
    requires Within(nodes, k, a, b) && |other| == |nodes| && forall i :: 0 <= i < |nodes| ==> other[i].next == nodes[i].next
    ensures Within(other, k, a, b)
    decreases k
  {
    if a != b {
      WithinSame(nodes, other, k - 1, nodes[a].next, b);
    }
  }

  lemma ReachSame(nodes: seq<Node>, other: seq<Node>, a: int, b: int)
    requires Reach(nodes, a, b) && |other| == |nodes| && forall i :: 0 <= i < |nodes| ==> other[i].next == nodes[i].next
    ensures Reach(other, a, b)
  {
    var k: nat :| Within(nodes, k, a, b);
    WithinSame(nodes, other, k, a, b);
  }

  // ---------- A key put into a node that holds no value ----------

  function PutAt(nodes: seq<Node>, m: nat, key: Key): seq<Node>
    requires m < |nodes|
  {
    nodes[m := nodes[m].(key := key)]
  }

  lemma PutReach(h: Hash, nodes: seq<Node>, m: nat, key: Key, i: int)
    requires m < |nodes| && Keyed(nodes, i) && Reach(nodes, Main(h, nodes, nodes[i].key), i)
    ensures Reach(PutAt(nodes, m, key), Main(h, nodes, nodes[i].key), i)
  {
    ReachSame(nodes, PutAt(nodes, m, key), Main(h, nodes, nodes[i].key), i);
  }

  lemma PutAtOk(h: Hash, nodes: seq<Node>, rank: seq<nat>, m: nat, key: Key)
    requires HashOk(h, nodes, rank) && key != NilKey && !Has(nodes, key) && m == Main(h, nodes, key) && nodes[m].val == Nil
    ensures HashOk(h, PutAt(nodes, m, key), rank)
  {
    var u := PutAt(nodes, m, key);
    assert Linked(u) && Ranked(u, rank) && Distinct(u) by { PutLinks(nodes, rank, m, key); }
    forall i | Keyed(u, i)
      ensures Reach(u, Main(h, u, u[i].key), i) && Owned(h, u, Main(h, u, u[i].key))
    {
      if i == m {
        ReachSelf(u, m);
      } else {
        assert Keyed(nodes, i);
        PutReach(h, nodes, m, key, i);
      }
    }
  }

  lemma PutLinks(nodes: seq<Node>, rank: seq<nat>, m: nat, key: Key)
    requires Ranked(nodes, rank) && Linked(nodes) && Distinct(nodes) && m < |nodes| && key != NilKey && !Has(nodes, key)
    ensures Ranked(PutAt(nodes, m, key), rank) && Linked(PutAt(nodes, m, key)) && Distinct(PutAt(nodes, m, key))
  {}

  // ---------- A key put into a free node behind its main position ----------

  function InsertAfter(nodes: seq<Node>, m: nat, n: nat, key: Key): seq<Node>
    requires m < |nodes| && n < |nodes|
  {
    nodes[n := Node(key, Nil, nodes[m].next)][m := nodes[m].(next := n)]
  }

  /** Room between m and what it linked to. */
  function InsertRank(rank: seq<nat>, m: nat, n: nat): seq<nat>
    requires m < |rank| && n < |rank|
  {
    seq(|rank|, i requires 0 <= i < |rank| => if i == n then 2 * rank[m] + 1 else 2 * rank[i])
  }

  lemma InsertLinks(nodes: seq<Node>, rank: seq<nat>, m: nat, n: nat, key: Key)
    requires Ranked(nodes, rank) && Linked(nodes) && Distinct(nodes) && Keyed(nodes, m) && n < |nodes| && nodes[n].key == NilKey
    requires key != NilKey && !Has(nodes, key)
    ensures Ranked(InsertAfter(nodes, m, n, key), InsertRank(rank, m, n))
    ensures Linked(InsertAfter(nodes, m, n, key)) && Distinct(InsertAfter(nodes, m, n, key))
  {
    var u := InsertAfter(nodes, m, n, key);
    assert forall i :: 0 <= i < |nodes| && i != n ==> u[i].key == nodes[i].key;
    assert forall i :: 0 <= i < |nodes| ==> nodes[i].next != n;
    InsertDistinct(nodes, m, n, key);
    hide Distinct;
    InsertLinked(nodes, m, n, key);
    hide Linked;
  }

  lemma InsertLinked(nodes: seq<Node>, m: nat, n: nat, key: Key)
    requires Linked(nodes) && Keyed(nodes, m) && n < |nodes| && nodes[n].key == NilKey && key != NilKey
    ensures Linked(InsertAfter(nodes, m, n, key))
  {
    var u := InsertAfter(nodes, m, n, key);
    assert forall i :: 0 <= i < |nodes| ==> nodes[i].next != n;
    assert forall i :: 0 <= i < |nodes| && i != n ==> u[i].key == nodes[i].key && (i != m ==> u[i] == nodes[i]);
  }

  lemma InsertDistinct(nodes: seq<Node>, m: nat, n: nat, key: Key)
    requires Distinct(nodes) && m < |nodes| && n < |nodes| && key != NilKey && !Has(nodes, key)
    ensures Distinct(InsertAfter(nodes, m, n, key))
  {
    var u := InsertAfter(nodes, m, n, key);
    assert forall i :: 0 <= i < |nodes| && i != n ==> u[i].key == nodes[i].key;
  }

  lemma {:induction false} InsertReach(nodes: seq<Node>, m: nat, n: nat, key: Key, k: nat, a: int, b: int)
    requires Linked(nodes) && Keyed(nodes, m) && n < |nodes| && nodes[n].key == NilKey
    requires Within(nodes, k, a, b) && a != n
    ensures Reach(InsertAfter(nodes, m, n, key), a, b)
    decreases k
  {
    var u := InsertAfter(nodes, m, n, key);
    if a == b {
      ReachSelf(u, a);
    } else {
      assert nodes[a].next != n;
      InsertReach(nodes, m, n, key, k - 1, nodes[a].next, b);
      if a == m {
        ReachNext(u, n, b);
      }
      ReachNext(u, a, b);
    }
  }

  lemma InsertAfterOk(h: Hash, nodes: seq<Node>, rank: seq<nat>, m: nat, n: nat, key: Key)
    requires HashOk(h, nodes, rank) && key != NilKey && !Has(nodes, key) && m == Main(h, nodes, key) && Owned(h, nodes, m)
    requires n < |nodes| && nodes[n].key == NilKey
    ensures HashOk(h, InsertAfter(nodes, m, n, key), InsertRank(rank, m, n))
  {
    var u := InsertAfter(nodes, m, n, key);
    InsertLinks(nodes, rank, m, n, key);
    hide Ranked, Linked, Distinct;
    forall i | Keyed(u, i)
      ensures Reach(u, Main(h, u, u[i].key), i) && Owned(h, u, Main(h, u, u[i].key))
    {
      if i == n {
        ReachSelf(u, n);
        ReachNext(u, m, n);
      } else {
        assert Keyed(nodes, i);
        var a := Main(h, nodes, nodes[i].key);
        assert Owned(h, nodes, a);
        var k: nat :| Within(nodes, k, a, i);
        InsertReach(nodes, m, n, key, k, a, i);
      }
    }
  }

  // ---------- A foreign key moved out of the main position ----------

  function MoveAway(nodes: seq<Node>, m: nat, n: nat, p: nat, key: Key): seq<Node>
    requires m < |nodes| && n < |nodes| && p < |nodes|
  {
    nodes[p := nodes[p].(next := n)][n := nodes[m]][m := Node(key, Nil, NULL)]
  }

  function MoveRank(rank: seq<nat>, m: nat, n: nat): seq<nat>
    requires m < |rank| && n < |rank|
  {
    rank[n := rank[m]]
  }

  /** The node is linked by p, and holds a key whose main position is another. */
  ghost predicate MoveReady(nodes: seq<Node>, m: nat, n: nat, p: nat) {
    && Linked(nodes) && Keyed(nodes, m) && n < |nodes| && nodes[n].key == NilKey
    && p < |nodes| && nodes[p].next == m && p != m && p != n
  }

  lemma MoveFacts(nodes: seq<Node>, m: nat, n: nat, p: nat, key: Key)
    requires MoveReady(nodes, m, n, p)
    ensures var u := MoveAway(nodes, m, n, p, key);
      && |u| == |nodes| && u[p] == nodes[p].(next := n) && u[n] == nodes[m] && u[m] == Node(key, Nil, NULL) && m != n
      && forall i :: 0 <= i < |nodes| && i != p && i != n && i != m ==> u[i] == nodes[i]
    ensures forall i :: 0 <= i < |nodes| ==> nodes[i].next != n && (i != p ==> nodes[i].next != m)
  {}

  lemma MoveRanked(nodes: seq<Node>, rank: seq<nat>, m: nat, n: nat, p: nat, key: Key)
    requires Ranked(nodes, rank) && MoveReady(nodes, m, n, p)
    ensures Ranked(MoveAway(nodes, m, n, p, key), MoveRank(rank, m, n))
  {
    MoveFacts(nodes, m, n, p, key);
    var u := MoveAway(nodes, m, n, p, key);
    hide Linked, MoveAway;
    forall i | 0 <= i < |u| && u[i].next != NULL
      ensures 0 <= u[i].next < |u| && MoveRank(rank, m, n)[i] < MoveRank(rank, m, n)[u[i].next]
    {
      if i == n {
        assert nodes[m].next != m;
      }
    }
  }

  lemma MoveLinked(nodes: seq<Node>, m: nat, n: nat, p: nat, key: Key)
    requires MoveReady(nodes, m, n, p) && key != NilKey
    ensures Linked(MoveAway(nodes, m, n, p, key))
  {
    MoveFacts(nodes, m, n, p, key);
    var u := MoveAway(nodes, m, n, p, key);
    hide MoveAway;
    forall i, j | 0 <= i < j < |u| && u[i].next != NULL
      ensures u[i].next != u[j].next
    {
      assert u[i].next == if i == p then n else if i == n then nodes[m].next else nodes[i].next;
    }
  }

  lemma MoveDistinct(nodes: seq<Node>, m: nat, n: nat, p: nat, key: Key)
    requires Distinct(nodes) && MoveReady(nodes, m, n, p) && !Has(nodes, key)
    ensures Distinct(MoveAway(nodes, m, n, p, key))
  {
    MoveFacts(nodes, m, n, p, key);
    var u := MoveAway(nodes, m, n, p, key);
    hide MoveAway, Linked;
    forall i | 0 <= i < |u| && i != m && Keyed(u, i)
      ensures Keyed(nodes, if i == n then m else i) && u[i].key == nodes[if i == n then m else i].key && u[i].key != key
    {}
  }

  lemma MoveLinks(nodes: seq<Node>, rank: seq<nat>, m: nat, n: nat, p: nat, key: Key)
    requires Ranked(nodes, rank) && Distinct(nodes) && MoveReady(nodes, m, n, p) && key != NilKey && !Has(nodes, key)
    ensures Ranked(MoveAway(nodes, m, n, p, key), MoveRank(rank, m, n))
    ensures Linked(MoveAway(nodes, m, n, p, key)) && Distinct(MoveAway(nodes, m, n, p, key))
  {
    MoveRanked(nodes, rank, m, n, p, key);
    MoveLinked(nodes, m, n, p, key);
    MoveDistinct(nodes, m, n, p, key);
  }

  /** Where a node is after the move. */
  function Moved(m: nat, n: nat, i: int): int { if i == m then n else i }

  lemma {:induction false} MoveReach(nodes: seq<Node>, m: nat, n: nat, p: nat, key: Key, k: nat, a: int, b: int)
    requires MoveReady(nodes, m, n, p) && Within(nodes, k, a, b) && a != n
    ensures Reach(MoveAway(nodes, m, n, p, key), Moved(m, n, a), Moved(m, n, b))
    decreases k
  {
    var u := MoveAway(nodes, m, n, p, key);
    var c := Moved(m, n, a);
    if a == b {
      ReachSelf(u, c);
    } else {
      assert nodes[a].next != n;
      MoveReach(nodes, m, n, p, key, k - 1, nodes[a].next, b);
      assert u[c].next == Moved(m, n, nodes[a].next);
      ReachNext(u, c, Moved(m, n, b));
    }
  }

  lemma MoveAwayOk(h: Hash, nodes: seq<Node>, rank: seq<nat>, m: nat, n: nat, p: nat, key: Key)
    requires HashOk(h, nodes, rank) && key != NilKey && !Has(nodes, key) && m == Main(h, nodes, key)
    requires MoveReady(nodes, m, n, p) && !Owned(h, nodes, m)
    ensures HashOk(h, MoveAway(nodes, m, n, p, key), MoveRank(rank, m, n))
  {
    var u := MoveAway(nodes, m, n, p, key);
    MoveLinks(nodes, rank, m, n, p, key);
    hide Ranked, Linked, Distinct;
    forall i | Keyed(u, i)
      ensures Reach(u, Main(h, u, u[i].key), i) && Owned(h, u, Main(h, u, u[i].key))
    {
      if i == m {
        ReachSelf(u, m);
      } else {
        var j := if i == n then m else i;
        assert Keyed(nodes, j) && u[i].key == nodes[j].key;
        var a := Main(h, nodes, nodes[j].key);
        assert Owned(h, nodes, a) && a != m && a != n;
        var k: nat :| Within(nodes, k, a, j);
        MoveReach(nodes, m, n, p, key, k, a, j);
        assert u[a].key == nodes[a].key;
      }
    }
  }

  // ---------- What stays ----------

  ghost function KeySet(nodes: seq<Node>): set<Key> {
    set i | 0 <= i < |nodes| && Keyed(nodes, i) :: nodes[i].key
  }

  /** The values of the nodes depend on the keys that have one. */
  lemma AtSame(nodes: seq<Node>, other: seq<Node>, k: Key)
    requires Distinct(nodes) && Distinct(other)
    requires forall i :: Keyed(nodes, i) && nodes[i].key == k && nodes[i].val != Nil ==> Holds(other, k, nodes[i].val)
    requires forall i :: Keyed(other, i) && other[i].key == k && other[i].val != Nil ==> Holds(nodes, k, other[i].val)
    ensures At(other, k) == At(nodes, k)
  {
    if Has(nodes, k) {
      var i :| Keyed(nodes, i) && nodes[i].key == k;
      AtIs(nodes, i);
    }
    if Has(other, k) {
      var i :| Keyed(other, i) && other[i].key == k;
      AtIs(other, i);
    }
  }

  lemma HoldsAt(nodes: seq<Node>, i: int)
    requires Keyed(nodes, i)
    ensures Holds(nodes, nodes[i].key, nodes[i].val)
  {}

  lemma PutKeeps(nodes: seq<Node>, m: nat, key: Key)
    requires m < |nodes| && key != NilKey && nodes[m].val == Nil && !Has(nodes, key)
    requires Distinct(nodes) && Distinct(PutAt(nodes, m, key))
    ensures forall k :: At(PutAt(nodes, m, key), k) == At(nodes, k)
    ensures KeySet(PutAt(nodes, m, key)) <= KeySet(nodes) + {key}
  {
    var u := PutAt(nodes, m, key);
    forall k
      ensures At(u, k) == At(nodes, k)
    {
      forall i | Keyed(nodes, i) && nodes[i].key == k && nodes[i].val != Nil
        ensures Holds(u, k, nodes[i].val)
      {
        HoldsAt(u, i);
      }
      forall i | Keyed(u, i) && u[i].key == k && u[i].val != Nil
        ensures Holds(nodes, k, u[i].val)
      {
        HoldsAt(nodes, i);
      }
      AtSame(nodes, u, k);
    }
    forall x | x in KeySet(u)
      ensures x in KeySet(nodes) + {key}
    {
      var i :| 0 <= i < |u| && Keyed(u, i) && u[i].key == x;
      assert i != m ==> Keyed(nodes, i) && nodes[i].key == x;
    }
  }

  lemma InsertKeeps(nodes: seq<Node>, m: nat, n: nat, key: Key)
    requires Keyed(nodes, m) && n < |nodes| && nodes[n].key == NilKey && key != NilKey && !Has(nodes, key)
    requires Distinct(nodes) && Distinct(InsertAfter(nodes, m, n, key))
    ensures forall k :: At(InsertAfter(nodes, m, n, key), k) == At(nodes, k)
    ensures KeySet(InsertAfter(nodes, m, n, key)) <= KeySet(nodes) + {key}
  {
    var u := InsertAfter(nodes, m, n, key);
    assert forall i :: 0 <= i < |nodes| && i != n ==> u[i].key == nodes[i].key && u[i].val == nodes[i].val;
    assert u[n].key == key && u[n].val == Nil;
    forall k
      ensures At(u, k) == At(nodes, k)
    {
      forall i | Keyed(nodes, i) && nodes[i].key == k && nodes[i].val != Nil
        ensures Holds(u, k, nodes[i].val)
      {
        HoldsAt(u, i);
      }
      forall i | Keyed(u, i) && u[i].key == k && u[i].val != Nil
        ensures Holds(nodes, k, u[i].val)
      {
        HoldsAt(nodes, i);
      }
      AtSame(nodes, u, k);
    }
    forall x | x in KeySet(u)
      ensures x in KeySet(nodes) + {key}
    {
      var i :| 0 <= i < |u| && Keyed(u, i) && u[i].key == x;
      assert i != n ==> Keyed(nodes, i) && nodes[i].key == x;
    }
  }

  lemma MoveKeeps(nodes: seq<Node>, m: nat, n: nat, p: nat, key: Key)
    requires MoveReady(nodes, m, n, p) && key != NilKey && !Has(nodes, key)
    requires Distinct(nodes) && Distinct(MoveAway(nodes, m, n, p, key))
    ensures forall k :: At(MoveAway(nodes, m, n, p, key), k) == At(nodes, k)
    ensures KeySet(MoveAway(nodes, m, n, p, key)) <= KeySet(nodes) + {key}
  {
    var u := MoveAway(nodes, m, n, p, key);
    MoveFacts(nodes, m, n, p, key);
    hide MoveAway, Linked;
    assert forall i :: 0 <= i < |nodes| && i != n && i != m ==> u[i].key == nodes[i].key && u[i].val == nodes[i].val;
    forall k
      ensures At(u, k) == At(nodes, k)
    {
      forall i | Keyed(nodes, i) && nodes[i].key == k && nodes[i].val != Nil
        ensures Holds(u, k, nodes[i].val)
      {
        HoldsAt(u, if i == m then n else i);
      }
      forall i | Keyed(u, i) && u[i].key == k && u[i].val != Nil
        ensures Holds(nodes, k, u[i].val)
      {
        HoldsAt(nodes, if i == n then m else i);
      }
      AtSame(nodes, u, k);
    }
    forall x | x in KeySet(u)
      ensures x in KeySet(nodes) + {key}
    {
      var i :| 0 <= i < |u| && Keyed(u, i) && u[i].key == x;
      assert i != m ==> Keyed(nodes, if i == n then m else i) && nodes[if i == n then m else i].key == x;
    }
  }

  // ---------- Room ----------

  lemma {:induction false} KeyCount(nodes: seq<Node>)
    requires Distinct(nodes) && forall i :: 0 <= i < |nodes| ==> Keyed(nodes, i)
    ensures |KeySet(nodes)| == |nodes|
    decreases |nodes|
  {
    if |nodes| > 0 {
      var n := |nodes| - 1;
      var front := nodes[..n];
      assert forall i :: 0 <= i < n ==> (Keyed(front, i) <==> Keyed(nodes, i));
      KeyCount(front);
      assert nodes[n].key !in KeySet(front);
      assert KeySet(nodes) == KeySet(front) + {nodes[n].key} by {
        forall x | x in KeySet(nodes)
          ensures x in KeySet(front) + {nodes[n].key}
        {
          var i :| 0 <= i < |nodes| && Keyed(nodes, i) && nodes[i].key == x;
          assert i < n ==> Keyed(front, i) && front[i].key == x;
        }
        assert forall i :: 0 <= i < n ==> front[i] == nodes[i];
        assert Keyed(nodes, n);
      }
    } else {
      assert KeySet(nodes) == {};
    }
  }

  /** Fewer keys than nodes leave a node free. */
  lemma SomeFree(nodes: seq<Node>, keys: set<Key>, key: Key)
    requires Distinct(nodes) && KeySet(nodes) <= keys && key in keys && key !in KeySet(nodes) && |keys| <= |nodes|
    ensures exists i :: 0 <= i < |nodes| && !Keyed(nodes, i)
  {
    if forall i :: 0 <= i < |nodes| ==> Keyed(nodes, i) {
      KeyCount(nodes);
      SubsetSize(KeySet(nodes), keys - {key});
    }
  }

  lemma {:induction false} SubsetSize<T>(a: set<T>, b: set<T>)
    requires a <= b
    ensures |a| <= |b|
    decreases a
  {
    if a != {} {
      var x :| x in a;
      SubsetSize(a - {x}, b - {x});
    }
  }
}
