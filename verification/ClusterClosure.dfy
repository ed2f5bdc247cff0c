/** Growing a group of colour clusters over the relation between them: 1 means they belong
    together, 2 that they cannot, 0 neither. */
module ClusterClosure {

  const TOGETHER := 1
  const APART := 2
  const MERGED := 3

  /** A relation table: each cluster belongs to itself, and the table is symmetric. */
  ghost predicate Relation(rel: seq<seq<int>>) {
    && (forall i :: 0 <= i < |rel| ==> |rel[i]| == |rel| && rel[i][i] == TOGETHER)
    && (forall i, j :: 0 <= i < |rel| && 0 <= j < |rel| ==> 0 <= rel[i][j] <= 2)
    && (forall i, j :: 0 <= i < |rel| && 0 <= j < |rel| ==> rel[i][j] == rel[j][i])
  }

  ghost predicate Path(rel: seq<seq<int>>, p: seq<int>) {
    && (forall t :: 0 <= t < |p| ==> 0 <= p[t] < |rel| && |rel[p[t]]| == |rel|)
    && forall t, u :: 0 <= t < u < |p| && u == t + 1 ==> rel[p[t]][p[u]] == TOGETHER
  }

  /** A chain of clusters that belong together leads from i to j. */
  ghost predicate Linked(rel: seq<seq<int>>, i: int, j: int) {
    exists p :: |p| > 0 && Path(rel, p) && p[0] == i && p[|p|-1] == j
  }

  lemma LinkedSelf(rel: seq<seq<int>>, i: int)
    requires Relation(rel) && 0 <= i < |rel|
    ensures Linked(rel, i, i)
  {
    assert Path(rel, [i]);
    assert [i][0] == i;
  }

  lemma LinkedNext(rel: seq<seq<int>>, i: int, j: int, k: int)
    requires Relation(rel) && Linked(rel, i, j) && 0 <= j < |rel| && 0 <= k < |rel| && rel[j][k] == TOGETHER
    ensures Linked(rel, i, k)
  {
    var p :| |p| > 0 && Path(rel, p) && p[0] == i && p[|p|-1] == j;
    var q := p + [k];
    assert Path(rel, q);
    assert q[0] == i && q[|q|-1] == k;
  }

  /** The group of cluster i: only clusters linked to it, no two of them apart; taken out is
      exactly what is apart from one of them; nothing that belongs to one is left undecided. */
  ghost predicate Group(rel: seq<seq<int>>, i: int, r: seq<int>)
    requires Relation(rel)
  {
    && |r| == |rel|
    && (forall x :: 0 <= x < |r| ==> r[x] == 0 || r[x] == APART || r[x] == MERGED)
    && 0 <= i < |r| && r[i] == MERGED
    && (forall x :: 0 <= x < |r| && r[x] == MERGED ==> Linked(rel, i, x))
    && (forall y :: 0 <= y < |r| ==> (r[y] == APART <==> exists x :: 0 <= x < |r| && r[x] == MERGED && rel[x][y] == APART))
    && (forall x, y :: 0 <= x < |r| && 0 <= y < |r| && r[x] == r[y] == MERGED ==> rel[x][y] != APART)
    && (forall x, y :: 0 <= x < |r| && 0 <= y < |r| && r[x] == MERGED && rel[x][y] == TOGETHER ==> r[y] != 0)
  }

  /** One row: the clusters apart from j are taken out, those together with it come next. */
  method Row(target: seq<int>, c0: seq<int>, n0: seq<int>, running0: bool) returns (c: seq<int>, n: seq<int>, running: bool)
    requires |target| == |c0| == |n0|
    ensures |c| == |n| == |c0|
    ensures forall x :: 0 <= x < |c| ==> c[x] == if target[x] == APART then APART else c0[x]
    ensures forall x :: 0 <= x < |n| ==> n[x] == if target[x] == APART then APART else if target[x] != 0 && c0[x] == 0 then target[x] else n0[x]
    ensures running <==> running0 || exists x :: 0 <= x < |target| && target[x] != 0 && target[x] != APART && c0[x] == 0
  {
    c, n, running := c0, n0, running0;
    var k := 0;
    while k < |target|
      invariant 0 <= k <= |target| && |c| == |n| == |c0|
      invariant forall x :: 0 <= x < |c| ==> c[x] == if x < k && target[x] == APART then APART else c0[x]
      invariant forall x :: 0 <= x < |n| ==>
        n[x] == if x < k && target[x] == APART then APART else if x < k && target[x] != 0 && c0[x] == 0 then target[x] else n0[x]
      invariant running <==> running0 || exists x :: 0 <= x < k && target[x] != 0 && target[x] != APART && c0[x] == 0
    {
      if target[k] != 0 {
        if target[k] == APART {
          c := c[k := target[k]];
          n := n[k := target[k]];
        } else if c[k] == 0 {
          n := n[k := target[k]];
          running := true;
        }
      }
      k := k + 1;
    }
  }

  // ---------- What holds while the group grows ----------

  /** Entries of the two vectors: the next one may have more to do. */
  ghost predicate Steps(c: seq<int>, n: seq<int>) {
    && |c| == |n|
    && (forall x :: 0 <= x < |c| ==> 0 <= c[x] <= MERGED)
    && (forall x :: 0 <= x < |c| ==> n[x] == c[x] || (c[x] == 0 && n[x] == TOGETHER))
  }

  /** done are the clusters whose rows have been used. */
  ghost predicate Used(rel: seq<seq<int>>, i: int, c: seq<int>, n: seq<int>, done: set<int>)
    requires Relation(rel) && |c| == |n| == |rel|
  {
    && (forall x :: x in done ==> 0 <= x < |rel| && c[x] == MERGED)
    && (forall y :: 0 <= y < |c| && c[y] == APART ==> exists x :: x in done && 0 <= x < |rel| && rel[x][y] == APART)
    && (forall x :: 0 <= x < |c| && c[x] == MERGED ==> x in done)
    && (forall x, y :: x in done && 0 <= y < |rel| && rel[x][y] == APART ==> c[y] == APART)
    && (forall x, y :: x in done && 0 <= y < |rel| && rel[x][y] == TOGETHER ==> n[y] != 0)
    && (forall x :: 0 <= x < |n| && (n[x] == TOGETHER || n[x] == MERGED) ==> Linked(rel, i, x))
  }

  lemma RowUsed(rel: seq<seq<int>>, i: int, c0: seq<int>, n0: seq<int>, done: set<int>, j: int, c: seq<int>, n: seq<int>)
    requires Relation(rel) && |c0| == |n0| == |c| == |n| == |rel| && Steps(c0, n0) && Used(rel, i, c0, n0, done)
    requires 0 <= j < |rel| && c0[j] == TOGETHER
    requires forall x :: 0 <= x < |c| ==> c[x] == if rel[j][x] == APART then APART else c0[x]
    requires forall x :: 0 <= x < |n| ==> n[x] == if rel[j][x] == APART then APART else if rel[j][x] != 0 && c0[x] == 0 then rel[j][x] else n0[x]
    ensures Steps(c[j := MERGED], n[j := MERGED]) && Used(rel, i, c[j := MERGED], n[j := MERGED], done + {j})
  {
    assert rel[j][j] == TOGETHER && c[j] == TOGETHER && j !in done;
    assert forall x :: x in done ==> rel[j][x] == rel[x][j] != APART;
    forall x | 0 <= x < |n| && n[x] == TOGETHER && x != j
      ensures Linked(rel, i, x)
    {
      if n0[x] != TOGETHER {
        LinkedNext(rel, i, j, x);
      }
    }
    hide Linked;
  }

  ghost predicate NoneTogether(c: seq<int>, j: int) { forall x :: 0 <= x < j && x < |c| ==> c[x] != TOGETHER }

  ghost function Zeros(c: seq<int>): set<int> { set x | 0 <= x < |c| && c[x] == 0 }

  /** Between the start of a pass and now: entries that were not zero still are not. */
  ghost predicate Passed(c0: seq<int>, c: seq<int>, n: seq<int>, running: bool) {
    && |c| == |n| == |c0|
    && (forall x :: 0 <= x < |c| && c0[x] != 0 ==> c[x] != 0)
    && (running ==> exists x :: 0 <= x < |c0| && c0[x] == 0 && n[x] != 0)
    && (!running ==> n == c)
  }

  lemma RowPassed(rel: seq<seq<int>>, start: seq<int>, c0: seq<int>, n0: seq<int>, running0: bool, j: int, c: seq<int>, n: seq<int>, running: bool)
    requires Relation(rel) && |c0| == |n0| == |c| == |n| == |rel| && Passed(start, c0, n0, running0) && 0 <= j < |rel|
    requires Steps(c0, n0) && c0[j] == TOGETHER
    requires forall x :: 0 <= x < |c| ==> c[x] == if rel[j][x] == APART then APART else c0[x]
    requires forall x :: 0 <= x < |n| ==> n[x] == if rel[j][x] == APART then APART else if rel[j][x] != 0 && c0[x] == 0 then rel[j][x] else n0[x]
    requires running <==> running0 || exists x :: 0 <= x < |rel[j]| && rel[j][x] != 0 && rel[j][x] != APART && c0[x] == 0
    ensures Passed(start, c[j := MERGED], n[j := MERGED], running)
  {
    var c1, n1 := c[j := MERGED], n[j := MERGED];
    if running {
      if running0 {
        var x :| 0 <= x < |start| && start[x] == 0 && n0[x] != 0;
        assert n1[x] != 0;
      } else {
        var x :| 0 <= x < |rel[j]| && rel[j][x] != 0 && rel[j][x] != APART && c0[x] == 0;
        assert start[x] == 0 && n1[x] != 0;
      }
    } else {
      assert n1 == c1;
    }
  }

  /** One pass over all clusters that are next. */
  method Pass(rel: seq<seq<int>>, ghost i: int, start: seq<int>, ghost done0: set<int>) returns (n: seq<int>, running: bool, ghost done: set<int>)
    requires Relation(rel) && |start| == |rel| && Steps(start, start) && Used(rel, i, start, start, done0)
    ensures |n| == |rel| && Steps(n, n) && Used(rel, i, n, n, done) && done0 <= done
    ensures running ==> Zeros(n) < Zeros(start)
    ensures !running ==> Zeros(n) <= Zeros(start) && NoneTogether(n, |n|)
  {
    hide Relation, Steps, Used, Passed;
    var c := start;
    n, running, done := start, false, done0;
    PassBegins(start);
    var j := 0;
    while j < |rel|
      invariant 0 <= j <= |rel| && |c| == |n| == |rel| && done0 <= done
      invariant Steps(c, n) && Used(rel, i, c, n, done) && NoneTogether(c, j) && Passed(start, c, n, running)
    {
      if c[j] == TOGETHER {
        ghost var c0, n0, running0 := c, n, running;
        RowLength(rel, j);
        c, n, running := Row(rel[j], c, n, running);
        RowUsed(rel, i, c0, n0, done, j, c, n);
        RowPassed(rel, start, c0, n0, running0, j, c, n, running);
        c := c[j := MERGED];
        n := n[j := MERGED];
        done := done + {j};
      }
      j := j + 1;
    }
    PassEnds(rel, i, start, c, n, running, done);
  }

  lemma RowLength(rel: seq<seq<int>>, j: int)
    requires Relation(rel) && 0 <= j < |rel|
    ensures |rel[j]| == |rel|
  {}

  lemma PassBegins(c: seq<int>)
    ensures Passed(c, c, c, false)
  {}

  lemma PassEnds(rel: seq<seq<int>>, i: int, start: seq<int>, c: seq<int>, n: seq<int>, running: bool, done: set<int>)
    requires Relation(rel) && |start| == |c| == |n| == |rel| && Steps(c, n) && Used(rel, i, c, n, done)
    requires NoneTogether(c, |c|) && Passed(start, c, n, running)
    ensures Steps(n, n) && Used(rel, i, n, n, done)
    ensures running ==> Zeros(n) < Zeros(start)
    ensures !running ==> Zeros(n) <= Zeros(start) && NoneTogether(n, |n|)
  {
    assert Zeros(n) <= Zeros(start);
    if running {
      var x :| 0 <= x < |start| && start[x] == 0 && n[x] != 0;
      assert x in Zeros(start) && x !in Zeros(n);
    }
    hide Linked;
  }

  /** The loop over passes: it ends because every repeating pass leaves fewer zeros. */
  method Grow(rel: seq<seq<int>>, i: nat) returns (r: seq<int>)
    requires Relation(rel) && i < |rel|
    ensures Group(rel, i, r)
  {
    hide Steps, Used, Group;
    r := rel[i];
    GrowBegins(rel, i);
    r := r[i := MERGED];
    var running := true;
    ghost var done := {i};
    while running
      invariant |r| == |rel| && Steps(r, r) && Used(rel, i, r, r, done) && i in done
      invariant !running ==> NoneTogether(r, |r|)
      decreases Zeros(r), running
    {
      var n;
      n, running, done := Pass(rel, i, r, done);
      r := n;
    }
    GrowEnds(rel, i, r, done);
  }

  lemma GrowBegins(rel: seq<seq<int>>, i: nat)
    requires Relation(rel) && i < |rel|
    ensures |rel[i]| == |rel| && var r := rel[i][i := MERGED]; Steps(r, r) && Used(rel, i, r, r, {i})
  {
    LinkedSelf(rel, i);
    forall x | 0 <= x < |rel| && rel[i][x] == TOGETHER
      ensures Linked(rel, i, x)
    {
      LinkedNext(rel, i, i, x);
    }
    hide Linked;
  }

  lemma GrowEnds(rel: seq<seq<int>>, i: nat, r: seq<int>, done: set<int>)
    requires Relation(rel) && |r| == |rel| && Steps(r, r) && Used(rel, i, r, r, done) && NoneTogether(r, |r|) && i in done
    ensures Group(rel, i, r)
  {
    hide Linked;
  }
}
