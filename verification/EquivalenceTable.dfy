/** The union-find table of provisional labels: links go to smaller labels,
    one pass flattens them, another renumbers the roots without gaps. */
module EquivalenceTables {

  ghost predicate Descending(t: seq<int>) {
    forall k :: 0 <= k < |t| ==> 0 <= t[k] <= k && (k > 0 ==> t[k] > 0)
  }

  function Root(t: seq<int>, k: int): (r: int)
    requires Descending(t) && 0 <= k < |t|
    ensures 0 <= r <= k && t[r] == r
    decreases k
  {
    if t[k] == k then k else Root(t, t[k])
  }

  lemma {:induction false} RootPositive(t: seq<int>, k: int)
    requires Descending(t) && 0 < k < |t|
    ensures Root(t, k) > 0
    decreases k
  {
    if t[k] != k {
      RootPositive(t, t[k]);
    }
  }

  /** Linking the larger of two roots below the smaller merges their classes and no others. */
  lemma {:induction false} RootAfterLink(t: seq<int>, lo: int, hi: int, k: int)
    requires Descending(t) && 0 < lo <= hi < |t| && t[lo] == lo && t[hi] == hi && 0 <= k < |t|
    ensures Descending(t[hi := lo])
    ensures Root(t[hi := lo], k) == if Root(t, k) == hi then lo else Root(t, k)
    decreases k
  {
    var u := t[hi := lo];
    if k == hi {
      assert Root(u, lo) == lo;
    } else if t[k] != k {
      RootAfterLink(t, lo, hi, t[k]);
    }
  }

  lemma {:induction false} RootAfterAppend(t: seq<int>, k: int)
    requires Descending(t) && 0 <= k < |t|
    ensures Descending(t + [|t|]) && Root(t + [|t|], k) == Root(t, k)
    decreases k
  {
    if t[k] != k {
      RootAfterAppend(t, t[k]);
    }
  }

  /** Number of roots below i. */
  function Rank(t: seq<int>, i: int): (n: nat)
    requires 0 <= i <= |t|
    ensures n <= i
  {
    if i == 0 then 0 else Rank(t, i - 1) + (if t[i-1] == i - 1 then 1 else 0)
  }

  lemma {:induction false} RankGrows(t: seq<int>, i: int, j: int)
    requires 0 <= i < j <= |t|
    ensures Rank(t, i) + (if t[i] == i then 1 else 0) <= Rank(t, j)
    decreases j - i
  {
    if i + 1 < j {
      RankGrows(t, i, j - 1);
    }
  }

  /** Every number below the total is the rank of some root. */
  lemma {:induction false} RankHit(t: seq<int>, i: int, v: int) returns (r: int)
    requires 0 <= i <= |t| && 0 <= v < Rank(t, i)
    ensures 0 <= r < i && t[r] == r && Rank(t, r) == v
  {
    if t[i-1] == i - 1 && Rank(t, i - 1) == v {
      r := i - 1;
    } else {
      r := RankHit(t, i - 1, v);
    }
  }

  /** g numbers the classes of t by 0 .. count - 1, and class 0 is label 0 alone. */
  ghost predicate Numbers(t: seq<int>, g: seq<int>, count: nat)
    requires Descending(t)
  {
    && |g| == |t|
    && (forall k :: 0 <= k < |t| ==> 0 <= g[k] < count && (g[k] == 0 <==> k == 0))
    && (forall k, l :: 0 <= k < |t| && 0 <= l < |t| ==> (g[k] == g[l] <==> Root(t, k) == Root(t, l)))
    && (forall v :: 0 <= v < count ==> v in g)
  }

  /** Giving every label the rank of its root numbers the classes. */
  lemma RanksNumber(t: seq<int>, g: seq<int>)
    requires Descending(t) && |t| > 0 && |g| == |t|
    requires forall k :: 0 <= k < |t| ==> g[k] == Rank(t, Root(t, k))
    ensures Numbers(t, g, Rank(t, |t|))
  {
    var count := Rank(t, |t|);
    forall k | 0 <= k < |t|
      ensures 0 <= g[k] < count && (g[k] == 0 <==> k == 0)
    {
      RankGrows(t, Root(t, k), |t|);
      if k > 0 {
        RootPositive(t, k);
        RankGrows(t, 0, Root(t, k));
      }
    }
    forall k, l | 0 <= k < |t| && 0 <= l < |t|
      ensures g[k] == g[l] <==> Root(t, k) == Root(t, l)
    {
      if Root(t, k) < Root(t, l) {
        RankGrows(t, Root(t, k), Root(t, l));
      } else if Root(t, l) < Root(t, k) {
        RankGrows(t, Root(t, l), Root(t, k));
      }
    }
    forall v | 0 <= v < count
      ensures v in g
    {
      var r := RankHit(t, |t|, v);
      assert g[r] == v;
    }
  }

  class EquivalenceTable {
    var table: seq<int>
    var nLabel: int

    constructor ()
      ensures table == []
    {
      table := [];
      nLabel := 0;
    }

    method Clear()
      modifies this`table
      ensures table == []
    {
      table := [];
    }

    method EnsureAllocated(top: nat)
      modifies this`table
      ensures |table| == if top < |old(table)| then |old(table)| else top + 1
      ensures forall k :: 0 <= k < |table| ==> table[k] == if k < |old(table)| then old(table)[k] else k
    {
      var i := |table|;
      while i <= top
        invariant i == |table| && |old(table)| <= i
        invariant |old(table)| <= top ==> i <= top + 1
        invariant |old(table)| > top ==> i == |old(table)|
        invariant forall k :: 0 <= k < |table| ==> table[k] == if k < |old(table)| then old(table)[k] else k
      {
        table := table + [i];
        i := i + 1;
      }
    }

    /** Merges the classes of the two labels, the smaller root staying root. */
    method AddEquivalence(first: int, second: int)
      requires Descending(table) && 0 < first < |table| && 0 < second < |table|
      modifies this`table
      ensures Descending(table) && |table| == |old(table)|
      ensures forall k :: 0 <= k < |table| ==>
                var a, b := old(Root(table, first)), old(Root(table, second));
                Root(table, k) ==
                  if old(Root(table, k)) == a || old(Root(table, k)) == b then (if a < b then a else b)
                  else old(Root(table, k))
    {
      ghost var t := table;
      var label1, label2 := first, second;
      while label1 != table[label1]
        invariant 0 < label1 <= first && Root(t, label1) == Root(t, first)
        decreases label1
      {
        label1 := table[label1];
      }
      while label2 != table[label2]
        invariant 0 < label2 <= second && Root(t, label2) == Root(t, second)
        decreases label2
      {
        label2 := table[label2];
      }
      ghost var lo, hi := if label1 < label2 then label1 else label2, if label1 < label2 then label2 else label1;
      forall k | 0 <= k < |t|
        ensures Descending(t[hi := lo]) && Root(t[hi := lo], k) == if Root(t, k) == hi then lo else Root(t, k)
      {
        RootAfterLink(t, lo, hi, k);
      }
      if label1 < label2 {
        table := table[label2 := label1];
      } else {
        table := table[label1 := label2];
      }
    }

    /** One pass in increasing order sends every label straight to its root. */
    method TraverseLinks()
      requires Descending(table)
      modifies this`table
      ensures |table| == |old(table)|
      ensures forall k :: 0 <= k < |table| ==> table[k] == old(Root(table, k))
    {
      ghost var t := table;
      var i := 0;
      while i < |table|
        invariant 0 <= i <= |table| == |t|
        invariant forall k :: 0 <= k < i ==> table[k] == Root(t, k)
        invariant forall k :: i <= k < |t| ==> table[k] == t[k]
      {
        assert table[table[i]] == Root(t, t[i]);
        table := table[i := table[table[i]]];
        i := i + 1;
      }
    }

    /** Replaces every root by its rank among the roots and every other label by the
        number of its root; called on a flattened table. */
    method RemoveGaps(ghost t: seq<int>)
      requires Descending(t) && |t| == |table| > 0
      requires forall k :: 0 <= k < |table| ==> table[k] == Root(t, k)
      modifies this
      ensures nLabel >= 0 && Numbers(t, table, nLabel + 1)
    {
      var next := 0;
      var i := 0;
      while i < |table|
        invariant 0 <= i <= |table| == |t|
        invariant next == Rank(t, i)
        invariant forall k :: 0 <= k < i ==> table[k] == Rank(t, Root(t, k))
        invariant forall k :: i <= k < |t| ==> table[k] == Root(t, k)
      {
        var b := table[i];
        if i == b {
          table := table[i := next];
          next := next + 1;
        } else {
          assert Root(t, b) == b && b < i;
          table := table[i := table[b]];
        }
        i := i + 1;
      }
      RanksNumber(t, table);
      RankGrows(t, 0, |t|);
      nLabel := next - 1;
    }
  }
}
