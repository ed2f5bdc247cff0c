/** table.sort: quicksort in place, with the larger part done by iteration. */
module TableSort {
  import opened Powers

  /** An order function that makes sense: asymmetric, and "not less" is transitive. */
  ghost predicate StrictWeak<T(!new)>(less: (T, T) -> bool) {
    && (forall x, y :: less(x, y) ==> !less(y, x))
    && (forall x, y, z :: !less(x, y) && !less(y, z) ==> !less(x, z))
  }

  /** Positions p < q hold values in order. */
  predicate InOrder<T>(less: (T, T) -> bool, s: seq<T>, p: int, q: int)
    requires 0 <= p < |s| && 0 <= q < |s|
  {
    !less(s[q], s[p])
  }

  ghost predicate Sorted<T>(less: (T, T) -> bool, s: seq<T>, l: int, u: int)
    requires 0 <= l && u < |s|
  {
    forall p, q :: l <= p < q <= u ==> InOrder(less, s, p, q)
  }

  /** t is s with the values from l to u in another order. */
  ghost predicate Rearranged<T>(s: seq<T>, t: seq<T>, l: int, u: int) {
    && |t| == |s| && multiset(t) == multiset(s)
    && forall k :: 0 <= k < |s| && !(l <= k <= u) ==> t[k] == s[k]
  }

  predicate Both(l: int, u: int, p: int, q: int) { l <= p <= u && l <= q <= u }

  /** Within [l0..u0] all pairs are in order, except perhaps those inside [l..u] or inside [l1..u1]. */
  ghost predicate OrderedBut<T>(less: (T, T) -> bool, s: seq<T>, l0: int, u0: int, l: int, u: int, l1: int, u1: int)
    requires 0 <= l0 && u0 < |s|
  {
    forall p, q :: l0 <= p < q <= u0 && !Both(l, u, p, q) && !Both(l1, u1, p, q) ==> InOrder(less, s, p, q)
  }

  // ---------- Rearranging ----------

  lemma SwapRearranges<T>(s: seq<T>, i: int, j: int, l: int, u: int)
    requires 0 <= l <= i <= u < |s| && l <= j <= u
    ensures Rearranged(s, s[i := s[j]][j := s[i]], l, u)
  {}

  lemma RearrangedTwice<T>(s: seq<T>, t: seq<T>, v: seq<T>, l: int, u: int, l1: int, u1: int)
    requires Rearranged(s, t, l, u) && Rearranged(t, v, l1, u1) && l <= l1 && u1 <= u
    ensures Rearranged(s, v, l, u)
  {}

  lemma CountParts<T>(s: seq<T>, l: int, u: int, x: T)
    requires 0 <= l <= u < |s|
    ensures multiset(s)[x] == multiset(s[..l])[x] + multiset(s[l..u+1])[x] + multiset(s[u+1..])[x]
  {
    assert s == s[..l] + s[l..u+1] + s[u+1..];
  }

  /** What stands between l and u stood between l and u. */
  lemma ComesFrom<T>(s: seq<T>, t: seq<T>, l: int, u: int, k: int) returns (j: int)
    requires Rearranged(s, t, l, u) && 0 <= l <= k <= u < |s|
    ensures l <= j <= u && s[j] == t[k]
  {
    var x := t[k];
    CountParts(s, l, u, x);
    CountParts(t, l, u, x);
    assert t[..l] == s[..l] && t[u+1..] == s[u+1..];
    hide Rearranged;
    assert x == t[l..u+1][k - l];
    assert x in s[l..u+1];
    var i :| 0 <= i < |s[l..u+1]| && s[l..u+1][i] == x;
    j := l + i;
  }

  /** Putting one block in order leaves the pairs outside in order. */
  lemma BlockSorted<T>(less: (T, T) -> bool, s: seq<T>, t: seq<T>, l0: int, u0: int, l: int, u: int, l1: int, u1: int)
    requires 0 <= l0 <= l && u <= u0 < |s| && (u < l1 || u1 < l)
    requires OrderedBut(less, s, l0, u0, l, u, l1, u1) && Rearranged(s, t, l, u) && (l <= u ==> Sorted(less, t, l, u))
    ensures OrderedBut(less, t, l0, u0, l1, u1, l1, u1)
  {
    forall p, q | l0 <= p < q <= u0 && !Both(l1, u1, p, q)
      ensures InOrder(less, t, p, q)
    {
      if l <= p <= u && l <= q <= u {
        assert InOrder(less, t, p, q);
      } else if l <= p <= u {
        var j := ComesFrom(s, t, l, u, p);
        assert InOrder(less, s, j, q);
      } else if l <= q <= u {
        var j := ComesFrom(s, t, l, u, q);
        assert InOrder(less, s, p, j);
      } else {
        assert InOrder(less, s, p, q);
      }
    }
  }

  /** Position i splits [l..u]: nothing before it is greater, nothing behind it is less. */
  ghost predicate Split<T>(less: (T, T) -> bool, s: seq<T>, l: int, i: int, u: int)
    requires 0 <= l <= i <= u < |s|
  {
    (forall k :: l <= k < i ==> InOrder(less, s, k, i)) && forall k :: i < k <= u ==> InOrder(less, s, i, k)
  }

  /** Rearranging a block splits it into two with all pairs across in order. */
  lemma BlockSplit<T(!new)>(less: (T, T) -> bool, s: seq<T>, t: seq<T>, l0: int, u0: int, l: int, i: int, u: int)
    requires 0 <= l0 <= l <= i <= u <= u0 < |s| && StrictWeak(less)
    requires OrderedBut(less, s, l0, u0, l, u, l, u) && Rearranged(s, t, l, u) && Split(less, t, l, i, u)
    ensures OrderedBut(less, t, l0, u0, l, i - 1, i + 1, u)
  {
    forall p, q | l0 <= p < q <= u0 && !Both(l, i - 1, p, q) && !Both(i + 1, u, p, q)
      ensures InOrder(less, t, p, q)
    {
      if l <= p <= u && l <= q <= u {
        assert p < i ==> InOrder(less, t, p, i);
        assert i < q ==> InOrder(less, t, i, q);
      } else if l <= p <= u {
        var j := ComesFrom(s, t, l, u, p);
        assert InOrder(less, s, j, q);
      } else if l <= q <= u {
        var j := ComesFrom(s, t, l, u, q);
        assert InOrder(less, s, p, j);
      } else {
        assert InOrder(less, s, p, q);
      }
    }
  }

  // ---------- The algorithm ----------

  /** set2 after two reads: the two values change places. */
  method Swap<T>(a: array<T>, i: int, j: int, ghost l: int, ghost u: int)
    requires 0 <= l <= i <= u < a.Length && l <= j <= u
    modifies a
    ensures a[..] == old(a[..])[i := old(a[j])][j := old(a[i])] && Rearranged(old(a[..]), a[..], l, u)
    ensures a[i] == old(a[j]) && a[j] == old(a[i]) && forall k :: 0 <= k < a.Length && k != i && k != j ==> a[k] == old(a[k])
  {
    ghost var s := a[..];
    a[i], a[j] := a[j], a[i];
    assert a[..] == s[i := s[j]][j := s[i]];
    SwapRearranges(s, i, j, l, u);
  }

  lemma Asymmetric<T(!new)>(less: (T, T) -> bool, x: T, y: T)
    requires StrictWeak(less)
    ensures less(x, y) ==> !less(y, x)
  {}

  lemma Chained<T(!new)>(less: (T, T) -> bool, x: T, y: T, z: T)
    requires StrictWeak(less) && !less(x, y) && !less(y, z)
    ensures !less(x, z)
  {}

  lemma Same<T>(s: seq<T>, l: int, u: int)
    ensures Rearranged(s, s, l, u)
  {}

  /** First, middle and last value are put in order; two or three values are then sorted. */
  method SortThree<T(!new)>(less: (T, T) -> bool, a: array<T>, l: int, u: int) returns (i: int)
    requires 0 <= l < u < a.Length && StrictWeak(less)
    modifies a
    ensures i == (l + u) / 2 && Rearranged(old(a[..]), a[..], l, u)
    ensures !less(a[u], a[l]) && (u - l > 1 ==> !less(a[i], a[l]) && !less(a[u], a[i]))
  {
    ghost var s := a[..];
    Same(s, l, u);
    hide Rearranged, StrictWeak;
    i := (l + u) / 2;
    ghost var x, y := a[l], a[u];
    Asymmetric(less, x, y);
    Asymmetric(less, y, x);
    if less(a[u], a[l]) {
      Swap(a, l, u, l, u);
    }
    if u - l == 1 {
      return;
    }
    ghost var t := a[..];
    Asymmetric(less, a[i], a[l]);
    Asymmetric(less, a[u], a[i]);
    if less(a[i], a[l]) {
      Chained(less, a[u], a[l], a[i]);
      Swap(a, i, l, l, u);
      RearrangedTwice(s, t, a[..], l, u, l, u);
    } else if less(a[u], a[i]) {
      Swap(a, i, u, l, u);
      RearrangedTwice(s, t, a[..], l, u, l, u);
    }
  }

  /** The scan from the left ends before or at a value that is not less than the pivot. */
  method ScanUp<T>(less: (T, T) -> bool, a: array<T>, pivot: T, i0: int, ghost stop: int) returns (i: int)
    requires -1 <= i0 < stop < a.Length && !less(a[stop], pivot)
    ensures i0 < i <= stop && !less(a[i], pivot) && forall k :: i0 < k < i ==> less(a[k], pivot)
  {
    i := i0 + 1;
    while less(a[i], pivot)
      invariant i0 < i <= stop && forall k :: i0 < k < i ==> less(a[k], pivot)
      decreases stop - i
    {
      i := i + 1;
    }
  }

  method ScanDown<T>(less: (T, T) -> bool, a: array<T>, pivot: T, j0: int, ghost stop: int) returns (j: int)
    requires 0 <= stop < j0 <= a.Length && !less(pivot, a[stop])
    ensures stop <= j < j0 && !less(pivot, a[j]) && forall k :: j < k < j0 ==> less(pivot, a[k])
  {
    j := j0 - 1;
    while less(pivot, a[j])
      invariant stop <= j < j0 && forall k :: j < k < j0 ==> less(pivot, a[k])
      decreases j - stop
    {
      j := j - 1;
    }
  }

  ghost predicate NoneAbove<T>(less: (T, T) -> bool, s: seq<T>, pivot: T, l: int, i: int)
    requires 0 <= l && i <= |s|
  {
    forall k :: l <= k < i ==> !less(pivot, s[k])
  }

  ghost predicate NoneBelow<T>(less: (T, T) -> bool, s: seq<T>, pivot: T, j: int, u: int)
    requires -1 <= j && u < |s|
  {
    forall k :: j < k <= u ==> !less(s[k], pivot)
  }

  /** Parts the values around the one in front of the last. Both scans stay between l and u,
      so that the order function is never found to be invalid. */
  method Partition<T(!new)>(less: (T, T) -> bool, a: array<T>, l: int, u: int) returns (i: int)
    requires 0 <= l && l + 3 <= u < a.Length && StrictWeak(less)
    requires !less(a[u-1], a[l]) && !less(a[u], a[u-1])
    modifies a
    ensures l < i < u && Rearranged(old(a[..]), a[..], l, u) && Split(less, a[..], l, i, u)
  {
    ghost var s := a[..];
    Same(s, l, u);
    var pivot := a[u-1];
    Asymmetric(less, pivot, pivot);
    assert NoneAbove(less, s, pivot, l, l + 1) && NoneBelow(less, s, pivot, u - 2, u);
    hide Rearranged, StrictWeak, Split, NoneAbove, NoneBelow;
    i := l;
    var j := u - 1;
    while true
      invariant l <= i <= j <= u - 1 && (i < j || j <= u - 2) && (i == l ==> j == u - 1)
      invariant Rearranged(s, a[..], l, u) && a[u-1] == pivot
      invariant NoneAbove(less, a[..], pivot, l, i + 1) && NoneBelow(less, a[..], pivot, j - 1, u)
      decreases j - i + 1
    {
      var i0, j0 := i, j;
      Bounds(less, a[..], pivot, l, i0, j0, u);
      i := ScanUp(less, a, pivot, i0, if i0 < j0 then j0 else j0 + 1);
      j := ScanDown(less, a, pivot, j0, if i0 < j0 then i0 else i0 - 1);
      Scanned(less, a[..], pivot, l, i0, i, j, j0, u);
      if j < i {
        break;
      }
      Exchange(less, a, pivot, l, i, j, u, s);
    }
    PlacePivot(less, a, pivot, l, i, j, u, s);
  }

  /** The pivot goes between the parts. */
  method PlacePivot<T>(less: (T, T) -> bool, a: array<T>, ghost pivot: T, ghost l: int, i: int, ghost j: int, u: int, ghost s: seq<T>)
    requires 0 <= l < i < u < a.Length && l <= j < i && Rearranged(s, a[..], l, u) && a[u-1] == pivot
    requires NoneAbove(less, a[..], pivot, l, i) && NoneBelow(less, a[..], pivot, j, u)
    modifies a
    ensures Rearranged(s, a[..], l, u) && Split(less, a[..], l, i, u)
  {
    hide Rearranged, NoneAbove, NoneBelow, Split;
    ghost var t := a[..];
    Swap(a, u - 1, i, l, u);
    RearrangedTwice(s, t, a[..], l, u, l, u);
    PivotPlaced(less, t, pivot, l, i, j, u);
  }

  /** The two values found change sides. */
  method Exchange<T>(less: (T, T) -> bool, a: array<T>, ghost pivot: T, ghost l: int, i: int, j: int, ghost u: int, ghost s: seq<T>)
    requires 0 <= l < i <= j < u - 1 && u < a.Length && Rearranged(s, a[..], l, u)
    requires NoneAbove(less, a[..], pivot, l, i) && NoneBelow(less, a[..], pivot, j, u)
    requires !less(a[i], pivot) && !less(pivot, a[j])
    modifies a
    ensures NoneAbove(less, a[..], pivot, l, i + 1) && NoneBelow(less, a[..], pivot, j - 1, u)
    ensures Rearranged(s, a[..], l, u) && a[u-1] == old(a[u-1])
  {
    hide Rearranged, NoneAbove, NoneBelow;
    ghost var t := a[..];
    Swap(a, i, j, l, u);
    RearrangedTwice(s, t, a[..], l, u, l, u);
    Exchanged(less, t, pivot, l, i, j, u);
  }

  /** Neither scan runs past the values already on the other side. */
  lemma Bounds<T>(less: (T, T) -> bool, s: seq<T>, pivot: T, l: int, i: int, j: int, u: int)
    requires 0 <= l <= i <= j <= u - 1 && u < |s| && (i < j || j <= u - 2) && (i == l ==> i < j)
    requires NoneAbove(less, s, pivot, l, i + 1) && NoneBelow(less, s, pivot, j - 1, u)
    ensures !less(s[j], pivot) && !less(s[j+1], pivot) && !less(pivot, s[i]) && (i == j ==> !less(pivot, s[i-1]))
  {}

  lemma Exchanged<T>(less: (T, T) -> bool, s: seq<T>, pivot: T, l: int, i: int, j: int, u: int)
    requires 0 <= l < i <= j < u < |s| && NoneAbove(less, s, pivot, l, i) && NoneBelow(less, s, pivot, j, u)
    requires !less(s[i], pivot) && !less(pivot, s[j])
    ensures var t := s[i := s[j]][j := s[i]]; NoneAbove(less, t, pivot, l, i + 1) && NoneBelow(less, t, pivot, j - 1, u)
  {}

  lemma PivotPlaced<T>(less: (T, T) -> bool, s: seq<T>, pivot: T, l: int, i: int, j: int, u: int)
    requires 0 <= l < i < u < |s| && l <= j < i && NoneAbove(less, s, pivot, l, i) && NoneBelow(less, s, pivot, j, u)
    requires s[u-1] == pivot
    ensures Split(less, s[u - 1 := s[i]][i := pivot], l, i, u)
  {}

  lemma Scanned<T(!new)>(less: (T, T) -> bool, s: seq<T>, pivot: T, l: int, i0: int, i: int, j: int, j0: int, u: int)
    requires StrictWeak(less) && 0 <= l <= i0 < i <= u < |s| && 0 <= j < j0 <= u
    requires NoneAbove(less, s, pivot, l, i0 + 1) && NoneBelow(less, s, pivot, j0 - 1, u)
    requires forall k :: i0 < k < i ==> less(s[k], pivot)
    requires forall k :: j < k < j0 ==> less(pivot, s[k])
    ensures NoneAbove(less, s, pivot, l, i) && NoneBelow(less, s, pivot, j, u)
  {
    forall k | l <= k < i
      ensures !less(pivot, s[k])
    {
      Asymmetric(less, s[k], pivot);
    }
    forall k | j < k <= u
      ensures !less(s[k], pivot)
    {
      Asymmetric(less, pivot, s[k]);
    }
  }

  /** The middle value becomes the pivot and is moved in front of the last. */
  method Divide<T(!new)>(less: (T, T) -> bool, a: array<T>, l: int, u: int, m: int) returns (i: int)
    requires 0 <= l && l + 3 <= u < a.Length && StrictWeak(less) && m == (l + u) / 2
    requires !less(a[u], a[l]) && !less(a[m], a[l]) && !less(a[u], a[m])
    modifies a
    ensures l < i < u && Rearranged(old(a[..]), a[..], l, u) && Split(less, a[..], l, i, u)
  {
    hide Rearranged, Split, StrictWeak;
    ghost var s := a[..];
    Swap(a, m, u - 1, l, u);
    ghost var t := a[..];
    i := Partition(less, a, l, u);
    RearrangedTwice(s, t, a[..], l, u, l, u);
  }

  lemma AllOrdered<T>(less: (T, T) -> bool, s: seq<T>, l0: int, u0: int, l: int, u: int)
    requires 0 <= l0 && u0 < |s| && OrderedBut(less, s, l0, u0, l, u, l, u) && l >= u
    ensures Sorted(less, s, l0, u0)
  {}

  lemma OtherOrder<T>(less: (T, T) -> bool, s: seq<T>, l0: int, u0: int, l: int, u: int, l1: int, u1: int)
    requires 0 <= l0 && u0 < |s| && OrderedBut(less, s, l0, u0, l, u, l1, u1)
    ensures OrderedBut(less, s, l0, u0, l1, u1, l, u)
  {}

  lemma Start<T>(less: (T, T) -> bool, s: seq<T>, l: int, u: int)
    requires 0 <= l && u < |s|
    ensures OrderedBut(less, s, l, u, l, u, l, u) && Rearranged(s, s, l, u)
  {}

  /** Two or three values in order. */
  lemma SmallSorted<T(!new)>(less: (T, T) -> bool, s: seq<T>, t: seq<T>, l0: int, u0: int, l: int, u: int)
    requires 0 <= l0 <= l < u <= l + 2 && u <= u0 < |s| && StrictWeak(less)
    requires OrderedBut(less, s, l0, u0, l, u, l, u) && Rearranged(s, t, l, u) && InOrder(less, t, l, u)
    requires u == l + 2 ==> InOrder(less, t, l, l + 1) && InOrder(less, t, l + 1, u)
    ensures Sorted(less, t, l0, u0)
  {
    assert Sorted(less, t, l, u);
    assert OrderedBut(less, s, l0, u0, l, u, u + 1, u);
    BlockSorted(less, s, t, l0, u0, l, u, u + 1, u);
    AllOrdered(less, t, l0, u0, u + 1, u);
  }

  /** A call for the smaller part adds one level. */
  lemma OneDeeper(d: nat, n: int, l: int, i: int, u: int, size: int)
    requires l < i < u && l + 3 <= u < l + n && 2 * size <= u - l && Pow2(d) <= if size > 0 then size else 1
    ensures Pow2(d + 1) <= n
  {}

  /** auxsort: of the two parts the smaller one is sorted by a call, so that calls nest
      at most log2 of the length deep. */
  method AuxSort<T(!new)>(less: (T, T) -> bool, a: array<T>, l0: int, u0: int) returns (ghost depth: nat)
    requires 0 <= l0 <= u0 + 1 <= a.Length && StrictWeak(less)
    modifies a
    ensures Rearranged(old(a[..]), a[..], l0, u0) && Sorted(less, a[..], l0, u0)
    ensures Pow2(depth) <= if l0 < u0 then u0 - l0 + 1 else 1
    decreases u0 - l0
  {
    hide Rearranged, Split, OrderedBut, StrictWeak, Sorted, Pow2;
    ghost var s := a[..];
    PowZero();
    depth := 0;
    var l, u := l0, u0;
    Start(less, s, l0, u0);
    while l < u
      invariant l0 <= l <= u + 1 && u <= u0
      invariant Rearranged(s, a[..], l0, u0) && OrderedBut(less, a[..], l0, u0, l, u, l, u)
      invariant Pow2(depth) <= if l0 < u0 then u0 - l0 + 1 else 1
      decreases u - l
    {
      ghost var t := a[..];
      var m := SortThree(less, a, l, u);
      ghost var w := a[..];
      RearrangedTwice(s, t, w, l0, u0, l, u);
      if u - l <= 2 {
        SmallSorted(less, t, w, l0, u0, l, u);
        return;
      }
      var i := Divide(less, a, l, u, m);
      ghost var v := a[..];
      RearrangedTwice(t, w, v, l, u, l, u);
      RearrangedTwice(s, t, v, l0, u0, l, u);
      BlockSplit(less, t, v, l0, u0, l, i, u);
      ghost var d;
      if i - l < u - i {
        d := AuxSort(less, a, l, i - 1);
        RearrangedTwice(s, v, a[..], l0, u0, l, i - 1);
        BlockSorted(less, v, a[..], l0, u0, l, i - 1, i + 1, u);
        OneDeeper(d, u0 - l0 + 1, l, i, u, i - l);
        l := i + 1;
      } else {
        d := AuxSort(less, a, i + 1, u);
        RearrangedTwice(s, v, a[..], l0, u0, i + 1, u);
        OtherOrder(less, v, l0, u0, l, i - 1, i + 1, u);
        BlockSorted(less, v, a[..], l0, u0, i + 1, u, l, i - 1);
        OneDeeper(d, u0 - l0 + 1, l, i, u, u - i);
        u := i - 1;
      }
      depth := if d >= depth then d + 1 else depth;
    }
    AllOrdered(less, a[..], l0, u0, l, u);
  }

  lemma PowZero()
    ensures Pow2(0) == 1
  {}

  /** table.sort: the whole array, with the numbering from zero. */
  method Sort<T(!new)>(less: (T, T) -> bool, a: array<T>) returns (ghost depth: nat)
    requires StrictWeak(less)
    modifies a
    ensures Sorted(less, a[..], 0, a.Length - 1) && multiset(a[..]) == multiset(old(a[..]))
    ensures Pow2(depth) <= if a.Length > 0 then a.Length else 1
  {
    depth := AuxSort(less, a, 0, a.Length - 1);
  }
}
