/** Two-pass labelling of the connected regions of a masked image. */
module ConnectRegions {
  import opened PixelGraph
  import opened EquivalenceTables
  import opened RegionStatistics

  const NMAX := 256

  /** Row j of the image follows row j - 1; a pixel is foreground when the mask selects a bit of it. */
  function Index(m: nat, i: int, j: int): int { j * m + i }

  lemma IndexInside(m: nat, n: nat, i: int, j: int)
    requires 0 <= i < m && 0 <= j < n
    ensures 0 <= Index(m, i, j) < m * n
  {
    assert j * m + i < (j + 1) * m <= n * m;
  }

  ghost predicate On(image: seq<bv8>, m: nat, n: nat, mask: bv8, p: Pixel) {
    && 0 <= p.i < m && 0 <= p.j < n
    && 0 <= Index(m, p.i, p.j) < |image|
    && image[Index(m, p.i, p.j)] & mask != 0
  }

  ghost function Foreground(image: seq<bv8>, m: nat, n: nat, mask: bv8): set<Pixel> {
    set i, j | 0 <= i < m && 0 <= j < n && On(image, m, n, mask, Pixel(i, j)) :: Pixel(i, j)
  }

  // ---------- Invariants of the first pass ----------

  /** Pixels the scan has finished when it stands before (i, j). */
  ghost predicate Before(m: nat, n: nat, i: int, j: int, p: Pixel) {
    0 <= p.i < m && 0 <= p.j < n && (p.j < j || (p.j == j && p.i < i))
  }

  ghost predicate TableFits(t: seq<int>, next: int) {
    Descending(t) && next >= 1 && |t| == (if next == 1 then 2 else next)
  }

  ghost predicate Used(lab: map<Pixel, int>, v: int) {
    exists p :: p in lab && lab[p] == v
  }

  /** Finished pixels carry labels below next, zero exactly on the background. */
  ghost predicate LabelsFit(fg: set<Pixel>, lab: map<Pixel, int>, next: int) {
    && (forall p :: p in lab ==> 0 <= lab[p] < next && (lab[p] != 0 <==> p in fg))
    && (forall v :: 0 < v < next ==> Used(lab, v))
  }

  ghost predicate Same(t: seq<int>, lab: map<Pixel, int>, p: Pixel, q: Pixel)
    requires Descending(t) && p in lab && q in lab && 0 <= lab[p] < |t| && 0 <= lab[q] < |t|
  {
    Root(t, lab[p]) == Root(t, lab[q])
  }

  /** Equal roots only for joined pixels. */
  ghost predicate Sound(fg: set<Pixel>, n: int, t: seq<int>, lab: map<Pixel, int>, next: int)
    requires TableFits(t, next) && LabelsFit(fg, lab, next)
  {
    forall p, q :: p in lab && q in lab && p in fg && q in fg && Same(t, lab, p, q) ==> Connected(fg, n, p, q)
  }

  /** Equal roots across every link already seen. */
  ghost predicate Complete(fg: set<Pixel>, n: int, t: seq<int>, lab: map<Pixel, int>, next: int)
    requires TableFits(t, next) && LabelsFit(fg, lab, next)
  {
    forall p, q :: p in lab && q in lab && p in fg && q in fg && Earlier(n, p, q) ==> Same(t, lab, p, q)
  }

  ghost predicate ScanInv(fg: set<Pixel>, n: int, t: seq<int>, lab: map<Pixel, int>, next: int) {
    && TableFits(t, next) && LabelsFit(fg, lab, next)
    && Sound(fg, n, t, lab, next) && Complete(fg, n, t, lab, next)
  }

  /** The effect of merging the classes of labels a and b on all roots. */
  ghost predicate Merged(t: seq<int>, u: seq<int>, a: int, b: int)
    requires Descending(t) && 0 <= a < |t| && 0 <= b < |t|
  {
    && Descending(u) && |u| == |t|
    && forall k :: 0 <= k < |t| ==>
         var ra, rb := Root(t, a), Root(t, b);
         Root(u, k) == if Root(t, k) == ra || Root(t, k) == rb then (if ra < rb then ra else rb) else Root(t, k)
  }

  /** Merging the labels of two joined pixels keeps the invariant. */
  lemma MergeKeeps(fg: set<Pixel>, n: int, t: seq<int>, u: seq<int>, lab: map<Pixel, int>, next: int, a: Pixel, b: Pixel)
    requires ScanInv(fg, n, t, lab, next)
    requires a in lab && b in lab && a in fg && b in fg && Connected(fg, n, a, b)
    requires Merged(t, u, lab[a], lab[b])
    ensures ScanInv(fg, n, u, lab, next)
  {
    ConnectedSym(fg, n, a, b);
    forall p, q | p in lab && q in lab && p in fg && q in fg && Same(u, lab, p, q)
      ensures Connected(fg, n, p, q)
    {
      if Same(t, lab, p, a) && Same(t, lab, q, b) {
        ConnectedTrans(fg, n, p, a, b);
        assert Same(t, lab, b, q);
        ConnectedTrans(fg, n, p, b, q);
      } else if Same(t, lab, p, b) && Same(t, lab, q, a) {
        ConnectedTrans(fg, n, p, b, a);
        assert Same(t, lab, a, q);
        ConnectedTrans(fg, n, p, a, q);
      } else {
        assert Same(t, lab, p, q);
      }
    }
    forall p, q | p in lab && q in lab && p in fg && q in fg && Earlier(n, p, q)
      ensures Same(u, lab, p, q)
    {
      assert Same(t, lab, p, q);
    }
  }

  /** Finishing a background pixel. */
  lemma BackgroundKeeps(fg: set<Pixel>, n: int, t: seq<int>, lab: map<Pixel, int>, next: int, x: Pixel)
    requires ScanInv(fg, n, t, lab, next) && x !in lab && x !in fg
    ensures ScanInv(fg, n, t, lab[x := 0], next)
  {
    var lab' := lab[x := 0];
    forall v | 0 < v < next
      ensures Used(lab', v)
    {
      assert Used(lab, v);
      var p :| p in lab && lab[p] == v;
      assert p in lab' && lab'[p] == v;
    }
    forall p, q | p in lab' && q in lab' && p in fg && q in fg && Same(t, lab', p, q)
      ensures Connected(fg, n, p, q)
    {
      assert Same(t, lab, p, q);
    }
    forall p, q | p in lab' && q in lab' && p in fg && q in fg && Earlier(n, p, q)
      ensures Same(t, lab', p, q)
    {
      assert Same(t, lab, p, q);
    }
  }

  /** No finished pixel has x among its earlier neighbours. */
  ghost predicate Fresh(n: int, lab: map<Pixel, int>, x: Pixel) {
    x !in lab && forall p :: p in lab ==> !Earlier(n, p, x)
  }

  /** Finishing a foreground pixel with the label of earlier neighbours that all have one root. */
  lemma JoinKeeps(fg: set<Pixel>, n: int, t: seq<int>, lab: map<Pixel, int>, next: int, x: Pixel, a: Pixel)
    requires ScanInv(fg, n, t, lab, next) && Fresh(n, lab, x) && x in fg
    requires a in lab && a in fg && Earlier(n, x, a)
    requires forall q :: q in lab && q in fg && Earlier(n, x, q) ==> Same(t, lab, q, a)
    ensures ScanInv(fg, n, t, lab[x := lab[a]], next)
  {
    var lab' := lab[x := lab[a]];
    ConnectedLink(fg, n, x, a);
    ConnectedSelf(fg, n, x);
    forall v | 0 < v < next
      ensures Used(lab', v)
    {
      assert Used(lab, v);
      var p :| p in lab && lab[p] == v;
      assert p in lab' && lab'[p] == v;
    }
    forall p, q | p in lab' && q in lab' && p in fg && q in fg && Same(t, lab', p, q)
      ensures Connected(fg, n, p, q)
    {
      if p == x && q != x {
        assert Same(t, lab, a, q);
        ConnectedTrans(fg, n, x, a, q);
      } else if q == x && p != x {
        assert Same(t, lab, p, a);
        ConnectedSym(fg, n, x, a);
        ConnectedTrans(fg, n, p, a, x);
      } else if p != x {
        assert Same(t, lab, p, q);
      }
    }
    forall p, q | p in lab' && q in lab' && p in fg && q in fg && Earlier(n, p, q)
      ensures Same(t, lab', p, q)
    {
      if p != x && q != x {
        assert Same(t, lab, p, q);
      } else if p == x {
        assert q != x && Same(t, lab, q, a);
      }
    }
  }

  /** Finishing a foreground pixel without labelled neighbours under a new label. */
  lemma NewKeeps(fg: set<Pixel>, n: int, t: seq<int>, lab: map<Pixel, int>, next: int, x: Pixel)
    requires ScanInv(fg, n, t, lab, next) && Fresh(n, lab, x) && x in fg
    requires forall q :: q in lab && Earlier(n, x, q) ==> q !in fg
    ensures ScanInv(fg, n, if next < |t| then t else t + [|t|], lab[x := next], next + 1)
  {
    var lab' := lab[x := next];
    var u := if next < |t| then t else t + [|t|];
    ConnectedSelf(fg, n, x);
    forall k | 0 <= k < |t|
      ensures Descending(u) && Root(u, k) == Root(t, k)
    {
      RootAfterAppend(t, k);
    }
    assert u[next] == next && Root(u, next) == next;
    forall v | 0 < v < next + 1
      ensures Used(lab', v)
    {
      if v == next {
        assert x in lab' && lab'[x] == v;
      } else {
            assert Used(lab, v);
        var p :| p in lab && lab[p] == v;
        assert p in lab' && lab'[p] == v;
      }
    }
    forall p, q | p in lab' && q in lab' && p in fg && q in fg && Same(u, lab', p, q)
      ensures Connected(fg, n, p, q)
    {
      if p != x && q != x {
        assert Same(t, lab, p, q);
      }
    }
    forall p, q | p in lab' && q in lab' && p in fg && q in fg && Earlier(n, p, q)
      ensures Same(u, lab', p, q)
    {
      if p != x && q != x {
        assert Same(t, lab, p, q);
      }
    }
  }

  // ---------- First pass ----------

  ghost predicate Holds(labels: array2<int>, lab: map<Pixel, int>)
    reads labels
  {
    labels.Length0 == NMAX && labels.Length1 == NMAX &&
    forall p :: p in lab ==> 0 <= p.i < NMAX && 0 <= p.j < NMAX && labels[p.i, p.j] == lab[p]
  }

  /** The label buffer is static.  In an image higher than wide the scan reads the column to the
      right of the image, behind every foreground pixel of the last column; what it finds there
      must be zero. */
  ghost predicate MarginClear(labels: array2<int>, fg: set<Pixel>, m: nat, n: nat)
    reads labels
  {
    labels.Length0 == NMAX && labels.Length1 == NMAX &&
    (m < n <= NMAX ==> forall p :: p in fg && p.i == m - 1 && 1 <= p.j < n ==> labels[m, p.j-1] == 0)
  }

  /** The scan finds a label at q when it looks at the neighbours of x. */
  ghost predicate Finds(labels: array2<int>, n: int, x: Pixel, q: Pixel)
    requires labels.Length0 == NMAX && labels.Length1 == NMAX
    reads labels
  {
    Earlier(n, x, q) && 0 <= q.i < NMAX && 0 <= q.j < NMAX && labels[q.i, q.j] != 0
  }

  /** At every foreground pixel of the image the scan finds labels of finished pixels only. */
  ghost predicate FindsFinished(labels: array2<int>, fg: set<Pixel>, m: nat, n: nat)
    requires labels.Length0 == NMAX && labels.Length1 == NMAX
    reads labels
  {
    forall x, q :: x in fg && Finds(labels, n, x, q) ==> Before(m, n, x.i, x.j, q)
  }

  /** The margin is clear exactly when no label from behind the image is found. */
  lemma MarginClearIff(labels: array2<int>, fg: set<Pixel>, m: nat, n: nat)
    requires labels.Length0 == NMAX && labels.Length1 == NMAX && m <= NMAX && n <= NMAX
    requires forall p :: p in fg ==> 0 <= p.i < m && 0 <= p.j < n
    ensures MarginClear(labels, fg, m, n) <==> FindsFinished(labels, fg, m, n)
  {
    if FindsFinished(labels, fg, m, n) && m < n {
      forall p | p in fg && p.i == m - 1 && 1 <= p.j < n
        ensures labels[m, p.j-1] == 0
      {
        assert Finds(labels, n, p, Pixel(m, p.j - 1)) <==> labels[m, p.j-1] != 0;
      }
    }
  }

  /** Two pixels of an image one wide and three high, not joined. */
  const COLUMN := {Pixel(0, 0), Pixel(0, 2)}

  lemma ColumnLinks()
    ensures forall q :: q in COLUMN ==> !Linked(3, Pixel(0, 0), q)
  {}

  lemma ColumnPath(path: seq<Pixel>)
    requires |path| > 1 && path[0] == Pixel(0, 0)
    ensures !IsPath(COLUMN, 3, path)
  {
    ColumnLinks();
    assert path[1] in COLUMN ==> !Linked(3, path[0], path[1]);
  }

  lemma ColumnApart()
    ensures !Connected(COLUMN, 3, Pixel(0, 0), Pixel(0, 2))
  {
    forall path
      ensures !Joins(COLUMN, 3, path, Pixel(0, 0), Pixel(0, 2))
    {
      if |path| > 1 && path[0] == Pixel(0, 0) {
        ColumnPath(path);
      }
    }
  }

  /** What goes wrong when it is not: at the second pixel the scan finds only the label 1 that a
      wider image left in the margin, and so gives it the label of the first, which it is not
      joined to. */
  lemma StaleMargin(labels: array2<int>)
    requires labels.Length0 == NMAX && labels.Length1 == NMAX
    requires labels[0, 0] == 1 && labels[0, 1] == 0 && labels[1, 1] == 1
    ensures var lab := map[Pixel(0, 0) := 1, Pixel(0, 1) := 0];
      && Holds(labels, lab) && ScanInv(COLUMN, 3, [0, 1], lab, 2)
      && (forall q :: Finds(labels, 3, Pixel(0, 2), q) <==> q == Pixel(1, 1))
      && !ScanInv(COLUMN, 3, [0, 1], lab[Pixel(0, 2) := labels[1, 1]], 2)
  {
    var lab := map[Pixel(0, 0) := 1, Pixel(0, 1) := 0];
    ConnectedSelf(COLUMN, 3, Pixel(0, 0));
    assert Used(lab, 1) by { assert lab[Pixel(0, 0)] == 1; }
    ColumnApart();
    var next := lab[Pixel(0, 2) := 1];
    assert Same([0, 1], next, Pixel(0, 0), Pixel(0, 2));
  }

  /** To the right of the image the buffer is as before. */
  twostate predicate LeavesRest(labels: array2<int>, m: nat)
    reads labels
  {
    forall a, b :: m <= a < labels.Length0 && 0 <= b < labels.Length1 ==> labels[a, b] == old(labels[a, b])
  }

  /** The labels found at the earlier neighbours, in the order of the source. */
  method NeighbourLabels(labels: array2<int>, n: nat, i: nat, j: nat)
    returns (label_neighbor: seq<int>, ghost at: seq<Pixel>)
    requires labels.Length0 == NMAX && labels.Length1 == NMAX && i < NMAX && j < n <= NMAX
    ensures |label_neighbor| == |at| <= 4
    ensures forall k :: 0 <= k < |at| ==>
              Finds(labels, n, Pixel(i, j), at[k]) && label_neighbor[k] == labels[at[k].i, at[k].j]
    ensures forall q :: Finds(labels, n, Pixel(i, j), q) ==> q in at
  {
    label_neighbor, at := [], [];
    if i > 0 && labels[i-1, j] != 0 {
      label_neighbor, at := label_neighbor + [labels[i-1, j]], at + [Pixel(i - 1, j)];
    }
    if j > 0 && labels[i, j-1] != 0 {
      label_neighbor, at := label_neighbor + [labels[i, j-1]], at + [Pixel(i, j - 1)];
    }
    if i > 0 && j > 0 && labels[i-1, j-1] != 0 {
      label_neighbor, at := label_neighbor + [labels[i-1, j-1]], at + [Pixel(i - 1, j - 1)];
    }
    if i < n - 1 && j > 0 && labels[i+1, j-1] != 0 {
      label_neighbor, at := label_neighbor + [labels[i+1, j-1]], at + [Pixel(i + 1, j - 1)];
    }
  }

  method Minimum(label_neighbor: seq<int>, nlabel: int) returns (least: int)
    requires |label_neighbor| > 0
    requires forall k :: 0 <= k < |label_neighbor| ==> label_neighbor[k] < nlabel
    ensures least in label_neighbor
    ensures forall k :: 0 <= k < |label_neighbor| ==> least <= label_neighbor[k]
  {
    least := nlabel;
    for k := 0 to |label_neighbor|
      invariant k == 0 ==> least == nlabel
      invariant k > 0 ==> least in label_neighbor[..k]
      invariant forall l :: 0 <= l < k ==> least <= label_neighbor[l]
    {
      if label_neighbor[k] < least {
        least := label_neighbor[k];
      }
    }
  }

  /** Merges the least neighbour label with all the others. */
  method MergeNeighbours(eq: EquivalenceTable, least: int, label_neighbor: seq<int>, ghost at: seq<Pixel>,
                         ghost fg: set<Pixel>, ghost n: nat, ghost lab: map<Pixel, int>, ghost nlabel: int, ghost x: Pixel)
    requires ScanInv(fg, n, eq.table, lab, nlabel) && x in fg
    requires |label_neighbor| == |at| && least in label_neighbor
    requires forall k :: 0 <= k < |at| ==>
               at[k] in lab && Earlier(n, x, at[k]) && label_neighbor[k] == lab[at[k]] != 0
    modifies eq`table
    ensures ScanInv(fg, n, eq.table, lab, nlabel)
    ensures forall k :: 0 <= k < |at| ==> Root(eq.table, label_neighbor[k]) == Root(eq.table, least)
  {
    ghost var z :| 0 <= z < |at| && label_neighbor[z] == least;
    for k := 0 to |label_neighbor|
      invariant ScanInv(fg, n, eq.table, lab, nlabel)
      invariant forall l :: 0 <= l < k ==> Root(eq.table, label_neighbor[l]) == Root(eq.table, least)
    {
      if least != label_neighbor[k] {
        ghost var t := eq.table;
        eq.AddEquivalence(least, label_neighbor[k]);
        ConnectedLink(fg, n, at[z], x);
        ConnectedLink(fg, n, x, at[k]);
        ConnectedTrans(fg, n, at[z], x, at[k]);
        assert Merged(t, eq.table, lab[at[z]], lab[at[k]]);
        MergeKeeps(fg, n, t, eq.table, lab, nlabel, at[z], at[k]);
      }
    }
  }

  /** With a clear margin the labels found are those of the labelled earlier neighbours. */
  lemma FoundLabels(labels: array2<int>, fg: set<Pixel>, m: nat, n: nat, x: Pixel, lab: map<Pixel, int>,
                    label_neighbor: seq<int>, at: seq<Pixel>)
    requires m <= NMAX && n <= NMAX && 0 <= x.i < m && 0 <= x.j < n && x in fg
    requires Holds(labels, lab) && MarginClear(labels, fg, m, n)
    requires forall p :: p in lab <==> Before(m, n, x.i, x.j, p)
    requires |label_neighbor| == |at|
    requires forall k :: 0 <= k < |at| ==> Finds(labels, n, x, at[k]) && label_neighbor[k] == labels[at[k].i, at[k].j]
    requires forall q :: Finds(labels, n, x, q) ==> q in at
    ensures forall k :: 0 <= k < |at| ==> at[k] in lab && Earlier(n, x, at[k]) && label_neighbor[k] == lab[at[k]] != 0
    ensures forall q :: q in lab && Earlier(n, x, q) && lab[q] != 0 ==> q in at
  {
    forall q | q in lab && Earlier(n, x, q) && lab[q] != 0
      ensures q in at
    {
      assert Finds(labels, n, x, q);
    }
  }

  /** A foreground pixel with the least of the labels found, all of one root. */
  lemma LeastKeeps(fg: set<Pixel>, n: int, t: seq<int>, lab: map<Pixel, int>, next: int, x: Pixel,
                   label_neighbor: seq<int>, at: seq<Pixel>, least: int)
    requires ScanInv(fg, n, t, lab, next) && Fresh(n, lab, x) && x in fg
    requires |label_neighbor| == |at| && least in label_neighbor
    requires forall k :: 0 <= k < |at| ==> at[k] in lab && Earlier(n, x, at[k]) && label_neighbor[k] == lab[at[k]] != 0
    requires forall q :: q in lab && Earlier(n, x, q) && lab[q] != 0 ==> q in at
    requires forall k :: 0 <= k < |at| ==> Root(t, label_neighbor[k]) == Root(t, least)
    ensures ScanInv(fg, n, t, lab[x := least], next)
  {
    hide Root, Sound, Complete, Used, Earlier;
    var z :| 0 <= z < |at| && label_neighbor[z] == least;
    JoinKeeps(fg, n, t, lab, next, x, at[z]);
  }

  /** Labels one foreground pixel. */
  method LabelPixel(eq: EquivalenceTable, labels: array2<int>, m: nat, n: nat, i: nat, j: nat, nlabel: int,
                    ghost fg: set<Pixel>, ghost lab: map<Pixel, int>)
    returns (mark: int, nlabel': int)
    requires i < m <= NMAX && j < n <= NMAX
    requires Holds(labels, lab) && MarginClear(labels, fg, m, n)
    requires forall p :: p in lab <==> Before(m, n, i, j, p)
    requires ScanInv(fg, n, eq.table, lab, nlabel) && Pixel(i, j) in fg
    modifies eq`table
    ensures ScanInv(fg, n, eq.table, lab[Pixel(i, j) := mark], nlabel')
  {
    ghost var x := Pixel(i, j);
    var label_neighbor, at := NeighbourLabels(labels, n, i, j);
    FoundLabels(labels, fg, m, n, x, lab, label_neighbor, at);
    assert Fresh(n, lab, x);
    hide Finds, MarginClear, Holds, Earlier, ScanInv, Root, Fresh, Before;
    if |label_neighbor| > 0 {
      mark := Minimum(label_neighbor, nlabel);
      nlabel' := nlabel;
      MergeNeighbours(eq, mark, label_neighbor, at, fg, n, lab, nlabel, x);
      LeastKeeps(fg, n, eq.table, lab, nlabel, x, label_neighbor, at, mark);
    } else {
      mark, nlabel' := nlabel, nlabel + 1;
      NewKeeps(fg, n, eq.table, lab, nlabel, x);
      eq.EnsureAllocated(mark);
      assert eq.table == old(if nlabel < |eq.table| then eq.table else eq.table + [|eq.table|]);
    }
  }

  lemma ForegroundAt(image: seq<bv8>, m: nat, n: nat, mask: bv8, i: nat, j: nat)
    requires i < m && j < n && m * n <= |image|
    ensures 0 <= Index(m, i, j) < |image|
    ensures Pixel(i, j) in Foreground(image, m, n, mask) <==> image[Index(m, i, j)] & mask != 0
  {
    IndexInside(m, n, i, j);
  }

  lemma NextRow(m: nat, j: int)
    ensures Index(m, m, j) == Index(m, 0, j + 1)
  {}

  /** One turn of the scan: labels the pixel, or clears the label of a background pixel. */
  method ScanPixel(eq: EquivalenceTable, labels: array2<int>, pixel: bv8, mask: bv8, m: nat, n: nat, i: nat, j: nat,
                   nlabel: int, ghost fg: set<Pixel>, ghost lab: map<Pixel, int>)
    returns (nlabel': int, ghost lab': map<Pixel, int>)
    requires i < m <= NMAX && j < n <= NMAX
    requires Holds(labels, lab) && MarginClear(labels, fg, m, n)
    requires forall p :: p in lab <==> Before(m, n, i, j, p)
    requires ScanInv(fg, n, eq.table, lab, nlabel)
    requires Pixel(i, j) in fg <==> pixel & mask != 0
    modifies eq`table, labels
    ensures Holds(labels, lab') && MarginClear(labels, fg, m, n) && LeavesRest(labels, m)
    ensures forall p :: p in lab' <==> Before(m, n, i + 1, j, p)
    ensures ScanInv(fg, n, eq.table, lab', nlabel')
  {
    ghost var x := Pixel(i, j);
    var mark;
    if pixel & mask == 0 {
      mark, nlabel' := 0, nlabel;
      BackgroundKeeps(fg, n, eq.table, lab, nlabel, x);
    } else {
      mark, nlabel' := LabelPixel(eq, labels, m, n, i, j, nlabel, fg, lab);
    }
    labels[i, j] := mark;
    lab' := lab[x := mark];
  }

  /** The inner loop: one row of the image, from the position of its first pixel. */
  method ScanRow(eq: EquivalenceTable, labels: array2<int>, image: seq<bv8>, m: nat, n: nat, mask: bv8, j: nat, start: int,
                 nlabel: int, ghost lab: map<Pixel, int>)
    returns (next: int, nlabel': int, ghost lab': map<Pixel, int>)
    requires m <= NMAX && j < n <= NMAX && m * n <= |image|
    requires start == Index(m, 0, j)
    requires Holds(labels, lab) && MarginClear(labels, Foreground(image, m, n, mask), m, n)
    requires forall p :: p in lab <==> Before(m, n, 0, j, p)
    requires ScanInv(Foreground(image, m, n, mask), n, eq.table, lab, nlabel)
    modifies eq`table, labels
    ensures next == Index(m, 0, j + 1)
    ensures Holds(labels, lab') && MarginClear(labels, Foreground(image, m, n, mask), m, n) && LeavesRest(labels, m)
    ensures forall p :: p in lab' <==> Before(m, n, 0, j + 1, p)
    ensures ScanInv(Foreground(image, m, n, mask), n, eq.table, lab', nlabel')
  {
    ghost var fg := Foreground(image, m, n, mask);
    next, nlabel', lab' := start, nlabel, lab;
    var i := 0;
    while i < m
      invariant 0 <= i <= m && next == Index(m, i, j)
      invariant Holds(labels, lab') && MarginClear(labels, fg, m, n) && LeavesRest(labels, m)
      invariant forall p :: p in lab' <==> Before(m, n, i, j, p)
      invariant ScanInv(fg, n, eq.table, lab', nlabel')
    {
      ForegroundAt(image, m, n, mask, i, j);
      var pixel := image[next];
      next := next + 1;
      nlabel', lab' := ScanPixel(eq, labels, pixel, mask, m, n, i, j, nlabel', fg, lab');
      i := i + 1;
    }
    NextRow(m, j);
  }

  lemma ScanStarts(fg: set<Pixel>, n: int, t: seq<int>)
    requires t == [0, 1]
    ensures ScanInv(fg, n, t, map[], 1)
  {}

  method FirstPass(eq: EquivalenceTable, labels: array2<int>, image: seq<bv8>, m: nat, n: nat, mask: bv8)
    returns (nlabel: int, ghost lab: map<Pixel, int>)
    requires m <= NMAX && n <= NMAX && m * n <= |image| && MarginClear(labels, Foreground(image, m, n, mask), m, n)
    modifies eq`table, labels
    ensures LeavesRest(labels, m) && forall p :: p in lab <==> 0 <= p.i < m && 0 <= p.j < n
    ensures Holds(labels, lab) && ScanInv(Foreground(image, m, n, mask), n, eq.table, lab, nlabel)
  {
    nlabel := 1;
    eq.Clear();
    eq.EnsureAllocated(nlabel);
    assert eq.table == [0, 1];
    lab := map[];
    ScanStarts(Foreground(image, m, n, mask), n, eq.table);
    var next := 0;
    var j := 0;
    while j < n
      invariant 0 <= j <= n && next == Index(m, 0, j)
      invariant Holds(labels, lab) && MarginClear(labels, Foreground(image, m, n, mask), m, n) && LeavesRest(labels, m)
      invariant forall p :: p in lab <==> Before(m, n, 0, j, p)
      invariant ScanInv(Foreground(image, m, n, mask), n, eq.table, lab, nlabel)
    {
      next, nlabel, lab := ScanRow(eq, labels, image, m, n, mask, j, next, nlabel, lab);
      j := j + 1;
    }
  }

  // ---------- Second pass ----------

  /** The pixels of the grid whose final label is v. */
  ghost function Region(done: set<Pixel>, lab: map<Pixel, int>, t: seq<int>, v: int): set<Pixel>
    requires forall p :: p in done ==> p in lab && 0 <= lab[p] < |t|
  {
    set p | p in done && t[lab[p]] == v
  }

  ghost predicate Measured(props: seq<RegionProps>, done: set<Pixel>, lab: map<Pixel, int>, t: seq<int>)
    requires forall p :: p in done ==> p in lab && 0 <= lab[p] < |t|
  {
    forall k :: 0 <= k < |props| ==> Describes(props[k], Region(done, lab, t, k + 1))
  }

  lemma MeasureOne(props: seq<RegionProps>, done: set<Pixel>, lab: map<Pixel, int>, t: seq<int>, p: Pixel)
    requires forall q :: q in done ==> q in lab && 0 <= lab[q] < |t|
    requires Measured(props, done, lab, t) && p !in done && Small(p)
    requires p in lab && 0 <= lab[p] < |t| && 0 <= t[lab[p]] <= |props|
    ensures var v := t[lab[p]];
            Measured(if v > 0 then props[v-1 := props[v-1].Add(p.i, p.j)] else props, done + {p}, lab, t)
  {
    var v := t[lab[p]];
    var props' := if v > 0 then props[v-1 := props[v-1].Add(p.i, p.j)] else props;
    forall k | 0 <= k < |props'|
      ensures Describes(props'[k], Region(done + {p}, lab, t, k + 1))
    {
      var r := Region(done, lab, t, k + 1);
      if k + 1 == v {
        AddDescribes(props[k], r, p);
        assert Region(done + {p}, lab, t, k + 1) == r + {p};
      } else {
        assert Region(done + {p}, lab, t, k + 1) == r;
      }
    }
  }

  /** Pixels the second pass has counted before (i, j); it runs down the columns. */
  ghost function Counted(m: nat, n: nat, i: nat, j: nat): set<Pixel> {
    set a, b | 0 <= a < m && 0 <= b < n && (a < i || (a == i && b < j)) :: Pixel(a, b)
  }

  lemma CountedNext(m: nat, n: nat, i: nat, j: nat)
    requires i < m
    ensures j < n ==> Counted(m, n, i, j + 1) == Counted(m, n, i, j) + {Pixel(i, j)} && Pixel(i, j) !in Counted(m, n, i, j)
    ensures j == n ==> Counted(m, n, i + 1, 0) == Counted(m, n, i, j)
  {
    if j < n {
      assert Pixel(i, j) in Counted(m, n, i, j + 1);
    }
  }

  method MeasureRegions(eq: EquivalenceTable, labels: array2<int>, m: nat, n: nat, nlabel: nat, ghost lab: map<Pixel, int>)
    returns (props: seq<RegionProps>)
    requires m <= NMAX && n <= NMAX && Holds(labels, lab)
    requires forall p :: p in lab <==> 0 <= p.i < m && 0 <= p.j < n
    requires forall p :: p in lab ==> 0 <= lab[p] < |eq.table|
    requires forall k :: 0 <= k < |eq.table| ==> 0 <= eq.table[k] <= nlabel
    ensures |props| == nlabel && Measured(props, lab.Keys, lab, eq.table)
  {
    props := seq(nlabel, _ => EMPTY);
    assert Counted(m, n, 0, 0) == {};
    for i := 0 to m
      invariant |props| == nlabel && Measured(props, Counted(m, n, i, 0), lab, eq.table)
    {
      for j := 0 to n
        invariant |props| == nlabel && Measured(props, Counted(m, n, i, j), lab, eq.table)
      {
        ghost var p := Pixel(i, j);
        assert p in lab;
        var final := eq.table[labels[i, j]];
        CountedNext(m, n, i, j);
        MeasureOne(props, Counted(m, n, i, j), lab, eq.table, p);
        if final > 0 {
          props := props[final-1 := props[final-1].Add(i, j)];
        }
      }
      CountedNext(m, n, i, n);
    }
    assert Counted(m, n, m, 0) == lab.Keys;
  }

  // ---------- The labels of the two passes are the components ----------

  ghost predicate Final(fg: set<Pixel>, n: int, t: seq<int>, lab: map<Pixel, int>, next: int, g: seq<int>, count: nat) {
    && ScanInv(fg, n, t, lab, next) && fg <= lab.Keys
    && Numbers(t, g, count)
  }

  /** Joined pixels end under one root, because a root is kept along every link. */
  lemma JoinedHaveOneRoot(fg: set<Pixel>, n: int, t: seq<int>, lab: map<Pixel, int>, next: int, p: Pixel, q: Pixel)
    requires ScanInv(fg, n, t, lab, next) && fg <= lab.Keys && p in fg && q in fg
    requires Connected(fg, n, p, q)
    ensures Same(t, lab, p, q)
  {
    var f := map x | x in fg :: Root(t, lab[x]);
    forall a, b | a in fg && b in fg && Earlier(n, a, b)
      ensures f[a] == f[b]
    {
      assert Same(t, lab, a, b);
    }
    var path :| Joins(fg, n, path, p, q);
    PathKeeps(fg, n, path, f);
  }

  lemma RegionIsComponent(fg: set<Pixel>, n: int, t: seq<int>, lab: map<Pixel, int>, next: int, g: seq<int>, count: nat, p: Pixel)
    requires Final(fg, n, t, lab, next, g, count) && p in fg
    ensures g[lab[p]] > 0 && Region(lab.Keys, lab, g, g[lab[p]]) == Component(fg, n, p)
  {
    forall q | q in lab
      ensures g[lab[q]] == g[lab[p]] <==> q in Component(fg, n, p)
    {
      if q in fg {
        if Connected(fg, n, p, q) {
          JoinedHaveOneRoot(fg, n, t, lab, next, p, q);
        }
        if Same(t, lab, p, q) {
          assert Connected(fg, n, p, q);
        }
      }
    }
    forall q | q in Component(fg, n, p)
      ensures q in lab
    {}
  }

  /** Every final label but zero has a pixel. */
  lemma RegionHasPixel(fg: set<Pixel>, n: int, t: seq<int>, lab: map<Pixel, int>, next: int, g: seq<int>, count: nat, v: int)
    returns (p: Pixel)
    requires Final(fg, n, t, lab, next, g, count) && fg != {} && 0 < v < count
    ensures p in fg && g[lab[p]] == v
  {
    var q :| q in fg;
    assert lab[q] != 0 && next > 1;
    assert v in g;
    var l :| 0 <= l < |g| && g[l] == v;
    assert Used(lab, l);
    p :| p in lab && lab[p] == l;
  }

  lemma {:induction false} DistinctAsSet<T>(s: seq<T>)
    requires forall a, b :: 0 <= a < b < |s| ==> s[a] != s[b]
    ensures multiset(s) == multiset(set x | x in s)
  {
    if |s| > 0 {
      var r := s[..|s|-1];
      DistinctAsSet(r);
      assert s == r + [s[|s|-1]];
      assert (set x | x in s) == (set x | x in r) + {s[|s|-1]};
    }
  }

  /** The nonzero final labels list every component exactly once. */
  lemma RegionsAreComponents(fg: set<Pixel>, n: int, t: seq<int>, lab: map<Pixel, int>, next: int, g: seq<int>, count: nat,
                             regions: seq<set<Pixel>>)
    requires Final(fg, n, t, lab, next, g, count) && fg != {} && count > 0 && |regions| == count - 1
    requires forall k :: 0 <= k < |regions| ==> regions[k] == Region(lab.Keys, lab, g, k + 1)
    ensures multiset(regions) == multiset(Components(fg, n)) && |regions| == |Components(fg, n)|
  {
    hide *;
    forall k | 0 <= k < |regions|
      ensures regions[k] in Components(fg, n)
    {
      RegionListed(fg, n, t, lab, next, g, count, k + 1);
    }
    forall a, b | 0 <= a < b < |regions|
      ensures regions[a] != regions[b]
    {
      RegionsDiffer(fg, n, t, lab, next, g, count, a + 1, b + 1);
    }
    forall p | p in fg
      ensures Component(fg, n, p) in regions
    {
      var c := ComponentListed(fg, n, t, lab, next, g, count, p);
      assert regions[c-1] == Component(fg, n, p);
    }
    ListedAre(regions, fg, n);
    DistinctAsSet(regions);
    assert |multiset(regions)| == |regions|;
  }

  lemma RegionListed(fg: set<Pixel>, n: int, t: seq<int>, lab: map<Pixel, int>, next: int, g: seq<int>, count: nat, c: int)
    requires Final(fg, n, t, lab, next, g, count) && fg != {} && 1 <= c < count
    ensures Region(lab.Keys, lab, g, c) in Components(fg, n)
  {
    var p := RegionHasPixel(fg, n, t, lab, next, g, count, c);
    RegionIsComponent(fg, n, t, lab, next, g, count, p);
  }

  lemma RegionsDiffer(fg: set<Pixel>, n: int, t: seq<int>, lab: map<Pixel, int>, next: int, g: seq<int>, count: nat, a: int, b: int)
    requires Final(fg, n, t, lab, next, g, count) && fg != {} && 1 <= a < b < count
    ensures Region(lab.Keys, lab, g, a) != Region(lab.Keys, lab, g, b)
  {
    var p := RegionHasPixel(fg, n, t, lab, next, g, count, a);
    hide Final;
    assert p in Region(lab.Keys, lab, g, a) && p !in Region(lab.Keys, lab, g, b);
  }

  lemma ComponentListed(fg: set<Pixel>, n: int, t: seq<int>, lab: map<Pixel, int>, next: int, g: seq<int>, count: nat, p: Pixel)
    returns (c: int)
    requires Final(fg, n, t, lab, next, g, count) && fg != {} && p in fg
    ensures 1 <= c < count && Region(lab.Keys, lab, g, c) == Component(fg, n, p)
  {
    RegionIsComponent(fg, n, t, lab, next, g, count, p);
    c := g[lab[p]];
  }

  lemma ListedAre(regions: seq<set<Pixel>>, fg: set<Pixel>, n: int)
    requires forall k :: 0 <= k < |regions| ==> regions[k] in Components(fg, n)
    requires forall p :: p in fg ==> Component(fg, n, p) in regions
    ensures (set x | x in regions) == Components(fg, n)
  {
    hide Component;
  }

  lemma NoForegroundNoLabel(fg: set<Pixel>, n: int, t: seq<int>, lab: map<Pixel, int>, next: int)
    requires ScanInv(fg, n, t, lab, next) && fg == {}
    ensures next == 1
  {
    assert next > 1 ==> Used(lab, 1);
  }

  // ---------- Sorting and the whole procedure ----------

  ghost predicate ByArea(props: seq<RegionProps>) {
    forall a, b :: 0 <= a < b < |props| ==> props[a].area >= props[b].area
  }

  ghost predicate Paired(props: seq<RegionProps>, regions: seq<set<Pixel>>) {
    |props| == |regions| && forall k :: 0 <= k < |props| ==> Describes(props[k], regions[k])
  }

  function Insert<T>(s: seq<T>, at: nat, x: T): (r: seq<T>)
    requires at <= |s|
    ensures multiset(r) == multiset(s) + multiset{x}
  {
    assert s == s[..at] + s[at..];
    s[..at] + [x] + s[at..]
  }

  lemma InsertKeeps(props: seq<RegionProps>, regions: seq<set<Pixel>>, at: nat, r: RegionProps, s: set<Pixel>)
    requires ByArea(props) && Paired(props, regions) && Describes(r, s) && at <= |props|
    requires forall a :: 0 <= a < at ==> props[a].area >= r.area
    requires at < |props| ==> r.area > props[at].area
    ensures ByArea(Insert(props, at, r)) && Paired(Insert(props, at, r), Insert(regions, at, s))
  {}

  /** Puts one region behind those of at least its area. */
  method InsertByArea(props: seq<RegionProps>, ghost regions: seq<set<Pixel>>, r: RegionProps, ghost s: set<Pixel>)
    returns (props': seq<RegionProps>, ghost regions': seq<set<Pixel>>)
    requires ByArea(props) && Paired(props, regions) && Describes(r, s)
    ensures ByArea(props') && Paired(props', regions')
    ensures multiset(props') == multiset(props) + multiset{r} && multiset(regions') == multiset(regions) + multiset{s}
  {
    var at := 0;
    while at < |props| && props[at].area >= r.area
      invariant 0 <= at <= |props|
      invariant forall a :: 0 <= a < at ==> props[a].area >= r.area
    {
      at := at + 1;
    }
    InsertKeeps(props, regions, at, r, s);
    props', regions' := Insert(props, at, r), Insert(regions, at, s);
  }

  /** Sorting with the reversed order of areas; any algorithm that sorts will do. */
  method SortByArea(props: seq<RegionProps>, ghost regions: seq<set<Pixel>>)
    returns (sorted: seq<RegionProps>, ghost order: seq<set<Pixel>>)
    requires Paired(props, regions)
    ensures ByArea(sorted) && Paired(sorted, order)
    ensures multiset(sorted) == multiset(props) && multiset(order) == multiset(regions)
  {
    sorted, order := [], [];
    for k := 0 to |props|
      invariant ByArea(sorted) && Paired(sorted, order)
      invariant multiset(sorted) == multiset(props[..k]) && multiset(order) == multiset(regions[..k])
    {
      sorted, order := InsertByArea(sorted, order, props[k], regions[k]);
      assert props[..k+1] == props[..k] + [props[k]] && regions[..k+1] == regions[..k] + [regions[k]];
    }
    assert props[..|props|] == props && regions[..|regions|] == regions;
  }

  /** What the sorted statistics say, with and without foreground; the test on the
      first area tells the two apart. */
  lemma Outcome(fg: set<Pixel>, n: int, t: seq<int>, lab: map<Pixel, int>, next: int, g: seq<int>, last: nat,
                listed: seq<set<Pixel>>, props: seq<RegionProps>, regions: seq<set<Pixel>>)
    requires Final(fg, n, t, lab, next, g, last + 1) && |listed| == last
    requires forall k :: 0 <= k < |listed| ==> listed[k] == Region(lab.Keys, lab, g, k + 1)
    requires multiset(regions) == multiset(listed) && Paired(props, regions)
    ensures |props| == last >= 1
    ensures fg == {} ==> props == [EMPTY] && |Components(fg, n)| == 0
    ensures fg != {} ==> props[0].area > 0 && |Components(fg, n)| == last
    ensures fg != {} ==> multiset(regions) == multiset(Components(fg, n))
  {
    assert |multiset(regions)| == |regions| && |multiset(listed)| == |listed|;
    assert g[1] != 0;
    if fg == {} {
      NoForegroundNoLabel(fg, n, t, lab, next);
      assert last >= 2 ==> 1 in g && 2 in g;
      assert listed[0] == {};
      assert regions[0] in multiset(listed);
      assert Components(fg, n) == {};
    } else {
      RegionsAreComponents(fg, n, t, lab, next, g, last + 1, listed);
      assert regions[0] in multiset(listed);
      var p :| p in fg && regions[0] == Component(fg, n, p);
      ConnectedSelf(fg, n, p);
      assert p in regions[0];
    }
  }

  // The areas of the regions add up to the number of foreground pixels.

  function TotalArea(props: seq<RegionProps>): int {
    if props == [] then 0 else props[0].area + TotalArea(props[1..])
  }

  ghost function Union(regions: seq<set<Pixel>>): set<Pixel> {
    if regions == [] then {} else regions[0] + Union(regions[1..])
  }

  lemma {:induction false} UnionHas(regions: seq<set<Pixel>>, p: Pixel)
    ensures p in Union(regions) <==> exists k :: 0 <= k < |regions| && p in regions[k]
  {
    if regions != [] {
      UnionHas(regions[1..], p);
      if p in Union(regions[1..]) {
        var k :| 0 <= k < |regions[1..]| && p in regions[1..][k];
        assert p in regions[k+1];
      }
    }
  }

  lemma {:induction false} DisjointAreas(props: seq<RegionProps>, regions: seq<set<Pixel>>)
    requires Paired(props, regions)
    requires forall a, b :: 0 <= a < b < |regions| ==> regions[a] !! regions[b]
    ensures TotalArea(props) == |Union(regions)|
  {
    if regions != [] {
      DisjointAreas(props[1..], regions[1..]);
      forall p | p in regions[0]
        ensures p !in Union(regions[1..])
      {
        UnionHas(regions[1..], p);
      }
    }
  }

  lemma ComponentsDisjoint(fg: set<Pixel>, n: int, r: set<Pixel>, s: set<Pixel>)
    requires r in Components(fg, n) && s in Components(fg, n) && r != s
    ensures r !! s
  {
    var p :| p in fg && r == Component(fg, n, p);
    var q :| q in fg && s == Component(fg, n, q);
    if x :| x in r && x in s {
      ConnectedSym(fg, n, q, x);
      ConnectedTrans(fg, n, p, x, q);
      ConnectedSym(fg, n, p, q);
      forall y | y in fg
        ensures y in r <==> y in s
      {
        if y in r {
          ConnectedTrans(fg, n, q, p, y);
        }
        if y in s {
          ConnectedTrans(fg, n, p, q, y);
        }
      }
    }
  }

  lemma DistinctFromMultiset<T>(s: seq<T>, c: set<T>, a: nat, b: nat)
    requires multiset(s) == multiset(c) && a < b < |s|
    ensures s[a] != s[b]
  {
    assert s == s[..b] + s[b..] && s[a] in s[..b] && s[b] in s[b..];
    assert multiset(s) == multiset(s[..b]) + multiset(s[b..]);
    assert s[a] == s[b] ==> multiset(s)[s[a]] >= 2;
  }

  lemma AreasAddUp(fg: set<Pixel>, n: int, props: seq<RegionProps>, regions: seq<set<Pixel>>)
    requires Paired(props, regions) && multiset(regions) == multiset(Components(fg, n))
    ensures TotalArea(props) == |fg|
  {
    forall a | 0 <= a < |regions|
      ensures regions[a] in Components(fg, n)
    {
      assert regions[a] in multiset(regions);
    }
    forall a, b | 0 <= a < b < |regions|
      ensures regions[a] !! regions[b]
    {
      DistinctFromMultiset(regions, Components(fg, n), a, b);
      ComponentsDisjoint(fg, n, regions[a], regions[b]);
    }
    DisjointAreas(props, regions);
    forall p
      ensures p in Union(regions) <==> p in fg
    {
      UnionHas(regions, p);
      if p in fg {
        ConnectedSelf(fg, n, p);
        assert Component(fg, n, p) in multiset(Components(fg, n));
        assert Component(fg, n, p) in regions;
      }
    }
    assert Union(regions) == fg;
  }

  lemma ReadyToMeasure(fg: set<Pixel>, m: nat, n: nat, t: seq<int>, lab: map<Pixel, int>, next: int, g: seq<int>, count: nat)
    requires ScanInv(fg, n, t, lab, next) && Numbers(t, g, count) && InGrid(fg, m, n)
    requires forall p :: p in lab <==> 0 <= p.i < m && 0 <= p.j < n
    ensures Final(fg, n, t, lab, next, g, count)
    ensures forall p :: p in lab ==> 0 <= lab[p] < |g|
    ensures forall k :: 0 <= k < |g| ==> 0 <= g[k] <= count - 1
  {
    forall p | p in fg
      ensures p in lab
    {}
  }

  ghost function Regions(lab: map<Pixel, int>, g: seq<int>, count: nat): (regions: seq<set<Pixel>>)
    requires forall p :: p in lab ==> 0 <= lab[p] < |g|
    ensures |regions| == count
    ensures forall k :: 0 <= k < count ==> regions[k] == Region(lab.Keys, lab, g, k + 1)
  {
    seq(count, k requires 0 <= k => Region(lab.Keys, lab, g, k + 1))
  }

  /** Flattens the table and closes the gaps in its numbering. */
  method CleanUp(eq: EquivalenceTable)
    requires Descending(eq.table) && |eq.table| > 0
    modifies eq
    ensures eq.nLabel >= 0 && Numbers(old(eq.table), eq.table, eq.nLabel + 1)
  {
    ghost var t := eq.table;
    eq.TraverseLinks();
    eq.RemoveGaps(t);
  }

  /** Both passes: the statistics of the classes of labels, not yet sorted. */
  method TwoPasses(eq: EquivalenceTable, labels: array2<int>, image: seq<bv8>, m: nat, n: nat, mask: bv8)
    returns (props: seq<RegionProps>, ghost t: seq<int>, ghost lab: map<Pixel, int>, ghost next: int,
             ghost g: seq<int>, ghost regions: seq<set<Pixel>>)
    requires m <= NMAX && n <= NMAX && m * n <= |image| && MarginClear(labels, Foreground(image, m, n, mask), m, n)
    modifies eq, labels
    ensures LeavesRest(labels, m) && Final(Foreground(image, m, n, mask), n, t, lab, next, g, |regions| + 1)
    ensures Paired(props, regions)
    ensures forall k :: 0 <= k < |regions| ==> regions[k] == Region(lab.Keys, lab, g, k + 1)
  {
    next, lab := FirstPass(eq, labels, image, m, n, mask);
    t := eq.table;
    CleanUp(eq);
    g := eq.table;
    ReadyToMeasure(Foreground(image, m, n, mask), m, n, t, lab, next, g, eq.nLabel + 1);
    props := MeasureRegions(eq, labels, m, n, eq.nLabel, lab);
    regions := Regions(lab, g, |props|);
  }

  ghost predicate Result(fg: set<Pixel>, n: int, count: int, props: seq<RegionProps>, regions: seq<set<Pixel>>) {
    && count == |Components(fg, n)|
    && (fg == {} ==> props == [EMPTY])
    && (fg != {} ==>
          && multiset(regions) == multiset(Components(fg, n))
          && Paired(props, regions) && ByArea(props) && |props| == count
          && TotalArea(props) == |fg|)
  }

  /** The same for 8-connectivity. */
  ghost predicate EightResult(fg: set<Pixel>, count: int, props: seq<RegionProps>, regions: seq<set<Pixel>>) {
    && count == |EightComponents(fg)|
    && (fg != {} ==> multiset(regions) == multiset(EightComponents(fg)) && Paired(props, regions) && ByArea(props))
  }

  lemma EightIs(fg: set<Pixel>, m: nat, n: nat, count: int, props: seq<RegionProps>, regions: seq<set<Pixel>>)
    requires InGrid(fg, m, n) && (m <= n || n <= 1) && Result(fg, n, count, props, regions)
    ensures EightResult(fg, count, props, regions)
  {
    SameComponents(fg, m, n);
  }

  /** Labels the regions of the masked image and returns their number and, in order of
      falling area, their statistics.  Oversized images are refused. */
  method Connect(eq: EquivalenceTable, labels: array2<int>, given: seq<RegionProps>,
                 image: seq<bv8>, m: nat, n: nat, mask: bv8)
    returns (count: int, props: seq<RegionProps>, ghost regions: seq<set<Pixel>>)
    requires m * n <= |image| && MarginClear(labels, Foreground(image, m, n, mask), m, n)
    modifies eq, labels
    ensures LeavesRest(labels, if m > NMAX || n > NMAX then 0 else m)
    ensures m > NMAX || n > NMAX ==> count == -1 && props == given
    ensures m <= NMAX && n <= NMAX ==> Result(Foreground(image, m, n, mask), n, count, props, regions)
    ensures (m <= n || n <= 1) && m <= NMAX && n <= NMAX ==>
              EightResult(Foreground(image, m, n, mask), count, props, regions)
  {
    regions := [];
    if m > NMAX || n > NMAX {
      return -1, given, [];
    }
    ghost var fg := Foreground(image, m, n, mask);
    var unsorted, t, lab, next, g, listed := TwoPasses(eq, labels, image, m, n, mask);
    props, regions := SortByArea(unsorted, listed);
    Outcome(fg, n, t, lab, next, g, |listed|, listed, props, regions);
    if fg != {} {
      AreasAddUp(fg, n, props, regions);
    }
    if props[0].area > 0 {
      count := |props|;
    } else {
      count := 0;
    }
    if m <= n || n <= 1 {
      EightIs(fg, m, n, count, props, regions);
    }
  }

  // ---------- Calls one after the other ----------

  datatype Image = Image(pixels: seq<bv8>, m: nat, n: nat, mask: bv8)

  datatype Found = Found(count: int, props: seq<RegionProps>)

  predicate TooLarge(x: Image) { x.m > NMAX || x.n > NMAX }

  /** No image higher than wide comes after a wider one. */
  predicate Widening(images: seq<Image>) {
    forall j, k :: 0 <= j < k < |images| && !TooLarge(images[j]) && !TooLarge(images[k]) && images[k].m < images[k].n ==>
      images[j].m <= images[k].m
  }

  ghost predicate BlankFrom(labels: array2<int>, w: nat)
    reads labels
  {
    labels.Length0 == NMAX && labels.Length1 == NMAX && forall a, b :: w <= a < NMAX && 0 <= b < NMAX ==> labels[a, b] == 0
  }

  /** Every column that an image used so far has is to the left of w. */
  predicate WidthsBelow(images: seq<Image>, k: nat, w: nat) {
    (forall j :: 0 <= j < k && j < |images| && !TooLarge(images[j]) ==> images[j].m <= w)
    && (w > 0 ==> exists j :: 0 <= j < k && j < |images| && !TooLarge(images[j]) && images[j].m == w)
  }

  /** The buffers are static and begin with zeros: with images of one size, or of growing widths,
      every call gives the components of its own image. */
  method ConnectAll(images: seq<Image>) returns (found: seq<Found>, ghost regions: seq<seq<set<Pixel>>>)
    requires forall k :: 0 <= k < |images| ==> images[k].m * images[k].n <= |images[k].pixels|
    requires Widening(images)
    ensures |found| == |regions| == |images|
    ensures forall k :: 0 <= k < |images| ==> Answers(images[k], found[k], regions[k])
  {
    hide MarginClear, Foreground, Result, EightResult, Widening;
    var labels := new int[NMAX, NMAX]((i, j) => 0);
    var eq := new EquivalenceTable();
    found, regions := [], [];
    ghost var w: nat := 0;
    var k := 0;
    while k < |images|
      invariant 0 <= k <= |images| && |found| == |regions| == k
      invariant BlankFrom(labels, w) && WidthsBelow(images, k, w) && fresh(labels) && fresh(eq)
      invariant forall l :: 0 <= l < k ==> Answers(images[l], found[l], regions[l])
    {
      var x := images[k];
      NarrowEnough(images, k, w);
      BlankMargin(labels, Foreground(x.pixels, x.m, x.n, x.mask), x.m, x.n, w);
      var count, props, parts := Connect(eq, labels, [], x.pixels, x.m, x.n, x.mask);
      found, regions := found + [Found(count, props)], regions + [parts];
      WidthsNext(images, k, w);
      if !TooLarge(x) && x.m > w {
        w := x.m;
      }
      k := k + 1;
    }
  }

  ghost predicate Answers(x: Image, f: Found, regions: seq<set<Pixel>>) {
    if TooLarge(x) then f.count == -1 else Result(Foreground(x.pixels, x.m, x.n, x.mask), x.n, f.count, f.props, regions)
  }

  lemma BlankMargin(labels: array2<int>, fg: set<Pixel>, m: nat, n: nat, w: nat)
    requires BlankFrom(labels, w) && (m < n <= NMAX ==> w <= m)
    ensures MarginClear(labels, fg, m, n)
  {}

  lemma NarrowEnough(images: seq<Image>, k: nat, w: nat)
    requires Widening(images) && k < |images| && WidthsBelow(images, k, w)
    ensures !TooLarge(images[k]) && images[k].m < images[k].n ==> w <= images[k].m
  {}

  lemma WidthsNext(images: seq<Image>, k: nat, w: nat)
    requires k < |images| && WidthsBelow(images, k, w)
    ensures WidthsBelow(images, k + 1, if !TooLarge(images[k]) && images[k].m > w then images[k].m else w)
  {}
}
