/** Colour clusters of a labelled image: regions of equal label grown over a queue, with their
    sizes and bounding boxes. */
module FloodFill {

  datatype Point = Point(x: int, y: int)

  datatype Image = Image(m: nat, n: nat, pixel: seq<nat>) {
    ghost predicate Valid() { |pixel| == m * n }
    predicate Inside(p: Point) { 0 <= p.x < m && 0 <= p.y < n }
    function Index(p: Point): int { p.y * m + p.x }
  }

  /** A point of the image has a place in the vectors. */
  lemma IndexFits(img: Image, p: Point)
    requires img.Inside(p)
    ensures 0 <= img.Index(p) < img.m * img.n
  {
    assert (img.n - 1 - p.y) * img.m >= 0;
    assert p.y * img.m + (img.n - 1 - p.y) * img.m == (img.n - 1) * img.m;
    assert (img.n - 1) * img.m == img.n * img.m - img.m;
  }

  lemma IndexOnce(img: Image, p: Point, q: Point)
    requires img.Inside(p) && img.Inside(q) && img.Index(p) == img.Index(q)
    ensures p == q
  {
    var d := p.y - q.y;
    assert d * img.m == q.x - p.x;
    assert d >= 1 ==> d * img.m >= img.m;
    assert d <= -1 ==> d * img.m <= -1 * img.m;
  }

  function Tag(img: Image, p: Point): nat
    requires img.Valid() && img.Inside(p)
  {
    IndexFits(img, p);
    img.pixel[img.Index(p)]
  }

  /** A flag for every point. */
  predicate Sized(img: Image, flags: seq<bool>) { |flags| == img.m * img.n }

  predicate Flagged(img: Image, flags: seq<bool>, p: Point)
    requires Sized(img, flags)
  {
    img.Inside(p) && (IndexFits(img, p); flags[img.Index(p)])
  }

  /** Setting the flag of one point. */
  lemma FlagSet(img: Image, flags: seq<bool>, p: Point)
    requires Sized(img, flags) && img.Inside(p)
    ensures 0 <= img.Index(p) < |flags|
    ensures forall q :: Flagged(img, flags[img.Index(p) := true], q) <==> Flagged(img, flags, q) || q == p
  {
    IndexFits(img, p);
    var flags1 := flags[img.Index(p) := true];
    assert Sized(img, flags1);
    forall q
      ensures Flagged(img, flags1, q) <==> Flagged(img, flags, q) || q == p
    {
      if img.Inside(q) {
        IndexFits(img, q);
        if img.Index(q) == img.Index(p) {
          IndexOnce(img, q, p);
        }
      }
    }
  }

  // ---------- Regions ----------

  /** The four directions: left, down, right, up. */
  function Neighbour(p: Point, k: int): Point {
    if k == 0 then Point(p.x - 1, p.y)
    else if k == 1 then Point(p.x, p.y + 1)
    else if k == 2 then Point(p.x + 1, p.y)
    else Point(p.x, p.y - 1)
  }

  predicate Next(img: Image, p: Point, q: Point)
    requires img.Valid()
  {
    img.Inside(p) && img.Inside(q) && Tag(img, p) == Tag(img, q)
    && (q == Neighbour(p, 0) || q == Neighbour(p, 1) || q == Neighbour(p, 2) || q == Neighbour(p, 3))
  }

  ghost predicate Walk(img: Image, w: seq<Point>)
    requires img.Valid()
  {
    forall a, b :: 0 <= a < b < |w| && b == a + 1 ==> Next(img, w[a], w[b])
  }

  /** A walk over points of one label leads from p to q. */
  ghost predicate Connected(img: Image, p: Point, q: Point)
    requires img.Valid()
  {
    img.Inside(p) && exists w :: |w| > 0 && Walk(img, w) && w[0] == p && w[|w|-1] == q
  }

  lemma ConnectedSelf(img: Image, p: Point)
    requires img.Valid() && img.Inside(p)
    ensures Connected(img, p, p)
  {
    assert [p][0] == p && Walk(img, [p]);
  }

  lemma ConnectedNext(img: Image, p: Point, q: Point, r: Point)
    requires img.Valid() && Connected(img, p, q) && Next(img, q, r)
    ensures Connected(img, p, r)
  {
    var w :| |w| > 0 && Walk(img, w) && w[0] == p && w[|w|-1] == q;
    var v := w + [r];
    assert Walk(img, v) && v[0] == p && v[|v|-1] == r;
  }

  /** What is closed under steps and holds p holds all that p is connected to. */
  lemma {:induction false} WalkStays(img: Image, w: seq<Point>, s: set<Point>, k: nat)
    requires img.Valid() && Walk(img, w) && k < |w| && w[0] in s
    requires forall p, q :: p in s && Next(img, p, q) ==> q in s
    ensures w[k] in s
    decreases k
  {
    if k > 0 {
      WalkStays(img, w, s, k - 1);
      assert Next(img, w[k-1], w[k]);
    }
  }

  ghost predicate Distinct(s: seq<Point>) { forall a, b :: 0 <= a < b < |s| ==> s[a] != s[b] }

  /** The points of the queue are the region of its first point. */
  ghost predicate IsRegion(img: Image, f: seq<Point>)
    requires img.Valid()
  {
    f != [] && Distinct(f) && forall q :: q in f <==> Connected(img, f[0], q)
  }

  /** Flags are set for whole regions only. */
  ghost predicate Whole(img: Image, flags: seq<bool>)
    requires img.Valid() && Sized(img, flags)
  {
    forall p, q :: Next(img, p, q) && Flagged(img, flags, q) ==> Flagged(img, flags, p)
  }

  // ---------- Growing one region ----------

  /** The flags, the queue and the two corners while a region grows. */
  datatype Grown = Grown(flags: seq<bool>, queue: seq<Point>, lo: Point, hi: Point)

  /** What holds for the queue: flags0 are the flags before. */
  ghost predicate Growing(img: Image, flags0: seq<bool>, g: Grown)
    requires img.Valid()
  {
    && Sized(img, flags0) && Sized(img, g.flags) && g.queue != [] && img.Inside(g.queue[0]) && Distinct(g.queue)
    && (forall a :: 0 <= a < |g.queue| ==>
          img.Inside(g.queue[a]) && Tag(img, g.queue[a]) == Tag(img, g.queue[0])
          && !Flagged(img, flags0, g.queue[a]) && Connected(img, g.queue[0], g.queue[a]))
    && (forall q :: Flagged(img, g.flags, q) <==> Flagged(img, flags0, q) || q in g.queue)
  }

  /** The box reaches as far as p in direction k. */
  predicate Covers(lo: Point, hi: Point, p: Point, k: int) {
    if k == 0 then lo.x <= p.x
    else if k == 1 then p.y <= hi.y
    else if k == 2 then p.x <= hi.x
    else lo.y <= p.y
  }

  /** Each side of the box goes through some point. */
  ghost predicate Attained(queue: seq<Point>, lo: Point, hi: Point) {
    && (exists p :: p in queue && p.x == lo.x) && (exists p :: p in queue && p.y == lo.y)
    && (exists p :: p in queue && p.x == hi.x) && (exists p :: p in queue && p.y == hi.y)
  }

  /** The tight bounding box. */
  ghost predicate Box(queue: seq<Point>, lo: Point, hi: Point) {
    Attained(queue, lo, hi) && forall p :: p in queue ==> lo.x <= p.x <= hi.x && lo.y <= p.y <= hi.y
  }

  /** Direction k of p is settled: the neighbour is flagged if it belongs to the region, and the
      box covers p unless the neighbour is in the queue. */
  ghost predicate Settled(img: Image, g: Grown, p: Point, k: int)
    requires img.Valid() && Sized(img, g.flags) && img.Inside(p)
  {
    var q := Neighbour(p, k);
    (img.Inside(q) && Tag(img, q) == Tag(img, p) ==> Flagged(img, g.flags, q))
    && (Covers(g.lo, g.hi, p, k) || q in g.queue)
  }

  ghost predicate AllSettled(img: Image, g: Grown, p: Point)
    requires img.Valid() && Sized(img, g.flags) && img.Inside(p)
  {
    Settled(img, g, p, 0) && Settled(img, g, p, 1) && Settled(img, g, p, 2) && Settled(img, g, p, 3)
  }

  /** Only more flags, more points, a larger box. */
  ghost predicate Larger(g: Grown, h: Grown) {
    && |h.flags| == |g.flags| && (forall a :: 0 <= a < |g.flags| && g.flags[a] ==> h.flags[a])
    && g.queue <= h.queue && h.lo.x <= g.lo.x && h.lo.y <= g.lo.y && g.hi.x <= h.hi.x && g.hi.y <= h.hi.y
  }

  ghost function Unset(flags: seq<bool>): set<int> { set a | 0 <= a < |flags| && !flags[a] }

  /** Nothing was found, or there are fewer points left. */
  ghost predicate Progress(g: Grown, h: Grown) {
    (h.queue == g.queue && h.flags == g.flags) || Unset(h.flags) < Unset(g.flags)
  }

  lemma LargerSame(g: Grown)
    ensures Larger(g, g) && Progress(g, g)
  {}

  lemma LargerTwice(a: Grown, b: Grown, c: Grown)
    requires Larger(a, b) && Progress(a, b) && Larger(b, c) && Progress(b, c)
    ensures Larger(a, c) && Progress(a, c)
  {
    hide Unset;
  }

  lemma SamePlace(g: Grown, h: Grown, a: nat)
    requires Larger(g, h) && a < |g.queue|
    ensures |g.queue| <= |h.queue| && h.queue[a] == g.queue[a]
  {}

  lemma StaysSettled(img: Image, g: Grown, h: Grown, p: Point, k: int)
    requires img.Valid() && Sized(img, g.flags) && img.Inside(p) && Settled(img, g, p, k) && Larger(g, h)
    ensures Sized(img, h.flags) && Settled(img, h, p, k)
  {
    var q := Neighbour(p, k);
    if img.Inside(q) {
      IndexFits(img, q);
    }
    assert q in g.queue ==> q in h.queue by { assert forall a :: 0 <= a < |g.queue| ==> h.queue[a] == g.queue[a]; }
  }

  // A neighbour is found.

  function Push(img: Image, g: Grown, q: Point): Grown
    requires 0 <= img.Index(q) < |g.flags|
  {
    g.(flags := g.flags[img.Index(q) := true], queue := g.queue + [q])
  }

  lemma PushGrows(img: Image, flags0: seq<bool>, g: Grown, a: nat, q: Point)
    requires img.Valid() && Growing(img, flags0, g) && a < |g.queue| && Next(img, g.queue[a], q) && !Flagged(img, g.flags, q)
    ensures 0 <= img.Index(q) < |g.flags| && Growing(img, flags0, Push(img, g, q))
  {
    FlagSet(img, g.flags, q);
    ConnectedNext(img, g.queue[0], g.queue[a], q);
    hide Connected, Next, Flagged;
  }

  lemma FewerUnset(flags: seq<bool>, a: nat)
    requires a < |flags| && !flags[a]
    ensures Unset(flags[a := true]) < Unset(flags)
  {
    assert a in Unset(flags) && a !in Unset(flags[a := true]);
  }

  lemma AttainedMore(queue: seq<Point>, lo: Point, hi: Point, q: Point)
    requires Attained(queue, lo, hi)
    ensures Attained(queue + [q], lo, hi)
  {
    assert forall p :: p in queue ==> p in queue + [q];
  }

  lemma PushSettles(img: Image, g: Grown, p: Point, k: int)
    requires img.Valid() && img.Inside(p) && Sized(img, g.flags)
    requires var q := Neighbour(p, k); img.Inside(q) && !Flagged(img, g.flags, q)
    ensures var q := Neighbour(p, k);
      0 <= img.Index(q) < |g.flags| && Sized(img, Push(img, g, q).flags)
      && Larger(g, Push(img, g, q)) && Progress(g, Push(img, g, q)) && Settled(img, Push(img, g, q), p, k)
  {
    var q := Neighbour(p, k);
    FlagSet(img, g.flags, q);
    FewerUnset(g.flags, img.Index(q));
    hide Unset;
    assert (g.queue + [q])[|g.queue|] == q;
  }

  // No neighbour is found: a corner may move.

  function LowCorner(lo: Point, p: Point, k: int): Point {
    if k == 0 && p.x < lo.x then lo.(x := p.x) else if k == 3 && p.y < lo.y then lo.(y := p.y) else lo
  }

  function HighCorner(hi: Point, p: Point, k: int): Point {
    if k == 1 && p.y > hi.y then hi.(y := p.y) else if k == 2 && p.x > hi.x then hi.(x := p.x) else hi
  }

  lemma CornerMoved(img: Image, g: Grown, p: Point, k: int)
    requires img.Valid() && Sized(img, g.flags) && img.Inside(p) && p in g.queue && 0 <= k < 4 && Attained(g.queue, g.lo, g.hi)
    requires var q := Neighbour(p, k); img.Inside(q) && Tag(img, q) == Tag(img, p) ==> Flagged(img, g.flags, q)
    ensures var h := g.(lo := LowCorner(g.lo, p, k), hi := HighCorner(g.hi, p, k));
      Attained(h.queue, h.lo, h.hi) && Larger(g, h) && Progress(g, h) && Settled(img, h, p, k)
  {}

  lemma SameGrowing(img: Image, flags0: seq<bool>, g: Grown, h: Grown)
    requires img.Valid() && Growing(img, flags0, g) && h.flags == g.flags && h.queue == g.queue
    ensures Growing(img, flags0, h)
  {}

  lemma GrowingAt(img: Image, flags0: seq<bool>, g: Grown, a: nat)
    requires img.Valid() && Growing(img, flags0, g) && a < |g.queue|
    ensures Sized(img, g.flags) && img.Inside(g.queue[a]) && img.Inside(g.queue[0])
    ensures Tag(img, g.queue[a]) == Tag(img, g.queue[0]) && g.queue[a] in g.queue
  {}

  /** One of the four neighbours of a point. */
  method Look(img: Image, tag: nat, nStart: nat, k: int, ghost flags0: seq<bool>, g: Grown) returns (h: Grown)
    requires img.Valid() && 0 <= k < 4 && Growing(img, flags0, g) && nStart < |g.queue| && Attained(g.queue, g.lo, g.hi)
    requires img.Inside(g.queue[nStart]) && Tag(img, g.queue[nStart]) == tag
    ensures Growing(img, flags0, h) && Attained(h.queue, h.lo, h.hi)
    ensures Larger(g, h) && Progress(g, h) && Sized(img, h.flags) && Settled(img, h, g.queue[nStart], k)
  {
    GrowingAt(img, flags0, g, nStart);
    hide Growing, Attained, Settled, Larger, Progress, Sized;
    var curr := g.queue[nStart];
    var q := Neighbour(curr, k);
    if img.Inside(q) && !Flagged(img, g.flags, q) && Tag(img, q) == tag {
      assert Next(img, curr, q);
      PushGrows(img, flags0, g, nStart, q);
      PushSettles(img, g, curr, k);
      AttainedMore(g.queue, g.lo, g.hi, q);
      h := Push(img, g, q);
    } else {
      h := g.(lo := LowCorner(g.lo, curr, k), hi := HighCorner(g.hi, curr, k));
      CornerMoved(img, g, curr, k);
      SameGrowing(img, flags0, g, h);
    }
  }

  /** The four neighbours of the point at nStart. */
  method Spread(img: Image, tag: nat, nStart: nat, ghost flags0: seq<bool>, g: Grown) returns (h: Grown)
    requires img.Valid() && Growing(img, flags0, g) && nStart < |g.queue| && Attained(g.queue, g.lo, g.hi)
    requires img.Inside(g.queue[nStart]) && Tag(img, g.queue[nStart]) == tag
    ensures Growing(img, flags0, h) && Attained(h.queue, h.lo, h.hi)
    ensures Larger(g, h) && Progress(g, h) && Sized(img, h.flags) && AllSettled(img, h, g.queue[nStart])
  {
    hide Growing, Attained, Settled, Larger, Progress, Sized;
    var curr := g.queue[nStart];
    h := g;
    LargerSame(g);
    GrowingAt(img, flags0, g, nStart);
    for k := 0 to 4
      invariant Growing(img, flags0, h) && Attained(h.queue, h.lo, h.hi) && Larger(g, h) && Progress(g, h)
      invariant Sized(img, h.flags) && nStart < |h.queue| && h.queue[nStart] == curr
      invariant forall d :: 0 <= d < k ==> Settled(img, h, curr, d)
    {
      ghost var b := h;
      h := Look(img, tag, nStart, k, flags0, h);
      LargerTwice(g, b, h);
      SamePlace(b, h, nStart);
      forall d | 0 <= d < k
        ensures Settled(img, h, curr, d)
      {
        StaysSettled(img, b, h, curr, d);
      }
    }
  }

  /** The points in front of nStart are settled. */
  ghost predicate Done(img: Image, g: Grown, nStart: nat)
    requires img.Valid()
  {
    Sized(img, g.flags) && nStart <= |g.queue|
    && forall a :: 0 <= a < nStart ==> img.Inside(g.queue[a]) && AllSettled(img, g, g.queue[a])
  }

  lemma DoneMore(img: Image, g: Grown, h: Grown, nStart: nat)
    requires img.Valid() && Done(img, g, nStart) && nStart < |g.queue| && img.Inside(g.queue[nStart])
    requires Larger(g, h) && Sized(img, h.flags) && AllSettled(img, h, g.queue[nStart])
    ensures Done(img, h, nStart + 1)
  {
    SamePlace(g, h, nStart);
    forall a | 0 <= a < nStart
      ensures h.queue[a] == g.queue[a] && AllSettled(img, h, g.queue[a])
    {
      SamePlace(g, h, a);
      hide Settled, Larger;
      StaysSettled(img, g, h, g.queue[a], 0);
      StaysSettled(img, g, h, g.queue[a], 1);
      StaysSettled(img, g, h, g.queue[a], 2);
      StaysSettled(img, g, h, g.queue[a], 3);
    }
    hide AllSettled, Larger;
  }

  // ---------- At the end ----------

  lemma {:induction false} LeftCovered(img: Image, g: Grown, p: Point)
    requires img.Valid() && Done(img, g, |g.queue|) && p in g.queue
    ensures g.lo.x <= p.x && img.Inside(p)
    decreases p.x
  {
    var a :| 0 <= a < |g.queue| && g.queue[a] == p;
    assert AllSettled(img, g, g.queue[a]);
    if g.lo.x > p.x && p.x >= 0 {
      LeftCovered(img, g, Neighbour(p, 0));
    }
  }

  lemma {:induction false} UpCovered(img: Image, g: Grown, p: Point)
    requires img.Valid() && Done(img, g, |g.queue|) && p in g.queue
    ensures g.lo.y <= p.y && img.Inside(p)
    decreases p.y
  {
    var a :| 0 <= a < |g.queue| && g.queue[a] == p;
    assert AllSettled(img, g, g.queue[a]);
    if g.lo.y > p.y && p.y >= 0 {
      UpCovered(img, g, Neighbour(p, 3));
    }
  }

  lemma {:induction false} RightCovered(img: Image, g: Grown, p: Point)
    requires img.Valid() && Done(img, g, |g.queue|) && p in g.queue
    ensures p.x <= g.hi.x && img.Inside(p)
    decreases img.m - p.x
  {
    var a :| 0 <= a < |g.queue| && g.queue[a] == p;
    assert AllSettled(img, g, g.queue[a]);
    if g.hi.x < p.x && p.x < img.m {
      RightCovered(img, g, Neighbour(p, 2));
    }
  }

  lemma {:induction false} DownCovered(img: Image, g: Grown, p: Point)
    requires img.Valid() && Done(img, g, |g.queue|) && p in g.queue
    ensures p.y <= g.hi.y && img.Inside(p)
    decreases img.n - p.y
  {
    var a :| 0 <= a < |g.queue| && g.queue[a] == p;
    assert AllSettled(img, g, g.queue[a]);
    if g.hi.y < p.y && p.y < img.n {
      DownCovered(img, g, Neighbour(p, 1));
    }
  }

  /** Where no direction leads out of the queue any more, the box is tight. */
  lemma BoxDone(img: Image, g: Grown)
    requires img.Valid() && Done(img, g, |g.queue|) && Attained(g.queue, g.lo, g.hi)
    ensures Box(g.queue, g.lo, g.hi)
  {
    hide Done, Attained;
    forall p | p in g.queue
      ensures g.lo.x <= p.x <= g.hi.x && g.lo.y <= p.y <= g.hi.y
    {
      LeftCovered(img, g, p);
      UpCovered(img, g, p);
      RightCovered(img, g, p);
      DownCovered(img, g, p);
    }
  }

  /** And the queue is the whole region. */
  lemma RegionDone(img: Image, flags0: seq<bool>, g: Grown)
    requires img.Valid() && Growing(img, flags0, g) && Done(img, g, |g.queue|) && Whole(img, flags0)
    ensures IsRegion(img, g.queue) && Whole(img, g.flags)
  {
    forall p, q | p in g.queue && Next(img, p, q)
      ensures q in g.queue
    {
      var a :| 0 <= a < |g.queue| && g.queue[a] == p;
      assert AllSettled(img, g, g.queue[a]);
      assert Flagged(img, g.flags, q);
    }
    QueueHolds(img, g.queue);
    hide Done, Connected;
    forall p, q | Next(img, p, q) && Flagged(img, g.flags, q)
      ensures Flagged(img, g.flags, p)
    {
      if q in g.queue {
        NextBack(img, p, q);
        assert p in g.queue;
      }
    }
  }

  lemma NextBack(img: Image, p: Point, q: Point)
    requires img.Valid() && Next(img, p, q)
    ensures Next(img, q, p)
  {}

  lemma QueueHolds(img: Image, queue: seq<Point>)
    requires img.Valid() && queue != [] && forall p, q :: p in queue && Next(img, p, q) ==> q in queue
    ensures forall q :: Connected(img, queue[0], q) ==> q in queue
  {
    var s := set p | p in queue;
    forall q | Connected(img, queue[0], q)
      ensures q in queue
    {
      var w :| |w| > 0 && Walk(img, w) && w[0] == queue[0] && w[|w|-1] == q;
      WalkStays(img, w, s, |w| - 1);
    }
  }

  /** Fills the region of a point that is not flagged yet. */
  method Fill(img: Image, p0: Point, flags: seq<bool>) returns (g: Grown)
    requires img.Valid() && Sized(img, flags) && img.Inside(p0) && !Flagged(img, flags, p0) && Whole(img, flags)
    ensures g.queue != [] && g.queue[0] == p0 && IsRegion(img, g.queue) && Box(g.queue, g.lo, g.hi)
    ensures Sized(img, g.flags) && Whole(img, g.flags)
    ensures forall q :: Flagged(img, g.flags, q) <==> Flagged(img, flags, q) || q in g.queue
  {
    FlagSet(img, flags, p0);
    FillBegins(img, p0, flags);
    hide Growing, Attained, Settled, AllSettled, Larger, Progress, Sized, Done, Unset, Flagged, Whole;
    var nStart := 0;
    var tag := Tag(img, p0);
    g := Grown(flags[img.Index(p0) := true], [p0], p0, p0);
    while nStart < |g.queue|
      invariant nStart <= |g.queue| && g.queue != [] && g.queue[0] == p0
      invariant Growing(img, flags, g) && Attained(g.queue, g.lo, g.hi) && Done(img, g, nStart)
      decreases Unset(g.flags), |g.queue| - nStart
    {
      GrowingAt(img, flags, g, nStart);
      ghost var b := g;
      g := Spread(img, tag, nStart, flags, g);
      DoneMore(img, b, g, nStart);
      SamePlace(b, g, 0);
      FewerLeft(b, g);
      nStart := nStart + 1;
    }
    BoxDone(img, g);
    RegionDone(img, flags, g);
    FillEnds(img, flags, g);
  }

  lemma FewerLeft(g: Grown, h: Grown)
    requires Progress(g, h)
    ensures (h.queue == g.queue && Unset(h.flags) == Unset(g.flags)) || Unset(h.flags) < Unset(g.flags)
  {}

  lemma FillBegins(img: Image, p0: Point, flags: seq<bool>)
    requires img.Valid() && Sized(img, flags) && img.Inside(p0) && !Flagged(img, flags, p0) && 0 <= img.Index(p0) < |flags|
    ensures var g := Grown(flags[img.Index(p0) := true], [p0], p0, p0);
      Growing(img, flags, g) && Attained(g.queue, g.lo, g.hi) && Done(img, g, 0)
  {
    FlagSet(img, flags, p0);
    ConnectedSelf(img, p0);
    hide Connected, Flagged;
    assert [p0][0] == p0;
  }

  lemma FillEnds(img: Image, flags: seq<bool>, g: Grown)
    requires img.Valid() && Growing(img, flags, g)
    ensures Sized(img, g.flags) && Sized(img, flags)
    ensures forall q :: Flagged(img, g.flags, q) <==> Flagged(img, flags, q) || q in g.queue
  {}

  // ---------- The scan ----------

  datatype Cluster = Cluster(tag: nat, count: nat, lo: Point, hi: Point)

  /** A cluster describes a region: its label, its size, its tight bounding box. */
  ghost predicate Describes(img: Image, c: Cluster, f: seq<Point>)
    requires img.Valid()
  {
    IsRegion(img, f) && img.Inside(f[0]) && c.tag == Tag(img, f[0]) && c.count == |f| && Box(f, c.lo, c.hi)
  }

  /** The clusters that pass the size tests. */
  function Kept(cs: seq<Cluster>, keep: Cluster -> bool): seq<Cluster> {
    if cs == [] then []
    else Kept(cs[..|cs|-1], keep) + if keep(cs[|cs|-1]) then [cs[|cs|-1]] else []
  }

  ghost predicate InSome(fs: seq<seq<Point>>, q: Point) { exists t :: 0 <= t < |fs| && q in fs[t] }

  ghost predicate FlagsAre(img: Image, flags: seq<bool>, fs: seq<seq<Point>>)
    requires Sized(img, flags)
  {
    forall q :: Flagged(img, flags, q) <==> InSome(fs, q)
  }

  ghost predicate AllDescribed(img: Image, fs: seq<seq<Point>>, cs: seq<Cluster>)
    requires img.Valid()
  {
    |cs| == |fs| && forall t :: 0 <= t < |fs| ==> Describes(img, cs[t], fs[t]) && cs[t].tag != 0
  }

  ghost predicate Apart(fs: seq<seq<Point>>) { forall t, u, q :: 0 <= t < u < |fs| && q in fs[t] ==> q !in fs[u] }

  /** The regions found so far are those of the flagged points, and no two share a point. */
  ghost predicate Found(img: Image, flags: seq<bool>, fs: seq<seq<Point>>, cs: seq<Cluster>)
    requires img.Valid()
  {
    Sized(img, flags) && Whole(img, flags) && AllDescribed(img, fs, cs) && FlagsAre(img, flags, fs) && Apart(fs)
  }

  /** Points before (i, j) in the order of the scan that belong to something are flagged. */
  ghost predicate Scanned(img: Image, flags: seq<bool>, i: int, j: int)
    requires img.Valid() && Sized(img, flags)
  {
    forall q :: img.Inside(q) && Tag(img, q) != 0 && (q.y < j || (q.y == j && q.x < i)) ==> Flagged(img, flags, q)
  }

  lemma FoundMore(img: Image, flags: seq<bool>, fs: seq<seq<Point>>, cs: seq<Cluster>, g: Grown, c: Cluster)
    requires img.Valid() && Found(img, flags, fs, cs) && Sized(img, g.flags) && Whole(img, g.flags)
    requires Describes(img, c, g.queue) && c.tag != 0 && g.queue != [] && img.Inside(g.queue[0]) && !Flagged(img, flags, g.queue[0])
    requires forall q :: Flagged(img, g.flags, q) <==> Flagged(img, flags, q) || q in g.queue
    ensures Found(img, g.flags, fs + [g.queue], cs + [c])
  {
    NotFlagged(img, flags, g.queue);
    FlagsMore(img, flags, fs, g);
    hide Whole, Flagged, FlagsAre, Sized, Apart, Describes;
    DescribedMore(img, fs, cs, g.queue, c);
    ApartMore(img, flags, fs, g.queue);
    hide AllDescribed;
  }

  lemma DescribedMore(img: Image, fs: seq<seq<Point>>, cs: seq<Cluster>, f: seq<Point>, c: Cluster)
    requires img.Valid() && AllDescribed(img, fs, cs) && Describes(img, c, f) && c.tag != 0
    ensures AllDescribed(img, fs + [f], cs + [c])
  {
    hide Describes;
  }

  lemma FlagsMore(img: Image, flags: seq<bool>, fs: seq<seq<Point>>, g: Grown)
    requires Sized(img, flags) && Sized(img, g.flags) && FlagsAre(img, flags, fs)
    requires forall q :: Flagged(img, g.flags, q) <==> Flagged(img, flags, q) || q in g.queue
    ensures FlagsAre(img, g.flags, fs + [g.queue])
  {
    hide Flagged, Sized;
    var fs1 := fs + [g.queue];
    forall q
      ensures Flagged(img, g.flags, q) <==> InSome(fs1, q)
    {
      if InSome(fs, q) {
        var t :| 0 <= t < |fs| && q in fs[t];
        assert q in fs1[t];
      }
      assert q in g.queue ==> q in fs1[|fs|];
    }
  }

  lemma ApartMore(img: Image, flags: seq<bool>, fs: seq<seq<Point>>, f: seq<Point>)
    requires Sized(img, flags) && FlagsAre(img, flags, fs) && Apart(fs)
    requires forall q :: q in f ==> !Flagged(img, flags, q)
    ensures Apart(fs + [f])
  {
    hide Flagged, Sized;
    forall t, q | 0 <= t < |fs| && q in fs[t]
      ensures q !in f
    {
      assert InSome(fs, q);
    }
  }

  /** No point of a region is flagged if one is not. */
  lemma NotFlagged(img: Image, flags: seq<bool>, f: seq<Point>)
    requires img.Valid() && Sized(img, flags) && Whole(img, flags) && IsRegion(img, f) && !Flagged(img, flags, f[0])
    ensures forall q :: q in f ==> !Flagged(img, flags, q)
  {
    forall q | q in f
      ensures !Flagged(img, flags, q)
    {
      var w :| |w| > 0 && Walk(img, w) && w[0] == f[0] && w[|w|-1] == q;
      WalkUnflagged(img, flags, w, |w| - 1);
    }
  }

  lemma {:induction false} WalkUnflagged(img: Image, flags: seq<bool>, w: seq<Point>, k: nat)
    requires img.Valid() && Sized(img, flags) && Whole(img, flags) && Walk(img, w) && k < |w| && !Flagged(img, flags, w[0])
    ensures !Flagged(img, flags, w[k])
    decreases k
  {
    if k > 0 {
      WalkUnflagged(img, flags, w, k - 1);
      assert Next(img, w[k-1], w[k]);
    }
  }

  /** All colour clusters: fs are the regions, each point with a label lies in exactly one, and
      the clusters kept are those of the regions that pass the tests. */
  method Clusters(img: Image, keep: Cluster -> bool) returns (infos: seq<Cluster>, ghost cs: seq<Cluster>, ghost fs: seq<seq<Point>>)
    requires img.Valid()
    ensures AllDescribed(img, fs, cs) && infos == Kept(cs, keep)
    ensures Apart(fs) && forall q :: img.Inside(q) && Tag(img, q) != 0 ==> InSome(fs, q)
  {
    var flags := seq(img.m * img.n, _ => false);
    infos, cs, fs := [], [], [];
    NothingFound(img, flags);
    hide Found, Scanned, Whole, Sized, Flagged, IsRegion, Box;
    var j := 0;
    while j < img.n
      invariant 0 <= j <= img.n && Found(img, flags, fs, cs) && infos == Kept(cs, keep)
      invariant Sized(img, flags) && Scanned(img, flags, 0, j)
    {
      var i := 0;
      while i < img.m
        invariant 0 <= i <= img.m && Found(img, flags, fs, cs) && infos == Kept(cs, keep)
        invariant Sized(img, flags) && Scanned(img, flags, i, j)
      {
        var p := Point(i, j);
        FoundWhole(img, flags, fs, cs);
        if Tag(img, p) != 0 && !Flagged(img, flags, p) {
          var g := Fill(img, p, flags);
          var c := Cluster(Tag(img, p), |g.queue|, g.lo, g.hi);
          FoundMore(img, flags, fs, cs, g, c);
          ScannedMore(img, flags, g, i, j);
          cs, fs := cs + [c], fs + [g.queue];
          KeptLast(cs, keep);
          if keep(c) {
            infos := infos + [c];
          }
          flags := g.flags;
        } else {
          ScannedPast(img, flags, i, j);
        }
        i := i + 1;
      }
      RowScanned(img, flags, j);
      j := j + 1;
    }
    AllFound(img, flags, fs, cs);
  }

  lemma NothingFound(img: Image, flags: seq<bool>)
    requires img.Valid() && Sized(img, flags) && forall a :: 0 <= a < |flags| ==> !flags[a]
    ensures Found(img, flags, [], []) && Scanned(img, flags, 0, 0)
  {
    forall q | img.Inside(q)
      ensures !Flagged(img, flags, q)
    {
      IndexFits(img, q);
    }
    hide Flagged;
  }

  lemma FoundWhole(img: Image, flags: seq<bool>, fs: seq<seq<Point>>, cs: seq<Cluster>)
    requires img.Valid() && Found(img, flags, fs, cs)
    ensures Sized(img, flags) && Whole(img, flags)
  {}

  lemma KeptLast(cs: seq<Cluster>, keep: Cluster -> bool)
    requires cs != []
    ensures Kept(cs, keep) == Kept(cs[..|cs|-1], keep) + if keep(cs[|cs|-1]) then [cs[|cs|-1]] else []
  {}

  lemma ScannedMore(img: Image, flags: seq<bool>, g: Grown, i: int, j: int)
    requires img.Valid() && Sized(img, flags) && Sized(img, g.flags) && Scanned(img, flags, i, j)
    requires g.queue != [] && g.queue[0] == Point(i, j)
    requires forall q :: Flagged(img, g.flags, q) <==> Flagged(img, flags, q) || q in g.queue
    ensures Scanned(img, g.flags, i + 1, j)
  {
    hide Flagged;
    assert Point(i, j) in g.queue;
    forall q | img.Inside(q) && Tag(img, q) != 0 && (q.y < j || (q.y == j && q.x < i + 1))
      ensures Flagged(img, g.flags, q)
    {
      assert q.y == j && q.x == i ==> q == Point(i, j);
    }
  }

  lemma ScannedPast(img: Image, flags: seq<bool>, i: int, j: int)
    requires img.Valid() && Sized(img, flags) && Scanned(img, flags, i, j) && img.Inside(Point(i, j))
    requires Tag(img, Point(i, j)) == 0 || Flagged(img, flags, Point(i, j))
    ensures Scanned(img, flags, i + 1, j)
  {
    hide Flagged;
    forall q | img.Inside(q) && Tag(img, q) != 0 && (q.y < j || (q.y == j && q.x < i + 1))
      ensures Flagged(img, flags, q)
    {
      assert q.y == j && q.x == i ==> q == Point(i, j);
    }
  }

  lemma RowScanned(img: Image, flags: seq<bool>, j: int)
    requires img.Valid() && Sized(img, flags) && Scanned(img, flags, img.m, j)
    ensures Scanned(img, flags, 0, j + 1)
  {
    hide Flagged;
  }

  lemma AllFound(img: Image, flags: seq<bool>, fs: seq<seq<Point>>, cs: seq<Cluster>)
    requires img.Valid() && Found(img, flags, fs, cs) && Scanned(img, flags, 0, img.n)
    ensures AllDescribed(img, fs, cs)
    ensures Apart(fs) && forall q :: img.Inside(q) && Tag(img, q) != 0 ==> InSome(fs, q)
  {
    hide Flagged, Describes, Whole;
  }
}
