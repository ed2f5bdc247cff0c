/** Pixels, the neighbour links the labelling scan looks at, and what it means
    for two foreground pixels to be joined by a path of such links. */
module PixelGraph {

  datatype Pixel = Pixel(i: int, j: int)

  /** q is one of the neighbours looked at when the scan reaches p.  The north-east
      neighbour is looked at only left of column n - 1, n being the number of rows. */
  predicate Earlier(n: int, p: Pixel, q: Pixel) {
    || q == Pixel(p.i - 1, p.j)
    || q == Pixel(p.i, p.j - 1)
    || q == Pixel(p.i - 1, p.j - 1)
    || (q == Pixel(p.i + 1, p.j - 1) && p.i < n - 1)
  }

  predicate Linked(n: int, p: Pixel, q: Pixel) {
    Earlier(n, p, q) || Earlier(n, q, p)
  }

  /** Full 8-connectivity of neighbours. */
  predicate Touching(p: Pixel, q: Pixel) {
    p != q && -1 <= p.i - q.i <= 1 && -1 <= p.j - q.j <= 1
  }

  ghost predicate IsPath(fg: set<Pixel>, n: int, path: seq<Pixel>) {
    && |path| > 0
    && (forall k :: 0 <= k < |path| ==> path[k] in fg)
    && (forall k :: 0 <= k < |path| - 1 ==> Linked(n, path[k], path[k+1]))
  }

  ghost predicate Joins(fg: set<Pixel>, n: int, path: seq<Pixel>, p: Pixel, q: Pixel) {
    IsPath(fg, n, path) && path[0] == p && path[|path|-1] == q
  }

  ghost predicate Connected(fg: set<Pixel>, n: int, p: Pixel, q: Pixel) {
    exists path :: Joins(fg, n, path, p, q)
  }

  lemma ConnectedSelf(fg: set<Pixel>, n: int, p: Pixel)
    requires p in fg
    ensures Connected(fg, n, p, p)
  {
    assert Joins(fg, n, [p], p, p);
  }

  lemma ConnectedLink(fg: set<Pixel>, n: int, p: Pixel, q: Pixel)
    requires p in fg && q in fg && Linked(n, p, q)
    ensures Connected(fg, n, p, q)
  {
    assert Joins(fg, n, [p, q], p, q);
  }

  lemma ConnectedTrans(fg: set<Pixel>, n: int, p: Pixel, q: Pixel, r: Pixel)
    requires Connected(fg, n, p, q) && Connected(fg, n, q, r)
    ensures Connected(fg, n, p, r)
  {
    var a :| Joins(fg, n, a, p, q);
    var b :| Joins(fg, n, b, q, r);
    assert Joins(fg, n, a + b[1..], p, r);
  }

  lemma ConnectedSym(fg: set<Pixel>, n: int, p: Pixel, q: Pixel)
    requires Connected(fg, n, p, q)
    ensures Connected(fg, n, q, p)
  {
    var a :| Joins(fg, n, a, p, q);
    var b := seq(|a|, k requires 0 <= k < |a| => a[|a|-1-k]);
    forall k | 0 <= k < |b| - 1
      ensures Linked(n, b[k], b[k+1])
    {
      assert Linked(n, a[|a|-2-k], a[|a|-2-k+1]);
    }
    assert Joins(fg, n, b, q, p);
  }

  /** The foreground pixels joined to p. */
  ghost function Component(fg: set<Pixel>, n: int, p: Pixel): set<Pixel> {
    set q | q in fg && Connected(fg, n, p, q)
  }

  ghost function Components(fg: set<Pixel>, n: int): set<set<Pixel>> {
    set p | p in fg :: Component(fg, n, p)
  }

  ghost predicate InGrid(fg: set<Pixel>, m: int, n: int) {
    forall p :: p in fg ==> 0 <= p.i < m && 0 <= p.j < n
  }

  /** A label that is constant along links is constant along paths. */
  lemma {:induction false} PathKeeps(fg: set<Pixel>, n: int, path: seq<Pixel>, f: map<Pixel, int>)
    requires IsPath(fg, n, path) && fg <= f.Keys
    requires forall p, q :: p in fg && q in fg && Earlier(n, p, q) ==> f[p] == f[q]
    ensures f[path[0]] == f[path[|path|-1]]
    decreases |path|
  {
    if |path| > 1 {
      PathKeeps(fg, n, path[1..], f);
      assert Linked(n, path[0], path[1]);
    }
  }

  ghost predicate EightPath(fg: set<Pixel>, path: seq<Pixel>, p: Pixel, q: Pixel) {
    && |path| > 0 && path[0] == p && path[|path|-1] == q
    && (forall k :: 0 <= k < |path| ==> path[k] in fg)
    && (forall k :: 0 <= k < |path| - 1 ==> Touching(path[k], path[k+1]))
  }

  ghost predicate EightConnected(fg: set<Pixel>, p: Pixel, q: Pixel) {
    exists path :: EightPath(fg, path, p, q)
  }

  lemma EightToLinks(fg: set<Pixel>, m: nat, n: nat, path: seq<Pixel>, p: Pixel, q: Pixel)
    requires InGrid(fg, m, n) && (m <= n || n <= 1) && EightPath(fg, path, p, q)
    ensures Connected(fg, n, p, q)
  {
    forall k | 0 <= k < |path| - 1
      ensures Linked(n, path[k], path[k+1])
    {
      assert Touching(path[k], path[k+1]);
    }
    assert Joins(fg, n, path, p, q);
  }

  lemma LinksToEight(fg: set<Pixel>, n: int, path: seq<Pixel>, p: Pixel, q: Pixel)
    requires Joins(fg, n, path, p, q)
    ensures EightConnected(fg, p, q)
  {
    forall k | 0 <= k < |path| - 1
      ensures Touching(path[k], path[k+1])
    {
      assert Linked(n, path[k], path[k+1]);
    }
    assert EightPath(fg, path, p, q);
  }

  /** The pixels of a missing corner link are 8-connected but not joined by the scan. */
  lemma MissedCorner(n: nat)
    requires n >= 2
    ensures var p, q := Pixel(n - 1, 1), Pixel(n, 0);
            EightConnected({p, q}, p, q) && !Connected({p, q}, n, p, q)
  {
    var p, q := Pixel(n - 1, 1), Pixel(n, 0);
    assert EightPath({p, q}, [p, q], p, q);
    if Connected({p, q}, n, p, q) {
      var path :| Joins({p, q}, n, path, p, q);
      PathKeeps({p, q}, n, path, map[p := 0, q := 1]);
    }
  }

  ghost function EightComponent(fg: set<Pixel>, p: Pixel): set<Pixel> {
    set q | q in fg && EightConnected(fg, p, q)
  }

  ghost function EightComponents(fg: set<Pixel>): set<set<Pixel>> {
    set p | p in fg :: EightComponent(fg, p)
  }

  /** In these image sizes the components found are the 8-connected ones. */
  lemma SameComponents(fg: set<Pixel>, m: nat, n: nat)
    requires InGrid(fg, m, n) && (m <= n || n <= 1)
    ensures Components(fg, n) == EightComponents(fg)
  {
    EightConnectedIff(m, n);
    forall p | p in fg
      ensures Component(fg, n, p) == EightComponent(fg, p)
    {}
    hide Component, EightComponent;
  }

  /** The links of the scan join exactly the 8-connected pixels, in every image of a
      given size, if and only if the image is no wider than high or has one row. */
  lemma EightConnectedIff(m: nat, n: nat)
    ensures (forall fg: set<Pixel>, p, q :: InGrid(fg, m, n) && p in fg && q in fg ==>
               (Connected(fg, n, p, q) <==> EightConnected(fg, p, q)))
            <==> (m <= n || n <= 1)
  {
    if m <= n || n <= 1 {
      forall fg: set<Pixel>, p, q | InGrid(fg, m, n) && p in fg && q in fg
        ensures Connected(fg, n, p, q) <==> EightConnected(fg, p, q)
      {
        if Connected(fg, n, p, q) {
          var path :| Joins(fg, n, path, p, q);
          LinksToEight(fg, n, path, p, q);
        }
        if EightConnected(fg, p, q) {
          var path :| EightPath(fg, path, p, q);
          EightToLinks(fg, m, n, path, p, q);
        }
      }
    } else {
      MissedCorner(n);
      assert InGrid({Pixel(n - 1, 1), Pixel(n, 0)}, m, n);
    }
  }
}
