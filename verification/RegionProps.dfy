/** The statistics kept for one region: area, bounding box and coordinate sums. */
module RegionStatistics {
  import opened PixelGraph

  const INT_MAX := 0x7FFF_FFFF
  const INT_MIN := -0x8000_0000

  datatype RegionProps = RegionProps(
    area: int, minI: int, maxI: int, minJ: int, maxJ: int, sumI: int, sumJ: int)
  {
    function Add(i: int, j: int): RegionProps {
      RegionProps(area + 1,
                  if i < minI then i else minI, if i > maxI then i else maxI,
                  if j < minJ then j else minJ, if j > maxJ then j else maxJ,
                  sumI + i, sumJ + j)
    }
  }

  const EMPTY := RegionProps(0, INT_MAX, INT_MIN, INT_MAX, INT_MIN, 0, 0)

  ghost function SumI(s: set<Pixel>): int {
    if s == {} then 0 else var p :| p in s; p.i + SumI(s - {p})
  }

  ghost function SumJ(s: set<Pixel>): int {
    if s == {} then 0 else var p :| p in s; p.j + SumJ(s - {p})
  }

  lemma {:induction false} SumsInsert(s: set<Pixel>, p: Pixel)
    requires p !in s
    ensures SumI(s + {p}) == SumI(s) + p.i && SumJ(s + {p}) == SumJ(s) + p.j
  {
    SumIRemove(s + {p}, p);
    SumJRemove(s + {p}, p);
    assert s + {p} - {p} == s;
  }

  lemma {:induction false} SumIRemove(s: set<Pixel>, p: Pixel)
    requires p in s
    ensures SumI(s) == p.i + SumI(s - {p})
  {
    var q :| q in s && SumI(s) == q.i + SumI(s - {q});
    if q != p {
      SumIRemove(s - {q}, p);
      SumIRemove(s - {p}, q);
      assert s - {q} - {p} == s - {p} - {q};
    }
  }

  lemma {:induction false} SumJRemove(s: set<Pixel>, p: Pixel)
    requires p in s
    ensures SumJ(s) == p.j + SumJ(s - {p})
  {
    var q :| q in s && SumJ(s) == q.j + SumJ(s - {q});
    if q != p {
      SumJRemove(s - {q}, p);
      SumJRemove(s - {p}, q);
      assert s - {q} - {p} == s - {p} - {q};
    }
  }

  /** The coordinate ranges in which the initial extremes lie outside every pixel. */
  ghost predicate Small(p: Pixel) { 0 <= p.i < INT_MAX && 0 <= p.j < INT_MAX }

  ghost predicate TightBox(r: RegionProps, s: set<Pixel>) {
    && (forall p :: p in s ==> r.minI <= p.i <= r.maxI && r.minJ <= p.j <= r.maxJ)
    && (exists p :: p in s && p.i == r.minI) && (exists p :: p in s && p.i == r.maxI)
    && (exists p :: p in s && p.j == r.minJ) && (exists p :: p in s && p.j == r.maxJ)
  }

  /** r holds the statistics of the pixels of s: their number, their tight bounding
      box and the sums of their coordinates. */
  ghost predicate Describes(r: RegionProps, s: set<Pixel>) {
    && r.area == |s| && r.sumI == SumI(s) && r.sumJ == SumJ(s)
    && (if s == {} then r == EMPTY else TightBox(r, s))
  }

  lemma AddDescribes(r: RegionProps, s: set<Pixel>, p: Pixel)
    requires Describes(r, s) && p !in s && Small(p)
    ensures Describes(r.Add(p.i, p.j), s + {p})
  {
    SumsInsert(s, p);
    var t := s + {p};
    var u := r.Add(p.i, p.j);
    assert p in t && |t| == |s| + 1;
    if s != {} {
      var a :| a in s && a.i == r.minI;
      var b :| b in s && b.i == r.maxI;
      var c :| c in s && c.j == r.minJ;
      var d :| d in s && d.j == r.maxJ;
      assert a in t && b in t && c in t && d in t;
    }
  }
}
