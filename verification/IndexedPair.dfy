/** The gap between two indexed polygons, walking the smaller edge list and looking the other
    up; and why the index stops being exact beyond a clearance of `i32::MAX`. */
module IndexedPair {
  import opened Plane
  import opened EvenOdd
  import opened Regions
  import opened WideMul
  import opened Kernel
  import opened Distance
  import opened Shapes
  import opened PolyIndex
  import opened IndexedGap

  /** The nearest comparison of each edge of the first list with the second list. */
  function Rows(ea: seq<Edge2>, eb: seq<Edge2>, t: int): (rows: seq<Ordering>)
    requires 0 <= t
    ensures |rows| == |ea|
    ensures forall i :: 0 <= i < |ea| ==> rows[i] == Least(SegCmps(ea[i].a, ea[i].b, eb, t))
  {
    seq(|ea|, i requires 0 <= i < |ea| => Least(SegCmps(ea[i].a, ea[i].b, eb, t)))
  }

  /** With both first vertices outside the other region, the pairs of edges decide. */
  lemma PairsDecide(ra: seq<Ring>, rb: seq<Ring>, t: int)
    requires GoodPair(ra, rb) && 0 <= t
    requires Contain(Real(Dbl(ra[0][0])), Region(rb)) == Outside
    requires Contain(Real(Dbl(rb[0][0])), Region(ra)) == Outside
    ensures DistanceCmp(RegionCore(ra), RegionCore(rb), t) == Least(Rows(Edges2(ra), Edges2(rb), t))
  {
    if EdgesCross(ra, rb) {
      RegionsShare(ra, rb, t);
      CrossingRows(ra, rb, t);
    } else {
      RegionsDisjoint(ra, rb);
      LeastOverPairs(ra, rb, t, Rows(Edges2(ra), Edges2(rb), t));
    }
  }

  lemma CrossingRows(ra: seq<Ring>, rb: seq<Ring>, t: int)
    requires EdgesCross(ra, rb) && 0 <= t
    ensures Least(Rows(Edges2(ra), Edges2(rb), t)) == CmpInt(0, t)
  {
    var ea, eb := Edges2(ra), Edges2(rb);
    var rows := Rows(ea, eb, t);
    var e, f :| e in ea && f in eb && SegIntersect(e.a, e.b, f.a, f.b);
    var i :| 0 <= i < |ea| && ea[i] == e;
    var j :| 0 <= j < |eb| && eb[j] == f;
    var row := SegCmps(e.a, e.b, eb, t);
    assert row[j] == CmpInt(0, t);
    hide SegIntersect, SegSegCmp, SegCmps, Edges2;
    assert row[j] in row;
    assert rows[i] in rows;
    if t == 0 {
      forall k | 0 <= k < |ea| ensures rows[k] != Less {
        RowNotBelowZero(ea[k], eb);
      }
      RowNotBelowZero(e, eb);
    }
  }

  lemma RowNotBelowZero(e: Edge2, eb: seq<Edge2>)
    ensures Least(SegCmps(e.a, e.b, eb, 0)) != Less
  {
    SegCmpsExact(e.a, e.b, eb, 0);
    var os := EdgeCmps(EdgeCore(e), eb, 0);
    forall k | 0 <= k < |eb| ensures os[k] != Less {
      NeverBelowZero(EdgeCore(e), EdgeCore(eb[k]));
    }
  }

  /** An edge beyond a box is beyond every edge inside the box. */
  lemma FarEdges(e: PointEdge, f: PointEdge, d: int, t: int)
    requires FartherThan(EdgeBox(e), EdgeBox(f), d) && 0 <= t <= 2 * d
    ensures SegSegCmp(Dbl(e.a), Dbl(e.b), Dbl(f.a), Dbl(f.b), t) == Greater
  {
    EdgeBoxed(e);
    EdgeBoxed(f);
    FarCores(EdgeCore(DblEdge(e)), EdgeCore(DblEdge(f)), EdgeBox(e), EdgeBox(f), d, t);
    SegSegExact(Dbl(e.a), Dbl(e.b), Dbl(f.a), Dbl(f.b), t);
  }

  /** An edge that misses the window is Greater than t from the whole other polygon. */
  lemma SkippedRow(e: PointEdge, ip: IndexedPolygon, c: int, t: int)
    requires Indexed(ip) && 0 <= c && 0 <= t <= 2 * c && ValidBox(ip.bbox)
    requires !Intersects(EdgeBox(e), Inflate(ip.bbox, c))
    ensures Least(SegCmps(Dbl(e.a), Dbl(e.b), Edges2(ip.rings), t)) == Greater
  {
    IndexedEdges(ip);
    InflateMisses(ip.bbox, c, EdgeBox(e));
    var os := SegCmps(Dbl(e.a), Dbl(e.b), Edges2(ip.rings), t);
    forall j | 0 <= j < |os| ensures os[j] == Greater {
      var f := ip.edges[j];
      assert f in ip.edges;
      FarEdges(e, f, c, t);
    }
  }

  /** The edges whose boxes meet the inflated box of e give the whole row. */
  lemma VisitedRow(e: PointEdge, ip: IndexedPolygon, c: int, t: int, ids: seq<nat>)
    requires Indexed(ip) && 0 <= c && 0 <= t <= 2 * c
    requires IsQuery(ids, ip.edges, Inflate(EdgeBox(e), c))
    ensures |ip.edges| == |Edges2(ip.rings)|
    ensures var os := SegCmps(Dbl(e.a), Dbl(e.b), Edges2(ip.rings), t);
            Least(PickedCmps(os, ids)) == Least(os)
  {
    IndexedEdges(ip);
    var os := SegCmps(Dbl(e.a), Dbl(e.b), Edges2(ip.rings), t);
    forall j: nat | j < |os| && j !in ids ensures os[j] == Greater {
      var f := ip.edges[j];
      InflateMisses(EdgeBox(e), c, EdgeBox(f));
      FarEdges(e, f, c, t);
    }
    LeastPicked(os, ids);
  }

  method ScanRow(e: PointEdge, ip: IndexedPolygon, c: int, t: int) returns (best: Ordering)
    requires Indexed(ip) && 0 <= c && 0 <= t
    ensures t <= 2 * c ==> best == Least(SegCmps(Dbl(e.a), Dbl(e.b), Edges2(ip.rings), t))
  {
    var ids := QueryEntries(ip.edges, Inflate(EdgeBox(e), c));
    if t <= 2 * c { VisitedRow(e, ip, c, t, ids); }
    IndexedEdges(ip);
    var os := seq(|ids|, k requires 0 <= k < |ids| =>
      var f := ip.edges[ids[k]];
      SegSegCmp(Dbl(e.a), Dbl(e.b), Dbl(f.a), Dbl(f.b), t));
    hide Intersects, SegSegCmp, Indexed, Least;
    assert os == PickedCmps(SegCmps(Dbl(e.a), Dbl(e.b), Edges2(ip.rings), t), ids);
    best := MinCmp(os);
  }

  /** Walk the smaller polygon, look the larger one up. The windows of reach c decide for thresholds up to 2c. */
  method ScanPairs(small: IndexedPolygon, large: IndexedPolygon, c: int, t: int) returns (best: Ordering)
    requires Indexed(small) && Indexed(large) && 0 <= c && 0 <= t
    ensures t <= 2 * c ==> best == Least(Rows(Edges2(small.rings), Edges2(large.rings), t))
  {
    IndexBoxed(large);
    IndexedEdges(small);
    var window := Inflate(large.bbox, c);
    ghost var rows := Rows(Edges2(small.rings), Edges2(large.rings), t);
    best := Greater;
    hide Intersects, SegSegCmp, Rows, SegCmps, Indexed, Least, Inflate, ValidBox, Edges2, BestOf;
    BestOfNone(rows);
    for i := 0 to |small.edges|
      invariant t <= 2 * c ==> BestOf(rows, i, best)
    {
      var e := small.edges[i];
      if !Intersects(EdgeBox(e), window) {
        if t <= 2 * c {
          SkippedRow(e, large, c, t);
          BestOfNext(rows, i, best, Greater);
        }
        continue;
      }
      var o := ScanRow(e, large, c, t);
      if t <= 2 * c { BestOfNext(rows, i, best, o); }
      if o == Less {
        return o;
      }
      best := if best == Equal || o == Equal then Equal else Greater;
    }
    if t <= 2 * c { BestOfAll(rows, best); }
  }

  /** The least of the first i, so far not Less. */
  predicate BestOf(rows: seq<Ordering>, i: nat, best: Ordering) {
    i <= |rows| && best == Least(rows[..i]) != Less
  }

  lemma BestOfNone(rows: seq<Ordering>)
    ensures BestOf(rows, 0, Greater)
  {
    LeastNone();
  }

  lemma BestOfNext(rows: seq<Ordering>, i: nat, best: Ordering, o: Ordering)
    requires i < |rows| && BestOf(rows, i, best) && rows[i] == o
    ensures o == Less ==> Least(rows) == Less
    ensures o != Less ==> BestOf(rows, i + 1, if best == Equal || o == Equal then Equal else Greater)
  {
    assert rows[..i + 1] == rows[..i] + [rows[i]];
    LeastSnoc(rows[..i], o);
    if o == Less { LessWins(rows, i); }
  }

  lemma BestOfAll(rows: seq<Ordering>, best: Ordering)
    requires BestOf(rows, |rows|, best)
    ensures best == Least(rows)
  {
    assert rows[..|rows|] == rows;
  }

  lemma LeastNone()
    ensures Least([]) == Greater
  {
  }

  lemma LeastSnoc(os: seq<Ordering>, o: Ordering)
    requires Least(os) != Less
    ensures Least(os + [o]) == if o == Less then Less else if Least(os) == Equal || o == Equal then Equal else Greater
  {
  }

  lemma LessWins(os: seq<Ordering>, i: nat)
    requires i < |os| && os[i] == Less
    ensures Least(os) == Less
  {
  }

  /** `IndexedPolygon::gap_cmp_polygon`: the kernel's answer for every pair of polygons and every
      clearance up to `i32::MAX`. */
  method GapCmpPolygon(a: IndexedPolygon, b: IndexedPolygon, clearance: int) returns (o: Ordering)
    requires Indexed(a) && Indexed(b) && GoodPair(a.rings, b.rings)
    ensures clearance <= MAX32 ==> o == Gap(Poly(a.rings), Poly(b.rings), clearance)
    ensures 0 <= clearance && !Intersects(Inflate(a.bbox, ClampCoord(clearance)), b.bbox) ==> o == Greater
  {
    var t := 2 * clearance;
    PolyPairGap(a.rings, b.rings, clearance);
    IndexBoxed(a);
    IndexBoxed(b);
    hide DistanceCmp, Gap, Poly, Rows, Least, Contain, Boxed;
    if t < 0 {
      return Greater;
    }
    var c := ClampCoord(clearance);
    if !Intersects(Inflate(a.bbox, c), b.bbox) {
      if clearance <= MAX32 {
        InflateMisses(a.bbox, c, b.bbox);
        FarCores(RegionCore(a.rings), RegionCore(b.rings), a.bbox, b.bbox, c, t);
      }
      return Greater;
    }
    var ca := ContainmentOf(b, a.rings[0][0]);
    var cb := ContainmentOf(a, b.rings[0][0]);
    if ca != Outside || cb != Outside {
      RegionsShare(a.rings, b.rings, t);
      return CmpInt(0, t);
    }
    if |a.edges| <= |b.edges| {
      PairsDecide(a.rings, b.rings, t);
      o := ScanPairs(a, b, c, t);
    } else {
      PairsDecide(b.rings, a.rings, t);
      DistanceSymmetric(RegionCore(a.rings), RegionCore(b.rings), t);
      o := ScanPairs(b, a, c, t);
    }
  }

  lemma PolyPairGap(ra: seq<Ring>, rb: seq<Ring>, clearance: int)
    requires |ra| > 0 && |rb| > 0
    ensures Gap(Poly(ra), Poly(rb), clearance) ==
            if clearance < 0 then Greater else DistanceCmp(RegionCore(ra), RegionCore(rb), 2 * clearance)
  {
    PolyCore(ra);
    PolyCore(rb);
    hide DistanceCmp, CoreOf, Sweep2, Poly;
  }

  /** Beyond `i32::MAX` the clamped window is too small: for every such clearance there are a
      polygon and a point that the index reports as out of reach (the guard under which
      IndexedGapCmp answers Greater) although the kernel finds them within the clearance. */
  lemma BeyondMaxDiffers(clearance: int) returns (ip: IndexedPolygon, s: Shape)
    requires clearance > MAX32
    ensures Indexed(ip) && WellHoled(RealRings(ip.rings)) && BoxedShape(s)
    ensures 0 <= 2 * clearance + Sweep2(s) && !Intersects(Window(s, clearance), ip.bbox)
    ensures Gap(Poly(ip.rings), s, clearance) != Greater
  {
    var corner := Point(MIN32 + 1, 0);
    ip := FarTriangle(corner);
    s := Circle(Point(1, 0), 0);
    PolyGap(ip.rings, s, clearance);
    FirstVertexInRegion(ip.rings);
    WithinReach(ip.rings, corner, Point(1, 0), 2 * clearance);
  }

  /** The same for two polygons, under the guard at which GapCmpPolygon answers Greater. */
  lemma PairBeyondMaxDiffers(clearance: int) returns (a: IndexedPolygon, b: IndexedPolygon)
    requires clearance > MAX32
    ensures Indexed(a) && Indexed(b) && GoodPair(a.rings, b.rings)
    ensures !Intersects(Inflate(a.bbox, ClampCoord(clearance)), b.bbox)
    ensures Gap(Poly(a.rings), Poly(b.rings), clearance) != Greater
  {
    var v, w := Point(MIN32 + 1, 0), Point(1, 0);
    a := FarTriangle(v);
    b := Triangle(w, 2);
    InflateMisses(a.bbox, MAX32, b.bbox);
    PolyPairGap(a.rings, b.rings, clearance);
    FirstVertexInRegion(a.rings);
    FirstVertexInRegion(b.rings);
    ProductBound(2 * (w.x - v.x), 2 * (w.x - v.x), 2 * clearance, 2 * clearance);
    DistReal(Dbl(v), Dbl(w));
    assert DistSquared(Dbl(v), Dbl(w)) == (2 * (w.x - v.x)) * (2 * (w.x - v.x));
    hide Dist2, DistSquared, InRegion, Gap, Poly, WellHoled;
    ReachWitness(RegionCore(a.rings), RegionCore(b.rings), Real(Dbl(v)), Real(Dbl(w)), 2 * clearance);
  }

  /** The same for a point, which is outside the polygon while its window misses every edge. */
  lemma PointBeyondMaxDiffers(distance: int) returns (ip: IndexedPolygon, p: Point)
    requires distance > MAX32
    ensures Indexed(ip) && WellHoled(RealRings(ip.rings)) && Contain(Real(Dbl(p)), Region(ip.rings)) == Outside
    ensures WindowEmpty(ip, PointWindow(p, distance))
    ensures DistanceCmp(PointCore(Dbl(p)), RegionCore(ip.rings), 2 * distance) != Greater
  {
    var corner := Point(MIN32 + 1, 0);
    ip := FarTriangle(corner);
    p := Point(1, 0);
    FirstVertexInRegion(ip.rings);
    RightOfBox(ip, p);
    WindowBeyond(ip, p, distance);
    hide Contain, WellHoled, Indexed, Region;
    WithinReach(ip.rings, corner, p, 2 * distance);
  }

  lemma RightOfBox(ip: IndexedPolygon, p: Point)
    requires Indexed(ip) && ip.bbox.max.x < p.x
    ensures Contain(Real(Dbl(p)), Region(ip.rings)) == Outside
  {
    IndexedEdges(ip);
    RegionClosed(ip.rings);
    BoxIsReal(ip.bbox, p);
    hide Region, EdgeInBox, InRealBox;
    OutsideBox(Region(ip.rings), ip.bbox, Real(Dbl(p)));
  }

  lemma WindowBeyond(ip: IndexedPolygon, p: Point, distance: int)
    requires Indexed(ip) && distance > MAX32 && ip.bbox.max.x + MAX32 < p.x
    ensures WindowEmpty(ip, PointWindow(p, distance))
  {
    forall e | e in ip.edges ensures !Intersects(EdgeBox(e), PointWindow(p, distance)) {
      InflateMisses(BBox(p, p), MAX32, EdgeBox(e));
    }
  }

  /** A triangle at the left end of the coordinate range. */
  lemma FarTriangle(corner: Point) returns (ip: IndexedPolygon)
    requires corner.x == MIN32 + 1 && corner.y == 0
    ensures Indexed(ip) && WellHoled(RealRings(ip.rings))
    ensures ip.rings[0][0] == corner && ip.bbox.max.x == MIN32 + 1
  {
    ip := Triangle(corner, MIN32);
  }

  /** A corner and two points at another x. */
  lemma Triangle(corner: Point, x: Coord) returns (ip: IndexedPolygon)
    requires corner.x != x
    ensures Indexed(ip) && WellHoled(RealRings(ip.rings)) && ip.rings[0][0] == corner
    ensures ip.bbox.min.x == Min(corner.x, x) && ip.bbox.max.x == Max(corner.x, x)
  {
    var ring := [corner, Point(x, 0), Point(x, 1)];
    var rings := [ring];
    var b := BoxOfPoints(ring);
    var l, r, d, u := BoxReached(ring);
    assert Contains(b, ring[0]) && Contains(b, ring[1]);
    ip := IndexedPolygon(rings, PointEdges(rings), b);
    forall e | e in ip.edges ensures Contains(b, e.a) && Contains(b, e.b) {
      EdgesInBox(rings, b, e);
    }
    SingleRing(Vertices(ring));
    assert RealRings(rings) == [Vertices(ring)];
  }

  lemma WithinReach(rings: seq<Ring>, v: Point, p: Point, t: int)
    requires In(RegionCore(rings), Real(Dbl(v))) && v.y == p.y && 0 <= 2 * (p.x - v.x) <= t
    ensures DistanceCmp(PointCore(Dbl(p)), RegionCore(rings), t) != Greater
  {
    var d := 2 * (p.x - v.x);
    ProductBound(d, d, t, t);
    DistReal(Dbl(p), Dbl(v));
    assert DistSquared(Dbl(p), Dbl(v)) == d * d;
    hide Dist2, DistSquared, InRegion;
    ReachWitness(PointCore(Dbl(p)), RegionCore(rings), Real(Dbl(p)), Real(Dbl(v)), t);
  }

  lemma ReachWitness(a: Core, b: Core, x: Pt, y: Pt, t: int)
    requires In(a, x) && In(b, y) && Dist2(x, y) <= (t * t) as real
    ensures DistanceCmp(a, b, t) != Greater
  {
    hide In, Dist2;
  }
}
