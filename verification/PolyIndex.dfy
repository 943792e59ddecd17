/** A polygon with a spatial index over its edges. Every query visits only the edges whose boxes
    meet a window, in an arbitrary order, and answers exactly as the unindexed kernel does. */
module PolyIndex {
  import opened Basics
  import opened Plane
  import opened EvenOdd
  import opened Rings
  import opened Regions
  import opened Kernel
  import opened Shapes

  datatype PointEdge = PointEdge(a: Point, b: Point)

  function RingPointEdges(ring: Ring): (es: seq<PointEdge>)
    ensures |es| == |ring|
  {
    seq(|ring|, i requires 0 <= i < |ring| => PointEdge(ring[i], ring[Next(i, |ring|)]))
  }

  function PointEdges(rings: seq<Ring>): seq<PointEdge> {
    if rings == [] then [] else RingPointEdges(rings[0]) + PointEdges(rings[1..])
  }

  function DblEdge(e: PointEdge): Edge2 {
    Edge2(Dbl(e.a), Dbl(e.b))
  }

  lemma {:induction false} PointEdgesDouble(rings: seq<Ring>)
    ensures |PointEdges(rings)| == |Edges2(rings)|
    ensures forall i :: 0 <= i < |PointEdges(rings)| ==> Edges2(rings)[i] == DblEdge(PointEdges(rings)[i])
  {
    if rings != [] {
      PointEdgesDouble(rings[1..]);
      RingEdgesDouble(rings[0]);
      hide RingEdges2, RingPointEdges, DblEdge;
    }
  }

  lemma RingEdgesDouble(ring: Ring)
    ensures forall i :: 0 <= i < |ring| ==> RingEdges2(ring)[i] == DblEdge(RingPointEdges(ring)[i])
  {
  }

  // ----- The spatial index, as any sequence of the matching entries

  function EdgeBox(e: PointEdge): BBox {
    BoxOf(e.a, e.b)
  }

  /** The ids of exactly the edges whose boxes meet q, each once, in some order. */
  predicate IsQuery(ids: seq<nat>, es: seq<PointEdge>, q: BBox) {
    && Distinct(ids)
    && (forall k :: 0 <= k < |ids| ==> ids[k] < |es| && Intersects(EdgeBox(es[ids[k]]), q))
    && (forall i :: 0 <= i < |es| && Intersects(EdgeBox(es[i]), q) ==> i in ids)
  }

  /** The box query of the R-tree. Callers may rely on the contract only, so on no order. */
  method QueryEntries(es: seq<PointEdge>, q: BBox) returns (ids: seq<nat>)
    ensures IsQuery(ids, es, q)
  {
    ids := [];
    for i := 0 to |es|
      invariant Distinct(ids)
      invariant forall k :: 0 <= k < |ids| ==> ids[k] < i && Intersects(EdgeBox(es[ids[k]]), q)
      invariant forall k :: 0 <= k < i && Intersects(EdgeBox(es[k]), q) ==> k in ids
    {
      if Intersects(EdgeBox(es[i]), q) {
        ids := ids + [i];
      }
    }
  }

  // ----- Order is irrelevant

  function Picked<T>(es: seq<T>, ids: seq<nat>): (r: seq<T>)
    requires forall k :: 0 <= k < |ids| ==> ids[k] < |es|
    ensures |r| == |ids|
  {
    seq(|ids|, k requires 0 <= k < |ids| => es[ids[k]])
  }

  ghost predicate OddSize(s: set<nat>) {
    |s| % 2 == 1
  }

  lemma AddOne(s: set<nat>, x: nat, t: set<nat>)
    requires x !in s && t == s + {x}
    ensures OddSize(t) == !OddSize(s)
  {
    assert |t| == |s| + 1;
  }

  lemma {:induction false} OddCounts<T>(es: seq<T>, f: T -> bool)
    ensures Odd(es, f) <==> OddSize(Places(es, f))
  {
    if es == [] {
      assert Places(es, f) == {};
    } else {
      var n := |es| - 1;
      OddCounts(es[..n], f);
      hide OddSize;
      PlacesStep(es, f, n);
      if f(es[n]) {
        AddOne(Places(es[..n], f), n, Places(es, f));
      }
    }
  }

  ghost function HitIds<T>(es: seq<T>, ids: seq<nat>, f: T -> bool): set<nat> {
    set i: nat | i in ids && i < |es| && f(es[i])
  }

  lemma {:induction false} OddCountsIds<T>(es: seq<T>, ids: seq<nat>, f: T -> bool)
    requires Distinct(ids) && forall k :: 0 <= k < |ids| ==> ids[k] < |es|
    ensures Odd(Picked(es, ids), f) <==> OddSize(HitIds(es, ids, f))
  {
    if ids == [] {
      assert HitIds(es, ids, f) == {};
    } else {
      var n := |ids| - 1;
      OddCountsIds(es, ids[..n], f);
      hide OddSize;
      HitIdsStep(es, ids, f, n);
      assert Picked(es, ids)[..n] == Picked(es, ids[..n]);
      if f(es[ids[n]]) {
        AddOne(HitIds(es, ids[..n], f), ids[n], HitIds(es, ids, f));
      }
    }
  }

  lemma HitIdsStep<T>(es: seq<T>, ids: seq<nat>, f: T -> bool, n: nat)
    requires Distinct(ids) && |ids| == n + 1 && ids[n] < |es|
    ensures ids[n] !in HitIds(es, ids[..n], f)
    ensures HitIds(es, ids, f) ==
            if f(es[ids[n]]) then HitIds(es, ids[..n], f) + {ids[n]} else HitIds(es, ids[..n], f)
  {
    assert ids[n] !in ids[..n];
    var k := ids[n];
    assert forall i :: i in ids <==> i in ids[..n] || i == k;
  }

  /** Leaving out edges that do not count, and reordering the others, keeps the parity. */
  lemma PickedParity<T>(es: seq<T>, ids: seq<nat>, f: T -> bool)
    requires Distinct(ids) && forall k :: 0 <= k < |ids| ==> ids[k] < |es|
    requires forall i: nat :: i < |es| && i !in ids ==> !f(es[i])
    ensures Odd(Picked(es, ids), f) == Odd(es, f)
  {
    OddCounts(es, f);
    OddCountsIds(es, ids, f);
    assert Places(es, f) == HitIds(es, ids, f);
  }

  // ----- Points and boxes

  /** A real point of a doubled box. */
  predicate InRealBox(b: BBox, x: Pt) {
    && 2.0 * b.min.x as real <= x.x <= 2.0 * b.max.x as real
    && 2.0 * b.min.y as real <= x.y <= 2.0 * b.max.y as real
  }

  predicate EdgeInBox(b: BBox, e: Edge) {
    InRealBox(b, e.a) && InRealBox(b, e.b)
  }

  /** A point left of both ends sees the edge whenever its height does. */
  lemma LeftSees(v: Pt, e: Edge)
    requires v.x < e.a.x && v.x < e.b.x
    ensures Crosses(v, e) <==> (e.a.y > v.y) != (e.b.y > v.y)
    ensures !OnEdge(e, v)
  {
    if e.a.y <= v.y < e.b.y {
      LeftOfRising(v, e.a, e.b);
    } else if e.b.y <= v.y < e.a.y {
      LeftOfRising(v, e.b, e.a);
      assert Orient(e.b, e.a, v) == -Orient(e.a, e.b, v);
    }
  }

  lemma LeftOfRising(v: Pt, a: Pt, b: Pt)
    requires v.x < a.x && v.x < b.x && a.y <= v.y < b.y
    ensures Orient(a, b, v) > 0.0
  {
    OrientSign(a, b, v);
    XAtEnds(a, b);
    var s := Ratio(a.y, v.y, b.y);
    XAtAffine(a, b, a.y, b.y, s);
    hide XAt;
    LerpBetween(a.x, b.x, s);
  }

  function HigherThan(y: real): Pt -> bool {
    (v: Pt) => v.y > y
  }

  /** Outside the box of all edges, every point is outside the region. */
  lemma OutsideBox(es: seq<Edge>, b: BBox, x: Pt)
    requires Closed(es) && forall i :: 0 <= i < |es| ==> EdgeInBox(b, es[i])
    requires !InRealBox(b, x)
    ensures Contain(x, es) == Outside
  {
    if x.x < 2.0 * b.min.x as real {
      forall i | 0 <= i < |es| ensures Crossing(x)(es[i]) == Jump(HigherThan(x.y))(es[i]) && !OnEdge(es[i], x) {
        LeftSees(x, es[i]);
      }
      OddSame(es, Crossing(x), es, Jump(HigherThan(x.y)));
    } else {
      forall i | 0 <= i < |es| ensures !Crossing(x)(es[i]) && !OnEdge(es[i], x) {
        if x.x > 2.0 * b.max.x as real { NotLeft(x, es[i]); }
      }
      OddNone(es, Crossing(x));
    }
  }

  // ----- The indexed polygon

  datatype IndexedPolygon = IndexedPolygon(rings: seq<Ring>, edges: seq<PointEdge>, bbox: BBox)

  /** Built from a polygon; its holes lie within the outline's box. */
  ghost predicate Indexed(ip: IndexedPolygon) {
    && |ip.rings| > 0 && |ip.rings[0]| > 0
    && ip.edges == PointEdges(ip.rings)
    && ip.bbox == BoxOfPoints(ip.rings[0])
    && forall e :: e in ip.edges ==> Contains(ip.bbox, e.a) && Contains(ip.bbox, e.b)
  }

  /** Holes lie in the outline's box. */
  predicate HolesInBox(rings: seq<Ring>)
    requires |rings| > 0 && |rings[0]| > 0
  {
    forall i, j :: 0 <= i < |rings| && 0 <= j < |rings[i]| ==> Contains(BoxOfPoints(rings[0]), rings[i][j])
  }

  /** Holes within the outline's region have their vertices in the outline's box. */
  lemma ProperInBox(rings: seq<Ring>)
    requires ProperHoles(RealRings(rings))
    ensures |rings| > 0 && |rings[0]| > 0 && HolesInBox(rings)
  {
    var rr := RealRings(rings);
    assert |rr[0]| > 0;
    forall i, j | 0 <= i < |rings| && 0 <= j < |rings[i]| ensures Contains(BoxOfPoints(rings[0]), rings[i][j]) {
      if i > 0 {
        VertexInRegion(rr[i], j);
        assert InRegion(RingEdges(rr[0]), rr[i][j]);
        RingClosed(rr[0]);
        RingInBox(rings[0]);
        RegionInBox(RingEdges(rr[0]), BoxOfPoints(rings[0]), rings[i][j]);
      }
    }
  }

  lemma RegionInBox(es: seq<Edge>, b: BBox, p: Point)
    requires Closed(es) && forall i :: 0 <= i < |es| ==> EdgeInBox(b, es[i])
    requires InRegion(es, Real(Dbl(p)))
    ensures Contains(b, p)
  {
    BoxIsReal(b, p);
    if !Contains(b, p) {
      OutsideBox(es, b, Real(Dbl(p)));
    }
  }

  lemma BoxIsReal(b: BBox, p: Point)
    ensures InRealBox(b, Real(Dbl(p))) <==> Contains(b, p)
  {
  }

  lemma RingInBox(ring: Ring)
    requires |ring| > 0
    ensures var es := RingEdges(Vertices(ring)); forall i :: 0 <= i < |es| ==> EdgeInBox(BoxOfPoints(ring), es[i])
  {
    var b, es := BoxOfPoints(ring), RingEdges(Vertices(ring));
    hide BoxOfPoints;
    forall i | 0 <= i < |es| ensures EdgeInBox(b, es[i]) {
      assert es[i] == RingEdge(Vertices(ring), i);
      assert Contains(b, ring[i]) && Contains(b, ring[Next(i, |ring|)]);
    }
  }

  // A square frame, as the simplest polygon with a hole.

  function Square(lo: Coord, hi: Coord): (r: Ring)
    ensures |r| == 4
  {
    [Point(lo, lo), Point(hi, lo), Point(hi, hi), Point(lo, hi)]
  }

  lemma SquareHolds(lo: Coord, hi: Coord, x: Pt)
    requires 2.0 * lo as real < x.x < 2.0 * hi as real && 2.0 * lo as real < x.y < 2.0 * hi as real
    ensures InRegion(RingEdges(Vertices(Square(lo, hi))), x)
  {
    var ring := Vertices(Square(lo, hi));
    var es := RingEdges(ring);
    forall i | 0 <= i < |es| ensures Crossing(x)(es[i]) == (i == 1) {
      assert es[i] == RingEdge(ring, i);
      SideCrossed(lo, hi, x, i);
    }
    hide Crossing;
    OddOne(es, Crossing(x), 1);
  }

  lemma SideCrossed(lo: Coord, hi: Coord, x: Pt, i: nat)
    requires 2.0 * lo as real < x.x < 2.0 * hi as real && 2.0 * lo as real < x.y < 2.0 * hi as real && i < 4
    ensures Crosses(x, RingEdge(Vertices(Square(lo, hi)), i)) == (i == 1)
  {
    var l, h := 2.0 * lo as real, 2.0 * hi as real;
    var e := RingEdge(Vertices(Square(lo, hi)), i);
    assert i == 0 ==> e == Edge(Pt(l, l), Pt(h, l));
    assert i == 1 ==> e == Edge(Pt(h, l), Pt(h, h));
    assert i == 2 ==> e == Edge(Pt(h, h), Pt(l, h));
    assert i == 3 ==> e == Edge(Pt(l, h), Pt(l, l));
    hide Vertices, Square, RingEdge;
    SideOfSquare(l, h, x);
  }

  lemma SideOfSquare(l: real, h: real, x: Pt)
    requires l < x.x < h && l < x.y < h
    ensures !Crosses(x, Edge(Pt(l, l), Pt(h, l))) && Crosses(x, Edge(Pt(h, l), Pt(h, h)))
    ensures !Crosses(x, Edge(Pt(h, h), Pt(l, h))) && !Crosses(x, Edge(Pt(l, h), Pt(l, l)))
  {
    MulPos(h - l, h - x.x);
    MulPos(h - l, x.x - l);
    assert Orient(Pt(h, l), Pt(h, h), x) == Mul(h - l, h - x.x);
    assert Orient(Pt(l, h), Pt(l, l), x) == Mul(h - l, x.x - l);
  }

  /** A square with a square hole strictly within it. */
  lemma FrameIsProper(lo: Coord, a: Coord, b: Coord, hi: Coord)
    requires lo < a < b < hi
    ensures ProperHoles(RealRings([Square(lo, hi), Square(a, b)]))
  {
    var outer, hole := Square(lo, hi), Square(a, b);
    var rr := RealRings([outer, hole]);
    assert rr[0] == Vertices(outer) && rr[1] == Vertices(hole);
    forall x | InRegion(RingEdges(rr[1]), x) ensures InRegion(RingEdges(rr[0]), x) {
      HoleWithin(lo, a, b, hi, x);
    }
  }

  lemma HoleWithin(lo: Coord, a: Coord, b: Coord, hi: Coord, x: Pt)
    requires lo < a < b < hi && InRegion(RingEdges(Vertices(Square(a, b))), x)
    ensures InRegion(RingEdges(Vertices(Square(lo, hi))), x)
  {
    var hole := Vertices(Square(a, b));
    var box := BBox(Point(a, a), Point(b, b));
    RingClosed(hole);
    forall i | 0 <= i < |RingEdges(hole)| ensures EdgeInBox(box, RingEdges(hole)[i]) {
      assert RingEdges(hole)[i] == RingEdge(hole, i);
    }
    hide EdgeInBox;
    if !InRealBox(box, x) {
      OutsideBox(RingEdges(hole), box, x);
    }
    SquareHolds(lo, hi, x);
  }

  lemma {:induction false} EdgesInBox(rings: seq<Ring>, b: BBox, e: PointEdge)
    requires e in PointEdges(rings)
    requires forall i, j :: 0 <= i < |rings| && 0 <= j < |rings[i]| ==> Contains(b, rings[i][j])
    ensures Contains(b, e.a) && Contains(b, e.b)
  {
    if e in RingPointEdges(rings[0]) {
      var k :| 0 <= k < |rings[0]| && RingPointEdges(rings[0])[k] == e;
    } else {
      forall i, j | 0 <= i < |rings[1..]| && 0 <= j < |rings[1..][i]| ensures Contains(b, rings[1..][i][j]) {
        assert rings[1..][i] == rings[i + 1];
      }
      EdgesInBox(rings[1..], b, e);
    }
  }

  method NewIndexed(outline: Ring, holes: seq<Ring>) returns (ip: IndexedPolygon)
    requires |outline| > 0 && HolesInBox([outline] + holes)
    ensures Indexed(ip) && ip.rings == [outline] + holes
  {
    var rings := [outline] + holes;
    var b := BoxOfPoints(outline);
    ip := IndexedPolygon(rings, PointEdges(rings), b);
    forall e | e in ip.edges ensures Contains(b, e.a) && Contains(b, e.b) {
      EdgesInBox(rings, b, e);
    }
  }

  lemma IndexedEdges(ip: IndexedPolygon)
    requires Indexed(ip)
    ensures |ip.edges| == |Edges2(ip.rings)| == |Region(ip.rings)|
    ensures forall i :: 0 <= i < |ip.edges| ==> Edges2(ip.rings)[i] == DblEdge(ip.edges[i])
    ensures forall i :: 0 <= i < |ip.edges| ==> Region(ip.rings)[i] == RealEdge(DblEdge(ip.edges[i]))
    ensures forall i :: 0 <= i < |ip.edges| ==> EdgeInBox(ip.bbox, Region(ip.rings)[i])
  {
    PointEdgesDouble(ip.rings);
    EdgesAgree(ip.rings);
    forall i | 0 <= i < |ip.edges| ensures EdgeInBox(ip.bbox, Region(ip.rings)[i]) {
      assert ip.edges[i] in ip.edges;
    }
  }

  /** An edge whose box misses the rightward ray neither holds p nor is crossed. */
  lemma RayMisses(ip: IndexedPolygon, p: Point, i: nat)
    requires Indexed(ip) && i < |ip.edges| && Contains(ip.bbox, p)
    requires !Intersects(EdgeBox(ip.edges[i]), BoxOf(p, Point(ip.bbox.max.x, p.y)))
    ensures |ip.edges| == |Region(ip.rings)|
    ensures !Crosses(Real(Dbl(p)), Region(ip.rings)[i]) && !OnEdge(Region(ip.rings)[i], Real(Dbl(p)))
  {
    IndexedEdges(ip);
    var e := ip.edges[i];
    assert e in ip.edges;
    if Max(e.a.x, e.b.x) < p.x {
      NotLeft(Real(Dbl(p)), Region(ip.rings)[i]);
    }
  }

  /** The answer from the edges that meet the ray is the answer from all. */
  lemma RayDecides(ip: IndexedPolygon, p: Point, ids: seq<nat>)
    requires Indexed(ip) && Contains(ip.bbox, p)
    requires IsQuery(ids, ip.edges, BoxOf(p, Point(ip.bbox.max.x, p.y)))
    ensures |ip.edges| == |Region(ip.rings)|
    ensures Contain(Real(Dbl(p)), Picked(Region(ip.rings), ids)) == Contain(Real(Dbl(p)), Region(ip.rings))
  {
    var es, x := Region(ip.rings), Real(Dbl(p));
    IndexedEdges(ip);
    forall i: nat | i < |es| && i !in ids ensures !Crossing(x)(es[i]) && !OnEdge(es[i], x) {
      RayMisses(ip, p, i);
    }
    PickedContain(es, ids, x);
  }

  /** Leaving out edges that do not hold x and are not crossed keeps the answer at x. */
  lemma PickedContain(es: seq<Edge>, ids: seq<nat>, x: Pt)
    requires Distinct(ids) && forall k :: 0 <= k < |ids| ==> ids[k] < |es|
    requires forall i: nat :: i < |es| && i !in ids ==> !Crossing(x)(es[i]) && !OnEdge(es[i], x)
    ensures Contain(x, Picked(es, ids)) == Contain(x, es)
  {
    hide OnEdge, Crosses;
    PickedParity(es, ids, Crossing(x));
    var picked := Picked(es, ids);
    if OnAny(es, x) {
      var i: nat :| i < |es| && OnEdge(es[i], x);
      var k :| 0 <= k < |ids| && ids[k] == i;
      assert OnEdge(picked[k], x);
    }
    if OnAny(picked, x) {
      var k :| 0 <= k < |picked| && OnEdge(picked[k], x);
      assert OnEdge(es[ids[k]], x);
    }
  }

  method ContainmentOf(ip: IndexedPolygon, p: Point) returns (c: Containment)
    requires Indexed(ip)
    ensures c == Contain(Real(Dbl(p)), Region(ip.rings))
  {
    if !Contains(ip.bbox, p) {
      IndexedEdges(ip);
      RegionClosed(ip.rings);
      OutsideBox(Region(ip.rings), ip.bbox, Real(Dbl(p)));
      return Outside;
    }
    var ray := BoxOf(p, Point(ip.bbox.max.x, p.y));
    var ids := QueryEntries(ip.edges, ray);
    RayDecides(ip, p, ids);
    IndexedEdges(ip);
    var picks := seq(|ids|, k requires 0 <= k < |ids| => DblEdge(ip.edges[ids[k]]));
    assert RealEdges(picks) == Picked(Region(ip.rings), ids);
    c := ScanEdges(Dbl(p), picks);
  }
}
