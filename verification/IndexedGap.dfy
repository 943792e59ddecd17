/** Gap, contact and distance tests through the edge index: the same answers as the unindexed
    kernel for every clearance up to `i32::MAX`, and a different answer beyond it. */
module IndexedGap {
  import opened Plane
  import opened EvenOdd
  import opened Nearest
  import opened Regions
  import opened WideMul
  import opened Kernel
  import opened Distance
  import opened Shapes
  import opened RealShapes
  import opened PolyIndex

  /** Half a non-negative width, rounded up. */
  function HalfUp(w: int): int {
    w / 2 + w % 2
  }

  /** The box of a shape's core, and how far the shape's own box reaches beyond it. */
  function CoreBox(s: Shape): (b: BBox)
    requires s.ConvexPoly? ==> |s.pts| > 0
    requires s.Polygon? ==> |s.outline| > 0
    ensures ValidBox(b)
  {
    match s
    case Segment(a, b, _) => BoxOf(a, b)
    case Circle(c, _) => BBox(c, c)
    case ConvexPoly(pts, _) => BoxOfPoints(pts)
    case Polygon(outline, _) => BoxOfPoints(outline)
  }

  function ShapeBox(s: Shape): (b: BBox)
    requires s.ConvexPoly? ==> |s.pts| > 0
    requires s.Polygon? ==> |s.outline| > 0
    ensures ValidBox(b)
  {
    match s
    case Segment(a, b, w) => Inflate(BoxOf(a, b), HalfUp(w))
    case Circle(c, r) => Inflate(BBox(c, c), r)
    case ConvexPoly(pts, r) => Inflate(BoxOfPoints(pts), r)
    case Polygon(outline, _) => BoxOfPoints(outline)
  }

  /** A valid shape whose holes, if any, lie in its outline's box. */
  ghost predicate BoxedShape(s: Shape) {
    && ValidShape(s)
    && (s.ConvexPoly? ==> |s.pts| > 0)
    && (s.Polygon? ==> |s.outline| > 0 && HolesInBox([s.outline] + s.holes))
  }

  /** b and e are more than d apart on some axis. */
  predicate FartherThan(b: BBox, e: BBox, d: int) {
    || b.min.x - e.max.x > d || e.min.x - b.max.x > d
    || b.min.y - e.max.y > d || e.min.y - b.max.y > d
  }

  function ClampCoord(v: int): int {
    if v < 0 then 0 else if v > MAX32 then MAX32 else v
  }

  function Window(s: Shape, clearance: int): (b: BBox)
    requires s.ConvexPoly? ==> |s.pts| > 0
    requires s.Polygon? ==> |s.outline| > 0
    ensures ValidBox(b)
  {
    Inflate(ShapeBox(s), ClampCoord(clearance))
  }

  /** Inflating twice, saturating both times. */
  lemma InflateTwice(b: BBox, g: int, d: int, e: BBox)
    requires ValidBox(b) && ValidBox(e) && 0 <= g && 0 <= d
    ensures Intersects(Inflate(Inflate(b, g), d), e) <==> !FartherThan(b, e, g + d)
  {
    InflateMisses(b, g, e);
    InflateMisses(Inflate(b, g), d, e);
  }

  /** A box the window misses is beyond half the threshold, in nanometres, on some axis. */
  lemma WindowMisses(s: Shape, clearance: int, e: BBox) returns (d: int)
    requires BoxedShape(s) && ValidBox(e) && clearance <= MAX32
    requires !Intersects(Window(s, clearance), e)
    ensures 2 * clearance + Sweep2(s) <= 2 * d && FartherThan(CoreBox(s), e, d)
  {
    var k := ClampCoord(clearance);
    match s
    case Segment(_, _, w) =>
      d := HalfUp(w) + k;
      InflateTwice(CoreBox(s), HalfUp(w), k, e);
    case Circle(_, r) =>
      d := r + k;
      InflateTwice(CoreBox(s), r, k, e);
    case ConvexPoly(_, r) =>
      d := r + k;
      InflateTwice(CoreBox(s), r, k, e);
    case Polygon(_, _) =>
      d := k;
      InflateMisses(CoreBox(s), k, e);
  }

  lemma RealGap(u: real, v: real, d: int, t: int)
    requires v - u > 2.0 * d as real && 0 <= t <= 2 * d
    ensures Sq(v - u) > (t * t) as real && Sq(u - v) > (t * t) as real
  {
    var w := v - u;
    var r := t as real;
    assert r < w;
    MulMono(r, w, r);
    MulPos(w - r, w);
    assert Mul(r, r) == (t * t) as real;
    assert Mul(w - r, w) == Sq(w) - Mul(r, w);
    assert Mul(w, r) == Mul(r, w);
    SqNeg(w);
    assert -w == u - v;
  }

  lemma FarPoints(ba: BBox, bb: BBox, x: Pt, y: Pt, d: int, t: int)
    requires InRealBox(ba, x) && InRealBox(bb, y) && FartherThan(ba, bb, d) && 0 <= t <= 2 * d
    ensures Dist2(x, y) > (t * t) as real
  {
    if ba.min.x - bb.max.x > d {
      RealGap(y.x, x.x, d, t);
    } else if bb.min.x - ba.max.x > d {
      RealGap(x.x, y.x, d, t);
    } else if ba.min.y - bb.max.y > d {
      RealGap(y.y, x.y, d, t);
    } else {
      RealGap(x.y, y.y, d, t);
    }
  }

  ghost predicate Boxed(c: Core, b: BBox) {
    forall x :: In(c, x) ==> InRealBox(b, x)
  }

  lemma FarCores(a: Core, b: Core, ba: BBox, bb: BBox, d: int, t: int)
    requires Boxed(a, ba) && Boxed(b, bb) && FartherThan(ba, bb, d) && 0 <= t <= 2 * d
    ensures DistanceCmp(a, b, t) == Greater
  {
    forall x, y | In(a, x) && In(b, y) ensures Dist2(x, y) > (t * t) as real {
      FarPoints(ba, bb, x, y, d, t);
    }
    hide In, Dist2, FartherThan;
  }

  lemma EdgeBoxed(e: PointEdge)
    ensures Boxed(EdgeCore(DblEdge(e)), EdgeBox(e))
  {
  }

  /** A region lies in the box of its outline when its holes do. */
  lemma RegionBoxed(rings: seq<Ring>)
    requires |rings| > 0 && |rings[0]| > 0 && HolesInBox(rings)
    ensures Boxed(RegionCore(rings), BoxOfPoints(rings[0]))
  {
    var b := BoxOfPoints(rings[0]);
    RegionClosed(rings);
    PointEdgesDouble(rings);
    EdgesAgree(rings);
    var es := Region(rings);
    forall i | 0 <= i < |es| ensures EdgeInBox(b, es[i]) {
      EdgesInBox(rings, b, PointEdges(rings)[i]);
    }
    forall x | In(RegionCore(rings), x) ensures InRealBox(b, x) {
      if !InRealBox(b, x) {
        OutsideBox(es, b, x);
      }
    }
  }

  lemma CoreBoxed(s: Shape)
    requires BoxedShape(s)
    ensures Boxed(CoreOf(s), CoreBox(s))
  {
    if s.ConvexPoly? {
      RegionBoxed([s.pts]);
    } else if s.Polygon? {
      RegionBoxed([s.outline] + s.holes);
    }
  }

  lemma IndexBoxed(ip: IndexedPolygon)
    requires Indexed(ip)
    ensures Boxed(RegionCore(ip.rings), ip.bbox) && ValidBox(ip.bbox)
  {
    IndexedEdges(ip);
    RegionClosed(ip.rings);
    forall x | In(RegionCore(ip.rings), x) ensures InRealBox(ip.bbox, x) {
      if !InRealBox(ip.bbox, x) {
        OutsideBox(Region(ip.rings), ip.bbox, x);
      }
    }
  }

  // ----- The edges decide

  function Probe(s: Shape): Point
    requires s.ConvexPoly? ==> |s.pts| > 0
    requires s.Polygon? ==> |s.outline| > 0
  {
    match s
    case Segment(a, _, _) => a
    case Circle(c, _) => c
    case ConvexPoly(pts, _) => pts[0]
    case Polygon(outline, _) => outline[0]
  }

  lemma ProbeInCore(s: Shape)
    requires BoxedShape(s)
    ensures In(CoreOf(s), Real(Dbl(Probe(s))))
  {
    match s
    case Segment(a, b, _) => OnEnds(Real(Dbl(a)), Real(Dbl(b)));
    case Circle(_, _) =>
    case ConvexPoly(pts, _) => FirstVertexInRegion([pts]);
    case Polygon(outline, holes) => FirstVertexInRegion([outline] + holes);
  }

  ghost predicate MeetsEdge(c: Core, rings: seq<Ring>) {
    exists i, z :: 0 <= i < |Edges2(rings)| && In(c, z) && In(EdgeCore(Edges2(rings)[i]), z)
  }

  lemma SharedWithEdge(c: Core, rings: seq<Ring>, i: nat, z: Pt)
    requires i < |Edges2(rings)| && In(c, z) && In(EdgeCore(Edges2(rings)[i]), z)
    ensures MeetsEdge(c, rings)
  {
  }

  /** A core that meets no edge, with one point outside, is wholly outside. */
  lemma ProbeDecides(s: Shape, rings: seq<Ring>)
    requires BoxedShape(s) && WellHoled(RealRings(rings))
    requires !MeetsEdge(CoreOf(s), rings)
    requires Contain(Real(Dbl(Probe(s))), Region(rings)) == Outside
    ensures OutsideOf(CoreOf(s), rings)
  {
    match s
    case Circle(_, _) =>
    case Segment(a, b, _) => SegmentProbe(s, rings);
    case ConvexPoly(_, _) => RegionProbe(s, rings);
    case Polygon(_, _) => RegionProbe(s, rings);
  }

  lemma SegmentProbe(s: Shape, rings: seq<Ring>)
    requires s.Segment? && !MeetsEdge(CoreOf(s), rings)
    requires Contain(Real(Dbl(s.a)), Region(rings)) == Outside
    ensures OutsideOf(CoreOf(s), rings)
  {
    var a, b := Dbl(s.a), Dbl(s.b);
    forall e | e in Edges2(rings) ensures !SegIntersect(a, b, e.a, e.b) {
      var i :| 0 <= i < |Edges2(rings)| && Edges2(rings)[i] == e;
      SegIntersectExact(a, b, e.a, e.b);
      forall z | On(Real(a), Real(b), z) && On(Real(e.a), Real(e.b), z) ensures false {
        SharedWithEdge(CoreOf(s), rings, i, z);
      }
    }
    SegmentOutside(a, b, rings);
  }

  lemma RegionProbe(s: Shape, rings: seq<Ring>)
    requires BoxedShape(s) && (s.ConvexPoly? || s.Polygon?) && WellHoled(RealRings(rings))
    requires !MeetsEdge(CoreOf(s), rings)
    requires Contain(Real(Dbl(Probe(s))), Region(rings)) == Outside
    ensures OutsideOf(CoreOf(s), rings)
  {
    var ra := RingsOf(s);
    ShapeRings(s);
    assert |RealRings(rings)[0]| > 0;
    if EdgesCross(ra, rings) {
      var e, f :| e in Edges2(ra) && f in Edges2(rings) && SegIntersect(e.a, e.b, f.a, f.b);
      var i :| 0 <= i < |Edges2(ra)| && Edges2(ra)[i] == e;
      var j :| 0 <= j < |Edges2(rings)| && Edges2(rings)[j] == f;
      SegIntersectExact(e.a, e.b, f.a, f.b);
      var z :| On(Real(e.a), Real(e.b), z) && On(Real(f.a), Real(f.b), z);
      EdgeInRegion(ra, i, z);
      assert false;
    }
    var v := Real(Dbl(rings[0][0]));
    assert RingEdges2(rings[0])[0].a == Dbl(rings[0][0]);
    assert Edges2(rings)[0] == RingEdges2(rings[0])[0];
    OnEnds(Real(Edges2(rings)[0].a), Real(Edges2(rings)[0].b));
    assert In(EdgeCore(Edges2(rings)[0]), v);
    assert !In(CoreOf(s), v);
    hide WellHoled, In, Edges2;
    RegionsDisjoint(ra, rings);
  }

  /** With the probe outside, the distance to the region is the least over its edges. */
  lemma EdgesDecide(s: Shape, rings: seq<Ring>, t: int)
    requires BoxedShape(s) && WellHoled(RealRings(rings)) && 0 <= t
    requires Contain(Real(Dbl(Probe(s))), Region(rings)) == Outside
    ensures DistanceCmp(CoreOf(s), RegionCore(rings), t) == Least(EdgeCmps(CoreOf(s), Edges2(rings), t))
  {
    if MeetsEdge(CoreOf(s), rings) {
      MetEdgeDecides(CoreOf(s), rings, t);
    } else {
      ProbeDecides(s, rings);
      LeastOverEdges(CoreOf(s), rings, t);
    }
  }

  lemma MetEdgeDecides(c: Core, rings: seq<Ring>, t: int)
    requires MeetsEdge(c, rings) && 0 <= t
    ensures DistanceCmp(c, RegionCore(rings), t) == Least(EdgeCmps(c, Edges2(rings), t))
  {
    var es := Edges2(rings);
    var i, z :| 0 <= i < |es| && In(c, z) && In(EdgeCore(es[i]), z);
    EdgeInRegion(rings, i, z);
    CommonPoint(c, RegionCore(rings), z, t);
    CommonPoint(c, EdgeCore(es[i]), z, t);
    var os := EdgeCmps(c, es, t);
    assert os[i] in os;
    hide In, DistanceCmp;
    if t == 0 && Less in os {
      var k :| 0 <= k < |es| && os[k] == Less;
      NeverBelowZero(c, EdgeCore(es[k]));
    }
  }

  lemma NeverBelowZero(a: Core, b: Core)
    ensures DistanceCmp(a, b, 0) != Less
  {
    forall x, y ensures Dist2(x, y) >= 0.0 { Dist2Nonneg(x, y); }
  }

  // ----- Running minima over query results

  function PickedCmps(os: seq<Ordering>, ids: seq<nat>): (r: seq<Ordering>)
    requires forall k :: 0 <= k < |ids| ==> ids[k] < |os|
    ensures |r| == |ids|
  {
    seq(|ids|, k requires 0 <= k < |ids| => os[ids[k]])
  }

  /** Comparisons left out are Greater: the minimum is the same in any order. */
  lemma LeastPicked(os: seq<Ordering>, ids: seq<nat>)
    requires forall k :: 0 <= k < |ids| ==> ids[k] < |os|
    requires forall i: nat :: i < |os| && i !in ids ==> os[i] == Greater
    ensures Least(PickedCmps(os, ids)) == Least(os)
  {
    var p := PickedCmps(os, ids);
    forall o | o in os && o != Greater ensures o in p {
      var i: nat :| i < |os| && os[i] == o;
      var k :| 0 <= k < |ids| && ids[k] == i;
      assert p[k] == o;
    }
    forall o | o in p ensures o in os {
      var k :| 0 <= k < |p| && p[k] == o;
      assert os[ids[k]] == o;
    }
  }

  /** Edges outside the window are farther than the threshold. */
  lemma UnvisitedFar(ip: IndexedPolygon, s: Shape, clearance: int, ids: seq<nat>, t: int)
    requires Indexed(ip) && BoxedShape(s) && clearance <= MAX32
    requires t == 2 * clearance + Sweep2(s) && 0 <= t
    requires IsQuery(ids, ip.edges, Window(s, clearance))
    ensures |ip.edges| == |Edges2(ip.rings)|
    ensures forall i: nat :: i < |ip.edges| && i !in ids ==> EdgeCmps(CoreOf(s), Edges2(ip.rings), t)[i] == Greater
  {
    IndexedEdges(ip);
    CoreBoxed(s);
    forall i: nat | i < |ip.edges| && i !in ids ensures EdgeCmps(CoreOf(s), Edges2(ip.rings), t)[i] == Greater {
      var e := ip.edges[i];
      EdgeBoxed(e);
      assert !Intersects(Window(s, clearance), EdgeBox(e));
      var d := WindowMisses(s, clearance, EdgeBox(e));
      FarCores(CoreOf(s), EdgeCore(DblEdge(e)), CoreBox(s), EdgeBox(e), d, t);
    }
  }

  /** The loop shared by the gap and contact tests: compare the core with each listed edge,
      stopping at the first Less. */
  method MinOverHits(c: Core, edges: seq<PointEdge>, ids: seq<nat>, t: int, ghost os: seq<Ordering>)
    returns (best: Ordering)
    requires 0 <= t && |os| == |edges|
    requires forall k :: 0 <= k < |ids| ==> ids[k] < |edges|
    requires forall i :: 0 <= i < |os| ==> os[i] == DistanceCmp(c, EdgeCore(DblEdge(edges[i])), t)
    ensures best == Least(PickedCmps(os, ids))
  {
    hide DistanceCmp;
    ghost var p := PickedCmps(os, ids);
    best := Greater;
    for k := 0 to |ids|
      invariant best == Least(p[..k]) != Less
    {
      assert p[..k + 1] == p[..k] + [p[k]];
      var e := edges[ids[k]];
      var o := CoreCmp(c, EdgeCore(DblEdge(e)), t);
      if o == Less {
        assert p[k] in p;
        return o;
      }
      best := if best == Equal || o == Equal then Equal else Greater;
    }
    assert p[..|ids|] == p;
  }

  /** The polygon of some rings, as a shape of the unindexed kernel. */
  function Poly(rings: seq<Ring>): Shape
    requires |rings| > 0
  {
    Polygon(rings[0], rings[1..])
  }

  lemma PolyCore(rings: seq<Ring>)
    requires |rings| > 0
    ensures CoreOf(Poly(rings)) == RegionCore(rings) && Sweep2(Poly(rings)) == 0
  {
    assert [rings[0]] + rings[1..] == rings;
  }

  lemma PolyGap(rings: seq<Ring>, s: Shape, clearance: int)
    requires |rings| > 0
    ensures var t := 2 * clearance + Sweep2(s);
            && (t < 0 ==> Gap(Poly(rings), s, clearance) == Greater)
            && (0 <= t ==> Gap(Poly(rings), s, clearance) == DistanceCmp(CoreOf(s), RegionCore(rings), t))
  {
    PolyCore(rings);
    hide DistanceCmp, CoreOf, Sweep2, Poly;
    DistanceSymmetric(CoreOf(s), RegionCore(rings), 2 * clearance + Sweep2(s));
  }

  /** A window that misses the whole polygon. */
  lemma OutOfReach(ip: IndexedPolygon, s: Shape, clearance: int)
    requires Indexed(ip) && BoxedShape(s) && clearance <= MAX32
    requires 0 <= 2 * clearance + Sweep2(s) && !Intersects(Window(s, clearance), ip.bbox)
    ensures DistanceCmp(CoreOf(s), RegionCore(ip.rings), 2 * clearance + Sweep2(s)) == Greater
  {
    IndexBoxed(ip);
    hide *;
    var d := WindowMisses(s, clearance, ip.bbox);
    CoreBoxed(s);
    FarCores(CoreOf(s), RegionCore(ip.rings), CoreBox(s), ip.bbox, d, 2 * clearance + Sweep2(s));
  }

  lemma ProbeContained(ip: IndexedPolygon, s: Shape, t: int)
    requires BoxedShape(s) && 0 <= t && Contain(Real(Dbl(Probe(s))), Region(ip.rings)) != Outside
    ensures DistanceCmp(CoreOf(s), RegionCore(ip.rings), t) == CmpInt(0, t)
  {
    ProbeInCore(s);
    CommonPoint(CoreOf(s), RegionCore(ip.rings), Real(Dbl(Probe(s))), t);
  }

  /** The comparisons with all edges, and that the visited ones decide. */
  ghost function AllCmps(ip: IndexedPolygon, s: Shape, t: int): (os: seq<Ordering>)
    requires Indexed(ip)
    ensures |os| == |ip.edges|
    ensures forall i :: 0 <= i < |os| ==> os[i] == DistanceCmp(CoreOf(s), EdgeCore(DblEdge(ip.edges[i])), t)
  {
    IndexedEdges(ip);
    EdgeCmps(CoreOf(s), Edges2(ip.rings), t)
  }

  lemma HitsDecide(ip: IndexedPolygon, s: Shape, clearance: int, ids: seq<nat>, t: int)
    requires Indexed(ip) && WellHoled(RealRings(ip.rings)) && BoxedShape(s) && clearance <= MAX32
    requires t == 2 * clearance + Sweep2(s) && 0 <= t
    requires IsQuery(ids, ip.edges, Window(s, clearance))
    requires Contain(Real(Dbl(Probe(s))), Region(ip.rings)) == Outside
    ensures DistanceCmp(CoreOf(s), RegionCore(ip.rings), t) == Least(PickedCmps(AllCmps(ip, s, t), ids))
  {
    EdgesDecide(s, ip.rings, t);
    UnvisitedFar(ip, s, clearance, ids, t);
    LeastPicked(AllCmps(ip, s, t), ids);
  }

  /** `IndexedPolygon::gap_cmp`: the kernel's answer for every shape and every clearance up to
      `i32::MAX`. */
  method IndexedGapCmp(ip: IndexedPolygon, s: Shape, clearance: int) returns (o: Ordering)
    requires Indexed(ip) && WellHoled(RealRings(ip.rings)) && BoxedShape(s)
    ensures clearance <= MAX32 ==> o == Gap(Poly(ip.rings), s, clearance)
    ensures 0 <= 2 * clearance + Sweep2(s) && !Intersects(Window(s, clearance), ip.bbox) ==> o == Greater
  {
    var t := 2 * clearance + Sweep2(s);
    PolyGap(ip.rings, s, clearance);
    hide DistanceCmp, WellHoled, Gap, Intersects, Sweep2, Window, Poly, AllCmps;
    if t < 0 {
      return Greater;
    }
    var reach := Window(s, clearance);
    if !Intersects(reach, ip.bbox) {
      if clearance <= MAX32 { OutOfReach(ip, s, clearance); }
      return Greater;
    }
    var contained := ContainmentOf(ip, Probe(s));
    if contained != Outside {
      ProbeContained(ip, s, t);
      return CmpInt(0, t);
    }
    var ids := QueryEntries(ip.edges, reach);
    o := MinOverHits(CoreOf(s), ip.edges, ids, t, AllCmps(ip, s, t));
    if clearance <= MAX32 { HitsDecide(ip, s, clearance, ids, t); }
  }

  /** `IndexedPolygon::touches`: contact, stopping at the first. */
  method IndexedTouches(ip: IndexedPolygon, s: Shape) returns (touching: bool)
    requires Indexed(ip) && WellHoled(RealRings(ip.rings)) && BoxedShape(s)
    ensures touching <==> Gap(Poly(ip.rings), s, 0) != Greater
    ensures touching <==> ShareAPoint(Poly(ip.rings), s)
  {
    TouchingMeans(ip.rings, s);
    AtZero(ip.rings, s);
    hide ShareAPoint, BoxedShape, IsQuery, DistanceCmp, WellHoled, Gap, Intersects, Window, Poly, AllCmps, ShapeBox,
      CoreOf, Sweep2;
    var t := Sweep2(s);
    var reach := ShapeBox(s);
    if !Intersects(reach, ip.bbox) {
      OutOfReach(ip, s, 0);
      return false;
    }
    var contained := ContainmentOf(ip, Probe(s));
    if contained != Outside {
      ProbeContained(ip, s, t);
      return true;
    }
    var ids := QueryEntries(ip.edges, reach);
    touching := AnyHit(CoreOf(s), ip.edges, ids, t, AllCmps(ip, s, t));
    HitsDecide(ip, s, 0, ids, t);
  }

  lemma TouchingMeans(rings: seq<Ring>, s: Shape)
    requires |rings| > 0 && WellHoled(RealRings(rings)) && ValidShape(s)
    ensures Gap(Poly(rings), s, 0) != Greater <==> ShareAPoint(Poly(rings), s)
  {
    assert [rings[0]] + rings[1..] == rings;
    hide Gap, WellHoled, ShareAPoint;
    TouchIsReal(Poly(rings), s);
  }

  lemma AtZero(rings: seq<Ring>, s: Shape)
    requires BoxedShape(s) && |rings| > 0
    ensures Window(s, 0) == ShapeBox(s) && 0 <= Sweep2(s)
    ensures Gap(Poly(rings), s, 0) == DistanceCmp(CoreOf(s), RegionCore(rings), Sweep2(s))
  {
    PolyGap(rings, s, 0);
    hide DistanceCmp, Gap, Poly;
  }

  method AnyHit(c: Core, edges: seq<PointEdge>, ids: seq<nat>, t: int, ghost os: seq<Ordering>)
    returns (found: bool)
    requires 0 <= t && |os| == |edges|
    requires forall k :: 0 <= k < |ids| ==> ids[k] < |edges|
    requires forall i :: 0 <= i < |os| ==> os[i] == DistanceCmp(c, EdgeCore(DblEdge(edges[i])), t)
    ensures found <==> Least(PickedCmps(os, ids)) != Greater
  {
    hide DistanceCmp;
    ghost var p := PickedCmps(os, ids);
    for k := 0 to |ids|
      invariant forall j :: 0 <= j < k ==> p[j] == Greater
    {
      var o := CoreCmp(c, EdgeCore(DblEdge(edges[ids[k]])), t);
      if o != Greater {
        assert p[k] in p;
        return true;
      }
    }
    return false;
  }

  function PointWindow(p: Point, distance: int): BBox {
    Inflate(BBox(p, p), ClampCoord(distance))
  }

  /** No edge's box meets the window. */
  predicate WindowEmpty(ip: IndexedPolygon, window: BBox) {
    forall e :: e in ip.edges ==> !Intersects(EdgeBox(e), window)
  }

  /** `IndexedPolygon::point_distance_cmp`: the distance from a point to the region, for every distance up to
      `i32::MAX`. */
  method PointDistanceCmp(ip: IndexedPolygon, p: Point, distance: int) returns (o: Ordering)
    requires Indexed(ip) && WellHoled(RealRings(ip.rings))
    ensures distance <= MAX32 ==>
              o == if distance < 0 then Greater else DistanceCmp(PointCore(Dbl(p)), RegionCore(ip.rings), 2 * distance)
    ensures Contain(Real(Dbl(p)), Region(ip.rings)) == Outside && WindowEmpty(ip, PointWindow(p, distance)) ==>
              o == Greater
    ensures 0 <= distance <= MAX32 ==> (o != Greater <==> PointWithin(ip.rings, p, distance as real, false))
    ensures 0 < distance <= MAX32 ==> (o == Less <==> PointWithin(ip.rings, p, distance as real, true))
  {
    if 0 <= distance { PointIsReal(ip.rings, p, distance); }
    hide PointWithin;
    var t := 2 * distance;
    ghost var s := Circle(p, 0);
    if t < 0 {
      return Greater;
    }
    var contained := ContainmentOf(ip, p);
    hide DistanceCmp, WellHoled, AllCmps;
    if contained != Outside {
      ProbeContained(ip, s, t);
      return CmpInt(0, t);
    }
    var reach := PointWindow(p, distance);
    assert Inflate(BBox(p, p), 0) == BBox(p, p);
    assert Window(s, distance) == reach;
    var ids := QueryEntries(ip.edges, reach);
    hide Window, PointWindow, Intersects;
    NothingListed(ip, reach, ids);
    o := MinOverHits(PointCore(Dbl(p)), ip.edges, ids, t, AllCmps(ip, s, t));
    if distance <= MAX32 { HitsDecide(ip, s, distance, ids, t); }
  }

  lemma NothingListed(ip: IndexedPolygon, window: BBox, ids: seq<nat>)
    requires IsQuery(ids, ip.edges, window)
    ensures WindowEmpty(ip, window) ==> ids == []
  {
    hide Intersects;
    if ids != [] {
      assert ip.edges[ids[0]] in ip.edges;
    }
  }
}
