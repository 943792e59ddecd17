/** Containment of a swept shape in a region: with no region edge nearer the core than the radius, one core point
    decides, and any nearer edge has points of the shape outside. */
module SweptWithin {
  import opened Plane
  import opened EvenOdd
  import opened Touching
  import opened Nearest
  import opened Rings
  import opened Regions
  import opened WideMul
  import opened Kernel
  import opened Distance
  import opened Shapes
  import RealShapes
  import opened PolyIndex
  import opened IndexedGap
  import opened Perturbation
  import opened Within
  import opened RegionView

  // ----- Balls that reach no edge

  /** No point of an edge is nearer y than the threshold. */
  ghost predicate KeepsOff(es: seq<Edge>, y: Pt, t2: real) {
    forall k, w :: 0 <= k < |es| && OnEdge(es[k], w) ==> t2 <= Dist2(y, w)
  }

  lemma QuadFromStart(l2: real, s: real)
    requires 0.0 <= s <= 1.0 && 0.0 <= l2
    ensures Quad(l2, 0.0, s) <= l2
    ensures Quad(l2, 0.0, s) == l2 && l2 > 0.0 ==> s == 1.0
  {
    assert Quad(l2, 0.0, s) == Mul(Mul(s, s), l2);
    MulMono(s, 1.0, s);
    assert Mul(s, s) <= s && Mul(1.0, s) == s;
    MulMono(Mul(s, s), 1.0, l2);
    if s < 1.0 && l2 > 0.0 {
      MulPos(1.0 - Mul(s, s), l2);
      assert Mul(1.0 - Mul(s, s), l2) == l2 - Mul(Mul(s, s), l2);
    }
  }

  /** The far end of a segment is its only point at that distance. */
  lemma FarthestIsEnd(y: Pt, z: Pt, w: Pt)
    requires On(y, z, w) && Dist2(y, z) <= Dist2(y, w)
    ensures w == z
  {
    var s := OnParam(y, z, w);
    Dist2Lerp(y, z, y, s);
    Dist2Nonneg(y, y);
    Dist2Nonneg(y, z);
    assert Dot(y, z, y) == 0.0;
    QuadFromStart(Len2(y, z), s);
    hide Quad, Dist2, Dot;
    LerpOne(y, z);
    PointSegmentIf(y, z, w);
  }

  lemma PointSegmentIf(y: Pt, z: Pt, w: Pt)
    requires On(y, z, w)
    ensures y == z ==> w == z
  {
    if y == z {
      PointSegment(y, w);
    }
  }

  /** Around a point of the region that keeps off all edges, the whole closed ball is in the region. */
  lemma BallInside(y: Pt, z: Pt, es: seq<Edge>, t2: real)
    requires Closed(es) && 0.0 < t2 && KeepsOff(es, y, t2) && InRegion(es, y) && Dist2(y, z) <= t2
    ensures InRegion(es, z)
  {
    if !OnAny(es, z) {
      forall i | 0 <= i < |es| ensures !Meet(y, z, es[i].a, es[i].b) {
        if Meet(y, z, es[i].a, es[i].b) {
          var w :| On(y, z, w) && On(es[i].a, es[i].b, w);
          assert OnEdge(es[i], w);
          FarthestIsEnd(y, z, w);
          assert false;
        }
      }
      Transport(y, z, es);
    }
  }

  lemma OffEdges(es: seq<Edge>, y: Pt, t2: real)
    requires 0.0 < t2 && KeepsOff(es, y, t2)
    ensures !OnAny(es, y)
  {
    Dist2Nonneg(y, y);
    if OnAny(es, y) {
      assert false;
    }
  }

  // ----- A core that meets no edge lies on one side

  lemma SegmentOneSide(a: Pt, b: Pt, y: Pt, es: seq<Edge>)
    requires Closed(es) && On(a, b, y) && forall w :: On(a, b, w) ==> !OnAny(es, w)
    ensures Contain(y, es) == Contain(a, es)
  {
    OnEnds(a, b);
    forall i | 0 <= i < |es| ensures !Meet(a, y, es[i].a, es[i].b) {
      if Meet(a, y, es[i].a, es[i].b) {
        var w :| On(a, y, w) && On(es[i].a, es[i].b, w);
        OnTrans(a, b, a, y, w);
        assert OnEdge(es[i], w);
      }
    }
    Transport(a, y, es);
  }

  ghost predicate RegionOff(ring: RealRing, es: seq<Edge>) {
    forall w :: InRegion(RingEdges(ring), w) ==> !OnAny(es, w)
  }

  lemma OffIsApart(ring: RealRing, es: seq<Edge>)
    requires RegionOff(ring, es)
    ensures EdgesApart(RingEdges(ring), es)
  {
    forall e, f | e in RingEdges(ring) && f in es ensures !Meet(e.a, e.b, f.a, f.b) {
      if Meet(e.a, e.b, f.a, f.b) {
        var w :| On(e.a, e.b, w) && On(f.a, f.b, w);
        OnAnyIn(RingEdges(ring), e, w);
        OnAnyIn(es, f, w);
        assert InRegion(RingEdges(ring), w);
      }
    }
  }

  /** From an inner point to the first edge of its own ring, everything is in the region. */
  lemma InnerWay(ring: RealRing, y: Pt) returns (p: Pt)
    requires Contain(y, RingEdges(ring)) == Inside
    ensures OnAny(RingEdges(ring), p) && forall w :: On(y, p, w) ==> InRegion(RingEdges(ring), w)
  {
    var own := RingEdges(ring);
    RingClosed(ring);
    var z := FarOutside(own, y);
    if forall i :: 0 <= i < |own| ==> !Meet(y, z, own[i].a, own[i].b) {
      Transport(y, z, own);
    }
    p := FirstHit(y, z, own);
    OnEnds(y, p);
    forall w | On(y, p, w) ensures InRegion(own, w) {
      if !OnAny(own, w) {
        NothingBefore(y, p, w, own);
        Transport(y, w, own);
      }
    }
  }

  lemma NothingBefore(y: Pt, p: Pt, w: Pt, own: seq<Edge>)
    requires On(y, p, w) && !OnAny(own, w) && forall v :: On(y, p, v) && OnAny(own, v) ==> v == p
    ensures forall i :: 0 <= i < |own| ==> !Meet(y, w, own[i].a, own[i].b)
  {
    OnEnds(y, p);
    forall i | 0 <= i < |own| ensures !Meet(y, w, own[i].a, own[i].b) {
      if Meet(y, w, own[i].a, own[i].b) {
        var v :| On(y, w, v) && On(own[i].a, own[i].b, v);
        OnTrans(y, p, y, w, v);
        assert OnEdge(own[i], v);
        assert v == p;
        BackAndForth(y, w, p);
      }
    }
  }

  lemma RegionOneSide(ring: RealRing, y: Pt, es: seq<Edge>)
    requires |ring| > 0 && Closed(es) && InRegion(RingEdges(ring), y) && RegionOff(ring, es)
    ensures Contain(y, es) == Contain(ring[0], es)
  {
    OffIsApart(ring, es);
    if OnAny(RingEdges(ring), y) {
      RingOneSide(ring, es, y);
    } else {
      var p := InnerWay(ring, y);
      RingOneSide(ring, es, p);
      forall i | 0 <= i < |es| ensures !Meet(y, p, es[i].a, es[i].b) {
        if Meet(y, p, es[i].a, es[i].b) {
          assert false;
        }
      }
      Transport(y, p, es);
    }
  }

  // ----- A nearer edge has the outside within reach

  lemma QuadSmall(l2: real, d: real, gap: real) returns (bound: real)
    requires 0.0 < gap && 0.0 <= l2
    ensures 0.0 < bound <= 1.0 && forall e :: 0.0 < e <= bound ==> Quad(l2, d, e) < gap
  {
    var m := l2 + (if d < 0.0 then -2.0 * d else 2.0 * d) + 1.0;
    var b := gap / m;
    assert b * m == gap;
    bound := if b < 1.0 then b else 1.0;
    forall e | 0.0 < e <= bound ensures Quad(l2, d, e) < gap {
      QuadBelow(l2, d, e, m, gap);
    }
  }

  lemma QuadBelow(l2: real, d: real, e: real, m: real, gap: real)
    requires 0.0 <= l2 && m == l2 + (if d < 0.0 then -2.0 * d else 2.0 * d) + 1.0
    requires 0.0 < e <= 1.0 && e <= gap / m && 0.0 < gap
    ensures Quad(l2, d, e) < gap
  {
    assert (gap / m) * m == gap;
    MulMono(e, gap / m, m);
    assert Mul(e, m) <= gap;
    MulMono(e, 1.0, e);
    MulMono(Mul(e, e), e, l2);
    assert Quad(l2, d, e) == Mul(Mul(e, e), l2) - 2.0 * Mul(e, d);
    var a := if d < 0.0 then -d else d;
    MulMono(-d, a, e);
    assert Mul(-d, e) == -Mul(e, d) && Mul(a, e) == Mul(e, a);
    assert Mul(e, m) == Mul(e, l2) + 2.0 * Mul(e, a) + e;
  }

  /** Off the edge c-d at parameter u, a short way to either side. */
  function SidePoint(c: Pt, d: Pt, u: real, e: real): Pt {
    Pt(Along(c.x, d.x, u) - Mul(e, d.y - c.y), Along(c.y, d.y, u) + Mul(e, d.x - c.x))
  }

  lemma SideOrient(c: Pt, d: Pt, u: real, e: real)
    ensures Orient(c, d, SidePoint(c, d, u, e)) == Mul(e, Len2(c, d))
  {
    var dx, dy := d.x - c.x, d.y - c.y;
    assert Len2(c, d) == dx * dx + dy * dy;
    assert Mul(e, Len2(c, d)) == e * (dx * dx) + e * (dy * dy);
    assert dx * (u * dy + e * dx) - dy * (u * dx - e * dy) == e * (dx * dx) + e * (dy * dy);
  }

  lemma AcrossOrient(c: Pt, d: Pt, u: real, e: real)
    ensures var a, b := SidePoint(c, d, u, e), SidePoint(c, d, u, -e);
            && Orient(a, b, c) == -2.0 * Mul(Mul(e, u), Len2(c, d))
            && Orient(a, b, d) == 2.0 * Mul(Mul(e, 1.0 - u), Len2(c, d))
  {
    var dx, dy := d.x - c.x, d.y - c.y;
    var a, b := SidePoint(c, d, u, e), SidePoint(c, d, u, -e);
    assert b.x - a.x == 2.0 * (e * dy) && b.y - a.y == -2.0 * (e * dx);
    assert c.x - a.x == -(u * dx) + e * dy && c.y - a.y == -(u * dy) - e * dx;
    assert d.x - a.x == dx - u * dx + e * dy && d.y - a.y == dy - u * dy - e * dx;
    assert Len2(c, d) == dx * dx + dy * dy;
    hide SidePoint, Mul, Dist2;
    AcrossTerms(dx, dy, u, e);
  }

  lemma AcrossTerms(dx: real, dy: real, u: real, e: real)
    ensures (2.0 * (e * dy)) * (-(u * dy) - e * dx) - (-2.0 * (e * dx)) * (-(u * dx) + e * dy)
         == -2.0 * Mul(Mul(e, u), dx * dx + dy * dy)
    ensures (2.0 * (e * dy)) * (dy - u * dy - e * dx) - (-2.0 * (e * dx)) * (dx - u * dx + e * dy)
         == 2.0 * Mul(Mul(e, 1.0 - u), dx * dx + dy * dy)
  {
  }

  lemma CrossesThere(c: Pt, d: Pt, u: real, e: real)
    requires c != d && 0.0 < u < 1.0 && 0.0 < e
    ensures ProperCross(SidePoint(c, d, u, e), SidePoint(c, d, u, -e), c, d)
  {
    Dist2Nonneg(c, d);
    SideOrient(c, d, u, e);
    SideOrient(c, d, u, -e);
    AcrossOrient(c, d, u, e);
    var l := Len2(c, d);
    MulPos(e, l);
    assert Mul(-e, l) == -Mul(e, l);
    MulPos(e, u);
    MulPos(e, 1.0 - u);
    MulPos(Mul(e, u), l);
    MulPos(Mul(e, 1.0 - u), l);
    hide Orient, SidePoint, Mul, Dist2;
  }

  /** Straight out from the edge. */
  lemma SideIsStep(c: Pt, d: Pt, u: real, e: real)
    ensures SidePoint(c, d, u, e) == Lerp(Lerp(c, d, u), SidePoint(c, d, u, 1.0), e)
    ensures SidePoint(c, d, u, -e) == Lerp(Lerp(c, d, u), SidePoint(c, d, u, -1.0), e)
  {
    StepOut(Along(c.x, d.x, u), d.y - c.y, e);
    StepOut(Along(c.y, d.y, u), d.x - c.x, e);
    hide Along, Mul;
  }

  lemma StepOut(w: real, h: real, e: real)
    ensures Along(w, w - Mul(1.0, h), e) == w - Mul(e, h) && Along(w, w + Mul(1.0, h), e) == w + Mul(e, h)
    ensures Along(w, w - Mul(-1.0, h), e) == w - Mul(-e, h) && Along(w, w + Mul(-1.0, h), e) == w + Mul(-e, h)
  {
  }

  lemma MidOfSides(c: Pt, d: Pt, u: real, e: real)
    ensures On(SidePoint(c, d, u, e), SidePoint(c, d, u, -e), Lerp(c, d, u))
  {
    var a, b, w := SidePoint(c, d, u, e), SidePoint(c, d, u, -e), Lerp(c, d, u);
    HalfStep(Along(c.x, d.x, u), e, d.y - c.y);
    HalfStep(Along(c.y, d.y, u), e, d.x - c.x);
    LerpOn(a, b, 0.5);
    hide On, Along, Mul;
    assert Lerp(a, b, 0.5) == w;
  }

  lemma HalfStep(w: real, e: real, h: real)
    ensures Along(w - Mul(e, h), w - Mul(-e, h), 0.5) == w == Along(w + Mul(e, h), w + Mul(-e, h), 0.5)
  {
    assert Mul(-e, h) == -Mul(e, h);
  }

  lemma BallConvex(y: Pt, a: Pt, b: Pt, x: Pt, t2: real)
    requires On(a, b, x) && Dist2(y, a) < t2 && Dist2(y, b) < t2
    ensures Dist2(y, x) < t2
  {
    var r := OnParam(a, b, x);
    Dist2Lerp(a, b, y, r);
    Dist2Lerp(a, b, y, 1.0);
    LerpOne(a, b);
    Dist2Nonneg(a, y);
    Dist2Nonneg(a, b);
    hide Dist2, Dot;
    QuadConvex(Len2(a, b), Dot(a, b, y), r, t2 - Dist2(a, y));
  }

  lemma QuadConvex(l2: real, d: real, r: real, gap: real)
    requires 0.0 <= l2 && 0.0 <= r <= 1.0 && 0.0 < gap && Quad(l2, d, 1.0) < gap
    ensures Quad(l2, d, r) < gap
  {
    MulMono(r, 1.0, r);
    MulMono(Mul(r, r), r, l2);
    assert Quad(l2, d, r) == Mul(Mul(r, r), l2) - 2.0 * Mul(r, d);
    var q := l2 - 2.0 * d;
    assert Quad(l2, d, r) <= Mul(r, q) by {
      assert Mul(r, q) == Mul(r, l2) - 2.0 * Mul(r, d);
    }
    if q > 0.0 {
      MulMono(r, 1.0, q);
      assert Mul(1.0, q) == q;
    } else {
      MulNonneg(r, -q);
      assert Mul(r, -q) == -Mul(r, q);
    }
  }

  /** Next to a point of an edge, nearer y than the threshold, is one strictly within the edge and on no other. */
  lemma NearLone(es: seq<Edge>, k: nat, y: Pt, w: Pt, t2: real) returns (u: real)
    requires NoOverlap(es) && k < |es| && es[k].a != es[k].b && OnEdge(es[k], w) && Dist2(y, w) < t2
    ensures 0.0 < u < 1.0
    ensures var z := Lerp(es[k].a, es[k].b, u); Lone(es, k, z) && Dist2(y, z) < t2
  {
    var c, d := es[k].a, es[k].b;
    var s := OnParam(c, d, w);
    var goal := if s <= 0.5 then 1.0 else 0.0;
    var n := Lerp(c, d, goal);
    LerpOn(c, d, goal);
    LerpZero(c, d);
    LerpOne(c, d);
    if w == n {
      LerpInjective(c, d, s, goal);
    }
    Dist2Nonneg(w, n);
    Dist2Nonneg(w, y);
    hide Dist2, Dot, Quad, NoOverlap, Lerp, Along, On;
    var f := QuadSmall(Len2(w, n), Dot(w, n, y), t2 - Dist2(y, w));
    var r := LoneWay(es, k, w, n, |es|);
    var t := MinReal(f, r) / 2.0;
    assert 0.0 < t < r && t <= f && t <= 0.5;
    Dist2Lerp(w, n, y, t);
    LerpCompose(c, d, s, goal, t);
    u := Along(s, goal, t);
    StaysInside(s, goal, t);
    LerpOn(c, d, u);
  }

  lemma StaysInside(s: real, goal: real, t: real)
    requires 0.0 <= s <= 1.0 && 0.0 < t < 1.0 && goal == (if s <= 0.5 then 1.0 else 0.0)
    ensures 0.0 < Along(s, goal, t) < 1.0
  {
    if s <= 0.5 {
      MulPos(t, 1.0 - s);
      MulPos(1.0 - t, 1.0 - s);
      assert Along(s, goal, t) == s + Mul(t, 1.0 - s) == 1.0 - Mul(1.0 - t, 1.0 - s);
    } else {
      MulPos(t, s);
      MulPos(1.0 - t, s);
      assert Along(s, goal, t) == s - Mul(t, s) == Mul(1.0 - t, s);
    }
  }

  /** If a point of an edge that overlaps no other is nearer y than the threshold, so are points outside and inside
      the region. */
  lemma NearEdgeLeaves(es: seq<Edge>, k: nat, y: Pt, w: Pt, t2: real) returns (x: Pt, z: Pt)
    requires Closed(es) && NoOverlap(es) && k < |es| && es[k].a != es[k].b && OnEdge(es[k], w) && Dist2(y, w) < t2
    ensures Dist2(y, x) < t2 && Contain(x, es) == Outside && Dist2(y, z) < t2 && Contain(z, es) == Inside
  {
    var c, d := es[k].a, es[k].b;
    var u := NearLone(es, k, y, w, t2);
    var m, p, q := Lerp(c, d, u), SidePoint(c, d, u, 1.0), SidePoint(c, d, u, -1.0);
    Dist2Nonneg(m, p);
    Dist2Nonneg(m, q);
    Dist2Nonneg(m, y);
    hide Dist2, Dot, Quad, Contain, NoOverlap, ProperCross, Orient, Lone, On, Lerp;
    var gap := t2 - Dist2(y, m);
    var f := QuadSmall(Len2(m, p), Dot(m, p, y), gap);
    var g := QuadSmall(Len2(m, q), Dot(m, q, y), gap);
    var e := if f < g then f else g;
    SideIsStep(c, d, u, e);
    Dist2Lerp(m, p, y, e);
    Dist2Lerp(m, q, y, e);
    var a, b := SidePoint(c, d, u, e), SidePoint(c, d, u, -e);
    CrossesThere(c, d, u, e);
    MidOfSides(c, d, u, e);
    hide SidePoint;
    x, z := CrossingLeaves(a, b, es, k, m);
    BallConvex(y, a, b, x, t2);
    BallConvex(y, a, b, z, t2);
  }

  // ----- Swept shapes

  ghost predicate InSwept(s: Shape, z: Pt) {
    exists y :: In(CoreOf(s), y) && Dist2(y, z) <= Radius2(s)
  }

  /** The square of the sweep radius, in doubled units. */
  function Radius2(s: Shape): real {
    (Sweep2(s) * Sweep2(s)) as real
  }

  /** Every real point of the shape is in the region. */
  ghost predicate AllWithin(s: Shape, rings: seq<Ring>) {
    forall z :: InSwept(s, z) ==> InRegion(Region(rings), z)
  }

  lemma SweptIsReal(s: Shape, z: Pt)
    ensures InSwept(s, RealShapes.Double(z)) <==> RealShapes.InShape(s, z)
  {
    RealShapes.ShapeIsSwept(s, z);
    RadiusIsReal(s);
    var r2, x := Sq(RealShapes.Radius(s)), RealShapes.Double(z);
    hide In, CoreOf, Dist2, Sq, Radius2, RealShapes.Radius, RealShapes.InShape, RealShapes.Double;
    if InSwept(s, x) {
      var y :| In(CoreOf(s), y) && Dist2(y, x) <= Radius2(s);
      RealShapes.CloserDoubles(RealShapes.Half(y), z, Radius2(s), r2);
    }
    if RealShapes.InShape(s, z) {
      var y :| In(CoreOf(s), RealShapes.Double(y)) && Dist2(y, z) <= r2;
      RealShapes.CloserDoubles(y, z, Radius2(s), r2);
    }
  }

  lemma RadiusIsReal(s: Shape)
    ensures Radius2(s) == 4.0 * Sq(RealShapes.Radius(s))
  {
    assert Sweep2(s) as real == 2.0 * RealShapes.Radius(s);
    hide Sweep2, RealShapes.Radius;
    RealShapes.SquareOfDouble(Sweep2(s), RealShapes.Radius(s));
  }

  /** All of a shape is in a region: every point of it in nanometres, by the rule of its kind, is one of the region. */
  lemma AllWithinMeans(s: Shape, rings: seq<Ring>)
    ensures AllWithin(s, rings) <==> forall z :: RealShapes.InShape(s, z) ==> RealShapes.InRings(rings, z)
  {
    RealShapes.RegionDoubles(rings);
    var es := Edges(RealShapes.RingsAt(rings));
    forall z
      ensures InSwept(s, RealShapes.Double(z)) <==> RealShapes.InShape(s, z)
      ensures InRegion(Region(rings), RealShapes.Double(z)) <==> RealShapes.InRings(rings, z)
    {
      SweptIsReal(s, z);
      RealShapes.ContainDoubles(es, Region(rings), z);
    }
    hide InSwept, Region, RealShapes.InShape, RealShapes.InRings, InRegion, Contain, RealShapes.Double;
    if forall z :: RealShapes.InShape(s, z) ==> RealShapes.InRings(rings, z) {
      forall x | InSwept(s, x) ensures InRegion(Region(rings), x) {
        var z := RealShapes.Half(x);
      }
    }
  }

  lemma CoreIsSwept(s: Shape, y: Pt)
    requires In(CoreOf(s), y)
    ensures InSwept(s, y)
  {
    Dist2Nonneg(y, y);
    hide In, Dist2;
    assert Sweep2(s) * Sweep2(s) >= 0;
  }

  lemma OneRing(pts: Ring)
    ensures Region([pts]) == RingEdges(Vertices(pts))
  {
    assert RealRings([pts]) == [Vertices(pts)];
    assert [Vertices(pts)][1..] == [];
    assert Edges([Vertices(pts)]) == RingEdges(Vertices(pts));
  }

  /** The core lies on one side of edges it does not meet. */
  lemma CoreOneSide(s: Shape, y: Pt, es: seq<Edge>)
    requires BoxedShape(s) && !s.Polygon? && Closed(es) && In(CoreOf(s), y)
    requires forall w :: In(CoreOf(s), w) ==> !OnAny(es, w)
    ensures Contain(y, es) == Contain(Real(Dbl(Probe(s))), es)
  {
    match s
    case Segment(a, b, _) => SegmentOneSide(Real(Dbl(a)), Real(Dbl(b)), y, es);
    case Circle(c, _) =>
    case ConvexPoly(pts, _) =>
      OneRing(pts);
      hide InRegion, Contain;
        RegionOneSide(Vertices(pts), y, es);
  }

  ghost predicate NoneCloser(s: Shape, rings: seq<Ring>) {
    forall e :: e in Edges2(rings) ==> DistanceCmp(CoreOf(s), SegCore(e.a, e.b), Sweep2(s)) != Less
  }

  lemma CoreKeepsOff(s: Shape, rings: seq<Ring>, y: Pt)
    requires NoneCloser(s, rings) && In(CoreOf(s), y)
    ensures KeepsOff(Region(rings), y, Radius2(s))
  {
    EdgesAgree(rings);
    var es := Edges2(rings);
    hide In, Dist2, Sweep2, CoreOf, Edges2, Region;
    forall k, w | 0 <= k < |Region(rings)| && OnEdge(Region(rings)[k], w) ensures Radius2(s) <= Dist2(y, w) {
      assert es[k] in es;
      assert Region(rings)[k] == RealEdge(es[k]);
      InSegment(es[k], w);
      assert !Closer(CoreOf(s), SegCore(es[k].a, es[k].b), Radius2(s));
    }
  }

  lemma InSegment(e: Edge2, w: Pt)
    ensures In(SegCore(e.a, e.b), w) <==> OnEdge(RealEdge(e), w)
  {
  }

  lemma RadiusPositive(s: Shape)
    requires Sweep2(s) > 0
    ensures Radius2(s) > 0.0
  {
    assert Sweep2(s) * Sweep2(s) > 0;
  }

  /** With no edge nearer than the radius and one core point inside, the whole shape is inside. */
  lemma SweptInside(s: Shape, rings: seq<Ring>)
    requires BoxedShape(s) && !s.Polygon? && Sweep2(s) > 0 && NoneCloser(s, rings)
    requires Contain(Real(Dbl(Probe(s))), Region(rings)) != Outside
    ensures AllWithin(s, rings)
  {
    RegionClosed(rings);
    RadiusPositive(s);
    hide In, Dist2, Sweep2, CoreOf, Region, NoneCloser, Radius2, BoxedShape, Probe;
    var es := Region(rings);
    forall w | In(CoreOf(s), w) ensures !OnAny(es, w) && KeepsOff(es, w, Radius2(s)) {
      CoreKeepsOff(s, rings, w);
      OffEdges(es, w, Radius2(s));
    }
    forall z | InSwept(s, z) ensures InRegion(es, z) {
      var y :| In(CoreOf(s), y) && Dist2(y, z) <= Radius2(s);
      CoreOneSide(s, y, es);
      BallInside(y, z, es, Radius2(s));
    }
  }

  /** A region with no repeated vertices, no two of whose edges overlap, its holes within the outline's box. */
  ghost predicate ValidRegion(rings: seq<Ring>) {
    && |rings| > 0 && |rings[0]| > 0 && HolesInBox(rings) && NoOverlap(Region(rings))
    && forall e :: e in Edges2(rings) ==> e.a != e.b
  }

  /** An edge nearer than the radius puts part of the shape outside. */
  lemma CloserLeaves(s: Shape, rings: seq<Ring>, e: Edge2)
    requires ValidRegion(rings) && e in Edges2(rings) && DistanceCmp(CoreOf(s), SegCore(e.a, e.b), Sweep2(s)) == Less
    ensures !AllWithin(s, rings)
  {
    RegionClosed(rings);
    EdgesAgree(rings);
    RealInjective(e.a, e.b);
    hide In, Dist2, Sweep2, CoreOf, Edges2, Region, NoOverlap, HolesInBox;
    var es := Edges2(rings);
    var k :| 0 <= k < |es| && es[k] == e;
    assert Closer(CoreOf(s), SegCore(e.a, e.b), Radius2(s));
    var y, w :| In(CoreOf(s), y) && In(SegCore(e.a, e.b), w) && Dist2(y, w) < Radius2(s);
    InSegment(e, w);
    assert Region(rings)[k] == RealEdge(e);
    var x, _ := NearEdgeLeaves(Region(rings), k, y, w, Radius2(s));
    assert InSwept(s, x);
  }

  // ----- Edges the box query misses

  lemma NoInflation(b: BBox)
    requires ValidBox(b)
    ensures Inflate(b, 0) == b
  {
  }

  lemma MissedIsFar(s: Shape, rings: seq<Ring>, e: Edge2)
    requires BoxedShape(s) && e in Edges2(rings) && !Intersects(EdgeBox2(e.a, e.b), ShapeBox(s)) && 0 <= Sweep2(s)
    ensures DistanceCmp(CoreOf(s), SegCore(e.a, e.b), Sweep2(s)) != Less
  {
    EdgesDoubled(rings, e);
    var p := PointEdge(Undbl(e.a), Undbl(e.b));
    EdgeBoxed(p);
    CoreBoxed(s);
    NoInflation(ShapeBox(s));
    var d := WindowMisses(s, 0, EdgeBox(p));
    hide CoreOf, CoreBox, ShapeBox, Sweep2, BoxedShape, DistanceCmp, Boxed;
    FarCores(CoreOf(s), SegCore(e.a, e.b), CoreBox(s), EdgeBox(p), d, Sweep2(s));
  }

  // ----- A shape whose box leaves the region's box

  lemma VertexInCore(pts: Ring, rounding: Coord, i: nat)
    requires i < |pts|
    ensures In(CoreOf(ConvexPoly(pts, rounding)), Real(Dbl(pts[i])))
  {
    OneRing(pts);
    VertexOnRing(Vertices(pts), i);
  }

  /** Each side of the core's box is reached by a point of the core. */
  lemma CoreReaches(s: Shape) returns (l: Point, r: Point, d: Point, u: Point)
    requires BoxedShape(s) && !s.Polygon?
    ensures In(CoreOf(s), Real(Dbl(l))) && In(CoreOf(s), Real(Dbl(r)))
    ensures In(CoreOf(s), Real(Dbl(d))) && In(CoreOf(s), Real(Dbl(u)))
    ensures var b := CoreBox(s); l.x == b.min.x && r.x == b.max.x && d.y == b.min.y && u.y == b.max.y
  {
    match s
    case Segment(a, b, _) =>
      OnEnds(Real(Dbl(a)), Real(Dbl(b)));
      l, r := if a.x <= b.x then a else b, if a.x <= b.x then b else a;
      d, u := if a.y <= b.y then a else b, if a.y <= b.y then b else a;
    case Circle(c, _) => l, r, d, u := c, c, c, c;
    case ConvexPoly(pts, k) =>
      var i, j, m, n := BoxReached(pts);
      VertexInCore(pts, k, i);
      VertexInCore(pts, k, j);
      VertexInCore(pts, k, m);
      VertexInCore(pts, k, n);
      l, r, d, u := pts[i], pts[j], pts[m], pts[n];
  }

  lemma SweptBeyond(s: Shape, p: Point, dx: int, dy: int)
    requires In(CoreOf(s), Real(Dbl(p))) && (dx == 0 || dy == 0)
    requires dx + dy == Sweep2(s) || dx + dy == -Sweep2(s)
    ensures InSwept(s, Pt((2 * p.x + dx) as real, (2 * p.y + dy) as real))
  {
    var y, z := Real(Dbl(p)), Pt((2 * p.x + dx) as real, (2 * p.y + dy) as real);
    assert z.x - y.x == dx as real && z.y - y.y == dy as real;
    SqInt(dx);
    SqInt(dy);
    hide In, Sq, CoreOf, Sweep2;
    SquareOfSum(dx, dy, Sweep2(s));
  }

  lemma SquareOfSum(dx: int, dy: int, w: int)
    requires (dx == 0 || dy == 0) && (dx + dy == w || dx + dy == -w)
    ensures dx * dx + dy * dy == w * w
  {
  }

  lemma SqInt(d: int)
    ensures Sq(d as real) == (d * d) as real
  {
  }

  /** How far a shape's box reaches beyond its core's, before saturation. */
  function Reach(s: Shape): int {
    match s
    case Segment(_, _, w) => HalfUp(w)
    case Circle(_, r) => r
    case ConvexPoly(_, r) => r
    case Polygon(_, _) => 0
  }

  lemma BoxWithinReach(s: Shape)
    requires BoxedShape(s) && !s.Polygon?
    ensures var b, c, g := ShapeBox(s), CoreBox(s), Reach(s);
            && b.min.x >= c.min.x - g && b.max.x <= c.max.x + g && b.min.y >= c.min.y - g && b.max.y <= c.max.y + g
            && 0 <= g && 2 * g <= Sweep2(s) + 1
  {
  }

  predicate BoxInside(b: BBox, o: BBox) {
    Contains(b, o.min) && Contains(b, o.max)
  }

  /** A shape whose box is not in the region's box has a point outside the region. */
  lemma BoxLeaves(s: Shape, rings: seq<Ring>)
    requires BoxedShape(s) && !s.Polygon? && |rings| > 0 && |rings[0]| > 0 && HolesInBox(rings)
    requires !BoxInside(BoxOfPoints(rings[0]), ShapeBox(s))
    ensures !AllWithin(s, rings)
  {
    var b, o, w := BoxOfPoints(rings[0]), ShapeBox(s), Sweep2(s);
    BoxWithinReach(s);
    var l, r, d, u := CoreReaches(s);
    hide BoxOfPoints, CoreBox, ShapeBox, BoxedShape, HolesInBox, In, CoreOf, AllWithin, Sweep2;
    if o.min.x < b.min.x {
      PointLeaves(s, rings, l, -w, 0);
    } else if o.max.x > b.max.x {
      PointLeaves(s, rings, r, w, 0);
    } else if o.min.y < b.min.y {
      PointLeaves(s, rings, d, 0, -w);
    } else {
      PointLeaves(s, rings, u, 0, w);
    }
  }

  /** A point of the shape beyond the region's box is outside the region. */
  lemma PointLeaves(s: Shape, rings: seq<Ring>, p: Point, dx: int, dy: int)
    requires In(CoreOf(s), Real(Dbl(p))) && (dx == 0 || dy == 0) && (dx + dy == Sweep2(s) || dx + dy == -Sweep2(s))
    requires |rings| > 0 && |rings[0]| > 0 && HolesInBox(rings)
    requires var b := BoxOfPoints(rings[0]);
             2 * p.x + dx < 2 * b.min.x || 2 * p.x + dx > 2 * b.max.x || 2 * p.y + dy < 2 * b.min.y ||
             2 * p.y + dy > 2 * b.max.y
    ensures !AllWithin(s, rings)
  {
    SweptBeyond(s, p, dx, dy);
    RegionBoxed(rings);
    var z := Pt((2 * p.x + dx) as real, (2 * p.y + dy) as real);
    assert !InRealBox(BoxOfPoints(rings[0]), z);
    hide InSwept, BoxOfPoints, HolesInBox, InRealBox, Region;
    assert !In(RegionCore(rings), z);
  }

  // ----- The operation

  /** The shapes whose containment is decided without the region-in-region test. */
  predicate SweptOrThin(s: Shape) {
    s.Segment? || s.Circle? || (s.ConvexPoly? && s.rounding > 0)
  }

  function RegionBox(v: View): BBox
    requires |RingsIn(v)| > 0 && |RingsIn(v)[0]| > 0
  {
    match v
    case RingsView(rings) => BoxOfPoints(rings[0])
    case IndexView(ip) => ip.bbox
  }

  /** A zero radius: the shape is its core. */
  lemma ThinIsCore(s: Shape, rings: seq<Ring>)
    requires Sweep2(s) == 0
    ensures AllWithin(s, rings) <==> forall y :: In(CoreOf(s), y) ==> InRegion(Region(rings), y)
  {
    hide In, Dist2, CoreOf, InRegion;
    forall y, z ensures Dist2(y, z) <= Radius2(s) <==> z == y {
      Dist2Nonneg(y, z);
    }
    forall y | In(CoreOf(s), y) ensures InSwept(s, y) {
      CoreIsSwept(s, y);
    }
  }

  /** The edges near the shape's box decide for all edges. */
  method AnyCloser(s: Shape, v: View) returns (closer: bool)
    requires ValidView(v) && BoxedShape(s) && !s.Polygon? && 0 <= Sweep2(s)
    ensures !closer <==> NoneCloser(s, RingsIn(v))
  {
    hide DistanceCmp, CoreOf, Sweep2, Intersects, ShapeBox, EdgeBox2, ValidView, ValidShape;
    ghost var rings := RingsIn(v);
    var near := EdgesNear(v, ShapeBox(s));
    for i := 0 to |near|
      invariant forall k :: 0 <= k < i ==> DistanceCmp(CoreOf(s), SegCore(near[k].a, near[k].b), Sweep2(s)) != Less
    {
      var o := CoreCmp(CoreOf(s), SegCore(near[i].a, near[i].b), Sweep2(s));
      if o == Less {
        assert near[i] in near;
        return true;
      }
    }
    forall e | e in Edges2(rings) ensures DistanceCmp(CoreOf(s), SegCore(e.a, e.b), Sweep2(s)) != Less {
      if !Intersects(EdgeBox2(e.a, e.b), ShapeBox(s)) {
        MissedIsFar(s, rings, e);
      }
    }
    closer := false;
  }

  /** A track without width crosses no edge of the region in a point of another edge. */
  ghost predicate CleanTrack(s: Shape, rings: seq<Ring>) {
    s.Segment? && Sweep2(s) == 0 ==> CleanCrossings(Real(Dbl(s.a)), Real(Dbl(s.b)), Region(rings))
  }

  /** The boundary is out of the shape's way: no edge nearer than the radius, or properly crossing a sharp track. */
  ghost predicate KeptClear(s: Shape, rings: seq<Ring>) {
    && (Sweep2(s) > 0 ==> NoneCloser(s, rings))
    && (s.Segment? && Sweep2(s) == 0 ==> NoneCrossed(Dbl(s.a), Dbl(s.b), rings))
  }

  /** `shape_within` for tracks, discs and rounded polygons, on either view. With holes in the outline's box it is
      true exactly when every real point of the shape is in the region and the boundary is kept clear. For a valid
      region that is containment itself, with a reservation for sharp tracks only. */
  method ShapeWithin(s: Shape, v: View) returns (within: bool)
    requires BoxedShape(s) && SweptOrThin(s) && ValidView(v) && |RingsIn(v)| > 0 && |RingsIn(v)[0]| > 0
    ensures within ==> AllWithin(s, RingsIn(v)) && KeptClear(s, RingsIn(v))
    ensures HolesInBox(RingsIn(v)) ==> (within <==> AllWithin(s, RingsIn(v)) && KeptClear(s, RingsIn(v)))
    ensures ValidRegion(RingsIn(v)) && CleanTrack(s, RingsIn(v)) ==> (within <==> AllWithin(s, RingsIn(v)))
  {
    ghost var rings := RingsIn(v);
    ProbeInCore(s);
    UndblDbl(Probe(s));
    CoreIsSwept(s, Real(Dbl(Probe(s))));
    hide ShapeBox, BoxedShape, AllWithin, Contain, NoOverlap, CleanCrossings, NoneCrossed, HolesInBox, DistanceCmp,
      InSwept, In, BoxInside, Region, Edges2;
    assert RegionBox(v) == BoxOfPoints(rings[0]);
    hide BoxOfPoints, RegionBox;
    if !BoxInside(RegionBox(v), ShapeBox(s)) {
      if HolesInBox(rings) { BoxLeaves(s, rings); }
      return false;
    }
    if Sweep2(s) > 0 {
      var c := ViewContain(v, Dbl(Probe(s)));
      if c == Outside {
        PointRefutes(s, rings, Real(Dbl(Probe(s))));
        return false;
      }
      var closer := AnyCloser(s, v);
      if closer {
        if ValidRegion(rings) {
          var e :| e in Edges2(rings) && DistanceCmp(CoreOf(s), SegCore(e.a, e.b), Sweep2(s)) == Less;
          CloserLeaves(s, rings, e);
        }
        return false;
      }
      SweptInside(s, rings);
      return true;
    }
    within := CoreWithin(s, v);
  }

  lemma PointRefutes(s: Shape, rings: seq<Ring>, y: Pt)
    requires InSwept(s, y) && Contain(y, Region(rings)) == Outside
    ensures !AllWithin(s, rings)
  {
  }

  lemma SegmentCore(s: Shape, a: Point, b: Point, rings: seq<Ring>)
    requires s.Segment? && s.a == a && s.b == b
    ensures AllInside(Dbl(a), Dbl(b), rings) <==> forall y :: In(CoreOf(s), y) ==> InRegion(Region(rings), y)
  {
    hide On, Contain, Region, Dbl, Real;
    forall y ensures In(CoreOf(s), y) <==> On(Real(Dbl(a)), Real(Dbl(b)), y) {
    }
  }

  /** A point or a sharp segment. */
  method CoreWithin(s: Shape, v: View) returns (within: bool)
    requires BoxedShape(s) && SweptOrThin(s) && Sweep2(s) == 0 && ValidView(v)
    ensures within <==> AllWithin(s, RingsIn(v)) && KeptClear(s, RingsIn(v))
    ensures CleanTrack(s, RingsIn(v)) ==> (within <==> AllWithin(s, RingsIn(v)))
  {
    ghost var rings := RingsIn(v);
    ThinIsCore(s, rings);
    hide AllWithin, Contain, CleanCrossings, NoneCrossed, ValidView, On, Region, Dbl, Real;
    match s
    case Circle(c, _) =>
      UndblDbl(c);
      assert forall y :: In(CoreOf(s), y) <==> y == Real(Dbl(c));
      var k := ViewContain(v, Dbl(c));
      within := k != Outside;
      assert In(CoreOf(s), Real(Dbl(c)));
    case Segment(a, b, _) =>
      UndblDbl(a);
      UndblDbl(b);
      within := SegmentWithin(Dbl(a), Dbl(b), v);
      SegmentCore(s, a, b, rings);
  }
}
