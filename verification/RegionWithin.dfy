/** Containment of a sharp region in a region. A part of one outside the other would have a corner at a vertex on
    both boundaries, and a probe just beside a boundary ray there would be in it. */
module RegionWithin {
  import opened Plane
  import opened EvenOdd
  import opened Touching
  import opened Nearest
  import opened Kernel
  import opened Distance
  import opened Shapes
  import opened PolyIndex
  import opened IndexedGap
  import opened Perturbation
  import opened Within
  import opened RegionView
  import opened SweptWithin
  import opened Corners
  import opened LeakWalk

  // ----- A corner of the integer regions

  /** A boundary ray that leaves s along e. */
  predicate RayAt(s: P2, e: Edge2, r: Vec) {
    && e.a != e.b
    && if s == e.a then r == VecOf(e.a, e.b)
       else if s == e.b then r == VecOf(e.b, e.a)
       else OnSegment2(e.a, e.b, s) && (r == VecOf(s, e.b) || r == VecOf(s, e.a))
  }

  /** The products for every probe beside a boundary ray stay below 2^70. */
  lemma SideProbeFits(s: P2, e: Edge2, r: Vec, side: int, f: Edge2)
    requires RayAt(s, e, r) && (side == 1 || side == -1)
    ensures PertFits(SideProbe(s, r, side), f)
  {
    assert Short(r);
    PerturbedFits(SideProbe(s, r, side), f);
  }

  predicate EndOf(es: seq<Edge2>, s: P2) {
    exists i :: 0 <= i < |es| && (s == es[i].a || s == es[i].b)
  }

  /** Just beside ray r at s, on this side, is a point of the inner region outside the area. */
  predicate Leaks(ri: seq<Ring>, ra: seq<Ring>, s: P2, r: Vec, side: int) {
    && PertContain(SideProbe(s, r, side), Edges2(ri)) == Inside
    && PertContain(SideProbe(s, r, side), Edges2(ra)) == Outside
  }

  lemma AllEdges(ri: seq<Ring>, ra: seq<Ring>)
    ensures var es, all := Edges2(ri) + Edges2(ra), Region(ri) + Region(ra);
            |es| == |all| && forall i :: 0 <= i < |es| ==> all[i] == RealEdge(es[i])
  {
    EdgesAgree(ri);
    EdgesAgree(ra);
  }

  lemma VertexIsInteger(es: seq<Edge2>, all: seq<Edge>, v: Pt) returns (s: P2)
    requires |es| == |all| && (forall i :: 0 <= i < |es| ==> all[i] == RealEdge(es[i])) && Vertex(all, v)
    ensures EndOf(es, s) && Real(s) == v
  {
    var i :| 0 <= i < |all| && (v == all[i].a || v == all[i].b);
    s := if v == all[i].a then es[i].a else es[i].b;
    assert s == es[i].a || s == es[i].b;
  }

  /** The corner is not where its edge starts, and back along the edge is a boundary ray. */
  lemma BackIsRay(e: Edge2, s: P2, t: real)
    requires e.a.y != e.b.y && 0.0 < t <= 1.0 && Real(s) == Lerp(Real(e.a), Real(e.b), t)
    ensures RayAt(s, e, VecOf(s, e.a)) && s.y != e.a.y
  {
    var a, b := Real(e.a), Real(e.b);
    LerpOn(a, b, t);
    OnReal(e.a, e.b, s);
    assert Along(a.y, b.y, 0.0) == a.y;
    hide OnSegment2, On;
    if s.y == e.a.y {
      AlongInjective(a.y, b.y, t, 0.0);
    }
  }

  /** y seen from the corner, along the ray back to the start of the edge. */
  lemma StepBack(a: Pt, b: Pt, y: Pt, v: Pt, t0: real, t1: real) returns (tau: real)
    requires 0.0 < t0 < t1 && y == Lerp(a, b, t0) && v == Lerp(a, b, t1)
    ensures 0.0 < tau && y.x == v.x + Mul(tau, a.x - v.x) && y.y == v.y + Mul(tau, a.y - v.y)
  {
    tau := Over(t1 - t0, t1);
    LerpZero(a, b);
    LerpCompose(a, b, t1, 0.0, tau);
    assert Along(t1, 0.0, tau) == t0;
    assert y == Lerp(v, a, tau);
  }

  /** The ray from the corner back along the slide. */
  lemma SlideRay(e: Edge2, s: P2, y: Pt, t0: real, t1: real) returns (r: Vec, tau: real)
    requires e.a.y != e.b.y && 0.0 < t0 < t1 <= 1.0
    requires y == Lerp(Real(e.a), Real(e.b), t0) && Real(s) == Lerp(Real(e.a), Real(e.b), t1)
    ensures RayAt(s, e, r) && r.y != 0 && 0.0 < tau
    ensures y.x == s.x as real + Mul(tau, r.x as real) && y.y == s.y as real + Mul(tau, r.y as real)
  {
    hide Lerp, RayAt, Mul;
    r := VecOf(s, e.a);
    BackIsRay(e, s, t1);
    tau := StepBack(Real(e.a), Real(e.b), y, Real(s), t0, t1);
  }

  lemma ProbesSettle(ri: seq<Ring>, ra: seq<Ring>, p: Perturbed) returns (bound: real)
    requires Decidable(p, Edges2(ri)) && Decidable(p, Edges2(ra))
    ensures 0.0 < bound && forall d :: 0.0 < d < bound ==>
                                         Contain(Displaced(p, d), Region(ri)) == PertContain(p, Edges2(ri)) &&
                                         Contain(Displaced(p, d), Region(ra)) == PertContain(p, Edges2(ra))
  {
    EdgesAgree(ri);
    EdgesAgree(ra);
    var b := PerturbedIsLimit(p, Edges2(ri));
    var c := PerturbedIsLimit(p, Edges2(ra));
    bound := MinReal(b, c);
  }

  /** A real point inside the inner region and outside the area has a corner the probes find, for any rings. */
  lemma FindCorner(ri: seq<Ring>, ra: seq<Ring>, x: Pt) returns (s: P2, e: Edge2, r: Vec, side: int)
    requires NoCrossing(Region(ri), Region(ra)) && Contain(x, Region(ri)) == Inside && Contain(x, Region(ra)) == Outside
    ensures EndOf(Edges2(ri) + Edges2(ra), s) && e in Edges2(ri) + Edges2(ra) && RayAt(s, e, r)
    ensures (side == 1 || side == -1) && Leaks(ri, ra, s, r, side)
    ensures Contain(Real(s), Region(ri)) != Outside && Contain(Real(s), Region(ra)) != Inside
  {
    var ei, ea, es := Region(ri), Region(ra), Edges2(ri) + Edges2(ra);
    RegionClosed(ri);
    RegionClosed(ra);
    AllEdges(ri, ra);
    hide Region, Edges2, Contain, NoCrossing, Closed, Vertex, OnlyCorner;
    var all, d, t, t1, y, v, g := WalkToCorner(ei, ea, x);
    var b := CornerWedge(ei, ea, all, d, t, t1, y, v, g);
    var k: nat;
    s, k := CornerIsInteger(es, ei, ea, all, d, v);
    e := es[k];
    var tau: real;
    r, tau := SlideRay(e, s, y, t, t1);
    side := if (r.y > 0) == (g.x < y.x) then 1 else -1;
    var bound := ProbeInWedge(s, r, side, y, g, tau, b);
    ProbeLeaks(ri, ra, s, r, side, y, g, b, bound);
    if Contain(v, ei) != Boundary { CornerLimit(ei, v, y, g, b, Inside); }
    if Contain(v, ea) != Boundary { CornerLimit(ea, v, y, g, b, Outside); }
  }

  /** The corner is an integer vertex and its edge an integer edge. */
  lemma CornerIsInteger(es: seq<Edge2>, ei: seq<Edge>, ea: seq<Edge>, all: seq<Edge>, d: Edge, v: Pt)
    returns (s: P2, k: nat)
    requires |es| == |ei + ea| && forall i :: 0 <= i < |es| ==> (ei + ea)[i] == RealEdge(es[i])
    requires (forall f :: f in all <==> f in ei || f in ea) && d in all && Vertex(all, v)
    ensures EndOf(es, s) && Real(s) == v && k < |es| && RealEdge(es[k]) == d
  {
    VertexPart(all, ei + ea, v);
    s := VertexIsInteger(es, ei + ea, v);
    k :| 0 <= k < |ei + ea| && (ei + ea)[k] == d;
  }

  lemma ProbeLeaks(ri: seq<Ring>, ra: seq<Ring>, s: P2, r: Vec, side: int, y: Pt, g: Pt, b: real, bound: real)
    requires r.y != 0 && 0.0 < bound
    requires forall e :: 0.0 < e < bound ==> InWedge(Displaced(SideProbe(s, r, side), e), Real(s), y, g, b)
    requires WedgeIs(Real(s), y, g, b, Region(ri), Inside) && WedgeIs(Real(s), y, g, b, Region(ra), Outside)
    ensures Leaks(ri, ra, s, r, side)
  {
    hide Region, Edges2, Contain, PertContain, Displaced, WedgePoint;
    var p := SideProbe(s, r, side);
    var c := ProbesSettle(ri, ra, p);
    var e := MinReal(c, bound) / 2.0;
    assert 0.0 < e < bound && e < c;
    assert InWedge(Displaced(p, e), Real(s), y, g, b);
    var u, t :| 0.0 < u <= 1.0 && 0.0 < t <= b && Displaced(p, e) == WedgePoint(Real(s), y, g, u, t);
  }

  // ----- What the checks mean

  ghost predicate RegionInside(ri: seq<Ring>, ra: seq<Ring>) {
    forall x :: InRegion(Region(ri), x) ==> InRegion(Region(ra), x)
  }

  ghost predicate StartsIn(ri: seq<Ring>, ra: seq<Ring>) {
    forall e :: e in Edges2(ri) ==> Contain(Real(e.a), Region(ra)) != Outside
  }

  ghost predicate StartsOut(ri: seq<Ring>, ra: seq<Ring>) {
    forall f :: f in Edges2(ra) ==> Contain(Real(f.a), Region(ri)) != Inside
  }

  ghost predicate NoneCross(ri: seq<Ring>, ra: seq<Ring>) {
    forall e, f :: e in Edges2(ri) && f in Edges2(ra) ==> !CrossesProperly2(e.a, e.b, f.a, f.b)
  }

  /** A vertex of one boundary on the other. */
  ghost predicate Event(ri: seq<Ring>, ra: seq<Ring>, s: P2) {
    || (Contain(Real(s), Region(ra)) == Boundary && exists e :: e in Edges2(ri) && e.a == s)
    || (Contain(Real(s), Region(ri)) == Boundary && exists f :: f in Edges2(ra) && f.a == s)
  }

  ghost predicate LeaksAt(ri: seq<Ring>, ra: seq<Ring>, s: P2) {
    exists e, r, side :: e in Edges2(ri) + Edges2(ra) && RayAt(s, e, r) && (side == 1 || side == -1) &&
                         Leaks(ri, ra, s, r, side)
  }

  /** Wherever an inner edge properly crosses an area edge, no other area edge passes. */
  ghost predicate CleanCross(ri: seq<Ring>, ra: seq<Ring>) {
    forall e :: e in Edges2(ri) ==> CleanCrossings(Real(e.a), Real(e.b), Region(ra))
  }

  /** Edges that meet only at vertices do not overlap, and every crossing with them is clean. */
  lemma VerticesSuffice(rings: seq<Ring>)
    requires MeetAtVertices(Region(rings))
    ensures NoOverlap(Region(rings)) && forall ri :: CleanCross(ri, rings)
  {
    var es := Region(rings);
    VerticesNoOverlap(es);
    hide Region, MeetAtVertices, NoOverlap, CleanCrossings;
    forall ri, e | e in Edges2(ri) ensures CleanCrossings(Real(e.a), Real(e.b), es) {
      VerticesClean(Real(e.a), Real(e.b), es);
    }
  }

  lemma RealNoCrossing(ri: seq<Ring>, ra: seq<Ring>)
    requires NoneCross(ri, ra)
    ensures NoCrossing(Region(ri), Region(ra))
  {
    EdgesAgree(ri);
    EdgesAgree(ra);
    var ei, ea := Edges2(ri), Edges2(ra);
    hide Region, Edges2, ProperCross, CrossesProperly2;
    forall e, f | e in Region(ri) && f in Region(ra) ensures !ProperCross(e.a, e.b, f.a, f.b) {
      var i :| 0 <= i < |Region(ri)| && Region(ri)[i] == e;
      var j :| 0 <= j < |Region(ra)| && Region(ra)[j] == f;
      assert e == RealEdge(ei[i]) && f == RealEdge(ea[j]);
      assert ei[i] in ei && ea[j] in ea;
      CrossesProperlyReal(ei[i].a, ei[i].b, ea[j].a, ea[j].b);
    }
  }

  /** Near a boundary point of the inner region outside the area there is an inside point of it. */
  lemma MoveInside(ri: seq<Ring>, ra: seq<Ring>, x: Pt) returns (z: Pt)
    requires ValidRegion(ri) && InRegion(Region(ri), x) && Contain(x, Region(ra)) == Outside
    ensures Contain(z, Region(ri)) == Inside && Contain(z, Region(ra)) == Outside
  {
    RegionClosed(ri);
    RegionClosed(ra);
    EdgesAgree(ri);
    if Contain(x, Region(ri)) == Inside {
      z := x;
    } else {
      var ei, es := Region(ri), Edges2(ri);
      var k :| 0 <= k < |ei| && OnEdge(ei[k], x);
      assert ei[k] == RealEdge(es[k]) && es[k] in es;
      RealInjective(es[k].a, es[k].b);
      var t2 := ClearBall(Region(ra), x);
      Dist2Nonneg(x, x);
      hide Region, Edges2, Contain, Dist2, NoOverlap;
      var w;
      w, z := NearEdgeLeaves(ei, k, x, x, t2);
      SameInBall(Region(ra), x, z, t2);
    }
  }

  lemma EndStarts(ri: seq<Ring>, ra: seq<Ring>, s: P2) returns (e: Edge2, first: bool)
    requires EndOf(Edges2(ri) + Edges2(ra), s)
    ensures e.a == s && if first then e in Edges2(ri) else e in Edges2(ra)
  {
    var es := Edges2(ri) + Edges2(ra);
    var i :| 0 <= i < |es| && (s == es[i].a || s == es[i].b);
    first := i < |Edges2(ri)|;
    var rings := if first then ri else ra;
    assert es[i] in Edges2(rings);
    if s == es[i].a {
      e := es[i];
    } else {
      e := EndIsStart(rings, es[i]);
    }
  }

  /** Every check passes. */
  ghost predicate Passes(ri: seq<Ring>, ra: seq<Ring>) {
    && StartsIn(ri, ra) && StartsOut(ri, ra) && NoneCross(ri, ra)
    && forall s :: Event(ri, ra, s) ==> !LeaksAt(ri, ra, s)
  }

  /** No real point is inside the inner region and outside the area. */
  ghost predicate InteriorInside(ri: seq<Ring>, ra: seq<Ring>) {
    forall x :: Contain(x, Region(ri)) == Inside ==> InRegion(Region(ra), x)
  }

  /** What the answer comes to, whatever the inner rings: no inside point and no vertex of the inner region is outside
      the area, and no edges properly cross. */
  ghost predicate InteriorFits(ri: seq<Ring>, ra: seq<Ring>) {
    InteriorInside(ri, ra) && StartsIn(ri, ra) && NoneCross(ri, ra)
  }

  /** If every check passes, no point is inside the inner region and outside the area, whatever the rings. */
  lemma ChecksProve(ri: seq<Ring>, ra: seq<Ring>)
    requires Passes(ri, ra)
    ensures InteriorInside(ri, ra)
  {
    RealNoCrossing(ri, ra);
    hide Region, Edges2, Contain, NoCrossing, Leaks, RayAt, NoneCross, Event, LeaksAt, EndOf, StartsIn, StartsOut;
    forall x | Contain(x, Region(ri)) == Inside ensures InRegion(Region(ra), x) {
      if Contain(x, Region(ra)) == Outside {
        var s, e, r, side := FindCorner(ri, ra, x);
        CornerIsEvent(ri, ra, s);
        LeakIsThere(ri, ra, s, e, r, side);
      }
    }
  }

  /** Where no two inner edges overlap, the boundary of the inner region follows its inside. */
  lemma InteriorIsAll(ri: seq<Ring>, ra: seq<Ring>)
    requires ValidRegion(ri)
    ensures InteriorInside(ri, ra) <==> RegionInside(ri, ra)
  {
    hide Region, Contain, ValidRegion;
    if InteriorInside(ri, ra) {
      forall x | InRegion(Region(ri), x) ensures InRegion(Region(ra), x) {
        if Contain(x, Region(ra)) == Outside {
          var z := MoveInside(ri, ra, x);
        }
      }
    }
  }

  lemma CornerIsEvent(ri: seq<Ring>, ra: seq<Ring>, s: P2)
    requires StartsIn(ri, ra) && StartsOut(ri, ra) && EndOf(Edges2(ri) + Edges2(ra), s)
    requires Contain(Real(s), Region(ri)) != Outside && Contain(Real(s), Region(ra)) != Inside
    ensures Event(ri, ra, s)
  {
    hide Region, Edges2, Contain;
    var f, first := EndStarts(ri, ra, s);
  }

  lemma LeakIsThere(ri: seq<Ring>, ra: seq<Ring>, s: P2, e: Edge2, r: Vec, side: int)
    requires e in Edges2(ri) + Edges2(ra) && RayAt(s, e, r) && (side == 1 || side == -1) && Leaks(ri, ra, s, r, side)
    ensures LeaksAt(ri, ra, s)
  {
  }

  // ----- What each refusal shows

  lemma StartInRegion(rings: seq<Ring>, e: Edge2)
    requires e in Edges2(rings)
    ensures InRegion(Region(rings), Real(e.a))
  {
    EdgesAgree(rings);
    var k :| 0 <= k < |Edges2(rings)| && Edges2(rings)[k] == e;
    OnEnds(Real(e.a), Real(e.b));
    assert OnEdge(Region(rings)[k], Real(e.a));
  }

  lemma InsideRefutes(ri: seq<Ring>, ra: seq<Ring>, x: Pt)
    requires Contain(x, Region(ri)) == Inside && Contain(x, Region(ra)) == Outside
    ensures !InteriorInside(ri, ra)
  {
  }

  lemma OutsideRefutes(ri: seq<Ring>, ra: seq<Ring>, x: Pt)
    requires InRegion(Region(ri), x) && Contain(x, Region(ra)) == Outside
    ensures !RegionInside(ri, ra)
  {
  }

  lemma CrossingShows(ri: seq<Ring>, ra: seq<Ring>, e: Edge2, f: Edge2)
    requires CleanCross(ri, ra) && e in Edges2(ri) && f in Edges2(ra) && CrossesProperly2(e.a, e.b, f.a, f.b)
    ensures !RegionInside(ri, ra)
  {
    CrossingRefutes(e.a, e.b, ra, f);
    EdgesAgree(ri);
    var j :| 0 <= j < |Edges2(ri)| && Edges2(ri)[j] == e;
    assert Region(ri)[j] == RealEdge(e);
    hide Region, Edges2, On, Contain;
    var x :| On(Real(e.a), Real(e.b), x) && Contain(x, Region(ra)) == Outside;
    OnRegion(Region(ri), j, x);
    OutsideRefutes(ri, ra, x);
  }

  lemma OnRegion(es: seq<Edge>, j: nat, x: Pt)
    requires j < |es| && OnEdge(es[j], x)
    ensures InRegion(es, x)
  {
  }

  lemma VertexShows(ri: seq<Ring>, ra: seq<Ring>, f: Edge2)
    requires ValidRegion(ra) && f in Edges2(ra) && Contain(Real(f.a), Region(ri)) == Inside
    ensures !InteriorInside(ri, ra)
  {
    RegionClosed(ri);
    RegionClosed(ra);
    EdgesAgree(ra);
    RealInjective(f.a, f.b);
    var v := Real(f.a);
    var k :| 0 <= k < |Edges2(ra)| && Edges2(ra)[k] == f;
    assert Region(ra)[k] == RealEdge(f);
    OnEnds(Real(f.a), Real(f.b));
    var t2 := ClearBall(Region(ri), v);
    Dist2Nonneg(v, v);
    hide Region, Edges2, NoOverlap, Dist2;
    var x, _ := NearEdgeLeaves(Region(ra), k, v, v, t2);
    SameInBall(Region(ri), v, x, t2);
    InsideRefutes(ri, ra, x);
  }

  lemma LeakShows(ri: seq<Ring>, ra: seq<Ring>, s: P2, e: Edge2, r: Vec, side: int)
    requires RayAt(s, e, r) && Leaks(ri, ra, s, r, side)
    ensures !InteriorInside(ri, ra)
  {
    RayMoves(s, e, r);
    var p := SideProbe(s, r, side);
    var b := ProbesSettle(ri, ra, p);
    hide Region, Edges2, PertContain, Displaced;
    InsideRefutes(ri, ra, Displaced(p, b / 2.0));
  }

  lemma RayMoves(s: P2, e: Edge2, r: Vec)
    requires RayAt(s, e, r)
    ensures r != Vec(0, 0)
  {
  }

  // ----- The operation

  /** The vertices of the inner region: none outside the area, and those on its boundary. */
  method InnerVertices(inner: View, area: View) returns (ok: bool, events: set<P2>)
    requires ValidView(inner) && ValidView(area)
    ensures ok <==> StartsIn(RingsIn(inner), RingsIn(area))
    ensures forall e :: ok && e in Edges2(RingsIn(inner)) && Contain(Real(e.a), Region(RingsIn(area))) == Boundary ==>
                          e.a in events
    ensures forall s :: s in events ==> Doubled(s)
  {
    hide Contain, Region, ValidView, Doubled;
    var es := Edges2(RingsIn(inner));
    hide Edges2;
    events := {};
    for i := 0 to |es|
      invariant forall k :: 0 <= k < i ==> Contain(Real(es[k].a), Region(RingsIn(area))) != Outside
      invariant forall k :: 0 <= k < i && Contain(Real(es[k].a), Region(RingsIn(area))) == Boundary ==>
                              es[k].a in events
      invariant forall s :: s in events ==> Doubled(s)
    {
      assert es[i] in es;
      EdgesDoubled(RingsIn(inner), es[i]);
      var c := ViewContain(area, es[i].a);
      if c == Outside {
        return false, events;
      }
      if c == Boundary {
        events := events + {es[i].a};
      }
    }
    ok := true;
  }

  lemma CrossingIsNear(ri: seq<Ring>, ra: seq<Ring>, e: Edge2, f: Edge2)
    requires e in Edges2(ri) && f in Edges2(ra) && CrossesProperly2(e.a, e.b, f.a, f.b)
    ensures Intersects(EdgeBox2(f.a, f.b), EdgeBox2(e.a, e.b))
  {
    EdgesDoubled(ri, e);
    EdgesDoubled(ra, f);
    CrossesProperlyReal(e.a, e.b, f.a, f.b);
    var z := ProperCrossMeets(Real(e.a), Real(e.b), Real(f.a), Real(f.b));
    TouchingBoxes(e.a, e.b, f, z);
  }

  /** Whether an edge of the inner region properly crosses an edge of the area. */
  method AnyCrossing(inner: View, area: View) returns (crossing: bool)
    requires ValidView(inner) && ValidView(area)
    ensures !crossing <==> NoneCross(RingsIn(inner), RingsIn(area))
  {
    hide CrossesProperly2, Intersects, EdgeBox2, ValidView;
    ghost var ri, ra := RingsIn(inner), RingsIn(area);
    var es := Edges2(RingsIn(inner));
    hide Edges2;
    for i := 0 to |es|
      invariant forall k, f :: 0 <= k < i && f in Edges2(ra) ==> !CrossesProperly2(es[k].a, es[k].b, f.a, f.b)
    {
      var e := es[i];
      assert e in es;
      var near := EdgesNear(area, EdgeBox2(e.a, e.b));
      if exists j :: 0 <= j < |near| && CrossesProperly2(e.a, e.b, near[j].a, near[j].b) {
        ghost var j :| 0 <= j < |near| && CrossesProperly2(e.a, e.b, near[j].a, near[j].b);
        assert near[j] in near;
        return true;
      }
      forall f | f in Edges2(ra) ensures !CrossesProperly2(e.a, e.b, f.a, f.b) {
        if CrossesProperly2(e.a, e.b, f.a, f.b) {
          CrossingIsNear(ri, ra, e, f);
        }
      }
    }
    crossing := false;
  }

  /** A vertex whose edge misses the box of the inner region is outside it. */
  lemma MissedOutside(ri: seq<Ring>, ra: seq<Ring>, f: Edge2)
    requires |ri| > 0 && |ri[0]| > 0 && HolesInBox(ri) && f in Edges2(ra)
    requires !Intersects(EdgeBox2(f.a, f.b), BoxOfPoints(ri[0]))
    ensures Contain(Real(f.a), Region(ri)) == Outside
  {
    RegionBoxed(ri);
    EdgesDoubled(ra, f);
    var p, b := Undbl(f.a), BoxOfPoints(ri[0]);
    assert !Contains(b, p);
    assert !InRealBox(b, Real(Dbl(p)));
    hide Region, BoxOfPoints, HolesInBox, InRealBox;
    assert !In(RegionCore(ri), Real(f.a));
  }

  /** The starts of some edges against a region: whether one is strictly inside, and those on the boundary. */
  method ScanStarts(v: View, es: seq<Edge2>) returns (inside: bool, on: set<P2>)
    requires ValidView(v) && forall i :: 0 <= i < |es| ==> Doubled(es[i].a)
    ensures inside <==> exists i :: 0 <= i < |es| && Contain(Real(es[i].a), Region(RingsIn(v))) == Inside
    ensures forall s :: s in on ==> Doubled(s)
    ensures !inside ==> forall i :: 0 <= i < |es| && Contain(Real(es[i].a), Region(RingsIn(v))) == Boundary ==>
                                      es[i].a in on
  {
    hide Contain, Region, ValidView, Doubled;
    on := {};
    for i := 0 to |es|
      invariant forall s :: s in on ==> Doubled(s)
      invariant forall k :: 0 <= k < i ==> Contain(Real(es[k].a), Region(RingsIn(v))) != Inside
      invariant forall k :: 0 <= k < i && Contain(Real(es[k].a), Region(RingsIn(v))) == Boundary ==> es[k].a in on
    {
      var c := ViewContain(v, es[i].a);
      if c == Inside {
        return true, on;
      }
      if c == Boundary {
        on := on + {es[i].a};
      }
    }
    inside := false;
  }

  /** The vertices of the area near the inner region: none strictly inside it, and those on its boundary. */
  method AreaVertices(inner: View, area: View) returns (ok: bool, events: set<P2>)
    requires ValidView(inner) && ValidView(area) && |RingsIn(inner)| > 0 && |RingsIn(inner)[0]| > 0
    ensures !ok ==> !StartsOut(RingsIn(inner), RingsIn(area))
    ensures ok && HolesInBox(RingsIn(inner)) ==> StartsOut(RingsIn(inner), RingsIn(area))
    ensures forall s :: s in events ==> Doubled(s)
    ensures ok && HolesInBox(RingsIn(inner)) ==>
              forall f :: f in Edges2(RingsIn(area)) && Contain(Real(f.a), Region(RingsIn(inner))) == Boundary ==>
                            f.a in events
  {
    ghost var ri, ra := RingsIn(inner), RingsIn(area);
    var ib := RegionBox(inner);
    assert ib == BoxOfPoints(ri[0]);
    hide Contain, Region, ValidView, Doubled, Edges2, Intersects, EdgeBox2, HolesInBox, BoxOfPoints, RegionBox, Real;
    var near := EdgesNear(area, ib);
    forall i | 0 <= i < |near| ensures Doubled(near[i].a) && near[i] in Edges2(ra) {
      assert near[i] in near;
      EdgesDoubled(ra, near[i]);
    }
    var inside, on := ScanStarts(inner, near);
    ok, events := !inside, on;
    if ok && HolesInBox(ri) {
      forall f | f in Edges2(ra)
        ensures Contain(Real(f.a), Region(ri)) != Inside
        ensures (Contain(Real(f.a), Region(ri)) == Boundary ==> f.a in events)
      {
        if !Intersects(EdgeBox2(f.a, f.b), ib) {
          MissedOutside(ri, ra, f);
        } else {
          var i :| 0 <= i < |near| && near[i] == f;
        }
      }
    }
  }

  ghost predicate RayOf(s: P2, es: seq<Edge2>, r: Vec) {
    exists i :: 0 <= i < |es| && RayAt(s, es[i], r)
  }

  lemma RayOfMore(s: P2, es: seq<Edge2>, e: Edge2, r: Vec)
    ensures RayOf(s, es + [e], r) <==> RayOf(s, es, r) || RayAt(s, e, r)
  {
    hide RayAt;
    var more := es + [e];
    if RayOf(s, es, r) {
      var i :| 0 <= i < |es| && RayAt(s, es[i], r);
      assert RayAt(s, more[i], r);
    }
    if RayAt(s, e, r) {
      assert more[|es|] == e;
    }
  }

  /** What the closure `collect` pushes for one edge. */
  function RaysAlong(s: P2, e: Edge2): seq<Vec> {
    if e.a == e.b then []
    else if s == e.a then [VecOf(e.a, e.b)]
    else if s == e.b then [VecOf(e.b, e.a)]
    else if OnSegment2(e.a, e.b, s) then [VecOf(s, e.b), VecOf(s, e.a)]
    else []
  }

  lemma RaysAlongAre(s: P2, e: Edge2)
    ensures forall r :: r in RaysAlong(s, e) <==> RayAt(s, e, r)
  {
  }

  /** The boundary rays that leave s along the given edges. */
  method CollectRays(s: P2, near: seq<Edge2>) returns (rays: seq<Vec>)
    ensures forall r :: r in rays <==> RayOf(s, near, r)
  {
    hide RaysAlong, RayOf, RayAt;
    rays := [];
    NoRays(s);
    for i := 0 to |near|
      invariant forall r :: r in rays <==> RayOf(s, near[..i], r)
    {
      assert near[..i + 1] == near[..i] + [near[i]];
      forall r ensures RayOf(s, near[..i + 1], r) <==> RayOf(s, near[..i], r) || RayAt(s, near[i], r) {
        RayOfMore(s, near[..i], near[i], r);
      }
      RaysAlongAre(s, near[i]);
      rays := rays + RaysAlong(s, near[i]);
    }
    assert near[..|near|] == near;
  }

  lemma NoRays(s: P2)
    ensures forall r :: !RayOf(s, [], r)
  {
  }

  /** A ray leaves s only along an edge whose box holds s. */
  lemma RayIsNear(rings: seq<Ring>, s: P2, e: Edge2, r: Vec)
    requires e in Edges2(rings) && Doubled(s) && RayAt(s, e, r)
    ensures Intersects(EdgeBox2(e.a, e.b), EdgeBox2(s, s))
  {
    EdgesDoubled(rings, e);
    OnReal(e.a, e.b, s);
    OnEnds(Real(e.a), Real(e.b));
    OnEnds(Real(s), Real(s));
    TouchingBoxes(s, s, e, Real(s));
  }

  /** Whether some probe beside a boundary ray at s is in the inner region and outside the area. */
  method EventLeaks(inner: View, area: View, s: P2) returns (leaks: bool)
    requires ValidView(inner) && ValidView(area) && Doubled(s)
    ensures leaks <==> LeaksAt(RingsIn(inner), RingsIn(area), s)
  {
    hide PertContain, Intersects, EdgeBox2, ValidView, Doubled, Edges2, RayAt, VecOf;
    ghost var ri, ra := RingsIn(inner), RingsIn(area);
    var mine := EdgesNear(inner, EdgeBox2(s, s));
    var theirs := EdgesNear(area, EdgeBox2(s, s));
    var rays := CollectRays(s, mine + theirs);
    RaysCover(ri, ra, s, mine, theirs);
    hide RayOf, LeaksAt, Leaks;
    for i := 0 to |rays|
      invariant forall k :: 0 <= k < i ==> !Leaks(ri, ra, s, rays[k], 1) && !Leaks(ri, ra, s, rays[k], -1)
    {
      var left := SideLeaks(inner, area, s, rays[i], 1, mine + theirs);
      var right := SideLeaks(inner, area, s, rays[i], -1, mine + theirs);
      if left || right {
        RayLeaks(ri, ra, s, mine + theirs, rays[i], if left then 1 else -1);
        return true;
      }
    }
    NothingLeaks(ri, ra, s, rays);
    leaks := false;
  }

  /** The rays of the near edges are all the rays. */
  lemma RaysCover(ri: seq<Ring>, ra: seq<Ring>, s: P2, mine: seq<Edge2>, theirs: seq<Edge2>)
    requires Doubled(s)
    requires (forall e :: e in mine ==> e in Edges2(ri)) && (forall e :: e in theirs ==> e in Edges2(ra))
    requires forall e :: e in Edges2(ri) && Intersects(EdgeBox2(e.a, e.b), EdgeBox2(s, s)) ==> e in mine
    requires forall e :: e in Edges2(ra) && Intersects(EdgeBox2(e.a, e.b), EdgeBox2(s, s)) ==> e in theirs
    ensures forall r :: RayOf(s, mine + theirs, r) <==> RayOf(s, Edges2(ri) + Edges2(ra), r)
  {
    hide Intersects, EdgeBox2, Doubled, Edges2, RayAt;
    var near, all := mine + theirs, Edges2(ri) + Edges2(ra);
    forall r ensures RayOf(s, near, r) <==> RayOf(s, all, r) {
      if RayOf(s, near, r) {
        var i :| 0 <= i < |near| && RayAt(s, near[i], r);
        assert near[i] in all;
        var j :| 0 <= j < |all| && all[j] == near[i];
        assert RayAt(s, all[j], r);
      }
      if RayOf(s, all, r) {
        var j :| 0 <= j < |all| && RayAt(s, all[j], r);
        RayIsNear(if j < |Edges2(ri)| then ri else ra, s, all[j], r);
        assert all[j] in near;
        var i :| 0 <= i < |near| && near[i] == all[j];
        assert RayAt(s, near[i], r);
      }
    }
  }

  method SideLeaks(inner: View, area: View, s: P2, r: Vec, side: int, ghost near: seq<Edge2>) returns (leaks: bool)
    requires ValidView(inner) && ValidView(area) && Doubled(s) && RayOf(s, near, r)
    ensures leaks <==> Leaks(RingsIn(inner), RingsIn(area), s, r, side)
  {
    hide PertContain, ValidView, Doubled, Edges2, RayAt;
    ghost var i :| 0 <= i < |near| && RayAt(s, near[i], r);
    RayMoves(s, near[i], r);
    var x := SideProbe(s, r, side);
    var c := ViewPerturbed(inner, x);
    var d := ViewPerturbed(area, x);
    leaks := c == Inside && d == Outside;
  }

  lemma RayLeaks(ri: seq<Ring>, ra: seq<Ring>, s: P2, near: seq<Edge2>, r: Vec, side: int)
    requires RayOf(s, near, r) && (forall q :: RayOf(s, near, q) <==> RayOf(s, Edges2(ri) + Edges2(ra), q))
    requires (side == 1 || side == -1) && Leaks(ri, ra, s, r, side)
    ensures LeaksAt(ri, ra, s)
  {
    hide Leaks, RayAt, Edges2;
    var all := Edges2(ri) + Edges2(ra);
    assert RayOf(s, all, r);
    var i :| 0 <= i < |all| && RayAt(s, all[i], r);
    assert all[i] in all;
  }

  lemma RayIsOf(s: P2, es: seq<Edge2>, e: Edge2, r: Vec)
    requires e in es && RayAt(s, e, r)
    ensures RayOf(s, es, r)
  {
    var i :| 0 <= i < |es| && es[i] == e;
    assert RayAt(s, es[i], r);
  }

  lemma NothingLeaks(ri: seq<Ring>, ra: seq<Ring>, s: P2, rays: seq<Vec>)
    requires forall r :: RayOf(s, Edges2(ri) + Edges2(ra), r) ==> r in rays
    requires forall r :: r in rays ==> !Leaks(ri, ra, s, r, 1) && !Leaks(ri, ra, s, r, -1)
    ensures !LeaksAt(ri, ra, s)
  {
    hide Leaks, RayAt, Edges2, RayOf;
    if LeaksAt(ri, ra, s) {
      var all := Edges2(ri) + Edges2(ra);
      var e, r, side :| e in all && RayAt(s, e, r) && (side == 1 || side == -1) && Leaks(ri, ra, s, r, side);
      RayIsOf(s, all, e, r);
    }
  }

  /** An inner box that leaves the area's box has a vertex outside the area. */
  lemma BoxShows(ri: seq<Ring>, ra: seq<Ring>)
    requires |ri| > 0 && |ri[0]| > 0 && |ra| > 0 && |ra[0]| > 0 && HolesInBox(ra)
    requires !BoxInside(BoxOfPoints(ra[0]), BoxOfPoints(ri[0]))
    ensures !StartsIn(ri, ra)
  {
    var b, o := BoxOfPoints(ra[0]), BoxOfPoints(ri[0]);
    var l, r, d, u := BoxReached(ri[0]);
    RegionBoxed(ra);
    var k := if o.min.x < b.min.x then l else if o.max.x > b.max.x then r else if o.min.y < b.min.y then d else u;
    var e := RingEdges2(ri[0])[k];
    assert e in Edges2(ri) && e.a == Dbl(ri[0][k]);
    assert !InRealBox(b, Real(e.a));
    hide Region, BoxOfPoints, HolesInBox, InRealBox, Edges2;
    assert !In(RegionCore(ra), Real(e.a));
  }

  /** `region_within`, on either view of each region. For any rings, holes in the outline's box, it is true only when
      no real point is inside the inner region and outside the area; and in a valid area, whose edges may cross but
      not overlap, exactly when besides no inner vertex is outside and no edges of the two properly cross. If the
      inner region is valid too, that is containment and no crossing, and containment itself whenever no edge
      crosses an area edge in a point of another area edge. */
  method RegionWithinArea(inner: View, area: View) returns (within: bool)
    requires ValidView(inner) && ValidView(area)
    requires |RingsIn(inner)| > 0 && |RingsIn(inner)[0]| > 0 && |RingsIn(area)| > 0 && |RingsIn(area)[0]| > 0
    ensures HolesInBox(RingsIn(inner)) && within ==> InteriorFits(RingsIn(inner), RingsIn(area))
    ensures HolesInBox(RingsIn(inner)) && ValidRegion(RingsIn(area)) ==>
              (within <==> InteriorFits(RingsIn(inner), RingsIn(area)))
    ensures ValidRegion(RingsIn(inner)) && ValidRegion(RingsIn(area)) ==>
              (within <==> RegionInside(RingsIn(inner), RingsIn(area)) && NoneCross(RingsIn(inner), RingsIn(area)))
    ensures ValidRegion(RingsIn(inner)) && ValidRegion(RingsIn(area)) && CleanCross(RingsIn(inner), RingsIn(area)) ==>
              (within <==> RegionInside(RingsIn(inner), RingsIn(area)))
  {
    ghost var ri, ra := RingsIn(inner), RingsIn(area);
    within := RunChecks(inner, area);
    hide HolesInBox, InteriorFits, NoOverlap, NoneCross, CleanCross, RegionInside;
    if ValidRegion(ri) {
      FitsWhenValid(ri, ra);
      if CleanCross(ri, ra) && !NoneCross(ri, ra) {
        SomeCross(ri, ra);
      }
    }
  }

  /** The checks one after another. */
  method RunChecks(inner: View, area: View) returns (within: bool)
    requires ValidView(inner) && ValidView(area)
    requires |RingsIn(inner)| > 0 && |RingsIn(inner)[0]| > 0 && |RingsIn(area)| > 0 && |RingsIn(area)[0]| > 0
    ensures HolesInBox(RingsIn(inner)) && within ==> InteriorFits(RingsIn(inner), RingsIn(area))
    ensures ValidRegion(RingsIn(area)) && InteriorFits(RingsIn(inner), RingsIn(area)) ==> within
  {
    ghost var ri, ra := RingsIn(inner), RingsIn(area);
    assert RegionBox(inner) == BoxOfPoints(ri[0]) && RegionBox(area) == BoxOfPoints(ra[0]);
    hide Contain, Region, ValidView, Doubled, Edges2, BoxOfPoints, RegionBox, BoxInside, HolesInBox, NoOverlap,
      InteriorInside, NoneCross, LeaksAt, CrossesProperly2;
    if !BoxInside(RegionBox(area), RegionBox(inner)) {
      if ValidRegion(ra) { BoxShows(ri, ra); }
      return false;
    }
    var ok, events := InnerVertices(inner, area);
    if !ok {
      return false;
    }
    var crossing := AnyCrossing(inner, area);
    if crossing {
      return false;
    }
    var more;
    ok, more := AreaVertices(inner, area);
    events := events + more;
    if !ok {
      if ValidRegion(ra) {
        ghost var f :| f in Edges2(ra) && Contain(Real(f.a), Region(ri)) == Inside;
        VertexShows(ri, ra, f);
      }
      return false;
    }
    assert HolesInBox(ri) ==> forall s :: Event(ri, ra, s) ==> s in events;
    ghost var all := events;
    while events != {}
      invariant events <= all && forall s :: s in all - events ==> !LeaksAt(ri, ra, s)
      decreases events
    {
      var s :| s in events;
      var leaks := EventLeaks(inner, area, s);
      if leaks {
        SomeLeak(ri, ra, s);
        return false;
      }
      events := events - {s};
    }
    if HolesInBox(ri) { ChecksProve(ri, ra); }
    within := true;
  }

  /** For a valid inner region the three conditions are containment and no crossing. */
  lemma FitsWhenValid(ri: seq<Ring>, ra: seq<Ring>)
    requires ValidRegion(ri)
    ensures InteriorFits(ri, ra) <==> RegionInside(ri, ra) && NoneCross(ri, ra)
  {
    InteriorIsAll(ri, ra);
    hide ValidRegion, NoneCross, InteriorInside, RegionInside, StartsIn;
    if RegionInside(ri, ra) {
      VerticesFollow(ri, ra);
    }
  }

  lemma VerticesFollow(ri: seq<Ring>, ra: seq<Ring>)
    requires RegionInside(ri, ra)
    ensures StartsIn(ri, ra)
  {
    hide Region, Edges2, Contain;
    forall e | e in Edges2(ri) ensures Contain(Real(e.a), Region(ra)) != Outside {
      StartInRegion(ri, e);
    }
  }

  lemma SomeCross(ri: seq<Ring>, ra: seq<Ring>)
    requires CleanCross(ri, ra) && !NoneCross(ri, ra)
    ensures !RegionInside(ri, ra)
  {
    hide RegionInside, CrossesProperly2, Edges2, CleanCross;
    var e, f :| e in Edges2(ri) && f in Edges2(ra) && CrossesProperly2(e.a, e.b, f.a, f.b);
    CrossingShows(ri, ra, e, f);
  }

  lemma SomeLeak(ri: seq<Ring>, ra: seq<Ring>, s: P2)
    requires LeaksAt(ri, ra, s)
    ensures !InteriorInside(ri, ra)
  {
    hide InteriorInside, Leaks, RayAt, Edges2;
    var e, r, side :| e in Edges2(ri) + Edges2(ra) && RayAt(s, e, r) && (side == 1 || side == -1) &&
                      Leaks(ri, ra, s, r, side);
    LeakShows(ri, ra, s, e, r, side);
  }

  /** A sharp shape is its region. */
  lemma SharpIsRegion(s: Shape, ra: seq<Ring>)
    requires BoxedShape(s) && !SweptOrThin(s)
    ensures Sweep2(s) == 0 && (AllWithin(s, ra) <==> RegionInside(RingsOf(s), ra))
    ensures |RingsOf(s)| > 0 && |RingsOf(s)[0]| > 0 && ShapeBox(s) == BoxOfPoints(RingsOf(s)[0])
    ensures HolesInBox(RingsOf(s))
  {
    ThinIsCore(s, ra);
    if s.ConvexPoly? {
      NoInflation(BoxOfPoints(s.pts));
    }
    hide AllWithin, Contain, Region;
    assert forall y :: In(CoreOf(s), y) <==> InRegion(Region(RingsOf(s)), y);
  }

  /** A shape without radius crosses no edge of the region in a point of another edge. */
  ghost predicate CleanShape(s: Shape, rings: seq<Ring>) {
    if SweptOrThin(s) then CleanTrack(s, rings) else CleanCross(RingsOf(s), rings)
  }

  /** Against edges that meet only at vertices every shape is clean. */
  lemma AllShapesClean(s: Shape, rings: seq<Ring>)
    requires MeetAtVertices(Region(rings))
    ensures CleanShape(s, rings)
  {
    VerticesSuffice(rings);
    hide Region, MeetAtVertices, CleanCrossings, CleanCross;
    if s.Segment? {
      VerticesClean(Real(Dbl(s.a)), Real(Dbl(s.b)), Region(rings));
    }
  }

  /** `shape_within` for every shape. In a valid region the answer for a sharp pad or piece is what its region gives,
      and, if no two of its own edges overlap either, containment with the reservation for unclean crossings. */
  method ShapeWithinArea(s: Shape, v: View) returns (within: bool)
    requires BoxedShape(s) && ValidView(v) && |RingsIn(v)| > 0 && |RingsIn(v)[0]| > 0
    ensures SweptOrThin(s) && within ==> AllWithin(s, RingsIn(v))
    ensures !SweptOrThin(s) && within ==> InteriorFits(RingsOf(s), RingsIn(v))
    ensures !SweptOrThin(s) && ValidRegion(RingsIn(v)) ==> (within <==> InteriorFits(RingsOf(s), RingsIn(v)))
    ensures !SweptOrThin(s) && ValidRegion(RingsIn(v)) && ValidRegion(RingsOf(s)) ==>
              (within <==> AllWithin(s, RingsIn(v)) && NoneCross(RingsOf(s), RingsIn(v)))
    ensures ValidRegion(RingsIn(v)) && CleanShape(s, RingsIn(v)) && (SweptOrThin(s) || ValidRegion(RingsOf(s))) ==>
              (within <==> AllWithin(s, RingsIn(v)))
  {
    if SweptOrThin(s) {
      within := ShapeWithin(s, v);
      return;
    }
    ghost var ri, ra := RingsOf(s), RingsIn(v);
    SharpIsRegion(s, ra);
    assert RegionBox(v) == BoxOfPoints(ra[0]);
    hide AllWithin, RegionInside, ValidRegion, CleanCross, BoxedShape, BoxOfPoints, ShapeBox, RegionBox, BoxInside,
      StartsIn,
      HolesInBox;
    if !BoxInside(RegionBox(v), ShapeBox(s)) {
      if ValidRegion(ra) {
        RegionHoles(ra);
        BoxShows(ri, ra);
        if RegionInside(ri, ra) {
          VerticesFollow(ri, ra);
        }
      }
      return false;
    }
    within := RegionWithinArea(RingsView(RingsOf(s)), v);
  }

  lemma RegionHoles(rings: seq<Ring>)
    requires ValidRegion(rings)
    ensures |rings| > 0 && |rings[0]| > 0 && HolesInBox(rings)
  {
  }
}
