/** The two views of a region, plain rings and an edge index, and the segment test run on
    either: it answers exactly whether every real point of the segment is in the region. */
module RegionView {
  import opened Basics
  import opened Plane
  import opened EvenOdd
  import opened Touching
  import opened Nearest
  import opened Kernel
  import opened Shapes
  import opened PolyIndex
  import opened Perturbation
  import opened Within

  datatype View = RingsView(rings: seq<Ring>) | IndexView(ip: IndexedPolygon)

  function RingsIn(v: View): seq<Ring> {
    match v
    case RingsView(rings) => rings
    case IndexView(ip) => ip.rings
  }

  ghost predicate ValidView(v: View) {
    v.IndexView? ==> Indexed(v.ip)
  }

  /** A doubled vertex. */
  predicate Doubled(p: P2) {
    Dbl(Undbl(p)) == p
  }

  function EdgeBox2(a: P2, b: P2): BBox {
    BoxOf(Undbl(a), Undbl(b))
  }

  method ViewContain(v: View, p: P2) returns (c: Containment)
    requires ValidView(v) && Doubled(p)
    ensures c == Contain(Real(p), Region(RingsIn(v)))
  {
    match v
    case RingsView(rings) => c := PointInRings(p, rings);
    case IndexView(ip) => c := ContainmentOf(ip, Undbl(p));
  }

  lemma {:induction false} EdgesDoubled(rings: seq<Ring>, e: Edge2)
    requires e in Edges2(rings)
    ensures Doubled(e.a) && Doubled(e.b)
  {
    if e in RingEdges2(rings[0]) {
      var k :| 0 <= k < |rings[0]| && RingEdges2(rings[0])[k] == e;
      UndblDbl(rings[0][k]);
      UndblDbl(rings[0][Next(k, |rings[0]|)]);
    } else {
      EdgesDoubled(rings[1..], e);
    }
  }

  /** Every edge whose box meets q. */
  method EdgesNear(v: View, q: BBox) returns (near: seq<Edge2>)
    requires ValidView(v)
    ensures forall e :: e in near ==> e in Edges2(RingsIn(v))
    ensures forall e :: e in Edges2(RingsIn(v)) && Intersects(EdgeBox2(e.a, e.b), q) ==> e in near
  {
    match v
    case RingsView(rings) => near := ScanNear(Edges2(rings), q);
    case IndexView(ip) => near := LookupNear(ip, q);
  }

  method ScanNear(es: seq<Edge2>, q: BBox) returns (near: seq<Edge2>)
    ensures forall e :: e in near ==> e in es
    ensures forall e :: e in es && Intersects(EdgeBox2(e.a, e.b), q) ==> e in near
  {
    hide Intersects, EdgeBox2;
    near := [];
    for i := 0 to |es|
      invariant forall e :: e in near ==> e in es
      invariant forall k :: 0 <= k < i && Intersects(EdgeBox2(es[k].a, es[k].b), q) ==> es[k] in near
    {
      if Intersects(EdgeBox2(es[i].a, es[i].b), q) {
        near := near + [es[i]];
      }
    }
  }

  lemma BoxesAgree(e: PointEdge)
    ensures EdgeBox2(Dbl(e.a), Dbl(e.b)) == EdgeBox(e)
  {
    UndblDbl(e.a);
    UndblDbl(e.b);
  }

  method LookupNear(ip: IndexedPolygon, q: BBox) returns (near: seq<Edge2>)
    requires Indexed(ip)
    ensures forall e :: e in near ==> e in Edges2(ip.rings)
    ensures forall e :: e in Edges2(ip.rings) && Intersects(EdgeBox2(e.a, e.b), q) ==> e in near
  {
    var ids := QueryEntries(ip.edges, q);
    near := seq(|ids|, k requires 0 <= k < |ids| => DblEdge(ip.edges[ids[k]]));
    IndexedEdges(ip);
    hide Intersects, EdgeBox2, EdgeBox, Indexed, Dbl;
    var es := Edges2(ip.rings);
    forall e | e in near ensures e in es {
      var k :| 0 <= k < |near| && near[k] == e;
      assert e == es[ids[k]];
    }
    forall e | e in es && Intersects(EdgeBox2(e.a, e.b), q) ensures e in near {
      var i :| 0 <= i < |es| && es[i] == e;
      BoxesAgree(ip.edges[i]);
      var k :| 0 <= k < |ids| && ids[k] == i;
      assert near[k] == e;
    }
  }

  // ----- The perturbed point through the index

  /** A point strictly right of a rising edge's ends, within its heights, is right of it. */
  lemma RightOfRising(v: Pt, a: Pt, b: Pt)
    requires a.x < v.x && b.x < v.x && a.y < b.y && a.y <= v.y <= b.y
    ensures Orient(a, b, v) < 0.0
  {
    OrientSign(a, b, v);
    XAtEnds(a, b);
    var s := Ratio(a.y, v.y, b.y);
    XAtAffine(a, b, a.y, b.y, s);
    hide XAt;
    LerpBetween(a.x, b.x, s);
  }

  /** Off the edge means off it after an infinitesimal displacement along its line. */
  lemma OffEdgeStays(x: Perturbed, e: Edge2)
    requires !WithinBox(e.a, e.b, x.s)
    ensures !PertOn(x, e)
  {
    if PertOn(x, e) {
      OnReal(e.a, e.b, x.s);
      OrientReal(e.a, e.b, x.s);
      RealInjective(e.a, e.b);
      OnByDot(Real(e.a), Real(e.b), Real(x.s));
      LenReal(e.a, e.b);
      DotReal(e.a, e.b, x.s);
      hide Orient, On, Dot, Cross2;
    }
  }

  /** An edge whose box misses the ray from s is neither met nor crossed nearby. */
  lemma RayMissesNearby(x: Perturbed, e: Edge2)
    requires || Max(e.a.y, e.b.y) < x.s.y || x.s.y < Min(e.a.y, e.b.y) || Max(e.a.x, e.b.x) < x.s.x
    ensures !PertOn(x, e) && !PertCrosses(x, e)
  {
    OffEdgeStays(x, e);
    if Above(x, e.a) != Above(x, e.b) {
      OrientReal(e.a, e.b, x.s);
      OrientReal(e.b, e.a, x.s);
      if e.a.y < e.b.y {
        RightOfRising(Real(x.s), Real(e.a), Real(e.b));
      } else if e.b.y < e.a.y {
        RightOfRising(Real(x.s), Real(e.b), Real(e.a));
        assert Orient2(e.b, e.a, x.s) == -Orient2(e.a, e.b, x.s);
      }
    }
  }

  /** A vertex outside the box stays outside it when moved by less than one. */
  lemma NearbyOutside(ip: IndexedPolygon, x: Perturbed)
    requires Indexed(ip) && Doubled(x.s) && !Contains(ip.bbox, Undbl(x.s)) && Decidable(x, Edges2(ip.rings))
    ensures PertContain(x, Edges2(ip.rings)) == Outside
  {
    var es := Edges2(ip.rings);
    var bound := PerturbedIsLimit(x, es);
    EdgesAgree(ip.rings);
    IndexedEdges(ip);
    RegionClosed(ip.rings);
    var d := SmallMove(x, bound);
    hide *;
    StillOutside(ip.bbox, x.s, Displaced(x, d));
    OutsideBox(Region(ip.rings), ip.bbox, Displaced(x, d));
  }

  /** A displacement below the bound that moves the point by less than one. */
  lemma SmallMove(x: Perturbed, bound: real) returns (d: real)
    requires 0.0 < bound
    ensures 0.0 < d < bound
    ensures -1.0 < Displaced(x, d).x - x.s.x as real < 1.0 && -1.0 < Displaced(x, d).y - x.s.y as real < 1.0
  {
    var u, v := Settles(x.d1.x, x.d2.x), Settles(x.d1.y, x.d2.y);
    hide Coef, Settles;
    d := MinReal(bound, MinReal(u, v)) / 2.0;
    CoefNear(x.s.x, x.d1.x, x.d2.x, d);
    CoefNear(x.s.y, x.d1.y, x.d2.y, d);
  }

  lemma CoefNear(s: int, d1: int, d2: int, d: real)
    requires 0.0 < d < Settles(d1, d2)
    ensures -1.0 < Coef(s, d1, d2, d) - s as real < 1.0
  {
    TailBelowOne(d1, d2, d);
  }

  lemma StillOutside(b: BBox, s: P2, p: Pt)
    requires Doubled(s) && !Contains(b, Undbl(s))
    requires -1.0 < p.x - s.x as real < 1.0 && -1.0 < p.y - s.y as real < 1.0
    ensures !InRealBox(b, p)
  {
    var u := Undbl(s);
    assert s.x == 2 * u.x && s.y == 2 * u.y;
  }

  lemma PickedPerturbed(x: Perturbed, es: seq<Edge2>, ids: seq<nat>)
    requires Distinct(ids) && forall k :: 0 <= k < |ids| ==> ids[k] < |es|
    requires forall i: nat :: i < |es| && i !in ids ==> !PertOn(x, es[i]) && !PertCrosses(x, es[i])
    ensures PertContain(x, Picked(es, ids)) == PertContain(x, es)
  {
    hide PertOn, PertCrosses;
    PickedParity(es, ids, PertCrossing(x));
    var picked := Picked(es, ids);
    if PertOnAny(x, es) {
      var i: nat :| i < |es| && PertOn(x, es[i]);
      var k :| 0 <= k < |ids| && ids[k] == i;
      assert PertOn(x, picked[k]);
    }
    if PertOnAny(x, picked) {
      var k :| 0 <= k < |picked| && PertOn(x, picked[k]);
      assert PertOn(x, es[ids[k]]);
    }
  }

  /** `IndexedPolygon::contain_perturbed`. */
  method IndexedPerturbed(ip: IndexedPolygon, x: Perturbed) returns (c: Containment)
    requires Indexed(ip) && Doubled(x.s) && Decidable(x, Edges2(ip.rings))
    ensures c == PertContain(x, Edges2(ip.rings))
  {
    var s := Undbl(x.s);
    if !Contains(ip.bbox, s) {
      NearbyOutside(ip, x);
      return Outside;
    }
    var ray := BoxOf(s, Point(ip.bbox.max.x, s.y));
    var ids := QueryEntries(ip.edges, ray);
    IndexedEdges(ip);
    ghost var es := Edges2(ip.rings);
    forall i: nat | i < |es| && i !in ids ensures !PertOn(x, es[i]) && !PertCrosses(x, es[i]) {
      RayBoxMisses(ip, x, i);
    }
    PickedPerturbed(x, es, ids);
    var picks := seq(|ids|, k requires 0 <= k < |ids| => DblEdge(ip.edges[ids[k]]));
    assert picks == Picked(es, ids);
    c := PerturbedInEdges(x, picks);
  }

  lemma RayBoxMisses(ip: IndexedPolygon, x: Perturbed, i: nat)
    requires Indexed(ip) && Doubled(x.s) && Contains(ip.bbox, Undbl(x.s)) && i < |ip.edges|
    requires !Intersects(EdgeBox(ip.edges[i]), BoxOf(Undbl(x.s), Point(ip.bbox.max.x, Undbl(x.s).y)))
    ensures i < |Edges2(ip.rings)|
    ensures !PertOn(x, Edges2(ip.rings)[i]) && !PertCrosses(x, Edges2(ip.rings)[i])
  {
    IndexedEdges(ip);
    var e, s := ip.edges[i], Undbl(x.s);
    assert e in ip.edges;
    assert x.s.x == 2 * s.x && x.s.y == 2 * s.y;
    hide PertOn, PertCrosses;
    RayMissesNearby(x, DblEdge(e));
  }

  method ViewPerturbed(v: View, x: Perturbed) returns (c: Containment)
    requires ValidView(v) && Doubled(x.s) && Decidable(x, Edges2(RingsIn(v)))
    ensures c == PertContain(x, Edges2(RingsIn(v)))
  {
    match v
    case RingsView(rings) => c := PerturbedInEdges(x, Edges2(rings));
    case IndexView(ip) => c := IndexedPerturbed(ip, x);
  }

  // ----- The segment test

  /** Edges that touch the segment have boxes that meet its box. */
  lemma TouchingBoxes(a: P2, b: P2, e: Edge2, z: Pt)
    requires Doubled(a) && Doubled(b) && Doubled(e.a) && Doubled(e.b)
    requires On(Real(a), Real(b), z) && On(Real(e.a), Real(e.b), z)
    ensures Intersects(EdgeBox2(e.a, e.b), EdgeBox2(a, b))
  {
  }

  /** A probe beside a point of the segment, looking along it. */
  predicate GoodProbe(a: P2, b: P2, s: P2, dir: Vec) {
    && Doubled(s) && OnSegment2(a, b, s)
    && ((dir == VecOf(a, b) && s != b) || (dir == Negate(VecOf(a, b)) && s != a))
  }

  /** The products for every probe along a segment stay below 2^70. */
  lemma GoodProbeFits(a: P2, b: P2, s: P2, dir: Vec, e: Edge2)
    requires GoodProbe(a, b, s, dir)
    ensures PertFits(Beside(s, dir), e)
  {
    PerturbedFits(Beside(s, dir), e);
  }

  predicate OnInside(a: P2, b: P2, v: P2) {
    v != a && v != b && OnSegment2(a, b, v)
  }

  ghost predicate AllInside(a: P2, b: P2, rings: seq<Ring>) {
    forall x :: On(Real(a), Real(b), x) ==> Contain(x, Region(rings)) != Outside
  }

  lemma ProbeRefutes(a: P2, b: P2, rings: seq<Ring>, s: P2, dir: Vec)
    requires a != b && GoodProbe(a, b, s, dir) && PertContain(Beside(s, dir), Edges2(rings)) == Outside
    ensures !AllInside(a, b, rings)
  {
    if dir == VecOf(a, b) && s != b {
      var x := ProbeLeaves(a, b, rings, s);
    } else {
      var x := ProbeLeavesBack(a, b, rings, s);
    }
  }

  /** The segment properly crosses no edge. */
  ghost predicate NoneCrossed(a: P2, b: P2, rings: seq<Ring>) {
    forall e :: e in Edges2(rings) ==> !CrossesProperly2(a, b, e.a, e.b)
  }

  lemma CrossingRefutes(a: P2, b: P2, rings: seq<Ring>, e: Edge2)
    requires CleanCrossings(Real(a), Real(b), Region(rings)) && e in Edges2(rings) && CrossesProperly2(a, b, e.a, e.b)
    ensures !AllInside(a, b, rings)
  {
    var k :| 0 <= k < |Edges2(rings)| && Edges2(rings)[k] == e;
    EdgesAgree(rings);
    RegionClosed(rings);
    CrossesProperlyReal(a, b, e.a, e.b);
    var z := ProperCrossMeets(Real(a), Real(b), Real(e.a), Real(e.b));
    hide ProperCross, On, Lone, CrossesProperly2, Region, Edges2;
    assert Region(rings)[k] == RealEdge(e);
    var x, _ := CrossingLeaves(Real(a), Real(b), Region(rings), k, z);
  }

  /** The checks cover every edge that matters. */
  lemma ChecksSuffice(a: P2, b: P2, rings: seq<Ring>, near: seq<Edge2>)
    requires a != b && Doubled(a) && Doubled(b) && Contain(Real(a), Region(rings)) != Outside
    requires forall e :: e in Edges2(rings) && Intersects(EdgeBox2(e.a, e.b), EdgeBox2(a, b)) ==> e in near
    requires forall e :: e in near ==> !CrossesProperly2(a, b, e.a, e.b)
    requires Contain(Real(a), Region(rings)) == Boundary ==>
               PertContain(Beside(a, VecOf(a, b)), Edges2(rings)) != Outside
    requires forall e :: e in near && OnInside(a, b, e.a) ==>
                           PertContain(Beside(e.a, VecOf(a, b)), Edges2(rings)) != Outside
    ensures AllInside(a, b, rings) && NoneCrossed(a, b, rings)
  {
    var es := Edges2(rings);
    forall e | e in es ensures !CrossesProperly2(a, b, e.a, e.b) {
      EdgesDoubled(rings, e);
      CrossesProperlyReal(a, b, e.a, e.b);
      if CrossesProperly2(a, b, e.a, e.b) {
        var z := ProperCrossMeets(Real(a), Real(b), Real(e.a), Real(e.b));
        TouchingBoxes(a, b, e, z);
      }
    }
    forall e | e in es && OnInside(a, b, e.a) ensures e in near {
      EdgesDoubled(rings, e);
      OnReal(a, b, e.a);
      OnEnds(Real(e.a), Real(e.b));
      TouchingBoxes(a, b, e, Real(e.a));
    }
    assert ProbesPass(a, b, rings);
    forall x | On(Real(a), Real(b), x) ensures Contain(x, Region(rings)) != Outside {
      SegmentInside(a, b, rings, x);
    }
  }

  /** `segment_within`, on either view and for any rings: true exactly when every real point of the segment is in
      the region and no edge is properly crossed. That is containment itself whenever the segment crosses no edge
      in a point of another edge. */
  method SegmentWithin(a: P2, b: P2, v: View) returns (within: bool)
    requires ValidView(v) && Doubled(a) && Doubled(b)
    ensures within <==> AllInside(a, b, RingsIn(v)) && NoneCrossed(a, b, RingsIn(v))
    ensures CleanCrossings(Real(a), Real(b), Region(RingsIn(v))) ==> (within <==> AllInside(a, b, RingsIn(v)))
  {
    ghost var rings := RingsIn(v);
    OnEnds(Real(a), Real(b));
    hide CrossesProperly2, On, Contain, PertContain, CleanCrossings, Intersects, ValidView, Region, Edges2;
    var ca := ViewContain(v, a);
    var cb := ViewContain(v, b);
    if ca == Outside || cb == Outside {
      return false;
    }
    if a == b {
      forall x | On(Real(a), Real(b), x) ensures x == Real(a) { PointSegment(Real(a), x); }
      PointCrossesNothing(a, rings);
      return true;
    }
    DirectionMoves(a, b);
    var near := EdgesNear(v, EdgeBox2(a, b));
    if exists i :: 0 <= i < |near| && CrossesProperly2(a, b, near[i].a, near[i].b) {
      ghost var i :| 0 <= i < |near| && CrossesProperly2(a, b, near[i].a, near[i].b);
      assert near[i] in near;
      if CleanCrossings(Real(a), Real(b), Region(rings)) { CrossingRefutes(a, b, rings, near[i]); }
      return false;
    }
    var d := VecOf(a, b);
    var probes := CollectProbes(a, b, ca, cb, near, rings);
    hide OnInside, GoodProbe;
    for i := 0 to |probes|
      invariant forall k :: 0 <= k < i ==> PertContain(Beside(probes[k].0, probes[k].1), Edges2(rings)) != Outside
    {
      var (s, dir) := probes[i];
      ProbeMoves(a, b, s, dir);
      var c := ViewPerturbed(v, Beside(s, dir));
      if c == Outside {
        ProbeRefutes(a, b, rings, s, dir);
        return false;
      }
    }
    ProbesCover(a, b, ca, near, probes, rings);
    ChecksSuffice(a, b, rings, near);
    return true;
  }

  lemma PointCrossesNothing(a: P2, rings: seq<Ring>)
    ensures NoneCrossed(a, a, rings)
  {
  }

  lemma ProbeMoves(a: P2, b: P2, s: P2, dir: Vec)
    requires a != b && GoodProbe(a, b, s, dir)
    ensures Doubled(s) && dir != Vec(0, 0)
  {
    DirectionMoves(a, b);
  }

  lemma ProbesCover(a: P2, b: P2, ca: Containment, near: seq<Edge2>, probes: seq<(P2, Vec)>, rings: seq<Ring>)
    requires ca == Boundary ==> (a, VecOf(a, b)) in probes
    requires forall e :: e in near && OnInside(a, b, e.a) ==> (e.a, VecOf(a, b)) in probes
    requires forall k :: 0 <= k < |probes| ==> PertContain(Beside(probes[k].0, probes[k].1), Edges2(rings)) != Outside
    ensures ca == Boundary ==> PertContain(Beside(a, VecOf(a, b)), Edges2(rings)) != Outside
    ensures forall e :: e in near && OnInside(a, b, e.a) ==>
                          PertContain(Beside(e.a, VecOf(a, b)), Edges2(rings)) != Outside
  {
  }

  /** The ends on the boundary and the region's vertices inside the segment, both ways. */
  method CollectProbes(a: P2, b: P2, ca: Containment, cb: Containment, near: seq<Edge2>, ghost rings: seq<Ring>)
    returns (probes: seq<(P2, Vec)>)
    requires a != b && Doubled(a) && Doubled(b)
    requires forall e :: e in near ==> e in Edges2(rings)
    ensures forall k :: 0 <= k < |probes| ==> GoodProbe(a, b, probes[k].0, probes[k].1)
    ensures ca == Boundary ==> (a, VecOf(a, b)) in probes
    ensures forall e :: e in near && OnInside(a, b, e.a) ==> (e.a, VecOf(a, b)) in probes
  {
    var d := VecOf(a, b);
    var back := Negate(d);
    EndProbes(a, b);
    hide GoodProbe, Doubled, Orient2, Edges2;
    probes := [];
    if ca == Boundary {
      probes := probes + [(a, d)];
    }
    if cb == Boundary {
      probes := probes + [(b, back)];
    }
    for i := 0 to |near|
      invariant forall k :: 0 <= k < |probes| ==> GoodProbe(a, b, probes[k].0, probes[k].1)
      invariant ca == Boundary ==> (a, d) in probes
      invariant forall k :: 0 <= k < i && OnInside(a, b, near[k].a) ==> (near[k].a, d) in probes
    {
      var s := near[i].a;
      if s != a && s != b && Orient2(a, b, s) == 0 && WithinBox(a, b, s) {
        EdgesDoubled(rings, near[i]);
        InnerProbes(a, b, s);
        probes := probes + [(s, d), (s, back)];
      }
    }
  }

  lemma EndProbes(a: P2, b: P2)
    requires a != b && Doubled(a) && Doubled(b)
    ensures GoodProbe(a, b, a, VecOf(a, b)) && GoodProbe(a, b, b, Negate(VecOf(a, b)))
  {
  }

  lemma InnerProbes(a: P2, b: P2, s: P2)
    requires OnInside(a, b, s) && Doubled(s)
    ensures GoodProbe(a, b, s, VecOf(a, b)) && GoodProbe(a, b, s, Negate(VecOf(a, b)))
  {
  }
}
