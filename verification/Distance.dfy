/** The distance between two cores (a point, a segment, a region with holes) compared with a
    threshold, and the proof that the kernel's comparison is that of the true distance between
    the two closed sets of real points. */
module Distance {
  import opened Plane
  import opened EvenOdd
  import opened Nearest
  import opened Regions
  import opened WideMul
  import opened Kernel

  datatype Core = PointCore(p: P2) | SegCore(a: P2, b: P2) | RegionCore(rings: seq<Ring>)

  /** The real points of a core. */
  ghost predicate In(c: Core, x: Pt) {
    match c
    case PointCore(p) => x == Real(p)
    case SegCore(a, b) => On(Real(a), Real(b), x)
    case RegionCore(rings) => InRegion(Region(rings), x)
  }

  ghost predicate Closer(a: Core, b: Core, t2: real) {
    exists x, y :: In(a, x) && In(b, y) && Dist2(x, y) < t2
  }

  ghost predicate Reaches(a: Core, b: Core, t2: real) {
    exists x, y :: In(a, x) && In(b, y) && Dist2(x, y) <= t2
  }

  /** The distance between the sets against t: Less when two points are closer than t, Equal
      when the least distance is t, Greater when all are farther. */
  ghost function DistanceCmp(a: Core, b: Core, t: int): Ordering {
    var t2 := (t * t) as real;
    if Closer(a, b, t2) then Less else if Reaches(a, b, t2) then Equal else Greater
  }

  lemma DistanceSymmetric(a: Core, b: Core, t: int)
    ensures DistanceCmp(a, b, t) == DistanceCmp(b, a, t)
  {
    var t2 := (t * t) as real;
    CloserSwap(a, b, t2);
    CloserSwap(b, a, t2);
  }

  lemma CloserSwap(a: Core, b: Core, t2: real)
    ensures Closer(a, b, t2) ==> Closer(b, a, t2)
    ensures Reaches(a, b, t2) ==> Reaches(b, a, t2)
  {
    forall x, y ensures Dist2(x, y) == Dist2(y, x) { Dist2Nonneg(x, y); }
  }

  /** A threshold met is met at every smaller threshold. */
  lemma DistanceMonotone(a: Core, b: Core, s: int, t: int)
    requires 0 <= s <= t
    ensures DistanceCmp(a, b, s) == Less ==> DistanceCmp(a, b, t) == Less
    ensures DistanceCmp(a, b, t) == Greater ==> DistanceCmp(a, b, s) == Greater
    ensures s < t && DistanceCmp(a, b, s) == Equal ==> DistanceCmp(a, b, t) == Less
  {
    SquareMonotone(s, t);
    NearMonotone(a, b, (s * s) as real, (t * t) as real);
  }

  lemma SquareMonotone(s: int, t: int)
    requires 0 <= s <= t
    ensures s * s <= t * t
    ensures s < t ==> s * s < t * t
  {
    if s < t {
      assert s * s <= s * t;
      assert s * t < t * t;
    }
  }

  lemma NearMonotone(a: Core, b: Core, s2: real, t2: real)
    requires s2 <= t2
    ensures Closer(a, b, s2) ==> Closer(a, b, t2)
    ensures Reaches(a, b, s2) ==> Reaches(a, b, t2)
    ensures s2 < t2 && Reaches(a, b, s2) ==> Closer(a, b, t2)
    ensures Closer(a, b, s2) ==> Reaches(a, b, s2)
  {
    hide In, Dist2;
  }

  /** A nearest pair decides. */
  lemma NearestPair(a: Core, b: Core, x0: Pt, y0: Pt, t: int)
    requires In(a, x0) && In(b, y0)
    requires forall x, y :: In(a, x) && In(b, y) ==> Dist2(x0, y0) <= Dist2(x, y)
    ensures DistanceCmp(a, b, t) == CmpReal(Dist2(x0, y0), (t * t) as real)
  {
  }

  lemma CommonPoint(a: Core, b: Core, z: Pt, t: int)
    requires In(a, z) && In(b, z) && 0 <= t
    ensures DistanceCmp(a, b, t) == CmpInt(0, t)
  {
    Dist2Nonneg(z, z);
    forall x, y ensures Dist2(z, z) <= Dist2(x, y) { Dist2Nonneg(x, y); }
    hide In;
    NearestPair(a, b, z, z, t);
    assert t > 0 ==> t * t > 0;
  }

  // ----- Points and segments

  lemma PointPointExact(p: P2, q: P2, t: int)
    requires 0 <= t
    ensures CmpDist2(DistSquared(p, q), t) == DistanceCmp(PointCore(p), PointCore(q), t)
  {
    KernelFits(p, q, q, t);
    DistReal(p, q);
    NearestPair(PointCore(p), PointCore(q), Real(p), Real(q), t);
  }

  lemma PointSegDistance(p: P2, a: P2, b: P2, t: int)
    requires 0 <= t
    ensures PointSegCmp(p, a, b, t) == DistanceCmp(PointCore(p), SegCore(a, b), t)
  {
    PointSegExact(p, a, b, t);
    var f := Foot(Real(a), Real(b), Real(p));
    OnEnds(Real(a), Real(b));
    FootNearest(Real(a), Real(b), Real(p), Real(a));
    hide Foot, Dist2;
    forall x, y | In(PointCore(p), x) && In(SegCore(a, b), y) ensures Dist2(Real(p), f) <= Dist2(x, y) {
      FootNearest(Real(a), Real(b), Real(p), y);
    }
    NearestPair(PointCore(p), SegCore(a, b), Real(p), f, t);
  }

  /** The least of several comparisons against one threshold. */
  function Least(os: seq<Ordering>): Ordering {
    if Less in os then Less else if Equal in os then Equal else Greater
  }

  /** `min_cmp`: stops at the first Less. */
  method MinCmp(os: seq<Ordering>) returns (best: Ordering)
    ensures best == Least(os)
  {
    best := Greater;
    for i := 0 to |os|
      invariant best == Least(os[..i]) != Less
    {
      var o := os[i];
      assert os[..i + 1] == os[..i] + [o];
      if o == Less {
        return Less;
      }
      best := if best == Equal || o == Equal then Equal else Greater;
    }
    assert os[..|os|] == os;
  }

  /** `seg_seg_cmp`: zero when they intersect, else the nearest of four ends. */
  function SegSegCmp(a: P2, b: P2, c: P2, d: P2, t: int): Ordering
    requires 0 <= t
  {
    if SegIntersect(a, b, c, d) then CmpInt(0, t)
    else Least([PointSegCmp(a, c, d, t), PointSegCmp(b, c, d, t), PointSegCmp(c, a, b, t), PointSegCmp(d, a, b, t)])
  }

  ghost predicate SomeEnd(a: P2, b: P2, c: P2, d: P2, t2: real, strict: bool) {
    || Near(PointCore(a), SegCore(c, d), t2, strict)
    || Near(PointCore(b), SegCore(c, d), t2, strict)
    || Near(PointCore(c), SegCore(a, b), t2, strict)
    || Near(PointCore(d), SegCore(a, b), t2, strict)
  }

  ghost predicate Near(a: Core, b: Core, t2: real, strict: bool) {
    if strict then Closer(a, b, t2) else Reaches(a, b, t2)
  }

  predicate Meets(d: real, t2: real, strict: bool) {
    d < t2 || (!strict && d == t2)
  }

  lemma NearWitness(a: Core, b: Core, t2: real, strict: bool, x: Pt, y: Pt)
    requires In(a, x) && In(b, y) && Meets(Dist2(x, y), t2, strict)
    ensures Near(a, b, t2, strict) && Near(b, a, t2, strict)
  {
    Dist2Nonneg(x, y);
  }

  lemma NearPair(a: Core, b: Core, t2: real, strict: bool) returns (x: Pt, y: Pt)
    requires Near(a, b, t2, strict)
    ensures In(a, x) && In(b, y) && Meets(Dist2(x, y), t2, strict)
  {
    if strict {
      x, y :| In(a, x) && In(b, y) && Dist2(x, y) < t2;
    } else {
      x, y :| In(a, x) && In(b, y) && Dist2(x, y) <= t2;
    }
  }

  /** For segments that share no point, the four end tests suffice. */
  lemma EndsSuffice(a: P2, b: P2, c: P2, d: P2, t2: real, strict: bool)
    requires !Meet(Real(a), Real(b), Real(c), Real(d))
    ensures Near(SegCore(a, b), SegCore(c, d), t2, strict) <==> SomeEnd(a, b, c, d, t2, strict)
  {
    var ab, cd := SegCore(a, b), SegCore(c, d);
    OnEnds(Real(a), Real(b));
    OnEnds(Real(c), Real(d));
    if Near(ab, cd, t2, strict) {
      var x, y := NearPair(ab, cd, t2, strict);
      var u, v := EndReached(Real(a), Real(b), Real(c), Real(d), x, y);
      hide Dist2, On;
      if u == Real(a) {
        NearWitness(PointCore(a), cd, t2, strict, u, v);
      } else if u == Real(b) {
        NearWitness(PointCore(b), cd, t2, strict, u, v);
      } else if v == Real(c) {
        Dist2Nonneg(u, v);
        NearWitness(PointCore(c), ab, t2, strict, v, u);
      } else {
        Dist2Nonneg(u, v);
        NearWitness(PointCore(d), ab, t2, strict, v, u);
      }
    }
    EndToSegment(a, ab, cd, t2, strict);
    EndToSegment(b, ab, cd, t2, strict);
    EndToSegment(c, cd, ab, t2, strict);
    EndToSegment(d, cd, ab, t2, strict);
  }

  lemma EndToSegment(e: P2, s: Core, o: Core, t2: real, strict: bool)
    requires In(s, Real(e))
    ensures Near(PointCore(e), o, t2, strict) ==> Near(s, o, t2, strict) && Near(o, s, t2, strict)
  {
    if Near(PointCore(e), o, t2, strict) {
      var x, y := NearPair(PointCore(e), o, t2, strict);
      NearWitness(s, o, t2, strict, x, y);
    }
  }

  lemma SegSegExact(a: P2, b: P2, c: P2, d: P2, t: int)
    requires 0 <= t
    ensures SegSegCmp(a, b, c, d, t) == DistanceCmp(SegCore(a, b), SegCore(c, d), t)
  {
    var ab, cd := SegCore(a, b), SegCore(c, d);
    SegIntersectExact(a, b, c, d);
    if SegIntersect(a, b, c, d) {
      var z :| On(Real(a), Real(b), z) && On(Real(c), Real(d), z);
      CommonPoint(ab, cd, z, t);
    } else {
      PointSegDistance(a, c, d, t);
      PointSegDistance(b, c, d, t);
      PointSegDistance(c, a, b, t);
      PointSegDistance(d, a, b, t);
      var t2 := (t * t) as real;
      EndsSuffice(a, b, c, d, t2, true);
      EndsSuffice(a, b, c, d, t2, false);
      hide SegIntersect, PointSegCmp, Closer, Reaches;
      FourLeast(DistanceCmp(PointCore(a), cd, t), DistanceCmp(PointCore(b), cd, t),
                DistanceCmp(PointCore(c), ab, t), DistanceCmp(PointCore(d), ab, t));
    }
  }

  lemma FourLeast(o1: Ordering, o2: Ordering, o3: Ordering, o4: Ordering)
    ensures var o := Least([o1, o2, o3, o4]);
            && (o == Less <==> o1 == Less || o2 == Less || o3 == Less || o4 == Less)
            && (o == Greater <==> o1 == o2 == o3 == o4 == Greater)
  {
    var os := [o1, o2, o3, o4];
    assert os[0] in os && os[1] in os && os[2] in os && os[3] in os;
  }

  // ----- Regions

  /** The edges of a region belong to it. */
  lemma EdgeInRegion(rings: seq<Ring>, i: nat, y: Pt)
    requires i < |Edges2(rings)| && In(SegCore(Edges2(rings)[i].a, Edges2(rings)[i].b), y)
    ensures In(RegionCore(rings), y)
  {
    EdgesAgree(rings);
    assert OnEdge(Region(rings)[i], y);
  }

  /** From outside, a region is reached first at an edge, no farther than any of its points. */
  lemma ReachedAtEdge(rings: seq<Ring>, x: Pt, y: Pt) returns (i: nat, z: Pt)
    requires Contain(x, Region(rings)) == Outside && In(RegionCore(rings), y)
    ensures i < |Edges2(rings)| && In(SegCore(Edges2(rings)[i].a, Edges2(rings)[i].b), z)
    ensures Dist2(x, z) <= Dist2(x, y)
  {
    var es := Region(rings);
    RegionClosed(rings);
    EdgesAgree(rings);
    if forall k :: 0 <= k < |es| ==> !Meet(x, y, es[k].a, es[k].b) {
      Transport(x, y, es);
    }
    var k :| 0 <= k < |es| && Meet(x, y, es[k].a, es[k].b);
    var w :| On(x, y, w) && On(es[k].a, es[k].b, w);
    i, z := k, w;
    OnIsNearer(x, y, z);
  }

  function EdgeCore(e: Edge2): Core {
    SegCore(e.a, e.b)
  }

  /** The comparisons of a core with every edge of a region. */
  ghost function EdgeCmps(c: Core, es: seq<Edge2>, t: int): (os: seq<Ordering>)
    ensures |os| == |es|
  {
    seq(|es|, i requires 0 <= i < |es| => DistanceCmp(c, EdgeCore(es[i]), t))
  }

  ghost predicate OutsideOf(c: Core, rings: seq<Ring>) {
    forall x :: In(c, x) ==> Contain(x, Region(rings)) == Outside
  }

  lemma NearSomeEdge(c: Core, rings: seq<Ring>, t2: real, strict: bool)
    requires OutsideOf(c, rings)
    ensures Near(c, RegionCore(rings), t2, strict) <==>
            exists i :: 0 <= i < |Edges2(rings)| && Near(c, EdgeCore(Edges2(rings)[i]), t2, strict)
  {
    var es := Edges2(rings);
    if Near(c, RegionCore(rings), t2, strict) {
      var x, y := NearPair(c, RegionCore(rings), t2, strict);
      var i, z := ReachedAtEdge(rings, x, y);
      NearWitness(c, EdgeCore(es[i]), t2, strict, x, z);
    }
    forall i | 0 <= i < |es| && Near(c, EdgeCore(es[i]), t2, strict)
      ensures Near(c, RegionCore(rings), t2, strict)
    {
      var x, y := NearPair(c, EdgeCore(es[i]), t2, strict);
      EdgeInRegion(rings, i, y);
      NearWitness(c, RegionCore(rings), t2, strict, x, y);
    }
  }

  /** Outside a region, its distance is the least over its edges. */
  lemma LeastOverEdges(c: Core, rings: seq<Ring>, t: int)
    requires OutsideOf(c, rings)
    ensures DistanceCmp(c, RegionCore(rings), t) == Least(EdgeCmps(c, Edges2(rings), t))
  {
    var t2 := (t * t) as real;
    NearSomeEdge(c, rings, t2, true);
    NearSomeEdge(c, rings, t2, false);
    LeastOfEdges(c, Edges2(rings), t);
  }

  lemma LeastOfEdges(c: Core, es: seq<Edge2>, t: int)
    ensures var t2 := (t * t) as real;
            var o := Least(EdgeCmps(c, es, t));
            && (o == Less <==> exists i :: 0 <= i < |es| && Near(c, EdgeCore(es[i]), t2, true))
            && (o == Greater <==> !exists i :: 0 <= i < |es| && Near(c, EdgeCore(es[i]), t2, false))
  {
    var t2 := (t * t) as real;
    var os := EdgeCmps(c, es, t);
    forall i | 0 <= i < |es|
      ensures os[i] == DistanceCmp(c, EdgeCore(es[i]), t) && os[i] in os
      ensures Near(c, EdgeCore(es[i]), t2, true) ==> Near(c, EdgeCore(es[i]), t2, false)
    {
      NearMonotone(c, EdgeCore(es[i]), t2, t2);
    }
    hide Closer, Reaches, EdgeCmps;
    if Less in os {
      var i :| 0 <= i < |os| && os[i] == Less;
    }
    if Equal in os {
      var i :| 0 <= i < |os| && os[i] == Equal;
    }
  }

  /** A segment with both ends outside that meets no edge is outside. */
  lemma SegmentOutside(a: P2, b: P2, rings: seq<Ring>)
    requires Contain(Real(a), Region(rings)) == Outside
    requires forall e :: e in Edges2(rings) ==> !SegIntersect(a, b, e.a, e.b)
    ensures OutsideOf(SegCore(a, b), rings)
  {
    var es := Region(rings);
    RegionClosed(rings);
    EdgesAgree(rings);
    OnEnds(Real(a), Real(b));
    forall x | In(SegCore(a, b), x) ensures Contain(x, es) == Outside {
      forall k | 0 <= k < |es| ensures !Meet(Real(a), x, es[k].a, es[k].b) {
        var e := Edges2(rings)[k];
        SegIntersectExact(a, b, e.a, e.b);
        forall w | On(Real(a), x, w) && On(es[k].a, es[k].b, w) ensures false {
          OnTrans(Real(a), Real(b), Real(a), x, w);
        }
      }
      Transport(Real(a), x, es);
    }
  }

  lemma PointOutside(p: P2, rings: seq<Ring>)
    requires Contain(Real(p), Region(rings)) == Outside
    ensures OutsideOf(PointCore(p), rings)
  {
  }

  method PointRegionCmp(p: P2, rings: seq<Ring>, t: int) returns (o: Ordering)
    requires 0 <= t
    ensures o == DistanceCmp(PointCore(p), RegionCore(rings), t)
  {
    var c := PointInRings(p, rings);
    if c != Outside {
      CommonPoint(PointCore(p), RegionCore(rings), Real(p), t);
      return CmpInt(0, t);
    }
    PointOutside(p, rings);
    LeastOverEdges(PointCore(p), rings, t);
    var es := Edges2(rings);
    var os := seq(|es|, i requires 0 <= i < |es| => PointSegCmp(p, es[i].a, es[i].b, t));
    forall i | 0 <= i < |es| ensures os[i] == EdgeCmps(PointCore(p), es, t)[i] {
      PointSegDistance(p, es[i].a, es[i].b, t);
    }
    assert os == EdgeCmps(PointCore(p), es, t);
    o := MinCmp(os);
  }

  /** The comparisons of one segment with every edge. */
  function SegCmps(a: P2, b: P2, es: seq<Edge2>, t: int): (os: seq<Ordering>)
    requires 0 <= t
    ensures |os| == |es|
  {
    seq(|es|, i requires 0 <= i < |es| => SegSegCmp(a, b, es[i].a, es[i].b, t))
  }

  lemma SegCmpsExact(a: P2, b: P2, es: seq<Edge2>, t: int)
    requires 0 <= t
    ensures SegCmps(a, b, es, t) == EdgeCmps(SegCore(a, b), es, t)
  {
    forall i | 0 <= i < |es| ensures SegCmps(a, b, es, t)[i] == EdgeCmps(SegCore(a, b), es, t)[i] {
      SegSegExact(a, b, es[i].a, es[i].b, t);
    }
  }

  predicate MeetsAny(a: P2, b: P2, es: seq<Edge2>) {
    exists i :: 0 <= i < |es| && SegIntersect(a, b, es[i].a, es[i].b)
  }

  /** A segment crossing an edge, or with an end in the region, has a point in the region. */
  lemma SegmentTouches(a: P2, b: P2, rings: seq<Ring>, t: int)
    requires 0 <= t
    requires || Contain(Real(a), Region(rings)) != Outside
             || Contain(Real(b), Region(rings)) != Outside
             || MeetsAny(a, b, Edges2(rings))
    ensures DistanceCmp(SegCore(a, b), RegionCore(rings), t) == CmpInt(0, t)
  {
    OnEnds(Real(a), Real(b));
    if Contain(Real(a), Region(rings)) != Outside {
      CommonPoint(SegCore(a, b), RegionCore(rings), Real(a), t);
    } else if Contain(Real(b), Region(rings)) != Outside {
      CommonPoint(SegCore(a, b), RegionCore(rings), Real(b), t);
    } else {
      var es := Edges2(rings);
      var i :| 0 <= i < |es| && SegIntersect(a, b, es[i].a, es[i].b);
      SegIntersectExact(a, b, es[i].a, es[i].b);
      var z :| On(Real(a), Real(b), z) && On(Real(es[i].a), Real(es[i].b), z);
      EdgeInRegion(rings, i, z);
      CommonPoint(SegCore(a, b), RegionCore(rings), z, t);
    }
  }

  method SegRegionCmp(a: P2, b: P2, rings: seq<Ring>, t: int) returns (o: Ordering)
    requires 0 <= t
    ensures o == DistanceCmp(SegCore(a, b), RegionCore(rings), t)
  {
    var es := Edges2(rings);
    var ca := PointInRings(a, rings);
    var cb := PointInRings(b, rings);
    hide SegIntersect;
    if ca != Outside || cb != Outside || MeetsAny(a, b, es) {
      SegmentTouches(a, b, rings, t);
      return CmpInt(0, t);
    }
    SegmentOutside(a, b, rings);
    LeastOverEdges(SegCore(a, b), rings, t);
    SegCmpsExact(a, b, es, t);
    o := MinCmp(SegCmps(a, b, es, t));
  }

  // ----- Two regions

  ghost predicate EdgesCross(ra: seq<Ring>, rb: seq<Ring>) {
    exists e, f :: e in Edges2(ra) && f in Edges2(rb) && SegIntersect(e.a, e.b, f.a, f.b)
  }

  lemma RegionsApart(ra: seq<Ring>, rb: seq<Ring>)
    requires !EdgesCross(ra, rb)
    ensures EdgesApart(Region(ra), Region(rb))
  {
    EdgesAgree(ra);
    EdgesAgree(rb);
    forall e, f | e in Region(ra) && f in Region(rb) ensures !Meet(e.a, e.b, f.a, f.b) {
      var i :| 0 <= i < |Region(ra)| && Region(ra)[i] == e;
      var j :| 0 <= j < |Region(rb)| && Region(rb)[j] == f;
      var e2, f2 := Edges2(ra)[i], Edges2(rb)[j];
      assert e2 in Edges2(ra) && f2 in Edges2(rb);
      SegIntersectExact(e2.a, e2.b, f2.a, f2.b);
    }
  }

  /** Each region starts with a ring that has a vertex; the two polygons have proper holes. */
  ghost predicate GoodPair(ra: seq<Ring>, rb: seq<Ring>) {
    && WellHoled(RealRings(ra)) && WellHoled(RealRings(rb))
    && |ra[0]| > 0 && |rb[0]| > 0
  }

  /** With no edges crossing and neither first vertex inside the other region, both regions are
      disjoint. */
  lemma RegionsDisjoint(ra: seq<Ring>, rb: seq<Ring>)
    requires GoodPair(ra, rb) && !EdgesCross(ra, rb)
    requires Contain(Real(Dbl(ra[0][0])), Region(rb)) == Outside
    requires Contain(Real(Dbl(rb[0][0])), Region(ra)) == Outside
    ensures OutsideOf(RegionCore(ra), rb) && OutsideOf(RegionCore(rb), ra)
  {
    var A, B := RealRings(ra), RealRings(rb);
    RegionsApart(ra, rb);
    assert A[0][0] == Real(Dbl(ra[0][0])) && B[0][0] == Real(Dbl(rb[0][0]));
    forall x ensures !(InRegion(Region(ra), x) && InRegion(Region(rb), x)) {
      SeparatedDisjoint(A, B, x);
    }
  }

  /** An edge of a region lies where the region does. */
  lemma EdgeOutside(ra: seq<Ring>, rb: seq<Ring>, i: nat)
    requires OutsideOf(RegionCore(ra), rb) && i < |Edges2(ra)|
    ensures OutsideOf(EdgeCore(Edges2(ra)[i]), rb)
  {
    forall x | In(EdgeCore(Edges2(ra)[i]), x) ensures Contain(x, Region(rb)) == Outside {
      EdgeInRegion(ra, i, x);
    }
  }

  /** The nested minimum over the edges of the first region, then of the second. */
  lemma LeastOverPairs(ra: seq<Ring>, rb: seq<Ring>, t: int, rows: seq<Ordering>)
    requires 0 <= t && OutsideOf(RegionCore(ra), rb) && OutsideOf(RegionCore(rb), ra)
    requires |rows| == |Edges2(ra)|
    requires forall i :: 0 <= i < |rows| ==>
                           rows[i] == Least(SegCmps(Edges2(ra)[i].a, Edges2(ra)[i].b, Edges2(rb), t))
    ensures DistanceCmp(RegionCore(ra), RegionCore(rb), t) == Least(rows)
  {
    var ea, B := Edges2(ra), RegionCore(rb);
    DistanceSymmetric(RegionCore(ra), B, t);
    LeastOverEdges(B, ra, t);
    hide DistanceCmp, In, SegCmps;
    forall i | 0 <= i < |rows| ensures rows[i] == EdgeCmps(B, ea, t)[i] {
      EdgeOutside(ra, rb, i);
      LeastOverEdges(EdgeCore(ea[i]), rb, t);
      SegCmpsExact(ea[i].a, ea[i].b, Edges2(rb), t);
      DistanceSymmetric(EdgeCore(ea[i]), B, t);
    }
    assert rows == EdgeCmps(B, ea, t);
  }

  lemma RegionsShare(ra: seq<Ring>, rb: seq<Ring>, t: int)
    requires 0 <= t && |ra| > 0 && |rb| > 0 && |ra[0]| > 0 && |rb[0]| > 0
    requires || EdgesCross(ra, rb)
             || Contain(Real(Dbl(ra[0][0])), Region(rb)) != Outside
             || Contain(Real(Dbl(rb[0][0])), Region(ra)) != Outside
    ensures DistanceCmp(RegionCore(ra), RegionCore(rb), t) == CmpInt(0, t)
  {
    if EdgesCross(ra, rb) {
      var e, f :| e in Edges2(ra) && f in Edges2(rb) && SegIntersect(e.a, e.b, f.a, f.b);
      var i :| 0 <= i < |Edges2(ra)| && Edges2(ra)[i] == e;
      var j :| 0 <= j < |Edges2(rb)| && Edges2(rb)[j] == f;
      SegIntersectExact(e.a, e.b, f.a, f.b);
      var z :| On(Real(e.a), Real(e.b), z) && On(Real(f.a), Real(f.b), z);
      EdgeInRegion(ra, i, z);
      EdgeInRegion(rb, j, z);
      CommonPoint(RegionCore(ra), RegionCore(rb), z, t);
    } else if Contain(Real(Dbl(ra[0][0])), Region(rb)) != Outside {
      FirstVertexInRegion(ra);
      CommonPoint(RegionCore(ra), RegionCore(rb), Real(Dbl(ra[0][0])), t);
    } else {
      FirstVertexInRegion(rb);
      CommonPoint(RegionCore(ra), RegionCore(rb), Real(Dbl(rb[0][0])), t);
    }
  }

  lemma FirstVertexInRegion(rings: seq<Ring>)
    requires |rings| > 0 && |rings[0]| > 0
    ensures In(RegionCore(rings), Real(Dbl(rings[0][0])))
  {
    assert RingEdges2(rings[0])[0].a == Dbl(rings[0][0]);
    assert Edges2(rings)[0] == RingEdges2(rings[0])[0];
    OnEnds(Real(Edges2(rings)[0].a), Real(Edges2(rings)[0].b));
    EdgeInRegion(rings, 0, Real(Dbl(rings[0][0])));
  }

  method RegionRegionCmp(ra: seq<Ring>, rb: seq<Ring>, t: int) returns (o: Ordering)
    requires 0 <= t && GoodPair(ra, rb)
    ensures o == DistanceCmp(RegionCore(ra), RegionCore(rb), t)
  {
    var ea, eb := Edges2(ra), Edges2(rb);
    hide SegIntersect, DistanceCmp, Contain, Least, SegCmps, Region;
    var crossing := exists i, j :: 0 <= i < |ea| && 0 <= j < |eb| && SegIntersect(ea[i].a, ea[i].b, eb[j].a, eb[j].b);
    var va := PointInRings(Dbl(ra[0][0]), rb);
    var vb := PointInRings(Dbl(rb[0][0]), ra);
    if crossing || va != Outside || vb != Outside {
      RegionsShare(ra, rb, t);
      return CmpInt(0, t);
    }
    RegionsDisjoint(ra, rb);
    var rows := LeastRows(ea, eb, t);
    LeastOverPairs(ra, rb, t, rows);
    o := MinCmp(rows);
  }

  /** For each edge, the least comparison against all edges of the other region. */
  method LeastRows(ea: seq<Edge2>, eb: seq<Edge2>, t: int) returns (rows: seq<Ordering>)
    requires 0 <= t
    ensures |rows| == |ea| && forall k :: 0 <= k < |ea| ==> rows[k] == Least(SegCmps(ea[k].a, ea[k].b, eb, t))
  {
    hide Least, SegCmps;
    rows := [];
    for i := 0 to |ea|
      invariant |rows| == i
      invariant forall k :: 0 <= k < i ==> rows[k] == Least(SegCmps(ea[k].a, ea[k].b, eb, t))
    {
      var row := MinCmp(SegCmps(ea[i].a, ea[i].b, eb, t));
      rows := rows + [row];
    }
  }

  /** `core_cmp`: exact for every pair of cores, two regions being polygons with proper holes. */
  method CoreCmp(a: Core, b: Core, t: int) returns (o: Ordering)
    requires 0 <= t
    requires a.RegionCore? && b.RegionCore? ==> GoodPair(a.rings, b.rings)
    ensures o == DistanceCmp(a, b, t)
  {
    DistanceSymmetric(a, b, t);
    match (a, b)
    case (PointCore(p), PointCore(q)) =>
      PointPointExact(p, q, t);
      o := CmpDist2(DistSquared(p, q), t);
    case (PointCore(p), SegCore(c, d)) =>
      PointSegDistance(p, c, d, t);
      o := PointSegCmp(p, c, d, t);
    case (SegCore(c, d), PointCore(p)) =>
      PointSegDistance(p, c, d, t);
      o := PointSegCmp(p, c, d, t);
    case (SegCore(a0, a1), SegCore(b0, b1)) =>
      SegSegExact(a0, a1, b0, b1, t);
      o := SegSegCmp(a0, a1, b0, b1, t);
    case (PointCore(p), RegionCore(r)) =>
      o := PointRegionCmp(p, r, t);
    case (RegionCore(r), PointCore(p)) =>
      o := PointRegionCmp(p, r, t);
    case (SegCore(s0, s1), RegionCore(r)) =>
      o := SegRegionCmp(s0, s1, r, t);
    case (RegionCore(r), SegCore(s0, s1)) =>
      o := SegRegionCmp(s0, s1, r, t);
    case (RegionCore(ra), RegionCore(rb)) =>
      o := RegionRegionCmp(ra, rb, t);
  }
}
