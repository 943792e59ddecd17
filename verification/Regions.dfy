/** When no edges of two regions meet, one vertex of each outline decides whether the regions
    overlap: the argument behind the kernel's region-to-region test. */
module Regions {
  import opened Basics
  import opened Plane
  import opened EvenOdd
  import opened Rings

  ghost predicate EdgesApart(es: seq<Edge>, fs: seq<Edge>) {
    forall e, f :: e in es && f in fs ==> !Meet(e.a, e.b, f.a, f.b)
  }

  /** A polygon with holes: away from its edges the even-odd region is the outline without the
      holes, the holes lie inside the outline, and none lies inside another. */
  ghost predicate WellHoled(rings: seq<RealRing>) {
    && |rings| > 0
    && (forall k :: 0 <= k < |rings| ==> |rings[k]| > 0)
    && (forall x :: !OnAny(Edges(rings), x) ==> (Contain(x, Edges(rings)) == Inside <==> InOutlineOnly(rings, x)))
    && (forall k :: 1 <= k < |rings| ==> Contain(rings[k][0], RingEdges(rings[0])) != Outside)
    && (forall i, k :: 1 <= i < |rings| && 1 <= k < |rings| && i != k ==>
                         Contain(rings[i][0], RingEdges(rings[k])) != Inside)
  }

  ghost predicate InOutlineOnly(rings: seq<RealRing>, x: Pt)
    requires |rings| > 0
  {
    && Contain(x, RingEdges(rings[0])) == Inside
    && forall k :: 1 <= k < |rings| ==> Contain(x, RingEdges(rings[k])) != Inside
  }

  /** One ring alone needs no assumption. */
  lemma SingleRing(ring: RealRing)
    requires |ring| > 0
    ensures WellHoled([ring])
  {
    assert [ring][1..] == [];
    assert Edges([ring]) == RingEdges(ring);
  }

  /** Holes as a polygon documents them: each lies within the outline's region, and no point of one is inside
      another. Shared boundary points are allowed. */
  ghost predicate ProperHoles(rings: seq<RealRing>) {
    && |rings| > 0
    && (forall k :: 0 <= k < |rings| ==> |rings[k]| > 0)
    && (forall k, x :: 1 <= k < |rings| && InRegion(RingEdges(rings[k]), x) ==> InRegion(RingEdges(rings[0]), x))
    && (forall i, k, x :: 1 <= i < |rings| && 1 <= k < |rings| && i != k && InRegion(RingEdges(rings[i]), x) ==>
                            Contain(x, RingEdges(rings[k])) != Inside)
  }

  predicate Wraps(ring: RealRing, x: Pt) {
    Odd(RingEdges(ring), Crossing(x))
  }

  lemma OffContain(ring: RealRing, x: Pt)
    requires !OnAny(RingEdges(ring), x)
    ensures Contain(x, RingEdges(ring)) == Inside <==> Wraps(ring, x)
    ensures InRegion(RingEdges(ring), x) <==> Wraps(ring, x)
  {
  }

  /** If no two of the rings go around x, their parities add up. */
  lemma {:induction false} AtMostOne(rings: seq<RealRing>, x: Pt)
    requires forall i, k :: 0 <= i < k < |rings| ==> !(Wraps(rings[i], x) && Wraps(rings[k], x))
    ensures Odd(Edges(rings), Crossing(x)) <==> exists k :: 0 <= k < |rings| && Wraps(rings[k], x)
  {
    if rings != [] {
      var rest := rings[1..];
      AtMostOne(rest, x);
      OddConcat(RingEdges(rings[0]), Edges(rest), Crossing(x));
      assert Odd(Edges(rings), Crossing(x)) == (Wraps(rings[0], x) != Odd(Edges(rest), Crossing(x)));
      hide Wraps;
      assert forall k :: 1 <= k < |rings| ==> rings[k] == rest[k - 1];
    }
  }

  /** The holes around x: at most one, and then the outline is around x too. */
  lemma HolesAround(rings: seq<RealRing>, x: Pt)
    requires ProperHoles(rings) && forall k :: 0 <= k < |rings| ==> !OnAny(RingEdges(rings[k]), x)
    ensures forall k :: 1 <= k < |rings| && Wraps(rings[k], x) ==> Wraps(rings[0], x)
    ensures forall i, k :: 1 <= i < k < |rings| ==> !(Wraps(rings[i], x) && Wraps(rings[k], x))
  {
    hide Contain, InRegion, OnAny, Wraps, RingEdges;
    OffContain(rings[0], x);
    forall k | 1 <= k < |rings| && Wraps(rings[k], x) ensures Wraps(rings[0], x) {
      OffContain(rings[k], x);
    }
    forall i, k | 1 <= i < k < |rings| ensures !(Wraps(rings[i], x) && Wraps(rings[k], x)) {
      OffContain(rings[i], x);
      OffContain(rings[k], x);
    }
  }

  lemma OutlineOnlyWraps(rings: seq<RealRing>, x: Pt)
    requires |rings| > 0 && forall k :: 0 <= k < |rings| ==> !OnAny(RingEdges(rings[k]), x)
    ensures InOutlineOnly(rings, x) <==> Wraps(rings[0], x) && forall k :: 1 <= k < |rings| ==> !Wraps(rings[k], x)
  {
    hide Contain, InRegion, OnAny, Wraps, RingEdges;
    forall k | 0 <= k < |rings| ensures Contain(x, RingEdges(rings[k])) == Inside <==> Wraps(rings[k], x) {
      OffContain(rings[k], x);
    }
  }

  lemma HoleParity(rings: seq<RealRing>, x: Pt)
    requires ProperHoles(rings) && !OnAny(Edges(rings), x)
    ensures Contain(x, Edges(rings)) == Inside <==> InOutlineOnly(rings, x)
  {
    var holes := rings[1..];
    forall k | 0 <= k < |rings| ensures !OnAny(RingEdges(rings[k]), x) {
      OffRing(rings, k, x);
    }
    HolesAround(rings, x);
    OutlineOnlyWraps(rings, x);
    OddConcat(RingEdges(rings[0]), Edges(holes), Crossing(x));
    assert Contain(x, Edges(rings)) == Inside <==> Wraps(rings[0], x) != Odd(Edges(holes), Crossing(x));
    hide Contain, OnAny, Wraps, InOutlineOnly, ProperHoles, Edges, Odd, RingEdges, Crossing;
    AtMostOne(holes, x);
    assert forall k :: 1 <= k < |rings| ==> rings[k] == holes[k - 1];
  }

  /** The documented holes give the even-odd rule its meaning: the outline without its holes. */
  lemma ProperIsWellHoled(rings: seq<RealRing>)
    requires ProperHoles(rings)
    ensures WellHoled(rings)
  {
    hide Contain, InOutlineOnly, InRegion, OnAny, RingEdges, Edges;
    forall x | !OnAny(Edges(rings), x) ensures Contain(x, Edges(rings)) == Inside <==> InOutlineOnly(rings, x) {
      HoleParity(rings, x);
    }
    forall k | 1 <= k < |rings|
      ensures InRegion(RingEdges(rings[k]), rings[k][0]) && Contain(rings[k][0], RingEdges(rings[0])) != Outside
    {
      VertexInRegion(rings[k], 0);
      RegionMeans(RingEdges(rings[0]), rings[k][0]);
    }
  }

  lemma RegionMeans(es: seq<Edge>, x: Pt)
    ensures InRegion(es, x) <==> Contain(x, es) != Outside
  {
  }

  lemma VertexInRegion(ring: RealRing, i: nat)
    requires i < |ring|
    ensures InRegion(RingEdges(ring), ring[i])
  {
    VertexOnRing(ring, i);
  }

  lemma MeetSwap(p: Pt, q: Pt, a: Pt, b: Pt)
    ensures Meet(p, q, a, b) == Meet(a, b, p, q)
  {
    if Meet(p, q, a, b) {
      var x :| On(p, q, x) && On(a, b, x);
    }
    if Meet(a, b, p, q) {
      var x :| On(a, b, x) && On(p, q, x);
    }
  }

  lemma ApartSwap(es: seq<Edge>, fs: seq<Edge>)
    requires EdgesApart(es, fs)
    ensures EdgesApart(fs, es)
  {
    forall f, e | f in fs && e in es ensures !Meet(f.a, f.b, e.a, e.b) {
      MeetSwap(e.a, e.b, f.a, f.b);
    }
  }

  lemma ApartRings(A: seq<RealRing>, B: seq<RealRing>, i: nat, j: nat)
    requires EdgesApart(Edges(A), Edges(B)) && i < |A| && j < |B|
    ensures EdgesApart(RingEdges(A[i]), RingEdges(B[j]))
    ensures EdgesApart(RingEdges(A[i]), Edges(B))
    ensures EdgesApart(RingEdges(B[j]), Edges(A))
  {
    forall e | e in RingEdges(A[i]) ensures e in Edges(A) {
      var k :| 0 <= k < |A[i]| && RingEdges(A[i])[k] == e;
      EdgeOfRing(A, i, k);
    }
    forall f | f in RingEdges(B[j]) ensures f in Edges(B) {
      var k :| 0 <= k < |B[j]| && RingEdges(B[j])[k] == f;
      EdgeOfRing(B, j, k);
    }
    ApartSwap(Edges(A), Edges(B));
  }

  lemma OnAnyIn(es: seq<Edge>, e: Edge, x: Pt)
    requires e in es && OnEdge(e, x)
    ensures OnAny(es, x)
  {
    var i :| 0 <= i < |es| && es[i] == e;
    assert OnEdge(es[i], x);
  }

  /** A point of one boundary is not on the other. */
  lemma ApartPoint(es: seq<Edge>, fs: seq<Edge>, x: Pt)
    requires EdgesApart(es, fs) && OnAny(es, x)
    ensures !OnAny(fs, x)
  {
    if OnAny(fs, x) {
      assert false;
    }
  }

  /** Transport along part of an edge that meets none of fs. */
  lemma AlongEdge(e: Edge, x: Pt, y: Pt, fs: seq<Edge>)
    requires Closed(fs) && EdgesApart([e], fs) && OnEdge(e, x) && OnEdge(e, y)
    ensures Contain(x, fs) == Contain(y, fs) != Boundary
  {
    forall j | 0 <= j < |fs| ensures !Meet(x, y, fs[j].a, fs[j].b) {
      if Meet(x, y, fs[j].a, fs[j].b) {
        var w :| On(x, y, w) && On(fs[j].a, fs[j].b, w);
        OnTrans(e.a, e.b, x, y, w);
        assert false;
      }
    }
    Transport(x, y, fs);
  }

  lemma {:induction false} SameAsFirst(ring: RealRing, fs: seq<Edge>, i: nat)
    requires Closed(fs) && EdgesApart(RingEdges(ring), fs) && i < |ring|
    ensures Contain(ring[i], fs) == Contain(ring[0], fs)
  {
    if i > 0 {
      SameAsFirst(ring, fs, i - 1);
      var e := RingEdge(ring, i - 1);
      assert e == RingEdges(ring)[i - 1];
      OnEnds(e.a, e.b);
      AlongEdge(e, ring[i - 1], ring[i], fs);
    }
  }

  /** A ring that meets no edge of a region lies wholly inside or wholly outside it. */
  lemma RingOneSide(ring: RealRing, fs: seq<Edge>, y: Pt)
    requires Closed(fs) && EdgesApart(RingEdges(ring), fs) && OnAny(RingEdges(ring), y)
    ensures forall i :: 0 <= i < |ring| ==> Contain(ring[i], fs) == Contain(y, fs) != Boundary
  {
    var k :| 0 <= k < |ring| && OnEdge(RingEdges(ring)[k], y);
    var e := RingEdge(ring, k);
    assert e == RingEdges(ring)[k];
    OnEnds(e.a, e.b);
    AlongEdge(e, ring[k], y, fs);
    SameAsFirst(ring, fs, k);
    forall i | 0 <= i < |ring| ensures Contain(ring[i], fs) == Contain(y, fs) {
      SameAsFirst(ring, fs, i);
    }
  }

  lemma VertexOnRing(ring: RealRing, i: nat)
    requires i < |ring|
    ensures OnAny(RingEdges(ring), ring[i])
  {
    OnEnds(ring[i], ring[Next(i, |ring|)]);
    assert OnEdge(RingEdges(ring)[i], ring[i]);
  }

  /** Walking out of a region, the first boundary met keeps the answer for the other one. */
  lemma FirstOfTwo(h: Pt, es: seq<Edge>, fs: seq<Edge>) returns (y: Pt, first: bool)
    requires Closed(es) && Closed(fs) && EdgesApart(es, fs)
    requires Contain(h, es) == Inside && !OnAny(fs, h)
    ensures first ==> OnAny(es, y) && Contain(y, fs) == Contain(h, fs)
    ensures !first ==> OnAny(fs, y) && Contain(y, es) == Inside
  {
    var z := FarOutside(es, h);
    var all := es + fs;
    assert exists i :: 0 <= i < |all| && Meet(h, z, all[i].a, all[i].b) by {
      if forall i :: 0 <= i < |es| ==> !Meet(h, z, es[i].a, es[i].b) {
        Transport(h, z, es);
      }
      var i :| 0 <= i < |es| && Meet(h, z, es[i].a, es[i].b);
      assert all[i] == es[i];
    }
    y := FirstHit(h, z, all);
    var k :| 0 <= k < |all| && OnEdge(all[k], y);
    first := k < |es|;
    if first {
      assert OnEdge(es[k], y);
      ApartPoint(es, fs, y);
      ClearWay(h, y, all, fs);
    } else {
      assert OnEdge(fs[k - |es|], y);
      ApartSwap(es, fs);
      ApartPoint(fs, es, y);
      ClearWay(h, y, all, es);
    }
  }

  lemma ClearWay(h: Pt, y: Pt, all: seq<Edge>, fs: seq<Edge>)
    requires Closed(fs) && !OnAny(fs, y)
    requires forall f :: f in fs ==> f in all
    requires forall w :: On(h, y, w) && OnAny(all, w) ==> w == y
    ensures Contain(y, fs) == Contain(h, fs)
  {
    forall j | 0 <= j < |fs| ensures !Meet(h, y, fs[j].a, fs[j].b) {
      if Meet(h, y, fs[j].a, fs[j].b) {
        var w :| On(h, y, w) && On(fs[j].a, fs[j].b, w);
        OnAnyIn(all, fs[j], w);
      }
    }
    Transport(h, y, fs);
  }

  ghost predicate RingInside(ring: RealRing, fs: seq<Edge>) {
    forall i :: 0 <= i < |ring| ==> Contain(ring[i], fs) == Inside
  }

  lemma {:induction false} Rightmost(ring: RealRing) returns (k: nat)
    requires |ring| > 0
    ensures k < |ring| && forall i :: 0 <= i < |ring| ==> ring[i].x <= ring[k].x
  {
    if |ring| == 1 {
      k := 0;
    } else {
      var m := |ring| - 1;
      k := Rightmost(ring[..m]);
      assert forall i :: 0 <= i < m ==> ring[i] == ring[..m][i];
      if ring[k].x < ring[m].x { k := m; }
    }
  }

  lemma RightOfRing(v: Pt, ring: RealRing)
    requires forall i :: 0 <= i < |ring| ==> ring[i].x <= v.x
    ensures Contain(v, RingEdges(ring)) != Inside
  {
    var es := RingEdges(ring);
    forall i | 0 <= i < |es| ensures !Crossing(v)(es[i]) {
      NotLeft(v, es[i]);
    }
    OddNone(es, Crossing(v));
  }

  /** Two rings are never each inside the other. */
  lemma NotMutual(c: RealRing, d: RealRing)
    requires |c| > 0 && |d| > 0
    ensures !(RingInside(c, RingEdges(d)) && RingInside(d, RingEdges(c)))
  {
    var i := Rightmost(c);
    var j := Rightmost(d);
    if d[j].x <= c[i].x {
      RightOfRing(c[i], d);
    } else {
      RightOfRing(d[j], c);
    }
  }

  /** A point inside c but not d rules out that c lies inside d. */
  lemma NotNested(h: Pt, c: RealRing, d: RealRing)
    requires |c| > 0 && |d| > 0 && EdgesApart(RingEdges(c), RingEdges(d))
    requires Contain(h, RingEdges(c)) == Inside && Contain(h, RingEdges(d)) == Outside
    ensures Contain(c[0], RingEdges(d)) != Inside
  {
    RingClosed(c);
    RingClosed(d);
    if Contain(c[0], RingEdges(d)) == Inside {
      var y, first := FirstOfTwo(h, RingEdges(c), RingEdges(d));
      VertexOnRing(c, 0);
      RingOneSide(c, RingEdges(d), c[0]);
      if first {
        RingOneSide(c, RingEdges(d), y);
      } else {
        ApartSwap(RingEdges(c), RingEdges(d));
        RingOneSide(d, RingEdges(c), y);
        NotMutual(c, d);
      }
    }
  }

  /** Two polygons whose edges never meet, the first outline vertex of each outside the other. */
  ghost predicate Separated(A: seq<RealRing>, B: seq<RealRing>) {
    && WellHoled(A) && WellHoled(B) && EdgesApart(Edges(A), Edges(B))
    && Contain(A[0][0], Edges(B)) == Outside && Contain(B[0][0], Edges(A)) == Outside
  }

  lemma SeparatedSwap(A: seq<RealRing>, B: seq<RealRing>)
    requires Separated(A, B)
    ensures Separated(B, A)
  {
    ApartSwap(Edges(A), Edges(B));
  }

  /** No ring of A lies inside B. */
  lemma NoRingInside(A: seq<RealRing>, B: seq<RealRing>, i: nat)
    requires Separated(A, B) && i < |A|
    ensures Contain(A[i][0], Edges(B)) != Inside
  {
    if Contain(A[i][0], Edges(B)) == Inside && i > 0 {
      var h, a0, b0 := A[i][0], A[0], B[0];
      RingsClosed(B);
      RingClosed(a0);
      RingClosed(b0);
      assert InOutlineOnly(B, h);
      ApartRings(A, B, 0, 0);
      if OnAny(RingEdges(a0), h) {
        RingOneSide(a0, Edges(B), h);
        assert false;
      }
      assert Contain(h, RingEdges(a0)) == Inside;
      var y, first := FirstOfTwo(h, RingEdges(a0), RingEdges(b0));
      if first {
        RingOneSide(a0, RingEdges(b0), y);
        OutlineInHole(A, B, h);
      } else {
        ApartSwap(RingEdges(a0), RingEdges(b0));
        RingOneSide(b0, RingEdges(a0), y);
        HoleAroundOutline(A, B, i);
      }
    }
  }

  /** If A's outline were inside B's outline it would sit in a hole of B, away from h. */
  lemma OutlineInHole(A: seq<RealRing>, B: seq<RealRing>, h: Pt)
    requires Separated(A, B)
    requires InOutlineOnly(B, h) && !OnAny(Edges(B), h) && Contain(h, RingEdges(A[0])) == Inside
    ensures Contain(A[0][0], RingEdges(B[0])) != Inside
  {
    if Contain(A[0][0], RingEdges(B[0])) == Inside {
      assert !InOutlineOnly(B, A[0][0]);
      var j :| 1 <= j < |B| && Contain(A[0][0], RingEdges(B[j])) == Inside;
      ApartRings(A, B, 0, j);
      OffRing(B, j, h);
      NotNested(h, A[0], B[j]);
    }
  }

  lemma OffRing(B: seq<RealRing>, j: nat, h: Pt)
    requires j < |B| && !OnAny(Edges(B), h)
    ensures !OnAny(RingEdges(B[j]), h)
  {
    if OnAny(RingEdges(B[j]), h) {
      var k :| 0 <= k < |B[j]| && OnEdge(RingEdges(B[j])[k], h);
      EdgeOfRing(B, j, k);
      OnAnyIn(Edges(B), RingEdge(B[j], k), h);
    }
  }

  /** If B's outline were inside A's outline it would sit in a hole of A. */
  lemma HoleAroundOutline(A: seq<RealRing>, B: seq<RealRing>, i: nat)
    requires Separated(A, B) && 1 <= i < |A|
    requires Contain(A[i][0], RingEdges(B[0])) == Inside
    ensures Contain(B[0][0], RingEdges(A[0])) != Inside
  {
    var h, b0 := A[i][0], B[0];
    if Contain(b0[0], RingEdges(A[0])) == Inside {
      assert !InOutlineOnly(A, b0[0]);
      var k :| 1 <= k < |A| && Contain(b0[0], RingEdges(A[k])) == Inside;
      ApartRings(A, B, k, 0);
      ApartSwap(RingEdges(A[k]), RingEdges(b0));
      RingClosed(A[k]);
      RingClosed(b0);
      VertexOnRing(b0, 0);
      RingOneSide(b0, RingEdges(A[k]), b0[0]);
      if i == k {
        VertexOnRing(A[i], 0);
      }
      if OnAny(RingEdges(A[k]), h) {
        RingOneSide(A[k], RingEdges(b0), h);
        NotMutual(A[k], b0);
      } else {
        NotNested(h, b0, A[k]);
      }
    }
  }

  /** The two regions share no real point. */
  lemma SeparatedDisjoint(A: seq<RealRing>, B: seq<RealRing>, x: Pt)
    requires Separated(A, B)
    ensures !(InRegion(Edges(A), x) && InRegion(Edges(B), x))
  {
    if InRegion(Edges(A), x) && InRegion(Edges(B), x) {
      RingsClosed(A);
      RingsClosed(B);
      SeparatedSwap(A, B);
      if OnAny(Edges(A), x) {
        ApartPoint(Edges(A), Edges(B), x);
        RingReaches(A, B, x);
      } else if OnAny(Edges(B), x) {
        RingReaches(B, A, x);
      } else {
        var y, first := FirstOfTwo(x, Edges(A), Edges(B));
        if first { RingReaches(A, B, y); } else { RingReaches(B, A, y); }
      }
    }
  }

  lemma RingReaches(A: seq<RealRing>, B: seq<RealRing>, y: Pt)
    requires Separated(A, B) && OnAny(Edges(A), y)
    ensures Contain(y, Edges(B)) != Inside
  {
    var k :| 0 <= k < |Edges(A)| && OnEdge(Edges(A)[k], y);
    var i, j := RingOfEdge(A, Edges(A)[k]);
    assert RingEdges(A[i])[j] == Edges(A)[k];
    RingsClosed(B);
    ApartRings(A, B, i, 0);
    RingOneSide(A[i], Edges(B), y);
    NoRingInside(A, B, i);
  }
}
