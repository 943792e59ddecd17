/** An outline that runs out along a line and back: its own edges overlap. Between the peaks of the area it is outside,
    though no inside point of it is, and every check passes. */
module SpurRing {
  import opened Plane
  import opened EvenOdd
  import opened Rings
  import opened Kernel
  import opened PolyIndex
  import opened Within
  import opened SweptWithin
  import opened RegionWithin

  function Spur(): (r: Ring)
    ensures |r| == 5
  {
    [Point(6, 4), Point(10, 4), Point(6, 4), Point(6, 1), Point(7, 1)]
  }

  function Peaks(): (r: Ring)
    ensures |r| == 5
  {
    [Point(0, 0), Point(16, 0), Point(10, 4), Point(8, 2), Point(6, 4)]
  }

  /** The edges of the spur in doubled coordinates. */
  function SpurSides(): (es: seq<Edge>)
    ensures |es| == 5
  {
    [Edge(Pt(12.0, 8.0), Pt(20.0, 8.0)), Edge(Pt(20.0, 8.0), Pt(12.0, 8.0)), Edge(Pt(12.0, 8.0), Pt(12.0, 2.0)),
     Edge(Pt(12.0, 2.0), Pt(14.0, 2.0)), Edge(Pt(14.0, 2.0), Pt(12.0, 8.0))]
  }

  /** The edges of the area in doubled coordinates. */
  function PeakSides(): (es: seq<Edge>)
    ensures |es| == 5
  {
    [Edge(Pt(0.0, 0.0), Pt(32.0, 0.0)), Edge(Pt(32.0, 0.0), Pt(20.0, 8.0)), Edge(Pt(20.0, 8.0), Pt(16.0, 4.0)),
     Edge(Pt(16.0, 4.0), Pt(12.0, 8.0)), Edge(Pt(12.0, 8.0), Pt(0.0, 0.0))]
  }

  lemma SpurEdges()
    ensures Region([Spur()]) == SpurSides()
  {
    var pts := Spur();
    OneRing(pts);
    var es, sides := RingEdges(Vertices(pts)), SpurSides();
    forall i | 0 <= i < 5 ensures es[i] == sides[i] {
      assert es[i] == RingEdge(Vertices(pts), i);
    }
  }

  lemma PeakEdges()
    ensures Region([Peaks()]) == PeakSides()
  {
    var pts := Peaks();
    OneRing(pts);
    var es, sides := RingEdges(Vertices(pts)), PeakSides();
    forall i | 0 <= i < 5 ensures es[i] == sides[i] {
      assert es[i] == RingEdge(Vertices(pts), i);
    }
  }

  // ----- The area is valid

  /** Each side of the area as an equation and a range. */
  predicate OnSide(i: nat, z: Pt) {
    if i == 0 then z.y == 0.0 && 0.0 <= z.x <= 32.0
    else if i == 1 then 3.0 * z.y == 2.0 * (32.0 - z.x) && 20.0 <= z.x <= 32.0
    else if i == 2 then z.y == z.x - 12.0 && 16.0 <= z.x <= 20.0
    else if i == 3 then z.y == 20.0 - z.x && 12.0 <= z.x <= 16.0
    else 3.0 * z.y == 2.0 * z.x && 0.0 <= z.x <= 12.0
  }

  lemma SideMeans(i: nat, z: Pt)
    requires i < 5
    ensures OnEdge(PeakSides()[i], z) ==> OnSide(i, z)
  {
    var e := PeakSides()[i];
    if i == 0 {
      assert e == Edge(Pt(0.0, 0.0), Pt(32.0, 0.0));
      hide *;
      FirstSide(z);
    } else if i == 1 {
      assert e == Edge(Pt(32.0, 0.0), Pt(20.0, 8.0));
    } else if i == 2 {
      assert e == Edge(Pt(20.0, 8.0), Pt(16.0, 4.0));
    } else if i == 3 {
      assert e == Edge(Pt(16.0, 4.0), Pt(12.0, 8.0));
    } else {
      assert e == Edge(Pt(12.0, 8.0), Pt(0.0, 0.0));
    }
  }

  lemma FirstSide(z: Pt)
    ensures OnEdge(Edge(Pt(0.0, 0.0), Pt(32.0, 0.0)), z) ==> OnSide(0, z)
  {
    assert InBox(Pt(0.0, 0.0), Pt(32.0, 0.0), z) ==> z.y == 0.0;
  }

  lemma SidesMeetOnce(i: nat, j: nat, w: Pt, z: Pt)
    requires i < j < 5 && OnSide(i, w) && OnSide(j, w) && OnSide(i, z) && OnSide(j, z)
    ensures w == z
  {
  }

  lemma NoSidesOverlap()
    ensures NoOverlap(PeakSides())
  {
    var es := PeakSides();
    hide PeakSides, OnSide, OnEdge;
    forall i, j, w, z | 0 <= i < |es| && 0 <= j < |es| && i != j && SharedBy(es[i], es[j], w) &&
                        SharedBy(es[i], es[j], z)
      ensures w == z
    {
      SideMeans(i, w);
      SideMeans(j, w);
      SideMeans(i, z);
      SideMeans(j, z);
      if i < j {
        SidesMeetOnce(i, j, w, z);
      } else {
        SidesMeetOnce(j, i, w, z);
      }
    }
  }

  lemma PeaksValid()
    ensures ValidRegion([Peaks()])
  {
    var rings := [Peaks()];
    PeakEdges();
    NoSidesOverlap();
    EdgesAgree(rings);
    hide Region, NoOverlap;
    forall e | e in Edges2(rings) ensures e.a != e.b {
      var k :| 0 <= k < |Edges2(rings)| && Edges2(rings)[k] == e;
      hide Edges2;
      assert RealEdge(e) == PeakSides()[k];
    }
  }

  // ----- Every check passes

  lemma NoSidesCross(i: nat, j: nat)
    requires i < 5 && j < 5
    ensures var e, f := SpurSides()[i], PeakSides()[j]; !ProperCross(e.a, e.b, f.a, f.b)
  {
  }

  lemma SpurCrossesNothing()
    ensures NoneCross([Spur()], [Peaks()])
  {
    var ri, ra := [Spur()], [Peaks()];
    SpurEdges();
    PeakEdges();
    EdgesAgree(ri);
    EdgesAgree(ra);
    hide Region, Edges2, SpurSides, PeakSides, ProperCross, CrossesProperly2;
    forall e, f | e in Edges2(ri) && f in Edges2(ra) ensures !CrossesProperly2(e.a, e.b, f.a, f.b) {
      var i :| 0 <= i < |Edges2(ri)| && Edges2(ri)[i] == e;
      var j :| 0 <= j < |Edges2(ra)| && Edges2(ra)[j] == f;
      assert SpurSides()[i] == RealEdge(e) && PeakSides()[j] == RealEdge(f);
      NoSidesCross(i, j);
      CrossesProperlyReal(e.a, e.b, f.a, f.b);
    }
  }

  lemma OddFive(es: seq<Edge>, f: Edge -> bool)
    requires |es| == 5
    ensures Odd(es, f) == ((((f(es[0]) != f(es[1])) != f(es[2])) != f(es[3])) != f(es[4]))
  {
    OddSteps(es, f);
    hide Odd;
    assert Odd(es[..1], f) == f(es[0]);
    assert Odd(es[..2], f) == (f(es[0]) != f(es[1]));
    assert Odd(es[..3], f) == ((f(es[0]) != f(es[1])) != f(es[2]));
    assert Odd(es[..4], f) == (((f(es[0]) != f(es[1])) != f(es[2])) != f(es[3]));
  }

  /** Which sides of the area the ray from z crosses. */
  lemma PeaksCrossed(z: Pt)
    ensures var es := PeakSides();
            && !Crosses(z, es[0])
            && (Crosses(z, es[1]) <==> 0.0 <= z.y < 8.0 && 3.0 * z.y < 2.0 * (32.0 - z.x))
            && (Crosses(z, es[2]) <==> 4.0 <= z.y < 8.0 && z.x - 12.0 < z.y)
            && (Crosses(z, es[3]) <==> 4.0 <= z.y < 8.0 && z.x < 20.0 - z.y)
            && (Crosses(z, es[4]) <==> 0.0 <= z.y < 8.0 && 2.0 * z.x < 3.0 * z.y)
  {
  }

  lemma SpurCrossed(z: Pt)
    ensures var es := SpurSides();
            && !Crosses(z, es[0]) && !Crosses(z, es[1]) && !Crosses(z, es[3])
            && (Crosses(z, es[2]) <==> 2.0 <= z.y < 8.0 && z.x < 12.0)
            && (Crosses(z, es[4]) <==> 2.0 <= z.y < 8.0 && 3.0 * (z.x - 12.0) < 8.0 - z.y)
  {
  }

  lemma OddPeaks(z: Pt, es: seq<Edge>)
    requires es == PeakSides()
    ensures Odd(es, Crossing(z)) <==>
            && 0.0 <= z.y < 8.0
            && ((3.0 * z.y < 2.0 * (32.0 - z.x)) != (2.0 * z.x < 3.0 * z.y))
               == (z.y < 4.0 || (z.x - 12.0 < z.y) == (z.x < 20.0 - z.y))
  {
    hide *;
    PeaksCrossed(z);
    CrossingMeans(z, es);
    OddFive(es, Crossing(z));
  }

  lemma OddSpur(z: Pt, es: seq<Edge>)
    requires es == SpurSides() && Odd(es, Crossing(z))
    ensures 2.0 <= z.y < 8.0 && 12.0 <= z.x && 3.0 * (z.x - 12.0) < 8.0 - z.y
  {
    hide *;
    SpurCrossed(z);
    CrossingMeans(z, es);
    OddFive(es, Crossing(z));
  }

  lemma CrossingMeans(z: Pt, es: seq<Edge>)
    ensures forall i :: 0 <= i < |es| ==> Crossing(z)(es[i]) == Crosses(z, es[i])
  {
  }

  lemma OddIsIn(z: Pt, es: seq<Edge>)
    requires Odd(es, Crossing(z))
    ensures InRegion(es, z)
  {
  }

  lemma InsideIsOdd(z: Pt, es: seq<Edge>)
    requires Contain(z, es) == Inside
    ensures Odd(es, Crossing(z))
  {
  }

  lemma SpurInterior()
    ensures InteriorInside([Spur()], [Peaks()])
  {
    var ei, ea := Region([Spur()]), Region([Peaks()]);
    SpurEdges();
    PeakEdges();
    hide Region, SpurSides, PeakSides, Contain, InRegion, Crossing, Odd;
    forall z | Contain(z, ei) == Inside ensures InRegion(ea, z) {
      InsideIsOdd(z, ei);
      OddSpur(z, ei);
      OddPeaks(z, ea);
      OddIsIn(z, ea);
    }
  }

  lemma VertexIn(i: nat)
    requires i < 5
    ensures InRegion(Region([Peaks()]), SpurSides()[i].a)
  {
    var z, es := SpurSides()[i].a, Region([Peaks()]);
    assert z == if i == 0 || i == 2 then Pt(12.0, 8.0) else if i == 1 then Pt(20.0, 8.0)
                else if i == 3 then Pt(12.0, 2.0) else Pt(14.0, 2.0);
    PeakEdges();
    if i < 3 {
      var k := if i == 1 then 2 else 4;
      assert z == PeakSides()[k].a;
      OnEnds(es[k].a, es[k].b);
      OnRegion(es, k, z);
    } else {
      OddPeaks(z, es);
      hide Region, PeakSides, Odd, Contain;
      OddIsIn(z, es);
    }
  }

  lemma SpurStarts()
    ensures StartsIn([Spur()], [Peaks()])
  {
    var ri, ra := [Spur()], [Peaks()];
    SpurEdges();
    EdgesAgree(ri);
    hide Region, Edges2, SpurSides, Contain;
    forall e | e in Edges2(ri) ensures Contain(Real(e.a), Region(ra)) != Outside {
      var i :| 0 <= i < |Edges2(ri)| && Edges2(ri)[i] == e;
      assert SpurSides()[i] == RealEdge(e);
      VertexIn(i);
    }
  }

  /** The middle of the spur, above the dip between the peaks. */
  lemma MiddleOutside(es: seq<Edge>)
    requires es == PeakSides()
    ensures Contain(Pt(16.0, 8.0), es) == Outside
  {
    var z := Pt(16.0, 8.0);
    forall i | 0 <= i < |es| ensures !OnEdge(es[i], z) {
      SideMeans(i, z);
    }
    hide PeakSides, OnEdge, Odd;
    OddPeaks(z, es);
  }

  lemma MiddleOnSpur()
    ensures InRegion(Region([Spur()]), Pt(16.0, 8.0))
  {
    SpurEdges();
    var es, z := Region([Spur()]), Pt(16.0, 8.0);
    assert es[1].a.y == z.y == es[1].b.y && es[1].b.x <= z.x <= es[1].a.x;
    assert OnEdge(es[1], z) by {
      hide Region, SpurSides;
      assert es[1].b.y - es[1].a.y == 0.0 && z.y - es[1].a.y == 0.0;
    }
    hide OnEdge, SpurSides;
    OnRegion(es, 1, z);
  }

  /** In a valid area every check passes, so the answer is true, though a boundary point of the spur is outside. */
  lemma SpurPasses()
    ensures ValidRegion([Peaks()]) && HolesInBox([Spur()]) && InteriorFits([Spur()], [Peaks()])
    ensures !RegionInside([Spur()], [Peaks()])
  {
    PeaksValid();
    SpurInterior();
    SpurStarts();
    SpurCrossesNothing();
    PeakEdges();
    MiddleOutside(Region([Peaks()]));
    MiddleOnSpur();
    hide InteriorInside, StartsIn, NoneCross, ValidRegion, Region, Contain, PeakSides;
    OutsideRefutes([Spur()], [Peaks()], Pt(16.0, 8.0));
  }
}
