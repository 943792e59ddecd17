/** An outline that touches itself: a vertex lies within one of its edges, with the region on both sides. A segment
    through that point stays in the region and still properly crosses the edge. */
module PinchedRing {
  import opened Plane
  import opened EvenOdd
  import opened Rings
  import opened Regions
  import opened Kernel
  import opened Within
  import opened RegionView
  import opened SweptWithin
  import opened RegionWithin

  function Pinched(): (r: Ring)
    ensures |r| == 6
  {
    [Point(0, 0), Point(40, -10), Point(0, 30), Point(10, 0), Point(15, 8), Point(20, 0)]
  }

  const FROM := Point(10, -1)
  const TO := Point(10, 1)

  /** The edges in doubled coordinates. */
  function Sides(): (es: seq<Edge>)
    ensures |es| == 6
  {
    [Edge(Pt(0.0, 0.0), Pt(80.0, -20.0)), Edge(Pt(80.0, -20.0), Pt(0.0, 60.0)), Edge(Pt(0.0, 60.0), Pt(20.0, 0.0)),
     Edge(Pt(20.0, 0.0), Pt(30.0, 16.0)), Edge(Pt(30.0, 16.0), Pt(40.0, 0.0)), Edge(Pt(40.0, 0.0), Pt(0.0, 0.0))]
  }

  lemma PinchedSides()
    ensures Region([Pinched()]) == Sides()
  {
    var pts := Pinched();
    OneRing(pts);
    var es, sides := RingEdges(Vertices(pts)), Sides();
    forall i | 0 <= i < 6 ensures es[i] == sides[i] {
      assert es[i] == RingEdge(Vertices(pts), i);
    }
  }

  /** Each side as an equation and a range. */
  predicate OnSide(i: nat, z: Pt) {
    if i == 0 then 4.0 * z.y == -z.x && 0.0 <= z.x <= 80.0
    else if i == 1 then z.x + z.y == 60.0 && 0.0 <= z.x <= 80.0
    else if i == 2 then z.y == 60.0 - 3.0 * z.x && 0.0 <= z.x <= 20.0
    else if i == 3 then 5.0 * z.y == 8.0 * (z.x - 20.0) && 20.0 <= z.x <= 30.0
    else if i == 4 then 5.0 * z.y == 8.0 * (40.0 - z.x) && 30.0 <= z.x <= 40.0
    else z.y == 0.0 && 0.0 <= z.x <= 40.0
  }

  lemma SideMeans(i: nat, z: Pt)
    requires i < 6
    ensures OnEdge(Sides()[i], z) ==> OnSide(i, z)
  {
  }

  lemma SidesMeetOnce(i: nat, j: nat, w: Pt, z: Pt)
    requires i < j < 6 && OnSide(i, w) && OnSide(j, w) && OnSide(i, z) && OnSide(j, z)
    ensures w == z
  {
  }

  lemma NoSidesOverlap()
    ensures NoOverlap(Sides())
  {
    var es := Sides();
    hide Sides, OnSide, OnEdge;
    forall i, j, w, z | 0 <= i < |es| && 0 <= j < |es| && i != j && SharedBy(es[i], es[j], w) &&
                        SharedBy(es[i], es[j], z)
      ensures w == z
    {
      SideMeans(i, w);
      SideMeans(j, w);
      SideMeans(i, z);
      SideMeans(j, z);
      if i < j {
        SidesMeetOnce(i, j, w, z);
      } else {
        SidesMeetOnce(j, i, w, z);
      }
    }
  }

  /** No edge properly crosses another. */
  ghost predicate Untangled(es: seq<Edge>) {
    forall i, j :: 0 <= i < |es| && 0 <= j < |es| && i != j ==> !ProperCross(es[i].a, es[i].b, es[j].a, es[j].b)
  }

  lemma NoSidesCross(i: nat, j: nat)
    requires i < j < 6
    ensures var e, f := Sides()[i], Sides()[j]; !ProperCross(e.a, e.b, f.a, f.b) && !ProperCross(f.a, f.b, e.a, e.b)
  {
  }

  lemma SidesUntangled()
    ensures Untangled(Sides())
  {
    var es := Sides();
    hide Sides, ProperCross;
    forall i, j | 0 <= i < |es| && 0 <= j < |es| && i != j ensures !ProperCross(es[i].a, es[i].b, es[j].a, es[j].b) {
      if i < j {
        NoSidesCross(i, j);
      } else {
        NoSidesCross(j, i);
      }
    }
  }

  lemma PinchedSimple()
    ensures ValidRegion([Pinched()]) && Untangled(Region([Pinched()]))
  {
    var rings := [Pinched()];
    PinchedSides();
    NoSidesOverlap();
    SidesUntangled();
    EdgesAgree(rings);
    hide Region, NoOverlap, Untangled;
    forall e | e in Edges2(rings) ensures e.a != e.b {
      var k :| 0 <= k < |Edges2(rings)| && Edges2(rings)[k] == e;
      hide Edges2;
      assert RealEdge(e) == Sides()[k];
    }
  }

  // ----- The segment through the pinch

  lemma OddSix(es: seq<Edge>, f: Edge -> bool)
    requires |es| == 6
    ensures Odd(es, f) == (((((f(es[0]) != f(es[1])) != f(es[2])) != f(es[3])) != f(es[4])) != f(es[5]))
  {
    OddSteps(es, f);
    hide Odd;
    assert Odd(es[..1], f) == f(es[0]);
    assert Odd(es[..2], f) == (f(es[0]) != f(es[1]));
    assert Odd(es[..3], f) == ((f(es[0]) != f(es[1])) != f(es[2]));
    assert Odd(es[..4], f) == (((f(es[0]) != f(es[1])) != f(es[2])) != f(es[3]));
    assert Odd(es[..5], f) == ((((f(es[0]) != f(es[1])) != f(es[2])) != f(es[3])) != f(es[4]));
  }

  lemma AboveThePinch(z: Pt)
    requires z.x == 20.0 && 0.0 < z.y <= 2.0
    ensures var es := Sides(); !Crosses(z, es[0]) && Crosses(z, es[1]) && !Crosses(z, es[2])
    ensures var es := Sides(); Crosses(z, es[3]) && Crosses(z, es[4]) && !Crosses(z, es[5])
  {
  }

  lemma BelowThePinch(z: Pt)
    requires z.x == 20.0 && -2.0 <= z.y < 0.0
    ensures var es := Sides(); !Crosses(z, es[0]) && Crosses(z, es[1]) && !Crosses(z, es[2])
    ensures var es := Sides(); !Crosses(z, es[3]) && !Crosses(z, es[4]) && !Crosses(z, es[5])
  {
  }

  lemma AtThePinch(z: Pt)
    requires z.x == 20.0 && z.y == 0.0
    ensures OnEdge(Sides()[5], z)
  {
    var e := Sides()[5];
    assert e == Edge(Pt(40.0, 0.0), Pt(0.0, 0.0));
    hide Sides;
    OnLevelEdge(e.a, e.b, z);
  }

  lemma OnLevelEdge(a: Pt, b: Pt, z: Pt)
    requires a.y == z.y == b.y && b.x <= z.x <= a.x
    ensures On(a, b, z)
  {
    assert b.y - a.y == 0.0 && z.y - a.y == 0.0;
  }

  lemma OddSides(es: seq<Edge>, z: Pt)
    requires |es| == 6 && !Crosses(z, es[0]) && Crosses(z, es[1]) && !Crosses(z, es[2])
    requires Crosses(z, es[3]) == Crosses(z, es[4]) && !Crosses(z, es[5])
    ensures Contain(z, es) != Outside
  {
    hide Crosses;
    OddSix(es, Crossing(z));
  }

  lemma ThroughThePinch(z: Pt, es: seq<Edge>)
    requires es == Sides() && z.x == 20.0 && -2.0 <= z.y <= 2.0
    ensures Contain(z, es) != Outside
  {
    hide *;
    if z.y == 0.0 {
      AtThePinch(z);
      OnRegion(es, 5, z);
      RegionMeans(es, z);
    } else {
      if z.y > 0.0 { AboveThePinch(z); } else { BelowThePinch(z); }
      OddSides(es, z);
    }
  }

  /** Its edges neither overlap nor cross and the segment is wholly in the region, yet it crosses an edge properly. */
  lemma PinchedDiffers()
    ensures ValidRegion([Pinched()]) && Untangled(Region([Pinched()])) && AllInside(Dbl(FROM), Dbl(TO), [Pinched()])
    ensures !NoneCrossed(Dbl(FROM), Dbl(TO), [Pinched()])
  {
    var rings := [Pinched()];
    PinchedSimple();
    PinchedSides();
    EdgesAgree(rings);
    var e := Edges2(rings)[5];
    assert RealEdge(e) == Sides()[5];
    assert CrossesProperly2(Dbl(FROM), Dbl(TO), e.a, e.b);
    hide Region, Edges2, Sides, Contain;
    forall z | On(Real(Dbl(FROM)), Real(Dbl(TO)), z) ensures Contain(z, Region(rings)) != Outside {
      ThroughThePinch(z, Region(rings));
    }
  }
}
