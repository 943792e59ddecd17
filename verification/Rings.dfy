/** Closed rings of real vertices: their edges, how a whole ring keeps one answer relative to
    rings it does not meet, and when two regions with holes are disjoint. */
module Rings {
  import opened Basics
  import opened Plane
  import opened EvenOdd
  import opened Touching

  type RealRing = seq<Pt>

  function RingEdge(ring: RealRing, i: nat): Edge
    requires i < |ring|
  {
    Edge(ring[i], ring[Next(i, |ring|)])
  }

  function RingEdges(ring: RealRing): (es: seq<Edge>)
    ensures |es| == |ring|
  {
    seq(|ring|, i requires 0 <= i < |ring| => RingEdge(ring, i))
  }

  /** Every edge of every ring, in order. */
  function Edges(rings: seq<RealRing>): seq<Edge> {
    if rings == [] then [] else RingEdges(rings[0]) + Edges(rings[1..])
  }

  lemma {:induction false} PathJumps(ring: RealRing, g: Pt -> bool, k: nat)
    requires 0 < |ring| && k <= |ring|
    ensures Odd(RingEdges(ring)[..k], Jump(g)) ==
            (g(ring[0]) != g(ring[if k == |ring| then 0 else k]))
  {
    var es := RingEdges(ring);
    if k > 0 {
      PathJumps(ring, g, k - 1);
      assert es[..k][..k - 1] == es[..k - 1];
    }
  }

  lemma RingClosed(ring: RealRing)
    ensures Closed(RingEdges(ring))
  {
    var es := RingEdges(ring);
    if |ring| > 0 {
      forall g: Pt -> bool ensures !Odd(es, Jump(g)) {
        PathJumps(ring, g, |ring|);
        assert es[..|ring|] == es;
      }
    }
  }

  lemma {:induction false} RingsClosed(rings: seq<RealRing>)
    ensures Closed(Edges(rings))
  {
    if rings != [] {
      RingClosed(rings[0]);
      RingsClosed(rings[1..]);
      ClosedConcat(RingEdges(rings[0]), Edges(rings[1..]));
    }
  }

  /** Edge j of ring i is among the edges. */
  lemma {:induction false} EdgeOfRing(rings: seq<RealRing>, i: nat, j: nat)
    requires i < |rings| && j < |rings[i]|
    ensures RingEdge(rings[i], j) in Edges(rings)
  {
    if i == 0 {
      assert RingEdges(rings[0])[j] in RingEdges(rings[0]);
    } else {
      EdgeOfRing(rings[1..], i - 1, j);
    }
  }

  lemma {:induction false} RingOfEdge(rings: seq<RealRing>, e: Edge) returns (i: nat, j: nat)
    requires e in Edges(rings)
    ensures i < |rings| && j < |rings[i]| && e == RingEdge(rings[i], j)
  {
    if e in RingEdges(rings[0]) {
      i := 0;
      j :| 0 <= j < |rings[0]| && RingEdges(rings[0])[j] == e;
    } else {
      var k, m := RingOfEdge(rings[1..], e);
      i, j := k + 1, m;
    }
  }

  // ----- Far away, nothing is inside

  /** A point not left of an edge does not see it. */
  lemma NotLeft(v: Pt, e: Edge)
    requires e.a.x <= v.x && e.b.x <= v.x
    ensures !Crosses(v, e)
  {
    if e.a.y <= v.y < e.b.y {
      NotLeftRising(v, e.a, e.b);
    } else if e.b.y <= v.y < e.a.y {
      NotLeftRising(v, e.b, e.a);
      assert Orient(e.b, e.a, v) == -Orient(e.a, e.b, v);
    }
  }

  lemma NotLeftRising(v: Pt, a: Pt, b: Pt)
    requires a.x <= v.x && b.x <= v.x && a.y < b.y && a.y <= v.y <= b.y
    ensures Orient(a, b, v) <= 0.0
  {
    OrientSign(a, b, v);
    XAtEnds(a, b);
    var s := Ratio(a.y, v.y, b.y);
    XAtAffine(a, b, a.y, b.y, s);
    hide XAt;
    LerpBetween(a.x, b.x, s);
  }

  lemma {:induction false} BoundX(es: seq<Edge>) returns (m: real)
    ensures forall i :: 0 <= i < |es| ==> es[i].a.x < m && es[i].b.x < m
  {
    if es == [] {
      m := 0.0;
    } else {
      var e := es[|es| - 1];
      var k := BoundX(es[..|es| - 1]);
      m := if k <= e.a.x then e.a.x + 1.0 else k;
      m := if m <= e.b.x then e.b.x + 1.0 else m;
      forall i | 0 <= i < |es| ensures es[i].a.x < m && es[i].b.x < m {
        if i < |es| - 1 { assert es[i] == es[..|es| - 1][i]; }
      }
    }
  }

  /** Some point to the right of x is outside. */
  lemma FarOutside(es: seq<Edge>, x: Pt) returns (z: Pt)
    ensures Contain(z, es) == Outside && z.y == x.y && x.x < z.x
  {
    var m := BoundX(es);
    z := Pt(if m <= x.x then x.x + 1.0 else m, x.y);
    forall i | 0 <= i < |es| ensures !OnEdge(es[i], z) && !Crossing(z)(es[i]) {
      NotLeft(z, es[i]);
    }
    OddNone(es, Crossing(z));
  }

  // ----- The first edge met along a segment

  /** The first point of x-z on one edge. */
  lemma FirstOnEdge(x: Pt, z: Pt, e: Edge, m: Pt) returns (y: Pt)
    requires On(x, z, m) && OnEdge(e, m)
    ensures On(x, z, y) && OnEdge(e, y)
    ensures forall w :: On(x, y, w) && OnEdge(e, w) ==> w == y
  {
    var a, b := e.a, e.b;
    if OnEdge(e, x) {
      OnEnds(x, z);
      y := x;
      forall w | On(x, y, w) ensures w == y { PointSegment(x, w); }
    } else if a == b {
      y := m;
      forall w | OnEdge(e, w) ensures w == y { PointSegment(a, w); PointSegment(a, m); }
    } else if Orient(a, b, x) != 0.0 {
      y := m;
      forall w | On(x, y, w) && OnEdge(e, w) ensures w == y {
        var s := OnParam(x, y, w);
        OrientLerp(a, b, x, y, s);
        CancelFactor(Orient(a, b, x), 1.0 - s, 0.0);
        LerpOne(x, y);
      }
    } else {
      y := FirstCollinear(x, z, a, b, m);
    }
  }

  lemma LerpOne(a: Pt, b: Pt)
    ensures Lerp(a, b, 1.0) == b
  {
  }

  /** On a line, the segment a-b is entered from outside at one of its ends. */
  lemma FirstCollinear(x: Pt, z: Pt, a: Pt, b: Pt, m: Pt) returns (y: Pt)
    requires a != b && Orient(a, b, x) == 0.0 && !On(a, b, x)
    requires On(x, z, m) && On(a, b, m)
    ensures On(x, z, y) && On(a, b, y) && (y == a || y == b)
    ensures forall w :: On(x, y, w) && On(a, b, w) ==> w == y
  {
    var tx := LineParam(a, b, x);
    if 0.0 <= tx <= 1.0 { LerpOn(a, b, tx); }
    var ty := if tx < 0.0 then 0.0 else 1.0;
    y := Lerp(a, b, ty);
    LerpZero(a, b);
    LerpOne(a, b);
    OnEnds(a, b);
    var tm := OnParam(a, b, m);
    var u := Ratio(tx, ty, tm);
    LerpCompose(a, b, tx, tm, u);
    LerpOn(x, m, u);
    OnEnds(x, z);
    OnTrans(x, z, x, m, y);
    forall w | On(x, y, w) && On(a, b, w) ensures w == y {
      var tw := OnParam(a, b, w);
      var s := OnParam(x, y, w);
      LerpCompose(a, b, tx, ty, s);
      LerpInjective(a, b, tw, Along(tx, ty, s));
      LerpBetween(tx, ty, s);
    }
  }

  /** The first point of x-z on any of the edges: nothing before it is on one. */
  lemma {:induction false} FirstHit(x: Pt, z: Pt, es: seq<Edge>) returns (y: Pt)
    requires exists i :: 0 <= i < |es| && Meet(x, z, es[i].a, es[i].b)
    ensures On(x, z, y) && OnAny(es, y)
    ensures forall w :: On(x, y, w) && OnAny(es, w) ==> w == y
  {
    var n := |es| - 1;
    var e, rest := es[n], es[..n];
    OnEnds(x, z);
    if exists i :: 0 <= i < n && Meet(x, z, rest[i].a, rest[i].b) {
      y := FirstHit(x, z, rest);
      if Meet(x, y, e.a, e.b) {
        var m :| On(x, y, m) && On(e.a, e.b, m);
        var v := FirstOnEdge(x, y, e, m);
        OnTrans(x, z, x, y, v);
        forall w | On(x, v, w) && OnAny(es, w) ensures w == v {
          OnEnds(x, y);
          OnTrans(x, y, x, v, w);
          var k :| 0 <= k < |es| && OnEdge(es[k], w);
          if k < n {
            assert OnEdge(rest[k], w);
            assert w == y;
            BackAndForth(x, v, y);
          }
        }
        assert OnEdge(es[n], v);
        y := v;
      } else {
        var k :| 0 <= k < n && OnEdge(rest[k], y);
        assert OnEdge(es[k], y);
        forall w | On(x, y, w) && OnAny(es, w) ensures w == y {
          var k :| 0 <= k < |es| && OnEdge(es[k], w);
          assert k < n && OnEdge(rest[k], w);
        }
      }
    } else {
      assert forall i :: 0 <= i < n ==> rest[i] == es[i];
      assert Meet(x, z, e.a, e.b);
      var m :| On(x, z, m) && On(e.a, e.b, m);
      y := FirstOnEdge(x, z, e, m);
      assert OnEdge(es[n], y);
      forall w | On(x, y, w) && OnAny(es, w) ensures w == y {
        var k :| 0 <= k < |es| && OnEdge(es[k], w);
        if k < n {
          OnTrans(x, z, x, y, w);
          MeetAt(x, z, es[k], w);
        }
      }
    }
  }

  lemma MeetAt(x: Pt, z: Pt, e: Edge, w: Pt)
    requires On(x, z, w) && OnEdge(e, w)
    ensures Meet(x, z, e.a, e.b)
  {
  }

  /** Two points each no farther along than the other are the same. */
  lemma BackAndForth(x: Pt, v: Pt, y: Pt)
    requires On(x, v, y) && On(x, y, v)
    ensures v == y
  {
  }
}
