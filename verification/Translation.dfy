/** Moving both shapes by the same vector, within the 32-bit range, changes no gap. */
module Translation {
  import opened Basics
  import opened Plane
  import opened EvenOdd
  import opened Rings
  import opened Kernel
  import opened Distance
  import opened Shapes

  function MovePt(p: Pt, dx: real, dy: real): Pt {
    Pt(p.x + dx, p.y + dy)
  }

  function MoveEdge(e: Edge, dx: real, dy: real): Edge {
    Edge(MovePt(e.a, dx, dy), MovePt(e.b, dx, dy))
  }

  function MoveEdges(es: seq<Edge>, dx: real, dy: real): (r: seq<Edge>)
    ensures |r| == |es|
  {
    seq(|es|, i requires 0 <= i < |es| => MoveEdge(es[i], dx, dy))
  }

  lemma OrientMoves(a: Pt, b: Pt, c: Pt, dx: real, dy: real)
    ensures Orient(MovePt(a, dx, dy), MovePt(b, dx, dy), MovePt(c, dx, dy)) == Orient(a, b, c)
  {
    var a', b', c' := MovePt(a, dx, dy), MovePt(b, dx, dy), MovePt(c, dx, dy);
    assert b'.x - a'.x == b.x - a.x && b'.y - a'.y == b.y - a.y;
    assert c'.x - a'.x == c.x - a.x && c'.y - a'.y == c.y - a.y;
  }

  lemma EdgeMoves(e: Edge, x: Pt, dx: real, dy: real)
    ensures Crosses(MovePt(x, dx, dy), MoveEdge(e, dx, dy)) == Crosses(x, e)
    ensures OnEdge(MoveEdge(e, dx, dy), MovePt(x, dx, dy)) == OnEdge(e, x)
  {
    OrientMoves(e.a, e.b, x, dx, dy);
    hide Orient;
  }

  lemma {:induction false} OddMoves(es: seq<Edge>, x: Pt, dx: real, dy: real)
    ensures Odd(MoveEdges(es, dx, dy), Crossing(MovePt(x, dx, dy))) == Odd(es, Crossing(x))
  {
    if es != [] {
      var n := |es| - 1;
      assert MoveEdges(es, dx, dy)[..n] == MoveEdges(es[..n], dx, dy);
      OddMoves(es[..n], x, dx, dy);
      EdgeMoves(es[n], x, dx, dy);
    }
  }

  lemma ContainMoves(es: seq<Edge>, x: Pt, dx: real, dy: real)
    ensures Contain(MovePt(x, dx, dy), MoveEdges(es, dx, dy)) == Contain(x, es)
  {
    OddMoves(es, x, dx, dy);
    var ms, y := MoveEdges(es, dx, dy), MovePt(x, dx, dy);
    forall i | 0 <= i < |es| ensures OnEdge(ms[i], y) == OnEdge(es[i], x) {
      EdgeMoves(es[i], x, dx, dy);
    }
    hide OnEdge, Crosses;
    if OnAny(es, x) {
      var i :| 0 <= i < |es| && OnEdge(es[i], x);
      assert OnEdge(ms[i], y);
    }
    if OnAny(ms, y) {
      var i :| 0 <= i < |ms| && OnEdge(ms[i], y);
      assert OnEdge(es[i], x);
    }
  }

  // ----- Integer shapes

  predicate InRange(v: int) {
    MIN32 <= v <= MAX32
  }

  predicate Movable(p: Point, dx: int, dy: int) {
    InRange(p.x + dx) && InRange(p.y + dy)
  }

  function Move(p: Point, dx: int, dy: int): Point
    requires Movable(p, dx, dy)
  {
    Point(p.x + dx, p.y + dy)
  }

  predicate RingMovable(ring: Ring, dx: int, dy: int) {
    forall i :: 0 <= i < |ring| ==> Movable(ring[i], dx, dy)
  }

  function MoveRing(ring: Ring, dx: int, dy: int): (r: Ring)
    requires RingMovable(ring, dx, dy)
    ensures |r| == |ring|
  {
    seq(|ring|, i requires 0 <= i < |ring| => Move(ring[i], dx, dy))
  }

  predicate RingsMovable(rings: seq<Ring>, dx: int, dy: int) {
    forall i :: 0 <= i < |rings| ==> RingMovable(rings[i], dx, dy)
  }

  function MoveRings(rings: seq<Ring>, dx: int, dy: int): (r: seq<Ring>)
    requires RingsMovable(rings, dx, dy)
    ensures |r| == |rings|
  {
    seq(|rings|, i requires 0 <= i < |rings| => MoveRing(rings[i], dx, dy))
  }

  predicate ShapeMovable(s: Shape, dx: int, dy: int) {
    match s
    case Segment(a, b, _) => Movable(a, dx, dy) && Movable(b, dx, dy)
    case Circle(c, _) => Movable(c, dx, dy)
    case ConvexPoly(pts, _) => RingMovable(pts, dx, dy)
    case Polygon(outline, holes) => RingMovable(outline, dx, dy) && RingsMovable(holes, dx, dy)
  }

  function MoveShape(s: Shape, dx: int, dy: int): Shape
    requires ShapeMovable(s, dx, dy)
  {
    match s
    case Segment(a, b, w) => Segment(Move(a, dx, dy), Move(b, dx, dy), w)
    case Circle(c, r) => Circle(Move(c, dx, dy), r)
    case ConvexPoly(pts, r) => ConvexPoly(MoveRing(pts, dx, dy), r)
    case Polygon(outline, holes) => Polygon(MoveRing(outline, dx, dy), MoveRings(holes, dx, dy))
  }

  lemma RealMoves(p: Point, dx: int, dy: int)
    requires Movable(p, dx, dy)
    ensures Real(Dbl(Move(p, dx, dy))) == MovePt(Real(Dbl(p)), 2.0 * dx as real, 2.0 * dy as real)
  {
  }

  lemma {:induction false} RegionMoves(rings: seq<Ring>, dx: int, dy: int)
    requires RingsMovable(rings, dx, dy)
    ensures Region(MoveRings(rings, dx, dy)) == MoveEdges(Region(rings), 2.0 * dx as real, 2.0 * dy as real)
  {
    var u, v := 2.0 * dx as real, 2.0 * dy as real;
    if rings != [] {
      var ms := MoveRings(rings, dx, dy);
      var rr, mr := RealRings(rings), RealRings(ms);
      assert ms[1..] == MoveRings(rings[1..], dx, dy);
      assert mr[1..] == RealRings(ms[1..]) && rr[1..] == RealRings(rings[1..]);
      RegionMoves(rings[1..], dx, dy);
      RingEdgesMove(rings[0], dx, dy);
      assert mr[0] == Vertices(MoveRing(rings[0], dx, dy));
      hide RingEdges, Vertices, MoveRing, MoveEdge;
      assert MoveEdges(RingEdges(rr[0]) + Edges(rr[1..]), u, v) ==
             MoveEdges(RingEdges(rr[0]), u, v) + MoveEdges(Edges(rr[1..]), u, v);
    }
  }

  lemma RingEdgesMove(ring: Ring, dx: int, dy: int)
    requires RingMovable(ring, dx, dy)
    ensures RingEdges(Vertices(MoveRing(ring, dx, dy))) ==
            MoveEdges(RingEdges(Vertices(ring)), 2.0 * dx as real, 2.0 * dy as real)
  {
    var l := RingEdges(Vertices(MoveRing(ring, dx, dy)));
    var r := MoveEdges(RingEdges(Vertices(ring)), 2.0 * dx as real, 2.0 * dy as real);
    forall i | 0 <= i < |ring| ensures l[i] == r[i] {
      RealMoves(ring[i], dx, dy);
      RealMoves(ring[Next(i, |ring|)], dx, dy);
    }
  }

  /** The moved core holds exactly the moved points. */
  lemma CoreMoves(s: Shape, dx: int, dy: int, x: Pt)
    requires ShapeMovable(s, dx, dy)
    ensures In(CoreOf(MoveShape(s, dx, dy)), MovePt(x, 2.0 * dx as real, 2.0 * dy as real)) <==> In(CoreOf(s), x)
  {
    var u, v := 2.0 * dx as real, 2.0 * dy as real;
    match s
    case Segment(a, b, _) =>
      RealMoves(a, dx, dy);
      RealMoves(b, dx, dy);
      EdgeMoves(Edge(Real(Dbl(a)), Real(Dbl(b))), x, u, v);
    case Circle(c, _) =>
      RealMoves(c, dx, dy);
    case ConvexPoly(pts, _) =>
      assert [MoveRing(pts, dx, dy)] == MoveRings([pts], dx, dy);
      RegionMoves([pts], dx, dy);
      ContainMoves(Region([pts]), x, u, v);
    case Polygon(outline, holes) =>
      var rings := [outline] + holes;
      assert [MoveRing(outline, dx, dy)] + MoveRings(holes, dx, dy) == MoveRings(rings, dx, dy);
      RegionMoves(rings, dx, dy);
      ContainMoves(Region(rings), x, u, v);
  }

  lemma Dist2Moves(x: Pt, y: Pt, dx: real, dy: real)
    ensures Dist2(MovePt(x, dx, dy), MovePt(y, dx, dy)) == Dist2(x, y)
  {
    var x', y' := MovePt(x, dx, dy), MovePt(y, dx, dy);
    assert y'.x - x'.x == y.x - x.x && y'.y - x'.y == y.y - x.y;
  }

  lemma NearMoves(a: Shape, b: Shape, dx: int, dy: int, t2: real, strict: bool)
    requires ShapeMovable(a, dx, dy) && ShapeMovable(b, dx, dy)
    ensures Near(CoreOf(MoveShape(a, dx, dy)), CoreOf(MoveShape(b, dx, dy)), t2, strict) <==>
            Near(CoreOf(a), CoreOf(b), t2, strict)
  {
    var u, v := 2.0 * dx as real, 2.0 * dy as real;
    var ca, cb := CoreOf(a), CoreOf(b);
    var ma, mb := CoreOf(MoveShape(a, dx, dy)), CoreOf(MoveShape(b, dx, dy));
    hide In, Near, Dist2, CoreOf, MoveShape;
    if Near(ca, cb, t2, strict) {
      var x, y := NearPair(ca, cb, t2, strict);
      CoreMoves(a, dx, dy, x);
      CoreMoves(b, dx, dy, y);
      Dist2Moves(x, y, u, v);
      NearWitness(ma, mb, t2, strict, MovePt(x, u, v), MovePt(y, u, v));
    }
    if Near(ma, mb, t2, strict) {
      var x, y := NearPair(ma, mb, t2, strict);
      var x0, y0 := MovePt(x, -u, -v), MovePt(y, -u, -v);
      assert MovePt(x0, u, v) == x && MovePt(y0, u, v) == y;
      CoreMoves(a, dx, dy, x0);
      CoreMoves(b, dx, dy, y0);
      Dist2Moves(x0, y0, u, v);
      NearWitness(ca, cb, t2, strict, x0, y0);
    }
  }

  lemma DistanceMoves(a: Shape, b: Shape, dx: int, dy: int, t: int)
    requires ShapeMovable(a, dx, dy) && ShapeMovable(b, dx, dy)
    ensures DistanceCmp(CoreOf(MoveShape(a, dx, dy)), CoreOf(MoveShape(b, dx, dy)), t) ==
            DistanceCmp(CoreOf(a), CoreOf(b), t)
  {
    NearMoves(a, b, dx, dy, (t * t) as real, true);
    NearMoves(a, b, dx, dy, (t * t) as real, false);
    hide CoreOf, MoveShape, Closer, Reaches;
  }

  lemma GapMoves(a: Shape, b: Shape, dx: int, dy: int, clearance: int)
    requires ShapeMovable(a, dx, dy) && ShapeMovable(b, dx, dy)
    ensures Gap(MoveShape(a, dx, dy), MoveShape(b, dx, dy), clearance) == Gap(a, b, clearance)
  {
    hide CoreOf, MoveShape, Sweep2, DistanceCmp, ShapeMovable;
    SweepMoves(a, dx, dy);
    SweepMoves(b, dx, dy);
    DistanceMoves(a, b, dx, dy, 2 * clearance + Sweep2(a) + Sweep2(b));
  }

  lemma SweepMoves(s: Shape, dx: int, dy: int)
    requires ShapeMovable(s, dx, dy)
    ensures Sweep2(MoveShape(s, dx, dy)) == Sweep2(s)
  {
  }
}
