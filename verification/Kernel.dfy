/** The doubled-coordinate integer kernel: orientation, intersection, containment and the
    comparison of a point-to-segment distance with a threshold, each exact against the real
    plane for every 32-bit input. */
module Kernel {
  import opened Basics
  import opened Plane
  import opened EvenOdd
  import opened Touching
  import opened Nearest
  import opened Rings
  import opened WideMul

  /** `i32` nanometres, and twice that. */
  type Coord = v: int | -0x8000_0000 <= v <= 0x7fff_ffff

  type Coord2 = v: int | -0x1_0000_0000 <= v <= 0xffff_fffe

  datatype Point = Point(x: Coord, y: Coord)

  datatype P2 = P2(x: Coord2, y: Coord2)

  datatype Edge2 = Edge2(a: P2, b: P2)

  type Ring = seq<Point>

  function Dbl(p: Point): P2 {
    P2(2 * p.x, 2 * p.y)
  }

  /** Rust's `/ 2`, which truncates toward zero. */
  function HalfTrunc(v: int): int {
    if v >= 0 then v / 2 else -(-v / 2)
  }

  function Undbl(p: P2): Point {
    Point(HalfTrunc(p.x), HalfTrunc(p.y))
  }

  lemma UndblDbl(p: Point)
    ensures Undbl(Dbl(p)) == p
  {
  }

  function Real(p: P2): Pt {
    Pt(p.x as real, p.y as real)
  }

  function RealEdge(e: Edge2): Edge {
    Edge(Real(e.a), Real(e.b))
  }

  function RealEdges(es: seq<Edge2>): (r: seq<Edge>)
    ensures |r| == |es|
  {
    seq(|es|, i requires 0 <= i < |es| => RealEdge(es[i]))
  }

  function RingEdges2(ring: Ring): (es: seq<Edge2>)
    ensures |es| == |ring|
  {
    seq(|ring|, i requires 0 <= i < |ring| => Edge2(Dbl(ring[i]), Dbl(ring[Next(i, |ring|)])))
  }

  /** Every edge of every ring, in doubled coordinates. */
  function Edges2(rings: seq<Ring>): seq<Edge2> {
    if rings == [] then [] else RingEdges2(rings[0]) + Edges2(rings[1..])
  }

  function Vertices(ring: Ring): (r: RealRing)
    ensures |r| == |ring|
  {
    seq(|ring|, i requires 0 <= i < |ring| => Real(Dbl(ring[i])))
  }

  function RealRings(rings: seq<Ring>): (r: seq<RealRing>)
    ensures |r| == |rings|
  {
    seq(|rings|, i requires 0 <= i < |rings| => Vertices(rings[i]))
  }

  /** The real edges that bound the region of some rings. */
  function Region(rings: seq<Ring>): seq<Edge> {
    Edges(RealRings(rings))
  }

  lemma RingEdgesAgree(ring: Ring)
    ensures RealEdges(RingEdges2(ring)) == RingEdges(Vertices(ring))
  {
    var l, r := RealEdges(RingEdges2(ring)), RingEdges(Vertices(ring));
    forall i | 0 <= i < |ring| ensures l[i] == r[i] {
      assert l[i] == RealEdge(RingEdges2(ring)[i]);
      assert r[i] == RingEdge(Vertices(ring), i);
    }
  }

  lemma {:induction false} EdgesAgree(rings: seq<Ring>)
    ensures RealEdges(Edges2(rings)) == Region(rings)
  {
    if rings != [] {
      var rr := RealRings(rings);
      RingEdgesAgree(rings[0]);
      EdgesAgree(rings[1..]);
      assert rr[1..] == RealRings(rings[1..]);
      assert RealEdges(Edges2(rings)) == RealEdges(RingEdges2(rings[0])) + RealEdges(Edges2(rings[1..]));
    }
  }

  lemma RegionClosed(rings: seq<Ring>)
    ensures Closed(Region(rings))
  {
    RingsClosed(RealRings(rings));
  }

  // ----- Orientation and boxes

  function Orient2(a: P2, b: P2, c: P2): int {
    (b.x - a.x) * (c.y - a.y) - (b.y - a.y) * (c.x - a.x)
  }

  lemma OrientReal(a: P2, b: P2, c: P2)
    ensures Orient(Real(a), Real(b), Real(c)) == Orient2(a, b, c) as real
  {
  }

  function Min(u: int, v: int): int {
    if u <= v then u else v
  }

  function Max(u: int, v: int): int {
    if u <= v then v else u
  }

  predicate WithinBox(a: P2, b: P2, p: P2) {
    Min(a.x, b.x) <= p.x <= Max(a.x, b.x) && Min(a.y, b.y) <= p.y <= Max(a.y, b.y)
  }

  predicate OnSegment2(a: P2, b: P2, p: P2) {
    Orient2(a, b, p) == 0 && WithinBox(a, b, p)
  }

  lemma OnReal(a: P2, b: P2, p: P2)
    ensures OnSegment2(a, b, p) <==> On(Real(a), Real(b), Real(p))
  {
    OrientReal(a, b, p);
  }

  function Signum(v: int): int {
    if v > 0 then 1 else if v < 0 then -1 else 0
  }

  /** Whether two segments cross at one interior point of both. */
  predicate CrossesProperly2(a: P2, b: P2, c: P2, d: P2) {
    && Signum(Orient2(c, d, a)) * Signum(Orient2(c, d, b)) < 0
    && Signum(Orient2(a, b, c)) * Signum(Orient2(a, b, d)) < 0
  }

  lemma CrossesProperlyReal(a: P2, b: P2, c: P2, d: P2)
    ensures CrossesProperly2(a, b, c, d) <==> ProperCross(Real(a), Real(b), Real(c), Real(d))
  {
    OrientReal(c, d, a);
    OrientReal(c, d, b);
    OrientReal(a, b, c);
    OrientReal(a, b, d);
  }

  /** Whether two closed segments share at least one point. */
  predicate SegIntersect(a: P2, b: P2, c: P2, d: P2) {
    || CrossesProperly2(a, b, c, d)
    || OnSegment2(c, d, a)
    || OnSegment2(c, d, b)
    || OnSegment2(a, b, c)
    || OnSegment2(a, b, d)
  }

  lemma SegIntersectExact(a: P2, b: P2, c: P2, d: P2)
    ensures SegIntersect(a, b, c, d) <==> Meet(Real(a), Real(b), Real(c), Real(d))
  {
    CrossesProperlyReal(a, b, c, d);
    OnReal(c, d, a);
    OnReal(c, d, b);
    OnReal(a, b, c);
    OnReal(a, b, d);
    TouchIffMeet(Real(a), Real(b), Real(c), Real(d));
  }

  // ----- Containment

  predicate Crosses2(p: P2, e: Edge2) {
    && (e.a.y > p.y) != (e.b.y > p.y)
    && (if e.b.y > e.a.y then Orient2(e.a, e.b, p) > 0 else Orient2(e.a, e.b, p) < 0)
  }

  lemma CrossesReal(p: P2, e: Edge2)
    ensures Crosses2(p, e) <==> Crosses(Real(p), RealEdge(e))
  {
    OrientReal(e.a, e.b, p);
  }

  lemma ContainStep(p: P2, es: seq<Edge2>, i: nat)
    requires i < |es|
    ensures OnEdge(RealEdges(es)[i], Real(p)) <==> OnSegment2(es[i].a, es[i].b, p)
    ensures Odd(RealEdges(es)[..i + 1], Crossing(Real(p))) ==
            (Odd(RealEdges(es)[..i], Crossing(Real(p))) != Crosses2(p, es[i]))
  {
    var rs := RealEdges(es);
    assert rs[i] == RealEdge(es[i]);
    assert rs[..i + 1][..i] == rs[..i];
    OnReal(es[i].a, es[i].b, p);
    CrossesReal(p, es[i]);
  }

  /** The crossing-number loop over some edges. */
  method ScanEdges(q: P2, picks: seq<Edge2>) returns (c: Containment)
    ensures c == Contain(Real(q), RealEdges(picks))
  {
    ghost var es, x := RealEdges(picks), Real(q);
    hide OnEdge, Crosses, RealEdges, Orient2;
    var inside := false;
    for k := 0 to |picks|
      invariant forall j :: 0 <= j < k ==> !OnEdge(es[j], x)
      invariant inside == Odd(es[..k], Crossing(x))
    {
      ContainStep(q, picks, k);
      var a, b := picks[k].a, picks[k].b;
      var o := Orient2(a, b, q);
      if o == 0 && WithinBox(a, b, q) {
        return Boundary;
      }
      if (a.y > q.y) != (b.y > q.y) {
        var left := if b.y > a.y then o > 0 else o < 0;
        if left {
          inside := !inside;
        }
      }
    }
    assert es[..|picks|] == es;
    c := if inside then Inside else Outside;
  }

  /** Crossing-number containment over all rings: the even-odd answer of the real region. */
  method PointInRings(p: P2, rings: seq<Ring>) returns (c: Containment)
    ensures c == Contain(Real(p), Region(rings))
  {
    EdgesAgree(rings);
    c := ScanEdges(p, Edges2(rings));
  }

  // ----- Distances

  const T_CAP: int := 0x100_0000_0000

  function DistSquared(a: P2, b: P2): int {
    (b.x - a.x) * (b.x - a.x) + (b.y - a.y) * (b.y - a.y)
  }

  function CmpDist2(d2: int, t: int): Ordering {
    if t >= T_CAP then Less else CmpInt(d2, t * t)
  }

  function DotAt(a: P2, b: P2, p: P2): int {
    (p.x - a.x) * (b.x - a.x) + (p.y - a.y) * (b.y - a.y)
  }

  function Abs(v: int): nat {
    if v < 0 then -v else v
  }

  lemma AbsProduct(u: int, v: int, m: nat)
    requires Abs(u) <= m && Abs(v) <= m
    ensures Abs(u * v) <= m * m
  {
    ProductBound(Abs(u), Abs(v), m, m);
    assert Abs(u * v) == Abs(u) * Abs(v);
  }

  /** Differences fit 64 bits, dot and cross products and squared lengths fit 128 bits, and so
      does the squared threshold below the cap. */
  lemma KernelFits(a: P2, b: P2, p: P2, t: int)
    requires 0 <= t
    ensures Abs(b.x - a.x) < 0x2_0000_0000 && Abs(b.y - a.y) < 0x2_0000_0000
    ensures 0 <= DistSquared(a, b) < 0x8_0000_0000_0000_0000
    ensures Abs(DotAt(a, b, p)) < 0x8_0000_0000_0000_0000
    ensures Abs(Orient2(a, b, p)) < 0x8_0000_0000_0000_0000
    ensures t < T_CAP ==> 0 <= t * t < 0x1_0000_0000_0000_0000_0000
    ensures t >= T_CAP ==> 0x1_0000_0000_0000_0000_0000 <= t * t
  {
    var m := 0x1_ffff_fffe;
    AbsProduct(b.x - a.x, b.x - a.x, m);
    AbsProduct(b.y - a.y, b.y - a.y, m);
    AbsProduct(p.x - a.x, b.x - a.x, m);
    AbsProduct(p.y - a.y, b.y - a.y, m);
    AbsProduct(b.x - a.x, p.y - a.y, m);
    AbsProduct(b.y - a.y, p.x - a.x, m);
    SquareNonneg(b.x - a.x);
    SquareNonneg(b.y - a.y);
    if t < T_CAP {
      ProductBound(t, t, T_CAP - 1, T_CAP - 1);
    } else {
      ProductBound(T_CAP, T_CAP, t, t);
    }
  }

  lemma SquareNonneg(u: int)
    ensures 0 <= u * u
  {
  }

  /** The distance from p to the segment a-b against the doubled threshold. */
  function PointSegCmp(p: P2, a: P2, b: P2, t: int): Ordering
    requires 0 <= t
  {
    if t >= T_CAP then Less else
    var l2 := DistSquared(a, b);
    var dot := DotAt(a, b, p);
    if l2 == 0 || dot <= 0 then CmpDist2(DistSquared(a, p), t)
    else if dot >= l2 then CmpDist2(DistSquared(b, p), t)
    else
      KernelFits(a, b, p, t);
      var cross := Abs(Orient2(a, b, p)) as u128;
      CmpProducts(cross, cross, (t * t) as u128, l2 as u128)
  }

  function CmpReal(x: real, y: real): Ordering {
    if x < y then Less else if x == y then Equal else Greater
  }

  lemma DistReal(a: P2, b: P2)
    ensures Dist2(Real(a), Real(b)) == DistSquared(a, b) as real
  {
  }

  lemma DotReal(a: P2, b: P2, p: P2)
    ensures Dot(Real(a), Real(b), Real(p)) == DotAt(a, b, p) as real
  {
  }

  /** Comparing quotients through a common positive denominator. */
  lemma CmpScaled(d: real, l: real, o2: real, t: real)
    requires 0.0 < l && d * l == o2
    ensures CmpReal(d, t) == CmpReal(o2, Mul(t, l))
  {
    SignOfProduct(l, t - d);
    assert Mul(l, t - d) == Mul(t, l) - o2;
  }

  /** The comparison is that of the squared distance to the nearest real point. */
  lemma PointSegExact(p: P2, a: P2, b: P2, t: int)
    requires 0 <= t
    ensures PointSegCmp(p, a, b, t) ==
            CmpReal(Dist2(Real(p), Foot(Real(a), Real(b), Real(p))), (t * t) as real)
  {
    var ra, rb, rp := Real(a), Real(b), Real(p);
    KernelFits(a, b, p, t);
    KernelFits(a, p, p, t);
    DistReal(a, b);
    DotReal(a, b, p);
    DistReal(a, p);
    DistReal(b, p);
    Dist2Nonneg(ra, rp);
    Dist2Nonneg(rb, rp);
    if t >= T_CAP {
      OnEnds(ra, rb);
      FootNearest(ra, rb, rp, ra);
    } else {
      var l2, dot := DistSquared(a, b), DotAt(a, b, p);
      if l2 != 0 && 0 < dot < l2 {
        FootDistance(ra, rb, rp);
        OrientReal(a, b, p);
        PointSegInside(p, a, b, t);
      }
    }
  }

  /** Inside the segment the code compares cross squared with t squared times length squared. */
  lemma PointSegProducts(p: P2, a: P2, b: P2, t: int)
    requires 0 <= t < T_CAP && DistSquared(a, b) != 0 && 0 < DotAt(a, b, p) < DistSquared(a, b)
    ensures PointSegCmp(p, a, b, t) ==
            CmpInt(Orient2(a, b, p) * Orient2(a, b, p), (t * t) * DistSquared(a, b))
  {
    KernelFits(a, b, p, t);
    hide Orient2, DistSquared, DotAt, MulWide;
    var o := Orient2(a, b, p);
    assert Abs(o) * Abs(o) == o * o;
  }

  lemma CmpIntReal(x: int, y: int)
    ensures CmpInt(x, y) == CmpReal(x as real, y as real)
  {
  }

  lemma PointSegInside(p: P2, a: P2, b: P2, t: int)
    requires 0 <= t < T_CAP && DistSquared(a, b) != 0 && 0 < DotAt(a, b, p) < DistSquared(a, b)
    ensures PointSegCmp(p, a, b, t) ==
            CmpReal(Dist2(Real(p), Foot(Real(a), Real(b), Real(p))), (t * t) as real)
  {
    hide *;
    var ra, rb, rp := Real(a), Real(b), Real(p);
    DistReal(a, b);
    DotReal(a, b, p);
    LenIsDist(ra, rb);
    FootDistance(ra, rb, rp);
    OrientReal(a, b, p);
    PointSegProducts(p, a, b, t);
    var o, l2, tt := Orient2(a, b, p), DistSquared(a, b), t * t;
    CmpIntReal(o * o, tt * l2);
    KernelFits(a, b, p, t);
    ScaleThreshold(tt, l2);
    SquareReal(o);
    CmpScaled(Dist2(rp, Foot(ra, rb, rp)), l2 as real, (o * o) as real, tt as real);
  }

  lemma LenIsDist(a: Pt, b: Pt)
    ensures Len2(a, b) == Dist2(a, b)
  {
  }

  lemma ScaleThreshold(tt: int, l2: int)
    ensures (tt * l2) as real == Mul(tt as real, l2 as real)
  {
  }

  lemma SquareReal(o: int)
    ensures (o * o) as real == o as real * o as real
  {
  }
}
