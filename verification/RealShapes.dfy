/** The shapes of a board as sets of real points in nanometres, and the gap comparison as a statement about the points
    of two shapes: none of the kernel's doubled coordinates or summed sweeps enters it. */
module RealShapes {
  import opened Plane
  import opened EvenOdd
  import opened Nearest
  import opened Rings
  import opened Regions
  import opened WideMul
  import opened Kernel
  import opened Distance
  import opened Shapes

  // ----- The points of a shape

  function At(p: Point): Pt {
    Pt(p.x as real, p.y as real)
  }

  function RingAt(ring: Ring): (r: RealRing)
    ensures |r| == |ring|
  {
    seq(|ring|, i requires 0 <= i < |ring| => At(ring[i]))
  }

  function RingsAt(rings: seq<Ring>): (r: seq<RealRing>)
    ensures |r| == |rings|
  {
    seq(|rings|, i requires 0 <= i < |rings| => RingAt(rings[i]))
  }

  /** z is in the even-odd region of the rings. */
  ghost predicate InRings(rings: seq<Ring>, z: Pt) {
    InRegion(Edges(RingsAt(rings)), z)
  }

  /** A track is what lies within half its width of its segment, a disc what lies within its radius of its centre, a
      rounded pad what lies within its rounding of its polygon, and a polygon its region. */
  ghost predicate InShape(s: Shape, z: Pt) {
    match s
    case Segment(a, b, w) => exists y :: On(At(a), At(b), y) && Dist2(y, z) <= Sq(w as real / 2.0)
    case Circle(c, r) => Dist2(At(c), z) <= Sq(r as real)
    case ConvexPoly(pts, r) => exists y :: InRings([pts], y) && Dist2(y, z) <= Sq(r as real)
    case Polygon(outline, holes) => InRings([outline] + holes, z)
  }

  /** Some point of a and some point of b are at most the distance apart; or less than it. */
  ghost predicate SomeWithin(a: Shape, b: Shape, distance: real, strict: bool) {
    exists z, w :: InShape(a, z) && InShape(b, w) && Below(Dist2(z, w), Sq(distance), strict)
  }

  predicate Below(u: real, v: real, strict: bool) {
    if strict then u < v else u <= v
  }

  // ----- Doubling

  function Double(p: Pt): Pt {
    Pt(2.0 * p.x, 2.0 * p.y)
  }

  function Half(p: Pt): (r: Pt)
    ensures Double(r) == p
  {
    Pt(p.x / 2.0, p.y / 2.0)
  }

  function DoubleEdge(e: Edge): Edge {
    Edge(Double(e.a), Double(e.b))
  }

  lemma OrientDoubles(a: Pt, b: Pt, c: Pt)
    ensures Orient(Double(a), Double(b), Double(c)) == 4.0 * Orient(a, b, c)
  {
    assert 2.0 * b.x - 2.0 * a.x == 2.0 * (b.x - a.x) && 2.0 * b.y - 2.0 * a.y == 2.0 * (b.y - a.y);
    assert 2.0 * c.x - 2.0 * a.x == 2.0 * (c.x - a.x) && 2.0 * c.y - 2.0 * a.y == 2.0 * (c.y - a.y);
  }

  lemma EdgeDoubles(e: Edge, x: Pt)
    ensures Crosses(Double(x), DoubleEdge(e)) == Crosses(x, e)
    ensures OnEdge(DoubleEdge(e), Double(x)) == OnEdge(e, x)
  {
    OrientDoubles(e.a, e.b, x);
    hide Orient;
  }

  lemma Dist2Doubles(x: Pt, y: Pt)
    ensures Dist2(Double(x), Double(y)) == 4.0 * Dist2(x, y)
  {
    SqDoubles(y.x - x.x);
    SqDoubles(y.y - x.y);
    assert 2.0 * y.x - 2.0 * x.x == 2.0 * (y.x - x.x) && 2.0 * y.y - 2.0 * x.y == 2.0 * (y.y - x.y);
    hide Sq;
  }

  lemma SqDoubles(u: real)
    ensures Sq(2.0 * u) == 4.0 * Sq(u)
  {
  }

  ghost predicate EdgesDouble(es: seq<Edge>, ds: seq<Edge>) {
    |es| == |ds| && forall i :: 0 <= i < |es| ==> ds[i] == DoubleEdge(es[i])
  }

  lemma ContainDoubles(es: seq<Edge>, ds: seq<Edge>, x: Pt)
    requires EdgesDouble(es, ds)
    ensures Contain(Double(x), ds) == Contain(x, es)
  {
    forall i | 0 <= i < |es|
      ensures Crossing(Double(x))(ds[i]) == Crossing(x)(es[i]) && OnEdge(ds[i], Double(x)) == OnEdge(es[i], x)
    {
      EdgeDoubles(es[i], x);
    }
    OddSame(ds, Crossing(Double(x)), es, Crossing(x));
    hide OnEdge, Crossing, Odd;
    if OnAny(es, x) {
      var i :| 0 <= i < |es| && OnEdge(es[i], x);
      assert OnEdge(ds[i], Double(x));
    }
    if OnAny(ds, Double(x)) {
      var i :| 0 <= i < |ds| && OnEdge(ds[i], Double(x));
      assert OnEdge(es[i], x);
    }
  }

  lemma RingDoubles(ring: Ring)
    ensures EdgesDouble(RingEdges(RingAt(ring)), RingEdges(Vertices(ring)))
  {
    var es, ds := RingEdges(RingAt(ring)), RingEdges(Vertices(ring));
    forall i | 0 <= i < |ring| ensures ds[i] == DoubleEdge(es[i]) {
      assert es[i] == RingEdge(RingAt(ring), i) && ds[i] == RingEdge(Vertices(ring), i);
    }
  }

  lemma {:induction false} RegionDoubles(rings: seq<Ring>)
    ensures EdgesDouble(Edges(RingsAt(rings)), Region(rings))
  {
    if rings != [] {
      var n, r := RingsAt(rings), RealRings(rings);
      assert n[1..] == RingsAt(rings[1..]) && r[1..] == RealRings(rings[1..]);
      RegionDoubles(rings[1..]);
      RingDoubles(rings[0]);
    }
  }

  /** The radius a shape is swept by. */
  function Radius(s: Shape): real {
    match s
    case Segment(_, _, w) => w as real / 2.0
    case Circle(_, r) => r as real
    case ConvexPoly(_, r) => r as real
    case Polygon(_, _) => 0.0
  }

  /** The points a shape is swept around. */
  ghost predicate OnSpine(s: Shape, y: Pt) {
    match s
    case Segment(a, b, _) => On(At(a), At(b), y)
    case Circle(c, _) => y == At(c)
    case ConvexPoly(pts, _) => InRings([pts], y)
    case Polygon(outline, holes) => InRings([outline] + holes, y)
  }

  lemma InCoreDoubles(s: Shape, y: Pt)
    ensures In(CoreOf(s), Double(y)) <==> OnSpine(s, y)
  {
    match s
    case Segment(a, b, _) => EdgeDoubles(Edge(At(a), At(b)), y);
    case Circle(_, _) =>
    case ConvexPoly(pts, _) =>
      RegionDoubles([pts]);
      ContainDoubles(Edges(RingsAt([pts])), Region([pts]), y);
    case Polygon(outline, holes) =>
      RegionDoubles([outline] + holes);
      ContainDoubles(Edges(RingsAt([outline] + holes)), Region([outline] + holes), y);
  }

  /** The points of a shape are those within its radius of its core. */
  lemma ShapeIsSwept(s: Shape, z: Pt)
    ensures InShape(s, z) <==> exists y :: In(CoreOf(s), Double(y)) && Dist2(y, z) <= Sq(Radius(s))
  {
    forall y ensures In(CoreOf(s), Double(y)) <==> OnSpine(s, y) {
      InCoreDoubles(s, y);
    }
    hide In, On, InRings, CoreOf, Dist2;
    if s.Polygon? {
      Dist2Nonneg(z, z);
      forall y ensures Dist2(y, z) <= Sq(0.0) <==> y == z {
        Dist2Nonneg(y, z);
      }
    }
  }

  // ----- Sums of distances

  /** The length of a sum is at most the sum of lengths, in squares. */
  lemma SumBound(ux: real, uy: real, vx: real, vy: real, p: real, q: real)
    requires 0.0 <= p && 0.0 <= q && Sq(ux) + Sq(uy) <= Sq(p) && Sq(vx) + Sq(vy) <= Sq(q)
    ensures Sq(ux + vx) + Sq(uy + vy) <= Sq(p + q)
    ensures Sq(ux) + Sq(uy) < Sq(p) ==> Sq(ux + vx) + Sq(uy + vy) < Sq(p + q)
  {
    var dot := Mul(ux, vx) + Mul(uy, vy);
    DotBound(ux, uy, vx, vy, p, q);
    SqSum(ux, vx);
    SqSum(uy, vy);
    SqSum(p, q);
    hide Sq, Mul;
  }

  lemma SqSum(u: real, v: real)
    ensures Sq(u + v) == Sq(u) + 2.0 * Mul(u, v) + Sq(v)
  {
  }

  lemma DotBound(ux: real, uy: real, vx: real, vy: real, p: real, q: real)
    requires 0.0 <= p && 0.0 <= q && Sq(ux) + Sq(uy) <= Sq(p) && Sq(vx) + Sq(vy) <= Sq(q)
    ensures Mul(ux, vx) + Mul(uy, vy) <= Mul(p, q)
  {
    var dot, pq := Mul(ux, vx) + Mul(uy, vy), Mul(p, q);
    var m, n := Sq(ux) + Sq(uy), Sq(vx) + Sq(vy);
    Lagrange(ux, uy, vx, vy);
    MulMono(m, Sq(p), n);
    MulMono(n, Sq(q), Sq(p));
    SwapMul(n, Sq(p));
    SwapMul(Sq(q), Sq(p));
    SqOfMul(p, q);
    MulNonneg(p, q);
    hide Sq, Mul;
    if dot > pq {
      SqGrows(pq, dot);
    }
  }

  lemma Lagrange(ux: real, uy: real, vx: real, vy: real)
    ensures Sq(Mul(ux, vx) + Mul(uy, vy)) <= Mul(Sq(ux) + Sq(uy), Sq(vx) + Sq(vy))
  {
    var a, b, c, d := Mul(ux, vx), Mul(uy, vy), Mul(ux, vy), Mul(uy, vx);
    SqOfMul(ux, vx);
    SqOfMul(uy, vy);
    SqOfMul(ux, vy);
    SqOfMul(uy, vx);
    SameCross(ux, uy, vx, vy);
    SqSum(a, b);
    SqSum(c, -d);
    assert Mul(c, -d) == -Mul(c, d) && Sq(-d) == Sq(d);
    hide Mul, Sq;
    SplitMul(Sq(ux) + Sq(uy), Sq(vx), Sq(vy));
    SwapMul(Sq(ux) + Sq(uy), Sq(vx));
    SwapMul(Sq(ux) + Sq(uy), Sq(vy));
    SplitMul(Sq(vx), Sq(ux), Sq(uy));
    SplitMul(Sq(vy), Sq(ux), Sq(uy));
    SwapMul(Sq(vx), Sq(ux));
    SwapMul(Sq(vx), Sq(uy));
    SwapMul(Sq(vy), Sq(ux));
    SwapMul(Sq(vy), Sq(uy));
  }

  lemma SameCross(ux: real, uy: real, vx: real, vy: real)
    ensures Mul(Mul(ux, vx), Mul(uy, vy)) == Mul(Mul(ux, vy), Mul(uy, vx))
  {
  }

  lemma SwapMul(u: real, v: real)
    ensures Mul(u, v) == Mul(v, u)
  {
  }

  lemma SqOfMul(p: real, q: real)
    ensures Sq(Mul(p, q)) == Mul(Sq(p), Sq(q))
  {
  }

  lemma SqGrows(u: real, v: real)
    requires 0.0 <= u < v
    ensures Sq(u) < Sq(v)
  {
    MulMono(u, v, u);
    MulPos(v - u, v);
  }

  /** Three steps in a row. */
  lemma ThreeSteps(y: Pt, z: Pt, w: Pt, v: Pt, p: real, q: real, r: real, strict: bool)
    requires 0.0 <= p && 0.0 <= q && 0.0 <= r
    requires Dist2(y, z) <= Sq(p) && Below(Dist2(z, w), Sq(q), strict) && Dist2(w, v) <= Sq(r)
    ensures Below(Dist2(y, v), Sq(p + r + q), strict)
  {
    SumBound(w.x - z.x, w.y - z.y, z.x - y.x, z.y - y.y, q, p);
    SumBound(w.x - y.x, w.y - y.y, v.x - w.x, v.y - w.y, p + q, r);
    hide Sq;
  }

  lemma SqLerp(u: real, v: real, s: real, t: real)
    ensures Sq(Along(u, v, t) - Along(u, v, s)) == Mul(Sq(t - s), Sq(v - u))
  {
    assert Along(u, v, t) - Along(u, v, s) == (t - s) * (v - u);
    SqOfMul(t - s, v - u);
    assert Mul(t - s, v - u) == (t - s) * (v - u);
  }

  lemma LerpDistance(y: Pt, v: Pt, s: real, t: real)
    ensures Dist2(Lerp(y, v, s), Lerp(y, v, t)) == Mul(Sq(t - s), Dist2(y, v))
  {
    SqLerp(y.x, v.x, s, t);
    SqLerp(y.y, v.y, s, t);
    hide Sq, Along;
    SplitMul(Sq(t - s), Sq(v.x - y.x), Sq(v.y - y.y));
  }

  lemma SplitMul(k: real, u: real, v: real)
    ensures Mul(k, u + v) == Mul(k, u) + Mul(k, v)
  {
  }

  /** A part k of the way from y to v, where y and v are at most R apart. */
  lemma PartOfWay(d2: real, k: real, R: real, strict: bool)
    requires 0.0 <= k && Below(d2, Sq(R), strict) && (strict ==> 0.0 < k)
    ensures Below(Mul(Sq(k), d2), Sq(Mul(k, R)), strict)
  {
    SqOfMul(k, R);
    if strict {
      MulPos(Sq(k), Sq(R) - d2);
    } else {
      MulNonneg(Sq(k), Sq(R) - d2);
    }
    assert Mul(Sq(k), Sq(R) - d2) == Mul(Sq(k), Sq(R)) - Mul(Sq(k), d2);
    hide Sq, Mul;
  }

  /** Between two points at most p + q + r apart, points p from the one and r from the other, q apart. */
  lemma SplitWay(y: Pt, v: Pt, p: real, q: real, r: real, strict: bool) returns (z: Pt, w: Pt)
    requires 0.0 <= p && 0.0 <= q && 0.0 <= r && (strict ==> 0.0 < q)
    requires Below(Dist2(y, v), Sq(p + r + q), strict)
    ensures Dist2(y, z) <= Sq(p) && Below(Dist2(z, w), Sq(q), strict) && Dist2(v, w) <= Sq(r)
  {
    var R := p + r + q;
    if R == 0.0 {
      assert Sq(R) == 0.0 && p == q == r == 0.0;
      Dist2Nonneg(y, v);
      Dist2Nonneg(y, y);
      z, w := y, y;
    } else {
      var i, j, k := Quotient(p, R), Quotient(q, R), Quotient(r, R);
      SharesAdd(p, q, r, R, i, j, k);
      z, w := Lerp(y, v, i), Lerp(y, v, i + j);
      LerpEndsAre(y, v);
      LerpDistance(y, v, 0.0, i);
      LerpDistance(y, v, i, i + j);
      LerpDistance(y, v, 1.0, i + j);
      SqNegated(k);
      hide Sq, Mul, Lerp, Dist2;
      PartOfWay(Dist2(y, v), i, R, false);
      PartOfWay(Dist2(y, v), j, R, strict);
      PartOfWay(Dist2(y, v), k, R, false);
    }
  }

  function Quotient(p: real, R: real): (k: real)
    requires 0.0 <= p && 0.0 < R
    ensures Mul(k, R) == p && 0.0 <= k && (0.0 < p ==> 0.0 < k)
  {
    p / R
  }

  lemma SharesAdd(p: real, q: real, r: real, R: real, i: real, j: real, k: real)
    requires 0.0 < R == p + r + q && Mul(i, R) == p && Mul(j, R) == q && Mul(k, R) == r
    ensures i - 0.0 == i && i + j - i == j && i + j - 1.0 == -k
  {
    SplitMul(R, i + j, k);
    SplitMul(R, i, j);
    SwapMul(R, i);
    SwapMul(R, j);
    SwapMul(R, k);
    WholeShare(R, i + j + k);
  }

  lemma WholeShare(R: real, n: real)
    requires 0.0 < R && Mul(R, n) == R
    ensures n == 1.0
  {
    CancelFactor(R, n, 1.0);
  }

  lemma SqNegated(u: real)
    ensures Sq(-u) == Sq(u)
  {
  }

  lemma LerpEndsAre(a: Pt, b: Pt)
    ensures Lerp(a, b, 0.0) == a && Lerp(a, b, 1.0) == b
  {
  }

  // ----- The gap

  /** Twice the sum of the radii and the clearance, for any clearance, negative ones included. */
  lemma SweepIsRadius(a: Shape, b: Shape, clearance: int)
    ensures (2 * clearance + Sweep2(a) + Sweep2(b)) as real == 2.0 * (Radius(a) + Radius(b) + clearance as real)
  {
  }

  ghost predicate CoresWithin(a: Shape, b: Shape, distance: real, strict: bool) {
    exists y, v :: In(CoreOf(a), Double(y)) && In(CoreOf(b), Double(v)) && Below(Dist2(y, v), Sq(distance), strict)
  }

  lemma SquareOfDouble(t: int, R: real)
    requires t as real == 2.0 * R
    ensures (t * t) as real == 4.0 * Sq(R)
  {
    SquareReal(t);
  }

  lemma CloserDoubles(x: Pt, z: Pt, t2: real, r2: real)
    requires t2 == 4.0 * r2
    ensures Dist2(Double(x), Double(z)) < t2 <==> Dist2(x, z) < r2
    ensures Dist2(Double(x), Double(z)) <= t2 <==> Dist2(x, z) <= r2
  {
    Dist2Doubles(x, z);
    hide Dist2;
  }

  lemma CoresDouble(a: Shape, b: Shape, t2: real, R: real)
    requires t2 == 4.0 * Sq(R)
    ensures Closer(CoreOf(a), CoreOf(b), t2) <==> CoresWithin(a, b, R, true)
    ensures Reaches(CoreOf(a), CoreOf(b), t2) <==> CoresWithin(a, b, R, false)
  {
    hide In, CoreOf, Sq, Dist2, Double;
    var ca, cb := CoreOf(a), CoreOf(b);
    if Closer(ca, cb, t2) {
      var x, z :| In(ca, x) && In(cb, z) && Dist2(x, z) < t2;
      CloserDoubles(Half(x), Half(z), t2, Sq(R));
    }
    if Reaches(ca, cb, t2) {
      var x, z :| In(ca, x) && In(cb, z) && Dist2(x, z) <= t2;
      CloserDoubles(Half(x), Half(z), t2, Sq(R));
    }
    if CoresWithin(a, b, R, true) {
      var y, v :| In(ca, Double(y)) && In(cb, Double(v)) && Below(Dist2(y, v), Sq(R), true);
      CloserDoubles(y, v, t2, Sq(R));
    }
    if CoresWithin(a, b, R, false) {
      var y, v :| In(ca, Double(y)) && In(cb, Double(v)) && Below(Dist2(y, v), Sq(R), false);
      CloserDoubles(y, v, t2, Sq(R));
    }
  }

  /** The gap against any clearance, negative ones included: the cores against both radii and the clearance. */
  lemma GapIsCores(a: Shape, b: Shape, clearance: int)
    ensures var R := Radius(a) + Radius(b) + clearance as real;
            && (Gap(a, b, clearance) != Greater <==> 0.0 <= R && CoresWithin(a, b, R, false))
            && (Gap(a, b, clearance) == Less <==> 0.0 <= R && CoresWithin(a, b, R, true))
  {
    var t, R := 2 * clearance + Sweep2(a) + Sweep2(b), Radius(a) + Radius(b) + clearance as real;
    SweepIsRadius(a, b, clearance);
    hide CoresWithin, Closer, Reaches, Radius, Sweep2, CoreOf, Sq;
    SquareOfDouble(t, R);
    CoresDouble(a, b, (t * t) as real, R);
    StrictIsLoose(a, b, R);
  }

  /** Points of the shapes are so near exactly when points of the cores are nearer by both radii. */
  lemma SweptWithinReach(a: Shape, b: Shape, c: real, strict: bool)
    requires 0.0 <= c && (strict ==> 0.0 < c) && 0.0 <= Radius(a) && 0.0 <= Radius(b)
    ensures SomeWithin(a, b, c, strict) <==> CoresWithin(a, b, Radius(a) + Radius(b) + c, strict)
  {
    hide In, CoreOf, Sq, Dist2, InShape, Radius;
    if SomeWithin(a, b, c, strict) {
      var z, w :| InShape(a, z) && InShape(b, w) && Below(Dist2(z, w), Sq(c), strict);
      ShapeIsSwept(a, z);
      ShapeIsSwept(b, w);
      var y :| In(CoreOf(a), Double(y)) && Dist2(y, z) <= Sq(Radius(a));
      var v :| In(CoreOf(b), Double(v)) && Dist2(v, w) <= Sq(Radius(b));
      Dist2Nonneg(v, w);
      ThreeSteps(y, z, w, v, Radius(a), c, Radius(b), strict);
    }
    if CoresWithin(a, b, Radius(a) + Radius(b) + c, strict) {
      var y, v :| In(CoreOf(a), Double(y)) && In(CoreOf(b), Double(v)) &&
                  Below(Dist2(y, v), Sq(Radius(a) + Radius(b) + c), strict);
      var z, w := SplitWay(y, v, Radius(a), c, Radius(b), strict);
      ShapeIsSwept(a, z);
      ShapeIsSwept(b, w);
    }
  }

  lemma ValidRadius(s: Shape)
    requires ValidShape(s)
    ensures 0.0 <= Radius(s) && 0 <= Sweep2(s)
  {
  }

  /** The gap of two shapes against a clearance that is not negative: not Greater exactly when some points of them are
      at most that far apart, Less exactly when some are nearer than a positive one. */
  lemma GapIsReal(a: Shape, b: Shape, clearance: int)
    requires ValidShape(a) && ValidShape(b) && 0 <= clearance
    ensures Gap(a, b, clearance) != Greater <==> SomeWithin(a, b, clearance as real, false)
    ensures 0 < clearance ==> (Gap(a, b, clearance) == Less <==> SomeWithin(a, b, clearance as real, true))
  {
    hide *;
    ValidRadius(a);
    ValidRadius(b);
    GapIsCores(a, b, clearance);
    SweptWithinReach(a, b, clearance as real, false);
    if 0 < clearance {
      SweptWithinReach(a, b, clearance as real, true);
    }
  }

  lemma StrictIsLoose(a: Shape, b: Shape, R: real)
    ensures CoresWithin(a, b, R, true) ==> CoresWithin(a, b, R, false)
  {
    hide In, CoreOf, Dist2;
  }

  lemma SamePoint(z: Pt, w: Pt)
    ensures Dist2(z, w) <= 0.0 <==> z == w
  {
    Square(w.x - z.x);
    Square(w.y - z.y);
    hide Sq;
  }

  lemma Square(u: real)
    ensures 0.0 <= Sq(u) && (Sq(u) == 0.0 <==> u == 0.0)
  {
  }

  ghost predicate ShareAPoint(a: Shape, b: Shape) {
    exists z :: InShape(a, z) && InShape(b, z)
  }

  /** Shapes have no gap exactly when they share a point. */
  lemma TouchIsReal(a: Shape, b: Shape)
    requires ValidShape(a) && ValidShape(b)
    ensures Gap(a, b, 0) != Greater <==> ShareAPoint(a, b)
  {
    GapIsReal(a, b, 0);
    hide Gap, InShape, Dist2, ValidShape;
    assert Sq(0.0) == 0.0;
    if ShareAPoint(a, b) {
      var z :| InShape(a, z) && InShape(b, z);
      SamePoint(z, z);
    }
    if SomeWithin(a, b, 0.0, false) {
      var z, w :| InShape(a, z) && InShape(b, w) && Below(Dist2(z, w), Sq(0.0), false);
      SamePoint(z, w);
    }
  }

  /** Some point of the region is at most the distance from p; or less than it. */
  ghost predicate PointWithin(rings: seq<Ring>, p: Point, distance: real, strict: bool) {
    exists z :: InRings(rings, z) && Below(Dist2(At(p), z), Sq(distance), strict)
  }

  lemma PointIsShape(rings: seq<Ring>, p: Point, distance: real, strict: bool)
    requires |rings| > 0
    ensures SomeWithin(Circle(p, 0), Polygon(rings[0], rings[1..]), distance, strict) <==>
            PointWithin(rings, p, distance, strict)
  {
    var disc, region := Circle(p, 0), Polygon(rings[0], rings[1..]);
    assert [rings[0]] + rings[1..] == rings;
    assert Sq(0.0) == 0.0;
    hide InRings, Dist2;
    if SomeWithin(disc, region, distance, strict) {
      var z, w :| InShape(disc, z) && InShape(region, w) && Below(Dist2(z, w), Sq(distance), strict);
      SamePoint(At(p), z);
    }
    if PointWithin(rings, p, distance, strict) {
      var w :| InRings(rings, w) && Below(Dist2(At(p), w), Sq(distance), strict);
      SamePoint(At(p), At(p));
      assert InShape(disc, At(p)) && InShape(region, w);
    }
  }

  /** The distance of a point from a region. */
  lemma PointIsReal(rings: seq<Ring>, p: Point, distance: int)
    requires |rings| > 0 && WellHoled(RealRings(rings)) && 0 <= distance
    ensures var o := DistanceCmp(PointCore(Dbl(p)), RegionCore(rings), 2 * distance);
            && (o != Greater <==> PointWithin(rings, p, distance as real, false))
            && (0 < distance ==> (o == Less <==> PointWithin(rings, p, distance as real, true)))
  {
    var disc, region := Circle(p, 0), Polygon(rings[0], rings[1..]);
    assert [rings[0]] + rings[1..] == rings;
    hide DistanceCmp, WellHoled, SomeWithin, PointWithin;
    assert Gap(disc, region, distance) == DistanceCmp(PointCore(Dbl(p)), RegionCore(rings), 2 * distance);
    GapIsReal(disc, region, distance);
    PointIsShape(rings, p, distance as real, false);
    PointIsShape(rings, p, distance as real, true);
  }

  /** `gap_cmp`. */
  method GapCmp(a: Shape, b: Shape, clearance: int) returns (o: Ordering)
    requires ValidShape(a) && ValidShape(b)
    ensures o == Gap(a, b, clearance)
    ensures 0 <= clearance ==> (o != Greater <==> SomeWithin(a, b, clearance as real, false))
    ensures 0 < clearance ==> (o == Less <==> SomeWithin(a, b, clearance as real, true))
  {
    hide DistanceCmp, GoodPair, CoreOf, ValidShape, Sweep2, SomeWithin;
    if 0 <= clearance { GapIsReal(a, b, clearance); }
    var t := 2 * clearance + Sweep2(a) + Sweep2(b);
    if t < 0 {
      return Greater;
    }
    GoodShapes(a, b);
    o := CoreCmp(CoreOf(a), CoreOf(b), t);
  }
}
