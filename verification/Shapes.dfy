/** Bounding boxes with 32-bit saturation, and the shapes of a board: a core swept by a radius,
    compared edge to edge. */
module Shapes {
  import opened Regions
  import opened WideMul
  import opened Kernel
  import opened Distance

  // ----- Bounding boxes

  const MIN32: int := -0x8000_0000
  const MAX32: int := 0x7fff_ffff

  datatype BBox = BBox(min: Point, max: Point)

  predicate ValidBox(b: BBox) {
    b.min.x <= b.max.x && b.min.y <= b.max.y
  }

  function BoxOf(a: Point, b: Point): (r: BBox)
    ensures ValidBox(r)
  {
    BBox(Point(Min(a.x, b.x), Min(a.y, b.y)), Point(Max(a.x, b.x), Max(a.y, b.y)))
  }

  function Union(a: BBox, b: BBox): BBox {
    BBox(Point(Min(a.min.x, b.min.x), Min(a.min.y, b.min.y)), Point(Max(a.max.x, b.max.x), Max(a.max.y, b.max.y)))
  }

  function Saturate(v: int): Coord {
    if v < MIN32 then MIN32 else if v > MAX32 then MAX32 else v
  }

  /** The centre, rounded toward negative infinity. */
  function Center(b: BBox): Point
    requires ValidBox(b)
  {
    Point((b.min.x + b.max.x) / 2, (b.min.y + b.max.y) / 2)
  }

  function Inflate(b: BBox, d: int): (r: BBox)
    requires ValidBox(b)
    ensures ValidBox(r)
  {
    var min := Point(Saturate(b.min.x - d), Saturate(b.min.y - d));
    var max := Point(Saturate(b.max.x + d), Saturate(b.max.y + d));
    var c := Center(b);
    BBox(Point(Min(min.x, c.x), Min(min.y, c.y)), Point(Max(max.x, c.x), Max(max.y, c.y)))
  }

  predicate Intersects(a: BBox, b: BBox) {
    a.min.x <= b.max.x && b.min.x <= a.max.x && a.min.y <= b.max.y && b.min.y <= a.max.y
  }

  predicate Contains(b: BBox, p: Point) {
    b.min.x <= p.x <= b.max.x && b.min.y <= p.y <= b.max.y
  }

  /** The bounding box of a non-empty point sequence. */
  function BoxOfPoints(ps: seq<Point>): (r: BBox)
    requires |ps| > 0
    ensures ValidBox(r)
    ensures forall i :: 0 <= i < |ps| ==> Contains(r, ps[i])
    ensures exists i :: 0 <= i < |ps| && ps[i].x == r.max.x
  {
    if |ps| == 1 then BBox(ps[0], ps[0])
    else
      var n := |ps| - 1;
      var b := BoxOfPoints(ps[..n]);
      assert forall i :: 0 <= i < n ==> ps[i] == ps[..n][i];
      assert exists i :: 0 <= i < n && ps[i].x == b.max.x;
      Union(b, BBox(ps[n], ps[n]))
  }

  /** Each side of a point box is reached by a point. */
  lemma {:induction false} BoxReached(ps: seq<Point>) returns (l: nat, r: nat, d: nat, u: nat)
    requires |ps| > 0
    ensures l < |ps| && r < |ps| && d < |ps| && u < |ps|
    ensures var b := BoxOfPoints(ps);
            ps[l].x == b.min.x && ps[r].x == b.max.x && ps[d].y == b.min.y && ps[u].y == b.max.y
  {
    var n := |ps| - 1;
    if n == 0 {
      l, r, d, u := 0, 0, 0, 0;
    } else {
      var b := BoxOfPoints(ps[..n]);
      l, r, d, u := BoxReached(ps[..n]);
      if ps[n].x < b.min.x { l := n; }
      if ps[n].x > b.max.x { r := n; }
      if ps[n].y < b.min.y { d := n; }
      if ps[n].y > b.max.y { u := n; }
    }
  }

  /** Inflating by a non-negative amount: a 32-bit box it misses is farther than the amount on
      some axis, saturation or not. */
  lemma InflateMisses(b: BBox, d: int, e: BBox)
    requires ValidBox(b) && ValidBox(e) && 0 <= d
    ensures Intersects(Inflate(b, d), e) <==>
            && b.min.x - e.max.x <= d && e.min.x - b.max.x <= d
            && b.min.y - e.max.y <= d && e.min.y - b.max.y <= d
  {
  }

  // ----- Shapes

  datatype Shape =
    | Segment(a: Point, b: Point, width: Coord)
    | Circle(center: Point, radius: Coord)
    | ConvexPoly(pts: Ring, rounding: Coord)
    | Polygon(outline: Ring, holes: seq<Ring>)

  function RingsOf(s: Shape): seq<Ring>
    requires s.ConvexPoly? || s.Polygon?
  {
    if s.ConvexPoly? then [s.pts] else [s.outline] + s.holes
  }

  function CoreOf(s: Shape): Core {
    match s
    case Segment(a, b, _) => SegCore(Dbl(a), Dbl(b))
    case Circle(c, _) => PointCore(Dbl(c))
    case ConvexPoly(_, _) => RegionCore(RingsOf(s))
    case Polygon(_, _) => RegionCore(RingsOf(s))
  }

  /** Twice the sweep radius around the core. */
  function Sweep2(s: Shape): int {
    match s
    case Segment(_, _, w) => w
    case Circle(_, r) => 2 * r
    case ConvexPoly(_, r) => 2 * r
    case Polygon(_, _) => 0
  }

  /** What the documentation asks of a shape: no negative width or radius, rings with vertices,
      holes inside the outline and apart from each other. */
  ghost predicate ValidShape(s: Shape) {
    match s
    case Segment(_, _, w) => 0 <= w
    case Circle(_, r) => 0 <= r
    case ConvexPoly(pts, r) => 0 <= r && |pts| > 0
    case Polygon(_, _) => WellHoled(RealRings(RingsOf(s)))
  }

  lemma ShapeRings(s: Shape)
    requires ValidShape(s) && (s.ConvexPoly? || s.Polygon?)
    ensures WellHoled(RealRings(RingsOf(s))) && |RingsOf(s)[0]| > 0
  {
    if s.ConvexPoly? {
      SingleRing(Vertices(s.pts));
      assert RealRings([s.pts]) == [Vertices(s.pts)];
    } else {
      assert |RealRings(RingsOf(s))[0]| > 0;
    }
  }

  /** The gap between two shapes against a clearance: the core distance less both radii. */
  ghost function Gap(a: Shape, b: Shape, clearance: int): Ordering {
    var t := 2 * clearance + Sweep2(a) + Sweep2(b);
    if t < 0 then Greater else DistanceCmp(CoreOf(a), CoreOf(b), t)
  }

  lemma GoodShapes(a: Shape, b: Shape)
    requires ValidShape(a) && ValidShape(b)
    ensures CoreOf(a).RegionCore? && CoreOf(b).RegionCore? ==> GoodPair(CoreOf(a).rings, CoreOf(b).rings)
  {
    if CoreOf(a).RegionCore? && CoreOf(b).RegionCore? {
      ShapeRings(a);
      ShapeRings(b);
      hide WellHoled, RealRings;
    }
  }

  lemma GapSymmetric(a: Shape, b: Shape, clearance: int)
    ensures Gap(a, b, clearance) == Gap(b, a, clearance)
  {
    hide DistanceCmp, CoreOf, Sweep2;
    var t := 2 * clearance + Sweep2(a) + Sweep2(b);
    if t >= 0 {
      DistanceSymmetric(CoreOf(a), CoreOf(b), t);
    }
  }

  /** A clearance that is met is met at every smaller clearance. */
  lemma GapMonotone(a: Shape, b: Shape, c: int, d: int)
    requires c <= d
    ensures Gap(a, b, d) != Less ==> Gap(a, b, c) != Less
    ensures Gap(a, b, d) == Greater ==> Gap(a, b, c) == Greater
    ensures c < d && Gap(a, b, c) != Greater ==> Gap(a, b, d) == Less
  {
    hide DistanceCmp, CoreOf, Sweep2;
    var s, t := 2 * c + Sweep2(a) + Sweep2(b), 2 * d + Sweep2(a) + Sweep2(b);
    if 0 <= s {
      DistanceMonotone(CoreOf(a), CoreOf(b), s, t);
    }
  }
}
