/** The exporter's scanline decomposition: the even-odd region of some rings cut into slabs at every vertex x,
    the edges crossing a slab paired bottom to top, and equal pairs of consecutive slabs merged. */
module Trapezoids {
  import opened Basics
  import opened Plane
  import opened EvenOdd
  import opened Rings
  import Hull

  type Pos = Hull.Pos

  type Loop = seq<Pos>

  datatype Side = Side(a: Pos, b: Pos)

  /** A side that is not vertical, from left to right. */
  datatype Bar = Bar(from: Pos, to: Pos)

  type Pair = (nat, nat)

  function At(p: Pos): Pt {
    Pt(p.x as real, p.y as real)
  }

  // ----- Sides and bars

  function LoopSides(ring: Loop): (r: seq<Side>)
    ensures |r| == |ring|
  {
    seq(|ring|, i requires 0 <= i < |ring| => Side(ring[i], ring[Next(i, |ring|)]))
  }

  function Sides(rings: seq<Loop>): seq<Side> {
    if rings == [] then [] else Sides(rings[..|rings| - 1]) + LoopSides(rings[|rings| - 1])
  }

  function RealSide(s: Side): Edge {
    Edge(At(s.a), At(s.b))
  }

  function RealSides(ss: seq<Side>): (r: seq<Edge>)
    ensures |r| == |ss|
  {
    seq(|ss|, i requires 0 <= i < |ss| => RealSide(ss[i]))
  }

  /** The boundary whose even-odd region is decomposed. */
  function RealBoundary(rings: seq<Loop>): seq<Edge> {
    RealSides(Sides(rings))
  }

  predicate Upright(s: Side) {
    s.a.x == s.b.x
  }

  function BarOf(s: Side): Bar {
    if s.a.x < s.b.x then Bar(s.a, s.b) else Bar(s.b, s.a)
  }

  function Bars(ss: seq<Side>): seq<Bar> {
    if ss == [] then []
    else Bars(ss[..|ss| - 1]) + if Upright(ss[|ss| - 1]) then [] else [BarOf(ss[|ss| - 1])]
  }

  predicate VertexX(rings: seq<Loop>, x: int) {
    exists i, j :: 0 <= i < |rings| && 0 <= j < |rings[i]| && rings[i][j].x == x
  }

  /** Only horizontal and vertical sides. */
  predicate Rectilinear(rings: seq<Loop>) {
    forall s :: s in Sides(rings) ==> s.a.x == s.b.x || s.a.y == s.b.y
  }

  /** On no slab line and on the line of no horizontal side. */
  ghost predicate Generic(rings: seq<Loop>, p: Pt) {
    && (forall x :: VertexX(rings, x) ==> x as real != p.x)
    && (forall s :: s in Sides(rings) && !Upright(s) ==> s.a.y as real != p.y)
  }

  lemma {:induction false} SideVertices(rings: seq<Loop>, s: Side)
    requires s in Sides(rings)
    ensures VertexX(rings, s.a.x) && VertexX(rings, s.b.x)
  {
    var last := |rings| - 1;
    if s in LoopSides(rings[last]) {
      var j :| 0 <= j < |rings[last]| && LoopSides(rings[last])[j] == s;
      assert rings[last][j] == s.a && rings[last][Next(j, |rings[last]|)] == s.b;
    } else {
      SideVertices(rings[..last], s);
      VertexPrefix(rings, s.a.x);
      VertexPrefix(rings, s.b.x);
    }
  }

  lemma VertexPrefix(rings: seq<Loop>, x: int)
    requires |rings| > 0 && VertexX(rings[..|rings| - 1], x)
    ensures VertexX(rings, x)
  {
    var i, j :| 0 <= i < |rings| - 1 && 0 <= j < |rings[..|rings| - 1][i]| && rings[..|rings| - 1][i][j].x == x;
    assert rings[i][j].x == x;
  }

  lemma {:induction false} BarSource(ss: seq<Side>, e: Bar)
    requires e in Bars(ss)
    ensures exists s :: s in ss && !Upright(s) && e == BarOf(s)
  {
    var last := |ss| - 1;
    if e in Bars(ss[..last]) {
      BarSource(ss[..last], e);
      var s :| s in ss[..last] && !Upright(s) && e == BarOf(s);
      assert s in ss;
    } else {
      assert ss[last] in ss;
    }
  }

  // ----- Closed boundaries

  lemma {:induction false} SidesClosed(rings: seq<Loop>)
    ensures Closed(RealBoundary(rings))
  {
    if rings != [] {
      var last := |rings| - 1;
      var ring := seq(|rings[last]|, i requires 0 <= i < |rings[last]| => At(rings[last][i]));
      SidesClosed(rings[..last]);
      RingClosed(ring);
      var l, r := RingEdges(ring), RealSides(LoopSides(rings[last]));
      forall i | 0 <= i < |ring| ensures l[i] == r[i] {
        assert l[i] == RingEdge(ring, i);
      }
      assert l == r;
      ClosedConcat(RealBoundary(rings[..last]), r);
      assert RealBoundary(rings) == RealBoundary(rings[..last]) + r;
    }
  }

  /** Counting bars is counting the sides they come from. */
  lemma {:induction false} BarParity(ss: seq<Side>, f: Bar -> bool, g: Edge -> bool)
    requires forall s :: s in ss ==> g(RealSide(s)) == (!Upright(s) && f(BarOf(s)))
    ensures Odd(Bars(ss), f) == Odd(RealSides(ss), g)
  {
    if ss != [] {
      var last := |ss| - 1;
      BarParity(ss[..last], f, g);
      assert RealSides(ss)[..last] == RealSides(ss[..last]);
      assert ss[last] in ss;
      if Upright(ss[last]) {
        assert Bars(ss) == Bars(ss[..last]);
      } else {
        var bs := Bars(ss[..last]) + [BarOf(ss[last])];
        assert bs[..|bs| - 1] == Bars(ss[..last]);
      }
    }
  }

  /** The vertical line through p crosses e. */
  predicate Over(p: Pt, e: Bar) {
    (e.from.x as real) < p.x < (e.to.x as real)
  }

  /** The downward ray from p crosses e. */
  predicate Under(p: Pt, e: Bar) {
    Over(p, e) && (e.from.y as real) < p.y
  }

  function OverBy(p: Pt): Bar -> bool {
    e => Over(p, e)
  }

  function UnderBy(p: Pt): Bar -> bool {
    e => Under(p, e)
  }

  /** A vertical line through no vertex crosses an even number of bars. */
  lemma EvenCrossings(rings: seq<Loop>, p: Pt)
    requires forall x :: VertexX(rings, x) ==> x as real != p.x
    ensures !Odd(Bars(Sides(rings)), OverBy(p))
  {
    var right := (v: Pt) => v.x > p.x;
    forall s | s in Sides(rings) ensures Jump(right)(RealSide(s)) == (!Upright(s) && OverBy(p)(BarOf(s))) {
      SideVertices(rings, s);
    }
    BarParity(Sides(rings), OverBy(p), Jump(right));
    SidesClosed(rings);
  }

  /** Below and to the right of p. */
  function Corner(p: Pt): Pt -> bool {
    (v: Pt) => v.x > p.x && v.y <= p.y
  }

  function UnderSide(p: Pt): Edge -> bool {
    (e: Edge) => (e.a.x > p.x) != (e.b.x > p.x) && e.a.y < p.y
  }

  /** On a rectilinear side, the downward and the rightward ray tests differ as the corner test does. */
  lemma CornerTurn(p: Pt, e: Edge)
    requires e.a.x == e.b.x || (e.a.y == e.b.y && e.a.y != p.y)
    requires e.a.x != p.x && e.b.x != p.x
    ensures Jump(Corner(p))(e) == (UnderSide(p)(e) != Crossing(p)(e))
  {
    if e.a.x == e.b.x {
      assert Orient(e.a, e.b, p) == Mul(e.b.y - e.a.y, e.a.x - p.x);
      SignOfProduct(e.b.y - e.a.y, e.a.x - p.x);
    }
  }

  /** Turning the ray by a right angle keeps the answer: counting bars below p decides the even-odd rule. */
  lemma DownwardRay(rings: seq<Loop>, p: Pt)
    requires Rectilinear(rings) && Generic(rings, p)
    ensures Odd(Bars(Sides(rings)), UnderBy(p)) <==> InRegion(RealBoundary(rings), p)
  {
    hide Crosses, On;
    var ss, es := Sides(rings), RealBoundary(rings);
    forall s | s in ss ensures UnderSide(p)(RealSide(s)) == (!Upright(s) && UnderBy(p)(BarOf(s))) {
      SideVertices(rings, s);
    }
    BarParity(ss, UnderBy(p), UnderSide(p));
    forall i | 0 <= i < |es|
      ensures Jump(Corner(p))(es[i]) == (UnderSide(p)(es[i]) != Crossing(p)(es[i])) && !OnEdge(es[i], p)
    {
      assert ss[i] in ss;
      SideVertices(rings, ss[i]);
      CornerTurn(p, es[i]);
      OffSide(es[i], p);
    }
    OddXor(es, UnderSide(p), Crossing(p), Jump(Corner(p)));
    SidesClosed(rings);
  }

  lemma OffSide(e: Edge, p: Pt)
    requires e.a.x == e.b.x != p.x || e.a.y == e.b.y != p.y
    ensures !OnEdge(e, p)
  {
  }

  // ----- One slab

  /** `y_at`, over the reals. */
  function YAt(e: Bar, x: real): real
    requires e.from.x < e.to.x
  {
    var run := (e.to.x - e.from.x) as real;
    e.from.y as real + (e.to.y - e.from.y) as real * (x - e.from.x as real) / run
  }

  /** Rounding to the nearest integer, halves away from zero. */
  function Round(y: real): int {
    if y >= 0.0 then (y + 0.5).Floor else -((0.5 - y).Floor)
  }

  lemma LevelY(e: Bar, x: real)
    requires e.from.x < e.to.x && e.from.y == e.to.y
    ensures YAt(e, x) == e.from.y as real && Round(YAt(e, x)) == e.from.y
  {
    var run := (e.to.x - e.from.x) as real;
    assert (e.to.y - e.from.y) as real == 0.0;
    assert 0.0 * (x - e.from.x as real) / run == 0.0;
  }

  /** The bars, and the slab lines they start and end on. */
  predicate BarsFit(bars: seq<Bar>, xs: seq<int>) {
    forall i :: 0 <= i < |bars| ==> bars[i].from.x < bars[i].to.x && bars[i].from.x in xs && bars[i].to.x in xs
  }

  predicate Level(bars: seq<Bar>) {
    forall i :: 0 <= i < |bars| ==> bars[i].from.y == bars[i].to.y
  }

  predicate Increasing(xs: seq<int>) {
    forall i, j :: 0 <= i < j < |xs| ==> xs[i] < xs[j]
  }

  predicate Spanning(e: Bar, from: int, to: int) {
    e.from.x <= from && e.to.x >= to
  }

  /** c lists exactly the bars that satisfy f. */
  predicate Lists(bars: seq<Bar>, f: Bar -> bool, c: seq<nat>) {
    && Distinct(c) && (forall i :: 0 <= i < |c| ==> c[i] < |bars| && f(bars[c[i]]))
    && (forall k :: 0 <= k < |bars| && f(bars[k]) ==> k in c)
  }

  function Where(bars: seq<Bar>, f: Bar -> bool): set<nat> {
    set k: nat | k < |bars| && f(bars[k])
  }

  lemma {:induction false} WhereParity(bars: seq<Bar>, f: Bar -> bool)
    ensures Odd(bars, f) == (|Where(bars, f)| % 2 == 1)
  {
    if bars != [] {
      var n := |bars| - 1;
      WhereParity(bars[..n], f);
      assert Where(bars, f) == Where(bars[..n], f) + if f(bars[n]) then {n} else {};
    }
  }

  function Elements(c: seq<nat>): set<nat> {
    set i | i in c
  }

  lemma {:induction false} IndexSet(c: seq<nat>)
    requires Distinct(c)
    ensures |Elements(c)| == |c|
  {
    if c == [] {
      assert Elements(c) == {};
    } else {
      var n := |c| - 1;
      IndexSet(c[..n]);
      assert Elements(c) == Elements(c[..n]) + {c[n]};
      assert c[n] !in Elements(c[..n]);
    }
  }

  lemma ListParity(bars: seq<Bar>, f: Bar -> bool, c: seq<nat>)
    requires Lists(bars, f, c)
    ensures Odd(bars, f) == (|c| % 2 == 1)
  {
    WhereParity(bars, f);
    IndexSet(c);
    assert Where(bars, f) == Elements(c);
  }

  /** The bars across a slab, bottom to top. */
  predicate Ordered(bars: seq<Bar>, c: seq<nat>, x: real)
    requires forall i :: 0 <= i < |c| ==> c[i] < |bars| && bars[c[i]].from.x < bars[c[i]].to.x
  {
    forall i, j :: 0 <= i < j < |c| ==> YAt(bars[c[i]], x) <= YAt(bars[c[j]], x)
  }

  function Chunks(c: seq<nat>): set<Pair> {
    set i | 0 <= i < |c| / 2 :: (c[2 * i], c[2 * i + 1])
  }

  predicate Known(bars: seq<Bar>, k: Pair) {
    k.0 < |bars| && k.1 < |bars| && bars[k.0].from.y <= bars[k.1].from.y
  }

  predicate Spans(bars: seq<Bar>, k: Pair, p: Pt) {
    k.0 < |bars| && k.1 < |bars| && (bars[k.0].from.y as real) < p.y < (bars[k.1].from.y as real)
  }

  /** How many of the listed bars run below p. */
  lemma {:induction false} Split(ys: seq<int>, y: real) returns (b: nat)
    requires forall i, j :: 0 <= i < j < |ys| ==> ys[i] <= ys[j]
    requires forall i :: 0 <= i < |ys| ==> ys[i] as real != y
    ensures b <= |ys|
    ensures forall i :: 0 <= i < b ==> (ys[i] as real) < y
    ensures forall i :: b <= i < |ys| ==> ys[i] as real > y
  {
    if ys == [] || (ys[|ys| - 1] as real) < y {
      b := |ys|;
    } else {
      b := Split(ys[..|ys| - 1], y);
    }
  }

  function Ys(bars: seq<Bar>, c: seq<nat>): (ys: seq<int>)
    requires forall i :: 0 <= i < |c| ==> c[i] < |bars|
    ensures |ys| == |c| && forall i :: 0 <= i < |c| ==> ys[i] == bars[c[i]].from.y
  {
    seq(|c|, i requires 0 <= i < |c| => bars[c[i]].from.y)
  }

  function PairsOver(bars: seq<Bar>, pairs: set<Pair>, p: Pt): set<Pair> {
    set k | k in pairs && Spans(bars, k, p)
  }

  function One(b: bool): nat {
    if b then 1 else 0
  }

  /** Exactly one pair of a slab spans p when an odd number of bars run below p, and none otherwise. */
  lemma SlabDecides(bars: seq<Bar>, c: seq<nat>, p: Pt)
    requires Lists(bars, OverBy(p), c) && |c| % 2 == 0
    requires forall i, j :: 0 <= i < j < |c| ==> bars[c[i]].from.y <= bars[c[j]].from.y
    requires forall i :: 0 <= i < |bars| ==> bars[i].from.y as real != p.y
    ensures |PairsOver(bars, Chunks(c), p)| == One(Odd(bars, UnderBy(p)))
  {
    var ys := Ys(bars, c);
    var b := Split(ys, p.y);
    LowerBars(bars, c, p, b);
    ListParity(bars, UnderBy(p), c[..b]);
    ChunkOver(bars, c, p, b);
  }

  lemma LowerBars(bars: seq<Bar>, c: seq<nat>, p: Pt, b: nat)
    requires Lists(bars, OverBy(p), c) && b <= |c|
    requires forall i :: 0 <= i < |c| ==> ((bars[c[i]].from.y as real) < p.y <==> i < b)
    ensures Lists(bars, UnderBy(p), c[..b])
  {
    hide Over;
    forall k | 0 <= k < |bars| && Under(p, bars[k]) ensures k in c[..b] {
      assert OverBy(p)(bars[k]);
      var i :| 0 <= i < |c| && c[i] == k;
      assert c[..b][i] == k;
    }
    forall i | 0 <= i < b ensures UnderBy(p)(bars[c[i]]) {
      assert OverBy(p)(bars[c[i]]);
    }
  }

  lemma ChunkOver(bars: seq<Bar>, c: seq<nat>, p: Pt, b: nat)
    requires b <= |c| && |c| % 2 == 0 && forall i :: 0 <= i < |c| ==> c[i] < |bars|
    requires forall i :: 0 <= i < |c| ==> ((bars[c[i]].from.y as real) < p.y <==> i < b)
    requires forall i :: 0 <= i < |bars| ==> bars[i].from.y as real != p.y
    ensures |PairsOver(bars, Chunks(c), p)| == One(b % 2 == 1)
  {
    var over := PairsOver(bars, Chunks(c), p);
    forall i | 0 <= i < |c| / 2 ensures Spans(bars, (c[2 * i], c[2 * i + 1]), p) <==> b == 2 * i + 1 {
    }
    if b % 2 == 1 {
      var i := b / 2;
      assert over == {(c[2 * i], c[2 * i + 1])};
    } else {
      assert over == {};
    }
  }

  // ----- Pieces

  type Piece = seq<Pos>

  predicate Rectangle(r: Piece) {
    && |r| == 5 && r[0].x < r[2].x && r[0].y < r[2].y
    && r[1] == Hull.Pos(r[2].x, r[0].y) && r[3] == Hull.Pos(r[0].x, r[2].y) && r[4] == r[0]
  }

  predicate Holds(r: Piece, p: Pt) {
    |r| == 5 && (r[0].x as real) < p.x < (r[2].x as real) && (r[0].y as real) < p.y < (r[2].y as real)
  }

  /** How many pieces contain p. */
  function Covering(pieces: seq<Piece>, p: Pt): nat {
    if pieces == [] then 0 else Covering(pieces[..|pieces| - 1], p) + One(Holds(pieces[|pieces| - 1], p))
  }

  /** `Vec::dedup`: drops an element equal to the one kept before it. */
  function Dedup(r: Piece): Piece {
    if |r| < 2 then r
    else if r[|r| - 1] == r[|r| - 2] then Dedup(r[..|r| - 1])
    else Dedup(r[..|r| - 1]) + [r[|r| - 1]]
  }

  function Shoelace(r: Piece, n: nat): int
    requires n <= |r|
  {
    if n == 0 then 0
    else
      var a, b := r[n - 1], r[Next(n - 1, |r|)];
      Shoelace(r, n - 1) + (a.x * b.y - b.x * a.y)
  }

  /** The `close` closure: the piece between two bars, unless it has no area. */
  function CloseRing(lower: Bar, upper: Bar, from: int, to: int): seq<Piece>
    requires lower.from.x < lower.to.x && upper.from.x < upper.to.x
  {
    var ring := Dedup([Hull.Pos(from, Round(YAt(lower, from as real))), Hull.Pos(to, Round(YAt(lower, to as real))),
                       Hull.Pos(to, Round(YAt(upper, to as real))), Hull.Pos(from, Round(YAt(upper, from as real)))]);
    if |ring| >= 3 && Shoelace(ring, |ring|) != 0 then [ring + [ring[0]]] else []
  }

  // ----- The corners of a piece, told from the bars' lines

  /** c is at x and at the whole height nearest to the point of the bar's line there, halves away from zero. */
  ghost predicate NearestOn(e: Bar, x: int, c: Pos) {
    c.x == x && exists h: real :: Orient(At(e.from), At(e.to), Pt(x as real, h)) == 0.0 && NearestWhole(h, c.y)
  }

  predicate NearestWhole(h: real, y: int) {
    var d := y as real - h;
    -0.5 <= d <= 0.5 && (d == 0.5 ==> h >= 0.0) && (d == -0.5 ==> h <= 0.0)
  }

  lemma RoundNearest(h: real)
    ensures NearestWhole(h, Round(h))
  {
  }

  lemma HeightOnLine(e: Bar, x: real)
    requires e.from.x < e.to.x
    ensures Orient(At(e.from), At(e.to), Pt(x, YAt(e, x))) == 0.0
  {
    var run, rise, dx := (e.to.x - e.from.x) as real, (e.to.y - e.from.y) as real, x - e.from.x as real;
    var d := rise * dx / run;
    assert d * run == rise * dx;
    assert YAt(e, x) - e.from.y as real == d;
  }

  lemma CornerTells(e: Bar, x: int)
    requires e.from.x < e.to.x
    ensures NearestOn(e, x, Hull.Pos(x, Round(YAt(e, x as real))))
  {
    var h := YAt(e, x as real);
    HeightOnLine(e, x as real);
    RoundNearest(h);
    hide Orient, YAt, Round, NearestWhole;
  }

  lemma DedupFour(a: Pos, b: Pos, c: Pos, d: Pos)
    requires a != b && c != d
    ensures Dedup([a, b, c, d]) == if b == c then [a, b, d] else [a, b, c, d]
  {
    var four := [a, b, c, d];
    assert four[..3] == [a, b, c] && [a, b, c][..2] == [a, b] && [a, b][..1] == [a];
    assert Dedup([a, b]) == [a, b];
    assert Dedup([a, b, c]) == if b == c then [a, b] else [a, b, c];
  }

  lemma ShoelaceFour(from: int, to: int, y: int, z: int, u: int, v: int)
    ensures Shoelace([Hull.Pos(from, y), Hull.Pos(to, z), Hull.Pos(to, u), Hull.Pos(from, v)], 4)
            == Whole(to - from, (u - z) + (v - y))
  {
    var r := [Hull.Pos(from, y), Hull.Pos(to, z), Hull.Pos(to, u), Hull.Pos(from, v)];
    assert Shoelace(r, 0) == 0;
    assert Shoelace(r, 1) == from * z - to * y;
    assert Shoelace(r, 2) == Shoelace(r, 1) + (to * u - to * z);
    assert Shoelace(r, 3) == Shoelace(r, 2) + (to * v - from * u);
    assert Shoelace(r, 4) == Shoelace(r, 3) + (from * y - from * v);
  }

  lemma ShoelaceThree(from: int, to: int, y: int, z: int, v: int)
    ensures Shoelace([Hull.Pos(from, y), Hull.Pos(to, z), Hull.Pos(from, v)], 3) == Whole(to - from, v - y)
  {
    var r := [Hull.Pos(from, y), Hull.Pos(to, z), Hull.Pos(from, v)];
    assert Shoelace(r, 0) == 0;
    assert Shoelace(r, 1) == from * z - to * y;
    assert Shoelace(r, 2) == Shoelace(r, 1) + (to * v - from * z);
    assert Shoelace(r, 3) == Shoelace(r, 2) + (from * y - from * v);
  }

  function Whole(u: int, v: int): int {
    u * v
  }

  lemma WholeZero(u: int, v: int)
    requires u > 0
    ensures Whole(u, v) == 0 <==> v == 0
  {
    if v > 0 { Hull.ProductSign(u, v); } else if v < 0 { Hull.ProductSign(u, -v); assert u * -v == -(u * v); }
  }

  /** The piece between any two bars: from the lower bar's ends up to the upper bar's, each corner on the whole height
      nearest to its bar's line, a corner that repeats the one before it dropped; and nothing when the two vertical
      sides have no length together. */
  lemma PieceTells(lower: Bar, upper: Bar, from: int, to: int) returns (a: Pos, b: Pos, c: Pos, d: Pos)
    requires lower.from.x < lower.to.x && upper.from.x < upper.to.x && from < to
    ensures NearestOn(lower, from, a) && NearestOn(lower, to, b) && NearestOn(upper, to, c) && NearestOn(upper, from, d)
    ensures CloseRing(lower, upper, from, to) ==
            if (c.y - b.y) + (d.y - a.y) == 0 then [] else if b == c then [[a, b, d, a]] else [[a, b, c, d, a]]
  {
    hide Round, YAt, NearestOn;
    CornerTells(lower, from);
    CornerTells(lower, to);
    CornerTells(upper, to);
    CornerTells(upper, from);
    a, b := Hull.Pos(from, Round(YAt(lower, from as real))), Hull.Pos(to, Round(YAt(lower, to as real)));
    c, d := Hull.Pos(to, Round(YAt(upper, to as real))), Hull.Pos(from, Round(YAt(upper, from as real)));
    CloseFour(from, to, a, b, c, d);
    hide Dedup, Shoelace;
  }

  lemma CloseFour(from: int, to: int, a: Pos, b: Pos, c: Pos, d: Pos)
    requires from < to && a.x == from == d.x && b.x == to == c.x
    ensures var ring := Dedup([a, b, c, d]);
            (if |ring| >= 3 && Shoelace(ring, |ring|) != 0 then [ring + [ring[0]]] else []) ==
            if (c.y - b.y) + (d.y - a.y) == 0 then [] else if b == c then [[a, b, d, a]] else [[a, b, c, d, a]]
  {
    DedupFour(a, b, c, d);
    ShoelaceFour(from, to, a.y, b.y, c.y, d.y);
    ShoelaceThree(from, to, a.y, b.y, d.y);
    WholeZero(to - from, (c.y - b.y) + (d.y - a.y));
    WholeZero(to - from, d.y - a.y);
    hide Dedup, Shoelace;
    assert [a, b, c, d] == [Hull.Pos(from, a.y), Hull.Pos(to, b.y), Hull.Pos(to, c.y), Hull.Pos(from, d.y)];
    assert [a, b, d] == [Hull.Pos(from, a.y), Hull.Pos(to, b.y), Hull.Pos(from, d.y)];
    assert [a, b, c, d] + [a] == [a, b, c, d, a] && [a, b, d] + [a] == [a, b, d, a];
  }

  /** Between level bars the piece is the rectangle, or nothing when the bars have the same height. */
  lemma CloseLevel(lower: Bar, upper: Bar, from: int, to: int)
    requires lower.from.x < lower.to.x && upper.from.x < upper.to.x && from < to
    requires lower.from.y == lower.to.y <= upper.from.y == upper.to.y
    ensures var r := CloseRing(lower, upper, from, to);
            if lower.from.y == upper.from.y then r == []
            else
              && |r| == 1 && Rectangle(r[0])
              && r[0][0] == Hull.Pos(from, lower.from.y) && r[0][2] == Hull.Pos(to, upper.from.y)
  {
    LevelY(lower, from as real);
    LevelY(lower, to as real);
    LevelY(upper, from as real);
    LevelY(upper, to as real);
    var y, z := lower.from.y, upper.from.y;
    hide YAt, Round, Shoelace;
    var a, b, c, d := Hull.Pos(from, y), Hull.Pos(to, y), Hull.Pos(to, z), Hull.Pos(from, z);
    var four := [a, b, c, d];
    assert four[..3] == [a, b, c] && four[..3][..2] == [a, b] && [a, b][..1] == [a] && [a, b, c][..2] == [a, b];
    if y == z {
      assert Dedup([a, b]) == [a, b];
      assert Dedup([a, b, c]) == [a, b];
      assert Dedup(four) == [a, b, d];
      FlatArea(a, b);
    } else {
      assert Dedup([a, b]) == [a, b];
      assert Dedup([a, b, c]) == [a, b, c];
      assert Dedup(four) == four;
      RectArea(from, to, y, z);
    }
  }

  lemma FlatArea(a: Pos, b: Pos)
    ensures Shoelace([a, b, a], 3) == 0
  {
    var r := [a, b, a];
    assert Shoelace(r, 0) == 0;
    assert Shoelace(r, 1) == a.x * b.y - b.x * a.y;
    assert Shoelace(r, 2) == Shoelace(r, 1) + (b.x * a.y - a.x * b.y);
    assert Shoelace(r, 3) == Shoelace(r, 2) + (a.x * a.y - a.x * a.y);
  }

  lemma RectArea(from: int, to: int, y: int, z: int)
    requires from < to && y < z
    ensures Shoelace([Hull.Pos(from, y), Hull.Pos(to, y), Hull.Pos(to, z), Hull.Pos(from, z)], 4) > 0
  {
    var r := [Hull.Pos(from, y), Hull.Pos(to, y), Hull.Pos(to, z), Hull.Pos(from, z)];
    assert Shoelace(r, 0) == 0;
    assert Shoelace(r, 1) == from * y - to * y;
    assert Shoelace(r, 2) == Shoelace(r, 1) + (to * z - to * y);
    assert Shoelace(r, 3) == Shoelace(r, 2) + (to * z - from * z);
    assert Shoelace(r, 4) == Shoelace(r, 3) + (from * y - from * z);
    assert Shoelace(r, 4) == 2 * ((to - from) * (z - y));
    Hull.ProductSign(to - from, z - y);
  }

  // ----- The sweep

  type Open = map<Pair, int>

  predicate BarsRun(bars: seq<Bar>) {
    forall i :: 0 <= i < |bars| ==> bars[i].from.x < bars[i].to.x
  }

  /** p is on no slab line and at the height of no bar. */
  predicate Off(bars: seq<Bar>, xs: seq<int>, p: Pt) {
    && (forall i :: 0 <= i < |xs| ==> xs[i] as real != p.x)
    && (forall i :: 0 <= i < |bars| ==> bars[i].from.y as real != p.y)
  }

  predicate InRange(bars: seq<Bar>, open: Open) {
    forall k :: k in open ==> k.0 < |bars| && k.1 < |bars|
  }

  predicate Opened(bars: seq<Bar>, open: Open, x: int) {
    forall k :: k in open ==> Known(bars, k) && open[k] < x
  }

  /** The open pairs that will cover p. */
  function OpenOver(bars: seq<Bar>, open: Open, p: Pt): set<Pair> {
    set k | k in open && (open[k] as real) < p.x && Spans(bars, k, p)
  }

  function Wanted(bars: seq<Bar>, p: Pt): nat {
    One(Odd(bars, UnderBy(p)))
  }

  /** Left of x, closed pieces and open pairs together cover each point as often as wanted; right of x, no
      closed piece does. */
  ghost predicate Tiled(bars: seq<Bar>, xs: seq<int>, open: Open, pieces: seq<Piece>, x: int) {
    forall p :: Off(bars, xs, p) ==> TiledAt(bars, open, pieces, x, p)
  }

  ghost predicate TiledAt(bars: seq<Bar>, open: Open, pieces: seq<Piece>, x: int, p: Pt) {
    && (p.x < x as real ==> Covering(pieces, p) + |OpenOver(bars, open, p)| == Wanted(bars, p))
    && (p.x > x as real ==> Covering(pieces, p) == 0)
  }

  predicate AllRectangles(pieces: seq<Piece>) {
    forall i :: 0 <= i < |pieces| ==> Rectangle(pieces[i])
  }

  /** What holds of the sweep between slabs, when all bars are level. */
  ghost predicate SweptTo(bars: seq<Bar>, xs: seq<int>, open: Open, pieces: seq<Piece>, x: int) {
    Opened(bars, open, x) && Tiled(bars, xs, open, pieces, x) && AllRectangles(pieces)
  }

  lemma CoveringOne(pieces: seq<Piece>, r: Piece, p: Pt)
    ensures Covering(pieces + [r], p) == Covering(pieces, p) + One(Holds(r, p))
  {
    assert (pieces + [r])[..|pieces|] == pieces;
  }

  /** Closing a pair turns what it would cover into what a piece covers. */
  lemma CloseOne(bars: seq<Bar>, xs: seq<int>, open: Open, pieces: seq<Piece>, x: int, k: Pair)
    requires BarsRun(bars) && Level(bars) && SweptTo(bars, xs, open, pieces, x) && k in open && InRange(bars, open)
    ensures SweptTo(bars, xs, open - {k}, pieces + CloseRing(bars[k.0], bars[k.1], open[k], x), x)
  {
    var lower, upper := bars[k.0], bars[k.1];
    var more := CloseRing(lower, upper, open[k], x);
    CloseLevel(lower, upper, open[k], x);
    hide CloseRing;
    forall p | Off(bars, xs, p) ensures TiledAt(bars, open - {k}, pieces + more, x, p) {
      assert TiledAt(bars, open, pieces, x, p);
      ClosePoint(bars, open, pieces, x, k, more, p);
    }
  }

  lemma ClosePoint(bars: seq<Bar>, open: Open, pieces: seq<Piece>, x: int, k: Pair, more: seq<Piece>, p: Pt)
    requires k in open && Known(bars, k) && open[k] < x && TiledAt(bars, open, pieces, x, p)
    requires if bars[k.0].from.y == bars[k.1].from.y then more == []
             else |more| == 1 && Rectangle(more[0]) && more[0][0] == Hull.Pos(open[k], bars[k.0].from.y)
                  && more[0][2] == Hull.Pos(x, bars[k.1].from.y)
    ensures TiledAt(bars, open - {k}, pieces + more, x, p)
  {
    hide Wanted;
    var was, now := OpenOver(bars, open, p), OpenOver(bars, open - {k}, p);
    if more != [] {
      CoveringOne(pieces, more[0], p);
      assert pieces + more == pieces + [more[0]];
    } else {
      assert pieces + more == pieces;
    }
    if k in was {
      assert now == was - {k};
    } else {
      assert now == was;
    }
  }

  function Reopened(open: Open, pairs: set<Pair>, from: int): Open {
    map k | k in pairs :: if k in open then open[k] else from
  }

  predicate SpanBetween(from: int, to: int, e: Bar) {
    Spanning(e, from, to)
  }

  function SpanBy(from: int, to: int): Bar -> bool {
    e => SpanBetween(from, to, e)
  }

  /** Nothing starts or ends inside a slab: a bar spans it exactly when it passes any of its points. */
  lemma SlabBars(bars: seq<Bar>, xs: seq<int>, j: nat, p: Pt, k: nat)
    requires BarsFit(bars, xs) && Increasing(xs) && j + 1 < |xs| && (xs[j] as real) < p.x < (xs[j + 1] as real)
    requires k < |bars|
    ensures SpanBetween(xs[j], xs[j + 1], bars[k]) <==> Over(p, bars[k])
  {
    var e := bars[k];
    var l :| 0 <= l < |xs| && xs[l] == e.from.x;
    var r :| 0 <= r < |xs| && xs[r] == e.to.x;
    assert l < j ==> xs[l] < xs[j];
    assert l > j + 1 ==> xs[l] > xs[j + 1];
    assert r < j ==> xs[r] < xs[j];
    assert r > j + 1 ==> xs[r] > xs[j + 1];
  }

  lemma SlabLists(bars: seq<Bar>, xs: seq<int>, j: nat, p: Pt, c: seq<nat>)
    requires BarsFit(bars, xs) && Increasing(xs) && j + 1 < |xs| && (xs[j] as real) < p.x < (xs[j + 1] as real)
    requires Lists(bars, SpanBy(xs[j], xs[j + 1]), c)
    ensures Lists(bars, OverBy(p), c)
  {
    forall k | 0 <= k < |bars| ensures SpanBy(xs[j], xs[j + 1])(bars[k]) <==> OverBy(p)(bars[k]) {
      SlabBars(bars, xs, j, p, k);
    }
  }

  /** Opening the pairs of the next slab extends the tiling to its right end. */
  lemma OpenSlab(bars: seq<Bar>, xs: seq<int>, j: nat, open: Open, pieces: seq<Piece>, c: seq<nat>)
    requires BarsFit(bars, xs) && Increasing(xs) && j + 1 < |xs| && Level(bars)
    requires SweptTo(bars, xs, open, pieces, xs[j]) && open.Keys <= Chunks(c)
    requires Lists(bars, SpanBy(xs[j], xs[j + 1]), c) && |c| % 2 == 0
    requires forall i, k :: 0 <= i < k < |c| ==> bars[c[i]].from.y <= bars[c[k]].from.y
    ensures SweptTo(bars, xs, Reopened(open, Chunks(c), xs[j]), pieces, xs[j + 1])
  {
    var from, to, pairs := xs[j], xs[j + 1], Chunks(c);
    var now := Reopened(open, pairs, from);
    forall k | k in now ensures Known(bars, k) && now[k] < to {
    }
    forall p | Off(bars, xs, p) ensures TiledAt(bars, now, pieces, to, p) {
      assert TiledAt(bars, open, pieces, from, p);
      if p.x < from as real {
        OpenBefore(bars, open, pairs, from, p);
      } else if p.x < to as real {
        SlabLists(bars, xs, j, p, c);
        SlabDecides(bars, c, p);
        OpenWithin(bars, open, pairs, from, p);
      }
    }
  }

  lemma OpenBefore(bars: seq<Bar>, open: Open, pairs: set<Pair>, from: int, p: Pt)
    requires open.Keys <= pairs && p.x < from as real
    ensures OpenOver(bars, Reopened(open, pairs, from), p) == OpenOver(bars, open, p)
  {
  }

  lemma OpenWithin(bars: seq<Bar>, open: Open, pairs: set<Pair>, from: int, p: Pt)
    requires Opened(bars, open, from) && p.x > from as real
    ensures OpenOver(bars, Reopened(open, pairs, from), p) == PairsOver(bars, pairs, p)
  {
  }

  // ----- Merging

  /** One pair over consecutive slabs, from slab `from` up to but not including slab `to`. */
  datatype Run = Run(pair: Pair, from: nat, to: nat)

  /** The pair bounds all slabs from `from` up to j, and not the one before. */
  predicate Since(slabs: seq<set<Pair>>, k: Pair, from: nat, j: nat) {
    from < j <= |slabs| && (forall i :: from <= i < j ==> k in slabs[i]) && (from > 0 ==> k !in slabs[from - 1])
  }

  /** A pair over as many consecutive slabs as it bounds. */
  predicate Maximal(slabs: seq<set<Pair>>, r: Run) {
    Since(slabs, r.pair, r.from, r.to) && (r.to < |slabs| ==> r.pair !in slabs[r.to])
  }

  predicate CoversSlab(runs: seq<Run>, k: Pair, i: nat) {
    exists r :: r in runs && r.pair == k && r.from <= i < r.to
  }

  predicate RunsDistinct(runs: seq<Run>) {
    forall i, j :: 0 <= i < j < |runs| ==> runs[i] != runs[j]
  }

  /** Up to slab j: every closed run is maximal, every open pair is as long as it can be, and together they
      account for every pair of every slab. */
  predicate Recorded(slabs: seq<set<Pair>>, since: map<Pair, nat>, runs: seq<Run>, j: nat) {
    && j <= |slabs| && RunsDistinct(runs)
    && (forall k :: k in since ==> Since(slabs, k, since[k], j))
    && (forall r :: r in runs ==> Maximal(slabs, r) && r.to <= j && (r.to == j ==> r.pair !in since))
    && (forall i, k :: 0 <= i < j && k in slabs[i] ==> (k in since && since[k] <= i) || CoversSlab(runs, k, i))
  }

  /** The start of each open pair, as the slab it stands for. */
  predicate Aligned(xs: seq<int>, open: Open, since: map<Pair, nat>) {
    since.Keys == open.Keys && forall k :: k in open ==> since[k] < |xs| && open[k] == xs[since[k]]
  }

  function PieceOf(bars: seq<Bar>, xs: seq<int>, r: Run): seq<Piece> {
    if r.pair.0 < |bars| && r.pair.1 < |bars| && r.from < |xs| && r.to < |xs| && BarsRun(bars) then
      CloseRing(bars[r.pair.0], bars[r.pair.1], xs[r.from], xs[r.to])
    else []
  }

  /** The pieces of some runs, in order. */
  function PiecesOf(bars: seq<Bar>, xs: seq<int>, runs: seq<Run>): seq<Piece> {
    if runs == [] then [] else PiecesOf(bars, xs, runs[..|runs| - 1]) + PieceOf(bars, xs, runs[|runs| - 1])
  }

  lemma PiecesSnoc(bars: seq<Bar>, xs: seq<int>, runs: seq<Run>, r: Run)
    ensures PiecesOf(bars, xs, runs + [r]) == PiecesOf(bars, xs, runs) + PieceOf(bars, xs, r)
  {
    assert (runs + [r])[..|runs|] == runs;
  }

  lemma CoverGrows(runs: seq<Run>, r: Run, k: Pair, i: nat)
    requires CoversSlab(runs, k, i) || (r.pair == k && r.from <= i < r.to)
    ensures CoversSlab(runs + [r], k, i)
  {
    if CoversSlab(runs, k, i) {
      var q :| q in runs && q.pair == k && q.from <= i < q.to;
      assert q in runs + [r];
    } else {
      assert r in runs + [r];
    }
  }

  lemma RecordClose(slabs: seq<set<Pair>>, since: map<Pair, nat>, runs: seq<Run>, j: nat, k: Pair)
    requires Recorded(slabs, since, runs, j) && k in since && (j < |slabs| ==> k !in slabs[j])
    ensures Recorded(slabs, since - {k}, runs + [Run(k, since[k], j)], j)
  {
    hide Since;
    var r := Run(k, since[k], j);
    assert r !in runs;
    forall i, l | 0 <= i < j && l in slabs[i]
      ensures (l in since - {k} && since[l] <= i) || CoversSlab(runs + [r], l, i)
    {
      if CoversSlab(runs, l, i) || l == k {
        CoverGrows(runs, r, l, i);
      }
    }
  }

  function Kept(since: map<Pair, nat>, pairs: set<Pair>, j: nat): map<Pair, nat> {
    map k | k in pairs :: if k in since then since[k] else j
  }

  lemma RecordOpen(slabs: seq<set<Pair>>, since: map<Pair, nat>, runs: seq<Run>, j: nat)
    requires Recorded(slabs, since, runs, j) && j + 1 == |slabs|
    requires forall k :: k in since <==> k in slabs[j] && j > 0 && k in slabs[j - 1]
    ensures Recorded(slabs, Kept(since, slabs[j], j), runs, j + 1)
  {
    hide CoversSlab;
    var now := Kept(since, slabs[j], j);
    forall k | k in now ensures Since(slabs, k, now[k], j + 1) {
    }
  }

  lemma RecordSlab(slabs: seq<set<Pair>>, since: map<Pair, nat>, runs: seq<Run>, pairs: set<Pair>)
    requires Recorded(slabs, since, runs, |slabs|) && forall r :: r in runs ==> r.to < |slabs|
    ensures Recorded(slabs + [pairs], since, runs, |slabs|)
  {
    hide CoversSlab;
    var more := slabs + [pairs];
    forall k, from, to | Since(slabs, k, from, to) ensures Since(more, k, from, to) {
    }
    forall r | r in runs ensures Maximal(more, r) && r.to <= |slabs| && (r.to == |slabs| ==> r.pair !in since) {
      assert Maximal(slabs, r);
    }
  }

  /** Two maximal runs of a pair that share a slab are one. */
  lemma MaximalUnique(slabs: seq<set<Pair>>, r: Run, q: Run, i: nat)
    requires Maximal(slabs, r) && Maximal(slabs, q) && r.pair == q.pair && r.from <= i < r.to && q.from <= i < q.to
    ensures r == q
  {
  }

  /** At the end the closed runs are exactly the maximal ones. */
  lemma AllRuns(slabs: seq<set<Pair>>, runs: seq<Run>)
    requires Recorded(slabs, map[], runs, |slabs|)
    ensures forall r :: r in runs <==> Maximal(slabs, r)
  {
    forall r | Maximal(slabs, r) ensures r in runs {
      assert r.pair in slabs[r.from];
      assert CoversSlab(runs, r.pair, r.from);
      var q :| q in runs && q.pair == r.pair && q.from <= r.from < q.to;
      MaximalUnique(slabs, r, q, r.from);
    }
  }

  // ----- The operation

  lemma BarsSnoc(ss: seq<Side>, s: Side)
    ensures Bars(ss + [s]) == if Upright(s) then Bars(ss) else Bars(ss) + [BarOf(s)]
  {
    assert (ss + [s])[..|ss|] == ss;
  }

  /** Adds the bars of one ring. */
  method RingBars(ring: Loop, ghost before: seq<Side>, known: seq<Bar>) returns (bars: seq<Bar>)
    requires known == Bars(before)
    ensures bars == Bars(before + LoopSides(ring))
  {
    hide Bars;
    bars := known;
    ghost var sides := LoopSides(ring);
    assert before + sides[..0] == before;
    for i := 0 to |ring|
      invariant bars == Bars(before + sides[..i])
    {
      var a, b := ring[i], ring[Next(i, |ring|)];
      BarsSnoc(before + sides[..i], Side(a, b));
      assert before + sides[..i] + [Side(a, b)] == before + sides[..i + 1];
      if a.x != b.x {
        bars := bars + [if a.x < b.x then Bar(a, b) else Bar(b, a)];
      }
    }
    assert sides[..|ring|] == sides;
  }

  method CollectBars(rings: seq<Loop>) returns (bars: seq<Bar>)
    ensures bars == Bars(Sides(rings))
  {
    bars := [];
    for r := 0 to |rings|
      invariant bars == Bars(Sides(rings[..r]))
    {
      bars := RingBars(rings[r], Sides(rings[..r]), bars);
      assert rings[..r + 1][..r] == rings[..r];
    }
    assert rings[..|rings|] == rings;
  }

  /** Inserts x unless it is there. */
  method InsertX(xs: seq<int>, x: int) returns (r: seq<int>)
    requires Increasing(xs)
    ensures Increasing(r) && forall y :: y in r <==> y in xs || y == x
  {
    var k := 0;
    while k < |xs| && xs[k] < x
      invariant 0 <= k <= |xs| && forall i :: 0 <= i < k ==> xs[i] < x
    {
      k := k + 1;
    }
    if k < |xs| && xs[k] == x {
      return xs;
    }
    r := xs[..k] + [x] + xs[k..];
    assert xs == xs[..k] + xs[k..];
  }

  method SlabLines(rings: seq<Loop>) returns (xs: seq<int>)
    ensures Increasing(xs) && forall x :: x in xs <==> VertexX(rings, x)
  {
    xs := [];
    for r := 0 to |rings|
      invariant Increasing(xs)
      invariant forall x :: x in xs <==> VertexX(rings[..r], x)
    {
      for i := 0 to |rings[r]|
        invariant Increasing(xs)
        invariant forall x :: x in xs <==> VertexX(rings[..r], x) || exists j :: 0 <= j < i && rings[r][j].x == x
      {
        xs := InsertX(xs, rings[r][i].x);
      }
      forall x
        ensures VertexX(rings[..r + 1], x) <==>
                VertexX(rings[..r], x) || exists j :: 0 <= j < |rings[r]| && rings[r][j].x == x
      {
        VertexSplit(rings[..r + 1], x);
        assert rings[..r + 1][..r] == rings[..r];
      }
    }
    assert rings[..|rings|] == rings;
  }

  lemma VertexSplit(rings: seq<Loop>, x: int)
    requires |rings| > 0
    ensures var n := |rings| - 1;
            VertexX(rings, x) <==> VertexX(rings[..n], x) || exists j :: 0 <= j < |rings[n]| && rings[n][j].x == x
  {
    var n := |rings| - 1;
    if VertexX(rings, x) {
      var i, j :| 0 <= i < |rings| && 0 <= j < |rings[i]| && rings[i][j].x == x;
      assert i < n ==> rings[..n][i][j].x == x;
    }
    if VertexX(rings[..n], x) {
      VertexPrefix(rings, x);
    }
  }

  /** The bars across a slab, sorted by their height in its middle; equal heights keep their order. */
  method CrossingBars(bars: seq<Bar>, from: int, to: int) returns (c: seq<nat>)
    requires BarsRun(bars)
    ensures Lists(bars, SpanBy(from, to), c) && Ordered(bars, c, (from + to) as real / 2.0)
  {
    hide YAt, Lists;
    var middle := (from + to) as real / 2.0;
    c := [];
    NothingListed(SpanBy(from, to));
    assert bars[..0] == [];
    for i := 0 to |bars|
      invariant forall k :: 0 <= k < |c| ==> c[k] < |bars|
      invariant Lists(bars[..i], SpanBy(from, to), c) && Ordered(bars, c, middle)
    {
      if Spanning(bars[i], from, to) {
        var at := 0;
        while at < |c| && YAt(bars[c[at]], middle) <= YAt(bars[i], middle)
          invariant 0 <= at <= |c|
          invariant forall k :: 0 <= k < at ==> YAt(bars[c[k]], middle) <= YAt(bars[i], middle)
        {
          at := at + 1;
        }
        Inserted(bars, c, i, at, SpanBy(from, to));
        InsertedOrder(bars, c, i, at, middle);
        c := c[..at] + [i] + c[at..];
      } else {
        NotInserted(bars, c, i, SpanBy(from, to));
      }
    }
    assert bars[..|bars|] == bars;
  }

  lemma NothingListed(f: Bar -> bool)
    ensures Lists([], f, [])
  {
  }

  lemma NotInserted(bars: seq<Bar>, c: seq<nat>, i: nat, f: Bar -> bool)
    requires i < |bars| && Lists(bars[..i], f, c) && !f(bars[i])
    ensures Lists(bars[..i + 1], f, c)
  {
    forall k | 0 <= k < i + 1 && f(bars[..i + 1][k]) ensures k in c {
      assert k < i && f(bars[..i][k]);
    }
    forall k | 0 <= k < |c| ensures c[k] < i + 1 && f(bars[..i + 1][c[k]]) {
      assert f(bars[..i][c[k]]);
    }
  }

  /** Where the elements of a sequence are after an insertion. */
  lemma Shifted(c: seq<nat>, i: nat, at: nat)
    requires at <= |c|
    ensures var d := c[..at] + [i] + c[at..];
            && |d| == |c| + 1 && d[at] == i
            && (forall k :: 0 <= k < at ==> d[k] == c[k]) && (forall k :: at < k < |d| ==> d[k] == c[k - 1])
            && (forall k :: k in c ==> k in d)
  {
    assert c == c[..at] + c[at..];
  }

  lemma Inserted(bars: seq<Bar>, c: seq<nat>, i: nat, at: nat, f: Bar -> bool)
    requires i < |bars| && Lists(bars[..i], f, c) && f(bars[i]) && at <= |c|
    ensures Lists(bars[..i + 1], f, c[..at] + [i] + c[at..])
  {
    var d := c[..at] + [i] + c[at..];
    Shifted(c, i, at);
    forall k | 0 <= k < |d| ensures d[k] < i + 1 && f(bars[..i + 1][d[k]]) {
      if k != at {
        var was := if k < at then k else k - 1;
        assert d[k] == c[was] && f(bars[..i][c[was]]);
      }
    }
    forall k | 0 <= k < i + 1 && f(bars[..i + 1][k]) ensures k in d {
      assert k < i ==> f(bars[..i][k]);
    }
  }

  lemma InsertedOrder(bars: seq<Bar>, c: seq<nat>, i: nat, at: nat, x: real)
    requires BarsRun(bars) && i < |bars| && at <= |c| && (forall k :: 0 <= k < |c| ==> c[k] < |bars|)
    requires Ordered(bars, c, x)
    requires forall k :: 0 <= k < at ==> YAt(bars[c[k]], x) <= YAt(bars[i], x)
    requires at < |c| ==> YAt(bars[i], x) < YAt(bars[c[at]], x)
    ensures var d := c[..at] + [i] + c[at..]; (forall k :: 0 <= k < |d| ==> d[k] < |bars|) && Ordered(bars, d, x)
  {
    hide YAt;
    var d := c[..at] + [i] + c[at..];
    Shifted(c, i, at);
    forall k, l | 0 <= k < l < |d| ensures YAt(bars[d[k]], x) <= YAt(bars[d[l]], x) {
      if k == at {
        assert d[l] == c[l - 1];
        assert at < l - 1 ==> YAt(bars[c[at]], x) <= YAt(bars[c[l - 1]], x);
      }
    }
  }

  /** What the sweep keeps at slab line j, for any bars. */
  ghost predicate Traced(bars: seq<Bar>, xs: seq<int>, t: Trace, open: Open, pieces: seq<Piece>, j: nat) {
    && j < |xs| && Recorded(t.slabs, t.since, t.runs, j) && Aligned(xs, open, t.since) && InRange(bars, open)
    && pieces == PiecesOf(bars, xs, t.runs)
  }

  /** The history of the sweep: the pairs of each slab, the slab each open pair started at, and the closed runs. */
  datatype Trace = Trace(slabs: seq<set<Pair>>, since: map<Pair, nat>, runs: seq<Run>)

  function Ended(t: Trace, k: Pair, j: nat): Trace
    requires k in t.since
  {
    t.(since := t.since - {k}, runs := t.runs + [Run(k, t.since[k], j)])
  }

  lemma TraceClose(bars: seq<Bar>, xs: seq<int>, t: Trace, open: Open, pieces: seq<Piece>, j: nat, k: Pair)
    requires BarsRun(bars) && Traced(bars, xs, t, open, pieces, j) && k in open && (j < |t.slabs| ==> k !in t.slabs[j])
    ensures k in t.since
    ensures Traced(bars, xs, Ended(t, k, j), open - {k}, pieces + CloseRing(bars[k.0], bars[k.1], open[k], xs[j]), j)
  {
    hide Recorded, CloseRing;
    RecordClose(t.slabs, t.since, t.runs, j, k);
    PiecesSnoc(bars, xs, t.runs, Run(k, t.since[k], j));
  }

  /** Closes the given pairs at slab line j, in any order. */
  method ClosePairs(bars: seq<Bar>, xs: seq<int>, open: Open, pieces: seq<Piece>, ended: set<Pair>, j: nat,
                    ghost t: Trace)
    returns (left: Open, out: seq<Piece>, ghost u: Trace)
    requires BarsRun(bars) && Traced(bars, xs, t, open, pieces, j) && ended <= open.Keys
    requires j < |t.slabs| ==> ended !! t.slabs[j]
    requires Level(bars) ==> SweptTo(bars, xs, open, pieces, xs[j])
    ensures left == open - ended && u.slabs == t.slabs
    ensures Traced(bars, xs, u, left, out, j)
    ensures Level(bars) ==> SweptTo(bars, xs, left, out, xs[j])
  {
    hide SweptTo, CloseRing, Level, Recorded, PiecesOf;
    left, out, u := open, pieces, t;
    var todo := ended;
    while todo != {}
      invariant todo <= ended && left == open - (ended - todo) && u.slabs == t.slabs
      invariant Traced(bars, xs, u, left, out, j)
      invariant Level(bars) ==> SweptTo(bars, xs, left, out, xs[j])
      decreases todo
    {
      var k :| k in todo;
      assert k in left;
      if Level(bars) {
        CloseOne(bars, xs, left, out, xs[j], k);
      }
      TraceClose(bars, xs, u, left, out, j, k);
      u := Ended(u, k, j);
      out := out + CloseRing(bars[k.0], bars[k.1], left[k], xs[j]);
      left := left - {k};
      todo := todo - {k};
    }
  }

  /** A vertical line between slab lines crosses an even number of bars. */
  ghost predicate EvenAcross(bars: seq<Bar>, xs: seq<int>) {
    forall p: Pt :: (forall i :: 0 <= i < |xs| ==> xs[i] as real != p.x) ==> !Odd(bars, OverBy(p))
  }

  lemma SlabEven(bars: seq<Bar>, xs: seq<int>, j: nat, c: seq<nat>)
    requires EvenAcross(bars, xs) && BarsFit(bars, xs) && Increasing(xs) && j + 1 < |xs|
    requires Lists(bars, SpanBy(xs[j], xs[j + 1]), c)
    ensures |c| % 2 == 0
  {
    var p := Pt((xs[j] + xs[j + 1]) as real / 2.0, 0.0);
    assert (xs[j] as real) < p.x < xs[j + 1] as real;
    forall i | 0 <= i < |xs| ensures xs[i] as real != p.x {
      assert i < j ==> xs[i] < xs[j];
      assert i > j + 1 ==> xs[i] > xs[j + 1];
    }
    SlabLists(bars, xs, j, p, c);
    ListParity(bars, OverBy(p), c);
  }

  lemma OrderedLevel(bars: seq<Bar>, c: seq<nat>, x: real)
    requires BarsRun(bars) && Level(bars) && (forall i :: 0 <= i < |c| ==> c[i] < |bars|) && Ordered(bars, c, x)
    ensures forall i, k :: 0 <= i < k < |c| ==> bars[c[i]].from.y <= bars[c[k]].from.y
  {
    hide YAt;
    forall i, k | 0 <= i < k < |c| ensures bars[c[i]].from.y <= bars[c[k]].from.y {
      LevelY(bars[c[i]], x);
      LevelY(bars[c[k]], x);
      assert YAt(bars[c[i]], x) <= YAt(bars[c[k]], x);
    }
  }

  lemma {:induction false} NothingBeyond(bars: seq<Bar>, p: Pt)
    requires forall i :: 0 <= i < |bars| ==> p.x < bars[i].from.x as real || p.x > bars[i].to.x as real
    ensures Wanted(bars, p) == 0
  {
    OddNone(bars, UnderBy(p));
  }

  lemma Outermost(bars: seq<Bar>, xs: seq<int>, p: Pt)
    requires BarsFit(bars, xs) && Increasing(xs) && |xs| > 0
    requires p.x < xs[0] as real || p.x > xs[|xs| - 1] as real
    ensures Wanted(bars, p) == 0
  {
    hide Wanted;
    forall i | 0 <= i < |bars| ensures p.x < bars[i].from.x as real || p.x > bars[i].to.x as real {
      var l :| 0 <= l < |xs| && xs[l] == bars[i].from.x;
      var r :| 0 <= r < |xs| && xs[r] == bars[i].to.x;
      assert 0 < l ==> xs[0] < xs[l];
      assert r < |xs| - 1 ==> xs[r] < xs[|xs| - 1];
    }
    NothingBeyond(bars, p);
  }

  lemma FitRuns(bars: seq<Bar>, xs: seq<int>)
    requires BarsFit(bars, xs)
    ensures BarsRun(bars)
  {
  }

  /** A bar starts on a slab line. */
  lemma BarsNeedLines(bars: seq<Bar>, xs: seq<int>)
    requires BarsFit(bars, xs)
    ensures |bars| > 0 ==> |xs| > 0
  {
    if |bars| > 0 {
      assert bars[0].from.x in xs;
    }
  }

  lemma NoLines(bars: seq<Bar>, p: Pt)
    requires BarsFit(bars, [])
    ensures Covering([], p) == Wanted(bars, p)
  {
    BarsNeedLines(bars, []);
  }

  /** The pairs of slab j: the bars across it taken two by two, bottom to top. */
  ghost predicate PairedUp(bars: seq<Bar>, xs: seq<int>, slabs: seq<set<Pair>>, j: nat)
    requires j < |slabs| && j + 1 < |xs| && BarsRun(bars)
  {
    exists c :: Lists(bars, SpanBy(xs[j], xs[j + 1]), c) && |c| % 2 == 0
                && Ordered(bars, c, (xs[j] + xs[j + 1]) as real / 2.0) && slabs[j] == Chunks(c)
  }

  ghost predicate AllPairedUp(bars: seq<Bar>, xs: seq<int>, slabs: seq<set<Pair>>) {
    BarsRun(bars) && |slabs| <= |xs| && forall j :: 0 <= j < |slabs| && j + 1 < |xs| ==> PairedUp(bars, xs, slabs, j)
  }

  /** The pieces are those of the maximal runs of pairs, each once. */
  ghost predicate MergedFrom(bars: seq<Bar>, xs: seq<int>, t: Trace, pieces: seq<Piece>) {
    && |t.slabs| == (if xs == [] then 0 else |xs| - 1) && AllPairedUp(bars, xs, t.slabs)
    && RunsDistinct(t.runs) && (forall r :: r in t.runs <==> Maximal(t.slabs, r))
    && pieces == PiecesOf(bars, xs, t.runs)
  }

  lemma TraceSlab(bars: seq<Bar>, xs: seq<int>, t: Trace, open: Open, pieces: seq<Piece>, j: nat, pairs: set<Pair>)
    requires Traced(bars, xs, t, open, pieces, j) && |t.slabs| == j && forall r :: r in t.runs ==> r.to < j
    ensures Traced(bars, xs, t.(slabs := t.slabs + [pairs]), open, pieces, j)
  {
    hide Recorded;
    RecordSlab(t.slabs, t.since, t.runs, pairs);
  }

  lemma TraceOpen(bars: seq<Bar>, xs: seq<int>, t: Trace, open: Open, pieces: seq<Piece>, j: nat, pairs: set<Pair>)
    requires Traced(bars, xs, t, open, pieces, j) && |t.slabs| == j + 1 < |xs| && pairs == t.slabs[j]
    requires forall k :: k in pairs ==> k.0 < |bars| && k.1 < |bars|
    requires forall k :: k in open <==> k in pairs && j > 0 && k in t.slabs[j - 1]
    ensures Traced(bars, xs, t.(since := Kept(t.since, pairs, j)), Reopened(open, pairs, xs[j]), pieces, j + 1)
    ensures forall r :: r in t.runs ==> r.to < j + 1
  {
    RecordOpen(t.slabs, t.since, t.runs, j);
  }

  lemma PairedUpMore(bars: seq<Bar>, xs: seq<int>, slabs: seq<set<Pair>>, c: seq<nat>)
    requires AllPairedUp(bars, xs, slabs) && |slabs| + 1 < |xs|
    requires Lists(bars, SpanBy(xs[|slabs|], xs[|slabs| + 1]), c) && |c| % 2 == 0
    requires Ordered(bars, c, (xs[|slabs|] + xs[|slabs| + 1]) as real / 2.0)
    ensures AllPairedUp(bars, xs, slabs + [Chunks(c)])
  {
    hide Lists, Ordered, Chunks;
    var more := slabs + [Chunks(c)];
    forall j | 0 <= j < |more| && j + 1 < |xs| ensures PairedUp(bars, xs, more, j) {
      if j < |slabs| {
        assert PairedUp(bars, xs, slabs, j);
      }
    }
  }

  /** What holds at slab line j, before its slab is entered. */
  ghost predicate AtLine(bars: seq<Bar>, xs: seq<int>, t: Trace, open: Open, pieces: seq<Piece>, j: nat) {
    && |t.slabs| == j && Traced(bars, xs, t, open, pieces, j) && AllPairedUp(bars, xs, t.slabs)
    && (forall k :: k in open <==> j > 0 && k in t.slabs[j - 1]) && (forall r :: r in t.runs ==> r.to < j)
    && (Level(bars) ==> SweptTo(bars, xs, open, pieces, xs[j]))
  }

  /** One slab: pairs that end are closed at its left line, pairs that begin are opened there. */
  method EnterSlab(bars: seq<Bar>, xs: seq<int>, open: Open, pieces: seq<Piece>, j: nat, ghost t: Trace)
    returns (now: Open, out: seq<Piece>, ghost u: Trace)
    requires BarsRun(bars) && BarsFit(bars, xs) && Increasing(xs) && EvenAcross(bars, xs)
    requires j + 1 < |xs| && AtLine(bars, xs, t, open, pieces, j)
    ensures AtLine(bars, xs, u, now, out, j + 1)
  {
    hide SweptTo, Lists, EvenAcross, BarsFit, BarsRun, Level, Increasing, Chunks, Ordered, Traced, AllPairedUp;
    var from, to := xs[j], xs[j + 1];
    var crossing := CrossingBars(bars, from, to);
    SlabEven(bars, xs, j, crossing);
    ListsInRange(bars, SpanBy(from, to), crossing);
    PairedUpMore(bars, xs, t.slabs, crossing);
    var pairs := Chunks(crossing);
    ChunksInRange(bars, crossing);
    TraceSlab(bars, xs, t, open, pieces, j, pairs);
    ghost var entered := t.(slabs := t.slabs + [pairs]);
    var ended := set k | k in open && k !in pairs;
    now, out, u := ClosePairs(bars, xs, open, pieces, ended, j, entered);
    if Level(bars) {
      OrderedLevel(bars, crossing, (from + to) as real / 2.0);
      OpenSlab(bars, xs, j, now, out, crossing);
    }
    TraceOpen(bars, xs, u, now, out, j, pairs);
    u := u.(since := Kept(u.since, pairs, j));
    now := Reopened(now, pairs, from);
  }

  /** The slab loop: the pieces are the maximal runs, and when all bars are level they cover every point off the
      lines exactly as often as wanted. */
  method Sweep(bars: seq<Bar>, xs: seq<int>) returns (pieces: seq<Piece>, ghost t: Trace)
    requires BarsFit(bars, xs) && Increasing(xs) && EvenAcross(bars, xs)
    ensures MergedFrom(bars, xs, t, pieces)
    ensures Level(bars) ==> AllRectangles(pieces)
    ensures Level(bars) ==> forall p :: Off(bars, xs, p) ==> Covering(pieces, p) == Wanted(bars, p)
  {
    hide SweptTo, EvenAcross, BarsFit, BarsRun, Level, Wanted, Covering, Off, Recorded, AllPairedUp, MergedFrom,
      Increasing;
    pieces, t := [], Trace([], map[], []);
    FitRuns(bars, xs);
    NothingRecorded();
    NothingPaired(bars, xs);
    if xs == [] {
      forall p ensures Covering([], p) == Wanted(bars, p) {
        NoLines(bars, p);
      }
      assert AllRectangles([]);
      TraceEmpty(bars);
      return;
    }
    var open: Open := map[];
    StartSwept(bars, xs);
    assert AtLine(bars, xs, t, open, pieces, 0);
    hide AllRectangles;
    for j := 0 to |xs| - 1
      invariant AtLine(bars, xs, t, open, pieces, j)
    {
      open, pieces, t := EnterSlab(bars, xs, open, pieces, j, t);
    }
    open, pieces, t := ClosePairs(bars, xs, open, pieces, open.Keys, |xs| - 1, t);
    TraceEnds(bars, xs, t, open, pieces);
    if Level(bars) {
      EndSwept(bars, xs, open, pieces);
    }
  }

  lemma NothingRecorded()
    ensures Recorded([], map[], [], 0)
  {
  }

  lemma NothingPaired(bars: seq<Bar>, xs: seq<int>)
    requires BarsRun(bars)
    ensures AllPairedUp(bars, xs, [])
  {
  }

  lemma TraceEmpty(bars: seq<Bar>)
    requires BarsRun(bars)
    ensures MergedFrom(bars, [], Trace([], map[], []), [])
  {
  }

  lemma TraceEnds(bars: seq<Bar>, xs: seq<int>, t: Trace, open: Open, pieces: seq<Piece>)
    requires |xs| > 0 && |t.slabs| == |xs| - 1 && AllPairedUp(bars, xs, t.slabs)
    requires open == map[] && Traced(bars, xs, t, open, pieces, |xs| - 1)
    ensures MergedFrom(bars, xs, t, pieces)
  {
    hide AllPairedUp, PiecesOf;
    assert t.since == map[];
    AllRuns(t.slabs, t.runs);
  }

  lemma ChunksInRange(bars: seq<Bar>, c: seq<nat>)
    requires forall i :: 0 <= i < |c| ==> c[i] < |bars|
    ensures forall k :: k in Chunks(c) ==> k.0 < |bars| && k.1 < |bars|
  {
  }

  lemma ListsInRange(bars: seq<Bar>, f: Bar -> bool, c: seq<nat>)
    requires Lists(bars, f, c)
    ensures forall i :: 0 <= i < |c| ==> c[i] < |bars|
  {
  }

  lemma StartSwept(bars: seq<Bar>, xs: seq<int>)
    requires BarsFit(bars, xs) && Increasing(xs) && |xs| > 0
    ensures SweptTo(bars, xs, map[], [], xs[0])
  {
    hide Wanted;
    forall p | Off(bars, xs, p) ensures TiledAt(bars, map[], [], xs[0], p) {
      if p.x < xs[0] as real {
        Outermost(bars, xs, p);
        assert OpenOver(bars, map[], p) == {};
      }
    }
  }

  lemma EndSwept(bars: seq<Bar>, xs: seq<int>, open: Open, pieces: seq<Piece>)
    requires BarsFit(bars, xs) && Increasing(xs) && |xs| > 0 && open == map[]
    requires SweptTo(bars, xs, open, pieces, xs[|xs| - 1])
    ensures AllRectangles(pieces) && forall p :: Off(bars, xs, p) ==> Covering(pieces, p) == Wanted(bars, p)
  {
    hide Wanted, Covering;
    forall p | Off(bars, xs, p) ensures Covering(pieces, p) == Wanted(bars, p) {
      assert TiledAt(bars, open, pieces, xs[|xs| - 1], p);
      assert OpenOver(bars, open, p) == {};
      if p.x > xs[|xs| - 1] as real {
        Outermost(bars, xs, p);
      }
    }
  }

  lemma BarFacts(rings: seq<Loop>, xs: seq<int>, e: Bar)
    requires (forall x :: x in xs <==> VertexX(rings, x)) && e in Bars(Sides(rings))
    ensures e.from.x < e.to.x && e.from.x in xs && e.to.x in xs
    ensures Rectilinear(rings) ==> e.from.y == e.to.y
    ensures forall p :: Rectilinear(rings) && Generic(rings, p) ==> e.from.y as real != p.y
  {
    hide VertexX;
    BarSource(Sides(rings), e);
    var s :| s in Sides(rings) && !Upright(s) && e == BarOf(s);
    SideVertices(rings, s);
  }

  lemma BarsEven(rings: seq<Loop>, xs: seq<int>)
    requires forall x :: x in xs <==> VertexX(rings, x)
    ensures EvenAcross(Bars(Sides(rings)), xs)
  {
    hide VertexX;
    var bars := Bars(Sides(rings));
    forall p: Pt | forall i :: 0 <= i < |xs| ==> xs[i] as real != p.x ensures !Odd(bars, OverBy(p)) {
      forall x | VertexX(rings, x) ensures x as real != p.x {
        assert x in xs;
      }
      EvenCrossings(rings, p);
    }
  }

  lemma BarsReady(rings: seq<Loop>, xs: seq<int>)
    requires forall x :: x in xs <==> VertexX(rings, x)
    ensures var bars := Bars(Sides(rings));
            && BarsFit(bars, xs) && EvenAcross(bars, xs) && (Rectilinear(rings) ==> Level(bars))
            && forall p :: Rectilinear(rings) && Generic(rings, p) ==> Off(bars, xs, p)
  {
    var bars := Bars(Sides(rings));
    BarsEven(rings, xs);
    hide VertexX, Rectilinear, EvenAcross;
    forall i | 0 <= i < |bars|
      ensures bars[i].from.x < bars[i].to.x && bars[i].from.x in xs && bars[i].to.x in xs
      ensures Rectilinear(rings) ==> bars[i].from.y == bars[i].to.y
    {
      BarFacts(rings, xs, bars[i]);
    }
    forall p | Rectilinear(rings) && Generic(rings, p) ensures Off(bars, xs, p) {
      forall i | 0 <= i < |xs| ensures xs[i] as real != p.x {
        assert xs[i] in xs && VertexX(rings, xs[i]);
      }
      forall i | 0 <= i < |bars| ensures bars[i].from.y as real != p.y {
        BarFacts(rings, xs, bars[i]);
      }
    }
  }

  /** `trapezoids`. For any rings: one piece for each pair of bars over a maximal run of consecutive slabs. For
      rectilinear rings: rectangles of positive area such that a point on no edge line and no slab line lies in
      exactly one of them if the even-odd rule puts it in the region, and in none otherwise. */
  method Trapezoids(rings: seq<Loop>) returns (pieces: seq<Piece>, ghost xs: seq<int>, ghost t: Trace)
    ensures Increasing(xs) && (forall x :: x in xs <==> VertexX(rings, x))
    ensures MergedFrom(Bars(Sides(rings)), xs, t, pieces)
    ensures Rectilinear(rings) ==> AllRectangles(pieces)
    ensures Rectilinear(rings) ==>
              forall p :: Generic(rings, p) ==> Covering(pieces, p) == One(InRegion(RealBoundary(rings), p))
  {
    hide MergedFrom;
    var bars := CollectBars(rings);
    var lines := SlabLines(rings);
    xs := lines;
    BarsReady(rings, lines);
    pieces, t := Sweep(bars, lines);
    if Rectilinear(rings) {
      hide Generic, Off, Covering, InRegion, VertexX;
      forall p | Generic(rings, p) ensures Covering(pieces, p) == One(InRegion(RealBoundary(rings), p)) {
        DownwardRay(rings, p);
      }
    }
  }
}
