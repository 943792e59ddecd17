/** Where the distance between a point and a segment, or between two segments, is reached. */
module Nearest {
  import opened Plane

  function Len2(a: Pt, b: Pt): real {
    Dist2(a, b)
  }

  function Dot(a: Pt, b: Pt, p: Pt): real {
    Mul(p.x - a.x, b.x - a.x) + Mul(p.y - a.y, b.y - a.y)
  }

  /** The point of the closed segment a-b nearest to p. */
  function Foot(a: Pt, b: Pt, p: Pt): Pt {
    if Len2(a, b) == 0.0 || Dot(a, b, p) <= 0.0 then a
    else if Dot(a, b, p) >= Len2(a, b) then b
    else Lerp(a, b, Dot(a, b, p) / Len2(a, b))
  }

  lemma SqNeg(u: real)
    ensures Sq(-u) == Sq(u)
  {
    MulNeg(u, u);
  }

  lemma Dist2Nonneg(p: Pt, q: Pt)
    ensures 0.0 <= Dist2(p, q)
    ensures Dist2(p, q) == 0.0 <==> p == q
    ensures Dist2(p, q) == Dist2(q, p)
  {
    SqNeg(q.x - p.x);
    SqNeg(q.y - p.y);
    assert -(q.x - p.x) == p.x - q.x && -(q.y - p.y) == p.y - q.y;
    if p.x == q.x && p.y == q.y { SamePoint(p, q); }
  }

  /** The squared distance along a segment, less its value at the start. */
  function Quad(l2: real, d: real, s: real): real {
    s * s * l2 - 2.0 * s * d
  }

  lemma AxisLerp(u: real, v: real, p: real, s: real)
    ensures Sq(Along(u, v, s) - p) == Sq(p - u) + Quad(Sq(v - u), Mul(p - u, v - u), s)
  {
  }

  lemma QuadSum(l: real, m: real, d: real, e: real, s: real)
    ensures Quad(l + m, d + e, s) == Quad(l, d, s) + Quad(m, e, s)
  {
  }

  lemma Dist2Lerp(a: Pt, b: Pt, p: Pt, s: real)
    ensures Dist2(p, Lerp(a, b, s)) == Dist2(a, p) + Quad(Len2(a, b), Dot(a, b, p), s)
  {
    AxisLerp(a.x, b.x, p.x, s);
    AxisLerp(a.y, b.y, p.y, s);
    hide Sq, Quad, Mul, Along;
    QuadSum(Sq(b.x - a.x), Sq(b.y - a.y), Mul(p.x - a.x, b.x - a.x), Mul(p.y - a.y, b.y - a.y), s);
  }

  lemma Lagrange(a: Pt, b: Pt, p: Pt)
    ensures Dist2(a, p) * Len2(a, b) ==
            Dot(a, b, p) * Dot(a, b, p) + Orient(a, b, p) * Orient(a, b, p)
  {
    var dx, dy, ex, ey := b.x - a.x, b.y - a.y, p.x - a.x, p.y - a.y;
    assert (ex * ex + ey * ey) * (dx * dx + dy * dy) ==
           (ex * dx + ey * dy) * (ex * dx + ey * dy) + (dx * ey - dy * ex) * (dx * ey - dy * ex);
  }

  /** Inside the segment the squared distance is cross squared over length squared. */
  lemma FootDistance(a: Pt, b: Pt, p: Pt)
    requires Len2(a, b) != 0.0 && 0.0 < Dot(a, b, p) < Len2(a, b)
    ensures Dist2(p, Foot(a, b, p)) * Len2(a, b) == Orient(a, b, p) * Orient(a, b, p)
  {
    Dist2Lerp(a, b, p, Dot(a, b, p) / Len2(a, b));
    Lagrange(a, b, p);
    QuadAtVertex(Dist2(a, p), Len2(a, b), Dot(a, b, p));
  }

  lemma QuadAtVertex(d0: real, l2: real, d: real)
    requires l2 != 0.0
    ensures (d0 + Quad(l2, d, d / l2)) * l2 == d0 * l2 - d * d
  {
    var f := d / l2;
    assert f * l2 == d;
    assert Quad(l2, d, f) == f * (f * l2) - 2.0 * f * d;
    assert Quad(l2, d, f) == -(f * d);
    assert (d0 + Quad(l2, d, f)) * l2 == d0 * l2 - (f * l2) * d;
  }

  /** A parabola is least at 0, at 1 or at its vertex. */
  lemma QuadRight(l2: real, d: real, s: real)
    requires 0.0 <= l2 && 0.0 <= s && d <= 0.0
    ensures Quad(l2, d, 0.0) <= Quad(l2, d, s)
  {
    MulNonneg(Sq(s), l2);
    MulNonneg(s, -d);
    assert Quad(l2, d, s) == Mul(Sq(s), l2) + 2.0 * Mul(s, -d);
  }

  lemma QuadLeft(l2: real, d: real, s: real)
    requires 0.0 <= l2 <= d && s <= 1.0
    ensures Quad(l2, d, 1.0) <= Quad(l2, d, s)
  {
    MulNonneg(1.0 - s, d - l2);
    MulNonneg(Sq(1.0 - s), l2);
    assert Quad(l2, d, s) - Quad(l2, d, 1.0) == 2.0 * Mul(1.0 - s, d - l2) + Mul(Sq(1.0 - s), l2);
  }

  lemma QuadVertex(l2: real, d: real, f: real, s: real)
    requires 0.0 <= l2 && d == f * l2
    ensures Quad(l2, d, f) <= Quad(l2, d, s)
  {
    MulNonneg(Sq(s - f), l2);
    assert Mul(Sq(s - f), l2) == s * s * l2 - 2.0 * s * (f * l2) + f * f * l2;
    assert Quad(l2, d, f) == f * f * l2 - 2.0 * f * (f * l2);
  }

  lemma FootParam(a: Pt, b: Pt, p: Pt) returns (f: real)
    ensures 0.0 <= f <= 1.0 && Foot(a, b, p) == Lerp(a, b, f)
    ensures forall s :: 0.0 <= s <= 1.0 ==>
                          Quad(Len2(a, b), Dot(a, b, p), f) <= Quad(Len2(a, b), Dot(a, b, p), s)
  {
    var l2, d := Len2(a, b), Dot(a, b, p);
    Dist2Nonneg(a, b);
    hide Dist2, Dot, Quad;
    if l2 == 0.0 || d <= 0.0 {
      f := 0.0;
      assert Lerp(a, b, 0.0) == a;
      if l2 == 0.0 {
        assert a == b;
        DotOfPoint(a, p);
      }
      forall s | 0.0 <= s <= 1.0 { QuadRight(l2, d, s); }
    } else if d >= l2 {
      f := 1.0;
      assert Lerp(a, b, 1.0) == b;
      forall s | 0.0 <= s <= 1.0 { QuadLeft(l2, d, s); }
    } else {
      f := Ratio(0.0, d, l2);
      assert f == d / l2;
      forall s | 0.0 <= s <= 1.0 { QuadVertex(l2, d, f, s); }
    }
  }

  lemma DotOfPoint(a: Pt, p: Pt)
    ensures Dot(a, a, p) == 0.0
  {
  }

  /** Foot lies on the segment, and no point of the segment is nearer. */
  lemma FootNearest(a: Pt, b: Pt, p: Pt, y: Pt)
    requires On(a, b, y)
    ensures On(a, b, Foot(a, b, p))
    ensures Dist2(p, Foot(a, b, p)) <= Dist2(p, y)
  {
    var f := FootParam(a, b, p);
    var s := OnParam(a, b, y);
    hide *;
    LerpOn(a, b, f);
    Dist2Lerp(a, b, p, f);
    Dist2Lerp(a, b, p, s);
  }

  // ----- Two segments

  predicate Parallel(a: Pt, b: Pt, c: Pt, d: Pt) {
    (b.x - a.x) * (d.y - c.y) - (b.y - a.y) * (d.x - c.x) == 0.0
  }

  /** Leaving the unit square from (s, u) in direction (ds, du), no later than `cap` when the
      point reached then is not inside. */
  lemma LeaveSquare(s: real, u: real, ds: real, du: real, cap: real) returns (l: real)
    requires 0.0 <= s <= 1.0 && 0.0 <= u <= 1.0 && 0.0 <= cap
    requires !(0.0 <= s + cap * ds <= 1.0 && 0.0 <= u + cap * du <= 1.0)
    ensures 0.0 <= l <= cap
    ensures 0.0 <= s + l * ds <= 1.0 && 0.0 <= u + l * du <= 1.0
    ensures s + l * ds == 0.0 || s + l * ds == 1.0 || u + l * du == 0.0 || u + l * du == 1.0
  {
    var ls := LeaveUnit(s, ds, cap);
    var lu := LeaveUnit(u, du, cap);
    if ls <= lu {
      StillInside(u, du, ls, lu);
      l := ls;
    } else {
      StillInside(s, ds, lu, ls);
      l := lu;
    }
  }

  /** The last moment up to `cap` inside the unit interval; a boundary value if before `cap`
      or if `cap` itself is outside. */
  lemma LeaveUnit(s: real, ds: real, cap: real) returns (l: real)
    requires 0.0 <= s <= 1.0 && 0.0 <= cap
    ensures 0.0 <= l <= cap && 0.0 <= s + l * ds <= 1.0
    ensures 0.0 <= s + cap * ds <= 1.0 ==> l == cap
    ensures !(0.0 <= s + cap * ds <= 1.0) ==> s + l * ds == 0.0 || s + l * ds == 1.0
  {
    if 0.0 <= s + cap * ds <= 1.0 {
      l := cap;
    } else {
      var side := if s + cap * ds < 0.0 then 0.0 else 1.0;
      var r := Ratio(s, side, s + cap * ds);
      l := Mul(r, cap);
      assert l * ds == r * (cap * ds);
      MulMono(0.0, r, cap);
      MulMono(r, 1.0, cap);
      assert Mul(0.0, cap) == 0.0 && Mul(1.0, cap) == cap;
    }
  }

  lemma StillInside(s: real, ds: real, l: real, m: real)
    requires 0.0 <= s <= 1.0 && 0.0 <= l <= m && 0.0 <= s + m * ds <= 1.0
    ensures 0.0 <= s + l * ds <= 1.0
  {
    if m > 0.0 {
      var r := Ratio(0.0, l, m);
      assert l * ds == r * (m * ds);
      LerpBetween(s, s + m * ds, r);
      assert Along(s, s + m * ds, r) == s + l * ds;
    }
  }

  /** For two segments with no common point, the distance between any two of their points is
      at least that between an end of one and some point of the other. */
  lemma EndReached(a: Pt, b: Pt, c: Pt, d: Pt, x: Pt, y: Pt) returns (u: Pt, v: Pt)
    requires !Meet(a, b, c, d) && On(a, b, x) && On(c, d, y)
    ensures On(a, b, u) && On(c, d, v) && (u == a || u == b || v == c || v == d)
    ensures Dist2(u, v) <= Dist2(x, y)
  {
    var s := OnParam(a, b, x);
    var r := OnParam(c, d, y);
    if !Parallel(a, b, c, d) {
      u, v := EndReachedCrossing(a, b, c, d, s, r);
    } else if c == d {
      u, v := x, c;
    } else if a == b {
      u, v := a, y;
    } else {
      u, v := EndReachedParallel(a, b, c, d, s, r);
    }
  }

  /** Slide the two points along their segments until one of them reaches an end. */
  lemma SlideOut(a: Pt, b: Pt, c: Pt, d: Pt, s: real, r: real, ds: real, dr: real, cap: real)
    returns (u: Pt, v: Pt, l: real)
    requires 0.0 <= s <= 1.0 && 0.0 <= r <= 1.0 && 0.0 <= cap
    requires !(0.0 <= s + cap * ds <= 1.0 && 0.0 <= r + cap * dr <= 1.0)
    ensures 0.0 <= l <= cap
    ensures u == Lerp(a, b, s + l * ds) && v == Lerp(c, d, r + l * dr)
    ensures On(a, b, u) && On(c, d, v) && (u == a || u == b || v == c || v == d)
  {
    l := LeaveSquare(s, r, ds, dr, cap);
    u, v := Lerp(a, b, s + l * ds), Lerp(c, d, r + l * dr);
    LerpOn(a, b, s + l * ds);
    LerpOn(c, d, r + l * dr);
    LerpEnds(a, b, s + l * ds);
    LerpEnds(c, d, r + l * dr);
  }

  /** Moving at speeds whose difference is (gx, gy) changes the gap at that rate. */
  lemma SlideGap(a: Pt, b: Pt, c: Pt, d: Pt, s: real, r: real, ds: real, dr: real, l: real, gx: real, gy: real)
    requires gx == ds * (b.x - a.x) - dr * (d.x - c.x) && gy == ds * (b.y - a.y) - dr * (d.y - c.y)
    ensures var u, v, x, y := Lerp(a, b, s + l * ds), Lerp(c, d, r + l * dr), Lerp(a, b, s), Lerp(c, d, r);
            && u.x - v.x == (x.x - y.x) + Mul(l, gx)
            && u.y - v.y == (x.y - y.y) + Mul(l, gy)
  {
    AxisGap(a.x, b.x, c.x, d.x, s, r, ds, dr, l, gx);
    AxisGap(a.y, b.y, c.y, d.y, s, r, ds, dr, l, gy);
    hide Along, Mul;
  }

  lemma AxisGap(a: real, b: real, c: real, d: real, s: real, r: real, ds: real, dr: real, l: real, g: real)
    requires g == ds * (b - a) - dr * (d - c)
    ensures Along(a, b, s + l * ds) - Along(c, d, r + l * dr) ==
            (Along(a, b, s) - Along(c, d, r)) + Mul(l, g)
  {
    assert Mul(l, g) == l * (ds * (b - a)) - l * (dr * (d - c));
    assert (l * ds) * (b - a) == l * (ds * (b - a));
    assert (l * dr) * (d - c) == l * (dr * (d - c));
  }

  /** Lines that cross: slide both points towards the crossing. */
  lemma EndReachedCrossing(a: Pt, b: Pt, c: Pt, d: Pt, s: real, r: real) returns (u: Pt, v: Pt)
    requires !Meet(a, b, c, d) && 0.0 <= s <= 1.0 && 0.0 <= r <= 1.0
    requires !Parallel(a, b, c, d)
    ensures On(a, b, u) && On(c, d, v) && (u == a || u == b || v == c || v == d)
    ensures Dist2(u, v) <= Dist2(Lerp(a, b, s), Lerp(c, d, r))
  {
    hide On, Orient, Dist2, Lerp, Parallel;
    var x, y := Lerp(a, b, s), Lerp(c, d, r);
    var ds, dr, l;
    var gx, gy := -(x.x - y.x), -(x.y - y.y);
    ds, dr := Approach(a, b, c, d, gx, gy);
    SlideGap(a, b, c, d, s, r, ds, dr, 1.0, gx, gy);
    assert Mul(1.0, gx) == gx && Mul(1.0, gy) == gy;
    if 0.0 <= s + 1.0 * ds <= 1.0 && 0.0 <= r + 1.0 * dr <= 1.0 {
      LerpOn(a, b, s + 1.0 * ds);
      LerpOn(c, d, r + 1.0 * dr);
      SamePoint(Lerp(a, b, s + 1.0 * ds), Lerp(c, d, r + 1.0 * dr));
      assert false;
    }
    u, v, l := SlideOut(a, b, c, d, s, r, ds, dr, 1.0);
    SlideGap(a, b, c, d, s, r, ds, dr, l, gx, gy);
    Shrink(l, gx, gy, u, v, x, y);
  }

  /** Cramer's rule: the speeds that change the gap at the rate (gx, gy). */
  lemma Approach(a: Pt, b: Pt, c: Pt, d: Pt, gx: real, gy: real) returns (ds: real, dr: real)
    requires !Parallel(a, b, c, d)
    ensures gx == ds * (b.x - a.x) - dr * (d.x - c.x) && gy == ds * (b.y - a.y) - dr * (d.y - c.y)
  {
    var px, py, qx, qy := b.x - a.x, b.y - a.y, d.x - c.x, d.y - c.y;
    var k := px * qy - py * qx;
    ds, dr := (gx * qy - gy * qx) / k, (py * gx - px * gy) / k;
    Cramer(px, py, qx, qy, gx, gy, k, ds, dr);
    assert ds * (b.x - a.x) == ds * px && ds * (b.y - a.y) == ds * py;
    assert dr * (d.x - c.x) == dr * qx && dr * (d.y - c.y) == dr * qy;
  }

  lemma SamePoint(p: Pt, q: Pt)
    requires p.x == q.x && p.y == q.y
    ensures p == q
  {
  }

  lemma LerpEnds(a: Pt, b: Pt, s: real)
    ensures s == 0.0 ==> Lerp(a, b, s) == a
    ensures s == 1.0 ==> Lerp(a, b, s) == b
  {
  }

  lemma Cramer(px: real, py: real, qx: real, qy: real, gx: real, gy: real, k: real, ds: real, dr: real)
    requires k == px * qy - py * qx != 0.0
    requires ds == (gx * qy - gy * qx) / k && dr == (py * gx - px * gy) / k
    ensures ds * px - dr * qx == gx && ds * py - dr * qy == gy
  {
    assert k * ds == gx * qy - gy * qx;
    assert k * dr == py * gx - px * gy;
    assert k * (ds * px - dr * qx) == (k * ds) * px - (k * dr) * qx;
    assert (gx * qy - gy * qx) * px - (py * gx - px * gy) * qx == k * gx;
    CancelFactor(k, ds * px - dr * qx, gx);
    assert k * (ds * py - dr * qy) == (k * ds) * py - (k * dr) * qy;
    assert (gx * qy - gy * qx) * py - (py * gx - px * gy) * qy == k * gy;
    CancelFactor(k, ds * py - dr * qy, gy);
  }

  lemma Shrink(l: real, gx: real, gy: real, u: Pt, v: Pt, x: Pt, y: Pt)
    requires 0.0 <= l <= 1.0 && gx == -(x.x - y.x) && gy == -(x.y - y.y)
    requires u.x - v.x == x.x - y.x + Mul(l, gx) && u.y - v.y == x.y - y.y + Mul(l, gy)
    ensures Dist2(u, v) <= Dist2(x, y)
  {
    var m := 1.0 - l;
    assert v.x - u.x == Mul(m, gx) && v.y - u.y == Mul(m, gy);
    ShrinkSquare(m, gx);
    ShrinkSquare(m, gy);
  }

  lemma ShrinkSquare(m: real, g: real)
    requires 0.0 <= m <= 1.0
    ensures Sq(Mul(m, g)) <= Sq(g)
  {
    assert Sq(Mul(m, g)) == Mul(Sq(m), Sq(g));
    MulMono(m, 1.0, m);
    assert Mul(m, m) == Sq(m) && Mul(1.0, m) == m;
    MulMono(Sq(m), 1.0, Sq(g));
    assert Mul(1.0, Sq(g)) == Sq(g);
  }

  /** Parallel lines: slide both points by the same vector. */
  lemma EndReachedParallel(a: Pt, b: Pt, c: Pt, d: Pt, s: real, r: real) returns (u: Pt, v: Pt)
    requires a != b && 0.0 <= s <= 1.0 && 0.0 <= r <= 1.0
    requires Parallel(a, b, c, d)
    ensures On(a, b, u) && On(c, d, v) && (u == a || u == b || v == c || v == d)
    ensures Dist2(u, v) == Dist2(Lerp(a, b, s), Lerp(c, d, r))
  {
    hide On, Orient, Dist2, Lerp, Parallel;
    var x, y := Lerp(a, b, s), Lerp(c, d, r);
    var ds, dr, l;
    ds, dr := Together(a, b, c, d);
    var cap := 2.0 / dr;
    assert cap * dr == 2.0;
    u, v, l := SlideOut(a, b, c, d, s, r, ds, dr, cap);
    SlideGap(a, b, c, d, s, r, ds, dr, l, 0.0, 0.0);
    assert Mul(l, 0.0) == 0.0;
    SameGap(u, v, x, y);
  }

  lemma SameGap(u: Pt, v: Pt, x: Pt, y: Pt)
    requires u.x - v.x == x.x - y.x && u.y - v.y == x.y - y.y
    ensures Dist2(u, v) == Dist2(x, y)
  {
    assert v.x - u.x == y.x - x.x && v.y - u.y == y.y - x.y;
  }

  /** Parallel directions can move at speeds that keep the gap. */
  lemma Together(a: Pt, b: Pt, c: Pt, d: Pt) returns (ds: real, dr: real)
    requires a != b && Parallel(a, b, c, d)
    ensures 0.0 < dr
    ensures 0.0 == ds * (b.x - a.x) - dr * (d.x - c.x) && 0.0 == ds * (b.y - a.y) - dr * (d.y - c.y)
  {
    if a.x == b.x && a.y == b.y { SamePoint(a, b); }
    var px, py, qx, qy := b.x - a.x, b.y - a.y, d.x - c.x, d.y - c.y;
    assert px * qy - py * qx == 0.0;
    ds, dr := KeepTogether(px, py, qx, qy);
    assert ds * (b.x - a.x) == ds * px && ds * (b.y - a.y) == ds * py;
    assert dr * (d.x - c.x) == dr * qx && dr * (d.y - c.y) == dr * qy;
  }

  lemma KeepTogether(px: real, py: real, qx: real, qy: real) returns (ds: real, dr: real)
    requires px * qy - py * qx == 0.0 && (px != 0.0 || py != 0.0)
    ensures 0.0 < dr && ds * px - dr * qx == 0.0 && ds * py - dr * qy == 0.0
  {
    ds, dr := px * qx + py * qy, Sq(px) + Sq(py);
    assert ds * px - dr * qx == py * (px * qy - py * qx);
    assert ds * py - dr * qy == px * (py * qx - px * qy);
  }

  /** A point of a segment is no farther from one end than the other end is. */
  lemma OnIsNearer(p: Pt, q: Pt, y: Pt)
    requires On(p, q, y)
    ensures Dist2(p, y) <= Dist2(p, q)
  {
    var s := OnParam(p, q, y);
    ShrinkSquare(s, q.x - p.x);
    ShrinkSquare(s, q.y - p.y);
    assert y.x - p.x == Mul(s, q.x - p.x) && y.y - p.y == Mul(s, q.y - p.y);
  }
}
