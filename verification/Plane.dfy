/** The real plane that the exact integer kernel is measured against: points with real
    coordinates, closed segments, and what it means for two segments to share a point. */
module Plane {

  datatype Pt = Pt(x: real, y: real)

  /** Twice the signed area of the triangle a, b, c. */
  function Orient(a: Pt, b: Pt, c: Pt): real {
    (b.x - a.x) * (c.y - a.y) - (b.y - a.y) * (c.x - a.x)
  }

  /** A product with a name: facts about it carry over between equal factors. */
  function Mul(u: real, v: real): real {
    u * v
  }

  lemma MulPos(u: real, v: real)
    requires 0.0 < u && 0.0 < v
    ensures 0.0 < Mul(u, v)
  {
  }

  lemma MulNeg(u: real, v: real)
    ensures Mul(-u, -v) == Mul(u, v)
  {
  }

  lemma MulNonneg(u: real, v: real)
    requires 0.0 <= u && 0.0 <= v
    ensures 0.0 <= Mul(u, v)
  {
  }

  lemma MulMono(u: real, v: real, w: real)
    requires u <= v && 0.0 <= w
    ensures Mul(u, w) <= Mul(v, w)
  {
  }

  function Sq(u: real): (r: real)
    ensures 0.0 <= r
    ensures u != 0.0 ==> 0.0 < r
  {
    if u > 0.0 then
      MulPos(u, u); Mul(u, u)
    else if u < 0.0 then
      MulPos(-u, -u); MulNeg(u, u); Mul(u, u)
    else
      Mul(u, u)
  }

  function Dist2(p: Pt, q: Pt): real {
    Sq(q.x - p.x) + Sq(q.y - p.y)
  }

  function Along(u: real, v: real, s: real): real {
    u + s * (v - u)
  }

  function Lerp(a: Pt, b: Pt, s: real): Pt {
    Pt(Along(a.x, b.x, s), Along(a.y, b.y, s))
  }

  predicate Between(u: real, v: real, w: real) {
    u <= v <= w || w <= v <= u
  }

  predicate InBox(a: Pt, b: Pt, p: Pt) {
    Between(a.x, p.x, b.x) && Between(a.y, p.y, b.y)
  }

  /** p lies on the closed segment a-b. */
  predicate On(a: Pt, b: Pt, p: Pt) {
    Orient(a, b, p) == 0.0 && InBox(a, b, p)
  }

  /** The closed segments p-q and a-b share a real point. */
  ghost predicate Meet(p: Pt, q: Pt, a: Pt, b: Pt) {
    exists x :: On(p, q, x) && On(a, b, x)
  }

  predicate Opposite(u: real, v: real) {
    (u < 0.0 && 0.0 < v) || (v < 0.0 && 0.0 < u)
  }

  /** Each segment has its ends strictly on the two sides of the other. */
  predicate ProperCross(p: Pt, q: Pt, a: Pt, b: Pt) {
    && Opposite(Orient(a, b, p), Orient(a, b, q))
    && Opposite(Orient(p, q, a), Orient(p, q, b))
  }

  // ----- Segments and their parameters

  lemma LerpOn(a: Pt, b: Pt, s: real)
    requires 0.0 <= s <= 1.0
    ensures On(a, b, Lerp(a, b, s))
  {
    LerpBetween(a.x, b.x, s);
    LerpBetween(a.y, b.y, s);
    assert (b.x - a.x) * (s * (b.y - a.y)) == (b.y - a.y) * (s * (b.x - a.x));
  }

  lemma LerpBetween(u: real, v: real, s: real)
    requires 0.0 <= s <= 1.0
    ensures Between(u, Along(u, v, s), v)
  {
    var d := v - u;
    assert s * (v - u) == Mul(s, d);
    if 0.0 <= d {
      MulMono(0.0, s, d);
      MulMono(s, 1.0, d);
      assert Mul(0.0, d) == 0.0 && Mul(1.0, d) == d;
    } else {
      MulMono(0.0, s, -d);
      MulMono(s, 1.0, -d);
      assert Mul(0.0, -d) == 0.0 && Mul(1.0, -d) == -d && Mul(s, -d) == -Mul(s, d);
    }
  }

  /** Every point of a closed segment has a parameter in [0, 1]. */
  lemma OnParam(a: Pt, b: Pt, p: Pt) returns (s: real)
    requires On(a, b, p)
    ensures 0.0 <= s <= 1.0 && p == Lerp(a, b, s)
  {
    if a.x != b.x {
      s := Ratio(a.x, p.x, b.x);
      OtherCoordinate(a.x, b.x, p.x, a.y, b.y, p.y, s);
    } else if a.y != b.y {
      s := Ratio(a.y, p.y, b.y);
      OtherCoordinate(a.y, b.y, p.y, a.x, b.x, p.x, s);
    } else {
      s := 0.0;
    }
  }

  /** On a line, the parameter found on one axis serves the other. */
  lemma OtherCoordinate(ax: real, bx: real, px: real, ay: real, by': real, py: real, s: real)
    requires ax != bx && px == Along(ax, bx, s)
    requires (bx - ax) * (py - ay) == (by' - ay) * (px - ax)
    ensures py == Along(ay, by', s)
  {
    var k, h, u := bx - ax, by' - ay, py - ay;
    assert px - ax == s * k;
    assert k * u == h * (px - ax);
    assert k * u == k * (s * h);
    CancelFactor(k, u, s * h);
    assert s * h == s * (by' - ay);
  }

  lemma CancelFactor(k: real, u: real, v: real)
    requires k != 0.0 && k * u == k * v
    ensures u == v
  {
    assert k * (u - v) == 0.0;
  }

  lemma Ratio(u: real, v: real, w: real) returns (s: real)
    requires u != w && Between(u, v, w)
    ensures 0.0 <= s <= 1.0 && v == Along(u, w, s)
  {
    var d, e := w - u, v - u;
    s := e / d;
    assert e == s * d;
    if 0.0 < d {
      assert 0.0 <= e <= d;
      assert s >= 0.0 && s <= 1.0;
    } else {
      assert d <= e <= 0.0;
      assert s >= 0.0 && s <= 1.0;
    }
  }

  lemma OnEnds(a: Pt, b: Pt)
    ensures On(a, b, a) && On(a, b, b)
  {
  }

  lemma OnSwap(a: Pt, b: Pt, p: Pt)
    ensures On(a, b, p) == On(b, a, p)
  {
    assert Orient(b, a, p) == -Orient(a, b, p);
  }

  /** Orientation is affine along a segment. */
  lemma OrientLerp(a: Pt, b: Pt, p: Pt, q: Pt, s: real)
    ensures Orient(a, b, Lerp(p, q, s)) == (1.0 - s) * Orient(a, b, p) + s * Orient(a, b, q)
  {
    var l := Lerp(p, q, s);
    var ux, uy := b.x - a.x, b.y - a.y;
    assert l.y - a.y == (1.0 - s) * (p.y - a.y) + s * (q.y - a.y);
    assert l.x - a.x == (1.0 - s) * (p.x - a.x) + s * (q.x - a.x);
    assert ux * (l.y - a.y) == (1.0 - s) * (ux * (p.y - a.y)) + s * (ux * (q.y - a.y));
    assert uy * (l.x - a.x) == (1.0 - s) * (uy * (p.x - a.x)) + s * (uy * (q.x - a.x));
  }

  /** A sub-segment lies in the segment. */
  lemma OnTrans(a: Pt, b: Pt, p: Pt, q: Pt, x: Pt)
    requires On(a, b, p) && On(a, b, q) && On(p, q, x)
    ensures On(a, b, x)
  {
    var s := OnParam(p, q, x);
    OrientLerp(a, b, p, q, s);
    LerpBetween(p.x, q.x, s);
    LerpBetween(p.y, q.y, s);
  }
}
