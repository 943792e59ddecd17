/** Walking into a corner: from a point between two boundaries to an edge, along it to the first vertex, and the
    thin wedge at that vertex that no edge enters. */
module Corners {
  import opened Plane
  import opened EvenOdd
  import opened Touching
  import opened Nearest
  import opened Rings
  import opened Kernel
  import opened Perturbation
  import opened Within
  import opened SweptWithin

  // ----- Small balls

  /** A point off every edge has a ball that no edge enters. */
  lemma {:induction false} ClearBall(es: seq<Edge>, v: Pt) returns (t2: real)
    requires !OnAny(es, v)
    ensures 0.0 < t2 && KeepsOff(es, v, t2)
  {
    if es == [] {
      t2 := 1.0;
    } else {
      var n := |es| - 1;
      var e := es[n];
      assert !OnEdge(e, v);
      forall i | 0 <= i < n ensures !OnEdge(es[..n][i], v) {
        assert !OnEdge(es[i], v);
      }
      var r := ClearBall(es[..n], v);
      OnEnds(e.a, e.b);
      FootNearest(e.a, e.b, v, e.a);
      var d := Dist2(v, Foot(e.a, e.b, v));
      Dist2Nonneg(v, Foot(e.a, e.b, v));
      t2 := MinReal(r, d);
      hide Dist2, Foot, On;
      forall k, w | 0 <= k < |es| && OnEdge(es[k], w) ensures t2 <= Dist2(v, w) {
        if k < n {
          assert es[k] == es[..n][k];
        } else {
          FootNearest(e.a, e.b, v, w);
        }
      }
    }
  }

  /** Within a clear ball the answer is that of its centre. */
  lemma SameInBall(es: seq<Edge>, v: Pt, z: Pt, t2: real)
    requires Closed(es) && KeepsOff(es, v, t2) && Dist2(v, z) < t2
    ensures Contain(z, es) == Contain(v, es)
  {
    hide Dist2;
    forall i | 0 <= i < |es| ensures !Meet(v, z, es[i].a, es[i].b) {
      if Meet(v, z, es[i].a, es[i].b) {
        var w :| On(v, z, w) && On(es[i].a, es[i].b, w);
        OnIsNearer(v, z, w);
      }
    }
    Transport(v, z, es);
  }

  /** No vertex is at this height. */
  predicate HeightFree(es: seq<Edge>, h: real) {
    forall i :: 0 <= i < |es| ==> es[i].a.y != h && es[i].b.y != h
  }

  /** Just above y, no vertex has the height of the point. */
  lemma {:induction false} AvoidHeights(es: seq<Edge>, y: real) returns (r: real)
    ensures 0.0 < r && forall h :: y < h < y + r ==> HeightFree(es, h)
  {
    if es == [] {
      r := 1.0;
    } else {
      var n := |es| - 1;
      var e := es[n];
      r := AvoidHeights(es[..n], y);
      if e.a.y > y { r := MinReal(r, e.a.y - y); }
      if e.b.y > y { r := MinReal(r, e.b.y - y); }
      forall h | y < h < y + r ensures HeightFree(es, h) {
        assert HeightFree(es[..n], h);
        forall i | 0 <= i < |es| ensures es[i].a.y != h && es[i].b.y != h {
          if i < n { assert es[i] == es[..n][i]; }
        }
      }
    }
  }

  lemma SmallSquare(t2: real) returns (d: real)
    requires 0.0 < t2
    ensures 0.0 < d && forall e :: 0.0 < e <= d ==> Sq(e) < t2
  {
    d := MinReal(t2, 1.0) / 2.0;
    forall e | 0.0 < e <= d ensures Sq(e) < t2 {
      MulMono(e, 1.0, e);
      assert Mul(1.0, e) == e;
    }
  }

  lemma LiftDistance(x: Pt, d: real)
    ensures Dist2(x, Pt(x.x, x.y + d)) == Sq(d)
  {
    assert Sq(0.0) == 0.0;
  }

  // ----- A wedge no edge enters

  /** The point at parameter u of the way from the corner v to the point b beyond y towards g. */
  function WedgePoint(v: Pt, y: Pt, g: Pt, u: real, b: real): Pt {
    Lerp(v, Lerp(y, g, b), u)
  }

  /** No point of the wedge up to b is on f. */
  ghost predicate WedgeOff(v: Pt, y: Pt, g: Pt, f: Edge, b: real) {
    forall u, c :: 0.0 < u <= 1.0 && 0.0 < c <= b ==> !OnEdge(f, WedgePoint(v, y, g, u, c))
  }

  lemma WedgeOrient(p: Pt, q: Pt, v: Pt, y: Pt, g: Pt, u: real, c: real)
    ensures Orient(p, q, WedgePoint(v, y, g, u, c)) ==
            (1.0 - u) * Orient(p, q, v) + u * ((1.0 - c) * Orient(p, q, y) + c * Orient(p, q, g))
  {
    OrientLerp(p, q, v, Lerp(y, g, c), u);
    OrientLerp(p, q, y, g, c);
  }

  /** An edge on the line of v and y never meets the wedge beside that line. */
  lemma CollinearOff(v: Pt, y: Pt, g: Pt, f: Edge)
    requires v != y && Orient(v, y, g) != 0.0 && Orient(v, y, f.a) == 0.0 && Orient(v, y, f.b) == 0.0
    ensures WedgeOff(v, y, g, f, 1.0)
  {
    forall u, c | 0.0 < u <= 1.0 && 0.0 < c <= 1.0 ensures !OnEdge(f, WedgePoint(v, y, g, u, c)) {
      var p := WedgePoint(v, y, g, u, c);
      WedgeOrient(v, y, v, y, g, u, c);
      assert Orient(v, y, v) == 0.0 && Orient(v, y, y) == 0.0;
      assert Orient(v, y, p) == u * (c * Orient(v, y, g));
      NonzeroProduct(u, c, Orient(v, y, g));
      if OnEdge(f, p) {
        var s := OnParam(f.a, f.b, p);
        OrientLerp(v, y, f.a, f.b, s);
        assert false;
      }
    }
  }

  lemma NonzeroProduct(u: real, c: real, k: real)
    requires u != 0.0 && c != 0.0 && k != 0.0
    ensures u * (c * k) != 0.0
  {
    if u * (c * k) == 0.0 {
      CancelFactor(u, c * k, 0.0);
      CancelFactor(c, k, 0.0);
    }
  }

  /** A linear function at c. */
  function Line(h: real, k: real, c: real): real {
    h + c * k
  }

  /** An edge through the corner, off the line of v and y. */
  lemma ThroughCornerOff(v: Pt, y: Pt, g: Pt, f: Edge) returns (b: real)
    requires OnEdge(f, v) && Orient(f.a, f.b, y) != 0.0
    ensures 0.0 < b <= 1.0 && WedgeOff(v, y, g, f, b)
  {
    var h, k := Orient(f.a, f.b, y), Orient(f.a, f.b, g) - Orient(f.a, f.b, y);
    b := Below(h, k);
    hide Orient, WedgePoint;
    forall u, c | 0.0 < u <= 1.0 && 0.0 < c <= b ensures !OnEdge(f, WedgePoint(v, y, g, u, c)) {
      OffThere(v, y, g, f, h, k, u, c);
    }
  }

  lemma OffThere(v: Pt, y: Pt, g: Pt, f: Edge, h: real, k: real, u: real, c: real)
    requires Orient(f.a, f.b, v) == 0.0 && Orient(f.a, f.b, y) == h && Orient(f.a, f.b, g) == h + k
    requires u != 0.0 && Line(h, k, c) != 0.0
    ensures !OnEdge(f, WedgePoint(v, y, g, u, c))
  {
    WedgeOrient(f.a, f.b, v, y, g, u, c);
    CornerTerm(h, k, u, c);
    hide Orient, WedgePoint, Line;
    if u * Line(h, k, c) == 0.0 {
      CancelFactor(u, Line(h, k, c), 0.0);
    }
  }

  lemma CornerTerm(h: real, k: real, u: real, c: real)
    ensures (1.0 - u) * 0.0 + u * ((1.0 - c) * h + c * (h + k)) == u * Line(h, k, c)
  {
    assert (1.0 - c) * h + c * (h + k) == h + c * k;
  }

  /** A linear function that is not zero at zero is not zero for a while. */
  lemma Below(h: real, k: real) returns (b: real)
    requires h != 0.0
    ensures 0.0 < b <= 1.0 && forall c :: 0.0 < c <= b ==> Line(h, k, c) != 0.0
  {
    var l, a := if k < 0.0 then -k else k, if h < 0.0 then -h else h;
    var m := l + 1.0;
    var q := a / m / 2.0;
    b := MinReal(1.0, q);
    assert q * m == a / 2.0;
    forall c | 0.0 < c <= b ensures Line(h, k, c) != 0.0 {
      MulMono(c, q, m);
      assert Mul(q, m) == q * m;
      assert Mul(c, m) == c * l + c;
      assert c * k == if k < 0.0 then -(c * l) else c * l;
    }
  }

  /** Two segments that share no point are a positive distance apart. */
  lemma SegmentsApart(a: Pt, b: Pt, c: Pt, d: Pt) returns (t2: real)
    requires !Meet(a, b, c, d)
    ensures 0.0 < t2 && forall x, y :: On(a, b, x) && On(c, d, y) ==> t2 <= Dist2(x, y)
  {
    var es, fs := [Edge(c, d)], [Edge(a, b)];
    OnEnds(a, b);
    OnEnds(c, d);
    forall v | v == a || v == b ensures !OnAny(es, v) {
      if OnAny(es, v) { assert false; }
    }
    forall v | v == c || v == d ensures !OnAny(fs, v) {
      if OnAny(fs, v) { assert false; }
    }
    var p := ClearBall(es, a);
    var q := ClearBall(es, b);
    var r := ClearBall(fs, c);
    var s := ClearBall(fs, d);
    t2 := MinReal(MinReal(p, q), MinReal(r, s));
    forall x, y | On(a, b, x) && On(c, d, y) ensures t2 <= Dist2(x, y) {
      var u, w := EndReached(a, b, c, d, x, y);
      Dist2Nonneg(u, w);
      hide Dist2, On;
      assert OnEdge(es[0], w) && OnEdge(fs[0], u);
    }
  }

  lemma WedgeStep(v: Pt, y: Pt, g: Pt, u: real, c: real)
    ensures Dist2(Lerp(v, y, u), WedgePoint(v, y, g, u, c)) == Quad(Dist2(y, g), 0.0, u * c)
  {
    WedgeAxis(v.x, y.x, g.x, u, c);
    WedgeAxis(v.y, y.y, g.y, u, c);
    hide Along, Sq;
    QuadSum(Sq(g.x - y.x), Sq(g.y - y.y), 0.0, 0.0, u * c);
  }

  lemma WedgeAxis(v: real, y: real, g: real, u: real, c: real)
    ensures Sq(Along(v, Along(y, g, c), u) - Along(v, y, u)) == Quad(Sq(g - y), 0.0, u * c)
  {
    var k := g - y;
    assert Along(v, Along(y, g, c), u) - Along(v, y, u) == u * (c * k);
    assert u * (c * k) == (u * c) * k;
    assert Sq((u * c) * k) == (u * c) * (u * c) * (k * k);
  }

  /** An edge away from the segment v-y. */
  lemma FarOff(v: Pt, y: Pt, g: Pt, f: Edge) returns (b: real)
    requires !Meet(v, y, f.a, f.b)
    ensures 0.0 < b <= 1.0 && WedgeOff(v, y, g, f, b)
  {
    var t2 := SegmentsApart(v, y, f.a, f.b);
    Dist2Nonneg(y, g);
    b := QuadSmall(Dist2(y, g), 0.0, t2);
    hide Dist2, Quad, On, WedgePoint;
    forall u, c | 0.0 < u <= 1.0 && 0.0 < c <= b ensures !OnEdge(f, WedgePoint(v, y, g, u, c)) {
      WedgeStep(v, y, g, u, c);
      LerpOn(v, y, u);
      MulMono(u, 1.0, c);
      MulPos(u, c);
      assert Mul(u, c) == u * c && Mul(1.0, c) == c;
    }
  }

  predicate OnLine(v: Pt, y: Pt, f: Edge) {
    Orient(v, y, f.a) == 0.0 && Orient(v, y, f.b) == 0.0
  }

  /** Two points of an edge's line span that line. */
  lemma SameLine(v: Pt, y: Pt, f: Edge)
    requires v != y && Orient(f.a, f.b, v) == 0.0 && Orient(f.a, f.b, y) == 0.0 && f.a != f.b
    ensures OnLine(v, y, f)
  {
    var s := LineParam(f.a, f.b, v);
    var t := LineParam(f.a, f.b, y);
    LerpZero(f.a, f.b);
    LerpOne(f.a, f.b);
    OrientOnLine(f.a, f.b, s, t, 0.0);
    OrientOnLine(f.a, f.b, s, t, 1.0);
  }

  /** An edge that is on the line, or meets v-y at most in the corner, leaves a thin wedge free. */
  lemma EdgeOff(v: Pt, y: Pt, g: Pt, f: Edge) returns (b: real)
    requires v != y && Orient(v, y, g) != 0.0
    requires OnLine(v, y, f) || forall z :: On(v, y, z) && OnEdge(f, z) ==> z == v
    ensures 0.0 < b <= 1.0 && WedgeOff(v, y, g, f, b)
  {
    if OnLine(v, y, f) {
      b := 1.0;
      CollinearOff(v, y, g, f);
    } else if OnEdge(f, v) {
      if Orient(f.a, f.b, y) == 0.0 {
        if f.a == f.b {
          PointSegment(f.a, v);
        } else {
          SameLine(v, y, f);
        }
        assert false;
      }
      b := ThroughCornerOff(v, y, g, f);
    } else {
      b := FarOff(v, y, g, f);
    }
  }

  ghost predicate AllOff(v: Pt, y: Pt, g: Pt, es: seq<Edge>, b: real) {
    forall i :: 0 <= i < |es| ==> WedgeOff(v, y, g, es[i], b)
  }

  lemma {:induction false} WedgeFree(v: Pt, y: Pt, g: Pt, es: seq<Edge>) returns (b: real)
    requires v != y && Orient(v, y, g) != 0.0
    requires forall i :: 0 <= i < |es| ==> OnLine(v, y, es[i]) || forall z :: On(v, y, z) && OnEdge(es[i], z) ==> z == v
    ensures 0.0 < b <= 1.0 && AllOff(v, y, g, es, b)
  {
    if es == [] {
      b := 1.0;
    } else {
      var n := |es| - 1;
      forall i | 0 <= i < n
        ensures OnLine(v, y, es[..n][i]) || forall z :: On(v, y, z) && OnEdge(es[..n][i], z) ==> z == v
      {
        assert es[..n][i] == es[i];
      }
      var c := WedgeFree(v, y, g, es[..n]);
      var d := EdgeOff(v, y, g, es[n]);
      b := MinReal(c, d);
      hide On, OnEdge, WedgePoint, Orient;
      forall i | 0 <= i < |es| ensures WedgeOff(v, y, g, es[i], b) {
        if i < n {
          assert es[i] == es[..n][i];
          assert WedgeOff(v, y, g, es[i], c);
        }
      }
    }
  }

  // ----- One answer throughout the wedge

  lemma WedgeWay(es: seq<Edge>, A: Pt, B: Pt, t: real, u: real)
    requires Closed(es) && t <= u && forall s, i :: t <= s <= u && 0 <= i < |es| ==> !OnEdge(es[i], Lerp(A, B, s))
    ensures Contain(Lerp(A, B, t), es) == Contain(Lerp(A, B, u), es)
  {
    var p, q := Lerp(A, B, t), Lerp(A, B, u);
    hide OnEdge, Lerp;
    forall i | 0 <= i < |es| ensures !Meet(p, q, es[i].a, es[i].b) {
      if Meet(p, q, es[i].a, es[i].b) {
        var w :| On(p, q, w) && On(es[i].a, es[i].b, w);
        var s := ParamBetween(A, B, t, u, w);
        OnIsOnEdge(es[i], w);
      }
    }
    Transport(p, q, es);
  }

  lemma OnIsOnEdge(e: Edge, w: Pt)
    ensures OnEdge(e, w) == On(e.a, e.b, w)
  {
  }

  /** All points of the wedge have the answer of its far end. */
  lemma WedgeSame(es: seq<Edge>, v: Pt, y: Pt, g: Pt, b: real, u: real, c: real)
    requires Closed(es) && AllOff(v, y, g, es, b) && 0.0 < u <= 1.0 && 0.0 < c <= b
    ensures Contain(WedgePoint(v, y, g, u, c), es) == Contain(Lerp(y, g, b), es)
  {
    var q := Lerp(y, g, c);
    forall s, i | u <= s <= 1.0 && 0 <= i < |es| ensures !OnEdge(es[i], Lerp(v, q, s)) {
      assert WedgeOff(v, y, g, es[i], b);
      assert Lerp(v, q, s) == WedgePoint(v, y, g, s, c);
    }
    forall s, i | c <= s <= b && 0 <= i < |es| ensures !OnEdge(es[i], Lerp(y, g, s)) {
      assert WedgeOff(v, y, g, es[i], b);
      LerpOne(v, Lerp(y, g, s));
      assert Lerp(y, g, s) == WedgePoint(v, y, g, 1.0, s);
    }
    LerpOne(v, q);
    hide Lerp, OnEdge, AllOff;
    WedgeWay(es, v, q, u, 1.0);
    WedgeWay(es, y, g, c, b);
  }

  // ----- The displaced point is in the wedge

  ghost predicate InWedge(p: Pt, v: Pt, y: Pt, g: Pt, b: real) {
    exists u, c :: 0.0 < u <= 1.0 && 0.0 < c <= b && p == WedgePoint(v, y, g, u, c)
  }

  /** The two parameters of a displaced point, for a small displacement. */
  ghost predicate SmallParams(tau: real, rho: real, kappa: real, b: real, e: real) {
    exists u, c :: 0.0 < u <= 1.0 && 0.0 < c <= b && WedgeTerms(tau, rho, kappa, e, u, c)
  }

  predicate WedgeTerms(tau: real, rho: real, kappa: real, e: real, u: real, c: real) {
    Mul(u, tau) == e + Mul(Sq(e), rho) && Mul(u, c) == Mul(Sq(e), kappa)
  }

  lemma WedgeParams(tau: real, rho: real, kappa: real, b: real) returns (bound: real)
    requires 0.0 < tau && 0.0 < kappa && 0.0 < b
    ensures 0.0 < bound && forall e :: 0.0 < e < bound ==> SmallParams(tau, rho, kappa, b, e)
  {
    var a := if rho < 0.0 then -rho else rho;
    var m, k := 2.0 * a + 2.0, 2.0 * Mul(tau, kappa);
    MulPos(tau, kappa);
    var h := Over(1.0, m);
    var j := Over(b, k);
    bound := MinReal(MinReal(h, tau / 2.0), j);
    forall e | 0.0 < e < bound ensures SmallParams(tau, rho, kappa, b, e) {
      UpTo(e, h, m, 1.0);
      UpTo(e, j, k, b);
      assert Mul(e, m) == 2.0 * Mul(e, a) + 2.0 * e;
      assert Mul(e, k) == 2.0 * Mul(e, Mul(tau, kappa));
      hide Mul, SmallParams;
      ParamsAt(tau, rho, kappa, b, e, a);
    }
  }

  lemma UpTo(e: real, h: real, m: real, q: real)
    requires e <= h && 0.0 < m && Mul(m, h) == q
    ensures Mul(e, m) <= q
  {
    MulMono(e, h, m);
  }

  lemma ParamsAt(tau: real, rho: real, kappa: real, b: real, e: real, a: real)
    requires 0.0 < tau && 0.0 < kappa && 0.0 < b && a == if rho < 0.0 then -rho else rho
    requires 0.0 < e <= tau / 2.0 && Mul(e, a) <= 0.5 && 2.0 * Mul(e, Mul(tau, kappa)) <= b
    ensures SmallParams(tau, rho, kappa, b, e)
  {
    var n := e + Mul(Sq(e), rho);
    NearlyLinear(e, rho, a);
    hide Mul, Sq;
    var u := Quotient(n, tau);
    var q := Mul(Sq(e), kappa);
    MulPos(Sq(e), kappa);
    var c := Over(q, u);
    CBound(e, kappa, tau, u, b, c);
    assert WedgeTerms(tau, rho, kappa, e, u, c);
  }

  lemma NearlyLinear(e: real, rho: real, a: real)
    requires 0.0 < e && a == (if rho < 0.0 then -rho else rho) && Mul(e, a) <= 0.5
    ensures e / 2.0 <= e + Mul(Sq(e), rho) <= 1.5 * e
  {
    var p := Mul(e, a);
    MulNonneg(e, a);
    MulMono(p, 0.5, e);
    MulNonneg(p, e);
    assert Mul(p, e) == Mul(Sq(e), a);
    assert Mul(0.5, e) == e / 2.0;
    assert Mul(Sq(e), -a) == -Mul(Sq(e), a);
  }

  lemma Quotient(n: real, tau: real) returns (u: real)
    requires 0.0 < n <= tau
    ensures 0.0 < u <= 1.0 && Mul(u, tau) == n
  {
    u := n / tau;
    assert u * tau == n;
  }

  lemma Over(q: real, u: real) returns (c: real)
    requires 0.0 < q && 0.0 < u
    ensures 0.0 < c && Mul(u, c) == q
  {
    c := q / u;
    assert u * c == q;
  }

  lemma CBound(e: real, kappa: real, tau: real, u: real, b: real, c: real)
    requires 0.0 < e && 0.0 < kappa && 0.0 < tau && 0.0 < u && e / 2.0 <= Mul(u, tau)
    requires 2.0 * Mul(e, Mul(tau, kappa)) <= b && Mul(u, c) == Mul(Sq(e), kappa)
    ensures c <= b
  {
    // u * b >= 2 * u * e * tau * kappa = 2 * e * kappa * (u * tau) >= e * e * kappa = u * c
    var z, w := Mul(e, Mul(tau, kappa)), Mul(e, kappa);
    MulPos(e, kappa);
    MulMono(2.0 * z, b, u);
    MulMono(e / 2.0, Mul(u, tau), w);
    assert Mul(2.0 * z, u) == 2.0 * Mul(Mul(u, tau), w);
    assert 2.0 * Mul(e / 2.0, w) == Mul(Sq(e), kappa);
    assert Mul(b, u) == Mul(u, b);
    hide Mul, Sq;
    CancelLe(u, c, b);
  }

  lemma CancelLe(u: real, c: real, b: real)
    requires 0.0 < u && Mul(u, c) <= Mul(u, b)
    ensures c <= b
  {
    if c > b {
      MulPos(u, c - b);
    }
  }

  lemma SlopesUp(rx: real, R: real, G: real) returns (rho: real, kappa: real)
    requires 0.0 < R && 0.0 < G
    ensures 0.0 < kappa && Mul(rho, R) == rx && Mul(rho, rx) - Mul(kappa, G) == -R
  {
    rho := rx / R;
    assert rho * R == rx;
    var L := Mul(rho, rx) + R;
    assert Mul(rho, rx) == Mul(Sq(rho), R);
    MulNonneg(Sq(rho), R);
    kappa := Over(L, G);
    assert Mul(G, kappa) == Mul(kappa, G);
  }

  /** The slopes of the displaced point's parameters: along the edge and away from it. */
  lemma {:induction false} WedgeSlopes(rx: real, ry: real, gx: real, side: real) returns (rho: real, kappa: real)
    requires (side == 1.0 || side == -1.0) && if gx < 0.0 then 0.0 < Mul(side, ry) else gx > 0.0 && Mul(side, ry) < 0.0
    ensures 0.0 < kappa && Mul(rho, ry) == Mul(side, rx) && Mul(rho, rx) + Mul(kappa, gx) == -Mul(side, ry)
    decreases gx > 0.0
  {
    if gx > 0.0 {
      rho, kappa := WedgeSlopes(rx, ry, -gx, -side);
      assert Mul(-side, ry) == -Mul(side, ry) && Mul(-side, rx) == -Mul(side, rx);
      assert Mul(kappa, -gx) == -Mul(kappa, gx) && Mul(-rho, rx) == -Mul(rho, rx) && Mul(-rho, ry) == -Mul(rho, ry);
      rho := -rho;
      return;
    }
    rho, kappa := SlopesUp(rx, Mul(side, ry), -gx);
    assert Mul(kappa, -gx) == -Mul(kappa, gx);
    if side == 1.0 {
      assert Mul(side, ry) == ry && Mul(side, rx) == rx;
    } else {
      assert Mul(side, ry) == -ry && Mul(side, rx) == -rx;
      assert Mul(rho, -ry) == -Mul(rho, ry);
    }
  }

  /** A coordinate of a displaced point. */
  function Quadratic(v: real, r: real, k: real, e: real): real {
    v + r * e + k * e * e
  }

  lemma CoefIs(t0: int, t1: int, t2: int, e: real)
    ensures Coef(t0, t1, t2, e) == Quadratic(t0 as real, t1 as real, t2 as real, e)
  {
  }

  lemma DisplacedAxis(v: real, r: real, k: real, e: real, y: real, g: real, u: real, c: real, tau: real, rho: real,
                      kappa: real)
    requires y == v + Mul(tau, r) && WedgeTerms(tau, rho, kappa, e, u, c) && Mul(rho, r) + Mul(kappa, g - y) == k
    ensures Along(v, Along(y, g, c), u) == Quadratic(v, r, k, e)
  {
    var d, s := g - y, Sq(e);
    assert Along(y, g, c) - v == tau * r + c * d;
    assert u * (tau * r + c * d) == Mul(u, tau) * r + Mul(u, c) * d;
    assert Mul(u, tau) * r == e * r + s * (rho * r);
    assert Mul(u, c) * d == s * (kappa * d);
    assert s * (rho * r) + s * (kappa * d) == s * k;
    assert s * k == k * e * e;
  }

  lemma ParamsOf(tau: real, rho: real, kappa: real, b: real, e: real) returns (u: real, c: real)
    requires SmallParams(tau, rho, kappa, b, e)
    ensures 0.0 < u <= 1.0 && 0.0 < c <= b && WedgeTerms(tau, rho, kappa, e, u, c)
  {
    u, c :| 0.0 < u <= 1.0 && 0.0 < c <= b && WedgeTerms(tau, rho, kappa, e, u, c);
  }

  /** The probe that leaves s back along its edge and a little to the given side. */
  function SideProbe(s: P2, r: Vec, side: int): Perturbed {
    Perturbed(s, r, Vec(-r.y * side, r.x * side))
  }

  /** For small displacements the probe on the side of g is in the wedge at s. */
  lemma ProbeInWedge(s: P2, r: Vec, side: int, y: Pt, g: Pt, tau: real, b: real) returns (bound: real)
    requires (side == 1 || side == -1) && 0.0 < tau && 0.0 < b
    requires g.y == y.y && if g.x < y.x then side * r.y > 0 else g.x > y.x && side * r.y < 0
    requires y.x == s.x as real + Mul(tau, r.x as real) && y.y == s.y as real + Mul(tau, r.y as real)
    ensures 0.0 < bound
    ensures forall e :: 0.0 < e < bound ==> InWedge(Displaced(SideProbe(s, r, side), e), Real(s), y, g, b)
  {
    SideReal(side, r.y);
    var rho, kappa := WedgeSlopes(r.x as real, r.y as real, g.x - y.x, side as real);
    bound := WedgeParams(tau, rho, kappa, b);
    hide SmallParams, InWedge, Displaced, Mul;
    forall e | 0.0 < e < bound ensures InWedge(Displaced(SideProbe(s, r, side), e), Real(s), y, g, b) {
      ProbeAt(s, r, side, y, g, tau, b, rho, kappa, e);
    }
  }

  lemma SideReal(side: int, k: int)
    requires side == 1 || side == -1
    ensures (side * k) as real == Mul(side as real, k as real)
    ensures (-k * side) as real == -Mul(side as real, k as real) && (k * side) as real == Mul(side as real, k as real)
  {
  }

  lemma MulZero(k: real)
    ensures Mul(k, 0.0) == 0.0
  {
  }

  lemma ProbeAt(s: P2, r: Vec, side: int, y: Pt, g: Pt, tau: real, b: real, rho: real, kappa: real, e: real)
    requires side == 1 || side == -1
    requires y.x == s.x as real + Mul(tau, r.x as real) && y.y == s.y as real + Mul(tau, r.y as real) && g.y == y.y
    requires Mul(rho, r.y as real) == Mul(side as real, r.x as real)
    requires Mul(rho, r.x as real) + Mul(kappa, g.x - y.x) == -Mul(side as real, r.y as real)
    requires SmallParams(tau, rho, kappa, b, e)
    ensures InWedge(Displaced(SideProbe(s, r, side), e), Real(s), y, g, b)
  {
    var u, c := ParamsOf(tau, rho, kappa, b, e);
    var p := SideProbe(s, r, side);
    SideReal(side, r.x);
    SideReal(side, r.y);
    MulZero(kappa);
    CoefIs(p.s.x, p.d1.x, p.d2.x, e);
    CoefIs(p.s.y, p.d1.y, p.d2.y, e);
    hide WedgeTerms, SmallParams, Mul, Along, Coef, Quadratic;
    DisplacedAxis(s.x as real, r.x as real, p.d2.x as real, e, y.x, g.x, u, c, tau, rho, kappa);
    DisplacedAxis(s.y as real, r.y as real, p.d2.y as real, e, y.y, g.y, u, c, tau, rho, kappa);
    assert Displaced(p, e) == WedgePoint(Real(s), y, g, u, c);
  }
}
