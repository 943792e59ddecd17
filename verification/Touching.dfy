/** Orientation tests decide exactly whether two closed segments share a real point. */
module Touching {
  import opened Plane
  import opened EvenOdd

  /** The kernel's intersection test, on real points. */
  predicate Touch(p: Pt, q: Pt, a: Pt, b: Pt) {
    ProperCross(p, q, a, b) || On(a, b, p) || On(a, b, q) || On(p, q, a) || On(p, q, b)
  }

  lemma AlongCompose(a: real, b: real, t: real, u: real, s: real)
    ensures Along(Along(a, b, t), Along(a, b, u), s) == Along(a, b, Along(t, u, s))
  {
  }

  lemma LerpCompose(a: Pt, b: Pt, t: real, u: real, s: real)
    ensures Lerp(Lerp(a, b, t), Lerp(a, b, u), s) == Lerp(a, b, Along(t, u, s))
  {
    AlongCompose(a.x, b.x, t, u, s);
    AlongCompose(a.y, b.y, t, u, s);
  }

  /** Every point of the line through two distinct points has a parameter. */
  lemma LineParam(a: Pt, b: Pt, p: Pt) returns (t: real)
    requires a != b && Orient(a, b, p) == 0.0
    ensures p == Lerp(a, b, t)
  {
    if a.x != b.x {
      t := LineRatio(a.x, b.x, p.x);
      OtherCoordinate(a.x, b.x, p.x, a.y, b.y, p.y, t);
    } else {
      assert a.y != b.y;
      t := LineRatio(a.y, b.y, p.y);
      OtherCoordinate(a.y, b.y, p.y, a.x, b.x, p.x, t);
    }
  }

  lemma LineRatio(u: real, v: real, w: real) returns (t: real)
    requires u != v
    ensures w == Along(u, v, t)
  {
    var d := v - u;
    t := (w - u) / d;
    assert t * d == w - u;
    assert t * (v - u) == t * d;
  }

  lemma AlongInjective(u: real, v: real, s: real, t: real)
    requires u != v && Along(u, v, s) == Along(u, v, t)
    ensures s == t
  {
    var d := v - u;
    assert d * s == s * (v - u) && d * t == t * (v - u);
    CancelFactor(d, s, t);
  }

  lemma LerpInjective(a: Pt, b: Pt, s: real, t: real)
    requires a != b && Lerp(a, b, s) == Lerp(a, b, t)
    ensures s == t
  {
    if a.x != b.x {
      AlongInjective(a.x, b.x, s, t);
    } else {
      assert a.y != b.y;
      AlongInjective(a.y, b.y, s, t);
    }
  }

  /** Collinear segments that share a point: an end of one is on the other. */
  lemma CollinearOverlap(p: Pt, q: Pt, a: Pt, b: Pt, x: Pt)
    requires a != b && Orient(a, b, p) == 0.0 && Orient(a, b, q) == 0.0
    requires On(p, q, x) && On(a, b, x)
    ensures On(a, b, p) || On(a, b, q) || On(p, q, a)
  {
    var tp := LineParam(a, b, p);
    var tq := LineParam(a, b, q);
    var s := OnParam(p, q, x);
    var tx := OnParam(a, b, x);
    LerpCompose(a, b, tp, tq, s);
    LerpInjective(a, b, tx, Along(tp, tq, s));
    hide Lerp, On;
    LerpBetween(tp, tq, s);
    if 0.0 <= tp <= 1.0 {
      LerpOn(a, b, tp);
    } else if 0.0 <= tq <= 1.0 {
      LerpOn(a, b, tq);
    } else {
      assert Between(tp, 0.0, tq) && tp != tq;
      var u := Ratio(tp, 0.0, tq);
      LerpCompose(a, b, tp, tq, u);
      LerpZero(a, b);
      LerpOn(p, q, u);
    }
  }

  lemma LerpZero(a: Pt, b: Pt)
    ensures Lerp(a, b, 0.0) == a
  {
  }

  /** A weighted mean of two numbers is zero only at an end or between opposite signs. */
  lemma ZeroMean(u: real, v: real, s: real)
    requires 0.0 <= s <= 1.0 && (1.0 - s) * u + s * v == 0.0
    ensures s == 0.0 || s == 1.0 || Opposite(u, v) || (u == 0.0 && v == 0.0)
  {
    if 0.0 < s < 1.0 {
      SignOfProduct(1.0 - s, u);
      SignOfProduct(s, v);
      assert (1.0 - s) * u == Mul(1.0 - s, u) && s * v == Mul(s, v);
    }
  }

  lemma SharedPointTouches(p: Pt, q: Pt, a: Pt, b: Pt, x: Pt)
    requires On(p, q, x) && On(a, b, x)
    ensures Touch(p, q, a, b)
  {
    if !On(a, b, p) && !On(a, b, q) && !On(p, q, a) && !On(p, q, b) {
      SharedInterior(p, q, a, b, x);
      SharedInterior(a, b, p, q, x);
    }
  }

  lemma SharedInterior(p: Pt, q: Pt, a: Pt, b: Pt, x: Pt)
    requires On(p, q, x) && On(a, b, x)
    requires !On(a, b, p) && !On(a, b, q) && !On(p, q, a) && !On(p, q, b)
    ensures Opposite(Orient(a, b, p), Orient(a, b, q))
  {
    var s := OnParam(p, q, x);
    OrientLerp(a, b, p, q, s);
    ZeroMean(Orient(a, b, p), Orient(a, b, q), s);
    if s == 0.0 {
      LerpZero(p, q);
      assert false;
    } else if s == 1.0 {
      assert false;
    } else if Orient(a, b, p) == 0.0 && Orient(a, b, q) == 0.0 {
      if a == b {
        PointSegment(a, x);
        assert false;
      } else {
        CollinearOverlap(p, q, a, b, x);
        assert false;
      }
    }
  }

  lemma PointSegment(a: Pt, x: Pt)
    requires On(a, a, x)
    ensures x == a
  {
    assert x.x == a.x && x.y == a.y;
  }

  /** The test is exact, degenerate segments included. */
  lemma TouchIffMeet(p: Pt, q: Pt, a: Pt, b: Pt)
    ensures Touch(p, q, a, b) <==> Meet(p, q, a, b)
  {
    if Touch(p, q, a, b) {
      OnEnds(p, q);
      OnEnds(a, b);
      if ProperCross(p, q, a, b) {
        var x := ProperCrossMeets(p, q, a, b);
      }
    }
    forall x | On(p, q, x) && On(a, b, x) ensures Touch(p, q, a, b) {
      SharedPointTouches(p, q, a, b, x);
    }
  }
}
