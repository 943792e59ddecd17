/** Containment of a point displaced infinitesimally, s + e*d1 + e^2*d2: deciding by the first
    non-zero coefficient gives the even-odd answer of the real point for every small enough e. */
module Perturbation {
  import opened Plane
  import opened EvenOdd
  import opened Touching
  import opened Nearest
  import opened Kernel

  /** A displacement vector; only its components matter. */
  datatype Vec = Vec(x: int, y: int)

  datatype Perturbed = Perturbed(s: P2, d1: Vec, d2: Vec)

  /** The sign of the first non-zero of three coefficients. */
  function LexSign(t0: int, t1: int, t2: int): int {
    if t0 != 0 then Signum(t0) else if t1 != 0 then Signum(t1) else Signum(t2)
  }

  function VecOf(a: P2, b: P2): Vec {
    Vec(b.x - a.x, b.y - a.y)
  }

  function Cross2(u: Vec, v: Vec): int {
    u.x * v.y - u.y * v.x
  }

  function Dot2(u: Vec, v: Vec): int {
    u.x * v.x + u.y * v.y
  }

  /** The real point displaced by e. */
  function Displaced(x: Perturbed, e: real): Pt {
    Pt(Coef(x.s.x, x.d1.x, x.d2.x, e), Coef(x.s.y, x.d1.y, x.d2.y, e))
  }

  function Coef(t0: int, t1: int, t2: int, e: real): real {
    t0 as real + t1 as real * e + t2 as real * e * e
  }

  predicate Above(x: Perturbed, q: P2) {
    LexSign(q.y - x.s.y, -x.d1.y, -x.d2.y) > 0
  }

  function Side(x: Perturbed, e: Edge2): int {
    var v := VecOf(e.a, e.b);
    LexSign(Orient2(e.a, e.b, x.s), Cross2(v, x.d1), Cross2(v, x.d2))
  }

  /** On the edge: on its line and between its ends. */
  predicate PertOn(x: Perturbed, e: Edge2) {
    var v := VecOf(e.a, e.b);
    var t0, t1, t2 := Dot2(VecOf(e.a, x.s), v), Dot2(x.d1, v), Dot2(x.d2, v);
    && e.a != e.b
    && Side(x, e) == 0 && LexSign(t0, t1, t2) >= 0 && LexSign(Dot2(v, v) - t0, -t1, -t2) >= 0
  }

  predicate PertCrosses(x: Perturbed, e: Edge2) {
    && Above(x, e.a) != Above(x, e.b)
    && (if e.b.y > e.a.y then Side(x, e) > 0 else Side(x, e) < 0)
  }

  function PertCrossing(x: Perturbed): Edge2 -> bool {
    e => PertCrosses(x, e)
  }

  predicate PertOnAny(x: Perturbed, es: seq<Edge2>) {
    exists i :: 0 <= i < |es| && PertOn(x, es[i])
  }

  function PertContain(x: Perturbed, es: seq<Edge2>): Containment {
    if PertOnAny(x, es) then Boundary else if Odd(es, PertCrossing(x)) then Inside else Outside
  }

  /** `perturbed_in_edges`; zero-length edges are skipped. */
  method PerturbedInEdges(x: Perturbed, es: seq<Edge2>) returns (c: Containment)
    ensures c == PertContain(x, es)
  {
    hide Orient2, Cross2, Dot2, LexSign;
    var inside := false;
    for i := 0 to |es|
      invariant forall j :: 0 <= j < i ==> !PertOn(x, es[j])
      invariant inside == Odd(es[..i], PertCrossing(x))
    {
      assert es[..i + 1][..i] == es[..i];
      var a, b := es[i].a, es[i].b;
      if a == b {
        continue;
      }
      var v := VecOf(a, b);
      var o := LexSign(Orient2(a, b, x.s), Cross2(v, x.d1), Cross2(v, x.d2));
      if o == 0 {
        var t0, t1, t2 := Dot2(VecOf(a, x.s), v), Dot2(x.d1, v), Dot2(x.d2, v);
        if LexSign(t0, t1, t2) >= 0 && LexSign(Dot2(v, v) - t0, -t1, -t2) >= 0 {
          return Boundary;
        }
      } else if Above(x, a) != Above(x, b) {
        var left := if b.y > a.y then o > 0 else o < 0;
        if left {
          inside := !inside;
        }
      }
    }
    assert es[..|es|] == es;
    c := if inside then Inside else Outside;
  }

  // ----- Every product stays below 2^70

  /** As short as the difference of two doubled vertices. */
  predicate Short(v: Vec) {
    Abs(v.x) < 0x2_0000_0000 && Abs(v.y) < 0x2_0000_0000
  }

  lemma ShortFits(u: Vec, v: Vec)
    requires Short(u) && Short(v)
    ensures Abs(Cross2(u, v)) < 0x8_0000_0000_0000_0000 && Abs(Dot2(u, v)) < 0x8_0000_0000_0000_0000
  {
    var m := 0x1_ffff_ffff;
    AbsProduct(u.x, v.y, m);
    AbsProduct(u.y, v.x, m);
    AbsProduct(u.x, v.x, m);
    AbsProduct(u.y, v.y, m);
  }

  /** All that is computed for one edge stays below 2^70. */
  predicate PertFits(x: Perturbed, e: Edge2) {
    var v := VecOf(e.a, e.b);
    var t0, cap := Dot2(VecOf(e.a, x.s), v), 0x40_0000_0000_0000_0000;
    && Abs(Orient2(e.a, e.b, x.s)) < cap && Abs(Cross2(v, x.d1)) < cap && Abs(Cross2(v, x.d2)) < cap
    && Abs(t0) < cap && Abs(Dot2(x.d1, v)) < cap && Abs(Dot2(x.d2, v)) < cap && Abs(Dot2(v, v) - t0) < cap
  }

  lemma PerturbedFits(x: Perturbed, e: Edge2)
    requires Short(x.d1) && Short(x.d2)
    ensures PertFits(x, e)
  {
    var v, w := VecOf(e.a, e.b), VecOf(e.a, x.s);
    assert Orient2(e.a, e.b, x.s) == Cross2(v, w);
    ShortFits(v, w);
    ShortFits(w, v);
    ShortFits(v, v);
    ShortFits(v, x.d1);
    ShortFits(v, x.d2);
    ShortFits(x.d1, v);
    ShortFits(x.d2, v);
    hide Cross2, Dot2, Orient2;
  }

  // ----- Signs of polynomials with integer coefficients

  function AbsReal(v: int): real {
    Abs(v) as real
  }

  /** Up to this displacement the first non-zero coefficient decides. */
  function Settles(t1: int, t2: int): (e: real)
    ensures 0.0 < e <= 1.0
    ensures e * (AbsReal(t1) + AbsReal(t2) + 1.0) == 1.0
  {
    var m := AbsReal(t1) + AbsReal(t2) + 1.0;
    1.0 / m
  }

  function SignReal(v: real): int {
    if v > 0.0 then 1 else if v < 0.0 then -1 else 0
  }

  lemma SmallTerm(t: int, e: real)
    requires 0.0 < e
    ensures -Mul(AbsReal(t), e) <= Mul(t as real, e) <= Mul(AbsReal(t), e)
  {
    MulMono(-AbsReal(t), t as real, e);
    MulMono(t as real, AbsReal(t), e);
    assert Mul(-AbsReal(t), e) == -Mul(AbsReal(t), e);
  }

  lemma TailBelowOne(t1: int, t2: int, e: real)
    requires 0.0 < e < Settles(t1, t2)
    ensures -1.0 < t1 as real * e + t2 as real * e * e < 1.0
    ensures -1.0 < t2 as real * e < 1.0
  {
    var b := Settles(t1, t2);
    var m := AbsReal(t1) + AbsReal(t2) + 1.0;
    SmallTerm(t1, e);
    SmallTerm(t2, e);
    MulPos(b - e, m);
    assert Mul(b - e, m) == 1.0 - (Mul(AbsReal(t1), e) + Mul(AbsReal(t2), e) + e);
    MulNonneg(AbsReal(t2), e);
    MulNonneg(AbsReal(t1), e);
    var u := Mul(t2 as real, e);
    assert t2 as real * e * e == Mul(u, e);
    ScaleDown(u, Mul(AbsReal(t2), e), e);
  }

  lemma ScaleDown(u: real, m: real, e: real)
    requires -m <= u <= m && 0.0 <= e <= 1.0 && 0.0 <= m
    ensures -m <= Mul(u, e) <= m
  {
    MulMono(-m, u, e);
    MulMono(u, m, e);
    MulMono(e, 1.0, m);
    assert Mul(-m, e) == -Mul(m, e) && Mul(e, m) == Mul(m, e) && Mul(1.0, m) == m;
  }

  lemma LexSignIsSign(t0: int, t1: int, t2: int, e: real)
    requires 0.0 < e < Settles(t1, t2)
    ensures SignReal(Coef(t0, t1, t2, e)) == LexSign(t0, t1, t2)
  {
    TailBelowOne(t1, t2, e);
    if t0 == 0 {
      var w := t1 as real + t2 as real * e;
      assert Coef(t0, t1, t2, e) == Mul(e, w);
      SignOfProduct(e, w);
      if t1 == 0 {
        SignOfProduct(e, t2 as real);
        assert Mul(e, t2 as real) == t2 as real * e;
      }
    }
  }

  // ----- Each test of the real point is a sign of such a polynomial

  /** k times one coordinate of the displaced point, measured from c. */
  lemma AxisCoef(k: int, c: int, s: int, d1: int, d2: int, e: real)
    ensures Mul(k as real, Coef(s, d1, d2, e) - c as real) == Coef(k * (s - c), k * d1, k * d2, e)
  {
    assert Coef(s, d1, d2, e) - c as real == Coef(s - c, d1, d2, e);
    ScaleCoef(k, s - c, d1, d2, e);
  }

  lemma OrientCoef(a: P2, b: P2, x: Perturbed, e: real)
    ensures Orient(Real(a), Real(b), Displaced(x, e)) ==
            Coef(Orient2(a, b, x.s), Cross2(VecOf(a, b), x.d1), Cross2(VecOf(a, b), x.d2), e)
  {
    OrientMul(Real(a), Real(b), Displaced(x, e));
    var u, v := b.x - a.x, b.y - a.y;
    hide Coef, Mul, Orient;
    AxisCoef(u, a.y, x.s.y, x.d1.y, x.d2.y, e);
    AxisCoef(v, a.x, x.s.x, x.d1.x, x.d2.x, e);
    SubCoef(u * (x.s.y - a.y), u * x.d1.y, u * x.d2.y, v * (x.s.x - a.x), v * x.d1.x, v * x.d2.x, e);
    assert u as real == Real(b).x - Real(a).x && v as real == Real(b).y - Real(a).y;
  }

  lemma OrientMul(a: Pt, b: Pt, c: Pt)
    ensures Orient(a, b, c) == Mul(b.x - a.x, c.y - a.y) - Mul(b.y - a.y, c.x - a.x)
  {
  }

  lemma ScaleCoef(k: int, t0: int, t1: int, t2: int, e: real)
    ensures Mul(k as real, Coef(t0, t1, t2, e)) == Coef(k * t0, k * t1, k * t2, e)
  {
  }

  lemma SubCoef(t0: int, t1: int, t2: int, u0: int, u1: int, u2: int, e: real)
    ensures Coef(t0, t1, t2, e) - Coef(u0, u1, u2, e) == Coef(t0 - u0, t1 - u1, t2 - u2, e)
  {
  }

  lemma AddCoef(t0: int, t1: int, t2: int, u0: int, u1: int, u2: int, e: real)
    ensures Coef(t0, t1, t2, e) + Coef(u0, u1, u2, e) == Coef(t0 + u0, t1 + u1, t2 + u2, e)
  {
  }

  lemma DotCoef(a: P2, b: P2, x: Perturbed, e: real)
    ensures Dot(Real(a), Real(b), Displaced(x, e)) ==
            Coef(Dot2(VecOf(a, x.s), VecOf(a, b)), Dot2(x.d1, VecOf(a, b)), Dot2(x.d2, VecOf(a, b)), e)
  {
    DotMul(Real(a), Real(b), Displaced(x, e));
    var u, v := b.x - a.x, b.y - a.y;
    DotParts(VecOf(a, x.s), VecOf(a, b));
    DotParts(x.d1, VecOf(a, b));
    DotParts(x.d2, VecOf(a, b));
    hide Coef, Mul, Dot, Dot2;
    AxisCoef(u, a.x, x.s.x, x.d1.x, x.d2.x, e);
    AxisCoef(v, a.y, x.s.y, x.d1.y, x.d2.y, e);
    AddCoef(u * (x.s.x - a.x), u * x.d1.x, u * x.d2.x, v * (x.s.y - a.y), v * x.d1.y, v * x.d2.y, e);
    assert u as real == Real(b).x - Real(a).x && v as real == Real(b).y - Real(a).y;
  }

  lemma DotParts(w: Vec, z: Vec)
    ensures Dot2(w, z) == z.x * w.x + z.y * w.y
  {
  }

  lemma DotMul(a: Pt, b: Pt, c: Pt)
    ensures Dot(a, b, c) == Mul(b.x - a.x, c.x - a.x) + Mul(b.y - a.y, c.y - a.y)
  {
  }

  /** Between the ends of a segment, in terms of the projection. */
  lemma OnByDot(a: Pt, b: Pt, p: Pt)
    requires a != b && Orient(a, b, p) == 0.0
    ensures On(a, b, p) <==> 0.0 <= Dot(a, b, p) <= Len2(a, b)
  {
    var t := LineParam(a, b, p);
    Dist2Nonneg(a, b);
    DotOfLerp(a, b, t);
    hide On, Orient, Dot, Dist2, Lerp;
    if On(a, b, p) {
      var s := OnParam(a, b, p);
      LerpInjective(a, b, s, t);
    }
    var l2 := Len2(a, b);
    SignOfProduct(l2, t);
    SignOfProduct(l2, 1.0 - t);
    assert Mul(l2, 1.0 - t) == l2 - Mul(l2, t);
    if 0.0 <= t <= 1.0 {
      LerpOn(a, b, t);
    }
  }

  lemma DotOfLerp(a: Pt, b: Pt, t: real)
    ensures Dot(a, b, Lerp(a, b, t)) == Mul(Len2(a, b), t)
  {
    var p := Lerp(a, b, t);
    assert p.x - a.x == Mul(t, b.x - a.x) && p.y - a.y == Mul(t, b.y - a.y);
    AxisDot(t, b.x - a.x);
    AxisDot(t, b.y - a.y);
    assert Mul(Len2(a, b), t) == Mul(Sq(b.x - a.x), t) + Mul(Sq(b.y - a.y), t);
  }

  lemma AxisDot(t: real, d: real)
    ensures Mul(Mul(t, d), d) == Mul(Sq(d), t)
  {
  }

  // ----- One edge, then all of them

  /** From here on down, every test of the edge agrees with the displaced real point. */
  ghost predicate Agrees(x: Perturbed, e: Edge2, d: real) {
    && (Crosses(Displaced(x, d), RealEdge(e)) <==> PertCrosses(x, e))
    && (OnEdge(RealEdge(e), Displaced(x, d)) <==> PertOn(x, e))
  }

  lemma HeightCoef(q: int, s: int, u: int, v: int, d: real)
    ensures Coef(q - s, -u, -v, d) == q as real - Coef(s, u, v, d)
  {
    var k, l := u as real, v as real;
    assert (-u) as real * d == -(k * d);
    assert (-v) as real * d * d == -(l * d * d);
  }

  lemma AboveAgrees(x: Perturbed, q: P2, d: real)
    requires 0.0 < d < Settles(-x.d1.y, -x.d2.y)
    ensures Above(x, q) <==> Real(q).y > Displaced(x, d).y
  {
    LexSignIsSign(q.y - x.s.y, -x.d1.y, -x.d2.y, d);
    HeightCoef(q.y, x.s.y, x.d1.y, x.d2.y, d);
    hide Coef, LexSign, Settles;
  }

  lemma SideAgrees(x: Perturbed, e: Edge2, d: real)
    requires 0.0 < d < Settles(Cross2(VecOf(e.a, e.b), x.d1), Cross2(VecOf(e.a, e.b), x.d2))
    ensures SignReal(Orient(Real(e.a), Real(e.b), Displaced(x, d))) == Side(x, e)
  {
    OrientCoef(e.a, e.b, x, d);
    hide Orient, Orient2, Cross2, Displaced, Coef;
    var v := VecOf(e.a, e.b);
    LexSignIsSign(Orient2(e.a, e.b, x.s), Cross2(v, x.d1), Cross2(v, x.d2), d);
  }

  /** On the line, being between the ends is decided by the two projections. */
  lemma BetweenAgrees(x: Perturbed, e: Edge2, d: real)
    requires e.a != e.b && Side(x, e) == 0
    requires Orient(Real(e.a), Real(e.b), Displaced(x, d)) == 0.0
    requires 0.0 < d < Settles(Dot2(x.d1, VecOf(e.a, e.b)), Dot2(x.d2, VecOf(e.a, e.b)))
    ensures OnEdge(RealEdge(e), Displaced(x, d)) <==> PertOn(x, e)
  {
    var ra, rb, p := Real(e.a), Real(e.b), Displaced(x, d);
    var v := VecOf(e.a, e.b);
    var t0, t1, t2, l2 := Dot2(VecOf(e.a, x.s), v), Dot2(x.d1, v), Dot2(x.d2, v), Dot2(v, v);
    DotCoef(e.a, e.b, x, d);
    OnByDot(ra, rb, p);
    LenReal(e.a, e.b);
    LexSignIsSign(t0, t1, t2, d);
    MirrorSettles(t1, t2);
    LexSignIsSign(l2 - t0, -t1, -t2, d);
    Complement(l2, t0, t1, t2, d);
    hide Dot, Coef, Dot2, Dist2, On, Orient, Displaced, Settles, LexSign;
  }

  lemma LenReal(a: P2, b: P2)
    ensures Len2(Real(a), Real(b)) == Dot2(VecOf(a, b), VecOf(a, b)) as real
  {
  }

  lemma MirrorSettles(t1: int, t2: int)
    ensures Settles(-t1, -t2) == Settles(t1, t2)
  {
  }

  lemma Complement(l2: int, t0: int, t1: int, t2: int, d: real)
    ensures Coef(l2 - t0, -t1, -t2, d) == l2 as real - Coef(t0, t1, t2, d)
  {
  }

  function MinReal(u: real, v: real): real {
    if u <= v then u else v
  }

  /** Either the edges have length, or the point really moves. */
  predicate Decidable(x: Perturbed, es: seq<Edge2>) {
    x.d1 != Vec(0, 0) || forall i :: 0 <= i < |es| ==> es[i].a != es[i].b
  }

  /** A moving point leaves every vertex. */
  lemma LeavesVertex(x: Perturbed, v: P2, d: real)
    requires x.d1 != Vec(0, 0) && 0.0 < d < Settles(x.d1.x, x.d2.x) && d < Settles(x.d1.y, x.d2.y)
    ensures Displaced(x, d) != Real(v)
  {
    LexSignIsSign(x.s.x - v.x, x.d1.x, x.d2.x, d);
    LexSignIsSign(x.s.y - v.y, x.d1.y, x.d2.y, d);
    assert Coef(x.s.x - v.x, x.d1.x, x.d2.x, d) == Displaced(x, d).x - Real(v).x;
    assert Coef(x.s.y - v.y, x.d1.y, x.d2.y, d) == Displaced(x, d).y - Real(v).y;
  }

  lemma PointEdgeSettles(x: Perturbed, e: Edge2) returns (b: real)
    requires e.a == e.b && x.d1 != Vec(0, 0)
    ensures 0.0 < b && forall d :: 0.0 < d < b ==> Agrees(x, e, d)
  {
    b := MinReal(Settles(x.d1.x, x.d2.x), Settles(x.d1.y, x.d2.y));
    forall d | 0.0 < d < b ensures Agrees(x, e, d) {
      LeavesVertex(x, e.a, d);
      hide Displaced, Side, Above;
      if OnEdge(RealEdge(e), Displaced(x, d)) {
        PointSegment(Real(e.a), Displaced(x, d));
      }
    }
  }

  /** A displacement below which one edge is settled. */
  lemma EdgeSettles(x: Perturbed, e: Edge2) returns (b: real)
    requires e.a != e.b
    ensures 0.0 < b && forall d :: 0.0 < d < b ==> Agrees(x, e, d)
  {
    var v := VecOf(e.a, e.b);
    var b1 := Settles(-x.d1.y, -x.d2.y);
    var b2 := Settles(Cross2(v, x.d1), Cross2(v, x.d2));
    var b3 := Settles(Dot2(x.d1, v), Dot2(x.d2, v));
    b := MinReal(b1, MinReal(b2, b3));
    forall d | 0.0 < d < b ensures Agrees(x, e, d) {
      EdgeAgrees(x, e, d);
    }
  }

  lemma EdgeAgrees(x: Perturbed, e: Edge2, d: real)
    requires e.a != e.b && 0.0 < d < Settles(-x.d1.y, -x.d2.y)
    requires d < Settles(Cross2(VecOf(e.a, e.b), x.d1), Cross2(VecOf(e.a, e.b), x.d2))
    requires d < Settles(Dot2(x.d1, VecOf(e.a, e.b)), Dot2(x.d2, VecOf(e.a, e.b)))
    ensures Agrees(x, e, d)
  {
    AboveAgrees(x, e.a, d);
    AboveAgrees(x, e.b, d);
    SideAgrees(x, e, d);
    if Side(x, e) == 0 {
      BetweenAgrees(x, e, d);
    }
    hide Orient, Cross2, Dot2, Displaced, Above, Side, Settles;
  }

  lemma {:induction false} EdgesSettle(x: Perturbed, es: seq<Edge2>) returns (b: real)
    requires Decidable(x, es)
    ensures 0.0 < b && forall d, i :: 0.0 < d < b && 0 <= i < |es| ==> Agrees(x, es[i], d)
  {
    if es == [] {
      b := 1.0;
    } else {
      var n := |es| - 1;
      var b0 := EdgesSettle(x, es[..n]);
      var b1;
      if es[n].a != es[n].b { b1 := EdgeSettles(x, es[n]); } else { b1 := PointEdgeSettles(x, es[n]); }
      b := MinReal(b0, b1);
      hide Agrees;
      forall d, i | 0.0 < d < b && 0 <= i < |es| ensures Agrees(x, es[i], d) {
        if i < n { assert es[i] == es[..n][i]; }
      }
    }
  }

  /** Same answers edge by edge give the same containment. */
  lemma {:induction false} OddAgrees(x: Perturbed, es: seq<Edge2>, d: real)
    requires forall i :: 0 <= i < |es| ==> Agrees(x, es[i], d)
    ensures Odd(RealEdges(es), Crossing(Displaced(x, d))) == Odd(es, PertCrossing(x))
  {
    if es != [] {
      var n := |es| - 1;
      assert RealEdges(es)[..n] == RealEdges(es[..n]);
      OddAgrees(x, es[..n], d);
      assert Agrees(x, es[n], d);
    }
  }

  /** Lexicographic containment is the even-odd answer of the displaced real point for every
      small enough displacement, Boundary included. */
  lemma PerturbedIsLimit(x: Perturbed, es: seq<Edge2>) returns (b: real)
    requires Decidable(x, es)
    ensures 0.0 < b
    ensures forall d :: 0.0 < d < b ==> Contain(Displaced(x, d), RealEdges(es)) == PertContain(x, es)
  {
    b := EdgesSettle(x, es);
    forall d | 0.0 < d < b ensures Contain(Displaced(x, d), RealEdges(es)) == PertContain(x, es) {
      OddAgrees(x, es, d);
      var rs, p := RealEdges(es), Displaced(x, d);
      hide OnEdge, PertOn, Crosses, PertCrosses, Displaced;
      if PertOnAny(x, es) {
        var i :| 0 <= i < |es| && PertOn(x, es[i]);
        assert Agrees(x, es[i], d);
        assert OnEdge(rs[i], p);
      }
      if OnAny(rs, p) {
        var i :| 0 <= i < |rs| && OnEdge(rs[i], p);
        assert Agrees(x, es[i], d);
        assert PertOn(x, es[i]);
      }
    }
  }
}
