/** Whether a sharp segment lies inside a region: looking just beside the region's vertices on
    the segment decides it exactly. */
module Within {
  import opened Basics
  import opened Plane
  import opened EvenOdd
  import opened Touching
  import opened Rings
  import opened Kernel
  import opened Perturbation

  // ----- Points along one segment

  /** A parameter between two others gives a point between theirs. */
  lemma LerpOnLerp(a: Pt, b: Pt, t1: real, t2: real, t: real)
    requires Between(t1, t, t2)
    ensures On(Lerp(a, b, t1), Lerp(a, b, t2), Lerp(a, b, t))
  {
    if t1 == t2 {
      OnEnds(Lerp(a, b, t1), Lerp(a, b, t2));
    } else {
      var s := Ratio(t1, t, t2);
      LerpCompose(a, b, t1, t2, s);
      LerpOn(Lerp(a, b, t1), Lerp(a, b, t2), s);
    }
  }

  /** The parameter of a point between two points of a segment. */
  lemma ParamBetween(a: Pt, b: Pt, t1: real, t2: real, w: Pt) returns (t: real)
    requires On(Lerp(a, b, t1), Lerp(a, b, t2), w)
    ensures Between(t1, t, t2) && w == Lerp(a, b, t)
  {
    var s := OnParam(Lerp(a, b, t1), Lerp(a, b, t2), w);
    LerpCompose(a, b, t1, t2, s);
    LerpBetween(t1, t2, s);
    t := Along(t1, t2, s);
  }

  lemma OrientOnLine(c: Pt, d: Pt, t: real, u: real, v: real)
    ensures Orient(Lerp(c, d, t), Lerp(c, d, u), Lerp(c, d, v)) == 0.0
  {
    AlongGap(c.x, d.x, t, u);
    AlongGap(c.y, d.y, t, u);
    AlongGap(c.x, d.x, t, v);
    AlongGap(c.y, d.y, t, v);
    OrientMul(Lerp(c, d, t), Lerp(c, d, u), Lerp(c, d, v));
    SwapFactors(u - t, d.x - c.x, v - t, d.y - c.y);
  }

  lemma AlongGap(c: real, d: real, t: real, u: real)
    ensures Along(c, d, u) - Along(c, d, t) == Mul(u - t, d - c)
  {
  }

  lemma SwapFactors(k: real, x: real, m: real, y: real)
    ensures Mul(Mul(k, x), Mul(m, y)) == Mul(Mul(k, y), Mul(m, x))
  {
  }

  /** A point inside both segments, away from their ends, is a proper crossing unless the
      segments are collinear. */
  lemma InteriorMeeting(a: Pt, b: Pt, c: Pt, d: Pt, y: Pt)
    requires On(a, b, y) && On(c, d, y) && y != a && y != b && y != c && y != d
    requires !ProperCross(a, b, c, d)
    ensures a != b && Orient(a, b, c) == 0.0 && Orient(a, b, d) == 0.0
  {
    if a == b { PointSegment(a, y); }
    if c == d { PointSegment(c, y); }
    var s := OnParam(a, b, y);
    var u := OnParam(c, d, y);
    OrientLerp(c, d, a, b, s);
    OrientLerp(a, b, c, d, u);
    LerpZero(a, b);
    LerpZero(c, d);
    LerpOne(a, b);
    LerpOne(c, d);
    ZeroMean(Orient(c, d, a), Orient(c, d, b), s);
    ZeroMean(Orient(a, b, c), Orient(a, b, d), u);
    if Orient(c, d, a) == 0.0 && Orient(c, d, b) == 0.0 {
      var ta := LineParam(c, d, a);
      var tb := LineParam(c, d, b);
      OrientOnLine(c, d, ta, tb, 0.0);
      OrientOnLine(c, d, ta, tb, 1.0);
    }
  }

  /** On a collinear edge, the first point met is an end of it. */
  lemma CollinearFirst(a: Pt, b: Pt, c: Pt, d: Pt, tx: real, ty: real)
    requires a != b && Orient(a, b, c) == 0.0 && Orient(a, b, d) == 0.0 && ty < tx
    requires !On(c, d, Lerp(a, b, tx)) && On(c, d, Lerp(a, b, ty))
    requires forall w :: On(Lerp(a, b, tx), Lerp(a, b, ty), w) && On(c, d, w) ==> w == Lerp(a, b, ty)
    ensures Lerp(a, b, ty) == c || Lerp(a, b, ty) == d
  {
    var tc := LineParam(a, b, c);
    var td := LineParam(a, b, d);
    var y := Lerp(a, b, ty);
    if y != c && y != d {
      var t := ParamBetween(a, b, tc, td, y);
      LerpInjective(a, b, t, ty);
      var te := if tc < td then td else tc;
      var e := if tc < td then d else c;
      OnEnds(c, d);
      hide On, Orient, Lerp;
      assert ty < te;
      if te <= tx {
        LerpOnLerp(a, b, tx, ty, te);
        LerpInjective(a, b, te, ty);
      } else {
        LerpOnLerp(a, b, ty, te, tx);
        OnTrans(c, d, y, e, Lerp(a, b, tx));
      }
    }
  }

  // ----- Every end of an edge starts an edge

  lemma {:induction false} EndIsStart(rings: seq<Ring>, e: Edge2) returns (f: Edge2)
    requires e in Edges2(rings)
    ensures f in Edges2(rings) && f.a == e.b
  {
    var es := RingEdges2(rings[0]);
    if e in es {
      var n := |rings[0]|;
      var k :| 0 <= k < n && es[k] == e;
      f := es[Next(k, n)];
      assert f in es;
    } else {
      f := EndIsStart(rings[1..], e);
    }
  }

  // ----- Soundness

  /** Just beside s, in the direction of a-b or back. */
  function Beside(s: P2, dir: Vec): Perturbed {
    Perturbed(s, dir, Vec(0, 0))
  }

  function Negate(v: Vec): Vec {
    Vec(-v.x, -v.y)
  }

  lemma BesideForward(a: P2, b: P2, s: P2, t: real, e: real)
    requires Real(s) == Lerp(Real(a), Real(b), t)
    ensures Displaced(Beside(s, VecOf(a, b)), e) == Lerp(Real(a), Real(b), t + e)
  {
    BesideAxis(a.x, b.x, s.x, t, e);
    BesideAxis(a.y, b.y, s.y, t, e);
  }

  lemma BesideBack(a: P2, b: P2, s: P2, t: real, e: real)
    requires Real(s) == Lerp(Real(a), Real(b), t)
    ensures Displaced(Beside(s, Negate(VecOf(a, b))), e) == Lerp(Real(a), Real(b), t - e)
  {
    BesideAxis(a.x, b.x, s.x, t, -e);
    BesideAxis(a.y, b.y, s.y, t, -e);
    NegateCoef(s.x, b.x - a.x, e);
    NegateCoef(s.y, b.y - a.y, e);
  }

  lemma NegateCoef(s: int, d: int, e: real)
    ensures Coef(s, -d, 0, e) == Coef(s, d, 0, -e)
  {
  }

  lemma BesideAxis(a: int, b: int, s: int, t: real, e: real)
    requires s as real == Along(a as real, b as real, t)
    ensures Coef(s, b - a, 0, e) == Along(a as real, b as real, t + e)
  {
    var d := (b - a) as real;
    assert Along(a as real, b as real, t + e) == Along(a as real, b as real, t) + e * d;
    assert (0 as real) * e * e == 0.0;
  }

  /** What the checks of the algorithm establish, looking towards b. */
  ghost predicate ProbesPass(a: P2, b: P2, rings: seq<Ring>) {
    var es := Edges2(rings);
    && Contain(Real(a), Region(rings)) != Outside
    && (forall e :: e in es ==> !CrossesProperly2(a, b, e.a, e.b))
    && (Contain(Real(a), Region(rings)) == Boundary ==> PertContain(Beside(a, VecOf(a, b)), es) != Outside)
    && (forall e :: e in es && e.a != a && e.a != b && OnSegment2(a, b, e.a) ==>
                      PertContain(Beside(e.a, VecOf(a, b)), es) != Outside)
  }

  /** The first edge met when walking back from x is met at a probed point. */
  lemma HitIsProbed(a: P2, b: P2, rings: seq<Ring>, tx: real, ty: real, k: nat) returns (s: P2)
    requires a != b && ProbesPass(a, b, rings) && 0.0 <= ty < tx <= 1.0
    requires k < |Edges2(rings)|
    requires var e := Edges2(rings)[k];
             var y := Lerp(Real(a), Real(b), ty);
             var x := Lerp(Real(a), Real(b), tx);
             && On(Real(e.a), Real(e.b), y) && !On(Real(e.a), Real(e.b), x)
             && forall w :: On(x, y, w) && On(Real(e.a), Real(e.b), w) ==> w == y
    ensures Real(s) == Lerp(Real(a), Real(b), ty)
    ensures PertContain(Beside(s, VecOf(a, b)), Edges2(rings)) != Outside
  {
    var A, B := Real(a), Real(b);
    var e := Edges2(rings)[k];
    var y := Lerp(A, B, ty);
    var c, d := Real(e.a), Real(e.b);
    RealInjective(a, b);
    LerpZero(A, B);
    LerpOne(A, B);
    LerpOn(A, B, ty);
    if ty == 0.0 {
      s := a;
      EdgesAgree(rings);
      assert OnEdge(Region(rings)[k], A);
    } else {
      if y == A { LerpInjective(A, B, ty, 0.0); }
      if y == B { LerpInjective(A, B, ty, 1.0); }
      if y != c && y != d {
        CrossesProperlyReal(a, b, e.a, e.b);
        InteriorMeeting(A, B, c, d, y);
        CollinearFirst(A, B, c, d, tx, ty);
      }
      var f := e;
      if y != c { f := EndIsStart(rings, e); }
      s := f.a;
      OnReal(a, b, s);
    }
  }

  lemma RealInjective(a: P2, b: P2)
    ensures Real(a) == Real(b) <==> a == b
  {
  }

  /** Every point of the segment is in the region. */
  lemma SegmentInside(a: P2, b: P2, rings: seq<Ring>, x: Pt)
    requires a != b && ProbesPass(a, b, rings) && On(Real(a), Real(b), x)
    ensures Contain(x, Region(rings)) != Outside
  {
    var A, B, es := Real(a), Real(b), Region(rings);
    RegionClosed(rings);
    EdgesAgree(rings);
    RealInjective(a, b);
    if Contain(x, es) == Outside {
      var tx := OnParam(A, B, x);
      LerpZero(A, B);
      if forall i :: 0 <= i < |es| ==> !Meet(x, A, es[i].a, es[i].b) {
        Transport(x, A, es);
      } else {
        var y := FirstHit(x, A, es);
        var ty := ParamBetween(A, B, tx, 0.0, y);
        WalkedBack(a, b, rings, tx, ty);
      }
    }
  }

  lemma WalkedBack(a: P2, b: P2, rings: seq<Ring>, tx: real, ty: real)
    requires a != b && ProbesPass(a, b, rings) && 0.0 <= ty <= tx <= 1.0
    requires var y := Lerp(Real(a), Real(b), ty); var x := Lerp(Real(a), Real(b), tx);
                                                  && OnAny(Region(rings), y)
                                                  && forall w :: On(x, y, w) && OnAny(Region(rings), w) ==> w == y
    ensures Contain(Lerp(Real(a), Real(b), tx), Region(rings)) != Outside
  {
    var es := Region(rings);
    var y, x := Lerp(Real(a), Real(b), ty), Lerp(Real(a), Real(b), tx);
    EdgesAgree(rings);
    var k :| 0 <= k < |es| && OnEdge(es[k], y);
    hide Lerp, On, Orient, ProbesPass, Region;
    if !OnAny(es, x) {
      assert !OnEdge(es[k], x);
      forall w | On(x, y, w) && OnEdge(es[k], w) ensures w == y {
        assert OnAny(es, w);
      }
      var s := HitIsProbed(a, b, rings, tx, ty, k);
      StepBeside(a, b, rings, tx, ty, s);
    }
  }

  /** A step beside the probed point reaches x without meeting an edge. */
  lemma StepBeside(a: P2, b: P2, rings: seq<Ring>, tx: real, ty: real, s: P2)
    requires a != b && ty < tx && Real(s) == Lerp(Real(a), Real(b), ty)
    requires var y := Lerp(Real(a), Real(b), ty); var x := Lerp(Real(a), Real(b), tx);
                                                  forall w :: On(x, y, w) && OnAny(Region(rings), w) ==> w == y
    requires PertContain(Beside(s, VecOf(a, b)), Edges2(rings)) != Outside
    ensures Contain(Lerp(Real(a), Real(b), tx), Region(rings)) != Outside
  {
    var A, B := Real(a), Real(b);
    RealInjective(a, b);
    var p := Beside(s, VecOf(a, b));
    DirectionMoves(a, b);
    EdgesAgree(rings);
    RegionClosed(rings);
    hide Displaced, Lerp, PertContain, Contain, On, OnAny, Region, Edges2, Closed, VecOf, Real;
    var bound := PerturbedIsLimit(p, Edges2(rings));
    var d := MinReal(bound, tx - ty) / 2.0;
    BesideForward(a, b, s, ty, d);
    ClearStep(A, B, Region(rings), tx, ty, ty + d);
  }

  lemma ClearStep(A: Pt, B: Pt, es: seq<Edge>, tx: real, ty: real, tz: real)
    requires A != B && ty < tz <= tx && Closed(es)
    requires forall w :: On(Lerp(A, B, tx), Lerp(A, B, ty), w) && OnAny(es, w) ==> w == Lerp(A, B, ty)
    ensures Contain(Lerp(A, B, tz), es) == Contain(Lerp(A, B, tx), es)
  {
    var x, z := Lerp(A, B, tx), Lerp(A, B, tz);
    hide Lerp;
    forall i | 0 <= i < |es| ensures !Meet(z, x, es[i].a, es[i].b) {
      forall w | On(z, x, w) && On(es[i].a, es[i].b, w) ensures false {
        var tw := ParamBetween(A, B, tz, tx, w);
        LerpOnLerp(A, B, tx, ty, tw);
        assert OnEdge(es[i], w);
        LerpInjective(A, B, tw, ty);
      }
    }
    Transport(z, x, es);
  }

  // ----- Completeness

  /** Distinct edges meet only where both end: a valid polygon. */
  ghost predicate MeetAtVertices(es: seq<Edge>) {
    forall i, j, z :: 0 <= i < |es| && 0 <= j < |es| && i != j && OnEdge(es[i], z) && OnEdge(es[j], z) ==>
                        z == es[i].a || z == es[i].b
  }

  /** No two edges share more than a point. */
  ghost predicate NoOverlap(es: seq<Edge>) {
    forall i, j, w, z ::
      0 <= i < |es| && 0 <= j < |es| && i != j && SharedBy(es[i], es[j], w) && SharedBy(es[i], es[j], z) ==> w == z
  }

  predicate SharedBy(e: Edge, f: Edge, z: Pt) {
    OnEdge(e, z) && OnEdge(f, z)
  }

  lemma MeetEnd(es: seq<Edge>, i: nat, j: nat, z: Pt)
    requires MeetAtVertices(es) && i < |es| && j < |es| && i != j && OnEdge(es[i], z) && OnEdge(es[j], z)
    ensures z == es[i].a || z == es[i].b
  {
  }

  lemma OneShared(es: seq<Edge>, i: nat, j: nat, w: Pt, z: Pt)
    requires MeetAtVertices(es) && i < |es| && j < |es| && i != j && SharedBy(es[i], es[j], w)
    requires SharedBy(es[i], es[j], z)
    ensures w == z
  {
    hide MeetAtVertices, Lerp;
    MeetEnd(es, i, j, w);
    MeetEnd(es, i, j, z);
    if w != z {
      Midway(es[i], w, z);
      Midway(es[j], w, z);
      MeetEnd(es, i, j, Lerp(w, z, 0.5));
    }
  }

  lemma VerticesNoOverlap(es: seq<Edge>)
    requires MeetAtVertices(es)
    ensures NoOverlap(es)
  {
    hide MeetAtVertices, SharedBy;
    forall i, j, w, z | 0 <= i < |es| && 0 <= j < |es| && i != j && SharedBy(es[i], es[j], w) &&
                        SharedBy(es[i], es[j], z)
      ensures w == z
    {
      OneShared(es, i, j, w, z);
    }
  }

  lemma Midway(e: Edge, w: Pt, z: Pt)
    requires w != z && OnEdge(e, w) && OnEdge(e, z)
    ensures var m := Lerp(w, z, 0.5); OnEdge(e, m) && m != w && m != z
  {
    var m := Lerp(w, z, 0.5);
    LerpOn(w, z, 0.5);
    OnTrans(e.a, e.b, w, z, m);
    assert m.x == (w.x + z.x) / 2.0 && m.y == (w.y + z.y) / 2.0;
  }

  /** Setting out along an edge that overlaps no other, the way is on no other edge at first. */
  lemma {:induction false} LoneWay(es: seq<Edge>, k: nat, w: Pt, n: Pt, count: nat) returns (r: real)
    requires NoOverlap(es) && k < |es| && count <= |es| && w != n && OnEdge(es[k], w) && OnEdge(es[k], n)
    ensures 0.0 < r <= 1.0
    ensures forall t, i :: 0.0 < t < r && 0 <= i < count && i != k ==> !OnEdge(es[i], Lerp(w, n, t))
  {
    if count == 0 {
      r := 1.0;
    } else {
      var j := count - 1;
      r := LoneWay(es, k, w, n, j);
      if j != k && exists t :: 0.0 < t < r && OnEdge(es[j], Lerp(w, n, t)) {
        var t0 :| 0.0 < t0 && t0 < r && OnEdge(es[j], Lerp(w, n, t0));
        forall t | 0.0 < t < t0 ensures !OnEdge(es[j], Lerp(w, n, t)) {
          OneHit(es, k, j, w, n, t, t0);
        }
        r := t0;
      }
    }
  }

  lemma OneHit(es: seq<Edge>, k: nat, j: nat, w: Pt, n: Pt, t: real, u: real)
    requires NoOverlap(es) && k < |es| && j < |es| && j != k && w != n && OnEdge(es[k], w) && OnEdge(es[k], n)
    requires 0.0 < t <= 1.0 && 0.0 < u <= 1.0 && t != u && OnEdge(es[j], Lerp(w, n, u))
    ensures !OnEdge(es[j], Lerp(w, n, t))
  {
    var e := es[k];
    LerpOn(w, n, t);
    LerpOn(w, n, u);
    OnTrans(e.a, e.b, w, n, Lerp(w, n, t));
    OnTrans(e.a, e.b, w, n, Lerp(w, n, u));
    hide Lerp, On;
    if OnEdge(es[j], Lerp(w, n, t)) {
      assert SharedBy(es[k], es[j], Lerp(w, n, t)) && SharedBy(es[k], es[j], Lerp(w, n, u));
      LerpInjective(w, n, t, u);
    }
  }

  /** z is on edge k and on no other. */
  predicate Lone(es: seq<Edge>, k: nat, z: Pt)
    requires k < |es|
  {
    OnEdge(es[k], z) && forall i :: 0 <= i < |es| && i != k ==> !OnEdge(es[i], z)
  }

  /** Wherever A-B properly crosses an edge, it meets no other edge in the same point. */
  ghost predicate CleanCrossings(A: Pt, B: Pt, es: seq<Edge>) {
    forall k, z :: 0 <= k < |es| && ProperCross(A, B, es[k].a, es[k].b) && On(A, B, z) && OnEdge(es[k], z) ==>
                     Lone(es, k, z)
  }

  /** Where distinct edges meet only at vertices, every crossing is clean. */
  lemma VerticesClean(A: Pt, B: Pt, es: seq<Edge>)
    requires MeetAtVertices(es)
    ensures CleanCrossings(A, B, es)
  {
    forall k, z | 0 <= k < |es| && ProperCross(A, B, es[k].a, es[k].b) && On(A, B, z) && OnEdge(es[k], z)
      ensures Lone(es, k, z)
    {
      CrossedInside(A, B, es[k], z);
      hide ProperCross, On, OnEdge;
      forall i | 0 <= i < |es| && i != k ensures !OnEdge(es[i], z) {
      }
    }
  }

  lemma CrossedInside(A: Pt, B: Pt, e: Edge, z: Pt)
    requires ProperCross(A, B, e.a, e.b) && On(A, B, z)
    ensures z != e.a && z != e.b
  {
  }

  /** Near a point off an edge, the line stays off it. */
  lemma AvoidEdge(A: Pt, B: Pt, f: Edge, t: real) returns (r: real)
    requires !OnEdge(f, Lerp(A, B, t))
    ensures 0.0 < r && forall u :: t - r < u < t + r ==> !OnEdge(f, Lerp(A, B, u))
  {
    var z := Lerp(A, B, t);
    if Orient(f.a, f.b, z) != 0.0 {
      var o, k := Orient(f.a, f.b, z), Orient(f.a, f.b, B) - Orient(f.a, f.b, A);
      r := AvoidBeyond(o, k);
      forall u | t - r < u < t + r ensures !OnEdge(f, Lerp(A, B, u)) {
        hide OnEdge, Orient, Lerp;
        OrientLerp(f.a, f.b, A, B, t);
        OrientLerp(f.a, f.b, A, B, u);
        MeanMoves(Orient(f.a, f.b, A), Orient(f.a, f.b, B), t, u);
        OffLine(f, Lerp(A, B, u));
      }
    } else if !Between(f.a.x, z.x, f.b.x) {
      r := AvoidRange(A.x, B.x, t, f.a.x, f.b.x);
    } else {
      r := AvoidRange(A.y, B.y, t, f.a.y, f.b.y);
    }
  }

  lemma OffLine(f: Edge, p: Pt)
    requires Orient(f.a, f.b, p) != 0.0
    ensures !OnEdge(f, p)
  {
  }

  lemma MeanMoves(p: real, q: real, t: real, u: real)
    ensures (1.0 - u) * p + u * q == (1.0 - t) * p + t * q + Mul(u - t, q - p)
  {
  }

  /** A coordinate outside a closed range stays outside nearby. */
  lemma AvoidRange(a: real, b: real, t: real, p: real, q: real) returns (r: real)
    requires !Between(p, Along(a, b, t), q)
    ensures 0.0 < r && forall u :: t - r < u < t + r ==> !Between(p, Along(a, b, u), q)
  {
    var v := Along(a, b, t);
    var k := b - a;
    var r1 := AvoidBeyond(v - p, k);
    var r2 := AvoidBeyond(v - q, k);
    r := MinReal(r1, r2);
    forall u | t - r < u < t + r ensures !Between(p, Along(a, b, u), q) {
      AlongGap(a, b, t, u);
    }
  }

  /** A value keeps its strict sign nearby. */
  lemma AvoidBeyond(o: real, k: real) returns (r: real)
    ensures 0.0 < r
    ensures forall h :: -r < h < r ==> (o > 0.0 ==> o + Mul(h, k) > 0.0) && (o < 0.0 ==> o + Mul(h, k) < 0.0)
  {
    if o == 0.0 {
      r := 1.0;
    } else {
      var m := (if k < 0.0 then -k else k) + 1.0;
      var g := if o < 0.0 then -o else o;
      r := g / m;
      assert r * m == g;
      forall h | -r < h < r
        ensures (o > 0.0 ==> o + Mul(h, k) > 0.0) && (o < 0.0 ==> o + Mul(h, k) < 0.0)
      {
        var n := if h < 0.0 then -h else h;
        MulPos(r - n, m);
        assert Mul(r - n, m) == g - Mul(n, m);
        assert Mul(n, m) == Mul(n, m - 1.0) + n;
        assert Mul(h, k) == Mul(n, m - 1.0) || Mul(h, k) == -Mul(n, m - 1.0);
        MulNonneg(n, m - 1.0);
      }
    }
  }

  /** Around a point off all edges but one, the line meets no other edge. */
  lemma {:induction false} AvoidOthers(A: Pt, B: Pt, es: seq<Edge>, k: int, t: real) returns (r: real)
    requires forall i :: 0 <= i < |es| && i != k ==> !OnEdge(es[i], Lerp(A, B, t))
    ensures 0.0 < r
    ensures forall u, i :: t - r < u < t + r && 0 <= i < |es| && i != k ==> !OnEdge(es[i], Lerp(A, B, u))
  {
    if es == [] {
      r := 1.0;
    } else {
      var n := |es| - 1;
      var r0 := AvoidOthers(A, B, es[..n], k, t);
      hide OnEdge, Lerp;
      if n == k {
        r := r0;
      } else {
        var r1 := AvoidEdge(A, B, es[n], t);
        r := MinReal(r0, r1);
      }
      forall u, i | t - r < u < t + r && 0 <= i < |es| && i != k ensures !OnEdge(es[i], Lerp(A, B, u)) {
        if i < n { assert es[i] == es[..n][i]; }
      }
    }
  }

  /** Crossing one edge properly, away from all others, changes the answer. */
  lemma CrossingFlips(p: Pt, q: Pt, es: seq<Edge>, k: nat)
    requires Closed(es) && k < |es| && ProperCross(p, q, es[k].a, es[k].b)
    requires forall i :: 0 <= i < |es| && i != k ==> !Meet(p, q, es[i].a, es[i].b)
    ensures (Contain(p, es) == Outside && Contain(q, es) == Inside) ||
            (Contain(p, es) == Inside && Contain(q, es) == Outside)
  {
    OnEnds(p, q);
    forall i | 0 <= i < |es|
      ensures Apart(p, q, es[i]) && Hit(p, q)(es[i]) == (i == k) && !OnEdge(es[i], p) && !OnEdge(es[i], q)
    {
      OnEnds(es[i].a, es[i].b);
      if i != k && Hit(p, q)(es[i]) {
        var x := ProperCrossMeets(p, q, es[i].a, es[i].b);
      }
    }
    OddOne(es, Hit(p, q), k);
    ParityDifference(p, q, es);
  }

  /** A segment that properly crosses an edge, away from every other edge, has points outside and inside the region. */
  lemma CrossingLeaves(A: Pt, B: Pt, es: seq<Edge>, k: nat, z: Pt) returns (x: Pt, y: Pt)
    requires Closed(es) && k < |es| && ProperCross(A, B, es[k].a, es[k].b) && On(A, B, z) && Lone(es, k, z)
    ensures On(A, B, x) && Contain(x, es) == Outside && On(A, B, y) && Contain(y, es) == Inside
  {
    var c, d := es[k].a, es[k].b;
    var t := OnParam(A, B, z);
    OrientLerp(c, d, A, B, t);
    LerpZero(A, B);
    LerpOne(A, B);
    var r := AvoidOthers(A, B, es, k, t);
    assert 0.0 < t < 1.0;
    var h := MinReal(r, MinReal(t, 1.0 - t)) / 2.0;
    var p, q := Lerp(A, B, t - h), Lerp(A, B, t + h);
    LerpOn(A, B, t - h);
    LerpOn(A, B, t + h);
    StraddlesStill(A, B, c, d, t, h);
    hide ProperCross, OnEdge, Contain;
    forall i | 0 <= i < |es| && i != k ensures !Meet(p, q, es[i].a, es[i].b) {
      MissesNear(A, B, es[i], t, h, r);
    }
    CrossingFlips(p, q, es, k);
    x, y := if Contain(p, es) == Outside then p else q, if Contain(p, es) == Outside then q else p;
  }

  lemma MissesNear(A: Pt, B: Pt, f: Edge, t: real, h: real, r: real)
    requires 0.0 < h < r && forall u :: t - r < u < t + r ==> !OnEdge(f, Lerp(A, B, u))
    ensures !Meet(Lerp(A, B, t - h), Lerp(A, B, t + h), f.a, f.b)
  {
    var p, q := Lerp(A, B, t - h), Lerp(A, B, t + h);
    forall w | On(p, q, w) && On(f.a, f.b, w) ensures false {
      var u := ParamBetween(A, B, t - h, t + h, w);
    }
  }

  /** The short piece around the crossing still crosses properly. */
  lemma StraddlesStill(A: Pt, B: Pt, c: Pt, d: Pt, t: real, h: real)
    requires ProperCross(A, B, c, d) && Orient(c, d, Lerp(A, B, t)) == 0.0 && 0.0 < h
    ensures ProperCross(Lerp(A, B, t - h), Lerp(A, B, t + h), c, d)
  {
    hide Orient, Lerp;
    EndsStraddle(A, B, c, d, t, h);
    PieceOrient(A, B, t - h, t + h, c);
    PieceOrient(A, B, t - h, t + h, d);
    assert t + h - (t - h) == 2.0 * h;
    SignOfProduct(2.0 * h, Orient(A, B, c));
    SignOfProduct(2.0 * h, Orient(A, B, d));
    hide Mul;
  }

  lemma EndsStraddle(A: Pt, B: Pt, c: Pt, d: Pt, t: real, h: real)
    requires Opposite(Orient(c, d, A), Orient(c, d, B)) && Orient(c, d, Lerp(A, B, t)) == 0.0 && 0.0 < h
    ensures Opposite(Orient(c, d, Lerp(A, B, t - h)), Orient(c, d, Lerp(A, B, t + h)))
  {
    hide Orient, Lerp;
    var oa, ob := Orient(c, d, A), Orient(c, d, B);
    OrientLerp(c, d, A, B, t);
    OrientLerp(c, d, A, B, t - h);
    OrientLerp(c, d, A, B, t + h);
    MeanMoves(oa, ob, t, t - h);
    MeanMoves(oa, ob, t, t + h);
    SignOfProduct(-h, ob - oa);
    SignOfProduct(h, ob - oa);
    assert t - h - t == -h && t + h - t == h;
  }

  /** Orientation relative to a piece of a line scales with its length. */
  lemma PieceOrient(A: Pt, B: Pt, t: real, u: real, c: Pt)
    ensures Orient(Lerp(A, B, t), Lerp(A, B, u), c) == Mul(u - t, Orient(A, B, c))
  {
    AlongGap(A.x, B.x, t, u);
    AlongGap(A.y, B.y, t, u);
    OrientMul(Lerp(A, B, t), Lerp(A, B, u), c);
    OrientMul(A, B, c);
    PieceAxis(u - t, B.x - A.x, B.y - A.y, t, c.x - A.x, c.y - A.y);
    assert c.y - Along(A.y, B.y, t) == (c.y - A.y) - Mul(t, B.y - A.y);
    assert c.x - Along(A.x, B.x, t) == (c.x - A.x) - Mul(t, B.x - A.x);
  }

  lemma PieceAxis(k: real, dx: real, dy: real, t: real, ex: real, ey: real)
    ensures Mul(Mul(k, dx), ey - Mul(t, dy)) - Mul(Mul(k, dy), ex - Mul(t, dx)) == Mul(k, Mul(dx, ey) - Mul(dy, ex))
  {
  }

  /** Small displacements of a probe that answers Outside are outside. */
  lemma OutsideNearby(x: Perturbed, rings: seq<Ring>) returns (bound: real)
    requires x.d1 != Vec(0, 0) && PertContain(x, Edges2(rings)) == Outside
    ensures 0.0 < bound
    ensures forall d :: 0.0 < d < bound ==> Contain(Displaced(x, d), Region(rings)) == Outside
  {
    bound := PerturbedIsLimit(x, Edges2(rings));
    EdgesAgree(rings);
  }

  lemma DirectionMoves(a: P2, b: P2)
    requires a != b
    ensures VecOf(a, b) != Vec(0, 0) && Negate(VecOf(a, b)) != Vec(0, 0)
  {
  }

  /** The parameter of a point of the segment, strictly below 1 unless it is b, above 0 unless
      it is a. */
  lemma VertexParam(a: P2, b: P2, s: P2) returns (t: real)
    requires OnSegment2(a, b, s)
    ensures 0.0 <= t <= 1.0 && Real(s) == Lerp(Real(a), Real(b), t)
    ensures (s != a ==> 0.0 < t) && (s != b ==> t < 1.0)
  {
    OnReal(a, b, s);
    t := OnParam(Real(a), Real(b), Real(s));
    RealInjective(a, s);
    RealInjective(b, s);
    LerpZero(Real(a), Real(b));
    LerpOne(Real(a), Real(b));
  }

  /** A probe that answers Outside exhibits a point of the segment outside. */
  lemma ProbeLeaves(a: P2, b: P2, rings: seq<Ring>, s: P2) returns (x: Pt)
    requires a != b && OnSegment2(a, b, s) && s != b
    requires PertContain(Beside(s, VecOf(a, b)), Edges2(rings)) == Outside
    ensures On(Real(a), Real(b), x) && Contain(x, Region(rings)) == Outside
  {
    DirectionMoves(a, b);
    var t := VertexParam(a, b, s);
    var bound := OutsideNearby(Beside(s, VecOf(a, b)), rings);
    hide *;
    var d := MinReal(bound, 1.0 - t) / 2.0;
    MinPositive(bound, 1.0 - t);
    BesideForward(a, b, s, t, d);
    LerpOn(Real(a), Real(b), t + d);
    x := Lerp(Real(a), Real(b), t + d);
  }

  lemma ProbeLeavesBack(a: P2, b: P2, rings: seq<Ring>, s: P2) returns (x: Pt)
    requires a != b && OnSegment2(a, b, s) && s != a
    requires PertContain(Beside(s, Negate(VecOf(a, b))), Edges2(rings)) == Outside
    ensures On(Real(a), Real(b), x) && Contain(x, Region(rings)) == Outside
  {
    DirectionMoves(a, b);
    var t := VertexParam(a, b, s);
    var bound := OutsideNearby(Beside(s, Negate(VecOf(a, b))), rings);
    hide *;
    var d := MinReal(bound, t) / 2.0;
    MinPositive(bound, t);
    BesideBack(a, b, s, t, d);
    LerpOn(Real(a), Real(b), t - d);
    x := Lerp(Real(a), Real(b), t - d);
  }

  lemma MinPositive(u: real, v: real)
    requires 0.0 < u && 0.0 < v
    ensures 0.0 < MinReal(u, v) / 2.0 < u && MinReal(u, v) / 2.0 < v
  {
  }
}
