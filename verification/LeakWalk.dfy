/** From a point of one region outside another to a vertex: across to an edge where that changes, and along the edge
    to its next vertex, next to which there is such a point on one side. Edges of a region may cross and overlap
    each other; only edges of different regions must not cross. */
module LeakWalk {
  import opened Basics
  import opened Plane
  import opened EvenOdd
  import opened Touching
  import opened Nearest
  import opened Rings
  import opened Regions
  import opened Perturbation
  import opened Within
  import opened SweptWithin
  import opened Corners

  ghost predicate NoCrossing(ei: seq<Edge>, ea: seq<Edge>) {
    forall e, f :: e in ei && f in ea ==> !ProperCross(e.a, e.b, f.a, f.b)
  }

  lemma ProperCrossSwap(a: Pt, b: Pt, c: Pt, d: Pt)
    ensures ProperCross(a, b, c, d) == ProperCross(c, d, a, b)
  {
  }

  lemma NoCrossingSwap(ei: seq<Edge>, ea: seq<Edge>)
    requires NoCrossing(ei, ea)
    ensures NoCrossing(ea, ei)
  {
    forall f, e | f in ea && e in ei ensures !ProperCross(f.a, f.b, e.a, e.b) {
      ProperCrossSwap(e.a, e.b, f.a, f.b);
    }
  }

  /** A point of the one region outside the other. */
  ghost predicate Leak(ei: seq<Edge>, ea: seq<Edge>, x: Pt) {
    Contain(x, ei) == Inside && Contain(x, ea) == Outside
  }

  lemma OnAnyConcat(es: seq<Edge>, fs: seq<Edge>, x: Pt)
    ensures OnAny(es + fs, x) <==> OnAny(es, x) || OnAny(fs, x)
  {
    var all := es + fs;
    if OnAny(es, x) {
      var i :| 0 <= i < |es| && OnEdge(es[i], x);
      assert OnEdge(all[i], x);
    }
    if OnAny(fs, x) {
      var i :| 0 <= i < |fs| && OnEdge(fs[i], x);
      assert OnEdge(all[|es| + i], x);
    }
  }

  // ----- A height at which nothing happens

  predicate CrossAt(e: Edge, f: Edge, z: Pt) {
    ProperCross(e.a, e.b, f.a, f.b) && OnEdge(e, z) && OnEdge(f, z)
  }

  /** No two edges cross at this height. */
  ghost predicate CrossFree(ds: seq<Edge>, es: seq<Edge>, h: real) {
    forall i, j, z :: 0 <= i < |ds| && 0 <= j < |es| && CrossAt(ds[i], es[j], z) ==> z.y != h
  }

  lemma CrossMeans(e: Edge, f: Edge, z: Pt)
    requires CrossAt(e, f, z)
    ensures Orient(f.a, f.b, e.a) != Orient(f.a, f.b, e.b) && On(e.a, e.b, z) && Orient(f.a, f.b, z) == 0.0
  {
    hide Orient;
  }

  lemma CrossOnce(e: Edge, f: Edge, z: Pt, w: Pt)
    requires CrossAt(e, f, z) && CrossAt(e, f, w)
    ensures z == w
  {
    hide *;
    var p, q := Orient(f.a, f.b, e.a), Orient(f.a, f.b, e.b);
    CrossMeans(e, f, z);
    CrossMeans(e, f, w);
    var s := OnParam(e.a, e.b, z);
    var t := OnParam(e.a, e.b, w);
    OrientLerp(f.a, f.b, e.a, e.b, s);
    OrientLerp(f.a, f.b, e.a, e.b, t);
    OneRoot(p, q, s, t);
  }

  lemma OneRoot(p: real, q: real, s: real, t: real)
    requires p != q && (1.0 - s) * p + s * q == 0.0 && (1.0 - t) * p + t * q == 0.0
    ensures s == t
  {
    assert (q - p) * s == -p && (q - p) * t == -p;
    CancelFactor(q - p, s, t);
  }

  lemma AvoidCross(e: Edge, f: Edge, y: real) returns (r: real)
    ensures 0.0 < r && forall z :: CrossAt(e, f, z) ==> !(y < z.y < y + r)
  {
    r := 1.0;
    hide CrossAt;
    if exists z :: CrossAt(e, f, z) {
      var z :| CrossAt(e, f, z);
      if z.y > y { r := z.y - y; }
      forall w | CrossAt(e, f, w) ensures !(y < w.y < y + r) {
        CrossOnce(e, f, z, w);
      }
    }
  }

  lemma {:induction false} AvoidCrossWith(e: Edge, es: seq<Edge>, y: real) returns (r: real)
    ensures 0.0 < r && forall j, z :: 0 <= j < |es| && CrossAt(e, es[j], z) ==> !(y < z.y < y + r)
  {
    hide CrossAt;
    r := 1.0;
    if es != [] {
      var n := |es| - 1;
      var p := AvoidCrossWith(e, es[..n], y);
      var q := AvoidCross(e, es[n], y);
      r := MinReal(p, q);
      forall j, z | 0 <= j < |es| && CrossAt(e, es[j], z) ensures !(y < z.y < y + r) {
        if j < n { assert es[j] == es[..n][j]; }
      }
    }
  }

  lemma {:induction false} AvoidCrossings(ds: seq<Edge>, es: seq<Edge>, y: real) returns (r: real)
    ensures 0.0 < r
    ensures forall i, j, z :: 0 <= i < |ds| && 0 <= j < |es| && CrossAt(ds[i], es[j], z) ==> !(y < z.y < y + r)
  {
    hide CrossAt;
    r := 1.0;
    if ds != [] {
      var n := |ds| - 1;
      var p := AvoidCrossings(ds[..n], es, y);
      var q := AvoidCrossWith(ds[n], es, y);
      r := MinReal(p, q);
      forall i, j, z | 0 <= i < |ds| && 0 <= j < |es| && CrossAt(ds[i], es[j], z) ensures !(y < z.y < y + r) {
        if i < n { assert ds[i] == ds[..n][i]; }
      }
    }
  }

  /** A nearby point in the same ball at the height of no vertex and no crossing. */
  lemma GenericHeight(es: seq<Edge>, x: Pt, t2: real) returns (z: Pt)
    requires 0.0 < t2
    ensures Dist2(x, z) < t2 && HeightFree(es, z.y) && CrossFree(es, es, z.y)
  {
    var r := AvoidHeights(es, x.y);
    var q := AvoidCrossings(es, es, x.y);
    var d := SmallSquare(t2);
    var e := MinReal(MinReal(r, q), d) / 2.0;
    z := Pt(x.x, x.y + e);
    LiftDistance(x, e);
    hide Sq, Dist2, CrossAt;
    assert 0.0 < e <= d && x.y < z.y < x.y + r && z.y < x.y + q;
  }

  // ----- The places where a horizontal line meets edges

  /** No edge through y is horizontal. */
  predicate Upright(es: seq<Edge>, y: Pt) {
    forall i :: 0 <= i < |es| && OnEdge(es[i], y) ==> es[i].a.y != es[i].b.y
  }

  lemma LevelOrient(f: Edge, y: Pt, w: Pt)
    requires w.y == y.y
    ensures Orient(f.a, f.b, w) == Orient(f.a, f.b, y) - Mul(f.b.y - f.a.y, w.x - y.x)
  {
  }

  lemma ZeroFactor(u: real, v: real)
    requires u != 0.0 && Mul(u, v) == 0.0
    ensures v == 0.0
  {
    CancelFactor(u, v, 0.0);
  }

  /** An upright edge meets a horizontal line once. */
  lemma UprightOnce(f: Edge, y: Pt, w: Pt)
    requires f.a.y != f.b.y && OnEdge(f, y) && OnEdge(f, w) && w.y == y.y
    ensures w == y
  {
    LevelOrient(f, y, w);
    assert Mul(f.b.y - f.a.y, w.x - y.x) == 0.0;
    hide OnEdge, Orient;
    ZeroFactor(f.b.y - f.a.y, w.x - y.x);
  }

  /** Close to y, the horizontal line through it meets no edge but in y. */
  lemma {:induction false} JustBeside(es: seq<Edge>, y: Pt) returns (d: real)
    requires Upright(es, y)
    ensures 0.0 < d && forall x :: y.x - d < x < y.x + d && x != y.x ==> !OnAny(es, Pt(x, y.y))
  {
    d := 1.0;
    if es != [] {
      var n := |es| - 1;
      forall i | 0 <= i < n && OnEdge(es[..n][i], y) ensures es[..n][i].a.y != es[..n][i].b.y {
        assert es[..n][i] == es[i];
      }
      var p := JustBeside(es[..n], y);
      var q := BesideOne(es[n], y);
      d := MinReal(p, q);
      hide OnEdge;
      forall x | y.x - d < x < y.x + d && x != y.x ensures !OnAny(es, Pt(x, y.y)) {
        var w := Pt(x, y.y);
        assert !OnAny(es[..n], w) && !OnEdge(es[n], w);
        forall i | 0 <= i < |es| ensures !OnEdge(es[i], w) {
          if i < n { assert es[i] == es[..n][i]; }
        }
      }
    }
  }

  lemma BesideOne(f: Edge, y: Pt) returns (d: real)
    requires OnEdge(f, y) ==> f.a.y != f.b.y
    ensures 0.0 < d && forall x :: y.x - d < x < y.x + d && x != y.x ==> !OnEdge(f, Pt(x, y.y))
  {
    if OnEdge(f, y) {
      d := 1.0;
      hide OnEdge;
      forall x | y.x - d < x < y.x + d && x != y.x ensures !OnEdge(f, Pt(x, y.y)) {
        if OnEdge(f, Pt(x, y.y)) { UprightOnce(f, y, Pt(x, y.y)); }
      }
    } else {
      var b := Pt(y.x + 1.0, y.y);
      LerpZero(y, b);
      d := AvoidEdge(y, b, f, 0.0);
      forall x | y.x - d < x < y.x + d && x != y.x ensures !OnEdge(f, Pt(x, y.y)) {
        LevelLerp(y, b, x);
        assert !OnEdge(f, Lerp(y, b, x - y.x));
      }
    }
  }

  lemma LevelLerp(y: Pt, b: Pt, x: real)
    requires b == Pt(y.x + 1.0, y.y)
    ensures Lerp(y, b, x - y.x) == Pt(x, y.y)
  {
    assert Along(y.x, y.x + 1.0, x - y.x) == x;
  }

  /** From p to q, left to right, edges are met in y and nowhere else. */
  ghost predicate Straddles(es: seq<Edge>, p: Pt, y: Pt, q: Pt) {
    && p.y == y.y == q.y && p.x < y.x < q.x
    && forall w :: On(p, q, w) && OnAny(es, w) ==> w == y
  }

  lemma OnLevelMeans(p: Pt, q: Pt, w: Pt)
    requires p.y == q.y && p.x < q.x
    ensures On(p, q, w) <==> w.y == p.y && p.x <= w.x <= q.x
  {
    assert Orient(p, q, w) == Mul(q.x - p.x, w.y - p.y);
    if Orient(p, q, w) == 0.0 {
      ZeroFactor(q.x - p.x, w.y - p.y);
    }
  }

  lemma StraddleJoins(es: seq<Edge>, p: Pt, y: Pt, q: Pt, d: real)
    requires p.y == y.y == q.y && p.x < y.x < q.x < y.x + d
    requires forall w :: On(p, y, w) && OnAny(es, w) ==> w == y
    requires forall x :: y.x - d < x < y.x + d && x != y.x ==> !OnAny(es, Pt(x, y.y))
    ensures Straddles(es, p, y, q)
  {
    forall w | On(p, q, w) && OnAny(es, w) ensures w == y {
      OnLevelMeans(p, q, w);
      OnLevelMeans(p, y, w);
      hide OnAny, On;
      assert w == Pt(w.x, y.y);
    }
  }

  lemma StraddleAround(es: seq<Edge>, y: Pt) returns (p: Pt, q: Pt)
    requires Upright(es, y)
    ensures Straddles(es, p, y, q)
  {
    var d := JustBeside(es, y);
    p, q := Pt(y.x - d / 2.0, y.y), Pt(y.x + d / 2.0, y.y);
    forall w | On(p, y, w) && OnAny(es, w) ensures w == y {
      OnLevelMeans(p, y, w);
      hide OnAny, On;
      assert w == Pt(w.x, y.y);
    }
    StraddleJoins(es, p, y, q, d);
  }

  ghost function Met(es: seq<Edge>, p: Pt, q: Pt): set<nat> {
    set i: nat | i < |es| && Meet(p, q, es[i].a, es[i].b)
  }

  /** Beyond y fewer edges are met. */
  lemma FewerMet(es: seq<Edge>, g: Pt, y: Pt, q: Pt, z: Pt)
    requires g.y == y.y == q.y == z.y && g.x <= y.x < q.x <= z.x && OnAny(es, y) && Upright(es, y)
    ensures |Met(es, q, z)| < |Met(es, g, z)|
  {
    var few, many := Met(es, q, z), Met(es, g, z);
    hide OnEdge;
    forall i: nat | i in few ensures i in many {
      var w :| On(q, z, w) && On(es[i].a, es[i].b, w);
      LevelWithin(g, q, z, w);
    }
    var k: nat :| k < |es| && OnEdge(es[k], y);
    assert k in many by {
      LevelWithin(g, y, z, y);
      assert On(g, z, y) && On(es[k].a, es[k].b, y) by { OnIsOnEdge(es[k], y); }
    }
    if k in few {
      var w :| On(q, z, w) && On(es[k].a, es[k].b, w);
      OnIsOnEdge(es[k], w);
      LevelWithin(g, q, z, w);
      UprightOnce(es[k], y, w);
    }
    assert few <= many - {k};
    SubsetSize(few, many - {k});
  }

  lemma LevelWithin(g: Pt, q: Pt, z: Pt, w: Pt)
    requires g.y == q.y == z.y && g.x <= q.x <= z.x && (On(q, z, w) || w == q)
    ensures On(g, z, w) && w.y == g.y && q.x <= w.x <= z.x
  {
  }

  /** Going right from a leak to a point that is none, somewhere a leak ends. */
  lemma {:induction false} WhereItEnds(ei: seq<Edge>, ea: seq<Edge>, g: Pt, z: Pt) returns (p: Pt, y: Pt, q: Pt)
    requires Closed(ei) && Closed(ea) && Leak(ei, ea, g) && !Leak(ei, ea, z) && !OnAny(ei + ea, z)
    requires g.y == z.y && g.x < z.x && HeightFree(ei + ea, g.y)
    ensures Straddles(ei + ea, p, y, q) && y.y == g.y && OnAny(ei + ea, y) && Leak(ei, ea, p) && !Leak(ei, ea, q)
    decreases |Met(ei + ea, g, z)|
  {
    var all := ei + ea;
    SomethingMet(ei, ea, g, z);
    OnAnyConcat(ei, ea, g);
    y := FirstHit(g, z, all);
    OnLevelMeans(g, z, y);
    assert y != z && y != g;
    HeightUpright(all, y);
    var d := JustBeside(all, y);
    var c := MinReal(d, z.x - y.x) / 2.0;
    hide Leak, OnAny, On, OnEdge, HeightFree, Closed, Upright;
    q := Pt(y.x + c, y.y);
    assert y.x < q.x < y.x + d && q.x < z.x;
    if Leak(ei, ea, q) {
      FewerMet(all, g, y, q, z);
      p, y, q := WhereItEnds(ei, ea, q, z);
    } else {
      p := g;
      StraddleJoins(all, p, y, q, d);
    }
  }

  lemma SomethingMet(ei: seq<Edge>, ea: seq<Edge>, g: Pt, z: Pt)
    requires Closed(ei) && Closed(ea) && Leak(ei, ea, g) && !Leak(ei, ea, z)
    ensures exists i :: 0 <= i < |ei + ea| && Meet(g, z, (ei + ea)[i].a, (ei + ea)[i].b)
  {
    var all := ei + ea;
    hide Meet, Contain;
    if forall i :: 0 <= i < |all| ==> !Meet(g, z, all[i].a, all[i].b) {
      forall i | 0 <= i < |ei| ensures !Meet(g, z, ei[i].a, ei[i].b) {
        assert all[i] == ei[i];
      }
      forall i | 0 <= i < |ea| ensures !Meet(g, z, ea[i].a, ea[i].b) {
        assert all[|ei| + i] == ea[i];
      }
      Transport(g, z, ei);
      Transport(g, z, ea);
    }
  }

  lemma HeightUpright(es: seq<Edge>, y: Pt)
    requires HeightFree(es, y.y)
    ensures Upright(es, y)
  {
  }

  // ----- Along the edge to the next vertex

  predicate Vertex(es: seq<Edge>, v: Pt) {
    exists i :: 0 <= i < |es| && (v == es[i].a || v == es[i].b)
  }

  lemma VertexOf(es: seq<Edge>, e: Edge)
    requires e in es
    ensures Vertex(es, e.a) && Vertex(es, e.b)
  {
    var i :| 0 <= i < |es| && es[i] == e;
  }

  /** Stop earlier if w comes first. */
  lemma StopAt(a: Pt, b: Pt, t0: real, t1: real, w: Pt) returns (t: real)
    requires a != b && t0 < t1
    ensures t0 < t <= t1 && (t == t1 || Lerp(a, b, t) == w) && forall s :: t0 < s < t ==> Lerp(a, b, s) != w
  {
    hide Lerp;
    if exists s :: t0 < s < t1 && Lerp(a, b, s) == w {
      t :| t0 < t && t < t1 && Lerp(a, b, t) == w;
      forall s | t0 < s < t ensures Lerp(a, b, s) != w {
        if Lerp(a, b, s) == w {
          LerpInjective(a, b, s, t);
        }
      }
    } else {
      t := t1;
    }
  }

  lemma {:induction false} NextVertex(es: seq<Edge>, a: Pt, b: Pt, t0: real) returns (t1: real)
    requires a != b && t0 < 1.0
    ensures t0 < t1 <= 1.0 && (t1 == 1.0 || Vertex(es, Lerp(a, b, t1)))
    ensures forall t :: t0 < t < t1 ==> !Vertex(es, Lerp(a, b, t))
  {
    if es == [] {
      t1 := 1.0;
    } else {
      hide Lerp;
      var n := |es| - 1;
      var t := NextVertex(es[..n], a, b, t0);
      var u := StopAt(a, b, t0, t, es[n].a);
      t1 := StopAt(a, b, t0, u, es[n].b);
      forall w ensures Vertex(es, w) <==> Vertex(es[..n], w) || w == es[n].a || w == es[n].b {
        VertexSnoc(es, w);
      }
    }
  }

  lemma VertexSnoc(es: seq<Edge>, w: Pt)
    requires |es| > 0
    ensures var n := |es| - 1; Vertex(es, w) <==> Vertex(es[..n], w) || w == es[n].a || w == es[n].b
  {
    var n := |es| - 1;
    if Vertex(es[..n], w) {
      var i :| 0 <= i < n && (w == es[..n][i].a || w == es[..n][i].b);
      assert es[i] == es[..n][i];
    }
    if Vertex(es, w) && w != es[n].a && w != es[n].b {
      var i :| 0 <= i < |es| && (w == es[i].a || w == es[i].b);
      assert es[i] == es[..n][i];
    }
  }

  lemma InnerParam(a: Pt, b: Pt, y: Pt) returns (t: real)
    requires On(a, b, y) && a.y != y.y && b.y != y.y
    ensures 0.0 < t < 1.0 && y == Lerp(a, b, t) && a.y != b.y
  {
    t := OnParam(a, b, y);
    LerpZero(a, b);
    LerpOne(a, b);
  }

  /** y and the vertex v on one edge, with no vertex from y up to v. */
  ghost predicate Slide(all: seq<Edge>, e: Edge, t0: real, t1: real, y: Pt, v: Pt) {
    && e in all && e.a.y != e.b.y && 0.0 < t0 < t1 <= 1.0
    && y == Lerp(e.a, e.b, t0) && v == Lerp(e.a, e.b, t1) && Vertex(all, v)
    && forall t :: t0 <= t < t1 ==> !Vertex(all, Lerp(e.a, e.b, t))
  }

  lemma SlideToVertex(all: seq<Edge>, e: Edge, y: Pt) returns (t0: real, t1: real, v: Pt)
    requires HeightFree(all, y.y) && e in all && OnEdge(e, y)
    ensures Slide(all, e, t0, t1, y, v)
  {
    var a, b := e.a, e.b;
    var k :| 0 <= k < |all| && all[k] == e;
    t0 := InnerParam(a, b, y);
    t1 := NextVertex(all, a, b, t0);
    v := Lerp(a, b, t1);
    LerpOne(a, b);
    VertexOf(all, e);
    hide Lerp, On;
    assert !Vertex(all, y);
  }

  /** Within the slide an edge that does not cross e is on its line. */
  lemma AlongLine(all: seq<Edge>, e: Edge, t0: real, t1: real, y: Pt, v: Pt, t: real, f: Edge)
    requires Slide(all, e, t0, t1, y, v) && t0 <= t < t1 && f in all && OnEdge(f, Lerp(e.a, e.b, t))
    requires !ProperCross(e.a, e.b, f.a, f.b)
    ensures OnLine(e.a, e.b, f)
  {
    LerpOn(e.a, e.b, t);
    VertexOf(all, e);
    VertexOf(all, f);
    hide Lerp, ProperCross, Vertex;
    InteriorMeeting(e.a, e.b, f.a, f.b, Lerp(e.a, e.b, t));
  }

  /** An edge on the line is along the whole slide or nowhere on it. */
  lemma WholeSlide(all: seq<Edge>, e: Edge, t0: real, t1: real, y: Pt, v: Pt, t: real, u: real, f: Edge)
    requires Slide(all, e, t0, t1, y, v) && t0 <= t < t1 && t0 <= u < t1 && f in all && OnLine(e.a, e.b, f)
    requires OnEdge(f, Lerp(e.a, e.b, t))
    ensures OnEdge(f, Lerp(e.a, e.b, u))
  {
    VertexOf(all, f);
    var p := LineParam(e.a, e.b, f.a);
    var q := LineParam(e.a, e.b, f.b);
    hide Lerp, Vertex;
    var s := ParamBetween(e.a, e.b, p, q, Lerp(e.a, e.b, t));
    LerpInjective(e.a, e.b, s, t);
    assert !(t0 <= p < t1) && !(t0 <= q < t1);
    LerpOnLerp(e.a, e.b, p, q, u);
  }

  /** Two points of the line of e on f, away from vertices, put f on that line. */
  lemma TwiceOnLine(e: Edge, f: Edge, t: real, u: real)
    requires e.a != e.b && f.a != f.b && t != u && OnEdge(f, Lerp(e.a, e.b, t)) && OnEdge(f, Lerp(e.a, e.b, u))
    ensures OnLine(e.a, e.b, f)
  {
    var p, q := Orient(f.a, f.b, e.a), Orient(f.a, f.b, e.b);
    OrientLerp(f.a, f.b, e.a, e.b, t);
    OrientLerp(f.a, f.b, e.a, e.b, u);
    hide Orient, Lerp;
    if p != q {
      OneRoot(p, q, t, u);
    }
    assert (1.0 - t) * p + t * p == p;
    SameLine(e.a, e.b, f);
  }

  /** Late on the slide, all edges met are on its line. */
  lemma {:induction false} Settle(all: seq<Edge>, e: Edge, t0: real, t1: real, y: Pt, v: Pt, n: nat) returns (t: real)
    requires Slide(all, e, t0, t1, y, v) && n <= |all|
    ensures t0 <= t < t1
    ensures forall j, u :: 0 <= j < n && t <= u < t1 && OnEdge(all[j], Lerp(e.a, e.b, u)) ==> OnLine(e.a, e.b, all[j])
  {
    if n == 0 {
      t := t0;
    } else {
      var f := all[n - 1];
      t := Settle(all, e, t0, t1, y, v, n - 1);
      hide Lerp, OnEdge, OnLine;
      if exists u :: t <= u < t1 && OnEdge(f, Lerp(e.a, e.b, u)) {
        var u :| t <= u && u < t1 && OnEdge(f, Lerp(e.a, e.b, u));
        NoPoint(all, e, t0, t1, y, v, u, f);
        t := (u + t1) / 2.0;
        forall w | t <= w < t1 && OnEdge(f, Lerp(e.a, e.b, w)) ensures OnLine(e.a, e.b, f) {
          TwiceOnLine(e, f, u, w);
        }
      }
    }
  }

  lemma NoPoint(all: seq<Edge>, e: Edge, t0: real, t1: real, y: Pt, v: Pt, t: real, f: Edge)
    requires Slide(all, e, t0, t1, y, v) && t0 <= t < t1 && f in all && OnEdge(f, Lerp(e.a, e.b, t))
    ensures e.a != e.b && f.a != f.b
  {
    VertexOf(all, f);
    if f.a == f.b {
      PointSegment(f.a, Lerp(e.a, e.b, t));
    }
  }

  /** An edge on the line of e that has length is as upright as e. */
  lemma UprightLine(e: Edge, f: Edge)
    requires e.a.y != e.b.y && f.a != f.b && OnLine(e.a, e.b, f)
    ensures f.a.y != f.b.y
  {
    var p := LineParam(e.a, e.b, f.a);
    var q := LineParam(e.a, e.b, f.b);
    if f.a.y == f.b.y {
      AlongInjective(e.a.y, e.b.y, p, q);
    }
  }

  // ----- One side of the slide

  function Through(y: Pt): Edge -> bool {
    e => OnEdge(e, y)
  }

  lemma StraddlesPart(es: seq<Edge>, all: seq<Edge>, p: Pt, y: Pt, q: Pt)
    requires Straddles(all, p, y, q) && forall e :: e in es ==> e in all
    ensures Straddles(es, p, y, q)
  {
    hide On;
    forall w | On(p, q, w) && OnAny(es, w) ensures w == y {
      var i :| 0 <= i < |es| && OnEdge(es[i], w);
      assert es[i] in es;
      OnAnyIn(all, es[i], w);
    }
  }

  lemma CrossedThrough(f: Edge, p: Pt, y: Pt, q: Pt)
    requires p.y == y.y == q.y && p.x < y.x < q.x && OnEdge(f, y) && f.a.y != f.b.y && y != f.a && y != f.b
    ensures ProperCross(p, q, f.a, f.b)
  {
    if f.a.y == y.y {
      OnEnds(f.a, f.b);
      UprightOnce(f, y, f.a);
    }
    if f.b.y == y.y {
      OnEnds(f.a, f.b);
      UprightOnce(f, y, f.b);
    }
    LevelOrient(f, y, p);
    LevelOrient(f, y, q);
    var h := f.b.y - f.a.y;
    Signs(h, p.x - y.x);
    Signs(h, q.x - y.x);
    assert Orient(p, q, f.a) == Mul(q.x - p.x, f.a.y - y.y) && Orient(p, q, f.b) == Mul(q.x - p.x, f.b.y - y.y);
    Signs(q.x - p.x, f.a.y - y.y);
    Signs(q.x - p.x, f.b.y - y.y);
    hide Mul, Orient;
  }

  lemma Signs(u: real, v: real)
    ensures 0.0 < u && 0.0 < v ==> 0.0 < Mul(u, v)
    ensures 0.0 < u && v < 0.0 ==> Mul(u, v) < 0.0
    ensures u < 0.0 && 0.0 < v ==> Mul(u, v) < 0.0
    ensures u < 0.0 && v < 0.0 ==> 0.0 < Mul(u, v)
  {
  }

  /** The segment across y crosses exactly the edges through y. */
  lemma HitIsThrough(es: seq<Edge>, p: Pt, y: Pt, q: Pt, i: nat)
    requires Straddles(es, p, y, q) && Upright(es, y) && !Vertex(es, y) && i < |es|
    ensures Apart(p, q, es[i]) && Hit(p, q)(es[i]) == Through(y)(es[i])
  {
    var f := es[i];
    OnEnds(p, q);
    OnEnds(f.a, f.b);
    assert OnAny(es, f.a) && OnAny(es, f.b);
    assert !OnAny(es, p) && !OnAny(es, q);
    if OnEdge(f, y) {
      CrossedThrough(f, p, y, q);
    } else if ProperCross(p, q, f.a, f.b) {
      var w := ProperCrossMeets(p, q, f.a, f.b);
      assert OnEdge(f, w) && OnAny(es, w);
    }
  }

  /** Across y the answer changes exactly when an odd number of edges pass through y. */
  lemma AcrossParity(es: seq<Edge>, p: Pt, y: Pt, q: Pt)
    requires Closed(es) && Straddles(es, p, y, q) && Upright(es, y) && !Vertex(es, y)
    ensures Contain(p, es) != Boundary && Contain(q, es) != Boundary
    ensures Contain(p, es) != Contain(q, es) <==> Odd(es, Through(y))
  {
    forall i | 0 <= i < |es| ensures Apart(p, q, es[i]) && Hit(p, q)(es[i]) == Through(y)(es[i]) {
      HitIsThrough(es, p, y, q, i);
    }
    ParityDifference(p, q, es);
    OddSame(es, Hit(p, q), es, Through(y));
    hide Hit, Through, Odd;
  }

  /** Edges that do not pass through y do not tell the two sides apart. */
  lemma AcrossNothing(es: seq<Edge>, p: Pt, y: Pt, q: Pt)
    requires Closed(es) && Straddles(es, p, y, q) && !OnAny(es, y)
    ensures Contain(p, es) == Contain(y, es) == Contain(q, es) != Boundary
  {
    forall w | On(p, y, w) || On(y, q, w) ensures On(p, q, w) {
      OnLevelMeans(p, y, w);
      OnLevelMeans(y, q, w);
      OnLevelMeans(p, q, w);
    }
    hide On;
    Unmet(es, p, y);
    Unmet(es, y, q);
  }

  lemma Unmet(es: seq<Edge>, p: Pt, q: Pt)
    requires Closed(es) && forall w :: On(p, q, w) ==> !OnAny(es, w)
    ensures Contain(p, es) == Contain(q, es) != Boundary
  {
    forall i | 0 <= i < |es| ensures !Meet(p, q, es[i].a, es[i].b) {
      forall w | On(p, q, w) ensures !OnEdge(es[i], w) {
        assert !OnAny(es, w);
      }
    }
    Transport(p, q, es);
  }

  /** Every edge is on the line of v and y, or meets the way between them at most in v. */
  ghost predicate OnlyCorner(all: seq<Edge>, v: Pt, y: Pt) {
    forall i :: 0 <= i < |all| ==> OnLine(v, y, all[i]) || forall z :: On(v, y, z) && OnEdge(all[i], z) ==> z == v
  }

  /** Between g and y, at the same height, no edge is met before y. */
  ghost predicate NextTo(all: seq<Edge>, g: Pt, y: Pt) {
    g.y == y.y && g.x != y.x && forall w :: On(g, y, w) && OnAny(all, w) ==> w == y
  }

  lemma LineOfEdge(a: Pt, b: Pt, t0: real, t1: real, f: Edge)
    requires a != b && OnLine(a, b, f)
    ensures OnLine(Lerp(a, b, t1), Lerp(a, b, t0), f)
  {
    var p := LineParam(a, b, f.a);
    var q := LineParam(a, b, f.b);
    OrientOnLine(a, b, t1, t0, p);
    OrientOnLine(a, b, t1, t0, q);
  }

  ghost predicate Settled(all: seq<Edge>, e: Edge, t: real, t1: real) {
    forall j, u :: 0 <= j < |all| && t <= u < t1 && OnEdge(all[j], Lerp(e.a, e.b, u)) ==> OnLine(e.a, e.b, all[j])
  }

  lemma SettledCorner(all: seq<Edge>, e: Edge, t: real, t1: real, y: Pt, v: Pt)
    requires Slide(all, e, t, t1, y, v) && Settled(all, e, t, t1)
    ensures OnlyCorner(all, v, y)
  {
    hide OnLine, OnEdge, Lerp, On;
    forall j | 0 <= j < |all|
      ensures OnLine(v, y, all[j]) || forall z :: On(v, y, z) && OnEdge(all[j], z) ==> z == v
    {
      if OnLine(e.a, e.b, all[j]) {
        LineOfEdge(e.a, e.b, t, t1, all[j]);
      } else {
        forall z | On(v, y, z) && OnEdge(all[j], z) ensures z == v {
          var u := ParamBetween(e.a, e.b, t1, t, z);
        }
      }
    }
  }

  lemma LineTrans(e: Edge, h: Edge, f: Edge)
    requires e.a != e.b && h.a != h.b && OnLine(e.a, e.b, h) && OnLine(h.a, h.b, f)
    ensures OnLine(e.a, e.b, f)
  {
    var p := LineParam(e.a, e.b, h.a);
    var q := LineParam(e.a, e.b, h.b);
    var r := LineParam(h.a, h.b, f.a);
    var s := LineParam(h.a, h.b, f.b);
    LerpCompose(e.a, e.b, p, q, r);
    LerpCompose(e.a, e.b, p, q, s);
    LerpZero(e.a, e.b);
    LerpOne(e.a, e.b);
    OrientOnLine(e.a, e.b, 0.0, 1.0, Along(p, q, r));
    OrientOnLine(e.a, e.b, 0.0, 1.0, Along(p, q, s));
  }

  /** An edge of each family along the slide: neither family crosses it. */
  lemma SharedSlide(es: seq<Edge>, fs: seq<Edge>, e: Edge, h: Edge, t0: real, t1: real, y: Pt, v: Pt)
    requires NoCrossing(es, fs) && e in es && h in fs && Slide(es + fs, e, t0, t1, y, v) && OnEdge(h, y)
    ensures Settled(es + fs, e, t0, t1)
  {
    var all := es + fs;
    hide Slide, OnLine, OnEdge, ProperCross, Lerp;
    forall j, u | 0 <= j < |all| && t0 <= u < t1 && OnEdge(all[j], Lerp(e.a, e.b, u)) ensures OnLine(e.a, e.b, all[j]) {
      OnShared(es, fs, e, h, t0, t1, y, v, u, all[j]);
    }
  }

  lemma OnShared(es: seq<Edge>, fs: seq<Edge>, e: Edge, h: Edge, t0: real, t1: real, y: Pt, v: Pt, u: real, f: Edge)
    requires NoCrossing(es, fs) && e in es && h in fs && Slide(es + fs, e, t0, t1, y, v) && OnEdge(h, y)
    requires t0 <= u < t1 && f in es + fs && OnEdge(f, Lerp(e.a, e.b, u))
    ensures OnLine(e.a, e.b, f)
  {
    var all := es + fs;
    hide OnLine, OnEdge, ProperCross, Lerp, Vertex;
    AlongLine(all, e, t0, t1, y, v, t0, h);
    if f in fs {
      AlongLine(all, e, t0, t1, y, v, u, f);
    } else {
      var z := Lerp(e.a, e.b, u);
      WholeSlide(all, e, t0, t1, y, v, t0, u, h);
      VertexOf(all, f);
      VertexOf(all, h);
      NoPoint(all, e, t0, t1, y, v, u, h);
      ProperCrossSwap(f.a, f.b, h.a, h.b);
      MeetOnLine(h, f, z);
      LineTrans(e, h, f);
    }
  }

  lemma MeetOnLine(h: Edge, f: Edge, z: Pt)
    requires OnEdge(h, z) && OnEdge(f, z) && z != h.a && z != h.b && z != f.a && z != f.b
    requires !ProperCross(h.a, h.b, f.a, f.b)
    ensures OnLine(h.a, h.b, f)
  {
    hide ProperCross;
    InteriorMeeting(h.a, h.b, f.a, f.b, z);
  }

  /** No edge of the other family on y: none on the whole slide. */
  lemma OtherAway(es: seq<Edge>, fs: seq<Edge>, e: Edge, t0: real, t1: real, y: Pt, v: Pt, t: real)
    requires NoCrossing(es, fs) && e in es && Slide(es + fs, e, t0, t1, y, v) && !OnAny(fs, y) && t0 <= t < t1
    ensures !OnAny(fs, Lerp(e.a, e.b, t))
  {
    var all := es + fs;
    hide OnLine, OnEdge, ProperCross, Lerp, Vertex;
    if OnAny(fs, Lerp(e.a, e.b, t)) {
      var j :| 0 <= j < |fs| && OnEdge(fs[j], Lerp(e.a, e.b, t));
      var f := fs[j];
      assert f in fs && f in all;
      AlongLine(all, e, t0, t1, y, v, t, f);
      WholeSlide(all, e, t0, t1, y, v, t, t0, f);
    }
  }

  lemma OtherSame(es: seq<Edge>, fs: seq<Edge>, e: Edge, t0: real, t1: real, y: Pt, v: Pt, t: real)
    requires NoCrossing(es, fs) && e in es && Slide(es + fs, e, t0, t1, y, v) && !OnAny(fs, y) && t0 <= t < t1
    requires Closed(fs)
    ensures Contain(y, fs) == Contain(Lerp(e.a, e.b, t), fs) && !OnAny(fs, Lerp(e.a, e.b, t))
  {
    var x := Lerp(e.a, e.b, t);
    hide OnAny, ProperCross, Lerp, Contain, On;
    OtherAway(es, fs, e, t0, t1, y, v, t);
    forall w | On(y, x, w) ensures !OnAny(fs, w) {
      var u := ParamBetween(e.a, e.b, t0, t, w);
      OtherAway(es, fs, e, t0, t1, y, v, u);
    }
    Unmet(fs, y, x);
  }

  /** The same edges of the family pass through two points of the slide where only edges on its line do. */
  lemma SameThrough(es: seq<Edge>, all: seq<Edge>, e: Edge, t0: real, t1: real, y: Pt, v: Pt, t: real)
    requires Slide(all, e, t0, t1, y, v) && t0 <= t < t1 && (forall f :: f in es ==> f in all)
    requires forall f :: f in es && OnEdge(f, y) ==> OnLine(e.a, e.b, f)
    requires forall f :: f in es && OnEdge(f, Lerp(e.a, e.b, t)) ==> OnLine(e.a, e.b, f)
    ensures Odd(es, Through(y)) == Odd(es, Through(Lerp(e.a, e.b, t)))
  {
    var x := Lerp(e.a, e.b, t);
    hide Slide, OnEdge, OnLine, Lerp;
    assert y == Lerp(e.a, e.b, t0) by { SlideStart(all, e, t0, t1, y, v); }
    forall i | 0 <= i < |es| ensures Through(y)(es[i]) == Through(x)(es[i]) {
      var f := es[i];
      assert f in es;
      if OnEdge(f, y) { WholeSlide(all, e, t0, t1, y, v, t0, t, f); }
      if OnEdge(f, x) { WholeSlide(all, e, t0, t1, y, v, t, t0, f); }
    }
    OddSame(es, Through(y), es, Through(x));
  }

  lemma SlideStart(all: seq<Edge>, e: Edge, t0: real, t1: real, y: Pt, v: Pt)
    requires Slide(all, e, t0, t1, y, v)
    ensures y == Lerp(e.a, e.b, t0) && t0 < t1 && e in all && e.a != e.b && !Vertex(all, y)
  {
  }

  lemma SlideUpright(all: seq<Edge>, e: Edge, t0: real, t1: real, y: Pt, v: Pt)
    requires Slide(all, e, t0, t1, y, v) && forall f :: f in all && OnEdge(f, y) ==> OnLine(e.a, e.b, f)
    ensures Upright(all, y)
  {
    hide OnEdge, OnLine, Lerp, Vertex;
    forall i | 0 <= i < |all| && OnEdge(all[i], y) ensures all[i].a.y != all[i].b.y {
      NoPoint(all, e, t0, t1, y, v, t0, all[i]);
      UprightLine(e, all[i]);
    }
  }

  lemma PartUpright(es: seq<Edge>, all: seq<Edge>, y: Pt)
    requires Upright(all, y) && !Vertex(all, y) && forall e :: e in es ==> e in all
    ensures Upright(es, y) && !Vertex(es, y)
  {
    hide OnEdge;
    forall i | 0 <= i < |es| ensures y != es[i].a && y != es[i].b && (OnEdge(es[i], y) ==> es[i].a.y != es[i].b.y) {
      assert es[i] in es;
      var j :| 0 <= j < |all| && all[j] == es[i];
    }
  }

  /** Later on the slide: where its point x lies, and points p and q on both its sides. */
  ghost predicate Later(all: seq<Edge>, e: Edge, t: real, t1: real, x: Pt, v: Pt, p: Pt, q: Pt) {
    && Slide(all, e, t, t1, x, v) && Settled(all, e, t, t1) && Straddles(all, p, x, q) && Upright(all, x)
  }

  lemma GoLater(all: seq<Edge>, e: Edge, t0: real, t1: real, y: Pt, v: Pt) returns (t: real, x: Pt, p: Pt, q: Pt)
    requires Slide(all, e, t0, t1, y, v)
    ensures t0 <= t < t1 && x == Lerp(e.a, e.b, t) && Later(all, e, t, t1, x, v, p, q)
  {
    t := Settle(all, e, t0, t1, y, v, |all|);
    x := Lerp(e.a, e.b, t);
    hide Lerp, OnEdge, OnLine, Vertex;
    assert Slide(all, e, t, t1, x, v);
    forall f | f in all && OnEdge(f, x) ensures OnLine(e.a, e.b, f) {
      var j :| 0 <= j < |all| && all[j] == f;
    }
    SlideUpright(all, e, t, t1, x, v);
    p, q := StraddleAround(all, x);
  }

  lemma NextToSides(all: seq<Edge>, p: Pt, y: Pt, q: Pt)
    requires Straddles(all, p, y, q)
    ensures NextTo(all, p, y) && NextTo(all, q, y)
  {
    forall w | On(p, y, w) || On(q, y, w) ensures On(p, q, w) {
      OnSwap(q, y, w);
      OnLevelMeans(p, y, w);
      OnLevelMeans(y, q, w);
      OnLevelMeans(p, q, w);
    }
    hide On;
  }

  /** From a place y where the answers of the two families change, along an edge through it: near its next vertex,
      on one side of the edge, both answers are those on the left of y. */
  lemma SideOfSlide(es: seq<Edge>, fs: seq<Edge>, e: Edge, t0: real, t1: real, y: Pt, v: Pt, p: Pt, q: Pt)
    returns (t: real, x: Pt, g: Pt)
    requires Closed(es) && Closed(fs) && NoCrossing(es, fs) && e in es && Slide(es + fs, e, t0, t1, y, v)
    requires Straddles(es + fs, p, y, q) && forall f :: f in es + fs && OnEdge(f, y) ==> OnLine(e.a, e.b, f)
    requires Contain(q, es) != Contain(p, es) || Contain(q, fs) != Contain(p, fs)
    ensures Slide(es + fs, e, t, t1, x, v) && OnlyCorner(es + fs, v, x) && NextTo(es + fs, g, x)
    ensures Contain(g, es) == Contain(p, es) && Contain(g, fs) == Contain(p, fs)
  {
    var all := es + fs;
    hide Slide, Lerp, OnEdge, OnLine, Vertex, Straddles, Contain, On, Settled, NoCrossing, Closed;
    if OnAny(fs, y) {
      var j :| 0 <= j < |fs| && OnEdge(fs[j], y);
      SharedSlide(es, fs, e, fs[j], t0, t1, y, v);
      SettledCorner(all, e, t0, t1, y, v);
      NextToSides(all, p, y, q);
      t, x, g := t0, y, p;
    } else {
      var l, r;
      t, x, l, r := GoLater(all, e, t0, t1, y, v);
      SettledCorner(all, e, t, t1, x, v);
      NextToSides(all, l, x, r);
      OtherSides(es, fs, e, t0, t1, y, v, p, q, t, l, r);
      OwnSides(es, fs, e, t0, t1, y, v, p, q, t, l, r);
      g := if Contain(l, es) == Contain(p, es) then l else r;
    }
  }

  lemma OtherSides(es: seq<Edge>, fs: seq<Edge>, e: Edge, t0: real, t1: real, y: Pt, v: Pt, p: Pt, q: Pt, t: real,
                   l: Pt, r: Pt)
    requires Closed(fs) && NoCrossing(es, fs) && e in es && Slide(es + fs, e, t0, t1, y, v) && !OnAny(fs, y)
    requires Straddles(es + fs, p, y, q) && t0 <= t < t1 && Straddles(es + fs, l, Lerp(e.a, e.b, t), r)
    ensures Contain(p, fs) == Contain(q, fs) == Contain(l, fs) == Contain(r, fs)
  {
    var x := Lerp(e.a, e.b, t);
    hide Slide, Lerp, OnAny, Straddles, Contain, NoCrossing, Closed;
    StraddlesPart(fs, es + fs, p, y, q);
    StraddlesPart(fs, es + fs, l, x, r);
    AcrossNothing(fs, p, y, q);
    OtherSame(es, fs, e, t0, t1, y, v, t);
    AcrossNothing(fs, l, x, r);
  }

  lemma OwnSides(es: seq<Edge>, fs: seq<Edge>, e: Edge, t0: real, t1: real, y: Pt, v: Pt, p: Pt, q: Pt, t: real, l: Pt,
                 r: Pt)
    requires Closed(es) && e in es && Slide(es + fs, e, t0, t1, y, v)
    requires Straddles(es + fs, p, y, q) && forall f :: f in es + fs && OnEdge(f, y) ==> OnLine(e.a, e.b, f)
    requires t0 <= t < t1 && Later(es + fs, e, t, t1, Lerp(e.a, e.b, t), v, l, r)
    ensures Contain(p, es) != Boundary && Contain(q, es) != Boundary && Contain(l, es) != Boundary
    ensures Contain(r, es) != Boundary
    ensures Contain(p, es) != Contain(q, es) <==> Contain(l, es) != Contain(r, es)
  {
    var all, x := es + fs, Lerp(e.a, e.b, t);
    hide Slide, Lerp, OnEdge, OnLine, Vertex, Straddles, Contain, Closed, Upright, Odd, Through;
    SlideUpright(all, e, t0, t1, y, v);
    SlideStart(all, e, t0, t1, y, v);
    SlideStart(all, e, t, t1, x, v);
    PartUpright(es, all, y);
    PartUpright(es, all, x);
    StraddlesPart(es, all, p, y, q);
    StraddlesPart(es, all, l, x, r);
    AcrossParity(es, p, y, q);
    AcrossParity(es, l, x, r);
    forall f | f in es && OnEdge(f, x) ensures OnLine(e.a, e.b, f) {
      assert f in all;
      var j :| 0 <= j < |all| && all[j] == f;
    }
    SameThrough(es, all, e, t0, t1, y, v, t);
  }

  // ----- From a leak to a corner

  lemma FarRight(ei: seq<Edge>, ea: seq<Edge>, g: Pt) returns (z: Pt)
    ensures Contain(z, ei) != Inside && !OnAny(ei + ea, z) && z.y == g.y && g.x < z.x
  {
    var all := ei + ea;
    var m := BoundX(all);
    z := Pt(if m <= g.x then g.x + 1.0 else m, g.y);
    forall i | 0 <= i < |all| ensures !OnEdge(all[i], z) {
    }
    forall i | 0 <= i < |ei| ensures !Crossing(z)(ei[i]) {
      assert ei[i] == all[i];
      NotLeft(z, ei[i]);
    }
    OddNone(ei, Crossing(z));
  }

  /** A leak at a height of no vertex and no crossing. */
  lemma GenericLeak(ei: seq<Edge>, ea: seq<Edge>, x: Pt) returns (g: Pt)
    requires Closed(ei) && Closed(ea) && Leak(ei, ea, x)
    ensures Leak(ei, ea, g) && HeightFree(ei + ea, g.y) && CrossFree(ei + ea, ei + ea, g.y)
  {
    var p := ClearBall(ei, x);
    var q := ClearBall(ea, x);
    hide Contain, OnAny, CrossFree, HeightFree, Dist2, KeepsOff;
    g := GenericHeight(ei + ea, x, MinReal(p, q));
    SameInBall(ei, x, g, p);
    SameInBall(ea, x, g, q);
  }

  lemma ThroughOnLine(all: seq<Edge>, e: Edge, t0: real, t1: real, y: Pt, v: Pt, f: Edge)
    requires Slide(all, e, t0, t1, y, v) && CrossFree(all, all, y.y) && OnEdge(e, y) && f in all && OnEdge(f, y)
    ensures OnLine(e.a, e.b, f)
  {
    var i :| 0 <= i < |all| && all[i] == e;
    var j :| 0 <= j < |all| && all[j] == f;
    assert !CrossAt(all[i], all[j], y);
    hide ProperCross, OnEdge, Lerp, Vertex;
    AlongLine(all, e, t0, t1, y, v, t0, f);
  }

  lemma SlideSame(all: seq<Edge>, other: seq<Edge>, e: Edge, t0: real, t1: real, y: Pt, v: Pt)
    requires Slide(all, e, t0, t1, y, v) && forall f :: f in all <==> f in other
    ensures Slide(other, e, t0, t1, y, v)
  {
    hide Lerp;
    forall w ensures Vertex(all, w) <==> Vertex(other, w) {
      if Vertex(all, w) { VertexPart(all, other, w); }
      if Vertex(other, w) { VertexPart(other, all, w); }
    }
    hide Vertex;
  }

  lemma VertexPart(es: seq<Edge>, all: seq<Edge>, w: Pt)
    requires Vertex(es, w) && forall f :: f in es ==> f in all
    ensures Vertex(all, w)
  {
    var i :| 0 <= i < |es| && (w == es[i].a || w == es[i].b);
    assert es[i] in es;
    VertexOf(all, es[i]);
  }

  /** What the walk ends with: a vertex v, a point y before it on an edge e of a slide that other edges only join
      along its line or at v, and a leak g next to y. */
  ghost predicate Corner(ei: seq<Edge>, ea: seq<Edge>, all: seq<Edge>, e: Edge, t: real, t1: real, y: Pt, v: Pt,
                         g: Pt) {
    && (forall f :: f in all <==> f in ei || f in ea)
    && Slide(all, e, t, t1, y, v) && OnlyCorner(all, v, y) && NextTo(all, g, y) && Leak(ei, ea, g)
  }

  /** Every leak leads to a corner. */
  lemma WalkToCorner(ei: seq<Edge>, ea: seq<Edge>, x: Pt)
    returns (all: seq<Edge>, e: Edge, t: real, t1: real, y: Pt, v: Pt, g: Pt)
    requires Closed(ei) && Closed(ea) && NoCrossing(ei, ea) && Leak(ei, ea, x)
    ensures Corner(ei, ea, all, e, t, t1, y, v, g)
  {
    hide Closed, Contain, NoCrossing, CrossFree, HeightFree, Straddles, Slide, OnEdge, OnLine, Leak, NextTo, OnlyCorner;
    var o := GenericLeak(ei, ea, x);
    var z := FarRight(ei, ea, o);
    assert !Leak(ei, ea, z) by { NoLeak(ei, ea, z); }
    var p, b, q := WhereItEnds(ei, ea, o, z);
    all := ei + ea;
    var k :| 0 <= k < |all| && OnEdge(all[k], b);
    e := all[k];
    var t0;
    t0, t1, v := SlideToVertex(all, e, b);
    forall f | f in all && OnEdge(f, b) ensures OnLine(e.a, e.b, f) {
      ThroughOnLine(all, e, t0, t1, b, v, f);
    }
    LeakMeans(ei, ea, p);
    LeakMeans(ei, ea, q);
    if e in ei {
      t, y, g := SideOfSlide(ei, ea, e, t0, t1, b, v, p, q);
    } else {
      var other := ea + ei;
      SlideSame(all, other, e, t0, t1, b, v);
      StraddlesPart(other, all, p, b, q);
      NoCrossingSwap(ei, ea);
      t, y, g := SideOfSlide(ea, ei, e, t0, t1, b, v, p, q);
      all := other;
    }
    LeakMeans(ei, ea, g);
  }

  lemma NoLeak(ei: seq<Edge>, ea: seq<Edge>, z: Pt)
    requires Contain(z, ei) != Inside
    ensures !Leak(ei, ea, z)
  {
  }

  lemma LeakMeans(ei: seq<Edge>, ea: seq<Edge>, z: Pt)
    ensures Leak(ei, ea, z) <==> Contain(z, ei) == Inside && Contain(z, ea) == Outside
  {
  }

  // ----- The wedge at the corner

  lemma OffTheLine(v: Pt, y: Pt, g: Pt)
    requires v.y != y.y && g.y == y.y && g.x != y.x
    ensures Orient(v, y, g) != 0.0
  {
    var h, d := y.y - v.y, g.x - y.x;
    assert Orient(v, y, g) == -(h * d);
    if h * d == 0.0 {
      CancelFactor(h, d, 0.0);
    }
  }

  lemma SlideRises(all: seq<Edge>, e: Edge, t0: real, t1: real, y: Pt, v: Pt)
    requires Slide(all, e, t0, t1, y, v)
    ensures v.y != y.y
  {
    if v.y == y.y {
      AlongInjective(e.a.y, e.b.y, t0, t1);
    }
  }

  /** From y up to g no edge is met. */
  lemma BackToStart(es: seq<Edge>, all: seq<Edge>, g: Pt, y: Pt, b: real)
    requires Closed(es) && 0.0 < b <= 1.0 && NextTo(all, g, y) && forall f :: f in es ==> f in all
    ensures Contain(Lerp(y, g, b), es) == Contain(g, es)
  {
    forall s, i | b <= s <= 1.0 && 0 <= i < |es| ensures !OnEdge(es[i], Lerp(y, g, s)) {
      var w := Lerp(y, g, s);
      LerpOn(y, g, s);
      OnSwap(y, g, w);
      LerpZero(y, g);
      if OnEdge(es[i], w) {
        assert es[i] in es;
        OnAnyIn(all, es[i], w);
        LerpInjective(y, g, s, 0.0);
      }
    }
    LerpOne(y, g);
    hide Lerp, OnEdge;
    WedgeWay(es, y, g, b, 1.0);
  }

  ghost predicate WedgeIs(v: Pt, y: Pt, g: Pt, b: real, es: seq<Edge>, c: Containment) {
    forall u, t :: 0.0 < u <= 1.0 && 0.0 < t <= b ==> Contain(WedgePoint(v, y, g, u, t), es) == c
  }

  lemma WedgeOf(es: seq<Edge>, all: seq<Edge>, v: Pt, y: Pt, g: Pt, b: real)
    requires Closed(es) && 0.0 < b <= 1.0 && AllOff(v, y, g, all, b) && NextTo(all, g, y)
    requires forall f :: f in es ==> f in all
    ensures WedgeIs(v, y, g, b, es, Contain(g, es))
  {
    hide WedgeOff, WedgePoint, Contain, NextTo;
    forall i | 0 <= i < |es| ensures WedgeOff(v, y, g, es[i], b) {
      assert es[i] in es;
      var j :| 0 <= j < |all| && all[j] == es[i];
      assert WedgeOff(v, y, g, all[j], b);
    }
    BackToStart(es, all, g, y, b);
    forall u, t | 0.0 < u <= 1.0 && 0.0 < t <= b ensures Contain(WedgePoint(v, y, g, u, t), es) == Contain(g, es) {
      WedgeSame(es, v, y, g, b, u, t);
    }
  }

  /** The wedge at the corner is in the one region and outside the other. */
  lemma CornerWedge(ei: seq<Edge>, ea: seq<Edge>, all: seq<Edge>, e: Edge, t: real, t1: real, y: Pt, v: Pt, g: Pt)
    returns (b: real)
    requires Closed(ei) && Closed(ea) && Corner(ei, ea, all, e, t, t1, y, v, g)
    ensures 0.0 < b <= 1.0 && WedgeIs(v, y, g, b, ei, Inside) && WedgeIs(v, y, g, b, ea, Outside)
  {
    SlideRises(all, e, t, t1, y, v);
    OffTheLine(v, y, g);
    hide Slide, On, OnEdge, OnLine, Orient, Contain, OnAny, Closed;
    b := WedgeFree(v, y, g, all);
    hide NextTo;
    WedgeOf(ei, all, v, y, g, b);
    WedgeOf(ea, all, v, y, g, b);
  }

  /** The answer at the corner, off the boundary, is that of the wedge. */
  lemma CornerLimit(es: seq<Edge>, v: Pt, y: Pt, g: Pt, b: real, c: Containment)
    requires Closed(es) && 0.0 < b && WedgeIs(v, y, g, b, es, c) && Contain(v, es) != Boundary
    ensures Contain(v, es) == c
  {
    var t2 := ClearBall(es, v);
    var q := Lerp(y, g, b);
    Dist2Nonneg(v, q);
    Dist2Nonneg(v, v);
    var u := QuadSmall(Dist2(v, q), 0.0, t2);
    Dist2Lerp(v, q, v, u);
    assert Dot(v, q, v) == 0.0;
    hide Quad, Dist2, Contain, Lerp;
    SameInBall(es, v, Lerp(v, q, u), t2);
    assert Lerp(v, q, u) == WedgePoint(v, y, g, u, b);
  }
}
