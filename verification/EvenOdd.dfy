/** The even-odd rule over closed rings of straight edges, at every real point, and the
    discrete Jordan lemma behind it: the answers at the two ends of a segment differ exactly
    when the segment crosses an odd number of edges. */
module EvenOdd {
  import opened Plane

  datatype Edge = Edge(a: Pt, b: Pt)

  datatype Containment = Inside | Boundary | Outside

  /** The rightward ray from p crosses e: the half-open test of the kernel. */
  predicate Crosses(p: Pt, e: Edge) {
    && (e.a.y > p.y) != (e.b.y > p.y)
    && (if e.b.y > e.a.y then Orient(e.a, e.b, p) > 0.0 else Orient(e.a, e.b, p) < 0.0)
  }

  function Crossing(p: Pt): Edge -> bool {
    e => Crosses(p, e)
  }

  /** The parity of the number of elements satisfying f. */
  function Odd<T>(es: seq<T>, f: T -> bool): bool {
    if es == [] then false else Odd(es[..|es| - 1], f) != f(es[|es| - 1])
  }

  predicate OnEdge(e: Edge, p: Pt) {
    On(e.a, e.b, p)
  }

  predicate OnAny(es: seq<Edge>, p: Pt) {
    exists i :: 0 <= i < |es| && OnEdge(es[i], p)
  }

  /** Where a real point lies relative to the closed region bounded by the edges. */
  function Contain(p: Pt, es: seq<Edge>): Containment {
    if OnAny(es, p) then Boundary else if Odd(es, Crossing(p)) then Inside else Outside
  }

  predicate InRegion(es: seq<Edge>, p: Pt) {
    Contain(p, es) != Outside
  }

  function Jump(g: Pt -> bool): Edge -> bool {
    (e: Edge) => g(e.a) != g(e.b)
  }

  /** A family of closed rings: every property of vertices changes an even number of times
      along the edges. */
  ghost predicate Closed(es: seq<Edge>) {
    forall g: Pt -> bool :: !Odd(es, Jump(g))
  }

  lemma {:induction false} OddXor<T>(es: seq<T>, f: T -> bool, g: T -> bool, h: T -> bool)
    requires forall i :: 0 <= i < |es| ==> h(es[i]) == (f(es[i]) != g(es[i]))
    ensures Odd(es, h) == (Odd(es, f) != Odd(es, g))
  {
    if es != [] {
      OddXor(es[..|es| - 1], f, g, h);
    }
  }

  /** Sequences that satisfy their predicates at the same places have the same parity. */
  lemma {:induction false} OddSame<T, U>(es: seq<T>, f: T -> bool, fs: seq<U>, g: U -> bool)
    requires |es| == |fs| && forall i :: 0 <= i < |es| ==> f(es[i]) == g(fs[i])
    ensures Odd(es, f) == Odd(fs, g)
  {
    if es != [] {
      OddSame(es[..|es| - 1], f, fs[..|fs| - 1], g);
    }
  }

  lemma {:induction false} OddConcat<T>(es: seq<T>, fs: seq<T>, f: T -> bool)
    ensures Odd(es + fs, f) == (Odd(es, f) != Odd(fs, f))
  {
    if fs == [] {
      assert es + fs == es;
    } else {
      var rest := fs[..|fs| - 1];
      assert (es + fs)[..|es + fs| - 1] == es + rest;
      OddConcat(es, rest, f);
    }
  }

  lemma {:induction false} OddNone<T>(es: seq<T>, f: T -> bool)
    requires forall i :: 0 <= i < |es| ==> !f(es[i])
    ensures !Odd(es, f)
  {
    if es != [] {
      OddNone(es[..|es| - 1], f);
    }
  }

  /** The parity element by element. */
  lemma OddSteps<T>(es: seq<T>, f: T -> bool)
    ensures !Odd(es[..0], f) && Odd(es[..|es|], f) == Odd(es, f)
    ensures forall k :: 1 <= k <= |es| ==> Odd(es[..k], f) == (Odd(es[..k - 1], f) != f(es[k - 1]))
  {
    assert es[..|es|] == es;
    forall k | 1 <= k <= |es| ensures Odd(es[..k], f) == (Odd(es[..k - 1], f) != f(es[k - 1])) {
      assert es[..k][..k - 1] == es[..k - 1];
    }
  }

  /** Exactly one edge satisfies f. */
  lemma {:induction false} OddOne<T>(es: seq<T>, f: T -> bool, k: nat)
    requires k < |es| && forall i :: 0 <= i < |es| ==> f(es[i]) == (i == k)
    ensures Odd(es, f)
  {
    if k < |es| - 1 {
      OddOne(es[..|es| - 1], f, k);
    } else {
      OddNone(es[..|es| - 1], f);
    }
  }

  lemma ClosedConcat(es: seq<Edge>, fs: seq<Edge>)
    requires Closed(es) && Closed(fs)
    ensures Closed(es + fs)
  {
    forall g: Pt -> bool ensures !Odd(es + fs, Jump(g)) {
      OddConcat(es, fs, Jump(g));
    }
  }

  // ----- The region swept by the ray while its origin moves from p to q

  predicate Swept(p: Pt, q: Pt, v: Pt) {
    var lo, hi := if p.y <= q.y then p else q, if p.y <= q.y then q else p;
    lo.y < v.y <= hi.y && Orient(lo, hi, v) < 0.0
  }

  function SweptBy(p: Pt, q: Pt): Pt -> bool {
    v => Swept(p, q, v)
  }

  predicate Apart(p: Pt, q: Pt, e: Edge) {
    !On(e.a, e.b, p) && !On(e.a, e.b, q) && !On(p, q, e.a) && !On(p, q, e.b)
  }

  predicate CrossesProperly(p: Pt, q: Pt, e: Edge) {
    ProperCross(p, q, e.a, e.b)
  }

  function Hit(p: Pt, q: Pt): Edge -> bool {
    e => CrossesProperly(p, q, e)
  }

  /** The x where the line a-b reaches height y. */
  function XAt(a: Pt, b: Pt, y: real): real
    requires a.y != b.y
  {
    a.x + (b.x - a.x) * (y - a.y) / (b.y - a.y)
  }

  lemma OrientXAt(a: Pt, b: Pt, p: Pt)
    requires a.y != b.y
    ensures Orient(a, b, p) == (b.y - a.y) * (XAt(a, b, p.y) - p.x)
  {
    var h := b.y - a.y;
    var n := (b.x - a.x) * (p.y - a.y);
    assert h * (n / h) == n;
    assert XAt(a, b, p.y) - p.x == n / h - (p.x - a.x);
    assert h * (n / h - (p.x - a.x)) == h * (n / h) - h * (p.x - a.x);
  }

  lemma OrientSign(a: Pt, b: Pt, p: Pt)
    requires a.y < b.y
    ensures Orient(a, b, p) > 0.0 <==> XAt(a, b, p.y) > p.x
    ensures Orient(a, b, p) < 0.0 <==> XAt(a, b, p.y) < p.x
  {
    OrientXAt(a, b, p);
    var h, d := b.y - a.y, XAt(a, b, p.y) - p.x;
    if d > 0.0 { assert h * d > 0.0; } else if d < 0.0 { assert h * d < 0.0; } else { assert h * d == 0.0; }
  }

  lemma XAtEnds(a: Pt, b: Pt)
    requires a.y != b.y
    ensures XAt(a, b, a.y) == a.x && XAt(a, b, b.y) == b.x
  {
    var h := b.y - a.y;
    assert (b.x - a.x) * h / h == b.x - a.x;
  }

  /** A point at a height of the segment, with the x of the line, is on the segment. */
  lemma XAtOn(a: Pt, b: Pt, p: Pt)
    requires a.y < b.y && a.y <= p.y <= b.y && XAt(a, b, p.y) == p.x
    ensures On(a, b, p)
  {
    OrientSign(a, b, p);
    var s := Ratio(a.y, p.y, b.y);
    var h := b.y - a.y;
    assert p.y - a.y == s * h;
    assert (b.x - a.x) * (s * h) / h == s * (b.x - a.x);
    LerpBetween(a.x, b.x, s);
  }

  /** How far the line a-b is to the right of the line p-q at height y; affine in y. */
  function Delta(p: Pt, q: Pt, a: Pt, b: Pt, y: real): real
    requires p.y != q.y && a.y != b.y
  {
    XAt(a, b, y) - XAt(p, q, y)
  }

  lemma XAtAffine(a: Pt, b: Pt, u: real, w: real, s: real)
    requires a.y != b.y
    ensures XAt(a, b, Along(u, w, s)) == Along(XAt(a, b, u), XAt(a, b, w), s)
  {
    var h, k := b.y - a.y, b.x - a.x;
    var v := Along(u, w, s);
    assert v - a.y == (u - a.y) + s * (w - u);
    assert k * (v - a.y) == k * (u - a.y) + s * (k * (w - u));
    assert k * (v - a.y) / h == k * (u - a.y) / h + s * (k * (w - u) / h);
    assert k * (w - a.y) / h - k * (u - a.y) / h == k * (w - u) / h;
  }

  lemma DeltaBetween(p: Pt, q: Pt, a: Pt, b: Pt, u: real, v: real, w: real)
    requires p.y != q.y && a.y != b.y && u <= v <= w
    ensures Between(Delta(p, q, a, b, u), Delta(p, q, a, b, v), Delta(p, q, a, b, w))
  {
    if u < w {
      var s := Ratio(u, v, w);
      XAtAffine(a, b, u, w, s);
      XAtAffine(p, q, u, w, s);
      hide XAt;
      AlongDifference(XAt(a, b, u), XAt(a, b, w), XAt(p, q, u), XAt(p, q, w), s);
      LerpBetween(Delta(p, q, a, b, u), Delta(p, q, a, b, w), s);
    }
  }

  lemma AlongDifference(u: real, v: real, w: real, z: real, s: real)
    ensures Along(u, v, s) - Along(w, z, s) == Along(u - w, v - z, s)
  {
  }

  /** What one edge contributes while the point moves from p up to q. */
  ghost predicate EdgeBalance(p: Pt, q: Pt, e: Edge) {
    (Crosses(p, e) != Crosses(q, e)) ==
    (CrossesProperly(p, q, e) != (Swept(p, q, e.a) != Swept(p, q, e.b)))
  }

  /** The signs of all four orientations are signs of one affine function of the height. */
  lemma DeltaSigns(p: Pt, q: Pt, a: Pt, b: Pt)
    requires p.y < q.y && a.y < b.y
    ensures var d := (y: real) => Delta(p, q, a, b, y);
            && (Orient(a, b, p) > 0.0 <==> d(p.y) > 0.0) && (Orient(a, b, p) < 0.0 <==> d(p.y) < 0.0)
            && (Orient(a, b, q) > 0.0 <==> d(q.y) > 0.0) && (Orient(a, b, q) < 0.0 <==> d(q.y) < 0.0)
            && (Orient(p, q, a) < 0.0 <==> d(a.y) > 0.0) && (Orient(p, q, a) > 0.0 <==> d(a.y) < 0.0)
            && (Orient(p, q, b) < 0.0 <==> d(b.y) > 0.0) && (Orient(p, q, b) > 0.0 <==> d(b.y) < 0.0)
  {
    XAtEnds(a, b);
    XAtEnds(p, q);
    OrientSign(a, b, p);
    OrientSign(a, b, q);
    OrientSign(p, q, a);
    OrientSign(p, q, b);
  }

  lemma BalanceUp(p: Pt, q: Pt, e: Edge)
    requires p.y < q.y && e.a.y < e.b.y && Apart(p, q, e)
    ensures EdgeBalance(p, q, e)
  {
    var a, b := e.a, e.b;
    DeltaSigns(p, q, a, b);
    XAtEnds(a, b);
    XAtEnds(p, q);
    if a.y <= p.y <= b.y && Delta(p, q, a, b, p.y) == 0.0 { XAtOn(a, b, p); }
    if a.y <= q.y <= b.y && Delta(p, q, a, b, q.y) == 0.0 { XAtOn(a, b, q); }
    if p.y <= a.y <= q.y && Delta(p, q, a, b, a.y) == 0.0 { XAtOn(p, q, a); }
    if p.y <= b.y <= q.y && Delta(p, q, a, b, b.y) == 0.0 { XAtOn(p, q, b); }
    BalanceLevels(p, q, e);
  }

  /** The case analysis on the order of the four heights. */
  lemma BalanceLevels(p: Pt, q: Pt, e: Edge)
    requires p.y < q.y && e.a.y < e.b.y
    requires e.a.y <= p.y <= e.b.y ==> Delta(p, q, e.a, e.b, p.y) != 0.0
    requires e.a.y <= q.y <= e.b.y ==> Delta(p, q, e.a, e.b, q.y) != 0.0
    requires p.y <= e.a.y <= q.y ==> Delta(p, q, e.a, e.b, e.a.y) != 0.0
    requires p.y <= e.b.y <= q.y ==> Delta(p, q, e.a, e.b, e.b.y) != 0.0
    ensures EdgeBalance(p, q, e)
  {
    var a, b := e.a, e.b;
    DeltaSigns(p, q, a, b);
    if a.y <= p.y {
      if q.y <= b.y {
        DeltaBetween(p, q, a, b, a.y, p.y, q.y);
        DeltaBetween(p, q, a, b, p.y, q.y, b.y);
      } else if p.y <= b.y {
        DeltaBetween(p, q, a, b, a.y, p.y, b.y);
        DeltaBetween(p, q, a, b, p.y, b.y, q.y);
      } else {
        DeltaBetween(p, q, a, b, a.y, b.y, p.y);
        DeltaBetween(p, q, a, b, b.y, p.y, q.y);
      }
    } else if b.y <= q.y {
      DeltaBetween(p, q, a, b, p.y, a.y, b.y);
      DeltaBetween(p, q, a, b, a.y, b.y, q.y);
    } else if a.y <= q.y {
      DeltaBetween(p, q, a, b, p.y, a.y, q.y);
      DeltaBetween(p, q, a, b, a.y, q.y, b.y);
    } else {
      DeltaBetween(p, q, a, b, p.y, q.y, a.y);
      DeltaBetween(p, q, a, b, q.y, a.y, b.y);
    }
  }

  lemma OrientLevel(p: Pt, q: Pt, v: Pt)
    requires p.y == q.y
    ensures Orient(p, q, v) == Mul(q.x - p.x, v.y - p.y)
  {
  }

  lemma SignOfProduct(k: real, u: real)
    ensures k > 0.0 ==> (Mul(k, u) > 0.0 <==> u > 0.0) && (Mul(k, u) < 0.0 <==> u < 0.0)
    ensures k < 0.0 ==> (Mul(k, u) > 0.0 <==> u < 0.0) && (Mul(k, u) < 0.0 <==> u > 0.0)
    ensures k == 0.0 ==> Mul(k, u) == 0.0
  {
  }

  lemma LevelSides(p: Pt, q: Pt, a: Pt, b: Pt)
    requires p.y == q.y
    ensures Opposite(Orient(p, q, a), Orient(p, q, b)) <==>
            q.x != p.x && Opposite(a.y - p.y, b.y - p.y)
  {
    OrientLevel(p, q, a);
    OrientLevel(p, q, b);
    SignOfProduct(q.x - p.x, a.y - p.y);
    SignOfProduct(q.x - p.x, b.y - p.y);
  }

  /** Two points at one height against a rising line. */
  lemma RisingSides(a: Pt, b: Pt, p: Pt, q: Pt)
    requires p.y == q.y && a.y < b.y
    ensures var x := XAt(a, b, p.y);
            && (Opposite(Orient(a, b, p), Orient(a, b, q)) <==> Opposite(x - p.x, x - q.x))
            && (Crosses(p, Edge(a, b)) <==> a.y <= p.y < b.y && x > p.x)
            && (Crosses(q, Edge(a, b)) <==> a.y <= p.y < b.y && x > q.x)
            && (Swept(a, b, p) <==> a.y < p.y <= b.y && x < p.x)
            && (Swept(a, b, q) <==> a.y < p.y <= b.y && x < q.x)
            && (a.y <= p.y <= b.y && !On(a, b, p) ==> x != p.x)
            && (a.y <= p.y <= b.y && !On(a, b, q) ==> x != q.x)
            && (p.y == a.y ==> x == a.x)
            && (p.y == b.y ==> x == b.x)
  {
    var x := XAt(a, b, p.y);
    OrientSign(a, b, p);
    OrientSign(a, b, q);
    XAtEnds(a, b);
    if a.y <= p.y <= b.y && x == p.x { XAtOn(a, b, p); }
    if a.y <= p.y <= b.y && x == q.x { XAtOn(a, b, q); }
  }

  lemma OnLevel(p: Pt, q: Pt, v: Pt)
    requires p.y == q.y == v.y && Between(p.x, v.x, q.x)
    ensures On(p, q, v)
  {
    OrientLevel(p, q, v);
  }

  /** A level move, past an edge that rises. */
  lemma BalanceLevelMove(p: Pt, q: Pt, e: Edge)
    requires p.y == q.y && e.a.y < e.b.y && Apart(p, q, e)
    ensures EdgeBalance(p, q, e)
  {
    RisingSides(e.a, e.b, p, q);
    LevelSides(p, q, e.a, e.b);
    if e.a.y == p.y && Between(p.x, e.a.x, q.x) { OnLevel(p, q, e.a); }
  }

  /** A rising move, past a level edge. */
  lemma BalanceLevelEdge(p: Pt, q: Pt, e: Edge)
    requires p.y < q.y && e.a.y == e.b.y && Apart(p, q, e)
    ensures EdgeBalance(p, q, e)
  {
    RisingSides(p, q, e.a, e.b);
    LevelSides(e.a, e.b, p, q);
    if e.a.y == q.y && Between(e.a.x, q.x, e.b.x) { OnLevel(e.a, e.b, q); }
  }

  lemma ReverseEdge(p: Pt, q: Pt, e: Edge)
    ensures var r := Edge(e.b, e.a);
            && (EdgeBalance(p, q, e) == EdgeBalance(p, q, r))
            && (Apart(p, q, e) ==> Apart(p, q, r))
  {
    forall v { OnSwap(e.a, e.b, v); }
    assert Orient(e.b, e.a, p) == -Orient(e.a, e.b, p);
    assert Orient(e.b, e.a, q) == -Orient(e.a, e.b, q);
  }

  lemma ReverseMove(p: Pt, q: Pt, e: Edge)
    ensures p.y != q.y ==> EdgeBalance(p, q, e) == EdgeBalance(q, p, e)
    ensures Apart(p, q, e) ==> Apart(q, p, e)
  {
    OnSwap(p, q, e.a);
    OnSwap(p, q, e.b);
    assert Orient(q, p, e.a) == -Orient(p, q, e.a);
    assert Orient(q, p, e.b) == -Orient(p, q, e.b);
  }

  /** For every edge in general position: the two ray tests differ from the two sweep tests
      exactly at a proper crossing. */
  lemma Balance(p: Pt, q: Pt, e: Edge)
    requires Apart(p, q, e)
    ensures EdgeBalance(p, q, e)
  {
    if p.y > q.y {
      ReverseMove(p, q, e);
      BalanceRising(q, p, e);
    } else {
      BalanceRising(p, q, e);
    }
  }

  lemma BalanceRising(p: Pt, q: Pt, e: Edge)
    requires p.y <= q.y && Apart(p, q, e)
    ensures EdgeBalance(p, q, e)
  {
    var r := Edge(e.b, e.a);
    ReverseEdge(p, q, e);
    if p.y < q.y {
      if e.a.y < e.b.y {
        BalanceUp(p, q, e);
      } else if e.b.y < e.a.y {
        BalanceUp(p, q, r);
      } else {
        BalanceLevelEdge(p, q, e);
      }
    } else if e.a.y < e.b.y {
      BalanceLevelMove(p, q, e);
    } else if e.b.y < e.a.y {
      BalanceLevelMove(p, q, r);
    } else {
      OrientLevel(p, q, e.a);
      OrientLevel(p, q, e.b);
    }
  }

  /** The parities at p and q differ exactly when p-q crosses an odd number of edges. */
  lemma ParityDifference(p: Pt, q: Pt, es: seq<Edge>)
    requires Closed(es)
    requires forall i :: 0 <= i < |es| ==> Apart(p, q, es[i])
    ensures (Odd(es, Crossing(p)) != Odd(es, Crossing(q))) == Odd(es, Hit(p, q))
  {
    var g := SweptBy(p, q);
    var h := (e: Edge) => Crosses(p, e) != Crosses(q, e);
    forall i | 0 <= i < |es| ensures h(es[i]) == (Hit(p, q)(es[i]) != Jump(g)(es[i])) {
      Balance(p, q, es[i]);
    }
    OddXor(es, Hit(p, q), Jump(g), h);
    OddXor(es, Crossing(p), Crossing(q), h);
  }

  /** A proper crossing is a shared point. */
  lemma ProperCrossMeets(p: Pt, q: Pt, a: Pt, b: Pt) returns (x: Pt)
    requires ProperCross(p, q, a, b)
    ensures On(p, q, x) && On(a, b, x)
  {
    var s := RootBetween(Orient(a, b, p), Orient(a, b, q));
    x := Lerp(p, q, s);
    LerpOn(p, q, s);
    OrientLerp(a, b, p, q, s);
    var u := RootBetween(Orient(p, q, a), Orient(p, q, b));
    var z := Lerp(a, b, u);
    LerpOn(a, b, u);
    OrientLerp(p, q, a, b, u);
    SameCrossing(p, q, a, b, x, z);
  }

  lemma RootBetween(u: real, v: real) returns (s: real)
    requires Opposite(u, v)
    ensures 0.0 < s < 1.0 && (1.0 - s) * u + s * v == 0.0
  {
    s := Ratio(u, 0.0, v);
    assert u + s * (v - u) == (1.0 - s) * u + s * v;
  }

  /** Two lines that are not parallel have one common point. */
  lemma SameCrossing(p: Pt, q: Pt, a: Pt, b: Pt, x: Pt, z: Pt)
    requires Orient(p, q, x) == 0.0 && Orient(a, b, x) == 0.0
    requires Orient(p, q, z) == 0.0 && Orient(a, b, z) == 0.0
    requires Orient(a, b, p) != Orient(a, b, q)
    ensures x == z
  {
    var k := (q.x - p.x) * (b.y - a.y) - (q.y - p.y) * (b.x - a.x);
    assert Orient(a, b, q) - Orient(a, b, p) == -k;
    var dx, dy := z.x - x.x, z.y - x.y;
    assert (q.x - p.x) * dy == (q.y - p.y) * dx;
    assert (b.x - a.x) * dy == (b.y - a.y) * dx;
    assert k * dx == (q.x - p.x) * ((b.y - a.y) * dx) - (b.x - a.x) * ((q.y - p.y) * dx);
    assert k * dy == (b.y - a.y) * ((q.x - p.x) * dy) - (q.y - p.y) * ((b.x - a.x) * dy);
    CancelFactor(k, dx, 0.0);
    CancelFactor(k, dy, 0.0);
  }

  /** Parity transport: a segment that meets no edge has the same answer at both ends, and
      that answer is never Boundary. */
  lemma Transport(p: Pt, q: Pt, es: seq<Edge>)
    requires Closed(es)
    requires forall i :: 0 <= i < |es| ==> !Meet(p, q, es[i].a, es[i].b)
    ensures Contain(p, es) == Contain(q, es) != Boundary
  {
    OnEnds(p, q);
    forall i | 0 <= i < |es| ensures Apart(p, q, es[i]) && !Hit(p, q)(es[i]) {
      OnEnds(es[i].a, es[i].b);
      if Hit(p, q)(es[i]) {
        var x := ProperCrossMeets(p, q, es[i].a, es[i].b);
      }
    }
    OddNone(es, Hit(p, q));
    ParityDifference(p, q, es);
  }
}
