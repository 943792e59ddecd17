/** Building polygons: repeated vertices are dropped and windings normalized, which leaves the even-odd region as it
    was, at every real point. */
module Constructors {
  import opened Basics
  import opened Plane
  import opened EvenOdd
  import opened Touching
  import opened Rings
  import opened Kernel
  import opened PolyIndex
  import Hull
  import Convexity

  /** The region one ring bounds. */
  function Bounds(ring: Ring): (es: seq<Edge>)
    ensures |es| == |ring|
  {
    RingEdges(Vertices(ring))
  }

  /** The two rings bound the same region, boundary included. */
  ghost predicate SameRegion(a: Ring, b: Ring) {
    forall x :: Contain(x, Bounds(a)) == Contain(x, Bounds(b))
  }

  lemma BoundsAt(ring: Ring, i: nat)
    requires i < |ring|
    ensures Bounds(ring)[i] == Edge(Real(Dbl(ring[i])), Real(Dbl(ring[Next(i, |ring|)])))
  {
    assert Bounds(ring)[i] == RingEdge(Vertices(ring), i);
  }

  // ----- Dropping a repeated vertex

  lemma NoLength(v: Pt, x: Pt)
    ensures !Crosses(x, Edge(v, v)) && (OnEdge(Edge(v, v), x) <==> x == v)
  {
    OnEnds(v, v);
    if OnEdge(Edge(v, v), x) {
      PointSegment(v, x);
    }
  }

  /** An edge without length, whose point another edge ends at, changes nothing. */
  lemma DropEdge(before: seq<Edge>, v: Pt, after: seq<Edge>, k: nat, x: Pt)
    requires k < |before + after| && ((before + after)[k].a == v || (before + after)[k].b == v)
    ensures Contain(x, before + [Edge(v, v)] + after) == Contain(x, before + after)
  {
    var all, less := before + [Edge(v, v)] + after, before + after;
    NoLength(v, x);
    OddConcat(before + [Edge(v, v)], after, Crossing(x));
    OddConcat(before, [Edge(v, v)], Crossing(x));
    OddConcat(before, after, Crossing(x));
    OddNone([Edge(v, v)], Crossing(x));
    OnEnds(less[k].a, less[k].b);
    if OnAny(all, x) {
      var i :| 0 <= i < |all| && OnEdge(all[i], x);
      if i == |before| {
        assert OnEdge(less[k], x);
      } else {
        assert OnEdge(less[if i < |before| then i else i - 1], x);
      }
    }
    if OnAny(less, x) {
      var i :| 0 <= i < |less| && OnEdge(less[i], x);
      assert OnEdge(all[if i < |before| then i else i + 1], x);
    }
  }

  /** Dropping the second of two equal neighbours. */
  lemma DropRepeat(before: Ring, p: Point, after: Ring)
    requires |before| > 0 && before[|before| - 1] == p
    ensures SameRegion(before + [p] + after, before + after)
  {
    var all, less, n := before + [p] + after, before + after, |before|;
    var es, v := Bounds(less), Real(Dbl(p));
    var front, back := es[..n - 1], es[n - 1..];
    forall i | 0 <= i < |all| ensures Bounds(all)[i] == (front + [Edge(v, v)] + back)[i] {
      BoundsAt(all, i);
      if i < n - 1 {
        BoundsAt(less, i);
      } else if i >= n {
        BoundsAt(less, i - 1);
      }
    }
    assert Bounds(all) == front + [Edge(v, v)] + back;
    assert es == front + back;
    BoundsAt(less, n - 1);
    forall x ensures Contain(x, Bounds(all)) == Contain(x, Bounds(less)) {
      DropEdge(front, v, back, n - 1, x);
    }
  }

  /** Dropping a last vertex equal to the first. */
  lemma DropLast(ring: Ring)
    requires |ring| > 1 && ring[0] == ring[|ring| - 1]
    ensures SameRegion(ring, ring[..|ring| - 1])
  {
    var n := |ring| - 1;
    var less, v := ring[..n], Real(Dbl(ring[0]));
    var es := Bounds(less);
    forall i | 0 <= i < |ring| ensures Bounds(ring)[i] == (es + [Edge(v, v)] + [])[i] {
      BoundsAt(ring, i);
      if i < n {
        BoundsAt(less, i);
      }
    }
    assert Bounds(ring) == es + [Edge(v, v)] + [];
    assert es == es + [];
    BoundsAt(less, 0);
    forall x ensures Contain(x, Bounds(ring)) == Contain(x, es) {
      DropEdge(es, v, [], 0, x);
    }
  }

  /** No vertex equals the next, around the ring. */
  predicate Unrepeated(ring: Ring) {
    && (forall i :: 0 <= i < |ring| - 1 ==> ring[i] != ring[i + 1])
    && (|ring| > 1 ==> ring[0] != ring[|ring| - 1])
  }

  /** `Vec::dedup`: drops each vertex equal to the one kept before it. */
  function DropEqual(pts: Ring): Ring {
    if pts == [] then []
    else
      var front, p := DropEqual(pts[..|pts| - 1]), pts[|pts| - 1];
      if front != [] && front[|front| - 1] == p then front else front + [p]
  }

  /** Drops closing repeats of the first vertex. */
  function DropClosing(ring: Ring): Ring {
    if |ring| > 1 && ring[0] == ring[|ring| - 1] then DropClosing(ring[..|ring| - 1]) else ring
  }

  function Deduped(pts: Ring): Ring {
    DropClosing(DropEqual(pts))
  }

  predicate NoEqualNeighbours(ring: Ring) {
    forall k :: 0 <= k < |ring| - 1 ==> ring[k] != ring[k + 1]
  }

  /** Dropping equal neighbours changes neither region nor area, whatever follows. */
  lemma {:induction false} DropEqualFacts(pts: Ring, rest: Ring)
    ensures NoEqualNeighbours(DropEqual(pts))
    ensures SameRegion(DropEqual(pts) + rest, pts + rest)
    ensures SignedArea2(DropEqual(pts) + rest) == SignedArea2(pts + rest)
  {
    hide SameRegion, SignedArea2;
    if pts == [] {
      SameSelf(rest);
      assert [] + rest == rest;
    } else {
      var front, p := pts[..|pts| - 1], pts[|pts| - 1];
      var kept := DropEqual(front);
      DropEqualFacts(front, [p] + rest);
      assert front + ([p] + rest) == pts + rest && kept + ([p] + rest) == kept + [p] + rest;
      if kept != [] && kept[|kept| - 1] == p {
        DropRepeat(kept, p, rest);
        DropRepeatArea(kept, p, rest);
        SameChain(kept + rest, kept + [p] + rest, pts + rest);
      }
    }
  }

  lemma {:induction false} DropClosingFacts(ring: Ring)
    requires NoEqualNeighbours(ring)
    ensures Unrepeated(DropClosing(ring)) && SameRegion(DropClosing(ring), ring)
    ensures SignedArea2(DropClosing(ring)) == SignedArea2(ring)
  {
    hide SameRegion, SignedArea2;
    if |ring| > 1 && ring[0] == ring[|ring| - 1] {
      var front := ring[..|ring| - 1];
      DropClosingFacts(front);
      DropLast(ring);
      DropLastArea(ring);
      SameSwap(ring, front);
      SameChain(DropClosing(front), front, ring);
    } else {
      SameSelf(ring);
    }
  }

  /** What dropping repeats keeps. */
  lemma DedupedFacts(pts: Ring)
    ensures Unrepeated(Deduped(pts)) && SameRegion(Deduped(pts), pts) && SignedArea2(Deduped(pts)) == SignedArea2(pts)
  {
    hide SameRegion, SignedArea2, Unrepeated;
    DropEqualFacts(pts, []);
    assert pts + [] == pts && DropEqual(pts) + [] == DropEqual(pts);
    DropClosingFacts(DropEqual(pts));
    SameChain(Deduped(pts), DropEqual(pts), pts);
  }

  lemma {:induction false} DropEqualLeaves(pts: Ring)
    ensures NoEqualNeighbours(pts) ==> DropEqual(pts) == pts
    ensures forall p :: p in DropEqual(pts) <==> p in pts
    ensures pts != [] ==> DropEqual(pts) != [] && DropEqual(pts)[|DropEqual(pts)| - 1] == pts[|pts| - 1]
  {
    if pts != [] {
      var n := |pts| - 1;
      DropEqualLeaves(pts[..n]);
      assert pts[..n] + [pts[n]] == pts;
      assert n > 0 && NoEqualNeighbours(pts) ==> pts[n - 1] != pts[n];
    }
  }

  lemma {:induction false} DropClosingLeaves(ring: Ring)
    ensures |ring| <= 1 || ring[0] != ring[|ring| - 1] ==> DropClosing(ring) == ring
    ensures forall p :: p in DropClosing(ring) <==> p in ring
  {
    if |ring| > 1 && ring[|ring| - 1] == ring[0] {
      var n := |ring| - 1;
      DropClosingLeaves(ring[..n]);
      assert ring[..n] + [ring[n]] == ring;
      assert ring[0] in ring[..n];
    }
  }

  /** Only repeats are dropped: a ring without repeats stays as it is, and no point is lost. */
  lemma DedupedLeaves(pts: Ring)
    ensures Unrepeated(pts) ==> Deduped(pts) == pts
    ensures forall p :: p in Deduped(pts) <==> p in pts
  {
    DropEqualLeaves(pts);
    DropClosingLeaves(DropEqual(pts));
    hide DropEqual, DropClosing;
  }

  /** `dedup_ring`: no repeats, the same region. */
  method DedupRing(pts: Ring) returns (ring: Ring)
    ensures ring == Deduped(pts)
    ensures Unrepeated(ring) && SameRegion(ring, pts) && SignedArea2(ring) == SignedArea2(pts)
  {
    DedupedFacts(pts);
    hide SameRegion, SignedArea2, Unrepeated;
    ring := [];
    for i := 0 to |pts|
      invariant ring == DropEqual(pts[..i])
    {
      assert pts[..i + 1][..i] == pts[..i];
      if !(|ring| > 0 && ring[|ring| - 1] == pts[i]) {
        ring := ring + [pts[i]];
      }
    }
    assert pts[..|pts|] == pts;
    while |ring| > 1 && ring[0] == ring[|ring| - 1]
      invariant DropClosing(ring) == Deduped(pts)
    {
      ring := ring[..|ring| - 1];
    }
  }

  lemma SameSwap(a: Ring, b: Ring)
    requires SameRegion(a, b)
    ensures SameRegion(b, a)
  {
  }

  lemma SameSelf(a: Ring)
    ensures SameRegion(a, a)
  {
  }

  lemma SameChain(a: Ring, b: Ring, c: Ring)
    requires (SameRegion(a, b) || SameRegion(b, a)) && SameRegion(b, c)
    ensures SameRegion(a, c)
  {
    hide Contain;
    forall x ensures Contain(x, Bounds(a)) == Contain(x, Bounds(c)) {
      assert Contain(x, Bounds(b)) == Contain(x, Bounds(c));
      assert SameRegion(a, b) ==> Contain(x, Bounds(a)) == Contain(x, Bounds(b));
      assert SameRegion(b, a) ==> Contain(x, Bounds(b)) == Contain(x, Bounds(a));
    }
  }

  // ----- Reversing

  /** Which edge of the ring edge i of the reversed ring is. */
  function Mirror(i: nat, n: nat): nat
    requires i < n
  {
    if i == n - 1 then n - 1 else n - 2 - i
  }

  lemma ReversedEdge(ring: Ring, i: nat)
    requires i < |ring|
    ensures var e := Bounds(ring)[Mirror(i, |ring|)]; Bounds(Reversed(ring))[i] == Edge(e.b, e.a)
  {
    BoundsAt(Reversed(ring), i);
    BoundsAt(ring, Mirror(i, |ring|));
  }

  lemma SwappedEdge(e: Edge, x: Pt)
    ensures Crosses(x, Edge(e.b, e.a)) == Crosses(x, e) && OnEdge(Edge(e.b, e.a), x) == OnEdge(e, x)
  {
    OnSwap(e.a, e.b, x);
    assert Orient(e.b, e.a, x) == -Orient(e.a, e.b, x);
  }

  /** The winding of a ring does not matter. */
  lemma ReversedSame(ring: Ring)
    ensures SameRegion(Reversed(ring), ring)
  {
    var n, es, rs := |ring|, Bounds(ring), Bounds(Reversed(ring));
    var ids := seq(n, i requires 0 <= i < n => Mirror(i, n));
    assert Distinct(ids);
    forall k | 0 <= k < n ensures k in ids {
      assert ids[Mirror(k, n)] == k;
    }
    var picked := Picked(es, ids);
    forall x ensures Contain(x, rs) == Contain(x, es) {
      forall i | 0 <= i < n
        ensures Crossing(x)(rs[i]) == Crossing(x)(picked[i]) && OnEdge(rs[i], x) == OnEdge(es[Mirror(i, n)], x)
      {
        ReversedEdge(ring, i);
        SwappedEdge(es[Mirror(i, n)], x);
      }
      PickedParity(es, ids, Crossing(x));
      OddSame(picked, Crossing(x), rs, Crossing(x));
      OnAnyMirrored(es, rs, x);
    }
  }

  lemma OnAnyMirrored(es: seq<Edge>, rs: seq<Edge>, x: Pt)
    requires |es| == |rs| && forall i :: 0 <= i < |es| ==> OnEdge(rs[i], x) == OnEdge(es[Mirror(i, |es|)], x)
    ensures OnAny(rs, x) == OnAny(es, x)
  {
    if OnAny(es, x) {
      var k :| 0 <= k < |es| && OnEdge(es[k], x);
      assert OnEdge(rs[Mirror(k, |es|)], x);
    }
  }

  // ----- Area

  function Term(a: Point, b: Point): int {
    a.x * b.y - b.x * a.y
  }

  function AreaUpTo(ring: Ring, n: nat): int
    requires n <= |ring|
  {
    if n == 0 then 0 else AreaUpTo(ring, n - 1) + Term(ring[n - 1], ring[Next(n - 1, |ring|)])
  }

  /** `signed_area2`: twice the signed area. */
  function SignedArea2(ring: Ring): int {
    AreaUpTo(ring, |ring|)
  }

  lemma TermSwap(a: Point, b: Point)
    ensures Term(b, a) == -Term(a, b)
  {
  }

  /** The first k terms of the reversed ring, against the terms they mirror. */
  lemma {:induction false} AreaMirrored(ring: Ring, k: nat)
    requires 0 < |ring| && k <= |ring| - 1
    ensures AreaUpTo(Reversed(ring), k) == AreaUpTo(ring, |ring| - 1 - k) - AreaUpTo(ring, |ring| - 1)
  {
    hide Term;
    if k > 0 {
      var n := |ring|;
      AreaMirrored(ring, k - 1);
      TermSwap(ring[n - 1 - k], ring[n - k]);
    }
  }

  lemma ReversedArea(ring: Ring)
    ensures SignedArea2(Reversed(ring)) == -SignedArea2(ring)
  {
    hide Term;
    if |ring| > 0 {
      var n := |ring|;
      AreaMirrored(ring, n - 1);
      TermSwap(ring[n - 1], ring[0]);
    }
  }

  lemma ReversedUnrepeated(ring: Ring)
    requires Unrepeated(ring)
    ensures Unrepeated(Reversed(ring))
  {
    var r := Reversed(ring);
    forall i | 0 <= i < |r| - 1 ensures r[i] != r[i + 1] {
      assert ring[|ring| - 2 - i] != ring[|ring| - 2 - i + 1];
    }
  }

  lemma TermSelf(a: Point)
    ensures Term(a, a) == 0
  {
  }

  /** Up to the repeated vertex the terms agree; after it they are one place apart. */
  lemma {:induction false} DropRepeatTerms(before: Ring, p: Point, after: Ring, k: nat)
    requires |before| > 0 && before[|before| - 1] == p && k <= |before + after|
    ensures var all, less := before + [p] + after, before + after;
            if k < |before| then AreaUpTo(all, k) == AreaUpTo(less, k) else AreaUpTo(all, k + 1) == AreaUpTo(less, k)
  {
    hide Term;
    var all, less, n := before + [p] + after, before + after, |before|;
    if k > 0 {
      DropRepeatTerms(before, p, after, k - 1);
      if k < n {
        assert all[k - 1] == less[k - 1] && all[k] == less[k];
      } else {
        TermSelf(p);
        assert all[k] == less[k - 1] && all[n - 1] == p;
        assert all[Next(k, |all|)] == less[Next(k - 1, |less|)];
        if k == n {
          assert AreaUpTo(all, n) == AreaUpTo(all, n - 1) + Term(p, p);
        }
      }
    }
  }

  lemma DropRepeatArea(before: Ring, p: Point, after: Ring)
    requires |before| > 0 && before[|before| - 1] == p
    ensures SignedArea2(before + [p] + after) == SignedArea2(before + after)
  {
    DropRepeatTerms(before, p, after, |before + after|);
  }

  lemma {:induction false} DropLastTerms(ring: Ring, k: nat)
    requires |ring| > 1 && ring[0] == ring[|ring| - 1] && k <= |ring| - 1
    ensures AreaUpTo(ring, k) == AreaUpTo(ring[..|ring| - 1], k)
  {
    hide Term;
    if k > 0 {
      DropLastTerms(ring, k - 1);
    }
  }

  lemma DropLastArea(ring: Ring)
    requires |ring| > 1 && ring[0] == ring[|ring| - 1]
    ensures SignedArea2(ring) == SignedArea2(ring[..|ring| - 1])
  {
    DropLastTerms(ring, |ring| - 1);
    TermSelf(ring[0]);
  }

  /** Fewer than three vertices enclose nothing. */
  lemma FewEncloseNothing(ring: Ring)
    requires |ring| < 3
    ensures SignedArea2(ring) == 0
  {
    hide Term;
    if |ring| == 2 {
      TermSwap(ring[0], ring[1]);
      assert AreaUpTo(ring, 1) == AreaUpTo(ring, 0) + Term(ring[0], ring[1]);
      assert AreaUpTo(ring, 2) == AreaUpTo(ring, 1) + Term(ring[1], ring[0]);
    } else if |ring| == 1 {
      TermSelf(ring[0]);
      assert AreaUpTo(ring, 1) == AreaUpTo(ring, 0) + Term(ring[0], ring[0]);
    }
  }

  // ----- The constructors

  datatype Poly = Poly(outline: Ring, holes: seq<Ring>)

  /** A ring in normal form: vertices that differ from the next, and an area of the given sign. */
  predicate Normal(ring: Ring, positive: bool) {
    |ring| >= 3 && Unrepeated(ring) && (if positive then SignedArea2(ring) > 0 else SignedArea2(ring) < 0)
  }

  /** The ring without repeats, wound as asked. */
  function Normalized(pts: Ring, positive: bool): Ring {
    if (SignedArea2(Deduped(pts)) < 0) == positive then Reversed(Deduped(pts)) else Deduped(pts)
  }

  /** A ring with area has a normal form that bounds the same region. */
  lemma NormalizedFacts(pts: Ring, positive: bool)
    requires SignedArea2(pts) != 0
    ensures Normal(Normalized(pts, positive), positive) && SameRegion(Normalized(pts, positive), pts)
  {
    var ring := Deduped(pts);
    DedupedFacts(pts);
    hide SameRegion, Unrepeated, SignedArea2, Deduped;
    if |ring| < 3 { FewEncloseNothing(ring); }
    ReversedSame(ring);
    ReversedArea(ring);
    ReversedUnrepeated(ring);
    SameChain(Reversed(ring), ring, pts);
  }

  /** The ring in normal form; nothing when it has no area. */
  method Normalize(pts: Ring, positive: bool) returns (r: Option<Ring>)
    ensures r.Some? <==> SignedArea2(pts) != 0
    ensures r.Some? ==> r.value == Normalized(pts, positive)
    ensures r.Some? ==> Normal(r.value, positive) && SameRegion(r.value, pts)
  {
    hide SameRegion, Unrepeated, SignedArea2, Deduped, Normal;
    var ring := DedupRing(pts);
    var area := SignedArea2(ring);
    if |ring| < 3 || area == 0 {
      if |ring| < 3 { FewEncloseNothing(ring); }
      return None;
    }
    NormalizedFacts(pts, positive);
    if (area < 0) == positive {
      ring := Reversed(ring);
    }
    r := Some(ring);
  }

  /** ring bounds the region of one of the rings. */
  ghost predicate Among(ring: Ring, rings: seq<Ring>) {
    exists k :: 0 <= k < |rings| && SameRegion(ring, rings[k])
  }

  /** One of the kept rings bounds the region of ring. */
  ghost predicate Kept(ring: Ring, kept: seq<Ring>) {
    exists j :: 0 <= j < |kept| && SameRegion(kept[j], ring)
  }

  /** Each kept hole comes from a hole, and each hole with area is kept, its region unchanged. */
  ghost predicate HolesKept(kept: seq<Ring>, holes: seq<Ring>) {
    && (forall j :: 0 <= j < |kept| ==> Normal(kept[j], false) && Among(kept[j], holes))
    && (forall k :: 0 <= k < |holes| && SignedArea2(holes[k]) != 0 ==> Kept(holes[k], kept))
  }

  lemma AmongMore(ring: Ring, rings: seq<Ring>, h: Ring)
    requires Among(ring, rings) || SameRegion(ring, h)
    ensures Among(ring, rings + [h])
  {
    hide SameRegion;
    var more := rings + [h];
    assert more[|rings|] == h;
    if Among(ring, rings) {
      var k :| 0 <= k < |rings| && SameRegion(ring, rings[k]);
      assert SameRegion(ring, more[k]);
    }
  }

  lemma KeptMore(ring: Ring, kept: seq<Ring>, h: Ring)
    requires Kept(ring, kept) || SameRegion(h, ring)
    ensures Kept(ring, kept + [h])
  {
    hide SameRegion;
    var more := kept + [h];
    assert more[|kept|] == h;
    if Kept(ring, kept) {
      var j :| 0 <= j < |kept| && SameRegion(kept[j], ring);
      assert SameRegion(more[j], ring);
    }
  }

  lemma HoleKept(kept: seq<Ring>, holes: seq<Ring>, h: Ring, n: Option<Ring>)
    requires HolesKept(kept, holes) && (n.Some? <==> SignedArea2(h) != 0)
    requires n.Some? ==> Normal(n.value, false) && SameRegion(n.value, h)
    ensures HolesKept(if n.Some? then kept + [n.value] else kept, holes + [h])
  {
    hide SameRegion, Normal, SignedArea2, Among, Kept;
    var now, more := if n.Some? then kept + [n.value] else kept, holes + [h];
    forall j | 0 <= j < |now| ensures Normal(now[j], false) && Among(now[j], more) {
      assert j < |kept| ==> now[j] == kept[j];
      AmongMore(now[j], holes, h);
    }
    forall k | 0 <= k < |more| && SignedArea2(more[k]) != 0 ensures Kept(more[k], now) {
      assert k < |holes| ==> more[k] == holes[k];
      if n.Some? {
        KeptMore(more[k], kept, n.value);
      }
    }
  }

  lemma NoHoles()
    ensures HolesKept([], [])
  {
  }

  /** The holes with area, in order, wound negatively. */
  function HolesLeft(holes: seq<Ring>): seq<Ring> {
    if holes == [] then []
    else
      var front, h := HolesLeft(holes[..|holes| - 1]), holes[|holes| - 1];
      if SignedArea2(h) != 0 then front + [Normalized(h, false)] else front
  }

  /** `Polygon::new`: refused exactly when the outline has no area; otherwise the outline positive, the holes with
      area negative and the others dropped, every region unchanged. */
  method NewPolygon(outline: Ring, holes: seq<Ring>) returns (r: Option<Poly>)
    ensures r.Some? <==> SignedArea2(outline) != 0
    ensures r.Some? ==> r.value == Poly(Normalized(outline, true), HolesLeft(holes))
    ensures r.Some? ==> Normal(r.value.outline, true) && SameRegion(r.value.outline, outline)
    ensures r.Some? ==> HolesKept(r.value.holes, holes)
  {
    hide SameRegion, Normal, HolesKept, SignedArea2, Normalized;
    var out := Normalize(outline, true);
    if out.None? {
      return None;
    }
    var kept: seq<Ring> := [];
    NoHoles();
    assert holes[..0] == [];
    for i := 0 to |holes|
      invariant HolesKept(kept, holes[..i]) && kept == HolesLeft(holes[..i])
    {
      assert holes[..i + 1][..i] == holes[..i];
      var h := Normalize(holes[i], false);
      HoleKept(kept, holes[..i], holes[i], h);
      assert holes[..i + 1] == holes[..i] + [holes[i]];
      if h.Some? {
        kept := kept + [h.value];
      }
    }
    assert holes[..|holes|] == holes;
    r := Some(Poly(out.value, kept));
  }

  function Turn(a: Point, b: Point, c: Point): int {
    (b.x - a.x) * (c.y - b.y) - (b.y - a.y) * (c.x - b.x)
  }

  predicate TurnsOneWay(ring: Ring) {
    forall i :: 0 <= i < |ring| ==>
                  Turn(ring[i], ring[Next(i, |ring|)], ring[Next(Next(i, |ring|), |ring|)]) >= 0
  }

  /** `ConvexPoly::new`: accepted exactly when the radius is not negative, the ring has area and its normal form
      turns right at no corner; what is kept is that normal form, bounding the same region. */
  method NewConvex(pts: Ring, radius: int) returns (r: Option<Ring>)
    ensures r.Some? <==> 0 <= radius && SignedArea2(pts) != 0 && TurnsOneWay(Normalized(pts, true))
    ensures r.Some? ==> r.value == Normalized(pts, true) && Normal(r.value, true) && SameRegion(r.value, pts)
  {
    hide SameRegion, Normal, Turn, Normalized, SignedArea2;
    if radius < 0 {
      return None;
    }
    var ring := Normalize(pts, true);
    if ring.None? {
      return None;
    }
    var n := |ring.value|;
    for i := 0 to n
      invariant forall k :: 0 <= k < i ==>
                              Turn(ring.value[k], ring.value[Next(k, n)], ring.value[Next(Next(k, n), n)]) >= 0
    {
      if Turn(ring.value[i], ring.value[Next(i, n)], ring.value[Next(Next(i, n), n)]) < 0 {
        return None;
      }
    }
    r := ring;
  }

  predicate Accepted(pts: Ring, radius: int) {
    radius >= 0 && SignedArea2(pts) != 0 && TurnsOneWay(Normalized(pts, true))
  }

  // ----- When an accepted ring is convex

  function PosOf(p: Point): Hull.Pos {
    Hull.Pos(p.x, p.y)
  }

  function Positions(ring: Ring): (r: seq<Hull.Pos>)
    ensures |r| == |ring| && forall i :: 0 <= i < |ring| ==> r[i] == PosOf(ring[i])
  {
    seq(|ring|, i requires 0 <= i < |ring| => PosOf(ring[i]))
  }

  /** No vertex twice, and every vertex on or left of every edge. */
  predicate ConvexRing(ring: Ring) {
    Convexity.Convex(Positions(ring))
  }

  /** How often the edges change between lexicographically forward and backward on the way round. */
  function DirectionFlips(ring: Ring): nat {
    Convexity.Flips(Positions(ring))
  }

  lemma TurnIsDet(a: Point, b: Point, c: Point)
    ensures Turn(a, b, c) == Hull.Det(Hull.To(PosOf(a), PosOf(b)), Hull.To(PosOf(b), PosOf(c)))
  {
  }

  lemma DiffersFromNext(ring: Ring, i: nat)
    requires |ring| > 1 && Unrepeated(ring) && i < |ring|
    ensures ring[i] != ring[Next(i, |ring|)]
  {
    assert i < |ring| - 1 ==> ring[i] != ring[i + 1];
  }

  lemma NormalIsRightless(ring: Ring)
    requires Normal(ring, true) && TurnsOneWay(ring)
    ensures Convexity.Rightless(Positions(ring))
  {
    var r, n := Positions(ring), |ring|;
    hide SignedArea2, Unrepeated, Turn, Hull.Det;
    forall i | 0 <= i < n
      ensures r[i] != r[Next(i, n)]
      ensures Hull.Det(Convexity.EdgeDir(r, i), Convexity.EdgeDir(r, Next(i, n))) >= 0
    {
      DiffersFromNext(ring, i);
      TurnIsDet(ring[i], ring[Next(i, n)], ring[Next(Next(i, n), n)]);
    }
  }

  /** Vectors parallel to one that is not zero are parallel. */
  lemma ParallelTwice(d: Hull.Dir, a: Hull.Dir, b: Hull.Dir)
    requires (d.x != 0 || d.y != 0) && Hull.Det(d, a) == 0 && Hull.Det(d, b) == 0
    ensures Hull.Det(a, b) == 0
  {
    Hull.ThreeTerm(a, d, b);
    Hull.DetOpp(d, a);
    var t := Hull.Det(a, b);
    assert d.x * t == 0 && d.y * t == 0;
  }

  lemma TermFrom(o: Point, a: Point, b: Point)
    ensures Term(a, b) == Hull.Det(Hull.To(PosOf(o), PosOf(a)), Hull.To(PosOf(o), PosOf(b))) + Term(o, b) - Term(o, a)
  {
  }

  lemma {:induction false} FlatTerms(ring: Ring, o: Point, d: Hull.Dir, k: nat)
    requires k <= |ring| && |ring| > 0 && (d.x != 0 || d.y != 0)
    requires forall i :: 0 <= i < |ring| ==> Hull.Det(d, Hull.To(PosOf(o), PosOf(ring[i]))) == 0
    ensures AreaUpTo(ring, k) == Term(o, ring[if k == |ring| then 0 else k]) - Term(o, ring[0])
  {
    if k > 0 {
      FlatTerms(ring, o, d, k - 1);
      var a, b := ring[k - 1], ring[Next(k - 1, |ring|)];
      ParallelTwice(d, Hull.To(PosOf(o), PosOf(a)), Hull.To(PosOf(o), PosOf(b)));
      TermFrom(o, a, b);
      hide Term;
    }
  }

  lemma HasLength(p: Hull.Pos, q: Hull.Pos)
    requires p != q
    ensures Hull.To(p, q).x != 0 || Hull.To(p, q).y != 0
  {
  }

  /** If every vertex is on the line of one edge, there is no area. */
  lemma FlatHasNoArea(ring: Ring, i: nat)
    requires |ring| > 1 && Unrepeated(ring) && i < |ring|
    requires forall k :: 0 <= k < |ring| ==>
                           Hull.Cross(PosOf(ring[i]), PosOf(ring[Next(i, |ring|)]), PosOf(ring[k])) == 0
    ensures SignedArea2(ring) == 0
  {
    var n := |ring|;
    DiffersFromNext(ring, i);
    var d := Hull.To(PosOf(ring[i]), PosOf(ring[Next(i, n)]));
    HasLength(PosOf(ring[i]), PosOf(ring[Next(i, n)]));
    hide Hull.Cross, Hull.Det, Unrepeated, Hull.To, Term, AreaUpTo;
    forall k | 0 <= k < n ensures Hull.Det(d, Hull.To(PosOf(ring[i]), PosOf(ring[k]))) == 0 {
      Hull.CrossIsDet(PosOf(ring[i]), PosOf(ring[Next(i, n)]), PosOf(ring[k]));
    }
    FlatTerms(ring, ring[i], d, n);
  }

  /** A ring with area is not on one line. */
  lemma AreaIsSpread(ring: Ring)
    requires Normal(ring, true)
    ensures Convexity.Spread(Positions(ring))
  {
    var r, n := Positions(ring), |ring|;
    hide Hull.Cross, SignedArea2, Unrepeated;
    forall i | 0 <= i < n ensures Convexity.OffLine(r, i) {
      if !Convexity.OffLine(r, i) {
        forall k | 0 <= k < n ensures Hull.Cross(PosOf(ring[i]), PosOf(ring[Next(i, n)]), PosOf(ring[k])) == 0 {
          assert Hull.Cross(r[i], r[Next(i, n)], r[k]) == 0;
        }
        FlatHasNoArea(ring, i);
      }
    }
  }

  /** A ring the constructor accepts is convex exactly when its edges change direction twice on the way round. */
  lemma AcceptedIsConvex(pts: Ring, radius: int)
    requires Accepted(pts, radius)
    ensures ConvexRing(Normalized(pts, true)) <==> DirectionFlips(Normalized(pts, true)) == 2
  {
    var ring := Normalized(pts, true);
    NormalizedFacts(pts, true);
    NormalIsRightless(ring);
    AreaIsSpread(ring);
    Convexity.ConvexExactly(Positions(ring));
  }

  lemma TurnIsCross(a: Point, b: Point, c: Point)
    ensures Turn(a, b, c) == Hull.Cross(PosOf(a), PosOf(b), PosOf(c))
  {
  }

  /** Every convex ring with area is accepted, its vertices on straight stretches included. */
  lemma ConvexIsAccepted(pts: Ring, radius: int)
    requires 0 <= radius && SignedArea2(pts) != 0 && ConvexRing(Normalized(pts, true))
    ensures Accepted(pts, radius)
  {
    hide Normalized, SignedArea2, Turn, Hull.Cross;
    var ring := Normalized(pts, true);
    forall i | 0 <= i < |ring|
      ensures Turn(ring[i], ring[Next(i, |ring|)], ring[Next(Next(i, |ring|), |ring|)]) >= 0
    {
      TurnIsCross(ring[i], ring[Next(i, |ring|)], ring[Next(Next(i, |ring|), |ring|)]);
    }
  }

  const STAR: Ring := [Point(0, 10), Point(-6, -8), Point(9, 3), Point(-9, 3), Point(6, -8)]

  lemma StarArea()
    ensures SignedArea2(STAR) == 282
  {
    assert AreaUpTo(STAR, 1) == 60;
    assert AreaUpTo(STAR, 2) == 60 + 54;
    assert AreaUpTo(STAR, 3) == 60 + 54 + 54;
    assert AreaUpTo(STAR, 4) == 60 + 54 + 54 + 54;
    assert AreaUpTo(STAR, 5) == 60 + 54 + 54 + 54 + 60;
  }

  lemma StarIsNormal()
    ensures Normalized(STAR, true) == STAR
  {
    var s := STAR;
    assert s[..4] == [s[0], s[1], s[2], s[3]] && s[..4][..3] == [s[0], s[1], s[2]] && s[..4][..3][..2] == [s[0], s[1]];
    assert s[..4][..3][..2][..1] == [s[0]] && [s[0]][..0] == [];
    assert DropEqual([]) == [];
    assert DropEqual([s[0]]) == [s[0]];
    assert DropEqual([s[0], s[1]]) == [s[0], s[1]];
    assert DropEqual([s[0], s[1], s[2]]) == [s[0], s[1], s[2]];
    assert DropEqual([s[0], s[1], s[2], s[3]]) == [s[0], s[1], s[2], s[3]];
    assert DropEqual(s) == s;
    assert Deduped(s) == s;
    StarArea();
  }

  /** The corner test is local: the constructor accepts a five-pointed star, whose edges change direction four
      times and some of whose vertices lie right of some edges. */
  lemma StarPasses()
    ensures Accepted(STAR, 0) && Normalized(STAR, true) == STAR
    ensures DirectionFlips(STAR) == 4 && !ConvexRing(STAR)
  {
    StarIsNormal();
    StarArea();
    StarFlips();
    StarNotLeft();
    hide SignedArea2, Normalized, Convexity.Flips, Convexity.Convex;
    StarTurns();
  }

  lemma StarTurns()
    ensures TurnsOneWay(STAR)
  {
  }

  lemma StarNotLeft()
    ensures !ConvexRing(STAR)
  {
    var r := Positions(STAR);
    assert Hull.Cross(r[0], r[Next(0, 5)], r[3]) < 0;
  }

  lemma StarFlips()
    ensures DirectionFlips(STAR) == 4
  {
    var r := Positions(STAR);
    var f := Convexity.FlipAt(r);
    assert f(0) && f(1) && f(2) && f(3) && !f(4);
    hide Convexity.FlipAt;
    assert Convexity.Count(1, f) == 1;
    assert Convexity.Count(2, f) == 2;
    assert Convexity.Count(3, f) == 3;
    assert Convexity.Count(4, f) == 4;
  }

  /** Rings in normal form have no edge without length. */
  lemma {:induction false} NormalHasLength(rings: seq<Ring>, e: Edge2)
    requires (forall i :: 0 <= i < |rings| ==> |rings[i]| > 1 && Unrepeated(rings[i])) && e in Edges2(rings)
    ensures e.a != e.b
  {
    if e in RingEdges2(rings[0]) {
      var ring := rings[0];
      var k :| 0 <= k < |ring| && RingEdges2(ring)[k] == e;
      UndblDbl(ring[k]);
      UndblDbl(ring[Next(k, |ring|)]);
      assert k < |ring| - 1 ==> ring[k] != ring[k + 1];
    } else {
      NormalHasLength(rings[1..], e);
    }
  }
}
