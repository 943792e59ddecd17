/** The exporter's convex hull: Andrew's monotone chain over sorted, distinct points. */
module Hull {
  import opened Basics

  datatype Pos = Pos(x: int, y: int)

  /** Twice the signed area of o, a, b. */
  function Cross(o: Pos, a: Pos, b: Pos): int {
    (a.x - o.x) * (b.y - o.y) - (a.y - o.y) * (b.x - o.x)
  }

  /** Lexicographic order: x, then y. */
  predicate Before(p: Pos, q: Pos) {
    p.x < q.x || (p.x == q.x && p.y < q.y)
  }

  /** p precedes q in the direction of the walk. */
  predicate Ahead(up: bool, p: Pos, q: Pos) {
    if up then Before(p, q) else Before(q, p)
  }

  predicate Sorted(up: bool, s: seq<Pos>) {
    forall i, j :: 0 <= i < j < |s| ==> Ahead(up, s[i], s[j])
  }

  predicate SameElements(s: seq<Pos>, t: seq<Pos>) {
    (forall p :: p in s ==> p in t) && (forall p :: p in t ==> p in s)
  }

  // ----- Turning through three directions of one half-plane

  datatype Dir = Dir(x: int, y: int)

  function Det(u: Dir, v: Dir): int {
    u.x * v.y - u.y * v.x
  }

  function To(p: Pos, q: Pos): Dir {
    Dir(q.x - p.x, q.y - p.y)
  }

  function Opp(u: Dir): Dir {
    Dir(-u.x, -u.y)
  }

  predicate Forward(u: Dir) {
    u.x > 0 || (u.x == 0 && u.y > 0)
  }

  predicate ForwardOrZero(u: Dir) {
    Forward(u) || u == Dir(0, 0)
  }

  lemma CrossIsDet(o: Pos, a: Pos, b: Pos)
    ensures Cross(o, a, b) == Det(To(o, a), To(o, b)) == Det(To(o, a), To(a, b))
    ensures Cross(o, a, b) == -Det(To(a, b), To(o, a))
  {
  }

  lemma ProductSign(k: int, u: int)
    ensures k > 0 && u >= 0 ==> k * u >= 0
    ensures k > 0 && k * u >= 0 ==> u >= 0
    ensures k > 0 && k * u > 0 ==> u > 0
    ensures k >= 0 && u >= 0 ==> k * u >= 0
    ensures k > 0 && u > 0 ==> k * u > 0
  {
  }

  lemma ThreeTerm(u: Dir, v: Dir, w: Dir)
    ensures v.x * Det(u, w) == w.x * Det(u, v) + u.x * Det(v, w)
    ensures v.y * Det(u, w) == w.y * Det(u, v) + u.y * Det(v, w)
  {
  }

  /** Left turns compose within a half-plane. */
  lemma TurnsCompose(u: Dir, v: Dir, w: Dir)
    requires ForwardOrZero(u) && Forward(v) && ForwardOrZero(w)
    requires Det(u, v) >= 0 && Det(v, w) >= 0
    ensures Det(u, w) >= 0
  {
    ThreeTerm(u, v, w);
    if v.x > 0 {
      ProductSign(w.x, Det(u, v));
      ProductSign(u.x, Det(v, w));
      ProductSign(v.x, Det(u, w));
    } else {
      ProductSign(v.y, w.x);
      assert Det(v, w) == -(v.y * w.x);
      ProductSign(u.x, w.y);
    }
  }

  lemma DetOpp(u: Dir, v: Dir)
    ensures Det(Opp(u), Opp(v)) == Det(u, v) && Det(u, Opp(v)) == -Det(u, v) && Det(Opp(u), v) == -Det(u, v)
    ensures Det(u, v) == -Det(v, u)
  {
  }

  predicate Facing(up: bool, u: Dir) {
    ForwardOrZero(if up then u else Opp(u))
  }

  /** The same in either direction of the walk; the middle direction is not zero. */
  lemma TurnsComposeEither(up: bool, u: Dir, v: Dir, w: Dir)
    requires Facing(up, u) && Facing(up, v) && v != Dir(0, 0) && Facing(up, w)
    requires Det(u, v) >= 0 && Det(v, w) >= 0
    ensures Det(u, w) >= 0
  {
    if up {
      TurnsCompose(u, v, w);
    } else {
      DetOpp(u, v);
      DetOpp(v, w);
      DetOpp(u, w);
      TurnsCompose(Opp(u), Opp(v), Opp(w));
    }
  }

  lemma AheadFacing(up: bool, p: Pos, q: Pos)
    ensures Ahead(up, p, q) || p == q ==> Facing(up, To(p, q))
    ensures Ahead(up, p, q) ==> To(p, q) != Dir(0, 0)
  {
    if p == q {
      assert To(p, q) == Dir(0, 0);
    } else if up {
      assert Before(p, q) ==> Forward(To(p, q));
    } else {
      assert Before(q, p) ==> Forward(Opp(To(p, q)));
    }
  }

  // ----- One chain

  /** Every point of s is on or left of the directed line a-b. */
  predicate AllLeft(s: seq<Pos>, a: Pos, b: Pos) {
    forall k :: 0 <= k < |s| ==> Cross(a, b, s[k]) >= 0
  }

  /** A chain over the points s, walked in order: it starts and ends with them, turns strictly
      left, and has every point on or left of each of its edges. */
  ghost predicate Chain(up: bool, c: seq<Pos>, s: seq<Pos>) {
    && 0 < |c| && 0 < |s| && c[0] == s[0] && c[|c| - 1] == s[|s| - 1]
    && Sorted(up, c)
    && (forall i :: 0 <= i < |c| ==> c[i] in s)
    && (forall i :: 0 <= i < |c| - 2 ==> Cross(c[i], c[i + 1], c[i + 2]) > 0)
    && (forall i :: 0 <= i < |c| - 1 ==> AllLeft(s, c[i], c[i + 1]))
  }

  /** While points are popped for p: what remains is a prefix of the chain, and every point not
      before its last is on or left of the line from there to p. */
  ghost predicate Popping(up: bool, c0: seq<Pos>, m: nat, s: seq<Pos>, p: Pos) {
    && 1 <= m <= |c0|
    && forall k :: 0 <= k < |s| && (s[k] == c0[m - 1] || Ahead(up, c0[m - 1], s[k])) ==> Cross(c0[m - 1], p, s[k]) >= 0
  }

  lemma PopStart(up: bool, c: seq<Pos>, s: seq<Pos>, p: Pos)
    requires Chain(up, c, s) && Sorted(up, s)
    ensures Popping(up, c, |c|, s, p)
  {
    var t := c[|c| - 1];
    forall k | 0 <= k < |s| && (s[k] == t || Ahead(up, t, s[k])) ensures Cross(t, p, s[k]) >= 0 {
      assert s[k] == t;
    }
  }

  /** A point q between m and p, left of m-p, is left of h-p when m is. */
  lemma PopRight(up: bool, h: Pos, m: Pos, p: Pos, q: Pos)
    requires Ahead(up, h, m) && Ahead(up, m, p) && Ahead(up, q, p)
    requires Cross(h, m, p) <= 0 && Cross(m, p, q) >= 0
    ensures Cross(h, p, q) >= 0
  {
    var u, w, t := To(h, m), To(m, p), To(q, p);
    AheadFacing(up, h, m);
    AheadFacing(up, m, p);
    AheadFacing(up, q, p);
    CrossIsDet(h, m, p);
    DetOpp(u, w);
    BackFrom(m, p, q);
    DetOpp(w, t);
    TurnsComposeEither(up, t, w, u);
    DetOpp(t, u);
    SplitAt(h, m, p, q);
  }

  lemma BackFrom(m: Pos, p: Pos, q: Pos)
    ensures Cross(m, p, q) == -Det(To(m, p), To(q, p))
  {
  }

  lemma SplitAt(h: Pos, m: Pos, p: Pos, q: Pos)
    ensures Cross(h, p, q) == -(Det(To(h, m), To(q, p)) + Det(To(m, p), To(q, p)))
  {
  }

  /** A point q between h and m, left of h-m, is left of h-p when m is. */
  lemma PopLeft(up: bool, h: Pos, m: Pos, p: Pos, q: Pos)
    requires Ahead(up, h, m) && Ahead(up, m, p) && (q == h || Ahead(up, h, q))
    requires Cross(h, m, p) <= 0 && Cross(h, m, q) >= 0
    ensures Cross(h, p, q) >= 0
  {
    var u, w, r := To(h, m), To(m, p), To(h, q);
    AheadFacing(up, h, m);
    AheadFacing(up, m, p);
    AheadFacing(up, h, q);
    CrossIsDet(h, m, p);
    CrossIsDet(h, m, q);
    DetOpp(u, w);
    TurnsComposeEither(up, w, u, r);
    SumAt(h, m, p, q);
  }

  lemma SumAt(h: Pos, m: Pos, p: Pos, q: Pos)
    ensures Cross(h, p, q) == Det(To(h, m), To(h, q)) + Det(To(m, p), To(h, q))
  {
  }

  lemma PopStep(up: bool, c0: seq<Pos>, m: nat, s: seq<Pos>, p: Pos)
    requires Chain(up, c0, s) && Sorted(up, s) && 2 <= m && Popping(up, c0, m, s, p)
    requires forall k :: 0 <= k < |s| ==> Ahead(up, s[k], p)
    requires Cross(c0[m - 2], c0[m - 1], p) <= 0
    ensures Popping(up, c0, m - 1, s, p)
  {
    var h, t := c0[m - 2], c0[m - 1];
    assert Ahead(up, h, t) && t in s && Ahead(up, t, p);
    hide Cross;
    forall k | 0 <= k < |s| && (s[k] == h || Ahead(up, h, s[k])) ensures Cross(h, p, s[k]) >= 0 {
      var q := s[k];
      if q == t || Ahead(up, t, q) {
        PopRight(up, h, t, p, q);
      } else {
        assert AllLeft(s, c0[m - 2], c0[m - 2 + 1]);
        PopLeft(up, h, t, p, q);
      }
    }
  }

  /** Earlier points are left of the new edge t-p after a strict left turn at t. */
  lemma NewEdgeLeft(up: bool, h: Pos, t: Pos, p: Pos, q: Pos)
    requires Ahead(up, h, t) && Ahead(up, t, p) && Ahead(up, q, t)
    requires Cross(h, t, p) > 0 && Cross(h, t, q) >= 0
    ensures Cross(t, p, q) >= 0
  {
    var u, w, r := To(h, t), To(t, p), To(q, t);
    AheadFacing(up, h, t);
    AheadFacing(up, t, p);
    AheadFacing(up, q, t);
    CrossIsDet(h, t, p);
    BackFrom(h, t, q);
    DetOpp(u, r);
    TurnsComposeEither(up, r, u, w);
    FromEnd(t, p, q);
  }

  lemma FromEnd(t: Pos, p: Pos, q: Pos)
    ensures Cross(t, p, q) == Det(To(q, t), To(t, p))
  {
  }

  /** p is left of edge a-b when it is left of the next edge b-c and the chain turns left. */
  lemma EarlierEdgeLeft(up: bool, a: Pos, b: Pos, c: Pos, p: Pos)
    requires Ahead(up, a, b) && Ahead(up, b, c) && Ahead(up, b, p)
    requires Cross(a, b, c) > 0 && Cross(b, c, p) >= 0
    ensures Cross(a, b, p) >= 0
  {
    AheadFacing(up, a, b);
    AheadFacing(up, b, c);
    AheadFacing(up, b, p);
    CrossIsDet(a, b, c);
    CrossIsDet(b, c, p);
    TurnsComposeEither(up, To(a, b), To(b, c), To(b, p));
    CrossIsDet(a, b, p);
  }

  /** p is left of every edge of the remaining chain. */
  lemma {:induction false} NewPointLeft(up: bool, c: seq<Pos>, p: Pos, i: nat)
    requires Sorted(up, c) && (forall k :: 0 <= k < |c| ==> Ahead(up, c[k], p))
    requires forall k :: 0 <= k < |c| - 2 ==> Cross(c[k], c[k + 1], c[k + 2]) > 0
    requires i < |c| - 1 && Cross(c[|c| - 2], c[|c| - 1], p) > 0
    ensures Cross(c[i], c[i + 1], p) >= 0
    decreases |c| - i
  {
    if i < |c| - 2 {
      NewPointLeft(up, c, p, i + 1);
      EarlierEdgeLeft(up, c[i], c[i + 1], c[i + 2], p);
    }
  }

  /** What a chain says about its own points and about the points it spans. */
  lemma ChainFacts(up: bool, c: seq<Pos>, s: seq<Pos>)
    requires Chain(up, c, s)
    ensures |c| > 0 && |s| > 0 && c[0] == s[0] && c[|c| - 1] == s[|s| - 1] && Sorted(up, c)
    ensures forall i :: 0 <= i < |c| ==> c[i] in s
    ensures forall i :: 0 <= i < |c| - 2 ==> Cross(c[i], c[i + 1], c[i + 2]) > 0
    ensures forall i :: 0 <= i < |c| - 1 ==> AllLeft(s, c[i], c[i + 1])
  {
  }

  lemma PushOrder(up: bool, c0: seq<Pos>, m: nat, s: seq<Pos>, p: Pos)
    requires Chain(up, c0, s) && 1 <= m <= |c0|
    requires forall k :: 0 <= k < |s| ==> Ahead(up, s[k], p)
    ensures Sorted(up, c0[..m]) && Sorted(up, c0[..m] + [p])
    ensures forall i :: 0 <= i < m ==> c0[i] in s && Ahead(up, c0[i], p)
  {
    hide AllLeft, Cross, Ahead;
    forall i | 0 <= i < m ensures c0[i] in s && Ahead(up, c0[i], p) {
      var k :| 0 <= k < |s| && s[k] == c0[i];
    }
  }

  lemma PushTurns(up: bool, c0: seq<Pos>, m: nat, s: seq<Pos>, p: Pos)
    requires Chain(up, c0, s) && 1 <= m <= |c0|
    requires m >= 2 ==> Cross(c0[m - 2], c0[m - 1], p) > 0
    ensures var c := c0[..m] + [p];
            forall i :: 0 <= i < |c| - 2 ==> Cross(c[i], c[i + 1], c[i + 2]) > 0
  {
    hide Cross, AllLeft, Ahead;
    var c := c0[..m] + [p];
    forall i | 0 <= i < |c| - 2 ensures Cross(c[i], c[i + 1], c[i + 2]) > 0 {
      assert c[i] == c0[i] && c[i + 1] == c0[i + 1];
      if i < m - 2 {
        assert c[i + 2] == c0[i + 2];
      }
    }
  }

  /** The points done, and p, against an edge that remains. */
  lemma OldEdgeLeft(up: bool, c0: seq<Pos>, m: nat, s: seq<Pos>, p: Pos, i: nat)
    requires Chain(up, c0, s) && 1 <= m <= |c0| && i < m - 1
    requires forall k :: 0 <= k < |s| ==> Ahead(up, s[k], p)
    requires m >= 2 ==> Cross(c0[m - 2], c0[m - 1], p) > 0
    ensures AllLeft(s + [p], c0[i], c0[i + 1])
  {
    hide Cross;
    PushOrder(up, c0, m, s, p);
    PushTurns(up, c0, m, s, p);
    ChainFacts(up, c0, s);
    hide Chain, Ahead;
    var c := c0[..m];
    assert forall k :: 0 <= k < m ==> c[k] == (c0[..m] + [p])[k];
    NewPointLeft(up, c, p, i);
    assert AllLeft(s, c0[i], c0[i + 1]);
  }

  lemma NewEdgeLeftAll(up: bool, c0: seq<Pos>, m: nat, s: seq<Pos>, p: Pos)
    requires Chain(up, c0, s) && Sorted(up, s) && Popping(up, c0, m, s, p)
    requires forall k :: 0 <= k < |s| ==> Ahead(up, s[k], p)
    requires m >= 2 ==> Cross(c0[m - 2], c0[m - 1], p) > 0
    ensures AllLeft(s + [p], c0[m - 1], p)
  {
    CrossEnds(c0[m - 1], p);
    hide Cross, Chain, Sorted, Popping, Ahead;
    forall k | 0 <= k < |s| ensures Cross(c0[m - 1], p, s[k]) >= 0 {
      NewEdgeAll(up, c0, m, s, p, k);
    }
  }

  /** Pushing p after the pops gives the chain of one more point. */
  lemma PushPoint(up: bool, c0: seq<Pos>, m: nat, s: seq<Pos>, p: Pos)
    requires Chain(up, c0, s) && Sorted(up, s) && Popping(up, c0, m, s, p)
    requires forall k :: 0 <= k < |s| ==> Ahead(up, s[k], p)
    requires m >= 2 ==> Cross(c0[m - 2], c0[m - 1], p) > 0
    ensures Chain(up, c0[..m] + [p], s + [p])
  {
    var c, s' := c0[..m] + [p], s + [p];
    hide Cross, AllLeft, Ahead, Sorted;
    PushOrder(up, c0, m, s, p);
    PushTurns(up, c0, m, s, p);
    NewEdgeLeftAll(up, c0, m, s, p);
    forall i | 0 <= i < |c| - 1 ensures AllLeft(s', c[i], c[i + 1]) {
      if i < m - 1 {
        OldEdgeLeft(up, c0, m, s, p, i);
      }
    }
  }

  lemma CrossEnds(a: Pos, b: Pos)
    ensures Cross(a, b, b) == 0 && Cross(a, b, a) == 0
  {
  }

  lemma NewEdgeAll(up: bool, c0: seq<Pos>, m: nat, s: seq<Pos>, p: Pos, k: nat)
    requires Chain(up, c0, s) && Sorted(up, s) && Popping(up, c0, m, s, p) && k < |s|
    requires forall k :: 0 <= k < |s| ==> Ahead(up, s[k], p)
    requires m >= 2 ==> Cross(c0[m - 2], c0[m - 1], p) > 0
    ensures Cross(c0[m - 1], p, s[k]) >= 0
  {
    var t, q := c0[m - 1], s[k];
    if !(q == t || Ahead(up, t, q)) {
      assert Ahead(up, q, t);
      if m >= 2 {
        assert AllLeft(s, c0[m - 2], c0[m - 2 + 1]);
        assert t in s;
        NewEdgeLeft(up, c0[m - 2], t, p, q);
      }
    }
  }

  /** The inner loop: pop while the last turn towards p is not strictly left. */
  method PopTurns(c0: seq<Pos>, prefix: seq<Pos>, p: Pos, ghost up: bool, ghost s: seq<Pos>)
    returns (hull: seq<Pos>, ghost m: nat)
    requires Chain(up, c0, s) && Sorted(up, s)
    requires forall k :: 0 <= k < |s| ==> Ahead(up, s[k], p)
    ensures Popping(up, c0, m, s, p) && hull == prefix + c0[..m]
    ensures m >= 2 ==> Cross(c0[m - 2], c0[m - 1], p) > 0
  {
    hide Cross, Chain, Popping, Sorted, Ahead;
    var start := |prefix|;
    hull := prefix + c0;
    m := |c0|;
    PopStart(up, c0, s, p);
    PoppingBounds(up, c0, m, s, p);
    while |hull| >= start + 2 && Cross(hull[|hull| - 2], hull[|hull| - 1], p) <= 0
      invariant 1 <= m <= |c0| && hull == prefix + c0[..m]
      invariant Popping(up, c0, m, s, p)
    {
      PopStep(up, c0, m, s, p);
      PoppingBounds(up, c0, m - 1, s, p);
      hull := hull[..|hull| - 1];
      m := m - 1;
    }
  }

  lemma PoppingBounds(up: bool, c0: seq<Pos>, m: nat, s: seq<Pos>, p: Pos)
    requires Popping(up, c0, m, s, p)
    ensures 1 <= m <= |c0|
  {
  }

  lemma SortedPrefix(up: bool, s: seq<Pos>, k: nat)
    requires Sorted(up, s) && k < |s|
    ensures Sorted(up, s[..k]) && forall i :: 0 <= i < k ==> Ahead(up, s[..k][i], s[k])
  {
  }

  lemma SingleChain(up: bool, p: Pos)
    ensures Chain(up, [p], [p])
  {
  }

  /** One pass: push the points in order above `start`, popping what stops turning left. */
  method AddChain(prefix: seq<Pos>, s: seq<Pos>, ghost up: bool) returns (hull: seq<Pos>)
    requires |s| > 0 && Sorted(up, s)
    ensures |hull| >= |prefix| && hull[..|prefix|] == prefix
    ensures Chain(up, hull[|prefix|..], s)
  {
    hide Cross, Chain, Popping, Sorted, Ahead;
    hull := prefix + [s[0]];
    var start := |prefix|;
    SingleChain(up, s[0]);
    assert s[..1] == [s[0]] && hull[start..] == [s[0]];
    for k := 1 to |s|
      invariant start <= |hull| && hull[..start] == prefix
      invariant Chain(up, hull[start..], s[..k])
    {
      var p := s[k];
      ghost var c0, done := hull[start..], s[..k];
      SortedPrefix(up, s, k);
      ghost var m;
      hull, m := PopTurns(hull[start..], prefix, p, up, done);
      PushPoint(up, c0, m, done, p);
      PoppingBounds(up, c0, m, done, p);
      hull := hull + [p];
      assert hull[start..] == c0[..m] + [p];
      assert s[..k + 1] == done + [p];
    }
    assert s[..|s|] == s;
  }

  // ----- Both chains

  ghost predicate Collinear(s: seq<Pos>) {
    forall p, q, r :: p in s && q in s && r in s ==> Cross(p, q, r) == 0
  }

  /** All points on one line through distinct a and b. */
  lemma OnOneLine(s: seq<Pos>, a: Pos, b: Pos)
    requires a != b && forall k :: 0 <= k < |s| ==> Cross(a, b, s[k]) == 0
    ensures Collinear(s)
  {
    forall p, q, r | p in s && q in s && r in s ensures Cross(p, q, r) == 0 {
      var u := To(a, b);
      DirectionOnLine(a, b, p, q);
      DirectionOnLine(a, b, p, r);
      ThreeTerm(To(p, q), u, To(p, r));
      DetOpp(u, To(p, q));
      CrossIsDet(p, q, r);
      hide Cross, Det;
      assert u.x * Det(To(p, q), To(p, r)) == 0 && u.y * Det(To(p, q), To(p, r)) == 0;
      if Det(To(p, q), To(p, r)) != 0 {
        ZeroFactor(u.x, Det(To(p, q), To(p, r)));
        ZeroFactor(u.y, Det(To(p, q), To(p, r)));
      }
    }
  }

  lemma ZeroFactor(k: int, u: int)
    requires k * u == 0 && u != 0
    ensures k == 0
  {
  }

  lemma DirectionOnLine(a: Pos, b: Pos, p: Pos, q: Pos)
    requires Cross(a, b, p) == 0 && Cross(a, b, q) == 0
    ensures Det(To(a, b), To(p, q)) == 0
  {
    assert Det(To(a, b), To(p, q)) == Cross(a, b, q) - Cross(a, b, p);
  }

  /** Where the walk turns round at t: a straight turn means every point is on that line. */
  lemma TurnRound(up: bool, s: seq<Pos>, a: Pos, t: Pos, b: Pos)
    requires Ahead(up, a, t) && Ahead(up, b, t)
    requires AllLeft(s, a, t) && AllLeft(s, t, b) && b in s && Cross(a, t, b) <= 0
    requires forall k :: 0 <= k < |s| ==> s[k] == t || Ahead(up, s[k], t)
    ensures Collinear(s)
  {
    var u, v := To(a, t), To(b, t);
    AheadFacing(up, a, t);
    AheadFacing(up, b, t);
    forall k | 0 <= k < |s| ensures Cross(a, t, s[k]) == 0 {
      var q := s[k];
      var w := To(q, t);
      AheadFacing(up, q, t);
      BackFrom(a, t, q);
      BackFrom(a, t, b);
      TurnedBack(t, b, q);
      if Det(u, w) < 0 {
        assert Cross(a, t, b) >= 0;
        TurnsComposeEither(up, u, v, w);
      }
    }
    OnOneLine(s, a, t);
  }

  lemma TurnedBack(t: Pos, b: Pos, q: Pos)
    ensures Cross(t, b, q) == Det(To(b, t), To(q, t))
  {
  }

  /** What a hull promises about the points it came from. */
  ghost predicate Encloses(h: seq<Pos>, s: seq<Pos>) {
    && (forall i :: 0 <= i < |h| ==> h[i] in s)
    && (forall i :: 0 <= i < |h| ==> AllLeft(s, h[i], h[Next(i, |h|)]))
  }

  /** A cycle that turns strictly left at every vertex. */
  predicate TurnsLeft(h: seq<Pos>) {
    forall i :: 0 <= i < |h| ==> Cross(h[i], h[Next(i, |h|)], h[Next(Next(i, |h|), |h|)]) > 0
  }

  /** The lower chain and the upper chain, each without its last point. */
  function Joined(lower: seq<Pos>, upper: seq<Pos>): seq<Pos>
    requires |lower| > 0 && |upper| > 0
  {
    lower[..|lower| - 1] + upper[..|upper| - 1]
  }

  /** Two chains over the same points, one up and one down. */
  ghost predicate Loop(lower: seq<Pos>, upper: seq<Pos>, s: seq<Pos>, r: seq<Pos>) {
    && |s| >= 2 && Sorted(true, s) && Sorted(false, r) && SameElements(s, r)
    && |r| > 0 && r[0] == s[|s| - 1] && r[|r| - 1] == s[0]
    && Chain(true, lower, s) && Chain(false, upper, r)
  }

  lemma LoopFacts(lower: seq<Pos>, upper: seq<Pos>, s: seq<Pos>, r: seq<Pos>)
    requires Loop(lower, upper, s, r)
    ensures |lower| >= 2 && |upper| >= 2
    ensures lower[0] == upper[|upper| - 1] == s[0] && upper[0] == lower[|lower| - 1] == s[|s| - 1]
    ensures forall i :: 0 <= i < |lower| ==> lower[i] in s
    ensures forall i :: 0 <= i < |upper| ==> upper[i] in s
    ensures forall i :: 0 <= i < |lower| - 1 ==> AllLeft(s, lower[i], lower[i + 1])
    ensures forall i :: 0 <= i < |upper| - 1 ==> AllLeft(s, upper[i], upper[i + 1])
  {
    ChainFacts(true, lower, s);
    ChainFacts(false, upper, r);
    assert Ahead(true, s[0], s[|s| - 1]);
    forall i | 0 <= i < |upper| - 1 ensures AllLeft(s, upper[i], upper[i + 1]) {
      hide Cross;
      forall k | 0 <= k < |s| ensures Cross(upper[i], upper[i + 1], s[k]) >= 0 {
        assert s[k] in r;
        var j :| 0 <= j < |r| && r[j] == s[k];
        assert AllLeft(r, upper[i], upper[i + 1]);
      }
    }
  }

  /** The edge of the joined cycle at i. */
  lemma JoinedEdge(lower: seq<Pos>, upper: seq<Pos>, i: nat)
    requires |lower| >= 2 && |upper| >= 2 && lower[0] == upper[|upper| - 1] && upper[0] == lower[|lower| - 1]
    requires i < |lower| + |upper| - 2
    ensures var h := Joined(lower, upper);
            && |h| == |lower| + |upper| - 2
            && (i < |lower| - 1 ==> h[i] == lower[i] && h[Next(i, |h|)] == lower[i + 1])
            && (i >= |lower| - 1 ==>
                  h[i] == upper[i - (|lower| - 1)] && h[Next(i, |h|)] == upper[i - (|lower| - 1) + 1])
  {
  }

  lemma JoinedEncloses(lower: seq<Pos>, upper: seq<Pos>, s: seq<Pos>, r: seq<Pos>)
    requires Loop(lower, upper, s, r)
    ensures Encloses(Joined(lower, upper), s)
  {
    LoopFacts(lower, upper, s, r);
    var h := Joined(lower, upper);
    hide Loop, AllLeft;
    forall i | 0 <= i < |h| ensures h[i] in s && AllLeft(s, h[i], h[Next(i, |h|)]) {
      JoinedEdge(lower, upper, i);
    }
  }

  /** The three vertices of the joined cycle from i on. */
  lemma JoinedTriple(lower: seq<Pos>, upper: seq<Pos>, i: nat)
    requires |lower| >= 2 && |upper| >= 2 && lower[0] == upper[|upper| - 1] && upper[0] == lower[|lower| - 1]
    requires i < |lower| + |upper| - 2
    ensures var h, n := Joined(lower, upper), |lower| - 1;
            && |h| == n + |upper| - 1
            && (var b, c := h[Next(i, |h|)], h[Next(Next(i, |h|), |h|)];
                && (i < n - 1 ==> h[i] == lower[i] && b == lower[i + 1] && c == lower[i + 2])
                && (i == n - 1 ==> h[i] == lower[n - 1] && b == lower[n] && c == upper[1])
                && (n <= i < |h| - 1 ==> h[i] == upper[i - n] && b == upper[i - n + 1] && c == upper[i - n + 2])
                && (i == |h| - 1 ==> h[i] == upper[|upper| - 2] && b == upper[|upper| - 1] && c == lower[1]))
  {
    JoinedEdge(lower, upper, i);
    JoinedEdge(lower, upper, Next(i, |lower| + |upper| - 2));
    hide Joined;
  }

  /** Inside a chain the turns are strict; at the two ends of the sweep they are strict unless
      all points are collinear. */
  lemma JoinedTurns(lower: seq<Pos>, upper: seq<Pos>, s: seq<Pos>, r: seq<Pos>, i: nat)
    requires Loop(lower, upper, s, r) && !Collinear(s) && i < |lower| + |upper| - 2
    ensures |lower| >= 2 && |upper| >= 2
    ensures var h := Joined(lower, upper);
            |h| == |lower| + |upper| - 2 && Cross(h[i], h[Next(i, |h|)], h[Next(Next(i, |h|), |h|)]) > 0
  {
    LoopFacts(lower, upper, s, r);
    EndTurns(lower, upper, s, r);
    ChainFacts(true, lower, s);
    ChainFacts(false, upper, r);
    hide *;
    JoinedTriple(lower, upper, i);
  }

  lemma EndTurns(lower: seq<Pos>, upper: seq<Pos>, s: seq<Pos>, r: seq<Pos>)
    requires Loop(lower, upper, s, r) && !Collinear(s)
    ensures |lower| >= 2 && |upper| >= 2 && |lower| + |upper| - 2 >= 3
    ensures Cross(lower[|lower| - 2], lower[|lower| - 1], upper[1]) > 0
    ensures Cross(upper[|upper| - 2], upper[|upper| - 1], lower[1]) > 0
  {
    LoopFacts(lower, upper, s, r);
    var a, t, b := lower[|lower| - 2], lower[|lower| - 1], upper[1];
    ChainFacts(true, lower, s);
    ChainFacts(false, upper, r);
    assert AllLeft(s, lower[|lower| - 2], lower[|lower| - 2 + 1]);
    assert AllLeft(s, upper[0], upper[0 + 1]);
    assert Ahead(true, a, t) && Ahead(false, upper[0], b);
    if Cross(a, t, b) <= 0 {
      TurnRound(true, s, a, t, b);
    }
    var a2, t2, b2 := upper[|upper| - 2], upper[|upper| - 1], lower[1];
    assert AllLeft(s, upper[|upper| - 2], upper[|upper| - 2 + 1]);
    assert AllLeft(s, lower[0], lower[0 + 1]);
    assert Ahead(false, a2, t2) && Ahead(true, lower[0], b2);
    if Cross(a2, t2, b2) <= 0 {
      TurnRound(false, s, a2, t2, b2);
    }
    if |lower| == 2 && |upper| == 2 {
      CrossEnds(a, t);
    }
  }

  // ----- Sorting

  method SortDedup(points: seq<Pos>) returns (s: seq<Pos>)
    ensures Sorted(true, s) && SameElements(s, points)
  {
    s := [];
    for i := 0 to |points|
      invariant Sorted(true, s) && SameElements(s, points[..i])
    {
      assert points[..i + 1] == points[..i] + [points[i]];
      s := InsertSorted(s, points[i]);
    }
    assert points[..|points|] == points;
  }

  method InsertSorted(s: seq<Pos>, p: Pos) returns (t: seq<Pos>)
    requires Sorted(true, s)
    ensures Sorted(true, t) && SameElements(t, s + [p])
  {
    var k := 0;
    while k < |s| && Before(s[k], p)
      invariant 0 <= k <= |s| && forall i :: 0 <= i < k ==> Before(s[i], p)
    {
      k := k + 1;
    }
    if k < |s| && s[k] == p {
      return s;
    }
    t := s[..k] + [p] + s[k..];
    assert s == s[..k] + s[k..];
    forall i | k <= i < |s| ensures Before(p, s[i]) {
      assert i > k ==> Ahead(true, s[k], s[i]);
    }
  }

  lemma ReversedSorted(s: seq<Pos>)
    requires Sorted(true, s)
    ensures Sorted(false, Reversed(s)) && SameElements(s, Reversed(s))
  {
    var r := Reversed(s);
    hide Before;
    forall i, j | 0 <= i < j < |r| ensures Ahead(false, r[i], r[j]) {
      assert Ahead(true, s[|s| - 1 - j], s[|s| - 1 - i]);
    }
    forall p | p in s ensures p in r {
      var i :| 0 <= i < |s| && s[i] == p;
      assert r[|s| - 1 - i] == p;
    }
  }

  lemma SamePoints(h: seq<Pos>, s: seq<Pos>, points: seq<Pos>)
    requires SameElements(s, points)
    ensures Encloses(h, s) ==> Encloses(h, points)
    ensures Collinear(s) <==> Collinear(points)
  {
    hide Cross;
    if Encloses(h, s) {
      forall i | 0 <= i < |h| ensures AllLeft(points, h[i], h[Next(i, |h|)]) {
        assert AllLeft(s, h[i], h[Next(i, |h|)]);
        forall k | 0 <= k < |points| ensures Cross(h[i], h[Next(i, |h|)], points[k]) >= 0 {
          assert points[k] in s;
          var j :| 0 <= j < |s| && s[j] == points[k];
        }
      }
    }
  }

  lemma SortedDistinct(s: seq<Pos>)
    requires Sorted(true, s)
    ensures Distinct(s)
  {
  }

  lemma FewPoints(s: seq<Pos>)
    requires |s| < 3
    ensures Encloses(s, s) && Collinear(s)
  {
    forall p, q ensures Cross(p, p, q) == 0 && Cross(p, q, p) == 0 && Cross(p, q, q) == 0 {
      CrossEnds(p, q);
    }
    hide Cross;
  }

  /** The hull starts at the least point and has the greatest; of points on one line it has no other. */
  ghost predicate Spans(hull: seq<Pos>, points: seq<Pos>) {
    && (points != [] ==>
          && hull != [] && (forall p :: p in points ==> p == hull[0] || Before(hull[0], p))
          && exists q :: q in hull && forall p :: p in points ==> p == q || Before(p, q))
    && (Collinear(points) ==> |hull| <= 2)
  }

  lemma EndsSpan(hull: seq<Pos>, s: seq<Pos>, points: seq<Pos>)
    requires Sorted(true, s) && SameElements(s, points) && (Collinear(s) ==> |hull| <= 2)
    requires s != [] ==> hull != [] && hull[0] == s[0] && s[|s| - 1] in hull
    ensures Spans(hull, points)
  {
    SamePoints([], s, points);
    hide Before, Collinear;
    if points != [] {
      assert points[0] in s;
      forall p | p in points ensures (p == s[0] || Before(s[0], p)) && (p == s[|s| - 1] || Before(p, s[|s| - 1])) {
        var k :| 0 <= k < |s| && s[k] == p;
        assert k > 0 ==> Ahead(true, s[0], s[k]);
        assert k < |s| - 1 ==> Ahead(true, s[k], s[|s| - 1]);
      }
    }
  }

  lemma FewSpan(s: seq<Pos>, points: seq<Pos>)
    requires |s| < 3 && Sorted(true, s) && SameElements(s, points)
    ensures Spans(s, points)
  {
    hide Spans;
    EndsSpan(s, s, points);
  }

  lemma Straight(s: seq<Pos>, p: Pos, q: Pos, r: Pos)
    requires Collinear(s) && p in s && q in s && r in s
    ensures Cross(p, q, r) == 0
  {
  }

  lemma JoinedSpans(lower: seq<Pos>, upper: seq<Pos>, s: seq<Pos>, r: seq<Pos>, points: seq<Pos>)
    requires Loop(lower, upper, s, r) && SameElements(s, points)
    ensures |lower| > 0 && |upper| > 0 && Spans(Joined(lower, upper), points)
  {
    LoopFacts(lower, upper, s, r);
    ChainFacts(true, lower, s);
    ChainFacts(false, upper, r);
    var h := Joined(lower, upper);
    hide Cross, Spans;
    assert h[0] == lower[0] && h[|lower| - 1] == upper[0];
    if Collinear(s) {
      if |lower| > 2 { Straight(s, lower[0], lower[1], lower[2]); }
      if |upper| > 2 { Straight(s, upper[0], upper[1], upper[2]); }
    }
    EndsSpan(h, s, points);
  }

  /** `convex_hull`: only input points, none twice; every input point on or left of every hull edge; the least and the
      greatest point; and, unless all are collinear, a cycle of three or more vertices turning strictly left. */
  method ConvexHull(points: seq<Pos>) returns (hull: seq<Pos>)
    ensures Encloses(hull, points) && Distinct(hull) && Spans(hull, points)
    ensures !Collinear(points) ==> |hull| >= 3 && TurnsLeft(hull)
  {
    hide Sorted, Chain, Encloses, Collinear, Cross, SameElements, Loop, TurnsLeft, Reversed, Spans;
    var s := SortDedup(points);
    SamePoints(s, s, points);
    if |s| < 3 {
      FewPoints(s);
      SortedDistinct(s);
      FewSpan(s, points);
      return s;
    }
    var r := Reversed(s);
    ReversedSorted(s);
    hull := AddChain([], s, true);
    ghost var lower := hull;
    assert hull[0..] == hull;
    ChainFacts(true, lower, s);
    var base := hull[..|hull| - 1];
    hull := AddChain(base, r, false);
    ghost var upper := hull[|base|..];
    ChainFacts(false, upper, r);
    hull := hull[..|hull| - 1];
    assert hull == Joined(lower, upper);
    MakeLoop(lower, upper, s);
    JoinedEncloses(lower, upper, s, r);
    JoinedDistinct(lower, upper, s, r);
    JoinedSpans(lower, upper, s, r, points);
    SamePoints(hull, s, points);
    if !Collinear(s) {
      JoinedCycle(lower, upper, s, r);
    }
  }

  /** Seen from p, all points lie in the cone of each chain; the two cones meet only if one of
      the turns is straight. */
  lemma ConesApart(u: Dir, a: Dir, w: Dir)
    requires Forward(u) && Forward(Opp(w)) && Det(u, a) > 0
    requires Det(u, w) >= 0 && Det(w, u) >= 0
    ensures Det(w, a) < 0
  {
    DetOpp(u, w);
    ThreeTerm(u, a, w);
    ThreeTerm(w, u, a);
    // w is a negative multiple of u: u.x * w.y == u.y * w.x
    DetOpp(u, a);
    if u.x > 0 {
      assert u.x * Det(w, a) == w.x * Det(u, a);
      OppositeSide(u.x, w.x, u.y, w.y);
      ProductSign(-w.x, Det(u, a));
      ProductSign(u.x, -Det(w, a));
    } else {
      assert u.y * Det(w, a) == w.y * Det(u, a);
      OppositeSide(u.y, w.y, u.x, w.x);
      ProductSign(-w.y, Det(u, a));
      ProductSign(u.y, -Det(w, a));
    }
  }

  lemma OppositeSide(ux: int, wx: int, uy: int, wy: int)
    requires ux > 0 && ux * wy == uy * wx
    requires (ux > 0 && (wx < 0 || (wx == 0 && wy < 0))) || (uy == 0 && (wy < 0 || (wy == 0 && wx < 0)))
    ensures wx < 0
  {
    if wx == 0 {
      ProductSign(ux, -wy);
    }
  }

  /** An inner vertex of one chain is not an inner vertex of the other. */
  lemma ChainsApart(lower: seq<Pos>, upper: seq<Pos>, s: seq<Pos>, r: seq<Pos>, i: nat, j: nat)
    requires Loop(lower, upper, s, r) && 0 < i < |lower| - 1 && 0 < j < |upper| - 1
    ensures lower[i] != upper[j]
  {
    if lower[i] == upper[j] {
      LoopFacts(lower, upper, s, r);
      ChainFacts(true, lower, s);
      ChainFacts(false, upper, r);
      var p, before, after, next := lower[i], lower[i - 1], lower[i + 1], upper[j + 1];
      var k :| 0 <= k < |s| && s[k] == next;
      var l :| 0 <= l < |s| && s[l] == after;
      assert AllLeft(s, lower[i], lower[i + 1]) && AllLeft(s, lower[i - 1], lower[i - 1 + 1]);
      assert AllLeft(s, upper[j], upper[j + 1]);
      assert Cross(lower[i - 1], lower[i - 1 + 1], lower[i - 1 + 2]) > 0;
      assert Ahead(true, p, after) && Ahead(false, p, next) && Ahead(true, before, p);
      var u, a, w := To(p, after), To(p, before), To(p, next);
      CrossIsDet(before, p, after);
      CrossIsDet(p, after, next);
      CrossIsDet(p, next, after);
      DetOpp(To(before, p), u);
      assert a == Opp(To(before, p));
      DetOpp(u, To(before, p));
      ConesApart(u, a, w);
      BackFrom(before, p, next);
      FromStart(before, p, next);
    }
  }

  lemma FromStart(o: Pos, p: Pos, q: Pos)
    ensures Cross(o, p, q) == Det(To(p, q), To(p, o))
  {
  }

  lemma JoinedDistinct(lower: seq<Pos>, upper: seq<Pos>, s: seq<Pos>, r: seq<Pos>)
    requires Loop(lower, upper, s, r)
    ensures |lower| > 0 && |upper| > 0 && Distinct(Joined(lower, upper))
  {
    LoopFacts(lower, upper, s, r);
    ChainFacts(true, lower, s);
    ChainFacts(false, upper, r);
    var h, n := Joined(lower, upper), |lower| - 1;
    forall i, j | 0 <= i < j < |h| ensures h[i] != h[j] {
      if j < n {
        assert Ahead(true, lower[i], lower[j]);
      } else if i >= n {
        assert Ahead(false, upper[i - n], upper[j - n]);
      } else if i == 0 {
        assert Ahead(false, upper[j - n], upper[|upper| - 1]);
      } else if j == n {
        assert Ahead(true, lower[i], lower[n]);
      } else {
        ChainsApart(lower, upper, s, r, i, j - n);
      }
    }
  }

  lemma MakeLoop(lower: seq<Pos>, upper: seq<Pos>, s: seq<Pos>)
    requires |s| >= 2 && Sorted(true, s) && Chain(true, lower, s) && Chain(false, upper, Reversed(s))
    ensures Loop(lower, upper, s, Reversed(s))
  {
    ReversedSorted(s);
  }

  lemma JoinedCycle(lower: seq<Pos>, upper: seq<Pos>, s: seq<Pos>, r: seq<Pos>)
    requires Loop(lower, upper, s, r) && !Collinear(s)
    ensures |lower| > 0 && |upper| > 0
    ensures |Joined(lower, upper)| >= 3 && TurnsLeft(Joined(lower, upper))
  {
    LoopFacts(lower, upper, s, r);
    EndTurns(lower, upper, s, r);
    var h := Joined(lower, upper);
    hide Cross, Loop, Collinear;
    forall i | 0 <= i < |h| ensures Cross(h[i], h[Next(i, |h|)], h[Next(Next(i, |h|), |h|)]) > 0 {
      JoinedTurns(lower, upper, s, r, i);
    }
  }
}
