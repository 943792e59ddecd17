/** The board outline: loose Edge.Cuts lines, in any order and either direction, walked into one closed loop. */
module Outline {
  import opened Basics
  import opened Hull

  datatype Line = Line(start: Pos, end: Pos)

  datatype Reason = ZeroLength | TooFew | Degree(at: Pos, degree: nat) | MoreThanOneLoop | NotOneLoop

  datatype Answer = Closed(ordered: seq<Pos>) | Refused(reason: Reason)

  // ----- What an outline is

  predicate Joined(lines: seq<Line>, u: Pos, v: Pos) {
    Line(u, v) in lines || Line(v, u) in lines
  }

  /** The same line, whichever way it was drawn. */
  predicate SameLine(l: Line, m: Line) {
    l == m || (l.start == m.end && l.end == m.start)
  }

  predicate NoRepeats(lines: seq<Line>) {
    forall i, j :: 0 <= i < j < |lines| ==> !SameLine(lines[i], lines[j])
  }

  function Side(ring: seq<Pos>, i: nat): Line
    requires i < |ring|
  {
    Line(ring[i], ring[Next(i, |ring|)])
  }

  predicate Borders(ring: seq<Pos>, l: Line) {
    exists i :: 0 <= i < |ring| && SameLine(Side(ring, i), l)
  }

  /** The lines, each drawn once, are exactly the sides of the cycle through the distinct vertices of ring. */
  predicate SimpleCycle(ring: seq<Pos>, lines: seq<Line>) {
    && |ring| >= 3 && Distinct(ring) && NoRepeats(lines)
    && (forall i :: 0 <= i < |ring| ==> Joined(lines, ring[i], ring[Next(i, |ring|)]))
    && (forall l :: l in lines ==> Borders(ring, l))
  }

  ghost predicate OneLoop(lines: seq<Line>) {
    exists ring :: SimpleCycle(ring, lines)
  }

  // ----- Counting

  lemma {:induction false} DistinctSize<T>(s: seq<T>, all: set<T>)
    requires forall i, j :: 0 <= i < j < |s| ==> s[i] != s[j]
    requires forall i :: 0 <= i < |s| ==> s[i] in all
    ensures |s| <= |all|
    ensures |s| == |all| ==> forall x :: x in all ==> x in s
  {
    if |s| > 0 {
      var x := s[|s| - 1];
      DistinctSize(s[..|s| - 1], all - {x});
      forall y | y in all ensures |s| == |all| ==> y in s {
        assert y == x || y in all - {x};
      }
    }
  }

  function Below(n: nat): (r: set<nat>)
    ensures |r| == n && forall i: nat :: i in r <==> i < n
  {
    if n == 0 then {} else Below(n - 1) + {n - 1}
  }

  /** Distinct cycle vertices have distinct sides, so no side is another one reversed. */
  lemma SidesDiffer(ring: seq<Pos>, i: nat, j: nat)
    requires |ring| >= 3 && Distinct(ring) && i < |ring| && j < |ring| && i != j
    ensures !SameLine(Side(ring, i), Side(ring, j))
  {
    var n := |ring|;
    assert ring[i] != ring[j];
    assert ring[i] == ring[Next(j, n)] ==> i == Next(j, n);
    assert ring[j] == ring[Next(i, n)] ==> j == Next(i, n);
  }

  ghost function LineAt(lines: seq<Line>, l: Line): (k: nat)
    requires Joined(lines, l.start, l.end)
    ensures k < |lines| && SameLine(l, lines[k])
  {
    var k :| 0 <= k < |lines| && SameLine(l, lines[k]);
    k
  }

  ghost function SideAt(ring: seq<Pos>, l: Line): (k: nat)
    requires Borders(ring, l)
    ensures k < |ring| && SameLine(Side(ring, k), l)
  {
    var k :| 0 <= k < |ring| && SameLine(Side(ring, k), l);
    k
  }

  predicate AllSidesDrawn(ring: seq<Pos>, lines: seq<Line>) {
    |ring| >= 3 && Distinct(ring) && forall i :: 0 <= i < |ring| ==> Joined(lines, ring[i], ring[Next(i, |ring|)])
  }

  /** used names, for each side, a line that draws it. */
  predicate Draws(ring: seq<Pos>, lines: seq<Line>, used: seq<nat>) {
    |used| == |ring| && forall i :: 0 <= i < |ring| ==> used[i] < |lines| && SameLine(Side(ring, i), lines[used[i]])
  }

  ghost function DrawnBy(ring: seq<Pos>, lines: seq<Line>): (used: seq<nat>)
    requires AllSidesDrawn(ring, lines)
    ensures Draws(ring, lines, used)
  {
    hide SameLine, Distinct;
    var n := |ring|;
    seq(n, i requires 0 <= i < n => LineAt(lines, Side(ring, i)))
  }

  lemma DrawnApart(ring: seq<Pos>, lines: seq<Line>, used: seq<nat>)
    requires |ring| >= 3 && Distinct(ring) && Draws(ring, lines, used)
    ensures |ring| <= |lines|
    ensures |ring| == |lines| ==> forall k :: 0 <= k < |lines| ==> k in used
  {
    hide Distinct;
    forall i, j | 0 <= i < j < |used| ensures used[i] != used[j] {
      SidesDiffer(ring, i, j);
    }
    var all := Below(|lines|);
    hide Draws;
    DistinctSize(used, all);
    forall k | 0 <= k < |lines| ensures |ring| == |lines| ==> k in used {
      assert k in all;
    }
  }

  lemma AllDrawn(ring: seq<Pos>, lines: seq<Line>, used: seq<nat>)
    requires |ring| >= 3 && Distinct(ring) && Draws(ring, lines, used)
    requires forall k :: 0 <= k < |lines| ==> k in used
    ensures NoRepeats(lines) && forall l :: l in lines ==> Borders(ring, l)
  {
    hide Distinct, SameLine, Side;
    forall l | l in lines ensures Borders(ring, l) {
      var k :| 0 <= k < |lines| && lines[k] == l;
      assert k in used;
      var i :| 0 <= i < |used| && used[i] == k;
    }
    forall j, k | 0 <= j < k < |lines| ensures !SameLine(lines[j], lines[k]) {
      assert j in used && k in used;
      var i1 :| 0 <= i1 < |used| && used[i1] == j;
      var i2 :| 0 <= i2 < |used| && used[i2] == k;
      SidesDiffer(ring, i1, i2);
      SameLineEquivalence(Side(ring, i1), lines[j], lines[k], Side(ring, i2));
    }
  }

  lemma SameLineEquivalence(a: Line, b: Line, c: Line, d: Line)
    ensures SameLine(a, b) && SameLine(b, c) && SameLine(d, c) ==> SameLine(a, d)
  {
  }

  /** Sides take up distinct lines: with as many lines as sides, every line is a side and none is repeated. */
  lemma SidesUseLines(ring: seq<Pos>, lines: seq<Line>)
    requires AllSidesDrawn(ring, lines)
    ensures |ring| == |lines| ==> SimpleCycle(ring, lines)
  {
    hide Draws, Distinct, NoRepeats;
    var used := DrawnBy(ring, lines);
    DrawnApart(ring, lines, used);
    if |ring| == |lines| {
      AllDrawn(ring, lines, used);
    }
  }

  /** A cycle has as many sides as there are lines. */
  lemma CycleSize(ring: seq<Pos>, lines: seq<Line>)
    requires SimpleCycle(ring, lines)
    ensures |ring| == |lines|
  {
    hide Distinct, NoRepeats, SameLine, Draws;
    var n, m := |ring|, |lines|;
    DrawnApart(ring, lines, DrawnBy(ring, lines));
    var taken := seq(m, k requires 0 <= k < m => SideAt(ring, lines[k]));
    forall j, k | 0 <= j < k < m ensures taken[j] != taken[k] {
      RepeatFree(lines, j, k);
      SameLineShared(Side(ring, taken[j]), lines[j], lines[k]);
    }
    DistinctSize(taken, Below(n));
  }

  lemma RepeatFree(lines: seq<Line>, j: nat, k: nat)
    requires NoRepeats(lines) && j < k < |lines|
    ensures !SameLine(lines[j], lines[k])
  {
  }

  lemma SameLineShared(a: Line, b: Line, c: Line)
    ensures SameLine(a, b) && SameLine(a, c) ==> SameLine(b, c)
  {
  }

  // ----- The adjacency map

  predicate Touches(lines: seq<Line>, v: Pos) {
    exists l :: l in lines && (l.start == v || l.end == v)
  }

  /** Every end of a line, with the ends of the lines that leave it. */
  ghost predicate AdjacencyOf(adj: map<Pos, seq<Pos>>, lines: seq<Line>) {
    && (forall v :: v in adj <==> Touches(lines, v))
    && (forall v, w :: v in adj ==> (w in adj[v] <==> Joined(lines, v, w)))
  }

  method AddNeighbour(adj: map<Pos, seq<Pos>>, v: Pos, w: Pos) returns (r: map<Pos, seq<Pos>>)
    ensures r.Keys == adj.Keys + {v}
    ensures r[v] == (if v in adj then adj[v] else []) + [w]
    ensures forall u :: u in adj && u != v ==> r[u] == adj[u]
  {
    r := adj[v := (if v in adj then adj[v] else []) + [w]];
  }

  method BuildAdjacency(lines: seq<Line>) returns (adj: map<Pos, seq<Pos>>)
    ensures AdjacencyOf(adj, lines)
  {
    hide Touches, Joined;
    adj := map[];
    assert AdjacencyOf(adj, lines[..0]) by {
      NothingTouches();
    }
    hide AdjacencyOf;
    for i := 0 to |lines|
      invariant AdjacencyOf(adj, lines[..i])
    {
      var l := lines[i];
      ghost var was, before := adj, lines[..i];
      adj := AddNeighbour(adj, l.start, l.end);
      adj := AddNeighbour(adj, l.end, l.start);
      AdjacencyGrows(was, before, l, adj);
      assert lines[..i + 1] == before + [l];
    }
    assert lines[..|lines|] == lines;
  }

  lemma NothingTouches()
    ensures forall v :: !Touches([], v)
  {
  }

  lemma AdjacencyGrows(adj: map<Pos, seq<Pos>>, lines: seq<Line>, l: Line, now: map<Pos, seq<Pos>>)
    requires AdjacencyOf(adj, lines)
    requires now.Keys == adj.Keys + {l.start, l.end}
    requires forall v, w :: v in now ==>
                              (w in now[v] <==> (v in adj && w in adj[v]) || SameLine(l, Line(v, w)))
    ensures AdjacencyOf(now, lines + [l])
  {
    var more := lines + [l];
    assert forall m :: m in more <==> m in lines || m == l;
    forall v ensures v in now <==> Touches(more, v) {
      assert l in more;
      if Touches(lines, v) {
        var m :| m in lines && (m.start == v || m.end == v);
        assert m in more;
      }
    }
    forall v, w | v in now ensures w in now[v] <==> Joined(more, v, w) {
      if Joined(lines, v, w) {
        assert Touches(lines, v);
      }
    }
  }

  /** Every vertex has two neighbours, none of them itself, and neighbourhood goes both ways. */
  ghost predicate AllPaired(adj: map<Pos, seq<Pos>>) {
    && (forall v :: v in adj ==> |adj[v]| == 2 && adj[v][0] != adj[v][1] && v !in adj[v])
    && (forall v, w :: v in adj && w in adj[v] ==> w in adj && v in adj[w])
  }

  // ----- The walk

  /** A path that has used up both neighbours of each of its inner vertices. */
  predicate Trail(adj: map<Pos, seq<Pos>>, s: seq<Pos>) {
    && |s| >= 1 && Distinct(s)
    && (forall i :: 0 <= i < |s| ==> s[i] in adj && |adj[s[i]]| == 2)
    && (forall i :: 0 < i < |s| - 1 ==> Pair(adj[s[i]], s[i - 1], s[i + 1]))
    && (|s| >= 2 ==> s[1] == adj[s[0]][0] && s[|s| - 2] in adj[s[|s| - 1]])
  }

  predicate Pair(two: seq<Pos>, v: Pos, w: Pos) {
    |two| == 2 && ((two[0] == v && two[1] == w) || (two[0] == w && two[1] == v))
  }

  /** The trail has come back to its start along the second neighbour. */
  predicate Closes(adj: map<Pos, seq<Pos>>, s: seq<Pos>) {
    && Trail(adj, s) && |s| >= 3
    && adj[s[0]][1] == s[|s| - 1]
    && Pair(adj[s[|s| - 1]], s[|s| - 2], s[0])
  }

  function Onward(adj: map<Pos, seq<Pos>>, s: seq<Pos>): (w: Pos)
    requires Trail(adj, s)
    ensures w in adj[s[|s| - 1]]
  {
    var two := adj[s[|s| - 1]];
    if |s| > 1 && two[0] == s[|s| - 2] then two[1] else two[0]
  }

  lemma InnerIsUsedUp(adj: map<Pos, seq<Pos>>, s: seq<Pos>, j: nat)
    requires Trail(adj, s) && 0 < j < |s| - 1 && s[|s| - 1] in adj[s[j]]
    ensures j == |s| - 2
  {
    assert Pair(adj[s[j]], s[j - 1], s[j + 1]);
  }

  lemma NotBack(adj: map<Pos, seq<Pos>>, s: seq<Pos>)
    requires AllPaired(adj) && Trail(adj, s)
    ensures Onward(adj, s) in adj && s[|s| - 1] in adj[Onward(adj, s)] && Onward(adj, s) != s[|s| - 1]
    ensures |s| > 1 ==> Onward(adj, s) != s[|s| - 2] && Pair(adj[s[|s| - 1]], s[|s| - 2], Onward(adj, s))
  {
    hide Distinct;
    var v := s[|s| - 1];
    assert v in adj && adj[v][0] != adj[v][1];
  }

  /** The walk meets no vertex twice before it closes: an earlier inner vertex has no neighbour left. */
  lemma OnlyTheStartRecurs(adj: map<Pos, seq<Pos>>, s: seq<Pos>)
    requires AllPaired(adj) && Trail(adj, s) && Onward(adj, s) in s
    ensures Onward(adj, s) == s[0] && Closes(adj, s)
  {
    var n, w := |s|, Onward(adj, s);
    var j :| 0 <= j < n && s[j] == w;
    NotBack(adj, s);
    hide AllPaired, Onward;
    if 0 < j < n - 1 {
      InnerIsUsedUp(adj, s, j);
    }
    assert j == 0 && n >= 3;
    assert s[n - 1] != s[1];
  }

  lemma TrailGrows(adj: map<Pos, seq<Pos>>, s: seq<Pos>)
    requires AllPaired(adj) && Trail(adj, s) && Onward(adj, s) !in s
    ensures Trail(adj, s + [Onward(adj, s)])
  {
    var n, w := |s|, Onward(adj, s);
    var t := s + [w];
    NotBack(adj, s);
    assert |adj[w]| == 2;
    hide AllPaired;
    forall i | 0 < i < |t| - 1 ensures Pair(adj[t[i]], t[i - 1], t[i + 1]) {
      if i < n - 1 {
        assert Pair(adj[s[i]], s[i - 1], s[i + 1]);
      }
    }
  }

  lemma TrailFacts(adj: map<Pos, seq<Pos>>, s: seq<Pos>)
    requires Trail(adj, s)
    ensures |s| <= |adj| && s[|s| - 1] in adj && |adj[s[|s| - 1]]| == 2
  {
    DistinctSize(s, adj.Keys);
    assert |adj.Keys| == |adj|;
  }

  /** The loop of `simple_closed_outline`: it always closes, and never finds a second loop. */
  method Walk(adj: map<Pos, seq<Pos>>, start: Pos) returns (r: Answer)
    requires AllPaired(adj) && start in adj
    ensures r.Closed? && |r.ordered| > 0
    ensures var ring := r.ordered[..|r.ordered| - 1];
            Closes(adj, ring) && ring[0] == start && r.ordered == ring + [start]
  {
    assert Trail(adj, [start]);
    hide AllPaired, Trail, Closes;
    var ordered := [start];
    var current := start;
    var first, previous := true, start;
    while true
      invariant |ordered| > 0 && Trail(adj, ordered) && ordered[0] == start && current == ordered[|ordered| - 1]
      invariant first <==> |ordered| == 1
      invariant !first ==> previous == ordered[|ordered| - 2]
      decreases |adj| - |ordered|
    {
      TrailFacts(adj, ordered);
      var neighbours := adj[current];
      var next := if !first && neighbours[0] == previous then neighbours[1] else neighbours[0];
      assert next == Onward(adj, ordered);
      if next in ordered {
        OnlyTheStartRecurs(adj, ordered);
      }
      if next == start {
        assert (ordered + [start])[..|ordered|] == ordered;
        return Closed(ordered + [start]);
      }
      if next in ordered {
        assert false;
        return Refused(MoreThanOneLoop);
      }
      TrailGrows(adj, ordered);
      ordered := ordered + [next];
      TrailFacts(adj, ordered);
      first, previous := false, current;
      current := next;
    }
  }

  // ----- The walk and the lines

  ghost predicate SortedAdjacency(adj: map<Pos, seq<Pos>>, lines: seq<Line>) {
    && AdjacencyOf(adj, lines) && forall v :: v in adj ==> Sorted(true, adj[v])
  }

  lemma DegreesPair(adj: map<Pos, seq<Pos>>, lines: seq<Line>)
    requires SortedAdjacency(adj, lines) && forall l :: l in lines ==> l.start != l.end
    requires forall v :: v in adj ==> |adj[v]| == 2
    ensures AllPaired(adj)
  {
    forall v | v in adj ensures adj[v][0] != adj[v][1] && v !in adj[v] {
      assert Ahead(true, adj[v][0], adj[v][1]);
    }
    forall v, w | v in adj && w in adj[v] ensures w in adj && v in adj[w] {
      assert Joined(lines, v, w) && Joined(lines, w, v);
      assert Touches(lines, w);
    }
  }

  lemma ClosedSides(adj: map<Pos, seq<Pos>>, lines: seq<Line>, ring: seq<Pos>)
    requires AdjacencyOf(adj, lines) && Closes(adj, ring)
    ensures AllSidesDrawn(ring, lines)
  {
    var n := |ring|;
    forall i | 0 <= i < n ensures Joined(lines, ring[i], ring[Next(i, n)]) {
      assert 0 < i < n - 1 ==> Pair(adj[ring[i]], ring[i - 1], ring[i + 1]);
      assert ring[Next(i, n)] in adj[ring[i]];
    }
  }

  /** The walk's vertices are closed under neighbourhood. */
  lemma NoWayOut(adj: map<Pos, seq<Pos>>, s: seq<Pos>, v: Pos, w: Pos)
    requires Closes(adj, s) && v in s && w in adj[v]
    ensures w in s
  {
    var i :| 0 <= i < |s| && s[i] == v;
    assert 0 < i < |s| - 1 ==> Pair(adj[s[i]], s[i - 1], s[i + 1]);
  }

  lemma StaysOn(adj: map<Pos, seq<Pos>>, lines: seq<Line>, s: seq<Pos>, v: Pos, w: Pos)
    requires AdjacencyOf(adj, lines) && Closes(adj, s) && v in s && Joined(lines, v, w)
    ensures w in s
  {
    var i :| 0 <= i < |s| && s[i] == v;
    assert s[i] in adj;
    NoWayOut(adj, s, v, w);
  }

  /** Once on the cycle, the walk visits all of it. */
  lemma {:induction false} WalkCovers(adj: map<Pos, seq<Pos>>, lines: seq<Line>, s: seq<Pos>, ring: seq<Pos>, from: nat,
                                      i: nat)
    requires AdjacencyOf(adj, lines) && Closes(adj, s) && AllSidesDrawn(ring, lines)
    requires from <= i < |ring| && ring[from] in s
    ensures ring[i] in s
  {
    hide Closes, Distinct;
    if i > from {
      WalkCovers(adj, lines, s, ring, from, i - 1);
      assert Joined(lines, ring[i - 1], ring[Next(i - 1, |ring|)]);
      StaysOn(adj, lines, s, ring[i - 1], ring[i]);
    }
  }

  lemma OnRing(lines: seq<Line>, ring: seq<Pos>, v: Pos)
    requires SimpleCycle(ring, lines) && Touches(lines, v)
    ensures v in ring
  {
    var l :| l in lines && (l.start == v || l.end == v);
    assert Borders(ring, l);
  }

  lemma WalkReachesAll(adj: map<Pos, seq<Pos>>, lines: seq<Line>, s: seq<Pos>, ring: seq<Pos>)
    requires AdjacencyOf(adj, lines) && Closes(adj, s) && AllSidesDrawn(ring, lines) && s[0] in ring
    ensures forall i :: 0 <= i < |ring| ==> ring[i] in s
  {
    hide AdjacencyOf, Distinct;
    var n := |ring|;
    var from :| 0 <= from < n && ring[from] == s[0];
    WalkCovers(adj, lines, s, ring, from, n - 1);
    assert Joined(lines, ring[n - 1], ring[Next(n - 1, n)]);
    StaysOn(adj, lines, s, ring[n - 1], ring[0]);
    hide Joined, AllSidesDrawn, Closes;
    forall i | 0 <= i < n ensures ring[i] in s {
      WalkCovers(adj, lines, s, ring, 0, i);
    }
  }

  lemma WalkStays(adj: map<Pos, seq<Pos>>, lines: seq<Line>, s: seq<Pos>, ring: seq<Pos>)
    requires AdjacencyOf(adj, lines) && Trail(adj, s) && SimpleCycle(ring, lines)
    ensures forall i :: 0 <= i < |s| ==> s[i] in ring
  {
    hide SimpleCycle, Distinct;
    forall i | 0 <= i < |s| ensures s[i] in ring {
      assert s[i] in adj;
      OnRing(lines, ring, s[i]);
    }
  }

  lemma SameSize(s: seq<Pos>, t: seq<Pos>)
    requires Distinct(s) && Distinct(t)
    requires (forall i :: 0 <= i < |s| ==> s[i] in t) && (forall i :: 0 <= i < |t| ==> t[i] in s)
    ensures |s| == |t|
  {
    DistinctSize(s, set v | v in t);
    DistinctSize(t, set v | v in s);
    SetSize(s);
    SetSize(t);
  }

  /** If the lines form one cycle, the walk is all of it. */
  lemma WalkIsWhole(adj: map<Pos, seq<Pos>>, lines: seq<Line>, s: seq<Pos>, ring: seq<Pos>)
    requires AdjacencyOf(adj, lines) && Closes(adj, s) && SimpleCycle(ring, lines)
    ensures |s| == |lines|
  {
    hide AdjacencyOf, Distinct, Joined, NoRepeats;
    WalkStays(adj, lines, s, ring);
    WalkReachesAll(adj, lines, s, ring);
    SameSize(s, ring);
    CycleSize(ring, lines);
  }

  lemma {:induction false} SetSize(s: seq<Pos>)
    ensures |(set v | v in s)| <= |s|
  {
    if |s| > 0 {
      var t := s[..|s| - 1];
      SetSize(t);
      assert (set v | v in s) == (set v | v in t) + {s[|s| - 1]};
    }
  }

  /** Each vertex of a simple cycle has the two next to it as neighbours, and no other. */
  lemma CycleDegrees(lines: seq<Line>, ring: seq<Pos>, v: Pos, two: seq<Pos>)
    requires SimpleCycle(ring, lines) && Touches(lines, v)
    requires Sorted(true, two) && forall w :: w in two <==> Joined(lines, v, w)
    ensures |two| == 2
  {
    var n := |ring|;
    OnRing(lines, ring, v);
    var i :| 0 <= i < n && ring[i] == v;
    var j := if i == 0 then n - 1 else i - 1;
    assert Next(j, n) == i;
    var a, b := ring[j], ring[Next(i, n)];
    assert Joined(lines, ring[j], ring[Next(j, n)]);
    assert Joined(lines, v, a) && Joined(lines, v, b);
    assert ring[j] != ring[Next(i, n)];
    hide SimpleCycle, Joined, Touches;
    forall k | 0 <= k < |two| ensures two[k] in {a, b} {
      assert Joined(lines, v, two[k]);
      NeighbourIs(lines, ring, i, j, two[k]);
    }
    TwoOf(two, a, b);
  }

  lemma TwoOf(two: seq<Pos>, a: Pos, b: Pos)
    requires Sorted(true, two) && a != b && a in two && b in two && forall k :: 0 <= k < |two| ==> two[k] in {a, b}
    ensures |two| == 2
  {
    forall k, l | 0 <= k < l < |two| ensures two[k] != two[l] {
      assert Ahead(true, two[k], two[l]);
    }
    DistinctSize(two, {a, b});
  }

  lemma NeighbourIs(lines: seq<Line>, ring: seq<Pos>, i: nat, j: nat, w: Pos)
    requires SimpleCycle(ring, lines) && i < |ring| && j < |ring| && Next(j, |ring|) == i
    requires Joined(lines, ring[i], w)
    ensures w == ring[j] || w == ring[Next(i, |ring|)]
  {
    hide Distinct, NoRepeats;
    var l := if Line(ring[i], w) in lines then Line(ring[i], w) else Line(w, ring[i]);
    assert Borders(ring, l);
    var k :| 0 <= k < |ring| && SameLine(Side(ring, k), l);
    assert ring[k] == ring[i] || ring[Next(k, |ring|)] == ring[i];
    if ring[k] == ring[i] {
      DistinctAt(ring, k, i);
    } else {
      DistinctAt(ring, Next(k, |ring|), i);
    }
  }

  lemma DistinctAt(ring: seq<Pos>, i: nat, j: nat)
    requires Distinct(ring) && i < |ring| && j < |ring| && ring[i] == ring[j]
    ensures i == j
  {
  }

  // ----- The operation

  /** The degree the source reports: how many different neighbours. */
  ghost predicate HasDegree(lines: seq<Line>, v: Pos, d: nat) {
    exists two: seq<Pos> :: |two| == d && Sorted(true, two) && forall w :: w in two <==> Joined(lines, v, w)
  }

  ghost predicate AllDegreeTwo(lines: seq<Line>) {
    forall v :: Touches(lines, v) ==> HasDegree(lines, v, 2)
  }

  lemma DegreeUnique(lines: seq<Line>, v: Pos, d: nat, e: nat)
    requires HasDegree(lines, v, d) && HasDegree(lines, v, e)
    ensures d == e
  {
    hide Joined, Sorted;
    var some: seq<Pos> :| |some| == d && Sorted(true, some) && forall w :: w in some <==> Joined(lines, v, w);
    var same: seq<Pos> :| |same| == e && Sorted(true, same) && forall w :: w in same <==> Joined(lines, v, w);
    SortedDistinct(some);
    SortedDistinct(same);
    SameSize(some, same);
  }

  lemma SortedDistinct(s: seq<Pos>)
    requires Sorted(true, s)
    ensures Distinct(s)
  {
    forall i, j | 0 <= i < j < |s| ensures s[i] != s[j] {
      NotEarlier(s, i, j);
    }
  }

  lemma NotAllTwo(lines: seq<Line>, v: Pos, d: nat)
    requires d != 2 && Touches(lines, v) && HasDegree(lines, v, d)
    ensures !AllDegreeTwo(lines)
  {
    hide HasDegree;
    if AllDegreeTwo(lines) {
      DegreeUnique(lines, v, d, 2);
    }
  }

  lemma PairedDegrees(adj: map<Pos, seq<Pos>>, lines: seq<Line>)
    requires SortedAdjacency(adj, lines) && forall v :: v in adj ==> |adj[v]| == 2
    ensures AllDegreeTwo(lines)
  {
    hide Joined, Sorted, Touches;
    forall v | Touches(lines, v) ensures HasDegree(lines, v, 2) {
      assert v in adj && Sorted(true, adj[v]);
    }
  }

  predicate NoneEmpty(lines: seq<Line>) {
    forall l :: l in lines ==> l.start != l.end
  }

  /** The cycle from its least vertex towards that vertex's lesser neighbour, and back to the start. */
  predicate WalkOrder(ordered: seq<Pos>, lines: seq<Line>) {
    && |ordered| >= 4
    && var ring := ordered[..|ordered| - 1];
    && ordered == ring + [ring[0]] && SimpleCycle(ring, lines)
    && (forall v :: v in ring && v != ring[0] ==> Before(ring[0], v))
    && Before(ring[1], ring[|ring| - 1])
  }

  datatype Degrees = Paired(adj: map<Pos, seq<Pos>>) | Unpaired(at: Pos, degree: nat)

  /** Sorts and deduplicates every neighbour list, in key order, until one does not hold two. */
  method SortNeighbours(raw: map<Pos, seq<Pos>>, keys: seq<Pos>, lines: seq<Line>) returns (r: Degrees)
    requires AdjacencyOf(raw, lines) && Sorted(true, keys) && forall v :: v in keys <==> v in raw
    ensures r.Paired? ==> SortedAdjacency(r.adj, lines) && r.adj.Keys == raw.Keys
    ensures r.Paired? ==> forall v :: v in r.adj ==> |r.adj[v]| == 2
    ensures r.Unpaired? ==> r.degree != 2 && Touches(lines, r.at) && HasDegree(lines, r.at, r.degree)
    ensures r.Unpaired? ==> forall v :: Touches(lines, v) && Before(v, r.at) ==> HasDegree(lines, v, 2)
  {
    hide Joined, Touches, Before;
    var adj := raw;
    for i := 0 to |keys|
      invariant adj.Keys == raw.Keys && AdjacencyOf(adj, lines)
      invariant forall k :: 0 <= k < i ==> Sorted(true, adj[keys[k]]) && |adj[keys[k]]| == 2
    {
      var v := keys[i];
      assert v in keys;
      var two := SortDedup(adj[v]);
      if |two| != 2 {
        assert HasDegree(lines, v, |two|);
        forall u | Touches(lines, u) && Before(u, v) ensures HasDegree(lines, u, 2) {
          assert u in keys;
          var k := IndexBefore(keys, i, u);
          assert HasDegree(lines, keys[k], |adj[keys[k]]|);
        }
        return Unpaired(v, |two|);
      }
      forall k | 0 <= k < i ensures keys[k] != v {
        NotEarlier(keys, k, i);
      }
      adj := adj[v := two];
    }
    forall v | v in adj ensures Sorted(true, adj[v]) && |adj[v]| == 2 {
      assert v in keys;
    }
    r := Paired(adj);
  }

  lemma IndexBefore(keys: seq<Pos>, i: nat, u: Pos) returns (k: nat)
    requires Sorted(true, keys) && i < |keys| && u in keys && Before(u, keys[i])
    ensures k < i && keys[k] == u
  {
    k :| 0 <= k < |keys| && keys[k] == u;
    if k >= i {
      NotAfter(keys, i, k);
    }
  }

  lemma NotAfter(keys: seq<Pos>, i: nat, k: nat)
    requires Sorted(true, keys) && i <= k < |keys|
    ensures !Before(keys[k], keys[i])
  {
    if i < k {
      assert Ahead(true, keys[i], keys[k]);
    }
  }

  lemma NotEarlier(keys: seq<Pos>, k: nat, i: nat)
    requires Sorted(true, keys) && k < i < |keys|
    ensures keys[k] != keys[i] && Before(keys[k], keys[i])
  {
    assert Ahead(true, keys[k], keys[i]);
  }

  lemma UnpairedIsNoLoop(lines: seq<Line>, v: Pos, d: nat)
    requires d != 2 && Touches(lines, v) && HasDegree(lines, v, d)
    ensures !OneLoop(lines)
  {
    hide SimpleCycle, Joined, Sorted, Touches;
    if OneLoop(lines) {
      var ring :| SimpleCycle(ring, lines);
      var two: seq<Pos> :| |two| == d && Sorted(true, two) && forall w :: w in two <==> Joined(lines, v, w);
      CycleDegrees(lines, ring, v, two);
    }
  }

  lemma LeastFirst(adj: map<Pos, seq<Pos>>, keys: seq<Pos>, ring: seq<Pos>, v: Pos)
    requires Trail(adj, ring) && v in ring && v != ring[0]
    requires Sorted(true, keys) && (forall u :: u in adj ==> u in keys) && |keys| > 0 && ring[0] == keys[0]
    ensures Before(ring[0], v)
  {
    hide Before, Distinct, Sorted;
    var i :| 0 <= i < |ring| && ring[i] == v;
    assert ring[i] in adj;
    var k :| 0 <= k < |keys| && keys[k] == v;
    NotEarlier(keys, 0, k);
  }

  lemma LoopFound(adj: map<Pos, seq<Pos>>, lines: seq<Line>, ring: seq<Pos>)
    requires AdjacencyOf(adj, lines) && Closes(adj, ring)
    ensures |ring| == |lines| <==> OneLoop(lines)
    ensures |ring| == |lines| ==> SimpleCycle(ring, lines)
  {
    hide SimpleCycle, AdjacencyOf, Closes, AllSidesDrawn;
    ClosedSides(adj, lines, ring);
    SidesUseLines(ring, lines);
    if OneLoop(lines) {
      var cycle :| SimpleCycle(cycle, lines);
      WalkIsWhole(adj, lines, ring, cycle);
    }
  }

  lemma WalkDecides(adj: map<Pos, seq<Pos>>, keys: seq<Pos>, lines: seq<Line>, ring: seq<Pos>)
    requires SortedAdjacency(adj, lines) && Closes(adj, ring)
    requires Sorted(true, keys) && (forall v :: v in adj ==> v in keys) && |keys| > 0 && ring[0] == keys[0]
    ensures |ring| == |lines| <==> OneLoop(lines)
    ensures |ring| == |lines| ==> WalkOrder(ring + [ring[0]], lines)
  {
    hide SimpleCycle, AdjacencyOf, Before, Distinct, Sorted, Pair, OneLoop;
    LoopFound(adj, lines, ring);
    assert (ring + [ring[0]])[..|ring|] == ring;
    assert ring[0] in adj;
    NotEarlier(adj[ring[0]], 0, 1);
    forall v | v in ring && v != ring[0] ensures Before(ring[0], v) {
      LeastFirst(adj, keys, ring, v);
    }
  }

  /** `simple_closed_outline`: accepts exactly one simple cycle, each line drawn once, and returns it in walk
      order. The second-loop refusal is never taken. */
  method SimpleClosedOutline(lines: seq<Line>) returns (r: Answer)
    ensures r.Closed? <==> OneLoop(lines)
    ensures r.Closed? ==> WalkOrder(r.ordered, lines)
    ensures r == Refused(ZeroLength) <==> !NoneEmpty(lines)
    ensures r == Refused(TooFew) <==> NoneEmpty(lines) && |lines| < 3
    ensures r.Refused? && r.reason.Degree? <==> NoneEmpty(lines) && |lines| >= 3 && !AllDegreeTwo(lines)
    ensures r == Refused(NotOneLoop) <==> NoneEmpty(lines) && |lines| >= 3 && AllDegreeTwo(lines) && !OneLoop(lines)
    ensures r.Refused? && r.reason.Degree? ==>
              r.reason.degree != 2 && Touches(lines, r.reason.at) && HasDegree(lines, r.reason.at, r.reason.degree)
              && forall v :: Touches(lines, v) && Before(v, r.reason.at) ==> HasDegree(lines, v, 2)
    ensures r != Refused(MoreThanOneLoop)
  {
    hide SimpleCycle, Joined, HasDegree, AllDegreeTwo, Closes, AllPaired, WalkOrder, Sorted;
    for i := 0 to |lines|
      invariant NoneEmpty(lines[..i])
    {
      assert lines[..i + 1] == lines[..i] + [lines[i]];
      if lines[i].start == lines[i].end {
        assert lines[i] in lines;
        EmptyIsNoSide(lines, lines[i]);
        return Refused(ZeroLength);
      }
    }
    assert lines[..|lines|] == lines;
    if |lines| < 3 {
      TooFewForALoop(lines);
      return Refused(TooFew);
    }
    var raw := BuildAdjacency(lines);
    var keys := Keys(raw, lines);
    var sorted := SortNeighbours(raw, keys, lines);
    if sorted.Unpaired? {
      UnpairedIsNoLoop(lines, sorted.at, sorted.degree);
      NotAllTwo(lines, sorted.at, sorted.degree);
      return Refused(Degree(sorted.at, sorted.degree));
    }
    var adj := sorted.adj;
    DegreesPair(adj, lines);
    PairedDegrees(adj, lines);
    HasKey(adj, lines);
    assert keys[0] in keys;
    r := Walk(adj, keys[0]);
    ghost var ring := r.ordered[..|r.ordered| - 1];
    WalkDecides(adj, keys, lines, ring);
    if |r.ordered| != |lines| + 1 {
      r := Refused(NotOneLoop);
    }
  }

  lemma EmptyIsNoSide(lines: seq<Line>, l: Line)
    requires l in lines && l.start == l.end
    ensures !OneLoop(lines)
  {
  }

  lemma TooFewForALoop(lines: seq<Line>)
    requires |lines| < 3
    ensures !OneLoop(lines)
  {
    if OneLoop(lines) {
      var ring :| SimpleCycle(ring, lines);
      CycleSize(ring, lines);
    }
  }

  lemma HasKey(adj: map<Pos, seq<Pos>>, lines: seq<Line>)
    requires AdjacencyOf(adj, lines) && |lines| > 0
    ensures lines[0].start in adj
  {
    assert lines[0] in lines;
    assert Touches(lines, lines[0].start);
  }

  /** The map's keys in the map's order. */
  method Keys(adj: map<Pos, seq<Pos>>, lines: seq<Line>) returns (keys: seq<Pos>)
    requires AdjacencyOf(adj, lines)
    ensures Sorted(true, keys) && forall v :: v in keys <==> v in adj
  {
    var ends: seq<Pos> := [];
    for i := 0 to |lines|
      invariant forall v :: v in ends <==> Touches(lines[..i], v)
    {
      assert lines[..i + 1] == lines[..i] + [lines[i]];
      TouchesGrows(lines[..i], lines[i]);
      ends := ends + [lines[i].start, lines[i].end];
    }
    assert lines[..|lines|] == lines;
    keys := SortDedup(ends);
  }

  lemma TouchesGrows(lines: seq<Line>, l: Line)
    ensures forall v :: Touches(lines + [l], v) <==> Touches(lines, v) || v == l.start || v == l.end
  {
    assert l in lines + [l];
    forall v | Touches(lines, v) ensures Touches(lines + [l], v) {
      var m :| m in lines && (m.start == v || m.end == v);
      assert m in lines + [l];
    }
  }
}
