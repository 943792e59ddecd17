/** When a ring that never turns right is convex: exactly when its edges change between lexicographically forward
    and backward twice on the way round. */
module Convexity {
  import opened Basics
  import opened Hull

  // ----- Closed paths of two chains

  function Step(w: seq<Pos>, k: nat): Dir
    requires k + 1 < |w|
  {
    To(w[k], w[k + 1])
  }

  predicate Strictly(up: bool, u: Dir) {
    Forward(if up then u else Opp(u))
  }

  /** The steps before f go one way and the others the other way, the path closes, and neither chain turns right. */
  predicate TwoChains(w: seq<Pos>, f: nat, up: bool) {
    && |w| >= 2 && 0 < f < |w| - 1 && w[0] == w[|w| - 1]
    && (forall k :: 0 <= k < f ==> Strictly(up, Step(w, k)))
    && (forall k :: f <= k < |w| - 1 ==> Strictly(!up, Step(w, k)))
    && (forall k :: 0 <= k < |w| - 2 && k + 1 != f ==> Det(Step(w, k), Step(w, k + 1)) >= 0)
  }

  /** How far left of step i the vertex k lies. */
  function Height(w: seq<Pos>, i: nat, k: nat): int
    requires i + 1 < |w| && k < |w|
  {
    Det(Step(w, i), To(w[i], w[k]))
  }

  lemma HeightStep(w: seq<Pos>, i: nat, k: nat)
    requires i + 1 < |w| && k + 1 < |w|
    ensures Height(w, i, k + 1) == Height(w, i, k) + Det(Step(w, i), Step(w, k))
  {
  }

  lemma HeightStart(w: seq<Pos>, i: nat)
    requires i + 1 < |w|
    ensures Height(w, i, i) == 0
  {
  }

  /** Within a chain, later steps are to the left of earlier ones. */
  lemma {:induction false} ChainDet(w: seq<Pos>, f: nat, up: bool, i: nat, j: nat)
    requires TwoChains(w, f, up) && i <= j < |w| - 1 && (j < f || f <= i)
    ensures Det(Step(w, i), Step(w, j)) >= 0
  {
    if i < j {
      ChainDet(w, f, up, i, j - 1);
      var side := if j < f then up else !up;
      assert Det(Step(w, j - 1), Step(w, j - 1 + 1)) >= 0;
      TurnsComposeEither(side, Step(w, i), Step(w, j - 1), Step(w, j));
    }
  }

  /** Along its own chain, the rest of the first chain rises above step i. */
  lemma {:induction false} RisesAhead(w: seq<Pos>, f: nat, up: bool, i: nat, k: nat)
    requires TwoChains(w, f, up) && i < f && i <= k <= f
    ensures Height(w, i, k) >= 0
  {
    HeightStart(w, i);
    hide Height, Det, Step;
    if i < k {
      RisesAhead(w, f, up, i, k - 1);
      ChainDet(w, f, up, i, k - 1);
      HeightStep(w, i, k - 1);
    }
  }

  /** The part of the first chain before step i is above it too, the earlier the higher. */
  lemma {:induction false} RisesBehind(w: seq<Pos>, f: nat, up: bool, i: nat, k: nat)
    requires TwoChains(w, f, up) && k <= i < f
    ensures Height(w, i, k) >= 0
    ensures k < i ==> Height(w, i, k) >= Height(w, i, k + 1)
    decreases i - k
  {
    HeightStart(w, i);
    if k < i {
      RisesBehind(w, f, up, i, k + 1);
      ChainDet(w, f, up, k, i);
      HeightStep(w, i, k);
      DetOpp(Step(w, k), Step(w, i));
      hide Height, Det, Step;
    }
  }

  /** Once a step of the second chain descends towards the line of step i, no later one rises again. */
  lemma StaysDown(w: seq<Pos>, f: nat, up: bool, i: nat, j: nat, k: nat)
    requires TwoChains(w, f, up) && i < f <= j <= k < |w| - 1 && Det(Step(w, i), Step(w, j)) < 0
    ensures Det(Step(w, i), Step(w, k)) <= 0
  {
    var d, a, b := Step(w, i), Step(w, j), Step(w, k);
    ChainDet(w, f, up, j, k);
    assert Strictly(up, d) && Strictly(!up, a) && Strictly(!up, b);
    FacesBack(up, a);
    FacesBack(up, b);
    hide Step, Det, TwoChains;
    DetOpp(d, a);
    DetOpp(d, b);
    DetOpp(a, b);
    TurnsComposeEither(up, d, Opp(a), Opp(b));
  }

  lemma FacesBack(up: bool, a: Dir)
    requires Strictly(!up, a)
    ensures Facing(up, Opp(a)) && Opp(a) != Dir(0, 0)
  {
    OppFacts(a);
    hide Opp;
  }

  lemma OppFacts(a: Dir)
    ensures Opp(Opp(a)) == a
    ensures a.x != 0 || a.y != 0 ==> Opp(a).x != 0 || Opp(a).y != 0
  {
  }

  /** From a descending step on, the height only falls towards its value at the end. */
  lemma {:induction false} FallsToEnd(w: seq<Pos>, f: nat, up: bool, i: nat, j: nat, k: nat)
    requires TwoChains(w, f, up) && i < f <= j < k <= |w| - 1 && Det(Step(w, i), Step(w, j)) < 0
    ensures Height(w, i, k) >= Height(w, i, |w| - 1)
    decreases |w| - k
  {
    hide Height, Det, Step;
    if k < |w| - 1 {
      FallsToEnd(w, f, up, i, j, k + 1);
      StaysDown(w, f, up, i, j, k);
      HeightStep(w, i, k);
    }
  }

  lemma {:induction false} RisesOrFalls(w: seq<Pos>, f: nat, up: bool, i: nat, k: nat) returns (fell: bool)
    requires TwoChains(w, f, up) && i < f <= k <= |w| - 1
    ensures fell ==> exists j :: f <= j < k && Det(Step(w, i), Step(w, j)) < 0
    ensures !fell ==> Height(w, i, k) >= 0
  {
    hide Height, Det, Step;
    if k == f {
      RisesAhead(w, f, up, i, f);
      fell := false;
    } else {
      fell := RisesOrFalls(w, f, up, i, k - 1);
      if !fell {
        HeightStep(w, i, k - 1);
        fell := Det(Step(w, i), Step(w, k - 1)) < 0;
      }
    }
  }

  /** Every vertex is on or left of every step of the first chain. */
  lemma FirstChainLeft(w: seq<Pos>, f: nat, up: bool, i: nat, k: nat)
    requires TwoChains(w, f, up) && i < f && k <= |w| - 1
    ensures Height(w, i, k) >= 0
  {
    if k <= i {
      RisesBehind(w, f, up, i, k);
    } else if k <= f {
      RisesAhead(w, f, up, i, k);
    } else {
      RisesBehind(w, f, up, i, 0);
      assert Height(w, i, |w| - 1) == Height(w, i, 0);
      hide Height, Det, Step;
      var fell := RisesOrFalls(w, f, up, i, k);
      if fell {
        var j :| f <= j < k && Det(Step(w, i), Step(w, j)) < 0;
        FallsToEnd(w, f, up, i, j, k);
      }
    }
  }

  /** The same path started at the other end of its chains. */
  function Swapped(w: seq<Pos>, f: nat): seq<Pos>
    requires 0 < f < |w|
  {
    w[f..] + w[1..f + 1]
  }

  lemma SwappedAt(w: seq<Pos>, f: nat, k: nat)
    requires |w| >= 2 && 0 < f < |w| - 1 && w[0] == w[|w| - 1] && k <= |w| - 1
    ensures |Swapped(w, f)| == |w|
    ensures k >= f ==> Swapped(w, f)[k - f] == w[k]
    ensures k <= f ==> Swapped(w, f)[|w| - 1 - f + k] == w[k]
  {
  }

  lemma SwappedStep(w: seq<Pos>, f: nat, k: nat)
    requires |w| >= 2 && 0 < f < |w| - 1 && w[0] == w[|w| - 1] && k < |w| - 1
    ensures |Swapped(w, f)| == |w|
    ensures k >= f ==> Step(Swapped(w, f), k - f) == Step(w, k)
    ensures k < f ==> Step(Swapped(w, f), |w| - 1 - f + k) == Step(w, k)
  {
    SwappedAt(w, f, k);
    SwappedAt(w, f, k + 1);
  }

  lemma SwapChains(w: seq<Pos>, f: nat, up: bool)
    requires TwoChains(w, f, up)
    ensures TwoChains(Swapped(w, f), |w| - 1 - f, !up)
  {
    var v, n := Swapped(w, f), |w| - 1;
    SwappedAt(w, f, f);
    forall k | 0 <= k < n ensures |v| == n + 1 && Step(v, k) == Step(w, if k < n - f then k + f else k - (n - f)) {
      SwappedStep(w, f, if k < n - f then k + f else k - (n - f));
    }
    hide Swapped, Step, Det, Strictly;
    forall k | 0 <= k < n - 1 && k + 1 != n - f ensures Det(Step(v, k), Step(v, k + 1)) >= 0 {
      var j := if k < n - f then k + f else k - (n - f);
      assert Det(Step(w, j), Step(w, j + 1)) >= 0;
    }
  }

  /** Every vertex is on or left of every step. */
  lemma AllStepsLeft(w: seq<Pos>, f: nat, up: bool, i: nat, k: nat)
    requires TwoChains(w, f, up) && i < |w| - 1 && k <= |w| - 1
    ensures Height(w, i, k) >= 0
  {
    if i < f {
      FirstChainLeft(w, f, up, i, k);
    } else {
      var v, n := Swapped(w, f), |w| - 1;
      SwapChains(w, f, up);
      SwappedStep(w, f, i);
      SwappedAt(w, f, i);
      SwappedAt(w, f, k);
      var j := if k >= f then k - f else n - f + k;
      FirstChainLeft(v, n - f, !up, i - f, j);
    }
  }

  // ----- The two chains share no inner vertex

  lemma StepAhead(up: bool, p: Pos, q: Pos)
    ensures Strictly(up, To(p, q)) <==> Ahead(up, p, q)
  {
  }

  /** A chain never comes back to a vertex. */
  lemma {:induction false} ChainAhead(w: seq<Pos>, f: nat, up: bool, p: nat, q: nat)
    requires TwoChains(w, f, up) && p < q <= |w| - 1 && (q <= f || f <= p)
    ensures Ahead(if q <= f then up else !up, w[p], w[q])
  {
    var side := if q <= f then up else !up;
    assert Strictly(side, Step(w, q - 1));
    StepAhead(side, w[q - 1], w[q]);
    if p < q - 1 {
      ChainAhead(w, f, up, p, q - 1);
    }
  }

  /** Step i, and step j of the other chain opposite to it. */
  lemma OppositeOf(w: seq<Pos>, f: nat, up: bool, i: nat, j: nat, k: nat)
    requires TwoChains(w, f, up) && i < f <= j < |w| - 1 && f <= k < |w| - 1 && Det(Step(w, i), Step(w, j)) == 0
    ensures k <= j ==> Det(Step(w, i), Step(w, k)) >= 0
    ensures j <= k ==> Det(Step(w, i), Step(w, k)) <= 0
  {
    var d, a, b := Step(w, i), Step(w, j), Step(w, k);
    assert Strictly(up, d) && Strictly(!up, a) && Strictly(!up, b);
    FacesBack(up, a);
    FacesBack(up, b);
    if k <= j {
      ChainDet(w, f, up, k, j);
      hide Step, Det, TwoChains;
      DetOpp(b, a);
      DetOpp(d, a);
      DetOpp(Opp(a), d);
      DetOpp(d, b);
      DetOpp(Opp(b), d);
      TurnsComposeEither(up, Opp(b), Opp(a), d);
    }
    if j <= k {
      ChainDet(w, f, up, j, k);
      hide Step, Det, TwoChains;
      DetOpp(a, b);
      DetOpp(d, a);
      DetOpp(d, b);
      TurnsComposeEither(up, d, Opp(a), Opp(b));
    }
  }

  /** Where the chains touch, the step into the point is opposite to the step out of it on the other chain. */
  lemma TouchIsOpposite(w: seq<Pos>, f: nat, up: bool, p: nat, q: nat)
    requires TwoChains(w, f, up) && 0 < p < f < q < |w| - 1 && w[p] == w[q]
    ensures Det(Step(w, p), Step(w, q - 1)) == 0
  {
    FirstChainLeft(w, f, up, p, q - 1);
    FirstChainLeft(w, f, up, p, q + 1);
    HeightStep(w, p, q - 1);
    HeightStep(w, p, q);
    assert Height(w, p, q) == 0 by {
      assert To(w[p], w[q]) == To(w[p], w[p]);
      HeightStart(w, p);
    }
    hide Height;
    if Det(Step(w, p), Step(w, q - 1)) < 0 {
      StaysDown(w, f, up, p, q - 1, q);
      OppositeOf(w, f, up, p, q, q - 1);
    }
  }

  lemma {:induction false} FlatAhead(w: seq<Pos>, f: nat, up: bool, p: nat, q: nat, k: nat)
    requires TwoChains(w, f, up) && 0 < p < f < q < |w| - 1 && Height(w, p, q) == 0
    requires Det(Step(w, p), Step(w, q - 1)) == 0
    requires p <= k <= q
    ensures Height(w, p, k) == 0
    decreases q - k
  {
    FirstChainLeft(w, f, up, p, k);
    if k < q {
      FlatAhead(w, f, up, p, q, k + 1);
      HeightStep(w, p, k);
      if k < f {
        ChainDet(w, f, up, p, k);
      } else {
        OppositeOf(w, f, up, p, q - 1, k);
      }
      hide Height, Det, Step;
    }
  }

  lemma {:induction false} FlatToEnd(w: seq<Pos>, f: nat, up: bool, p: nat, q: nat, k: nat)
    requires TwoChains(w, f, up) && 0 < p < f < q < |w| - 1 && Height(w, p, q) == 0
    requires Det(Step(w, p), Step(w, q - 1)) == 0
    requires q <= k <= |w| - 1
    ensures Height(w, p, k) == 0
  {
    FirstChainLeft(w, f, up, p, k);
    if q < k {
      FlatToEnd(w, f, up, p, q, k - 1);
      HeightStep(w, p, k - 1);
      OppositeOf(w, f, up, p, q - 1, k - 1);
      hide Height, Det, Step;
    }
  }

  lemma {:induction false} FlatBehind(w: seq<Pos>, f: nat, up: bool, p: nat, k: nat)
    requires TwoChains(w, f, up) && p < f && Height(w, p, 0) == 0 && k <= p
    ensures Height(w, p, k) == 0
  {
    RisesBehind(w, f, up, p, k);
    hide Height, Det, Step;
    if k > 0 {
      FlatBehind(w, f, up, p, k - 1);
      RisesBehind(w, f, up, p, k - 1);
    }
  }

  /** If the chains touch between their ends, all vertices are on one line. */
  lemma TouchingIsFlat(w: seq<Pos>, f: nat, up: bool, p: nat, q: nat, k: nat)
    requires TwoChains(w, f, up) && 0 < p < f < q < |w| - 1 && w[p] == w[q] && k <= |w| - 1
    ensures Height(w, p, k) == 0
  {
    TouchIsOpposite(w, f, up, p, q);
    assert Height(w, p, q) == 0 by {
      assert To(w[p], w[q]) == To(w[p], w[p]);
      HeightStart(w, p);
    }
    if k >= q {
      FlatToEnd(w, f, up, p, q, k);
    } else if k >= p {
      FlatAhead(w, f, up, p, q, k);
    } else {
      FlatToEnd(w, f, up, p, q, |w| - 1);
      assert Height(w, p, 0) == Height(w, p, |w| - 1);
      FlatBehind(w, f, up, p, k);
    }
  }

  /** Two equal vertices, other than the two ends, put all vertices on the line of a step. */
  lemma RepeatIsFlat(w: seq<Pos>, f: nat, up: bool, p: nat, q: nat)
    requires TwoChains(w, f, up) && p < q < |w| - 1 && w[p] == w[q]
    ensures forall k :: 0 <= k < |w| ==> Height(w, p, k) == 0
  {
    if q <= f || f <= p {
      ChainAhead(w, f, up, p, q);
    } else if p == 0 {
      ChainAhead(w, f, up, q, |w| - 1);
    } else {
      hide Height, TwoChains;
      forall k | 0 <= k < |w| ensures Height(w, p, k) == 0 {
        TouchingIsFlat(w, f, up, p, q, k);
      }
    }
  }

  // ----- Rings

  function EdgeDir(ring: seq<Pos>, i: nat): Dir
    requires i < |ring|
  {
    To(ring[i], ring[Next(i, |ring|)])
  }

  /** A ring of three or more vertices, each different from the next, that turns right nowhere. */
  predicate Rightless(ring: seq<Pos>) {
    && |ring| >= 3
    && (forall i :: 0 <= i < |ring| ==> ring[i] != ring[Next(i, |ring|)])
    && (forall i :: 0 <= i < |ring| ==> Det(EdgeDir(ring, i), EdgeDir(ring, Next(i, |ring|))) >= 0)
  }

  /** Some vertex is off the line of edge i. */
  predicate OffLine(ring: seq<Pos>, i: nat)
    requires i < |ring|
  {
    exists k :: 0 <= k < |ring| && Cross(ring[i], ring[Next(i, |ring|)], ring[k]) != 0
  }

  /** No edge's line holds every vertex. */
  predicate Spread(ring: seq<Pos>) {
    forall i :: 0 <= i < |ring| ==> OffLine(ring, i)
  }

  /** No vertex twice, and every vertex on or left of every edge. */
  predicate Convex(ring: seq<Pos>) {
    && Distinct(ring)
    && forall i, k :: 0 <= i < |ring| && 0 <= k < |ring| ==> Cross(ring[i], ring[Next(i, |ring|)], ring[k]) >= 0
  }

  predicate Up(ring: seq<Pos>, i: nat) {
    i < |ring| && Forward(EdgeDir(ring, i))
  }

  /** Edge i goes forward and the next one backward. */
  predicate Peak(ring: seq<Pos>, i: nat) {
    i < |ring| && Up(ring, i) && !Up(ring, Next(i, |ring|))
  }

  predicate Flip(ring: seq<Pos>, i: nat) {
    i < |ring| && Up(ring, i) != Up(ring, Next(i, |ring|))
  }

  function Count(n: nat, f: nat -> bool): nat {
    if n == 0 then 0 else Count(n - 1, f) + if f(n - 1) then 1 else 0
  }

  function FlipAt(ring: seq<Pos>): nat -> bool {
    (i: nat) => Flip(ring, i)
  }

  function PeakAt(ring: seq<Pos>): nat -> bool {
    (i: nat) => Peak(ring, i)
  }

  /** How often the edges change direction round the ring. */
  function Flips(ring: seq<Pos>): nat {
    Count(|ring|, FlipAt(ring))
  }

  function Peaks(ring: seq<Pos>): nat {
    Count(|ring|, PeakAt(ring))
  }

  function One(b: bool): nat {
    if b then 1 else 0
  }

  lemma {:induction false} PeaksAndValleys(ring: seq<Pos>, k: nat)
    requires |ring| > 0 && k <= |ring|
    ensures Count(k, FlipAt(ring)) + One(Up(ring, 0)) ==
            2 * Count(k, PeakAt(ring)) + One(Up(ring, if k == |ring| then 0 else k))
  {
    hide Up;
    if k > 0 {
      PeaksAndValleys(ring, k - 1);
      assert Next(k - 1, |ring|) == if k == |ring| then 0 else k;
    }
  }

  /** Round a ring there are as many ways down as up. */
  lemma FlipsArePaired(ring: seq<Pos>)
    requires |ring| > 0
    ensures Flips(ring) == 2 * Peaks(ring)
  {
    PeaksAndValleys(ring, |ring|);
  }

  lemma {:induction false} CountPick(n: nat, f: nat -> bool) returns (i: nat)
    requires Count(n, f) > 0
    ensures i < n && f(i) && Count(i, f) == Count(n, f) - 1
  {
    if f(n - 1) {
      i := n - 1;
    } else {
      i := CountPick(n - 1, f);
    }
  }

  lemma {:induction false} CountGrows(m: nat, n: nat, f: nat -> bool)
    requires m <= n
    ensures Count(m, f) <= Count(n, f)
    ensures m < n && f(m) ==> Count(m, f) < Count(n, f)
  {
    if m < n {
      CountGrows(m, n - 1, f);
    }
  }

  // ----- A ring as a closed path

  /** Position k of the path that starts at vertex s. */
  function Turned(s: nat, k: nat, n: nat): (i: nat)
    requires s < n && k <= n
    ensures i < n
  {
    if s + k < n then s + k else s + k - n
  }

  function Path(ring: seq<Pos>, s: nat): seq<Pos>
    requires s < |ring|
  {
    ring[s..] + ring[..s] + [ring[s]]
  }

  lemma PathAt(ring: seq<Pos>, s: nat, k: nat)
    requires s < |ring| && k <= |ring|
    ensures |Path(ring, s)| == |ring| + 1 && Path(ring, s)[k] == ring[Turned(s, k, |ring|)]
  {
  }

  lemma PathStep(ring: seq<Pos>, s: nat, k: nat)
    requires s < |ring| && k < |ring|
    ensures |Path(ring, s)| == |ring| + 1 && Step(Path(ring, s), k) == EdgeDir(ring, Turned(s, k, |ring|))
    ensures Next(Turned(s, k, |ring|), |ring|) == Turned(s, k + 1, |ring|)
  {
    PathAt(ring, s, k);
    PathAt(ring, s, k + 1);
  }

  /** The position of a vertex on the path. */
  function PositionOf(s: nat, i: nat, n: nat): (k: nat)
    requires s < n && i < n
    ensures k < n && Turned(s, k, n) == i
  {
    if i >= s then i - s else i + n - s
  }

  lemma {:induction false} FirstUp(ring: seq<Pos>, s: nat, k: nat) returns (f: nat)
    requires s < |ring| && k < |ring| && Up(ring, Turned(s, k, |ring|))
    ensures f <= k && Up(ring, Turned(s, f, |ring|)) && forall j :: 0 <= j < f ==> !Up(ring, Turned(s, j, |ring|))
  {
    hide Up;
    if j :| 0 <= j < k && Up(ring, Turned(s, j, |ring|)) {
      f := FirstUp(ring, s, j);
    } else {
      f := k;
    }
  }

  /** After the only peak, edges go backward and then forward to the end. */
  lemma {:induction false} UpToEnd(ring: seq<Pos>, s: nat, f: nat, k: nat)
    requires s < |ring| && f <= k < |ring| && Up(ring, Turned(s, f, |ring|))
    requires forall j :: 0 <= j < |ring| - 1 ==> !Peak(ring, Turned(s, j, |ring|))
    ensures Up(ring, Turned(s, k, |ring|))
  {
    hide Up;
    if f < k {
      UpToEnd(ring, s, f, k - 1);
      PathStep(ring, s, k - 1);
      assert !Peak(ring, Turned(s, k - 1, |ring|));
    }
  }

  lemma DownIsStrict(ring: seq<Pos>, i: nat)
    requires Rightless(ring) && i < |ring|
    ensures Up(ring, i) <==> Strictly(true, EdgeDir(ring, i))
    ensures !Up(ring, i) <==> Strictly(false, EdgeDir(ring, i))
  {
    assert ring[i] != ring[Next(i, |ring|)];
  }

  lemma StepOfPath(ring: seq<Pos>, s: nat, k: nat)
    requires Rightless(ring) && s < |ring| && k < |ring|
    ensures |Path(ring, s)| == |ring| + 1
    ensures Strictly(true, Step(Path(ring, s), k)) <==> Up(ring, Turned(s, k, |ring|))
    ensures Strictly(false, Step(Path(ring, s), k)) <==> !Up(ring, Turned(s, k, |ring|))
    ensures k + 1 < |ring| ==> Det(Step(Path(ring, s), k), Step(Path(ring, s), k + 1)) >= 0
  {
    PathStep(ring, s, k);
    DownIsStrict(ring, Turned(s, k, |ring|));
    if k + 1 < |ring| {
      PathStep(ring, s, k + 1);
    }
  }

  lemma ChainsOfPath(ring: seq<Pos>, s: nat, f: nat)
    requires Rightless(ring) && s < |ring| && 0 < f < |ring|
    requires forall k :: 0 <= k < |ring| ==> (Up(ring, Turned(s, k, |ring|)) <==> f <= k)
    ensures TwoChains(Path(ring, s), f, false)
  {
    var w, n := Path(ring, s), |ring|;
    PathAt(ring, s, 0);
    PathAt(ring, s, n);
    hide Up, Path, Step, Det, Strictly, Rightless, Turned;
    forall k | 0 <= k < n
      ensures (k < f ==> Strictly(false, Step(w, k))) && (f <= k ==> Strictly(true, Step(w, k)))
      ensures k < n - 1 ==> Det(Step(w, k), Step(w, k + 1)) >= 0
    {
      StepOfPath(ring, s, k);
    }
  }

  /** A ring with one peak is two chains, started at the peak. */
  lemma OnePeakChains(ring: seq<Pos>, p: nat) returns (s: nat, f: nat)
    requires Rightless(ring) && Peak(ring, p) && forall j :: 0 <= j < |ring| && j != p ==> !Peak(ring, j)
    ensures s < |ring| && TwoChains(Path(ring, s), f, false)
  {
    var n := |ring|;
    s := Next(p, n);
    assert Turned(s, n - 1, n) == p && Turned(s, 0, n) == s;
    f := FirstUp(ring, s, n - 1);
    forall j | 0 <= j < n - 1 ensures !Peak(ring, Turned(s, j, n)) {
      assert Turned(s, j, n) != p;
    }
    hide Up, Path, Rightless;
    forall k | 0 <= k < n ensures Up(ring, Turned(s, k, n)) <==> f <= k {
      if f <= k {
        UpToEnd(ring, s, f, k);
      }
    }
    ChainsOfPath(ring, s, f);
  }

  // ----- Twice round means convex

  lemma EdgeHeight(ring: seq<Pos>, s: nat, i: nat, k: nat)
    requires s < |ring| && i < |ring| && k < |ring|
    ensures |Path(ring, s)| == |ring| + 1
    ensures Height(Path(ring, s), PositionOf(s, i, |ring|), PositionOf(s, k, |ring|)) ==
            Cross(ring[i], ring[Next(i, |ring|)], ring[k])
  {
    var n := |ring|;
    PathAt(ring, s, PositionOf(s, i, n));
    PathAt(ring, s, PositionOf(s, k, n));
    PathStep(ring, s, PositionOf(s, i, n));
    CrossIsDet(ring[i], ring[Next(i, n)], ring[k]);
  }

  lemma ChainsConvex(ring: seq<Pos>, s: nat, f: nat)
    requires Spread(ring) && s < |ring| && TwoChains(Path(ring, s), f, false)
    ensures Convex(ring)
  {
    var w, n := Path(ring, s), |ring|;
    hide TwoChains, Path, Height, Cross;
    forall i, k | 0 <= i < n && 0 <= k < n ensures Cross(ring[i], ring[Next(i, n)], ring[k]) >= 0 {
      EdgeHeight(ring, s, i, k);
      AllStepsLeft(w, f, false, PositionOf(s, i, n), PositionOf(s, k, n));
    }
    forall i, j | 0 <= i < j < n ensures ring[i] != ring[j] {
      if ring[i] == ring[j] {
        NoRepeat(ring, s, f, i, j);
      }
    }
  }

  lemma NoRepeat(ring: seq<Pos>, s: nat, f: nat, i: nat, j: nat)
    requires Spread(ring) && s < |ring| && TwoChains(Path(ring, s), f, false) && i < j < |ring|
    ensures ring[i] != ring[j]
  {
    var w, n := Path(ring, s), |ring|;
    var a, b := PositionOf(s, i, n), PositionOf(s, j, n);
    PathAt(ring, s, a);
    PathAt(ring, s, b);
    if ring[i] == ring[j] {
      var p, q, e := if a < b then a else b, if a < b then b else a, if a < b then i else j;
      hide TwoChains, Path, Height, Cross;
      RepeatIsFlat(w, f, false, p, q);
      assert OffLine(ring, e);
      var k :| 0 <= k < n && Cross(ring[e], ring[Next(e, n)], ring[k]) != 0;
      EdgeHeight(ring, s, e, k);
    }
  }

  // ----- Convex means twice round

  /** Parallel forward directions see every vector on the same side. */
  lemma SameSide(a: Dir, b: Dir, z: Dir)
    requires Forward(a) && Forward(b) && Det(a, b) == 0 && Det(a, z) > 0
    ensures Det(b, z) > 0
  {
    ThreeTerm(b, a, z);
    DetOpp(a, b);
    if a.x > 0 {
      if b.x == 0 {
        ProductSign(a.x, b.y);
      }
      ProductSign(b.x, Det(a, z));
      ProductSign(a.x, Det(b, z));
    } else {
      assert Det(a, b) == -(a.y * b.x);
      if b.x > 0 {
        ProductSign(a.y, b.x);
      }
      ProductSign(b.y, Det(a, z));
      ProductSign(a.y, Det(b, z));
    }
  }

  /** A peak below another vertex of a convex ring would be a spike. */
  lemma PeakIsGreatest(ring: seq<Pos>, i: nat, q: nat)
    requires Rightless(ring) && Spread(ring) && Convex(ring) && Peak(ring, i) && q < |ring|
    ensures !Before(ring[Next(i, |ring|)], ring[q])
  {
    var n := |ring|;
    var j := Next(i, n);
    var p := ring[j];
    if Before(p, ring[q]) {
      assert OffLine(ring, i);
      var k :| 0 <= k < n && Cross(ring[i], ring[j], ring[k]) != 0;
      var u, w, g, z := EdgeDir(ring, i), EdgeDir(ring, j), To(p, ring[q]), To(p, ring[k]);
      CrossIsDet(ring[i], p, ring[q]);
      CrossIsDet(ring[i], p, ring[k]);
      CrossIsDet(p, ring[Next(j, n)], ring[q]);
      CrossIsDet(p, ring[Next(j, n)], ring[k]);
      DownIsStrict(ring, j);
      assert Det(u, g) >= 0 && Det(u, z) > 0 && Det(w, g) >= 0 && Det(w, z) >= 0 && Det(u, w) >= 0;
      assert Forward(u) && Forward(Opp(w)) && Forward(g);
      hide Cross, Det, EdgeDir, To, Rightless, Convex, Spread;
      SpikeImpossible(u, w, g, z);
    }
  }

  lemma SpikeImpossible(u: Dir, w: Dir, g: Dir, z: Dir)
    requires Forward(u) && Forward(Opp(w)) && Forward(g)
    requires Det(u, g) >= 0 && Det(w, g) >= 0 && Det(u, w) >= 0 && Det(u, z) > 0
    ensures Det(w, z) < 0
  {
    var v := Opp(w);
    DetOpp(w, g);
    DetOpp(v, g);
    DetOpp(u, w);
    DetOpp(w, z);
    hide Det, Opp;
    TurnsCompose(u, g, v);
    SameSide(u, v, z);
  }

  lemma EdgeAhead(ring: seq<Pos>, up: bool, i: nat)
    requires Rightless(ring) && i < |ring| && (Up(ring, i) <==> up)
    ensures Ahead(up, ring[i], ring[Next(i, |ring|)])
  {
    DownIsStrict(ring, i);
    StepAhead(up, ring[i], ring[Next(i, |ring|)]);
  }

  lemma AheadTrans(up: bool, p: Pos, q: Pos, r: Pos)
    requires Ahead(up, p, q) && Ahead(up, q, r)
    ensures Ahead(up, p, r) && p != r
  {
  }

  /** With all edges going one way, vertices only move that way. */
  lemma {:induction false} MovesOn(ring: seq<Pos>, up: bool, k: nat)
    requires Rightless(ring) && 0 < k < |ring| && forall i :: 0 <= i < |ring| ==> (Up(ring, i) <==> up)
    ensures Ahead(up, ring[0], ring[k])
  {
    hide Rightless, Up, Ahead;
    EdgeAhead(ring, up, k - 1);
    if k > 1 {
      MovesOn(ring, up, k - 1);
      AheadTrans(up, ring[0], ring[k - 1], ring[k]);
    }
  }

  /** The edges of a ring do not all go one way. */
  lemma NotOneWay(ring: seq<Pos>, up: bool)
    requires Rightless(ring)
    ensures exists i :: 0 <= i < |ring| && Up(ring, i) != up
  {
    if forall i :: 0 <= i < |ring| ==> (Up(ring, i) <==> up) {
      var n := |ring|;
      assert n >= 3;
      hide Rightless, Up, Ahead;
      MovesOn(ring, up, n - 1);
      EdgeAhead(ring, up, n - 1);
      AheadTrans(up, ring[0], ring[n - 1], ring[0]);
    }
  }

  /** Without a peak, a forward edge is followed by forward edges only. */
  lemma {:induction false} StaysUp(ring: seq<Pos>, i: nat, k: nat)
    requires i <= k < |ring| && Up(ring, i) && forall j :: 0 <= j < |ring| ==> !Peak(ring, j)
    ensures Up(ring, k) && Up(ring, Next(k, |ring|))
  {
    hide Up;
    if i < k {
      StaysUp(ring, i, k - 1);
    }
    assert !Peak(ring, k);
  }

  lemma SomePeak(ring: seq<Pos>)
    requires Rightless(ring)
    ensures exists i :: 0 <= i < |ring| && Peak(ring, i)
  {
    if forall j :: 0 <= j < |ring| ==> !Peak(ring, j) {
      var n := |ring|;
      NotOneWay(ring, false);
      var i :| 0 <= i < n && Up(ring, i);
      hide Up, Rightless, Peak;
      StaysUp(ring, i, n - 1);
      forall k | 0 <= k < n ensures Up(ring, k) {
        StaysUp(ring, 0, k);
      }
      NotOneWay(ring, true);
    }
  }

  lemma BeforeTotal(p: Pos, q: Pos)
    ensures p == q || Before(p, q) || Before(q, p)
  {
  }

  lemma PeaksCoincide(ring: seq<Pos>, j: nat, k: nat)
    requires Rightless(ring) && Spread(ring) && Convex(ring) && Peak(ring, j) && Peak(ring, k)
    ensures j == k
  {
    var n := |ring|;
    PeakIsGreatest(ring, j, Next(k, n));
    PeakIsGreatest(ring, k, Next(j, n));
    BeforeTotal(ring[Next(j, n)], ring[Next(k, n)]);
    hide Rightless, Spread, Peak, Before;
    assert Distinct(ring);
    hide Convex;
    if Next(j, n) != Next(k, n) {
      assert false;
    }
  }

  lemma OnePeak(ring: seq<Pos>)
    requires Rightless(ring) && Spread(ring) && Convex(ring)
    ensures Peaks(ring) == 1
  {
    SomePeak(ring);
    var p, n := (PeakAt(ring)), |ring|;
    hide Rightless, Spread, Convex, Peak;
    var i :| 0 <= i < n && Peak(ring, i);
    CountGrows(i, n, p);
    var j := CountPick(n, p);
    if Count(j, p) > 0 {
      var k := CountPick(j, p);
      PeaksCoincide(ring, j, k);
    }
  }

  lemma OnlyPeak(ring: seq<Pos>) returns (i: nat)
    requires Peaks(ring) == 1
    ensures Peak(ring, i) && forall j :: 0 <= j < |ring| && j != i ==> !Peak(ring, j)
  {
    var p, n := (PeakAt(ring)), |ring|;
    i := CountPick(n, p);
    hide Peak;
    forall j | 0 <= j < n && j != i ensures !Peak(ring, j) {
      if Peak(ring, j) {
        if j < i {
          CountGrows(j, i, p);
        } else {
          CountGrows(i, j, p);
          CountGrows(j, n, p);
        }
      }
    }
  }

  /** A ring that turns right nowhere, and is not flat, is convex exactly when its edges change between forward and
      backward twice on the way round. */
  lemma ConvexExactly(ring: seq<Pos>)
    requires Rightless(ring) && Spread(ring)
    ensures Convex(ring) <==> Flips(ring) == 2
  {
    FlipsArePaired(ring);
    hide Rightless, Spread, Convex, Flips, Peaks;
    if Convex(ring) {
      OnePeak(ring);
    }
    if Flips(ring) == 2 {
      var p := OnlyPeak(ring);
      var s, f := OnePeakChains(ring, p);
      ChainsConvex(ring, s, f);
    }
  }
}
