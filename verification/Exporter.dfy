/** The exporter's side of the manifest: pin ids per footprint, pins per net, rule classes and names, and the
    document built from them. */
module Exporter {
  import opened Basics
  import opened PinNames
  import opened Manifest

  // ----- Pin ids

  /** The pads that reach the router, in order. */
  function Copper(ps: seq<RawPad>): (r: seq<RawPad>)
    ensures |r| <= |ps| && forall i :: 0 <= i < |r| ==> r[i].CopperPad?
  {
    if ps == [] then []
    else
      var last := ps[|ps| - 1];
      if last.CopperPad? then Copper(ps[..|ps| - 1]) + [last] else Copper(ps[..|ps| - 1])
  }

  /** How many of the pads carry this number. */
  function Seen(ps: seq<RawPad>, number: string): nat {
    if ps == [] then 0
    else
      var last := ps[|ps| - 1];
      Seen(ps[..|ps| - 1], number) + if last.CopperPad? && last.number == number then 1 else 0
  }

  function NetOf(p: RawPad): Option<string> {
    if p.CopperPad? && p.netName != "" then Some(p.netName) else None
  }

  function PadAt(ps: seq<RawPad>, i: nat): Pad
    requires i < |ps| && ps[i].CopperPad?
  {
    Pad(ps[i].number, PinId(ps[i].number, Seen(ps[..i], ps[i].number)), NetOf(ps[i]), ps[i].key)
  }

  /** Each copper pad with the pin id that its number and the equal numbers before it give it. */
  function Pads(ps: seq<RawPad>): (r: seq<Pad>)
    requires forall i :: 0 <= i < |ps| ==> ps[i].CopperPad?
    ensures |r| == |ps| && forall i :: 0 <= i < |r| ==> r[i] == PadAt(ps, i)
  {
    seq(|ps|, i requires 0 <= i < |ps| => PadAt(ps, i))
  }

  predicate IdsDistinct(ps: seq<Pad>) {
    forall i, j :: 0 <= i < j < |ps| ==> ps[i].pinId != ps[j].pinId
  }

  lemma SeenSnoc(ps: seq<RawPad>, p: RawPad, number: string)
    ensures Seen(ps + [p], number) == Seen(ps, number) + if p.CopperPad? && p.number == number then 1 else 0
  {
    assert (ps + [p])[..|ps|] == ps;
  }

  lemma PadsSnoc(ps: seq<RawPad>, p: RawPad)
    requires p.CopperPad? && forall i :: 0 <= i < |ps| ==> ps[i].CopperPad?
    ensures Pads(ps + [p]) == Pads(ps) + [Pad(p.number, PinId(p.number, Seen(ps, p.number)), NetOf(p), p.key)]
  {
    hide PinId, Seen;
    var more := ps + [p];
    PadsPrefix(ps, more);
    assert more[..|ps|] == ps;
    assert Pads(more)[|ps|] == PadAt(more, |ps|);
  }

  ghost predicate CountsAre(occurrences: map<string, nat>, ps: seq<RawPad>) {
    forall n :: (if n in occurrences then occurrences[n] else 0) == Seen(ps, n)
  }

  /** The ids of the pads so far, all different. */
  ghost predicate IdsAre(ids: set<string>, ps: seq<Pad>) {
    IdsDistinct(ps) && forall d :: d in ids <==> exists k :: 0 <= k < |ps| && ps[k].pinId == d
  }

  lemma IdKnown(ids: set<string>, ps: seq<Pad>, id: string)
    requires IdsAre(ids, ps)
    ensures IdsDistinct(ps)
    ensures id in ids ==> exists k :: 0 <= k < |ps| && ps[k].pinId == id
  {
  }

  lemma IdsGrow(ids: set<string>, ps: seq<Pad>, p: Pad)
    requires IdsAre(ids, ps)
    ensures p.pinId !in ids ==> IdsAre(ids + {p.pinId}, ps + [p])
  {
    var more := ps + [p];
    assert more[|ps|] == p;
    forall d | d in ids ensures exists k :: 0 <= k < |more| && more[k].pinId == d {
      var k :| 0 <= k < |ps| && ps[k].pinId == d;
      assert more[k].pinId == d;
    }
  }

  lemma NoCounts()
    ensures IdsAre({}, []) && CountsAre(map[], []) && Copper([]) == [] && Pads([]) == []
  {
  }

  lemma CountIs(occurrences: map<string, nat>, ps: seq<RawPad>, number: string)
    requires CountsAre(occurrences, ps)
    ensures Seen(ps, number) == if number in occurrences then occurrences[number] else 0
  {
  }

  lemma CountOne(occurrences: map<string, nat>, ps: seq<RawPad>, p: RawPad)
    requires CountsAre(occurrences, ps) && p.CopperPad?
    ensures CountsAre(occurrences[p.number := Seen(ps, p.number) + 1], ps + [p])
  {
    forall n ensures Seen(ps + [p], n) == Seen(ps, n) + if p.number == n then 1 else 0 {
      SeenSnoc(ps, p, n);
    }
  }

  /** The pad loop of `footprints`: pin ids by occurrence, refused exactly when two of them collide. */
  method AssignPins(raw: seq<RawPad>) returns (r: Option<seq<Pad>>)
    ensures r.Some? <==> IdsDistinct(Pads(Copper(raw)))
    ensures r.Some? ==> r.value == Pads(Copper(raw))
  {
    hide Seen, Pads, CountsAre, IdsAre;
    NoCounts();
    var pads: seq<Pad>, occurrences: map<string, nat>, ids: set<string> := [], map[], {};
    for i := 0 to |raw|
      invariant pads == Pads(Copper(raw[..i])) && IdsAre(ids, pads)
      invariant CountsAre(occurrences, Copper(raw[..i]))
    {
      var p := raw[i];
      ghost var before := Copper(raw[..i]);
      assert raw[..i + 1][..i] == raw[..i];
      assert Copper(raw[..i + 1]) == if p.CopperPad? then before + [p] else before;
      if p.CopperPad? {
        var seen := if p.number in occurrences then occurrences[p.number] else 0;
        CountIs(occurrences, before, p.number);
        var id := if p.number == "" then "@" + Decimal(seen)
                  else if seen == 0 then p.number else p.number + "@" + Decimal(seen);
        assert id == PinId(p.number, Seen(before, p.number));
        PadsSnoc(before, p);
        CountOne(occurrences, before, p);
        occurrences := occurrences[p.number := seen + 1];
        if id in ids {
          IdKnown(ids, pads, id);
          CollisionStays(raw, i, id);
          return None;
        }
        IdsGrow(ids, pads, Pad(p.number, id, NetOf(p), p.key));
        ids := ids + {id};
        pads := pads + [Pad(p.number, id, NetOf(p), p.key)];
      }
    }
    assert raw[..|raw|] == raw;
    IdKnown(ids, pads, "");
    r := Some(pads);
  }

  lemma {:induction false} CopperPrefix(raw: seq<RawPad>, i: nat)
    requires i <= |raw|
    ensures Copper(raw[..i]) <= Copper(raw)
  {
    if i == |raw| {
      assert raw[..i] == raw;
    } else {
      CopperPrefix(raw[..|raw| - 1], i);
      assert raw[..|raw| - 1][..i] == raw[..i];
    }
  }

  /** Pin ids do not depend on later pads. */
  lemma PadsPrefix(a: seq<RawPad>, b: seq<RawPad>)
    requires a <= b && forall i :: 0 <= i < |b| ==> b[i].CopperPad?
    ensures Pads(a) <= Pads(b)
  {
    forall i | 0 <= i < |a| ensures PadAt(a, i) == PadAt(b, i) {
      assert a[..i] == b[..i];
    }
  }

  lemma CollisionStays(raw: seq<RawPad>, i: nat, id: string)
    requires i < |raw| && raw[i].CopperPad? && var before := Copper(raw[..i]);
                                            id == PinId(raw[i].number, Seen(before, raw[i].number)) &&
                                            exists k :: 0 <= k < |before| && Pads(before)[k].pinId == id
    ensures !IdsDistinct(Pads(Copper(raw)))
  {
    hide PinId, Seen;
    var before := Copper(raw[..i]);
    assert raw[..i + 1][..i] == raw[..i];
    var now := Copper(raw[..i + 1]);
    assert now == before + [raw[i]];
    PadsSnoc(before, raw[i]);
    CopperPrefix(raw, i + 1);
    PadsPrefix(now, Copper(raw));
    var k :| 0 <= k < |before| && Pads(before)[k].pinId == id;
    var all := Pads(Copper(raw));
    assert all[k].pinId == id && all[|before|].pinId == id;
  }

  /** Later occurrences of a number count more. */
  lemma {:induction false} SeenGrows(ps: seq<RawPad>, i: nat, j: nat)
    requires i < j <= |ps| && ps[i].CopperPad?
    ensures Seen(ps[..i], ps[i].number) < Seen(ps[..j], ps[i].number)
  {
    assert ps[..j][..j - 1] == ps[..j - 1];
    if i < j - 1 {
      SeenGrows(ps, i, j - 1);
    }
  }

  /** Pad numbers without `@` never collide: a footprint is refused only over a number that imitates a pin id. */
  lemma PlainNumbersAccepted(raw: seq<RawPad>)
    requires forall i :: 0 <= i < |raw| && raw[i].CopperPad? ==> NoAt(raw[i].number)
    ensures IdsDistinct(Pads(Copper(raw)))
  {
    var ps := Copper(raw);
    CopperOf(raw);
    hide Seen, PinId, NoAt, Copper;
    forall i, j | 0 <= i < j < |ps| ensures Pads(ps)[i].pinId != Pads(ps)[j].pinId {
      assert ps[i] in ps && ps[j] in ps;
      SeenGrows(ps, i, j);
      if Pads(ps)[i].pinId == Pads(ps)[j].pinId {
        PinIdInjective(ps[i].number, Seen(ps[..i], ps[i].number), ps[j].number, Seen(ps[..j], ps[j].number));
      }
    }
  }

  lemma {:induction false} CopperOf(raw: seq<RawPad>)
    ensures forall p :: p in Copper(raw) ==> p in raw
  {
    if raw != [] {
      CopperOf(raw[..|raw| - 1]);
    }
  }

  lemma {:induction false} SeenBound(ps: seq<RawPad>, number: string)
    ensures Seen(ps, number) <= |ps|
  {
    if ps != [] {
      SeenBound(ps[..|ps| - 1], number);
    }
  }

  // ----- Footprints

  function FootprintOf(f: RawFootprint): Footprint {
    Footprint(f.reference, f.kiid, "konnect_image_" + f.reference, f.side, Pads(Copper(f.pads)))
  }

  /** Nothing to route and nothing to keep clear of. */
  predicate Inert(f: RawFootprint) {
    Copper(f.pads) == [] && Hole !in f.pads
  }

  function Kept(raw: seq<RawFootprint>): seq<Footprint> {
    if raw == [] then []
    else
      var last := raw[|raw| - 1];
      if Inert(last) then Kept(raw[..|raw| - 1]) else Kept(raw[..|raw| - 1]) + [FootprintOf(last)]
  }

  predicate Readable(raw: seq<RawFootprint>) {
    && (forall i :: 0 <= i < |raw| ==> raw[i].reference != "" && IdsDistinct(FootprintOf(raw[i]).pads))
    && (forall i, j :: 0 <= i < j < |raw| ==> raw[i].reference != raw[j].reference)
  }

  /** `footprints`: refused exactly for an empty or repeated reference or colliding pin ids. */
  method ReadFootprints(raw: seq<RawFootprint>) returns (r: Option<seq<Footprint>>)
    ensures r.Some? <==> Readable(raw)
    ensures r.Some? ==> r.value == Kept(raw)
  {
    hide Pads, Copper, IdsDistinct;
    var out: seq<Footprint>, references: set<string> := [], {};
    for i := 0 to |raw|
      invariant Readable(raw[..i]) && out == Kept(raw[..i])
      invariant forall n :: n in references <==> exists k :: 0 <= k < i && raw[k].reference == n
    {
      var f := raw[i];
      assert raw[..i + 1][..i] == raw[..i];
      if f.reference == "" || f.reference in references {
        return None;
      }
      references := references + {f.reference};
      var pads := AssignPins(f.pads);
      if pads.None? {
        return None;
      }
      if pads.value != [] || Hole in f.pads {
        out := out + [Footprint(f.reference, f.kiid, "konnect_image_" + f.reference, f.side, pads.value)];
      }
    }
    assert raw[..|raw|] == raw;
    r := Some(out);
  }

  /** A kept footprint is one of those read. */
  lemma {:induction false} KeptFrom(raw: seq<RawFootprint>, i: nat) returns (k: nat)
    requires i < |Kept(raw)|
    ensures k < |raw| && Kept(raw)[i] == FootprintOf(raw[k]) && !Inert(raw[k])
  {
    var front := raw[..|raw| - 1];
    if i < |Kept(front)| {
      k := KeptFrom(front, i);
    } else {
      k := |raw| - 1;
    }
  }

  /** The order of kept footprints is the order read. */
  lemma {:induction false} KeptApart(raw: seq<RawFootprint>, i: nat, j: nat)
    requires Readable(raw) && i < j < |Kept(raw)|
    ensures Kept(raw)[i].reference != Kept(raw)[j].reference
  {
    hide IdsDistinct, Pads, Inert;
    var n := |raw| - 1;
    var front := raw[..n];
    if j < |Kept(front)| {
      KeptApart(front, i, j);
    } else {
      var k := KeptFrom(front, i);
      assert front[k] == raw[k];
    }
  }

  // ----- Pins per net

  function DsnPin(f: Footprint, p: Pad): string {
    f.reference + "-" + p.pinId
  }

  ghost predicate OnNet(fs: seq<Footprint>, n: string, pin: string) {
    exists i, j :: 0 <= i < |fs| && 0 <= j < |fs[i].pads| && fs[i].pads[j].net == Some(n) &&
                   DsnPin(fs[i], fs[i].pads[j]) == pin
  }

  /** The pins of each net, over all pads of all footprints; a net is there when it has a pin. */
  ghost predicate PinsPerNet(m: map<string, set<string>>, fs: seq<Footprint>) {
    && (forall n :: n in m ==> m[n] != {})
    && (forall n, pin :: n in m && pin in m[n] ==> OnNet(fs, n, pin))
    && (forall i, j :: 0 <= i < |fs| && 0 <= j < |fs[i].pads| && fs[i].pads[j].net.Some? ==>
                         fs[i].pads[j].net.value in m && DsnPin(fs[i], fs[i].pads[j]) in m[fs[i].pads[j].net.value])
  }

  /** One of the first count pads of f puts this pin on net n. */
  predicate PadOn(f: Footprint, count: nat, n: string, pin: string)
    requires count <= |f.pads|
  {
    exists k :: 0 <= k < count && f.pads[k].net == Some(n) && DsnPin(f, f.pads[k]) == pin
  }

  method AddPins(f: Footprint, given: map<string, set<string>>) returns (m: map<string, set<string>>)
    ensures forall n :: n in m <==> n in given || exists j :: 0 <= j < |f.pads| && f.pads[j].net == Some(n)
    ensures forall n, pin :: n in m ==> (pin in m[n] <==> (n in given && pin in given[n]) || PadOn(f, |f.pads|, n, pin))
  {
    hide DsnPin;
    m := given;
    for j := 0 to |f.pads|
      invariant forall n :: n in m <==> n in given || exists k :: 0 <= k < j && f.pads[k].net == Some(n)
      invariant forall n, pin :: n in m ==> (pin in m[n] <==> (n in given && pin in given[n]) || PadOn(f, j, n, pin))
    {
      var p := f.pads[j];
      if p.net.Some? {
        var net, pin := p.net.value, DsnPin(f, p);
        m := m[net := (if net in m then m[net] else {}) + {pin}];
      }
    }
  }

  method CollectNets(fs: seq<Footprint>) returns (m: map<string, set<string>>)
    ensures PinsPerNet(m, fs)
  {
    m := map[];
    assert PinsPerNet(m, fs[..0]);
    hide PinsPerNet, PadOn;
    for i := 0 to |fs|
      invariant PinsPerNet(m, fs[..i])
    {
      ghost var before := m;
      m := AddPins(fs[i], m);
      assert fs[..i + 1] == fs[..i] + [fs[i]];
      PinsGrow(before, fs[..i], fs[i], m);
    }
    assert fs[..|fs|] == fs;
  }

  lemma PinsGrow(before: map<string, set<string>>, fs: seq<Footprint>, f: Footprint, m: map<string, set<string>>)
    requires PinsPerNet(before, fs)
    requires forall n :: n in m <==> n in before || exists j :: 0 <= j < |f.pads| && f.pads[j].net == Some(n)
    requires forall n, pin :: n in m ==>
                                (pin in m[n] <==> (n in before && pin in before[n]) || PadOn(f, |f.pads|, n, pin))
    ensures PinsPerNet(m, fs + [f])
  {
    hide DsnPin;
    var more := fs + [f];
    forall n | n in m ensures m[n] != {} {
      if n in before {
        var pin :| pin in before[n];
        assert pin in m[n];
      } else {
        var j :| 0 <= j < |f.pads| && f.pads[j].net == Some(n);
        assert DsnPin(f, f.pads[j]) in m[n];
      }
    }
    forall n, pin | n in m && pin in m[n] ensures OnNet(more, n, pin) {
      if n in before && pin in before[n] {
        assert OnNet(fs, n, pin);
        var i, j :| 0 <= i < |fs| && 0 <= j < |fs[i].pads| && fs[i].pads[j].net == Some(n) &&
                    DsnPin(fs[i], fs[i].pads[j]) == pin;
        assert more[i] == fs[i];
      } else {
        assert more[|fs|] == f;
      }
    }
  }

  // ----- Numbered names

  /** A strict total order on keys, as an ordered map or set keeps them. */
  ghost predicate StrictTotal<K(!new)>(less: (K, K) -> bool) {
    && (forall a :: !less(a, a))
    && (forall a, b, c :: less(a, b) && less(b, c) ==> less(a, c))
    && (forall a, b :: a == b || less(a, b) || less(b, a))
  }

  /** The place of k among the keys in order. */
  function Rank<K(==)>(keys: set<K>, less: (K, K) -> bool, k: K): nat {
    |(set j | j in keys && less(j, k))|
  }

  lemma RankIs<K(!new)>(keys: set<K>, less: (K, K) -> bool, k: K, before: set<K>)
    requires forall j :: j in before <==> j in keys && less(j, k)
    ensures Rank(keys, less, k) == |before|
  {
    assert before == set j | j in keys && less(j, k);
  }

  lemma RankGrows<K(!new)>(keys: set<K>, less: (K, K) -> bool, a: K, b: K)
    requires StrictTotal(less) && a in keys && less(a, b)
    ensures Rank(keys, less, a) < Rank(keys, less, b)
  {
    var low, high := set j | j in keys && less(j, a), set j | j in keys && less(j, b);
    assert a !in low && low + {a} <= high;
    SubsetSize(low + {a}, high);
  }

  /** The names an enumeration in key order hands out, counted from one. */
  function NameOf<K(==)>(prefix: string, keys: set<K>, less: (K, K) -> bool, k: K): string {
    prefix + Padded(Rank(keys, less, k) + 1)
  }

  /** Different keys get different names. */
  lemma NamesDiffer<K(!new)>(prefix: string, keys: set<K>, less: (K, K) -> bool, a: K, b: K)
    requires StrictTotal(less) && a in keys && b in keys
    requires NameOf(prefix, keys, less, a) == NameOf(prefix, keys, less, b)
    ensures a == b
  {
    var i, j := Rank(keys, less, a) + 1, Rank(keys, less, b) + 1;
    assert (prefix + Padded(i))[|prefix|..] == Padded(i) && (prefix + Padded(j))[|prefix|..] == Padded(j);
    PaddedInjective(i, j);
    if less(a, b) {
      RankGrows(keys, less, a, b);
    } else if less(b, a) {
      RankGrows(keys, less, b, a);
    }
  }

  /** The prefix and a number from one to n. */
  ghost predicate Counted(prefix: string, n: nat, x: string) {
    exists i: nat :: 1 <= i <= n && x == prefix + Padded(i)
  }

  lemma {:induction false} Last<K(!new)>(keys: set<K>, less: (K, K) -> bool) returns (last: K)
    requires StrictTotal(less) && keys != {}
    ensures last in keys && forall k :: k in keys && k != last ==> less(k, last)
  {
    last :| last in keys;
    if keys != {last} {
      var other := Last(keys - {last}, less);
      if less(last, other) {
        last := other;
      }
    }
  }

  /** Every place below the number of keys is taken. */
  lemma {:induction false} PlaceTaken<K(!new)>(keys: set<K>, less: (K, K) -> bool, r: nat) returns (k: K)
    requires StrictTotal(less) && r < |keys|
    ensures k in keys && Rank(keys, less, k) == r
  {
    var last := Last(keys, less);
    if r == |keys| - 1 {
      k := last;
      assert (set j | j in keys && less(j, last)) == keys - {last};
    } else {
      k := PlaceTaken(keys - {last}, less, r);
      assert (set j | j in keys && less(j, k)) == (set j | j in keys - {last} && less(j, k));
    }
  }

  lemma RankBelow<K(!new)>(keys: set<K>, less: (K, K) -> bool, k: K)
    requires StrictTotal(less) && k in keys
    ensures Rank(keys, less, k) < |keys|
  {
    var low := set j | j in keys && less(j, k);
    assert k !in low && low + {k} <= keys;
    SubsetSize(low + {k}, keys);
  }

  /** The names are the prefix with the numbers from one to the number of keys. */
  lemma NamesCount<K(!new)>(prefix: string, keys: set<K>, less: (K, K) -> bool, x: string)
    requires StrictTotal(less)
    ensures (exists k :: k in keys && NameOf(prefix, keys, less, k) == x) <==> Counted(prefix, |keys|, x)
  {
    hide Padded, StrictTotal, Rank;
    if exists k :: k in keys && NameOf(prefix, keys, less, k) == x {
      var k :| k in keys && NameOf(prefix, keys, less, k) == x;
      RankBelow(keys, less, k);
    }
    if Counted(prefix, |keys|, x) {
      var i: nat :| 1 <= i <= |keys| && x == prefix + Padded(i);
      var k := PlaceTaken(keys, less, i - 1);
    }
  }
}
