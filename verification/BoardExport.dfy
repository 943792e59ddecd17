/** The whole export: layers, footprints, nets, rule classes and vias of a board become one manifest, which the
    importer accepts exactly when every exported footprint has a uuid. */
module BoardExport {
  import opened Basics
  import opened PinNames
  import opened Manifest
  import opened Exporter
  import opened ExportTold
  import Outline
  import opened LayerStack

  // ----- Orders

  datatype RuleKey = RuleKey(track: int, clearance: int, diameter: int, drill: int)

  type Size = (int, int)

  predicate LessRule(a: RuleKey, b: RuleKey) {
    if a.track != b.track then a.track < b.track
    else if a.clearance != b.clearance then a.clearance < b.clearance
    else if a.diameter != b.diameter then a.diameter < b.diameter
    else a.drill < b.drill
  }

  function RuleOrder(): (RuleKey, RuleKey) -> bool {
    (a: RuleKey, b: RuleKey) => LessRule(a, b)
  }

  function PadOrder(): (PadKey, PadKey) -> bool {
    (a: PadKey, b: PadKey) => a.shape < b.shape || (a.shape == b.shape && a.geometry < b.geometry)
  }

  function SizeOrder(): (Size, Size) -> bool {
    (a: Size, b: Size) => a.0 < b.0 || (a.0 == b.0 && a.1 < b.1)
  }

  lemma Orders()
    ensures StrictTotal(RuleOrder()) && StrictTotal(PadOrder()) && StrictTotal(SizeOrder())
  {
  }

  // ----- Rule classes

  predicate RuleOk(k: RuleKey) {
    k.track > 0 && k.clearance >= 0 && k.diameter > 0 && k.drill > 0 && k.drill < k.diameter
  }

  function RulesOf(nets: set<string>, rules: map<string, RuleKey>): set<RuleKey>
    requires nets <= rules.Keys
  {
    set n | n in nets :: rules[n]
  }

  function ClassOf(nets: set<string>, rules: map<string, RuleKey>, n: string): string
    requires nets <= rules.Keys && n in nets
  {
    NameOf("konnect_class_", RulesOf(nets, rules), RuleOrder(), rules[n])
  }

  /** Nets share a class exactly when their rules are the same. */
  lemma ClassesFollowRules(nets: set<string>, rules: map<string, RuleKey>, a: string, b: string)
    requires nets <= rules.Keys && a in nets && b in nets
    ensures ClassOf(nets, rules, a) == ClassOf(nets, rules, b) <==> rules[a] == rules[b]
  {
    Orders();
    hide NameOf, StrictTotal;
    if ClassOf(nets, rules, a) == ClassOf(nets, rules, b) {
      NamesDiffer("konnect_class_", RulesOf(nets, rules), RuleOrder(), rules[a], rules[b]);
    }
  }

  datatype Classes = Classes(groups: map<RuleKey, set<string>>, classOf: map<string, string>)

  /** Nets by rule. */
  method GroupNets(nets: set<string>, rules: map<string, RuleKey>) returns (r: Option<map<RuleKey, set<string>>>)
    ensures r.Some? <==> forall n :: n in nets ==> n in rules && RuleOk(rules[n])
    ensures r.Some? ==> forall k :: k in r.value <==> exists n :: n in nets && rules[n] == k
    ensures r.Some? ==> forall k, n :: k in r.value ==> (n in r.value[k] <==> n in nets && rules[n] == k)
  {
    hide RuleOk;
    var groups: map<RuleKey, set<string>> := map[];
    var todo := nets;
    ghost var done: set<string> := {};
    while todo != {}
      invariant todo <= nets && done == nets - todo && forall n :: n in done ==> n in rules && RuleOk(rules[n])
      invariant forall n :: n in done ==> rules[n] in groups
      invariant forall k :: k in groups ==> exists n :: n in done && rules[n] == k
      invariant forall k, n :: k in groups ==> (n in groups[k] <==> n in done && rules[n] == k)
      decreases todo
    {
      var n :| n in todo;
      if n !in rules || !RuleOk(rules[n]) {
        return None;
      }
      var k := rules[n];
      ghost var was, before := done, groups;
      groups := groups[k := (if k in groups then groups[k] else {}) + {n}];
      todo := todo - {n};
      done := done + {n};
      forall q | q in groups ensures exists m :: m in done && rules[m] == q {
        if q in before {
          var m :| m in was && rules[m] == q;
          assert m in done;
        } else {
          assert n in done;
        }
      }
    }
    assert done == nets;
    r := Some(groups);
  }

  /** `normalize_rules`: one class per different rule, numbered in rule order. */
  method NormalizeRules(nets: set<string>, rules: map<string, RuleKey>) returns (r: Option<Classes>)
    ensures r.Some? <==>
            forall n :: n in nets ==>
                          && n in rules && rules[n].track > 0 && rules[n].clearance >= 0
                          && 0 < rules[n].drill < rules[n].diameter
    ensures r.Some? ==>
              && nets <= rules.Keys && r.value.groups.Keys == RulesOf(nets, rules) && r.value.classOf.Keys == nets
              && forall n :: n in nets ==> r.value.classOf[n] == ClassOf(nets, rules, n)
  {
    hide NameOf;
    var grouped := GroupNets(nets, rules);
    if grouped.None? {
      return None;
    }
    var groups := grouped.value;
    var keys := RulesOf(nets, rules);
    assert groups.Keys == keys;
    var classOf: map<string, string> := map[];
    var todo := groups.Keys;
    while todo != {}
      invariant todo <= groups.Keys
      invariant forall n :: n in classOf <==> n in nets && rules[n] !in todo
      invariant forall n :: n in classOf ==> classOf[n] == ClassOf(nets, rules, n)
      decreases todo
    {
      var k :| k in todo;
      var name := NameOf("konnect_class_", keys, RuleOrder(), k);
      var named := map n | n in groups[k] :: name;
      classOf := classOf + named;
      todo := todo - {k};
    }
    r := Some(Classes(groups, classOf));
  }

  // ----- Padstack names

  function PadName(keys: set<PadKey>, k: PadKey): string {
    NameOf("konnect_pad_", keys, PadOrder(), k)
  }

  function ViaName(keys: set<RuleKey>, k: RuleKey): string {
    NameOf("konnect_via_", keys, RuleOrder(), k)
  }

  function FixedName(keys: set<Size>, k: Size): string {
    NameOf("konnect_fixed_via_", keys, SizeOrder(), k)
  }

  /** Where the three kinds of padstack name differ. */
  lemma KindsOfName(pads: set<PadKey>, p: PadKey, vias: set<RuleKey>, v: RuleKey, fixed: set<Size>, f: Size)
    ensures |PadName(pads, p)| > 8 && PadName(pads, p)[8] == 'p'
    ensures |ViaName(vias, v)| > 8 && ViaName(vias, v)[8] == 'v'
    ensures |FixedName(fixed, f)| > 8 && FixedName(fixed, f)[8] == 'f'
  {
    hide Rank, Padded;
    assert "konnect_pad_"[8] == 'p' && "konnect_via_"[8] == 'v' && "konnect_fixed_via_"[8] == 'f';
  }

  /** s lists the names of the keys, one each. */
  ghost predicate ListsNames<K(!new)>(s: seq<string>, keys: set<K>, name: K -> string) {
    Distinct(s) && forall x :: x in s <==> exists k :: k in keys && name(k) == x
  }

  method NamesOfAll<K(==, !new)>(keys: set<K>, name: K -> string) returns (s: seq<string>)
    requires forall a, b :: a in keys && b in keys && name(a) == name(b) ==> a == b
    ensures ListsNames(s, keys, name)
  {
    s := [];
    var todo := keys;
    while todo != {}
      invariant todo <= keys && ListsNames(s, keys - todo, name)
      decreases todo
    {
      var k :| k in todo;
      NamesGrow(s, keys, todo, k, name);
      s := s + [name(k)];
      todo := todo - {k};
    }
    assert keys - todo == keys;
  }

  lemma NamesGrow<K(!new)>(s: seq<string>, keys: set<K>, todo: set<K>, k: K, name: K -> string)
    requires forall a, b :: a in keys && b in keys && name(a) == name(b) ==> a == b
    requires todo <= keys && k in todo && ListsNames(s, keys - todo, name)
    ensures ListsNames(s + [name(k)], keys - (todo - {k}), name)
  {
    assert name(k) !in s;
    assert keys - (todo - {k}) == (keys - todo) + {k};
    var more := s + [name(k)];
    forall x ensures x in more <==> exists j :: j in (keys - todo) + {k} && name(j) == x {
      assert x in more <==> x in s || x == name(k);
    }
  }

  /** s has one name for each pad geometry, each rule and each size off its rule, and no other. */
  ghost predicate AllPadstacks(s: seq<string>, pads: set<PadKey>, vias: set<RuleKey>, fixed: set<Size>) {
    && Distinct(s) && "" !in s
    && (forall x :: x in s ==> || (exists k :: k in pads && PadName(pads, k) == x)
                               || (exists k :: k in vias && ViaName(vias, k) == x)
                               || (exists k :: k in fixed && FixedName(fixed, k) == x))
    && (forall k :: k in pads ==> PadName(pads, k) in s) && (forall k :: k in vias ==> ViaName(vias, k) in s)
    && (forall k :: k in fixed ==> FixedName(fixed, k) in s)
  }

  /** The padstacks of the manifest: pads, vias and fixed vias, no name twice. */
  method ListPadstacks(pads: set<PadKey>, vias: set<RuleKey>, fixed: set<Size>) returns (s: seq<string>)
    ensures AllPadstacks(s, pads, vias, fixed) && PadstacksCounted(s, |pads|, |vias|, |fixed|)
  {
    hide NameOf, StrictTotal, PadstacksCounted;
    Orders();
    forall a, b | a in pads && b in pads && PadName(pads, a) == PadName(pads, b) ensures a == b {
      NamesDiffer("konnect_pad_", pads, PadOrder(), a, b);
    }
    var p := NamesOfAll(pads, k => PadName(pads, k));
    forall a, b | a in vias && b in vias && ViaName(vias, a) == ViaName(vias, b) ensures a == b {
      NamesDiffer("konnect_via_", vias, RuleOrder(), a, b);
    }
    var v := NamesOfAll(vias, k => ViaName(vias, k));
    forall a, b | a in fixed && b in fixed && FixedName(fixed, a) == FixedName(fixed, b) ensures a == b {
      NamesDiffer("konnect_fixed_via_", fixed, SizeOrder(), a, b);
    }
    var f := NamesOfAll(fixed, k => FixedName(fixed, k));
    KindsApart(pads, vias, fixed, p, v, f);
    s := p + v + f;
    NamesAreCounted(s, pads, vias, fixed);
  }

  /** The names of each kind are numbered from one, and there is no other. */
  ghost predicate PadstacksCounted(s: seq<string>, pads: nat, vias: nat, fixed: nat) {
    && Distinct(s)
    && forall x :: x in s <==> || Counted("konnect_pad_", pads, x) || Counted("konnect_via_", vias, x)
                               || Counted("konnect_fixed_via_", fixed, x)
  }

  lemma NamesAreCounted(s: seq<string>, pads: set<PadKey>, vias: set<RuleKey>, fixed: set<Size>)
    requires AllPadstacks(s, pads, vias, fixed)
    ensures PadstacksCounted(s, |pads|, |vias|, |fixed|)
  {
    Orders();
    hide NameOf, StrictTotal, Counted;
    forall x ensures x in s <==> || Counted("konnect_pad_", |pads|, x) || Counted("konnect_via_", |vias|, x)
                                 || Counted("konnect_fixed_via_", |fixed|, x) {
      NamesCount("konnect_pad_", pads, PadOrder(), x);
      NamesCount("konnect_via_", vias, RuleOrder(), x);
      NamesCount("konnect_fixed_via_", fixed, SizeOrder(), x);
    }
  }

  predicate Marked(s: seq<string>, c: char) {
    Distinct(s) && forall x :: x in s ==> |x| > 8 && x[8] == c
  }

  lemma MarkedApart(p: seq<string>, v: seq<string>, f: seq<string>)
    requires Marked(p, 'p') && Marked(v, 'v') && Marked(f, 'f')
    ensures Distinct(p + v + f) && "" !in p + v + f
  {
    var s := p + v + f;
    forall i, j | 0 <= i < j < |s| ensures s[i] != s[j] {
      assert s[i] in (if i < |p| then p else if i < |p| + |v| then v else f);
      assert s[j] in (if j < |p| then p else if j < |p| + |v| then v else f);
    }
  }

  lemma KindsApart(pads: set<PadKey>, vias: set<RuleKey>, fixed: set<Size>, p: seq<string>, v: seq<string>,
                   f: seq<string>)
    requires ListsNames(p, pads, k => PadName(pads, k)) && ListsNames(v, vias, k => ViaName(vias, k))
    requires ListsNames(f, fixed, k => FixedName(fixed, k))
    ensures AllPadstacks(p + v + f, pads, vias, fixed)
  {
    hide PadName, ViaName, FixedName;
    forall x | x in p ensures |x| > 8 && x[8] == 'p' {
      var k :| k in pads && PadName(pads, k) == x;
      KindsOfName(pads, k, {}, RuleKey(0, 0, 0, 0), {}, (0, 0));
    }
    forall x | x in v ensures |x| > 8 && x[8] == 'v' {
      var k :| k in vias && ViaName(vias, k) == x;
      KindsOfName({}, PadKey(0, 0), vias, k, {}, (0, 0));
    }
    forall x | x in f ensures |x| > 8 && x[8] == 'f' {
      var k :| k in fixed && FixedName(fixed, k) == x;
      KindsOfName({}, PadKey(0, 0), {}, RuleKey(0, 0, 0, 0), fixed, k);
    }
    MarkedApart(p, v, f);
    forall k | k in pads ensures PadName(pads, k) in p + v + f {
      assert PadName(pads, k) in p;
    }
    forall k | k in vias ensures ViaName(vias, k) in p + v + f {
      assert ViaName(vias, k) in v;
    }
    forall k | k in fixed ensures FixedName(fixed, k) in p + v + f {
      assert FixedName(fixed, k) in f;
    }
  }

  // ----- The document

  datatype Via = Via(net: string, diameter: int, drill: int)

  datatype Board = Board(
    layerRows: seq<Row>, edgeCuts: seq<Outline.Line>, footprints: seq<RawFootprint>, planeNets: seq<string>,
    rules: map<string, RuleKey>, vias: seq<Via>, customHash: Option<string>)

  /** A pad count fits a `usize`. */
  predicate Countable(fs: seq<RawFootprint>) {
    forall i :: 0 <= i < |fs| ==> |fs[i].pads| <= USIZE_MAX
  }

  function PadKeys(fs: seq<Footprint>): set<PadKey> {
    set i, j | 0 <= i < |fs| && 0 <= j < |fs[i].pads| :: fs[i].pads[j].key
  }

  function Shapes(fs: seq<Footprint>): set<nat> {
    set k | k in PadKeys(fs) :: k.shape
  }

  function PinOf(f: Footprint, p: Pad, keys: set<PadKey>): Pin {
    Pin(p.number, DsnPin(f, p), p.net, PadName(keys, p.key))
  }

  function ComponentOf(f: Footprint, keys: set<PadKey>): Component {
    Component(f.reference, f.kiid, f.imageName, Some(0), "front", if f.side.Front? then "front" else "back",
              seq(|f.pads|, j requires 0 <= j < |f.pads| => PinOf(f, f.pads[j], keys)))
  }

  function ComponentsOf(fs: seq<Footprint>, keys: set<PadKey>): (r: seq<Component>)
    ensures |r| == |fs| && forall i :: 0 <= i < |fs| ==> r[i] == ComponentOf(fs[i], keys)
  {
    seq(|fs|, i requires 0 <= i < |fs| => ComponentOf(fs[i], keys))
  }

  function LayersOf(rows: seq<Row>): (r: seq<Layer>)
    ensures |r| == |rows| && forall i :: 0 <= i < |rows| ==> r[i] == Layer(rows[i].name, rows[i].name, i)
  {
    seq(|rows|, i requires 0 <= i < |rows| => Layer(rows[i].name, rows[i].name, i))
  }

  function SidesOf(fs: seq<Footprint>): SideSummary {
    var front := exists f :: f in fs && f.side == Front;
    var back := exists f :: f in fs && f.side == Back;
    if front && back then OnBoth else if back then OnBack else OnFront
  }

  /** The nets with their pins and classes. */
  ghost predicate NetsAre(ns: seq<Net>, pins: map<string, set<string>>, classOf: map<string, string>) {
    && (forall i :: 0 <= i < |ns| ==> ns[i].name in pins && ns[i].name in classOf)
    && (forall i :: 0 <= i < |ns| ==> ns[i] == Net(ns[i].name, pins[ns[i].name], classOf[ns[i].name]))
    && (forall i, j :: 0 <= i < j < |ns| ==> ns[i].name != ns[j].name)
    && (forall n :: n in pins <==> n in NetNames(ns))
  }

  method ListNets(pins: map<string, set<string>>, classOf: map<string, string>) returns (ns: seq<Net>)
    requires pins.Keys == classOf.Keys
    ensures NetsAre(ns, pins, classOf)
  {
    ns := [];
    var todo := pins.Keys;
    while todo != {}
      invariant todo <= pins.Keys
      invariant forall i :: 0 <= i < |ns| ==>
                              ns[i].name in pins && ns[i] == Net(ns[i].name, pins[ns[i].name], classOf[ns[i].name])
      invariant forall i, j :: 0 <= i < j < |ns| ==> ns[i].name != ns[j].name
      invariant NetNames(ns) == pins.Keys - todo
      decreases todo
    {
      var n :| n in todo;
      ghost var was := ns;
      assert n !in NetNames(was);
      ns := ns + [Net(n, pins[n], classOf[n])];
      todo := todo - {n};
      NetNamesSnoc(was, ns[|was|]);
    }
  }

  lemma NetNamesSnoc(ns: seq<Net>, n: Net)
    ensures NetNames(ns + [n]) == NetNames(ns) + {n.name}
  {
    var more := ns + [n];
    assert more[|ns|] == n;
    forall x | x in NetNames(ns) ensures x in NetNames(more) {
      var i :| 0 <= i < |ns| && ns[i].name == x;
      assert more[i].name == x;
    }
  }

  /** The sizes of the vias whose diameter or drill is not that of their net's rule. */
  function OffRuleSizes(vias: seq<Via>, rules: map<string, RuleKey>): set<Size> {
    set k | 0 <= k < |vias| && vias[k].net in rules &&
            (vias[k].diameter, vias[k].drill) != (rules[vias[k].net].diameter, rules[vias[k].net].drill)
      :: (vias[k].diameter, vias[k].drill)
  }

  lemma OffRuleMore(vias: seq<Via>, i: nat, rules: map<string, RuleKey>)
    requires i < |vias| && vias[i].net in rules
    ensures var v, rule := vias[i], rules[vias[i].net];
            OffRuleSizes(vias[..i + 1], rules) ==
            OffRuleSizes(vias[..i], rules) +
            (if v.diameter != rule.diameter || v.drill != rule.drill then {(v.diameter, v.drill)} else {})
  {
    var front, more := vias[..i], vias[..i + 1];
    assert more == front + [vias[i]] && more[i] == vias[i];
    forall s | s in OffRuleSizes(front, rules) ensures s in OffRuleSizes(more, rules) {
      var k :| 0 <= k < i && front[k].net in rules && s == (front[k].diameter, front[k].drill) &&
               s != (rules[front[k].net].diameter, rules[front[k].net].drill);
      assert more[k] == front[k];
    }
  }

  /** `fixed_via_padstacks`: the sizes of locked vias that differ from their class. */
  method FixedSizes(vias: seq<Via>, rules: map<string, RuleKey>, nets: set<string>) returns (r: Option<set<Size>>)
    requires nets <= rules.Keys
    ensures r.Some? <==> forall v :: v in vias ==> v.net in nets
    ensures r.Some? ==> r.value == OffRuleSizes(vias, rules)
  {
    var sizes: set<Size> := {};
    for i := 0 to |vias|
      invariant forall k :: 0 <= k < i ==> vias[k].net in nets
      invariant sizes == OffRuleSizes(vias[..i], rules)
    {
      var v := vias[i];
      if v.net !in nets {
        return None;
      }
      OffRuleMore(vias, i, rules);
      if v.diameter != rules[v.net].diameter || v.drill != rules[v.net].drill {
        sizes := sizes + {(v.diameter, v.drill)};
      }
    }
    assert vias[..|vias|] == vias;
    r := Some(sizes);
  }

  // ----- Acceptance

  /** Every pin id of a kept footprint reads back as its pad number. */
  lemma IdReadsBack(f: RawFootprint, j: nat)
    requires |f.pads| <= USIZE_MAX && j < |FootprintOf(f).pads|
    ensures var p := FootprintOf(f).pads[j]; Numbered(p.pinId, p.number) && (p.net.Some? ==> p.net.value != "")
  {
    hide Numbered, PinId;
    var ps := Copper(f.pads);
    SeenBound(ps[..j], ps[j].number);
    PinIdReadsBack(ps[j].number, Seen(ps[..j], ps[j].number));
  }

  lemma PinAccepted(f: Footprint, p: Pad, keys: set<PadKey>, nets: set<string>, padstacks: set<string>)
    requires Numbered(p.pinId, p.number) && PadName(keys, p.key) in padstacks && (p.net.Some? ==> p.net.value in nets)
    ensures PinOk(PinOf(f, p, keys), f.reference, nets, padstacks)
  {
    hide PadName, Numbered;
    var dsn, prefix := DsnPin(f, p), f.reference + "-";
    assert prefix <= dsn && dsn[|prefix|..] == p.pinId;
  }

  lemma PinsApart(f: Footprint, keys: set<PadKey>, i: nat, j: nat)
    requires IdsDistinct(f.pads) && i < j < |f.pads|
    ensures ComponentOf(f, keys).pins[i].dsnPin != ComponentOf(f, keys).pins[j].dsnPin
  {
    hide PadName;
    var prefix := f.reference + "-";
    assert DsnPin(f, f.pads[i])[|prefix|..] == f.pads[i].pinId && DsnPin(f, f.pads[j])[|prefix|..] == f.pads[j].pinId;
  }

  lemma ComponentAccepted(raw: seq<RawFootprint>, i: nat, keys: set<PadKey>, pins: map<string, set<string>>,
                          padstacks: set<string>)
    requires Readable(raw) && Countable(raw) && i < |Kept(raw)| && keys == PadKeys(Kept(raw))
    requires PinsPerNet(pins, Kept(raw))
    requires forall k :: k in keys ==> PadName(keys, k) in padstacks
    ensures var c := ComponentOf(Kept(raw)[i], keys);
            && PinsOk(c, pins.Keys, padstacks) && c.reference != "" && c.imageName != "" && c.kiid == Kept(raw)[i].kiid
            && (PlacementOk(c) <==> c.kiid != "")
  {
    var fs := Kept(raw);
    var k := KeptFrom(raw, i);
    var f := fs[i];
    var c := ComponentOf(f, keys);
    assert IdsDistinct(f.pads);
    forall j | 0 <= j < |f.pads| ensures PinOk(c.pins[j], c.reference, pins.Keys, padstacks) {
      hide PadName, Numbered, FootprintOf, Inert, Kept, OnNet, PinOk;
      IdReadsBack(raw[k], j);
      assert fs[i].pads[j].key in keys;
      PinAccepted(f, f.pads[j], keys, pins.Keys, padstacks);
    }
    forall a, b | 0 <= a < b < |c.pins| ensures c.pins[a].dsnPin != c.pins[b].dsnPin {
      PinsApart(f, keys, a, b);
    }
  }

  lemma NetsAccepted(raw: seq<RawFootprint>, pins: map<string, set<string>>, classOf: map<string, string>, ns: seq<Net>)
    requires Countable(raw) && PinsPerNet(pins, Kept(raw)) && NetsAre(ns, pins, classOf)
    requires forall n :: n in classOf ==> classOf[n] != ""
    ensures NetNamesOk(ns) && NetsComplete(ns) && NetNames(ns) == pins.Keys
  {
    var fs := Kept(raw);
    hide Kept;
    forall i | 0 <= i < |ns| ensures ns[i].name != "" && ns[i].className != "" && ns[i].pins != {} {
      var n := ns[i].name;
      var pin :| pin in pins[n];
      assert OnNet(fs, n, pin);
      var k, j :| 0 <= k < |fs| && 0 <= j < |fs[k].pads| && fs[k].pads[j].net == Some(n) &&
                  DsnPin(fs[k], fs[k].pads[j]) == pin;
      var r := KeptFrom(raw, k);
      IdReadsBack(raw[r], j);
    }
  }

  lemma LayersAccepted(rows: seq<Row>)
    requires Stacked(rows)
    ensures LayersOk(LayersOf(rows))
  {
    StackedDistinct(rows);
  }

  predicate AllIdentified(cs: seq<Component>) {
    forall i :: 0 <= i < |cs| ==> cs[i].kiid != ""
  }

  /** `build_manifest`'s document for these parts. */
  function DocumentOf(b: Board, layers: seq<Row>, fs: seq<Footprint>, ns: seq<Net>, padstacks: seq<string>): Document {
    Document(
      2,
      Profile(|layers|, SidesOf(fs), Shapes(fs), b.planeNets != [], b.customHash.Some?, b.customHash,
              true, "one closed loop of straight Edge.Cuts lines"),
      LayersOf(layers), ComponentsOf(fs, PadKeys(fs)), ns, padstacks)
  }

  lemma ComponentsAccepted(raw: seq<RawFootprint>, pins: map<string, set<string>>, padstacks: set<string>)
    requires Readable(raw) && Countable(raw) && PinsPerNet(pins, Kept(raw))
    requires var keys := PadKeys(Kept(raw)); forall k :: k in keys ==> PadName(keys, k) in padstacks
    ensures var cs := ComponentsOf(Kept(raw), PadKeys(Kept(raw)));
            ComponentsOk(cs, pins.Keys, padstacks) <==> AllIdentified(cs)
  {
    var fs, keys := Kept(raw), PadKeys(Kept(raw));
    var cs := ComponentsOf(fs, keys);
    hide PadName, PadKeys, PinsPerNet, PinsOk, Readable, Kept;
    forall i | 0 <= i < |cs| ensures PinsOk(cs[i], pins.Keys, padstacks) && (PlacementOk(cs[i]) <==> cs[i].kiid != "") {
      ComponentAccepted(raw, i, keys, pins, padstacks);
    }
    forall i, j | 0 <= i < j < |cs| ensures cs[i].reference != cs[j].reference {
      KeptApart(raw, i, j);
    }
  }

  /** The document is accepted exactly when every component has a uuid. */
  lemma DocumentAccepted(b: Board, layers: seq<Row>, pins: map<string, set<string>>, classOf: map<string, string>,
                         ns: seq<Net>,
                         padstacks: seq<string>, vias: set<RuleKey>, fixed: set<Size>)
    requires Stacked(layers) && |layers| >= 2 && Readable(b.footprints) && Countable(b.footprints)
    requires PinsPerNet(pins, Kept(b.footprints)) && pins != map[] && NetsAre(ns, pins, classOf)
    requires forall n :: n in classOf ==> classOf[n] != ""
    requires AllPadstacks(padstacks, PadKeys(Kept(b.footprints)), vias, fixed)
    ensures var d := DocumentOf(b, layers, Kept(b.footprints), ns, padstacks);
            ProfileOk(d) && (RelationsOk(d) <==> AllIdentified(d.components))
  {
    var fs := Kept(b.footprints);
    var d := DocumentOf(b, layers, fs, ns, padstacks);
    NetsAccepted(b.footprints, pins, classOf, ns);
    LayersAccepted(layers);
    ComponentsAccepted(b.footprints, pins, Elements(padstacks));
    SomeShape(fs, pins);
    hide Stacked, Readable, Countable, Kept, NetsAre, LayersOk, ComponentsOk, AllIdentified, NetNamesOk, NetsComplete,
      Distinct,
      PinsPerNet, SidesOf;
  }

  lemma SomeShape(fs: seq<Footprint>, pins: map<string, set<string>>)
    requires PinsPerNet(pins, fs) && pins != map[]
    ensures Shapes(fs) != {}
  {
    var n :| n in pins;
    var pin :| pin in pins[n];
    assert OnNet(fs, n, pin);
    var i, j :| 0 <= i < |fs| && 0 <= j < |fs[i].pads| && fs[i].pads[j].net == Some(n) &&
                DsnPin(fs[i], fs[i].pads[j]) == pin;
    assert fs[i].pads[j].key in PadKeys(fs);
    assert fs[i].pads[j].key.shape in Shapes(fs);
  }

  /** The nets are those of the pads, each with exactly its pins and the class of its rule. */
  ghost predicate NetsDescribe(ns: seq<Net>, fs: seq<Footprint>, rules: map<string, RuleKey>) {
    && (forall i, pin :: 0 <= i < |ns| ==> (pin in ns[i].pins <==> OnNet(fs, ns[i].name, pin)))
    && (forall n, pin :: OnNet(fs, n, pin) ==> n in NetNames(ns))
    && NetNames(ns) <= rules.Keys
    && (forall i :: 0 <= i < |ns| ==>
                      ns[i].name in NetNames(ns) && ns[i].className == ClassOf(NetNames(ns), rules, ns[i].name))
  }

  lemma NetsDescribed(fs: seq<Footprint>, pins: map<string, set<string>>, classOf: map<string, string>,
                      rules: map<string, RuleKey>, ns: seq<Net>)
    requires PinsPerNet(pins, fs) && NetsAre(ns, pins, classOf) && pins.Keys <= rules.Keys
    requires classOf.Keys == pins.Keys && forall n :: n in classOf ==> classOf[n] == ClassOf(pins.Keys, rules, n)
    ensures NetsDescribe(ns, fs, rules)
  {
    hide ClassOf, DsnPin;
    assert NetNames(ns) == pins.Keys;
    forall n, pin | OnNet(fs, n, pin) ensures n in pins && pin in pins[n] {
      var i, j :| 0 <= i < |fs| && 0 <= j < |fs[i].pads| && fs[i].pads[j].net == Some(n) &&
                  DsnPin(fs[i], fs[i].pads[j]) == pin;
    }
  }

  lemma ClassNamed(nets: set<string>, rules: map<string, RuleKey>, n: string)
    requires nets <= rules.Keys && n in nets
    ensures ClassOf(nets, rules, n) != ""
  {
    hide Rank, Padded;
    assert |"konnect_class_"| == 14;
  }

  /** Some pad of these footprints is on the net. */
  ghost predicate UsedNet(fs: seq<Footprint>, n: string) {
    exists pin :: OnNet(fs, n, pin)
  }

  lemma UsedIsListed(pins: map<string, set<string>>, fs: seq<Footprint>)
    requires PinsPerNet(pins, fs)
    ensures forall n :: n in pins <==> UsedNet(fs, n)
  {
    hide DsnPin;
    forall n ensures n in pins <==> UsedNet(fs, n) {
      if n in pins {
        var pin :| pin in pins[n];
        assert OnNet(fs, n, pin);
      }
      if UsedNet(fs, n) {
        var pin :| OnNet(fs, n, pin);
        var i, j :| 0 <= i < |fs| && 0 <= j < |fs[i].pads| && fs[i].pads[j].net == Some(n) &&
                    DsnPin(fs[i], fs[i].pads[j]) == pin;
        assert fs[i].pads[j].net.value in pins;
      }
    }
  }

  // ----- What the document says of the board

  ghost predicate ProfileTells(p: Profile, b: Board) {
    && SideTells(p.side, b.footprints) && (forall n :: n in p.padShapes <==> HasShape(b.footprints, n))
    && (p.zones <==> b.planeNets != []) && p.customHash == b.customHash && (p.customRules <==> b.customHash.Some?)
    && p.boardOriented
  }

  /** The kept rows in stack order, numbered from the front. */
  ghost predicate LayersTell(ls: seq<Layer>, rows: seq<Row>) {
    exists kept: seq<Row> :: && Stacked(kept) && (forall n :: n in kept <==> KeptRow(rows, n)) && |ls| == |kept|
                             && forall i :: 0 <= i < |ls| ==> ls[i] == Layer(kept[i].name, kept[i].name, i)
  }

  /** The different rules of the nets, and those of them before k by track, clearance, diameter and drill. */
  function UsedRules(ns: seq<Net>, rules: map<string, RuleKey>): set<RuleKey> {
    set i | 0 <= i < |ns| && ns[i].name in rules :: rules[ns[i].name]
  }

  function RulesBelow(ns: seq<Net>, rules: map<string, RuleKey>, k: RuleKey): set<RuleKey> {
    set r | r in UsedRules(ns, rules) &&
            (r.track < k.track || (r.track == k.track &&
              (r.clearance < k.clearance || (r.clearance == k.clearance &&
                (r.diameter < k.diameter || (r.diameter == k.diameter && r.drill < k.drill))))))
  }

  /** Each net once, with exactly its pins; nets share a class exactly when their rules are the same, and the classes
      are numbered in the order of the rules. */
  ghost predicate NetsTell(ns: seq<Net>, cs: seq<Component>, rules: map<string, RuleKey>) {
    && (forall i :: 0 <= i < |ns| ==> ns[i].name in rules)
    && (forall i, j :: 0 <= i < j < |ns| ==> ns[i].name != ns[j].name)
    && (forall i, pin :: 0 <= i < |ns| ==> (pin in ns[i].pins <==> PinOnNet(cs, ns[i].name, pin)))
    && (forall n, pin :: PinOnNet(cs, n, pin) ==> exists i :: 0 <= i < |ns| && ns[i].name == n)
    && (forall i, j :: 0 <= i < |ns| && 0 <= j < |ns| ==>
                         (ns[i].className == ns[j].className <==> rules[ns[i].name] == rules[ns[j].name]))
    && (forall i :: 0 <= i < |ns| ==>
                      ns[i].className == "konnect_class_" + Padded(|RulesBelow(ns, rules, rules[ns[i].name])| + 1))
  }

  /** The whole document, told from the board. */
  ghost predicate DocumentTells(d: Document, b: Board) {
    && d.schema == 2 && ProfileTells(d.profile, b) && d.profile.copperLayers == |d.layers|
    && LayersTell(d.layers, b.layerRows) && PadstacksTell(d.components, b.footprints)
    && NetsTell(d.nets, d.components, b.rules)
    && PadstacksCounted(d.padstacks, |Geometries(b.footprints)|, |UsedRules(d.nets, b.rules)|,
                        |OffRuleSizes(b.vias, b.rules)|)
  }

  lemma ComponentTold(f: RawFootprint, keys: set<PadKey>)
    ensures ComponentTells(ComponentOf(FootprintOf(f), keys), f)
  {
    var c := ComponentOf(FootprintOf(f), keys);
    CopperCount(f.pads);
    hide PadName, Copper, Places;
    forall k | 0 <= k < |f.pads| && f.pads[k].CopperPad?
      ensures Before(f.pads, k, IsCopper()) < |c.pins| && PinTells(c.pins[Before(f.pads, k, IsCopper())], f, k)
    {
      PinTold(f, keys, k);
    }
  }

  lemma PinTold(f: RawFootprint, keys: set<PadKey>, k: nat)
    requires k < |f.pads| && f.pads[k].CopperPad?
    ensures var c, j := ComponentOf(FootprintOf(f), keys), Before(f.pads, k, IsCopper());
            j < |c.pins| && PinTells(c.pins[j], f, k) && c.pins[j].padstack == PadName(keys, f.pads[k].key)
  {
    PadTold(f, k);
    hide PadName, Copper, Places, FootprintOf, Seen;
    var m := Before(f.pads, k, CopperNumbered(f.pads[k].number));
    var number := f.pads[k].number;
    assert number == "" ==> PinId(number, m) == number + "@" + Decimal(m);
  }

  lemma ComponentsTold(raw: seq<RawFootprint>)
    ensures ComponentsTell(ComponentsOf(Kept(raw), PadKeys(Kept(raw))), raw)
  {
    var keys := PadKeys(Kept(raw));
    var cs := ComponentsOf(Kept(raw), keys);
    KeptCount(raw);
    hide Kept, ComponentOf, ComponentTells, PadKeys, Places, HasParts;
    forall i | 0 <= i < |raw| && HasParts()(raw[i])
      ensures Before(raw, i, HasParts()) < |cs| && ComponentTells(cs[Before(raw, i, HasParts())], raw[i])
    {
      KeptPlace(raw, i);
      ComponentTold(raw[i], keys);
    }
  }

  /** The pad at its place: its padstack is named by its key, which is one of the keys. */
  lemma PadstackTold(raw: seq<RawFootprint>, i: nat, k: nat)
    requires CopperAt(raw, i, k)
    ensures var fs := Kept(raw);
            var cs := ComponentsOf(fs, PadKeys(fs));
            && ComponentsTell(cs, raw) && raw[i].pads[k].key in PadKeys(fs)
            && PadstackOf(cs, raw, i, k) == PadName(PadKeys(fs), raw[i].pads[k].key)
  {
    var fs := Kept(raw);
    ComponentsTold(raw);
    KeptPlace(raw, i);
    PadTold(raw[i], k);
    PinTold(raw[i], PadKeys(fs), k);
    hide Kept, FootprintOf, ComponentOf, ComponentsTell, PadName, Places, HasParts;
    assert fs[Before(raw, i, HasParts())].pads[Before(raw[i].pads, k, IsCopper())].key in PadKeys(fs);
  }

  lemma NamedByKey(keys: set<PadKey>, a: PadKey, b: PadKey)
    requires a in keys && b in keys
    ensures PadName(keys, a) == PadName(keys, b) <==> a == b
  {
    Orders();
    hide NameOf, StrictTotal;
    if PadName(keys, a) == PadName(keys, b) {
      NamesDiffer("konnect_pad_", keys, PadOrder(), a, b);
    }
  }

  lemma PadstacksTold(raw: seq<RawFootprint>)
    ensures PadstacksTell(ComponentsOf(Kept(raw), PadKeys(Kept(raw))), raw)
  {
    ComponentsTold(raw);
    var keys := PadKeys(Kept(raw));
    var cs := ComponentsOf(Kept(raw), keys);
    hide Kept, PadKeys, ComponentsOf, ComponentsTell, PadName, PadstackOf, HasParts;
    forall i: nat, k: nat, j: nat, l: nat | CopperAt(raw, i, k) && CopperAt(raw, j, l)
      ensures PadstackOf(cs, raw, i, k) == PadstackOf(cs, raw, j, l) <==> raw[i].pads[k].key == raw[j].pads[l].key
    {
      PadstackTold(raw, i, k);
      PadstackTold(raw, j, l);
      NamedByKey(keys, raw[i].pads[k].key, raw[j].pads[l].key);
    }
  }

  lemma SideTold(raw: seq<RawFootprint>, side: Side)
    ensures (exists f :: f in Kept(raw) && f.side == side) <==>
            exists i :: 0 <= i < |raw| && HasParts()(raw[i]) && raw[i].side == side
  {
    var fs := Kept(raw);
    hide Kept, HasParts, Copper, Pads, Places;
    if exists f :: f in fs && f.side == side {
      var f :| f in fs && f.side == side;
      var j :| 0 <= j < |fs| && fs[j] == f;
      var i := KeptFrom(raw, j);
      PartsAreKept(raw[i]);
    }
    if exists i :: 0 <= i < |raw| && HasParts()(raw[i]) && raw[i].side == side {
      var i :| 0 <= i < |raw| && HasParts()(raw[i]) && raw[i].side == side;
      KeptPlace(raw, i);
      assert fs[Before(raw, i, HasParts())] in fs;
    }
  }

  lemma SidesTold(raw: seq<RawFootprint>)
    ensures SideTells(SidesOf(Kept(raw)), raw)
  {
    SideTold(raw, Front);
    SideTold(raw, Back);
    hide Kept, HasParts;
  }

  /** A copper pad makes its footprint one of those kept. */
  lemma CopperIsPart(f: RawFootprint, k: nat)
    requires k < |f.pads| && f.pads[k].CopperPad?
    ensures HasParts()(f)
  {
    assert f.pads[k] in f.pads;
  }

  lemma {:induction false} PadFromRaw(ps: seq<RawPad>, j: nat) returns (k: nat)
    requires j < |Copper(ps)|
    ensures k < |ps| && ps[k] == Copper(ps)[j]
  {
    CopperOf(ps);
    assert Copper(ps)[j] in Copper(ps);
    k :| 0 <= k < |ps| && ps[k] == Copper(ps)[j];
  }

  lemma ShapesTold(raw: seq<RawFootprint>)
    ensures forall n :: n in Shapes(Kept(raw)) <==> HasShape(raw, n)
  {
    var fs := Kept(raw);
    forall n ensures n in Shapes(fs) <==> HasShape(raw, n) {
      if n in Shapes(fs) {
        var i, j :| 0 <= i < |fs| && 0 <= j < |fs[i].pads| && fs[i].pads[j].key.shape == n;
        var r := KeptFrom(raw, i);
        var k := PadFromRaw(raw[r].pads, j);
      }
      if HasShape(raw, n) {
        var i, k :| 0 <= i < |raw| && 0 <= k < |raw[i].pads| && raw[i].pads[k].CopperPad? &&
            raw[i].pads[k].key.shape == n;
        CopperIsPart(raw[i], k);
        PadstackTold(raw, i, k);
      }
    }
  }

  lemma PinsAgree(fs: seq<Footprint>, keys: set<PadKey>, n: string, pin: string)
    ensures PinOnNet(ComponentsOf(fs, keys), n, pin) <==> OnNet(fs, n, pin)
  {
    hide PadName;
    var cs := ComponentsOf(fs, keys);
    if OnNet(fs, n, pin) {
      var i, j :| 0 <= i < |fs| && 0 <= j < |fs[i].pads| && fs[i].pads[j].net == Some(n) &&
                  DsnPin(fs[i], fs[i].pads[j]) == pin;
      assert cs[i].pins[j].net == Some(n);
    }
  }

  lemma NetsTold(fs: seq<Footprint>, pins: map<string, set<string>>, classOf: map<string, string>,
                 rules: map<string, RuleKey>, ns: seq<Net>)
    requires PinsPerNet(pins, fs) && NetsAre(ns, pins, classOf) && pins.Keys <= rules.Keys
    requires classOf.Keys == pins.Keys && forall n :: n in classOf ==> classOf[n] == ClassOf(pins.Keys, rules, n)
    ensures NetsTell(ns, ComponentsOf(fs, PadKeys(fs)), rules)
  {
    NetsDescribed(fs, pins, classOf, rules, ns);
    NetsApart(ns, pins, classOf);
    ClassesTold(ns, pins, classOf, rules);
    var cs := ComponentsOf(fs, PadKeys(fs));
    hide NetsAre, ClassOf, PinsPerNet, OnNet, PinOnNet, PadKeys, ComponentsOf;
    PinsTold(fs, PadKeys(fs), ns, rules);
    ClassesNumbered(ns, pins, classOf, rules);
  }

  lemma RulesUsed(ns: seq<Net>, pins: map<string, set<string>>, classOf: map<string, string>,
                  rules: map<string, RuleKey>)
    requires NetsAre(ns, pins, classOf) && pins.Keys <= rules.Keys
    ensures UsedRules(ns, rules) == RulesOf(pins.Keys, rules)
  {
    forall n | n in pins ensures rules[n] in UsedRules(ns, rules) {
      var i :| 0 <= i < |ns| && ns[i].name == n;
    }
  }

  lemma ClassNumber(ns: seq<Net>, nets: set<string>, rules: map<string, RuleKey>, n: string)
    requires nets <= rules.Keys && n in nets && UsedRules(ns, rules) == RulesOf(nets, rules)
    ensures ClassOf(nets, rules, n) == "konnect_class_" + Padded(|RulesBelow(ns, rules, rules[n])| + 1)
  {
    RankIs(RulesOf(nets, rules), RuleOrder(), rules[n], RulesBelow(ns, rules, rules[n]));
    hide Padded, Rank;
  }

  lemma ClassesNumbered(ns: seq<Net>, pins: map<string, set<string>>, classOf: map<string, string>,
                        rules: map<string, RuleKey>)
    requires NetsAre(ns, pins, classOf) && pins.Keys <= rules.Keys
    requires classOf.Keys == pins.Keys && forall n :: n in classOf ==> classOf[n] == ClassOf(pins.Keys, rules, n)
    ensures forall i :: 0 <= i < |ns| ==>
                          && ns[i].name in rules
                          && ns[i].className
                             == "konnect_class_" + Padded(|RulesBelow(ns, rules, rules[ns[i].name])| + 1)
  {
    RulesUsed(ns, pins, classOf, rules);
    hide UsedRules, RulesOf, RulesBelow, ClassOf;
    forall i | 0 <= i < |ns|
      ensures && ns[i].name in rules
              && ns[i].className == "konnect_class_" + Padded(|RulesBelow(ns, rules, rules[ns[i].name])| + 1)
    {
      ClassNumber(ns, pins.Keys, rules, ns[i].name);
    }
  }

  lemma GeometriesTold(raw: seq<RawFootprint>)
    ensures PadKeys(Kept(raw)) == Geometries(raw)
  {
    var fs := Kept(raw);
    forall g | g in PadKeys(fs) ensures g in Geometries(raw) {
      var i, j :| 0 <= i < |fs| && 0 <= j < |fs[i].pads| && fs[i].pads[j].key == g;
      var r := KeptFrom(raw, i);
      var k := PadFromRaw(raw[r].pads, j);
    }
    forall g | g in Geometries(raw) ensures g in PadKeys(fs) {
      var i, k :| 0 <= i < |raw| && 0 <= k < |raw[i].pads| && raw[i].pads[k].CopperPad? && raw[i].pads[k].key == g;
      CopperIsPart(raw[i], k);
      PadstackTold(raw, i, k);
    }
  }

  lemma PinsTold(fs: seq<Footprint>, keys: set<PadKey>, ns: seq<Net>, rules: map<string, RuleKey>)
    requires NetsDescribe(ns, fs, rules)
    ensures var cs := ComponentsOf(fs, keys);
            && (forall i, pin :: 0 <= i < |ns| ==> (pin in ns[i].pins <==> PinOnNet(cs, ns[i].name, pin)))
            && (forall n, pin :: PinOnNet(cs, n, pin) ==> exists i :: 0 <= i < |ns| && ns[i].name == n)
  {
    var cs := ComponentsOf(fs, keys);
    hide ClassOf, OnNet, PinOnNet, ComponentsOf;
    forall i, pin | 0 <= i < |ns| ensures pin in ns[i].pins <==> PinOnNet(cs, ns[i].name, pin) {
      PinsAgree(fs, keys, ns[i].name, pin);
    }
    forall n, pin | PinOnNet(cs, n, pin) ensures exists i :: 0 <= i < |ns| && ns[i].name == n {
      PinsAgree(fs, keys, n, pin);
      assert n in NetNames(ns);
    }
  }

  lemma NetsApart(ns: seq<Net>, pins: map<string, set<string>>, classOf: map<string, string>)
    requires NetsAre(ns, pins, classOf)
    ensures forall i :: 0 <= i < |ns| ==> ns[i].name in pins
    ensures forall i, j :: 0 <= i < j < |ns| ==> ns[i].name != ns[j].name
    ensures forall n :: n in NetNames(ns) <==> n in pins
  {
  }

  lemma ClassesTold(ns: seq<Net>, pins: map<string, set<string>>, classOf: map<string, string>,
                    rules: map<string, RuleKey>)
    requires NetsAre(ns, pins, classOf) && pins.Keys <= rules.Keys
    requires classOf.Keys == pins.Keys && forall n :: n in classOf ==> classOf[n] == ClassOf(pins.Keys, rules, n)
    ensures forall i, j :: 0 <= i < |ns| && 0 <= j < |ns| ==>
                             (ns[i].className == ns[j].className <==> rules[ns[i].name] == rules[ns[j].name])
  {
    forall i, j | 0 <= i < |ns| && 0 <= j < |ns|
      ensures ns[i].className == ns[j].className <==> rules[ns[i].name] == rules[ns[j].name]
    {
      hide ClassOf;
      ClassesFollowRules(pins.Keys, rules, ns[i].name, ns[j].name);
    }
  }

  lemma DocumentTold(b: Board, layers: seq<Row>, pins: map<string, set<string>>, classOf: map<string, string>,
                     ns: seq<Net>, padstacks: seq<string>)
    requires Stacked(layers) && forall n :: n in layers <==> KeptRow(b.layerRows, n)
    requires PinsPerNet(pins, Kept(b.footprints)) && NetsAre(ns, pins, classOf) && pins.Keys <= b.rules.Keys
    requires classOf.Keys == pins.Keys && forall n :: n in classOf ==> classOf[n] == ClassOf(pins.Keys, b.rules, n)
    requires PadstacksCounted(padstacks, |PadKeys(Kept(b.footprints))|, |RulesOf(pins.Keys, b.rules)|,
                              |OffRuleSizes(b.vias, b.rules)|)
    ensures DocumentTells(DocumentOf(b, layers, Kept(b.footprints), ns, padstacks), b)
  {
    var fs := Kept(b.footprints);
    PadstacksTold(b.footprints);
    SidesTold(b.footprints);
    ShapesTold(b.footprints);
    NetsTold(fs, pins, classOf, b.rules, ns);
    GeometriesTold(b.footprints);
    RulesUsed(ns, pins, classOf, b.rules);
    hide PadstacksCounted, Geometries, UsedRules, RulesOf, OffRuleSizes, Kept, PadstacksTell, NetsTell, SideTells,
      HasShape, Stacked, KeptRow, Shapes, SidesOf, ComponentsOf, PadKeys, PinsPerNet, NetsAre, ClassOf;
    assert LayersTell(LayersOf(layers), b.layerRows);
  }

  /** What a board needs to be exported. */
  ghost predicate Exportable(b: Board) {
    var fs := Kept(b.footprints);
    && LayersReadable(b.layerRows) && Outline.OneLoop(b.edgeCuts) && Readable(b.footprints) && fs != []
    && (exists n :: UsedNet(fs, n)) && (forall n :: n in b.planeNets ==> UsedNet(fs, n))
    && (forall n :: UsedNet(fs, n) ==>
                      && n in b.rules && b.rules[n].track > 0 && b.rules[n].clearance >= 0
                      && 0 < b.rules[n].drill < b.rules[n].diameter)
    && (forall v :: v in b.vias ==> UsedNet(fs, v.net))
  }

  /** The export up to its manifest: refused exactly when the board is not exportable. Whatever is exported passes
      the importer's profile check, and its relation checks exactly when every exported footprint has a uuid. */
  method Export(b: Board) returns (r: Option<Document>)
    requires Countable(b.footprints)
    ensures r.Some? <==> Exportable(b)
    ensures r.Some? ==> ProfileOk(r.value) && (RelationsOk(r.value) <==> AllIdentified(r.value.components))
    ensures r.Some? ==> r.value.components == ComponentsOf(Kept(b.footprints), PadKeys(Kept(b.footprints)))
    ensures r.Some? ==> NetsDescribe(r.value.nets, Kept(b.footprints), b.rules)
    ensures r.Some? ==> DocumentTells(r.value, b)
  {
    hide NetsDescribe, DocumentTells, KeptRow, Stacked, LayersReadable, UsedNet, Readable, Countable, Kept, NetsAre,
      PinsPerNet, AllPadstacks, PadstacksCounted, OffRuleSizes, ProfileOk, RelationsOk, AllIdentified, PadKeys,
      NameOf, Outline.OneLoop, Outline.WalkOrder, Outline.AllDegreeTwo, Outline.NoneEmpty, Outline.Touches,
      Outline.HasDegree;
    var layers := ReadLayers(b.layerRows);
    var outline := Outline.SimpleClosedOutline(b.edgeCuts);
    var fs := ReadFootprints(b.footprints);
    if layers.None? || outline.Refused? || fs.None? || fs.value == [] {
      return None;
    }
    var pins := CollectNets(fs.value);
    UsedIsListed(pins, fs.value);
    if (exists n :: n in b.planeNets && n !in pins) || pins == map[] {
      return None;
    }
    var classes := NormalizeRules(pins.Keys, b.rules);
    if classes.None? {
      return None;
    }
    var fixed := FixedSizes(b.vias, b.rules, pins.Keys);
    if fixed.None? {
      return None;
    }
    var classOf, vias := classes.value.classOf, classes.value.groups.Keys;
    forall n | n in classOf ensures classOf[n] != "" {
      ClassNamed(pins.Keys, b.rules, n);
    }
    var padstacks := ListPadstacks(PadKeys(fs.value), vias, fixed.value);
    var nets := ListNets(pins, classOf);
    DocumentAccepted(b, layers.value, pins, classOf, nets, padstacks, vias, fixed.value);
    NetsDescribed(fs.value, pins, classOf, b.rules, nets);
    DocumentTold(b, layers.value, pins, classOf, nets, padstacks);
    r := Some(DocumentOf(b, layers.value, fs.value, nets, padstacks));
  }
}
