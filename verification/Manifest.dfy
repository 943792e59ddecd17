/** The routing manifest: what the exporter writes about layers, components, pins, nets and padstacks, and the
    importer's checks that every written manifest must pass. Names are real strings. */
module Manifest {
  import opened Basics
  import opened PinNames

  datatype Side = Front | Back

  datatype SideSummary = OnFront | OnBack | OnBoth

  /** What makes two pads share a padstack: the shape, and the rest of the geometry known by its place in order. */
  datatype PadKey = PadKey(shape: nat, geometry: nat)

  /** A pad of a footprint: copper, an unplated hole, or an aperture without copper. An empty net name is no net. */
  datatype RawPad = CopperPad(number: string, netName: string, key: PadKey) | Hole | Aperture

  datatype RawFootprint = RawFootprint(reference: string, kiid: string, side: Side, pads: seq<RawPad>)

  datatype Pad = Pad(number: string, pinId: string, net: Option<string>, key: PadKey)

  datatype Footprint = Footprint(reference: string, kiid: string, imageName: string, side: Side, pads: seq<Pad>)

  datatype Pin = Pin(padNumber: string, dsnPin: string, net: Option<string>, padstack: string)

  /** The rotation is None when it is not a finite number. */
  datatype Component = Component(
    reference: string, kiid: string, imageName: string, rotation: Option<int>, side: string, kicadSide: string,
    pins: seq<Pin>)

  datatype Net = Net(name: string, pins: set<string>, className: string)

  datatype Layer = Layer(kicadName: string, dsnName: string, index: nat)

  datatype Profile = Profile(
    copperLayers: nat, side: SideSummary, padShapes: set<nat>, zones: bool, customRules: bool,
    customHash: Option<string>,
    boardOriented: bool, outline: string)

  datatype Document = Document(
    schema: nat, profile: Profile, layers: seq<Layer>, components: seq<Component>, nets: seq<Net>,
    padstacks: seq<string>)

  // ----- What the importer demands

  predicate ProfileOk(d: Document) {
    var p := d.profile;
    var first := p.copperLayers == 2 && p.side == OnFront && !p.zones && !p.customRules;
    var widened := d.schema == 2 && p.copperLayers >= 2 && p.boardOriented && p.customRules == p.customHash.Some?;
    && (d.schema == 1 || d.schema == 2) && (first || widened)
    && p.copperLayers == |d.layers| && p.outline != "" && p.padShapes != {}
  }

  predicate LayersOk(ls: seq<Layer>) {
    && (forall i :: 0 <= i < |ls| ==> ls[i].kicadName != "" && ls[i].dsnName != "")
    && (forall i, j :: 0 <= i < j < |ls| ==> ls[i].dsnName != ls[j].dsnName && ls[i].index != ls[j].index)
  }

  /** What follows the prefix, or nothing when it is missing. */
  function Stripped(s: string, prefix: string): string {
    if prefix <= s then s[|prefix|..] else ""
  }

  predicate PinOk(pin: Pin, reference: string, nets: set<string>, padstacks: set<string>) {
    && Numbered(Stripped(pin.dsnPin, reference + "-"), pin.padNumber)
    && pin.padstack in padstacks && (pin.net.Some? ==> pin.net.value in nets)
  }

  lemma NumberedMeans(id: string, number: string)
    ensures Numbered(id, number) <==> id == number || exists n :: ParseUsize(n).Some? && id == number + ("@" + n)
  {
    hide ParseUsize;
    if Numbered(id, number) && id != number {
      var n := id[|number| + 1..];
      assert id == number + ("@" + n);
    }
    if exists n :: ParseUsize(n).Some? && id == number + ("@" + n) {
      var n :| ParseUsize(n).Some? && id == number + ("@" + n);
      assert id[..|number|] == number && id[|number| + 1..] == n;
    }
  }

  /** A pin id is its component's name and a dash, then the pad number, alone or with `@` and a number. A pin id
      without that prefix passes only for an empty pad number. */
  lemma PinIdMeans(pin: Pin, reference: string)
    ensures Numbered(Stripped(pin.dsnPin, reference + "-"), pin.padNumber) <==>
            || (exists id :: pin.dsnPin == reference + "-" + id &&
                             (id == pin.padNumber ||
                              exists n :: ParseUsize(n).Some? && id == pin.padNumber + ("@" + n)))
            || (!(reference + "-" <= pin.dsnPin) && pin.padNumber == "")
  {
    var prefix, s, number := reference + "-", pin.dsnPin, pin.padNumber;
    NumberedMeans(Stripped(s, prefix), number);
    hide Numbered, ParseUsize;
    if prefix <= s {
      assert s == prefix + s[|prefix|..];
    }
    forall id | s == prefix + id ensures Stripped(s, prefix) == id {
      assert s[|prefix|..] == id;
    }
  }

  predicate PinsOk(c: Component, nets: set<string>, padstacks: set<string>) {
    && (forall i :: 0 <= i < |c.pins| ==> PinOk(c.pins[i], c.reference, nets, padstacks))
    && (forall i, j :: 0 <= i < j < |c.pins| ==> c.pins[i].dsnPin != c.pins[j].dsnPin)
  }

  predicate PlacementOk(c: Component) {
    && c.reference != "" && c.kiid != "" && c.imageName != "" && c.rotation.Some? && c.side == "front"
    && (c.kicadSide == "" || c.kicadSide == "front" || c.kicadSide == "back")
  }

  predicate ComponentsOk(cs: seq<Component>, nets: set<string>, padstacks: set<string>) {
    && (forall i :: 0 <= i < |cs| ==> PlacementOk(cs[i]) && PinsOk(cs[i], nets, padstacks))
    && (forall i, j :: 0 <= i < j < |cs| ==> cs[i].reference != cs[j].reference)
  }

  predicate NetNamesOk(ns: seq<Net>) {
    && (forall i :: 0 <= i < |ns| ==> ns[i].name != "")
    && (forall i, j :: 0 <= i < j < |ns| ==> ns[i].name != ns[j].name)
  }

  predicate NetsComplete(ns: seq<Net>) {
    forall i :: 0 <= i < |ns| ==> ns[i].className != "" && ns[i].pins != {}
  }

  function NetNames(ns: seq<Net>): set<string> {
    set i | 0 <= i < |ns| :: ns[i].name
  }

  function Elements(s: seq<string>): set<string> {
    set x | x in s
  }

  predicate RelationsOk(d: Document) {
    && LayersOk(d.layers) && |d.layers| == d.profile.copperLayers
    && NetNamesOk(d.nets) && Distinct(d.padstacks) && "" !in d.padstacks
    && ComponentsOk(d.components, NetNames(d.nets), Elements(d.padstacks)) && NetsComplete(d.nets)
  }

  // ----- The importer's loops

  method CheckLayers(ls: seq<Layer>) returns (ok: bool)
    ensures ok <==> LayersOk(ls)
  {
    var names: set<string>, indices: set<nat> := {}, {};
    for i := 0 to |ls|
      invariant LayersOk(ls[..i])
      invariant forall n :: n in names <==> exists k :: 0 <= k < i && ls[k].dsnName == n
      invariant forall n :: n in indices <==> exists k :: 0 <= k < i && ls[k].index == n
    {
      var l := ls[i];
      if l.kicadName == "" || l.dsnName == "" || l.dsnName in names || l.index in indices {
        return false;
      }
      names, indices := names + {l.dsnName}, indices + {l.index};
      assert ls[..i + 1] == ls[..i] + [l];
    }
    assert ls[..|ls|] == ls;
    ok := true;
  }

  method CheckPins(c: Component, nets: set<string>, padstacks: set<string>) returns (ok: bool)
    ensures ok <==> PinsOk(c, nets, padstacks)
  {
    hide PinOk;
    var seen: set<string> := {};
    for i := 0 to |c.pins|
      invariant forall k :: 0 <= k < i ==> PinOk(c.pins[k], c.reference, nets, padstacks)
      invariant forall j, k :: 0 <= j < k < i ==> c.pins[j].dsnPin != c.pins[k].dsnPin
      invariant forall n :: n in seen <==> exists k :: 0 <= k < i && c.pins[k].dsnPin == n
    {
      var pin := c.pins[i];
      if !PinOk(pin, c.reference, nets, padstacks) || pin.dsnPin in seen {
        return false;
      }
      seen := seen + {pin.dsnPin};
    }
    ok := true;
  }

  method CheckComponents(cs: seq<Component>, nets: set<string>, padstacks: set<string>) returns (ok: bool)
    ensures ok <==> ComponentsOk(cs, nets, padstacks)
    ensures ok <==>
            && (forall i :: 0 <= i < |cs| ==>
                              && cs[i].reference != "" && cs[i].kiid != "" && cs[i].imageName != ""
                              && cs[i].rotation.Some? && cs[i].side == "front"
                              && cs[i].kicadSide in {"", "front", "back"} && PinsOk(cs[i], nets, padstacks))
            && (forall i, j :: 0 <= i < j < |cs| ==> cs[i].reference != cs[j].reference)
  {
    assert forall c: Component :: PlacementOk(c) <==>
             && c.reference != "" && c.kiid != "" && c.imageName != "" && c.rotation.Some? && c.side == "front"
             && c.kicadSide in {"", "front", "back"};
    hide PinsOk, PlacementOk;
    var references: set<string> := {};
    for i := 0 to |cs|
      invariant forall k :: 0 <= k < i ==> PlacementOk(cs[k]) && PinsOk(cs[k], nets, padstacks)
      invariant forall j, k :: 0 <= j < k < i ==> cs[j].reference != cs[k].reference
      invariant forall n :: n in references <==> exists k :: 0 <= k < i && cs[k].reference == n
    {
      if !PlacementOk(cs[i]) || cs[i].reference in references {
        return false;
      }
      references := references + {cs[i].reference};
      var fine := CheckPins(cs[i], nets, padstacks);
      if !fine {
        return false;
      }
    }
    ok := true;
  }

  /** A set built from a list is as large as the list exactly when nothing repeats. */
  lemma {:induction false} DistinctBySize(s: seq<string>)
    ensures |Elements(s)| <= |s|
    ensures |Elements(s)| == |s| <==> Distinct(s)
  {
    if s == [] {
      assert Elements(s) == {};
    } else {
      var n := |s| - 1;
      var front := s[..n];
      DistinctBySize(front);
      assert Elements(s) == Elements(front) + {s[n]};
      if s[n] in front {
        assert Elements(s) == Elements(front);
        var k :| 0 <= k < n && s[k] == s[n];
      }
    }
  }

  function NamesOf(ns: seq<Net>): (r: seq<string>)
    ensures |r| == |ns| && forall i :: 0 <= i < |ns| ==> r[i] == ns[i].name
  {
    seq(|ns|, i requires 0 <= i < |ns| => ns[i].name)
  }

  lemma NetNamesBySize(ns: seq<Net>)
    ensures NetNamesOk(ns) <==> |NetNames(ns)| == |ns| && "" !in NetNames(ns)
  {
    var names := NamesOf(ns);
    assert NetNames(ns) == Elements(names) by {
      forall x ensures x in NetNames(ns) <==> x in Elements(names) {
        if x in Elements(names) {
          var i :| 0 <= i < |names| && names[i] == x;
        }
      }
    }
    DistinctBySize(names);
    assert Distinct(names) <==> forall i, j :: 0 <= i < j < |ns| ==> ns[i].name != ns[j].name;
    assert (forall i :: 0 <= i < |ns| ==> ns[i].name != "") <==> "" !in NetNames(ns);
  }

  /** `validate_manifest_relations`. */
  method CheckRelations(d: Document) returns (ok: bool)
    ensures ok <==> RelationsOk(d)
  {
    hide LayersOk, NetNamesOk, ComponentsOk, Distinct;
    ok := CheckLayers(d.layers);
    if !ok || |d.layers| != d.profile.copperLayers {
      return false;
    }
    var nets := NetNames(d.nets);
    NetNamesBySize(d.nets);
    if |nets| != |d.nets| || "" in nets {
      return false;
    }
    var padstacks := Elements(d.padstacks);
    DistinctBySize(d.padstacks);
    if |padstacks| != |d.padstacks| || "" in padstacks {
      return false;
    }
    ok := CheckComponents(d.components, nets, padstacks);
    if !ok {
      return false;
    }
    for i := 0 to |d.nets|
      invariant forall k :: 0 <= k < i ==> d.nets[k].className != "" && d.nets[k].pins != {}
    {
      if d.nets[i].className == "" || d.nets[i].pins == {} {
        return false;
      }
    }
    ok := true;
  }
}
