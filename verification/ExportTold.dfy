/** What the components of a manifest say about the board's footprints, told from the footprints as they are read. */
module ExportTold {
  import opened Basics
  import opened PinNames
  import opened Manifest
  import opened Exporter

  function IsCopper(): RawPad -> bool {
    (p: RawPad) => p.CopperPad?
  }

  function CopperNumbered(number: string): RawPad -> bool {
    (p: RawPad) => p.CopperPad? && p.number == number
  }

  /** A footprint with copper pads or with holes. */
  function HasParts(): RawFootprint -> bool {
    (f: RawFootprint) => exists p :: p in f.pads && (p.CopperPad? || p.Hole?)
  }

  /** How many elements before place k have the property. */
  function Before<T>(s: seq<T>, k: nat, p: T -> bool): nat
    requires k <= |s|
  {
    |Places(s[..k], p)|
  }

  /** The pin of copper pad k of a footprint: the pad's number and net, and an id that counts the earlier copper pads
      of the same number. */
  predicate PinTells(pin: Pin, f: RawFootprint, k: nat)
    requires k < |f.pads| && f.pads[k].CopperPad?
  {
    var p := f.pads[k];
    var m := Before(f.pads, k, CopperNumbered(p.number));
    && pin.padNumber == p.number && pin.net == (if p.netName == "" then None else Some(p.netName))
    && pin.dsnPin == f.reference + "-" +
                     (if p.number != "" && m == 0 then p.number else p.number + "@" + Decimal(m))
  }

  /** The component of a footprint: its own names and side, unrotated on the front of the routing problem, and one
      pin for each copper pad, in order. */
  predicate ComponentTells(c: Component, f: RawFootprint) {
    && c.reference == f.reference && c.kiid == f.kiid && c.imageName == "konnect_image_" + f.reference
    && c.rotation == Some(0) && c.side == "front"
    && c.kicadSide == (match f.side case Front => "front" case Back => "back")
    && |c.pins| == |Places(f.pads, IsCopper())|
    && forall k :: 0 <= k < |f.pads| && f.pads[k].CopperPad? ==>
                     var j := Before(f.pads, k, IsCopper());
                     j < |c.pins| && PinTells(c.pins[j], f, k)
  }

  /** One component for each footprint that has copper pads or holes, in order. */
  predicate ComponentsTell(cs: seq<Component>, raw: seq<RawFootprint>) {
    && |cs| == |Places(raw, HasParts())|
    && forall i :: 0 <= i < |raw| && HasParts()(raw[i]) ==>
                     var j := Before(raw, i, HasParts());
                     j < |cs| && ComponentTells(cs[j], raw[i])
  }

  /** Pad k of footprint i is copper; the footprint is then exported. */
  predicate CopperAt(raw: seq<RawFootprint>, i: nat, k: nat) {
    i < |raw| && HasParts()(raw[i]) && k < |raw[i].pads| && raw[i].pads[k].CopperPad?
  }

  /** The padstack name of copper pad k of footprint i. */
  function PadstackOf(cs: seq<Component>, raw: seq<RawFootprint>, i: nat, k: nat): string
    requires ComponentsTell(cs, raw) && CopperAt(raw, i, k)
  {
    cs[Before(raw, i, HasParts())].pins[Before(raw[i].pads, k, IsCopper())].padstack
  }

  /** Two pins share a padstack exactly when their pads' geometry agrees. */
  ghost predicate PadstacksTell(cs: seq<Component>, raw: seq<RawFootprint>) {
    && ComponentsTell(cs, raw)
    && forall i: nat, k: nat, j: nat, l: nat ::
         CopperAt(raw, i, k) && CopperAt(raw, j, l) ==>
           (PadstackOf(cs, raw, i, k) == PadstackOf(cs, raw, j, l) <==> raw[i].pads[k].key == raw[j].pads[l].key)
  }

  /** Which sides the exported footprints are on. */
  predicate SideTells(side: SideSummary, raw: seq<RawFootprint>) {
    var front := exists i :: 0 <= i < |raw| && HasParts()(raw[i]) && raw[i].side == Front;
    var back := exists i :: 0 <= i < |raw| && HasParts()(raw[i]) && raw[i].side == Back;
    (side == OnBoth <==> front && back) && (side == OnBack <==> back && !front) && (side == OnFront <==> !back)
  }

  /** The different geometries of the copper pads. */
  function Geometries(raw: seq<RawFootprint>): set<PadKey> {
    set i, k | 0 <= i < |raw| && 0 <= k < |raw[i].pads| && raw[i].pads[k].CopperPad? :: raw[i].pads[k].key
  }

  predicate HasShape(raw: seq<RawFootprint>, shape: nat) {
    exists i, k :: && 0 <= i < |raw| && 0 <= k < |raw[i].pads| && raw[i].pads[k].CopperPad?
                   && raw[i].pads[k].key.shape == shape
  }

  /** The pin is on the net, as the components have it. */
  predicate PinOnNet(cs: seq<Component>, n: string, dsnPin: string) {
    exists i, j :: 0 <= i < |cs| && 0 <= j < |cs[i].pins| && cs[i].pins[j].net == Some(n) &&
        cs[i].pins[j].dsnPin == dsnPin
  }

  // ----- Where pads and footprints go

  lemma {:induction false} CopperCount(ps: seq<RawPad>)
    ensures |Copper(ps)| == |Places(ps, IsCopper())|
  {
    if ps != [] {
      CopperCount(ps[..|ps| - 1]);
      PlacesStep(ps, IsCopper(), |ps| - 1);
    }
  }

  lemma {:induction false} CopperPlace(ps: seq<RawPad>, k: nat)
    requires k < |ps| && ps[k].CopperPad?
    ensures var j := Before(ps, k, IsCopper());
            j < |Copper(ps)| && Copper(ps)[j] == ps[k] && Copper(ps)[..j] == Copper(ps[..k])
  {
    var n := |ps| - 1;
    hide Places;
    if k == n {
      CopperCount(ps[..n]);
    } else {
      CopperPlace(ps[..n], k);
      assert ps[..n][..k] == ps[..k];
      assert Copper(ps[..n]) <= Copper(ps);
    }
  }

  lemma {:induction false} SeenCount(ps: seq<RawPad>, number: string)
    ensures Seen(Copper(ps), number) == |Places(ps, CopperNumbered(number))|
  {
    if ps != [] {
      var n := |ps| - 1;
      SeenCount(ps[..n], number);
      PlacesStep(ps, CopperNumbered(number), n);
      hide Places;
      if ps[n].CopperPad? {
        SeenSnoc(Copper(ps[..n]), ps[n], number);
      }
    }
  }

  lemma {:induction false} CopperEmpty(ps: seq<RawPad>)
    ensures Copper(ps) == [] <==> forall p :: p in ps ==> !p.CopperPad?
  {
    if ps != [] {
      var n := |ps| - 1;
      CopperEmpty(ps[..n]);
      assert forall p :: p in ps <==> p in ps[..n] || p == ps[n];
    }
  }

  lemma PartsAreKept(f: RawFootprint)
    ensures HasParts()(f) <==> !Inert(f)
  {
    CopperEmpty(f.pads);
    hide Copper;
  }

  lemma {:induction false} KeptCount(raw: seq<RawFootprint>)
    ensures |Kept(raw)| == |Places(raw, HasParts())|
  {
    if raw != [] {
      var n := |raw| - 1;
      KeptCount(raw[..n]);
      PlacesStep(raw, HasParts(), n);
      PartsAreKept(raw[n]);
      hide Inert, HasParts, FootprintOf, Places;
    }
  }

  lemma {:induction false} KeptPlace(raw: seq<RawFootprint>, i: nat)
    requires i < |raw| && HasParts()(raw[i])
    ensures var j := Before(raw, i, HasParts()); j < |Kept(raw)| && Kept(raw)[j] == FootprintOf(raw[i])
  {
    var n := |raw| - 1;
    PartsAreKept(raw[n]);
    hide Inert, HasParts, FootprintOf, Places;
    if i == n {
      KeptCount(raw[..n]);
    } else {
      KeptPlace(raw[..n], i);
      assert raw[..n][..i] == raw[..i];
    }
  }

  /** The pad read at place k. */
  lemma PadTold(f: RawFootprint, k: nat)
    requires k < |f.pads| && f.pads[k].CopperPad?
    ensures var j := Before(f.pads, k, IsCopper());
            var m := Before(f.pads, k, CopperNumbered(f.pads[k].number));
            && j < |FootprintOf(f).pads|
            && var p := FootprintOf(f).pads[j];
            && p.number == f.pads[k].number && p.net == NetOf(f.pads[k]) && p.key == f.pads[k].key
            && p.pinId == PinId(f.pads[k].number, m)
  {
    CopperPlace(f.pads, k);
    SeenCount(f.pads[..k], f.pads[k].number);
    hide Copper, Places, PinId, Seen;
  }
}
