/** The copper layers of a board, read from its layer table: one row for each place in the stack, front to back. */
module LayerStack {
  import opened Basics
  import opened PinNames

  datatype LayerKind = Signal | Power | Mixed

  /** A row of the layer table; kind is None for a type the exporter does not know, a missing type being Signal. */
  datatype Row = Row(name: string, kind: Option<LayerKind>)

  /** The place of a copper layer in the stack, from its name. */
  function LayerOrder(name: string): Option<nat> {
    if name == "F.Cu" then Some(0)
    else if name == "B.Cu" then Some(USIZE_MAX)
    else if "In" <= name && |name| >= 5 && name[|name| - 3..] == ".Cu" then ParseUsize(name[2..|name| - 3])
    else None
  }

  /** Which names have a place, and which: the front, the back, and the numbered inner layers between. */
  lemma PlacesOfNames(name: string, n: nat)
    ensures LayerOrder(name) == Some(n) <==>
            || (name == "F.Cu" && n == 0) || (name == "B.Cu" && n == 0xffff_ffff_ffff_ffff)
            || exists number :: name == "In" + number + ".Cu" && ParseUsize(number) == Some(n)
  {
    hide ParseUsize;
    if LayerOrder(name) == Some(n) && name != "F.Cu" && name != "B.Cu" {
      var number := name[2..|name| - 3];
      assert name == name[..2] + number + name[|name| - 3..];
    }
    if exists number :: name == "In" + number + ".Cu" && ParseUsize(number) == Some(n) {
      var number :| name == "In" + number + ".Cu" && ParseUsize(number) == Some(n);
      assert name[0] == 'I' && name[2..|name| - 3] == number && name[|name| - 3..] == ".Cu";
    }
  }

  function Place(row: Row): Option<nat> {
    LayerOrder(row.name)
  }

  predicate CopperRow(row: Row) {
    |row.name| >= 3 && row.name[|row.name| - 3..] == ".Cu"
  }

  predicate Stacked(rows: seq<Row>) {
    && (forall i :: 0 <= i < |rows| ==> Place(rows[i]).Some?)
    && (forall i, j :: 0 <= i < j < |rows| ==> Place(rows[i]).value < Place(rows[j]).value)
  }

  lemma StackedDistinct(rows: seq<Row>)
    requires Stacked(rows)
    ensures forall i :: 0 <= i < |rows| ==> rows[i].name != ""
    ensures forall i, j :: 0 <= i < j < |rows| ==> rows[i].name != rows[j].name
  {
    assert LayerOrder("").None?;
  }

  // ----- Which rows are kept

  /** The first copper row at its place. */
  predicate FirstAt(rows: seq<Row>, i: nat)
    requires i < |rows|
  {
    CopperRow(rows[i]) && forall k :: 0 <= k < i && CopperRow(rows[k]) ==> Place(rows[k]) != Place(rows[i])
  }

  predicate KeptRow(rows: seq<Row>, row: Row) {
    exists i :: 0 <= i < |rows| && rows[i] == row && FirstAt(rows, i)
  }

  /** A layer of this name is the first at its place. */
  predicate KeptName(rows: seq<Row>, name: string) {
    exists i :: 0 <= i < |rows| && rows[i].name == name && FirstAt(rows, i)
  }

  /** Every copper row has a place and a known type; the front and back layers are not shadowed by an earlier row
      at their place; and something other than a power plane is left to route on. */
  predicate LayersReadable(rows: seq<Row>) {
    && (forall i :: 0 <= i < |rows| && CopperRow(rows[i]) ==> Place(rows[i]).Some? && rows[i].kind.Some?)
    && KeptName(rows, "F.Cu") && KeptName(rows, "B.Cu")
    && exists i :: 0 <= i < |rows| && FirstAt(rows, i) && rows[i].kind != Some(Power)
  }

  /** Some row has this place in the stack. */
  predicate HasPlace(rows: seq<Row>, place: Option<nat>) {
    exists i :: 0 <= i < |rows| && Place(rows[i]) == place
  }

  lemma KeptMore(rows: seq<Row>, row: Row, r: Row)
    ensures KeptRow(rows + [row], r) <==> KeptRow(rows, r) || (r == row && FirstAt(rows + [row], |rows|))
  {
    hide Place, CopperRow;
    var more, n := rows + [row], |rows|;
    forall i | 0 <= i < n ensures FirstAt(more, i) <==> FirstAt(rows, i) {
      assert more[i] == rows[i] && forall k :: 0 <= k < i ==> more[k] == rows[k];
    }
    if KeptRow(more, r) {
      var i :| 0 <= i < |more| && more[i] == r && FirstAt(more, i);
      if i < n {
        assert rows[i] == r && FirstAt(rows, i);
      }
    }
    if KeptRow(rows, r) {
      var i :| 0 <= i < n && rows[i] == r && FirstAt(rows, i);
      assert more[i] == r && FirstAt(more, i);
    }
    if r == row && FirstAt(more, n) {
      assert more[n] == r;
    }
  }

  /** A place is taken by a kept row exactly when some copper row has it. */
  lemma {:induction false} PlaceKept(rows: seq<Row>, k: nat) returns (i: nat)
    requires k < |rows| && CopperRow(rows[k])
    ensures i <= k && FirstAt(rows, i) && Place(rows[i]) == Place(rows[k])
  {
    hide Place, CopperRow;
    if FirstAt(rows, k) {
      i := k;
    } else {
      var j :| 0 <= j < k && CopperRow(rows[j]) && Place(rows[j]) == Place(rows[k]);
      i := PlaceKept(rows, j);
    }
  }

  // ----- Inserting by place

  lemma Spliced(rows: seq<Row>, row: Row, k: nat)
    requires k <= |rows|
    ensures var r := rows[..k] + [row] + rows[k..];
            && |r| == |rows| + 1 && r[k] == row
            && (forall i :: 0 <= i < k ==> r[i] == rows[i]) && (forall i :: k < i < |r| ==> r[i] == rows[i - 1])
            && forall n :: n in r <==> n in rows || n == row
  {
    assert rows == rows[..k] + rows[k..];
  }

  lemma LaterBehind(rows: seq<Row>, row: Row, k: nat)
    requires Stacked(rows) && Place(row).Some? && k <= |rows|
    requires k < |rows| ==> Place(rows[k]).value > Place(row).value
    ensures forall i :: k <= i < |rows| ==> Place(rows[i]).value > Place(row).value
  {
    hide Place;
    forall i | k <= i < |rows| ensures Place(rows[i]).value > Place(row).value {
      assert k < i ==> Place(rows[k]).value < Place(rows[i]).value;
    }
  }

  lemma SplicedStacked(rows: seq<Row>, row: Row, k: nat)
    requires Stacked(rows) && Place(row).Some? && k <= |rows|
    requires forall i :: 0 <= i < k ==> Place(rows[i]).value < Place(row).value
    requires forall i :: k <= i < |rows| ==> Place(rows[i]).value > Place(row).value
    ensures Stacked(rows[..k] + [row] + rows[k..]) && !HasPlace(rows, Place(row))
  {
    hide Place;
    var r := rows[..k] + [row] + rows[k..];
    Spliced(rows, row, k);
    forall i | 0 <= i < |r| ensures Place(r[i]).Some? {
      assert i > k ==> r[i] == rows[i - 1];
    }
    forall i, j | 0 <= i < j < |r| ensures Place(r[i]).value < Place(r[j]).value {
      var p, q := if i < k then i else i - 1, if j < k then j else j - 1;
      assert i != k ==> r[i] == rows[p];
      assert j != k ==> r[j] == rows[q];
    }
  }

  /** Inserts a row by its place, unless the place is taken. */
  method InsertLayer(rows: seq<Row>, row: Row) returns (r: seq<Row>)
    requires Stacked(rows) && Place(row).Some?
    ensures Stacked(r) && forall n :: n in r <==> n in rows || (n == row && !HasPlace(rows, Place(row)))
  {
    hide Place;
    var k := 0;
    while k < |rows| && Place(rows[k]).value < Place(row).value
      invariant 0 <= k <= |rows| && forall i :: 0 <= i < k ==> Place(rows[i]).value < Place(row).value
    {
      k := k + 1;
    }
    if k < |rows| && Place(rows[k]).value == Place(row).value {
      assert HasPlace(rows, Place(row));
      return rows;
    }
    r := rows[..k] + [row] + rows[k..];
    hide HasPlace, Stacked;
    LaterBehind(rows, row, k);
    Spliced(rows, row, k);
    SplicedStacked(rows, row, k);
  }

  // ----- The operation

  ghost predicate SameRows(kept: seq<Row>, rows: seq<Row>) {
    forall r :: r in kept <==> KeptRow(rows, r)
  }

  /** The place is taken in the kept rows exactly when an earlier copper row has it. */
  lemma TakenIs(kept: seq<Row>, rows: seq<Row>, row: Row)
    requires SameRows(kept, rows) && CopperRow(row)
    ensures !HasPlace(kept, Place(row)) <==> FirstAt(rows + [row], |rows|)
  {
    hide Place, CopperRow;
    var more, n := rows + [row], |rows|;
    if HasPlace(kept, Place(row)) {
      var j :| 0 <= j < |kept| && Place(kept[j]) == Place(row);
      assert kept[j] in kept;
      var i :| 0 <= i < n && rows[i] == kept[j] && FirstAt(rows, i);
      assert more[i] == rows[i];
    }
    if !FirstAt(more, n) {
      var k :| 0 <= k < n && CopperRow(more[k]) && Place(more[k]) == Place(more[n]);
      assert more[k] == rows[k];
      var i := PlaceKept(rows, k);
      assert KeptRow(rows, rows[i]);
      assert rows[i] in kept;
      var j :| 0 <= j < |kept| && kept[j] == rows[i];
    }
  }

  lemma PlaceBounds(row: Row)
    requires Place(row).Some?
    ensures Place(row).value <= USIZE_MAX
    ensures Place(Row("F.Cu", None)) == Some(0) && Place(Row("B.Cu", None)) == Some(USIZE_MAX)
  {
  }

  /** In stack order the row at place 0 is first and the row at the greatest place last. */
  lemma EndsOfStack(kept: seq<Row>, rows: seq<Row>)
    requires Stacked(kept) && SameRows(kept, rows)
    ensures |kept| >= 2 && kept[0].name == "F.Cu" && kept[|kept| - 1].name == "B.Cu" <==>
            KeptName(rows, "F.Cu") && KeptName(rows, "B.Cu")
  {
    hide CopperRow, LayerOrder;
    if |kept| >= 2 && kept[0].name == "F.Cu" && kept[|kept| - 1].name == "B.Cu" {
      assert KeptRow(rows, kept[0]) && KeptRow(rows, kept[|kept| - 1]);
    }
    if KeptName(rows, "F.Cu") && KeptName(rows, "B.Cu") {
      var f :| 0 <= f < |rows| && rows[f].name == "F.Cu" && FirstAt(rows, f);
      var b :| 0 <= b < |rows| && rows[b].name == "B.Cu" && FirstAt(rows, b);
      assert KeptRow(rows, rows[f]) && KeptRow(rows, rows[b]);
      var i :| 0 <= i < |kept| && kept[i] == rows[f];
      var j :| 0 <= j < |kept| && kept[j] == rows[b];
      PlaceBounds(kept[i]);
      PlaceBounds(kept[0]);
      PlaceBounds(kept[|kept| - 1]);
    }
  }

  /** `copper_layers`: refused exactly when the rows are not readable; otherwise the first copper row of every
      place, in stack order from front to back. */
  method ReadLayers(rows: seq<Row>) returns (r: Option<seq<Row>>)
    ensures r.Some? <==> LayersReadable(rows)
    ensures r.Some? ==> Stacked(r.value) && (forall n :: n in r.value <==> KeptRow(rows, n))
    ensures r.Some? ==> |r.value| >= 2 && r.value[0].name == "F.Cu" && r.value[|r.value| - 1].name == "B.Cu"
  {
    hide Place, HasPlace, CopperRow, FirstAt, KeptRow;
    var kept: seq<Row> := [];
    NothingKept();
    for i := 0 to |rows|
      invariant Stacked(kept) && SameRows(kept, rows[..i])
      invariant forall k :: 0 <= k < i && CopperRow(rows[k]) ==> Place(rows[k]).Some? && rows[k].kind.Some?
    {
      var row := rows[i];
      assert rows[..i + 1] == rows[..i] + [row];
      forall n
        ensures KeptRow(rows[..i + 1], n) <==> KeptRow(rows[..i], n) || (n == row && FirstAt(rows[..i] + [row], i))
      {
        KeptMore(rows[..i], row, n);
      }
      if CopperRow(row) {
        if Place(row).None? || row.kind.None? {
          return None;
        }
        TakenIs(kept, rows[..i], row);
        kept := InsertLayer(kept, row);
      } else {
        NotFirst(rows[..i], row);
      }
    }
    assert rows[..|rows|] == rows;
    EndsOfStack(kept, rows);
    if |kept| < 2 || kept[0].name != "F.Cu" || kept[|kept| - 1].name != "B.Cu" {
      return None;
    }
    RoutableIs(kept, rows);
    if forall i :: 0 <= i < |kept| ==> kept[i].kind == Some(Power) {
      return None;
    }
    r := Some(kept);
  }

  lemma NothingKept()
    ensures SameRows([], [])
  {
  }

  lemma NotFirst(rows: seq<Row>, row: Row)
    requires !CopperRow(row)
    ensures !FirstAt(rows + [row], |rows|)
  {
  }

  lemma RoutableIs(kept: seq<Row>, rows: seq<Row>)
    requires SameRows(kept, rows)
    ensures (exists i :: 0 <= i < |kept| && kept[i].kind != Some(Power)) <==>
            exists i :: 0 <= i < |rows| && FirstAt(rows, i) && rows[i].kind != Some(Power)
  {
    hide FirstAt;
    if exists i :: 0 <= i < |kept| && kept[i].kind != Some(Power) {
      var i :| 0 <= i < |kept| && kept[i].kind != Some(Power);
      assert KeptRow(rows, kept[i]);
    }
    if exists i :: 0 <= i < |rows| && FirstAt(rows, i) && rows[i].kind != Some(Power) {
      var i :| 0 <= i < |rows| && FirstAt(rows, i) && rows[i].kind != Some(Power);
      assert KeptRow(rows, rows[i]);
      var j :| 0 <= j < |kept| && kept[j] == rows[i];
    }
  }
}
