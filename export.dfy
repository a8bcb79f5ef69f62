/** The conversion of the finished feature table into the compact table shipped to map
    clients: a root row for the last universal common ancestor is added, every row gets its
    parent (the first id of its ascend chain) and a leaf flag, and seven columns are kept. */
module Export {
  import opened Common

  /** The columns of a feature row that the conversion reads; the others are dropped. */
  datatype Feature = Feature(taxid: int, sciName: string, zoom: Option<int>, lat: real, lon: real, ascend: seq<int>)

  /** A row of the converted table, its seven columns in output order: taxid, zoom, x (the
      longitude), y (the latitude), ascend chain, leaf flag, parent. */
  datatype LmRow = LmRow(taxid: int, zoom: int, x: real, y: real, ascend: seq<int>, leaf: bool, parent: Option<int>)

  const LucaLat: real := -4.226497
  const LucaLon: real := 0.0

  /** The added root: taxid 0, zoom 5, at the fixed position, with an empty chain. */
  const Luca := Feature(0, "Luca", Some(5), LucaLat, LucaLon, [])

  predicate InInt32(n: int) { -0x8000_0000 <= n < 0x8000_0000 }
  predicate InInt8(n: int) { -0x80 <= n < 0x80 }

  /** `zoom.fill_null(1)`. */
  function ZoomOf(f: Feature): int
  {
    match f.zoom
    case None => 1
    case Some(z) => z
  }

  /** `ascend.list.get(0, null_on_oob=True)`. */
  function ParentOf(f: Feature): Option<int>
  {
    if f.ascend == [] then None else Some(f.ascend[0])
  }

  /** The strict casts succeed: taxid and every ascend id fit Int32, the filled zoom fits Int8. */
  predicate Castable(f: Feature)
  {
    InInt32(f.taxid) && InInt8(ZoomOf(f)) && forall i :: 0 <= i < |f.ascend| ==> InInt32(f.ascend[i])
  }

  /** The non-null values of the parent column. */
  function Parents(fs: seq<Feature>): set<int>
  {
    set i | 0 <= i < |fs| && ParentOf(fs[i]).Some? :: ParentOf(fs[i]).value
  }

  function ToRow(f: Feature, parents: set<int>): LmRow
  {
    LmRow(f.taxid, ZoomOf(f), f.lon, f.lat, f.ascend, f.taxid !in parents, ParentOf(f))
  }

  /** `convert_features`: None when a strict cast fails on some row. Otherwise every input
      row is kept, in order, with its taxid and its parent, and the root comes last. */
  function ConvertFeatures(lm: seq<Feature>): (r: Option<seq<LmRow>>)
    ensures r.Some? ==> |r.value| == |lm| + 1
    ensures r.Some? ==> forall i :: 0 <= i < |lm| ==> r.value[i].taxid == lm[i].taxid && r.value[i].parent == ParentOf(lm[i])
    ensures r.Some? ==> r.value[|lm|].taxid == 0 && r.value[|lm|].parent.None?
  {
    var all := lm + [Luca];
    assert forall i :: 0 <= i < |lm| ==> all[i] == lm[i];
    if exists i :: 0 <= i < |all| && !Castable(all[i]) then None
    else
      var parents := Parents(all);
      Some(seq(|all|, i requires 0 <= i < |all| => ToRow(all[i], parents)))
  }

  /** The conversion fails exactly when an input row does not fit the column types; the
      added root always fits. */
  lemma ConvertFails(lm: seq<Feature>)
    ensures ConvertFeatures(lm).None? <==> exists i :: 0 <= i < |lm| && !Castable(lm[i])
  {
    var all := lm + [Luca];
    assert Castable(Luca);
    if exists i :: 0 <= i < |all| && !Castable(all[i]) {
      var i :| 0 <= i < |all| && !Castable(all[i]);
      assert i < |lm| && lm[i] == all[i];
    }
    if exists i :: 0 <= i < |lm| && !Castable(lm[i]) {
      var i :| 0 <= i < |lm| && !Castable(lm[i]);
      assert all[i] == lm[i];
    }
  }

  /** One output row per input row, in order, plus the root last. Each row keeps its taxid,
      position and chain, gets zoom 1 when it had none, and has as parent the first id of its
      chain, or none when the chain is empty. */
  lemma ConvertRows(lm: seq<Feature>)
    requires ConvertFeatures(lm).Some?
    ensures |ConvertFeatures(lm).value| == |lm| + 1
    ensures forall i :: 0 <= i < |lm| ==>
      var r := ConvertFeatures(lm).value[i];
      r.taxid == lm[i].taxid && r.x == lm[i].lon && r.y == lm[i].lat && r.ascend == lm[i].ascend
      && r.zoom == (if lm[i].zoom.None? then 1 else lm[i].zoom.value)
      && r.parent == (if lm[i].ascend == [] then None else Some(lm[i].ascend[0]))
    ensures var r := ConvertFeatures(lm).value[|lm|];
      r.taxid == 0 && r.zoom == 5 && r.x == 0.0 && r.y == -4.226497 && r.ascend == [] && r.parent.None?
  {
    var all := lm + [Luca];
    forall i | 0 <= i < |lm|
      ensures all[i] == lm[i]
    {
    }
  }

  /** A row is a leaf exactly when no row of the converted table has it as parent. */
  lemma LeafIff(lm: seq<Feature>, i: nat)
    requires ConvertFeatures(lm).Some? && i < |ConvertFeatures(lm).value|
    ensures var rows := ConvertFeatures(lm).value;
      rows[i].leaf <==> forall j :: 0 <= j < |rows| ==> rows[j].parent != Some(rows[i].taxid)
  {
    var all := lm + [Luca];
    var rows := ConvertFeatures(lm).value;
    var k := rows[i].taxid;
    if k in Parents(all) {
      var j :| 0 <= j < |all| && ParentOf(all[j]).Some? && ParentOf(all[j]).value == k;
      assert rows[j].parent == Some(k);
    }
    forall j | 0 <= j < |rows| && rows[j].parent == Some(k)
      ensures k in Parents(all)
    {
      assert ParentOf(all[j]) == Some(k);
    }
  }

  /** The root is not a leaf exactly when some input chain starts with 0, which is the case
      as soon as a group's top node hangs under the root. */
  lemma LucaLeaf(lm: seq<Feature>)
    requires ConvertFeatures(lm).Some?
    ensures ConvertFeatures(lm).value[|lm|].leaf <==>
      forall i :: 0 <= i < |lm| ==> lm[i].ascend == [] || lm[i].ascend[0] != 0
  {
    var all := lm + [Luca];
    ConvertRows(lm);
    LeafIff(lm, |lm|);
    var rows := ConvertFeatures(lm).value;
    if exists i :: 0 <= i < |lm| && lm[i].ascend != [] && lm[i].ascend[0] == 0 {
      var i :| 0 <= i < |lm| && lm[i].ascend != [] && lm[i].ascend[0] == 0;
      assert rows[i].parent == Some(0);
    }
  }
}
