/** `traverse_tree`: the two level-order passes that lay out one group's subtree, hand
    out the ids of its map features and produce its records. Node fields the passes set
    (`ray`, `alpha`, `x`, `y`, `zoomview`, `id`, `nbdesc`) live in sequences indexed by
    node. */
module Traverse {
  import opened Common
  import opened Taxonomy
  import opened Layout
  import opened Geometry

  // ---------------------------------------------------------------------------
  // First pass: placement of the children of one node

  /** First loop over the children: the sum of the square roots of their leaf counts. */
  method TotalWeight(m: Numerics, t: Tree, ks: seq<nat>) returns (tot: real)
    requires Sound(m) && IsForest(t)
    requires forall i :: 0 <= i < |ks| ==> ks[i] < |t.up|
    ensures tot == Sum(Weights(m, t, ks))
  {
    var ws := Weights(m, t, ks);
    tot := 0.0;
    var i := 0;
    while i < |ks|
      invariant 0 <= i <= |ks|
      invariant tot == Sum(ws[..i])
    {
      SumPrefixStep(ws, i);
      tot := tot + m.sqrt(LeafCount(t, ks[i]) as real);
      i := i + 1;
    }
    assert ws[..|ks|] == ws;
  }

  /** The half-angle the loop computes from the running total is the child's share of the
      fan, with the bounds `ChildRay` needs. */
  lemma FanEntry(m: Numerics, t: Tree, v: nat, k: nat, tot: real)
    requires Sound(m) && IsForest(t) && v < |t.up| && k < |Kids(t, v)|
    requires tot == Sum(Weights(m, t, Kids(t, v)))
    ensures tot > 0.0
    ensures var a := HalfAngle(m.sqrt(LeafCount(t, Kids(t, v)[k]) as real), tot);
      a == Fan(m, t, v)[k] && 0.0 < a <= 90.0 && (Special(t, v) != 1 && Special(t, v) != 2 ==> a < 90.0)
  {
    var ws := Weights(m, t, Kids(t, v));
    SumPositive(ws);
    FanFacts(m, t, v);
    assert Fan(m, t, v)[k] == HalfAngle(ws[k], Sum(ws));
  }

  /** Second loop: each child's half-angle and radius, and its distance to the parent,
      listed in child order. */
  method SetRays(m: Numerics, t: Tree, v: nat, ks: seq<nat>, special: int, tot: real, R: real)
    returns (angles: seq<real>, rays: seq<real>, dist: seq<real>)
    requires Sound(m) && IsForest(t) && R > 0.0
    requires forall j :: 0 <= j < |ks| ==> ks[j] < |t.up|
    requires ks != [] ==> tot > 0.0
    requires forall k :: 0 <= k < |ks| ==>
      var a := HalfAngle(m.sqrt(LeafCount(t, ks[k]) as real), tot);
      0.0 < a <= 90.0 && (special != 1 && special != 2 ==> a < 90.0)
    ensures |angles| == |ks| && |rays| == |ks| && |dist| == |ks|
    ensures forall k :: 0 <= k < |ks| ==> angles[k] == HalfAngle(m.sqrt(LeafCount(t, ks[k]) as real), tot)
    ensures forall k :: 0 <= k < |ks| ==> rays[k] == ChildRay(m, special, R, angles[k])
    ensures forall k :: 0 <= k < |ks| ==> 0.0 < rays[k] < R && dist[k] == R - rays[k]
  {
    angles, rays, dist := [], [], [];
    var i := 0;
    while i < |ks|
      invariant 0 <= i <= |ks|
      invariant |angles| == i && |rays| == i && |dist| == i
      invariant forall j :: 0 <= j < i ==> angles[j] == HalfAngle(m.sqrt(LeafCount(t, ks[j]) as real), tot)
      invariant forall j :: 0 <= j < i ==> rays[j] == ChildRay(m, special, R, angles[j])
      invariant forall j :: 0 <= j < i ==> 0.0 < rays[j] < R && dist[j] == R - rays[j]
    {
      var a := HalfAngle(m.sqrt(LeafCount(t, ks[i]) as real), tot);
      angles := angles + [a];
      var r := ChildRay(m, special, R, a);
      rays := rays + [r];
      dist := dist + [R - r];
      i := i + 1;
    }
  }

  /** Third loop: orientation, position and zoom level of each child, and the running
      maximum zoom level. */
  method SetPositions(m: Numerics, t: Tree, v: nat, ks: seq<nat>, pl: seq<Placement>, ang: seq<real>,
                      rays: seq<real>, dist: seq<real>, maxZoom: nat)
    returns (pl': seq<Placement>, maxZoom': nat)
    requires v < |t.up| && |pl| == |t.up|
    requires forall j :: 0 <= j < |ks| ==> ks[j] < |t.up| && t.up[ks[j]] == v
    requires forall i, j :: 0 <= i < j < |ks| ==> ks[i] < ks[j]
    requires |ang| == |ks| && |rays| == |ks| && |dist| == |ks|
    requires forall k :: 0 <= k < |ks| ==> rays[k] > 0.0 && dist[k] == pl[v].ray - rays[k]
    ensures |pl'| == |pl|
    ensures forall k :: 0 <= k < |ks| ==> pl'[ks[k]] == Place(m, pl[v], rays[k], ang[k])
    ensures forall u :: 0 <= u < |pl| && t.up[u] != v ==> pl'[u] == pl[u]
    ensures maxZoom <= maxZoom'
    ensures forall k :: 0 <= k < |ks| ==> Zoom(rays[k]) <= maxZoom'
    ensures maxZoom' == maxZoom || exists k :: 0 <= k < |ks| && Zoom(rays[k]) == maxZoom'
  {
    pl' := pl;
    maxZoom' := maxZoom;
    var i := 0;
    while i < |ks|
      invariant 0 <= i <= |ks| && |pl'| == |pl|
      invariant forall j :: 0 <= j < i ==> pl'[ks[j]] == Place(m, pl[v], rays[j], ang[j])
      invariant forall j :: i <= j < |ks| ==> pl'[ks[j]] == pl[ks[j]]
      invariant forall u :: 0 <= u < |pl| && t.up[u] != v ==> pl'[u] == pl[u]
      invariant maxZoom <= maxZoom'
      invariant forall j :: 0 <= j < i ==> Zoom(rays[j]) <= maxZoom'
      invariant maxZoom' == maxZoom || exists j :: 0 <= j < i && Zoom(rays[j]) == maxZoom'
    {
      var alpha := ang[i];
      var pos := ChildPos(m, pl[v].x, pl[v].y, dist[i], alpha);
      var z := Zoom(rays[i]);
      pl' := pl'[ks[i] := Placement(rays[i], alpha, pos.0, pos.1, z)];
      if maxZoom' < z {
        maxZoom' := z;
      }
      i := i + 1;
    }
  }

  /** Before the second loop: the running total is positive when there are children, and
      the half-angle the loop computes for each child is its share of the fan. */
  lemma AnglesReady(m: Numerics, t: Tree, v: nat, tot: real)
    requires Sound(m) && IsForest(t) && v < |t.up|
    requires tot == Sum(Weights(m, t, Kids(t, v)))
    ensures Kids(t, v) != [] ==> tot > 0.0
    ensures forall k :: 0 <= k < |Kids(t, v)| ==>
      var a := HalfAngle(m.sqrt(LeafCount(t, Kids(t, v)[k]) as real), tot);
      a == Fan(m, t, v)[k] && 0.0 < a <= 90.0 && (Special(t, v) != 1 && Special(t, v) != 2 ==> a < 90.0)
  {
    if Kids(t, v) != [] {
      FanEntry(m, t, v, 0, tot);
    }
    forall k | 0 <= k < |Kids(t, v)|
      ensures var a := HalfAngle(m.sqrt(LeafCount(t, Kids(t, v)[k]) as real), tot);
        a == Fan(m, t, v)[k] && 0.0 < a <= 90.0 && (Special(t, v) != 1 && Special(t, v) != 2 ==> a < 90.0)
    {
      FanEntry(m, t, v, k, tot);
    }
  }

  /** After the third loop: what the two loops computed for each child is its `ChildPlacement`. */
  lemma ChildrenPlaced(m: Numerics, t: Tree, v: nat, pp: Placement, rays: seq<real>, ang: seq<real>)
    requires Sound(m) && IsForest(t) && v < |t.up| && pp.ray > 0.0
    requires |rays| == |Kids(t, v)| && ang == Orientations(Fan(m, t, v), pp.alpha)
    requires forall k :: 0 <= k < |rays| ==> rays[k] == KidRay(m, t, v, k, pp.ray)
    ensures forall k :: 0 <= k < |rays| ==> rays[k] > 0.0 && Place(m, pp, rays[k], ang[k]) == ChildPlacement(m, t, v, k, pp)
  {
  }

  /** The first two loops over the children of `v`, which has radius `R`: the half-angle of
      each child's wedge, its radius and its distance to `v`, listed in child order. */
  method ChildRays(m: Numerics, t: Tree, v: nat, R: real)
    returns (ks: seq<nat>, angles: seq<real>, rays: seq<real>, dist: seq<real>)
    requires Sound(m) && IsForest(t) && v < |t.up| && R > 0.0
    ensures ks == Kids(t, v) && angles == Fan(m, t, v)
    ensures |rays| == |ks| && |dist| == |ks|
    ensures forall k :: 0 <= k < |ks| ==> rays[k] == KidRay(m, t, v, k, R) && dist[k] == R - rays[k]
  {
    ks := Kids(t, v);
    var special := 0;
    if |ks| == 1 && LeafCount(t, v) > 1 {
      special := 1;
    }
    if |ks| == 1 && LeafCount(t, v) == 1 {
      special := 2;
    }
    assert special == Special(t, v);
    var tot := TotalWeight(m, t, ks);
    AnglesReady(m, t, v, tot);
    angles, rays, dist := SetRays(m, t, v, ks, special, tot, R);
    assert angles == Fan(m, t, v);
  }

  /** One node's turn in the first pass: its children's half-angles, radii, orientations,
      positions and zoom levels, and the running maximum zoom level. */
  method PlaceChildren(m: Numerics, t: Tree, v: nat, pl: seq<Placement>, maxZoom: nat)
    returns (pl': seq<Placement>, maxZoom': nat)
    requires Sound(m) && IsForest(t) && v < |t.up| && |pl| == |t.up| && pl[v].ray > 0.0
    ensures |pl'| == |pl|
    ensures forall k :: 0 <= k < |Kids(t, v)| ==> pl'[Kids(t, v)[k]] == ChildPlacement(m, t, v, k, pl[v])
    ensures forall u :: 0 <= u < |pl| && t.up[u] != v ==> pl'[u] == pl[u]
    ensures maxZoom <= maxZoom'
    ensures forall k :: 0 <= k < |Kids(t, v)| ==> pl'[Kids(t, v)[k]].zoom <= maxZoom'
    ensures maxZoom' == maxZoom || exists k :: 0 <= k < |Kids(t, v)| && pl'[Kids(t, v)[k]].zoom == maxZoom'
  {
    var ks, angles, rays, dist := ChildRays(m, t, v, pl[v].ray);
    KidsIncreasing(t, v);
    var ang := Orientations(angles, pl[v].alpha);
    ChildrenPlaced(m, t, v, pl[v], rays, ang);
    pl', maxZoom' := SetPositions(m, t, v, ks, pl, ang, rays, dist, maxZoom);
  }

  // ---------------------------------------------------------------------------
  // Feature ids of the first pass

  /** The id the first pass gives node `v`: leaves are numbered from `starti + 1` in
      visiting order, internal nodes from `starti + len(t) + 1`. */
  function NodeId(t: Tree, starti: int, v: nat): int
    requires IsForest(t) && v < |t.up|
  {
    if IsLeaf(t, v) then starti + 1 + LeavesBefore(t, v)
    else starti + LeavesBefore(t, |t.up|) + 1 + (v - LeavesBefore(t, v))
  }

  lemma {:induction false} LeavesBeforeGrow(t: Tree, u: nat, v: nat)
    requires IsForest(t) && u <= v <= |t.up|
    ensures LeavesBefore(t, u) <= LeavesBefore(t, v)
    ensures u - LeavesBefore(t, u) <= v - LeavesBefore(t, v)
    decreases v - u
  {
    if u < v {
      LeavesBeforeGrow(t, u, v - 1);
    }
  }

  /** Leaves get `starti + 1 .. starti + len(t)`, internal nodes the ids after them up to
      `starti + |t|`, and no two nodes share an id. */
  lemma NodeIdsDistinct(t: Tree, starti: int, u: nat, v: nat)
    requires IsForest(t) && u < v < |t.up|
    ensures starti < NodeId(t, starti, u) <= starti + |t.up|
    ensures IsLeaf(t, u) <==> NodeId(t, starti, u) <= starti + LeavesBefore(t, |t.up|)
    ensures NodeId(t, starti, u) != NodeId(t, starti, v)
    ensures IsLeaf(t, u) == IsLeaf(t, v) ==> NodeId(t, starti, u) < NodeId(t, starti, v)
  {
    var n := |t.up|;
    var lu, lv := IsLeaf(t, u), IsLeaf(t, v);
    assert LeavesBefore(t, u + 1) == LeavesBefore(t, u) + (if lu then 1 else 0);
    assert LeavesBefore(t, v + 1) == LeavesBefore(t, v) + (if lv then 1 else 0);
    LeavesBeforeGrow(t, 0, u);
    LeavesBeforeGrow(t, u + 1, v);
    LeavesBeforeGrow(t, v + 1, n);
    LeavesBeforeGrow(t, u + 1, n);
  }

  /** Every node's id lies in `starti + 1 .. starti + len(t)`. */
  lemma NodeIdRange(t: Tree, starti: int, v: nat)
    requires IsForest(t) && v < |t.up|
    ensures starti < NodeId(t, starti, v) <= starti + |t.up|
  {
    assert LeavesBefore(t, v + 1) == LeavesBefore(t, v) + (if IsLeaf(t, v) then 1 else 0);
    LeavesBeforeGrow(t, 0, v);
    LeavesBeforeGrow(t, v + 1, |t.up|);
  }

  /** The two counters of the first pass after `v` nodes: a leaf takes the next leaf id, an
      internal node the next internal id, and both counters stay in step with `LeavesBefore`. */
  lemma NextId(t: Tree, starti: int, v: nat, spid: int, ndid: int)
    requires IsForest(t) && v < |t.up|
    requires spid == starti + LeavesBefore(t, v)
    requires ndid == starti + LeavesBefore(t, |t.up|) + (v - LeavesBefore(t, v))
    ensures IsLeaf(t, v) ==> spid + 1 == NodeId(t, starti, v) && spid + 1 == starti + LeavesBefore(t, v + 1)
                             && ndid == starti + LeavesBefore(t, |t.up|) + (v + 1 - LeavesBefore(t, v + 1))
    ensures !IsLeaf(t, v) ==> ndid + 1 == NodeId(t, starti, v) && spid == starti + LeavesBefore(t, v + 1)
                              && ndid + 1 == starti + LeavesBefore(t, |t.up|) + (v + 1 - LeavesBefore(t, v + 1))
  {
    var leaf := IsLeaf(t, v);
    assert LeavesBefore(t, v + 1) == LeavesBefore(t, v) + (if leaf then 1 else 0);
  }

  // ---------------------------------------------------------------------------
  // First pass

  /** One row of the `points` table. */
  datatype PointRecord = PointRecord(id: int, taxid: string, group: string, sciName: string,
                                     commonNameEn: string, rankEn: string, nbdesc: nat, zoom: nat,
                                     tip: bool, at: Point)

  /** The row the first pass writes for node `v` once its fields are set. */
  function PointOf(t: Tree, g: Group, starti: int, p: Placement, v: nat): PointRecord
    requires IsForest(t) && v < |t.up|
  {
    var tx := t.taxa[v];
    PointRecord(NodeId(t, starti, v), tx.taxid, GroupNb(g), tx.sciName, tx.commonName.en,
                tx.rank.en, LeafCount(t, v), p.zoom, IsLeaf(t, v), (p.x, p.y))
  }

  /** Where the first pass puts node `v`: the group's anchor for the root, and for every
      other node the placement its parent gives its child at that position. */
  ghost function Placed(m: Numerics, t: Tree, g: Group, v: nat): (p: Placement)
    requires Sound(m) && IsTree(t) && v < |t.up|
    ensures p.ray > 0.0
    decreases v, 1
  {
    if v == 0 then RootPlacement(g) else PlacedBelow(m, t, g, v)
  }

  /** Where the first pass puts a node other than the root: where its parent, once placed,
      puts the child at its position. */
  ghost function PlacedBelow(m: Numerics, t: Tree, g: Group, v: nat): (p: Placement)
    requires Sound(m) && IsTree(t) && 1 <= v < |t.up|
    ensures p.ray > 0.0
    decreases v, 0
  {
    ChildPlacement(m, t, t.up[v], KidIndex(t, v), Placed(m, t, g, t.up[v]))
  }

  /** The `k`-th child of `p` is placed as `ChildPlacement` says from where `p` is: inside the
      parent's disc, with a smaller radius and a zoom level no lower than the parent's. */
  lemma PlacedChild(m: Numerics, t: Tree, g: Group, p: nat, k: nat)
    requires Sound(m) && IsTree(t) && p < |t.up| && k < |Kids(t, p)|
    ensures Placed(m, t, g, Kids(t, p)[k]) == ChildPlacement(m, t, p, k, Placed(m, t, g, p))
    ensures Placed(m, t, g, Kids(t, p)[k]).ray < Placed(m, t, g, p).ray
    ensures Placed(m, t, g, p).zoom <= Placed(m, t, g, Kids(t, p)[k]).zoom
  {
    KidIndexOf(t, p, k);
  }

  /** The branch from a node to each child has the length that makes the child's circle
      touch the inside of its parent's. */
  lemma PlacedFits(m: Numerics, t: Tree, g: Group, p: nat, k: nat)
    requires Sound(m) && Pythagorean(m) && IsTree(t) && p < |t.up| && k < |Kids(t, p)|
    ensures BranchFits(Placed(m, t, g, p), Placed(m, t, g, Kids(t, p)[k]))
  {
    PlacedChild(m, t, g, p, k);
    ChildPlacementFits(m, t, p, k, Placed(m, t, g, p));
  }

  // ---------------------------------------------------------------------------
  // The first pass, node by node

  /** Before node `v`'s turn: the root and every node whose parent has had its turn are
      where `Placed` says. */
  ghost predicate PlacedBefore(m: Numerics, t: Tree, g: Group, pl: seq<Placement>, v: nat)
  {
    && Sound(m) && IsTree(t) && |pl| == |t.up|
    && forall u {:trigger Placed(m, t, g, u)} :: 0 <= u < |t.up| && (u == 0 || t.up[u] < v) ==> pl[u] == Placed(m, t, g, u)
  }

  /** Before node `v`'s turn: `z` is the largest zoom level of the nodes placed so far, the
      root's aside (0 when there is none). */
  ghost predicate ZoomMaxBefore(t: Tree, pl: seq<Placement>, v: nat, z: nat)
  {
    && IsForest(t) && |pl| == |t.up|
    && (forall u {:trigger pl[u]} :: 1 <= u < |t.up| && t.up[u] < v ==> pl[u].zoom <= z)
    && (z == 0 || exists u :: 1 <= u < |t.up| && t.up[u] < v && pl[u].zoom == z)
  }

  /** Before node `v`'s turn: the rows written are those of nodes `0 .. v - 1`. */
  ghost predicate RowsBefore(t: Tree, g: Group, starti: int, pl: seq<Placement>, points: seq<PointRecord>, v: nat)
  {
    && IsForest(t) && v <= |t.up| && |pl| == |t.up| && |points| == v
    && forall u {:trigger points[u]} :: 0 <= u < v ==> points[u] == PointOf(t, g, starti, pl[u], u)
  }

  /** Before node `v`'s turn, every node before it has been placed. */
  lemma PlacedSoFar(m: Numerics, t: Tree, g: Group, pl: seq<Placement>, v: nat)
    requires PlacedBefore(m, t, g, pl, v) && v < |t.up|
    ensures pl[v] == Placed(m, t, g, v) && pl[v].ray > 0.0
  {
    assert pl[v] == Placed(m, t, g, v);
  }

  /** Node `v`'s turn leaves every node whose parent has had its turn where `Placed` says,
      given that this held before the turn. */
  lemma TurnPlaces(m: Numerics, t: Tree, g: Group, v: nat, pl: seq<Placement>, pl': seq<Placement>)
    requires PlacedBefore(m, t, g, pl, v) && v < |t.up| && |pl'| == |t.up| && pl[v].ray > 0.0
    requires forall k :: 0 <= k < |Kids(t, v)| ==> pl'[Kids(t, v)[k]] == ChildPlacement(m, t, v, k, pl[v])
    requires forall u :: 0 <= u < |pl| && t.up[u] != v ==> pl'[u] == pl[u]
    ensures PlacedBefore(m, t, g, pl', v + 1)
  {
    PlacedSoFar(m, t, g, pl, v);
    forall u | 0 <= u < |t.up| && (u == 0 || t.up[u] < v + 1)
      ensures pl'[u] == Placed(m, t, g, u)
    {
      if u != 0 && t.up[u] == v {
        var k := KidIndex(t, u);
        assert pl'[Kids(t, v)[k]] == ChildPlacement(m, t, v, k, pl[v]);
      } else {
        assert pl[u] == Placed(m, t, g, u);
      }
    }
  }

  /** Node `v`'s turn keeps `maxZoom` the largest zoom level of the nodes placed so far, the
      root's aside. */
  lemma TurnZooms(t: Tree, v: nat, pl: seq<Placement>, pl': seq<Placement>, z: nat, z': nat)
    requires ZoomMaxBefore(t, pl, v, z) && v < |t.up| && |pl'| == |t.up|
    requires forall u :: 0 <= u < |pl| && t.up[u] != v ==> pl'[u] == pl[u]
    requires z <= z' && forall k :: 0 <= k < |Kids(t, v)| ==> pl'[Kids(t, v)[k]].zoom <= z'
    requires z' == z || exists k :: 0 <= k < |Kids(t, v)| && pl'[Kids(t, v)[k]].zoom == z'
    ensures ZoomMaxBefore(t, pl', v + 1, z')
  {
    forall u | 1 <= u < |t.up| && t.up[u] < v + 1
      ensures pl'[u].zoom <= z'
    {
      if t.up[u] == v {
        KidsComplete(t, v, u);
      } else {
        assert pl[u].zoom <= z;
      }
    }
    if z' != z {
      var k :| 0 <= k < |Kids(t, v)| && pl'[Kids(t, v)[k]].zoom == z';
      var u := Kids(t, v)[k];
      assert 1 <= u < |t.up| && t.up[u] < v + 1 && pl'[u].zoom == z';
    } else if z != 0 {
      var u :| 1 <= u < |t.up| && t.up[u] < v && pl[u].zoom == z;
      assert pl'[u].zoom == z';
    }
  }

  /** `n` copies of `p`. */
  function Fill(p: Placement, n: nat): (s: seq<Placement>)
    ensures |s| == n && forall i :: 0 <= i < n ==> s[i] == p
  {
    if n == 0 then [] else Fill(p, n - 1) + [p]
  }

  /** The row of node `v`: it takes the next leaf id or the next internal id, and the row
      holds its taxon's names, its leaf count, zoom level and position. */
  method WriteRow(t: Tree, g: Group, starti: int, v: nat, p: Placement, points: seq<PointRecord>,
                  spid: int, ndid: int)
    returns (points': seq<PointRecord>, spid': int, ndid': int)
    requires IsForest(t) && v < |t.up|
    requires spid == starti + LeavesBefore(t, v)
    requires ndid == starti + LeavesBefore(t, |t.up|) + (v - LeavesBefore(t, v))
    ensures points' == points + [PointOf(t, g, starti, p, v)]
    ensures spid' == starti + LeavesBefore(t, v + 1)
    ensures ndid' == starti + LeavesBefore(t, |t.up|) + (v + 1 - LeavesBefore(t, v + 1))
  {
    NextId(t, starti, v, spid, ndid);
    spid', ndid' := spid, ndid;
    var id;
    if IsLeaf(t, v) {
      spid' := spid + 1;
      id := spid';
    } else {
      ndid' := ndid + 1;
      id := ndid';
    }
    var tx := t.taxa[v];
    var row := PointRecord(id, tx.taxid, GroupNb(g), tx.sciName, tx.commonName.en, tx.rank.en,
                           LeafCount(t, v), p.zoom, IsLeaf(t, v), (p.x, p.y));
    points' := points + [row];
  }

  /** The rows written so far stay those of the nodes' placements when node `v`'s turn
      moves only its children, which come after it. */
  lemma RowsKept(t: Tree, g: Group, starti: int, v: nat, pl: seq<Placement>, pl': seq<Placement>,
                 points: seq<PointRecord>, points': seq<PointRecord>)
    requires RowsBefore(t, g, starti, pl, points, v) && v < |t.up| && |pl'| == |t.up|
    requires points' == points + [PointOf(t, g, starti, pl[v], v)]
    requires forall u :: 0 <= u < |pl| && t.up[u] != v ==> pl'[u] == pl[u]
    ensures RowsBefore(t, g, starti, pl', points', v + 1)
  {
    forall u | 0 <= u < v + 1
      ensures points'[u] == PointOf(t, g, starti, pl'[u], u)
    {
      assert pl'[u] == pl[u];
      if u < v {
        assert points'[u] == points[u];
      }
    }
  }

  ghost predicate PassInv(m: Numerics, t: Tree, g: Group, starti: int, pl: seq<Placement>,
                          points: seq<PointRecord>, spid: int, ndid: int, maxZoom: nat, v: nat)
  {
    && v <= |t.up|
    && PlacedBefore(m, t, g, pl, v) && ZoomMaxBefore(t, pl, v, maxZoom)
    && RowsBefore(t, g, starti, pl, points, v)
    && spid == starti + LeavesBefore(t, v)
    && ndid == starti + LeavesBefore(t, |t.up|) + (v - LeavesBefore(t, v))
  }

  /** Node `v`'s turn in the first pass: its row is written, then its children are placed
      and the maximum takes in their zoom levels. The counters stand at the numbers of leaves
      and of internal nodes seen. */
  method Visit(m: Numerics, t: Tree, g: Group, starti: int, v: nat, pl: seq<Placement>,
               points: seq<PointRecord>, spid: int, ndid: int, maxZoom: nat)
    returns (v': nat, pl': seq<Placement>, points': seq<PointRecord>, spid': int, ndid': int, maxZoom': nat)
    requires v < |t.up| && PassInv(m, t, g, starti, pl, points, spid, ndid, maxZoom, v)
    ensures v' == v + 1 && PassInv(m, t, g, starti, pl', points', spid', ndid', maxZoom', v')
  {
    PlacedSoFar(m, t, g, pl, v);
    points', spid', ndid' := WriteRow(t, g, starti, v, pl[v], points, spid, ndid);
    pl', maxZoom' := PlaceChildren(m, t, v, pl, maxZoom);
    TurnPlaces(m, t, g, v, pl, pl');
    TurnZooms(t, v, pl, pl', maxZoom, maxZoom');
    RowsKept(t, g, starti, v, pl, pl', points, points');
    v' := v + 1;
  }

  /** Before the first turn only the root is placed, at its group's anchor, and nothing is
      written. */
  lemma PassStart(m: Numerics, t: Tree, g: Group, starti: int)
    requires Sound(m) && IsTree(t)
    ensures var pl := Fill(RootPlacement(g), |t.up|);
      PlacedBefore(m, t, g, pl, 0) && ZoomMaxBefore(t, pl, 0, 0) && RowsBefore(t, g, starti, pl, [], 0)
  {
    var pl := Fill(RootPlacement(g), |t.up|);
    assert pl[0] == Placed(m, t, g, 0);
  }

  /** After the last turn every node is placed where `Placed` says, every row is written,
      `maxZoom` is the largest zoom level of a node other than the root, and the two counters
      have handed out one id per leaf and one per internal node. */
  lemma PassDone(m: Numerics, t: Tree, g: Group, starti: int, pl: seq<Placement>, points: seq<PointRecord>,
                 spid: int, ndid: int, z: nat)
    requires PassInv(m, t, g, starti, pl, points, spid, ndid, z, |t.up|)
    ensures |pl| == |t.up| && forall v {:trigger pl[v]} :: 0 <= v < |t.up| ==> pl[v] == Placed(m, t, g, v)
    ensures |points| == |t.up| && forall v {:trigger points[v]} :: 0 <= v < |t.up| ==> points[v] == PointOf(t, g, starti, pl[v], v)
    ensures forall v {:trigger pl[v]} :: 1 <= v < |t.up| ==> pl[v].zoom <= z
    ensures z == 0 || exists v :: 1 <= v < |t.up| && pl[v].zoom == z
    ensures spid == starti + LeafCount(t, 0) && ndid == starti + |t.up|
  {
    forall v | 0 <= v < |t.up|
      ensures pl[v] == Placed(m, t, g, v) && (v >= 1 ==> pl[v].zoom <= z)
    {
      assert v == 0 || t.up[v] < |t.up|;
    }
    RootLeafCount(t);
  }

  /** The first traversal, in level order: ids, leaf counts, placements, zoom levels and the
      `points` rows. */
  method LayoutPass(m: Numerics, t: Tree, g: Group, starti: int)
    returns (pl: seq<Placement>, points: seq<PointRecord>, spid: int, ndid: int, maxZoom: nat)
    requires Sound(m) && IsTree(t)
    ensures |pl| == |t.up| && forall v {:trigger pl[v]} :: 0 <= v < |t.up| ==> pl[v] == Placed(m, t, g, v)
    ensures |points| == |t.up| && forall v {:trigger points[v]} :: 0 <= v < |t.up| ==> points[v] == PointOf(t, g, starti, pl[v], v)
    ensures forall v {:trigger pl[v]} :: 1 <= v < |t.up| ==> pl[v].zoom <= maxZoom
    ensures maxZoom == 0 || exists v :: 1 <= v < |t.up| && pl[v].zoom == maxZoom
    ensures spid == starti + LeafCount(t, 0) && ndid == starti + |t.up|
  {
    var n := |t.up|;
    pl := Fill(RootPlacement(g), n);
    PassStart(m, t, g, starti);
    RootLeafCount(t);
    spid := starti;
    ndid := starti + LeafCount(t, 0);
    maxZoom := 0;
    points := [];
    var v := 0;
    while v < n
      invariant PassInv(m, t, g, starti, pl, points, spid, ndid, maxZoom, v)
    {
      v, pl, points, spid, ndid, maxZoom := Visit(m, t, g, starti, v, pl, points, spid, ndid, maxZoom);
    }
    PassDone(m, t, g, starti, pl, points, spid, ndid, maxZoom);
  }

  // ---------------------------------------------------------------------------
  // Feature ids of the second pass

  /** How far node `v`'s turn moves the counter: one id for the branch up to its parent
      unless it is the root, and a block of 63 for its clade unless it is a leaf. */
  function Step(t: Tree, v: nat): nat
    requires IsForest(t) && v < |t.up|
  {
    (if t.up[v] >= 0 then 1 else 0) + (if IsLeaf(t, v) then 0 else 63)
  }

  /** The counter's advance over the turns of nodes `0 .. n - 1`. */
  function Offset(t: Tree, n: nat): nat
    requires IsForest(t) && n <= |t.up|
  {
    if n == 0 then 0 else Offset(t, n - 1) + Step(t, n - 1)
  }

  /** In a tree the counter advances by one for every node but the root and by 63 for
      every internal node. */
  lemma {:induction false} OffsetClosed(t: Tree, n: nat)
    requires IsTree(t) && 1 <= n <= |t.up|
    ensures Offset(t, n) == (n - 1) + 63 * (n - LeavesBefore(t, n))
  {
    if n > 1 {
      OffsetClosed(t, n - 1);
    }
  }

  lemma {:induction false} OffsetGrows(t: Tree, u: nat, v: nat)
    requires IsForest(t) && u <= v <= |t.up|
    ensures Offset(t, u) <= Offset(t, v)
    decreases v - u
  {
    if u < v {
      OffsetGrows(t, u, v - 1);
    }
  }

  /** The id of the branch from node `v` up to its parent. */
  function BranchId(t: Tree, ndid0: int, v: nat): int
    requires IsForest(t) && v < |t.up|
  {
    ndid0 + Offset(t, v) + 1
  }

  /** The counter just before node `v`'s clade block. */
  function BlockStart(t: Tree, ndid0: int, v: nat): int
    requires IsForest(t) && v < |t.up|
  {
    ndid0 + Offset(t, v) + (if t.up[v] >= 0 then 1 else 0)
  }

  /** The block `ndid + 1 .. ndid + 63`. */
  function Block(ndid: int): (ids: seq<int>)
    ensures |ids| == 63 && forall i :: 0 <= i < 63 ==> ids[i] == ndid + 1 + i
  {
    seq(63, i requires 0 <= i < 63 => ndid + 1 + i)
  }

  /** `np.linspace(ndid + 1, ndid + 63, num=63)` samples exactly the integers of the block. */
  lemma BlockIsLinspace(ndid: int)
    ensures forall i :: 0 <= i < 63 ==> Linspace((ndid + 1) as real, (ndid + 63) as real, 63)[i] == Block(ndid)[i] as real
  {
  }

  // ---------------------------------------------------------------------------
  // Records of the second pass

  /** `get_way_record` for node `v`, which is not the root. */
  function BranchOf(m: Numerics, t: Tree, g: Group, ndid0: int, pl: seq<Placement>, v: nat): Branch
    requires Sound(m) && IsForest(t) && |pl| == |t.up| && v < |t.up| && t.up[v] >= 0
  {
    var u := t.up[v];
    BranchRecord(m, BranchId(t, ndid0, v), GroupNb(g), t.taxa[u], pl[u], t.taxa[v], pl[v])
  }

  /** `get_polyg_record` for node `v`, which is not a leaf, from its block of ids. */
  function CladeAt(m: Numerics, rev: Revision, t: Tree, g: Group, ndid0: int, pl: seq<Placement>, v: nat)
    : (Polygon, Centre, RankLine)
    requires Sound(m) && Pythagorean(m) && IsForest(t) && |pl| == |t.up| && v < |t.up|
  {
    CladeOf(m, rev, Block(BlockStart(t, ndid0, v)), GroupNb(g), t.taxa[v], pl[v], LeafCount(t, v))
  }

  /** The nodes among `0 .. n - 1` that have a parent, in visiting order. */
  function NonRoots(t: Tree, n: nat): (ks: seq<nat>)
    requires IsForest(t) && n <= |t.up|
    ensures forall i :: 0 <= i < |ks| ==> ks[i] < n && t.up[ks[i]] >= 0
    ensures forall i, j :: 0 <= i < j < |ks| ==> ks[i] < ks[j]
  {
    if n == 0 then [] else NonRoots(t, n - 1) + (if t.up[n - 1] >= 0 then [n - 1] else [])
  }

  /** The nodes among `0 .. n - 1` that are not leaves, in visiting order. */
  function Internals(t: Tree, n: nat): (ks: seq<nat>)
    requires IsForest(t) && n <= |t.up|
    ensures forall i :: 0 <= i < |ks| ==> ks[i] < n && !IsLeaf(t, ks[i])
    ensures forall i, j :: 0 <= i < j < |ks| ==> ks[i] < ks[j]
  {
    if n == 0 then [] else Internals(t, n - 1) + (if IsLeaf(t, n - 1) then [] else [n - 1])
  }

  /** The branch records of the turns of nodes `0 .. n - 1`, in visiting order. */
  function Branches(m: Numerics, t: Tree, g: Group, ndid0: int, pl: seq<Placement>, n: nat): seq<Branch>
    requires Sound(m) && IsForest(t) && |pl| == |t.up| && n <= |t.up|
  {
    var ks := NonRoots(t, n);
    seq(|ks|, i requires 0 <= i < |ks| => BranchOf(m, t, g, ndid0, pl, ks[i]))
  }

  /** The polygon, centre and rank-line records of the turns of nodes `0 .. n - 1`. */
  function Clades(m: Numerics, rev: Revision, t: Tree, g: Group, ndid0: int, pl: seq<Placement>, n: nat)
    : seq<(Polygon, Centre, RankLine)>
    requires Sound(m) && Pythagorean(m) && IsForest(t) && |pl| == |t.up| && n <= |t.up|
  {
    var ks := Internals(t, n);
    seq(|ks|, i requires 0 <= i < |ks| => CladeAt(m, rev, t, g, ndid0, pl, ks[i]))
  }

  /** The search entries of nodes `0 .. n - 1`. */
  function Entries(rev: Revision, t: Tree, pl: seq<Placement>, n: nat): seq<seq<(Key, JsonValue)>>
    requires IsForest(t) && |pl| == |t.up| && n <= |t.up|
  {
    seq(n, v requires 0 <= v < n => Node2Json(rev, t.taxa[v], pl[v], LeafCount(t, v)))
  }

  /** The `ascends` rows of nodes `0 .. n - 1`: taxid and ancestor chain. */
  function Ascends(t: Tree, n: nat): seq<(string, seq<string>)>
    requires IsForest(t) && n <= |t.up|
  {
    seq(n, v requires 0 <= v < n => (t.taxa[v].taxid, AscendOf(t, v)))
  }

  /** There is one branch per node other than the root. */
  lemma {:induction false} BranchCount(t: Tree, n: nat)
    requires IsTree(t) && 1 <= n <= |t.up|
    ensures |NonRoots(t, n)| == n - 1
  {
    if n > 1 {
      BranchCount(t, n - 1);
    }
  }

  /** There is one clade per internal node. */
  lemma {:induction false} CladeCount(t: Tree, n: nat)
    requires IsForest(t) && n <= |t.up|
    ensures |Internals(t, n)| == n - LeavesBefore(t, n)
  {
    if n > 0 {
      CladeCount(t, n - 1);
    }
  }

  /** The ids of the branch records of the turns of nodes `0 .. n - 1`. */
  function BranchIdList(t: Tree, ndid0: int, n: nat): seq<int>
    requires IsForest(t) && n <= |t.up|
  {
    var ks := NonRoots(t, n);
    seq(|ks|, i requires 0 <= i < |ks| => BranchId(t, ndid0, ks[i]))
  }

  /** The counter just before each clade block of the turns of nodes `0 .. n - 1`. */
  function BlockList(t: Tree, ndid0: int, n: nat): seq<int>
    requires IsForest(t) && n <= |t.up|
  {
    var ks := Internals(t, n);
    seq(|ks|, i requires 0 <= i < |ks| => BlockStart(t, ndid0, ks[i]))
  }

  /** Branch ids increase from one record to the next, and all were handed out during
      the turns so far. */
  lemma BranchIdsIncrease(t: Tree, ndid0: int, n: nat)
    requires IsForest(t) && n <= |t.up|
    ensures forall i :: 0 <= i < |BranchIdList(t, ndid0, n)| ==>
      ndid0 < BranchIdList(t, ndid0, n)[i] <= ndid0 + Offset(t, n)
    ensures forall i, j :: 0 <= i < j < |BranchIdList(t, ndid0, n)| ==>
      BranchIdList(t, ndid0, n)[i] < BranchIdList(t, ndid0, n)[j]
  {
    var ids, ks := BranchIdList(t, ndid0, n), NonRoots(t, n);
    forall i | 0 <= i < |ids|
      ensures ndid0 < ids[i] <= ndid0 + Offset(t, n)
    {
      OffsetGrows(t, ks[i] + 1, n);
    }
    forall i, j | 0 <= i < j < |ids|
      ensures ids[i] < ids[j]
    {
      OffsetGrows(t, ks[i] + 1, ks[j]);
    }
  }

  /** Clade blocks follow one another without overlap, and all were handed out during the
      turns so far. */
  lemma BlocksIncrease(t: Tree, ndid0: int, n: nat)
    requires IsForest(t) && n <= |t.up|
    ensures forall i :: 0 <= i < |BlockList(t, ndid0, n)| ==>
      ndid0 <= BlockList(t, ndid0, n)[i] && BlockList(t, ndid0, n)[i] + 63 <= ndid0 + Offset(t, n)
    ensures forall i, j :: 0 <= i < j < |BlockList(t, ndid0, n)| ==>
      BlockList(t, ndid0, n)[i] + 63 <= BlockList(t, ndid0, n)[j]
  {
    var bs, ks := BlockList(t, ndid0, n), Internals(t, n);
    forall i | 0 <= i < |bs|
      ensures ndid0 <= bs[i] && bs[i] + 63 <= ndid0 + Offset(t, n)
    {
      OffsetGrows(t, ks[i] + 1, n);
    }
    forall i, j | 0 <= i < j < |bs|
      ensures bs[i] + 63 <= bs[j]
    {
      OffsetGrows(t, ks[i] + 1, ks[j]);
    }
  }

  /** Each branch record carries the id of its turn. */
  lemma BranchesIds(m: Numerics, t: Tree, g: Group, ndid0: int, pl: seq<Placement>, n: nat)
    requires Sound(m) && IsForest(t) && |pl| == |t.up| && n <= |t.up|
    ensures |Branches(m, t, g, ndid0, pl, n)| == |BranchIdList(t, ndid0, n)|
    ensures forall i :: 0 <= i < |BranchIdList(t, ndid0, n)| ==>
      Branches(m, t, g, ndid0, pl, n)[i].id == BranchIdList(t, ndid0, n)[i]
  {
  }

  /** Each clade's polygon, centre and rank line take ids 61, 62 and 63 into its block. */
  lemma CladesIds(m: Numerics, rev: Revision, t: Tree, g: Group, ndid0: int, pl: seq<Placement>, n: nat)
    requires Sound(m) && Pythagorean(m) && IsForest(t) && |pl| == |t.up| && n <= |t.up|
    ensures |Clades(m, rev, t, g, ndid0, pl, n)| == |BlockList(t, ndid0, n)|
    ensures forall i :: 0 <= i < |BlockList(t, ndid0, n)| ==>
      var c, b := Clades(m, rev, t, g, ndid0, pl, n)[i], BlockList(t, ndid0, n)[i];
      c.0.id == b + 61 && c.1.id == b + 62 && c.2.id == b + 63
  {
  }

  /** No branch id falls inside a clade block: a node's branch id comes just before its own
      block, after the blocks of earlier nodes and before those of later ones. */
  lemma BranchesMissBlocks(t: Tree, ndid0: int, n: nat)
    requires IsForest(t) && n <= |t.up|
    ensures forall i, j :: 0 <= i < |BranchIdList(t, ndid0, n)| && 0 <= j < |BlockList(t, ndid0, n)| ==>
      BranchIdList(t, ndid0, n)[i] <= BlockList(t, ndid0, n)[j] || BlockList(t, ndid0, n)[j] + 63 < BranchIdList(t, ndid0, n)[i]
  {
    var ids, bs := BranchIdList(t, ndid0, n), BlockList(t, ndid0, n);
    var vs, us := NonRoots(t, n), Internals(t, n);
    forall i, j | 0 <= i < |ids| && 0 <= j < |bs|
      ensures ids[i] <= bs[j] || bs[j] + 63 < ids[i]
    {
      var v, u := vs[i], us[j];
      if v < u {
        OffsetGrows(t, v + 1, u);
      } else if u < v {
        OffsetGrows(t, u + 1, v);
      }
    }
  }

  // ---------------------------------------------------------------------------
  // Second pass

  /** `ancestors`: walks up from `v` to the root collecting the parents' taxids, then
      closes the list with the sentinel "0". */
  method AscendChain(t: Tree, v: nat) returns (asc: seq<string>)
    requires IsForest(t) && v < |t.up|
    ensures asc == AscendOf(t, v)
  {
    asc := [];
    var node: int := v;
    while t.up[node] >= 0
      invariant 0 <= node < |t.up|
      invariant asc + AscendOf(t, node) == AscendOf(t, v)
      decreases node
    {
      var p := t.up[node];
      assert asc + AscendOf(t, node) == (asc + [t.taxa[p].taxid]) + AscendOf(t, p);
      asc := asc + [t.taxa[p].taxid];
      node := p;
    }
    asc := asc + ["0"];
  }

  lemma BranchesStep(m: Numerics, t: Tree, g: Group, ndid0: int, pl: seq<Placement>, v: nat)
    requires Sound(m) && IsForest(t) && |pl| == |t.up| && v < |t.up|
    ensures Branches(m, t, g, ndid0, pl, v + 1) == Branches(m, t, g, ndid0, pl, v)
      + (if t.up[v] >= 0 then [BranchOf(m, t, g, ndid0, pl, v)] else [])
  {
    var a, b := Branches(m, t, g, ndid0, pl, v + 1), Branches(m, t, g, ndid0, pl, v);
    var ks, ks0 := NonRoots(t, v + 1), NonRoots(t, v);
    assert ks == ks0 + (if t.up[v] >= 0 then [v] else []);
    forall i | 0 <= i < |b|
      ensures a[i] == b[i]
    {
      assert ks[i] == ks0[i];
    }
  }

  lemma CladesStep(m: Numerics, rev: Revision, t: Tree, g: Group, ndid0: int, pl: seq<Placement>, v: nat)
    requires Sound(m) && Pythagorean(m) && IsForest(t) && |pl| == |t.up| && v < |t.up|
    ensures Clades(m, rev, t, g, ndid0, pl, v + 1) == Clades(m, rev, t, g, ndid0, pl, v)
      + (if IsLeaf(t, v) then [] else [CladeAt(m, rev, t, g, ndid0, pl, v)])
  {
    var a, b := Clades(m, rev, t, g, ndid0, pl, v + 1), Clades(m, rev, t, g, ndid0, pl, v);
    var ks, ks0 := Internals(t, v + 1), Internals(t, v);
    assert ks == ks0 + (if IsLeaf(t, v) then [] else [v]);
    forall i | 0 <= i < |b|
      ensures a[i] == b[i]
    {
      assert ks[i] == ks0[i];
    }
  }

  /** The branch part of node `v`'s turn: unless `v` is the root the counter moves on by one
      and the branch up to its parent is written with the new id. */
  method DrawBranch(m: Numerics, t: Tree, g: Group, ndid0: int, pl: seq<Placement>, v: nat,
                    ndid: int, branches: seq<Branch>)
    returns (ndid': int, branches': seq<Branch>)
    requires Sound(m) && IsForest(t) && |pl| == |t.up| && v < |t.up|
    requires ndid == ndid0 + Offset(t, v) && branches == Branches(m, t, g, ndid0, pl, v)
    ensures ndid' == BlockStart(t, ndid0, v) && branches' == Branches(m, t, g, ndid0, pl, v + 1)
  {
    BranchesStep(m, t, g, ndid0, pl, v);
    ndid', branches' := ndid, branches;
    if t.up[v] >= 0 {
      ndid' := ndid + 1;
      var u := t.up[v];
      branches' := branches + [BranchRecord(m, ndid', GroupNb(g), t.taxa[u], pl[u], t.taxa[v], pl[v])];
    }
  }

  /** The clade part of node `v`'s turn: unless `v` is a leaf its records are built from the
      next 63 ids and the counter moves past them. */
  method DrawClade(m: Numerics, rev: Revision, t: Tree, g: Group, ndid0: int, pl: seq<Placement>, v: nat,
                   ndid: int, clades: seq<(Polygon, Centre, RankLine)>)
    returns (ndid': int, clades': seq<(Polygon, Centre, RankLine)>)
    requires Sound(m) && Pythagorean(m) && IsForest(t) && |pl| == |t.up| && v < |t.up|
    requires ndid == BlockStart(t, ndid0, v) && clades == Clades(m, rev, t, g, ndid0, pl, v)
    ensures ndid' == ndid0 + Offset(t, v + 1) && clades' == Clades(m, rev, t, g, ndid0, pl, v + 1)
  {
    CladesStep(m, rev, t, g, ndid0, pl, v);
    ndid', clades' := ndid, clades;
    if !IsLeaf(t, v) {
      var poly, centre, rank := CladeRecords(m, rev, Block(ndid), GroupNb(g), t.taxa[v], pl[v], LeafCount(t, v));
      clades' := clades + [(poly, centre, rank)];
      ndid' := ndid + 63;
    }
  }

  /** What the second pass has written before node `v`'s turn: the counter has moved past
      the ids of the earlier turns, and the branch, clade, search-entry and (in the current
      revision) ascend rows are those of nodes `0 .. v - 1`. */
  ghost predicate DrawnBefore(m: Numerics, rev: Revision, t: Tree, g: Group, ndid0: int, pl: seq<Placement>,
                              v: nat, ndid: int, branches: seq<Branch>, clades: seq<(Polygon, Centre, RankLine)>,
                              entries: seq<seq<(Key, JsonValue)>>, ascends: seq<(string, seq<string>)>)
  {
    && Sound(m) && Pythagorean(m) && IsForest(t) && |pl| == |t.up| && v <= |t.up|
    && ndid == ndid0 + Offset(t, v)
    && Records(m, rev, t, g, ndid0, pl, v, branches, clades, entries, ascends)
  }

  /** The branch, clade, search-entry and (in the current revision) ascend rows of nodes
      `0 .. v - 1`, with the second pass's ids counted from `ndid0`. */
  ghost predicate Records(m: Numerics, rev: Revision, t: Tree, g: Group, ndid0: int, pl: seq<Placement>,
                          v: nat, branches: seq<Branch>, clades: seq<(Polygon, Centre, RankLine)>,
                          entries: seq<seq<(Key, JsonValue)>>, ascends: seq<(string, seq<string>)>)
    requires Sound(m) && Pythagorean(m) && IsForest(t) && |pl| == |t.up| && v <= |t.up|
  {
    && branches == Branches(m, t, g, ndid0, pl, v)
    && clades == Clades(m, rev, t, g, ndid0, pl, v)
    && entries == Entries(rev, t, pl, v)
    && ascends == (if rev == Current then Ascends(t, v) else [])
  }

  /** Node `v`'s turn in the second pass: its branch, its clade, its search entry and its
      ascend row. */
  method DrawNode(m: Numerics, rev: Revision, t: Tree, g: Group, ndid0: int, pl: seq<Placement>, v: nat,
                  ndid: int, branches: seq<Branch>, clades: seq<(Polygon, Centre, RankLine)>,
                  entries: seq<seq<(Key, JsonValue)>>, ascends: seq<(string, seq<string>)>)
    returns (v': nat, ndid': int, branches': seq<Branch>, clades': seq<(Polygon, Centre, RankLine)>,
             entries': seq<seq<(Key, JsonValue)>>, ascends': seq<(string, seq<string>)>)
    requires v < |t.up| && DrawnBefore(m, rev, t, g, ndid0, pl, v, ndid, branches, clades, entries, ascends)
    ensures v' == v + 1 && DrawnBefore(m, rev, t, g, ndid0, pl, v', ndid', branches', clades', entries', ascends')
  {
    var mid;
    mid, branches' := DrawBranch(m, t, g, ndid0, pl, v, ndid, branches);
    ndid', clades' := DrawClade(m, rev, t, g, ndid0, pl, v, mid, clades);
    entries', ascends' := DrawRows(rev, t, pl, v, entries, ascends);
    v' := v + 1;
    DrawnNext(m, rev, t, g, ndid0, pl, v, v', ndid', branches', clades', entries', ascends');
  }

  /** The state after node `v`'s turn, described at the next index held in a variable. */
  lemma DrawnNext(m: Numerics, rev: Revision, t: Tree, g: Group, ndid0: int, pl: seq<Placement>, v: nat, w: nat,
                ndid: int, branches: seq<Branch>, clades: seq<(Polygon, Centre, RankLine)>,
                entries: seq<seq<(Key, JsonValue)>>, ascends: seq<(string, seq<string>)>)
    requires w == v + 1 && DrawnBefore(m, rev, t, g, ndid0, pl, v + 1, ndid, branches, clades, entries, ascends)
    ensures DrawnBefore(m, rev, t, g, ndid0, pl, w, ndid, branches, clades, entries, ascends)
  {
  }

  /** The search entry of node `v` and, in the current revision, its ascend row. */
  method DrawRows(rev: Revision, t: Tree, pl: seq<Placement>, v: nat,
                  entries: seq<seq<(Key, JsonValue)>>, ascends: seq<(string, seq<string>)>)
    returns (entries': seq<seq<(Key, JsonValue)>>, ascends': seq<(string, seq<string>)>)
    requires IsForest(t) && |pl| == |t.up| && v < |t.up|
    requires entries == Entries(rev, t, pl, v) && ascends == (if rev == Current then Ascends(t, v) else [])
    ensures entries' == Entries(rev, t, pl, v + 1)
    ensures ascends' == (if rev == Current then Ascends(t, v + 1) else [])
  {
    EntriesStep(rev, t, pl, v);
    entries' := entries + [Node2Json(rev, t.taxa[v], pl[v], LeafCount(t, v))];
    ascends' := ascends;
    if rev == Current {
      AscendsStep(t, v);
      var asc := AscendChain(t, v);
      ascends' := ascends + [(t.taxa[v].taxid, asc)];
    }
  }

  lemma EntriesStep(rev: Revision, t: Tree, pl: seq<Placement>, v: nat)
    requires IsForest(t) && |pl| == |t.up| && v < |t.up|
    ensures Entries(rev, t, pl, v + 1) == Entries(rev, t, pl, v) + [Node2Json(rev, t.taxa[v], pl[v], LeafCount(t, v))]
  {
    var a, b := Entries(rev, t, pl, v + 1), Entries(rev, t, pl, v);
    forall i | 0 <= i < v
      ensures a[i] == b[i]
    {
    }
  }

  lemma AscendsStep(t: Tree, v: nat)
    requires IsForest(t) && v < |t.up|
    ensures Ascends(t, v + 1) == Ascends(t, v) + [(t.taxa[v].taxid, AscendOf(t, v))]
  {
    var a, b := Ascends(t, v + 1), Ascends(t, v);
    forall i | 0 <= i < v
      ensures a[i] == b[i]
    {
    }
  }

  /** Before the first turn nothing is written and the counter is where the first pass
      left it. */
  lemma DrawStart(m: Numerics, rev: Revision, t: Tree, g: Group, ndid0: int, pl: seq<Placement>)
    requires Sound(m) && Pythagorean(m) && IsForest(t) && |pl| == |t.up|
    ensures DrawnBefore(m, rev, t, g, ndid0, pl, 0, ndid0, [], [], [], [])
  {
    assert |NonRoots(t, 0)| == 0 && |Internals(t, 0)| == 0;
  }

  /** The second traversal, in level order, over the placements the first one left: it
      writes the records with ids from `ndid0 + 1` on and returns the counter. */
  method DrawPass(m: Numerics, rev: Revision, t: Tree, g: Group, ndid0: int, pl: seq<Placement>)
    returns (ndid: int, branches: seq<Branch>, clades: seq<(Polygon, Centre, RankLine)>,
             entries: seq<seq<(Key, JsonValue)>>, ascends: seq<(string, seq<string>)>)
    requires Sound(m) && Pythagorean(m) && IsForest(t) && |pl| == |t.up|
    ensures DrawnBefore(m, rev, t, g, ndid0, pl, |t.up|, ndid, branches, clades, entries, ascends)
  {
    DrawStart(m, rev, t, g, ndid0, pl);
    ndid, branches, clades, entries, ascends := ndid0, [], [], [], [];
    var v := 0;
    while v < |t.up|
      invariant DrawnBefore(m, rev, t, g, ndid0, pl, v, ndid, branches, clades, entries, ascends)
    {
      v, ndid, branches, clades, entries, ascends := DrawNode(m, rev, t, g, ndid0, pl, v, ndid, branches, clades, entries, ascends);
    }
  }

  // ---------------------------------------------------------------------------
  // traverse_tree

  /** Everything one call writes for its group: the `points` rows, the branches, the
      polygon, centre and rank-line records, the search entries, the ascend rows, the
      branch from LUCA, and the largest zoom level. */
  datatype Features = Features(points: seq<PointRecord>, branches: seq<Branch>,
                               clades: seq<(Polygon, Centre, RankLine)>,
                               entries: seq<seq<(Key, JsonValue)>>, ascends: seq<(string, seq<string>)>,
                               luca: Branch, maxZoom: nat)

  /** The branch from LUCA, drawn at `(0, -4.226497)`, to the group's root, at zoom level 4. */
  function LucaBranch(id: int, g: Group, root: Placement): (b: Branch)
    ensures b.id == id && |b.line| == 2 && b.line[1] == (root.x, root.y)
  {
    Branch(id, 4, GroupNb(g), "", [(0.0, -4.226497), (root.x, root.y)])
  }

  /** The last id the first pass hands out: one per node, from `starti + 1` on. */
  function PointIdsEnd(t: Tree, starti: int): int
  {
    starti + |t.up|
  }

  /** What `traverse_tree(t, g, starti)` writes and returns, given the placements `pl` the
      first pass leaves on the nodes: the first pass's rows, the second pass's records with
      ids from `starti + len(t) + 1` on, and one id more for the branch from LUCA, which is
      also the value returned. */
  ghost predicate Drawn(m: Numerics, rev: Revision, t: Tree, g: Group, starti: int, pl: seq<Placement>,
                        out: Features, ndid: int)
  {
    && IsTree(t) && |pl| == |t.up|
    && Sound(m) && Pythagorean(m)
    && Records(m, rev, t, g, PointIdsEnd(t, starti), pl, |t.up|, out.branches, out.clades, out.entries, out.ascends)
    && ndid == PointIdsEnd(t, starti) + Offset(t, |t.up|) + 1
    && |out.points| == |t.up|
    && (forall v {:trigger out.points[v]} :: 0 <= v < |t.up| ==> out.points[v] == PointOf(t, g, starti, pl[v], v))
    && out.luca == LucaBranch(ndid, g, pl[0])
    && (forall v {:trigger pl[v]} :: 1 <= v < |t.up| ==> pl[v].zoom <= out.maxZoom)
    && (out.maxZoom == 0 || exists v :: 1 <= v < |t.up| && pl[v].zoom == out.maxZoom)
  }

  /** `traverse_tree`: lays out the group's tree, writes its records and returns the last
      id handed out. */
  method TraverseTree(m: Numerics, rev: Revision, t: Tree, g: Group, starti: int)
    returns (out: Features, pl: seq<Placement>, ndid: int)
    requires Sound(m) && Pythagorean(m) && IsTree(t)
    ensures |pl| == |t.up| && forall v :: 0 <= v < |t.up| ==> pl[v] == Placed(m, t, g, v)
    ensures Drawn(m, rev, t, g, starti, pl, out, ndid)
  {
    var points, spid, ndid1, maxZoom;
    pl, points, spid, ndid1, maxZoom := LayoutPass(m, t, g, starti);
    var ndid2, branches, clades, entries, ascends := DrawPass(m, rev, t, g, PointIdsEnd(t, starti), pl);
    ndid := ndid2 + 1;
    out := Features(points, branches, clades, entries, ascends, LucaBranch(ndid, g, pl[0]), maxZoom);
  }
}
