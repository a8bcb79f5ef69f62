// Feature ids across the two passes of `traverse_tree` and across the three groups that
// the build chains through the returned id.
module Chain {
  import opened Taxonomy
  import opened Layout
  import opened Geometry
  import opened Traverse

  /** Every feature id one call writes: its points, its branches, the polygon, centre and
      rank line of each clade, and the branch from LUCA. */
  ghost function Ids(out: Features): set<int>
  {
    (set i | 0 <= i < |out.points| :: out.points[i].id)
    + (set i | 0 <= i < |out.branches| :: out.branches[i].id)
    + (set i | 0 <= i < |out.clades| :: out.clades[i].0.id)
    + (set i | 0 <= i < |out.clades| :: out.clades[i].1.id)
    + (set i | 0 <= i < |out.clades| :: out.clades[i].2.id)
    + {out.luca.id}
  }

  /** How many records one call writes, and the id it returns: with `L` leaves and `I`
      internal nodes among `N`, there are `N` points, `N - 1` branches, `I` clades, `N`
      search entries, `N` ascend rows in the current revision, and the return value is
      `starti + L + I + (N - 1) + 63 I + 1`. */
  lemma DrawnCounts(m: Numerics, rev: Revision, t: Tree, g: Group, starti: int, pl: seq<Placement>,
                    out: Features, ndid: int)
    requires Drawn(m, rev, t, g, starti, pl, out, ndid)
    ensures |out.points| == |t.up| && |out.entries| == |t.up|
    ensures |out.branches| == |t.up| - 1
    ensures |out.clades| == |t.up| - LeafCount(t, 0)
    ensures |out.ascends| == if rev == Current then |t.up| else 0
    ensures ndid == starti + LeafCount(t, 0) + (|t.up| - LeafCount(t, 0)) + (|t.up| - 1)
                    + 63 * (|t.up| - LeafCount(t, 0)) + 1
  {
    var n := |t.up|;
    BranchCount(t, n);
    CladeCount(t, n);
    RootLeafCount(t);
    OffsetClosed(t, n);
  }

  /** The first pass's ids: each point's id lies in `starti + 1 .. starti + N` and no two
      points share one. */
  lemma DrawnPointIds(m: Numerics, rev: Revision, t: Tree, g: Group, starti: int, pl: seq<Placement>,
                      out: Features, ndid: int)
    requires Drawn(m, rev, t, g, starti, pl, out, ndid)
    ensures forall i :: 0 <= i < |out.points| ==> starti < out.points[i].id <= PointIdsEnd(t, starti)
    ensures forall i, j :: 0 <= i < j < |out.points| ==> out.points[i].id != out.points[j].id
  {
    var n := |t.up|;
    forall i | 0 <= i < n
      ensures starti < out.points[i].id <= PointIdsEnd(t, starti)
    {
      NodeIdRange(t, starti, i);
    }
    forall i, j | 0 <= i < j < n
      ensures out.points[i].id != out.points[j].id
    {
      NodeIdsDistinct(t, starti, i, j);
    }
  }

  /** The id facts of the second pass's branches, stated over the list it writes. */
  lemma BranchIdsBetween(m: Numerics, t: Tree, g: Group, p: int, pl: seq<Placement>,
                         branches: seq<Branch>, hi: int)
    requires Sound(m) && IsForest(t) && |pl| == |t.up|
    requires branches == Branches(m, t, g, p, pl, |t.up|) && hi == p + Offset(t, |t.up|) + 1
    ensures forall i :: 0 <= i < |branches| ==> p < branches[i].id < hi
    ensures forall i, j :: 0 <= i < j < |branches| ==> branches[i].id < branches[j].id
  {
    BranchesIds(m, t, g, p, pl, |t.up|);
    BranchIdsIncrease(t, p, |t.up|);
  }

  /** The id facts of the second pass's clades, stated over the list it writes. */
  lemma CladeIdsBetween(m: Numerics, rev: Revision, t: Tree, g: Group, p: int, pl: seq<Placement>,
                        clades: seq<(Polygon, Centre, RankLine)>, hi: int)
    requires Sound(m) && Pythagorean(m) && IsForest(t) && |pl| == |t.up|
    requires clades == Clades(m, rev, t, g, p, pl, |t.up|) && hi == p + Offset(t, |t.up|) + 1
    ensures forall i :: 0 <= i < |clades| ==>
      clades[i].1.id == clades[i].0.id + 1 && clades[i].2.id == clades[i].0.id + 2
    ensures forall i :: 0 <= i < |clades| ==> p < clades[i].0.id && clades[i].2.id < hi
    ensures forall i, j :: 0 <= i < j < |clades| ==> clades[i].2.id < clades[j].0.id
  {
    CladesIds(m, rev, t, g, p, pl, |t.up|);
    BlocksIncrease(t, p, |t.up|);
  }

  /** No branch of the second pass shares an id with a clade's records. */
  lemma BranchIdsMissClades(m: Numerics, rev: Revision, t: Tree, g: Group, p: int, pl: seq<Placement>,
                            branches: seq<Branch>, clades: seq<(Polygon, Centre, RankLine)>)
    requires Sound(m) && Pythagorean(m) && IsForest(t) && |pl| == |t.up|
    requires branches == Branches(m, t, g, p, pl, |t.up|) && clades == Clades(m, rev, t, g, p, pl, |t.up|)
    ensures forall i, j :: 0 <= i < |branches| && 0 <= j < |clades| ==>
      branches[i].id != clades[j].0.id && branches[i].id != clades[j].1.id && branches[i].id != clades[j].2.id
  {
    BranchesIds(m, t, g, p, pl, |t.up|);
    CladesIds(m, rev, t, g, p, pl, |t.up|);
    BranchesMissBlocks(t, p, |t.up|);
    var ids, bs := BranchIdList(t, p, |t.up|), BlockList(t, p, |t.up|);
    forall i, j | 0 <= i < |branches| && 0 <= j < |clades|
      ensures branches[i].id != clades[j].0.id && branches[i].id != clades[j].1.id
        && branches[i].id != clades[j].2.id
    {
      assert branches[i].id == ids[i];
      assert clades[j].0.id == bs[j] + 61 && clades[j].2.id == bs[j] + 63;
      assert ids[i] <= bs[j] || bs[j] + 63 < ids[i];
    }
  }

  /** The second pass's branch ids come after the points' ids, before the returned id, and
      increase from one branch to the next. */
  lemma DrawnBranchIds(m: Numerics, rev: Revision, t: Tree, g: Group, starti: int, pl: seq<Placement>,
                       out: Features, ndid: int)
    requires Drawn(m, rev, t, g, starti, pl, out, ndid)
    ensures forall i :: 0 <= i < |out.branches| ==> PointIdsEnd(t, starti) < out.branches[i].id < ndid
    ensures forall i, j :: 0 <= i < j < |out.branches| ==> out.branches[i].id < out.branches[j].id
  {
    BranchIdsBetween(m, t, g, PointIdsEnd(t, starti), pl, out.branches, ndid);
  }

  /** Each clade's three ids are consecutive; blocks of later clades come after those of
      earlier ones; all lie after the points' ids and before the returned id. */
  lemma DrawnCladeIds(m: Numerics, rev: Revision, t: Tree, g: Group, starti: int, pl: seq<Placement>,
                      out: Features, ndid: int)
    requires Drawn(m, rev, t, g, starti, pl, out, ndid)
    ensures forall i :: 0 <= i < |out.clades| ==>
      out.clades[i].1.id == out.clades[i].0.id + 1 && out.clades[i].2.id == out.clades[i].0.id + 2
    ensures forall i :: 0 <= i < |out.clades| ==>
      PointIdsEnd(t, starti) < out.clades[i].0.id && out.clades[i].2.id < ndid
    ensures forall i, j :: 0 <= i < j < |out.clades| ==> out.clades[i].2.id < out.clades[j].0.id
  {
    CladeIdsBetween(m, rev, t, g, PointIdsEnd(t, starti), pl, out.clades, ndid);
  }

  /** No branch shares an id with a polygon, a centre or a rank line. */
  lemma DrawnBranchesMissClades(m: Numerics, rev: Revision, t: Tree, g: Group, starti: int,
                                pl: seq<Placement>, out: Features, ndid: int)
    requires Drawn(m, rev, t, g, starti, pl, out, ndid)
    ensures forall i, j :: 0 <= i < |out.branches| && 0 <= j < |out.clades| ==>
      out.branches[i].id != out.clades[j].0.id && out.branches[i].id != out.clades[j].1.id
      && out.branches[i].id != out.clades[j].2.id
  {
    BranchIdsMissClades(m, rev, t, g, PointIdsEnd(t, starti), pl, out.branches, out.clades);
  }

  /** Every record's id lies in `lo + 1 .. hi`. */
  ghost predicate IdsWithin(out: Features, lo: int, hi: int)
  {
    && (forall i :: 0 <= i < |out.points| ==> lo < out.points[i].id <= hi)
    && (forall i :: 0 <= i < |out.branches| ==> lo < out.branches[i].id <= hi)
    && (forall i :: 0 <= i < |out.clades| ==> lo < out.clades[i].0.id <= hi)
    && (forall i :: 0 <= i < |out.clades| ==> lo < out.clades[i].1.id <= hi)
    && (forall i :: 0 <= i < |out.clades| ==> lo < out.clades[i].2.id <= hi)
    && lo < out.luca.id <= hi
  }

  lemma IdsBetween(out: Features, lo: int, hi: int)
    requires IdsWithin(out, lo, hi)
    ensures forall x :: x in Ids(out) ==> lo < x <= hi
  {
  }

  /** Every id one call writes lies in `starti + 1 .. ndid`, and the branch from LUCA takes
      the returned id itself. */
  lemma DrawnIdsWithin(m: Numerics, rev: Revision, t: Tree, g: Group, starti: int, pl: seq<Placement>,
                       out: Features, ndid: int)
    requires Drawn(m, rev, t, g, starti, pl, out, ndid)
    ensures out.luca.id == ndid
    ensures IdsWithin(out, starti, ndid)
  {
    var mid := PointIdsEnd(t, starti);
    DrawnPointIds(m, rev, t, g, starti, pl, out, ndid);
    DrawnBranchIds(m, rev, t, g, starti, pl, out, ndid);
    DrawnCladeIds(m, rev, t, g, starti, pl, out, ndid);
    assert starti < out.points[0].id <= mid;
    assert mid < ndid by {
      assert ndid == mid + Offset(t, |t.up|) + 1;
    }
    IdsWithinParts(out, starti, mid, ndid);
  }

  /** The id ranges of the points, the branches and the clades together place every id in
      `lo + 1 .. hi`. */
  lemma IdsWithinParts(out: Features, lo: int, mid: int, hi: int)
    requires lo <= mid < hi && out.luca.id == hi
    requires forall i :: 0 <= i < |out.points| ==> lo < out.points[i].id <= mid
    requires forall i :: 0 <= i < |out.branches| ==> mid < out.branches[i].id < hi
    requires forall i :: 0 <= i < |out.clades| ==>
      out.clades[i].1.id == out.clades[i].0.id + 1 && out.clades[i].2.id == out.clades[i].0.id + 2
    requires forall i :: 0 <= i < |out.clades| ==> mid < out.clades[i].0.id && out.clades[i].2.id < hi
    ensures IdsWithin(out, lo, hi)
  {
  }

  /** `Main.py` runs the archaeal, eukaryotic and bacterial groups in turn, each starting
      from the id the previous one returned, the first from 1. */
  method TraverseGroups(m: Numerics, rev: Revision, archaea: Tree, eukaryotes: Tree, bacteria: Tree)
    returns (a: Features, e: Features, b: Features, ndid: int)
    requires Sound(m) && Pythagorean(m) && IsTree(archaea) && IsTree(eukaryotes) && IsTree(bacteria)
    ensures forall x :: x in Ids(a) ==> 1 < x
    ensures forall x, y :: x in Ids(a) && y in Ids(e) ==> x < y
    ensures forall x, y :: x in Ids(e) && y in Ids(b) ==> x < y
    ensures forall x :: x in Ids(b) ==> x <= ndid
    ensures Ids(a) !! Ids(e) && Ids(e) !! Ids(b) && Ids(a) !! Ids(b)
  {
    var pa, pe, pb;
    var na, ne;
    a, pa, na := TraverseTree(m, rev, archaea, Archaea, 1);
    DrawnIdsWithin(m, rev, archaea, Archaea, 1, pa, a, na);
    IdsBetween(a, 1, na);
    e, pe, ne := TraverseTree(m, rev, eukaryotes, Eukaryotes, na);
    DrawnIdsWithin(m, rev, eukaryotes, Eukaryotes, na, pe, e, ne);
    IdsBetween(e, na, ne);
    b, pb, ndid := TraverseTree(m, rev, bacteria, Bacteria, ne);
    DrawnIdsWithin(m, rev, bacteria, Bacteria, ne, pb, b, ndid);
    IdsBetween(b, ne, ndid);
  }
}
