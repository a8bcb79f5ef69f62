/** `simplify_tree`, identical in both revisions: one level-order walk that detaches
    placeholder taxa. Detaching a node cuts the edge to its parent; the node keeps its own
    children, and ete3's walk still visits them, so every node of the input is visited once,
    in the input's order. */
module Simplify {
  import opened Taxonomy
  import opened Text

  /** The eight fragments of a placeholder name, in the order the walk tests them. */
  const Markers: seq<string> := ["Unclassified", "unclassified", "uncultured", "Uncultured",
    "unidentified", "Unidentified", "environmental", "sp."]

  /** The name carries one of the markers, checked one after the other, as the walk does. */
  predicate Marked(name: string)
  {
    || Contains(name, "Unclassified") || Contains(name, "unclassified")
    || Contains(name, "uncultured") || Contains(name, "Uncultured")
    || Contains(name, "unidentified") || Contains(name, "Unidentified")
    || Contains(name, "environmental") || Contains(name, "sp.")
  }

  /** The walk detaches `v` when it is a leaf whose rank is "no rank", or when its name is
      marked. */
  predicate Detached(t: Tree, v: nat)
    requires IsForest(t) && v < |t.up|
  {
    (IsLeaf(t, v) && t.taxa[v].rank.en == "no rank") || Marked(t.taxa[v].sciName)
  }

  /** The walk detaches exactly the leaves of rank "no rank" and the nodes whose name holds
      one of the markers at some position. */
  lemma DetachedAt(t: Tree, v: nat)
    requires IsForest(t) && v < |t.up|
    ensures Detached(t, v) <==> ((IsLeaf(t, v) && t.taxa[v].rank.en == "no rank")
      || exists j, i :: 0 <= j < |Markers| && OccursAt(t.taxa[v].sciName, Markers[j], i))
  {
    var name := t.taxa[v].sciName;
    forall j | 0 <= j < |Markers| {
      ContainsAt(name, Markers[j]);
    }
    if Marked(name) {
      var j := if Contains(name, "Unclassified") then 0 else if Contains(name, "unclassified") then 1
        else if Contains(name, "uncultured") then 2 else if Contains(name, "Uncultured") then 3
        else if Contains(name, "unidentified") then 4 else if Contains(name, "Unidentified") then 5
        else if Contains(name, "environmental") then 6 else 7;
      assert Contains(name, Markers[j]);
    }
    if exists j :: 0 <= j < |Markers| && Contains(name, Markers[j]) {
      var j :| 0 <= j < |Markers| && Contains(name, Markers[j]);
      assert j == 0 || j == 1 || j == 2 || j == 3 || j == 4 || j == 5 || j == 6 || j == 7;
    }
  }

  /** The tree the walk leaves: every detached node has lost its parent. */
  function Simplified(t: Tree): (s: Tree)
    requires IsForest(t)
    ensures IsForest(s) && s.taxa == t.taxa && |s.up| == |t.up|
  {
    Tree(t.taxa, seq(|t.up|, u requires 0 <= u < |t.up| => if Detached(t, u) then -1 else t.up[u]))
  }

  /** Partway through the walk nodes before `v` may have lost their parent and the others
      are untouched; `v`'s children all come after it, so `v` is a leaf exactly when it
      was one in the input. */
  lemma LeafAtVisit(t: Tree, up: seq<int>, v: nat)
    requires IsForest(t) && |up| == |t.up| && v < |t.up|
    requires forall u :: 0 <= u < v ==> up[u] == -1 || up[u] == t.up[u]
    requires forall u :: v <= u < |t.up| ==> up[u] == t.up[u]
    ensures IsForest(Tree(t.taxa, up))
    ensures IsLeaf(Tree(t.taxa, up), v) <==> IsLeaf(t, v)
  {
    var cur := Tree(t.taxa, up);
    LeafIffNoChild(t, v);
    LeafIffNoChild(cur, v);
  }

  /** `simplify_tree`: visits the nodes in level order and detaches the placeholder ones;
      the count it reports is the number of leaves before minus the number after. */
  method SimplifyTree(t: Tree) returns (s: Tree, removed: int)
    requires IsTree(t)
    ensures s == Simplified(t)
    ensures removed == LeafCount(t, 0) - LeafCount(s, 0)
  {
    var initialSize := LeafCount(t, 0);
    var up := t.up;
    var v := 0;
    while v < |t.up|
      invariant 0 <= v <= |t.up| && |up| == |t.up|
      invariant forall u :: 0 <= u < v ==> up[u] == if Detached(t, u) then -1 else t.up[u]
      invariant forall u :: v <= u < |t.up| ==> up[u] == t.up[u]
    {
      LeafAtVisit(t, up, v);
      var cur := Tree(t.taxa, up);
      if IsLeaf(cur, v) && t.taxa[v].rank.en == "no rank" {
        up := up[v := -1];
      } else if Marked(t.taxa[v].sciName) {
        up := up[v := -1];
      }
      v := v + 1;
    }
    s := Tree(t.taxa, up);
    assert s.up == Simplified(t).up;
    removed := initialSize - LeafCount(s, 0);
  }

  /** A node is still under the root after the walk exactly when neither it nor any of its
      ancestors below the root was detached. */
  lemma {:induction false} KeptIff(t: Tree, u: nat)
    requires IsTree(t) && u < |t.up|
    decreases u
    ensures IsAnc(Simplified(t), 0, u) <==> forall a :: 1 <= a < |t.up| && IsAnc(t, a, u) ==> !Detached(t, a)
  {
    var s := Simplified(t);
    if u == 0 {
      forall a | 1 <= a < |t.up| && IsAnc(t, a, u)
        ensures false
      {
        AncBelow(t, a, u);
      }
    } else {
      var p := t.up[u];
      KeptIff(t, p);
      if IsAnc(s, 0, u) {
        assert s.up[u] == p;
        forall a | 1 <= a < |t.up| && IsAnc(t, a, u)
          ensures !Detached(t, a)
        {
          if a != u {
            assert IsAnc(t, a, p);
          }
        }
      }
      if forall a :: 1 <= a < |t.up| && IsAnc(t, a, u) ==> !Detached(t, a) {
        assert !Detached(t, u) by {
          assert IsAnc(t, u, u);
        }
        forall a | 1 <= a < |t.up| && IsAnc(t, a, p)
          ensures !Detached(t, a)
        {
          assert IsAnc(t, a, u);
        }
        assert IsAnc(s, 0, p);
        assert s.up[u] == p;
      }
    }
  }

  /** After the walk no node under the root other than the root carries a marked name, and
      none that was a leaf has rank "no rank". */
  lemma SimplifiedClean(t: Tree, u: nat)
    requires IsTree(t) && 1 <= u < |t.up| && IsAnc(Simplified(t), 0, u)
    ensures !Marked(t.taxa[u].sciName)
    ensures IsLeaf(t, u) ==> t.taxa[u].rank.en != "no rank"
  {
    KeptIff(t, u);
    assert IsAnc(t, u, u);
  }
}
