/** The rooted taxonomy tree the builder walks, as an arena of nodes.
    Node `v` has parent `up[v]` (an index smaller than `v`, or -1 for a node without
    parent), so index order visits every parent before its children; ete3's
    level-order `traverse()` is such an order. Children are listed in index order. */
module Taxonomy {

  /** One string per language of the build (English and French). */
  datatype Langs = Langs(en: string, fr: string)

  /** The attributes the ingestion step attaches to a node. */
  datatype Taxon = Taxon(
    taxid: string,
    sciName: string,
    commonName: Langs,
    commonNameLong: Langs,
    rank: Langs,
    authority: string,
    synonym: string)

  datatype Tree = Tree(taxa: seq<Taxon>, up: seq<int>)

  /** Every node's parent comes before it; -1 marks a node without parent. */
  predicate IsForest(t: Tree)
  {
    |t.taxa| == |t.up| && forall v :: 0 <= v < |t.up| ==> -1 <= t.up[v] < v
  }

  /** A forest with one root, node 0. */
  predicate IsTree(t: Tree)
  {
    IsForest(t) && |t.up| >= 1 && forall v :: 1 <= v < |t.up| ==> 0 <= t.up[v]
  }

  /** The children of `v` among the nodes from `lo` on, in index order. */
  function KidsFrom(t: Tree, v: int, lo: nat): (ks: seq<nat>)
    decreases |t.up| - lo
    ensures forall i :: 0 <= i < |ks| ==> lo <= ks[i] < |t.up| && t.up[ks[i]] == v
  {
    if lo >= |t.up| then []
    else (if t.up[lo] == v then [lo] else []) + KidsFrom(t, v, lo + 1)
  }

  lemma {:induction false} KidsFromComplete(t: Tree, v: int, lo: nat, c: nat)
    requires lo <= c < |t.up| && t.up[c] == v
    decreases |t.up| - lo
    ensures c in KidsFrom(t, v, lo)
  {
    if c > lo {
      KidsFromComplete(t, v, lo + 1, c);
    }
  }

  lemma {:induction false} KidsFromIncreasing(t: Tree, v: int, lo: nat)
    decreases |t.up| - lo
    ensures forall i, j :: 0 <= i < j < |KidsFrom(t, v, lo)| ==> KidsFrom(t, v, lo)[i] < KidsFrom(t, v, lo)[j]
  {
    if lo < |t.up| {
      KidsFromIncreasing(t, v, lo + 1);
    }
  }

  /** ete3's `n.children`. */
  function Kids(t: Tree, v: nat): (ks: seq<nat>)
    requires IsForest(t) && v < |t.up|
    ensures forall i :: 0 <= i < |ks| ==> v < ks[i] < |t.up| && t.up[ks[i]] == v
  {
    KidsFrom(t, v, v + 1)
  }

  /** Children come in increasing index order. (Kept out of the contract of `Kids`: a
      pairwise fact there is instantiated for every pair of child terms in every proof.) */
  lemma KidsIncreasing(t: Tree, v: nat)
    requires IsForest(t) && v < |t.up|
    ensures forall i, j :: 0 <= i < j < |Kids(t, v)| ==> Kids(t, v)[i] < Kids(t, v)[j]
  {
    KidsFromIncreasing(t, v, v + 1);
  }

  /** Every node whose parent is `v` is among its children. */
  lemma KidsComplete(t: Tree, v: nat, c: nat)
    requires IsForest(t) && v < |t.up| && c < |t.up| && t.up[c] == v
    ensures c in Kids(t, v)
  {
    KidsFromComplete(t, v, v + 1, c);
  }

  /** The position of `u` among its parent's children. */
  ghost function KidIndex(t: Tree, u: nat): (k: nat)
    requires IsForest(t) && u < |t.up| && t.up[u] >= 0
    ensures k < |Kids(t, t.up[u])| && Kids(t, t.up[u])[k] == u
  {
    KidsComplete(t, t.up[u], u);
    var k :| 0 <= k < |Kids(t, t.up[u])| && Kids(t, t.up[u])[k] == u; k
  }

  /** The `k`-th child of `p` sits at position `k`: child positions are unique. */
  lemma KidIndexOf(t: Tree, p: nat, k: nat)
    requires IsForest(t) && p < |t.up| && k < |Kids(t, p)|
    ensures KidIndex(t, Kids(t, p)[k]) == k
  {
    KidsIncreasing(t, p);
  }

  /** ete3's `n.is_leaf()`. */
  predicate IsLeaf(t: Tree, v: nat)
    requires IsForest(t) && v < |t.up|
  {
    Kids(t, v) == []
  }

  lemma LeafIffNoChild(t: Tree, v: nat)
    requires IsForest(t) && v < |t.up|
    ensures IsLeaf(t, v) <==> forall c :: 0 <= c < |t.up| ==> t.up[c] != v
  {
    if !IsLeaf(t, v) {
      assert t.up[Kids(t, v)[0]] == v;
    } else {
      forall c | 0 <= c < |t.up|
        ensures t.up[c] != v
      {
        if t.up[c] == v {
          KidsComplete(t, v, c);
        }
      }
    }
  }

  /** ete3's `len(n)`: the number of leaves under `n`, a leaf counting as one. */
  function LeafCount(t: Tree, v: nat): (n: nat)
    requires IsForest(t) && v < |t.up|
    decreases |t.up| - v, 1, 0
    ensures n >= 1
  {
    var ks := Kids(t, v);
    if ks == [] then 1 else LeafSum(t, ks, v)
  }

  /** Sum of `LeafCount` over a list of children of `v`. */
  function LeafSum(t: Tree, cs: seq<nat>, v: nat): (n: nat)
    requires IsForest(t) && v < |t.up|
    requires forall i :: 0 <= i < |cs| ==> v < cs[i] < |t.up|
    decreases |t.up| - v, 0, |cs|
    ensures n >= |cs|
  {
    if cs == [] then 0 else LeafCount(t, cs[0]) + LeafSum(t, cs[1..], v)
  }

  // ---------------------------------------------------------------------------
  // Sums over subtrees

  /** The recursive roll-up: the weight of `v` plus the roll-ups of its children. */
  function TreeSum(t: Tree, w: seq<int>, v: nat): int
    requires IsForest(t) && |w| == |t.up| && v < |t.up|
    decreases |t.up| - v, 1, 0
  {
    w[v] + KidsSum(t, w, Kids(t, v), v)
  }

  function KidsSum(t: Tree, w: seq<int>, cs: seq<nat>, v: nat): int
    requires IsForest(t) && |w| == |t.up| && v < |t.up|
    requires forall i :: 0 <= i < |cs| ==> v < cs[i] < |t.up|
    decreases |t.up| - v, 0, |cs|
  {
    if cs == [] then 0 else TreeSum(t, w, cs[0]) + KidsSum(t, w, cs[1..], v)
  }

  /** `a` is `u` or one of its ancestors. */
  predicate IsAnc(t: Tree, a: int, u: nat)
    requires IsForest(t) && u < |t.up|
    decreases u
  {
    a == u || (t.up[u] >= 0 && IsAnc(t, a, t.up[u]))
  }

  /** The direct sum: weights of all nodes from `lo` on that lie in the subtree of `v`. */
  function DescSum(t: Tree, w: seq<int>, v: int, lo: nat): int
    requires IsForest(t) && |w| == |t.up|
    decreases |t.up| - lo
  {
    if lo >= |t.up| then 0
    else (if IsAnc(t, v, lo) then w[lo] else 0) + DescSum(t, w, v, lo + 1)
  }

  lemma {:induction false} AncBelow(t: Tree, a: int, u: nat)
    requires IsForest(t) && u < |t.up| && IsAnc(t, a, u)
    ensures a <= u
  {
    if a != u {
      AncBelow(t, a, t.up[u]);
    }
  }

  lemma {:induction false} AncTrans(t: Tree, a: nat, b: nat, u: nat)
    requires IsForest(t) && u < |t.up| && b < |t.up|
    requires IsAnc(t, a, b) && IsAnc(t, b, u)
    ensures IsAnc(t, a, u)
  {
    if b != u {
      AncTrans(t, a, b, t.up[u]);
    }
  }

  /** Two ancestors of one node are ancestors of one another. */
  lemma {:induction false} AncChain(t: Tree, a: nat, b: nat, u: nat)
    requires IsForest(t) && a < |t.up| && b < |t.up| && u < |t.up|
    requires IsAnc(t, a, u) && IsAnc(t, b, u)
    ensures IsAnc(t, a, b) || IsAnc(t, b, a)
  {
    if a != u && b != u {
      AncChain(t, a, b, t.up[u]);
    } else if a == u {
      AncBelow(t, b, u);
    } else {
      AncBelow(t, a, u);
    }
  }

  /** A proper descendant of `v` lies under exactly one child of `v`. */
  lemma {:induction false} AncViaKid(t: Tree, v: nat, u: nat)
    requires IsForest(t) && v < |t.up| && u < |t.up| && u != v
    ensures IsAnc(t, v, u) <==> exists c :: c in Kids(t, v) && IsAnc(t, c, u)
  {
    if IsAnc(t, v, u) {
      var p := t.up[u];
      if p == v {
        KidsComplete(t, v, u);
        assert u in Kids(t, v) && IsAnc(t, u, u);
      } else {
        AncViaKid(t, v, p);
        var c :| c in Kids(t, v) && IsAnc(t, c, p);
        assert IsAnc(t, c, u);
      }
    }
    if exists c :: c in Kids(t, v) && IsAnc(t, c, u) {
      var c :| c in Kids(t, v) && IsAnc(t, c, u);
      assert IsAnc(t, v, c);
      AncTrans(t, v, c, u);
    }
  }

  lemma KidsDistinctAnc(t: Tree, v: nat, c1: nat, c2: nat, u: nat)
    requires IsForest(t) && v < |t.up| && u < |t.up|
    requires c1 in Kids(t, v) && c2 in Kids(t, v) && IsAnc(t, c1, u) && IsAnc(t, c2, u)
    ensures c1 == c2
  {
    AncChain(t, c1, c2, u);
    if c1 != c2 {
      if IsAnc(t, c1, c2) {
        AncBelow(t, c1, t.up[c2]);
      } else {
        AncBelow(t, c2, t.up[c1]);
      }
    }
  }

  /** How many of `cs` are ancestors of `u`. */
  function AncCount(t: Tree, cs: seq<nat>, u: nat): nat
    requires IsForest(t) && u < |t.up|
  {
    if cs == [] then 0 else (if IsAnc(t, cs[0], u) then 1 else 0) + AncCount(t, cs[1..], u)
  }

  lemma {:induction false} AncCountKids(t: Tree, v: nat, cs: seq<nat>, u: nat)
    requires IsForest(t) && v < |t.up| && u < |t.up|
    requires forall i :: 0 <= i < |cs| ==> cs[i] in Kids(t, v)
    requires forall i, j :: 0 <= i < j < |cs| ==> cs[i] < cs[j]
    ensures AncCount(t, cs, u) == if exists c :: c in cs && IsAnc(t, c, u) then 1 else 0
  {
    if cs != [] {
      AncCountKids(t, v, cs[1..], u);
      if IsAnc(t, cs[0], u) {
        forall c | c in cs[1..] && IsAnc(t, c, u)
          ensures false
        {
          var j :| 0 <= j < |cs[1..]| && cs[1..][j] == c;
          assert cs[0] < cs[j + 1] == c;
          KidsDistinctAnc(t, v, cs[0], c, u);
        }
        assert cs[0] in cs;
      } else {
        if exists c :: c in cs && IsAnc(t, c, u) {
          var c :| c in cs && IsAnc(t, c, u);
          assert c in cs[1..];
        }
      }
    }
  }

  /** Membership in the subtree of `v`: `u` itself, or under one of its children. */
  lemma AncSplit(t: Tree, v: nat, u: nat)
    requires IsForest(t) && v < |t.up| && u < |t.up|
    ensures (if IsAnc(t, v, u) then 1 else 0) == (if u == v then 1 else 0) + AncCount(t, Kids(t, v), u)
  {
    var ks := Kids(t, v);
    KidsIncreasing(t, v);
    AncCountKids(t, v, ks, u);
    if u == v {
      if exists c :: c in ks && IsAnc(t, c, u) {
        var c :| c in ks && IsAnc(t, c, u);
        AncBelow(t, c, u);
      }
    } else {
      AncViaKid(t, v, u);
    }
  }

  function KidsDescSum(t: Tree, w: seq<int>, cs: seq<nat>, lo: nat): int
    requires IsForest(t) && |w| == |t.up|
  {
    if cs == [] then 0 else DescSum(t, w, cs[0], lo) + KidsDescSum(t, w, cs[1..], lo)
  }

  lemma {:induction false} KidsDescSumStep(t: Tree, w: seq<int>, cs: seq<nat>, lo: nat)
    requires IsForest(t) && |w| == |t.up| && lo < |t.up|
    ensures KidsDescSum(t, w, cs, lo) == AncCount(t, cs, lo) * w[lo] + KidsDescSum(t, w, cs, lo + 1)
  {
    if cs != [] {
      KidsDescSumStep(t, w, cs[1..], lo);
    }
  }

  lemma {:induction false} DescSumSplit(t: Tree, w: seq<int>, v: nat, lo: nat)
    requires IsForest(t) && |w| == |t.up| && v < |t.up|
    decreases |t.up| - lo
    ensures DescSum(t, w, v, lo) == (if lo <= v then w[v] else 0) + KidsDescSum(t, w, Kids(t, v), lo)
  {
    if lo < |t.up| {
      DescSumSplit(t, w, v, lo + 1);
      AncSplit(t, v, lo);
      KidsDescSumStep(t, w, Kids(t, v), lo);
    } else {
      KidsDescSumEnd(t, w, Kids(t, v), lo);
    }
  }

  lemma {:induction false} KidsDescSumEnd(t: Tree, w: seq<int>, cs: seq<nat>, lo: nat)
    requires IsForest(t) && |w| == |t.up| && lo >= |t.up|
    ensures KidsDescSum(t, w, cs, lo) == 0
  {
    if cs != [] {
      KidsDescSumEnd(t, w, cs[1..], lo);
    }
  }

  /** The recursive roll-up of `v` is the sum of the weights of all nodes in its subtree. */
  lemma {:induction false} TreeSumIsDescSum(t: Tree, w: seq<int>, v: nat)
    requires IsForest(t) && |w| == |t.up| && v < |t.up|
    decreases |t.up| - v, 1, 0
    ensures TreeSum(t, w, v) == DescSum(t, w, v, 0)
  {
    DescSumSplit(t, w, v, 0);
    KidsSumIsDescSum(t, w, Kids(t, v), v);
  }

  lemma {:induction false} KidsSumIsDescSum(t: Tree, w: seq<int>, cs: seq<nat>, v: nat)
    requires IsForest(t) && |w| == |t.up| && v < |t.up|
    requires forall i :: 0 <= i < |cs| ==> v < cs[i] < |t.up|
    decreases |t.up| - v, 0, |cs|
    ensures KidsSum(t, w, cs, v) == KidsDescSum(t, w, cs, 0)
  {
    if cs != [] {
      TreeSumIsDescSum(t, w, cs[0]);
      KidsSumIsDescSum(t, w, cs[1..], v);
    }
  }

  // ---------------------------------------------------------------------------
  // Leaves

  /** Weight 1 on leaves, 0 elsewhere. */
  function LeafWeights(t: Tree): (w: seq<int>)
    requires IsForest(t)
    ensures |w| == |t.up|
    ensures forall u :: 0 <= u < |t.up| ==> w[u] == if IsLeaf(t, u) then 1 else 0
  {
    seq(|t.up|, u requires 0 <= u < |t.up| => if IsLeaf(t, u) then 1 else 0)
  }

  lemma {:induction false} LeafCountIsTreeSum(t: Tree, v: nat)
    requires IsForest(t) && v < |t.up|
    decreases |t.up| - v, 1, 0
    ensures LeafCount(t, v) == TreeSum(t, LeafWeights(t), v)
  {
    var ks := Kids(t, v);
    if ks != [] {
      LeafSumIsKidsSum(t, ks, v);
    }
  }

  lemma {:induction false} LeafSumIsKidsSum(t: Tree, cs: seq<nat>, v: nat)
    requires IsForest(t) && v < |t.up|
    requires forall i :: 0 <= i < |cs| ==> v < cs[i] < |t.up|
    decreases |t.up| - v, 0, |cs|
    ensures LeafSum(t, cs, v) == KidsSum(t, LeafWeights(t), cs, v)
  {
    if cs != [] {
      LeafCountIsTreeSum(t, cs[0]);
      LeafSumIsKidsSum(t, cs[1..], v);
    }
  }

  /** Number of leaf nodes among the nodes `0 .. n-1`. */
  function LeavesBefore(t: Tree, n: nat): nat
    requires IsForest(t) && n <= |t.up|
  {
    if n == 0 then 0 else LeavesBefore(t, n - 1) + (if IsLeaf(t, n - 1) then 1 else 0)
  }

  /** Every node of a tree lies under the root. */
  lemma {:induction false} UnderRoot(t: Tree, u: nat)
    requires IsTree(t) && u < |t.up|
    ensures IsAnc(t, 0, u)
  {
    if u != 0 {
      UnderRoot(t, t.up[u]);
    }
  }

  lemma {:induction false} RootDescSumLeaves(t: Tree, lo: nat)
    requires IsTree(t) && lo <= |t.up|
    decreases |t.up| - lo
    ensures DescSum(t, LeafWeights(t), 0, lo) == LeavesBefore(t, |t.up|) - LeavesBefore(t, lo)
  {
    var w := LeafWeights(t);
    if lo < |t.up| {
      UnderRoot(t, lo);
      RootDescSumLeaves(t, lo + 1);
      assert DescSum(t, w, 0, lo) == w[lo] + DescSum(t, w, 0, lo + 1);
      assert LeavesBefore(t, lo + 1) == LeavesBefore(t, lo) + w[lo];
    }
  }

  /** `len(t)` on the root counts exactly the leaf nodes of the tree. */
  lemma RootLeafCount(t: Tree)
    requires IsTree(t)
    ensures LeafCount(t, 0) == LeavesBefore(t, |t.up|)
  {
    LeafCountIsTreeSum(t, 0);
    TreeSumIsDescSum(t, LeafWeights(t), 0);
    RootDescSumLeaves(t, 0);
  }

  // ---------------------------------------------------------------------------
  // Ancestor chains

  /** The ancestors of `v`, parent first and the root of its tree last. */
  function Ancestors(t: Tree, v: nat): (anc: seq<nat>)
    requires IsForest(t) && v < |t.up|
    decreases v
    ensures forall i :: 0 <= i < |anc| ==> anc[i] < v
    ensures |anc| > 0 ==> anc[0] == t.up[v] && t.up[anc[|anc| - 1]] == -1
    ensures forall i :: 0 <= i < |anc| - 1 ==> anc[i + 1] == t.up[anc[i]]
  {
    if t.up[v] < 0 then [] else [t.up[v] as nat] + Ancestors(t, t.up[v])
  }

  /** Number of edges from `v` up to the root of its tree. */
  function Depth(t: Tree, v: nat): nat
    requires IsForest(t) && v < |t.up|
    decreases v
  {
    if t.up[v] < 0 then 0 else 1 + Depth(t, t.up[v])
  }

  /** The ancestor list holds exactly the proper ancestors, one per level. */
  lemma {:induction false} AncestorsAreAncestors(t: Tree, v: nat)
    requires IsForest(t) && v < |t.up|
    decreases v
    ensures |Ancestors(t, v)| == Depth(t, v)
    ensures forall a :: 0 <= a < |t.up| ==> (a in Ancestors(t, v) <==> a != v && IsAnc(t, a, v))
  {
    if t.up[v] >= 0 {
      var p := t.up[v];
      AncestorsAreAncestors(t, p);
      forall a | 0 <= a < |t.up|
        ensures a in Ancestors(t, v) <==> a != v && IsAnc(t, a, v)
      {
        if a == v {
          if a in Ancestors(t, v) {
            assert false;
          }
        }
      }
    } else {
      forall a | 0 <= a < |t.up| && a != v && IsAnc(t, a, v)
        ensures false
      {
      }
    }
  }

  /** The `ascend` column: the parent's taxid, then the parent's own chain; a node without
      parent has just the sentinel "0". So the chain lists the taxids of the ancestors from
      parent to root and ends in "0". */
  function AscendOf(t: Tree, v: nat): (asc: seq<string>)
    requires IsForest(t) && v < |t.up|
    decreases v
    ensures |asc| == |Ancestors(t, v)| + 1 && asc[|asc| - 1] == "0"
    ensures forall i :: 0 <= i < |Ancestors(t, v)| ==> asc[i] == t.taxa[Ancestors(t, v)[i]].taxid
  {
    if t.up[v] < 0 then ["0"]
    else
      var p := t.up[v];
      var rest := AscendOf(t, p);
      assert Ancestors(t, v) == [p as nat] + Ancestors(t, p);
      [t.taxa[p].taxid] + rest
  }
}
