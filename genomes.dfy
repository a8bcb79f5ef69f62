/** Genome counts per taxon and their roll-up over the tree, as the current builder computes
    them: a chain of table operations (filter, group, stack, explode, join, sum) with no loop.
    Tables are sequences of rows; a left join keeps every left row, once per matching right
    row or once with a null (here: a default) when nothing matches. */
module Genomes {
  import opened Common
  import opened Taxonomy
  import opened Traverse

  /** One line of an NCBI genome report: the organism's taxid and the assembly status. */
  datatype Report = Report(taxid: string, status: string)

  /** One row of the genome table: a taxid and its number of complete genomes. */
  datatype GenomeRow = GenomeRow(taxid: string, n: nat)

  const CompleteGenome := "Complete Genome"

  // ---------------------------------------------------------------------------
  // download_genomes: per-report tally, then the two reports stacked

  /** Number of complete-genome lines of taxon `k` in a report. */
  function CompleteCount(rs: seq<Report>, k: string): nat
  {
    if rs == [] then 0
    else (if rs[0].taxid == k && rs[0].status == CompleteGenome then 1 else 0) + CompleteCount(rs[1..], k)
  }

  /** The groups of `filter(Status == "Complete Genome").group_by("TaxID")`: every taxid with a
      complete genome, once each (a group-by keeps no particular order). */
  function CompleteTaxids(rs: seq<Report>): seq<string>
  {
    if rs == [] then []
    else
      var rest := CompleteTaxids(rs[1..]);
      if rs[0].status == CompleteGenome && rs[0].taxid !in rest then [rs[0].taxid] + rest else rest
  }

  predicate DistinctIds(ks: seq<string>)
  {
    forall i, j :: 0 <= i < |ks| && 0 <= j < |ks| && i != j ==> ks[i] != ks[j]
  }

  /** The groups are exactly the taxa with at least one complete genome, each once. */
  lemma {:induction false} CompleteTaxidsAreGroups(rs: seq<Report>)
    ensures DistinctIds(CompleteTaxids(rs))
    ensures forall k :: k in CompleteTaxids(rs) <==> CompleteCount(rs, k) > 0
  {
    if rs != [] {
      CompleteTaxidsAreGroups(rs[1..]);
    }
  }

  /** One report file after `.len(name="n")`: each group's taxid and size. Every taxon
      with a complete genome has one row, holding the number of its complete genomes. */
  function Tally(rs: seq<Report>): (r: seq<GenomeRow>)
    ensures forall i :: 0 <= i < |r| ==> 0 < r[i].n == CompleteCount(rs, r[i].taxid)
    ensures forall i, j :: 0 <= i < j < |r| ==> r[i].taxid != r[j].taxid
    ensures forall k :: CompleteCount(rs, k) > 0 ==> exists i :: 0 <= i < |r| && r[i].taxid == k
  {
    CompleteTaxidsAreGroups(rs);
    var ks := CompleteTaxids(rs);
    var r := seq(|ks|, i requires 0 <= i < |ks| => GenomeRow(ks[i], CompleteCount(rs, ks[i])));
    assert forall i :: 0 <= i < |ks| ==> r[i].taxid == ks[i];
    r
  }

  /** `eu.vstack(pro)`: the eukaryote rows followed by the prokaryote rows. */
  function GenomeTable(eu: seq<Report>, pro: seq<Report>): (r: seq<GenomeRow>)
    ensures forall i :: 0 <= i < |r| ==>
      0 < r[i].n && (r[i].n == CompleteCount(eu, r[i].taxid) || r[i].n == CompleteCount(pro, r[i].taxid))
  {
    Tally(eu) + Tally(pro)
  }

  /** The rows of `g` whose taxid is `k`, in table order. */
  function RowsOf(g: seq<GenomeRow>, k: string): (ms: seq<GenomeRow>)
    ensures |ms| <= |g|
    ensures forall i :: 0 <= i < |ms| ==> ms[i].taxid == k
  {
    if g == [] then []
    else (if g[0].taxid == k then [g[0]] else []) + RowsOf(g[1..], k)
  }

  function SumN(ms: seq<GenomeRow>): nat
  {
    if ms == [] then 0 else ms[0].n + SumN(ms[1..])
  }

  /** A taxon's own genome count in the current builder: the sum over all its rows (what a
      left join followed by a grouped sum gives), 0 when it has none. */
  function Own(g: seq<GenomeRow>, k: string): nat
  {
    SumN(RowsOf(g, k))
  }

  lemma {:induction false} RowsOfAppend(a: seq<GenomeRow>, b: seq<GenomeRow>, k: string)
    ensures RowsOf(a + b, k) == RowsOf(a, k) + RowsOf(b, k)
  {
    if a == [] {
      assert a + b == b;
    } else {
      assert (a + b)[0] == a[0] && (a + b)[1..] == a[1..] + b;
      RowsOfAppend(a[1..], b, k);
    }
  }

  lemma {:induction false} SumNAppend(a: seq<GenomeRow>, b: seq<GenomeRow>)
    ensures SumN(a + b) == SumN(a) + SumN(b)
  {
    if a == [] {
      assert a + b == b;
    } else {
      assert (a + b)[0] == a[0] && (a + b)[1..] == a[1..] + b;
      SumNAppend(a[1..], b);
    }
  }

  /** In a table whose taxids are distinct, a taxid has at most one row: its own. */
  lemma {:induction false} RowsOfDistinct(g: seq<GenomeRow>, k: string)
    requires forall i, j :: 0 <= i < |g| && 0 <= j < |g| && i != j ==> g[i].taxid != g[j].taxid
    ensures RowsOf(g, k) == [] <==> forall i :: 0 <= i < |g| ==> g[i].taxid != k
    ensures forall i :: 0 <= i < |g| && g[i].taxid == k ==> RowsOf(g, k) == [g[i]]
  {
    if g != [] {
      RowsOfDistinct(g[1..], k);
      if g[0].taxid == k {
        forall i | 0 <= i < |g[1..]|
          ensures g[1..][i].taxid != k
        {
          assert g[1..][i] == g[i + 1];
        }
      }
      forall i | 1 <= i < |g| && g[i].taxid == k
        ensures RowsOf(g, k) == [g[i]]
      {
        assert g[1..][i - 1] == g[i];
      }
      if RowsOf(g, k) == [] {
        forall i | 0 <= i < |g|
          ensures g[i].taxid != k
        {
          if i > 0 {
            assert g[1..][i - 1] == g[i];
          }
        }
      }
    }
  }

  /** Each report contributes one row per taxon with complete genomes, whose count is the
      number of its complete-genome lines. */
  lemma TallyRows(rs: seq<Report>, k: string)
    ensures |RowsOf(Tally(rs), k)| == (if CompleteCount(rs, k) > 0 then 1 else 0)
    ensures Own(Tally(rs), k) == CompleteCount(rs, k)
  {
    var g := Tally(rs);
    var ks := CompleteTaxids(rs);
    CompleteTaxidsAreGroups(rs);
    RowsOfDistinct(g, k);
    if CompleteCount(rs, k) > 0 {
      var i :| 0 <= i < |ks| && ks[i] == k;
      assert g[i].taxid == k;
      assert RowsOf(g, k) == [g[i]];
      assert SumN([g[i]]) == g[i].n;
    } else {
      assert forall i :: 0 <= i < |g| ==> g[i].taxid == ks[i];
    }
  }

  /** The stacked table gives a taxon the complete genomes of both reports. */
  lemma TableOwn(eu: seq<Report>, pro: seq<Report>, k: string)
    ensures Own(GenomeTable(eu, pro), k) == CompleteCount(eu, k) + CompleteCount(pro, k)
    ensures |RowsOf(GenomeTable(eu, pro), k)|
      == (if CompleteCount(eu, k) > 0 then 1 else 0) + (if CompleteCount(pro, k) > 0 then 1 else 0)
  {
    RowsOfAppend(Tally(eu), Tally(pro), k);
    SumNAppend(RowsOf(Tally(eu), k), RowsOf(Tally(pro), k));
    TallyRows(eu, k);
    TallyRows(pro, k);
  }

  // ---------------------------------------------------------------------------
  // add_info: explode the ancestor chains, join the counts, sum per ancestor

  /** `ascend.list.concat(taxid)` then `explode("ascend")`: one (id, taxid) row for each id
      of a node's chain followed by the node's own taxid. */
  function Explode(rows: seq<(string, seq<string>)>): seq<(string, string)>
  {
    if rows == [] then [] else Spread(rows[0].1 + [rows[0].0], rows[0].0) + Explode(rows[1..])
  }

  function Spread(ids: seq<string>, x: string): seq<(string, string)>
  {
    if ids == [] then [] else [(ids[0], x)] + Spread(ids[1..], x)
  }

  /** Left join of the exploded rows with the genome table on the row's taxid, then
      `fill_null(0)`: an (id, count) row per match, or one with count 0 when none matches. */
  function JoinCounts(ex: seq<(string, string)>, g: seq<GenomeRow>): seq<(string, nat)>
  {
    if ex == [] then [] else Matches(ex[0], g) + JoinCounts(ex[1..], g)
  }

  function Matches(e: (string, string), g: seq<GenomeRow>): seq<(string, nat)>
  {
    var ms := RowsOf(g, e.1);
    if ms == [] then [(e.0, 0)] else Tag(e.0, ms)
  }

  function Tag(a: string, ms: seq<GenomeRow>): seq<(string, nat)>
  {
    if ms == [] then [] else [(a, ms[0].n)] + Tag(a, ms[1..])
  }

  /** The sum of the counts of the rows keyed `k`. */
  function Total(js: seq<(string, nat)>, k: string): nat
  {
    if js == [] then 0 else (if js[0].0 == k then js[0].1 else 0) + Total(js[1..], k)
  }

  function Keys(js: seq<(string, nat)>): set<string>
  {
    set i | 0 <= i < |js| :: js[i].0
  }

  /** `group_by("ascend").agg(genomes=sum("n"))`: one sum per id that occurs. */
  function GroupSum(js: seq<(string, nat)>): map<string, nat>
  {
    map k | k in Keys(js) :: Total(js, k)
  }

  /** `n_genomes`: the genome sum of every id that occurs in some chain. */
  function NGenomes(ascends: seq<(string, seq<string>)>, g: seq<GenomeRow>): map<string, nat>
  {
    GroupSum(JoinCounts(Explode(ascends), g))
  }

  /** A row of the additional-information table. */
  datatype Info = Info(taxid: string, ascend: seq<string>, genomes: nat)

  /** `addi.join(n_genomes, on="taxid", how="left")` then `fill_null(0)`: every `ascends` row,
      in order, with its genome sum. The sums keyed by an id that is no row's taxid (such as
      the sentinel "0") are dropped. */
  function Addi(ascends: seq<(string, seq<string>)>, g: seq<GenomeRow>): (r: seq<Info>)
    ensures |r| == |ascends|
    ensures forall i :: 0 <= i < |r| ==> r[i].taxid == ascends[i].0 && r[i].ascend == ascends[i].1
  {
    var m := NGenomes(ascends, g);
    seq(|ascends|, i requires 0 <= i < |ascends| =>
      Info(ascends[i].0, ascends[i].1, if ascends[i].0 in m then m[ascends[i].0] else 0))
  }

  /** The ages of taxon `k`, in table order. */
  function AgesOf<A(!new)>(ages: seq<(string, A)>, k: string): (found: seq<A>)
    ensures forall a :: a in found <==> (k, a) in ages
  {
    if ages == [] then []
    else (if ages[0].0 == k then [ages[0].1] else []) + AgesOf(ages[1..], k)
  }

  /** `addi.join(ages, on="taxid", how="left")`: each row once per matching age, or once with
      no age. */
  function JoinAges<A(!new)>(addi: seq<Info>, ages: seq<(string, A)>): seq<(Info, Option<A>)>
  {
    if addi == [] then []
    else
      var found := AgesOf(ages, addi[0].taxid);
      (if found == [] then [(addi[0], None)] else seq(|found|, i requires 0 <= i < |found| => (addi[0], Some(found[i]))))
      + JoinAges(addi[1..], ages)
  }

  /** `add_info`: the `ascends` table extended with genome sums and ages. */
  function AddInfo<A(!new)>(ascends: seq<(string, seq<string>)>, g: seq<GenomeRow>, ages: seq<(string, A)>)
    : (r: seq<(Info, Option<A>)>)
    ensures |r| >= |ascends|
  {
    JoinAgesKeeps(Addi(ascends, g), ages);
    JoinAges(Addi(ascends, g), ages)
  }

  // ---------------------------------------------------------------------------
  // What the pipeline computes

  /** Reference definition: every node adds its own count once for each time `k` occurs in
      its chain extended with its own taxid. */
  function RowTotal(rows: seq<(string, seq<string>)>, g: seq<GenomeRow>, k: string): int
  {
    if rows == [] then 0
    else multiset(rows[0].1 + [rows[0].0])[k] * Own(g, rows[0].0) + RowTotal(rows[1..], g, k)
  }

  lemma {:induction false} TotalAppend(a: seq<(string, nat)>, b: seq<(string, nat)>, k: string)
    ensures Total(a + b, k) == Total(a, k) + Total(b, k)
  {
    if a == [] {
      assert a + b == b;
    } else {
      assert (a + b)[0] == a[0] && (a + b)[1..] == a[1..] + b;
      TotalAppend(a[1..], b, k);
    }
  }

  lemma {:induction false} TotalAbsent(js: seq<(string, nat)>, k: string)
    requires k !in Keys(js)
    ensures Total(js, k) == 0
  {
    if js != [] {
      assert Keys(js[1..]) <= Keys(js) by {
        forall i | 0 <= i < |js[1..]|
          ensures js[1..][i].0 in Keys(js)
        {
          assert js[1..][i] == js[i + 1];
        }
      }
      TotalAbsent(js[1..], k);
    }
  }

  lemma {:induction false} JoinCountsAppend(a: seq<(string, string)>, b: seq<(string, string)>, g: seq<GenomeRow>)
    ensures JoinCounts(a + b, g) == JoinCounts(a, g) + JoinCounts(b, g)
  {
    if a == [] {
      assert a + b == b;
    } else {
      assert (a + b)[0] == a[0] && (a + b)[1..] == a[1..] + b;
      JoinCountsAppend(a[1..], b, g);
    }
  }

  lemma {:induction false} TagTotal(a: string, ms: seq<GenomeRow>, k: string)
    ensures Total(Tag(a, ms), k) == if a == k then SumN(ms) else 0
  {
    if ms != [] {
      TagTotal(a, ms[1..], k);
    }
  }

  /** The joined rows of one exploded row carry that row's own count under its id. */
  lemma MatchesTotal(e: (string, string), g: seq<GenomeRow>, k: string)
    ensures Total(Matches(e, g), k) == if e.0 == k then Own(g, e.1) else 0
  {
    TagTotal(e.0, RowsOf(g, e.1), k);
  }

  lemma {:induction false} SpreadTotal(ids: seq<string>, x: string, g: seq<GenomeRow>, k: string)
    ensures Total(JoinCounts(Spread(ids, x), g), k) == multiset(ids)[k] * Own(g, x)
  {
    if ids != [] {
      var e := (ids[0], x);
      var rest := Spread(ids[1..], x);
      JoinCountsCons(e, rest, g);
      TotalAppend(Matches(e, g), JoinCounts(rest, g), k);
      MatchesTotal(e, g, k);
      SpreadTotal(ids[1..], x, g, k);
      CountCons(ids, k);
      Distrib(if ids[0] == k then 1 else 0, multiset(ids[1..])[k], Own(g, x));
    }
  }

  lemma JoinCountsCons(e: (string, string), rest: seq<(string, string)>, g: seq<GenomeRow>)
    ensures JoinCounts([e] + rest, g) == Matches(e, g) + JoinCounts(rest, g)
  {
    assert ([e] + rest)[0] == e && ([e] + rest)[1..] == rest;
  }

  lemma CountCons(ids: seq<string>, k: string)
    requires ids != []
    ensures multiset(ids)[k] == (if ids[0] == k then 1 else 0) + multiset(ids[1..])[k]
  {
    assert ids == [ids[0]] + ids[1..];
  }

  lemma Distrib(c: int, d: int, o: int)
    ensures (c + d) * o == c * o + d * o
  {
  }

  /** Exploding, joining and summing gives each id the reference total. */
  lemma {:induction false} PipelineTotal(rows: seq<(string, seq<string>)>, g: seq<GenomeRow>, k: string)
    ensures Total(JoinCounts(Explode(rows), g), k) == RowTotal(rows, g, k)
  {
    if rows != [] {
      var head := Spread(rows[0].1 + [rows[0].0], rows[0].0);
      JoinCountsAppend(head, Explode(rows[1..]), g);
      TotalAppend(JoinCounts(head, g), JoinCounts(Explode(rows[1..]), g), k);
      SpreadTotal(rows[0].1 + [rows[0].0], rows[0].0, g, k);
      PipelineTotal(rows[1..], g, k);
    }
  }

  /** Every row's genome column is the reference total of its own taxid. */
  lemma AddiGenomes(ascends: seq<(string, seq<string>)>, g: seq<GenomeRow>, i: nat)
    requires i < |ascends|
    ensures |Addi(ascends, g)| == |ascends|
    ensures Addi(ascends, g)[i].taxid == ascends[i].0 && Addi(ascends, g)[i].ascend == ascends[i].1
    ensures Addi(ascends, g)[i].genomes == RowTotal(ascends, g, ascends[i].0)
  {
    var js := JoinCounts(Explode(ascends), g);
    if ascends[i].0 !in Keys(js) {
      TotalAbsent(js, ascends[i].0);
    }
    PipelineTotal(ascends, g, ascends[i].0);
  }

  // ---------------------------------------------------------------------------
  // On the tree's own chains the total is the subtree sum

  predicate TaxidsDistinct(t: Tree)
  {
    forall u, v :: 0 <= u < |t.taxa| && 0 <= v < |t.taxa| && u != v ==> t.taxa[u].taxid != t.taxa[v].taxid
  }

  /** No taxon uses the chains' closing sentinel as its taxid. */
  predicate NoSentinel(t: Tree)
  {
    forall u :: 0 <= u < |t.taxa| ==> t.taxa[u].taxid != "0"
  }

  /** Own counts of the tree's nodes, by node. */
  function OwnWeights(t: Tree, g: seq<GenomeRow>): (w: seq<int>)
    requires IsForest(t)
    ensures |w| == |t.up| && forall u :: 0 <= u < |t.up| ==> w[u] >= 0
  {
    seq(|t.up|, u requires 0 <= u < |t.up| => Own(g, t.taxa[u].taxid) as int)
  }

  /** A node's taxid occurs in another node's extended chain once when it is that node or an
      ancestor of it, and not at all otherwise. */
  lemma {:induction false} ChainCount(t: Tree, x: nat, u: nat)
    requires IsForest(t) && TaxidsDistinct(t) && NoSentinel(t) && x < |t.up| && u < |t.up|
    decreases u
    ensures multiset(AscendOf(t, u) + [t.taxa[u].taxid])[t.taxa[x].taxid] == if IsAnc(t, x, u) then 1 else 0
  {
    if t.up[u] < 0 {
      ChainRoot(t, u);
    } else {
      var p := t.up[u];
      ChainCount(t, x, p);
      ChainSplit(t, u, p);
      if x == u && IsAnc(t, x, p) {
        AncBelow(t, x, p);
      }
    }
  }

  lemma ChainRoot(t: Tree, u: nat)
    requires IsForest(t) && u < |t.up| && t.up[u] < 0
    ensures multiset(AscendOf(t, u) + [t.taxa[u].taxid]) == multiset{"0", t.taxa[u].taxid}
  {
    assert AscendOf(t, u) + [t.taxa[u].taxid] == ["0", t.taxa[u].taxid];
  }

  lemma ChainSplit(t: Tree, u: nat, p: nat)
    requires IsForest(t) && u < |t.up| && p == t.up[u]
    ensures multiset(AscendOf(t, u) + [t.taxa[u].taxid])
      == multiset(AscendOf(t, p) + [t.taxa[p].taxid]) + multiset{t.taxa[u].taxid}
  {
    assert AscendOf(t, u) + [t.taxa[u].taxid] == [t.taxa[p].taxid] + AscendOf(t, p) + [t.taxa[u].taxid];
  }

  lemma {:induction false} RowTotalIsDescSum(t: Tree, g: seq<GenomeRow>, x: nat, lo: nat)
    requires IsForest(t) && TaxidsDistinct(t) && NoSentinel(t) && x < |t.up| && lo <= |t.up|
    decreases |t.up| - lo
    ensures RowTotal(Ascends(t, |t.up|)[lo..], g, t.taxa[x].taxid) == DescSum(t, OwnWeights(t, g), x, lo)
  {
    var w := OwnWeights(t, g);
    if lo == |t.up| {
      assert Ascends(t, |t.up|)[lo..] == [];
    } else {
      var rows := Ascends(t, |t.up|)[lo..];
      var k := t.taxa[x].taxid;
      assert rows[0] == (t.taxa[lo].taxid, AscendOf(t, lo));
      assert rows[1..] == Ascends(t, |t.up|)[lo + 1..];
      var c := multiset(AscendOf(t, lo) + [t.taxa[lo].taxid])[k];
      assert RowTotal(rows, g, k) == c * w[lo] + RowTotal(Ascends(t, |t.up|)[lo + 1..], g, k);
      ChainCount(t, x, lo);
      RowTotalIsDescSum(t, g, x, lo + 1);
      assert c * w[lo] == if IsAnc(t, x, lo) then w[lo] else 0;
    }
  }

  /** The current `add_info` on the tree's `ascends` rows: one row per node, in order, keeping
      its taxid and chain, whose genome count is the sum of the own counts over its subtree
      (the node included; taxa without genome rows count 0). */
  lemma GenomesAreSubtreeSums(t: Tree, g: seq<GenomeRow>, v: nat)
    requires IsForest(t) && TaxidsDistinct(t) && NoSentinel(t) && v < |t.up|
    ensures |Addi(Ascends(t, |t.up|), g)| == |t.up|
    ensures Addi(Ascends(t, |t.up|), g)[v].taxid == t.taxa[v].taxid
    ensures Addi(Ascends(t, |t.up|), g)[v].ascend == AscendOf(t, v)
    ensures Addi(Ascends(t, |t.up|), g)[v].genomes == TreeSum(t, OwnWeights(t, g), v)
  {
    var rows := Ascends(t, |t.up|);
    AddiGenomes(rows, g, v);
    assert rows[0..] == rows;
    RowTotalIsDescSum(t, g, v, 0);
    TreeSumIsDescSum(t, OwnWeights(t, g), v);
  }

  /** The ages join keeps every row: with one age row per taxid at most, each row is kept
      once, in order, with its age when it has one and no age otherwise. */
  lemma {:induction false} JoinAgesRows<A(!new)>(addi: seq<Info>, ages: seq<(string, A)>)
    requires forall i, j :: 0 <= i < |ages| && 0 <= j < |ages| && i != j ==> ages[i].0 != ages[j].0
    ensures |JoinAges(addi, ages)| == |addi|
    ensures forall i :: 0 <= i < |addi| ==> JoinAges(addi, ages)[i].0 == addi[i]
    ensures forall i :: 0 <= i < |addi| ==>
      (JoinAges(addi, ages)[i].1.None? <==> forall j :: 0 <= j < |ages| ==> ages[j].0 != addi[i].taxid)
    ensures forall i :: 0 <= i < |addi| && JoinAges(addi, ages)[i].1.Some? ==>
      (addi[i].taxid, JoinAges(addi, ages)[i].1.value) in ages
  {
    if addi != [] {
      var found := AgesOf(ages, addi[0].taxid);
      AgeMatch(ages, addi[0].taxid);
      JoinAgesHead(addi, ages);
      JoinAgesRows(addi[1..], ages);
      var rest := JoinAges(addi[1..], ages);
      var out := JoinAges(addi, ages);
      forall i | 1 <= i < |addi|
        ensures out[i] == rest[i - 1] && addi[i] == addi[1..][i - 1]
      {
      }
    }
  }

  lemma JoinAgesHead<A(!new)>(addi: seq<Info>, ages: seq<(string, A)>)
    requires forall i, j :: 0 <= i < |ages| && 0 <= j < |ages| && i != j ==> ages[i].0 != ages[j].0
    requires addi != []
    ensures var found := AgesOf(ages, addi[0].taxid);
      JoinAges(addi, ages) == [(addi[0], if found == [] then None else Some(found[0]))] + JoinAges(addi[1..], ages)
  {
    AgesAtMostOne(ages, addi[0].taxid);
  }

  /** With one age row per taxid at most, a taxon has an age exactly when some row names it. */
  lemma AgeMatch<A(!new)>(ages: seq<(string, A)>, k: string)
    requires forall i, j :: 0 <= i < |ages| && 0 <= j < |ages| && i != j ==> ages[i].0 != ages[j].0
    ensures AgesOf(ages, k) == [] <==> forall j :: 0 <= j < |ages| ==> ages[j].0 != k
    ensures AgesOf(ages, k) != [] ==> (k, AgesOf(ages, k)[0]) in ages
  {
    var found := AgesOf(ages, k);
    forall j | 0 <= j < |ages| && ages[j].0 == k
      ensures ages[j].1 in found
    {
      assert ages[j] in ages;
    }
    if found != [] {
      assert found[0] in found;
    }
  }

  lemma {:induction false} AgesAtMostOne<A(!new)>(ages: seq<(string, A)>, k: string)
    requires forall i, j :: 0 <= i < |ages| && 0 <= j < |ages| && i != j ==> ages[i].0 != ages[j].0
    ensures |AgesOf(ages, k)| <= 1
  {
    if ages != [] {
      AgesAtMostOne(ages[1..], k);
      if ages[0].0 == k {
        forall j | 0 <= j < |ages[1..]|
          ensures ages[1..][j].0 != k
        {
          assert ages[1..][j] == ages[j + 1];
        }
        AgeMatch(ages[1..], k);
      }
    }
  }

  /** Whatever the ages table, no row is lost: each row is kept at least once. */
  lemma {:induction false} JoinAgesKeeps<A(!new)>(addi: seq<Info>, ages: seq<(string, A)>)
    ensures |JoinAges(addi, ages)| >= |addi|
  {
    if addi != [] {
      JoinAgesKeeps(addi[1..], ages);
    }
  }

  /** `add_info` as a whole: with one age row per taxid at most, it yields one row per
      `ascends` row, in order, holding that row's taxid, its chain, the reference genome total
      of its taxid, and the taxid's age, or none when the ages table does not list it. */
  lemma AddInfoRows<A(!new)>(ascends: seq<(string, seq<string>)>, g: seq<GenomeRow>, ages: seq<(string, A)>, i: nat)
    requires forall a, b :: 0 <= a < |ages| && 0 <= b < |ages| && a != b ==> ages[a].0 != ages[b].0
    requires i < |ascends|
    ensures |AddInfo(ascends, g, ages)| == |ascends|
    ensures AddInfo(ascends, g, ages)[i].0 == Addi(ascends, g)[i]
    ensures AddInfo(ascends, g, ages)[i].0.taxid == ascends[i].0
    ensures AddInfo(ascends, g, ages)[i].0.ascend == ascends[i].1
    ensures AddInfo(ascends, g, ages)[i].0.genomes == RowTotal(ascends, g, ascends[i].0)
    ensures AddInfo(ascends, g, ages)[i].1.None? <==> forall j :: 0 <= j < |ages| ==> ages[j].0 != ascends[i].0
    ensures AddInfo(ascends, g, ages)[i].1.Some? ==> (ascends[i].0, AddInfo(ascends, g, ages)[i].1.value) in ages
  {
    JoinAgesRows(Addi(ascends, g), ages);
    AddiGenomes(ascends, g, i);
  }

  /** `add_info` on the tree's own `ascends` rows: row `v` is node `v`, with its chain, the sum
      of the own counts over its subtree, and its age when it has one. */
  lemma AddInfoSubtreeSums<A(!new)>(t: Tree, g: seq<GenomeRow>, ages: seq<(string, A)>, v: nat)
    requires IsForest(t) && TaxidsDistinct(t) && NoSentinel(t) && v < |t.up|
    requires forall a, b :: 0 <= a < |ages| && 0 <= b < |ages| && a != b ==> ages[a].0 != ages[b].0
    ensures |AddInfo(Ascends(t, |t.up|), g, ages)| == |t.up|
    ensures AddInfo(Ascends(t, |t.up|), g, ages)[v].0.taxid == t.taxa[v].taxid
    ensures AddInfo(Ascends(t, |t.up|), g, ages)[v].0.ascend == AscendOf(t, v)
    ensures AddInfo(Ascends(t, |t.up|), g, ages)[v].0.genomes == TreeSum(t, OwnWeights(t, g), v)
    ensures AddInfo(Ascends(t, |t.up|), g, ages)[v].1.None?
      <==> forall j :: 0 <= j < |ages| ==> ages[j].0 != t.taxa[v].taxid
    ensures AddInfo(Ascends(t, |t.up|), g, ages)[v].1.Some?
      ==> (t.taxa[v].taxid, AddInfo(Ascends(t, |t.up|), g, ages)[v].1.value) in ages
  {
    var rows := Ascends(t, |t.up|);
    GenomesAreSubtreeSums(t, g, v);
    AddInfoRows(rows, g, ages, v);
  }
}

/** The legacy roll-up: a first level-order pass in which every node adds its own count to
    itself and to each ancestor while recording the ancestors' taxids, then a second pass
    that emits one record per node. */
module GenomesLegacy {
  import opened Common
  import opened Taxonomy
  import opened Genomes

  /** The legacy own count: the `n` of the matching row when exactly one row matches,
      0 otherwise. */
  function OwnOld(g: seq<GenomeRow>, k: string): nat
  {
    var ms := RowsOf(g, k);
    if |ms| == 1 then ms[0].n else 0
  }

  function OwnOldWeights(t: Tree, g: seq<GenomeRow>): (w: seq<int>)
    requires IsForest(t)
    ensures |w| == |t.up| && forall u :: 0 <= u < |t.up| ==> w[u] >= 0
  {
    seq(|t.up|, u requires 0 <= u < |t.up| => OwnOld(g, t.taxa[u].taxid) as int)
  }

  /** An entry of a legacy ascend list: an ancestor's taxid, which is a string, or the
      integer 0 that closes the list. */
  datatype Step = Ancestor(id: string) | Zero

  /** One entry of the ADDITIONAL json list. */
  datatype Additional = Additional(taxid: string, genomes: int, ascend: seq<Step>)

  /** `a` lists the taxids of `asc` and then the integer 0 where `asc` has the string "0". */
  predicate LegacyChain(a: seq<Step>, asc: seq<string>)
  {
    |a| == |asc| > 0 && a[|a| - 1] == Zero && forall i :: 0 <= i < |a| - 1 ==> a[i] == Ancestor(asc[i])
  }

  /** The weights of the nodes before `v`; later nodes weigh 0. */
  function Upto(w: seq<int>, v: nat): (r: seq<int>)
    ensures |r| == |w|
  {
    seq(|w|, i requires 0 <= i < |w| => if i < v then w[i] else 0)
  }

  /** Raising one weight raises the sum of every subtree that holds it, and no other. */
  lemma {:induction false} DescSumBump(t: Tree, w: seq<int>, i: nat, d: int, u: nat, lo: nat)
    requires IsForest(t) && |w| == |t.up| && i < |t.up| && u < |t.up|
    decreases |t.up| - lo
    ensures DescSum(t, w[i := w[i] + d], u, lo) == DescSum(t, w, u, lo) + (if lo <= i && IsAnc(t, u, i) then d else 0)
  {
    if lo < |t.up| {
      DescSumBump(t, w, i, d, u, lo + 1);
    }
  }

  /** Before `v` is visited nothing below it weighs anything. */
  lemma {:induction false} DescSumUptoZero(t: Tree, w: seq<int>, v: nat, lo: nat)
    requires IsForest(t) && |w| == |t.up| && v < |t.up|
    decreases |t.up| - lo
    ensures DescSum(t, Upto(w, v), v, lo) == 0
  {
    if lo < |t.up| {
      if IsAnc(t, v, lo) {
        AncBelow(t, v, lo);
      }
      DescSumUptoZero(t, w, v, lo + 1);
    }
  }

  /** Moving up one step from `node` towards the root covers exactly one more ancestor of `v`. */
  lemma StepCover(t: Tree, v: nat, node: nat, u: nat)
    requires IsForest(t) && v < |t.up| && node < |t.up| && u < |t.up|
    requires IsAnc(t, node, v) && t.up[node] >= 0 && u != t.up[node]
    ensures (IsAnc(t, u, v) && IsAnc(t, t.up[node], u)) <==> (IsAnc(t, u, v) && IsAnc(t, node, u))
  {
    var a := t.up[node];
    assert IsAnc(t, a, node);
    if IsAnc(t, node, u) {
      AncTrans(t, a, node, u);
    }
    if IsAnc(t, u, v) && IsAnc(t, a, u) {
      AncChain(t, u, node, v);
      if IsAnc(t, u, node) && u != node {
        assert IsAnc(t, u, a);
        AncBelow(t, u, a);
        AncBelow(t, a, u);
      }
    }
  }

  /** The counts when node `v` is about to be visited: every earlier node holds the sum of its
      subtree over the earlier nodes, and no later node has a count yet. */
  predicate Before(t: Tree, w: seq<int>, v: nat, nb: seq<Option<int>>)
    requires IsForest(t) && |w| == |t.up|
  {
    |nb| == |t.up| && forall u :: 0 <= u < |t.up| ==>
      nb[u] == if u < v then Some(DescSum(t, Upto(w, v), u, 0)) else None
  }

  /** The counts while the walk from `v` stands at its ancestor `node`: as in `Before`, except
      that `v` and the ancestors from `v` up to `node` have received the own count `x`. */
  predicate Climbing(t: Tree, w: seq<int>, v: nat, x: int, node: nat, nb: seq<Option<int>>)
    requires IsForest(t) && |w| == |t.up| && v < |t.up| && node < |t.up|
  {
    |nb| == |t.up| && forall u :: 0 <= u < |t.up| ==>
      nb[u] == if u <= v then Some(DescSum(t, Upto(w, v), u, 0) + (if IsAnc(t, u, v) && IsAnc(t, node, u) then x else 0))
               else None
  }

  /** `v` has no count when it is visited, and once it holds `x` the walk starts at `v`. */
  lemma ClimbStart(t: Tree, w: seq<int>, v: nat, x: int, nb: seq<Option<int>>)
    requires IsForest(t) && |w| == |t.up| && v < |t.up| && Before(t, w, v, nb)
    ensures nb[v] == None && Climbing(t, w, v, x, v, nb[v := Some(x)])
  {
    DescSumUptoZero(t, w, v, 0);
    forall u | 0 <= u < v
      ensures !IsAnc(t, v, u)
    {
      if IsAnc(t, v, u) {
        AncBelow(t, v, u);
      }
    }
  }

  /** Each ancestor reached was visited before `v`, so it has a count, and adding `x` to it
      moves the walk one step up. */
  lemma ClimbStep(t: Tree, w: seq<int>, v: nat, x: int, node: nat, a: nat, nb: seq<Option<int>>)
    requires IsForest(t) && |w| == |t.up| && v < |t.up| && node <= v
    requires IsAnc(t, node, v) && a == t.up[node] && Climbing(t, w, v, x, node, nb)
    ensures nb[a].Some?
    ensures a < node && IsAnc(t, a, v)
    ensures Climbing(t, w, v, x, a, nb[a := Some(nb[a].value + x)])
  {
    AncTrans(t, a, node, v);
    if IsAnc(t, node, a) {
      AncBelow(t, node, a);
    }
    forall u | 0 <= u < |t.up| && u != a
      ensures (IsAnc(t, u, v) && IsAnc(t, a, u)) <==> (IsAnc(t, u, v) && IsAnc(t, node, u))
    {
      StepCover(t, v, node, u);
    }
  }

  /** At the top of the chain every ancestor of `v` has received `x`: the counts are those of
      `Before` for the next node. */
  lemma ClimbEnd(t: Tree, w: seq<int>, v: nat, x: int, node: nat, nb: seq<Option<int>>)
    requires IsForest(t) && |w| == |t.up| && v < |t.up| && node < |t.up| && x == w[v]
    requires IsAnc(t, node, v) && t.up[node] < 0 && Climbing(t, w, v, x, node, nb)
    ensures Before(t, w, v + 1, nb)
  {
    assert Upto(w, v + 1) == Upto(w, v)[v := Upto(w, v)[v] + x];
    forall u | 0 <= u < |t.up|
      ensures nb[u] == if u < v + 1 then Some(DescSum(t, Upto(w, v + 1), u, 0)) else None
    {
      DescSumBump(t, Upto(w, v), v, x, u, 0);
      if IsAnc(t, u, v) {
        AncChain(t, u, node, v);
      }
    }
  }

  /** `n.path` after the walk from `v`: the ancestors' taxids from parent to root. */
  function PathOf(t: Tree, v: nat): seq<Step>
    requires IsForest(t) && v < |t.up|
    decreases v
  {
    if t.up[v] < 0 then [] else [Ancestor(t.taxa[t.up[v]].taxid)] + PathOf(t, t.up[v])
  }

  /** Closing the path with the integer 0 gives the node's ascend chain, with the integer
      where the current builder writes the string "0". */
  lemma {:induction false} PathAscend(t: Tree, v: nat)
    requires IsForest(t) && v < |t.up|
    decreases v
    ensures LegacyChain(PathOf(t, v) + [Zero], AscendOf(t, v))
  {
    if t.up[v] >= 0 {
      var p := t.up[v];
      PathAscend(t, p);
      assert PathOf(t, v) + [Zero] == [Ancestor(t.taxa[p].taxid)] + (PathOf(t, p) + [Zero]);
    }
  }

  /** First pass, body for node `v`: `n.nbgenomes` is created with the own count `x` (no
      descendant has been visited yet), then the walk up adds `x` to every ancestor and
      collects their taxids into `path`. Returns the index of the next node. */
  method Visit(t: Tree, ghost w: seq<int>, v: nat, x: int, nb: seq<Option<int>>)
    returns (nb': seq<Option<int>>, path: seq<Step>, next: nat)
    requires IsForest(t) && |w| == |t.up| && v < |t.up| && x == w[v] && Before(t, w, v, nb)
    ensures next == v + 1 && Before(t, w, next, nb')
    ensures path == PathOf(t, v)
  {
    ClimbStart(t, w, v, x, nb);
    // `n.nbgenomes += x`, or `n.nbgenomes = x` when the attribute does not exist yet
    var own := match nb[v] case Some(c) => Some(c + x) case None => Some(x);
    assert own == Some(x);
    var top;
    nb', path, top := Climb(t, w, v, x, nb[v := own]);
    ClimbEnd(t, w, v, x, top, nb');
    next := v + 1;
  }

  /** `while node.up`: from `v` up to the root of its tree, each ancestor's count is raised by
      `x` (each was visited before `v`, so its count exists) and its taxid appended to `path`.
      Returns the node where the walk stops. */
  method Climb(t: Tree, ghost w: seq<int>, v: nat, x: int, nb: seq<Option<int>>)
    returns (nb': seq<Option<int>>, path: seq<Step>, top: nat)
    requires IsForest(t) && |w| == |t.up| && v < |t.up| && Climbing(t, w, v, x, v, nb)
    ensures top < |t.up| && IsAnc(t, top, v) && t.up[top] < 0 && Climbing(t, w, v, x, top, nb')
    ensures path == PathOf(t, v)
  {
    nb' := nb;
    path := [];
    top := v;
    while t.up[top] >= 0
      invariant top <= v && IsAnc(t, top, v)
      invariant path + PathOf(t, top) == PathOf(t, v)
      invariant Climbing(t, w, v, x, top, nb')
      decreases top
    {
      var a := t.up[top];
      ClimbStep(t, w, v, x, top, a, nb');
      var raised := match nb'[a] case Some(c) => Some(c + x) case None => Some(x);
      assert raised == Some(nb'[a].value + x);
      nb' := nb'[a := raised];
      assert path + PathOf(t, top) == (path + [Ancestor(t.taxa[a].taxid)]) + PathOf(t, a);
      path := path + [Ancestor(t.taxa[a].taxid)];
      top := a;
    }
  }

  /** `add_info` of the legacy builder: both passes over the tree in level order. Each
      record holds the node's taxid, the sum of the own counts over its subtree, and its
      ancestors' taxids from parent to root closed by the integer 0. */
  method AddInfo(t: Tree, g: seq<GenomeRow>) returns (addi: seq<Additional>)
    requires IsForest(t)
    ensures |addi| == |t.up|
    ensures forall v :: 0 <= v < |t.up| ==>
      addi[v].taxid == t.taxa[v].taxid && addi[v].genomes == TreeSum(t, OwnOldWeights(t, g), v)
      && LegacyChain(addi[v].ascend, AscendOf(t, v))
  {
    ghost var w := OwnOldWeights(t, g);
    var nb: seq<Option<int>> := seq(|t.up|, _ => None);
    NoneVisited(t, w, nb);
    var paths: seq<seq<Step>> := [];
    var v := 0;
    while v < |t.up|
      invariant v <= |t.up| && |paths| == v && Before(t, w, v, nb)
      invariant forall u :: 0 <= u < v ==> paths[u] == PathOf(t, u)
    {
      var path;
      nb, path, v := Visit(t, w, v, OwnOld(g, t.taxa[v].taxid), nb);
      paths := paths + [path];
    }
    AllVisited(t, w, v, nb);
    addi := Records(t, nb, paths);
    RecordsAre(t, w, nb, paths, addi);
  }

  /** The records written from the first pass's counts and paths are the subtree sums and
      the ascend chains. */
  lemma RecordsAre(t: Tree, w: seq<int>, nb: seq<Option<int>>, paths: seq<seq<Step>>, addi: seq<Additional>)
    requires IsForest(t) && |w| == |t.up| == |nb| == |paths| == |addi|
    requires forall u :: 0 <= u < |t.up| ==> nb[u] == Some(TreeSum(t, w, u)) && paths[u] == PathOf(t, u)
    requires forall u :: 0 <= u < |t.up| ==> addi[u] == Additional(t.taxa[u].taxid, nb[u].value, paths[u] + [Zero])
    ensures forall v :: 0 <= v < |t.up| ==>
      addi[v].taxid == t.taxa[v].taxid && addi[v].genomes == TreeSum(t, w, v) && LegacyChain(addi[v].ascend, AscendOf(t, v))
  {
    forall v | 0 <= v < |t.up|
      ensures addi[v].taxid == t.taxa[v].taxid && addi[v].genomes == TreeSum(t, w, v)
      ensures LegacyChain(addi[v].ascend, AscendOf(t, v))
    {
      PathAscend(t, v);
    }
  }

  lemma NoneVisited(t: Tree, w: seq<int>, nb: seq<Option<int>>)
    requires IsForest(t) && |w| == |t.up| == |nb| && forall u :: 0 <= u < |nb| ==> nb[u] == None
    ensures Before(t, w, 0, nb)
  {
  }

  /** Once every node has been visited, each count is the sum of the own counts over the
      node's subtree. */
  lemma AllVisited(t: Tree, w: seq<int>, v: nat, nb: seq<Option<int>>)
    requires IsForest(t) && |w| == |t.up| && v == |t.up| && Before(t, w, v, nb)
    ensures forall u :: 0 <= u < |t.up| ==> nb[u] == Some(TreeSum(t, w, u))
  {
    assert Upto(w, |t.up|) == w;
    forall u | 0 <= u < |t.up|
      ensures nb[u] == Some(TreeSum(t, w, u))
    {
      TreeSumIsDescSum(t, w, u);
    }
  }

  /** Second pass: one record per node, in traversal order, with the node's count and its
      path closed by the integer 0. Every node has a count by now. */
  method Records(t: Tree, nb: seq<Option<int>>, paths: seq<seq<Step>>) returns (addi: seq<Additional>)
    requires |t.taxa| == |nb| == |paths| && forall u :: 0 <= u < |nb| ==> nb[u].Some?
    ensures |addi| == |nb|
    ensures forall u :: 0 <= u < |nb| ==> addi[u] == Additional(t.taxa[u].taxid, nb[u].value, paths[u] + [Zero])
  {
    addi := [];
    var v := 0;
    while v < |nb|
      invariant v <= |nb| && |addi| == v
      invariant forall u :: 0 <= u < v ==> addi[u] == Additional(t.taxa[u].taxid, nb[u].value, paths[u] + [Zero])
    {
      addi := addi + [Additional(t.taxa[v].taxid, nb[v].value, paths[v] + [Zero])];
      v := v + 1;
    }
  }

  /** The two own counts agree on every taxon that at most one report lists with complete
      genomes; a taxon listed by both gets 0 from the legacy code and the sum of both counts
      from the current one. */
  lemma OwnVersions(eu: seq<Report>, pro: seq<Report>, k: string)
    ensures !(CompleteCount(eu, k) > 0 && CompleteCount(pro, k) > 0) ==>
      OwnOld(GenomeTable(eu, pro), k) == Own(GenomeTable(eu, pro), k) == CompleteCount(eu, k) + CompleteCount(pro, k)
    ensures CompleteCount(eu, k) > 0 && CompleteCount(pro, k) > 0 ==>
      OwnOld(GenomeTable(eu, pro), k) == 0 && Own(GenomeTable(eu, pro), k) >= 2
  {
    var ms := RowsOf(GenomeTable(eu, pro), k);
    TableOwn(eu, pro, k);
    if |ms| == 1 {
      assert ms == [ms[0]] + ms[1..];
      assert SumN(ms) == ms[0].n;
    }
  }

  /** Hence both builders give every node the same genome count whenever no taxon of the tree
      is listed with complete genomes in both reports. */
  lemma VersionsAgree(t: Tree, eu: seq<Report>, pro: seq<Report>, v: nat)
    requires IsForest(t) && v < |t.up|
    requires forall u :: 0 <= u < |t.up| ==>
      !(CompleteCount(eu, t.taxa[u].taxid) > 0 && CompleteCount(pro, t.taxa[u].taxid) > 0)
    ensures TreeSum(t, OwnOldWeights(t, GenomeTable(eu, pro)), v) == TreeSum(t, OwnWeights(t, GenomeTable(eu, pro)), v)
  {
    forall u | 0 <= u < |t.up|
      ensures OwnOldWeights(t, GenomeTable(eu, pro))[u] == OwnWeights(t, GenomeTable(eu, pro))[u]
    {
      OwnVersions(eu, pro, t.taxa[u].taxid);
    }
    assert OwnOldWeights(t, GenomeTable(eu, pro)) == OwnWeights(t, GenomeTable(eu, pro));
  }
}
