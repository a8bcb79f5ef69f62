/** Building the taxonomy tree from nodes.dmp (`getTheTrees`, in both revisions): after the
    first line, every line names a taxon, its parent and its rank; nodes are made the first
    time a taxid is named, from the records `get_attributes` returned, and the taxon is
    attached under its parent. The tree is a dictionary from taxid to node; the rank
    translation table is a parameter. */
module NodesDump {
  import opened Common
  import opened Text
  import opened Taxonomy
  import opened NamesDump

  /** The fields the builder reads from a nodes.dmp line: taxon, parent and rank. */
  datatype Edge = Edge(son: string, dad: string, rank: string)

  /** Fields 0, 1 and 2 of the line cut at `|`, tabs removed; a line with fewer than two
      `|` raises `IndexError`. */
  function ParseEdge(line: string): (r: Option<Edge>)
    ensures r.Some? <==> Count(line, '|') >= 2
    ensures r.Some? ==> '|' !in r.value.son && '\t' !in r.value.son
    ensures r.Some? ==> '|' !in r.value.dad && '\t' !in r.value.dad && '\t' !in r.value.rank
  {
    var parts := Split(line, '|');
    if |parts| < 3 then None
    else Some(Edge(RemoveChar(parts[0], '\t'), RemoveChar(parts[1], '\t'), RemoveChar(parts[2], '\t')))
  }

  /** A nodes.dmp row: taxon, parent and rank, tab-framed and closed by `|`, then the
      remaining columns. */
  function NodeRow(son: string, dad: string, rank: string, rest: string): string
  {
    son + "\t|\t" + dad + "\t|\t" + rank + "\t|" + rest
  }

  /** Reading a dump row gives back its taxon, parent and rank. */
  lemma NodeRowParses(son: string, dad: string, rank: string, rest: string)
    requires '|' !in son && '|' !in dad && '|' !in rank
    requires '\t' !in son && '\t' !in dad && '\t' !in rank
    ensures ParseEdge(NodeRow(son, dad, rank, rest)) == Some(Edge(son, dad, rank))
  {
    var tail2 := "\t" + rank + "\t" + "|" + rest;
    var tail1 := "\t" + dad + "\t" + "|" + tail2;
    assert NodeRow(son, dad, rank, rest) == son + "\t" + "|" + tail1;
    SplitPrefix(son + "\t", '|', tail1);
    SplitPrefix("\t" + dad + "\t", '|', tail2);
    SplitPrefix("\t" + rank + "\t", '|', rest);
    Untab(son);
    Untab(dad);
    Untab(rank);
  }

  /** A node of the tree: its names, the rank a line naming it as taxon gave it (none for a
      node only ever named as a parent), the parent it was last attached under, and its
      children in the order they were attached. */
  datatype Node = Node(names: Names, rank: Option<Langs>, up: Option<string>, kids: seq<string>)

  /** Why the build stops, with the index of the line in the file. */
  datatype BuildError = ShortLine(line: nat) | UnknownRank(line: nat) | UnknownTaxid(line: nat)

  /** What a taxon already in the tree keeps when a later line names it again: in the
      current revision the first rank stays; in `getTrees_fun.py` the guard tests an
      attribute that revision never sets, so every line overwrites it. */
  datatype RankRule = FirstWins | LastWins

  /** A rank and its French translation, quotes doubled. */
  function RankOf(rank: string, ranks: map<string, string>): Langs
    requires rank in ranks
  {
    Langs(DoubleQuotes(rank), DoubleQuotes(ranks[rank]))
  }

  /** One line's effect on a tree, once its lookups succeed: the parent is made if missing,
      the taxon is made with the line's rank if missing or else given that rank as the rule
      says, then the taxon is attached under the parent. */
  function Attach(tree: map<string, Node>, e: Edge, attr: map<string, Names>,
                  ranks: map<string, string>, rule: RankRule): (r: map<string, Node>)
    requires e.rank in ranks && (e.dad in tree || e.dad in attr)
    requires e.son in tree || e.son == e.dad || e.son in attr
    ensures r.Keys == tree.Keys + {e.dad, e.son}
    ensures r[e.son].up == Some(e.dad)
    ensures r[e.dad].kids == (if e.dad in tree then tree[e.dad].kids else []) + [e.son]
    ensures forall k :: k in tree && k != e.dad && k != e.son ==> r[k] == tree[k]
  {
    var rank := RankOf(e.rank, ranks);
    var t1 := if e.dad in tree then tree else tree[e.dad := Node(attr[e.dad], None, None, [])];
    var t2 :=
      if e.son !in t1 then t1[e.son := Node(attr[e.son], Some(rank), None, [])]
      else if rule == LastWins || t1[e.son].rank.None? then t1[e.son := t1[e.son].(rank := Some(rank))]
      else t1;
    var t3 := t2[e.dad := t2[e.dad].(kids := t2[e.dad].kids + [e.son])];
    t3[e.son := t3[e.son].(up := Some(e.dad))]
  }

  /** Line `i`'s effect, or the error it raises: a short line, then the rank translation,
      then the parent's record, then the taxon's. */
  function AddLine(tree: map<string, Node>, row: Option<Edge>, i: nat, attr: map<string, Names>,
                   ranks: map<string, string>, rule: RankRule): Result<map<string, Node>, BuildError>
  {
    match row
    case None => Err(ShortLine(i))
    case Some(e) =>
      if e.rank !in ranks then Err(UnknownRank(i))
      else if e.dad !in tree && e.dad !in attr then Err(UnknownTaxid(i))
      else if e.son !in tree && e.son != e.dad && e.son !in attr then Err(UnknownTaxid(i))
      else Ok(Attach(tree, e, attr, ranks, rule))
  }

  /** The fields of every line, or none for a line that is too short. */
  function Rows(lines: seq<string>): (rows: seq<Option<Edge>>)
    ensures |rows| == |lines|
  {
    seq(|lines|, i requires 0 <= i < |lines| => ParseEdge(lines[i]))
  }

  /** The tree after rows `1 .. n - 1` of the file; the first row is skipped. */
  function Grow(rows: seq<Option<Edge>>, n: nat, attr: map<string, Names>, ranks: map<string, string>,
                rule: RankRule): (r: Result<map<string, Node>, BuildError>)
    requires n <= |rows|
    ensures r.Err? ==> 1 <= r.error.line < n
  {
    if n <= 1 then Ok(map[])
    else
      match Grow(rows, n - 1, attr, ranks, rule)
      case Err(err) => Err(err)
      case Ok(tree) => AddLine(tree, rows[n - 1], n - 1, attr, ranks, rule)
  }

  /** Once a line has failed, later lines change nothing. */
  lemma {:induction false} GrowErrSticks(rows: seq<Option<Edge>>, n: nat, m: nat, attr: map<string, Names>,
                                         ranks: map<string, string>, rule: RankRule)
    requires n <= m <= |rows| && Grow(rows, n, attr, ranks, rule).Err?
    decreases m
    ensures Grow(rows, m, attr, ranks, rule) == Grow(rows, n, attr, ranks, rule)
  {
    if m > n {
      GrowErrSticks(rows, n, m - 1, attr, ranks, rule);
    }
  }

  /** The tree after one more line. */
  lemma GrowNext(rows: seq<Option<Edge>>, i: nat, attr: map<string, Names>, ranks: map<string, string>,
                 rule: RankRule, tree: map<string, Node>)
    requires i < |rows| && 1 <= i && Grow(rows, i, attr, ranks, rule) == Ok(tree)
    ensures Grow(rows, i + 1, attr, ranks, rule) == AddLine(tree, rows[i], i, attr, ranks, rule)
  {
  }

  /** The body of the loop for a line whose lookups succeed: makes the parent if missing,
      makes the taxon or sets its rank, then attaches the taxon under the parent. */
  method AttachEdge(tree: map<string, Node>, e: Edge, attr: map<string, Names>,
                    ranks: map<string, string>, rule: RankRule) returns (t: map<string, Node>)
    requires e.rank in ranks && (e.dad in tree || e.dad in attr)
    requires e.son in tree || e.son == e.dad || e.son in attr
    ensures t == Attach(tree, e, attr, ranks, rule)
  {
    t := tree;
    var rank := RankOf(e.rank, ranks);
    if e.dad !in t {
      t := t[e.dad := Node(attr[e.dad], None, None, [])];
    }
    if e.son !in t {
      t := t[e.son := Node(attr[e.son], Some(rank), None, [])];
    } else if rule == LastWins || t[e.son].rank.None? {
      t := t[e.son := t[e.son].(rank := Some(rank))];
    }
    t := t[e.dad := t[e.dad].(kids := t[e.dad].kids + [e.son])];
    t := t[e.son := t[e.son].(up := Some(e.dad))];
  }

  /** The tree after one more line whose lookups succeed. */
  lemma GrowAttach(rows: seq<Option<Edge>>, i: nat, attr: map<string, Names>, ranks: map<string, string>,
                   rule: RankRule, t0: map<string, Node>, e: Edge, tree: map<string, Node>)
    requires i < |rows| && 1 <= i && Grow(rows, i, attr, ranks, rule) == Ok(t0) && rows[i] == Some(e)
    requires e.rank in ranks && (e.dad in t0 || e.dad in attr) && (e.son in t0 || e.son == e.dad || e.son in attr)
    requires tree == Attach(t0, e, attr, ranks, rule)
    ensures Grow(rows, i + 1, attr, ranks, rule) == Ok(tree)
  {
    GrowNext(rows, i, attr, ranks, rule, t0);
  }

  /** `getTheTrees`, with the rule of the revision, over the fields of each line
      (`rows == Rows(lines)`: each line split on '|' by `ParseEdge`): skips the first line,
      then for each line looks the rank and the taxids up and attaches the taxon under its
      parent. */
  method GetTheTrees(rows: seq<Option<Edge>>, attr: map<string, Names>, ranks: map<string, string>,
                     rule: RankRule) returns (r: Result<map<string, Node>, BuildError>)
    ensures r == Grow(rows, |rows|, attr, ranks, rule)
  {
    var tree: map<string, Node> := map[];
    if |rows| == 0 {
      return Ok(tree);
    }
    var i := 1;
    while i < |rows|
      invariant 1 <= i <= |rows| && Grow(rows, i, attr, ranks, rule) == Ok(tree)
    {
      var err: Option<BuildError> := None;
      if rows[i].None? {
        err := Some(ShortLine(i));
      } else if rows[i].value.rank !in ranks {
        err := Some(UnknownRank(i));
      } else if rows[i].value.dad !in tree && rows[i].value.dad !in attr {
        err := Some(UnknownTaxid(i));
      } else if rows[i].value.son !in tree && rows[i].value.son != rows[i].value.dad && rows[i].value.son !in attr {
        err := Some(UnknownTaxid(i));
      }
      if err.Some? {
        GrowNext(rows, i, attr, ranks, rule, tree);
        GrowErrSticks(rows, i + 1, |rows|, attr, ranks, rule);
        return Err(err.value);
      }
      var e := rows[i].value;
      ghost var t0 := tree;
      tree := AttachEdge(tree, e, attr, ranks, rule);
      GrowAttach(rows, i, attr, ranks, rule, t0, e, tree);
      i := i + 1;
    }
    return Ok(tree);
  }

  /** The taxa that lines `1 .. n - 1` attach under `k`, in file order. */
  function SonsOf(rows: seq<Option<Edge>>, n: nat, k: string): seq<string>
    requires n <= |rows|
  {
    if n <= 1 then []
    else SonsOf(rows, n - 1, k) + if rows[n - 1].Some? && rows[n - 1].value.dad == k then [rows[n - 1].value.son] else []
  }

  /** The parent the last of lines `1 .. n - 1` naming `k` as taxon gives it. */
  function LastDad(rows: seq<Option<Edge>>, n: nat, k: string): Option<string>
    requires n <= |rows|
  {
    if n <= 1 then None
    else if rows[n - 1].Some? && rows[n - 1].value.son == k then Some(rows[n - 1].value.dad)
    else LastDad(rows, n - 1, k)
  }

  /** The rank the first of lines `1 .. n - 1` naming `k` as taxon gives it. */
  function FirstRank(rows: seq<Option<Edge>>, n: nat, k: string): Option<string>
    requires n <= |rows|
  {
    if n <= 1 then None
    else if FirstRank(rows, n - 1, k).Some? then FirstRank(rows, n - 1, k)
    else if rows[n - 1].Some? && rows[n - 1].value.son == k then Some(rows[n - 1].value.rank)
    else None
  }

  /** The rank the last of lines `1 .. n - 1` naming `k` as taxon gives it. */
  function LastRank(rows: seq<Option<Edge>>, n: nat, k: string): Option<string>
    requires n <= |rows|
  {
    if n <= 1 then None
    else if rows[n - 1].Some? && rows[n - 1].value.son == k then Some(rows[n - 1].value.rank)
    else LastRank(rows, n - 1, k)
  }

  /** The rank the rule keeps. */
  function RankBy(rule: RankRule, rows: seq<Option<Edge>>, n: nat, k: string): Option<string>
    requires n <= |rows|
  {
    if rule == FirstWins then FirstRank(rows, n, k) else LastRank(rows, n, k)
  }

  /** The line names `k`, as taxon or as parent. */
  predicate Mentions(row: Option<Edge>, k: string)
  {
    row.Some? && (row.value.son == k || row.value.dad == k)
  }

  /** The node `Attach` leaves at `k`, field by field. */
  lemma AttachAt(tree: map<string, Node>, e: Edge, attr: map<string, Names>,
                 ranks: map<string, string>, rule: RankRule, k: string)
    requires e.rank in ranks && (e.dad in tree || e.dad in attr)
    requires e.son in tree || e.son == e.dad || e.son in attr
    ensures k in Attach(tree, e, attr, ranks, rule) <==> k in tree || k == e.dad || k == e.son
    ensures k in Attach(tree, e, attr, ranks, rule) ==>
      var t := Attach(tree, e, attr, ranks, rule);
      var before := if k in tree then tree[k] else Node(attr[k], None, None, []);
      && t[k].names == before.names
      && t[k].rank == (if k == e.son && (rule == LastWins || before.rank.None?) then Some(RankOf(e.rank, ranks)) else before.rank)
      && t[k].up == (if k == e.son then Some(e.dad) else before.up)
      && t[k].kids == before.kids + (if k == e.dad then [e.son] else [])
  {
  }

  /** What the build leaves at each taxid: a node exactly for the taxids some line names;
      its names are the record `get_attributes` made, its rank the one the rule keeps, its
      parent the one the last line naming it as taxon gives, and its children the taxa the
      lines attach under it, in file order. */
  lemma {:induction false} GrowNodes(rows: seq<Option<Edge>>, n: nat, attr: map<string, Names>,
                                     ranks: map<string, string>, rule: RankRule, k: string)
    requires n <= |rows| && Grow(rows, n, attr, ranks, rule).Ok?
    decreases n
    ensures k in Grow(rows, n, attr, ranks, rule).value <==> exists i :: 1 <= i < n && Mentions(rows[i], k)
    ensures RankBy(rule, rows, n, k).Some? ==> RankBy(rule, rows, n, k).value in ranks
    ensures k in Grow(rows, n, attr, ranks, rule).value ==>
      var node := Grow(rows, n, attr, ranks, rule).value[k];
      && k in attr && node.names == attr[k]
      && node.rank == (if RankBy(rule, rows, n, k).Some? then Some(RankOf(RankBy(rule, rows, n, k).value, ranks)) else None)
      && node.up == LastDad(rows, n, k)
      && node.kids == SonsOf(rows, n, k)
    ensures k !in Grow(rows, n, attr, ranks, rule).value ==>
      RankBy(rule, rows, n, k) == None && LastDad(rows, n, k) == None && SonsOf(rows, n, k) == []
  {
    GrowNodeFits(rows, n, attr, ranks, rule, k);
  }

  /** The entry of `tree` at `k` is the one lines `1 .. n - 1` determine, as `GrowNodes`
      states it. */
  predicate NodeFits(rows: seq<Option<Edge>>, n: nat, attr: map<string, Names>, ranks: map<string, string>,
                     rule: RankRule, k: string, tree: map<string, Node>)
    requires n <= |rows|
  {
    && (k in tree <==> exists i :: 1 <= i < n && Mentions(rows[i], k))
    && (RankBy(rule, rows, n, k).Some? ==> RankBy(rule, rows, n, k).value in ranks)
    && (k in tree ==>
         && k in attr && tree[k].names == attr[k]
         && tree[k].rank == (if RankBy(rule, rows, n, k).Some? then Some(RankOf(RankBy(rule, rows, n, k).value, ranks)) else None)
         && tree[k].up == LastDad(rows, n, k)
         && tree[k].kids == SonsOf(rows, n, k))
    && (k !in tree ==> RankBy(rule, rows, n, k) == None && LastDad(rows, n, k) == None && SonsOf(rows, n, k) == [])
  }

  /** Attaching line `n - 1` keeps the entry at `k` what the lines so far determine. */
  lemma NodeFitsStep(rows: seq<Option<Edge>>, n: nat, attr: map<string, Names>, ranks: map<string, string>,
                     rule: RankRule, k: string, tree: map<string, Node>, e: Edge)
    requires 1 < n <= |rows| && rows[n - 1] == Some(e)
    requires e.rank in ranks && (e.dad in tree || e.dad in attr) && (e.son in tree || e.son == e.dad || e.son in attr)
    requires NodeFits(rows, n - 1, attr, ranks, rule, k, tree)
    ensures NodeFits(rows, n, attr, ranks, rule, k, Attach(tree, e, attr, ranks, rule))
  {
    AttachAt(tree, e, attr, ranks, rule, k);
    MentionedStep(rows, n, k);
  }

  lemma MentionedStep(rows: seq<Option<Edge>>, n: nat, k: string)
    requires 1 < n <= |rows|
    ensures (exists i :: 1 <= i < n && Mentions(rows[i], k))
      <==> (exists i :: 1 <= i < n - 1 && Mentions(rows[i], k)) || Mentions(rows[n - 1], k)
  {
    if exists i :: 1 <= i < n && Mentions(rows[i], k) {
      var i :| 1 <= i < n && Mentions(rows[i], k);
      if i < n - 1 {
        assert exists j :: 1 <= j < n - 1 && Mentions(rows[j], k);
      }
    }
  }

  lemma {:induction false} GrowNodeFits(rows: seq<Option<Edge>>, n: nat, attr: map<string, Names>,
                                        ranks: map<string, string>, rule: RankRule, k: string)
    requires n <= |rows| && Grow(rows, n, attr, ranks, rule).Ok?
    decreases n
    ensures NodeFits(rows, n, attr, ranks, rule, k, Grow(rows, n, attr, ranks, rule).value)
  {
    if n > 1 {
      var m := n - 1;
      GrowNodeFits(rows, m, attr, ranks, rule, k);
      var tree := Grow(rows, m, attr, ranks, rule).value;
      var e := rows[m].value;
      assert Grow(rows, n, attr, ranks, rule) == Ok(Attach(tree, e, attr, ranks, rule));
      NodeFitsStep(rows, n, attr, ranks, rule, k, tree, e);
    }
  }

  /** Every lookup the line makes succeeds on its own: it has the three fields, its rank
      has a translation, and both taxids have records. */
  predicate Fits(row: Option<Edge>, attr: map<string, Names>, ranks: map<string, string>)
  {
    row.Some? && row.value.rank in ranks && row.value.dad in attr && row.value.son in attr
  }

  /** Every taxid in a built tree has a names record. */
  lemma {:induction false} GrowKeysNamed(rows: seq<Option<Edge>>, n: nat, attr: map<string, Names>,
                                         ranks: map<string, string>, rule: RankRule)
    requires n <= |rows|
    decreases n
    ensures Grow(rows, n, attr, ranks, rule).Ok? ==> Grow(rows, n, attr, ranks, rule).value.Keys <= attr.Keys
  {
    if n > 1 {
      GrowKeysNamed(rows, n - 1, attr, ranks, rule);
    }
  }

  /** On a tree whose taxids all have records, a line succeeds exactly when it fits. */
  lemma AddLineOkIff(tree: map<string, Node>, row: Option<Edge>, i: nat, attr: map<string, Names>,
                     ranks: map<string, string>, rule: RankRule)
    requires tree.Keys <= attr.Keys
    ensures AddLine(tree, row, i, attr, ranks, rule).Ok? <==> Fits(row, attr, ranks)
  {
  }

  /** Lines `1 .. n - 1` all fit. */
  predicate AllFit(rows: seq<Option<Edge>>, n: nat, attr: map<string, Names>, ranks: map<string, string>)
    requires n <= |rows|
  {
    forall i :: 1 <= i < n ==> Fits(rows[i], attr, ranks)
  }

  lemma {:induction false} GrowOkAllFit(rows: seq<Option<Edge>>, n: nat, attr: map<string, Names>,
                                        ranks: map<string, string>, rule: RankRule)
    requires n <= |rows|
    decreases n
    ensures Grow(rows, n, attr, ranks, rule).Ok? <==> AllFit(rows, n, attr, ranks)
  {
    if n > 1 {
      var m := n - 1;
      assert AllFit(rows, n, attr, ranks) <==> AllFit(rows, m, attr, ranks) && Fits(rows[m], attr, ranks);
      GrowOkAllFit(rows, m, attr, ranks, rule);
      var prev := Grow(rows, m, attr, ranks, rule);
      if prev.Err? {
        assert Grow(rows, n, attr, ranks, rule) == prev;
      } else {
        GrowKeysNamed(rows, m, attr, ranks, rule);
        AddLineOkIff(prev.value, rows[m], m, attr, ranks, rule);
        assert Grow(rows, n, attr, ranks, rule) == AddLine(prev.value, rows[m], m, attr, ranks, rule);
      }
    }
  }

  /** The build succeeds exactly when every line after the first fits. */
  lemma GrowOkIff(rows: seq<Option<Edge>>, n: nat, attr: map<string, Names>,
                  ranks: map<string, string>, rule: RankRule)
    requires n <= |rows|
    ensures Grow(rows, n, attr, ranks, rule).Ok? <==> forall i :: 1 <= i < n ==> Fits(rows[i], attr, ranks)
  {
    GrowOkAllFit(rows, n, attr, ranks, rule);
  }


  /** A failed build names the first line that does not fit, and the error says why: a
      missing field, a rank without translation, or a taxid without a record. */
  lemma {:induction false} GrowErrAt(rows: seq<Option<Edge>>, n: nat, attr: map<string, Names>,
                                     ranks: map<string, string>, rule: RankRule)
    requires n <= |rows| && Grow(rows, n, attr, ranks, rule).Err?
    decreases n
    ensures var err := Grow(rows, n, attr, ranks, rule).error;
      && 1 <= err.line < n && !Fits(rows[err.line], attr, ranks)
      && (forall j :: 1 <= j < err.line ==> Fits(rows[j], attr, ranks))
      && (err.ShortLine? <==> rows[err.line].None?)
      && (err.UnknownRank? <==> rows[err.line].Some? && rows[err.line].value.rank !in ranks)
  {
    var m := n - 1;
    if Grow(rows, m, attr, ranks, rule).Err? {
      GrowErrAt(rows, m, attr, ranks, rule);
    } else {
      GrowOkIff(rows, m, attr, ranks, rule);
    }
  }

  /** Line `i` names `k` as the taxon. */
  predicate SonAt(rows: seq<Option<Edge>>, i: nat, k: string)
    requires i < |rows|
  {
    rows[i].Some? && rows[i].value.son == k
  }

  /** `FirstRank` is the rank of the first line naming the taxon. */
  lemma {:induction false} FirstRankIsFirst(rows: seq<Option<Edge>>, n: nat, k: string, i: nat)
    requires n <= |rows| && 1 <= i < n && SonAt(rows, i, k)
    requires forall j :: 1 <= j < i ==> !SonAt(rows, j, k)
    decreases n
    ensures FirstRank(rows, n, k) == Some(rows[i].value.rank)
  {
    if n - 1 > i {
      FirstRankIsFirst(rows, n - 1, k, i);
    } else {
      FirstRankNone(rows, i, k);
    }
  }

  /** No line naming the taxon, no first rank. */
  lemma {:induction false} FirstRankNone(rows: seq<Option<Edge>>, n: nat, k: string)
    requires n <= |rows| && forall j :: 1 <= j < n ==> !SonAt(rows, j, k)
    decreases n
    ensures FirstRank(rows, n, k) == None
  {
    if n > 1 {
      FirstRankNone(rows, n - 1, k);
      assert !SonAt(rows, n - 1, k);
    }
  }

  /** `LastRank` is the rank of the last line naming the taxon. */
  lemma {:induction false} LastRankIsLast(rows: seq<Option<Edge>>, n: nat, k: string, i: nat)
    requires n <= |rows| && 1 <= i < n && SonAt(rows, i, k)
    requires forall j :: i < j < n ==> !SonAt(rows, j, k)
    decreases n
    ensures LastRank(rows, n, k) == Some(rows[i].value.rank)
  {
    if n - 1 > i {
      assert !SonAt(rows, n - 1, k);
      LastRankIsLast(rows, n - 1, k, i);
    }
  }

  /** In the current revision a taxon keeps the rank of the first line naming it, whatever
      later lines say. */
  lemma RankFromFirstLine(rows: seq<Option<Edge>>, n: nat, attr: map<string, Names>,
                          ranks: map<string, string>, k: string, i: nat)
    requires n <= |rows| && Grow(rows, n, attr, ranks, FirstWins).Ok?
    requires 1 <= i < n && SonAt(rows, i, k) && forall j :: 1 <= j < i ==> !SonAt(rows, j, k)
    ensures k in Grow(rows, n, attr, ranks, FirstWins).value
    ensures rows[i].value.rank in ranks
    ensures Grow(rows, n, attr, ranks, FirstWins).value[k].rank == Some(RankOf(rows[i].value.rank, ranks))
  {
    assert Mentions(rows[i], k);
    GrowNodes(rows, n, attr, ranks, FirstWins, k);
    FirstRankIsFirst(rows, n, k, i);
  }

  /** Ranks that differ stay different once quotes are doubled. */
  lemma RankOfInjective(a: string, b: string, ranks: map<string, string>)
    requires a in ranks && b in ranks && a != b
    ensures RankOf(a, ranks) != RankOf(b, ranks)
  {
    UndoubleDouble(a);
    UndoubleDouble(b);
  }

  /** In `getTrees_fun.py` a taxon that a line `i` names with one rank and a later, last
      line `i2` names with another ends with the second rank: the first is lost. */
  lemma LastWinsOverwrites(rows: seq<Option<Edge>>, n: nat, attr: map<string, Names>,
                           ranks: map<string, string>, k: string, i: nat, i2: nat)
    requires n <= |rows| && Grow(rows, n, attr, ranks, LastWins).Ok?
    requires 1 <= i < i2 < n && SonAt(rows, i, k) && SonAt(rows, i2, k)
    requires forall j :: i2 < j < n ==> !SonAt(rows, j, k)
    requires rows[i].value.rank != rows[i2].value.rank
    ensures k in Grow(rows, n, attr, ranks, LastWins).value
    ensures rows[i].value.rank in ranks && rows[i2].value.rank in ranks
    ensures Grow(rows, n, attr, ranks, LastWins).value[k].rank == Some(RankOf(rows[i2].value.rank, ranks))
    ensures Grow(rows, n, attr, ranks, LastWins).value[k].rank != Some(RankOf(rows[i].value.rank, ranks))
  {
    assert Mentions(rows[i2], k);
    GrowNodes(rows, n, attr, ranks, LastWins, k);
    LastRankIsLast(rows, n, k, i2);
    GrowOkIff(rows, n, attr, ranks, LastWins);
    assert Fits(rows[i], attr, ranks);
    RankOfInjective(rows[i].value.rank, rows[i2].value.rank, ranks);
  }
}
