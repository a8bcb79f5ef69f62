/** Reading names.dmp (`get_attributes`, the same in both revisions): every line gives one
    name of one taxid, and the builder gathers them per taxid in a first loop, then formats
    them in a second. Lines arrive as a sequence; the French translation table is a
    parameter. */
module NamesDump {
  import opened Common
  import opened Text
  import opened Taxonomy

  /** The fields the builder reads from a names.dmp line: taxid, name and name class. */
  datatype NameLine = NameLine(taxid: string, value: string, kind: string)

  /** Fields 0, 1 and 3 of the line cut at `|`, tabs removed. A line with fewer than three
      `|` has no field 3 and Python raises `IndexError`. */
  function ParseName(line: string): (r: Option<NameLine>)
    ensures r.Some? <==> Count(line, '|') >= 3
    ensures r.Some? ==> '|' !in r.value.taxid && '\t' !in r.value.taxid
    ensures r.Some? ==> '\t' !in r.value.value && '\t' !in r.value.kind
  {
    var parts := Split(line, '|');
    if |parts| < 4 then None
    else Some(NameLine(RemoveChar(parts[0], '\t'), RemoveChar(parts[1], '\t'), RemoveChar(parts[3], '\t')))
  }

  /** A row as the NCBI dump writes it: four tab-framed fields, each closed by `|`. */
  function NameRow(taxid: string, value: string, unique: string, kind: string): string
  {
    taxid + "\t|\t" + value + "\t|\t" + unique + "\t|\t" + kind + "\t|\n"
  }

  /** The row is its five pieces joined by `|`. */
  lemma NameRowPieces(taxid: string, value: string, unique: string, kind: string)
    ensures NameRow(taxid, value, unique, kind)
      == Join([taxid + "\t", "\t" + value + "\t", "\t" + unique + "\t", "\t" + kind + "\t", "\n"], "|")
  {
    var pieces := [taxid + "\t", "\t" + value + "\t", "\t" + unique + "\t", "\t" + kind + "\t", "\n"];
    var j3 := "\t" + kind + "\t" + "|" + "\n";
    var j2 := "\t" + unique + "\t" + "|" + j3;
    var j1 := "\t" + value + "\t" + "|" + j2;
    assert pieces[1..][1..][1..][1..] == ["\n"];
    assert Join(pieces[1..][1..][1..], "|") == j3;
    assert Join(pieces[1..][1..], "|") == j2;
    assert Join(pieces[1..], "|") == j1;
    assert Join(pieces, "|") == taxid + "\t" + "|" + j1;
  }

  /** Removing the tabs that frame a tab-free field gives the field. */
  lemma Untab(x: string)
    requires '\t' !in x
    ensures RemoveChar(x + "\t", '\t') == x
    ensures RemoveChar("\t" + x + "\t", '\t') == x
  {
    RemoveCharAbsent(x, '\t');
    RemoveCharAppend(x, "\t", '\t');
    RemoveCharAppend("\t" + x, "\t", '\t');
    RemoveCharAppend("\t", x, '\t');
  }

  /** Reading a dump row gives back its taxid, name and name class. */
  lemma NameRowParses(taxid: string, value: string, unique: string, kind: string)
    requires '|' !in taxid && '|' !in value && '|' !in unique && '|' !in kind
    requires '\t' !in taxid && '\t' !in value && '\t' !in kind
    ensures ParseName(NameRow(taxid, value, unique, kind)) == Some(NameLine(taxid, value, kind))
  {
    var pieces := [taxid + "\t", "\t" + value + "\t", "\t" + unique + "\t", "\t" + kind + "\t", "\n"];
    NameRowPieces(taxid, value, unique, kind);
    forall i | 0 <= i < |pieces|
      ensures '|' !in pieces[i]
    {
    }
    SplitJoin(pieces, '|');
    assert Split(NameRow(taxid, value, unique, kind), '|') == pieces;
    Untab(taxid);
    Untab(value);
    Untab(kind);
  }

  /** What the first loop has gathered for one taxid. */
  datatype Gathered = Gathered(sciName: string, authority: string, synonym: string,
                               commonEn: seq<string>, commonFr: seq<string>)

  /** A taxid's record when its first line is met: empty names, no common names. */
  const Blank := Gathered("", "", "", [], [])

  /** `acc + ", " + v`, or `v` alone while `acc` is still empty. */
  function Extend(acc: string, v: string): string
  {
    if acc != "" then acc + ", " + v else v
  }

  /** One line's effect on its taxid's record: a common name is appended, a scientific name
      replaces the previous one and brings its French names when the table has it, an
      authority or synonym is added to the list; other name classes change nothing. */
  function Absorb(g: Gathered, l: NameLine, fr: map<string, seq<string>>): Gathered
  {
    if l.kind == "common name" then g.(commonEn := g.commonEn + [l.value])
    else if l.kind == "scientific name" then
      g.(sciName := l.value, commonFr := if l.value in fr then fr[l.value] else g.commonFr)
    else if l.kind == "authority" then g.(authority := Extend(g.authority, l.value))
    else if l.kind == "synonym" then g.(synonym := Extend(g.synonym, l.value))
    else g
  }

  /** A taxid's record, or the blank one before its first line. */
  function Lookup(m: map<string, Gathered>, k: string): Gathered
  {
    if k in m then m[k] else Blank
  }

  /** The dictionary the first loop holds after the lines `ls`. */
  function Gather(ls: seq<NameLine>, fr: map<string, seq<string>>): (r: map<string, Gathered>)
    ensures r.Keys == set i | 0 <= i < |ls| :: ls[i].taxid
  {
    if ls == [] then map[]
    else
      var m, l := Gather(ls[..|ls| - 1], fr), ls[|ls| - 1];
      m[l.taxid := Absorb(Lookup(m, l.taxid), l, fr)]
  }

  /** The names of the lines about `k` in name class `kind`, in file order. */
  function ValuesOf(ls: seq<NameLine>, k: string, kind: string): seq<string>
  {
    if ls == [] then []
    else
      var l := ls[|ls| - 1];
      ValuesOf(ls[..|ls| - 1], k, kind) + if l.taxid == k && l.kind == kind then [l.value] else []
  }

  /** `vs` without its leading empty strings. */
  function DropLeadingEmpty(vs: seq<string>): seq<string>
  {
    if vs != [] && vs[0] == "" then DropLeadingEmpty(vs[1..]) else vs
  }

  /** The last of `vs`, or `d` when there is none. */
  function LastOr(vs: seq<string>, d: string): string
  {
    if vs == [] then d else vs[|vs| - 1]
  }

  /** The translation of the last of the scientific names `sci` that the table has. */
  function FrNames(sci: seq<string>, fr: map<string, seq<string>>): seq<string>
  {
    if sci == [] then []
    else if sci[|sci| - 1] in fr then fr[sci[|sci| - 1]]
    else FrNames(sci[..|sci| - 1], fr)
  }

  /** A taxid's record read off all of its lines at once: the last scientific name, the
      authorities and synonyms joined by ", " once the empty ones before the first non-empty
      are dropped, every common name in order, and the French names of the last translated
      scientific name. */
  function Expected(ls: seq<NameLine>, fr: map<string, seq<string>>, k: string): Gathered
  {
    var sci := ValuesOf(ls, k, "scientific name");
    Gathered(LastOr(sci, ""),
             Join(DropLeadingEmpty(ValuesOf(ls, k, "authority")), ", "),
             Join(DropLeadingEmpty(ValuesOf(ls, k, "synonym")), ", "),
             ValuesOf(ls, k, "common name"),
             FrNames(sci, fr))
  }

  /** Adding one value with `Extend` is joining the whole list. */
  lemma {:induction false} ExtendJoin(vs: seq<string>, v: string)
    ensures Join(DropLeadingEmpty(vs + [v]), ", ") == Extend(Join(DropLeadingEmpty(vs), ", "), v)
  {
    if vs == [] {
      assert vs + [v] == [v];
    } else if vs[0] == "" {
      assert (vs + [v])[1..] == vs[1..] + [v];
      ExtendJoin(vs[1..], v);
    } else {
      JoinSnoc(vs, ", ", v);
      JoinNonEmpty(vs, ", ");
    }
  }

  /** The first loop's dictionary after one more line. */
  lemma GatherSnoc(ls: seq<NameLine>, l: NameLine, fr: map<string, seq<string>>)
    ensures Gather(ls + [l], fr) == Gather(ls, fr)[l.taxid := Absorb(Lookup(Gather(ls, fr), l.taxid), l, fr)]
  {
    assert (ls + [l])[..|ls|] == ls;
  }

  /** The first loop computes, for every taxid, the record its lines determine. */
  lemma {:induction false} GatherPerTaxid(ls: seq<NameLine>, fr: map<string, seq<string>>, k: string)
    ensures Lookup(Gather(ls, fr), k) == Expected(ls, fr, k)
  {
    if ls != [] {
      var init, l := ls[..|ls| - 1], ls[|ls| - 1];
      GatherPerTaxid(init, fr, k);
      if l.taxid == k {
        var sci := ValuesOf(ls, k, "scientific name");
        if l.kind == "scientific name" {
          assert sci == ValuesOf(init, k, "scientific name") + [l.value];
          assert sci[..|sci| - 1] == ValuesOf(init, k, "scientific name");
          assert ValuesOf(ls, k, "authority") == ValuesOf(init, k, "authority");
          assert ValuesOf(ls, k, "synonym") == ValuesOf(init, k, "synonym");
          assert ValuesOf(ls, k, "common name") == ValuesOf(init, k, "common name");
        } else {
          assert sci == ValuesOf(init, k, "scientific name");
          if l.kind == "authority" {
            ExtendJoin(ValuesOf(init, k, "authority"), l.value);
            assert ValuesOf(ls, k, "synonym") == ValuesOf(init, k, "synonym");
            assert ValuesOf(ls, k, "common name") == ValuesOf(init, k, "common name");
          } else if l.kind == "synonym" {
            ExtendJoin(ValuesOf(init, k, "synonym"), l.value);
            assert ValuesOf(ls, k, "authority") == ValuesOf(init, k, "authority");
            assert ValuesOf(ls, k, "common name") == ValuesOf(init, k, "common name");
          } else {
            assert ValuesOf(ls, k, "authority") == ValuesOf(init, k, "authority");
            assert ValuesOf(ls, k, "synonym") == ValuesOf(init, k, "synonym");
          }
        }
      } else {
        assert ValuesOf(ls, k, "scientific name") == ValuesOf(init, k, "scientific name");
        assert ValuesOf(ls, k, "authority") == ValuesOf(init, k, "authority");
        assert ValuesOf(ls, k, "synonym") == ValuesOf(init, k, "synonym");
        assert ValuesOf(ls, k, "common name") == ValuesOf(init, k, "common name");
      }
    }
  }

  /** The first loop makes one record per taxid seen and no other. */
  lemma {:induction false} GatherKeys(ls: seq<NameLine>, fr: map<string, seq<string>>, k: string)
    ensures k in Gather(ls, fr) <==> exists i :: 0 <= i < |ls| && ls[i].taxid == k
  {
    if ls != [] {
      var init := ls[..|ls| - 1];
      GatherKeys(init, fr, k);
      if k in Gather(init, fr) {
        var i :| 0 <= i < |init| && init[i].taxid == k;
        assert ls[i].taxid == k;
      }
      if exists i :: 0 <= i < |ls| && ls[i].taxid == k {
        var i :| 0 <= i < |ls| && ls[i].taxid == k;
        if i < |init| {
          assert init[i].taxid == k;
        }
      }
    }
  }

  /** A taxid's names as the tree nodes carry them. */
  datatype Names = Names(sciName: string, authority: string, synonym: string,
                         commonName: Langs, commonNameLong: Langs)

  /** `"(" + first + ")"` with the first name's quotes doubled, or "" when there is none. */
  function Short(ns: seq<string>): string
  {
    if |ns| > 0 then "(" + DoubleQuotes(ns[0]) + ")" else ""
  }

  /** `"(" + ", ".join(ns) + ")"`, or "" when there is no name. */
  function Long(ns: seq<string>): string
  {
    if |ns| > 0 then "(" + Join(ns, ", ") + ")" else ""
  }

  /** The second loop's rewrite of one record. */
  function Finish(g: Gathered): (r: Names)
    ensures UndoubleQuotes(r.sciName) == g.sciName
    ensures r.authority == g.authority && r.synonym == g.synonym
    ensures (r.commonName.en == "" <==> g.commonEn == []) && (r.commonNameLong.en == "" <==> g.commonEn == [])
    ensures (r.commonName.fr == "" <==> g.commonFr == []) && (r.commonNameLong.fr == "" <==> g.commonFr == [])
  {
    UndoubleDouble(g.sciName);
    Names(DoubleQuotes(g.sciName), g.authority, g.synonym,
          Langs(Short(g.commonEn), Short(g.commonFr)), Langs(Long(g.commonEn), Long(g.commonFr)))
  }

  /** The short form is empty exactly when there is no name; otherwise it is the first name,
      quotes doubled, in parentheses, and reads back to that name. */
  lemma ShortReadsBack(ns: seq<string>)
    ensures Short(ns) == "" <==> ns == []
    ensures ns != [] ==> |Short(ns)| >= 2 && Short(ns)[0] == '(' && Short(ns)[|Short(ns)| - 1] == ')'
                         && UndoubleQuotes(Short(ns)[1..|Short(ns)| - 1]) == ns[0]
  {
    if ns != [] {
      var d := DoubleQuotes(ns[0]);
      assert Short(ns)[1..|Short(ns)| - 1] == d;
      UndoubleDouble(ns[0]);
    }
  }

  /** The names of `ns` after the first, each with the space that follows a comma. */
  function Spaced(ns: seq<string>): (r: seq<string>)
    ensures |r| == |ns|
  {
    seq(|ns|, i requires 0 <= i < |ns| => if i == 0 then ns[0] else " " + ns[i])
  }

  /** Joining with ", " is joining with "," after putting the spaces on the names. */
  lemma {:induction false} JoinCommaSpace(ns: seq<string>)
    requires |ns| >= 1
    ensures Join(ns, ", ") == Join(Spaced(ns), ",")
  {
    if |ns| > 1 {
      var rest := ns[1..];
      JoinCommaSpace(rest);
      assert Spaced(ns)[1..] == [" " + rest[0]] + Spaced(rest)[1..];
      JoinPrefixHead(" ", Spaced(rest), ",");
    }
  }

  /** The long form is empty exactly when there is no name; otherwise, when no name holds a
      comma, cutting what is inside the parentheses at the commas gives every name back, in
      order, each after the first with its leading space. */
  lemma LongReadsBack(ns: seq<string>)
    ensures Long(ns) == "" <==> ns == []
    ensures ns != [] && (forall i :: 0 <= i < |ns| ==> ',' !in ns[i]) ==>
      Long(ns)[0] == '(' && Long(ns)[|Long(ns)| - 1] == ')'
      && Split(Long(ns)[1..|Long(ns)| - 1], ',') == Spaced(ns)
  {
    if ns != [] && (forall i :: 0 <= i < |ns| ==> ',' !in ns[i]) {
      JoinCommaSpace(ns);
      assert Long(ns)[1..|Long(ns)| - 1] == Join(ns, ", ");
      forall i | 0 <= i < |ns|
        ensures ',' !in Spaced(ns)[i]
      {
      }
      SplitJoin(Spaced(ns), ',');
    }
  }

  /** The dictionary after the second loop: every record finished. */
  function Formatted(attr: map<string, Gathered>): map<string, Names>
  {
    map k | k in attr :: Finish(attr[k])
  }

  /** The second loop, over the taxids in any order, rewriting each record. */
  method FormatAll(attr: map<string, Gathered>) returns (out: map<string, Names>)
    ensures out == Formatted(attr)
  {
    out := map[];
    var todo := attr.Keys;
    while todo != {}
      invariant todo <= attr.Keys && out.Keys == attr.Keys - todo
      invariant forall k :: k in out ==> out[k] == Finish(attr[k])
      decreases |todo|
    {
      var k :| k in todo;
      out := out[k := Finish(attr[k])];
      todo := todo - {k};
    }
  }

  /** Every line has the three fields the builder reads. */
  predicate AllParse(lines: seq<string>)
  {
    forall i :: 0 <= i < |lines| ==> ParseName(lines[i]).Some?
  }

  /** The fields of every line. */
  function Parsed(lines: seq<string>): (ls: seq<NameLine>)
    requires AllParse(lines)
    ensures |ls| == |lines|
  {
    seq(|lines|, i requires 0 <= i < |lines| && AllParse(lines) => ParseName(lines[i]).value)
  }

  /** One more line that parses extends the parsed prefix by its fields. */
  lemma ParsedSnoc(lines: seq<string>, i: nat)
    requires i < |lines| && AllParse(lines[..i]) && ParseName(lines[i]).Some?
    ensures AllParse(lines[..i + 1])
    ensures Parsed(lines[..i + 1]) == Parsed(lines[..i]) + [ParseName(lines[i]).value]
  {
    assert forall j :: 0 <= j < i ==> lines[..i + 1][j] == lines[..i][j];
  }

  /** `get_attributes`: reads the lines in order and stops at the first one that is too
      short; otherwise returns every taxid's formatted record. */
  method GetAttributes(lines: seq<string>, fr: map<string, seq<string>>)
    returns (r: Result<map<string, Names>, nat>)
    ensures r.Ok? <==> AllParse(lines)
    ensures r.Ok? ==> r.value == Formatted(Gather(Parsed(lines), fr))
    ensures r.Err? ==> r.error < |lines| && ParseName(lines[r.error]).None?
                       && AllParse(lines[..r.error])
  {
    var attr: map<string, Gathered> := map[];
    var i := 0;
    while i < |lines|
      invariant 0 <= i <= |lines| && AllParse(lines[..i])
      invariant attr == Gather(Parsed(lines[..i]), fr)
    {
      var p := ParseName(lines[i]);
      if p.None? {
        return Err(i);
      }
      var l := p.value;
      var g := if l.taxid in attr then attr[l.taxid] else Blank;
      ParsedSnoc(lines, i);
      GatherSnoc(Parsed(lines[..i]), l, fr);
      attr := attr[l.taxid := Absorb(g, l, fr)];
      i := i + 1;
    }
    assert lines[..i] == lines;
    var out := FormatAll(attr);
    return Ok(out);
  }

  /** What `get_attributes` returns for a taxid: a record exactly for the taxids named by
      some line, and that record is the formatted one its lines determine. */
  lemma AttributesOf(lines: seq<string>, fr: map<string, seq<string>>, k: string)
    requires AllParse(lines)
    ensures k in Formatted(Gather(Parsed(lines), fr)) <==> exists i :: 0 <= i < |lines| && Parsed(lines)[i].taxid == k
    ensures k in Formatted(Gather(Parsed(lines), fr)) ==>
      Formatted(Gather(Parsed(lines), fr))[k] == Finish(Expected(Parsed(lines), fr, k))
  {
    GatherKeys(Parsed(lines), fr, k);
    GatherPerTaxid(Parsed(lines), fr, k);
  }
}
