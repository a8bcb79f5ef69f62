/** The records the second pass writes for each node: the branch to its parent, and for
    an internal node the clade polygon, its centre and the line the rank is written on;
    plus the search-index JSON object of every node. Coordinates stay exact reals: the
    `%.20f` text rendering of the well-known-text geometries is not modelled. */
module Geometry {
  import opened Common
  import opened Text
  import opened Taxonomy
  import opened Layout

  type Point = (real, real)

  /** The two revisions of the builder, which differ in the rank line and the JSON. */
  datatype Revision = Current | Legacy

  // ---------------------------------------------------------------------------
  // Branches

  /** "sci_name common_name" of a node. */
  function Label(tx: Taxon): string
  {
    tx.sciName + " " + tx.commonName.en
  }

  /** Arrows around two labels. */
  function Arrows(a: string, b: string): string
  {
    "\\u2190  " + a + "     -     " + b + "  \\u2192"
  }

  /** The branch name reads west to east: the label of the node with the smaller `x`
      comes first, the parent's when both are level. */
  function WayName(up: Taxon, upX: real, down: Taxon, downX: real): (s: string)
    ensures var (west, east) := if downX < upX then (down, up) else (up, down);
      s == Arrows(Label(west), Label(east))
    ensures |s| == |Label(up)| + |Label(down)| + 27
  {
    var left := Label(up);
    var right := Label(down);
    if downX >= upX then Arrows(left, right) else Arrows(right, left)
  }

  /** `math.degrees`. */
  function Degrees(m: Numerics, r: real): real
    requires Sound(m)
  {
    r * 180.0 / m.pi
  }

  /** The great-circle midpoint of two positions, reading `x` as the latitude. */
  function Midpoint(m: Numerics, x1: real, y1: real, x2: real, y2: real): Point
    requires Sound(m)
  {
    var lat1 := Rad(m, x1);
    var lon1 := Rad(m, y1);
    var lat2 := Rad(m, x2);
    var lon2 := Rad(m, y2);
    var cos1 := m.cos(lat1);
    var cos2 := m.cos(lat2);
    var bX := cos2 * m.cos(lon2 - lon1);
    var bY := cos2 * m.sin(lon2 - lon1);
    var lat3 := m.atan2(m.sin(lat1) + m.sin(lat2), m.sqrt((cos1 + bX) * (cos1 + bX) + bY * bY));
    var lon3 := lon1 + m.atan2(bY, cos1 + bX);
    (Degrees(m, lat3), Degrees(m, lon3))
  }

  datatype Branch = Branch(id: int, zoom: nat, group: string, name: string, line: seq<Point>)

  /** The branch from a node up to its parent: drawn parent, midpoint, child. */
  function BranchRecord(m: Numerics, id: int, group: string, up: Taxon, pu: Placement,
                        down: Taxon, pd: Placement): (b: Branch)
    requires Sound(m)
    ensures b.id == id && b.zoom == pd.zoom && b.group == group
    ensures |b.line| == 3 && b.line[0] == (pu.x, pu.y) && b.line[2] == (pd.x, pd.y)
    ensures b.line[1] == Midpoint(m, pu.x, pu.y, pd.x, pd.y)
    ensures b.name == WayName(up, pu.x, down, pd.x)
  {
    var mid := Midpoint(m, pu.x, pu.y, pd.x, pd.y);
    Branch(id, pd.zoom, group, WayName(up, pu.x, down, pd.x), [(pu.x, pu.y), mid, (pd.x, pd.y)])
  }

  // ---------------------------------------------------------------------------
  // Clade outline

  /** `np.linspace(start, stop, num=n)`. */
  function Linspace(start: real, stop: real, n: nat): (s: seq<real>)
    requires n >= 2
    ensures |s| == n && s[0] == start
    ensures forall i :: 0 <= i < n ==> s[i] == start + (i as real) * ((stop - start) / ((n - 1) as real))
  {
    seq(n, i requires 0 <= i < n => start + (i as real) * ((stop - start) / ((n - 1) as real)))
  }

  /** The samples are evenly spaced and the last one is `stop`. */
  lemma LinspaceSpan(start: real, stop: real, n: nat)
    requires n >= 2
    ensures Linspace(start, stop, n)[n - 1] == stop
    ensures forall i :: 0 <= i < n - 1 ==>
      Linspace(start, stop, n)[i + 1] - Linspace(start, stop, n)[i] == (stop - start) / ((n - 1) as real)
  {
    var d := (n - 1) as real;
    assert ((n - 1) as real) * ((stop - start) / d) == stop - start;
  }

  predicate OnCircle(p: Point, x: real, y: real, r: real)
  {
    (p.0 - x) * (p.0 - x) + (p.1 - y) * (p.1 - y) == r * r
  }

  /** `(p - centre)` turned back by `beta` lies on the ellipse of semi-axes `r` and `r/6`. */
  predicate OnEllipse(p: Point, x: real, y: real, r: real, c: real, s: real)
  {
    var u := (p.0 - x) * c + (p.1 - y) * s;
    var v := (p.1 - y) * c - (p.0 - x) * s;
    u * u + 36.0 * (v * v) == r * r
  }

  /** `halfCircle`: `n` points of the circle of radius `r` from angle `start` to `stop`. */
  function HalfCircle(m: Numerics, x: real, y: real, r: real, start: real, stop: real, n: nat): (pts: seq<Point>)
    requires Sound(m) && Pythagorean(m) && n >= 2
    ensures |pts| == n
    ensures forall i :: 0 <= i < n ==> OnCircle(pts[i], x, y, r)
  {
    var rs := Linspace(start, stop, n);
    var pts := seq(n, i requires 0 <= i < n => (x + r * m.cos(rs[i]), y + r * m.sin(rs[i])));
    assert forall i :: 0 <= i < n ==> OnCircle(pts[i], x, y, r) by {
      forall i | 0 <= i < n
        ensures OnCircle(pts[i], x, y, r)
      {
        UnitCircle(r, m.cos(rs[i]), m.sin(rs[i]));
      }
    }
    pts
  }

  /** The point at parameter angle `(cr, sr)` of the ellipse of semi-axes `r` and `r/6`
      centred on `(x, y)` and turned by the angle `(c, s)`. */
  function EllipsePt(x: real, y: real, r: real, cr: real, sr: real, c: real, s: real): Point
  {
    var xs := r * cr;
    var ys := (r / 6.0) * sr;
    (x + (xs * c - ys * s), y + (xs * s + ys * c))
  }

  lemma EllipsePoint(r: real, cr: real, sr: real, c: real, s: real, x: real, y: real)
    requires cr * cr + sr * sr == 1.0 && c * c + s * s == 1.0
    ensures OnEllipse(EllipsePt(x, y, r, cr, sr, c, s), x, y, r, c, s)
  {
    var xs := r * cr;
    var ys := (r / 6.0) * sr;
    var dx := xs * c - ys * s;
    var dy := xs * s + ys * c;
    calc {
      dx * c + dy * s;
      xs * (c * c + s * s) + ys * (s * c - s * c);
      xs;
    }
    calc {
      dy * c - dx * s;
      ys * (c * c + s * s) + xs * (s * c - s * c);
      ys;
    }
    calc {
      xs * xs + 36.0 * (ys * ys);
      r * r * (cr * cr) + r * r * (sr * sr);
      r * r * (cr * cr + sr * sr);
    }
    assert (x + dx) - x == dx && (y + dy) - y == dy;
  }

  /** `ellipse`: `n` points of half the ellipse of semi-axes `r` and `r/6`, turned by `beta`. */
  function Ellipse(m: Numerics, x: real, y: real, r: real, beta: real, n: nat): (pts: seq<Point>)
    requires Sound(m) && Pythagorean(m) && n >= 2
    ensures |pts| == n
    ensures forall i :: 0 <= i < n ==> OnEllipse(pts[i], x, y, r, m.cos(beta), m.sin(beta))
  {
    var rs := Linspace(0.0, m.pi + 0.0, n);
    var c := m.cos(beta);
    var s := m.sin(beta);
    var pts := seq(n, i requires 0 <= i < n => EllipsePt(x, y, r, m.cos(rs[i]), m.sin(rs[i]), c, s));
    assert forall i :: 0 <= i < n ==> OnEllipse(pts[i], x, y, r, c, s) by {
      forall i | 0 <= i < n
        ensures OnEllipse(pts[i], x, y, r, c, s)
      {
        EllipsePoint(r, m.cos(rs[i]), m.sin(rs[i]), c, s, x, y);
      }
    }
    pts
  }

  /** `HalfCircPlusEllips`: the half circle followed by the half ellipse. */
  function HalfCircPlusEllips(m: Numerics, x: real, y: real, r: real, beta: real,
                              start: real, stop: real, n: nat): (pts: seq<Point>)
    requires Sound(m) && Pythagorean(m) && n >= 2
    ensures |pts| == 2 * n
    ensures forall i :: 0 <= i < n ==> OnCircle(pts[i], x, y, r)
    ensures forall i :: n <= i < 2 * n ==> OnEllipse(pts[i], x, y, r, m.cos(beta), m.sin(beta))
  {
    HalfCircle(m, x, y, r, start, stop, n) + Ellipse(m, x, y, r, beta, n)
  }

  /** The 60-point outline of a clade: the half circle on the side the node faces, then
      the flat half ellipse closing it on the side of its parent. */
  function Outline(m: Numerics, p: Placement): (pts: seq<Point>)
    requires Sound(m) && Pythagorean(m)
    ensures |pts| == 60
    ensures forall i :: 0 <= i < 30 ==> OnCircle(pts[i], p.x, p.y, p.ray)
  {
    var a := Rad(m, p.alpha);
    HalfCircPlusEllips(m, p.x, p.y, p.ray, a + m.pi / 2.0, a - m.pi / 2.0, a + m.pi / 2.0, 30)
  }

  // ---------------------------------------------------------------------------
  // Polygon ring, centre and rank line

  /** The polygon ring: outline points 0 to 58, then point 0 again to close it. */
  function Ring(pts: seq<Point>): (ring: seq<Point>)
    requires |pts| >= 59
    ensures ClosedRing(ring) && |ring| == 60
    ensures ring[..59] == pts[..59]
  {
    pts[..59] + [pts[0]]
  }

  /** The loop writing the ring's coordinates one point at a time. */
  method PolygonRing(pts: seq<Point>) returns (ring: seq<Point>)
    requires |pts| >= 59
    ensures ring == Ring(pts)
  {
    ring := [pts[0]];
    var i := 1;
    while i < 59
      invariant 1 <= i <= 59
      invariant ring == pts[..i]
    {
      ring := ring + [pts[i]];
      i := i + 1;
    }
    ring := ring + [pts[0]];
  }

  /** A closed ring of at least four positions, as a well-known-text polygon requires. */
  predicate ClosedRing(ring: seq<Point>)
  {
    |ring| >= 4 && ring[0] == ring[|ring| - 1]
  }

  /** The first components of a sequence of pairs: the x of each point, the key of each entry. */
  function Firsts<A, B>(ps: seq<(A, B)>): (fs: seq<A>)
    ensures |fs| == |ps| && forall i :: 0 <= i < |ps| ==> fs[i] == ps[i].0
  {
    seq(|ps|, i requires 0 <= i < |ps| => ps[i].0)
  }

  /** The second components of a sequence of pairs. */
  function Seconds<A, B>(ps: seq<(A, B)>): (ss: seq<B>)
    ensures |ss| == |ps| && forall i :: 0 <= i < |ps| ==> ss[i] == ps[i].1
  {
    seq(|ps|, i requires 0 <= i < |ps| => ps[i].1)
  }

  /** `np.mean`. */
  function Mean(xs: seq<real>): real
    requires xs != []
  {
    Sum(xs) / (|xs| as real)
  }

  lemma {:induction false} SumBetween(xs: seq<real>, lo: real, hi: real)
    requires forall i :: 0 <= i < |xs| ==> lo <= xs[i] <= hi
    ensures (|xs| as real) * lo <= Sum(xs) <= (|xs| as real) * hi
  {
    if xs != [] {
      var init := xs[..|xs| - 1];
      SumBetween(init, lo, hi);
    }
  }

  /** The mean lies between the smallest and the largest value. */
  lemma MeanBetween(xs: seq<real>, lo: real, hi: real)
    requires xs != []
    requires forall i :: 0 <= i < |xs| ==> lo <= xs[i] <= hi
    ensures lo <= Mean(xs) <= hi
  {
    SumBetween(xs, lo, hi);
    DivBetween(Sum(xs), |xs| as real, lo, hi);
  }

  lemma DivBetween(s: real, n: real, lo: real, hi: real)
    requires n > 0.0 && n * lo <= s <= n * hi
    ensures lo <= s / n <= hi
  {
    assert s / n - lo == (s - n * lo) / n;
    assert hi - s / n == (n * hi - s) / n;
  }

  /** The clade centre: the mean of the outline points. */
  function CladeCentre(pts: seq<Point>): Point
    requires pts != []
  {
    (Mean(Firsts(pts)), Mean(Seconds(pts)))
  }

  /** The centre lies in every axis-aligned box holding all the outline points. */
  lemma CentreInBox(pts: seq<Point>, box: (Point, Point))
    requires pts != []
    requires forall i :: 0 <= i < |pts| ==> box.0.0 <= pts[i].0 <= box.1.0 && box.0.1 <= pts[i].1 <= box.1.1
    ensures box.0.0 <= CladeCentre(pts).0 <= box.1.0 && box.0.1 <= CladeCentre(pts).1 <= box.1.1
  {
    MeanBetween(Firsts(pts), box.0.0, box.1.0);
    MeanBetween(Seconds(pts), box.0.1, box.1.1);
  }

  /** The outline points `lo .. hi-1` the rank is written along. */
  method Polyline(pts: seq<Point>, lo: nat, hi: nat) returns (line: seq<Point>)
    requires lo < hi <= |pts|
    ensures line == pts[lo..hi]
  {
    line := [pts[lo]];
    var i := lo + 1;
    while i < hi
      invariant lo + 1 <= i <= hi
      invariant line == pts[lo..i]
    {
      line := line + [pts[i]];
      i := i + 1;
    }
  }

  /** Which outline points carry the rank: 39 to 41 now, 35 to 44 in the legacy revision. */
  function RankWindow(rev: Revision): (w: (nat, nat))
    ensures w.0 < w.1 <= 60
    ensures rev == Current ==> w.1 - w.0 == 3
    ensures rev == Legacy ==> w.1 - w.0 == 10
  {
    match rev
    case Current => (39, 42)
    case Legacy => (35, 45)
  }

  /** The convexity written with a rank line: not written by the legacy revision, and
      not a finite number when a slope divides by zero. */
  datatype Convexity = NotWritten | NonFinite | Value(c: real)

  /** `slope1 - slope2` over three points after putting the outer two left to right. */
  function Bend(p1: Point, p2: Point, p3: Point): (c: Convexity)
    ensures c != NotWritten
    ensures c.NonFinite? <==> p2.0 == p1.0 || p2.0 == p3.0
  {
    var (l, r) := if p1.0 > p3.0 then (p3, p1) else (p1, p3);
    if p2.0 == l.0 || r.0 == p2.0 then NonFinite
    else Value((p2.1 - l.1) / (p2.0 - l.0) - (r.1 - p2.1) / (r.0 - p2.0))
  }

  /** Naming the outer points in the other order gives the same value. */
  lemma BendSymmetric(p1: Point, p2: Point, p3: Point)
    requires p1.0 != p3.0
    ensures Bend(p1, p2, p3) == Bend(p3, p2, p1)
  {
  }

  /** Between the outer points, the value is positive exactly when the middle point
      lies above the chord joining them. */
  lemma BendSign(l: Point, p2: Point, r: Point)
    requires l.0 < p2.0 < r.0
    ensures Bend(l, p2, r).Value?
    ensures Bend(l, p2, r).c > 0.0 <==> (p2.1 - l.1) * (r.0 - l.0) > (r.1 - l.1) * (p2.0 - l.0)
  {
    var a := p2.0 - l.0;
    var b := r.0 - p2.0;
    var s1 := (p2.1 - l.1) / a;
    var s2 := (r.1 - p2.1) / b;
    assert s1 * a == p2.1 - l.1 && s2 * b == r.1 - p2.1;
    // s1 > s2  <==>  s1 * a * b > s2 * a * b, since a * b > 0
    var ab := a * b;
    assert ab > 0.0;
    if s2 <= s1 {
      MulLe(ab, s2, s1);
    } else {
      MulLe(ab, s1, s2);
    }
    assert s1 * ab == (p2.1 - l.1) * b;
    assert s2 * ab == (r.1 - p2.1) * a;
    assert (p2.1 - l.1) * (r.0 - l.0) == (p2.1 - l.1) * b + (p2.1 - l.1) * a;
    assert (r.1 - l.1) * (p2.0 - l.0) == (r.1 - p2.1) * a + (p2.1 - l.1) * a;
  }

  // ---------------------------------------------------------------------------
  // Clade records

  datatype Polygon = Polygon(id: int, group: string, taxon: Taxon, nbdesc: nat, zoom: nat, ring: seq<Point>)
  datatype Centre = Centre(id: int, taxon: Taxon, nbdesc: nat, zoom: nat, at: Point)
  datatype RankLine = RankLine(id: int, group: string, taxon: Taxon, zoom: nat, nbdesc: nat,
                               convexity: Convexity, line: seq<Point>)

  /** The three records of an internal node, from the 63-id block `ids`: polygon
      `ids[60]`, centre `ids[61]`, rank line `ids[62]`. */
  function CladeOf(m: Numerics, rev: Revision, ids: seq<int>, group: string, tx: Taxon,
                   p: Placement, nbdesc: nat): (r: (Polygon, Centre, RankLine))
    requires Sound(m) && Pythagorean(m) && |ids| == 63
    ensures r.0.id == ids[60] && r.1.id == ids[61] && r.2.id == ids[62]
    ensures ClosedRing(r.0.ring) && |r.0.ring| == 60 && r.0.ring[..59] == Outline(m, p)[..59]
    ensures r.1.at == CladeCentre(Outline(m, p))
    ensures r.2.line == Outline(m, p)[RankWindow(rev).0..RankWindow(rev).1]
    ensures rev == Legacy ==> r.2.convexity == NotWritten
    ensures rev == Current ==> r.2.convexity == Bend(r.2.line[0], r.2.line[1], r.2.line[2])
    ensures r.0.zoom == r.1.zoom == r.2.zoom == p.zoom
    ensures r.0.taxon == r.1.taxon == r.2.taxon == tx && r.0.nbdesc == r.1.nbdesc == r.2.nbdesc == nbdesc
    ensures r.0.group == r.2.group == group
  {
    var pts := Outline(m, p);
    var w := RankWindow(rev);
    var convexity := if rev == Current then Bend(pts[39], pts[40], pts[41]) else NotWritten;
    (Polygon(ids[60], group, tx, nbdesc, p.zoom, Ring(pts)),
     Centre(ids[61], tx, nbdesc, p.zoom, CladeCentre(pts)),
     RankLine(ids[62], group, tx, p.zoom, nbdesc, convexity, pts[w.0..w.1]))
  }

  /** `get_polyg_record`: builds the ring and the rank line point by point. */
  method CladeRecords(m: Numerics, rev: Revision, ids: seq<int>, group: string, tx: Taxon,
                      p: Placement, nbdesc: nat)
    returns (poly: Polygon, centre: Centre, rank: RankLine)
    requires Sound(m) && Pythagorean(m) && |ids| == 63
    ensures (poly, centre, rank) == CladeOf(m, rev, ids, group, tx, p, nbdesc)
  {
    var pts := Outline(m, p);
    var ring := PolygonRing(pts);
    poly := Polygon(ids[60], group, tx, nbdesc, p.zoom, ring);
    centre := Centre(ids[61], tx, nbdesc, p.zoom, CladeCentre(pts));
    var w := RankWindow(rev);
    var line := Polyline(pts, w.0, w.1);
    var convexity := if rev == Current then Bend(pts[39], pts[40], pts[41]) else NotWritten;
    rank := RankLine(ids[62], group, tx, p.zoom, nbdesc, convexity, line);
  }

  // ---------------------------------------------------------------------------
  // Search-index JSON

  /** `s.replace('"', '\\"')`. */
  function EscapeQuotes(s: string): (r: string)
    ensures |r| == |s| + Count(s, '"')
  {
    Replace(s, '"', "\\\"")
  }

  /** Reads back the body of a JSON string literal that uses only the escapes `\"` and
      `\\`; `None` when the body is not well formed (a bare `"` or a lone `\`). */
  function ReadJsonString(s: string): Option<string>
  {
    if s == [] then Some([])
    else if s[0] == '"' then None
    else if s[0] == '\\' then
      if |s| >= 2 && (s[1] == '"' || s[1] == '\\') then
        match ReadJsonString(s[2..])
        case Some(rest) => Some([s[1]] + rest)
        case None => None
      else None
    else
      match ReadJsonString(s[1..])
      case Some(rest) => Some([s[0]] + rest)
      case None => None
  }

  /** Escaping the quotes makes a well-formed JSON string body that reads back as the
      original text, for any text without a backslash. */
  lemma {:induction false} EscapeQuotesReadsBack(s: string)
    requires '\\' !in s
    ensures ReadJsonString(EscapeQuotes(s)) == Some(s)
  {
    if s != [] {
      EscapeQuotesReadsBack(s[1..]);
      var e := EscapeQuotes(s);
      if s[0] == '"' {
        assert e == "\\\"" + EscapeQuotes(s[1..]);
        assert e[0] == '\\' && e[1] == '"' && e[2..] == EscapeQuotes(s[1..]);
        assert [s[0]] + s[1..] == s;
      } else {
        assert s[0] in s;
        assert e == [s[0]] + EscapeQuotes(s[1..]);
        assert e[0] == s[0] && e[1..] == EscapeQuotes(s[1..]);
        assert [s[0]] + s[1..] == s;
      }
    }
  }

  datatype JsonValue = JStr(s: string) | JInt(i: int) | JReal(r: real) | JArray(items: seq<JsonValue>) | Quoted(v: JsonValue)

  /** The keys of a node's search entry. */
  datatype Key =
    | TaxidKey | SciNameKey | SuggestWeightKey | CommonEnKey | CommonFrKey | AuthorityKey
    | SynonymKey | RankEnKey | RankFrKey | AllKey | AllEnKey | AllFrKey | ZoomKey | NbdescKey
    | CoordinatesKey | LatKey | LonKey

  /** The text of each key. */
  function KeyName(k: Key): string
  {
    match k
    case TaxidKey => "taxid"
    case SciNameKey => "sci_name"
    case SuggestWeightKey => "suggest_weight"
    case CommonEnKey => "common_name_en"
    case CommonFrKey => "common_name_fr"
    case AuthorityKey => "authority"
    case SynonymKey => "synonym"
    case RankEnKey => "rank_en"
    case RankFrKey => "rank_fr"
    case AllKey => "all"
    case AllEnKey => "all_en"
    case AllFrKey => "all_fr"
    case ZoomKey => "zoom"
    case NbdescKey => "nbdesc"
    case CoordinatesKey => "coordinates"
    case LatKey => "lat"
    case LonKey => "lon"
  }

  /** The keys of a node's search entry, in the order they are written. */
  function JsonKeys(rev: Revision): seq<Key>
  {
    match rev
    case Current => [TaxidKey, SciNameKey, SuggestWeightKey, CommonEnKey, CommonFrKey,
                     AuthorityKey, SynonymKey, RankEnKey, RankFrKey, AllEnKey, AllFrKey, ZoomKey,
                     NbdescKey, CoordinatesKey, LatKey, LonKey]
    case Legacy => [TaxidKey, SciNameKey, CommonEnKey, CommonFrKey, AuthorityKey,
                    SynonymKey, RankEnKey, RankFrKey, ZoomKey, NbdescKey, AllKey, CoordinatesKey,
                    LatKey, LonKey]
  }

  /** "sci_name | common_name | rank | taxid", the text searched for a node. */
  function SearchText(sci: string, common: string, rank: string, taxid: string): string
  {
    sci + " | " + common + " | " + rank + " | " + taxid
  }

  /** The value under the first occurrence of key `k`. */
  function Lookup(obj: seq<(Key, JsonValue)>, k: Key): Option<JsonValue>
  {
    if obj == [] then None else if obj[0].0 == k then Some(obj[0].1) else Lookup(obj[1..], k)
  }

  predicate Distinct(ks: seq<Key>)
  {
    forall i, j :: 0 <= i < j < |ks| ==> ks[i] != ks[j]
  }

  /** With distinct keys, each key looks up its own value. */
  lemma {:induction false} LookupDistinct(obj: seq<(Key, JsonValue)>)
    requires Distinct(Firsts(obj))
    ensures forall i :: 0 <= i < |obj| ==> Lookup(obj, obj[i].0) == Some(obj[i].1)
  {
    if obj != [] {
      assert Firsts(obj[1..]) == Firsts(obj)[1..];
      LookupDistinct(obj[1..]);
      forall i | 1 <= i < |obj|
        ensures Lookup(obj, obj[i].0) == Some(obj[i].1)
      {
        assert Firsts(obj)[0] != Firsts(obj)[i];
        assert obj[1..][i - 1] == obj[i];
      }
    }
  }

  /** A position for each key under which both revisions list their keys in order. */
  function KeyOrder(k: Key): nat
  {
    match k
    case TaxidKey => 0
    case SciNameKey => 1
    case SuggestWeightKey => 2
    case CommonEnKey => 3
    case CommonFrKey => 4
    case AuthorityKey => 5
    case SynonymKey => 6
    case RankEnKey => 7
    case RankFrKey => 8
    case AllEnKey => 9
    case AllFrKey => 10
    case ZoomKey => 11
    case NbdescKey => 12
    case AllKey => 13
    case CoordinatesKey => 14
    case LatKey => 15
    case LonKey => 16
  }

  /** Keys listed in increasing `KeyOrder`, one neighbour at a time, are distinct. */
  lemma {:induction false} OrderedDistinct(ks: seq<Key>)
    requires forall i :: 0 <= i < |ks| - 1 ==> KeyOrder(ks[i]) < KeyOrder(ks[i + 1])
    ensures forall i, j :: 0 <= i < j < |ks| ==> KeyOrder(ks[i]) < KeyOrder(ks[j])
    ensures Distinct(ks)
  {
    if |ks| > 1 {
      var tl := ks[1..];
      OrderedDistinct(tl);
      forall i, j | 0 <= i < j < |ks|
        ensures KeyOrder(ks[i]) < KeyOrder(ks[j])
      {
        assert ks[j] == tl[j - 1];
        if i > 0 {
          assert ks[i] == tl[i - 1];
        } else if j > 1 {
          assert KeyOrder(tl[0]) < KeyOrder(tl[j - 1]);
        }
      }
    }
  }

  lemma JsonKeysDistinct(rev: Revision)
    ensures Distinct(JsonKeys(rev))
  {
    OrderedDistinct(JsonKeys(rev));
  }

  /** `r` is a JSON string that reads back as `name`, whenever `name` holds no backslash. */
  predicate Carries(r: JsonValue, name: string)
  {
    r.JStr? && ('\\' !in name ==> ReadJsonString(r.s) == Some(name))
  }

  lemma ReadsBackIf(s: string)
    ensures '\\' !in s ==> ReadJsonString(EscapeQuotes(s)) == Some(s)
  {
    if '\\' !in s {
      EscapeQuotesReadsBack(s);
    }
  }

  /** The value written under key `k`: names with their `"` escaped, the zoom shifted
      by 4 for the search index, coordinates as `[y, x]`; the legacy revision writes the
      numbers as strings. */
  function FieldValue(rev: Revision, k: Key, tx: Taxon, p: Placement, nbdesc: nat): (r: JsonValue)
    ensures k == SciNameKey ==> Carries(r, tx.sciName)
    ensures k == CommonEnKey ==> Carries(r, tx.commonNameLong.en)
    ensures k == CommonFrKey ==> Carries(r, tx.commonNameLong.fr)
    ensures k == AuthorityKey ==> Carries(r, tx.authority)
    ensures k == SynonymKey ==> Carries(r, tx.synonym)
    ensures k == ZoomKey || k == NbdescKey || k == LatKey || k == LonKey ==> (r.Quoted? <==> rev == Legacy)
  {
    ReadsBackIf(tx.sciName);
    ReadsBackIf(tx.commonNameLong.en);
    ReadsBackIf(tx.commonNameLong.fr);
    ReadsBackIf(tx.authority);
    ReadsBackIf(tx.synonym);
    var sci := EscapeQuotes(tx.sciName);
    var en := EscapeQuotes(tx.commonNameLong.en);
    var fr := EscapeQuotes(tx.commonNameLong.fr);
    var number := (v: JsonValue) => if rev == Legacy then Quoted(v) else v;
    match k
    case TaxidKey => JStr(tx.taxid)
    case SciNameKey => JStr(sci)
    case SuggestWeightKey => Quoted(JInt(300 - |sci|))
    case CommonEnKey => JStr(en)
    case CommonFrKey => JStr(fr)
    case AuthorityKey => JStr(EscapeQuotes(tx.authority))
    case SynonymKey => JStr(EscapeQuotes(tx.synonym))
    case RankEnKey => JStr(tx.rank.en)
    case RankFrKey => JStr(tx.rank.fr)
    case AllKey => JStr(SearchText(sci, en, tx.rank.en, tx.taxid))
    case AllEnKey => JStr(SearchText(sci, en, tx.rank.en, tx.taxid))
    case AllFrKey => JStr(SearchText(sci, fr, tx.rank.fr, tx.taxid))
    case ZoomKey => number(JInt(p.zoom + 4))
    case NbdescKey => number(JInt(nbdesc))
    case CoordinatesKey => JArray([JReal(p.y), JReal(p.x)])
    case LatKey => number(JReal(p.y))
    case LonKey => number(JReal(p.x))
  }

  /** `node2json`: the search entry of a node, each key of the revision written once
      with its value. */
  function Node2Json(rev: Revision, tx: Taxon, p: Placement, nbdesc: nat): (obj: seq<(Key, JsonValue)>)
    ensures Firsts(obj) == JsonKeys(rev)
    ensures forall k :: k in JsonKeys(rev) ==> Lookup(obj, k) == Some(FieldValue(rev, k, tx, p, nbdesc))
  {
    var ks := JsonKeys(rev);
    var obj := seq(|ks|, i requires 0 <= i < |ks| => (ks[i], FieldValue(rev, ks[i], tx, p, nbdesc)));
    assert Firsts(obj) == ks;
    JsonKeysDistinct(rev);
    LookupDistinct(obj);
    obj
  }
}
