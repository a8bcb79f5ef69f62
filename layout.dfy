/** The arithmetic of the layout pass: how a node's 180-degree fan is split among its
    children, how far each child's circle shrinks, where it points, and at which zoom
    level it appears. */
module Layout {
  import opened Taxonomy

  /** The floating-point primitives the layout calls (numpy's `sqrt`, `sin`, `cos` and
      `pi`, and `math.atan2`), taken as parameters. */
  datatype Numerics = Numerics(
    sqrt: real -> real,
    sin: real -> real,
    cos: real -> real,
    atan2: (real, real) -> real,
    pi: real)

  /** The only facts about the primitives the proofs rely on. */
  ghost predicate Sound(m: Numerics)
  {
    && m.pi > 0.0
    && (forall x: real :: x > 0.0 ==> m.sqrt(x) > 0.0)
    && (forall th: real :: 0.0 < th < m.pi / 2.0 ==> m.sin(th) > 0.0 && m.cos(th) > 0.0)
  }

  /** `cos² + sin² = 1`, kept apart from `Sound`: only the lengths of branches need it. */
  ghost predicate Pythagorean(m: Numerics)
  {
    forall th: real :: m.cos(th) * m.cos(th) + m.sin(th) * m.sin(th) == 1.0
  }

  /** `rad`: degrees to radians. */
  function Rad(m: Numerics, deg: real): real
  {
    (deg * m.pi) / 180.0
  }

  lemma MulLe(r: real, a: real, b: real)
    requires r > 0.0 && a <= b
    ensures r * a <= r * b && (a < b ==> r * a < r * b)
  {
    assert r * b - r * a == r * (b - a);
  }

  lemma RadAcute(m: Numerics, deg: real)
    requires Sound(m) && 0.0 < deg < 90.0
    ensures 0.0 < Rad(m, deg) < m.pi / 2.0
  {
    var p := deg * m.pi;
    MulLe(m.pi, 0.0, deg);
    MulLe(m.pi, deg, 90.0);
    assert 0.0 < p < 90.0 * m.pi;
    assert p / 180.0 < (90.0 * m.pi) / 180.0;
  }

  // ---------------------------------------------------------------------------
  // Sums of reals

  /** Sum of a sequence, adding from the front element to the last. */
  function Sum(s: seq<real>): real
  {
    if s == [] then 0.0 else Sum(s[..|s| - 1]) + s[|s| - 1]
  }

  lemma {:induction false} SumPositive(s: seq<real>)
    requires forall i :: 0 <= i < |s| ==> s[i] > 0.0
    ensures s != [] ==> Sum(s) > 0.0
    ensures forall i :: 0 <= i < |s| ==> s[i] <= Sum(s)
    ensures |s| >= 2 ==> forall i :: 0 <= i < |s| ==> s[i] < Sum(s)
  {
    if s != [] {
      var init := s[..|s| - 1];
      SumPositive(init);
      assert forall i :: 0 <= i < |init| ==> init[i] == s[i];
    }
  }

  lemma {:induction false} SumPrefixStep(s: seq<real>, n: nat)
    requires n < |s|
    ensures Sum(s[..n + 1]) == Sum(s[..n]) + s[n]
  {
    assert s[..n + 1][..n] == s[..n];
  }

  // ---------------------------------------------------------------------------
  // Splitting the fan

  /** `special` (1: one child above several leaves, 2: one child above a single leaf). */
  function Special(t: Tree, v: nat): (s: int)
    requires IsForest(t) && v < |t.up|
    ensures s == 0 <==> |Kids(t, v)| != 1
    ensures s == 1 <==> |Kids(t, v)| == 1 && LeafCount(t, Kids(t, v)[0]) > 1
    ensures s == 2 <==> |Kids(t, v)| == 1 && LeafCount(t, Kids(t, v)[0]) == 1
  {
    var ks := Kids(t, v);
    if |ks| == 1 then
      assert ks[1..] == [];
      assert LeafCount(t, v) == LeafSum(t, ks, v) == LeafCount(t, ks[0]) + LeafSum(t, ks[1..], v);
      if LeafCount(t, v) > 1 then 1 else 2
    else 0
  }

  /** The weight of each child, `sqrt(len(child))`. */
  function Weights(m: Numerics, t: Tree, ks: seq<nat>): (ws: seq<real>)
    requires Sound(m) && IsForest(t)
    requires forall i :: 0 <= i < |ks| ==> ks[i] < |t.up|
    ensures |ws| == |ks|
    ensures forall i :: 0 <= i < |ws| ==> ws[i] == m.sqrt(LeafCount(t, ks[i]) as real) && ws[i] > 0.0
  {
    if ks == [] then [] else [m.sqrt(LeafCount(t, ks[0]) as real)] + Weights(m, t, ks[1..])
  }

  /** `180 * (w / tot) / 2`: the half-angle of the wedge a child of weight `w` gets. */
  function HalfAngle(w: real, tot: real): real
    requires tot > 0.0
  {
    180.0 * (w / tot) / 2.0
  }

  /** The half-angles of all children, in child order. */
  function HalfAngles(ws: seq<real>): (a: seq<real>)
    requires forall i :: 0 <= i < |ws| ==> ws[i] > 0.0
    ensures |a| == |ws|
    ensures ws != [] ==> Sum(ws) > 0.0
  {
    SumPositive(ws);
    HalfAnglesOf(ws, Sum(ws))
  }

  /** The half-angles of `ws` out of a total weight `tot`. */
  function HalfAnglesOf(ws: seq<real>, tot: real): (a: seq<real>)
    requires ws == [] || tot > 0.0
    ensures |a| == |ws|
    ensures forall i :: 0 <= i < |ws| ==> a[i] == HalfAngle(ws[i], tot)
  {
    if ws == [] then [] else [HalfAngle(ws[0], tot)] + HalfAnglesOf(ws[1..], tot)
  }

  /** A sum of weights each scaled by the same factor is the scaled sum. */
  lemma {:induction false} SumScaled(a: seq<real>, ws: seq<real>, c: real)
    requires |a| == |ws|
    requires forall i :: 0 <= i < |a| ==> a[i] == c * ws[i]
    ensures Sum(a) == c * Sum(ws)
  {
    if a != [] {
      var n := |a| - 1;
      SumScaled(a[..n], ws[..n], c);
      assert c * (Sum(ws[..n]) + ws[n]) == c * Sum(ws[..n]) + c * ws[n];
    }
  }

  /** A wedge's half-angle is its weight times `90 / tot`. */
  lemma HalfAngleLinear(w: real, tot: real)
    requires tot > 0.0
    ensures HalfAngle(w, tot) == (90.0 / tot) * w
  {
    assert 180.0 * (w / tot) / 2.0 == 90.0 * (w / tot);
    assert 90.0 * (w / tot) == (90.0 / tot) * w;
  }

  lemma HalfAngleBounds(w: real, tot: real)
    requires 0.0 < w <= tot
    ensures 0.0 < HalfAngle(w, tot) <= 90.0
    ensures w < tot ==> HalfAngle(w, tot) < 90.0
  {
    assert HalfAngle(w, tot) == 90.0 * (w / tot);
    assert 0.0 < w / tot <= 1.0;
    if w < tot && w / tot >= 1.0 {
      assert false;
    }
  }

  /** The half-angles add up to 90 degrees, so the wedges fill the 180-degree fan. */
  lemma HalfAnglesSum(ws: seq<real>)
    requires forall i :: 0 <= i < |ws| ==> ws[i] > 0.0
    requires ws != []
    ensures Sum(HalfAngles(ws)) == 90.0
  {
    var a := HalfAngles(ws);
    var tot := Sum(ws);
    var c := 90.0 / tot;
    forall i | 0 <= i < |ws|
      ensures a[i] == c * ws[i]
    {
      HalfAngleLinear(ws[i], tot);
    }
    SumScaled(a, ws, c);
    ScaleBack(tot);
  }

  lemma ScaleBack(tot: real)
    requires tot > 0.0
    ensures (90.0 / tot) * tot == 90.0
  {
  }

  /** Each half-angle is positive and at most 90 degrees, and below 90 degrees with
      two children or more. */
  lemma HalfAnglesBounded(ws: seq<real>)
    requires forall i :: 0 <= i < |ws| ==> ws[i] > 0.0
    ensures forall i :: 0 <= i < |ws| ==> 0.0 < HalfAngles(ws)[i] <= 90.0
    ensures |ws| >= 2 ==> forall i :: 0 <= i < |ws| ==> HalfAngles(ws)[i] < 90.0
  {
    SumPositive(ws);
    forall i | 0 <= i < |ws|
      ensures 0.0 < HalfAngles(ws)[i] <= 90.0 && (|ws| >= 2 ==> HalfAngles(ws)[i] < 90.0)
    {
      HalfAngleBounds(ws[i], Sum(ws));
    }
  }

  // ---------------------------------------------------------------------------
  // Radius of a child

  /** The child's radius: 80% or 50% of the parent's for the single-child cases,
      otherwise the circle inscribed in its wedge, `R * tan(a) / (1 + tan(a))`. */
  function ChildRay(m: Numerics, special: int, R: real, a: real): (r: real)
    requires Sound(m) && R > 0.0 && 0.0 < a <= 90.0
    requires special != 1 && special != 2 ==> a < 90.0
    ensures 0.0 < r < R
  {
    if special == 1 then R - (R * 20.0) / 100.0
    else if special == 2 then R - (R * 50.0) / 100.0
    else
      RadAcute(m, a);
      var th := Rad(m, a);
      var tn := m.sin(th) / m.cos(th);
      assert tn > 0.0;
      assert R * tn < R * (1.0 + tn);
      (R * m.sin(th) / m.cos(th)) / (1.0 + m.sin(th) / m.cos(th))
  }

  // ---------------------------------------------------------------------------
  // Orientation of the children

  /** `np.repeat(a, 2)`. */
  function Repeat2(a: seq<real>): (r: seq<real>)
    ensures |r| == 2 * |a|
    ensures forall i :: 0 <= i < |a| ==> r[2 * i] == a[i] && r[2 * i + 1] == a[i]
  {
    if a == [] then [] else [a[0], a[0]] + Repeat2(a[1..])
  }

  /** `np.cumsum`: running totals. */
  function CumSum(s: seq<real>): (c: seq<real>)
    ensures |c| == |s|
    ensures forall i :: 0 <= i < |s| ==> c[i] == Sum(s[..i + 1])
  {
    if s == [] then []
    else
      var c := CumSum(s[..|s| - 1]);
      var r := c + [(if c == [] then 0.0 else c[|c| - 1]) + s[|s| - 1]];
      CumSumStep(s, c, r);
      r
  }

  lemma CumSumStep(s: seq<real>, c: seq<real>, r: seq<real>)
    requires s != [] && |c| == |s| - 1
    requires forall i :: 0 <= i < |c| ==> c[i] == Sum(s[..|s| - 1][..i + 1])
    requires r == c + [(if c == [] then 0.0 else c[|c| - 1]) + s[|s| - 1]]
    ensures forall i :: 0 <= i < |s| ==> r[i] == Sum(s[..i + 1])
  {
    forall i | 0 <= i < |s|
      ensures r[i] == Sum(s[..i + 1])
    {
      if i < |c| {
        assert s[..|s| - 1][..i + 1] == s[..i + 1];
      } else {
        assert s[..i + 1] == s;
        if c != [] {
          assert s[..|s| - 1][..|c| - 1 + 1] == s[..|s| - 1];
        }
      }
    }
  }

  /** `s[0::2]`. */
  function EveryOther(s: seq<real>): (r: seq<real>)
    ensures |r| == (|s| + 1) / 2
    ensures forall i :: 0 <= i < |r| ==> r[i] == s[2 * i]
  {
    if |s| <= 2 then (if s == [] then [] else [s[0]]) else [s[0]] + EveryOther(s[2..])
  }

  /** The children's orientations: every other running total of the doubled
      half-angles, turned so that the fan is centred on the parent's `alpha`. */
  function Orientations(a: seq<real>, alpha: real): (o: seq<real>)
    ensures |o| == |a|
  {
    Shift(EveryOther(CumSum(Repeat2(a))), 90.0 - alpha)
  }

  /** Every element of `s` less `d`. */
  function Shift(s: seq<real>, d: real): (r: seq<real>)
    ensures |r| == |s|
    ensures forall i :: 0 <= i < |s| ==> r[i] == s[i] - d
  {
    if s == [] then [] else [s[0] - d] + Shift(s[1..], d)
  }

  lemma {:induction false} SumRepeat2(a: seq<real>, k: nat)
    requires k <= |a|
    ensures Sum(Repeat2(a)[..2 * k]) == 2.0 * Sum(a[..k])
  {
    if k > 0 {
      SumRepeat2(a, k - 1);
      var r := Repeat2(a);
      SumPrefixStep(r, 2 * k - 2);
      SumPrefixStep(r, 2 * k - 1);
      SumPrefixStep(a, k - 1);
    }
  }

  /** Child `k` points at `alpha - 90 + 2 * (a_0 + ... + a_{k-1}) + a_k`: the middle of
      its own wedge when the wedges are laid side by side from `alpha - 90`. */
  lemma OrientationFormula(a: seq<real>, alpha: real, k: nat)
    requires k < |a|
    ensures Orientations(a, alpha)[k] == alpha - 90.0 + 2.0 * Sum(a[..k]) + a[k]
  {
    var r := Repeat2(a);
    SumRepeat2(a, k);
    SumPrefixStep(r, 2 * k);
  }

  lemma {:induction false} SumMonotone(a: seq<real>, i: nat, j: nat)
    requires forall n :: 0 <= n < |a| ==> a[n] > 0.0
    requires i <= j <= |a|
    ensures Sum(a[..i]) <= Sum(a[..j])
    decreases j - i
  {
    if i < j {
      SumMonotone(a, i, j - 1);
      SumPrefixStep(a, j - 1);
    }
  }

  /** Consecutive orientations differ by the two half-angles between them. */
  lemma OrientationGap(a: seq<real>, alpha: real, k: nat)
    requires 0 < k < |a|
    ensures Orientations(a, alpha)[k] == Orientations(a, alpha)[k - 1] + a[k - 1] + a[k]
  {
    OrientationFormula(a, alpha, k);
    OrientationFormula(a, alpha, k - 1);
    SumPrefixStep(a, k - 1);
  }

  /** With positive half-angles, orientations strictly increase in child order. */
  lemma OrientationsIncrease(a: seq<real>, alpha: real, i: nat, j: nat)
    requires forall n :: 0 <= n < |a| ==> a[n] > 0.0
    requires i < j < |a|
    ensures Orientations(a, alpha)[i] < Orientations(a, alpha)[j]
  {
    OrientationFormula(a, alpha, i);
    OrientationFormula(a, alpha, j);
    SumPrefixStep(a, i);
    SumMonotone(a, i + 1, j);
  }

  /** With positive half-angles summing to 90, every child points strictly within
      90 degrees of its parent's orientation. */
  lemma OrientationInFan(a: seq<real>, alpha: real, k: nat)
    requires forall n :: 0 <= n < |a| ==> a[n] > 0.0
    requires Sum(a) == 90.0 && k < |a|
    ensures alpha - 90.0 < Orientations(a, alpha)[k] < alpha + 90.0
  {
    OrientationFormula(a, alpha, k);
    SumMonotone(a, 0, k);
    SumPrefixStep(a, k);
    SumMonotone(a, k + 1, |a|);
    assert a[..|a|] == a;
    assert a[..0] == [];
  }

  // ---------------------------------------------------------------------------
  // Position of a child

  /** The child sits `dist` away from its parent in direction `alpha` (degrees). */
  function ChildPos(m: Numerics, px: real, py: real, dist: real, alpha: real): (real, real)
  {
    (px + dist * m.cos(Rad(m, alpha)), py + dist * m.sin(Rad(m, alpha)))
  }

  lemma UnitCircle(d: real, c: real, s: real)
    requires c * c + s * s == 1.0
    ensures (d * c) * (d * c) + (d * s) * (d * s) == d * d
  {
    calc {
      (d * c) * (d * c) + (d * s) * (d * s);
      d * d * (c * c + s * s);
    }
  }

  /** The branch from the parent to the child has length `dist`. */
  lemma ChildPosDistance(m: Numerics, px: real, py: real, dist: real, alpha: real)
    requires Pythagorean(m)
    ensures var (x, y) := ChildPos(m, px, py, dist, alpha);
      (x - px) * (x - px) + (y - py) * (y - py) == dist * dist
  {
    var c := m.cos(Rad(m, alpha));
    var s := m.sin(Rad(m, alpha));
    UnitCircle(dist, c, s);
  }

  // ---------------------------------------------------------------------------
  // Zoom levels

  /** `2^k`. */
  function Pow2(k: nat): (p: real)
    ensures p >= k as real + 1.0
  {
    if k == 0 then 1.0 else 2.0 * Pow2(k - 1)
  }

  /** A circle of radius `r` is 30 units wide or more at zoom level `k`. */
  predicate Visible(r: real, k: nat)
  {
    r * Pow2(k) >= 30.0
  }

  lemma ZoomBound(r: real, k: nat)
    requires r > 0.0 && !Visible(r, k)
    ensures k <= (30.0 / r).Floor
  {
    MulLe(r, k as real, Pow2(k));
    BelowQuotient(r, k as real, 30.0);
    FloorAbove(30.0 / r, k);
  }

  lemma FloorAbove(x: real, k: nat)
    requires (k as real) < x
    ensures k <= x.Floor
  {
  }

  lemma BelowQuotient(r: real, x: real, c: real)
    requires r > 0.0 && r * x < c
    ensures x < c / r
  {
    var q := c / r;
    assert q * r == c;
    if q <= x {
      MulLe(r, q, x);
    }
  }

  /** The first level from `k` on at which radius `r` is visible. */
  function ZoomFrom(r: real, k: nat): (z: nat)
    requires r > 0.0
    decreases (30.0 / r).Floor + 1 - k
    ensures z >= k && Visible(r, z)
    ensures forall j :: k <= j < z ==> !Visible(r, j)
  {
    if Visible(r, k) then k
    else
      ZoomBound(r, k);
      ZoomFrom(r, k + 1)
  }

  /** `ceil(log2(30 / r))` clamped at 0: the least level `k >= 0` with `r * 2^k >= 30`. */
  function Zoom(r: real): (z: nat)
    requires r > 0.0
    ensures Visible(r, z)
    ensures forall j: nat :: j < z ==> !Visible(r, j)
  {
    ZoomFrom(r, 0)
  }

  /** A larger circle never appears at a deeper zoom level. */
  lemma ZoomMonotone(r1: real, r2: real)
    requires 0.0 < r1 <= r2
    ensures Zoom(r2) <= Zoom(r1)
  {
    var z1 := Zoom(r1);
    MulLe(Pow2(z1), r1, r2);
    assert r1 * Pow2(z1) <= r2 * Pow2(z1);
    assert Visible(r2, z1);
  }

  // ---------------------------------------------------------------------------
  // Group anchors

  /** The three groups a build draws: Archaea ("1"), Eukaryotes ("2"), Bacteria ("3"). */
  datatype Group = Archaea | Eukaryotes | Bacteria

  /** Where a group's root is drawn: taxid of the root, centre, orientation, radius. */
  datatype Anchor = Anchor(taxid: string, x: real, y: real, alpha: real, ray: real)

  function GroupAnchor(g: Group): (a: Anchor)
    ensures a.ray == 10.0
  {
    match g
    case Archaea => Anchor("2157", 6.0, 9.660254 - 10.0, 30.0, 10.0)
    case Eukaryotes => Anchor("2759", -6.0, 9.660254 - 10.0, 150.0, 10.0)
    case Bacteria => Anchor("2", 0.0, -11.0, 270.0, 10.0)
  }

  /** The group number written in every record. */
  function GroupNb(g: Group): string
  {
    match g
    case Archaea => "1"
    case Eukaryotes => "2"
    case Bacteria => "3"
  }

  /** A root's zoom is not clamped, but with radius 10 the unclamped value
      `ceil(log2(3))` is already 2: 10 * 2 < 30 <= 10 * 4. */
  lemma RootZoom(g: Group)
    ensures Zoom(GroupAnchor(g).ray) == 2
    ensures !Visible(GroupAnchor(g).ray, 1) && Visible(GroupAnchor(g).ray, 2)
  {
    assert Pow2(1) == 2.0 && Pow2(2) == 4.0;
  }

  // ---------------------------------------------------------------------------
  // Placement of a node

  /** The fields the layout pass sets on a node: radius, orientation (degrees),
      position and zoom level. */
  datatype Placement = Placement(ray: real, alpha: real, x: real, y: real, zoom: nat)

  /** The root of a group sits at the group's anchor; its zoom is `ceil(log2(30 / 10))`. */
  function RootPlacement(g: Group): (p: Placement)
    ensures p.ray == 10.0 && p.zoom == 2
  {
    var a := GroupAnchor(g);
    RootZoom(g);
    Placement(a.ray, a.alpha, a.x, a.y, Zoom(a.ray))
  }

  /** The half-angles of the wedges of `p`'s children, in child order. */
  function Fan(m: Numerics, t: Tree, p: nat): (a: seq<real>)
    requires Sound(m) && IsForest(t) && p < |t.up|
    ensures |a| == |Kids(t, p)|
  {
    HalfAngles(Weights(m, t, Kids(t, p)))
  }

  lemma FanFacts(m: Numerics, t: Tree, p: nat)
    requires Sound(m) && IsForest(t) && p < |t.up|
    ensures Kids(t, p) != [] ==> Sum(Fan(m, t, p)) == 90.0
    ensures forall k :: 0 <= k < |Kids(t, p)| ==> 0.0 < Fan(m, t, p)[k] <= 90.0
    ensures forall k :: 0 <= k < |Kids(t, p)| && Special(t, p) == 0 ==> Fan(m, t, p)[k] < 90.0
  {
    if Kids(t, p) != [] {
      HalfAnglesSum(Weights(m, t, Kids(t, p)));
      HalfAnglesBounded(Weights(m, t, Kids(t, p)));
    }
  }

  /** The distance from parent to child is the gap between their radii, so the child's
      circle touches the inside of its parent's. */
  predicate BranchFits(pp: Placement, c: Placement)
  {
    (c.x - pp.x) * (c.x - pp.x) + (c.y - pp.y) * (c.y - pp.y) == (pp.ray - c.ray) * (pp.ray - c.ray)
  }

  /** A node of radius `r` hung from `pp` in direction `alpha`, `R - r` away from it. */
  function Place(m: Numerics, pp: Placement, r: real, alpha: real): Placement
    requires r > 0.0
  {
    var pos := ChildPos(m, pp.x, pp.y, pp.ray - r, alpha);
    Placement(r, alpha, pos.0, pos.1, Zoom(r))
  }

  /** A placed node keeps its radius and direction, and its circle touches its parent's. */
  lemma PlaceFits(m: Numerics, pp: Placement, r: real, alpha: real)
    requires Pythagorean(m) && r > 0.0
    ensures var c := Place(m, pp, r, alpha); c.ray == r && c.alpha == alpha && BranchFits(pp, c)
  {
    ChildPosDistance(m, pp.x, pp.y, pp.ray - r, alpha);
  }

  function ChildPlacement(m: Numerics, t: Tree, p: nat, k: nat, pp: Placement): (c: Placement)
    requires Sound(m) && IsForest(t) && p < |t.up| && k < |Kids(t, p)| && pp.ray > 0.0
    ensures 0.0 < c.ray < pp.ray
    ensures c.zoom == Zoom(c.ray) && Zoom(pp.ray) <= c.zoom
  {
    var r := KidRay(m, t, p, k, pp.ray);
    var alpha := Orientations(Fan(m, t, p), pp.alpha)[k];
    ZoomMonotone(r, pp.ray);
    Place(m, pp, r, alpha)
  }

  /** A child's circle touches the inside of its parent's. */
  lemma ChildPlacementFits(m: Numerics, t: Tree, p: nat, k: nat, pp: Placement)
    requires Sound(m) && Pythagorean(m) && IsForest(t) && p < |t.up| && k < |Kids(t, p)| && pp.ray > 0.0
    ensures BranchFits(pp, ChildPlacement(m, t, p, k, pp))
  {
    PlaceFits(m, pp, KidRay(m, t, p, k, pp.ray), Orientations(Fan(m, t, p), pp.alpha)[k]);
  }

  /** Radius of the `k`-th child of `p` when `p` has radius `R`. */
  function KidRay(m: Numerics, t: Tree, p: nat, k: nat, R: real): (r: real)
    requires Sound(m) && IsForest(t) && p < |t.up| && k < |Kids(t, p)| && R > 0.0
    ensures 0.0 < r < R
  {
    FanFacts(m, t, p);
    ChildRay(m, Special(t, p), R, Fan(m, t, p)[k])
  }

  /** The children of a node are laid out in child order, by increasing orientation. */
  lemma SiblingsOrdered(m: Numerics, t: Tree, p: nat, pp: Placement, i: nat, j: nat)
    requires Sound(m) && IsForest(t) && p < |t.up| && pp.ray > 0.0
    requires i < j < |Kids(t, p)|
    ensures ChildPlacement(m, t, p, i, pp).alpha < ChildPlacement(m, t, p, j, pp).alpha
  {
    FanFacts(m, t, p);
    OrientationsIncrease(Fan(m, t, p), pp.alpha, i, j);
  }

  /** Every child points into the half-plane facing its parent's orientation. */
  lemma ChildInFan(m: Numerics, t: Tree, p: nat, pp: Placement, k: nat)
    requires Sound(m) && IsForest(t) && p < |t.up| && pp.ray > 0.0
    requires k < |Kids(t, p)|
    ensures pp.alpha - 90.0 < ChildPlacement(m, t, p, k, pp).alpha < pp.alpha + 90.0
  {
    FanFacts(m, t, p);
    OrientationInFan(Fan(m, t, p), pp.alpha, k);
  }
}
