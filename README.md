# Lifemap tree builder — a verified model

Lifemap draws the NCBI taxonomy as a zoomable map. Its builder reads the taxonomy dumps,
builds the tree, lays every group (Archaea, Eukaryotes, Bacteria) out as nested discs,
hands out the ids of the map features, writes the branch, clade and search records, rolls
genome counts up the tree and converts the feature table for map clients. This project
models the discrete, exact-arithmetic core of that builder in Dafny and proves what the
code promises about it.

Modules, one per concern of the builder:

- `Common`: `Option` and `Result` (an exception in the source is an `Err`).
- `Text`: Python's `str.split`, `join`, `replace` and `in` on strings, with round trips.
- `Taxonomy`: the tree as an arena (`taxa`, `up`; every parent comes before its children,
  which is what ete3's level-order `traverse()` gives). It also holds the leaf count `len(n)`,
  the recursive roll-up `TreeSum`, proved equal to the direct sum over the subtree, and the
  ancestor chains (`ascend`).
- `Layout`: the geometry of the first pass over `real`. It covers the `special` cases, the
  half-angles weighted by `sqrt(len(child))`, the repeat/cumsum/every-other orientations,
  the three radius rules and the zoom level, taken as the least `k` with `r * 2^k >= 30`.
  `sqrt`, `sin`, `cos`, `pi` and `atan2` are fields of a `Numerics` value. The proofs use
  only their sign facts and `cos² + sin² = 1`.
- `Geometry`: the records of the second pass. It covers branch names and three-point
  lines, the 60-point clade outline, the closed polygon ring, the centre, the rank window
  and convexity, JSON quote escaping and the search entry of `node2json`. Both revisions
  are covered: `builder/tree/Traverse.py` and `back/builder/tree/Traverse_To_Pgsql_2.py`.
- `Traverse`: `traverse_tree` as imperative methods. The first pass sets `id`, placement
  and zoom and writes the point rows. The second pass advances `ndid` and writes branches,
  clades, search entries and ascend rows. Both passes are proved against recursive
  specifications.
- `Chain`: id disjointness within one call. It also covers the chaining of the three
  groups through the returned id, as `builder/tree/Main.py` does.
- `Simplify`: `simplify_tree`, the level-order walk that detaches placeholder taxa.
- `NamesDump`, `NodesDump`: `get_attributes` and `getTheTrees`, for both
  `builder/tree/getTrees.py` and `builder/tree/getTrees_fun.py`. The latter differs in its
  rank rule (see Findings).
- `Genomes`: the current `add_info` and the aggregation of `download_genomes`, as
  functions over tables. These are the explode/join/group-by pipeline and the left join
  of ages.
- `GenomesLegacy`: the older `add_info`, an imperative walk up the ancestors. It is proved
  to compute the same subtree sums. The two builders differ on one input: a taxon listed
  with complete genomes in both the eukaryote and the prokaryote report. The old builder
  then counts 0 for it, because exactly one row must match; the new one sums both rows
  (`GenomesLegacy.OwnVersions`).
- `Export`: `convert_features`, the LUCA row, the parent and leaf columns.

## Model

| member | source | states |
|---|---|---|
| Text.Split | builder/tree/getTrees.py:37-39 | `str.split` on one separator gives one piece more than there are separators; no piece holds it, and joining the pieces gives the line back |
| Text.SplitJoin | builder/tree/getTrees.py:37-39 | splitting what was joined from separator-free pieces gives back those pieces |
| Text.RemoveChar | builder/tree/getTrees.py:37 | `replace("\t", "")` leaves no tab, drops exactly the tabs and keeps every other character |
| Text.Replace | builder/tree/Traverse.py:228 | replacing a character by a string changes the length by the occurrences times the growth |
| Text.UndoubleDouble | builder/tree/getTrees.py:63 | doubling every `'` loses nothing: reading `''` back as `'` gives the original name |
| Text.DoubledQuotesPaired | builder/tree/getTrees.py:63 | the doubled string holds exactly twice as many quotes |
| Text.ContainsAt | builder/tree/Traverse.py:47-54 | Python's `sub in s` holds exactly when `sub` occurs at some position of `s` |
| Taxonomy.Kids | builder/tree/Traverse.py:330 | the children of a node are nodes after it whose parent it is |
| Taxonomy.KidsIncreasing | builder/tree/Traverse.py:330 | children are listed in visiting order |
| Taxonomy.KidsComplete | builder/tree/Traverse.py:330 | every node whose parent is `v` is among `v`'s children |
| Taxonomy.KidIndexOf | builder/tree/Traverse.py:363-373 | the position counter `cpt` identifies the child: the `k`-th child sits at position `k` |
| Taxonomy.LeafIffNoChild | builder/tree/Traverse.py:324 | `is_leaf()` holds exactly when no node has it as parent |
| Taxonomy.LeafCount | builder/tree/Traverse.py:339 | `len(n)` is at least 1: a leaf counts as one leaf |
| Taxonomy.LeafCountIsTreeSum | builder/tree/Traverse.py:339 | `len(n)` is the roll-up of weight 1 on leaves and 0 elsewhere |
| Taxonomy.TreeSumIsDescSum | back/builder/tree/AdditionalInfo.py:67-76 | the recursive roll-up of a node is the sum of the weights of every node of its subtree, itself included |
| Taxonomy.RootLeafCount | builder/tree/Traverse.py:313 | `len(t)` on the root counts exactly the leaf nodes of the tree |
| Taxonomy.AncChain | builder/tree/Traverse.py:435-437 | two ancestors of one node are ancestors of one another |
| Taxonomy.AncViaKid | builder/tree/Traverse.py:330 | a proper descendant of `v` lies under exactly one child of `v` |
| Taxonomy.Ancestors | builder/tree/Traverse.py:435-437 | the walk `while node.up` meets the parent first, each next node is the previous one's parent, and it ends at a node without parent |
| Taxonomy.AncestorsAreAncestors | builder/tree/Traverse.py:435-437 | the walk lists exactly the proper ancestors, one per level, so its length is the depth |
| Taxonomy.AscendOf | builder/tree/Traverse.py:433-439 | the ascend list has depth + 1 entries: the ancestors' taxids from parent to root, then "0" |
| Layout.Special | builder/tree/Traverse.py:332-335 | `special` is 1 for one child above several leaves, 2 for one child above a single leaf, 0 otherwise |
| Layout.Weights | builder/tree/Traverse.py:337-338 | each child's weight is `sqrt(len(child))` and is positive |
| Layout.RadAcute | builder/tree/Traverse.py:89-90 | `rad` maps an angle strictly between 0 and 90 degrees strictly between 0 and pi/2 |
| Layout.HalfAnglesOf | builder/tree/Traverse.py:344-348 | the list of half-angles has one entry per child, each `180 * (w / tot) / 2` |
| Layout.HalfAngles | builder/tree/Traverse.py:337-348 | with positive weights, one half-angle per child and a positive total |
| Layout.HalfAngleLinear | builder/tree/Traverse.py:346 | a half-angle is the weight times `90 / tot` |
| Layout.HalfAngleBounds | builder/tree/Traverse.py:346 | a half-angle is in `(0, 90]`, and below 90 when the weight is below the total |
| Layout.HalfAnglesSum | builder/tree/Traverse.py:337-348 | the children's half-angles sum to 90: the wedges fill the 180-degree fan |
| Layout.HalfAnglesBounded | builder/tree/Traverse.py:337-348 | each half-angle is in `(0, 90]`, and below 90 with two children or more |
| Layout.ChildRay | builder/tree/Traverse.py:349-357 | the child's radius (80 %, 50 % or `R tan a / (1 + tan a)`) is strictly between 0 and the parent's |
| Layout.Repeat2 | builder/tree/Traverse.py:359 | `np.repeat(a, 2)` doubles every entry in place |
| Layout.CumSum | builder/tree/Traverse.py:360 | entry `i` of `np.cumsum` is the sum of the first `i + 1` entries |
| Layout.EveryOther | builder/tree/Traverse.py:361 | `s[0::2]` keeps entries `0, 2, 4, …` |
| Layout.Shift | builder/tree/Traverse.py:362 | every orientation is moved by `-(90 - alpha)` |
| Layout.Orientations | builder/tree/Traverse.py:359-362 | one orientation per child, from repeat, cumsum, every other entry and the shift |
| Layout.SumRepeat2 | builder/tree/Traverse.py:359-360 | a prefix of the doubled list sums to twice the prefix of the original |
| Layout.OrientationFormula | builder/tree/Traverse.py:359-362 | child `k` points at `alpha - 90 + 2 (a_0 + … + a_{k-1}) + a_k` |
| Layout.OrientationGap | builder/tree/Traverse.py:359-362 | consecutive children's orientations differ by the two half-angles between them |
| Layout.OrientationsIncrease | builder/tree/Traverse.py:359-365 | orientations strictly increase in child order |
| Layout.OrientationInFan | builder/tree/Traverse.py:359-365 | every child points strictly within 90 degrees of its parent's orientation |
| Layout.ChildPosDistance | builder/tree/Traverse.py:366-367 | the child sits at distance `dist` from its parent |
| Layout.ZoomFrom | builder/tree/Traverse.py:368-370 | the search from level `k` returns the first level at which the disc is 30 units wide |
| Layout.Zoom | builder/tree/Traverse.py:368-370 | `ceil(log2(30 / r))` clamped at 0 is the least level `k >= 0` with `r * 2^k >= 30` |
| Layout.ZoomMonotone | builder/tree/Traverse.py:368-370 | a larger disc never gets a deeper zoom level |
| Layout.GroupAnchor | builder/tree/Traverse.py:288-308 | every group's root is drawn with radius 10 |
| Layout.RootZoom | builder/tree/Traverse.py:310 | the unclamped root zoom `ceil(log2(30 / 10))` is 2, the same as the clamped one |
| Layout.RootPlacement | builder/tree/Traverse.py:288-310 | a root has radius 10 and zoom 2 |
| Layout.Fan | builder/tree/Traverse.py:337-348 | one half-angle per child |
| Layout.FanFacts | builder/tree/Traverse.py:337-348 | a node's half-angles sum to 90, each in `(0, 90]`, and below 90 unless the node is special |
| Layout.PlaceFits | builder/tree/Traverse.py:358-367 | a placed child keeps its radius and orientation, and its disc touches the inside of its parent's |
| Layout.ChildPlacement | builder/tree/Traverse.py:342-373 | a child's radius is below its parent's, and its zoom is its own radius's zoom, no lower than the parent's |
| Layout.ChildPlacementFits | builder/tree/Traverse.py:358-367 | the branch length is `R - r`, so the child's disc touches the inside of the parent's |
| Layout.KidRay | builder/tree/Traverse.py:349-358 | the `k`-th child's radius is strictly between 0 and the parent's |
| Layout.SiblingsOrdered | builder/tree/Traverse.py:359-365 | siblings are laid out by increasing orientation in child order |
| Layout.ChildInFan | builder/tree/Traverse.py:359-365 | every child points into the half-plane its parent faces |
| Geometry.WayName | builder/tree/Traverse.py:124-135 | the branch name puts the western label first, the parent's when both have the same `x`; its length is the labels' plus 27 |
| Geometry.BranchRecord | builder/tree/Traverse.py:124-149 | a branch record has the given id, the child's zoom and the group; its line is parent, midpoint, child, and its name is `WayName` |
| Geometry.Linspace | builder/tree/Traverse.py:94 | `np.linspace` gives `n` samples from `start` in equal steps |
| Geometry.LinspaceSpan | builder/tree/Traverse.py:94 | the last sample is `stop` and neighbours are one step apart |
| Geometry.HalfCircle | builder/tree/Traverse.py:93-97 | `halfCircle` gives `n` points, all on the circle of radius `r` |
| Geometry.EllipsePoint | builder/tree/Traverse.py:100-115 | a rotated point lies on the ellipse of semi-axes `r` and `r/6` turned by `alpha` |
| Geometry.Ellipse | builder/tree/Traverse.py:100-115 | `ellipse` gives `n` points, all on that ellipse |
| Geometry.HalfCircPlusEllips | builder/tree/Traverse.py:118-121 | `2n` points: `n` on the circle, then `n` on the ellipse |
| Geometry.Outline | builder/tree/Traverse.py:152-161 | a clade outline has 60 points, the first 30 on the clade's circle |
| Geometry.Ring | builder/tree/Traverse.py:163-168 | the ring is outline points 0 to 58, then point 0 again: 60 positions, closed |
| Geometry.PolygonRing | builder/tree/Traverse.py:163-168 | the loop writing the ring produces exactly `Ring` |
| Geometry.MeanBetween | builder/tree/Traverse.py:162 | `np.mean` lies between the least and the greatest value |
| Geometry.CentreInBox | builder/tree/Traverse.py:162 | the clade centre lies in every axis-aligned box holding the outline |
| Geometry.Polyline | builder/tree/Traverse.py:195-198 | the rank line is the outline slice `lo .. hi-1`, in order |
| Geometry.RankWindow | back/builder/tree/Traverse_To_Pgsql_2.py:243-246 | the rank is written along 3 outline points now (39–41) and 10 in the legacy revision (35–44) |
| Geometry.BendSymmetric | builder/tree/Traverse.py:199-207 | swapping the outer points first makes the convexity independent of their order |
| Geometry.BendSign | builder/tree/Traverse.py:199-207 | the convexity is positive exactly when the middle point lies above the chord |
| Geometry.Bend | builder/tree/Traverse.py:199-207 | the convexity is always written, and is not a finite number exactly when the middle point shares an `x` with an outer point, so that a slope divides by zero |
| Geometry.CladeOf | builder/tree/Traverse.py:152-223 | polygon, centre and rank line take `ids[60]`, `ids[61]` and `ids[62]`; they carry the closed ring, the mean of the outline, the rank window and the convexity (legacy: none), and the node's taxon, zoom, leaf count and group |
| Geometry.CladeRecords | back/builder/tree/Traverse_To_Pgsql_2.py:188-261 | the loops building the ring and the rank line produce the records `CladeOf` describes |
| Geometry.EscapeQuotes | builder/tree/Traverse.py:228 | escaping adds one backslash per `"` |
| Geometry.EscapeQuotesReadsBack | builder/tree/Traverse.py:226-237 | an escaped name is a well-formed JSON string body that reads back as the name, for any name without a backslash |
| Geometry.LookupDistinct | builder/tree/Traverse.py:238-255 | in an object with distinct keys each key finds its own value |
| Geometry.JsonKeysDistinct | builder/tree/Traverse.py:238-255 | no key of the search entry is written twice, in either revision |
| Geometry.FieldValue | builder/tree/Traverse.py:228-256 | the scientific name, the common names, the authority and the synonym are JSON strings that read back as the names; zoom, descendant count and coordinates are quoted exactly in the legacy revision |
| Geometry.Node2Json | back/builder/tree/Traverse_To_Pgsql_2.py:264-292 | the entry lists the revision's keys in order, each with its value: escaped names, zoom + 4, coordinates `[y, x]` |
| Traverse.TotalWeight | builder/tree/Traverse.py:337-338 | the first loop's total is the sum of the children's weights |
| Traverse.FanEntry | builder/tree/Traverse.py:344-348 | the half-angle computed from the running total is the child's share of the fan, with the bounds the radius needs |
| Traverse.SetRays | builder/tree/Traverse.py:342-358 | the second loop lists each child's half-angle, its radius by the `special` rule, strictly inside `(0, R)`, and `dist = R - ray` |
| Traverse.SetPositions | builder/tree/Traverse.py:359-373 | the third loop places each child at `Place(parent, ray, orientation)` and touches no other node; `maxZoom` becomes the maximum of its old value and the children's zooms |
| Traverse.AnglesReady | builder/tree/Traverse.py:337-348 | the total is positive when there are children, and every computed half-angle is the child's share of the fan |
| Traverse.ChildrenPlaced | builder/tree/Traverse.py:342-373 | what the loops computed for each child is its `ChildPlacement` |
| Traverse.ChildRays | builder/tree/Traverse.py:330-358 | the first two loops give the children in order, the fan, each radius `KidRay` and `dist = R - ray` |
| Traverse.PlaceChildren | builder/tree/Traverse.py:330-373 | one node's turn places each child by `ChildPlacement`, moves no other node, and keeps `maxZoomView` the maximum zoom seen |
| Traverse.NodeIdsDistinct | builder/tree/Traverse.py:313-329 | leaves get `starti + 1 .. starti + len(t)`, internal nodes the ids after; ids are distinct and increase within each kind |
| Traverse.NodeIdRange | builder/tree/Traverse.py:324-329 | every node's id lies in `starti + 1 .. starti + N` |
| Traverse.NextId | builder/tree/Traverse.py:324-329 | a leaf takes `spid + 1`, an internal node `ndid + 1`, and both counters stay in step with the leaves seen |
| Traverse.Placed | builder/tree/Traverse.py:288-373 | every node is drawn with a positive radius |
| Traverse.PlacedChild | builder/tree/Traverse.py:342-373 | the `k`-th child is placed by `ChildPlacement` from its parent, with a smaller radius and no lower zoom |
| Traverse.PlacedFits | builder/tree/Traverse.py:358-367 | every drawn child's disc touches the inside of its parent's |
| Traverse.PlacedSoFar | builder/tree/Traverse.py:320 | level order places a node before its turn |
| Traverse.TurnPlaces | builder/tree/Traverse.py:364-373 | a turn keeps every node whose parent has had its turn where `Placed` says |
| Traverse.TurnZooms | builder/tree/Traverse.py:369-372 | a turn keeps `maxZoomView` the largest zoom of the nodes placed so far, the root aside |
| Traverse.WriteRow | builder/tree/Traverse.py:324-388 | the point row of a node is appended with the next leaf or internal id, and the counters advance accordingly |
| Traverse.RowsKept | builder/tree/Traverse.py:375-388 | rows already written stay correct, since a turn only moves later nodes |
| Traverse.Visit | builder/tree/Traverse.py:320-388 | one turn of the first pass keeps the pass invariant and moves to the next node |
| Traverse.PassStart | builder/tree/Traverse.py:310-316 | before the first turn only the root is placed and nothing is written |
| Traverse.PassDone | builder/tree/Traverse.py:313-388 | after the last turn every node is placed, every point row is written, `maxZoomView` is the maximum over non-roots, `spid = starti + len(t)` and `ndid = starti + N` |
| Traverse.LayoutPass | builder/tree/Traverse.py:310-388 | the first pass: placements, point rows, `maxZoomView` and both counters as `PassDone` states |
| Traverse.OffsetClosed | builder/tree/Traverse.py:419-430 | the second pass advances `ndid` by 1 per non-root node and 63 per internal node |
| Traverse.BlockIsLinspace | builder/tree/Traverse.py:423 | `np.linspace(ndid + 1, ndid + 63, num=63)` is exactly the integers `ndid + 1 .. ndid + 63` |
| Traverse.Block | builder/tree/Traverse.py:423 | a clade block is the 63 consecutive ids after `ndid` |
| Traverse.NonRoots | builder/tree/Traverse.py:419 | the nodes that get a branch, in visiting order |
| Traverse.Internals | builder/tree/Traverse.py:422 | the nodes that get a clade, in visiting order |
| Traverse.BranchCount | builder/tree/Traverse.py:419-421 | one branch per node but the root |
| Traverse.CladeCount | builder/tree/Traverse.py:422-430 | one clade per internal node |
| Traverse.BranchIdsIncrease | builder/tree/Traverse.py:419-421 | branch ids increase and lie in the range handed out so far |
| Traverse.BlocksIncrease | builder/tree/Traverse.py:422-430 | clade blocks follow each other without overlap inside the range handed out so far |
| Traverse.BranchesIds | builder/tree/Traverse.py:420-421 | each branch record carries its turn's id |
| Traverse.CladesIds | builder/tree/Traverse.py:423-429 | polygon, centre and rank line take ids 61, 62 and 63 of their block |
| Traverse.BranchesMissBlocks | builder/tree/Traverse.py:419-430 | no branch id falls inside a clade block |
| Traverse.AscendChain | builder/tree/Traverse.py:433-439 | the `while node.up` loop builds exactly the ascend list |
| Traverse.BranchesStep | builder/tree/Traverse.py:419-421 | a turn adds a branch exactly when the node is not the root |
| Traverse.CladesStep | builder/tree/Traverse.py:422-430 | a turn adds a clade exactly when the node is not a leaf |
| Traverse.DrawBranch | builder/tree/Traverse.py:419-421 | the branch part of a turn moves the counter to the clade block's start and appends the branch |
| Traverse.DrawClade | builder/tree/Traverse.py:422-430 | the clade part of a turn consumes the 63-id block and appends the clade |
| Traverse.DrawNode | builder/tree/Traverse.py:413-439 | one turn of the second pass keeps its invariant |
| Traverse.DrawRows | builder/tree/Traverse.py:431-439 | a turn appends the node's search entry and, in the current revision, its ascend row |
| Traverse.EntriesStep | builder/tree/Traverse.py:431 | a turn adds exactly the node's `node2json` entry |
| Traverse.AscendsStep | builder/tree/Traverse.py:433-439 | a turn adds exactly the node's (taxid, ascend) row |
| Traverse.DrawStart | builder/tree/Traverse.py:409-412 | before the first turn nothing is written and the counter is where the first pass left it |
| Traverse.DrawPass | builder/tree/Traverse.py:409-439 | the second pass writes every node's records in visiting order with ids from `ndid0 + 1` on |
| Traverse.LucaBranch | builder/tree/Traverse.py:480-482 | the LUCA branch has the given id and two points, ending at the group's root |
| Traverse.TraverseTree | builder/tree/Traverse.py:259-489 | `traverse_tree` places every node as `Placed` says and writes the records `Drawn` describes |
| Chain.DrawnCounts | builder/tree/Traverse.py:313-489 | one call writes N points and entries, N − 1 branches, I clades, and returns `starti + L + I + (N − 1) + 63 I + 1` |
| Chain.DrawnPointIds | builder/tree/Traverse.py:313-329 | point ids lie in `starti + 1 .. starti + N` and are distinct |
| Chain.BranchIdsBetween | builder/tree/Traverse.py:419-421 | the branches' ids increase and lie between the last point id and the returned id |
| Chain.CladeIdsBetween | builder/tree/Traverse.py:422-430 | each clade's three ids are consecutive, later blocks come after earlier ones, and all lie in that range |
| Chain.BranchIdsMissClades | builder/tree/Traverse.py:419-430 | no branch shares an id with a polygon, centre or rank line |
| Chain.DrawnBranchIds | builder/tree/Traverse.py:419-421 | the same, for the branches `traverse_tree` returns |
| Chain.DrawnCladeIds | builder/tree/Traverse.py:422-430 | the same, for the clades `traverse_tree` returns |
| Chain.DrawnBranchesMissClades | builder/tree/Traverse.py:419-430 | the same, for the records `traverse_tree` returns |
| Chain.DrawnIdsWithin | builder/tree/Traverse.py:481-489 | every id one call writes lies in `starti + 1 .. ndid`, and the LUCA branch takes the returned id |
| Chain.TraverseGroups | builder/tree/Main.py:58-64 | chaining Archaea, Eukaryotes and Bacteria through the returned id gives pairwise disjoint, increasing id ranges above 1 |
| Simplify.Simplified | back/builder/tree/Traverse_To_Pgsql_2.py:65-81 | the tree after the walk keeps every taxon, and only detached nodes change their parent |
| Simplify.LeafAtVisit | back/builder/tree/Traverse_To_Pgsql_2.py:67-69 | a node is a leaf when the walk reaches it exactly when it was a leaf in the input |
| Simplify.SimplifyTree | back/builder/tree/Traverse_To_Pgsql_2.py:65-92 | the level-order walk gives `Simplified`, and the logged count is the leaves before minus the leaves after |
| Simplify.DetachedAt | back/builder/tree/Traverse_To_Pgsql_2.py:67-81 | the walk detaches a node exactly when it is a leaf of rank "no rank" or its scientific name holds, at some position, one of the eight markers "Unclassified", "unclassified", "uncultured", "Uncultured", "unidentified", "Unidentified", "environmental", "sp." |
| Simplify.KeptIff | back/builder/tree/Traverse_To_Pgsql_2.py:67-81 | a node stays under the root exactly when neither it nor an ancestor below the root was detached (`Detached`: a leaf of rank "no rank", or a name carrying one of the markers) |
| Simplify.SimplifiedClean | back/builder/tree/Traverse_To_Pgsql_2.py:67-81 | no node left under the root carries one of the eight markers, and none that was a leaf has rank "no rank" |
| NamesDump.ParseName | builder/tree/getTrees.py:37-39 | fields 0, 1 and 3 exist exactly when the line has three `|`; the taxid has no `|` and no field keeps a tab |
| NamesDump.NameRowParses | builder/tree/getTrees.py:37-39 | a names.dmp row reads back as its taxid, name and name class |
| NamesDump.ExtendJoin | builder/tree/getTrees.py:51-60 | accumulating with `acc + ", " + v` (or `v` while empty) is joining the values with ", " |
| NamesDump.Gather | builder/tree/getTrees.py:36-60 | the first loop makes a record for exactly the taxids its lines name |
| NamesDump.GatherSnoc | builder/tree/getTrees.py:40-60 | one more line updates only its taxid's record |
| NamesDump.GatherPerTaxid | builder/tree/getTrees.py:36-60 | each taxid's record holds the last scientific name, the authorities and synonyms joined in file order, the English common names in order, and the French list of its last translated scientific name |
| NamesDump.GatherKeys | builder/tree/getTrees.py:40-41 | a record exists exactly for the taxids some line names |
| NamesDump.ShortReadsBack | builder/tree/getTrees.py:65-70 | `common_name` is "" exactly without names, otherwise the first name, quotes doubled, in parentheses |
| NamesDump.LongReadsBack | builder/tree/getTrees.py:65-71 | `common_name_long` is "" exactly without names, otherwise all names in order, comma-separated, in parentheses |
| NamesDump.Finish | builder/tree/getTrees.py:62-71 | the rewrite of one record keeps its authority and synonym, doubles quotes in the scientific name reversibly, and leaves a common-name column empty exactly when there are no names in that language |
| NamesDump.FormatAll | builder/tree/getTrees.py:62-71 | the second loop rewrites every record |
| NamesDump.Parsed | builder/tree/getTrees.py:36-39 | one parsed line per input line |
| NamesDump.GetAttributes | builder/tree/getTrees.py:20-73 | succeeds exactly when every line has the fields; then returns the formatted records, else names the first short line |
| NamesDump.AttributesOf | builder/tree/getTrees.py:20-73 | a taxid has a record exactly when a line names it, and that record is the formatted one its lines determine |
| NodesDump.ParseEdge | builder/tree/getTrees.py:88-91 | fields 0, 1 and 2 exist exactly when the line has two `|`; taxids keep no `|` or tab |
| NodesDump.NodeRowParses | builder/tree/getTrees.py:88-91 | a nodes.dmp row reads back as its taxon, parent and rank |
| NodesDump.Rows | builder/tree/getTrees.py:87-91 | one entry per line |
| NodesDump.GrowErrSticks | builder/tree/getTrees.py:87-127 | after an exception no later line changes anything |
| NodesDump.GrowNext | builder/tree/getTrees.py:87-127 | the tree after one more line is that line's effect |
| NodesDump.Grow | builder/tree/getTrees.py:86-127 | the loop over the lines after the first; an exception names a line after the first and before the end |
| NodesDump.AttachEdge | builder/tree/getTrees.py:95-127 | the loop body makes the parent and the taxon when missing, sets the rank by the rule, and attaches the taxon |
| NodesDump.Attach | builder/tree/getTrees.py:95-127 | one line adds exactly its parent and taxon to the dictionary, gives the taxon that parent, appends the taxon to the parent's children, and leaves every other node as it was |
| NodesDump.GrowAttach | builder/tree/getTrees.py:95-127 | a line whose lookups succeed extends the tree by `Attach` |
| NodesDump.GetTheTrees | builder/tree/getTrees.py:76-128 | the loop over the lines after the first computes `Grow` over all of them |
| NodesDump.AttachAt | builder/tree/getTrees.py:95-127 | field by field: names kept, rank set by the rule, parent set for the taxon, taxon appended to the parent's children |
| NodesDump.GrowNodes | builder/tree/getTrees.py:86-127 | a node exists exactly for the taxids a later line names; it carries its records, the rank the rule keeps, the last parent given to it and the taxa attached under it, in order |
| NodesDump.GrowOkIff | builder/tree/getTrees.py:86-127 | the build succeeds exactly when every line after the first has its fields, a known rank and known taxids |
| NodesDump.GrowErrAt | builder/tree/getTrees.py:88-99 | a failed build names the first line that does not fit and why |
| NodesDump.RankFromFirstLine | builder/tree/getTrees.py:107-126 | in the current revision a taxon keeps the rank of the first line naming it |
| NodesDump.FirstRankIsFirst | builder/tree/getTrees.py:122-126 | the rank kept by the first-wins rule is that of the first line naming the taxon |
| NodesDump.FirstRankNone | builder/tree/getTrees.py:122-126 | a taxon no line names has no rank |
| NodesDump.RankOfInjective | builder/tree/getTrees.py:92-93 | distinct ranks stay distinct once quotes are doubled |
| NodesDump.LastWinsOverwrites | builder/tree/getTrees_fun.py:120-136 | in the older revision a later line naming the taxon with another rank overwrites the first |
| NodesDump.LastRankIsLast | builder/tree/getTrees_fun.py:133-136 | the rank kept by the older rule is that of the last line naming the taxon |
| Genomes.CompleteTaxidsAreGroups | builder/tree/AdditionalInfo.py:31-36 | the groups are exactly the taxids with a complete genome, each once |
| Genomes.Tally | builder/tree/AdditionalInfo.py:31-36 | one row per taxid with complete genomes, no taxid twice, and each row's `n` is the number of its complete genomes, at least 1 |
| Genomes.TallyRows | builder/tree/AdditionalInfo.py:31-36 | a report gives a taxid one row exactly when it has complete genomes, with `n` their number |
| Genomes.GenomeTable | builder/tree/AdditionalInfo.py:38-40 | every row of the stacked table has a positive count, the taxid's complete genomes in one of the two reports |
| Genomes.TableOwn | builder/tree/AdditionalInfo.py:38-40 | the stacked table gives a taxid the complete genomes of both reports, in one row per report |
| Genomes.RowsOf | builder/tree/AdditionalInfo.py:65 | the join's matches of a taxid all carry it |
| Genomes.AgesOf | builder/tree/AdditionalInfo.py:75 | the ages matched for a taxid are exactly those listed with it |
| Genomes.MatchesTotal | builder/tree/AdditionalInfo.py:64-66 | one exploded row adds its taxid's own count under its id, 0 without a genome row |
| Genomes.SpreadTotal | builder/tree/AdditionalInfo.py:60-66 | a node's exploded rows add its own count once per occurrence of an id in its extended chain |
| Genomes.PipelineTotal | builder/tree/AdditionalInfo.py:60-70 | explode, join, fill and group-by sum give each id the reference total `RowTotal` |
| Genomes.Addi | builder/tree/AdditionalInfo.py:59-73 | the left join keeps every `ascends` row once, in order, with its taxid and ascend list |
| Genomes.AddiGenomes | builder/tree/AdditionalInfo.py:59-73 | one row per input row, taxid and ascend kept, with `genomes` the reference total of its taxid; sums for ids that are no row (the sentinel "0") are dropped |
| Genomes.OwnWeights | builder/tree/AdditionalInfo.py:64-66 | own counts are never negative |
| Genomes.ChainCount | builder/tree/AdditionalInfo.py:60-62 | a node's taxid occurs in another node's extended chain once when it is that node or an ancestor, never otherwise |
| Genomes.RowTotalIsDescSum | builder/tree/AdditionalInfo.py:60-70 | over the `ascends` table of a tree, the reference total of a taxid is the sum of own counts over its subtree |
| Genomes.GenomesAreSubtreeSums | builder/tree/AdditionalInfo.py:59-73 | every node's `genomes` is the sum of the own counts over its subtree, itself included |
| Genomes.JoinAgesRows | builder/tree/AdditionalInfo.py:75 | with one age per taxid at most, the left join keeps each row once, in order, with its age or none when it has none |
| Genomes.AgeMatch | builder/tree/AdditionalInfo.py:55-57 | a taxon has an age exactly when some row names it |
| Genomes.AgesAtMostOne | builder/tree/AdditionalInfo.py:75 | with one age per taxid, each row matches at most one |
| Genomes.JoinAgesKeeps | builder/tree/AdditionalInfo.py:75 | whatever the ages, no row is lost |
| Genomes.AddInfo | builder/tree/AdditionalInfo.py:45-75 | `add_info` loses no row of `ascends`: the joins give at least one row per input row |
| Genomes.AddInfoRows | builder/tree/AdditionalInfo.py:45-75 | with one age row per taxid at most, `add_info` gives exactly one row per `ascends` row, in order: that row's `Addi` record (taxid, chain, and the genome total of its taxid) with the taxid's age, or no age when the ages table does not list the taxid |
| Genomes.AddInfoSubtreeSums | builder/tree/AdditionalInfo.py:45-75 | on the tree's own `ascends` rows, with one age row per taxid at most, row `v` of `add_info` is node `v`: its taxid, its chain, the sum of the own counts over its subtree, and its age or none |
| GenomesLegacy.OwnOldWeights | back/builder/tree/AdditionalInfo.py:62-66 | own counts are never negative |
| GenomesLegacy.DescSumBump | back/builder/tree/AdditionalInfo.py:72-76 | adding to one node raises the sum of every subtree holding it and no other |
| GenomesLegacy.ClimbStart | back/builder/tree/AdditionalInfo.py:67-70 | a node has no count when level order reaches it; its own count starts the walk |
| GenomesLegacy.ClimbStep | back/builder/tree/AdditionalInfo.py:72-78 | each ancestor reached already has a count, and adding to it moves the walk one step up |
| GenomesLegacy.ClimbEnd | back/builder/tree/AdditionalInfo.py:71-78 | at the root every ancestor has received the count: the state is that before the next node |
| GenomesLegacy.PathAscend | back/builder/tree/AdditionalInfo.py:83 | `n.path + [0]` lists the same ancestors' taxids, as strings, as the ascend chain, and then the integer 0 where the current builder writes the string "0" |
| GenomesLegacy.Visit | back/builder/tree/AdditionalInfo.py:60-78 | one turn of the first loop keeps the counts correct and builds the node's path |
| GenomesLegacy.Climb | back/builder/tree/AdditionalInfo.py:71-78 | the `while node.up` walk adds the count to every ancestor and collects their taxids |
| GenomesLegacy.AddInfo | back/builder/tree/AdditionalInfo.py:59-84 | one record per node in traversal order: its taxid, the sum of legacy own counts over its subtree, and its ancestors' taxids from parent to root closed by the integer 0 |
| GenomesLegacy.RecordsAre | back/builder/tree/AdditionalInfo.py:80-84 | the records built from the first loop's counts and paths hold the subtree sums and the ancestor lists closed by the integer 0 |
| GenomesLegacy.NoneVisited | back/builder/tree/AdditionalInfo.py:59-60 | before the walk no node has a count |
| GenomesLegacy.AllVisited | back/builder/tree/AdditionalInfo.py:59-78 | after the walk every count is the subtree sum |
| GenomesLegacy.Records | back/builder/tree/AdditionalInfo.py:80-84 | the second loop writes one record per node with its count and its path closed by the integer 0 |
| GenomesLegacy.OwnVersions | back/builder/tree/AdditionalInfo.py:62-66 | both builders agree on a taxid's own count unless it has complete genomes in both reports; then the legacy one is 0 and the current one at least 2 |
| GenomesLegacy.VersionsAgree | back/builder/tree/AdditionalInfo.py:62-76 | without such a taxon in the tree, both builders give every node the same genome count |
| Export.ConvertFails | builder/tree/export_data.py:56-65 | the strict casts fail exactly when an input row does not fit Int32/Int8; the LUCA row always fits |
| Export.ConvertRows | builder/tree/export_data.py:31-96 | one row per input row in order plus LUCA last (taxid 0, zoom 5, at (0, −4.226497), empty ascend, no parent); zoom defaults to 1, parent is the first ascend id, x is lon, y is lat |
| Export.LeafIff | builder/tree/export_data.py:67-68 | a row is a leaf exactly when no row has it as parent |
| Export.LucaLeaf | builder/tree/export_data.py:33-68 | the LUCA row is a leaf exactly when no input ascend starts with 0 |
| Export.ConvertFeatures | builder/tree/export_data.py:31-97 | when the casts succeed, every input row is kept in order with its taxid and its parent, and the root row (taxid 0, no parent) comes last |

## Left out

- Database, files and network: the COPY/INSERT and DROP/CREATE statements, `db.py`, the
  JSON and parquet writing, `updateDB` and the FTP downloads, and reading the dump,
  genome-report, ages and translation files. Every such input is a parameter: dump lines
  as `seq<string>`, the translation tables as maps, the tables as sequences.
- Floating point: `sqrt`, `sin`, `cos`, `pi`, `atan2` and `degrees` are uninterpreted fields
  of `Numerics`, so rounding is not modelled. The `%.20f` well-known-text and JSON text
  rendering is not modelled either. Geometries are lists of exact points, and the JSON
  entry is a list of keys and values.
- Geometry.Midpoint: the great-circle midpoint is kept as the source computes it, reading `x`
  as the latitude. It carries no contract, because its trigonometry is left uninterpreted.
  `Geometry.BranchRecord` states where its result goes.
- Zoom: `np.ceil(np.log2(30 / r))` is modelled by its meaning, the least level with
  `r * 2^k >= 30`. Floating-point error at exact powers of two is not captured.
- The percentage in the log line of `simplify_tree` is not modelled; the removed count is.
- `simplify_tree` tests `n.rank_en` while the current tree builder sets `n.rank["en"]`. The
  model tests the English rank string `rank.en` and does not decide which one is meant.
- The legacy first pass's point rows (`writeosmNode`) and the French columns of the legacy
  polygon and centre rows are not modelled. The current `points` row and the id scheme,
  which is the same in both revisions, are.
- The legacy database bootstrap row (the fixed root point 1000000000) is not modelled.
- ete3 itself is not modelled: the tree is an arena whose index order is the level order.
  Building the arena from the dictionary `getTheTrees` returns is not modelled.
- `getTheTrees` reads the file lines after they have been split into fields by `Rows`.
  A line too short to split raises at that line, as in the source.
- `group_by` keeps no particular order. The model fixes one: each taxid is placed at its
  last occurrence in the report. Every property stated is independent of that order.
- The ages table is a list of (taxid, value) pairs. Its other columns and the `node`
  column's cast are not modelled.
- Genomes.AddInfo: its own contract states only that no row is lost, because with two age
  rows for one taxid the left join repeats that taxid's row. The row-by-row result is
  stated in Genomes.AddInfoRows and Genomes.AddInfoSubtreeSums, for an ages table with one
  row per taxid at most.
- Genomes.AddInfoSubtreeSums: stated, like Genomes.GenomesAreSubtreeSums, for trees with
  distinct taxids, none of them the sentinel "0".
- Genomes.GenomesAreSubtreeSums: stated for trees with distinct taxids, none of them the
  sentinel "0", as NCBI taxids are. With a repeated taxid the pipeline mixes the sums of
  the nodes sharing it.
- Export.ConvertFeatures: `lat`/`lon` are exact reals. Their Float64 cast and the
  `diagonal_relaxed` schema merge are not modelled.
- `node2json`'s `suggest_weight` is `300 - len(sci_name)` over the escaped name, as in the
  source. Its text rendering is not modelled.
- `export_lmdata`, `export_metadata.py`, `check_ranks.py`, `CombineJsons.py`, the wikidata
  script and the front end are outside this model.

## Findings

| source | as written | input that shows it | evidently intended | confidence | as-written member | corrected member |
|---|---|---|---|---|---|---|
| builder/tree/getTrees_fun.py:133-136 | the guard `hasattr(tree[son], "rank")` tests an attribute this revision never sets (it sets `rank_en`/`rank_fr`), so every later line naming a taxon overwrites its rank | two nodes.dmp lines after the first that name the same taxon with different ranks: the taxon ends with the second rank | a taxon keeps the rank of the first line naming it, as `builder/tree/getTrees.py` does | not executed | NodesDump.LastWinsOverwrites | NodesDump.RankFromFirstLine |
