/** Recursive coordinate bisection of src/redecomp/partition/RCB.cpp: the tree of boxes, the routing of
    entities to parts, and the ghost layer. */
module RCBTree {
  import opened BisecTree
  import opened Boxes
  import opened CutSearch

  /** One node of the problem tree: its box, its box with the ghost region, and its desired share. */
  datatype RCBInfo = RCBInfo(bbox: Box, ghostBox: Box, desiredFrac: real)

  datatype Config = Config(
    coords: seq<seq<Point>>, dims: nat, ghostLen: real, maxOutOfBalance: real, nTryNewAxis: int,
    weighted: (real, real, real) -> real, middle: (real, real) -> real)

  /** What the loop over the cuts of one axis is given. */
  function AxisProblem(c: Config, box: Box, leftProp: real, ax: nat): CutProblem {
    CutProblem(c.coords, box, ax, leftProp, c.maxOutOfBalance, c.weighted, c.middle)
  }

  /** Coordinates of the mesh's dimension, none beyond the largest representable value `big`. */
  ghost predicate Bounded(c: Config, big: real) {
    big >= 0.0 && forall p :: p in Flat(c.coords) ==> WithinRange(c.dims, big, p)
  }

  ghost predicate WithinRange(dims: nat, big: real, p: Point) {
    |p| == dims && forall d :: 0 <= d < dims ==> -big <= p[d] <= big
  }

  /** Inputs of BuildProblemTree: at least one axis, bounded coordinates on the rounding grid, and cut
      searches that end. */
  ghost predicate Configured(c: Config, grid: set<real>, big: real) {
    && c.dims >= 1 && Bounded(c, big)
    && Rounds(grid, c.weighted, c.middle)
    && big in grid && -big in grid
    && (forall p :: p in Flat(c.coords) ==> OnGrid(grid, p))
    && CutsEnd(c, grid)
  }

  ghost predicate OnGrid(grid: set<real>, p: Point) {
    forall d :: 0 <= d < |p| ==> p[d] in grid
  }

  ghost predicate BoxOnGrid(dims: nat, grid: set<real>, b: Box) {
    Sized(b, dims) && forall d :: 0 <= d < dims ==> b.lo[d] in grid && b.hi[d] in grid
  }

  /** Every search along an axis of a box on the grid ends. */
  ghost predicate CutsEnd(c: Config, grid: set<real>) {
    forall box, leftProp, ax: nat :: BoxOnGrid(c.dims, grid, box) && 0.0 <= leftProp <= 1.0 && ax < c.dims
      ==> Halts(AxisProblem(c, box, leftProp, ax), c.nTryNewAxis)
  }

  /** With n_try_new_axis >= 1 they all do. */
  lemma PositiveTryEnds(c: Config, grid: set<real>)
    requires c.nTryNewAxis >= 1 && Rounds(grid, c.weighted, c.middle)
    ensures CutsEnd(c, grid)
  {
    forall box, leftProp, ax: nat | BoxOnGrid(c.dims, grid, box) && 0.0 <= leftProp <= 1.0 && ax < c.dims
      ensures Halts(AxisProblem(c, box, leftProp, ax), c.nTryNewAxis)
    {
      HaltsWhenPositive(AxisProblem(c, box, leftProp, ax), c.nTryNewAxis, grid);
    }
  }

  // ----- desired fractions

  ghost function Leaves(n: nat, h: nat, k: nat): set<nat> {
    set j | 0 <= j < n && Anc(j, h) == k
  }

  lemma LeavesOfChildren(n: nat, h: nat, k: nat)
    requires h >= 1 && k < LevelSize(n, h)
    ensures |Leaves(n, h, k)| == |Leaves(n, h - 1, Left(k))| + |Leaves(n, h - 1, Right(k))|
    ensures Right(k) >= LevelSize(n, h - 1) ==> Leaves(n, h - 1, Right(k)) == {}
  {
    var (a, b) := (Leaves(n, h - 1, Left(k)), Leaves(n, h - 1, Right(k)));
    assert Leaves(n, h, k) == a + b && a * b == {};
    if Right(k) >= LevelSize(n, h - 1) {
      forall j | j in b ensures false { AncInLevel(n, j, h - 1); }
    }
  }

  /** The bottom-up sum of the desired fractions. */
  function Share(n: nat, h: nat, k: nat): real
    requires n >= 1
  {
    if h == 0 then 1.0 / n as real
    else Share(n, h - 1, Left(k)) + if Right(k) < LevelSize(n, h - 1) then Share(n, h - 1, Right(k)) else 0.0
  }

  /** The desired fraction of a node is the fraction of the parts that lie below it. */
  lemma {:induction false} ShareIsLeafFraction(n: nat, h: nat, k: nat)
    requires n >= 1 && k < LevelSize(n, h)
    ensures Share(n, h, k) == |Leaves(n, h, k)| as real / n as real > 0.0
  {
    if h == 0 {
      assert Leaves(n, 0, k) == {k};
    } else {
      LeavesOfChildren(n, h, k);
      TreeLinks(n, h, k);
      ShareIsLeafFraction(n, h - 1, Left(k));
      if Right(k) < LevelSize(n, h - 1) { ShareIsLeafFraction(n, h - 1, Right(k)); }
      AddFractions(|Leaves(n, h - 1, Left(k))| as real, |Leaves(n, h - 1, Right(k))| as real, n as real);
    }
  }

  lemma AddFractions(a: real, b: real, n: real)
    requires n > 0.0
    ensures a / n + b / n == (a + b) / n
  {
  }

  lemma Whole(x: real)
    requires x > 0.0
    ensures x / x == 1.0
  {
  }

  /** The root is to receive everything. */
  lemma RootShare(n: nat)
    requires n >= 1
    ensures Share(n, NumLevels(n) - 1, 0) == 1.0
  {
    hide Leaves;
    hide Share;
    hide NumLevels;
    hide LevelSize;
    var top := NumLevels(n) - 1;
    OneRoot(n, top);
    AllLeaves(n, top);
    ShareIsLeafFraction(n, top, 0);
    Whole(n as real);
  }

  lemma AllLeaves(n: nat, h: nat)
    requires n >= 1 && LevelSize(n, h) == 1
    ensures |Leaves(n, h, 0)| == n
  {
    forall j: nat ensures j in Leaves(n, h, 0) <==> j < n {
      if j < n { AncInLevel(n, j, h); }
    }
    AllBelow(n, Leaves(n, h, 0));
  }

  lemma {:induction false} AllBelow(n: nat, s: set<nat>)
    requires forall j: nat :: j in s <==> j < n
    ensures |s| == n
  {
    if n > 0 {
      AllBelow(n - 1, s - {n - 1});
    } else {
      assert s == {};
    }
  }

  ghost predicate Shaped(n: nat, nodes: seq<seq<RCBInfo>>) {
    && n >= 1 && |nodes| == NumLevels(n)
    && forall l :: 0 <= l < |nodes| ==> |nodes[l]| == LevelSize(n, |nodes| - 1 - l)
  }

  /** A node of height h that only has its desired fraction. */
  ghost predicate Untouched(n: nat, info: RCBInfo, h: nat, k: nat)
    requires n >= 1
  {
    info == RCBInfo(Empty, Empty, Share(n, h, k))
  }

  ghost predicate LevelUntouched(n: nat, level: seq<RCBInfo>, h: nat)
    requires n >= 1
  {
    |level| == LevelSize(n, h) && forall k :: 0 <= k < |level| ==> Untouched(n, level[k], h, k)
  }

  /** A tree of n parts with the bottom-up sums of the desired fractions. */
  method FractionTree(n: nat) returns (nodes: seq<seq<RCBInfo>>)
    requires n >= 1
    ensures Shaped(n, nodes)
    ensures forall l :: 0 <= l < |nodes| ==> LevelUntouched(n, nodes[l], |nodes| - 1 - l)
  {
    var tree := new BisecTree<RCBInfo>(n, RCBInfo(Empty, Empty, 0.0));
    nodes := tree.nodes;
    var lvl := |nodes| - 1;
    var base := seq(n, _ => RCBInfo(Empty, Empty, 1.0 / n as real));
    nodes := nodes[lvl := base];
    while lvl != 0
      invariant 0 <= lvl < |nodes| && Shaped(n, nodes)
      invariant forall l :: lvl <= l < |nodes| ==> LevelUntouched(n, nodes[l], |nodes| - 1 - l)
      invariant forall l, k :: 0 <= l < lvl && 0 <= k < |nodes[l]| ==> nodes[l][k] == RCBInfo(Empty, Empty, 0.0)
    {
      lvl := lvl - 1;
      var level := SumLevel(n, |nodes| - 1 - lvl, nodes[lvl], nodes[lvl + 1]);
      nodes := nodes[lvl := level];
    }
  }

  method SumLevel(n: nat, h: nat, level0: seq<RCBInfo>, below: seq<RCBInfo>) returns (level: seq<RCBInfo>)
    requires n >= 1 && h >= 1 && |level0| == LevelSize(n, h) && LevelUntouched(n, below, h - 1)
    requires forall k :: 0 <= k < |level0| ==> level0[k] == RCBInfo(Empty, Empty, 0.0)
    ensures LevelUntouched(n, level, h)
  {
    level := level0;
    for k := 0 to |level|
      invariant |level| == |level0|
      invariant forall i :: k <= i < |level| ==> level[i] == level0[i]
      invariant forall i :: 0 <= i < k ==> Untouched(n, level[i], h, i)
    {
      TreeLinks(n, h, k);
      // there always is a left child, but there may be no right child
      assert Untouched(n, below[Left(k)], h - 1, Left(k));
      var frac := level[k].desiredFrac + below[Left(k)].desiredFrac;
      if Right(k) != |below| {
        assert Untouched(n, below[Right(k)], h - 1, Right(k));
        frac := frac + below[Right(k)].desiredFrac;
      }
      level := level[k := level[k].(desiredFrac := frac)];
    }
  }

  // ----- the domain box

  /** Every face touches an entity. */
  ghost predicate Tight(dims: nat, pts: seq<Point>, lo: Point, hi: Point) {
    && |lo| == |hi| == dims
    && (forall d :: 0 <= d < dims ==> exists i :: 0 <= i < |pts| && |pts[i]| == dims && pts[i][d] == lo[d])
    && (forall d :: 0 <= d < dims ==> exists i :: 0 <= i < |pts| && |pts[i]| == dims && pts[i][d] == hi[d])
  }

  /** Corners of the smallest box around pts; the initial extremes when there are none. */
  ghost predicate Hull(dims: nat, pts: seq<Point>, big: real, lo: Point, hi: Point) {
    && |lo| == dims && |hi| == dims
    && (pts == [] ==> lo == seq(dims, _ => big) && hi == seq(dims, _ => -big))
    && (pts != [] ==> Tight(dims, pts, lo, hi))
    && (forall j :: 0 <= j < |pts| ==> Contains(Box(lo, hi), pts[j]))
  }

  lemma HullStep(dims: nat, pts: seq<Point>, big: real, lo: Point, hi: Point, p: Point)
    requires Hull(dims, pts, big, lo, hi) && WithinRange(dims, big, p)
    ensures var (lo', hi') := AddPoint(lo, hi, p); Hull(dims, pts + [p], big, lo', hi')
  {
    var (lo', hi') := AddPoint(lo, hi, p);
    var all := pts + [p];
    assert all[|pts|] == p;
    if pts != [] {
      forall d | 0 <= d < dims
        ensures exists i :: 0 <= i < |all| && |all[i]| == dims && all[i][d] == lo'[d]
        ensures exists i :: 0 <= i < |all| && |all[i]| == dims && all[i][d] == hi'[d]
      {
        var i :| 0 <= i < |pts| && |pts[i]| == dims && pts[i][d] == lo[d];
        var j :| 0 <= j < |pts| && |pts[j]| == dims && pts[j][d] == hi[d];
        assert all[i] == pts[i] && all[j] == pts[j];
      }
    }
    forall j | 0 <= j < |all| ensures Contains(Box(lo', hi'), all[j]) {
      if j < |pts| { assert all[j] == pts[j] && Contains(Box(lo, hi), pts[j]); }
    }
  }

  /** The box around all coordinates: the smallest one, or the initial extremes when there are none. */
  ghost predicate IsDomainBox(c: Config, big: real, b: Box) {
    && Sized(b, c.dims)
    && (forall p :: p in Flat(c.coords) ==> Contains(b, p))
    && (Flat(c.coords) != [] ==> Tight(c.dims, Flat(c.coords), b.lo, b.hi))
    && (Flat(c.coords) == [] ==> forall d :: 0 <= d < c.dims ==> b.lo[d] == -big && b.hi[d] == big)
  }

  /** DomainBoundingBox.  The reduction over ranks is the outer loop; an empty domain leaves the initial
      extremes, which the box constructor puts in order. */
  method DomainBoundingBox(c: Config, big: real) returns (b: Box)
    requires Bounded(c, big)
    ensures IsDomainBox(c, big, b)
  {
    hide Tight;
    var pts := AllPoints(c.coords);
    var lo: Point, hi: Point := seq(c.dims, _ => big), seq(c.dims, _ => -big);
    for i := 0 to |pts|
      invariant Hull(c.dims, pts[..i], big, lo, hi)
    {
      assert WithinRange(c.dims, big, pts[i]) by { assert pts[i] in pts; }
      HullStep(c.dims, pts[..i], big, lo, hi, pts[i]);
      assert pts[..i + 1] == pts[..i] + [pts[i]];
      var (lo', hi') := AddPoint(lo, hi, pts[i]);
      lo, hi := lo', hi';
    }
    assert pts[..|pts|] == pts;
    b := FixedBox(lo, hi);
    if pts != [] {
      assert Contains(Box(lo, hi), pts[0]);
      assert b == Box(lo, hi);
    }
  }

  lemma DomainOnGrid(c: Config, grid: set<real>, big: real, b: Box)
    requires Configured(c, grid, big) && IsDomainBox(c, big, b)
    ensures BoxOnGrid(c.dims, grid, b)
  {
    hide CutsEnd;
    hide Rounds;
    var pts := Flat(c.coords);
    forall d | 0 <= d < c.dims ensures b.lo[d] in grid && b.hi[d] in grid {
      if pts != [] {
        var i :| 0 <= i < |pts| && |pts[i]| == c.dims && pts[i][d] == b.lo[d];
        var j :| 0 <= j < |pts| && |pts[j]| == c.dims && pts[j][d] == b.hi[d];
        assert pts[i] in pts && pts[j] in pts;
        assert OnGrid(grid, pts[i]) && OnGrid(grid, pts[j]);
      }
    }
  }

  method AllPoints(coords: seq<seq<Point>>) returns (pts: seq<Point>)
    ensures pts == Flat(coords)
  {
    pts := [];
    for m := 0 to |coords|
      invariant pts == Flat(coords[..m])
    {
      assert coords[..m + 1][..m] == coords[..m];
      pts := pts + coords[m];
    }
    assert coords[..|coords|] == coords;
  }

  function AddPoint(lo: Point, hi: Point, p: Point): (r: (Point, Point))
    requires |lo| == |hi| == |p|
    ensures |r.0| == |r.1| == |p|
    ensures forall d :: 0 <= d < |p| ==> r.0[d] <= p[d] <= r.1[d] && r.0[d] <= lo[d] && hi[d] <= r.1[d]
    ensures forall d :: 0 <= d < |p| ==> r.0[d] in {lo[d], p[d]} && r.1[d] in {hi[d], p[d]}
  {
    (seq(|p|, d requires 0 <= d < |p| => if p[d] < lo[d] then p[d] else lo[d]),
     seq(|p|, d requires 0 <= d < |p| => if p[d] > hi[d] then p[d] else hi[d]))
  }

  /** The constructor of a box from two corners swaps coordinates that are out of order. */
  function FixedBox(lo: Point, hi: Point): Box
    requires |lo| == |hi|
  {
    Box(seq(|lo|, d requires 0 <= d < |lo| => if lo[d] <= hi[d] then lo[d] else hi[d]),
        seq(|lo|, d requires 0 <= d < |lo| => if lo[d] <= hi[d] then hi[d] else lo[d]))
  }

  // ----- ranking the axes

  /** Axes by decreasing length of the box; a stable sort, so ties keep the smaller axis first. */
  function RankAxes(range: seq<real>): (axes: seq<nat>)
    ensures |axes| == |range| && forall i :: 0 <= i < |axes| ==> axes[i] < |range|
  {
    if range == [] then []
    else InsertAxis(range, RankAxes(range[..|range| - 1]), |range| - 1)
  }

  function InsertAxis(range: seq<real>, axes: seq<nat>, a: nat): (r: seq<nat>)
    requires a < |range| && forall i :: 0 <= i < |axes| ==> axes[i] < |range|
    ensures |r| == |axes| + 1 && forall i :: 0 <= i < |r| ==> r[i] < |range|
    ensures forall b :: b in r <==> b == a || b in axes
  {
    if axes == [] || range[axes[0]] < range[a] then [a] + axes
    else [axes[0]] + InsertAxis(range, axes[1..], a)
  }

  /** a is cut before b. */
  predicate Before(range: seq<real>, a: nat, b: nat) {
    a < |range| && b < |range| && (range[a] > range[b] || (range[a] == range[b] && a < b))
  }

  ghost predicate Ranked(range: seq<real>, axes: seq<nat>) {
    && (forall i :: 0 <= i < |axes| ==> axes[i] < |range|)
    && forall i, j :: 0 <= i < j < |axes| ==> Before(range, axes[i], axes[j])
  }

  lemma {:induction false} InsertRanked(range: seq<real>, axes: seq<nat>, a: nat)
    requires a < |range| && Ranked(range, axes) && forall i :: 0 <= i < |axes| ==> axes[i] < a
    ensures Ranked(range, InsertAxis(range, axes, a))
  {
    if axes != [] && range[axes[0]] >= range[a] {
      InsertRanked(range, axes[1..], a);
      var r := InsertAxis(range, axes, a);
      forall i, j | 0 <= i < j < |r| ensures Before(range, r[i], r[j]) {
        assert r[j] == InsertAxis(range, axes[1..], a)[j - 1];
        if i > 0 {
          assert r[i] == InsertAxis(range, axes[1..], a)[i - 1];
        } else if r[j] != a {
          assert r[j] in axes[1..];
        }
      }
    }
  }

  /** The ranking is the one stable order: every axis appears, and each is cut before the axes it
      precedes by length or, on a tie, by number. */
  lemma {:induction false} RankAxesStable(range: seq<real>)
    ensures Ranked(range, RankAxes(range))
    ensures forall a: nat :: a in RankAxes(range) <==> a < |range|
  {
    if range != [] {
      var rest := range[..|range| - 1];
      var axes := RankAxes(rest);
      RankAxesStable(rest);
      forall i, j | 0 <= i < j < |axes| ensures Before(range, axes[i], axes[j]) {
        assert Before(rest, axes[i], axes[j]);
      }
      InsertRanked(range, axes, |range| - 1);
    }
  }

  // ----- splitting one node

  /** How one node with two children was cut: a plane across the box; ghost regions around both halves
      when the cut is balanced, and none otherwise. */
  ghost predicate IsCut(c: Config, box: Box, leftProp: real, left: RCBInfo, right: RCBInfo, ax: nat, cut: real) {
    && Sized(box, c.dims) && ax < c.dims && box.lo[ax] <= cut <= box.hi[ax]
    && left.bbox == CutLeft(box, ax, cut) && right.bbox == CutRight(box, ax, cut)
    && if Balanced(CountIn(Flat(c.coords), left.bbox), CountIn(Flat(c.coords), box), leftProp, c.maxOutOfBalance)
       then left.ghostBox == Inflate(left.bbox, c.ghostLen) && right.ghostBox == Inflate(right.bbox, c.ghostLen)
       else left.ghostBox == Empty && right.ghostBox == Empty
  }

  /** The left child's part of the parent's desired fraction. */
  function LeftFraction(left: RCBInfo, right: RCBInfo): real
    requires left.desiredFrac + right.desiredFrac != 0.0
  {
    left.desiredFrac / (left.desiredFrac + right.desiredFrac)
  }

  /** The search along axis ax ends with this cut, accepted or given up. */
  ghost predicate SearchEnds(c: Config, box: Box, leftProp: real, ax: nat, ok: bool, cut: real) {
    && Sized(box, c.dims) && ax < c.dims
    && exists k: nat :: After(AxisProblem(c, box, leftProp, ax), c.nTryNewAxis, k) == if ok then Accepted(cut) else GivenUp(cut)
  }

  ghost predicate GaveUp(c: Config, box: Box, leftProp: real, ax: nat) {
    exists cut: real :: SearchEnds(c, box, leftProp, ax, false, cut)
  }

  /** The box is longer along axis a than along axis b; among equal lengths the smaller number comes first. */
  ghost predicate Longer(box: Box, a: nat, b: nat)
    requires box.Box? && a < |box.lo| == |box.hi| && b < |box.lo|
  {
    || box.hi[a] - box.lo[a] > box.hi[b] - box.lo[b]
    || (box.hi[a] - box.lo[a] == box.hi[b] - box.lo[b] && a < b)
  }

  /** The search along axis ax ends so, after those along all longer axes gave up. */
  ghost predicate Tried(c: Config, box: Box, leftProp: real, ax: nat, ok: bool, cut: real) {
    && SearchEnds(c, box, leftProp, ax, ok, cut)
    && forall a: nat :: a < c.dims && Longer(box, a, ax) ==> GaveUp(c, box, leftProp, a)
  }

  /** The cut that the loop over the axes leaves: that of the longest axis whose search did not give up, or, if
      all gave up, that of the shortest axis. */
  ghost predicate Chosen(c: Config, box: Box, leftProp: real, ax: nat, cut: real) {
    exists ok: bool :: Tried(c, box, leftProp, ax, ok, cut) && (ok || IsShortest(c, box, ax))
  }

  ghost predicate IsShortest(c: Config, box: Box, ax: nat)
    requires Sized(box, c.dims) && ax < c.dims
  {
    forall a: nat :: a < c.dims && a != ax ==> Longer(box, a, ax)
  }

  function AxesOf(c: Config, box: Box): (axes: seq<nat>)
    requires Sized(box, c.dims)
    ensures |axes| == c.dims && forall i :: 0 <= i < |axes| ==> axes[i] < c.dims
  {
    RankAxes(seq(c.dims, d requires 0 <= d < c.dims => box.hi[d] - box.lo[d]))
  }

  /** The axes are tried by decreasing length of the box, each once. */
  lemma AxesByLength(c: Config, box: Box)
    requires Sized(box, c.dims)
    ensures forall a: nat :: a < c.dims ==> a in AxesOf(c, box)
    ensures forall i, j :: 0 <= i < j < c.dims ==> Longer(box, AxesOf(c, box)[i], AxesOf(c, box)[j])
  {
    var range := seq(c.dims, d requires 0 <= d < c.dims => box.hi[d] - box.lo[d]);
    RankAxesStable(range);
    assert forall i, j :: 0 <= i < j < c.dims ==> Before(range, AxesOf(c, box)[i], AxesOf(c, box)[j]);
  }

  ghost predicate EarlierGaveUp(c: Config, box: Box, leftProp: real, i: nat)
    requires Sized(box, c.dims) && i <= c.dims
  {
    forall j :: 0 <= j < i ==> GaveUp(c, box, leftProp, AxesOf(c, box)[j])
  }

  /** All axes longer than the i-th one come before it. */
  lemma EarlierIsLonger(c: Config, box: Box, leftProp: real, i: nat, ok: bool, cut: real)
    requires Sized(box, c.dims) && i < c.dims && EarlierGaveUp(c, box, leftProp, i)
    requires SearchEnds(c, box, leftProp, AxesOf(c, box)[i], ok, cut)
    ensures Tried(c, box, leftProp, AxesOf(c, box)[i], ok, cut)
    ensures i == c.dims - 1 ==> IsShortest(c, box, AxesOf(c, box)[i])
  {
    hide AxesOf;
    hide GaveUp;
    hide SearchEnds;
    AxesByLength(c, box);
    var axes := AxesOf(c, box);
    forall a: nat | a < c.dims && Longer(box, a, axes[i]) ensures GaveUp(c, box, leftProp, a) {
      assert a in axes;
      var j :| 0 <= j < c.dims && axes[j] == a;
    }
    if i == c.dims - 1 {
      forall a: nat | a < c.dims && a != axes[i] ensures Longer(box, a, axes[i]) {
        assert a in axes;
        var j :| 0 <= j < c.dims && axes[j] == a;
      }
    }
  }

  /** What the searches of a split try: a whole bisection of the interval of the axis. */
  lemma CutIsSearched(c: Config, grid: set<real>, big: real, box: Box, leftProp: real, ax: nat, ok: bool, cut: real)
    returns (tried: seq<real>)
    requires Configured(c, grid, big) && BoxOnGrid(c.dims, grid, box) && 0.0 <= leftProp <= 1.0
    requires SearchEnds(c, box, leftProp, ax, ok, cut)
    ensures Completes(AxisProblem(c, box, leftProp, ax), c.nTryNewAxis, tried, ok) && cut == tried[|tried| - 1]
  {
    hide Completes;
    hide Rounds;
    hide CutsEnd;
    hide Bounded;
    hide InGrid;
    hide Traced;
    var p := AxisProblem(c, box, leftProp, ax);
    var k: nat :| After(p, c.nTryNewAxis, k) == if ok then Accepted(cut) else GivenUp(cut);
    tried := PassesBisect(p, c.nTryNewAxis, grid, k);
  }

  ghost predicate Splits(c: Config, parent: RCBInfo, left: RCBInfo, right: RCBInfo) {
    && left.desiredFrac + right.desiredFrac > 0.0
    && var leftProp := LeftFraction(left, right);
       exists ax: nat, cut: real ::
         IsCut(c, parent.bbox, leftProp, left, right, ax, cut) && Chosen(c, parent.bbox, leftProp, ax, cut)
  }

  method TryAxis(c: Config, ghost grid: set<real>, ghost big: real, box: Box, leftProp: real, ax: nat,
                 left0: RCBInfo, right0: RCBInfo) returns (axisOk: bool, left: RCBInfo, right: RCBInfo)
    requires Configured(c, grid, big) && BoxOnGrid(c.dims, grid, box) && ax < c.dims
    requires left0.ghostBox == Empty && right0.ghostBox == Empty && 0.0 <= leftProp <= 1.0
    ensures left.desiredFrac == left0.desiredFrac && right.desiredFrac == right0.desiredFrac
    ensures exists cut: real ::
              IsCut(c, box, leftProp, left, right, ax, cut) && SearchEnds(c, box, leftProp, ax, axisOk, cut)
    ensures !axisOk ==> left.ghostBox == Empty && right.ghostBox == Empty
    ensures BoxOnGrid(c.dims, grid, left.bbox) && BoxOnGrid(c.dims, grid, right.bbox)
  {
    var cut;
    ghost var p, tried := AxisProblem(c, box, leftProp, ax), [];
    axisOk, cut, tried := FindCut(AxisProblem(c, box, leftProp, ax), c.nTryNewAxis, grid);
    Judged(p, cut);
    assert SearchEnds(c, box, leftProp, ax, axisOk, cut);
    left := left0.(bbox := CutLeft(box, ax, cut));
    right := right0.(bbox := CutRight(box, ax, cut));
    if axisOk {
      left := left.(ghostBox := Inflate(left.bbox, c.ghostLen));
      right := right.(ghostBox := Inflate(right.bbox, c.ghostLen));
    }
    assert IsCut(c, box, leftProp, left, right, ax, cut);
  }

  lemma ShareInRange(a: real, b: real)
    requires a > 0.0 && b > 0.0
    ensures 0.0 <= a / (a + b) <= 1.0
  {
    var x := a / (a + b);
    assert x * (a + b) == a && (1.0 - x) * (a + b) == b;
  }

  method SplitNode(c: Config, ghost grid: set<real>, ghost big: real, parent: RCBInfo,
                   left0: RCBInfo, right0: RCBInfo) returns (left: RCBInfo, right: RCBInfo)
    requires Configured(c, grid, big) && BoxOnGrid(c.dims, grid, parent.bbox)
    requires left0.ghostBox == Empty && right0.ghostBox == Empty
    requires left0.desiredFrac > 0.0 && right0.desiredFrac > 0.0
    ensures left.desiredFrac == left0.desiredFrac && right.desiredFrac == right0.desiredFrac
    ensures Splits(c, parent, left, right)
    ensures BoxOnGrid(c.dims, grid, left.bbox) && BoxOnGrid(c.dims, grid, right.bbox)
  {
    hide IsCut;
    hide SearchEnds;
    hide Rounds;
    hide CutsEnd;
    hide Bounded;
    var box := parent.bbox;
    var leftProp := LeftFraction(left0, right0);
    ShareInRange(left0.desiredFrac, right0.desiredFrac);
    var axes := AxesOf(c, box);
    var axisOk;
    axisOk, left, right := TryAxis(c, grid, big, box, leftProp, axes[0], left0, right0);
    ghost var cut :| IsCut(c, box, leftProp, left, right, axes[0], cut) && SearchEnds(c, box, leftProp, axes[0], axisOk, cut);
    var i := 1;
    while i < |axes| && !axisOk
      invariant 1 <= i <= |axes| && left.desiredFrac == left0.desiredFrac && right.desiredFrac == right0.desiredFrac
      invariant !axisOk ==> left.ghostBox == Empty && right.ghostBox == Empty
      invariant IsCut(c, box, leftProp, left, right, axes[i - 1], cut)
      invariant SearchEnds(c, box, leftProp, axes[i - 1], axisOk, cut) && EarlierGaveUp(c, box, leftProp, i - 1)
      invariant BoxOnGrid(c.dims, grid, left.bbox) && BoxOnGrid(c.dims, grid, right.bbox)
      decreases |axes| - i
    {
      assert GaveUp(c, box, leftProp, axes[i - 1]);
      axisOk, left, right := TryAxis(c, grid, big, box, leftProp, axes[i], left, right);
      cut :| IsCut(c, box, leftProp, left, right, axes[i], cut) && SearchEnds(c, box, leftProp, axes[i], axisOk, cut);
      i := i + 1;
    }
    EarlierIsLonger(c, box, leftProp, i - 1, axisOk, cut);
    assert Chosen(c, box, leftProp, axes[i - 1], cut);
    assert LeftFraction(left, right) == leftProp;
  }

  // ----- the whole tree

  /** Children of node k, given its level and the level below. */
  ghost predicate ChildrenSet(c: Config, parents: seq<RCBInfo>, children: seq<RCBInfo>, k: nat)
    requires k < |parents|
  {
    && Left(k) < |children|
    && if Right(k) < |children| then Splits(c, parents[k], children[Left(k)], children[Right(k)])
       else children[Left(k)].bbox == parents[k].bbox && children[Left(k)].ghostBox == parents[k].ghostBox
  }

  ghost predicate NodeSplit(c: Config, nodes: seq<seq<RCBInfo>>, l: nat, k: nat)
    requires l < |nodes| - 1 && k < |nodes[l]|
  {
    ChildrenSet(c, nodes[l], nodes[l + 1], k)
  }

  /** What BuildProblemTree builds. */
  ghost predicate IsPartition(c: Config, n: nat, nodes: seq<seq<RCBInfo>>) {
    && Shaped(n, nodes)
    && (|nodes[0]| == 1 && nodes[0][0].ghostBox == Empty && Sized(nodes[0][0].bbox, c.dims))
    && (forall p :: p in Flat(c.coords) ==> Contains(nodes[0][0].bbox, p))
    && (forall l, k :: 0 <= l < |nodes| && 0 <= k < |nodes[l]|
          ==> nodes[l][k].desiredFrac == Share(n, |nodes| - 1 - l, k))
    && (forall l, k :: 0 <= l < |nodes| - 1 && 0 <= k < |nodes[l]| ==> NodeSplit(c, nodes, l, k))
  }

  /** A node whose box and fraction are set. */
  ghost predicate Boxed(c: Config, grid: set<real>, n: nat, info: RCBInfo, h: nat, k: nat)
    requires n >= 1
  {
    BoxOnGrid(c.dims, grid, info.bbox) && info.desiredFrac == Share(n, h, k)
  }

  /** The children of the first k nodes of height h are set, the others untouched. */
  ghost predicate LevelSplit(c: Config, grid: set<real>, n: nat, h: nat, parents: seq<RCBInfo>, children: seq<RCBInfo>,
                             k: nat)
    requires n >= 1 && h >= 1 && k <= |parents|
  {
    && |children| == LevelSize(n, h - 1)
    && (forall i :: Left(k) <= i < |children| ==> Untouched(n, children[i], h - 1, i))
    && (forall i :: 0 <= i < |children| && i < Left(k) ==> Boxed(c, grid, n, children[i], h - 1, i))
    && (forall i :: 0 <= i < k ==> ChildrenSet(c, parents, children, i))
  }

  /** Setting the children of node k, and no others, extends the split part of the level by one node. */
  lemma LevelSplitStep(c: Config, grid: set<real>, n: nat, h: nat, parents: seq<RCBInfo>, children0: seq<RCBInfo>,
                       children: seq<RCBInfo>, k: nat)
    requires n >= 1 && h >= 1 && k < |parents| && LevelSplit(c, grid, n, h, parents, children0, k)
    requires |children| == |children0|
    requires forall i :: 0 <= i < |children| && i != Left(k) && i != Right(k) ==> children[i] == children0[i]
    requires forall i :: 0 <= i < |children| && (i == Left(k) || i == Right(k)) ==> Boxed(c, grid, n, children[i], h - 1, i)
    requires ChildrenSet(c, parents, children, k)
    ensures LevelSplit(c, grid, n, h, parents, children, k + 1)
  {
    hide Splits;
    hide Boxed;
    hide Untouched;
    forall i | 0 <= i < k ensures ChildrenSet(c, parents, children, i) {
      assert ChildrenSet(c, parents, children0, i);
    }
  }

  /** Splits node k of height h. */
  method SplitOne(c: Config, ghost grid: set<real>, ghost big: real, n: nat, ghost h: nat, parents: seq<RCBInfo>,
                  children0: seq<RCBInfo>, k: nat) returns (children: seq<RCBInfo>)
    requires Configured(c, grid, big) && n >= 1 && h >= 1 && |parents| == LevelSize(n, h) && k < |parents|
    requires LevelSplit(c, grid, n, h, parents, children0, k) && Boxed(c, grid, n, parents[k], h, k)
    ensures LevelSplit(c, grid, n, h, parents, children, k + 1)
  {
    hide Configured;
    hide Splits;
    hide BoxOnGrid;
    TreeLinks(n, h, k);
    assert Untouched(n, children0[Left(k)], h - 1, Left(k));
    var left := children0[Left(k)];
    if Right(k) == |children0| {
      children := children0[Left(k) := left.(bbox := parents[k].bbox, ghostBox := parents[k].ghostBox)];
    } else {
      var right := children0[Right(k)];
      assert Untouched(n, right, h - 1, Right(k));
      ShareIsLeafFraction(n, h - 1, Left(k));
      ShareIsLeafFraction(n, h - 1, Right(k));
      left, right := SplitNode(c, grid, big, parents[k], left, right);
      children := children0[Left(k) := left][Right(k) := right];
    }
    LevelSplitStep(c, grid, n, h, parents, children0, children, k);
  }

  /** Splits every node of height h. */
  method SplitLevel(c: Config, ghost grid: set<real>, ghost big: real, n: nat, ghost h: nat,
                    parents: seq<RCBInfo>, children0: seq<RCBInfo>) returns (children: seq<RCBInfo>)
    requires Configured(c, grid, big) && n >= 1 && h >= 1
    requires |parents| == LevelSize(n, h) && LevelUntouched(n, children0, h - 1)
    requires forall k :: 0 <= k < |parents| ==> Boxed(c, grid, n, parents[k], h, k)
    ensures |children| == |children0|
    ensures forall k :: 0 <= k < |children| ==> Boxed(c, grid, n, children[k], h - 1, k)
    ensures forall k :: 0 <= k < |parents| ==> ChildrenSet(c, parents, children, k)
  {
    children := children0;
    for k := 0 to |parents|
      invariant LevelSplit(c, grid, n, h, parents, children, k)
    {
      children := SplitOne(c, grid, big, n, h, parents, children, k);
    }
    if |parents| > 0 { TreeLinks(n, h, |parents| - 1); }
  }

  /** The tree while its levels down to lvl have their boxes. */
  ghost predicate Progress(c: Config, grid: set<real>, n: nat, domain: Box, nodes: seq<seq<RCBInfo>>, lvl: nat)
    requires n >= 1
  {
    && Shaped(n, nodes) && lvl <= |nodes| - 1
    && (|nodes[0]| == 1 && nodes[0][0].bbox == domain && nodes[0][0].ghostBox == Empty)
    && (forall l, k :: 0 <= l <= lvl && 0 <= k < |nodes[l]| ==> Boxed(c, grid, n, nodes[l][k], |nodes| - 1 - l, k))
    && (forall l :: lvl < l < |nodes| ==> LevelUntouched(n, nodes[l], |nodes| - 1 - l))
    && (forall l, k :: 0 <= l < lvl && 0 <= k < |nodes[l]| ==> NodeSplit(c, nodes, l, k))
  }

  lemma ProgressStep(c: Config, grid: set<real>, n: nat, domain: Box, nodes: seq<seq<RCBInfo>>, lvl: nat,
                     children: seq<RCBInfo>)
    requires n >= 1 && Progress(c, grid, n, domain, nodes, lvl) && lvl < |nodes| - 1
    requires |children| == |nodes[lvl + 1]|
    requires forall k :: 0 <= k < |children| ==> Boxed(c, grid, n, children[k], |nodes| - 2 - lvl, k)
    requires forall k :: 0 <= k < |nodes[lvl]| ==> ChildrenSet(c, nodes[lvl], children, k)
    ensures Progress(c, grid, n, domain, nodes[lvl + 1 := children], lvl + 1)
  {
    var after := nodes[lvl + 1 := children];
    forall l, k | 0 <= l <= lvl && 0 <= k < |after[l]| ensures NodeSplit(c, after, l, k) {
      if l < lvl { assert NodeSplit(c, nodes, l, k); }
    }
  }

  method BuildProblemTree(c: Config, n: nat, ghost grid: set<real>, big: real) returns (nodes: seq<seq<RCBInfo>>)
    requires n >= 1 && Configured(c, grid, big)
    ensures IsPartition(c, n, nodes) && IsDomainBox(c, big, nodes[0][0].bbox)
  {
    nodes := FractionTree(n);
    var domain := DomainBoundingBox(c, big);
    DomainOnGrid(c, grid, big, domain);
    OneRoot(n, |nodes| - 1);
    nodes := nodes[0 := [nodes[0][0].(bbox := domain)]];
    assert Boxed(c, grid, n, nodes[0][0], |nodes| - 1, 0);
    var lvl := 0;
    while lvl < |nodes| - 1
      invariant Progress(c, grid, n, domain, nodes, lvl)
    {
      var children := SplitLevel(c, grid, big, n, |nodes| - 1 - lvl, nodes[lvl], nodes[lvl + 1]);
      ProgressStep(c, grid, n, domain, nodes, lvl, children);
      nodes := nodes[lvl + 1 := children];
      lvl := lvl + 1;
    }
  }
}
