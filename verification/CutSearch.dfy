/** Boxes, entity counts and the cut-coordinate search of src/redecomp/partition/RCB.cpp. */
module Boxes {

  type Point = seq<real>

  /** Axis-aligned closed boxes.  Empty is the default-constructed box, which contains and meets
      nothing. */
  datatype Box = Empty | Box(lo: Point, hi: Point)

  predicate Sized(b: Box, dims: nat) {
    b.Box? && |b.lo| == dims && |b.hi| == dims && forall d :: 0 <= d < dims ==> b.lo[d] <= b.hi[d]
  }

  predicate Contains(b: Box, p: Point) {
    b.Box? && |b.lo| == |p| == |b.hi| && forall d :: 0 <= d < |p| ==> b.lo[d] <= p[d] <= b.hi[d]
  }

  predicate Intersects(a: Box, b: Box) {
    && a.Box? && b.Box? && |a.lo| == |a.hi| == |b.lo| == |b.hi|
    && forall d :: 0 <= d < |a.lo| ==> a.lo[d] <= b.hi[d] && b.lo[d] <= a.hi[d]
  }

  function CutLeft(b: Box, ax: nat, cut: real): Box
    requires b.Box? && ax < |b.hi|
  {
    Box(b.lo, b.hi[ax := cut])
  }

  function CutRight(b: Box, ax: nat, cut: real): Box
    requires b.Box? && ax < |b.lo|
  {
    Box(b.lo[ax := cut], b.hi)
  }

  function Inflate(b: Box, len: real): Box {
    if b.Empty? then Empty
    else Box(seq(|b.lo|, d requires 0 <= d < |b.lo| => b.lo[d] - len),
             seq(|b.hi|, d requires 0 <= d < |b.hi| => b.hi[d] + len))
  }

  function CountIf(pts: seq<Point>, f: Point -> bool): nat {
    if pts == [] then 0
    else CountIf(pts[..|pts| - 1], f) + if f(pts[|pts| - 1]) then 1 else 0
  }

  function CountIn(pts: seq<Point>, b: Box): nat {
    CountIf(pts, p => Contains(b, p))
  }

  /** All coordinates of all meshes, in order. */
  function Flat(coords: seq<seq<Point>>): seq<Point> {
    if coords == [] then [] else Flat(coords[..|coords| - 1]) + coords[|coords| - 1]
  }

  lemma {:induction false} CountMonotone(pts: seq<Point>, f: Point -> bool, g: Point -> bool)
    requires forall p :: p in pts && f(p) ==> g(p)
    ensures CountIf(pts, f) <= CountIf(pts, g)
    ensures CountIf(pts, f) == CountIf(pts, g) <==> forall p :: p in pts && g(p) ==> f(p)
  {
    if pts != [] {
      var (rest, last) := (pts[..|pts| - 1], pts[|pts| - 1]);
      CountMonotone(rest, f, g);
      assert forall p :: p in pts <==> p in rest || p == last;
    }
  }

  /** A cut splits the entities of a box: counting left first and then right misses none and counts
      none twice. */
  lemma {:induction false} CutPartitions(pts: seq<Point>, b: Box, ax: nat, cut: real)
    requires b.Box? && ax < |b.lo| == |b.hi| && b.lo[ax] <= cut <= b.hi[ax]
    ensures CountIn(pts, CutLeft(b, ax, cut)) +
            CountIf(pts, p => !Contains(CutLeft(b, ax, cut), p) && Contains(CutRight(b, ax, cut), p))
         == CountIn(pts, b)
  {
    if pts != [] {
      CutPartitions(pts[..|pts| - 1], b, ax, cut);
      CutCovers(b, ax, cut, pts[|pts| - 1]);
    }
  }

  lemma CutCovers(b: Box, ax: nat, cut: real, p: Point)
    requires b.Box? && ax < |b.lo| == |b.hi| && b.lo[ax] <= cut <= b.hi[ax]
    ensures Contains(b, p) <==> Contains(CutLeft(b, ax, cut), p) || Contains(CutRight(b, ax, cut), p)
  {
    if Contains(CutLeft(b, ax, cut), p) {
      forall d | 0 <= d < |p| ensures b.lo[d] <= p[d] <= b.hi[d] {
        assert CutLeft(b, ax, cut).hi[d] <= b.hi[d];
      }
    }
    if Contains(CutRight(b, ax, cut), p) {
      forall d | 0 <= d < |p| ensures b.lo[d] <= p[d] <= b.hi[d] {
        assert CutRight(b, ax, cut).lo[d] >= b.lo[d];
      }
    }
  }

  /** The halves of a cut box, by the coordinate on the cut axis. */
  lemma HalvesByCoordinate(b: Box, ax: nat, cut: real, p: Point)
    requires b.Box? && ax < |b.lo| == |b.hi| && b.lo[ax] <= cut <= b.hi[ax]
    ensures Contains(CutLeft(b, ax, cut), p) <==> Contains(b, p) && p[ax] <= cut
    ensures Contains(CutRight(b, ax, cut), p) <==> Contains(b, p) && cut <= p[ax]
  {
    var (l, r) := (CutLeft(b, ax, cut), CutRight(b, ax, cut));
    assert forall d :: 0 <= d < |b.lo| ==> l.hi[d] == (if d == ax then cut else b.hi[d]);
    assert forall d :: 0 <= d < |b.lo| ==> r.lo[d] == (if d == ax then cut else b.lo[d]);
    CutCovers(b, ax, cut, p);
    if |p| == |b.lo| {
      assert Contains(l, p) ==> p[ax] <= l.hi[ax];
      assert Contains(r, p) ==> r.lo[ax] <= p[ax];
    }
  }

  /** Raising the cut never loses an entity on the left. */
  lemma LeftCountMonotone(pts: seq<Point>, b: Box, ax: nat, c1: real, c2: real)
    requires b.Box? && ax < |b.lo| == |b.hi| && c1 <= c2
    ensures CountIn(pts, CutLeft(b, ax, c1)) <= CountIn(pts, CutLeft(b, ax, c2))
  {
    var f := p => Contains(CutLeft(b, ax, c1), p);
    var g := p => Contains(CutLeft(b, ax, c2), p);
    forall p | p in pts && f(p) ensures g(p) {
      forall d | 0 <= d < |p| ensures p[d] <= CutLeft(b, ax, c2).hi[d] {
        assert p[d] <= CutLeft(b, ax, c1).hi[d];
      }
    }
    CountMonotone(pts, f, g);
  }

  lemma {:induction false} CountConcat(a: seq<Point>, b: seq<Point>, f: Point -> bool)
    ensures CountIf(a + b, f) == CountIf(a, f) + CountIf(b, f)
  {
    if b == [] {
      assert a + b == a;
    } else {
      CountConcat(a, b[..|b| - 1], f);
      assert (a + b)[..|a + b| - 1] == a + b[..|b| - 1];
    }
  }

  /** The positions, mesh and index, of the coordinates with a property. */
  ghost function Where(coords: seq<seq<Point>>, f: Point -> bool): set<(nat, nat)> {
    set m: nat, i: nat | m < |coords| && i < |coords[m]| && f(coords[m][i]) :: (m, i)
  }

  ghost function WhereInRow(pts: seq<Point>, f: Point -> bool, m: nat): set<(nat, nat)> {
    set i: nat | i < |pts| && f(pts[i]) :: (m, i)
  }

  lemma RowSnoc(pts: seq<Point>, f: Point -> bool, m: nat)
    requires pts != []
    ensures var n := |pts| - 1;
      && (m, n) !in WhereInRow(pts[..n], f, m)
      && WhereInRow(pts, f, m) == WhereInRow(pts[..n], f, m) + if f(pts[n]) then {(m, n)} else {}
  {
    assert forall i :: 0 <= i < |pts| - 1 ==> pts[..|pts| - 1][i] == pts[i];
  }

  lemma {:induction false} CountRow(pts: seq<Point>, f: Point -> bool, m: nat)
    ensures CountIf(pts, f) == |WhereInRow(pts, f, m)|
  {
    if pts == [] {
      assert WhereInRow(pts, f, m) == {};
    } else {
      CountRow(pts[..|pts| - 1], f, m);
      RowSnoc(pts, f, m);
    }
  }

  lemma WhereSnoc(coords: seq<seq<Point>>, f: Point -> bool)
    requires coords != []
    ensures var n := |coords| - 1;
      && Where(coords[..n], f) !! WhereInRow(coords[n], f, n)
      && Where(coords, f) == Where(coords[..n], f) + WhereInRow(coords[n], f, n)
  {
    assert forall m :: 0 <= m < |coords| - 1 ==> coords[..|coords| - 1][m] == coords[m];
  }

  /** Counting over all meshes is cardinality. */
  lemma {:induction false} CountIsCardinality(coords: seq<seq<Point>>, f: Point -> bool)
    ensures CountIf(Flat(coords), f) == |Where(coords, f)|
  {
    hide CountIf;
    hide WhereInRow;
    if coords == [] {
      assert Where(coords, f) == {};
      NoneInEmpty(f);
    } else {
      var (init, n) := (coords[..|coords| - 1], |coords| - 1);
      CountIsCardinality(init, f);
      CountConcat(Flat(init), coords[n], f);
      CountRow(coords[n], f, n);
      WhereSnoc(coords, f);
    }
  }

  lemma NoneInEmpty(f: Point -> bool)
    ensures CountIf([], f) == 0
  {
  }

  /** CountEntities.  The sum over ranks of the source is the outer loop here: coords lists the
      coordinates of every mesh of every rank. */
  method CountEntities(left: Box, right: Box, coords: seq<seq<Point>>) returns (nLeft: nat, nRight: nat)
    ensures nLeft == CountIn(Flat(coords), left)
    ensures nRight == CountIf(Flat(coords), p => !Contains(left, p) && Contains(right, p))
  {
    nLeft, nRight := 0, 0;
    ghost var inLeft := p => Contains(left, p);
    ghost var inRight := p => !Contains(left, p) && Contains(right, p);
    for m := 0 to |coords|
      invariant nLeft == CountIf(Flat(coords[..m]), inLeft)
      invariant nRight == CountIf(Flat(coords[..m]), inRight)
    {
      for i := 0 to |coords[m]|
        invariant nLeft == CountIf(Flat(coords[..m]), inLeft) + CountIf(coords[m][..i], inLeft)
        invariant nRight == CountIf(Flat(coords[..m]), inRight) + CountIf(coords[m][..i], inRight)
      {
        assert coords[m][..i + 1][..i] == coords[m][..i];
        if Contains(left, coords[m][i]) {
          nLeft := nLeft + 1;
        } else if Contains(right, coords[m][i]) {
          nRight := nRight + 1;
        }
      }
      assert coords[..m + 1][..m] == coords[..m] && coords[m][..|coords[m]|] == coords[m];
      CountConcat(Flat(coords[..m]), coords[m], inLeft);
      CountConcat(Flat(coords[..m]), coords[m], inRight);
    }
    assert coords[..|coords|] == coords;
  }
}

/** The `while (true)` loop of BuildProblemTree that moves a cut along one axis. */
module CutSearch {
  import opened Boxes

  /** What the loop is given.  weighted and middle are the two interpolations of the source, rounded to
      the coordinate grid. */
  datatype CutProblem = CutProblem(
    coords: seq<seq<Point>>, box: Box, ax: nat, leftProp: real, maxOutOfBalance: real,
    weighted: (real, real, real) -> real, middle: (real, real) -> real)

  /** Rounding on a finite grid of coordinates: interpolating between two grid values gives a grid
      value between them. */
  ghost predicate Rounds(grid: set<real>, weighted: (real, real, real) -> real, middle: (real, real) -> real) {
    && (forall lo, hi, w {:trigger weighted(lo, hi, w)} :: lo in grid && hi in grid && lo <= hi && 0.0 <= w <= 1.0
          ==> weighted(lo, hi, w) in grid && lo <= weighted(lo, hi, w) <= hi)
    && (forall lo, hi {:trigger middle(lo, hi)} :: lo in grid && hi in grid && lo <= hi
          ==> middle(lo, hi) in grid && lo <= middle(lo, hi) <= hi)
  }

  ghost predicate PosedOn(p: CutProblem, grid: set<real>) {
    && Rounds(grid, p.weighted, p.middle)
    && p.box.Box? && p.ax < |p.box.lo| == |p.box.hi|
    && p.box.lo[p.ax] <= p.box.hi[p.ax]
    && p.box.lo[p.ax] in grid && p.box.hi[p.ax] in grid
    && 0.0 <= p.leftProp <= 1.0
  }

  /** Whether nLeft of total entities is close enough to the desired proportion: off by no more than the given
      tolerance, or by no more than two entities.  A node without entities is accepted: the source compares
      with 0/0 there, and both comparisons are false. */
  predicate Balanced(nLeft: nat, total: nat, leftProp: real, maxOutOfBalance: real) {
    total == 0 ||
    var share := nLeft as real / total as real;
    || leftProp - maxOutOfBalance <= share <= leftProp + maxOutOfBalance
    || leftProp - 2.0 / total as real <= share <= leftProp + 2.0 / total as real
  }

  function LeftCount(p: CutProblem, cut: real): nat
    requires p.box.Box? && p.ax < |p.box.hi|
  {
    CountIn(Flat(p.coords), CutLeft(p.box, p.ax, cut))
  }

  function Total(p: CutProblem): nat { CountIn(Flat(p.coords), p.box) }

  function LeftProp(p: CutProblem, cut: real): real
    requires p.box.Box? && p.ax < |p.box.hi|
  {
    if Total(p) == 0 then 0.0 else LeftCount(p, cut) as real / Total(p) as real
  }

  /** The loop's variables, or how it ended. */
  datatype Search =
    | Searching(lo: real, hi: real, cut: real, prev: real, same: int)
    | Accepted(cut: real)
    | GivenUp(cut: real)

  function Begin(p: CutProblem): Search
    requires p.box.Box? && p.ax < |p.box.lo| == |p.box.hi|
  {
    var (lo, hi) := (p.box.lo[p.ax], p.box.hi[p.ax]);
    Searching(lo, hi, p.weighted(lo, hi, p.leftProp), 0.0, 0)
  }

  /** One pass through the loop body. */
  function Advance(p: CutProblem, nTry: int, s: Search): Search
    requires p.box.Box? && p.ax < |p.box.hi|
  {
    if !s.Searching? then s
    else if Balanced(LeftCount(p, s.cut), Total(p), p.leftProp, p.maxOutOfBalance) then Accepted(s.cut)
    else
      var (lo, hi) := if LeftProp(p, s.cut) < p.leftProp then (s.cut, s.hi) else (s.lo, s.cut);
      var same := if s.prev == LeftProp(p, s.cut) then s.same + 1 else s.same;
      if same == nTry then GivenUp(s.cut) else Searching(lo, hi, p.middle(lo, hi), LeftProp(p, s.cut), same)
  }

  function After(p: CutProblem, nTry: int, k: nat): Search
    requires p.box.Box? && p.ax < |p.box.lo| == |p.box.hi|
  {
    if k == 0 then Begin(p) else Advance(p, nTry, After(p, nTry, k - 1))
  }

  ghost predicate Halts(p: CutProblem, nTry: int)
    requires p.box.Box? && p.ax < |p.box.lo| == |p.box.hi|
  {
    exists k: nat :: !After(p, nTry, k).Searching?
  }

  ghost predicate InGrid(p: CutProblem, grid: set<real>, s: Search)
    requires p.box.Box? && p.ax < |p.box.lo| == |p.box.hi|
  {
    && s.Searching?
    && p.box.lo[p.ax] <= s.lo <= s.cut <= s.hi <= p.box.hi[p.ax]
    && s.lo in grid && s.cut in grid && s.hi in grid
  }

  ghost function Between(grid: set<real>, lo: real, hi: real): set<real> {
    set g | g in grid && lo <= g <= hi
  }

  /** The lexicographic measure of the loop: grid values left in the interval, whether the cut is still
      the weighted one, repeats left, and whether the next count differs from the last. */
  ghost predicate Decreases(p: CutProblem, nTry: int, grid: set<real>, s: Search, t: Search)
    requires p.box.Box? && p.ax < |p.box.hi| && s.Searching? && t.Searching?
  {
    var (a, b) := (Between(grid, s.lo, s.hi), Between(grid, t.lo, t.hi));
    var (a1, b1) := (s.cut != p.middle(s.lo, s.hi), t.cut != p.middle(t.lo, t.hi));
    var (a3, b3) := (LeftProp(p, s.cut) != s.prev, LeftProp(p, t.cut) != t.prev);
    || |b| < |a|
    || (|b| == |a| && !b1 && a1)
    || (|b| == |a| && b1 == a1 && t.same > s.same)
    || (|b| == |a| && b1 == a1 && t.same == s.same && !b3 && a3)
  }

  lemma Shrinks(grid: set<real>, lo: real, hi: real, lo': real, hi': real)
    requires lo in grid && hi in grid && lo <= lo' <= hi' <= hi
    ensures |Between(grid, lo', hi')| <= |Between(grid, lo, hi)|
    ensures |Between(grid, lo', hi')| == |Between(grid, lo, hi)| ==> lo == lo' && hi == hi'
  {
    var (a, b) := (Between(grid, lo, hi), Between(grid, lo', hi'));
    Subset(b, a);
    if lo < lo' { Subset(b, a - {lo}); }
    if hi' < hi { Subset(b, a - {hi}); }
  }

  lemma {:induction false} Subset<T>(a: set<T>, b: set<T>)
    requires a <= b
    ensures |a| <= |b|
  {
    assert |b| == |a| + |b - a| by { assert b == a + (b - a); }
  }

  /** Every pass that does not leave the loop decreases the measure: once the interval stops shrinking
      the same cut, and so the same count, recurs. */
  lemma PassDecreases(p: CutProblem, nTry: int, grid: set<real>, s: Search)
    requires PosedOn(p, grid) && InGrid(p, grid, s) && Advance(p, nTry, s).Searching?
    ensures InGrid(p, grid, Advance(p, nTry, s))
    ensures Decreases(p, nTry, grid, s, Advance(p, nTry, s))
    ensures Advance(p, nTry, s).same <= s.same + 1 && Advance(p, nTry, s).same != nTry
  {
    var t := Advance(p, nTry, s);
    Shrinks(grid, s.lo, s.hi, t.lo, t.hi);
  }

  lemma {:induction false} HaltsFrom(p: CutProblem, nTry: int, grid: set<real>, k: nat, s: Search)
    requires PosedOn(p, grid) && s == After(p, nTry, k)
    requires InGrid(p, grid, s) && s.same < nTry
    ensures Halts(p, nTry)
    decreases |Between(grid, s.lo, s.hi)|, s.cut != p.middle(s.lo, s.hi), nTry - s.same, LeftProp(p, s.cut) != s.prev
  {
    assert After(p, nTry, k + 1) == Advance(p, nTry, s);
    if Advance(p, nTry, s).Searching? {
      PassDecreases(p, nTry, grid, s);
      HaltsFrom(p, nTry, grid, k + 1, Advance(p, nTry, s));
    }
  }

  ghost predicate WellPosed(p: CutProblem) {
    exists grid: set<real> :: PosedOn(p, grid)
  }

  lemma {:induction false} CountCopies(pts: seq<Point>, x: Point, f: Point -> bool)
    requires forall i :: 0 <= i < |pts| ==> pts[i] == x
    ensures CountIf(pts, f) == if f(x) then |pts| else 0
  {
    if pts != [] {
      CountCopies(pts[..|pts| - 1], x, f);
    }
  }

  /** A search that would repeat the same pass: the cut is bad, its count is the one of the pass before, and
      neither the interval nor the cut can move. */
  ghost predicate Stuck(p: CutProblem, s: Search)
    requires p.box.Box? && p.ax < |p.box.hi|
  {
    && s.Searching? && s.prev == LeftProp(p, s.cut)
    && !Balanced(LeftCount(p, s.cut), Total(p), p.leftProp, p.maxOutOfBalance)
    && s.cut == (if LeftProp(p, s.cut) < p.leftProp then s.lo else s.hi)
    && p.middle(s.lo, s.hi) == s.cut
  }

  /** A stuck search only counts its repeats, up to the limit. */
  lemma {:induction false} StuckCounts(p: CutProblem, nTry: int, k: nat, j: nat)
    requires p.box.Box? && p.ax < |p.box.lo| == |p.box.hi| && Stuck(p, After(p, nTry, k))
    requires nTry <= After(p, nTry, k).same || After(p, nTry, k).same + j < nTry
    ensures var s := After(p, nTry, k);
            After(p, nTry, k + j) == Searching(s.lo, s.hi, s.cut, s.prev, s.same + j)
  {
    if j > 0 {
      StuckCounts(p, nTry, k, j - 1);
      assert After(p, nTry, k + j) == Advance(p, nTry, After(p, nTry, k + (j - 1)));
    }
  }

  /** Once stuck, a search ends exactly if it is below the limit, and then it gives up on its cut. */
  lemma StuckEndsIff(p: CutProblem, nTry: int, k: nat)
    requires p.box.Box? && p.ax < |p.box.lo| == |p.box.hi| && Stuck(p, After(p, nTry, k))
    ensures Halts(p, nTry) <==> After(p, nTry, k).same < nTry
    ensures After(p, nTry, k).same < nTry
            ==> After(p, nTry, k + (nTry - After(p, nTry, k).same)) == GivenUp(After(p, nTry, k).cut)
  {
    var s := After(p, nTry, k);
    if s.same < nTry {
      var j := nTry - s.same - 1;
      StuckCounts(p, nTry, k, j);
      assert After(p, nTry, k + j + 1) == Advance(p, nTry, After(p, nTry, k + j)) == GivenUp(s.cut);
    } else if Halts(p, nTry) {
      var e: nat :| !After(p, nTry, e).Searching?;
      if e <= k {
        StaysEnded(p, nTry, e, k);
      } else {
        StuckCounts(p, nTry, k, e - k);
      }
      assert false;
    }
  }

  /** A search that has ended stays as it is. */
  lemma {:induction false} StaysEnded(p: CutProblem, nTry: int, j: nat, k: nat)
    requires p.box.Box? && p.ax < |p.box.lo| == |p.box.hi| && j <= k && !After(p, nTry, j).Searching?
    ensures After(p, nTry, k) == After(p, nTry, j)
    decreases k
  {
    if j < k { StaysEnded(p, nTry, j, k - 1); }
  }

  // ----- a search without end

  /** Rounding down to the grid {-2, 0, 1, 2}. */
  function RoundDown(x: real): real {
    if x >= 2.0 then 2.0 else if x >= 1.0 then 1.0 else if x >= 0.0 then 0.0 else -2.0
  }

  const SMALL_GRID: set<real> := {-2.0, 0.0, 1.0, 2.0}

  function Weighted(): (real, real, real) -> real {
    (lo: real, hi: real, w: real) => RoundDown(lo * (1.0 - w) + hi * w)
  }

  function Middle(): (real, real) -> real {
    (lo: real, hi: real) => RoundDown(0.5 * lo + 0.5 * hi)
  }

  lemma Interpolated(lo: real, hi: real, w: real)
    requires lo <= hi && 0.0 <= w <= 1.0
    ensures lo <= lo * (1.0 - w) + hi * w <= hi
  {
    var d := hi - lo;
    assert d * w >= 0.0 && d * (1.0 - w) >= 0.0;
    assert lo * (1.0 - w) + hi * w == lo + d * w == hi - d * (1.0 - w);
  }

  lemma RoundsBetween(lo: real, hi: real, x: real)
    requires lo in SMALL_GRID && hi in SMALL_GRID && lo <= x <= hi
    ensures RoundDown(x) in SMALL_GRID && lo <= RoundDown(x) <= hi
  {
  }

  lemma RoundsDown()
    ensures Rounds(SMALL_GRID, Weighted(), Middle())
  {
    forall lo, hi, w: real | lo in SMALL_GRID && hi in SMALL_GRID && lo <= hi && 0.0 <= w <= 1.0
      ensures Weighted()(lo, hi, w) in SMALL_GRID && lo <= Weighted()(lo, hi, w) <= hi
    {
      Interpolated(lo, hi, w);
      RoundsBetween(lo, hi, lo * (1.0 - w) + hi * w);
    }
    forall lo, hi: real | lo in SMALL_GRID && hi in SMALL_GRID && lo <= hi
      ensures Middle()(lo, hi) in SMALL_GRID && lo <= Middle()(lo, hi) <= hi
    {
      RoundsBetween(lo, hi, 0.5 * lo + 0.5 * hi);
    }
  }

  lemma RoundedTo(lo: real, hi: real, mid: real)
    requires RoundDown(0.5 * (lo + hi)) == mid
    ensures Weighted()(lo, hi, 0.5) == mid && Middle()(lo, hi) == mid
  {
    assert lo * (1.0 - 0.5) + hi * 0.5 == 0.5 * (lo + hi) == 0.5 * lo + 0.5 * hi;
  }

  /** Five entities at x = 0 and five at x = 2. */
  function TwoHeaps(): seq<seq<Point>> {
    [seq(5, _ => [0.0, 0.0]), seq(5, _ => [2.0, 0.0])]
  }

  /** Counting on the two heaps. */
  lemma HeapCounts(f: Point -> bool)
    ensures CountIf(Flat(TwoHeaps()), f) == (if f([0.0, 0.0]) then 5 else 0) + (if f([2.0, 0.0]) then 5 else 0)
  {
    var (a, b) := (TwoHeaps()[0], TwoHeaps()[1]);
    assert Flat(TwoHeaps()) == a + b by {
      assert TwoHeaps()[..1] == [a] && TwoHeaps()[..1][..0] == [];
    }
    CountConcat(a, b, f);
    CountCopies(a, [0.0, 0.0], f);
    CountCopies(b, [2.0, 0.0], f);
  }

  /** The cut of the right-hand half of the two heaps: the whole population sits on the high face of a box
      whose ends are neighbours on the grid. */
  function EndlessProblem(): CutProblem {
    CutProblem(TwoHeaps(), Box([1.0, 0.0], [2.0, 0.0]), 0, 0.5, 0.1, Weighted(), Middle())
  }

  lemma EndlessCounts()
    ensures Total(EndlessProblem()) == 5 && LeftCount(EndlessProblem(), 1.0) == 0
  {
    var p := EndlessProblem();
    var f := q => Contains(p.box, q);
    var g := q => Contains(CutLeft(p.box, 0, 1.0), q);
    HeapCounts(f);
    HeapCounts(g);
    var x: Point, y: Point := [0.0, 0.0], [2.0, 0.0];
    assert f(y) && !f(x) by { assert x[0] == 0.0 && p.box.lo[0] == 1.0; }
    assert !g(x) && !g(y) by { assert x[0] == 0.0 && y[0] == 2.0 && CutLeft(p.box, 0, 1.0).hi[0] == 1.0; }
  }

  lemma EndlessStuck(nTry: int)
    ensures After(EndlessProblem(), nTry, 0) == Searching(1.0, 2.0, 1.0, 0.0, 0)
    ensures Stuck(EndlessProblem(), After(EndlessProblem(), nTry, 0))
  {
    EndlessCounts();
    RoundedTo(1.0, 2.0, 1.0);
  }

  /** For n_try_new_axis <= 0 the search on this input is still running after any number of passes: every cut
      finds nothing on the left, the interval cannot shrink, and the repeat count only grows away from the
      limit. */
  lemma EndlessSearch(nTry: int, k: nat)
    requires nTry <= 0
    ensures After(EndlessProblem(), nTry, k) == Searching(1.0, 2.0, 1.0, 0.0, k)
  {
    EndlessStuck(nTry);
    StuckCounts(EndlessProblem(), nTry, 0, k);
  }

  lemma HaltsWhenPositive(p: CutProblem, nTry: int, grid: set<real>)
    requires PosedOn(p, grid) && nTry >= 1
    ensures Halts(p, nTry)
  {
    HaltsFrom(p, nTry, grid, 0, Begin(p));
  }

  /** The cut search ends on every well-posed input exactly when n_try_new_axis is at least one. */
  lemma CutSearchEndsIff(nTry: int)
    ensures nTry >= 1 <==> forall p: CutProblem :: WellPosed(p) ==> Halts(p, nTry)
  {
    if nTry >= 1 {
      forall p: CutProblem | WellPosed(p) ensures Halts(p, nTry) {
        var grid: set<real> :| PosedOn(p, grid);
        HaltsWhenPositive(p, nTry, grid);
      }
    } else {
      var p := EndlessProblem();
      RoundsDown();
      assert PosedOn(p, SMALL_GRID);
      if Halts(p, nTry) {
        var k: nat :| !After(p, nTry, k).Searching?;
        EndlessSearch(nTry, k);
      }
    }
  }

  // ----- the cuts that a search tries

  /** Fewer entities on the left of the cut than desired, by more than either tolerance. */
  ghost predicate TooFew(p: CutProblem, cut: real)
    requires p.box.Box? && p.ax < |p.box.hi|
  {
    Total(p) > 0 &&
    var share := LeftCount(p, cut) as real / Total(p) as real;
    share < p.leftProp - p.maxOutOfBalance && share < p.leftProp - 2.0 / Total(p) as real
  }

  ghost predicate TooMany(p: CutProblem, cut: real)
    requires p.box.Box? && p.ax < |p.box.hi|
  {
    Total(p) > 0 &&
    var share := LeftCount(p, cut) as real / Total(p) as real;
    share > p.leftProp + p.maxOutOfBalance && share > p.leftProp + 2.0 / Total(p) as real
  }

  /** The comparison with the tolerance: accepted is what is neither. */
  lemma Judged(p: CutProblem, cut: real)
    requires p.box.Box? && p.ax < |p.box.hi|
    ensures Balanced(LeftCount(p, cut), Total(p), p.leftProp, p.maxOutOfBalance) <==> !TooFew(p, cut) && !TooMany(p, cut)
    ensures TooFew(p, cut) ==> LeftProp(p, cut) < p.leftProp
    ensures TooMany(p, cut) ==> LeftProp(p, cut) > p.leftProp
  {
    if Total(p) > 0 { assert 2.0 / Total(p) as real > 0.0; }
  }

  /** The greatest tried cut with too few entities on its left, or the low end of the box. */
  ghost predicate LowEnd(p: CutProblem, tried: seq<real>, lo: real)
    requires p.box.Box? && p.ax < |p.box.lo| == |p.box.hi|
  {
    && p.box.lo[p.ax] <= lo && (lo == p.box.lo[p.ax] || (lo in tried && TooFew(p, lo)))
    && forall cut :: cut in tried && TooFew(p, cut) ==> cut <= lo
  }

  /** The least tried cut with too many entities on its left, or the high end of the box. */
  ghost predicate HighEnd(p: CutProblem, tried: seq<real>, hi: real)
    requires p.box.Box? && p.ax < |p.box.lo| == |p.box.hi|
  {
    && hi <= p.box.hi[p.ax] && (hi == p.box.hi[p.ax] || (hi in tried && TooMany(p, hi)))
    && forall cut :: cut in tried && TooMany(p, cut) ==> hi <= cut
  }

  /** What is tried after the cuts in `before`: first the weighted cut of the box, and then the middle of the
      interval that the earlier cuts leave. */
  ghost predicate NextCut(p: CutProblem, before: seq<real>, cut: real)
    requires p.box.Box? && p.ax < |p.box.lo| == |p.box.hi|
  {
    if before == [] then cut == p.weighted(p.box.lo[p.ax], p.box.hi[p.ax], p.leftProp)
    else exists lo, hi :: LowEnd(p, before, lo) && HighEnd(p, before, hi) && cut == p.middle(lo, hi)
  }

  ghost predicate Bisects(p: CutProblem, tried: seq<real>)
    requires p.box.Box? && p.ax < |p.box.lo| == |p.box.hi|
  {
    forall k :: 0 <= k < |tried| ==> NextCut(p, tried[..k], tried[k])
  }

  /** The tried cuts with the same proportion as the cut before; the first one is compared with zero. */
  ghost function Repeats(p: CutProblem, tried: seq<real>): set<nat>
    requires p.box.Box? && p.ax < |p.box.hi|
  {
    set k: nat | k < |tried| && IsRepeat(p, tried, k)
  }

  ghost predicate IsRepeat(p: CutProblem, tried: seq<real>, k: nat)
    requires p.box.Box? && p.ax < |p.box.hi| && k < |tried|
  {
    LeftProp(p, tried[k]) == if k == 0 then 0.0 else LeftProp(p, tried[k - 1])
  }

  /** Cuts that were all rejected without reaching the limit of repeats. */
  ghost predicate AllRejected(p: CutProblem, nTry: int, tried: seq<real>)
    requires p.box.Box? && p.ax < |p.box.hi|
  {
    && (forall cut :: cut in tried ==> TooFew(p, cut) || TooMany(p, cut))
    && forall k :: 1 <= k <= |tried| ==> |Repeats(p, tried[..k])| != nTry
  }

  /** A whole search by the cuts it tries: each is the next cut of a bisection, all but the last are rejected,
      and the last is accepted, or rejected with the limit of repeats reached. */
  ghost predicate Completes(p: CutProblem, nTry: int, tried: seq<real>, ok: bool)
    requires p.box.Box? && p.ax < |p.box.lo| == |p.box.hi|
  {
    && tried != [] && Bisects(p, tried) && AllRejected(p, nTry, tried[..|tried| - 1])
    && var cut := tried[|tried| - 1];
       if ok then !TooFew(p, cut) && !TooMany(p, cut)
       else (TooFew(p, cut) || TooMany(p, cut)) && |Repeats(p, tried)| == nTry
  }

  /** The loop's variables after the cuts in `tried`. */
  ghost predicate Traced(p: CutProblem, nTry: int, tried: seq<real>, s: Search)
    requires p.box.Box? && p.ax < |p.box.lo| == |p.box.hi|
  {
    && s.Searching? && Bisects(p, tried + [s.cut]) && AllRejected(p, nTry, tried)
    && LowEnd(p, tried, s.lo) && HighEnd(p, tried, s.hi) && s.same == |Repeats(p, tried)|
    && s.prev == if tried == [] then 0.0 else LeftProp(p, tried[|tried| - 1])
  }

  lemma RepeatSnoc(p: CutProblem, tried: seq<real>, cut: real, k: nat)
    requires p.box.Box? && p.ax < |p.box.hi| && k <= |tried|
    ensures k < |tried| ==> (IsRepeat(p, tried + [cut], k) <==> IsRepeat(p, tried, k))
    ensures IsRepeat(p, tried + [cut], |tried|)
       <==> LeftProp(p, cut) == if tried == [] then 0.0 else LeftProp(p, tried[|tried| - 1])
  {
    hide LeftProp;
    var all := tried + [cut];
    assert k < |tried| ==> all[k] == tried[k] && (k > 0 ==> all[k - 1] == tried[k - 1]);
  }

  lemma OneMore(n: nat, a: set<nat>, b: set<nat>, more: bool)
    requires n !in a && forall k: nat :: k in b <==> k in a || (k == n && more)
    ensures |b| == |a| + if more then 1 else 0
  {
    assert b == if more then a + {n} else a;
  }

  lemma RepeatsSnoc(p: CutProblem, tried: seq<real>, cut: real)
    requires p.box.Box? && p.ax < |p.box.hi|
    ensures |Repeats(p, tried + [cut])| == |Repeats(p, tried)|
         + if LeftProp(p, cut) == (if tried == [] then 0.0 else LeftProp(p, tried[|tried| - 1])) then 1 else 0
  {
    hide IsRepeat;
    hide LeftProp;
    var (all, n) := (tried + [cut], |tried|);
    RepeatSnoc(p, tried, cut, n);
    forall k: nat ensures k in Repeats(p, all) <==> k in Repeats(p, tried) || (k == n && IsRepeat(p, all, n)) {
      if k < n { RepeatSnoc(p, tried, cut, k); }
    }
    OneMore(n, Repeats(p, tried), Repeats(p, all), IsRepeat(p, all, n));
  }

  lemma BisectsSnoc(p: CutProblem, tried: seq<real>, cut: real)
    requires p.box.Box? && p.ax < |p.box.lo| == |p.box.hi| && Bisects(p, tried) && NextCut(p, tried, cut)
    ensures Bisects(p, tried + [cut])
  {
    var all := tried + [cut];
    forall k | 0 <= k < |all| ensures NextCut(p, all[..k], all[k]) {
      if k < |tried| { assert all[..k] == tried[..k]; } else { assert all[..k] == tried; }
    }
  }

  lemma RejectedSnoc(p: CutProblem, nTry: int, tried: seq<real>, cut: real)
    requires p.box.Box? && p.ax < |p.box.hi| && AllRejected(p, nTry, tried) && (TooFew(p, cut) || TooMany(p, cut))
    requires |Repeats(p, tried + [cut])| != nTry
    ensures AllRejected(p, nTry, tried + [cut])
  {
    var all := tried + [cut];
    forall k | 1 <= k <= |all| ensures |Repeats(p, all[..k])| != nTry {
      if k < |all| { assert all[..k] == tried[..k]; } else { assert all[..k] == all; }
    }
  }

  /** A rejected cut becomes the end of the interval on its side. */
  lemma EndsMove(p: CutProblem, tried: seq<real>, lo: real, hi: real, cut: real)
    requires p.box.Box? && p.ax < |p.box.lo| == |p.box.hi| && LowEnd(p, tried, lo) && HighEnd(p, tried, hi)
    requires lo <= cut <= hi && (TooFew(p, cut) || TooMany(p, cut))
    ensures LowEnd(p, tried + [cut], if TooFew(p, cut) then cut else lo)
    ensures HighEnd(p, tried + [cut], if TooFew(p, cut) then hi else cut)
  {
    Judged(p, cut);
    hide TooFew;
    hide TooMany;
  }

  /** One pass of the loop, seen from the cuts tried. */
  lemma TraceStep(p: CutProblem, nTry: int, grid: set<real>, tried: seq<real>, s: Search)
    requires PosedOn(p, grid) && InGrid(p, grid, s) && Traced(p, nTry, tried, s)
    ensures var (t, all) := (Advance(p, nTry, s), tried + [s.cut]);
      match t
      case Searching(_, _, _, _, _) => Traced(p, nTry, all, t)
      case Accepted(cut) => cut == s.cut && Completes(p, nTry, all, true)
      case GivenUp(cut) => cut == s.cut && Completes(p, nTry, all, false)
  {
    var (t, all) := (Advance(p, nTry, s), tried + [s.cut]);
    Judged(p, s.cut);
    hide TooFew;
    hide TooMany;
    hide Balanced;
    hide LeftProp;
    hide PosedOn;
    assert all[..|all| - 1] == tried;
    if !t.Accepted? {
      RepeatsSnoc(p, tried, s.cut);
      hide Repeats;
      if t.Searching? {
        EndsMove(p, tried, s.lo, s.hi, s.cut);
        RejectedSnoc(p, nTry, tried, s.cut);
        hide LowEnd;
        hide HighEnd;
        hide AllRejected;
        assert NextCut(p, all, t.cut);
        BisectsSnoc(p, all, t.cut);
      }
    }
  }

  lemma TraceBegins(p: CutProblem, nTry: int, grid: set<real>)
    requires PosedOn(p, grid)
    ensures p.box.Box? && p.ax < |p.box.lo| == |p.box.hi|
    ensures var (lo, hi) := (p.box.lo[p.ax], p.box.hi[p.ax]);
            Begin(p) == Searching(lo, hi, p.weighted(lo, hi, p.leftProp), 0.0, 0)
    ensures Reached(p, nTry, 0, Begin(p)) && InGrid(p, grid, Begin(p)) && Traced(p, nTry, [], Begin(p))
  {
    assert Repeats(p, []) == {};
    BisectsSnoc(p, [], Begin(p).cut);
  }

  /** Whatever state a search is in, its cuts so far are those of a bisection; and once it has ended they are a
      whole search. */
  lemma {:induction false} PassesBisect(p: CutProblem, nTry: int, grid: set<real>, k: nat) returns (tried: seq<real>)
    requires PosedOn(p, grid)
    ensures match After(p, nTry, k)
      case Searching(lo, hi, cut, prev, same) =>
        |tried| == k && InGrid(p, grid, After(p, nTry, k)) && Traced(p, nTry, tried, After(p, nTry, k))
      case Accepted(cut) => Completes(p, nTry, tried, true) && cut == tried[|tried| - 1]
      case GivenUp(cut) => Completes(p, nTry, tried, false) && cut == tried[|tried| - 1]
  {
    hide Traced;
    hide Completes;
    hide Rounds;
    hide Balanced;
    hide LeftProp;
    if k == 0 {
      tried := [];
      TraceBegins(p, nTry, grid);
    } else {
      tried := PassesBisect(p, nTry, grid, k - 1);
      var s := After(p, nTry, k - 1);
      if s.Searching? {
        TraceStep(p, nTry, grid, tried, s);
        if Advance(p, nTry, s).Searching? { PassDecreases(p, nTry, grid, s); }
        tried := tried + [s.cut];
      }
    }
  }

  lemma LessShare(a: nat, b: nat, n: nat)
    requires a <= b && n > 0
    ensures a as real / n as real <= b as real / n as real
  {
    assert b as real / n as real == a as real / n as real + (b - a) as real / n as real;
    assert (b - a) as real / n as real >= 0.0;
  }

  /** The bisection throws no good cut away: every cut of the box that would be accepted lies between the ends
      that the tried cuts leave. */
  lemma GoodCutsRemain(p: CutProblem, tried: seq<real>, lo: real, hi: real, cut: real)
    requires p.box.Box? && p.ax < |p.box.lo| == |p.box.hi| && LowEnd(p, tried, lo) && HighEnd(p, tried, hi)
    requires p.box.lo[p.ax] <= cut <= p.box.hi[p.ax] && !TooFew(p, cut) && !TooMany(p, cut)
    ensures lo <= cut <= hi
  {
    var pts := Flat(p.coords);
    if cut < lo {
      LeftCountMonotone(pts, p.box, p.ax, cut, lo);
      if Total(p) > 0 { LessShare(LeftCount(p, cut), LeftCount(p, lo), Total(p)); }
    }
    if hi < cut {
      LeftCountMonotone(pts, p.box, p.ax, hi, cut);
      if Total(p) > 0 { LessShare(LeftCount(p, hi), LeftCount(p, cut), Total(p)); }
    }
  }

  /** What is counted: the coordinates of all meshes that lie in the box, and among them those not above the
      cut. */
  lemma CountsEntities(p: CutProblem, cut: real)
    requires p.box.Box? && p.ax < |p.box.lo| == |p.box.hi|
    ensures Total(p) == |Where(p.coords, q => Inside(p, q))|
    ensures cut <= p.box.hi[p.ax] ==> LeftCount(p, cut) == |Where(p.coords, q => Inside(p, q) && q[p.ax] <= cut)|
  {
    var (all, left) := (q => Contains(p.box, q), q => Contains(CutLeft(p.box, p.ax, cut), q));
    CountIsCardinality(p.coords, all);
    CountIsCardinality(p.coords, left);
    assert Where(p.coords, q => Inside(p, q)) == Where(p.coords, all);
    if cut <= p.box.hi[p.ax] {
      forall q: Point ensures left(q) <==> Inside(p, q) && q[p.ax] <= cut { CutKeeps(p, cut, q); }
      assert Where(p.coords, q => Inside(p, q) && q[p.ax] <= cut) == Where(p.coords, left);
    }
  }

  ghost predicate Inside(p: CutProblem, q: Point)
    requires p.box.Box?
  {
    |p.box.lo| == |q| == |p.box.hi| && forall d :: 0 <= d < |q| ==> p.box.lo[d] <= q[d] <= p.box.hi[d]
  }

  lemma CutKeeps(p: CutProblem, cut: real, q: Point)
    requires p.box.Box? && p.ax < |p.box.lo| == |p.box.hi| && cut <= p.box.hi[p.ax]
    ensures Contains(CutLeft(p.box, p.ax, cut), q) <==> Inside(p, q) && q[p.ax] <= cut
  {
    var left := CutLeft(p.box, p.ax, cut);
    assert forall d :: 0 <= d < |left.hi| ==> left.hi[d] == if d == p.ax then cut else p.box.hi[d];
    if Contains(left, q) {
      assert left.lo[p.ax] <= q[p.ax] <= left.hi[p.ax];
    }
    if Inside(p, q) && q[p.ax] <= cut {
      forall d | 0 <= d < |q| ensures left.lo[d] <= q[d] <= left.hi[d] { }
    }
  }

  datatype Verdict = Keep | Raise | Lower

  function Max(a: real, b: real): real { if a < b then b else a }

  /** Counts the entities on both sides of a cut and compares with the tolerance. */
  method JudgeCut(p: CutProblem, cut: real) returns (v: Verdict, actual: real)
    requires p.box.Box? && p.ax < |p.box.lo| == |p.box.hi|
    requires p.box.lo[p.ax] <= cut <= p.box.hi[p.ax]
    ensures v == Raise <==> TooFew(p, cut)
    ensures v == Lower <==> TooMany(p, cut)
    ensures actual == LeftProp(p, cut)
  {
    var nLeft, nRight := CountEntities(CutLeft(p.box, p.ax, cut), CutRight(p.box, p.ax, cut), p.coords);
    CutPartitions(Flat(p.coords), p.box, p.ax, cut);
    if nLeft + nRight == 0 { return Keep, 0.0; }
    actual := nLeft as real / (nLeft + nRight) as real;
    var tol := Max(p.maxOutOfBalance, 2.0 / (nLeft + nRight) as real);
    assert 2.0 / (nLeft + nRight) as real > 0.0;
    v := if actual < p.leftProp - tol then Raise else if actual > p.leftProp + tol then Lower else Keep;
  }

  ghost predicate Reached(p: CutProblem, nTry: int, k: nat, s: Search)
    requires p.box.Box? && p.ax < |p.box.lo| == |p.box.hi|
  {
    After(p, nTry, k) == s
  }

  /** The search ends on this cut, accepting it or not. */
  ghost predicate EndsOn(p: CutProblem, nTry: int, ok: bool, cut: real)
    requires p.box.Box? && p.ax < |p.box.lo| == |p.box.hi|
  {
    exists k: nat :: After(p, nTry, k) == if ok then Accepted(cut) else GivenUp(cut)
  }

  lemma EndsHere(p: CutProblem, nTry: int, k: nat, ok: bool, cut: real)
    requires p.box.Box? && p.ax < |p.box.lo| == |p.box.hi|
    requires Reached(p, nTry, k, if ok then Accepted(cut) else GivenUp(cut))
    ensures EndsOn(p, nTry, ok, cut)
  {
  }

  lemma EndOf(p: CutProblem, nTry: int) returns (end: nat)
    requires p.box.Box? && p.ax < |p.box.lo| == |p.box.hi| && Halts(p, nTry)
    ensures !After(p, nTry, end).Searching?
  {
    end :| !After(p, nTry, end).Searching?;
  }

  /** What one more pass does to the loop's variables. */
  lemma PassState(p: CutProblem, nTry: int, grid: set<real>, end: nat, k: nat, tried: seq<real>, s: Search)
    requires PosedOn(p, grid) && InGrid(p, grid, s) && Traced(p, nTry, tried, s)
    requires Reached(p, nTry, k, s) && !After(p, nTry, end).Searching?
    ensures k < end && Reached(p, nTry, k + 1, Advance(p, nTry, s))
    ensures p.box.lo[p.ax] <= s.cut <= p.box.hi[p.ax] && s.cut in grid
    ensures !TooFew(p, s.cut) && !TooMany(p, s.cut) ==> Advance(p, nTry, s) == Accepted(s.cut)
    ensures TooFew(p, s.cut) || TooMany(p, s.cut)
      ==> var same := if s.prev == LeftProp(p, s.cut) then s.same + 1 else s.same;
          var (lo, hi) := if TooFew(p, s.cut) then (s.cut, s.hi) else (s.lo, s.cut);
          Advance(p, nTry, s) == if same == nTry then GivenUp(s.cut)
                                 else Searching(lo, hi, p.middle(lo, hi), LeftProp(p, s.cut), same)
    ensures var t := Advance(p, nTry, s);
      if t.Searching? then InGrid(p, grid, t) && Traced(p, nTry, tried + [s.cut], t)
      else Completes(p, nTry, tried + [s.cut], t.Accepted?)
  {
    if end <= k { StaysEnded(p, nTry, end, k); }
    Judged(p, s.cut);
    TraceStep(p, nTry, grid, tried, s);
    hide Rounds;
    hide Traced;
    hide Completes;
    hide TooFew;
    hide TooMany;
    hide Balanced;
    hide LeftProp;
    if Advance(p, nTry, s).Searching? { PassDecreases(p, nTry, grid, s); }
  }

  /** The loop itself, for every input on which it ends; `tried` are the cuts it tries. */
  method FindCut(p: CutProblem, nTry: int, ghost grid: set<real>) returns (ok: bool, cut: real, ghost tried: seq<real>)
    requires PosedOn(p, grid) && Halts(p, nTry)
    ensures p.box.lo[p.ax] <= cut <= p.box.hi[p.ax] && cut in grid
    ensures Completes(p, nTry, tried, ok) && cut == tried[|tried| - 1]
    ensures EndsOn(p, nTry, ok, cut)
    ensures ok <==> !TooFew(p, cut) && !TooMany(p, cut)
  {
    hide *;
    TraceBegins(p, nTry, grid);
    var lo, hi := p.box.lo[p.ax], p.box.hi[p.ax];
    cut, tried := p.weighted(lo, hi, p.leftProp), [];
    var prev, same := 0.0, 0;
    ghost var end := EndOf(p, nTry);
    ghost var k: nat, s := 0, Begin(p);
    while true
      invariant s == Searching(lo, hi, cut, prev, same) && InGrid(p, grid, s)
      invariant Reached(p, nTry, k, s) && Traced(p, nTry, tried, s)
      decreases end - k
    {
      PassState(p, nTry, grid, end, k, tried, s);
      var verdict, actual := JudgeCut(p, cut);
      tried := tried + [cut];
      match verdict {
        case Raise => lo := cut;
        case Lower => hi := cut;
        case Keep =>
          EndsHere(p, nTry, k + 1, true, cut);
          return true, cut, tried;
      }
      if prev == actual { same := same + 1; }
      if same == nTry {
        EndsHere(p, nTry, k + 1, false, cut);
        return false, cut, tried;
      }
      prev := actual;
      cut := p.middle(lo, hi);
      assert Advance(p, nTry, s) == Searching(lo, hi, cut, prev, same);
      k, s := k + 1, Advance(p, nTry, s);
    }
  }
}
