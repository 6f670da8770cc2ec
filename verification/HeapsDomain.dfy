/** One small domain on which three properties of src/redecomp/partition/RCB.cpp are sharp: five entities in
    each of two points, cut into four parts. */
module HeapsDomain {
  import opened BisecTree
  import opened Boxes
  import opened CutSearch
  import opened RCBTree
  import opened RCBPartition

  function Heaps(nTry: int, ghostLen: real): Config {
    Config(TwoHeaps(), 2, ghostLen, 0.1, nTry, Weighted(), Middle())
  }

  const ROOT_BOX: Box := Box([0.0, 0.0], [2.0, 0.0])
  const LEFT_BOX: Box := Box([0.0, 0.0], [1.0, 0.0])
  const RIGHT_BOX: Box := Box([1.0, 0.0], [2.0, 0.0])

  /** The tree that the build leaves: the root's cut at 1 is accepted, and each half is cut along the second
      axis, where all its entities lie on the cut. */
  function HeapsTree(ghostLen: real): seq<seq<RCBInfo>> {
    [[RCBInfo(ROOT_BOX, Empty, 1.0)],
     [RCBInfo(LEFT_BOX, Inflate(LEFT_BOX, ghostLen), 0.5), RCBInfo(RIGHT_BOX, Inflate(RIGHT_BOX, ghostLen), 0.5)],
     [RCBInfo(LEFT_BOX, Empty, 0.25), RCBInfo(LEFT_BOX, Empty, 0.25),
      RCBInfo(RIGHT_BOX, Empty, 0.25), RCBInfo(RIGHT_BOX, Empty, 0.25)]]
  }

  lemma FourParts()
    ensures NumLevels(4) == 3
    ensures LevelSize(4, 0) == 4 && LevelSize(4, 1) == 2 && LevelSize(4, 2) == 1
  {
  }

  lemma FourShares(k: nat)
    ensures Share(4, 0, k) == 0.25
    ensures k < 2 ==> Share(4, 1, k) == 0.5
    ensures Share(4, 2, 0) == 1.0
  {
    FourParts();
    RootShare(4);
  }

  /** What the two heaps contribute to a box. */
  lemma CountHeaps(b: Box)
    ensures CountIn(Flat(TwoHeaps()), b)
         == (if Contains(b, [0.0, 0.0]) then 5 else 0) + (if Contains(b, [2.0, 0.0]) then 5 else 0)
  {
    HeapCounts(p => Contains(b, p));
  }

  /** The first point of a box on the line from 0 to 2. */
  lemma OnLine(lo: real, hi: real, x: real)
    ensures Contains(Box([lo, 0.0], [hi, 0.0]), [x, 0.0]) <==> lo <= x <= hi
  {
    var b, p := Box([lo, 0.0], [hi, 0.0]), [x, 0.0];
    if lo <= x <= hi {
      assert forall d :: 0 <= d < |p| ==> b.lo[d] <= p[d] <= b.hi[d];
    } else {
      assert !(b.lo[0] <= p[0] <= b.hi[0]);
    }
  }

  lemma FlatBox(lo: real, hi: real)
    requires lo < hi
    ensures Sized(Box([lo, 0.0], [hi, 0.0]), 2)
    ensures Longer(Box([lo, 0.0], [hi, 0.0]), 0, 1) && !Longer(Box([lo, 0.0], [hi, 0.0]), 1, 0)
  {
    var box := Box([lo, 0.0], [hi, 0.0]);
    assert forall d :: 0 <= d < 2 ==> box.lo[d] <= box.hi[d];
    assert box.hi[0] - box.lo[0] == hi - lo && box.hi[1] - box.lo[1] == 0.0;
  }

  // ----- how the searches end

  ghost predicate EndsSo(c: Config, box: Box, ax: nat, s: Search) {
    box.Box? && ax < |box.lo| == |box.hi| && exists k: nat :: After(AxisProblem(c, box, 0.5, ax), c.nTryNewAxis, k) == s
  }

  /** The root's first cut is accepted, whatever the limit. */
  lemma RootAccepts(nTry: int, ghostLen: real)
    ensures EndsSo(Heaps(nTry, ghostLen), ROOT_BOX, 0, Accepted(1.0))
  {
    var p := AxisProblem(Heaps(nTry, ghostLen), ROOT_BOX, 0.5, 0);
    assert CutLeft(ROOT_BOX, 0, 1.0) == LEFT_BOX;
    HeapsIn(ROOT_BOX, 0.0, 2.0);
    HeapsIn(LEFT_BOX, 0.0, 1.0);
    RoundedTo(0.0, 2.0, 1.0);
    assert After(p, nTry, 1) == Advance(p, nTry, Begin(p)) == Accepted(1.0);
  }

  lemma HeapsIn(b: Box, lo: real, hi: real)
    requires b == Box([lo, 0.0], [hi, 0.0])
    ensures CountIn(Flat(TwoHeaps()), b) == (if lo <= 0.0 <= hi then 5 else 0) + (if lo <= 2.0 <= hi then 5 else 0)
  {
    CountHeaps(b);
    OnLine(lo, hi, 0.0);
    OnLine(lo, hi, 2.0);
  }

  /** A search whose cut stands on 0 and leaves all five entities on the left gives up there. */
  lemma AllOnTheLeft(c: Config, box: Box, ax: nat)
    requires c == Heaps(c.nTryNewAxis, c.ghostLen) && c.nTryNewAxis >= 0 && box in {LEFT_BOX, RIGHT_BOX} && ax < 2
    requires box.lo[ax] == 0.0 && box.hi[ax] <= 1.0
    requires CountIn(Flat(TwoHeaps()), box) == 5 && CountIn(Flat(TwoHeaps()), CutLeft(box, ax, 0.0)) == 5
    ensures EndsSo(c, box, ax, GivenUp(0.0))
  {
    var p := AxisProblem(c, box, 0.5, ax);
    var nTry := c.nTryNewAxis;
    RoundedTo(0.0, box.hi[ax], 0.0);
    RoundedTo(0.0, 0.0, 0.0);
    assert After(p, nTry, 1) == Advance(p, nTry, Begin(p));
    if nTry == 0 {
      assert After(p, nTry, 1) == GivenUp(0.0);
    } else {
      assert After(p, nTry, 1) == Searching(0.0, 0.0, 0.0, 1.0, 0);
      StuckEndsIff(p, nTry, 1);
    }
  }

  lemma LeftGivesUp(c: Config)
    requires c == Heaps(c.nTryNewAxis, c.ghostLen) && c.nTryNewAxis >= 0
    ensures EndsSo(c, LEFT_BOX, 0, GivenUp(0.0)) && EndsSo(c, LEFT_BOX, 1, GivenUp(0.0))
  {
    HeapsIn(LEFT_BOX, 0.0, 1.0);
    assert CutLeft(LEFT_BOX, 0, 0.0) == Box([0.0, 0.0], [0.0, 0.0]) && CutLeft(LEFT_BOX, 1, 0.0) == LEFT_BOX;
    HeapsIn(CutLeft(LEFT_BOX, 0, 0.0), 0.0, 0.0);
    AllOnTheLeft(c, LEFT_BOX, 0);
    AllOnTheLeft(c, LEFT_BOX, 1);
  }

  /** Neither half can be cut: with n_try_new_axis >= 1 both axes give up. */
  lemma HalvesGiveUp(nTry: int, ghostLen: real)
    requires nTry >= 1
    ensures EndsSo(Heaps(nTry, ghostLen), LEFT_BOX, 0, GivenUp(0.0))
    ensures EndsSo(Heaps(nTry, ghostLen), LEFT_BOX, 1, GivenUp(0.0))
    ensures EndsSo(Heaps(nTry, ghostLen), RIGHT_BOX, 0, GivenUp(1.0))
    ensures EndsSo(Heaps(nTry, ghostLen), RIGHT_BOX, 1, GivenUp(0.0))
  {
    var c := Heaps(nTry, ghostLen);
    LeftGivesUp(c);
    HeapsIn(RIGHT_BOX, 1.0, 2.0);
    assert CutLeft(RIGHT_BOX, 1, 0.0) == RIGHT_BOX;
    AllOnTheLeft(c, RIGHT_BOX, 1);
    EndlessStuck(nTry);
    StuckEndsIff(EndlessProblem(), nTry, 0);
    assert AxisProblem(c, RIGHT_BOX, 0.5, 0) == EndlessProblem();
  }

  /** The search without end is met: the root's first cut is accepted at 1, for n_try_new_axis = 0 both axes of
      the left half give up, and the first search of the right half is that of `EndlessSearch`. */
  lemma EndlessIsReached(nTry: int, ghostLen: real)
    requires nTry <= 0
    ensures EndsSo(Heaps(nTry, ghostLen), ROOT_BOX, 0, Accepted(1.0)) && CutRight(ROOT_BOX, 0, 1.0) == RIGHT_BOX
    ensures nTry == 0 ==> && EndsSo(Heaps(nTry, ghostLen), LEFT_BOX, 0, GivenUp(0.0))
                          && EndsSo(Heaps(nTry, ghostLen), LEFT_BOX, 1, GivenUp(0.0))
    ensures var c := Heaps(nTry, ghostLen);
      && Longer(ROOT_BOX, 0, 1) && Longer(RIGHT_BOX, 0, 1)
      && AxisProblem(c, RIGHT_BOX, 0.5, 0) == EndlessProblem() && !Halts(EndlessProblem(), nTry)
  {
    var c := Heaps(nTry, ghostLen);
    RootAccepts(nTry, ghostLen);
    FlatBox(0.0, 2.0);
    FlatBox(1.0, 2.0);
    EndlessStuck(nTry);
    StuckEndsIff(EndlessProblem(), nTry, 0);
    if nTry == 0 { LeftGivesUp(c); }
  }

  // ----- a tree exists exactly for n_try_new_axis >= 1

  lemma SplitAt(c: Config, box: Box, ghostBox: Box, frac: real, left: RCBInfo, right: RCBInfo, ax: nat, cut: real,
                ok: bool)
    requires left.desiredFrac == right.desiredFrac == 0.5 * frac && frac > 0.0
    requires IsCut(c, box, 0.5, left, right, ax, cut)
    requires c.dims == 2 && Sized(box, 2) && Longer(box, 0, 1) && !Longer(box, 1, 0) && ax < 2 && (ok || ax == 1)
    requires EndsSo(c, box, ax, if ok then Accepted(cut) else GivenUp(cut))
    requires ax == 1 ==> exists other: real :: EndsSo(c, box, 0, GivenUp(other))
    ensures Splits(c, RCBInfo(box, ghostBox, frac), left, right)
  {
    assert LeftFraction(left, right) == (0.5 * frac) / frac == 0.5;
    assert SearchEnds(c, box, 0.5, ax, ok, cut);
    if ax == 1 {
      var other: real :| EndsSo(c, box, 0, GivenUp(other));
      assert SearchEnds(c, box, 0.5, 0, false, other);
    }
    assert Tried(c, box, 0.5, ax, ok, cut);
    assert Chosen(c, box, 0.5, ax, cut);
  }

  ghost predicate IsTree(c: Config, nodes: seq<seq<RCBInfo>>) {
    IsPartition(c, 4, nodes) && IsDomainBox(c, 2.0, nodes[0][0].bbox)
  }

  lemma RootSplit(nTry: int, ghostLen: real)
    ensures var t := HeapsTree(ghostLen); Splits(Heaps(nTry, ghostLen), t[0][0], t[1][0], t[1][1])
  {
    var c := Heaps(nTry, ghostLen);
    var t := HeapsTree(ghostLen);
    RootAccepts(nTry, ghostLen);
    FlatBox(0.0, 2.0);
    HeapsIn(ROOT_BOX, 0.0, 2.0);
    HeapsIn(LEFT_BOX, 0.0, 1.0);
    assert CutLeft(ROOT_BOX, 0, 1.0) == LEFT_BOX && CutRight(ROOT_BOX, 0, 1.0) == RIGHT_BOX;
    assert IsCut(c, ROOT_BOX, 0.5, t[1][0], t[1][1], 0, 1.0);
    SplitAt(c, ROOT_BOX, Empty, 1.0, t[1][0], t[1][1], 0, 1.0, true);
  }

  lemma HalfSplits(nTry: int, ghostLen: real)
    requires nTry >= 1
    ensures var t := HeapsTree(ghostLen); Splits(Heaps(nTry, ghostLen), t[1][0], t[2][0], t[2][1])
    ensures var t := HeapsTree(ghostLen); Splits(Heaps(nTry, ghostLen), t[1][1], t[2][2], t[2][3])
  {
    var c := Heaps(nTry, ghostLen);
    var t := HeapsTree(ghostLen);
    HalvesGiveUp(nTry, ghostLen);
    FlatBox(0.0, 1.0);
    FlatBox(1.0, 2.0);
    HeapsIn(LEFT_BOX, 0.0, 1.0);
    HeapsIn(RIGHT_BOX, 1.0, 2.0);
    assert CutLeft(LEFT_BOX, 1, 0.0) == LEFT_BOX == CutRight(LEFT_BOX, 1, 0.0);
    assert CutLeft(RIGHT_BOX, 1, 0.0) == RIGHT_BOX == CutRight(RIGHT_BOX, 1, 0.0);
    assert IsCut(c, LEFT_BOX, 0.5, t[2][0], t[2][1], 1, 0.0);
    assert IsCut(c, RIGHT_BOX, 0.5, t[2][2], t[2][3], 1, 0.0);
    SplitAt(c, LEFT_BOX, t[1][0].ghostBox, 0.5, t[2][0], t[2][1], 1, 0.0, false);
    SplitAt(c, RIGHT_BOX, t[1][1].ghostBox, 0.5, t[2][2], t[2][3], 1, 0.0, false);
  }

  lemma EntitiesOfHeaps(p: Point)
    ensures p in Flat(TwoHeaps()) <==> p == [0.0, 0.0] || p == [2.0, 0.0]
  {
    var (a, b) := (TwoHeaps()[0], TwoHeaps()[1]);
    assert Flat(TwoHeaps()) == a + b by {
      assert TwoHeaps()[..1] == [a] && TwoHeaps()[..1][..0] == [];
    }
    assert a[0] == [0.0, 0.0] && b[0] == [2.0, 0.0];
  }

  lemma RootIsDomainBox(c: Config)
    requires c == Heaps(c.nTryNewAxis, c.ghostLen)
    ensures IsDomainBox(c, 2.0, ROOT_BOX)
  {
    var pts := Flat(c.coords);
    forall p | p in pts ensures Contains(ROOT_BOX, p) {
      EntitiesOfHeaps(p);
      OnLine(0.0, 2.0, p[0]);
    }
    EntitiesOfHeaps([0.0, 0.0]);
    EntitiesOfHeaps([2.0, 0.0]);
    var i :| 0 <= i < |pts| && pts[i] == [0.0, 0.0];
    var j :| 0 <= j < |pts| && pts[j] == [2.0, 0.0];
    assert forall d :: 0 <= d < 2 ==> pts[i][d] == ROOT_BOX.lo[d] && pts[j][d] == ROOT_BOX.hi[d];
  }

  lemma HeapsTreeIsTree(nTry: int, ghostLen: real)
    requires nTry >= 1
    ensures IsTree(Heaps(nTry, ghostLen), HeapsTree(ghostLen))
  {
    var c := Heaps(nTry, ghostLen);
    var t: seq<seq<RCBInfo>> := HeapsTree(ghostLen);
    hide Share;
    hide Splits;
    FourParts();
    RootSplit(nTry, ghostLen);
    HalfSplits(nTry, ghostLen);
    RootIsDomainBox(c);
    forall l: nat, k: nat | l < |t| && k < |t[l]| ensures t[l][k].desiredFrac == Share(4, |t| - 1 - l, k) {
      FourShares(k);
    }
    forall l: nat, k: nat | l < |t| - 1 && k < |t[l]| ensures NodeSplit(c, t, l, k) {
      assert (l == 0 && k == 0) || (l == 1 && k < 2);
    }
  }

  /** Searches end in one way only. */
  lemma EndIsUnique(c: Config, box: Box, leftProp: real, ax: nat, ok: bool, cut: real, ok': bool, cut': real)
    requires SearchEnds(c, box, leftProp, ax, ok, cut) && SearchEnds(c, box, leftProp, ax, ok', cut')
    ensures ok == ok' && cut == cut'
  {
    var p := AxisProblem(c, box, leftProp, ax);
    var k: nat :| After(p, c.nTryNewAxis, k) == if ok then Accepted(cut) else GivenUp(cut);
    var j: nat :| After(p, c.nTryNewAxis, j) == if ok' then Accepted(cut') else GivenUp(cut');
    if k <= j { StaysEnded(p, c.nTryNewAxis, k, j); } else { StaysEnded(p, c.nTryNewAxis, j, k); }
  }

  /** The search along the longer axis of a split node has ended. */
  lemma FirstAxisEnds(c: Config, parent: RCBInfo, left: RCBInfo, right: RCBInfo) returns (ok: bool, cut: real)
    requires Splits(c, parent, left, right) && c.dims == 2 && Sized(parent.bbox, 2) && Longer(parent.bbox, 0, 1)
    ensures SearchEnds(c, parent.bbox, LeftFraction(left, right), 0, ok, cut)
    ensures ok ==> IsCut(c, parent.bbox, LeftFraction(left, right), left, right, 0, cut)
  {
    var leftProp := LeftFraction(left, right);
    var ax: nat, chosen: real :|
      IsCut(c, parent.bbox, leftProp, left, right, ax, chosen) && Chosen(c, parent.bbox, leftProp, ax, chosen);
    var done: bool :| Tried(c, parent.bbox, leftProp, ax, done, chosen);
    if ax == 0 {
      ok, cut := done, chosen;
    } else {
      assert GaveUp(c, parent.bbox, leftProp, 0);
      var other: real :| SearchEnds(c, parent.bbox, leftProp, 0, false, other);
      ok, cut := false, other;
    }
  }

  lemma DomainBoxIsRoot(c: Config, b: Box)
    requires c == Heaps(c.nTryNewAxis, c.ghostLen) && IsDomainBox(c, 2.0, b)
    ensures b == ROOT_BOX
  {
    var pts := Flat(c.coords);
    EntitiesOfHeaps([0.0, 0.0]);
    EntitiesOfHeaps([2.0, 0.0]);
    var x: Point, y: Point := [0.0, 0.0], [2.0, 0.0];
    assert Contains(b, x) && Contains(b, y);
    assert b.lo[0] <= x[0] && y[0] <= b.hi[0];
    forall d | 0 <= d < 2 ensures b.lo[d] == ROOT_BOX.lo[d] && b.hi[d] == ROOT_BOX.hi[d] {
      FacesTouch(pts, b.lo, b.hi, d);
    }
    assert b.lo == ROOT_BOX.lo && b.hi == ROOT_BOX.hi;
  }

  /** A face of a tight box goes through one of the two points. */
  lemma FacesTouch(pts: seq<Point>, lo: Point, hi: Point, d: nat)
    requires pts == Flat(TwoHeaps()) && Tight(2, pts, lo, hi) && d < 2
    ensures lo[d] in {[0.0, 0.0][d], [2.0, 0.0][d]} && hi[d] in {[0.0, 0.0][d], [2.0, 0.0][d]}
  {
    var i :| 0 <= i < |pts| && |pts[i]| == 2 && pts[i][d] == lo[d];
    var j :| 0 <= j < |pts| && |pts[j]| == 2 && pts[j][d] == hi[d];
    assert pts[i] in pts && pts[j] in pts;
    EntitiesOfHeaps(pts[i]);
    EntitiesOfHeaps(pts[j]);
  }

  /** Whatever the limit, the root's right half is the box from 1 to 2. */
  lemma RightHalf(c: Config, root: RCBInfo, left: RCBInfo, right: RCBInfo)
    requires c == Heaps(c.nTryNewAxis, c.ghostLen) && root.bbox == ROOT_BOX && Splits(c, root, left, right)
    requires left.desiredFrac == right.desiredFrac == 0.5
    ensures right.bbox == RIGHT_BOX
  {
    FlatBox(0.0, 2.0);
    var ok, cut := FirstAxisEnds(c, root, left, right);
    RootAccepts(c.nTryNewAxis, c.ghostLen);
    assert SearchEnds(c, ROOT_BOX, 0.5, 0, true, 1.0);
    EndIsUnique(c, ROOT_BOX, 0.5, 0, ok, cut, true, 1.0);
    assert CutRight(ROOT_BOX, 0, 1.0) == RIGHT_BOX;
  }

  /** The right half cannot be split when n_try_new_axis <= 0: its first search has no end. */
  lemma RightHalfIsEndless(c: Config, half: RCBInfo, left: RCBInfo, right: RCBInfo)
    requires c == Heaps(c.nTryNewAxis, c.ghostLen) && c.nTryNewAxis <= 0 && half.bbox == RIGHT_BOX
    requires left.desiredFrac == right.desiredFrac == 0.25
    ensures !Splits(c, half, left, right)
  {
    if Splits(c, half, left, right) {
      FlatBox(1.0, 2.0);
      var ok, cut := FirstAxisEnds(c, half, left, right);
      assert AxisProblem(c, RIGHT_BOX, 0.5, 0) == EndlessProblem();
      var k: nat :| After(EndlessProblem(), c.nTryNewAxis, k) == if ok then Accepted(cut) else GivenUp(cut);
      EndlessSearch(c.nTryNewAxis, k);
    }
  }

  /** With n_try_new_axis <= 0 the build reaches a search without end: the root is cut at 1, and the right half
      is the input of `EndlessSearch`. */
  lemma NoTree(nTry: int, ghostLen: real, nodes: seq<seq<RCBInfo>>)
    requires nTry <= 0
    ensures !IsTree(Heaps(nTry, ghostLen), nodes)
  {
    hide Splits;
    hide IsDomainBox;
    hide Share;
    var c := Heaps(nTry, ghostLen);
    if IsTree(c, nodes) {
      FourParts();
      DomainBoxIsRoot(c, nodes[0][0].bbox);
      assert NodeSplit(c, nodes, 0, 0) && NodeSplit(c, nodes, 1, 1);
      FourShares(0);
      FourShares(1);
      FourShares(2);
      FourShares(3);
      RightHalf(c, nodes[0][0], nodes[1][0], nodes[1][1]);
      RightHalfIsEndless(c, nodes[1][1], nodes[2][2], nodes[2][3]);
    }
  }

  /** On this domain a partition tree exists if and only if n_try_new_axis >= 1. */
  lemma TreeExistsIff(nTry: int, ghostLen: real)
    ensures nTry >= 1 <==> exists nodes :: IsTree(Heaps(nTry, ghostLen), nodes)
  {
    if nTry >= 1 {
      HeapsTreeIsTree(nTry, ghostLen);
    } else {
      forall nodes ensures !IsTree(Heaps(nTry, ghostLen), nodes) { NoTree(nTry, ghostLen, nodes); }
    }
  }

  // ----- what its tree does to the ghost layer and to the counts

  /** Entities of the left heap go to part 0, those of the right heap elsewhere than to part 1. */
  lemma HeapOwners(ghostLen: real)
    ensures Owner(HeapsTree(ghostLen), [0.0, 0.0]) == 0 && Owner(HeapsTree(ghostLen), [2.0, 0.0]) == 2
  {
    var nodes := HeapsTree(ghostLen);
    var x: Point, y: Point := [0.0, 0.0], [2.0, 0.0];
    OnLine(0.0, 1.0, 0.0);
    OnLine(0.0, 1.0, 2.0);
    OnLine(1.0, 2.0, 2.0);
    assert Route(nodes, x, 1) == 0 && Route(nodes, y, 1) == 1;
  }

  /** The cuts of both halves were rejected, so part 1 has no ghost region: an entity in its inflated box that
      it does not own is not listed as its ghost, for any ghost length. */
  lemma RejectedCutsLoseGhosts(ghostLen: real, i: nat)
    requires ghostLen >= 0.0
    ensures var (nodes, p) := (HeapsTree(ghostLen), [0.0, 0.0]);
            && Owner(nodes, p) == 0 && WithinLength(Bottom(nodes)[1].bbox, ghostLen, p)
            && Listing(nodes, i, p, 1) == []
  {
    HeapOwners(ghostLen);
    assert forall d :: 0 <= d < 2 ==> LEFT_BOX.lo[d] == 0.0 && LEFT_BOX.hi[d] >= 0.0;
  }

  /** All entities of the left half lie on its cut: part 1 counts five of them, and none is routed to it. */
  lemma CountedNotRouted(ghostLen: real)
    ensures var (nodes, pts) := (HeapsTree(ghostLen), Flat(TwoHeaps()));
            OnCut(nodes, 1, 0, [0.0, 0.0]) && CountIn(pts, Bottom(nodes)[1].bbox) == 5 && Routed(nodes, pts, 2, 1) == 0
  {
    var nodes := HeapsTree(ghostLen);
    HeapsIn(LEFT_BOX, 0.0, 1.0);
    OnLine(0.0, 1.0, 0.0);
    HeapOwners(ghostLen);
    HeapCounts(p => Route(nodes, p, 2) == 1);
  }
}
