/** Routing of entities through the problem tree, and the lists of owned and ghost entities that
    generatePartitioning in src/redecomp/partition/RCB.cpp makes for every rank. */
module RCBPartition {
  import opened BisecTree
  import opened Boxes
  import opened CutSearch
  import opened RCBTree

  function Bottom(nodes: seq<seq<RCBInfo>>): seq<RCBInfo>
    requires nodes != []
  {
    nodes[|nodes| - 1]
  }

  /** Index at level l of the node that entity p is routed through. */
  function Route(nodes: seq<seq<RCBInfo>>, p: Point, l: nat): nat
    requires l < |nodes|
  {
    if l == 0 then 0
    else
      var k := Route(nodes, p, l - 1);
      if Left(k) < |nodes[l]| && Contains(nodes[l][Left(k)].bbox, p) then Left(k) else Right(k)
  }

  function Owner(nodes: seq<seq<RCBInfo>>, p: Point): nat
    requires nodes != []
  {
    Route(nodes, p, |nodes| - 1)
  }

  /** An entity inside the domain never steps to a missing right child: at every level it reaches a node
      whose box contains it. */
  lemma {:induction false} RouteStaysInBoxes(c: Config, n: nat, nodes: seq<seq<RCBInfo>>, p: Point, l: nat)
    requires IsPartition(c, n, nodes) && l < |nodes| && Contains(nodes[0][0].bbox, p)
    ensures Route(nodes, p, l) < |nodes[l]|
    ensures Contains(nodes[l][Route(nodes, p, l)].bbox, p)
  {
    hide Splits;
    if l > 0 {
      var k := Route(nodes, p, l - 1);
      RouteStaysInBoxes(c, n, nodes, p, l - 1);
      assert NodeSplit(c, nodes, l - 1, k);
      if Right(k) < |nodes[l]| {
        SplitCovers(c, nodes[l - 1][k], nodes[l][Left(k)], nodes[l][Right(k)], p);
      }
    }
  }

  /** The two halves of a split cover exactly the parent's box. */
  lemma SplitCovers(c: Config, parent: RCBInfo, left: RCBInfo, right: RCBInfo, p: Point)
    requires Splits(c, parent, left, right)
    ensures Contains(parent.bbox, p) <==> Contains(left.bbox, p) || Contains(right.bbox, p)
  {
    var leftProp := LeftFraction(left, right);
    var ax: nat, cut: real :| IsCut(c, parent.bbox, leftProp, left, right, ax, cut);
    CutCovers(parent.bbox, ax, cut, p);
  }

  /** DetermineDomain. */
  method DetermineDomain(ghost c: Config, ghost n: nat, nodes: seq<seq<RCBInfo>>, p: Point) returns (dest: nat)
    requires IsPartition(c, n, nodes) && Contains(nodes[0][0].bbox, p)
    ensures dest == Owner(nodes, p) && dest < n
    ensures Contains(Bottom(nodes)[dest].bbox, p)
  {
    dest := 0;
    for i := 0 to |nodes| - 1
      invariant dest == Route(nodes, p, i) && dest < |nodes[i]|
    {
      RouteStaysInBoxes(c, n, nodes, p, i);
      RouteStaysInBoxes(c, n, nodes, p, i + 1);
      assert NodeSplit(c, nodes, i, dest);
      if Contains(nodes[i + 1][Left(dest)].bbox, p) {
        dest := Left(dest);
      } else {
        dest := Right(dest);
      }
    }
    RouteStaysInBoxes(c, n, nodes, p, |nodes| - 1);
  }

  // ----- counting agrees with routing

  /** Entities routed through node k of level l. */
  function Routed(nodes: seq<seq<RCBInfo>>, pts: seq<Point>, l: nat, k: nat): nat
    requires l < |nodes|
  {
    CountIf(pts, p => Route(nodes, p, l) == k)
  }

  /** p lies on the cut between node k's children. */
  ghost predicate OnCut(nodes: seq<seq<RCBInfo>>, l: nat, k: nat, p: Point)
    requires l < |nodes| - 1
  {
    && Right(k) < |nodes[l + 1]|
    && Contains(nodes[l + 1][Left(k)].bbox, p) && Contains(nodes[l + 1][Right(k)].bbox, p)
  }

  /** Every node that contains an entity in its box is on the entity's route, unless the entity lies on
      a cut plane above it. */
  lemma {:induction false} OffCutsRouted(c: Config, n: nat, nodes: seq<seq<RCBInfo>>, p: Point, l: nat, k: nat)
    requires IsPartition(c, n, nodes) && l < |nodes| && k < |nodes[l]| && Contains(nodes[l][k].bbox, p)
    requires forall a, b :: 0 <= a < l && 0 <= b < |nodes[a]| ==> !OnCut(nodes, a, b, p)
    ensures Route(nodes, p, l) == k
  {
    if l > 0 {
      var up := Root(k);
      TreeLinks(n, |nodes| - l, up);
      assert NodeSplit(c, nodes, l - 1, up);
      if Right(up) < |nodes[l]| {
        SplitCovers(c, nodes[l - 1][up], nodes[l][Left(up)], nodes[l][Right(up)], p);
      }
      OffCutsRouted(c, n, nodes, p, l - 1, up);
      assert !OnCut(nodes, l - 1, up, p);
    }
  }

  ghost predicate CountsAgree(nodes: seq<seq<RCBInfo>>, pts: seq<Point>, l: nat, k: nat)
    requires l < |nodes| && k < |nodes[l]|
  {
    Routed(nodes, pts, l, k) == CountIn(pts, nodes[l][k].bbox)
  }

  ghost predicate NoneOnCuts(nodes: seq<seq<RCBInfo>>, pts: seq<Point>) {
    forall l, k, p :: 0 <= l < |nodes| - 1 && 0 <= k < |nodes[l]| && p in pts ==> !OnCut(nodes, l, k, p)
  }

  /** No node has more entities routed to it than its box contains. */
  lemma RoutedInBox(c: Config, n: nat, nodes: seq<seq<RCBInfo>>, l: nat, k: nat)
    requires IsPartition(c, n, nodes) && l < |nodes| && k < |nodes[l]|
    ensures var pts := Flat(c.coords);
      && Routed(nodes, pts, l, k) <= CountIn(pts, nodes[l][k].bbox)
      && (CountsAgree(nodes, pts, l, k)
          <==> forall p :: p in pts && Contains(nodes[l][k].bbox, p) ==> Route(nodes, p, l) == k)
  {
    var pts := Flat(c.coords);
    var f := p => Route(nodes, p, l) == k;
    var g := p => Contains(nodes[l][k].bbox, p);
    forall p | p in pts && f(p) ensures g(p) {
      RouteStaysInBoxes(c, n, nodes, p, l);
    }
    CountMonotone(pts, f, g);
  }

  lemma AgreeOffCuts(c: Config, n: nat, nodes: seq<seq<RCBInfo>>, l: nat, k: nat)
    requires IsPartition(c, n, nodes) && l < |nodes| && k < |nodes[l]| && NoneOnCuts(nodes, Flat(c.coords))
    ensures CountsAgree(nodes, Flat(c.coords), l, k)
  {
    forall p | p in Flat(c.coords) && Contains(nodes[l][k].bbox, p) ensures Route(nodes, p, l) == k {
      OffCutsRouted(c, n, nodes, p, l, k);
    }
    RoutedInBox(c, n, nodes, l, k);
  }

  ghost predicate CountsAgreeEverywhere(nodes: seq<seq<RCBInfo>>, pts: seq<Point>) {
    forall l, k :: 0 <= l < |nodes| && 0 <= k < |nodes[l]| ==> CountsAgree(nodes, pts, l, k)
  }

  /** The entities counted in a node's box and those routed to it agree at every node exactly when no
      entity lies on a cut plane. */
  lemma CountingAgreesWithRouting(c: Config, n: nat, nodes: seq<seq<RCBInfo>>)
    requires IsPartition(c, n, nodes)
    ensures CountsAgreeEverywhere(nodes, Flat(c.coords)) <==> NoneOnCuts(nodes, Flat(c.coords))
  {
    var pts := Flat(c.coords);
    if NoneOnCuts(nodes, pts) {
      forall l, k | 0 <= l < |nodes| && 0 <= k < |nodes[l]| ensures CountsAgree(nodes, pts, l, k) {
        AgreeOffCuts(c, n, nodes, l, k);
      }
    } else {
      var l, k, p :| 0 <= l < |nodes| - 1 && 0 <= k < |nodes[l]| && p in pts && OnCut(nodes, l, k, p);
      DisagreeOnCut(c, n, nodes, l, k, p);
    }
  }

  lemma DisagreeOnCut(c: Config, n: nat, nodes: seq<seq<RCBInfo>>, l: nat, k: nat, p: Point)
    requires IsPartition(c, n, nodes) && l < |nodes| - 1 && k < |nodes[l]|
    requires p in Flat(c.coords) && OnCut(nodes, l, k, p)
    ensures !CountsAgree(nodes, Flat(c.coords), l + 1, Right(k))
  {
    RoutedInBox(c, n, nodes, l + 1, Right(k));
    assert Route(nodes, p, l + 1) != Right(k);
  }

  /** The fraction of the parts that lie below the left one of two children. */
  ghost function LeftShare(n: nat, h: nat, k: nat): real
    requires n >= 1 && h >= 1 && k < LevelSize(n, h)
  {
    FirstBelow(n, h, k);
    assert First(h, k) in Leaves(n, h, k);
    |Leaves(n, h - 1, Left(k))| as real / |Leaves(n, h, k)| as real
  }

  /** An accepted split bounds the imbalance of what is really routed: when no entity lies on a cut
      plane, the routed left share differs from the share of the parts on the left by at most max_out_of_balance
      or by at most two entities. */
  lemma AcceptedSplitIsBalanced(c: Config, n: nat, nodes: seq<seq<RCBInfo>>, l: nat, k: nat)
    requires IsPartition(c, n, nodes) && l < |nodes| - 1 && k < |nodes[l]| && Right(k) < |nodes[l + 1]|
    requires nodes[l + 1][Left(k)].ghostBox != Empty
    requires NoneOnCuts(nodes, Flat(c.coords))
    requires Routed(nodes, Flat(c.coords), l, k) > 0
    ensures var (left, all) := (Routed(nodes, Flat(c.coords), l + 1, Left(k)), Routed(nodes, Flat(c.coords), l, k));
            var (want, share) := (LeftShare(n, |nodes| - 1 - l, k), left as real / all as real);
            || want - c.maxOutOfBalance <= share <= want + c.maxOutOfBalance
            || want - 2.0 / all as real <= share <= want + 2.0 / all as real
  {
    var (h, pts) := (|nodes| - 1 - l, Flat(c.coords));
    var (left, right) := (nodes[l + 1][Left(k)], nodes[l + 1][Right(k)]);
    AgreeOffCuts(c, n, nodes, l, k);
    AgreeOffCuts(c, n, nodes, l + 1, Left(k));
    assert NodeSplit(c, nodes, l, k);
    var leftProp := LeftFraction(left, right);
    var ax: nat, cut: real :| IsCut(c, nodes[l][k].bbox, leftProp, left, right, ax, cut);
    assert Balanced(CountIn(pts, left.bbox), CountIn(pts, nodes[l][k].bbox), leftProp, c.maxOutOfBalance);
    LeftFractionIsLeftShare(n, h, k, left, right);
  }

  lemma LeftFractionIsLeftShare(n: nat, h: nat, k: nat, left: RCBInfo, right: RCBInfo)
    requires n >= 1 && h >= 1 && k < LevelSize(n, h) && Right(k) < LevelSize(n, h - 1)
    requires left.desiredFrac == Share(n, h - 1, Left(k)) && right.desiredFrac == Share(n, h - 1, Right(k))
    ensures left.desiredFrac + right.desiredFrac > 0.0
    ensures LeftFraction(left, right) == LeftShare(n, h, k)
  {
    var (a, b) := (|Leaves(n, h - 1, Left(k))|, |Leaves(n, h - 1, Right(k))|);
    ShareIsLeafFraction(n, h - 1, Left(k));
    ShareIsLeafFraction(n, h - 1, Right(k));
    LeavesOfChildren(n, h, k);
    FractionOfFractions(a as real, b as real, n as real);
  }

  lemma FractionOfFractions(a: real, b: real, n: real)
    requires n > 0.0 && a / n > 0.0 && b / n > 0.0
    ensures a + b > 0.0 && a / n / (a / n + b / n) == a / (a + b)
  {
    AddFractions(a, b, n);
    var (x, s) := (a / n, (a + b) / n);
    assert a == x * n && a + b == s * n;
    assert s * n > 0.0;
    assert x / s == (x * n) / (s * n);
  }

  // ----- neighbours

  /** Parts i and j test each other's entities: they share a root, or their ghost boxes meet. */
  predicate Near(parts: seq<RCBInfo>, i: nat, j: nat)
    requires i < |parts| && j < |parts|
  {
    || Siblings(i, j)
    || Intersects(parts[i].ghostBox, parts[j].ghostBox)
  }

  predicate Siblings(i: nat, j: nat) { i != j && Root(i) == Root(j) }

  /** The parts below m, other than i, that are near part i, in ascending order. */
  function NearBelow(parts: seq<RCBInfo>, i: nat, m: nat): seq<nat>
    requires i < |parts| && m <= |parts|
  {
    if m == 0 then []
    else NearBelow(parts, i, m - 1) + if m - 1 != i && Near(parts, i, m - 1) then [m - 1] else []
  }

  lemma {:induction false} NearBelowIsSet(parts: seq<RCBInfo>, i: nat, m: nat)
    requires i < |parts| && m <= |parts|
    ensures forall j: nat :: j in NearBelow(parts, i, m) <==> j < m && j != i && Near(parts, i, j)
    ensures forall a, b :: 0 <= a < b < |NearBelow(parts, i, m)|
              ==> NearBelow(parts, i, m)[a] < NearBelow(parts, i, m)[b]
  {
    if m > 0 {
      NearBelowIsSet(parts, i, m - 1);
      var before := NearBelow(parts, i, m - 1);
      assert forall a :: 0 <= a < |before| ==> before[a] in before;
    }
  }

  /** The lists once part i has been tested against the parts below j, and the parts below i against each
      other. */
  ghost predicate Recorded(parts: seq<RCBInfo>, neighbors: seq<seq<nat>>, i: nat, j: nat)
    requires j <= i <= |parts|
  {
    && |neighbors| == |parts|
    && (forall a :: 0 <= a < j ==> i < |parts| && neighbors[a] == NearBelow(parts, a, i + 1))
    && (forall a :: j <= a < i ==> neighbors[a] == NearBelow(parts, a, i))
    && (i < |parts| ==> neighbors[i] == NearBelow(parts, i, j))
    && (forall a :: i < a < |parts| ==> neighbors[a] == [])
  }

  /** The double loop that fills neighbor_bboxes_: every pair is tested once and recorded on both sides.
      The result has no duplicates and lists, for each part, exactly the parts near it. */
  method FindNeighbors(parts: seq<RCBInfo>) returns (neighbors: seq<seq<nat>>)
    ensures |neighbors| == |parts|
    ensures forall i :: 0 <= i < |parts| ==> neighbors[i] == NearBelow(parts, i, |parts|)
  {
    neighbors := seq(|parts|, _ => []);
    for i := 0 to |parts|
      invariant Recorded(parts, neighbors, i, 0)
    {
      for j := 0 to i
        invariant Recorded(parts, neighbors, i, j)
      {
        neighbors := TestPair(parts, neighbors, i, j);
      }
      NextPart(parts, neighbors, i);
    }
  }

  lemma NextPart(parts: seq<RCBInfo>, neighbors: seq<seq<nat>>, i: nat)
    requires i < |parts| && Recorded(parts, neighbors, i, i)
    ensures Recorded(parts, neighbors, i + 1, 0)
  {
    assert NearBelow(parts, i, i + 1) == NearBelow(parts, i, i);
  }

  /** The body of the double loop: the pair is recorded on both sides, or on none. */
  method TestPair(parts: seq<RCBInfo>, neighbors0: seq<seq<nat>>, i: nat, j: nat) returns (neighbors: seq<seq<nat>>)
    requires j < i < |parts| && Recorded(parts, neighbors0, i, j)
    ensures Recorded(parts, neighbors, i, j + 1)
  {
    neighbors := neighbors0;
    assert (j == i - 1 && (i + j + 1) / 2 % 2 == 1) <==> Siblings(i, j);
    if (j == i - 1 && (i + j + 1) / 2 % 2 == 1) || Intersects(parts[i].ghostBox, parts[j].ghostBox) {
      neighbors := neighbors[i := neighbors[i] + [j]];
      neighbors := neighbors[j := neighbors[j] + [i]];
    }
  }

  // ----- lists of entities by rank

  /** One entity of a rank's list, with its ghost mark: the parallel index and ghost arrays. */
  datatype Entity = Entity(index: nat, isGhost: bool)

  /** The rank that hosts part j when n parts are spread over nRanks ranks. */
  function RankOf(nRanks: nat, n: nat, j: nat): nat
    requires n >= 1
  {
    j * (nRanks / n)
  }

  /** The ranks with parts are spread evenly: they begin with rank 0, follow each other in equal steps, and no
      longer step would keep them all in range. */
  lemma RanksAreSpread(nRanks: nat, n: nat) returns (jump: nat)
    requires 1 <= n <= nRanks
    ensures RankOf(nRanks, n, 0) == 0 && jump >= 1
    ensures forall j: nat :: RankOf(nRanks, n, j + 1) == RankOf(nRanks, n, j) + jump
    ensures n * jump <= nRanks < n * (jump + 1)
  {
    jump := nRanks / n;
    JumpFits(nRanks, n, jump);
    forall j: nat ensures RankOf(nRanks, n, j + 1) == RankOf(nRanks, n, j) + jump { Next(j, jump); }
  }

  /** Parts go to distinct existing ranks, in order. */
  lemma RanksAreDistinct(nRanks: nat, n: nat, i: nat, j: nat)
    requires 1 <= n <= nRanks && i < n && j < n
    ensures RankOf(nRanks, n, i) < nRanks
    ensures i < j <==> RankOf(nRanks, n, i) < RankOf(nRanks, n, j)
  {
    JumpFits(nRanks, n, nRanks / n);
    InOrder(i, j, n, nRanks / n);
  }

  lemma JumpFits(nRanks: nat, n: nat, jump: nat)
    requires 1 <= n <= nRanks && jump == nRanks / n
    ensures jump >= 1 && n * jump <= nRanks < n * (jump + 1)
  {
  }

  lemma InOrder(i: nat, j: nat, n: nat, jump: nat)
    requires jump >= 1 && i < n
    ensures i * jump < n * jump
    ensures i < j <==> i * jump < j * jump
  {
    Next(i, jump);
    TimesMonotone(i + 1, n, jump);
    if i < j { TimesMonotone(i + 1, j, jump); } else { TimesMonotone(j, i, jump); }
  }

  lemma Next(i: nat, jump: nat)
    ensures (i + 1) * jump == i * jump + jump
  {
  }

  /** What entity i contributes to the list of part j. */
  function Listing(nodes: seq<seq<RCBInfo>>, i: nat, p: Point, j: nat): seq<Entity>
    requires nodes != [] && j < |Bottom(nodes)|
  {
    var dest := Owner(nodes, p);
    if dest == j then [Entity(i, false)]
    else if dest < |Bottom(nodes)| && Near(Bottom(nodes), dest, j) && Contains(Bottom(nodes)[j].ghostBox, p)
    then [Entity(i, true)]
    else []
  }

  function Listings(nodes: seq<seq<RCBInfo>>, coords: seq<Point>, j: nat): seq<Entity>
    requires nodes != [] && j < |Bottom(nodes)|
  {
    if coords == [] then []
    else
      var i := |coords| - 1;
      Listings(nodes, coords[..i], j) + Listing(nodes, i, coords[i], j)
  }

  /** What the listed neighbours make entity i add to the list of rank r. */
  function Pushes(parts: seq<RCBInfo>, n: nat, nRanks: nat, near: seq<nat>, i: nat, p: Point, r: nat): seq<Entity>
    requires n >= 1 && forall t :: 0 <= t < |near| ==> near[t] < |parts|
  {
    if near == [] then []
    else
      var b := near[|near| - 1];
      Pushes(parts, n, nRanks, near[..|near| - 1], i, p, r) +
      if RankOf(nRanks, n, b) == r && Contains(parts[b].ghostBox, p) then [Entity(i, true)] else []
  }

  /** One push at most reaches a rank: the one for the part that the rank hosts. */
  lemma {:induction false} PushesOnce(parts: seq<RCBInfo>, n: nat, nRanks: nat, near: seq<nat>, i: nat, p: Point,
                                      r: nat, j: nat)
    requires |parts| == n && 1 <= n <= nRanks && forall t :: 0 <= t < |near| ==> near[t] < n
    requires forall a, b :: 0 <= a < b < |near| ==> near[a] < near[b]
    ensures j < n && r == RankOf(nRanks, n, j)
            ==> Pushes(parts, n, nRanks, near, i, p, r)
                == (if j in near && Contains(parts[j].ghostBox, p) then [Entity(i, true)] else [])
    ensures (forall t :: 0 <= t < |near| ==> RankOf(nRanks, n, near[t]) != r)
            ==> Pushes(parts, n, nRanks, near, i, p, r) == []
  {
    if near != [] {
      var (rest, b) := (near[..|near| - 1], near[|near| - 1]);
      PushesOnce(parts, n, nRanks, rest, i, p, r, j);
      assert near == rest + [b];
      if j < n {
        RanksAreDistinct(nRanks, n, j, b);
        RanksAreDistinct(nRanks, n, b, j);
      }
    }
  }

  /** The inner loop: one push for each neighbour whose ghost box contains the entity. */
  method PushGhosts(parts: seq<RCBInfo>, n: nat, nRanks: nat, near: seq<nat>, i: nat, p: Point,
                    lists0: seq<seq<Entity>>) returns (lists: seq<seq<Entity>>)
    requires |parts| == n && 1 <= n <= nRanks && |lists0| == nRanks
    requires forall t :: 0 <= t < |near| ==> near[t] < n
    ensures |lists| == nRanks
    ensures forall r :: 0 <= r < nRanks ==> lists[r] == lists0[r] + Pushes(parts, n, nRanks, near, i, p, r)
  {
    lists := lists0;
    for t := 0 to |near|
      invariant |lists| == nRanks
      invariant forall r :: 0 <= r < nRanks ==> lists[r] == lists0[r] + Pushes(parts, n, nRanks, near[..t], i, p, r)
    {
      assert near[..t + 1][..t] == near[..t];
      if Contains(parts[near[t]].ghostBox, p) {
        RanksAreDistinct(nRanks, n, near[t], near[t]);
        var rank := RankOf(nRanks, n, near[t]);
        lists := lists[rank := lists[rank] + [Entity(i, true)]];
      }
    }
    assert near[..|near|] == near;
  }

  /** What entity i adds to the list of rank r: its owner's entry and the pushes of the neighbours. */
  function Posts(parts: seq<RCBInfo>, n: nat, nRanks: nat, dest: nat, i: nat, p: Point, r: nat): seq<Entity>
    requires dest < |parts| == n
  {
    NearInRange(parts, dest, n);
    (if RankOf(nRanks, n, dest) == r then [Entity(i, false)] else []) +
    Pushes(parts, n, nRanks, NearBelow(parts, dest, n), i, p, r)
  }

  lemma NearInRange(parts: seq<RCBInfo>, i: nat, m: nat)
    requires i < |parts| && m <= |parts|
    ensures forall t :: 0 <= t < |NearBelow(parts, i, m)| ==> NearBelow(parts, i, m)[t] < m
  {
    NearBelowIsSet(parts, i, m);
    var near := NearBelow(parts, i, m);
    forall t | 0 <= t < |near| ensures near[t] < m { assert near[t] in near; }
  }

  /** On the rank that hosts part j an entity adds what it contributes to part j, and on a rank that
      hosts no part it adds nothing. */
  lemma PostsAreListings(nodes: seq<seq<RCBInfo>>, n: nat, nRanks: nat, i: nat, p: Point, r: nat, j: nat)
    requires nodes != [] && |Bottom(nodes)| == n && 1 <= n <= nRanks && Owner(nodes, p) < n
    ensures j < n && r == RankOf(nRanks, n, j)
            ==> Posts(Bottom(nodes), n, nRanks, Owner(nodes, p), i, p, r) == Listing(nodes, i, p, j)
    ensures (forall j :: 0 <= j < n ==> RankOf(nRanks, n, j) != r)
            ==> Posts(Bottom(nodes), n, nRanks, Owner(nodes, p), i, p, r) == []
  {
    var (parts, dest) := (Bottom(nodes), Owner(nodes, p));
    NearInRange(parts, dest, n);
    NearBelowIsSet(parts, dest, n);
    PushesOnce(parts, n, nRanks, NearBelow(parts, dest, n), i, p, r, j);
    if j < n {
      RanksAreDistinct(nRanks, n, j, dest);
      RanksAreDistinct(nRanks, n, dest, j);
    }
  }

  ghost predicate AllOwned(nodes: seq<seq<RCBInfo>>, n: nat, coords: seq<Point>) {
    nodes != [] && |Bottom(nodes)| == n && forall i :: 0 <= i < |coords| ==> Owner(nodes, coords[i]) < n
  }

  /** The list of rank r, entity by entity. */
  ghost function RankList(nodes: seq<seq<RCBInfo>>, n: nat, nRanks: nat, coords: seq<Point>, r: nat): seq<Entity>
    requires AllOwned(nodes, n, coords)
  {
    if coords == [] then []
    else
      var i := |coords| - 1;
      RankList(nodes, n, nRanks, coords[..i], r) +
      Posts(Bottom(nodes), n, nRanks, Owner(nodes, coords[i]), i, coords[i], r)
  }

  lemma {:induction false} RankListIsListings(nodes: seq<seq<RCBInfo>>, n: nat, nRanks: nat, coords: seq<Point>,
                                              r: nat, j: nat)
    requires AllOwned(nodes, n, coords) && 1 <= n <= nRanks
    ensures j < n && r == RankOf(nRanks, n, j) ==> RankList(nodes, n, nRanks, coords, r) == Listings(nodes, coords, j)
    ensures (forall j :: 0 <= j < n ==> RankOf(nRanks, n, j) != r) ==> RankList(nodes, n, nRanks, coords, r) == []
  {
    if coords != [] {
      var i := |coords| - 1;
      RankListIsListings(nodes, n, nRanks, coords[..i], r, j);
      PostsAreListings(nodes, n, nRanks, i, coords[i], r, j);
    }
  }

  /** The body of the loop over entities. */
  method PostEntity(parts: seq<RCBInfo>, n: nat, nRanks: nat, near: seq<nat>, dest: nat, i: nat, p: Point,
                    lists0: seq<seq<Entity>>) returns (lists: seq<seq<Entity>>)
    requires dest < |parts| == n && n <= nRanks && |lists0| == nRanks && near == NearBelow(parts, dest, n)
    ensures |lists| == nRanks
    ensures forall r :: 0 <= r < nRanks ==> lists[r] == lists0[r] + Posts(parts, n, nRanks, dest, i, p, r)
  {
    RanksAreDistinct(nRanks, n, dest, dest);
    NearInRange(parts, dest, n);
    var rank := RankOf(nRanks, n, dest);
    lists := lists0[rank := lists0[rank] + [Entity(i, false)]];
    lists := PushGhosts(parts, n, nRanks, near, i, p, lists);
  }

  /** The entity lists of one mesh on one rank. */
  method GeneratePartitioning(ghost c: Config, n: nat, nRanks: nat, nodes: seq<seq<RCBInfo>>, coords: seq<Point>)
    returns (lists: seq<seq<Entity>>)
    requires IsPartition(c, n, nodes) && n <= nRanks
    requires forall i :: 0 <= i < |coords| ==> Contains(nodes[0][0].bbox, coords[i])
    ensures |lists| == nRanks && AllOwned(nodes, n, coords)
    ensures forall r :: 0 <= r < nRanks ==> lists[r] == RankList(nodes, n, nRanks, coords, r)
  {
    var parts := Bottom(nodes);
    var neighbors := FindNeighbors(parts);
    lists := seq(nRanks, _ => []);
    for i := 0 to |coords|
      invariant |lists| == nRanks && AllOwned(nodes, n, coords[..i])
      invariant forall r :: 0 <= r < nRanks ==> lists[r] == RankList(nodes, n, nRanks, coords[..i], r)
    {
      var dest := DetermineDomain(c, n, nodes, coords[i]);
      lists := PostEntity(parts, n, nRanks, neighbors[dest], dest, i, coords[i], lists);
      assert coords[..i + 1][..i] == coords[..i];
    }
    assert coords[..|coords|] == coords;
  }

  /** The rank that hosts part j gets the listings of part j, and a rank without a part gets nothing. */
  lemma ListsByRank(nodes: seq<seq<RCBInfo>>, n: nat, nRanks: nat, coords: seq<Point>)
    requires AllOwned(nodes, n, coords) && 1 <= n <= nRanks
    ensures forall j :: 0 <= j < n
              ==> && RankOf(nRanks, n, j) < nRanks
                  && RankList(nodes, n, nRanks, coords, RankOf(nRanks, n, j)) == Listings(nodes, coords, j)
    ensures forall r :: 0 <= r < nRanks && (forall j :: 0 <= j < n ==> RankOf(nRanks, n, j) != r)
              ==> RankList(nodes, n, nRanks, coords, r) == []
  {
    forall j | 0 <= j < n
      ensures RankOf(nRanks, n, j) < nRanks
      ensures RankList(nodes, n, nRanks, coords, RankOf(nRanks, n, j)) == Listings(nodes, coords, j)
    {
      RanksAreDistinct(nRanks, n, j, j);
      RankListIsListings(nodes, n, nRanks, coords, RankOf(nRanks, n, j), j);
    }
    forall r | 0 <= r < nRanks && (forall j :: 0 <= j < n ==> RankOf(nRanks, n, j) != r)
      ensures RankList(nodes, n, nRanks, coords, r) == []
    {
      RankListIsListings(nodes, n, nRanks, coords, r, n);
    }
  }

  lemma ListingIndex(nodes: seq<seq<RCBInfo>>, i: nat, p: Point, j: nat)
    requires nodes != [] && j < |Bottom(nodes)|
    ensures forall e :: e in Listing(nodes, i, p, j) ==> e.index == i
  {
    hide Owner;
    hide Near;
    hide Contains;
  }

  /** An entity is on the list of part j exactly as its own listing says. */
  lemma {:induction false} ListingsMembers(nodes: seq<seq<RCBInfo>>, coords: seq<Point>, j: nat, e: Entity)
    requires nodes != [] && j < |Bottom(nodes)|
    ensures e in Listings(nodes, coords, j)
       <==> e.index < |coords| && e in Listing(nodes, e.index, coords[e.index], j)
  {
    hide Listing;
    if coords != [] {
      var m := |coords| - 1;
      ListingsMembers(nodes, coords[..m], j, e);
      ListingIndex(nodes, m, coords[m], j);
      assert e.index < m ==> coords[..m][e.index] == coords[e.index];
    }
  }

  predicate Ascends(list: seq<Entity>) {
    forall a, b :: 0 <= a < b < |list| ==> list[a].index < list[b].index
  }

  lemma AscendsSnoc(list: seq<Entity>, last: seq<Entity>, m: nat)
    requires Ascends(list) && |last| <= 1 && (last != [] ==> last[0].index == m)
    requires forall e :: e in list ==> e.index < m
    ensures Ascends(list + last)
  {
    forall a, b | 0 <= a < b < |list + last| ensures (list + last)[a].index < (list + last)[b].index {
      if b == |list| { assert list[a] in list; }
    }
  }

  lemma {:induction false} ListingsAscend(nodes: seq<seq<RCBInfo>>, coords: seq<Point>, j: nat)
    requires nodes != [] && j < |Bottom(nodes)|
    ensures Ascends(Listings(nodes, coords, j))
  {
    if coords != [] {
      var m := |coords| - 1;
      var before := Listings(nodes, coords[..m], j);
      ListingsAscend(nodes, coords[..m], j);
      forall e | e in before ensures e.index < m { ListingsMembers(nodes, coords[..m], j, e); }
      hide Owner;
      hide Near;
      hide Contains;
      AscendsSnoc(before, Listing(nodes, m, coords[m], j), m);
    }
  }

  /** Unique ownership.  Every entity of the domain has an owner among the parts; it is listed without
      ghost mark on exactly that part's list, exactly once; and no list names an entity twice. */
  lemma UniqueOwnership(c: Config, n: nat, nodes: seq<seq<RCBInfo>>, coords: seq<Point>, j: nat)
    requires IsPartition(c, n, nodes) && j < n
    requires forall i :: 0 <= i < |coords| ==> Contains(nodes[0][0].bbox, coords[i])
    ensures forall i :: 0 <= i < |coords|
              ==> Owner(nodes, coords[i]) < n
                  && (Entity(i, false) in Listings(nodes, coords, j) <==> Owner(nodes, coords[i]) == j)
    ensures forall e :: e in Listings(nodes, coords, j) ==> e.index < |coords|
    ensures Ascends(Listings(nodes, coords, j))
  {
    hide NodeSplit;
    hide Contains;
    hide Route;
    forall i | 0 <= i < |coords|
      ensures Owner(nodes, coords[i]) < n
      ensures Entity(i, false) in Listings(nodes, coords, j) <==> Owner(nodes, coords[i]) == j
    {
      RouteStaysInBoxes(c, n, nodes, coords[i], |nodes| - 1);
      ListingsMembers(nodes, coords, j, Entity(i, false));
    }
    forall e | e in Listings(nodes, coords, j) ensures e.index < |coords| {
      ListingsMembers(nodes, coords, j, e);
    }
    ListingsAscend(nodes, coords, j);
  }

  // ----- the ghost layer

  /** A part whose ghost box was set: the nearest cut above it was accepted. */
  ghost predicate HasGhostBox(nodes: seq<seq<RCBInfo>>, j: nat)
    requires nodes != [] && j < |Bottom(nodes)|
  {
    Bottom(nodes)[j].ghostBox.Box?
  }

  /** A point no further than the length from the box in any coordinate. */
  ghost predicate WithinLength(b: Box, len: real, p: Point) {
    && b.Box? && |b.lo| == |p| == |b.hi|
    && forall d :: 0 <= d < |p| ==> b.lo[d] - len <= p[d] <= b.hi[d] + len
  }

  /** A box that, where it is set, reaches the length beyond the other box on both sides of every axis. */
  ghost predicate Reaches(ghostBox: Box, b: Box, len: real) {
    ghostBox.Box? ==>
      && b.Box? && |ghostBox.lo| == |b.lo| == |b.hi| == |ghostBox.hi|
      && forall d :: 0 <= d < |b.lo| ==> ghostBox.lo[d] == b.lo[d] - len && ghostBox.hi[d] == b.hi[d] + len
  }

  lemma HalvesReach(c: Config, parent: RCBInfo, left: RCBInfo, right: RCBInfo)
    requires Splits(c, parent, left, right)
    ensures Reaches(left.ghostBox, left.bbox, c.ghostLen) && Reaches(right.ghostBox, right.bbox, c.ghostLen)
  {
    hide Chosen;
    hide Balanced;
  }

  /** A ghost box, where there is one, reaches the ghost length beyond the node's box in every direction. */
  lemma {:induction false} GhostBoxIsInflated(c: Config, n: nat, nodes: seq<seq<RCBInfo>>, l: nat, k: nat)
    requires IsPartition(c, n, nodes) && l < |nodes| && k < |nodes[l]|
    ensures Reaches(nodes[l][k].ghostBox, nodes[l][k].bbox, c.ghostLen)
  {
    if l > 0 {
      hide Splits;
      hide Reaches;
      var up := Root(k);
      TreeLinks(n, |nodes| - l, up);
      GhostBoxIsInflated(c, n, nodes, l - 1, up);
      assert NodeSplit(c, nodes, l - 1, up);
      if Right(up) < |nodes[l]| { HalvesReach(c, nodes[l - 1][up], nodes[l][Left(up)], nodes[l][Right(up)]); }
    }
  }

  /** The ghost box contains exactly the points within the ghost length of the node's box. */
  lemma GhostBoxContains(c: Config, n: nat, nodes: seq<seq<RCBInfo>>, j: nat, p: Point)
    requires IsPartition(c, n, nodes) && j < |Bottom(nodes)| && HasGhostBox(nodes, j)
    ensures Contains(Bottom(nodes)[j].ghostBox, p) <==> WithinLength(Bottom(nodes)[j].bbox, c.ghostLen, p)
  {
    GhostBoxIsInflated(c, n, nodes, |nodes| - 1, j);
  }

  /** The two halves of a split have ghost boxes together or not at all. */
  lemma BothHalvesBoxed(c: Config, parent: RCBInfo, left: RCBInfo, right: RCBInfo)
    requires Splits(c, parent, left, right)
    ensures left.ghostBox.Box? <==> right.ghostBox.Box?
  {
    hide Chosen;
  }

  /** Two parts under one root were cut together, so that both have a ghost box or neither does. */
  lemma SiblingsShareCut(c: Config, n: nat, nodes: seq<seq<RCBInfo>>, i: nat, j: nat)
    requires IsPartition(c, n, nodes) && i < n && j < n && Siblings(i, j)
    ensures HasGhostBox(nodes, i) <==> HasGhostBox(nodes, j)
  {
    hide Splits;
    OneRoot(n, |nodes| - 1);
    TreeLinks(n, 1, Root(i));
    var up := Root(i);
    assert NodeSplit(c, nodes, |nodes| - 2, up);
    BothHalvesBoxed(c, nodes[|nodes| - 2][up], Bottom(nodes)[Left(up)], Bottom(nodes)[Right(up)]);
  }

  /** The neighbour-list shortcut gives the exact ghost layer.  For a non-negative ghost length, an entity
      of the domain is listed as a ghost of part j if and only if j does not own it, it is within the ghost
      length of j's box in every coordinate, and both j and the owner have a ghost box. */
  lemma ExactGhostLayer(c: Config, n: nat, nodes: seq<seq<RCBInfo>>, i: nat, p: Point, j: nat)
    requires IsPartition(c, n, nodes) && j < n && c.ghostLen >= 0.0 && Contains(nodes[0][0].bbox, p)
    ensures Owner(nodes, p) < n
    ensures Listing(nodes, i, p, j) == [Entity(i, true)]
       <==> && Owner(nodes, p) != j
            && WithinLength(Bottom(nodes)[j].bbox, c.ghostLen, p)
            && HasGhostBox(nodes, j) && HasGhostBox(nodes, Owner(nodes, p))
  {
    var top := |nodes| - 1;
    var d := Owner(nodes, p);
    RouteStaysInBoxes(c, n, nodes, p, top);
    if HasGhostBox(nodes, j) { GhostBoxContains(c, n, nodes, j, p); }
    if HasGhostBox(nodes, d) { GhostBoxContains(c, n, nodes, d, p); }
    if d != j && Siblings(d, j) { SiblingsShareCut(c, n, nodes, d, j); }
    if HasGhostBox(nodes, d) && Contains(Bottom(nodes)[j].ghostBox, p) {
      assert Intersects(Bottom(nodes)[d].ghostBox, Bottom(nodes)[j].ghostBox);
    }
  }

  ghost predicate AllAccepted(nodes: seq<seq<RCBInfo>>) {
    forall l, k :: 0 <= l < |nodes| - 1 && 0 <= k < |nodes[l]| && Right(k) < |nodes[l + 1]|
      ==> nodes[l + 1][Left(k)].ghostBox.Box?
  }

  /** When every cut was accepted, every part of a genuine partition has a ghost box. */
  lemma {:induction false} AcceptedMeansGhostBox(c: Config, n: nat, nodes: seq<seq<RCBInfo>>, l: nat, k: nat)
    requires IsPartition(c, n, nodes) && AllAccepted(nodes) && 1 <= l < |nodes| && k < |nodes[l]|
    ensures nodes[l][k].ghostBox.Box?
  {
    var up := Root(k);
    TreeLinks(n, |nodes| - l, up);
    assert NodeSplit(c, nodes, l - 1, up);
    if Right(up) < |nodes[l]| {
      assert nodes[l][Left(up)].ghostBox.Box?;
      BothHalvesBoxed(c, nodes[l - 1][up], nodes[l][Left(up)], nodes[l][Right(up)]);
    } else {
      OneRoot(n, |nodes| - 2);
      assert l > 1;
      hide Splits;
      AcceptedMeansGhostBox(c, n, nodes, l - 1, up);
    }
  }

  /** Consequence: with every cut accepted, the ghosts of a part are exactly the entities it does not own
      within the ghost length of its box. */
  lemma GhostLayerWhenAccepted(c: Config, n: nat, nodes: seq<seq<RCBInfo>>, i: nat, p: Point, j: nat)
    requires IsPartition(c, n, nodes) && AllAccepted(nodes) && j < n && c.ghostLen >= 0.0
    requires Contains(nodes[0][0].bbox, p)
    ensures Listing(nodes, i, p, j) == [Entity(i, true)]
       <==> Owner(nodes, p) != j && WithinLength(Bottom(nodes)[j].bbox, c.ghostLen, p)
  {
    ExactGhostLayer(c, n, nodes, i, p, j);
    if |nodes| > 1 {
      AcceptedMeansGhostBox(c, n, nodes, |nodes| - 1, j);
      AcceptedMeansGhostBox(c, n, nodes, |nodes| - 1, Owner(nodes, p));
    } else {
      OneRoot(n, 0);
    }
  }
}
