/** Partitioning and field transfer together: RCB::generatePartitioning of src/redecomp/partition/RCB.cpp
    on every rank makes the element lists that src/redecomp/RedecompTransfer.cpp works with. */
module Repartition {
  import opened Boxes
  import opened Exchange
  import opened RCBTree
  import opened RCBPartition
  import opened Redecomp
  import opened FieldTransfer

  /** The lists that all ranks together get from one partition of one distributed mesh; c.coords[p] are
      the element centroids of parent rank p. */
  ghost predicate Partitioned(c: Config, n: nat, nRanks: nat, nodes: seq<seq<RCBInfo>>, p2r: ElementLists) {
    && IsPartition(c, n, nodes) && 1 <= n <= nRanks && |c.coords| == nRanks && Square(nRanks, p2r)
    && forall p :: 0 <= p < nRanks ==> PartitionedRow(n, nRanks, nodes, c.coords[p], p2r[p])
  }

  ghost predicate PartitionedRow(n: nat, nRanks: nat, nodes: seq<seq<RCBInfo>>, coords: seq<Point>,
                                 row: seq<seq<Entity>>) {
    && AllOwned(nodes, n, coords) && |row| == nRanks
    && forall q :: 0 <= q < nRanks ==> row[q] == RankList(nodes, n, nRanks, coords, q)
  }

  lemma {:induction false} FlatHas(coords: seq<seq<Point>>, p: nat, i: nat)
    requires p < |coords| && i < |coords[p]|
    ensures coords[p][i] in Flat(coords)
  {
    if p < |coords| - 1 { FlatHas(coords[..|coords| - 1], p, i); }
  }

  /** generatePartitioning on all ranks. */
  method PartitionAll(c: Config, n: nat, nRanks: nat, ghost grid: set<real>, big: real)
    returns (nodes: seq<seq<RCBInfo>>, p2r: ElementLists)
    requires 1 <= n <= nRanks && |c.coords| == nRanks && Configured(c, grid, big)
    ensures Partitioned(c, n, nRanks, nodes, p2r)
  {
    nodes := BuildProblemTree(c, n, grid, big);
    p2r := [];
    for p := 0 to nRanks
      invariant |p2r| == p
      invariant forall a :: 0 <= a < p ==> PartitionedRow(n, nRanks, nodes, c.coords[a], p2r[a])
    {
      forall i | 0 <= i < |c.coords[p]| ensures Contains(nodes[0][0].bbox, c.coords[p][i]) {
        FlatHas(c.coords, p, i);
      }
      var row := GeneratePartitioning(c, n, nRanks, nodes, c.coords[p]);
      assert PartitionedRow(n, nRanks, nodes, c.coords[p], row);
      p2r := p2r + [row];
    }
  }

  /** Every element of every parent rank is listed without ghost mark for exactly one redecomp rank: the
      rank that hosts the part its centroid is routed to.  No list names an element twice, and all lists
      name existing elements. */
  lemma OneOwner(c: Config, n: nat, nRanks: nat, nodes: seq<seq<RCBInfo>>, p2r: ElementLists, p: nat, q: nat)
    requires Partitioned(c, n, nRanks, nodes, p2r) && p < nRanks && q < nRanks
    ensures FieldTransfer.InRange(p2r[p][q], |c.coords[p]|)
    ensures forall x :: 0 <= x < |c.coords[p]|
              ==> Owner(nodes, c.coords[p][x]) < n
                  && (OwnedBy(p2r, p, x, q) <==> q == RankOf(nRanks, n, Owner(nodes, c.coords[p][x])))
    ensures forall a, b :: 0 <= a < b < |p2r[p][q]| ==> p2r[p][q][a].index < p2r[p][q][b].index
  {
    var coords := c.coords[p];
    assert PartitionedRow(n, nRanks, nodes, coords, p2r[p]);
    forall i | 0 <= i < |coords| ensures Contains(nodes[0][0].bbox, coords[i]) { FlatHas(c.coords, p, i); }
    ListsByRank(nodes, n, nRanks, coords);
    if j :| 0 <= j < n && RankOf(nRanks, n, j) == q {
      UniqueOwnership(c, n, nodes, coords, j);
      forall x | 0 <= x < |coords|
        ensures OwnedBy(p2r, p, x, q) <==> q == RankOf(nRanks, n, Owner(nodes, coords[x]))
      {
        RanksAreDistinct(nRanks, n, j, Owner(nodes, coords[x]));
        RanksAreDistinct(nRanks, n, Owner(nodes, coords[x]), j);
      }
      forall k | 0 <= k < |p2r[p][q]| ensures p2r[p][q][k].index < |coords| { assert p2r[p][q][k] in p2r[p][q]; }
    } else {
      assert p2r[p][q] == [];
    }
  }

  /** The hypothesis of the field round trip, provided by the partition. */
  lemma AllCovered<T>(c: Config, n: nat, nRanks: nat, nodes: seq<seq<RCBInfo>>, p2r: ElementLists, src: seq<Field<T>>)
    requires Partitioned(c, n, nRanks, nodes, p2r) && |src| == nRanks
    requires forall p :: 0 <= p < nRanks ==> |src[p]| == |c.coords[p]|
    ensures Listed(nRanks, p2r, src)
    ensures forall p, x :: 0 <= p < nRanks && 0 <= x < |src[p]| ==> Covered(nRanks, p2r, p, x)
  {
    forall p, q | 0 <= p < nRanks && 0 <= q < nRanks ensures FieldTransfer.InRange(p2r[p][q], |src[p]|) {
      OneOwner(c, n, nRanks, nodes, p2r, p, q);
    }
    forall p, x | 0 <= p < nRanks && 0 <= x < |src[p]| ensures Covered(nRanks, p2r, p, x) {
      OneOwner(c, n, nRanks, nodes, p2r, p, 0);
      var q := RankOf(nRanks, n, Owner(nodes, c.coords[p][x]));
      RanksAreDistinct(nRanks, n, Owner(nodes, c.coords[p][x]), 0);
      OneOwner(c, n, nRanks, nodes, p2r, p, q);
      assert OwnedBy(p2r, p, x, q);
    }
  }

  /** Partition the mesh, move a field to the redecomp mesh and move it back: the field is restored on
      every parent rank, whatever the centroids, the number of parts and the number of ranks are. */
  method PartitionAndReturn<T>(c: Config, n: nat, nRanks: nat, ghost grid: set<real>, big: real, src: seq<Field<T>>,
                               blank: T) returns (dst: seq<Field<T>>)
    requires 1 <= n <= nRanks && |c.coords| == nRanks && Configured(c, grid, big)
    requires |src| == nRanks && forall p :: 0 <= p < nRanks ==> |src[p]| == |c.coords[p]|
    ensures dst == src
  {
    var nodes, p2r := PartitionAll(c, n, nRanks, grid, big);
    AllCovered(c, n, nRanks, nodes, p2r, src);
    var serial0 := seq(nRanks, q requires 0 <= q < nRanks => Blank(ToSerial(nRanks, p2r, src, q), blank));
    var dst0 := seq(nRanks, p requires 0 <= p < nRanks => Blank(src[p], blank));
    dst := RoundTrip(nRanks, p2r, src, serial0, dst0);
  }

  /** A field of the same shape, without its values. */
  function Blank<T>(field: Field<T>, blank: T): (r: Field<T>)
    ensures SameShape(r, field)
  {
    seq(|field|, e requires 0 <= e < |field| => seq(|field[e]|, _ => blank))
  }
}
