/** The packing functions of src/redecomp/transfer/MatrixTransfer.cpp. */
module MatrixPacking {
  import opened RCBPartition
  import opened Redecomp
  import opened Exchange
  import opened SparsePacking
  import FieldTransfer

  // ----- parent rank of every redecomp element

  /** Element e of block p is marked with p, or with -1 if it is a ghost and ghosts are to be marked. */
  predicate MarkedAt(offsets: seq<nat>, lists: seq<seq<Entity>>, mark: bool, ranks: seq<int>, p: nat, e: nat) {
    p < |lists| && InBlock(offsets, p, e) && e < |ranks| && e - offsets[p] < |lists[p]|
    ==> ranks[e] == if mark && lists[p][e - offsets[p]].isGhost then -1 else p
  }

  ghost predicate Marked(offsets: seq<nat>, lists: seq<seq<Entity>>, mark: bool, ranks: seq<int>) {
    forall p: nat, e: nat :: MarkedAt(offsets, lists, mark, ranks, p, e)
  }

  /** The first loop: as many copies of r as block r has elements. */
  method FillRanks(n: nat, offsets: seq<nat>, ghost lists: seq<seq<Entity>>) returns (ranks: seq<int>)
    requires Layout(n, offsets, lists)
    ensures |ranks| == offsets[n] && Marked(offsets, lists, false, ranks)
    ensures forall e :: 0 <= e < |ranks| ==> 0 <= ranks[e] < n && InBlock(offsets, ranks[e], e)
  {
    LayoutIsRising(n, offsets, lists);
    ranks := [];
    for r := 0 to n
      invariant |ranks| == offsets[r]
      invariant forall e :: 0 <= e < |ranks| ==> 0 <= ranks[e] < r && InBlock(offsets, ranks[e], e)
    {
      assert offsets[r + 1] == offsets[r] + |lists[r]|;
      ranks := ranks + seq(offsets[r + 1] - offsets[r], _ => r);
    }
    forall p: nat, e: nat ensures MarkedAt(offsets, lists, false, ranks, p, e) {
      if p < |lists| && InBlock(offsets, p, e) && e < |ranks| { BlockIsUnique(offsets, p, ranks[e], e); }
    }
  }

  /** The ghost cursor belongs to block r and is past the ghosts before element e. */
  ghost predicate CursorAt(n: nat, offsets: seq<nat>, lists: seq<seq<Entity>>, r: nat, cursor: nat, e: nat) {
    && Layout(n, offsets, lists) && r < n && offsets[r] <= e <= offsets[r + 1]
    && cursor == |GhostsOf(lists[r][..e - offsets[r]], offsets[r])|
  }

  /** A cursor that meets an element of another block is at its first element, and starts anew. */
  lemma NextBlock(n: nat, offsets: seq<nat>, lists: seq<seq<Entity>>, r: nat, cursor: nat, e: nat, p: nat)
    requires CursorAt(n, offsets, lists, r, cursor, e) && p < n && InBlock(offsets, p, e) && p != r
    ensures CursorAt(n, offsets, lists, p, 0, e)
  {
    if p < r { LayoutRises(n, offsets, lists, p + 1, r); } else { LayoutRises(n, offsets, lists, r + 1, p); }
    assert lists[p][..0] == [];
  }

  lemma CursorMoves(n: nat, offsets: seq<nat>, lists: seq<seq<Entity>>, r: nat, cursor: nat, e: nat)
    requires CursorAt(n, offsets, lists, r, cursor, e) && InBlock(offsets, r, e)
    ensures var ghosts := GhostsOf(lists[r], offsets[r]);
      && (lists[r][e - offsets[r]].isGhost <==> cursor < |ghosts| && ghosts[cursor] == e)
      && CursorAt(n, offsets, lists, r, if lists[r][e - offsets[r]].isGhost then cursor + 1 else cursor, e + 1)
  {
    CursorTest(lists[r], offsets[r], e - offsets[r]);
  }

  /** The second loop: marks ghosts with -1, with a cursor over the sorted ghosts of each block. */
  method MarkGhosts(n: nat, offsets: seq<nat>, ghosts: seq<seq<nat>>, ranks0: seq<int>, ghost lists: seq<seq<Entity>>)
    returns (ranks: seq<int>)
    requires Layout(n, offsets, lists) && |ghosts| == n && |ranks0| == offsets[n]
    requires forall p :: 0 <= p < n ==> ghosts[p] == GhostsOf(lists[p], offsets[p])
    requires forall e :: 0 <= e < |ranks0| ==> 0 <= ranks0[e] < n && InBlock(offsets, ranks0[e], e)
    ensures |ranks| == |ranks0| && Marked(offsets, lists, true, ranks)
  {
    ranks := ranks0;
    var cursor: nat, r: nat := 0, 0;
    LayoutIsRising(n, offsets, lists);
    assert lists[0][..0] == [];
    for e := 0 to |ranks0|
      invariant |ranks| == |ranks0| && CursorAt(n, offsets, lists, r, cursor, e)
      invariant forall x :: 0 <= x < e ==> MarkedAt(offsets, lists, true, ranks, ranks0[x], x)
      invariant forall x :: e <= x < |ranks| ==> ranks[x] == ranks0[x]
    {
      if r != ranks[e] {
        NextBlock(n, offsets, lists, r, cursor, e, ranks[e]);
        r := ranks[e];
        cursor := 0;
      }
      CursorMoves(n, offsets, lists, r, cursor, e);
      if cursor < |ghosts[r]| && ghosts[r][cursor] == e {
        ranks := ranks[e := -1];
        cursor := cursor + 1;
      }
    }
    AllMarked(offsets, lists, ranks0, ranks);
  }

  lemma AllMarked(offsets: seq<nat>, lists: seq<seq<Entity>>, ranks0: seq<int>, ranks: seq<int>)
    requires Rising(offsets) && |ranks| == |ranks0|
    requires forall e :: 0 <= e < |ranks0| ==> 0 <= ranks0[e] && InBlock(offsets, ranks0[e], e)
    requires forall x :: 0 <= x < |ranks| ==> MarkedAt(offsets, lists, true, ranks, ranks0[x], x)
    ensures Marked(offsets, lists, true, ranks)
  {
    forall p: nat, e: nat ensures MarkedAt(offsets, lists, true, ranks, p, e) {
      if p < |lists| && InBlock(offsets, p, e) && e < |ranks| { BlockIsUnique(offsets, p, ranks0[e], e); }
    }
  }

  /** The mark of element e: its block, or -1 if it is a ghost and ghosts are to be marked. */
  function MarkOf(n: nat, offsets: seq<nat>, lists: seq<seq<Entity>>, mark: bool, e: nat): (r: int)
    requires Layout(n, offsets, lists) && e < offsets[n]
    ensures -1 <= r < n
  {
    var p := BlockOf(offsets, n, e);
    if mark && lists[p][e - offsets[p]].isGhost then -1 else p
  }

  function ElemRanks(n: nat, offsets: seq<nat>, lists: seq<seq<Entity>>, mark: bool): (r: seq<int>)
    requires Layout(n, offsets, lists)
    ensures |r| == offsets[n] && forall e :: 0 <= e < |r| ==> r[e] == MarkOf(n, offsets, lists, mark, e)
  {
    seq(offsets[n], e requires 0 <= e < offsets[n] => MarkOf(n, offsets, lists, mark, e))
  }

  method BuildElemRank(n: nat, offsets: seq<nat>, ghosts: seq<seq<nat>>, mark: bool, ghost lists: seq<seq<Entity>>)
    returns (ranks: seq<int>)
    requires Layout(n, offsets, lists) && |ghosts| == n
    requires forall p :: 0 <= p < n ==> ghosts[p] == GhostsOf(lists[p], offsets[p])
    ensures ranks == ElemRanks(n, offsets, lists, mark)
  {
    ranks := FillRanks(n, offsets, lists);
    if mark {
      ranks := MarkGhosts(n, offsets, ghosts, ranks, lists);
    }
    forall e | 0 <= e < |ranks| ensures ranks[e] == MarkOf(n, offsets, lists, mark, e) {
      assert MarkedAt(offsets, lists, mark, ranks, BlockOf(offsets, n, e), e);
    }
  }

  /** The meaning of a mark: an element is marked with p exactly if it is an element of block p that is no
      ghost. */
  lemma MarkMeaning(n: nat, offsets: seq<nat>, lists: seq<seq<Entity>>, e: nat, p: nat)
    requires Layout(n, offsets, lists) && e < offsets[n] && p < n
    ensures MarkOf(n, offsets, lists, true, e) == p
       <==> offsets[p] <= e < offsets[p] + |lists[p]| && !lists[p][e - offsets[p]].isGhost
  {
    LayoutIsRising(n, offsets, lists);
    if offsets[p] <= e < offsets[p] + |lists[p]| { BlockIsUnique(offsets, p, BlockOf(offsets, n, e), e); }
  }

  /** Element e of redecomp rank q stands for an element of parent rank p, and is no ghost. */
  predicate OwnedBy(n: nat, p2r: ElementLists, q: nat, p: nat, e: nat)
    requires Square(n, p2r) && q < n && p < n
  {
    var first := Offset(n, p2r, q, p);
    first <= e < first + |p2r[p][q]| && !p2r[p][q][e - first].isGhost
  }

  /** The marks of a redecomp rank tell its owners. */
  lemma MarkIsOwner(n: nat, p2r: ElementLists, q: nat, p: nat, e: nat)
    requires n >= 1 && Square(n, p2r) && q < n && p < n && e < Offset(n, p2r, q, n)
    ensures Layout(n, Offsets(n, p2r, q), ListsTo(n, p2r, q))
    ensures MarkOf(n, Offsets(n, p2r, q), ListsTo(n, p2r, q), true, e) == p <==> OwnedBy(n, p2r, q, p, e)
  {
    hide Layout;
    hide Rising;
    hide MarkOf;
    hide SumTo;
    OffsetsLayout(n, p2r, q);
    MarkMeaning(n, Offsets(n, p2r, q), ListsTo(n, p2r, q), e, p);
  }

  // ----- lists for each test rank

  /** Test and trial element of one element matrix. */
  datatype Pair = Pair(test: nat, trial: nat)

  /** The matrices whose test element is owned by parent rank r, in order. */
  function Ids(ranks: seq<int>, pairs: seq<Pair>, r: nat): seq<nat>
    requires InRanks(ranks, pairs)
  {
    if pairs == [] then []
    else
      var m := |pairs| - 1;
      Ids(ranks, pairs[..m], r) + if ranks[pairs[m].test] == r then [m] else []
  }

  predicate InRanks(ranks: seq<int>, pairs: seq<Pair>) {
    forall i :: 0 <= i < |pairs| ==> pairs[i].test < |ranks|
  }

  predicate Ranked(n: nat, ranks: seq<int>) {
    forall e :: 0 <= e < |ranks| ==> -1 <= ranks[e] < n
  }

  lemma {:induction false} IdsInRange(ranks: seq<int>, pairs: seq<Pair>, r: nat)
    requires InRanks(ranks, pairs)
    ensures forall k :: 0 <= k < |Ids(ranks, pairs, r)| ==> Ids(ranks, pairs, r)[k] < |pairs|
    ensures forall k :: 0 <= k < |Ids(ranks, pairs, r)| ==> ranks[pairs[Ids(ranks, pairs, r)[k]].test] == r
  {
    if pairs != [] { IdsInRange(ranks, pairs[..|pairs| - 1], r); }
  }

  lemma IdsSnoc(ranks: seq<int>, pairs: seq<Pair>, i: nat, r: nat)
    requires InRanks(ranks, pairs) && i < |pairs|
    ensures Ids(ranks, pairs[..i + 1], r)
         == if ranks[pairs[i].test] == r then Ids(ranks, pairs[..i], r) + [i] else Ids(ranks, pairs[..i], r)
  {
    assert pairs[..i + 1][..i] == pairs[..i];
  }

  /** What f says about the listed matrices, in order. */
  function Gather<T>(ids: seq<nat>, f: nat -> T): (r: seq<T>)
    ensures |r| == |ids| && forall k :: 0 <= k < |ids| ==> r[k] == f(ids[k])
  {
    seq(|ids|, k requires 0 <= k < |ids| => f(ids[k]))
  }

  lemma GatherSnoc<T>(ids: seq<nat>, i: nat, f: nat -> T)
    ensures Gather(ids + [i], f) == Gather(ids, f) + [f(i)]
  {
  }

  /** Every list holds f of the matrices for its rank. */
  ghost predicate Gathered<T>(n: nat, ranks: seq<int>, pairs: seq<Pair>, lists: seq<seq<T>>, f: nat -> T)
    requires InRanks(ranks, pairs)
  {
    |lists| == n && forall r :: 0 <= r < n ==> lists[r] == Gather(Ids(ranks, pairs, r), f)
  }

  lemma GatheredStep<T>(n: nat, ranks: seq<int>, pairs: seq<Pair>, i: nat, lists: seq<seq<T>>, f: nat -> T)
    requires InRanks(ranks, pairs) && Ranked(n, ranks) && i < |pairs| && Gathered(n, ranks, pairs[..i], lists, f)
    ensures var r := ranks[pairs[i].test];
      Gathered(n, ranks, pairs[..i + 1], if r == -1 then lists else lists[r := lists[r] + [f(i)]], f)
  {
    forall r | 0 <= r < n
      ensures Gather(Ids(ranks, pairs[..i + 1], r), f)
           == if ranks[pairs[i].test] == r then lists[r] + [f(i)] else lists[r]
    {
      IdsSnoc(ranks, pairs, i, r);
      GatherSnoc(Ids(ranks, pairs[..i], r), i, f);
    }
  }

  function Itself(): nat -> nat {
    (i: nat) => i
  }

  method BuildSendArrayIDs(n: nat, ranks: seq<int>, pairs: seq<Pair>) returns (ids: seq<seq<nat>>)
    requires InRanks(ranks, pairs) && Ranked(n, ranks)
    ensures Gathered(n, ranks, pairs, ids, Itself())
  {
    ids := seq(n, _ => []);
    for i := 0 to |pairs|
      invariant Gathered(n, ranks, pairs[..i], ids, Itself())
    {
      GatheredStep(n, ranks, pairs, i, ids, Itself());
      var r := ranks[pairs[i].test];
      if r != -1 {
        ids := ids[r := ids[r] + [i]];
      }
    }
    assert pairs[..|pairs|] == pairs;
  }

  /** Number of vector dofs of the test and trial element of matrix i. */
  function SizesOf(pairs: seq<Pair>, nTest: seq<nat>, nTrial: seq<nat>): nat -> (nat, nat) {
    (i: nat) => if i < |pairs| && pairs[i].test < |nTest| && pairs[i].trial < |nTrial|
                then (nTest[pairs[i].test], nTrial[pairs[i].trial]) else (0, 0)
  }

  predicate SizesKnown(pairs: seq<Pair>, nTest: seq<nat>, nTrial: seq<nat>) {
    forall i :: 0 <= i < |pairs| ==> pairs[i].test < |nTest| && pairs[i].trial < |nTrial|
  }

  method BuildSendMatSizes(n: nat, ranks: seq<int>, pairs: seq<Pair>, nTest: seq<nat>, nTrial: seq<nat>)
    returns (sizes: seq<seq<(nat, nat)>>)
    requires InRanks(ranks, pairs) && Ranked(n, ranks) && SizesKnown(pairs, nTest, nTrial)
    ensures Gathered(n, ranks, pairs, sizes, SizesOf(pairs, nTest, nTrial))
  {
    ghost var f := SizesOf(pairs, nTest, nTrial);
    sizes := seq(n, _ => []);
    for i := 0 to |pairs|
      invariant Gathered(n, ranks, pairs[..i], sizes, f)
    {
      GatheredStep(n, ranks, pairs, i, sizes, f);
      var r := ranks[pairs[i].test];
      if r != -1 {
        sizes := sizes[r := sizes[r] + [(nTest[pairs[i].test], nTrial[pairs[i].trial])]];
      }
    }
    assert pairs[..|pairs|] == pairs;
  }

  /** Position of the test element of matrix i in the block of its parent rank. */
  function TestOffsetOf(pairs: seq<Pair>, offsets: seq<nat>, ranks: seq<int>): nat -> nat {
    (i: nat) =>
      if i < |pairs| && pairs[i].test < |ranks| && 0 <= ranks[pairs[i].test] < |offsets|
         && offsets[ranks[pairs[i].test]] <= pairs[i].test
      then pairs[i].test - offsets[ranks[pairs[i].test]] else 0
  }

  method BuildSendTestElemOffsets(n: nat, ranks: seq<int>, pairs: seq<Pair>, offsets: seq<nat>)
    returns (send: seq<seq<nat>>)
    requires InRanks(ranks, pairs) && Ranked(n, ranks) && |offsets| == n + 1
    requires forall e :: 0 <= e < |ranks| && ranks[e] != -1 ==> offsets[ranks[e]] <= e
    ensures Gathered(n, ranks, pairs, send, TestOffsetOf(pairs, offsets, ranks))
  {
    ghost var f := TestOffsetOf(pairs, offsets, ranks);
    send := seq(n, _ => []);
    for i := 0 to |pairs|
      invariant Gathered(n, ranks, pairs[..i], send, f)
    {
      GatheredStep(n, ranks, pairs, i, send, f);
      var r := ranks[pairs[i].test];
      if r != -1 {
        assert f(i) == pairs[i].test - offsets[r];
        send := send[r := send[r] + [pairs[i].test - offsets[r]]];
      }
    }
    assert pairs[..|pairs|] == pairs;
  }

  /** Number of values for each rank: the sum of the sizes of its matrices. */
  function Entries(sizes: seq<(nat, nat)>): nat {
    if sizes == [] then 0 else Entries(sizes[..|sizes| - 1]) + Volume(sizes[|sizes| - 1])
  }

  /** Number of values of a matrix, column by column. */
  function Volume(size: (nat, nat)): nat
    decreases size.1
  {
    if size.1 == 0 then 0 else Volume((size.0, size.1 - 1)) + size.0
  }

  lemma {:induction false} VolumeIsProduct(rows: nat, cols: nat)
    ensures Volume((rows, cols)) == rows * cols
    decreases cols
  {
    if cols > 0 {
      VolumeIsProduct(rows, cols - 1);
      assert rows * cols == rows * (cols - 1) + rows;
    }
  }

  method EntrySize(rows: nat, cols: nat) returns (size: nat)
    ensures size == Volume((rows, cols))
  {
    size := rows * cols;
    VolumeIsProduct(rows, cols);
  }

  ghost predicate Counted(n: nat, ranks: seq<int>, pairs: seq<Pair>, nums: seq<nat>, f: nat -> (nat, nat))
    requires InRanks(ranks, pairs)
  {
    |nums| == n && forall r :: 0 <= r < n ==> nums[r] == Entries(Gather(Ids(ranks, pairs, r), f))
  }

  lemma CountedStart(n: nat, ranks: seq<int>, nums: seq<nat>, f: nat -> (nat, nat))
    requires |nums| == n && forall r :: 0 <= r < n ==> nums[r] == 0
    ensures Counted(n, ranks, [], nums, f)
  {
    assert forall r: nat :: Gather(Ids(ranks, [], r), f) == [];
  }

  lemma CountedStep(n: nat, ranks: seq<int>, pairs: seq<Pair>, i: nat, nums: seq<nat>, f: nat -> (nat, nat))
    requires InRanks(ranks, pairs) && Ranked(n, ranks) && i < |pairs| && Counted(n, ranks, pairs[..i], nums, f)
    ensures var r := ranks[pairs[i].test];
      Counted(n, ranks, pairs[..i + 1], if r == -1 then nums else nums[r := nums[r] + Volume(f(i))], f)
  {
    forall r | 0 <= r < n
      ensures Entries(Gather(Ids(ranks, pairs[..i + 1], r), f))
           == nums[r] + if ranks[pairs[i].test] == r then Volume(f(i)) else 0
    {
      IdsSnoc(ranks, pairs, i, r);
      GatherSnoc(Ids(ranks, pairs[..i], r), i, f);
      var g := Gather(Ids(ranks, pairs[..i], r), f);
      assert (g + [f(i)])[..|g|] == g;
    }
  }

  method BuildSendNumMatEntries(n: nat, ranks: seq<int>, pairs: seq<Pair>, nTest: seq<nat>, nTrial: seq<nat>)
    returns (nums: seq<nat>)
    requires InRanks(ranks, pairs) && Ranked(n, ranks) && SizesKnown(pairs, nTest, nTrial)
    ensures Counted(n, ranks, pairs, nums, SizesOf(pairs, nTest, nTrial))
  {
    ghost var f := SizesOf(pairs, nTest, nTrial);
    nums := seq(n, _ => 0);
    assert pairs[..0] == [];
    CountedStart(n, ranks, nums, f);
    for i := 0 to |pairs|
      invariant Counted(n, ranks, pairs[..i], nums, f)
    {
      nums := CountPair(n, ranks, pairs, nTest, nTrial, i, nums);
    }
    assert pairs[..|pairs|] == pairs;
  }

  /** One turn of the loop: the size of matrix i is added for the rank of its test element. */
  method CountPair(n: nat, ranks: seq<int>, pairs: seq<Pair>, nTest: seq<nat>, nTrial: seq<nat>, i: nat,
                   nums0: seq<nat>) returns (nums: seq<nat>)
    requires InRanks(ranks, pairs) && Ranked(n, ranks) && SizesKnown(pairs, nTest, nTrial) && i < |pairs|
    requires Counted(n, ranks, pairs[..i], nums0, SizesOf(pairs, nTest, nTrial))
    ensures Counted(n, ranks, pairs[..i + 1], nums, SizesOf(pairs, nTest, nTrial))
  {
    CountedStep(n, ranks, pairs, i, nums0, SizesOf(pairs, nTest, nTrial));
    nums := nums0;
    var r := ranks[pairs[i].test];
    if r != -1 {
      var size := EntrySize(nTest[pairs[i].test], nTrial[pairs[i].trial]);
      nums := nums[r := nums[r] + size];
    }
  }

  // ----- values

  /** The values of matrix i in the flat buffer. */
  function ValuesOf(pairs: seq<Pair>, nTest: seq<nat>, nTrial: seq<nat>, data: seq<real>, starts: seq<nat>)
    : nat -> seq<real>
  {
    (i: nat) => if FlatEntry(pairs, nTest, nTrial, data, starts, i)
                then data[starts[i]..starts[i] + Volume((nTest[pairs[i].test], nTrial[pairs[i].trial]))] else []
  }

  lemma ValuesLength(pairs: seq<Pair>, nTest: seq<nat>, nTrial: seq<nat>, data: seq<real>, starts: seq<nat>, i: nat)
    requires FlatEntry(pairs, nTest, nTrial, data, starts, i)
    ensures |ValuesOf(pairs, nTest, nTrial, data, starts)(i)| == Volume((nTest[pairs[i].test], nTrial[pairs[i].trial]))
  {
  }

  /** The bounds that validateFlatMatrices checks. */
  predicate FlatEntry(pairs: seq<Pair>, nTest: seq<nat>, nTrial: seq<nat>, data: seq<real>, starts: seq<nat>, i: nat) {
    && i < |pairs| && i < |starts| && pairs[i].test < |nTest| && pairs[i].trial < |nTrial|
    && starts[i] + Volume((nTest[pairs[i].test], nTrial[pairs[i].trial])) <= |data|
  }

  /** The buffer for one rank: the values of its matrices, one after the other. */
  method PackValues(ids: seq<nat>, pairs: seq<Pair>, nTest: seq<nat>, nTrial: seq<nat>, data: seq<real>,
                    starts: seq<nat>) returns (buffer: seq<real>)
    requires forall k :: 0 <= k < |ids| ==> FlatEntry(pairs, nTest, nTrial, data, starts, ids[k])
    ensures buffer == FieldTransfer.Concat(Gather(ids, ValuesOf(pairs, nTest, nTrial, data, starts)))
  {
    ghost var blocks := Gather(ids, ValuesOf(pairs, nTest, nTrial, data, starts));
    buffer := [];
    for k := 0 to |ids|
      invariant buffer == FieldTransfer.Concat(blocks[..k])
    {
      FieldTransfer.ConcatSnoc(blocks, k);
      var i := ids[k];
      var size := EntrySize(nTest[pairs[i].test], nTrial[pairs[i].trial]);
      buffer := buffer + data[starts[i]..starts[i] + size];
    }
    assert blocks[..|ids|] == blocks;
  }
}
