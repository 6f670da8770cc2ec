/** SparseMatrixTransfer::TransferToParallel of src/redecomp/transfer/SparseMatrixTransfer.cpp on all
    ranks, and the conservation of the matrix. */
module SparseBlocks {
  import opened RCBPartition
  import opened SparsePacking
  import opened CsrAssembly

  /** One redecomp rank: its matrix, the offsets and lists of its trial blocks, and the first column of
      each parent rank. */
  datatype Local = Local(src: Csr, trial: seq<nat>, lists: seq<seq<Entity>>, starts: seq<nat>)

  ghost predicate Good(l: Local) {
    ColumnsInBlocks(l.src, l.trial) && RowsOf(l.src) && |l.lists| + 1 == |l.trial| == |l.starts|
  }

  function IndexAt(list: seq<Entity>, k: nat): nat {
    if k < |list| then list[k].index else 0
  }

  /** What becomes of a packed entry on the parent rank whose rows are `list`: its offsets are replaced by
      parent elements. */
  function Arrive(l: Local, list: seq<Entity>, e: Entry): Arrived {
    Arrived(IndexAt(list, e.row), if e.colRank < |l.lists| then IndexAt(l.lists[e.colRank], e.col) else 0,
            e.colRank, e.value)
  }

  function ArriveAll(l: Local, list: seq<Entity>, items: seq<Entry>): (r: seq<Arrived>)
    ensures |r| == |items| && forall i :: 0 <= i < |items| ==> r[i] == Arrive(l, list, items[i])
  {
    seq(|items|, i requires 0 <= i < |items| => Arrive(l, list, items[i]))
  }

  /** The global number of the parent element that column j stands for. */
  function GlobalColumn(l: Local, j: nat): nat
    requires Good(l) && j < l.trial[|l.trial| - 1]
  {
    var c := ColumnRank(l.trial, j);
    l.starts[c] + IndexAt(l.lists[c], j - l.trial[c])
  }

  lemma ColumnOfBlock(l: Local, c: nat, x: nat)
    requires Good(l) && Rising(l.trial) && c + 1 < |l.trial| && l.trial[c] + x < l.trial[c + 1]
    ensures l.trial[c] + x < l.trial[|l.trial| - 1]
    ensures GlobalColumn(l, l.trial[c] + x) == l.starts[c] + IndexAt(l.lists[c], x)
  {
    var j := l.trial[c] + x;
    assert l.trial[c + 1] <= l.trial[|l.trial| - 1];
    BlockIsUnique(l.trial, ColumnRank(l.trial, j), c, j);
  }

  // ----- the source side of the sum

  function EntryValue(l: Local, x: nat, g: nat): real
    requires Good(l) && x < |l.src.J|
  {
    if GlobalColumn(l, l.src.J[x]) == g then l.src.data[x] else 0.0
  }

  /** Sum of the entries [x, y) of the matrix whose global column is g. */
  function RangeSum(l: Local, x: nat, y: nat, g: nat): real
    requires Good(l) && x <= y <= |l.src.J|
  {
    if x == y then 0.0 else RangeSum(l, x, y - 1, g) + EntryValue(l, y - 1, g)
  }

  /** Sum over the first m rows of the block that starts at row first: the rows that are no ghosts and stand
      for element k. */
  function BlockSum(l: Local, first: nat, list: seq<Entity>, m: nat, k: nat, g: nat): real
    requires Good(l) && m <= |list| && first + |list| < |l.src.I|
  {
    if m == 0 then 0.0
    else
      BlockSum(l, first, list, m - 1, k, g) +
      if !list[m - 1].isGhost && list[m - 1].index == k
      then RangeSum(l, l.src.I[first + m - 1], l.src.I[first + m], g) else 0.0
  }

  /** The row of the block is no ghost and stands for element k. */
  ghost predicate StandsFor(list: seq<Entity>, r: nat, k: nat)
    requires r < |list|
  {
    !list[r].isGhost && list[r].index == k
  }

  /** Ghost rows, and rows of other elements, add nothing. */
  lemma {:induction false} OthersAddNothing(l: Local, first: nat, list: seq<Entity>, m: nat, k: nat, g: nat)
    requires Good(l) && m <= |list| && first + |list| < |l.src.I|
    requires forall r :: 0 <= r < m ==> !StandsFor(list, r, k)
    ensures BlockSum(l, first, list, m, k, g) == 0.0
  {
    if m > 0 {
      assert !StandsFor(list, m - 1, k);
      OthersAddNothing(l, first, list, m - 1, k, g);
    }
  }

  /** A row that alone stands for element k adds its own entries. */
  lemma {:induction false} OneRowAdds(l: Local, first: nat, list: seq<Entity>, m: nat, k: nat, g: nat, r: nat)
    requires Good(l) && m <= |list| && first + |list| < |l.src.I|
    requires r < m && forall s :: 0 <= s < m ==> (StandsFor(list, s, k) <==> s == r)
    ensures l.src.I[first + r] <= l.src.I[first + r + 1] <= |l.src.J|
    ensures BlockSum(l, first, list, m, k, g) == RangeSum(l, l.src.I[first + r], l.src.I[first + r + 1], g)
  {
    assert StandsFor(list, r, k);
    if r == m - 1 {
      OthersAddNothing(l, first, list, m - 1, k, g);
    } else {
      assert !StandsFor(list, m - 1, k);
      OneRowAdds(l, first, list, m - 1, k, g, r);
    }
  }

  /** Among entries with different global columns, the sum for the column of one of them is its value. */
  lemma {:induction false} OneEntryAdds(l: Local, x: nat, y: nat, g: nat, z: nat)
    requires Good(l) && x <= z < y <= |l.src.J|
    requires forall w :: x <= w < y ==> (GlobalColumn(l, l.src.J[w]) == g <==> w == z)
    ensures RangeSum(l, x, y, g) == l.src.data[z]
    decreases y
  {
    if z == y - 1 {
      NoEntryAdds(l, x, y - 1, g);
    } else {
      OneEntryAdds(l, x, y - 1, g, z);
    }
  }

  lemma {:induction false} NoEntryAdds(l: Local, x: nat, y: nat, g: nat)
    requires Good(l) && x <= y <= |l.src.J|
    requires forall w :: x <= w < y ==> GlobalColumn(l, l.src.J[w]) != g
    ensures RangeSum(l, x, y, g) == 0.0
    decreases y
  {
    if x < y { NoEntryAdds(l, x, y - 1, g); }
  }

  // ----- the packed and received side

  /** What some packed entries add to row k and global column g. */
  function Share(l: Local, list: seq<Entity>, items: seq<Entry>, k: nat, g: nat): real {
    Dense(ArriveAll(l, list, items), l.starts, k, g)
  }

  lemma {:induction false} DenseConcat(a: seq<Arrived>, b: seq<Arrived>, starts: seq<nat>, k: nat, g: nat)
    ensures Dense(a + b, starts, k, g) == Dense(a, starts, k, g) + Dense(b, starts, k, g)
  {
    if b == [] {
      assert a + b == a;
    } else {
      DenseConcat(a, b[..|b| - 1], starts, k, g);
      assert (a + b)[..|a + b| - 1] == a + b[..|b| - 1];
    }
  }

  lemma ShareConcat(l: Local, list: seq<Entity>, a: seq<Entry>, b: seq<Entry>, k: nat, g: nat)
    ensures Share(l, list, a + b, k, g) == Share(l, list, a, k, g) + Share(l, list, b, k, g)
  {
    assert ArriveAll(l, list, a + b) == ArriveAll(l, list, a) + ArriveAll(l, list, b);
    DenseConcat(ArriveAll(l, list, a), ArriveAll(l, list, b), l.starts, k, g);
  }

  lemma ShareOfOne(l: Local, list: seq<Entity>, row: nat, x: nat, k: nat, g: nat)
    requires Good(l) && row < |list| && x < |l.src.J|
    ensures Share(l, list, [EntryAt(l.src, row, l.trial, x)], k, g)
         == if list[row].index == k then EntryValue(l, x, g) else 0.0
  {
    var e := EntryAt(l.src, row, l.trial, x);
    var one := ArriveAll(l, list, [e]);
    assert one == [Arrive(l, list, e)];
    assert Global(l.starts, one[0]) == GlobalColumn(l, l.src.J[x]);
    assert Dense(one[..0], l.starts, k, g) == 0.0;
  }

  lemma {:induction false} ShareOfRow(l: Local, list: seq<Entity>, row: nat, x: nat, y: nat, k: nat, g: nat)
    requires Good(l) && row < |list| && x <= y <= |l.src.J|
    ensures Share(l, list, Entries(l.src, row, l.trial, x, y), k, g)
         == if list[row].index == k then RangeSum(l, x, y, g) else 0.0
    decreases y
  {
    if x < y {
      hide Share;
      hide EntryAt;
      hide EntryValue;
      hide Good;
      ShareOfRow(l, list, row, x, y - 1, k, g);
      ShareConcat(l, list, Entries(l.src, row, l.trial, x, y - 1), [EntryAt(l.src, row, l.trial, y - 1)], k, g);
      ShareOfOne(l, list, row, y - 1, k, g);
    }
  }

  /** The packed entries of row m of a block. */
  function PackedRow(l: Local, first: nat, list: seq<Entity>, m: nat): seq<Entry>
    requires Good(l) && m < |list| && first + |list| < |l.src.I|
  {
    if list[m].isGhost then [] else Entries(l.src, m, l.trial, l.src.I[first + m], l.src.I[first + m + 1])
  }

  lemma ShareOfPackedRow(l: Local, first: nat, list: seq<Entity>, m: nat, k: nat, g: nat)
    requires Good(l) && m < |list| && first + |list| < |l.src.I|
    ensures BlockSum(l, first, list, m + 1, k, g)
         == BlockSum(l, first, list, m, k, g) + Share(l, list, PackedRow(l, first, list, m), k, g)
  {
    ShareOfRow(l, list, m, l.src.I[first + m], l.src.I[first + m + 1], k, g);
  }

  lemma PackedSnoc(l: Local, first: nat, list: seq<Entity>, m: nat)
    requires Good(l) && m < |list| && first + |list| < |l.src.I|
    ensures Packed(l.src, l.trial, first, list, m + 1)
         == Packed(l.src, l.trial, first, list, m) + PackedRow(l, first, list, m)
  {
  }

  lemma ShareSnoc(l: Local, first: nat, list: seq<Entity>, m: nat, k: nat, g: nat)
    requires Good(l) && m < |list| && first + |list| < |l.src.I|
    ensures Share(l, list, Packed(l.src, l.trial, first, list, m + 1), k, g)
         == Share(l, list, Packed(l.src, l.trial, first, list, m), k, g) + Share(l, list, PackedRow(l, first, list, m), k, g)
  {
    PackedSnoc(l, first, list, m);
    ShareConcat(l, list, Packed(l.src, l.trial, first, list, m), PackedRow(l, first, list, m), k, g);
  }

  lemma ShareStep(l: Local, first: nat, list: seq<Entity>, m: nat, k: nat, g: nat)
    requires Good(l) && m < |list| && first + |list| < |l.src.I|
    requires Share(l, list, Packed(l.src, l.trial, first, list, m), k, g) == BlockSum(l, first, list, m, k, g)
    ensures Share(l, list, Packed(l.src, l.trial, first, list, m + 1), k, g) == BlockSum(l, first, list, m + 1, k, g)
  {
    ShareSnoc(l, first, list, m, k, g);
    ShareOfPackedRow(l, first, list, m, k, g);
  }

  lemma ShareOfNothing(l: Local, list: seq<Entity>, k: nat, g: nat)
    ensures Share(l, list, [], k, g) == 0.0
  {
    assert ArriveAll(l, list, []) == [];
  }

  /** What is packed for a block adds up to the source entries of the block. */
  lemma {:induction false} ShareOfBlock(l: Local, first: nat, list: seq<Entity>, m: nat, k: nat, g: nat)
    requires Good(l) && m <= |list| && first + |list| < |l.src.I|
    ensures Share(l, list, Packed(l.src, l.trial, first, list, m), k, g) == BlockSum(l, first, list, m, k, g)
    decreases m
  {
    if m == 0 {
      ShareOfNothing(l, list, k, g);
    } else {
      ShareOfBlock(l, first, list, m - 1, k, g);
      ShareStep(l, first, list, m - 1, k, g);
    }
  }

  // ----- ranges

  /** An entry in range: its row is one of the block, its column is in a trial block. */
  predicate EntryFits(l: Local, list: seq<Entity>, e: Entry) {
    e.row < |list| && e.colRank < |l.lists| && e.col < |l.lists[e.colRank]|
  }

  ghost predicate AllFit(l: Local, list: seq<Entity>, items: seq<Entry>) {
    forall i :: 0 <= i < |items| ==> EntryFits(l, list, items[i])
  }

  ghost predicate BlocksFit(l: Local) {
    |l.lists| + 1 == |l.trial| && forall c :: 0 <= c < |l.lists| ==> l.trial[c + 1] == l.trial[c] + |l.lists[c]|
  }

  lemma {:induction false} EntriesFit(l: Local, list: seq<Entity>, row: nat, x: nat, y: nat)
    requires Good(l) && BlocksFit(l) && row < |list| && x <= y <= |l.src.J|
    ensures AllFit(l, list, Entries(l.src, row, l.trial, x, y))
    decreases y
  {
    if x < y {
      EntriesFit(l, list, row, x, y - 1);
      var c := ColumnRank(l.trial, l.src.J[y - 1]);
      assert l.trial[c + 1] == l.trial[c] + |l.lists[c]|;
    }
  }

  lemma {:induction false} PackedFits(l: Local, first: nat, list: seq<Entity>, m: nat)
    requires Good(l) && BlocksFit(l) && m <= |list| && first + |list| < |l.src.I|
    ensures AllFit(l, list, Packed(l.src, l.trial, first, list, m))
    decreases m
  {
    if m > 0 {
      PackedFits(l, first, list, m - 1);
      EntriesFit(l, list, m - 1, l.src.I[first + m - 1], l.src.I[first + m]);
    }
  }
}

module SparseMatrixTransfer {
  import opened Exchange
  import opened RCBPartition
  import opened Redecomp
  import opened SparsePacking
  import opened ColumnMapping
  import opened CsrAssembly
  import opened SparseBlocks

  /** The element lists of the test and trial meshes, the matrix of every redecomp rank, and for every
      parent rank the number of its test and trial elements. */
  datatype Problem = Problem(n: nat, test: ElementLists, trial: ElementLists, src: seq<Csr>, rows: seq<nat>, cols: seq<nat>)

  // ----- first column of each rank

  function Starts(sizes: seq<nat>): (r: seq<nat>)
    ensures |r| == |sizes| + 1 && forall c :: 0 <= c <= |sizes| ==> r[c] == SumTo(sizes, c)
  {
    seq(|sizes| + 1, c requires 0 <= c <= |sizes| => SumTo(sizes, c))
  }

  /** The numbers of elements of the ranks, summed up: the element ranges of the ranks do not overlap. */
  method BuildParentElementRankOffsets(sizes: seq<nat>) returns (starts: seq<nat>)
    requires sizes != []
    ensures starts == Starts(sizes)
    ensures forall a, b :: 0 <= a <= b < |starts| ==> starts[a] <= starts[b]
  {
    starts := BuildElemOffsets(sizes);
    StartsRise(sizes);
  }

  lemma StartsRise(sizes: seq<nat>)
    ensures forall a, b :: 0 <= a <= b < |Starts(sizes)| ==> Starts(sizes)[a] <= Starts(sizes)[b]
  {
    forall a, b | 0 <= a <= b < |Starts(sizes)| ensures Starts(sizes)[a] <= Starts(sizes)[b] {
      SumToMonotone(sizes, a, b);
    }
  }

  // ----- layout of one redecomp rank

  function LocalOf(pb: Problem, q: nat): (l: Local)
    requires Shaped(pb) && q < pb.n
    ensures l == Local(pb.src[q], Offsets(pb.n, pb.trial, q), ListsTo(pb.n, pb.trial, q), Starts(pb.cols))
  {
    Local(pb.src[q], Offsets(pb.n, pb.trial, q), ListsTo(pb.n, pb.trial, q), Starts(pb.cols))
  }

  predicate Shaped(pb: Problem) {
    && pb.n >= 1 && Square(pb.n, pb.test) && Square(pb.n, pb.trial)
    && |pb.src| == |pb.rows| == |pb.cols| == pb.n
  }

  /** The matrix of every rank has a row per test element and columns among the trial elements, and the
      lists name elements of the parent ranks. */
  ghost predicate Valid(pb: Problem) {
    && Shaped(pb)
    && (forall q :: 0 <= q < pb.n ==> Good(LocalOf(pb, q)) && |pb.src[q].I| == Offset(pb.n, pb.test, q, pb.n) + 1)
    && (forall p, q :: 0 <= p < pb.n && 0 <= q < pb.n
          ==> NamesElements(pb.test[p][q], pb.rows[p]) && NamesElements(pb.trial[p][q], pb.cols[p]))
  }

  predicate NamesElements(list: seq<Entity>, size: nat) {
    forall k :: 0 <= k < |list| ==> list[k].index < size
  }

  lemma BlockFits(pb: Problem, p: nat, q: nat)
    requires Valid(pb) && p < pb.n && q < pb.n
    ensures Offset(pb.n, pb.test, q, p) + |pb.test[p][q]| < |pb.src[q].I|
    ensures Good(LocalOf(pb, q)) && BlocksFit(LocalOf(pb, q))
  {
    SumToMonotone(Sizes(pb.n, pb.test, q), p + 1, pb.n);
    OffsetsLayout(pb.n, pb.trial, q);
  }

  // ----- what is sent and received

  /** The block of redecomp rank q for parent rank p, packed. */
  function Sent(pb: Problem, p: nat, q: nat): seq<Entry>
    requires Valid(pb) && p < pb.n && q < pb.n
  {
    BlockFits(pb, p, q);
    Packed(pb.src[q], Offsets(pb.n, pb.trial, q), Offset(pb.n, pb.test, q, p), pb.test[p][q], |pb.test[p][q]|)
  }

  function Received(pb: Problem, p: nat): (r: seq<seq<Arrived>>)
    requires Valid(pb) && p < pb.n
    ensures |r| == pb.n
    ensures forall q :: 0 <= q < pb.n ==> r[q] == ArriveAll(LocalOf(pb, q), pb.test[p][q], Sent(pb, p, q))
  {
    seq(pb.n, q requires 0 <= q < pb.n => ArriveAll(LocalOf(pb, q), pb.test[p][q], Sent(pb, p, q)))
  }

  lemma SentFits(pb: Problem, p: nat, q: nat)
    requires Valid(pb) && p < pb.n && q < pb.n
    ensures AllFit(LocalOf(pb, q), pb.test[p][q], Sent(pb, p, q))
  {
    BlockFits(pb, p, q);
    PackedFits(LocalOf(pb, q), Offset(pb.n, pb.test, q, p), pb.test[p][q], |pb.test[p][q]|);
  }

  /** Received rows and columns are elements of their ranks. */
  lemma ReceivedAcceptable(pb: Problem, p: nat, q: nat)
    requires Valid(pb) && p < pb.n && q < pb.n
    ensures Acceptable(Received(pb, p)[q], |Starts(pb.cols)|, pb.rows[p])
    ensures forall i :: 0 <= i < |Received(pb, p)[q]| ==> InItsRange(Received(pb, p)[q][i], Starts(pb.cols))
  {
    var (items, l) := (Sent(pb, p, q), LocalOf(pb, q));
    SentFits(pb, p, q);
    forall i | 0 <= i < |items|
      ensures Received(pb, p)[q][i].row < pb.rows[p] && InItsRange(Received(pb, p)[q][i], Starts(pb.cols))
    {
      assert EntryFits(l, pb.test[p][q], items[i]);
      assert NamesElements(pb.test[p][q], pb.rows[p]);
      assert NamesElements(pb.trial[items[i].colRank][q], pb.cols[items[i].colRank]);
    }
  }

  // ----- conservation

  /** Sum over the first m redecomp ranks. */
  function SourceSum(pb: Problem, p: nat, m: nat, k: nat, g: nat): real
    requires Valid(pb) && p < pb.n && m <= pb.n
  {
    if m == 0 then 0.0
    else
      SourceSum(pb, p, m - 1, k, g) + SourceBlock(pb, p, m - 1, k, g)
  }

  /** What the block of rank q for rank p contributes. */
  function SourceBlock(pb: Problem, p: nat, q: nat, k: nat, g: nat): real
    requires Valid(pb) && p < pb.n && q < pb.n
  {
    BlockFits(pb, p, q);
    BlockSum(LocalOf(pb, q), Offset(pb.n, pb.test, q, p), pb.test[p][q], |pb.test[p][q]|, k, g)
  }

  /** Row m of the block of rank q for parent rank p is no ghost and stands for element k of p. */
  ghost predicate RowFor(pb: Problem, p: nat, q: nat, m: nat, k: nat)
    requires Valid(pb) && p < pb.n && q < pb.n
  {
    m < |pb.test[p][q]| && StandsFor(pb.test[p][q], m, k)
  }

  lemma IsShaped(pb: Problem)
    requires Valid(pb)
    ensures Shaped(pb)
  {
  }

  lemma BlockWithoutRow(pb: Problem, p: nat, q: nat, k: nat, g: nat)
    requires Valid(pb) && p < pb.n && q < pb.n && forall m: nat :: !RowFor(pb, p, q, m, k)
    ensures SourceBlock(pb, p, q, k, g) == 0.0
  {
    hide Valid;
    hide BlockSum;
    hide LocalOf;
    hide Good;
    hide Offset;
    hide StandsFor;
    IsShaped(pb);
    BlockFits(pb, p, q);
    var list := pb.test[p][q];
    forall m: nat | m < |list| ensures !StandsFor(list, m, k) { assert !RowFor(pb, p, q, m, k); }
    OthersAddNothing(LocalOf(pb, q), Offset(pb.n, pb.test, q, p), list, |list|, k, g);
  }

  ghost predicate SumsRow(pb: Problem, p: nat, q: nat, m: nat, g: nat, sum: real)
    requires Valid(pb) && p < pb.n && q < pb.n
  {
    var (l, row) := (LocalOf(pb, q), Offset(pb.n, pb.test, q, p) + m);
    && row + 1 < |l.src.I| && l.src.I[row] <= l.src.I[row + 1] <= |l.src.J|
    && sum == RangeSum(l, l.src.I[row], l.src.I[row + 1], g)
  }

  lemma BlockWithRow(pb: Problem, p: nat, q: nat, k: nat, g: nat, m: nat)
    requires Valid(pb) && p < pb.n && q < pb.n && forall s: nat :: RowFor(pb, p, q, s, k) <==> s == m
    ensures SumsRow(pb, p, q, m, g, SourceBlock(pb, p, q, k, g))
  {
    hide Valid;
    hide BlockSum;
    hide LocalOf;
    hide RangeSum;
    hide Good;
    hide Offset;
    hide StandsFor;
    IsShaped(pb);
    BlockFits(pb, p, q);
    var list := pb.test[p][q];
    assert RowFor(pb, p, q, m, k);
    forall s: nat | s < |list| ensures StandsFor(list, s, k) <==> s == m { assert RowFor(pb, p, q, s, k) <==> s == m; }
    OneRowAdds(LocalOf(pb, q), Offset(pb.n, pb.test, q, p), list, |list|, k, g, m);
  }

  lemma {:induction false} OtherRanksAddNothing(pb: Problem, p: nat, n: nat, k: nat, g: nat)
    requires Valid(pb) && p < pb.n && n <= pb.n
    requires forall q: nat, m: nat :: q < n ==> !RowFor(pb, p, q, m, k)
    ensures SourceSum(pb, p, n, k, g) == 0.0
    decreases n
  {
    hide Valid;
    hide SourceBlock;
    hide RowFor;
    if n > 0 {
      OtherRanksAddNothing(pb, p, n - 1, k, g);
      BlockWithoutRow(pb, p, n - 1, k, g);
    }
  }

  /** When one row alone, m of the block of rank q, is no ghost and stands for element k, as the partition has it,
      the sum for element k is over the entries of that row. */
  lemma {:induction false} OwnersRow(pb: Problem, p: nat, n: nat, k: nat, g: nat, q: nat, m: nat)
    requires Valid(pb) && p < pb.n && q < n <= pb.n
    requires forall r: nat, s: nat :: r < n ==> (RowFor(pb, p, r, s, k) <==> r == q && s == m)
    ensures SumsRow(pb, p, q, m, g, SourceSum(pb, p, n, k, g))
    decreases n
  {
    hide Valid;
    hide SourceBlock;
    hide RowFor;
    hide SumsRow;
    if q == n - 1 {
      OtherRanksAddNothing(pb, p, n - 1, k, g);
      BlockWithRow(pb, p, q, k, g, m);
    } else {
      OwnersRow(pb, p, n - 1, k, g, q, m);
      BlockWithoutRow(pb, p, n - 1, k, g);
    }
  }

  /** A column that is trial element x of the block from parent rank c stands for the parent element that the list
      names there; its global number counts the elements of the ranks before c. */
  lemma ColumnByBlock(pb: Problem, q: nat, c: nat, x: nat)
    requires Valid(pb) && q < pb.n && c < pb.n && x < |pb.trial[c][q]|
    ensures Good(LocalOf(pb, q)) && Offset(pb.n, pb.trial, q, c) + x < Offset(pb.n, pb.trial, q, pb.n)
    ensures LocalOf(pb, q).trial[|LocalOf(pb, q).trial| - 1] == Offset(pb.n, pb.trial, q, pb.n)
    ensures GlobalColumn(LocalOf(pb, q), Offset(pb.n, pb.trial, q, c) + x)
         == SumTo(pb.cols, c) + pb.trial[c][q][x].index
  {
    hide LocalOf;
    hide Good;
    hide Offset;
    hide SumTo;
    hide GlobalColumn;
    hide Rising;
    hide NamesElements;
    LocalLayout(pb, q, c);
    ColumnOfBlock(LocalOf(pb, q), c, x);
  }

  lemma LocalLayout(pb: Problem, q: nat, c: nat)
    requires Shaped(pb) && q < pb.n && c < pb.n
    ensures var (l, list) := (LocalOf(pb, q), pb.trial[c][q]);
      && |l.trial| == pb.n + 1 == |l.starts| && |l.lists| == pb.n && Rising(l.trial)
      && l.trial[c] == Offset(pb.n, pb.trial, q, c) && l.trial[c + 1] == l.trial[c] + |list|
      && l.trial[pb.n] == Offset(pb.n, pb.trial, q, pb.n)
      && l.starts[c] == SumTo(pb.cols, c) && l.lists[c] == list
  {
    OffsetsLayout(pb.n, pb.trial, q);
    SumToNext(Sizes(pb.n, pb.trial, q), c);
  }

  lemma SumToNext(sizes: seq<nat>, k: nat)
    requires k < |sizes|
    ensures SumTo(sizes, k + 1) == SumTo(sizes, k) + sizes[k]
  {
  }

  lemma DenseSnoc(recv: seq<seq<Arrived>>, m: nat, starts: seq<nat>, k: nat, g: nat)
    requires m < |recv|
    ensures Dense(Flat(recv[..m + 1]), starts, k, g) == Dense(Flat(recv[..m]), starts, k, g) + Dense(recv[m], starts, k, g)
  {
    assert recv[..m + 1][..m] == recv[..m];
    DenseConcat(Flat(recv[..m]), recv[m], starts, k, g);
  }

  lemma {:induction false} ReceivedSum(pb: Problem, p: nat, m: nat, k: nat, g: nat)
    requires Valid(pb) && p < pb.n && m <= pb.n
    ensures Dense(Flat(Received(pb, p)[..m]), Starts(pb.cols), k, g) == SourceSum(pb, p, m, k, g)
    decreases m
  {
    hide Valid;
    hide Received;
    hide Dense;
    hide SourceBlock;
    if m == 0 {
      NothingReceived(Received(pb, p), Starts(pb.cols), k, g);
    } else {
      ReceivedSum(pb, p, m - 1, k, g);
      DenseSnoc(Received(pb, p), m - 1, Starts(pb.cols), k, g);
      ReceivedBlock(pb, p, m - 1, k, g);
    }
  }

  lemma NothingReceived(recv: seq<seq<Arrived>>, starts: seq<nat>, k: nat, g: nat)
    ensures Dense(Flat(recv[..0]), starts, k, g) == 0.0
  {
  }

  lemma ReceivedBlock(pb: Problem, p: nat, q: nat, k: nat, g: nat)
    requires Valid(pb) && p < pb.n && q < pb.n
    ensures Dense(Received(pb, p)[q], Starts(pb.cols), k, g) == SourceBlock(pb, p, q, k, g)
  {
    BlockFits(pb, p, q);
    ShareOfBlock(LocalOf(pb, q), Offset(pb.n, pb.test, q, p), pb.test[p][q], |pb.test[p][q]|, k, g);
  }

  /** Conservation.  On every parent rank p, in every row k and every global column g, the assembled
      parallel matrix holds the sum, over all redecomp ranks, of the source entries whose row stands for
      element k of rank p and is no ghost, and whose column stands for the element with number g. */
  lemma MatrixIsConserved(pb: Problem, p: nat, diag: Slots, offd: Slots, cmap: seq<nat>, index: map<nat, nat>, k: nat,
                          g: nat)
    requires Valid(pb) && p < pb.n && k < pb.rows[p]
    requires IsAssembled(diag, offd, cmap, index, Flat(Received(pb, p)), p, Starts(pb.cols), pb.rows[p])
    ensures diag.I[k] <= diag.I[k + 1] <= |diag.J| && offd.I[k] <= offd.I[k + 1] <= |offd.J|
    ensures RowValue(diag, FromDiag(Starts(pb.cols), p), k, g) + RowValue(offd, FromOffd(cmap), k, g)
         == SourceSum(pb, p, pb.n, k, g)
  {
    AssemblyConserves(diag, offd, cmap, index, Flat(Received(pb, p)), p, Starts(pb.cols), pb.rows[p], k, g);
    ReceivedSum(pb, p, pb.n, k, g);
    assert Received(pb, p)[..pb.n] == Received(pb, p);
  }

  // ----- the transfer

  /** The packed entries of all ranks: table[q][p] is what redecomp rank q packs for parent rank p. */
  method PackAll(pb: Problem) returns (table: seq<seq<seq<Entry>>>)
    requires Valid(pb)
    ensures Square(pb.n, table)
    ensures forall q :: 0 <= q < pb.n ==> RowSent(pb, q, table[q])
  {
    table := [];
    for q := 0 to pb.n
      invariant |table| == q && forall a :: 0 <= a < q ==> RowSent(pb, a, table[a])
    {
      var row := PackRank(pb, q);
      table := table + [row];
    }
    forall q | 0 <= q < pb.n ensures |table[q]| == pb.n { assert RowSent(pb, q, table[q]); }
  }

  ghost predicate RowSent(pb: Problem, q: nat, row: seq<seq<Entry>>)
    requires Valid(pb) && q < pb.n
  {
    |row| == pb.n && forall p :: 0 <= p < pb.n ==> row[p] == Sent(pb, p, q)
  }

  method PackRank(pb: Problem, q: nat) returns (row: seq<seq<Entry>>)
    requires Valid(pb) && q < pb.n
    ensures RowSent(pb, q, row)
  {
    var lists := ListsTo(pb.n, pb.test, q);
    var test := Offsets(pb.n, pb.test, q);
    var trial := Offsets(pb.n, pb.trial, q);
    var ghosts := GhostLists(pb.n, lists, test);
    OffsetsLayout(pb.n, pb.test, q);
    BlockFits(pb, 0, q);
    row := PackRows(pb.n, pb.src[q], test, ghosts, trial, lists);
    AllPacked(pb.n, pb.src[q], test, trial, lists, row);
  }

  /** An entry after the conversion of its column into an element number. */
  ghost predicate Converted(pb: Problem, p: nat, q: nat, items: seq<Entry>)
    requires Valid(pb) && p < pb.n && q < pb.n
  {
    var sent := Sent(pb, p, q);
    && |items| == |sent|
    && forall i :: 0 <= i < |sent|
         ==> items[i] == sent[i].(col := Arrive(LocalOf(pb, q), pb.test[p][q], sent[i]).col)
  }

  /** The entries packed by redecomp rank q for parent rank p, and the element numbers of their columns. */
  ghost predicate ColumnsMapped(pb: Problem, p: nat, q: nat, sent: seq<Entry>, cols: seq<nat>)
    requires Valid(pb) && p < pb.n && q < pb.n
  {
    sent == Sent(pb, p, q) && NamesColumns(pb.n, pb.trial, sent, q) && Mapped(pb.n, pb.trial, sent, q, cols)
  }

  /** What the redecomp ranks packed for parent rank p, with the columns mapped. */
  method MapFor(pb: Problem, table: seq<seq<seq<Entry>>>, p: nat) returns (all: seq<seq<Entry>>, cols: seq<seq<nat>>)
    requires Valid(pb) && p < pb.n && Square(pb.n, table)
    requires forall q :: 0 <= q < pb.n ==> RowSent(pb, q, table[q])
    ensures |all| == |cols| == pb.n
    ensures forall q :: 0 <= q < pb.n ==> ColumnsMapped(pb, p, q, all[q], cols[q])
  {
    all := seq(pb.n, q requires 0 <= q < pb.n => table[q][p]);
    forall q | 0 <= q < pb.n ensures all[q] == Sent(pb, p, q) && NamesColumns(pb.n, pb.trial, all[q], q) {
      assert RowSent(pb, q, table[q]);
      SentNames(pb, p, q);
    }
    cols := MapColumns(pb.n, all, pb.trial);
  }

  method ConvertFor(pb: Problem, table: seq<seq<seq<Entry>>>, p: nat) returns (items: seq<seq<Entry>>)
    requires Valid(pb) && p < pb.n && Square(pb.n, table)
    requires forall q :: 0 <= q < pb.n ==> RowSent(pb, q, table[q])
    ensures |items| == pb.n && forall q :: 0 <= q < pb.n ==> Converted(pb, p, q, items[q])
  {
    hide Valid;
    hide Converted;
    hide ColumnsMapped;
    var all, cols := MapFor(pb, table, p);
    items := [];
    for q := 0 to pb.n
      invariant |items| == q && forall a :: 0 <= a < q ==> Converted(pb, p, a, items[a])
    {
      var row := ConvertBlock(pb, p, q, all[q], cols[q]);
      items := items + [row];
    }
  }

  method ConvertBlock(pb: Problem, p: nat, q: nat, sent: seq<Entry>, cols: seq<nat>) returns (row: seq<Entry>)
    requires Valid(pb) && p < pb.n && q < pb.n && ColumnsMapped(pb, p, q, sent, cols)
    ensures Converted(pb, p, q, row)
  {
    row := ReplaceColumns(sent, cols);
    ReplacedIsConverted(pb, p, q, cols, row);
  }

  lemma SentNames(pb: Problem, p: nat, q: nat)
    requires Valid(pb) && p < pb.n && q < pb.n
    ensures NamesColumns(pb.n, pb.trial, Sent(pb, p, q), q)
  {
    SentFits(pb, p, q);
    var items := Sent(pb, p, q);
    forall i | 0 <= i < |items| ensures items[i].colRank < pb.n && items[i].col < |pb.trial[items[i].colRank][q]| {
      assert EntryFits(LocalOf(pb, q), pb.test[p][q], items[i]);
    }
  }

  method ReplaceColumns(items: seq<Entry>, cols: seq<nat>) returns (r: seq<Entry>)
    requires |cols| == |items|
    ensures |r| == |items| && forall i :: 0 <= i < |items| ==> r[i] == items[i].(col := cols[i])
  {
    r := items;
    for i := 0 to |items|
      invariant |r| == |items| && forall a :: 0 <= a < i ==> r[a] == items[a].(col := cols[a])
      invariant forall a :: i <= a < |r| ==> r[a] == items[a]
    {
      r := r[i := r[i].(col := cols[i])];
    }
  }

  lemma ReplacedIsConverted(pb: Problem, p: nat, q: nat, cols: seq<nat>, r: seq<Entry>)
    requires Valid(pb) && p < pb.n && q < pb.n && NamesColumns(pb.n, pb.trial, Sent(pb, p, q), q)
    requires Mapped(pb.n, pb.trial, Sent(pb, p, q), q, cols) && |r| == |cols|
    requires forall i :: 0 <= i < |r| ==> r[i] == Sent(pb, p, q)[i].(col := cols[i])
    ensures Converted(pb, p, q, r)
  {
  }

  /** Conversion of the columns, destination after destination. */
  method ConvertAll(pb: Problem, table: seq<seq<seq<Entry>>>) returns (received: seq<seq<seq<Entry>>>)
    requires Valid(pb) && Square(pb.n, table)
    requires forall q :: 0 <= q < pb.n ==> RowSent(pb, q, table[q])
    ensures Square(pb.n, received)
    ensures forall p, q :: 0 <= p < pb.n && 0 <= q < pb.n ==> Converted(pb, p, q, received[p][q])
  {
    var byDest: seq<seq<seq<Entry>>> := [];
    for p := 0 to pb.n
      invariant |byDest| == p && forall a :: 0 <= a < p ==> |byDest[a]| == pb.n
      invariant forall a, q :: 0 <= a < p && 0 <= q < pb.n ==> Converted(pb, a, q, byDest[a][q])
    {
      var items := ConvertFor(pb, table, p);
      byDest := byDest + [items];
    }
    // rank q holds byDest[.][q]; the array exchange brings it to its destinations
    var bySource := Transpose(pb.n, byDest);
    received := Transpose(pb.n, bySource);
    ExchangeTwice(pb.n, byDest);
  }

  function WithRow(list: seq<Entity>, e: Entry): Arrived {
    Arrived(IndexAt(list, e.row), e.col, e.colRank, e.value)
  }

  /** The conversion of received row offsets on parent rank p. */
  method ConvertRows(list: seq<Entity>, items: seq<Entry>) returns (r: seq<Arrived>)
    requires forall i :: 0 <= i < |items| ==> items[i].row < |list|
    ensures |r| == |items| && forall i :: 0 <= i < |items| ==> r[i] == WithRow(list, items[i])
  {
    r := [];
    for i := 0 to |items|
      invariant |r| == i && forall a :: 0 <= a < i ==> r[a] == WithRow(list, items[a])
    {
      r := r + [Arrived(list[items[i].row].index, items[i].col, items[i].colRank, items[i].value)];
    }
  }

  /** Both conversions together. */
  lemma ConvertedIsReceived(pb: Problem, p: nat, q: nat, items: seq<Entry>, r: seq<Arrived>)
    requires Valid(pb) && p < pb.n && q < pb.n && Converted(pb, p, q, items)
    requires |r| == |items| && forall i :: 0 <= i < |items| ==> r[i] == WithRow(pb.test[p][q], items[i])
    ensures r == ArriveAll(LocalOf(pb, q), pb.test[p][q], Sent(pb, p, q))
  {
    var sent := Sent(pb, p, q);
    forall i | 0 <= i < |r| ensures r[i] == Arrive(LocalOf(pb, q), pb.test[p][q], sent[i]) {
      assert items[i].row == sent[i].row;
    }
  }

  lemma RowsConvertible(pb: Problem, p: nat, q: nat, items: seq<Entry>)
    requires Valid(pb) && p < pb.n && q < pb.n && Converted(pb, p, q, items)
    ensures forall i :: 0 <= i < |items| ==> items[i].row < |pb.test[p][q]|
  {
    SentFits(pb, p, q);
    forall i | 0 <= i < |items| ensures items[i].row < |pb.test[p][q]| {
      assert EntryFits(LocalOf(pb, q), pb.test[p][q], Sent(pb, p, q)[i]);
    }
  }

  method ReceiveBlock(pb: Problem, p: nat, q: nat, items: seq<Entry>) returns (row: seq<Arrived>)
    requires Valid(pb) && p < pb.n && q < pb.n && Converted(pb, p, q, items)
    ensures row == ArriveAll(LocalOf(pb, q), pb.test[p][q], Sent(pb, p, q))
  {
    RowsConvertible(pb, p, q, items);
    row := ConvertRows(pb.test[p][q], items);
    ConvertedIsReceived(pb, p, q, items, row);
  }

  method ReceiveFor(pb: Problem, p: nat, received: seq<seq<Entry>>) returns (recv: seq<seq<Arrived>>)
    requires Valid(pb) && p < pb.n && |received| == pb.n
    requires forall q :: 0 <= q < pb.n ==> Converted(pb, p, q, received[q])
    ensures recv == Received(pb, p)
  {
    hide Valid;
    hide Converted;
    hide Sent;
    recv := [];
    for q := 0 to pb.n
      invariant recv == Received(pb, p)[..q]
    {
      var row := ReceiveBlock(pb, p, q, received[q]);
      recv := recv + [row];
    }
  }

  /** The matrices of one parent rank. */
  datatype ParallelMatrix = ParallelMatrix(diag: Slots, offd: Slots, cmap: seq<nat>, index: map<nat, nat>)

  ghost predicate IsParallel(pb: Problem, p: nat, m: ParallelMatrix)
    requires Valid(pb) && p < pb.n
  {
    IsAssembled(m.diag, m.offd, m.cmap, m.index, Flat(Received(pb, p)), p, Starts(pb.cols), pb.rows[p])
  }

  method AssembleFor(pb: Problem, p: nat, starts: seq<nat>, recv: seq<seq<Arrived>>) returns (m: ParallelMatrix)
    requires Valid(pb) && p < pb.n && starts == Starts(pb.cols) && recv == Received(pb, p)
    ensures IsParallel(pb, p, m)
  {
    forall q | 0 <= q < |recv| ensures Acceptable(recv[q], |starts|, pb.rows[p]) {
      ReceivedAcceptable(pb, p, q);
    }
    var diag, offd, cmap, index := Assemble(recv, p, starts, pb.rows[p]);
    m := ParallelMatrix(diag, offd, cmap, index);
  }

  ghost predicate AllReceived(pb: Problem, received: seq<seq<seq<Entry>>>)
    requires Valid(pb)
  {
    && Square(pb.n, received)
    && forall p, q :: 0 <= p < pb.n && 0 <= q < pb.n ==> Converted(pb, p, q, received[p][q])
  }

  ghost predicate AllParallel(pb: Problem, p: nat, matrices: seq<ParallelMatrix>)
    requires Valid(pb) && p <= pb.n
  {
    |matrices| == p && forall a :: 0 <= a < p ==> IsParallel(pb, a, matrices[a])
  }

  lemma OneMore(pb: Problem, p: nat, matrices: seq<ParallelMatrix>, m: ParallelMatrix)
    requires Valid(pb) && p < pb.n && AllParallel(pb, p, matrices) && IsParallel(pb, p, m)
    ensures AllParallel(pb, p + 1, matrices + [m])
  {
    hide Valid;
    hide IsParallel;
  }

  /** The receiving half on all parent ranks. */
  method AssembleAll(pb: Problem, received: seq<seq<seq<Entry>>>) returns (matrices: seq<ParallelMatrix>)
    requires Valid(pb) && AllReceived(pb, received)
    ensures AllParallel(pb, pb.n, matrices)
  {
    var starts := BuildParentElementRankOffsets(pb.cols);
    matrices := [];
    for p := 0 to pb.n
      invariant AllParallel(pb, p, matrices)
    {
      var recv := ReceiveFor(pb, p, received[p]);
      var m := AssembleFor(pb, p, starts, recv);
      OneMore(pb, p, matrices, m);
      matrices := matrices + [m];
    }
  }

  /** TransferToParallel on all ranks. */
  method TransferToParallel(pb: Problem) returns (matrices: seq<ParallelMatrix>)
    requires Valid(pb)
    ensures AllParallel(pb, pb.n, matrices)
  {
    var table := PackAll(pb);
    var received := ConvertAll(pb, table);
    matrices := AssembleAll(pb, received);
  }
}
