/** The packing half of src/redecomp/transfer/SparseMatrixTransfer.cpp: rows that are not ghosts go to the
    parent rank of the row, with columns as offsets within the block of their parent rank. */
module SparsePacking {
  import opened Exchange
  import opened RCBPartition
  import opened Redecomp

  /** A matrix in compressed rows; the columns of a row need not be sorted. */
  datatype Csr = Csr(I: seq<nat>, J: seq<nat>, data: seq<real>)

  predicate Rising(s: seq<nat>) {
    forall i, j :: 0 <= i <= j < |s| ==> s[i] <= s[j]
  }

  /** One packed entry: its value, the row as an offset in the test block, the column as an offset in the
      block of parent rank colRank. */
  datatype Entry = Entry(value: real, row: nat, col: nat, colRank: nat)

  // ----- ranks of rows and columns

  /** Offsets of blocks: element e lies in block r when offsets[r] <= e < offsets[r + 1]. */
  predicate InBlock(offsets: seq<nat>, r: nat, e: nat) {
    r + 1 < |offsets| && offsets[r] <= e < offsets[r + 1]
  }

  /** The block of e among the first r. */
  function BlockOf(offsets: seq<nat>, r: nat, e: nat): (b: nat)
    requires r < |offsets| && offsets[0] <= e < offsets[r]
    ensures b < r && InBlock(offsets, b, e)
  {
    if offsets[r - 1] <= e then r - 1 else BlockOf(offsets, r - 1, e)
  }

  /** Blocks do not overlap, so that the block of an element is the only one that contains it. */
  lemma BlockIsUnique(offsets: seq<nat>, a: nat, b: nat, e: nat)
    requires Rising(offsets) && InBlock(offsets, a, e) && InBlock(offsets, b, e)
    ensures a == b
  {
  }

  function ColumnRank(offsets: seq<nat>, j: nat): (r: nat)
    requires 1 < |offsets| && offsets[0] == 0 && j < offsets[|offsets| - 1]
    ensures InBlock(offsets, r, j)
  {
    BlockOf(offsets, |offsets| - 1, j)
  }

  /** The search for the parent rank of column j from the rank of the previous column: upwards, then
      downwards when the columns are not sorted. */
  method FindColumnRank(offsets: seq<nat>, start: nat, j: nat) returns (r: nat)
    requires 1 < |offsets| && offsets[0] == 0 && Rising(offsets) && j < offsets[|offsets| - 1]
    requires start + 1 < |offsets|
    ensures r == ColumnRank(offsets, j)
  {
    r := start;
    while j >= offsets[r + 1]
      invariant r + 1 < |offsets|
      decreases |offsets| - r
    {
      r := r + 1;
    }
    while r > 0 && j < offsets[r]
      invariant r + 1 < |offsets| && j < offsets[r + 1]
    {
      r := r - 1;
    }
    BlockIsUnique(offsets, r, ColumnRank(offsets, j), j);
  }

  // ----- packing

  predicate ColumnsInBlocks(src: Csr, offsets: seq<nat>) {
    && 1 < |offsets| && offsets[0] == 0 && Rising(offsets)
    && |src.data| == |src.J| && forall x :: 0 <= x < |src.J| ==> src.J[x] < offsets[|offsets| - 1]
  }

  function EntryAt(src: Csr, row: nat, trial: seq<nat>, x: nat): Entry
    requires ColumnsInBlocks(src, trial) && x < |src.J|
  {
    var r := ColumnRank(trial, src.J[x]);
    Entry(src.data[x], row, src.J[x] - trial[r], r)
  }

  /** Entries [x, y) of the matrix, packed as entries of one row. */
  function Entries(src: Csr, row: nat, trial: seq<nat>, x: nat, y: nat): seq<Entry>
    requires ColumnsInBlocks(src, trial) && x <= y <= |src.J|
  {
    if x == y then [] else Entries(src, row, trial, x, y - 1) + [EntryAt(src, row, trial, y - 1)]
  }

  /** The packed entries of the first k rows of the block that starts at row first. */
  function Packed(src: Csr, trial: seq<nat>, first: nat, list: seq<Entity>, k: nat): seq<Entry>
    requires ColumnsInBlocks(src, trial) && k <= |list| && first + |list| < |src.I| && RowsOf(src)
  {
    if k == 0 then []
    else
      Packed(src, trial, first, list, k - 1) +
      if list[k - 1].isGhost then [] else Entries(src, k - 1, trial, src.I[first + k - 1], src.I[first + k])
  }

  predicate RowsOf(src: Csr) {
    Rising(src.I) && forall i :: 0 <= i < |src.I| ==> src.I[i] <= |src.J|
  }

  /** The rows of the blocks: block p has the rows of lists[p]. */
  ghost predicate Layout(n: nat, offsets: seq<nat>, lists: seq<seq<Entity>>) {
    && n >= 1 && |offsets| == n + 1 && |lists| == n && offsets[0] == 0
    && forall p :: 0 <= p < n ==> offsets[p + 1] == offsets[p] + |lists[p]|
  }

  lemma {:induction false} LayoutRises(n: nat, offsets: seq<nat>, lists: seq<seq<Entity>>, i: nat, j: nat)
    requires Layout(n, offsets, lists) && i <= j <= n
    ensures offsets[i] <= offsets[j]
    decreases j
  {
    if i < j { LayoutRises(n, offsets, lists, i, j - 1); }
  }

  lemma LayoutIsRising(n: nat, offsets: seq<nat>, lists: seq<seq<Entity>>)
    requires Layout(n, offsets, lists)
    ensures Rising(offsets)
  {
    forall i, j | 0 <= i <= j < |offsets| ensures offsets[i] <= offsets[j] {
      LayoutRises(n, offsets, lists, i, j);
    }
  }

  // ----- the blocks of one redecomp rank

  function Offsets(n: nat, p2r: ElementLists, q: nat): (r: seq<nat>)
    requires Square(n, p2r) && q < n
    ensures |r| == n + 1 && forall p :: 0 <= p <= n ==> r[p] == Offset(n, p2r, q, p)
  {
    seq(n + 1, p requires 0 <= p <= n => Offset(n, p2r, q, p))
  }

  function ListsTo(n: nat, p2r: ElementLists, q: nat): (r: seq<seq<Entity>>)
    requires Square(n, p2r) && q < n
    ensures |r| == n && forall p :: 0 <= p < n ==> r[p] == p2r[p][q]
  {
    seq(n, p requires 0 <= p < n => p2r[p][q])
  }

  lemma OffsetsLayout(n: nat, p2r: ElementLists, q: nat)
    requires Square(n, p2r) && q < n
    ensures Layout(n, Offsets(n, p2r, q), ListsTo(n, p2r, q)) && Rising(Offsets(n, p2r, q))
  {
    LayoutIsRising(n, Offsets(n, p2r, q), ListsTo(n, p2r, q));
  }

  /** The ghost positions of the blocks, as RedecompMesh keeps them. */
  method GhostLists(n: nat, lists: seq<seq<Entity>>, test: seq<nat>) returns (ghosts: seq<seq<nat>>)
    requires |lists| == n && |test| == n + 1
    ensures |ghosts| == n && forall p :: 0 <= p < n ==> ghosts[p] == GhostsOf(lists[p], test[p])
  {
    ghosts := [];
    for p := 0 to n
      invariant |ghosts| == p && forall a :: 0 <= a < p ==> ghosts[a] == GhostsOf(lists[a], test[a])
    {
      var packed := PackGhosts(lists[p]);
      var shifted := ShiftGhosts(lists[p], packed, test[p]);
      ghosts := ghosts + [shifted];
    }
  }

  /** What the packing needs: one row per listed element, ghost positions per block, columns in blocks. */
  ghost predicate Packable(n: nat, src: Csr, test: seq<nat>, ghosts: seq<seq<nat>>, trial: seq<nat>,
                           lists: seq<seq<Entity>>) {
    && Layout(n, test, lists) && |ghosts| == n && (forall p :: 0 <= p < n ==> ghosts[p] == GhostsOf(lists[p], test[p]))
    && |src.I| == test[n] + 1 && RowsOf(src) && ColumnsInBlocks(src, trial)
  }

  /** What is in the send array of rank p when the first i rows are done. */
  ghost predicate Done(n: nat, src: Csr, test: seq<nat>, trial: seq<nat>, lists: seq<seq<Entity>>, p: nat, i: nat,
                       list: seq<Entry>)
    requires Layout(n, test, lists) && p < n && |src.I| == test[n] + 1 && RowsOf(src) && ColumnsInBlocks(src, trial)
  {
    LayoutRises(n, test, lists, p + 1, n);
    var k := if i <= test[p] then 0 else if i >= test[p + 1] then |lists[p]| else i - test[p];
    list == Packed(src, trial, test[p], lists[p], k)
  }

  lemma DoneElsewhere(n: nat, src: Csr, test: seq<nat>, trial: seq<nat>, lists: seq<seq<Entity>>, p: nat, rank: nat,
                      i: nat, list: seq<Entry>)
    requires Layout(n, test, lists) && p < n && rank < n && p != rank && InBlock(test, rank, i)
    requires |src.I| == test[n] + 1 && RowsOf(src) && ColumnsInBlocks(src, trial)
    requires Done(n, src, test, trial, lists, p, i, list)
    ensures Done(n, src, test, trial, lists, p, i + 1, list)
  {
    if p < rank { LayoutRises(n, test, lists, p + 1, rank); } else { LayoutRises(n, test, lists, rank + 1, p); }
  }

  lemma DoneHere(n: nat, src: Csr, test: seq<nat>, trial: seq<nat>, lists: seq<seq<Entity>>, rank: nat, i: nat,
                 list: seq<Entry>)
    requires Layout(n, test, lists) && rank < n && InBlock(test, rank, i) && i + 1 < |src.I|
    requires |src.I| == test[n] + 1 && RowsOf(src) && ColumnsInBlocks(src, trial)
    requires Done(n, src, test, trial, lists, rank, i, list)
    ensures var row := Entries(src, i - test[rank], trial, src.I[i], src.I[i + 1]);
      Done(n, src, test, trial, lists, rank, i + 1, list + if lists[rank][i - test[rank]].isGhost then [] else row)
  {
    LayoutRises(n, test, lists, rank + 1, n);
  }

  ghost predicate AllDone(n: nat, src: Csr, test: seq<nat>, trial: seq<nat>, lists: seq<seq<Entity>>, i: nat,
                          send: seq<seq<Entry>>)
    requires Layout(n, test, lists) && |src.I| == test[n] + 1 && RowsOf(src) && ColumnsInBlocks(src, trial)
  {
    |send| == n && forall p :: 0 <= p < n ==> Done(n, src, test, trial, lists, p, i, send[p])
  }

  lemma AllDoneStep(n: nat, src: Csr, test: seq<nat>, trial: seq<nat>, lists: seq<seq<Entity>>, rank: nat, i: nat,
                    send: seq<seq<Entry>>, row: seq<Entry>)
    requires Layout(n, test, lists) && rank < n && InBlock(test, rank, i) && i + 1 < |src.I|
    requires |src.I| == test[n] + 1 && RowsOf(src) && ColumnsInBlocks(src, trial)
    requires AllDone(n, src, test, trial, lists, i, send)
    requires row == if lists[rank][i - test[rank]].isGhost then []
                    else Entries(src, i - test[rank], trial, src.I[i], src.I[i + 1])
    ensures AllDone(n, src, test, trial, lists, i + 1, send[rank := send[rank] + row])
  {
    DoneHere(n, src, test, trial, lists, rank, i, send[rank]);
    forall p | 0 <= p < n && p != rank ensures Done(n, src, test, trial, lists, p, i + 1, send[p]) {
      DoneElsewhere(n, src, test, trial, lists, p, rank, i, send[p]);
    }
  }

  /** The row loop, with its cursors over parent ranks and ghosts. */
  method PackRows(n: nat, src: Csr, test: seq<nat>, ghosts: seq<seq<nat>>, trial: seq<nat>,
                  ghost lists: seq<seq<Entity>>) returns (send: seq<seq<Entry>>)
    requires Packable(n, src, test, ghosts, trial, lists)
    ensures AllDone(n, src, test, trial, lists, test[n], send)
  {
    LayoutIsRising(n, test, lists);
    send := seq(n, _ => []);
    var rank, cursor := 0, 0;
    for i := 0 to |src.I| - 1
      invariant rank < n && test[rank] <= i <= test[rank + 1]
      invariant cursor == |GhostsOf(lists[rank][..i - test[rank]], test[rank])|
      invariant AllDone(n, src, test, trial, lists, i, send)
    {
      rank, cursor := AdvanceRank(n, test, lists, rank, cursor, i);
      var row;
      row, cursor := PackOrSkip(src, trial, ghosts[rank], cursor, i, test[rank], lists[rank]);
      AllDoneStep(n, src, test, trial, lists, rank, i, send, row);
      send := send[rank := send[rank] + row];
    }
  }

  /** The send arrays after the last row. */
  lemma AllPacked(n: nat, src: Csr, test: seq<nat>, trial: seq<nat>, lists: seq<seq<Entity>>, send: seq<seq<Entry>>)
    requires Layout(n, test, lists) && |src.I| == test[n] + 1 && RowsOf(src) && ColumnsInBlocks(src, trial)
    requires AllDone(n, src, test, trial, lists, test[n], send)
    ensures forall p :: 0 <= p < n
              ==> test[p] + |lists[p]| < |src.I| && send[p] == Packed(src, trial, test[p], lists[p], |lists[p]|)
  {
    forall p | 0 <= p < n
      ensures test[p] + |lists[p]| < |src.I| && send[p] == Packed(src, trial, test[p], lists[p], |lists[p]|)
    {
      LayoutRises(n, test, lists, p + 1, n);
      assert Done(n, src, test, trial, lists, p, test[n], send[p]);
    }
  }

  /** One row: nothing if the ghost cursor is at it, its entries otherwise. */
  method PackOrSkip(src: Csr, trial: seq<nat>, ghosts: seq<nat>, cursor0: nat, i: nat, first: nat,
                    ghost list: seq<Entity>) returns (row: seq<Entry>, cursor: nat)
    requires ColumnsInBlocks(src, trial) && RowsOf(src) && i + 1 < |src.I|
    requires first <= i < first + |list| && ghosts == GhostsOf(list, first)
    requires cursor0 == |GhostsOf(list[..i - first], first)|
    ensures row == if list[i - first].isGhost then [] else Entries(src, i - first, trial, src.I[i], src.I[i + 1])
    ensures cursor == |GhostsOf(list[..i + 1 - first], first)|
  {
    CursorTest(list, first, i - first);
    row, cursor := [], cursor0;
    if cursor < |ghosts| && i == ghosts[cursor] {
      cursor := cursor + 1;
    } else {
      row := PackRow(src, trial, i, i - first);
    }
  }

  /** Moves the rank cursor to the block of row i; a new block starts with its first ghost. */
  method AdvanceRank(n: nat, test: seq<nat>, ghost lists: seq<seq<Entity>>, rank0: nat, cursor0: nat, i: nat)
    returns (rank: nat, cursor: nat)
    requires Layout(n, test, lists) && Rising(test) && i < test[n] && rank0 < n && test[rank0] <= i <= test[rank0 + 1]
    requires cursor0 == |GhostsOf(lists[rank0][..i - test[rank0]], test[rank0])|
    ensures rank < n && InBlock(test, rank, i)
    ensures cursor == |GhostsOf(lists[rank][..i - test[rank]], test[rank])|
  {
    rank, cursor := rank0, cursor0;
    while i == test[rank + 1]
      invariant rank < n && test[rank] <= i <= test[rank + 1]
      invariant cursor == |GhostsOf(lists[rank][..i - test[rank]], test[rank])|
      decreases n - rank
    {
      rank := rank + 1;
      cursor := 0;
    }
  }

  /** The loop over the entries of one row. */
  method PackRow(src: Csr, trial: seq<nat>, i: nat, row: nat) returns (entries: seq<Entry>)
    requires ColumnsInBlocks(src, trial) && RowsOf(src) && i + 1 < |src.I|
    ensures entries == Entries(src, row, trial, src.I[i], src.I[i + 1])
  {
    entries := [];
    var r := 0;
    for x := src.I[i] to src.I[i + 1]
      invariant r + 1 < |trial| && entries == Entries(src, row, trial, src.I[i], x)
    {
      r := FindColumnRank(trial, r, src.J[x]);
      entries := entries + [Entry(src.data[x], row, src.J[x] - trial[r], r)];
    }
  }
}
