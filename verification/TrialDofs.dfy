/** Two-hop resolution of trial dofs: buildRecvTrialElemDofs of src/redecomp/transfer/MatrixTransfer.cpp. */
module TrialDofs {
  import opened Exchange
  import opened Redecomp
  import opened MatrixPacking
  import opened FieldTransfer

  /** The trial element of one matrix: its parent rank, its position in the block of that rank, and the
      number of its dofs. */
  datatype Want = Want(rank: nat, off: nat, len: nat)

  /** Positions wanted from rank c, in order. */
  function Offs(items: seq<Want>, c: nat): seq<nat> {
    if items == [] then []
    else
      var m := |items| - 1;
      Offs(items[..m], c) + if items[m].rank == c then [items[m].off] else []
  }

  /** Number of dofs wanted from rank c. */
  function Running(items: seq<Want>, c: nat): nat {
    if items == [] then 0
    else Running(items[..|items| - 1], c) + if items[|items| - 1].rank == c then items[|items| - 1].len else 0
  }

  /** The arrays for one test rank: positions by trial rank, and for each matrix its trial rank and where its
      dofs will start and how many there are; with the running count of dofs by trial rank. */
  datatype Queue = Queue(offsets: seq<seq<nat>>, ranks: seq<nat>, extents: seq<(nat, nat)>, counts: seq<nat>)

  ghost predicate Queued(n: nat, q: Queue, items: seq<Want>) {
    && |q.offsets| == |q.counts| == n && |q.ranks| == |q.extents| == |items|
    && (forall c :: 0 <= c < n ==> q.offsets[c] == Offs(items, c) && q.counts[c] == Running(items, c))
    && (forall e :: 0 <= e < |items| ==> ExtentAt(q, items, e))
  }

  ghost predicate ExtentAt(q: Queue, items: seq<Want>, e: nat)
    requires e < |items| && e < |q.ranks| && e < |q.extents|
  {
    q.ranks[e] == items[e].rank && q.extents[e] == (Running(items[..e], items[e].rank), items[e].len)
  }

  function EmptyQueue(n: nat): Queue {
    Queue(seq(n, _ => []), [], [], seq(n, _ => 0))
  }

  /** What the loop does for one matrix. */
  function Enqueue(q: Queue, w: Want): Queue
    requires w.rank < |q.offsets| && w.rank < |q.counts|
  {
    Queue(q.offsets[w.rank := q.offsets[w.rank] + [w.off]], q.ranks + [w.rank],
          q.extents + [(q.counts[w.rank], w.len)], q.counts[w.rank := q.counts[w.rank] + w.len])
  }

  lemma EnqueueStep(n: nat, q: Queue, items: seq<Want>, w: Want)
    requires Queued(n, q, items) && w.rank < n
    ensures Queued(n, Enqueue(q, w), items + [w])
  {
    var after := items + [w];
    assert after[..|items|] == items;
    forall e | 0 <= e < |after| ensures ExtentAt(Enqueue(q, w), after, e) {
      if e < |items| {
        assert ExtentAt(q, items, e);
        assert after[..e] == items[..e];
      }
    }
  }

  /** What matrix i wants. */
  function WantOf(pairs: seq<Pair>, ranks: seq<int>, offsets: seq<nat>, nTrial: seq<nat>): nat -> Want {
    (i: nat) =>
      if i < |pairs| && TrialKnown(ranks, offsets, nTrial, pairs[i].trial)
      then WantFor(ranks, offsets, nTrial, pairs[i].trial)
      else Want(0, 0, 0)
  }

  /** The rank of a trial element, its position there, and how many dofs it has. */
  function WantFor(ranks: seq<int>, offsets: seq<nat>, nTrial: seq<nat>, e: nat): Want
    requires TrialKnown(ranks, offsets, nTrial, e)
  {
    Want(ranks[e], e - offsets[ranks[e]], nTrial[e])
  }

  lemma WantIs(pairs: seq<Pair>, ranks: seq<int>, offsets: seq<nat>, nTrial: seq<nat>, i: nat)
    requires i < |pairs| && TrialKnown(ranks, offsets, nTrial, pairs[i].trial)
    ensures WantOf(pairs, ranks, offsets, nTrial)(i) == WantFor(ranks, offsets, nTrial, pairs[i].trial)
  {
  }

  predicate TrialKnown(ranks: seq<int>, offsets: seq<nat>, nTrial: seq<nat>, e: nat) {
    e < |ranks| && e < |nTrial| && 0 <= ranks[e] && ranks[e] + 1 < |offsets| && offsets[ranks[e]] <= e
  }

  ghost predicate AllQueued(n: nat, queues: seq<Queue>, wants: seq<seq<Want>>) {
    |queues| == |wants| == n && forall r :: 0 <= r < n ==> Queued(n, queues[r], wants[r])
  }

  lemma AllQueuedStep(n: nat, queues: seq<Queue>, wants: seq<seq<Want>>, r: nat, w: Want)
    requires AllQueued(n, queues, wants) && r < n && w.rank < n
    ensures AllQueued(n, queues[r := Enqueue(queues[r], w)], wants[r := wants[r] + [w]])
  {
    EnqueueStep(n, queues[r], wants[r], w);
  }

  /** The loop over the matrices: the queue of each rank stands for the wants of the matrices whose test
      element it owns. */
  method BuildQueues(n: nat, testRanks: seq<int>, pairs: seq<Pair>, ranks: seq<int>, offsets: seq<nat>,
                     nTrial: seq<nat>) returns (queues: seq<Queue>)
    requires InRanks(testRanks, pairs) && Ranked(n, testRanks) && |offsets| == n + 1
    requires forall i :: 0 <= i < |pairs| ==> TrialKnown(ranks, offsets, nTrial, pairs[i].trial)
    ensures |queues| == n
    ensures forall r :: 0 <= r < n
              ==> Queued(n, queues[r], Gather(Ids(testRanks, pairs, r), WantOf(pairs, ranks, offsets, nTrial)))
  {
    hide EmptyQueue;
    hide AllQueued;
    hide Gathered;
    hide Queued;
    hide WantOf;
    hide WantFor;
    hide TrialKnown;
    ghost var f := WantOf(pairs, ranks, offsets, nTrial);
    queues := seq(n, _ => EmptyQueue(n));
    ghost var wants: seq<seq<Want>> := seq(n, _ => []);
    NothingQueued(n, testRanks, pairs, queues, wants, f);
    for i := 0 to |pairs|
      invariant |wants| == n && Gathered(n, testRanks, pairs[..i], wants, f) && AllQueued(n, queues, wants)
    {
      GatheredStep(n, testRanks, pairs, i, wants, f);
      WantIs(pairs, ranks, offsets, nTrial, i);
      var r := testRanks[pairs[i].test];
      queues := EnqueueMatrix(n, queues, wants, r, pairs[i].trial, ranks, offsets, nTrial, f(i));
      wants := if r == -1 then wants else wants[r := wants[r] + [f(i)]];
    }
    assert pairs[..|pairs|] == pairs;
    QueuesGathered(n, testRanks, pairs, queues, wants, f);
  }

  lemma NothingQueued(n: nat, testRanks: seq<int>, pairs: seq<Pair>, queues: seq<Queue>, wants: seq<seq<Want>>,
                      f: nat -> Want)
    requires |queues| == |wants| == n && forall r :: 0 <= r < n ==> wants[r] == []
    requires forall r :: 0 <= r < n ==> queues[r] == EmptyQueue(n)
    ensures AllQueued(n, queues, wants) && Gathered(n, testRanks, pairs[..0], wants, f)
  {
    forall r | 0 <= r < n ensures Queued(n, queues[r], wants[r]) {
      assert queues[r].ranks == [];
    }
  }

  lemma QueuesGathered(n: nat, testRanks: seq<int>, pairs: seq<Pair>, queues: seq<Queue>, wants: seq<seq<Want>>,
                       f: nat -> Want)
    requires InRanks(testRanks, pairs) && Gathered(n, testRanks, pairs, wants, f) && AllQueued(n, queues, wants)
    ensures |queues| == n && forall r :: 0 <= r < n ==> Queued(n, queues[r], Gather(Ids(testRanks, pairs, r), f))
  {
    hide Queued;
  }

  /** The body of the loop; r is the rank of the test element. */
  method EnqueueMatrix(n: nat, queues0: seq<Queue>, ghost wants: seq<seq<Want>>, r: int, trial: nat, ranks: seq<int>,
                       offsets: seq<nat>, nTrial: seq<nat>, ghost w: Want)
    returns (queues: seq<Queue>)
    requires AllQueued(n, queues0, wants) && -1 <= r < n && |offsets| == n + 1 && TrialKnown(ranks, offsets, nTrial, trial)
    requires w == WantFor(ranks, offsets, nTrial, trial)
    ensures AllQueued(n, queues, if r == -1 then wants else wants[r := wants[r] + [w]])
  {
    queues := queues0;
    if r != -1 {
      AllQueuedStep(n, queues, wants, r, w);
      queues := queues[r := Enqueue(queues[r], Want(ranks[trial], trial - offsets[ranks[trial]], nTrial[trial]))];
    }
  }

  // ----- on the rank of the trial element

  /** The parent trial space: for each rank the element lists, the dofs of its elements, and the global
      number of its first dof. */
  datatype Trial = Trial(p2r: ElementLists, tables: seq<seq<seq<nat>>>, first: seq<nat>)

  /** The position names an element of parent rank c listed for rank a. */
  predicate Known(t: Trial, c: nat, a: nat, off: nat) {
    && c < |t.p2r| && a < |t.p2r[c]| && off < |t.p2r[c][a]| && c < |t.tables| && c < |t.first|
    && t.p2r[c][a][off].index < |t.tables[c]|
  }

  /** Global dofs of the element that parent rank c lists for rank a at position off. */
  function DofsAt(t: Trial, c: nat, a: nat, off: nat): seq<nat> {
    if Known(t, c, a, off)
    then
      var dofs := t.tables[c][t.p2r[c][a][off].index];
      seq(|dofs|, i requires 0 <= i < |dofs| => t.first[c] + dofs[i])
    else []
  }

  function DofLists(t: Trial, c: nat, a: nat, offs: seq<nat>): (r: seq<seq<nat>>)
    ensures |r| == |offs| && forall k :: 0 <= k < |offs| ==> r[k] == DofsAt(t, c, a, offs[k])
  {
    seq(|offs|, k requires 0 <= k < |offs| => DofsAt(t, c, a, offs[k]))
  }

  predicate AllKnown(t: Trial, c: nat, a: nat, offs: seq<nat>) {
    forall k :: 0 <= k < |offs| ==> Known(t, c, a, offs[k])
  }

  /** Looks up the dofs of the wanted elements, one after the other. */
  method CollectDofs(t: Trial, c: nat, a: nat, offs: seq<nat>) returns (dofs: seq<nat>)
    requires AllKnown(t, c, a, offs)
    ensures dofs == Concat(DofLists(t, c, a, offs))
  {
    dofs := [];
    for k := 0 to |offs|
      invariant dofs == Concat(DofLists(t, c, a, offs)[..k])
    {
      ConcatSnoc(DofLists(t, c, a, offs), k);
      var table := t.tables[c][t.p2r[c][a][offs[k]].index];
      var block := seq(|table|, _ => 0);
      for i := 0 to |table|
        invariant |block| == |table| && forall j :: 0 <= j < i ==> block[j] == t.first[c] + table[j]
      {
        block := block[i := t.first[c] + table[i]];
      }
      assert block == DofsAt(t, c, a, offs[k]);
      dofs := dofs + block;
    }
    assert DofLists(t, c, a, offs)[..|offs|] == DofLists(t, c, a, offs);
  }

  ghost predicate Fetched(n: nat, t: Trial, a: nat, offsets: seq<seq<nat>>, row: seq<seq<nat>>) {
    && |offsets| == |row| == n
    && forall c :: 0 <= c < n ==> row[c] == Concat(DofLists(t, c, a, offsets[c]))
  }

  /** One round for all ranks: positions go to the trial ranks, dofs come back. */
  method FetchDofs(n: nat, t: Trial, wanted: seq<seq<seq<nat>>>) returns (unsorted: seq<seq<seq<nat>>>)
    requires Square(n, wanted) && forall a, c :: 0 <= a < n && 0 <= c < n ==> AllKnown(t, c, a, wanted[a][c])
    ensures Square(n, unsorted) && forall a :: 0 <= a < n ==> Fetched(n, t, a, wanted[a], unsorted[a])
  {
    var arrived := Transpose(n, wanted);
    var found: seq<seq<seq<nat>>> := [];
    for c := 0 to n
      invariant |found| == c && forall b :: 0 <= b < c ==> |found[b]| == n
      invariant forall b, a :: 0 <= b < c && 0 <= a < n ==> found[b][a] == Concat(DofLists(t, b, a, wanted[a][b]))
    {
      var row := CollectRow(n, t, c, arrived[c], wanted);
      found := found + [row];
    }
    unsorted := Transpose(n, found);
  }

  method CollectRow(n: nat, t: Trial, c: nat, arrived: seq<seq<nat>>, ghost wanted: seq<seq<seq<nat>>>)
    returns (row: seq<seq<nat>>)
    requires Square(n, wanted) && c < n && |arrived| == n && forall a :: 0 <= a < n ==> arrived[a] == wanted[a][c]
    requires forall a :: 0 <= a < n ==> AllKnown(t, c, a, arrived[a])
    ensures |row| == n && forall a :: 0 <= a < n ==> row[a] == Concat(DofLists(t, c, a, wanted[a][c]))
  {
    row := [];
    for a := 0 to n
      invariant |row| == a && forall b :: 0 <= b < a ==> row[b] == Concat(DofLists(t, c, b, wanted[b][c]))
    {
      var dofs := CollectDofs(t, c, a, arrived[a]);
      row := row + [dofs];
    }
  }

  // ----- back in the order of the matrices

  /** The dofs of the trial elements, matrix by matrix. */
  function Blocks(t: Trial, a: nat, items: seq<Want>): (r: seq<seq<nat>>)
    ensures |r| == |items| && forall e :: 0 <= e < |items| ==> r[e] == DofsAt(t, items[e].rank, a, items[e].off)
  {
    seq(|items|, e requires 0 <= e < |items| => DofsAt(t, items[e].rank, a, items[e].off))
  }

  /** Redecomp and parent elements have the same number of dofs. */
  ghost predicate Sized(t: Trial, a: nat, items: seq<Want>) {
    forall e :: 0 <= e < |items| ==> items[e].len == |DofsAt(t, items[e].rank, a, items[e].off)|
  }

  lemma {:induction false} OffsPrefix(items: seq<Want>, c: nat, e: nat)
    requires e <= |items|
    ensures Offs(items[..e], c) <= Offs(items, c)
  {
    if e == |items| {
      assert items[..e] == items;
    } else {
      OffsPrefix(items[..|items| - 1], c, e);
      assert items[..|items| - 1][..e] == items[..e];
    }
  }

  lemma OffsAt(items: seq<Want>, e: nat)
    requires e < |items|
    ensures var (c, k) := (items[e].rank, |Offs(items[..e], items[e].rank)|);
      k < |Offs(items, c)| && Offs(items, c)[k] == items[e].off && Offs(items, c)[..k] == Offs(items[..e], c)
  {
    var c := items[e].rank;
    OffsPrefix(items, c, e);
    OffsPrefix(items, c, e + 1);
    assert items[..e + 1][..e] == items[..e];
  }

  /** The running count is where the next block starts. */
  lemma {:induction false} RunningIsLength(t: Trial, a: nat, items: seq<Want>, c: nat)
    requires Sized(t, a, items)
    ensures |Concat(DofLists(t, c, a, Offs(items, c)))| == Running(items, c)
  {
    if items != [] {
      var m := |items| - 1;
      RunningIsLength(t, a, items[..m], c);
      if items[m].rank == c {
        var (before, after) := (DofLists(t, c, a, Offs(items[..m], c)), DofLists(t, c, a, Offs(items, c)));
        assert after == before + [DofsAt(t, c, a, items[m].off)];
        assert after[..|before|] == before;
      } else {
        assert Offs(items, c) == Offs(items[..m], c);
      }
    }
  }

  lemma DofListsPrefix(t: Trial, c: nat, a: nat, offs: seq<nat>, k: nat)
    requires k <= |offs|
    ensures DofLists(t, c, a, offs)[..k] == DofLists(t, c, a, offs[..k])
  {
  }

  /** Matrix e's block comes right after the running count of the blocks before it. */
  lemma BlockPlace(t: Trial, a: nat, items: seq<Want>, e: nat)
    requires Sized(t, a, items) && e < |items|
    ensures var (c, k) := (items[e].rank, |Offs(items[..e], items[e].rank)|);
      var lists := DofLists(t, c, a, Offs(items, c));
      && k < |lists| && lists[k] == Blocks(t, a, items)[e] && |lists[k]| == items[e].len
      && |Concat(lists[..k])| == Running(items[..e], c)
  {
    var (c, k) := (items[e].rank, |Offs(items[..e], items[e].rank)|);
    OffsAt(items, e);
    RunningIsLength(t, a, items[..e], c);
    hide Offs;
    hide Running;
    hide Concat;
    hide DofsAt;
    DofListsPrefix(t, c, a, Offs(items, c), k);
  }

  /** The extent of matrix e cuts out the dofs of its trial element. */
  lemma ExtentIsBlock(t: Trial, a: nat, items: seq<Want>, e: nat)
    requires Sized(t, a, items) && e < |items|
    ensures var (c, start) := (items[e].rank, Running(items[..e], items[e].rank));
      var all := Concat(DofLists(t, c, a, Offs(items, c)));
      start + items[e].len <= |all| && all[start..start + items[e].len] == Blocks(t, a, items)[e]
  {
    hide Offs;
    hide Running;
    hide Concat;
    hide DofLists;
    hide Blocks;
    hide Sized;
    BlockPlace(t, a, items, e);
    var c := items[e].rank;
    ConcatAt(DofLists(t, c, a, Offs(items, c)), |Offs(items[..e], c)|);
  }

  lemma NextBlock(n: nat, q: Queue, unsorted: seq<seq<nat>>, t: Trial, a: nat, items: seq<Want>, e: nat)
    requires Queued(n, q, items) && Sized(t, a, items) && Fetched(n, t, a, q.offsets, unsorted)
    requires e < |items| && items[e].rank < n
    ensures |q.ranks| == |q.extents| == |items| && q.ranks[e] < |unsorted|
    ensures var (from, block) := (unsorted[q.ranks[e]], q.extents[e]);
      block.0 + block.1 <= |from| && from[block.0..block.0 + block.1] == Blocks(t, a, items)[e]
  {
    ExtentIsBlock(t, a, items, e);
    assert ExtentAt(q, items, e);
    hide Blocks;
    hide Concat;
  }

  /** The trial dofs for one test rank, in the order of its matrices. */
  method SortDofs(n: nat, q: Queue, unsorted: seq<seq<nat>>, ghost t: Trial, ghost a: nat, ghost items: seq<Want>)
    returns (dofs: seq<nat>)
    requires Queued(n, q, items) && Sized(t, a, items) && Fetched(n, t, a, q.offsets, unsorted)
    requires forall e :: 0 <= e < |items| ==> items[e].rank < n
    ensures dofs == Concat(Blocks(t, a, items))
  {
    ghost var blocks := Blocks(t, a, items);
    assert |blocks| == |items| == |q.ranks|;
    dofs := [];
    assert dofs == Concat(blocks[..0]);
    hide Concat;
    hide Blocks;
    hide Queued;
    hide Fetched;
    hide Sized;
    for e := 0 to |q.ranks|
      invariant dofs == Concat(blocks[..e])
    {
      ConcatSnoc(blocks, e);
      NextBlock(n, q, unsorted, t, a, items, e);
      dofs := dofs + unsorted[q.ranks[e]][q.extents[e].0..q.extents[e].0 + q.extents[e].1];
    }
    assert blocks[..|items|] == blocks;
  }
}
