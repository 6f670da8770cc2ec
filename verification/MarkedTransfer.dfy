/** The exchange of element matrices of src/redecomp/transfer/MatrixTransfer.cpp, from the marks and offsets of
    the elements of every redecomp rank on. */
module MarkedTransfer {
  import opened Exchange
  import opened FieldTransfer
  import opened RCBPartition
  import opened MatrixPacking
  import opened TrialDofs
  import opened TripletMerge
  import opened ElementMatrices
  import opened RoundSums

  /** The parent side: the test dofs of the elements of every rank, the trial space, and the number of test
      dofs of every rank. */
  datatype Parents = Parents(n: nat, tables: seq<seq<seq<nat>>>, trial: Trial, heights: seq<nat>)

  /** Redecomp rank q: the test element lists that the parent ranks have for it, its element pairs, the marks
      and offsets of its test and trial elements, their numbers of dofs, and the flat buffer of values. */
  datatype Rank = Rank(q: nat, lists: seq<seq<Entity>>, pairs: seq<Pair>, marks: seq<int>, testOffsets: seq<nat>,
                       trialRanks: seq<int>, trialOffsets: seq<nat>, nTest: seq<nat>, nTrial: seq<nat>,
                       data: seq<real>, starts: seq<nat>)

  /** The owner of the test element of matrix i, or -1. */
  function Mark(s: Rank, i: nat): int {
    if i < |s.pairs| && s.pairs[i].test < |s.marks| then s.marks[s.pairs[i].test] else -1
  }

  function TestOffset(s: Rank): nat -> nat { TestOffsetOf(s.pairs, s.testOffsets, s.marks) }

  function SizeOf(s: Rank): nat -> (nat, nat) { SizesOf(s.pairs, s.nTest, s.nTrial) }

  function WantedBy(s: Rank): nat -> Want { WantOf(s.pairs, s.trialRanks, s.trialOffsets, s.nTrial) }

  function FlatValues(s: Rank): nat -> seq<real> { ValuesOf(s.pairs, s.nTest, s.nTrial, s.data, s.starts) }

  predicate OffsetKnown(pa: Parents, s: Rank, p: int, off: nat) {
    0 <= p < |s.lists| && off < |s.lists[p]| && p < |pa.tables| && s.lists[p][off].index < |pa.tables[p]|
  }

  function RowDofs(pa: Parents, s: Rank, p: int, off: nat): seq<nat> {
    if OffsetKnown(pa, s, p, off) then pa.tables[p][s.lists[p][off].index] else []
  }

  function ColDofs(pa: Parents, s: Rank, w: Want): seq<nat> {
    DofsAt(pa.trial, w.rank, s.q, w.off)
  }

  /** Element matrix i with the parent dofs of its test and trial elements, to which it is to be scattered. */
  function ElemOf(pa: Parents, s: Rank): nat -> Elem {
    (i: nat) => Elem(RowDofs(pa, s, Mark(s, i), TestOffset(s)(i)), ColDofs(pa, s, WantedBy(s)(i)), FlatValues(s)(i))
  }

  /** Matrix i fits: its buffer entry is in bounds, its trial element is known on its parent rank, and, if its
      test element is owned, so is that; parent elements have as many dofs as redecomp elements. */
  predicate MatrixFits(pa: Parents, s: Rank, i: nat)
    requires i < |s.pairs|
  {
    var w := WantedBy(s)(i);
    && FlatEntry(s.pairs, s.nTest, s.nTrial, s.data, s.starts, i)
    && TrialKnown(s.trialRanks, s.trialOffsets, s.nTrial, s.pairs[i].trial)
    && Known(pa.trial, w.rank, s.q, w.off) && w.len == |ColDofs(pa, s, w)| && w.rank < pa.n
    && (Mark(s, i) >= 0 ==> OwnedFits(pa, s, i))
  }

  predicate OwnedFits(pa: Parents, s: Rank, i: nat)
    requires i < |s.pairs| && FlatEntry(s.pairs, s.nTest, s.nTrial, s.data, s.starts, i)
  {
    && OffsetKnown(pa, s, Mark(s, i), TestOffset(s)(i))
    && s.nTest[s.pairs[i].test] == |RowDofs(pa, s, Mark(s, i), TestOffset(s)(i))|
  }

  ghost predicate RankFits(pa: Parents, s: Rank) {
    && InRanks(s.marks, s.pairs) && Ranked(pa.n, s.marks) && SizesKnown(s.pairs, s.nTest, s.nTrial)
    && |s.testOffsets| == |s.trialOffsets| == pa.n + 1 && |s.lists| == |pa.tables| == pa.n
    && (forall e :: 0 <= e < |s.marks| && s.marks[e] != -1 ==> s.testOffsets[s.marks[e]] <= e)
    && forall i :: 0 <= i < |s.pairs| ==> MatrixFits(pa, s, i)
  }

  /** The matrices for parent rank p. */
  function IdsFor(s: Rank, p: nat): seq<nat> {
    if InRanks(s.marks, s.pairs) then Ids(s.marks, s.pairs, p) else []
  }

  function ElemsFor(pa: Parents, s: Rank, p: nat): seq<Elem> {
    Gather(IdsFor(s, p), ElemOf(pa, s))
  }

  // ----- what a rank sends

  /** The arrays for parent rank p, all over the same list of matrices. */
  function MessageFor(pa: Parents, s: Rank, p: nat): Message {
    var ids := IdsFor(s, p);
    Message(Gather(ids, TestOffset(s)), Gather(ids, SizeOf(s)), Concat(Blocks(pa.trial, s.q, Gather(ids, WantedBy(s)))),
            Concat(Gather(ids, FlatValues(s))))
  }

  lemma BlocksAreCols(pa: Parents, s: Rank, p: nat)
    ensures Blocks(pa.trial, s.q, Gather(IdsFor(s, p), WantedBy(s))) == ColsOf(ElemsFor(pa, s, p))
    ensures Gather(IdsFor(s, p), FlatValues(s)) == ValsOf(ElemsFor(pa, s, p))
  {
  }

  lemma ElemIsFilled(pa: Parents, s: Rank, i: nat)
    requires i < |s.pairs| && MatrixFits(pa, s, i) && Mark(s, i) >= 0
    ensures Filled(ElemOf(pa, s)(i))
    ensures SizeOf(s)(i) == (|ElemOf(pa, s)(i).rows|, |ElemOf(pa, s)(i).cols|)
  {
    ValuesLength(s.pairs, s.nTest, s.nTrial, s.data, s.starts, i);
    assert OwnedFits(pa, s, i);
  }

  lemma ElemFits(pa: Parents, s: Rank, p: nat, k: nat)
    requires RankFits(pa, s) && p < pa.n && k < |IdsFor(s, p)|
    ensures IdsFor(s, p)[k] < |s.pairs| && Mark(s, IdsFor(s, p)[k]) == p && MatrixFits(pa, s, IdsFor(s, p)[k])
    ensures Filled(ElemsFor(pa, s, p)[k])
  {
    IdsInRange(s.marks, s.pairs, p);
    ElemIsFilled(pa, s, IdsFor(s, p)[k]);
  }

  lemma ElemsFilled(pa: Parents, s: Rank, p: nat)
    requires RankFits(pa, s) && p < pa.n
    ensures AllFilled(ElemsFor(pa, s, p))
  {
    forall k | 0 <= k < |IdsFor(s, p)| ensures Filled(ElemsFor(pa, s, p)[k]) { ElemFits(pa, s, p, k); }
  }

  /** Aligned: the k-th position, size, block of trial dofs and block of values belong to the k-th matrix. */
  lemma MessageCarries(pa: Parents, s: Rank, p: nat)
    requires RankFits(pa, s) && p < pa.n
    ensures Carries(MessageFor(pa, s, p), s.lists[p], pa.tables[p], ElemsFor(pa, s, p))
  {
    var (ids, elems, msg) := (IdsFor(s, p), ElemsFor(pa, s, p), MessageFor(pa, s, p));
    BlocksAreCols(pa, s, p);
    ElemsFilled(pa, s, p);
    forall k | 0 <= k < |ids| ensures CarriesAt(msg, s.lists[p], pa.tables[p], elems, k) {
      ElemFits(pa, s, p, k);
      ElemIsFilled(pa, s, ids[k]);
    }
  }

  // ----- the sums

  /** The scattered matrices for parent rank p among the first m. */
  function MatrixSum(pa: Parents, s: Rank, p: nat, m: nat, k: nat, g: nat): real {
    if m == 0 then 0.0
    else MatrixSum(pa, s, p, m - 1, k, g) + MatrixTerm(pa, s, p, m - 1, k, g)
  }

  function MatrixTerm(pa: Parents, s: Rank, p: nat, i: nat, k: nat, g: nat): real {
    if Mark(s, i) == p then Scattered(ElemOf(pa, s)(i), k, g) else 0.0
  }

  lemma ScatteredSnoc(ids: seq<nat>, i: nat, f: nat -> Elem, k: nat, g: nat)
    ensures ScatteredAll(Gather(ids + [i], f), k, g) == ScatteredAll(Gather(ids, f), k, g) + Scattered(f(i), k, g)
  {
    GatherSnoc(ids, i, f);
    assert (Gather(ids, f) + [f(i)])[..|ids|] == Gather(ids, f);
  }

  lemma TermOfMark(pa: Parents, s: Rank, p: nat, i: nat, k: nat, g: nat)
    requires InRanks(s.marks, s.pairs) && i < |s.pairs|
    ensures MatrixTerm(pa, s, p, i, k, g)
         == if s.marks[s.pairs[i].test] == p then Scattered(ElemOf(pa, s)(i), k, g) else 0.0
  {
  }

  lemma OneMoreTerm(pa: Parents, s: Rank, p: nat, i: nat, k: nat, g: nat)
    requires InRanks(s.marks, s.pairs) && i < |s.pairs|
    ensures ScatteredAll(Gather(Ids(s.marks, s.pairs[..i + 1], p), ElemOf(pa, s)), k, g)
         == ScatteredAll(Gather(Ids(s.marks, s.pairs[..i], p), ElemOf(pa, s)), k, g) + MatrixTerm(pa, s, p, i, k, g)
  {
    hide Ids;
    hide Gather;
    hide ScatteredAll;
    hide Scattered;
    hide ElemOf;
    hide MatrixTerm;
    IdsSnoc(s.marks, s.pairs, i, p);
    TermOfMark(pa, s, p, i, k, g);
    if s.marks[s.pairs[i].test] == p { ScatteredSnoc(Ids(s.marks, s.pairs[..i], p), i, ElemOf(pa, s), k, g); }
  }

  lemma {:induction false} GatheredSum(pa: Parents, s: Rank, p: nat, m: nat, k: nat, g: nat)
    requires InRanks(s.marks, s.pairs) && m <= |s.pairs|
    ensures ScatteredAll(Gather(Ids(s.marks, s.pairs[..m], p), ElemOf(pa, s)), k, g) == MatrixSum(pa, s, p, m, k, g)
    decreases m
  {
    if m > 0 {
      hide Ids;
      hide Gather;
      hide ScatteredAll;
      hide ElemOf;
      hide MatrixTerm;
      GatheredSum(pa, s, p, m - 1, k, g);
      OneMoreTerm(pa, s, p, m - 1, k, g);
    }
  }

  /** Sum over the first m redecomp ranks of the scattered matrices for parent rank p. */
  function MarkedSum(pa: Parents, ranks: seq<Rank>, p: nat, m: nat, k: nat, g: nat): real
    requires m <= |ranks|
  {
    if m == 0 then 0.0
    else MarkedSum(pa, ranks, p, m - 1, k, g) + MatrixSum(pa, ranks[m - 1], p, |ranks[m - 1].pairs|, k, g)
  }

  /** The element matrices for parent rank p, by redecomp rank. */
  function AllElems(pa: Parents, ranks: seq<Rank>, p: nat): (r: seq<seq<Elem>>)
    ensures |r| == |ranks| && forall q :: 0 <= q < |ranks| ==> r[q] == ElemsFor(pa, ranks[q], p)
  {
    seq(|ranks|, q requires 0 <= q < |ranks| => ElemsFor(pa, ranks[q], p))
  }

  lemma {:induction false} SumsAgree(f: nat -> real, pa: Parents, ranks: seq<Rank>, p: nat, m: nat, k: nat, g: nat)
    requires m <= |ranks|
    requires forall q :: 0 <= q < m ==> f(q) == MatrixSum(pa, ranks[q], p, |ranks[q].pairs|, k, g)
    ensures RanksSum(f, m) == MarkedSum(pa, ranks, p, m, k, g)
    decreases m
  {
    if m > 0 { SumsAgree(f, pa, ranks, p, m - 1, k, g); }
  }

  lemma FromRankSum(pa: Parents, ranks: seq<Rank>, p: nat, q: nat, k: nat, g: nat)
    requires q < |ranks| && InRanks(ranks[q].marks, ranks[q].pairs)
    ensures FromRank(AllElems(pa, ranks, p), k, g)(q) == MatrixSum(pa, ranks[q], p, |ranks[q].pairs|, k, g)
  {
    RankSum(pa, ranks[q], p, k, g);
  }

  lemma RankSum(pa: Parents, s: Rank, p: nat, k: nat, g: nat)
    requires InRanks(s.marks, s.pairs)
    ensures ScatteredAll(ElemsFor(pa, s, p), k, g) == MatrixSum(pa, s, p, |s.pairs|, k, g)
  {
    GatheredSum(pa, s, p, |s.pairs|, k, g);
    assert s.pairs[..|s.pairs|] == s.pairs;
  }

  ghost predicate Valid(pa: Parents, ranks: seq<Rank>) {
    && pa.n >= 1 && |ranks| == pa.n == |pa.heights| == |pa.tables| && |pa.trial.p2r| == pa.n
    && (forall q :: 0 <= q < pa.n ==> RankFits(pa, ranks[q]) && ranks[q].q == q)
    && (forall p :: 0 <= p < pa.n ==> TableFits(pa.tables[p], pa.heights[p]))
  }

  predicate TableFits(table: seq<seq<nat>>, height: nat) {
    forall x :: 0 <= x < |table| ==> DofsFit(table[x], height)
  }

  lemma Receives(pa: Parents, ranks: seq<Rank>, p: nat)
    requires Valid(pa, ranks) && p < pa.n
    ensures Receivable(pa.n, p, AllElems(pa, ranks, p))
  {
    forall q | 0 <= q < pa.n ensures AllFilled(AllElems(pa, ranks, p)[q]) { ElemsFilled(pa, ranks[q], p); }
  }

  /** All triplets that arrive at parent rank p. */
  function ArrivedAt(pa: Parents, ranks: seq<Rank>, p: nat): seq<Triplet>
    requires Valid(pa, ranks) && p < pa.n
  {
    Receives(pa, ranks, p);
    Arrived(pa.n, p, AllElems(pa, ranks, p), pa.n)
  }

  lemma ArrivedSum(pa: Parents, ranks: seq<Rank>, p: nat, k: nat, g: nat)
    requires Valid(pa, ranks) && p < pa.n
    ensures Total(ArrivedAt(pa, ranks, p), k, g) == MarkedSum(pa, ranks, p, pa.n, k, g)
  {
    Receives(pa, ranks, p);
    AllArrivedTotal(pa.n, p, AllElems(pa, ranks, p), k, g);
    var f := FromRank(AllElems(pa, ranks, p), k, g);
    forall q | 0 <= q < pa.n ensures f(q) == MatrixSum(pa, ranks[q], p, |ranks[q].pairs|, k, g) {
      FromRankSum(pa, ranks, p, q, k, g);
    }
    SumsAgree(f, pa, ranks, p, pa.n, k, g);
  }

  ghost predicate IsResult(pa: Parents, ranks: seq<Rank>, p: nat, m: Rows)
    requires Valid(pa, ranks) && p < pa.n
  {
    Denotes(m, ArrivedAt(pa, ranks, p), pa.heights[p])
  }

  /** The sparse matrix to which every contribution was added. */
  ghost predicate IsAdded(pa: Parents, ranks: seq<Rank>, p: nat, a: Adding)
    requires Valid(pa, ranks) && p < pa.n
  {
    a == AddAll(ArrivedAt(pa, ranks, p))
  }

  // ----- the transfer on all ranks

  /** The wants of the matrices for parent rank p. */
  function WantsFor(s: Rank, p: nat): seq<Want> {
    Gather(IdsFor(s, p), WantedBy(s))
  }

  lemma WantsFit(pa: Parents, s: Rank, p: nat)
    requires RankFits(pa, s) && p < pa.n
    ensures Sized(pa.trial, s.q, WantsFor(s, p)) && WantsKnown(pa.trial, s.q, pa.n, WantsFor(s, p))
  {
    var wants := WantsFor(s, p);
    forall k | 0 <= k < |wants|
      ensures wants[k].len == |DofsAt(pa.trial, wants[k].rank, s.q, wants[k].off)|
      ensures wants[k].rank < pa.n && Known(pa.trial, wants[k].rank, s.q, wants[k].off)
    {
      ElemFits(pa, s, p, k);
    }
  }

  predicate WantsKnown(t: Trial, a: nat, n: nat, items: seq<Want>) {
    forall e :: 0 <= e < |items| ==> items[e].rank < n && Known(t, items[e].rank, a, items[e].off)
  }

  lemma {:induction false} OffsKnown(t: Trial, a: nat, n: nat, items: seq<Want>, c: nat)
    requires WantsKnown(t, a, n, items)
    ensures AllKnown(t, c, a, Offs(items, c))
  {
    if items != [] { OffsKnown(t, a, n, items[..|items| - 1], c); }
  }

  ghost predicate QueuesOf(pa: Parents, s: Rank, queues: seq<Queue>) {
    |queues| == pa.n && forall p :: 0 <= p < pa.n ==> Queued(pa.n, queues[p], WantsFor(s, p))
  }

  method QueueRank(pa: Parents, s: Rank) returns (queues: seq<Queue>)
    requires RankFits(pa, s)
    ensures QueuesOf(pa, s, queues)
  {
    forall i | 0 <= i < |s.pairs| ensures TrialKnown(s.trialRanks, s.trialOffsets, s.nTrial, s.pairs[i].trial) {
      assert MatrixFits(pa, s, i);
    }
    queues := BuildQueues(pa.n, s.marks, s.pairs, s.trialRanks, s.trialOffsets, s.nTrial);
  }

  /** The trial dofs for test rank p that all ranks fetch, unsorted. */
  ghost predicate FetchedFor(pa: Parents, p: nat, unsorted: seq<seq<seq<nat>>>, queues: seq<seq<Queue>>)
  {
    |unsorted| == |queues| == pa.n && forall q :: 0 <= q < pa.n ==> FetchedAt(pa, p, q, unsorted[q], queues[q])
  }

  ghost predicate FetchedAt(pa: Parents, p: nat, q: nat, unsorted: seq<seq<nat>>, queues: seq<Queue>) {
    p < |queues| && Fetched(pa.n, pa.trial, q, queues[p].offsets, unsorted)
  }

  method FetchFor(pa: Parents, ranks: seq<Rank>, p: nat, queues: seq<seq<Queue>>) returns (unsorted: seq<seq<seq<nat>>>)
    requires Valid(pa, ranks) && p < pa.n && |queues| == pa.n
    requires forall q :: 0 <= q < pa.n ==> QueuesOf(pa, ranks[q], queues[q])
    ensures FetchedFor(pa, p, unsorted, queues)
  {
    var wanted := seq(pa.n, q requires 0 <= q < pa.n => queues[q][p].offsets);
    forall q | 0 <= q < pa.n
      ensures |wanted[q]| == pa.n && forall c :: 0 <= c < pa.n ==> AllKnown(pa.trial, c, q, wanted[q][c])
    {
      OffsetsKnown(pa, ranks[q], p, queues[q]);
    }
    unsorted := FetchDofs(pa.n, pa.trial, wanted);
  }

  lemma OffsetsKnown(pa: Parents, s: Rank, p: nat, queues: seq<Queue>)
    requires RankFits(pa, s) && p < pa.n && QueuesOf(pa, s, queues)
    ensures |queues[p].offsets| == pa.n && forall c :: 0 <= c < pa.n ==> AllKnown(pa.trial, c, s.q, queues[p].offsets[c])
  {
    assert Queued(pa.n, queues[p], WantsFor(s, p));
    WantsFit(pa, s, p);
    forall c | 0 <= c < pa.n ensures AllKnown(pa.trial, c, s.q, queues[p].offsets[c]) {
      OffsKnown(pa.trial, s.q, pa.n, WantsFor(s, p), c);
    }
  }

  /** The trial dofs that rank s sends to parent rank p. */
  function DofsFor(pa: Parents, s: Rank, p: nat): seq<nat> {
    Concat(Blocks(pa.trial, s.q, WantsFor(s, p)))
  }

  method SortFor(pa: Parents, s: Rank, p: nat, queues: seq<Queue>, unsorted: seq<seq<nat>>) returns (dofs: seq<nat>)
    requires RankFits(pa, s) && p < pa.n && QueuesOf(pa, s, queues)
    requires FetchedAt(pa, p, s.q, unsorted, queues)
    ensures dofs == DofsFor(pa, s, p)
  {
    WantsFit(pa, s, p);
    dofs := SortDofs(pa.n, queues[p], unsorted, pa.trial, s.q, WantsFor(s, p));
  }

  /** buildRecvTrialElemDofs on all ranks, before the last exchange: byTest[p][q] goes from q to p. */
  method ResolveTrialDofs(pa: Parents, ranks: seq<Rank>) returns (byTest: seq<seq<seq<nat>>>)
    requires Valid(pa, ranks)
    ensures |byTest| == pa.n && forall p :: 0 <= p < pa.n ==> SortedFor(pa, ranks, p, byTest[p])
  {
    hide RankFits;
    hide TableFits;
    hide QueuesOf;
    hide SortedFor;
    var queues: seq<seq<Queue>> := [];
    for q := 0 to pa.n
      invariant |queues| == q && forall a :: 0 <= a < q ==> QueuesOf(pa, ranks[a], queues[a])
    {
      var row := QueueRank(pa, ranks[q]);
      queues := queues + [row];
    }
    byTest := [];
    for p := 0 to pa.n
      invariant |byTest| == p && forall a :: 0 <= a < p ==> SortedFor(pa, ranks, a, byTest[a])
    {
      var row := ResolveFor(pa, ranks, p, queues);
      byTest := byTest + [row];
    }
  }

  ghost predicate SortedFor(pa: Parents, ranks: seq<Rank>, p: nat, row: seq<seq<nat>>)
    requires Valid(pa, ranks)
  {
    |row| == pa.n && forall q :: 0 <= q < pa.n ==> row[q] == DofsFor(pa, ranks[q], p)
  }

  method ResolveFor(pa: Parents, ranks: seq<Rank>, p: nat, queues: seq<seq<Queue>>) returns (row: seq<seq<nat>>)
    requires Valid(pa, ranks) && p < pa.n && |queues| == pa.n
    requires forall q :: 0 <= q < pa.n ==> QueuesOf(pa, ranks[q], queues[q])
    ensures SortedFor(pa, ranks, p, row)
  {
    hide QueuesOf;
    hide FetchedFor;
    hide RankFits;
    hide DofsFor;
    hide TableFits;
    var unsorted := FetchFor(pa, ranks, p, queues);
    row := [];
    for q := 0 to pa.n
      invariant |row| == q && forall a :: 0 <= a < q ==> row[a] == DofsFor(pa, ranks[a], p)
    {
      var dofs := ResolveOne(pa, ranks, p, q, queues, unsorted);
      row := row + [dofs];
    }
  }

  method ResolveOne(pa: Parents, ranks: seq<Rank>, p: nat, q: nat, queues: seq<seq<Queue>>,
                    unsorted: seq<seq<seq<nat>>>) returns (dofs: seq<nat>)
    requires Valid(pa, ranks) && p < pa.n && q < pa.n && FetchedFor(pa, p, unsorted, queues)
    requires QueuesOf(pa, ranks[q], queues[q])
    ensures dofs == DofsFor(pa, ranks[q], p)
  {
    assert FetchedAt(pa, p, q, unsorted[q], queues[q]) && RankFits(pa, ranks[q]);
    dofs := SortFor(pa, ranks[q], p, queues[q], unsorted[q]);
  }

  /** What rank s packs for all parent ranks. */
  ghost predicate MessagesOf(pa: Parents, s: Rank, row: seq<Message>) {
    |row| == pa.n && forall p :: 0 <= p < pa.n ==> row[p] == MessageFor(pa, s, p)
  }

  method BuildMessages(pa: Parents, s: Rank, dofs: seq<seq<nat>>) returns (row: seq<Message>)
    requires RankFits(pa, s) && |dofs| == pa.n && forall p :: 0 <= p < pa.n ==> dofs[p] == DofsFor(pa, s, p)
    ensures MessagesOf(pa, s, row)
  {
    var ids := BuildSendArrayIDs(pa.n, s.marks, s.pairs);
    var sizes := BuildSendMatSizes(pa.n, s.marks, s.pairs, s.nTest, s.nTrial);
    var offs := BuildSendTestElemOffsets(pa.n, s.marks, s.pairs, s.testOffsets);
    forall p | 0 <= p < pa.n ensures ids[p] == IdsFor(s, p) { GatherItself(IdsFor(s, p)); }
    var vals := PackBuffers(pa, s, ids);
    row := seq(pa.n, p requires 0 <= p < pa.n => Message(offs[p], sizes[p], dofs[p], vals[p]));
  }

  lemma GatherItself(ids: seq<nat>)
    ensures Gather(ids, Itself()) == ids
  {
  }

  method PackBuffers(pa: Parents, s: Rank, ids: seq<seq<nat>>) returns (buffers: seq<seq<real>>)
    requires RankFits(pa, s) && |ids| == pa.n && forall p :: 0 <= p < pa.n ==> ids[p] == IdsFor(s, p)
    ensures |buffers| == pa.n
    ensures forall p :: 0 <= p < pa.n ==> buffers[p] == Concat(Gather(IdsFor(s, p), FlatValues(s)))
  {
    buffers := [];
    for p := 0 to pa.n
      invariant |buffers| == p
      invariant forall a :: 0 <= a < p ==> buffers[a] == Concat(Gather(IdsFor(s, a), FlatValues(s)))
    {
      var vals := PackFor(pa, s, p, ids[p]);
      buffers := buffers + [vals];
    }
  }

  method PackFor(pa: Parents, s: Rank, p: nat, ids: seq<nat>) returns (vals: seq<real>)
    requires RankFits(pa, s) && p < pa.n && ids == IdsFor(s, p)
    ensures vals == Concat(Gather(ids, FlatValues(s)))
    ensures |vals| == Entries(Gather(ids, SizeOf(s)))
  {
    forall k | 0 <= k < |ids| ensures FlatEntry(s.pairs, s.nTest, s.nTrial, s.data, s.starts, ids[k]) {
      ElemFits(pa, s, p, k);
    }
    ReservedSize(s, ids);
    vals := PackValues(ids, s.pairs, s.nTest, s.nTrial, s.data, s.starts);
  }

  lemma OneMoreBlock(sizes: seq<(nat, nat)>, size: (nat, nat), blocks: seq<seq<real>>, block: seq<real>)
    ensures Entries(sizes + [size]) == Entries(sizes) + Volume(size)
    ensures Concat(blocks + [block]) == Concat(blocks) + block
  {
    assert (sizes + [size])[..|sizes|] == sizes;
    assert (blocks + [block])[..|blocks|] == blocks;
  }

  lemma SizeMatches(s: Rank, i: nat)
    requires FlatEntry(s.pairs, s.nTest, s.nTrial, s.data, s.starts, i)
    ensures |FlatValues(s)(i)| == Volume(SizeOf(s)(i))
  {
    ValuesLength(s.pairs, s.nTest, s.nTrial, s.data, s.starts, i);
  }

  /** The number of values counted for a rank is the length of its buffer. */
  lemma {:induction false} ReservedSize(s: Rank, ids: seq<nat>)
    requires forall k :: 0 <= k < |ids| ==> FlatEntry(s.pairs, s.nTest, s.nTrial, s.data, s.starts, ids[k])
    ensures Entries(Gather(ids, SizeOf(s))) == |Concat(Gather(ids, FlatValues(s)))|
  {
    if ids != [] {
      hide FlatEntry;
      hide Entries;
      hide Concat;
      hide Volume;
      hide Gather;
      hide SizeOf;
      hide FlatValues;
      var (m, rest) := (|ids| - 1, ids[..|ids| - 1]);
      ReservedSize(s, rest);
      assert ids == rest + [ids[m]];
      GatherSnoc(rest, ids[m], SizeOf(s));
      GatherSnoc(rest, ids[m], FlatValues(s));
      OneMoreBlock(Gather(rest, SizeOf(s)), SizeOf(s)(ids[m]), Gather(rest, FlatValues(s)), FlatValues(s)(ids[m]));
      SizeMatches(s, ids[m]);
    }
  }

  /** The receiving half of SendRecvEach on one rank: the messages of rounds 1 to n - 1, and then its own;
      lists[q] are its test elements for rank q. */
  method Receive(n: nat, me: nat, received: seq<Message>, lists: seq<seq<Entity>>, table: seq<seq<nat>>,
                 ghost elems: seq<seq<Elem>>) returns (triplets: seq<Triplet>)
    requires Receivable(n, me, elems) && |received| == |lists| == n
    requires forall q :: 0 <= q < n ==> Carries(received[q], lists[q], table, elems[q])
    ensures triplets == Arrived(n, me, elems, n)
  {
    triplets := [];
    hide Carries;
    hide Triplets;
    hide Source;
    for i := 1 to n
      invariant triplets == Arrived(n, me, elems, i - 1)
    {
      var q := Source(n, me, i);
      assert q == Nth(n, me, i - 1);
      triplets := ReceiveMessage(received[q], lists[q], table, elems[q], triplets);
    }
    triplets := ReceiveMessage(received[me], lists[me], table, elems[me], triplets);
  }

  lemma {:induction false} ColumnRows(e: Elem, j: nat, i: nat, height: nat)
    requires Filled(e) && j < |e.cols| && i <= |e.rows| && forall x :: 0 <= x < |e.rows| ==> e.rows[x] < height
    ensures forall x :: 0 <= x < |ColumnTriplets(e, j, i)| ==> ColumnTriplets(e, j, i)[x].row < height
    decreases i
  {
    if i > 0 { ColumnRows(e, j, i - 1, height); }
  }

  lemma {:induction false} ElemRows(e: Elem, j: nat, height: nat)
    requires Filled(e) && j <= |e.cols| && forall x :: 0 <= x < |e.rows| ==> e.rows[x] < height
    ensures forall x :: 0 <= x < |ElemTriplets(e, j)| ==> ElemTriplets(e, j)[x].row < height
    decreases j
  {
    if j > 0 {
      ElemRows(e, j - 1, height);
      ColumnRows(e, j - 1, |e.rows|, height);
    }
  }

  predicate DofsFit(dofs: seq<nat>, height: nat) {
    forall x :: 0 <= x < |dofs| ==> dofs[x] < height
  }

  predicate RowsFit(elems: seq<Elem>, height: nat) {
    forall q :: 0 <= q < |elems| ==> DofsFit(elems[q].rows, height)
  }

  lemma {:induction false} TripletRows(elems: seq<Elem>, height: nat)
    requires AllFilled(elems) && RowsFit(elems, height)
    ensures forall x :: 0 <= x < |Triplets(elems)| ==> Triplets(elems)[x].row < height
  {
    if elems != [] {
      var e := elems[|elems| - 1];
      TripletRows(elems[..|elems| - 1], height);
      ElemRows(e, |e.cols|, height);
    }
  }

  lemma {:induction false} ArrivedRows(n: nat, me: nat, elems: seq<seq<Elem>>, m: nat, height: nat)
    requires Receivable(n, me, elems) && m <= n && forall q :: 0 <= q < n ==> RowsFit(elems[q], height)
    ensures forall x :: 0 <= x < |Arrived(n, me, elems, m)| ==> Arrived(n, me, elems, m)[x].row < height
    decreases m
  {
    if m > 0 {
      ArrivedRows(n, me, elems, m - 1, height);
      TripletRows(elems[Nth(n, me, m - 1)], height);
    }
  }

  lemma ElemRowsFit(pa: Parents, s: Rank, p: nat)
    requires RankFits(pa, s) && p < pa.n && p < |pa.heights| && TableFits(pa.tables[p], pa.heights[p])
    ensures RowsFit(ElemsFor(pa, s, p), pa.heights[p])
  {
    var elems := ElemsFor(pa, s, p);
    forall k | 0 <= k < |elems| ensures DofsFit(elems[k].rows, pa.heights[p]) { ElemFits(pa, s, p, k); }
  }

  function ListFor(s: Rank, p: nat): seq<Entity> {
    if p < |s.lists| then s.lists[p] else []
  }

  /** The contributions that parent rank p receives. */
  method Contributions(pa: Parents, ranks: seq<Rank>, p: nat, received: seq<Message>) returns (triplets: seq<Triplet>)
    requires Valid(pa, ranks) && p < pa.n && ReceivedBy(pa, ranks, p, received)
    ensures triplets == ArrivedAt(pa, ranks, p)
  {
    Receives(pa, ranks, p);
    var lists := seq(pa.n, q requires 0 <= q < pa.n => ListFor(ranks[q], p));
    forall q | 0 <= q < pa.n ensures Carries(received[q], lists[q], pa.tables[p], AllElems(pa, ranks, p)[q]) {
      MessageCarries(pa, ranks[q], p);
    }
    triplets := Receive(pa.n, p, received, lists, pa.tables[p], AllElems(pa, ranks, p));
  }

  lemma ContributionRows(pa: Parents, ranks: seq<Rank>, p: nat)
    requires Valid(pa, ranks) && p < pa.n
    ensures forall x :: 0 <= x < |ArrivedAt(pa, ranks, p)| ==> ArrivedAt(pa, ranks, p)[x].row < pa.heights[p]
  {
    Receives(pa, ranks, p);
    forall q | 0 <= q < pa.n ensures RowsFit(AllElems(pa, ranks, p)[q], pa.heights[p]) { ElemRowsFit(pa, ranks[q], p); }
    ArrivedRows(pa.n, p, AllElems(pa, ranks, p), pa.n, pa.heights[p]);
  }

  method AssembleRank(pa: Parents, ranks: seq<Rank>, p: nat, received: seq<Message>) returns (m: Rows)
    requires Valid(pa, ranks) && p < pa.n && ReceivedBy(pa, ranks, p, received)
    ensures IsResult(pa, ranks, p, m)
  {
    var triplets := Contributions(pa, ranks, p, received);
    ContributionRows(pa, ranks, p);
    m := Compress(triplets, pa.heights[p]);
  }

  method AddRank(pa: Parents, ranks: seq<Rank>, p: nat, received: seq<Message>) returns (a: Adding)
    requires Valid(pa, ranks) && p < pa.n && ReceivedBy(pa, ranks, p, received)
    ensures IsAdded(pa, ranks, p, a)
  {
    var triplets := Contributions(pa, ranks, p, received);
    a := AddContributions(triplets);
  }

  /** What all ranks send. */
  method SendAll(pa: Parents, ranks: seq<Rank>) returns (sent: seq<seq<Message>>)
    requires Valid(pa, ranks)
    ensures |sent| == pa.n && forall q :: 0 <= q < pa.n ==> MessagesOf(pa, ranks[q], sent[q])
  {
    hide MessagesOf;
    hide SortedFor;
    hide RankFits;
    hide TableFits;
    var byTest := ResolveTrialDofs(pa, ranks);
    sent := [];
    for q := 0 to pa.n
      invariant |sent| == q && forall a :: 0 <= a < q ==> MessagesOf(pa, ranks[a], sent[a])
    {
      var row := SendFrom(pa, ranks, q, byTest);
      sent := sent + [row];
    }
  }

  method SendFrom(pa: Parents, ranks: seq<Rank>, q: nat, byTest: seq<seq<seq<nat>>>) returns (row: seq<Message>)
    requires Valid(pa, ranks) && q < pa.n && |byTest| == pa.n
    requires forall p :: 0 <= p < pa.n ==> SortedFor(pa, ranks, p, byTest[p])
    ensures MessagesOf(pa, ranks[q], row)
  {
    var dofs := seq(pa.n, p requires 0 <= p < pa.n => DofsTo(byTest, p, q));
    forall p | 0 <= p < pa.n ensures dofs[p] == DofsFor(pa, ranks[q], p) { assert SortedFor(pa, ranks, p, byTest[p]); }
    row := BuildMessages(pa, ranks[q], dofs);
  }

  ghost predicate ReceivedBy(pa: Parents, ranks: seq<Rank>, p: nat, received: seq<Message>) {
    |received| == |ranks| && forall q :: 0 <= q < |ranks| ==> received[q] == MessageFor(pa, ranks[q], p)
  }

  lemma ReceivedAll(pa: Parents, ranks: seq<Rank>, sent: seq<seq<Message>>, p: nat)
    requires Square(pa.n, sent) && |ranks| == pa.n && p < pa.n
    requires forall q :: 0 <= q < pa.n ==> MessagesOf(pa, ranks[q], sent[q])
    ensures ReceivedBy(pa, ranks, p, Transpose(pa.n, sent)[p])
  {
    forall q | 0 <= q < pa.n ensures Transpose(pa.n, sent)[p][q] == MessageFor(pa, ranks[q], p) {
      assert MessagesOf(pa, ranks[q], sent[q]);
    }
  }

  /** Packing and exchange on all ranks. */
  method ExchangeAll(pa: Parents, ranks: seq<Rank>) returns (received: seq<seq<Message>>)
    requires Valid(pa, ranks)
    ensures |received| == pa.n && forall p :: 0 <= p < pa.n ==> ReceivedBy(pa, ranks, p, received[p])
  {
    var sent := SendAll(pa, ranks);
    forall q | 0 <= q < pa.n ensures |sent[q]| == pa.n { assert MessagesOf(pa, ranks[q], sent[q]); }
    received := Transpose(pa.n, sent);
    forall p | 0 <= p < pa.n ensures ReceivedBy(pa, ranks, p, received[p]) { ReceivedAll(pa, ranks, sent, p); }
  }

  /** TransferToParallel on all ranks. */
  method TransferToParallel(pa: Parents, ranks: seq<Rank>) returns (matrices: seq<Rows>)
    requires Valid(pa, ranks)
    ensures Results(pa, ranks, pa.n, matrices)
  {
    var received := ExchangeAll(pa, ranks);
    matrices := AssembleAll(pa, ranks, received);
  }

  /** TransferToParallelSparse on all ranks. */
  method TransferToParallelSparse(pa: Parents, ranks: seq<Rank>) returns (matrices: seq<Adding>)
    requires Valid(pa, ranks)
    ensures |matrices| == pa.n && forall p :: 0 <= p < pa.n ==> IsAdded(pa, ranks, p, matrices[p])
  {
    hide IsAdded;
    hide ReceivedBy;
    hide RankFits;
    hide TableFits;
    var received := ExchangeAll(pa, ranks);
    matrices := [];
    for p := 0 to pa.n
      invariant |matrices| == p && forall a :: 0 <= a < p ==> IsAdded(pa, ranks, a, matrices[a])
    {
      var a := AddRank(pa, ranks, p, received[p]);
      matrices := matrices + [a];
    }
  }

  /** The matrices of the first p parent ranks are done. */
  ghost predicate Results(pa: Parents, ranks: seq<Rank>, p: nat, matrices: seq<Rows>)
    requires Valid(pa, ranks) && p <= pa.n
  {
    |matrices| == p && forall a :: 0 <= a < p ==> IsResult(pa, ranks, a, matrices[a])
  }

  lemma OneMore(pa: Parents, ranks: seq<Rank>, p: nat, matrices: seq<Rows>, m: Rows)
    requires Valid(pa, ranks) && p < pa.n && Results(pa, ranks, p, matrices) && IsResult(pa, ranks, p, m)
    ensures Results(pa, ranks, p + 1, matrices + [m])
  {
    hide Valid;
    hide IsResult;
  }

  method AssembleAll(pa: Parents, ranks: seq<Rank>, received: seq<seq<Message>>) returns (matrices: seq<Rows>)
    requires Valid(pa, ranks) && |received| == pa.n
    requires forall p :: 0 <= p < pa.n ==> ReceivedBy(pa, ranks, p, received[p])
    ensures Results(pa, ranks, pa.n, matrices)
  {
    matrices := [];
    for p := 0 to pa.n
      invariant Results(pa, ranks, p, matrices)
    {
      var m := AssembleRank(pa, ranks, p, received[p]);
      OneMore(pa, ranks, p, matrices, m);
      matrices := matrices + [m];
    }
  }

  function DofsTo(byTest: seq<seq<seq<nat>>>, p: nat, q: nat): seq<nat> {
    if p < |byTest| && q < |byTest[p]| then byTest[p][q] else []
  }
}
