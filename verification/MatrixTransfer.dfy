/** MatrixTransfer of src/redecomp/transfer/MatrixTransfer.cpp as a whole: from the element lists of the test and
    trial meshes and the element matrices on the redecomp ranks to matrices on the parent ranks. */
module MatrixTransfer {
  import opened Exchange
  import opened RCBPartition
  import opened Redecomp
  import opened SparsePacking
  import opened MatrixPacking
  import opened TrialDofs
  import opened TripletMerge
  import opened ElementMatrices
  import opened MarkedTransfer

  /** The element matrices of one redecomp rank: their test and trial elements, the numbers of dofs of the
      test and trial elements of the rank, and the flat buffer with the start of each matrix. */
  datatype Job = Job(pairs: seq<Pair>, nTest: seq<nat>, nTrial: seq<nat>, data: seq<real>, starts: seq<nat>)

  /** The element lists of the test and trial meshes; for every parent rank the dofs of its test and trial
      elements, its first global trial dof and its number of test dofs; and the jobs of the redecomp ranks. */
  datatype Input = Input(n: nat, test: ElementLists, trial: ElementLists, testTables: seq<seq<seq<nat>>>,
                         trialTables: seq<seq<seq<nat>>>, firstDof: seq<nat>, heights: seq<nat>, jobs: seq<Job>)

  predicate Shaped(inp: Input) {
    && inp.n >= 1 && Square(inp.n, inp.test) && Square(inp.n, inp.trial)
    && |inp.testTables| == |inp.trialTables| == |inp.firstDof| == |inp.heights| == |inp.jobs| == inp.n
  }

  /** The list names elements of the table, and the elements from first on have as many dofs as the listed
      ones. */
  predicate SameDofs(list: seq<Entity>, table: seq<seq<nat>>, counts: seq<nat>, first: nat) {
    && first + |list| <= |counts|
    && forall k :: 0 <= k < |list| ==> SameDofsAt(list, table, counts, first, k)
  }

  predicate SameDofsAt(list: seq<Entity>, table: seq<seq<nat>>, counts: seq<nat>, first: nat, k: nat)
    requires k < |list| && first + |list| <= |counts|
  {
    list[k].index < |table| && counts[first + k] == |table[list[k].index]|
  }

  /** Every matrix has a test and a trial element of the rank, and its values are in the buffer: what
      validateFlatMatrices checks. */
  predicate JobFits(j: Job) {
    |j.starts| == |j.pairs| && forall i :: 0 <= i < |j.pairs| ==> EntryFits(j, i)
  }

  predicate EntryFits(j: Job, i: nat)
    requires i < |j.pairs| == |j.starts|
  {
    && j.pairs[i].test < |j.nTest| && j.pairs[i].trial < |j.nTrial|
    && j.starts[i] + j.nTest[j.pairs[i].test] * j.nTrial[j.pairs[i].trial] <= |j.data|
  }

  ghost predicate RankValid(inp: Input, q: nat)
    requires Shaped(inp) && q < inp.n
  {
    && JobFits(inp.jobs[q])
    && |inp.jobs[q].nTest| == Offset(inp.n, inp.test, q, inp.n)
    && |inp.jobs[q].nTrial| == Offset(inp.n, inp.trial, q, inp.n)
  }

  ghost predicate BlockValid(inp: Input, q: nat, p: nat)
    requires Shaped(inp) && q < inp.n && p < inp.n
  {
    && SameDofs(inp.test[p][q], inp.testTables[p], inp.jobs[q].nTest, Offset(inp.n, inp.test, q, p))
    && SameDofs(inp.trial[p][q], inp.trialTables[p], inp.jobs[q].nTrial, Offset(inp.n, inp.trial, q, p))
  }

  /** The lists name elements of the parent ranks, redecomp elements have as many dofs as the parent elements
      they stand for, and the matrices pass validateFlatMatrices. */
  ghost predicate Admissible(inp: Input) {
    && Shaped(inp)
    && (forall q :: 0 <= q < inp.n ==> RankValid(inp, q))
    && (forall q, p :: 0 <= q < inp.n && 0 <= p < inp.n ==> BlockValid(inp, q, p))
    && (forall p :: 0 <= p < inp.n ==> TableFits(inp.testTables[p], inp.heights[p]))
  }

  // ----- what the matrices are to add up to

  /** Parent rank p owns the test element of matrix i of redecomp rank q: it is an element of p's block
      without ghost mark. */
  predicate Owned(inp: Input, q: nat, p: nat, i: nat)
    requires Shaped(inp) && q < inp.n && p < inp.n && i < |inp.jobs[q].pairs|
  {
    MatrixPacking.OwnedBy(inp.n, inp.test, q, p, inp.jobs[q].pairs[i].test)
  }

  /** Global dofs of redecomp trial element e of rank q: those of the parent element it stands for. */
  function TrialDofsOf(inp: Input, q: nat, e: nat): seq<nat>
    requires Admissible(inp) && q < inp.n && e < Offset(inp.n, inp.trial, q, inp.n)
  {
    var c := BlockOf(Offsets(inp.n, inp.trial, q), inp.n, e);
    var k := e - Offset(inp.n, inp.trial, q, c);
    assert BlockValid(inp, q, c) && SameDofsAt(inp.trial[c][q], inp.trialTables[c], inp.jobs[q].nTrial, e - k, k);
    var dofs := inp.trialTables[c][inp.trial[c][q][k].index];
    seq(|dofs|, x requires 0 <= x < |dofs| => inp.firstDof[c] + dofs[x])
  }

  /** Matrix i of rank q, with the dofs of the parent elements that its elements stand for. */
  function SourceElem(inp: Input, q: nat, p: nat, i: nat): Elem
    requires Admissible(inp) && q < inp.n && p < inp.n && i < |inp.jobs[q].pairs| && Owned(inp, q, p, i)
  {
    assert RankValid(inp, q) && EntryFits(inp.jobs[q], i) && BlockValid(inp, q, p);
    var (job, first) := (inp.jobs[q], Offset(inp.n, inp.test, q, p));
    var (e, t) := (job.pairs[i].test, job.pairs[i].trial);
    assert SameDofsAt(inp.test[p][q], inp.testTables[p], job.nTest, first, e - first);
    Elem(inp.testTables[p][inp.test[p][q][e - first].index], TrialDofsOf(inp, q, t),
         job.data[job.starts[i]..job.starts[i] + job.nTest[e] * job.nTrial[t]])
  }

  /** Sum of the first m matrices of rank q whose test element parent rank p owns, scattered. */
  function JobSum(inp: Input, q: nat, p: nat, m: nat, k: nat, g: nat): real
    requires Admissible(inp) && q < inp.n && p < inp.n && m <= |inp.jobs[q].pairs|
  {
    if m == 0 then 0.0
    else JobSum(inp, q, p, m - 1, k, g) + JobTerm(inp, q, p, m - 1, k, g)
  }

  function JobTerm(inp: Input, q: nat, p: nat, i: nat, k: nat, g: nat): real
    requires Admissible(inp) && q < inp.n && p < inp.n && i < |inp.jobs[q].pairs|
  {
    if Owned(inp, q, p, i) then Scattered(SourceElem(inp, q, p, i), k, g) else 0.0
  }

  /** And of all matrices of the first m ranks. */
  function SourceSum(inp: Input, p: nat, m: nat, k: nat, g: nat): real
    requires Admissible(inp) && p < inp.n && m <= inp.n
  {
    if m == 0 then 0.0
    else SourceSum(inp, p, m - 1, k, g) + JobSum(inp, m - 1, p, |inp.jobs[m - 1].pairs|, k, g)
  }

  /** Parent rank p owns the test element of matrix i of rank q. */
  ghost predicate IsTerm(inp: Input, p: nat, q: nat, i: nat)
    requires Shaped(inp) && p < inp.n && q < inp.n
  {
    i < |inp.jobs[q].pairs| && Owned(inp, q, p, i)
  }

  lemma {:induction false} OtherMatrices(inp: Input, q: nat, p: nat, m: nat, k: nat, g: nat)
    requires Admissible(inp) && q < inp.n && p < inp.n && m <= |inp.jobs[q].pairs|
    requires forall i: nat :: i < m ==> !IsTerm(inp, p, q, i)
    ensures JobSum(inp, q, p, m, k, g) == 0.0
    decreases m
  {
    assert Shaped(inp);
    hide Admissible;
    hide SourceElem;
    hide Scattered;
    if m > 0 {
      assert !IsTerm(inp, p, q, m - 1);
      OtherMatrices(inp, q, p, m - 1, k, g);
    }
  }

  lemma {:induction false} OwnMatrix(inp: Input, q: nat, p: nat, m: nat, i: nat, k: nat, g: nat)
    requires Admissible(inp) && q < inp.n && p < inp.n && i < m <= |inp.jobs[q].pairs| && Owned(inp, q, p, i)
    requires forall j: nat :: j < m && j != i ==> !IsTerm(inp, p, q, j)
    ensures JobSum(inp, q, p, m, k, g) == Scattered(SourceElem(inp, q, p, i), k, g)
    decreases m
  {
    assert Shaped(inp);
    hide Admissible;
    hide SourceElem;
    hide Scattered;
    if i == m - 1 {
      OtherMatrices(inp, q, p, m - 1, k, g);
    } else {
      assert !IsTerm(inp, p, q, m - 1);
      OwnMatrix(inp, q, p, m - 1, i, k, g);
    }
  }

  lemma {:induction false} OtherRanks(inp: Input, p: nat, m: nat, k: nat, g: nat)
    requires Admissible(inp) && p < inp.n && m <= inp.n
    requires forall q: nat, i: nat :: q < m ==> !IsTerm(inp, p, q, i)
    ensures SourceSum(inp, p, m, k, g) == 0.0
    decreases m
  {
    assert Shaped(inp);
    hide Admissible;
    hide JobSum;
    hide IsTerm;
    if m > 0 {
      OtherRanks(inp, p, m - 1, k, g);
      OtherMatrices(inp, m - 1, p, |inp.jobs[m - 1].pairs|, k, g);
    }
  }

  /** If p owns the test element of one matrix alone, i of rank q, the sum is that matrix, scattered. */
  lemma {:induction false} SoleMatrix(inp: Input, p: nat, m: nat, q: nat, i: nat, k: nat, g: nat)
    requires Admissible(inp) && p < inp.n && q < m <= inp.n
    requires forall r: nat, j: nat :: r < m ==> (IsTerm(inp, p, r, j) <==> r == q && j == i)
    ensures i < |inp.jobs[q].pairs| && Owned(inp, q, p, i)
    ensures SourceSum(inp, p, m, k, g) == Scattered(SourceElem(inp, q, p, i), k, g)
    decreases m
  {
    assert Shaped(inp) && IsTerm(inp, p, q, i);
    assert i < |inp.jobs[q].pairs| && Owned(inp, q, p, i);
    hide Admissible;
    hide SourceElem;
    hide Scattered;
    hide JobSum;
    if q == m - 1 {
      OtherRanks(inp, p, m - 1, k, g);
      OwnMatrix(inp, q, p, |inp.jobs[q].pairs|, i, k, g);
    } else {
      SoleMatrix(inp, p, m - 1, q, i, k, g);
      OtherMatrices(inp, m - 1, p, |inp.jobs[m - 1].pairs|, k, g);
    }
  }

  /** The dofs of a trial element that is entry x of the block of parent rank c: those that c's table has for the
      listed element, counted from c's first dof. */
  ghost predicate DofsFromTable(inp: Input, c: nat, q: nat, x: nat, cols: seq<nat>)
    requires Shaped(inp) && c < inp.n && q < inp.n
  {
    && x < |inp.trial[c][q]| && inp.trial[c][q][x].index < |inp.trialTables[c]|
    && var dofs := inp.trialTables[c][inp.trial[c][q][x].index];
       |cols| == |dofs| && forall y :: 0 <= y < |dofs| ==> cols[y] == inp.firstDof[c] + dofs[y]
  }

  lemma BlockOfPlace(n: nat, lists: ElementLists, q: nat, c: nat, x: nat)
    requires Square(n, lists) && q < n && c < n && x < |lists[c][q]|
    ensures Offset(n, lists, q, c) + x < Offset(n, lists, q, n)
    ensures BlockOf(Offsets(n, lists, q), n, Offset(n, lists, q, c) + x) == c
  {
    OffsetsLayout(n, lists, q);
    SumToMonotone(Sizes(n, lists, q), c + 1, n);
    var e := Offset(n, lists, q, c) + x;
    BlockIsUnique(Offsets(n, lists, q), BlockOf(Offsets(n, lists, q), n, e), c, e);
  }

  lemma TrialByBlock(inp: Input, q: nat, c: nat, x: nat)
    requires Admissible(inp) && q < inp.n && c < inp.n && x < |inp.trial[c][q]|
    ensures Offset(inp.n, inp.trial, q, c) + x < Offset(inp.n, inp.trial, q, inp.n)
    ensures DofsFromTable(inp, c, q, x, TrialDofsOf(inp, q, Offset(inp.n, inp.trial, q, c) + x))
  {
    hide Offset;
    hide BlockOf;
    BlockOfPlace(inp.n, inp.trial, q, c, x);
    assert BlockValid(inp, q, c);
    assert SameDofsAt(inp.trial[c][q], inp.trialTables[c], inp.jobs[q].nTrial, Offset(inp.n, inp.trial, q, c), x);
  }

  /** The values of a matrix are a stretch of the flat buffer. */
  ghost predicate ValuesFromBuffer(job: Job, i: nat, vals: seq<real>) {
    && i < |job.starts| && job.starts[i] + |vals| <= |job.data|
    && forall v :: 0 <= v < |vals| ==> vals[v] == job.data[job.starts[i] + v]
  }

  lemma BufferPart(inp: Input, q: nat, p: nat, i: nat)
    requires Admissible(inp) && q < inp.n && p < inp.n && i < |inp.jobs[q].pairs| && Owned(inp, q, p, i)
    ensures var e := SourceElem(inp, q, p, i);
      ValuesFromBuffer(inp.jobs[q], i, e.vals)
  {
    hide TrialDofsOf;
    assert RankValid(inp, q) && EntryFits(inp.jobs[q], i);
  }

  /** The parts of a matrix, by the places of its elements: the test element is entry a of the block of its owner
      p, the trial element entry x of the block of parent rank c. */
  lemma SourceByBlock(inp: Input, q: nat, p: nat, i: nat, a: nat, c: nat, x: nat)
    requires Admissible(inp) && q < inp.n && p < inp.n && i < |inp.jobs[q].pairs| && Owned(inp, q, p, i)
    requires inp.jobs[q].pairs[i].test == Offset(inp.n, inp.test, q, p) + a
    requires c < inp.n && x < |inp.trial[c][q]| && inp.jobs[q].pairs[i].trial == Offset(inp.n, inp.trial, q, c) + x
    ensures a < |inp.test[p][q]| && inp.test[p][q][a].index < |inp.testTables[p]|
    ensures var e := SourceElem(inp, q, p, i);
      && e.rows == inp.testTables[p][inp.test[p][q][a].index] && DofsFromTable(inp, c, q, x, e.cols)
      && ValuesFromBuffer(inp.jobs[q], i, e.vals)
  {
    BufferPart(inp, q, p, i);
    TrialByBlock(inp, q, c, x);
    hide TrialDofsOf;
    hide Offset;
    hide DofsFromTable;
    hide ValuesFromBuffer;
    assert BlockValid(inp, q, p);
    assert SameDofsAt(inp.test[p][q], inp.testTables[p], inp.jobs[q].nTest, Offset(inp.n, inp.test, q, p), a);
  }

  // ----- the tables that the source computes

  function ParentsOf(inp: Input): Parents {
    Parents(inp.n, inp.testTables, Trial(inp.trial, inp.trialTables, inp.firstDof), inp.heights)
  }

  function RankOf(inp: Input, q: nat): Rank
    requires Shaped(inp) && q < inp.n
  {
    OffsetsLayout(inp.n, inp.test, q);
    OffsetsLayout(inp.n, inp.trial, q);
    var (test, trial) := (Offsets(inp.n, inp.test, q), Offsets(inp.n, inp.trial, q));
    var (tests, trials, job) := (ListsTo(inp.n, inp.test, q), ListsTo(inp.n, inp.trial, q), inp.jobs[q]);
    Rank(q, tests, job.pairs, ElemRanks(inp.n, test, tests, true), test, ElemRanks(inp.n, trial, trials, false), trial,
         job.nTest, job.nTrial, job.data, job.starts)
  }

  /** Offsets, ghost positions and parent ranks of the elements of one mesh on rank q. */
  method MeshTables(n: nat, p2r: ElementLists, q: nat, mark: bool) returns (offsets: seq<nat>, ranks: seq<int>)
    requires n >= 1 && Square(n, p2r) && q < n
    ensures offsets == Offsets(n, p2r, q) && Layout(n, offsets, ListsTo(n, p2r, q))
    ensures ranks == ElemRanks(n, offsets, ListsTo(n, p2r, q), mark)
  {
    OffsetsLayout(n, p2r, q);
    offsets := BuildElemOffsets(Sizes(n, p2r, q));
    assert offsets == Offsets(n, p2r, q);
    var ghosts := GhostLists(n, ListsTo(n, p2r, q), offsets);
    ranks := BuildElemRank(n, offsets, ghosts, mark, ListsTo(n, p2r, q));
  }

  method SetUp(inp: Input, q: nat) returns (s: Rank)
    requires Shaped(inp) && q < inp.n
    ensures s == RankOf(inp, q)
  {
    var trial, trialRanks := MeshTables(inp.n, inp.trial, q, false);
    var test, testRanks := MeshTables(inp.n, inp.test, q, true);
    var job := inp.jobs[q];
    s := Rank(q, ListsTo(inp.n, inp.test, q), job.pairs, testRanks, test, trialRanks, trial, job.nTest, job.nTrial,
              job.data, job.starts);
  }

  // ----- the tables fit

  lemma PairInRange(inp: Input, q: nat, i: nat)
    requires Admissible(inp) && q < inp.n && i < |inp.jobs[q].pairs|
    ensures RankValid(inp, q) && EntryFits(inp.jobs[q], i)
    ensures inp.jobs[q].pairs[i].test < Offset(inp.n, inp.test, q, inp.n)
    ensures inp.jobs[q].pairs[i].trial < Offset(inp.n, inp.trial, q, inp.n)
  {
    assert RankValid(inp, q) && EntryFits(inp.jobs[q], i);
  }

  lemma MarkIsMarkOf(inp: Input, q: nat, i: nat)
    requires Shaped(inp) && q < inp.n && i < |inp.jobs[q].pairs|
    requires inp.jobs[q].pairs[i].test < Offset(inp.n, inp.test, q, inp.n)
    ensures Layout(inp.n, Offsets(inp.n, inp.test, q), ListsTo(inp.n, inp.test, q))
    ensures Mark(RankOf(inp, q), i)
         == MarkOf(inp.n, Offsets(inp.n, inp.test, q), ListsTo(inp.n, inp.test, q), true, inp.jobs[q].pairs[i].test)
    ensures |RankOf(inp, q).marks| == Offset(inp.n, inp.test, q, inp.n)
  {
    OffsetsLayout(inp.n, inp.test, q);
    hide Layout;
    hide Rising;
    hide MarkOf;
  }

  /** A matrix is marked with p exactly if p owns its test element. */
  lemma MarkIsOwner(inp: Input, q: nat, p: nat, i: nat)
    requires Admissible(inp) && q < inp.n && p < inp.n && i < |inp.jobs[q].pairs|
    ensures |RankOf(inp, q).marks| == Offset(inp.n, inp.test, q, inp.n) > inp.jobs[q].pairs[i].test
    ensures Mark(RankOf(inp, q), i) == p <==> Owned(inp, q, p, i)
  {
    PairInRange(inp, q, i);
    MarkIsMarkOf(inp, q, i);
    MatrixPacking.MarkIsOwner(inp.n, inp.test, q, p, inp.jobs[q].pairs[i].test);
    hide Admissible;
    hide RankOf;
    hide MarkOf;
    hide Layout;
    hide MatrixPacking.OwnedBy;
  }

  lemma TestOffsetIs(s: Rank, i: nat, p: nat)
    requires i < |s.pairs| && Mark(s, i) == p < |s.testOffsets| && s.testOffsets[p] <= s.pairs[i].test
    ensures TestOffset(s)(i) == s.pairs[i].test - s.testOffsets[p]
  {
  }

  lemma TestPart(inp: Input, q: nat, p: nat, i: nat)
    requires Admissible(inp) && q < inp.n && p < inp.n && i < |inp.jobs[q].pairs| && Owned(inp, q, p, i)
    ensures inp.jobs[q].pairs[i].test < |inp.jobs[q].nTest|
    ensures var (pa, s, e) := (ParentsOf(inp), RankOf(inp, q), inp.jobs[q].pairs[i].test);
      && Mark(s, i) == p && TestOffset(s)(i) == e - Offset(inp.n, inp.test, q, p)
      && OffsetKnown(pa, s, p, TestOffset(s)(i)) && RowDofs(pa, s, p, TestOffset(s)(i)) == SourceElem(inp, q, p, i).rows
      && inp.jobs[q].nTest[e] == |SourceElem(inp, q, p, i).rows|
  {
    TestPosition(inp, q, p, i);
    hide RankValid;
    hide ElemRanks;
    hide TableFits;
    hide Mark;
    hide SumTo;
    hide TrialDofsOf;
    hide TestOffset;
    hide Offset;
    var (e, first) := (inp.jobs[q].pairs[i].test, Offset(inp.n, inp.test, q, p));
    assert BlockValid(inp, q, p) && SameDofsAt(inp.test[p][q], inp.testTables[p], inp.jobs[q].nTest, first, e - first);
  }

  lemma TestPosition(inp: Input, q: nat, p: nat, i: nat)
    requires Admissible(inp) && q < inp.n && p < inp.n && i < |inp.jobs[q].pairs| && Owned(inp, q, p, i)
    ensures var (s, e, first) := (RankOf(inp, q), inp.jobs[q].pairs[i].test, Offset(inp.n, inp.test, q, p));
      && first <= e < first + |inp.test[p][q]|
      && Mark(s, i) == p && TestOffset(s)(i) == e - first
  {
    PairInRange(inp, q, i);
    MarkIsOwner(inp, q, p, i);
    TestOffsetIs(RankOf(inp, q), i, p);
    hide RankValid;
    hide BlockValid;
    hide ElemRanks;
    hide TableFits;
    hide Mark;
    hide TestOffset;
  }

  /** The trial element of matrix i lies at position k of the block of rank c. */
  ghost predicate TrialAt(inp: Input, q: nat, t: nat, c: nat, k: nat)
    requires Shaped(inp) && q < inp.n
  {
    c < inp.n && t == Offset(inp.n, inp.trial, q, c) + k && k < |inp.trial[c][q]|
  }

  lemma TrialPosition(inp: Input, q: nat, i: nat) returns (c: nat, k: nat)
    requires Admissible(inp) && q < inp.n && i < |inp.jobs[q].pairs|
    ensures inp.jobs[q].pairs[i].trial < Offset(inp.n, inp.trial, q, inp.n)
    ensures TrialAt(inp, q, inp.jobs[q].pairs[i].trial, c, k)
    ensures BlockOf(Offsets(inp.n, inp.trial, q), inp.n, inp.jobs[q].pairs[i].trial) == c
    ensures BlockValid(inp, q, c) && inp.jobs[q].pairs[i].trial < |inp.jobs[q].nTrial|
    ensures SameDofsAt(inp.trial[c][q], inp.trialTables[c], inp.jobs[q].nTrial, Offset(inp.n, inp.trial, q, c), k)
  {
    PairInRange(inp, q, i);
    var t := inp.jobs[q].pairs[i].trial;
    OffsetsLayout(inp.n, inp.trial, q);
    c := BlockOf(Offsets(inp.n, inp.trial, q), inp.n, t);
    k := t - Offset(inp.n, inp.trial, q, c);
    assert BlockValid(inp, q, c);
  }

  lemma TrialPart(inp: Input, q: nat, i: nat)
    requires Admissible(inp) && q < inp.n && i < |inp.jobs[q].pairs|
    ensures inp.jobs[q].pairs[i].trial < Offset(inp.n, inp.trial, q, inp.n)
    ensures var (pa, s, t) := (ParentsOf(inp), RankOf(inp, q), inp.jobs[q].pairs[i].trial);
      var w := WantedBy(s)(i);
      && TrialKnown(s.trialRanks, s.trialOffsets, s.nTrial, t) && w.rank < inp.n
      && Known(pa.trial, w.rank, q, w.off) && ColDofs(pa, s, w) == TrialDofsOf(inp, q, t) && w.len == |ColDofs(pa, s, w)|
  {
    var c, k := TrialPosition(inp, q, i);
    WantAt(inp, q, i, c, k);
    hide RankValid;
    hide TableFits;
    hide WantedBy;
    hide SumTo;
  }

  lemma WantAt(inp: Input, q: nat, i: nat, c: nat, k: nat)
    requires Admissible(inp) && q < inp.n && i < |inp.jobs[q].pairs|
    requires TrialAt(inp, q, inp.jobs[q].pairs[i].trial, c, k)
    requires inp.jobs[q].pairs[i].trial < Offset(inp.n, inp.trial, q, inp.n)
    requires BlockOf(Offsets(inp.n, inp.trial, q), inp.n, inp.jobs[q].pairs[i].trial) == c
    requires inp.jobs[q].pairs[i].trial < |inp.jobs[q].nTrial|
    ensures var (s, t) := (RankOf(inp, q), inp.jobs[q].pairs[i].trial);
            && TrialKnown(s.trialRanks, s.trialOffsets, s.nTrial, t)
            && WantedBy(s)(i) == Want(c, k, inp.jobs[q].nTrial[t])
  {
    hide RankValid;
    hide BlockValid;
    hide TableFits;
    var (s, t) := (RankOf(inp, q), inp.jobs[q].pairs[i].trial);
    OffsetsLayout(inp.n, inp.trial, q);
    assert s.trialRanks[t] == c;
    WantIs(s.pairs, s.trialRanks, s.trialOffsets, s.nTrial, i);
  }

  lemma ValuePart(inp: Input, q: nat, i: nat)
    requires Admissible(inp) && q < inp.n && i < |inp.jobs[q].pairs|
    ensures var (job, s) := (inp.jobs[q], RankOf(inp, q));
      var (e, t) := (job.pairs[i].test, job.pairs[i].trial);
      && FlatEntry(s.pairs, s.nTest, s.nTrial, s.data, s.starts, i) && e < |job.nTest| && t < |job.nTrial|
      && i < |job.starts| && 0 <= job.starts[i] <= job.starts[i] + job.nTest[e] * job.nTrial[t] <= |job.data|
      && FlatValues(s)(i) == job.data[job.starts[i]..job.starts[i] + job.nTest[e] * job.nTrial[t]]
  {
    assert RankValid(inp, q) && EntryFits(inp.jobs[q], i);
    VolumeIsProduct(inp.jobs[q].nTest[inp.jobs[q].pairs[i].test], inp.jobs[q].nTrial[inp.jobs[q].pairs[i].trial]);
  }

  lemma MatrixIsFit(inp: Input, q: nat, i: nat)
    requires Admissible(inp) && q < inp.n && i < |inp.jobs[q].pairs|
    ensures MatrixFits(ParentsOf(inp), RankOf(inp, q), i)
  {
    ValuePart(inp, q, i);
    TrialPart(inp, q, i);
    MarkIsOwner(inp, q, 0, i);
    var p := Mark(RankOf(inp, q), i);
    if p >= 0 {
      MarkIsOwner(inp, q, p, i);
      TestPart(inp, q, p, i);
    }
  }

  /** What the exchange asks of the marks, offsets and ranks of a redecomp rank holds by construction. */
  lemma RankIsFit(inp: Input, q: nat)
    requires Admissible(inp) && q < inp.n
    ensures RankFits(ParentsOf(inp), RankOf(inp, q))
  {
    var s := RankOf(inp, q);
    OffsetsLayout(inp.n, inp.test, q);
    forall i | 0 <= i < |s.pairs| ensures MatrixFits(ParentsOf(inp), s, i) { MatrixIsFit(inp, q, i); }
    forall i | 0 <= i < |s.pairs| ensures s.pairs[i].test < |s.marks| { MarkIsOwner(inp, q, 0, i); }
    forall i | 0 <= i < |s.pairs| ensures s.pairs[i].test < |s.nTest| && s.pairs[i].trial < |s.nTrial| {
      ValuePart(inp, q, i);
    }
  }

  function RanksOf(inp: Input): (r: seq<Rank>)
    requires Shaped(inp)
    ensures |r| == inp.n && forall q :: 0 <= q < inp.n ==> r[q] == RankOf(inp, q)
  {
    seq(inp.n, q requires 0 <= q < inp.n => RankOf(inp, q))
  }

  lemma IsValid(inp: Input)
    requires Admissible(inp)
    ensures Valid(ParentsOf(inp), RanksOf(inp))
  {
    forall q | 0 <= q < inp.n ensures RankFits(ParentsOf(inp), RanksOf(inp)[q]) && RanksOf(inp)[q].q == q {
      RankIsFit(inp, q);
    }
  }

  // ----- the sums agree

  lemma SameParts(pa: Parents, s: Rank, p: nat, i: nat, e: Elem)
    requires Mark(s, i) == p && RowDofs(pa, s, p, TestOffset(s)(i)) == e.rows
    requires ColDofs(pa, s, WantedBy(s)(i)) == e.cols && FlatValues(s)(i) == e.vals
    ensures ElemOf(pa, s)(i) == e
  {
  }

  lemma RowsMatch(inp: Input, q: nat, p: nat, i: nat)
    requires Admissible(inp) && q < inp.n && p < inp.n && i < |inp.jobs[q].pairs| && Owned(inp, q, p, i)
    ensures Mark(RankOf(inp, q), i) == p
    ensures RowDofs(ParentsOf(inp), RankOf(inp, q), p, TestOffset(RankOf(inp, q))(i)) == SourceElem(inp, q, p, i).rows
  {
    TestPart(inp, q, p, i);
  }

  lemma ColumnsMatch(inp: Input, q: nat, p: nat, i: nat)
    requires Admissible(inp) && q < inp.n && p < inp.n && i < |inp.jobs[q].pairs| && Owned(inp, q, p, i)
    ensures ColDofs(ParentsOf(inp), RankOf(inp, q), WantedBy(RankOf(inp, q))(i)) == SourceElem(inp, q, p, i).cols
  {
    TrialPart(inp, q, i);
    hide ColDofs;
    hide RankOf;
    hide ParentsOf;
  }

  lemma ValuesMatch(inp: Input, q: nat, p: nat, i: nat)
    requires Admissible(inp) && q < inp.n && p < inp.n && i < |inp.jobs[q].pairs| && Owned(inp, q, p, i)
    ensures FlatValues(RankOf(inp, q))(i) == SourceElem(inp, q, p, i).vals
  {
    ValuePart(inp, q, i);
    hide FlatValues;
    hide RankOf;
  }

  lemma ElemIsSource(inp: Input, q: nat, p: nat, i: nat)
    requires Admissible(inp) && q < inp.n && p < inp.n && i < |inp.jobs[q].pairs| && Owned(inp, q, p, i)
    ensures ElemOf(ParentsOf(inp), RankOf(inp, q))(i) == SourceElem(inp, q, p, i)
  {
    assert Shaped(inp);
    hide RankOf;
    hide ParentsOf;
    hide Mark;
    hide RowDofs;
    hide ColDofs;
    hide WantedBy;
    hide FlatValues;
    hide TestOffset;
    hide Owned;
    hide Admissible;
    hide SourceElem;
    hide ElemOf;
    RowsMatch(inp, q, p, i);
    ColumnsMatch(inp, q, p, i);
    ValuesMatch(inp, q, p, i);
    SameParts(ParentsOf(inp), RankOf(inp, q), p, i, SourceElem(inp, q, p, i));
  }

  lemma TermsAgree(inp: Input, q: nat, p: nat, i: nat, k: nat, g: nat)
    requires Admissible(inp) && q < inp.n && p < inp.n && i < |inp.jobs[q].pairs|
    ensures MatrixTerm(ParentsOf(inp), RankOf(inp, q), p, i, k, g) == JobTerm(inp, q, p, i, k, g)
  {
    assert Shaped(inp);
    hide Admissible;
    hide RankOf;
    hide ParentsOf;
    hide ElemOf;
    hide SourceElem;
    hide Mark;
    hide Owned;
    hide Scattered;
    MarkIsOwner(inp, q, p, i);
    if Owned(inp, q, p, i) { ElemIsSource(inp, q, p, i); }
  }

  lemma {:induction false} JobSumIsMarked(inp: Input, q: nat, p: nat, m: nat, k: nat, g: nat)
    requires Admissible(inp) && q < inp.n && p < inp.n && m <= |inp.jobs[q].pairs|
    ensures MatrixSum(ParentsOf(inp), RankOf(inp, q), p, m, k, g) == JobSum(inp, q, p, m, k, g)
    decreases m
  {
    hide Admissible;
    hide RankOf;
    hide ParentsOf;
    hide MatrixTerm;
    hide JobTerm;
    if m > 0 {
      JobSumIsMarked(inp, q, p, m - 1, k, g);
      TermsAgree(inp, q, p, m - 1, k, g);
    }
  }

  lemma SumStep(inp: Input, p: nat, m: nat, k: nat, g: nat)
    requires Admissible(inp) && p < inp.n && m < inp.n
    ensures m < |RanksOf(inp)|
    ensures MarkedTransfer.MarkedSum(ParentsOf(inp), RanksOf(inp), p, m + 1, k, g)
         == MarkedTransfer.MarkedSum(ParentsOf(inp), RanksOf(inp), p, m, k, g) +
            JobSum(inp, m, p, |inp.jobs[m].pairs|, k, g)
  {
    JobSumIsMarked(inp, m, p, |inp.jobs[m].pairs|, k, g);
    hide MatrixSum;
    hide JobSum;
    hide ParentsOf;
  }

  lemma {:induction false} SourceSumIsMarked(inp: Input, p: nat, m: nat, k: nat, g: nat)
    requires Admissible(inp) && p < inp.n && m <= inp.n
    ensures m <= |RanksOf(inp)|
    ensures MarkedTransfer.MarkedSum(ParentsOf(inp), RanksOf(inp), p, m, k, g) == SourceSum(inp, p, m, k, g)
    decreases m
  {
    hide Admissible;
    hide RanksOf;
    hide RankOf;
    hide ParentsOf;
    hide MatrixSum;
    hide JobSum;
    if m > 0 {
      SourceSumIsMarked(inp, p, m - 1, k, g);
      SumStep(inp, p, m - 1, k, g);
    }
  }

  // ----- the transfers

  /** All triplets that arrive at parent rank p. */
  function TripletsAt(inp: Input, p: nat): seq<Triplet>
    requires Admissible(inp) && p < inp.n
  {
    IsValid(inp);
    ArrivedAt(ParentsOf(inp), RanksOf(inp), p)
  }

  /** The triplets that arrive at parent rank p denote the sum, over all redecomp ranks and all their element
      matrices with a test element that p owns without ghost mark, of the scattered matrices. */
  lemma TripletsAddUp(inp: Input, p: nat, k: nat, g: nat)
    requires Admissible(inp) && p < inp.n
    ensures Total(TripletsAt(inp, p), k, g) == SourceSum(inp, p, inp.n, k, g)
  {
    IsValid(inp);
    ArrivedSum(ParentsOf(inp), RanksOf(inp), p, k, g);
    SourceSumIsMarked(inp, p, inp.n, k, g);
  }

  /** Compressed rows of parent rank p. */
  ghost predicate Assembled(inp: Input, p: nat, m: Rows)
    requires Admissible(inp) && p < inp.n
  {
    Denotes(m, TripletsAt(inp, p), inp.heights[p])
  }

  /** The flat path: the assembled rows hold that sum at every row and column. */
  lemma AssembledMatrix(inp: Input, p: nat, m: Rows, k: nat, g: nat)
    requires Admissible(inp) && p < inp.n && k < inp.heights[p] && Assembled(inp, p, m)
    ensures m.I[k] <= m.I[k + 1] <= |m.J| == |m.data|
    ensures SliceSum(m.J, m.data, m.I[k], m.I[k + 1], g) == SourceSum(inp, p, inp.n, k, g)
  {
    TripletsAddUp(inp, p, k, g);
    hide Admissible;
    assert DenotesAt(m, TripletsAt(inp, p), k, g);
    assert Ascending(m, k);
  }

  /** The path that adds every contribution to a sparse matrix. */
  ghost predicate Added(inp: Input, p: nat, a: Adding)
    requires Admissible(inp) && p < inp.n
  {
    a == AddAll(TripletsAt(inp, p))
  }

  lemma AddedMatrix(inp: Input, p: nat, a: Adding, k: nat, g: nat)
    requires Admissible(inp) && p < inp.n && Added(inp, p, a)
    ensures At(a, k, g) == SourceSum(inp, p, inp.n, k, g)
  {
    TripletsAddUp(inp, p, k, g);
    AddedTotal(TripletsAt(inp, p), k, g);
  }

  /** The constructor on all ranks. */
  method SetUpAll(inp: Input) returns (ranks: seq<Rank>)
    requires Shaped(inp)
    ensures ranks == RanksOf(inp)
  {
    ranks := [];
    for q := 0 to inp.n
      invariant |ranks| == q && forall a :: 0 <= a < q ==> ranks[a] == RankOf(inp, a)
    {
      var s := SetUp(inp, q);
      ranks := ranks + [s];
    }
  }

  /** TransferToParallel from flat buffers, on all ranks. */
  method TransferToParallel(inp: Input) returns (matrices: seq<Rows>)
    requires Admissible(inp)
    ensures |matrices| == inp.n && forall p :: 0 <= p < inp.n ==> Assembled(inp, p, matrices[p])
  {
    IsValid(inp);
    var ranks := SetUpAll(inp);
    matrices := MarkedTransfer.TransferToParallel(ParentsOf(inp), ranks);
    forall p | 0 <= p < inp.n ensures Assembled(inp, p, matrices[p]) {
      assert IsResult(ParentsOf(inp), ranks, p, matrices[p]);
    }
  }

  /** TransferToParallelSparse on all ranks. */
  method TransferToParallelSparse(inp: Input) returns (matrices: seq<Adding>)
    requires Admissible(inp)
    ensures |matrices| == inp.n && forall p :: 0 <= p < inp.n ==> Added(inp, p, matrices[p])
  {
    IsValid(inp);
    var ranks := SetUpAll(inp);
    matrices := MarkedTransfer.TransferToParallelSparse(ParentsOf(inp), ranks);
    forall p | 0 <= p < inp.n ensures Added(inp, p, matrices[p]) {
      assert IsAdded(ParentsOf(inp), ranks, p, matrices[p]);
    }
  }
}
