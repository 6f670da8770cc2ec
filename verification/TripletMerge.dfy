/** Triplets into compressed rows: the sort, merge and prefix sums of the flat-buffer TransferToParallel in
    src/redecomp/transfer/MatrixTransfer.cpp, and the matrix that TransferToParallelSparse adds up. */
module TripletMerge {

  datatype Triplet = Triplet(row: nat, col: nat, val: real)

  /** What a list of triplets denotes: the sum of the values at (k, g). */
  function Total(t: seq<Triplet>, k: nat, g: nat): real {
    if t == [] then 0.0
    else
      var m := |t| - 1;
      Total(t[..m], k, g) + if t[m].row == k && t[m].col == g then t[m].val else 0.0
  }

  lemma TotalSnoc(r: seq<Triplet>, e: Triplet, k: nat, g: nat)
    ensures Total(r + [e], k, g) == Total(r, k, g) + if e.row == k && e.col == g then e.val else 0.0
  {
    assert (r + [e])[..|r|] == r;
  }

  lemma {:induction false} TotalConcat(a: seq<Triplet>, b: seq<Triplet>, k: nat, g: nat)
    ensures Total(a + b, k, g) == Total(a, k, g) + Total(b, k, g)
  {
    if b == [] {
      assert a + b == a;
    } else {
      TotalConcat(a, b[..|b| - 1], k, g);
      assert (a + b)[..|a + b| - 1] == a + b[..|b| - 1];
    }
  }

  lemma TotalWithout(b: seq<Triplet>, j: nat, k: nat, g: nat)
    requires j < |b|
    ensures Total(b, k, g) == Total(b[..j] + b[j + 1..], k, g) + if b[j].row == k && b[j].col == g then b[j].val else 0.0
  {
    assert b == b[..j] + [b[j]] + b[j + 1..];
    TotalConcat(b[..j], b[j + 1..], k, g);
    TotalConcat(b[..j] + [b[j]], b[j + 1..], k, g);
    TotalConcat(b[..j], [b[j]], k, g);
    assert [b[j]][..0] == [];
  }

  lemma Without(b: seq<Triplet>, j: nat)
    requires j < |b|
    ensures multiset(b[..j] + b[j + 1..]) == multiset(b) - multiset{b[j]}
  {
    assert b == b[..j] + [b[j]] + b[j + 1..];
  }

  /** The denotation does not depend on the order of the triplets. */
  lemma {:induction false} TotalPermutes(a: seq<Triplet>, b: seq<Triplet>, k: nat, g: nat)
    requires multiset(a) == multiset(b)
    ensures Total(a, k, g) == Total(b, k, g)
  {
    if a == [] {
      assert |b| == |multiset(b)| == 0;
    } else {
      var m := |a| - 1;
      assert a[m] in multiset(a);
      var j :| 0 <= j < |b| && b[j] == a[m];
      Without(a, m);
      Without(b, j);
      assert a[..m] + a[m + 1..] == a[..m];
      TotalPermutes(a[..m], b[..j] + b[j + 1..], k, g);
      TotalWithout(b, j, k, g);
    }
  }

  // ----- sorting

  predicate Before(a: Triplet, b: Triplet) {
    a.row < b.row || (a.row == b.row && a.col < b.col)
  }

  predicate SameKey(a: Triplet, b: Triplet) {
    a.row == b.row && a.col == b.col
  }

  predicate Sorted(t: seq<Triplet>) {
    forall i, j :: 0 <= i < j < |t| ==> !Before(t[j], t[i])
  }

  lemma InsertedSorted(t: seq<Triplet>, x: Triplet, at: nat)
    requires Sorted(t) && at <= |t| && (at > 0 ==> !Before(x, t[at - 1])) && forall i :: at <= i < |t| ==> Before(x, t[i])
    ensures Sorted(t[..at] + [x] + t[at..])
  {
    var r := t[..at] + [x] + t[at..];
    forall i, j | 0 <= i < j < |r| ensures !Before(r[j], r[i]) {
      if j < at {
        assert !Before(t[j], t[i]);
      } else if j == at {
        assert i < at - 1 ==> !Before(t[at - 1], t[i]);
      } else if i < at {
        assert !Before(t[j - 1], t[i]);
      } else if i > at {
        assert !Before(t[j - 1], t[i - 1]);
      } else {
        assert Before(x, t[j - 1]);
      }
    }
  }

  method Insert(t: seq<Triplet>, x: Triplet) returns (r: seq<Triplet>)
    requires Sorted(t)
    ensures Sorted(r) && multiset(r) == multiset(t) + multiset{x}
  {
    var at: nat := |t|;
    while at > 0 && Before(x, t[at - 1])
      invariant at <= |t| && forall i :: at <= i < |t| ==> Before(x, t[i])
    {
      at := at - 1;
    }
    InsertedSorted(t, x, at);
    r := t[..at] + [x] + t[at..];
    assert t == t[..at] + t[at..];
  }

  /** std::sort: any order of the triplets that is sorted by row and then by column. */
  method Sort(t: seq<Triplet>) returns (r: seq<Triplet>)
    ensures Sorted(r) && multiset(r) == multiset(t)
  {
    r := [];
    for i := 0 to |t|
      invariant Sorted(r) && multiset(r) == multiset(t[..i])
    {
      assert t[..i + 1] == t[..i] + [t[i]];
      r := Insert(r, t[i]);
    }
    assert t[..|t|] == t;
  }

  // ----- merging

  function Last(r: seq<Triplet>): Triplet
    requires r != []
  {
    r[|r| - 1]
  }

  /** One more triplet: added to the last run if it has the same position, a new run otherwise. */
  function Push(r: seq<Triplet>, e: Triplet): (p: seq<Triplet>)
    ensures p != [] && SameKey(Last(p), e) && |r| <= |p| <= |r| + 1
  {
    if r != [] && SameKey(e, Last(r)) then r[..|r| - 1] + [Last(r).(val := Last(r).val + e.val)] else r + [e]
  }

  /** Neighbours with the same position merged into one triplet with the sum of their values. */
  function Runs(t: seq<Triplet>): (r: seq<Triplet>)
    ensures t != [] ==> r != [] && SameKey(Last(r), Last(t))
  {
    if t == [] then [] else Push(Runs(t[..|t| - 1]), Last(t))
  }

  lemma PushTotal(r: seq<Triplet>, e: Triplet, k: nat, g: nat)
    ensures Total(Push(r, e), k, g) == Total(r, k, g) + if e.row == k && e.col == g then e.val else 0.0
  {
    hide Total;
    if r != [] && SameKey(e, Last(r)) {
      var (before, last) := (r[..|r| - 1], Last(r));
      assert r == before + [last];
      TotalSnoc(before, last, k, g);
      TotalSnoc(before, last.(val := last.val + e.val), k, g);
    } else {
      TotalSnoc(r, e, k, g);
    }
  }

  lemma {:induction false} RunsKeepTotal(t: seq<Triplet>, k: nat, g: nat)
    ensures Total(Runs(t), k, g) == Total(t, k, g)
  {
    if t != [] {
      RunsKeepTotal(t[..|t| - 1], k, g);
      PushTotal(Runs(t[..|t| - 1]), Last(t), k, g);
    }
  }

  /** Runs of sorted triplets are strictly sorted: no position appears twice. */
  predicate Strict(r: seq<Triplet>) {
    forall i, j :: 0 <= i < j < |r| ==> Before(r[i], r[j])
  }

  lemma PushStrict(r: seq<Triplet>, e: Triplet)
    requires Strict(r) && (r != [] ==> !Before(e, Last(r)))
    ensures Strict(Push(r, e))
  {
    var p := Push(r, e);
    forall i, j | 0 <= i < j < |p| ensures Before(p[i], p[j]) {
      if j < |r| {
        assert Before(r[i], r[j]);
      } else if i < |r| - 1 {
        assert Before(r[i], Last(r));
      }
    }
  }

  lemma {:induction false} RunsAreStrict(t: seq<Triplet>)
    requires Sorted(t)
    ensures Strict(Runs(t))
  {
    if t != [] {
      var before := t[..|t| - 1];
      RunsAreStrict(before);
      if before != [] { assert !Before(Last(t), Last(before)); }
      PushStrict(Runs(before), Last(t));
    }
  }

  /** Number of triplets in rows before row k. */
  function Below(r: seq<Triplet>, k: nat): nat {
    if r == [] then 0 else Below(r[..|r| - 1], k) + if r[|r| - 1].row < k then 1 else 0
  }

  function InRow(r: seq<Triplet>, k: nat): nat {
    if r == [] then 0 else InRow(r[..|r| - 1], k) + if r[|r| - 1].row == k then 1 else 0
  }

  lemma {:induction false} BelowStep(r: seq<Triplet>, k: nat)
    ensures Below(r, k + 1) == Below(r, k) + InRow(r, k)
  {
    if r != [] { BelowStep(r[..|r| - 1], k); }
  }

  lemma {:induction false} BelowNothing(r: seq<Triplet>)
    ensures Below(r, 0) == 0
  {
    if r != [] { BelowNothing(r[..|r| - 1]); }
  }

  /** In a strictly sorted list the rows before row k come first. */
  lemma {:induction false} BelowSplits(r: seq<Triplet>, k: nat)
    requires Strict(r)
    ensures Below(r, k) <= |r|
    ensures forall x :: 0 <= x < |r| ==> (r[x].row < k <==> x < Below(r, k))
  {
    if r != [] {
      var m := |r| - 1;
      BelowSplits(r[..m], k);
      forall x | 0 <= x < |r| ensures r[x].row < k <==> x < Below(r, k) {
        if x < m { assert r[..m][x] == r[x] && Before(r[x], r[m]); }
      }
      if m > 0 { assert Before(r[m - 1], r[m]) && r[..m][m - 1] == r[m - 1]; }
    }
  }

  /** A matrix in compressed rows. */
  datatype Rows = Rows(I: seq<nat>, J: seq<nat>, data: seq<real>)

  function Cols(r: seq<Triplet>): (c: seq<nat>)
    ensures |c| == |r|
  {
    seq(|r|, x requires 0 <= x < |r| => r[x].col)
  }

  function Vals(r: seq<Triplet>): (v: seq<real>)
    ensures |v| == |r|
  {
    seq(|r|, x requires 0 <= x < |r| => r[x].val)
  }

  /** The compressed rows of a strictly sorted list. */
  ghost predicate IsRowsOf(m: Rows, r: seq<Triplet>, height: nat) {
    && |m.I| == height + 1 && (forall k :: 0 <= k <= height ==> m.I[k] == Below(r, k))
    && m.J == Cols(r) && m.data == Vals(r)
  }

  /** The first pass: how many runs there will be. */
  method CountRuns(t: seq<Triplet>) returns (count: nat)
    ensures count == |Runs(t)|
  {
    count := 0;
    if t != [] {
      count := 1;
      assert t[..1][..0] == [];
      for i := 1 to |t|
        invariant count == |Runs(t[..i])|
      {
        RunsStep(t, i);
        if t[i].row != t[i - 1].row || t[i].col != t[i - 1].col {
          count := count + 1;
        }
      }
      assert t[..|t|] == t;
    }
  }

  /** The comparison with the previous triplet tells whether a run goes on. */
  lemma RunsStep(t: seq<Triplet>, i: nat)
    requires 1 <= i < |t|
    ensures Runs(t[..i]) != [] && Runs(t[..i + 1]) == Push(Runs(t[..i]), t[i])
    ensures SameKey(t[i], Last(Runs(t[..i]))) <==> SameKey(t[i], t[i - 1])
  {
    assert t[..i + 1][..i] == t[..i];
    assert Last(t[..i]) == t[i - 1];
  }

  lemma RunsGrow(t: seq<Triplet>, i: nat)
    requires i <= |t|
    ensures |Runs(t[..i])| <= |Runs(t)|
    decreases |t| - i
  {
    if i == |t| {
      assert t[..i] == t;
    } else {
      RunsGrow(t, i + 1);
      assert t[..i + 1][..i] == t[..i];
    }
  }

  /** The arrays while the runs r are being written: counts[k + 1] is the number of runs in row k. */
  ghost predicate Writing(counts: seq<nat>, J: seq<nat>, data: seq<real>, r: seq<Triplet>, height: nat, size: nat) {
    && |counts| == height + 1 && |J| == |data| == size && |r| <= size
    && counts[0] == 0 && (forall k :: 0 <= k < height ==> counts[k + 1] == InRow(r, k))
    && J[..|r|] == Cols(r) && data[..|r|] == Vals(r)
  }

  lemma InRowSnoc(r: seq<Triplet>, e: Triplet, k: nat)
    ensures InRow(r + [e], k) == InRow(r, k) + if e.row == k then 1 else 0
  {
    assert (r + [e])[..|r|] == r;
  }

  lemma WriteNew(counts: seq<nat>, J: seq<nat>, data: seq<real>, r: seq<Triplet>, height: nat, size: nat, e: Triplet)
    requires Writing(counts, J, data, r, height, size) && |r| < size && e.row < height
    ensures Writing(counts[e.row + 1 := counts[e.row + 1] + 1], J[|r| := e.col], data[|r| := e.val], r + [e], height, size)
  {
    forall k | 0 <= k < height ensures InRow(r + [e], k) == InRow(r, k) + if e.row == k then 1 else 0 {
      InRowSnoc(r, e, k);
    }
    assert Cols(r + [e]) == Cols(r) + [e.col] && Vals(r + [e]) == Vals(r) + [e.val];
  }

  lemma WriteMore(counts: seq<nat>, J: seq<nat>, data: seq<real>, r: seq<Triplet>, height: nat, size: nat, v: real)
    requires Writing(counts, J, data, r, height, size) && r != []
    ensures var u := |r| - 1;
      Writing(counts, J, data[u := data[u] + v], r[..u] + [r[u].(val := r[u].val + v)], height, size)
  {
    var u := |r| - 1;
    var after := r[..u] + [r[u].(val := r[u].val + v)];
    forall k | 0 <= k < height ensures InRow(after, k) == InRow(r, k) {
      InRowSnoc(r[..u], r[u], k);
      InRowSnoc(r[..u], after[u], k);
      assert r == r[..u] + [r[u]];
    }
    assert data[u] == Vals(r)[u] by { assert data[..|r|][u] == data[u]; }
    assert Vals(after) == Vals(r)[u := r[u].val + v];
    assert Cols(after) == Cols(r);
    assert data[u := data[u] + v][..|r|] == data[..|r|][u := data[u] + v];
  }

  /** One triplet of the second pass: adds to the run it belongs to, or starts the next one. */
  method WriteNext(counts0: seq<nat>, J0: seq<nat>, data0: seq<real>, unique0: nat, same: bool, e: Triplet,
                   ghost r: seq<Triplet>, ghost height: nat, ghost size: nat)
    returns (counts: seq<nat>, J: seq<nat>, data: seq<real>, unique: nat)
    requires e.row < height && unique0 + 1 == |r| && (same <==> SameKey(e, Last(r))) && |Push(r, e)| <= size
    requires Writing(counts0, J0, data0, r, height, size)
    ensures unique + 1 == |Push(r, e)| && Writing(counts, J, data, Push(r, e), height, size)
  {
    counts, J, data, unique := counts0, J0, data0, unique0;
    if same {
      WriteMore(counts, J, data, r, height, size, e.val);
      data := data[unique := data[unique] + e.val];
    } else {
      WriteNew(counts, J, data, r, height, size, e);
      unique := unique + 1;
      J, data := J[unique := e.col], data[unique := e.val];
      counts := counts[e.row + 1 := counts[e.row + 1] + 1];
    }
  }

  lemma StartWriting(counts: seq<nat>, J: seq<nat>, data: seq<real>, height: nat, size: nat)
    requires |counts| == height + 1 && |J| == |data| == size && forall k :: 0 <= k <= height ==> counts[k] == 0
    ensures Writing(counts, J, data, [], height, size)
  {
  }

  lemma FirstRun(t: seq<Triplet>)
    requires t != []
    ensures Runs(t[..1]) == [] + [t[0]]
  {
    assert t[..1][..0] == [];
    assert Runs([]) == [];
  }

  /** The first triplet starts the first run. */
  method WriteFirst(t: seq<Triplet>, height: nat, size: nat) returns (counts: seq<nat>, J: seq<nat>, data: seq<real>)
    requires t != [] && t[0].row < height && size >= 1
    ensures |Runs(t[..1])| == 1 && Writing(counts, J, data, Runs(t[..1]), height, size)
  {
    counts, J, data := seq(height + 1, _ => 0), seq(size, _ => 0), seq(size, _ => 0.0);
    StartWriting(counts, J, data, height, size);
    WriteNew(counts, J, data, [], height, size, t[0]);
    FirstRun(t);
    hide Writing;
    hide Runs;
    J, data := J[0 := t[0].col], data[0 := t[0].val];
    counts := counts[t[0].row + 1 := counts[t[0].row + 1] + 1];
  }

  /** The second pass: one entry per run, values of a run added up, and a count per row. */
  method WriteRuns(t: seq<Triplet>, height: nat) returns (counts: seq<nat>, J: seq<nat>, data: seq<real>)
    requires forall i :: 0 <= i < |t| ==> t[i].row < height
    ensures Writing(counts, J, data, Runs(t), height, |Runs(t)|)
  {
    var size := CountRuns(t);
    counts, J, data := seq(height + 1, _ => 0), seq(size, _ => 0), seq(size, _ => 0.0);
    if t != [] {
      var unique := 0;
      RunsGrow(t, 1);
      counts, J, data := WriteFirst(t, height, size);
      for i := 1 to |t|
        invariant unique + 1 == |Runs(t[..i])| && Writing(counts, J, data, Runs(t[..i]), height, size)
      {
        RunsStep(t, i);
        RunsGrow(t, i + 1);
        var same := t[i].row == t[i - 1].row && t[i].col == t[i - 1].col;
        counts, J, data, unique := WriteNext(counts, J, data, unique, same, t[i], Runs(t[..i]), height, size);
      }
      assert t[..|t|] == t;
    }
  }

  ghost predicate Summing(i: seq<nat>, r: seq<Triplet>, height: nat, k: nat) {
    && |i| == height + 1 && k <= height
    && (forall a :: 0 <= a <= k ==> i[a] == Below(r, a))
    && (forall a :: k < a <= height ==> i[a] == InRow(r, a - 1))
  }

  lemma SummingStep(i: seq<nat>, r: seq<Triplet>, height: nat, k: nat)
    requires Summing(i, r, height, k) && k < height
    ensures Summing(i[k + 1 := i[k + 1] + i[k]], r, height, k + 1)
  {
    BelowStep(r, k);
  }

  /** Counts into row pointers. */
  method PrefixSums(counts: seq<nat>, ghost r: seq<Triplet>, height: nat) returns (i: seq<nat>)
    requires |counts| == height + 1 && counts[0] == 0
    requires forall k :: 0 <= k < height ==> counts[k + 1] == InRow(r, k)
    ensures |i| == height + 1 && forall k :: 0 <= k <= height ==> i[k] == Below(r, k)
  {
    i := counts;
    BelowNothing(r);
    for k := 0 to height
      invariant Summing(i, r, height, k)
    {
      SummingStep(i, r, height, k);
      i := i[k + 1 := i[k + 1] + i[k]];
    }
  }

  // ----- what the compressed rows denote

  function SliceSum(J: seq<nat>, data: seq<real>, x: nat, y: nat, g: nat): real
    requires x <= y <= |J| == |data|
  {
    if x == y then 0.0 else SliceSum(J, data, x, y - 1, g) + if J[y - 1] == g then data[y - 1] else 0.0
  }

  /** Row pointers rise from 0 to the number of entries, and columns strictly increase within a row. */
  ghost predicate WellFormed(m: Rows, height: nat) {
    && |m.I| == height + 1 && m.I[0] == 0 && m.I[height] == |m.J| == |m.data|
    && (forall j, k :: 0 <= j <= k <= height ==> m.I[j] <= m.I[k])
    && forall k :: 0 <= k < height ==> Ascending(m, k)
  }

  ghost predicate Ascending(m: Rows, k: nat) {
    k + 1 < |m.I| && m.I[k + 1] <= |m.J| && forall x, y :: m.I[k] <= x < y < m.I[k + 1] ==> m.J[x] < m.J[y]
  }

  lemma {:induction false} BelowMonotone(r: seq<Triplet>, j: nat, k: nat)
    requires j <= k
    ensures Below(r, j) <= Below(r, k)
  {
    if r != [] { BelowMonotone(r[..|r| - 1], j, k); }
  }

  /** The compressed rows are well formed: columns strictly increase because the runs are strict. */
  lemma RowsAreWellFormed(m: Rows, r: seq<Triplet>, height: nat)
    requires Strict(r) && IsRowsOf(m, r, height) && forall x :: 0 <= x < |r| ==> r[x].row < height
    ensures WellFormed(m, height)
  {
    BelowNothing(r);
    BelowSplits(r, height);
    forall j, k | 0 <= j <= k <= height ensures m.I[j] <= m.I[k] { BelowMonotone(r, j, k); }
    forall k | 0 <= k < height ensures Ascending(m, k) {
      BelowSplits(r, k);
      BelowSplits(r, k + 1);
      forall x, y | m.I[k] <= x < y < m.I[k + 1] ensures m.J[x] < m.J[y] {
        assert Before(r[x], r[y]);
      }
    }
  }

  /** In a strictly sorted list the slots of row k hold its triplets, and no earlier slot does. */
  lemma SlotsOfRow(r: seq<Triplet>, k: nat)
    requires Strict(r)
    ensures forall x :: 0 <= x < |r| ==> (r[x].row == k <==> Below(r, k) <= x < Below(r, k + 1))
  {
    BelowSplits(r, k);
    BelowSplits(r, k + 1);
  }

  /** Sum over the slots up to y, as a sum over triplets. */
  lemma {:induction false} SliceIsTotal(r: seq<Triplet>, k: nat, y: nat, g: nat)
    requires Strict(r) && Below(r, k) <= y <= Below(r, k + 1) <= |r|
    ensures SliceSum(Cols(r), Vals(r), Below(r, k), y, g) == Total(r[..y], k, g)
    decreases y
  {
    hide Strict;
    hide Below;
    hide Total;
    SlotsOfRow(r, k);
    if y == Below(r, k) {
      NoneYet(r, k, y, g);
    } else {
      SliceIsTotal(r, k, y - 1, g);
      assert r[..y] == r[..y - 1] + [r[y - 1]];
      TotalSnoc(r[..y - 1], r[y - 1], k, g);
    }
  }

  lemma {:induction false} NoneYet(r: seq<Triplet>, k: nat, y: nat, g: nat)
    requires y <= |r| && forall x :: 0 <= x < y ==> r[x].row != k
    ensures Total(r[..y], k, g) == 0.0
  {
    if y > 0 {
      NoneYet(r, k, y - 1, g);
      assert r[..y][..y - 1] == r[..y - 1];
    }
  }

  lemma {:induction false} NoneLater(r: seq<Triplet>, k: nat, y: nat, g: nat)
    requires y <= |r| && forall x :: y <= x < |r| ==> r[x].row != k
    ensures Total(r, k, g) == Total(r[..y], k, g)
    decreases |r|
  {
    if y == |r| {
      assert r[..y] == r;
    } else {
      NoneLater(r[..|r| - 1], k, y, g);
      assert r[..|r| - 1][..y] == r[..y];
    }
  }

  /** The compressed matrix denotes the sum of the triplets: at every row and column. */
  lemma CompressedTotal(m: Rows, sorted: seq<Triplet>, triplets: seq<Triplet>, height: nat, k: nat, g: nat)
    requires Sorted(sorted) && multiset(sorted) == multiset(triplets) && IsRowsOf(m, Runs(sorted), height) && k < height
    ensures m.I[k] <= m.I[k + 1] <= |m.J| == |m.data|
    ensures SliceSum(m.J, m.data, m.I[k], m.I[k + 1], g) == Total(triplets, k, g)
  {
    var r := Runs(sorted);
    RunsAreStrict(sorted);
    BelowMonotone(r, k, k + 1);
    BelowSplits(r, k + 1);
    BelowSplits(r, k);
    SliceIsTotal(r, k, Below(r, k + 1), g);
    NoneLater(r, k, Below(r, k + 1), g);
    RunsKeepTotal(sorted, k, g);
    TotalPermutes(sorted, triplets, k, g);
  }

  /** The matrix has a slot for column g in row k. */
  ghost predicate HasSlot(m: Rows, k: nat, g: nat) {
    k + 1 < |m.I| && exists x :: m.I[k] <= x < m.I[k + 1] && x < |m.J| && m.J[x] == g
  }

  ghost predicate Occurs(t: seq<Triplet>, k: nat, g: nat) {
    exists i :: 0 <= i < |t| && t[i].row == k && t[i].col == g
  }

  function RowTotal(m: Rows, k: nat, g: nat): real {
    if k + 1 < |m.I| && m.I[k] <= m.I[k + 1] <= |m.J| == |m.data| then SliceSum(m.J, m.data, m.I[k], m.I[k + 1], g) else 0.0
  }

  /** What row k, column g of the matrix says of the triplets: their sum there, and a slot exactly if one of
      them is there. */
  ghost predicate DenotesAt(m: Rows, triplets: seq<Triplet>, k: nat, g: nat) {
    RowTotal(m, k, g) == Total(triplets, k, g) && (HasSlot(m, k, g) <==> Occurs(triplets, k, g))
  }

  /** The matrix is in order and denotes the triplets, at every position. */
  ghost predicate Denotes(m: Rows, triplets: seq<Triplet>, height: nat) {
    WellFormed(m, height) && forall k: nat, g: nat :: k < height ==> DenotesAt(m, triplets, k, g)
  }

  lemma {:induction false} RunsOccur(t: seq<Triplet>, k: nat, g: nat)
    ensures Occurs(Runs(t), k, g) <==> Occurs(t, k, g)
  {
    if t != [] {
      var m := |t| - 1;
      RunsOccur(t[..m], k, g);
      PushOccurs(Runs(t[..m]), t[m], k, g);
      SnocOccurs(t[..m], t[m], k, g);
      assert t == t[..m] + [t[m]];
    }
  }

  lemma SnocOccurs(t: seq<Triplet>, e: Triplet, k: nat, g: nat)
    ensures Occurs(t + [e], k, g) <==> Occurs(t, k, g) || (e.row == k && e.col == g)
  {
    var after := t + [e];
    assert after[|t|] == e && forall i :: 0 <= i < |t| ==> after[i] == t[i];
  }

  lemma PushOccurs(r: seq<Triplet>, e: Triplet, k: nat, g: nat)
    ensures Occurs(Push(r, e), k, g) <==> Occurs(r, k, g) || (e.row == k && e.col == g)
  {
    if r != [] && SameKey(e, Last(r)) {
      var u := |r| - 1;
      SnocOccurs(r[..u], r[u], k, g);
      SnocOccurs(r[..u], r[u].(val := r[u].val + e.val), k, g);
      assert r == r[..u] + [r[u]];
    } else {
      SnocOccurs(r, e, k, g);
    }
  }

  lemma SameOccur(a: seq<Triplet>, b: seq<Triplet>, k: nat, g: nat)
    requires multiset(a) == multiset(b) && Occurs(a, k, g)
    ensures Occurs(b, k, g)
  {
    var i :| 0 <= i < |a| && a[i].row == k && a[i].col == g;
    assert a[i] in multiset(b);
  }

  lemma SlotsOccur(m: Rows, r: seq<Triplet>, height: nat, k: nat, g: nat)
    requires Strict(r) && IsRowsOf(m, r, height) && k < height
    ensures HasSlot(m, k, g) <==> Occurs(r, k, g)
  {
    BelowSplits(r, k);
    BelowSplits(r, k + 1);
    forall x | 0 <= x < |r| ensures m.J[x] == r[x].col && (m.I[k] <= x < m.I[k + 1] <==> r[x].row == k) { }
  }

  lemma CompressedDenotes(m: Rows, sorted: seq<Triplet>, triplets: seq<Triplet>, height: nat)
    requires Sorted(sorted) && multiset(sorted) == multiset(triplets) && IsRowsOf(m, Runs(sorted), height)
    requires forall x :: 0 <= x < |triplets| ==> triplets[x].row < height
    ensures Denotes(m, triplets, height)
  {
    var r := Runs(sorted);
    RunsAreStrict(sorted);
    forall x | 0 <= x < |r| ensures r[x].row < height {
      RunsOccur(sorted, r[x].row, r[x].col);
      SameOccur(sorted, triplets, r[x].row, r[x].col);
    }
    RowsAreWellFormed(m, r, height);
    forall k: nat, g: nat | k < height ensures DenotesAt(m, triplets, k, g) {
      CompressedTotal(m, sorted, triplets, height, k, g);
      SlotsOccur(m, r, height, k, g);
      RunsOccur(sorted, k, g);
      if Occurs(sorted, k, g) { SameOccur(sorted, triplets, k, g); }
      if Occurs(triplets, k, g) { SameOccur(triplets, sorted, k, g); }
    }
  }

  /** Sort, merge and compress: whatever the order of the triplets, the rows denote their sums. */
  method Compress(triplets: seq<Triplet>, height: nat) returns (m: Rows)
    requires forall i :: 0 <= i < |triplets| ==> triplets[i].row < height
    ensures Denotes(m, triplets, height)
  {
    var t := Sort(triplets);
    forall i | 0 <= i < |t| ensures t[i].row < height {
      assert t[i] in multiset(t) && t[i] in multiset(triplets);
    }
    var counts, J, data := WriteRuns(t, height);
    var I := PrefixSums(counts, Runs(t), height);
    m := Rows(I, J, data);
    CompressedDenotes(m, t, triplets, height);
  }

  // ----- the other path: a matrix that adds up

  /** A sparse matrix under assembly: the positions that were added to, with their sums. */
  type Adding = map<(nat, nat), real>

  function At(a: Adding, k: nat, g: nat): real {
    if (k, g) in a then a[(k, g)] else 0.0
  }

  /** SparseMatrix::Add. */
  function Add(a: Adding, row: nat, col: nat, val: real): Adding {
    a[(row, col) := At(a, row, col) + val]
  }

  function AddAll(t: seq<Triplet>): Adding {
    if t == [] then map[]
    else Add(AddAll(t[..|t| - 1]), t[|t| - 1].row, t[|t| - 1].col, t[|t| - 1].val)
  }

  /** The other receiving loop: adds the contributions one by one. */
  method AddContributions(t: seq<Triplet>) returns (a: Adding)
    ensures a == AddAll(t)
    ensures forall k, g :: At(a, k, g) == Total(t, k, g)
  {
    a := map[];
    for i := 0 to |t|
      invariant a == AddAll(t[..i])
    {
      assert t[..i + 1][..i] == t[..i];
      a := Add(a, t[i].row, t[i].col, t[i].val);
    }
    assert t[..|t|] == t;
    forall k, g ensures At(a, k, g) == Total(t, k, g) { AddedTotal(t, k, g); }
  }

  lemma {:induction false} AddedTotal(t: seq<Triplet>, k: nat, g: nat)
    ensures At(AddAll(t), k, g) == Total(t, k, g)
  {
    if t != [] { AddedTotal(t[..|t| - 1], k, g); }
  }

  /** Both paths denote the same matrix, in whatever order the contributions arrive on them. */
  lemma PathsAgree(m: Rows, flat: seq<Triplet>, added: seq<Triplet>, height: nat, k: nat, g: nat)
    requires Denotes(m, flat, height) && k < height && multiset(added) == multiset(flat)
    ensures RowTotal(m, k, g) == At(AddAll(added), k, g)
  {
    assert DenotesAt(m, flat, k, g);
    TotalPermutes(added, flat, k, g);
    AddedTotal(added, k, g);
  }
}
