/** The assembling half of src/redecomp/transfer/SparseMatrixTransfer.cpp on one parent rank: the received
    entries are split into the diag and offd matrices in compressed rows, with a column map for offd. */
module CsrAssembly {

  /** One received entry: parent element numbers of its row and its column, the rank of the column. */
  datatype Arrived = Arrived(row: nat, col: nat, colRank: nat, value: real)

  /** The entries of row k, in order of arrival, that belong to diag (columns on rank me) or to offd. */
  function Select(list: seq<Arrived>, me: nat, diag: bool, k: nat): seq<Arrived> {
    if list == [] then []
    else
      var (m, e) := (|list| - 1, list[|list| - 1]);
      Select(list[..m], me, diag, k) + if e.row == k && (e.colRank == me) == diag then [e] else []
  }

  function Count(list: seq<Arrived>, me: nat, diag: bool): nat {
    if list == [] then 0
    else Count(list[..|list| - 1], me, diag) + if (list[|list| - 1].colRank == me) == diag then 1 else 0
  }

  /** Number of entries in the rows before row k. */
  function Start(list: seq<Arrived>, me: nat, diag: bool, k: nat): nat {
    if k == 0 then 0 else Start(list, me, diag, k - 1) + |Select(list, me, diag, k - 1)|
  }

  lemma SelectSnoc(list: seq<Arrived>, e: Arrived, me: nat, diag: bool, k: nat)
    ensures Select(list + [e], me, diag, k)
         == if e.row == k && (e.colRank == me) == diag then Select(list, me, diag, k) + [e] else Select(list, me, diag, k)
    ensures Count(list + [e], me, diag) == Count(list, me, diag) + if (e.colRank == me) == diag then 1 else 0
  {
    assert (list + [e])[..|list|] == list;
  }

  lemma {:induction false} StartSnoc(list: seq<Arrived>, e: Arrived, me: nat, diag: bool, k: nat)
    ensures Start(list + [e], me, diag, k)
         == Start(list, me, diag, k) + if e.row < k && (e.colRank == me) == diag then 1 else 0
  {
    if k > 0 {
      StartSnoc(list, e, me, diag, k - 1);
      SelectSnoc(list, e, me, diag, k - 1);
    }
  }

  predicate RowsBelow(list: seq<Arrived>, height: nat) {
    forall i :: 0 <= i < |list| ==> list[i].row < height
  }

  /** Both assertions of the source: after the prefix sums the last row pointer is the number of entries. */
  lemma {:induction false} LastStartIsCount(list: seq<Arrived>, me: nat, diag: bool, height: nat)
    requires RowsBelow(list, height)
    ensures Start(list, me, diag, height) == Count(list, me, diag)
  {
    if list == [] {
      StartOfNothing(me, diag, height);
    } else {
      var m := |list| - 1;
      LastStartIsCount(list[..m], me, diag, height);
      assert list == list[..m] + [list[m]];
      StartSnoc(list[..m], list[m], me, diag, height);
      SelectSnoc(list[..m], list[m], me, diag, 0);
    }
  }

  lemma {:induction false} StartOfNothing(me: nat, diag: bool, k: nat)
    ensures Start([], me, diag, k) == 0
  {
    if k > 0 { StartOfNothing(me, diag, k - 1); }
  }

  lemma {:induction false} StartRises(list: seq<Arrived>, me: nat, diag: bool, j: nat, k: nat)
    requires j <= k
    ensures Start(list, me, diag, j) <= Start(list, me, diag, k)
    decreases k
  {
    if j < k { StartRises(list, me, diag, j, k - 1); }
  }

  // ----- counting

  /** The global column of an entry. */
  function Global(starts: seq<nat>, e: Arrived): nat {
    if e.colRank < |starts| then starts[e.colRank] + e.col else 0
  }

  predicate Ascending(keys: seq<nat>) {
    forall a, b :: 0 <= a < b < |keys| ==> keys[a] < keys[b]
  }

  /** keys are the global columns of the offd entries. */
  ghost predicate IsKeys(keys: seq<nat>, list: seq<Arrived>, me: nat, starts: seq<nat>) {
    && Ascending(keys)
    && forall g :: g in keys <==> IsOffdColumn(list, me, starts, g)
  }

  ghost predicate IsOffdColumn(list: seq<Arrived>, me: nat, starts: seq<nat>, g: nat) {
    exists i :: 0 <= i < |list| && list[i].colRank != me && Global(starts, list[i]) == g
  }

  lemma OffdColumnSnoc(list: seq<Arrived>, e: Arrived, me: nat, starts: seq<nat>, g: nat)
    ensures IsOffdColumn(list + [e], me, starts, g)
       <==> IsOffdColumn(list, me, starts, g) || (e.colRank != me && Global(starts, e) == g)
  {
    var after := list + [e];
    assert after[|list|] == e;
    assert forall i :: 0 <= i < |list| ==> after[i] == list[i];
    if i :| 0 <= i < |list| && list[i].colRank != me && Global(starts, list[i]) == g {
      assert after[i].colRank != me && Global(starts, after[i]) == g;
    }
  }

  /** insert into the ordered map: a key that is there already stays. */
  method InsertKey(keys0: seq<nat>, g: nat) returns (keys: seq<nat>)
    requires Ascending(keys0)
    ensures Ascending(keys) && forall h :: h in keys <==> h in keys0 || h == g
  {
    var at := 0;
    while at < |keys0| && keys0[at] < g
      invariant at <= |keys0| && forall a :: 0 <= a < at ==> keys0[a] < g
    {
      at := at + 1;
    }
    if at < |keys0| && keys0[at] == g {
      keys := keys0;
    } else {
      keys := keys0[..at] + [g] + keys0[at..];
      InsertedAt(keys0, at, g);
    }
  }

  lemma InsertedAt(keys: seq<nat>, at: nat, g: nat)
    requires Ascending(keys) && at <= |keys| && (at > 0 ==> keys[at - 1] < g) && (at < |keys| ==> g < keys[at])
    ensures Ascending(keys[..at] + [g] + keys[at..])
    ensures forall h :: h in keys[..at] + [g] + keys[at..] <==> h in keys || h == g
  {
    var (before, after) := (keys[..at], keys[at..]);
    assert keys == before + after;
    MembersBetween(before, after, g);
    AscendingBetween(before, after, g);
  }

  lemma MembersBetween(a: seq<nat>, b: seq<nat>, g: nat)
    ensures forall h :: h in a + [g] + b <==> h in a + b || h == g
  {
  }

  lemma AscendingBetween(a: seq<nat>, b: seq<nat>, g: nat)
    requires Ascending(a + b) && (a != [] ==> a[|a| - 1] < g) && (b != [] ==> g < b[0])
    ensures Ascending(a + [g] + b)
  {
    var (s, r) := (a + b, a + [g] + b);
    forall i, j | 0 <= i < j < |r| ensures r[i] < r[j] {
      if j < |a| {
        assert s[i] < s[j];
      } else if j == |a| {
        assert i < |a| - 1 ==> s[i] < s[|a| - 1];
      } else if i == |a| {
        assert j > |a| + 1 ==> s[|a|] < s[j - 1];
      } else {
        assert s[if i < |a| then i else i - 1] < s[j - 1];
      }
    }
  }

  datatype Counts = Counts(iDiag: seq<nat>, iOffd: seq<nat>, diagNnz: nat, offdNnz: nat, keys: seq<nat>)

  /** i[k + 1] is the number of entries of row k. */
  ghost predicate RowCounts(i: seq<nat>, list: seq<Arrived>, me: nat, diag: bool, height: nat) {
    |i| == height + 1 && i[0] == 0 && forall k :: 0 <= k < height ==> i[k + 1] == |Select(list, me, diag, k)|
  }

  ghost predicate Counted(c: Counts, list: seq<Arrived>, me: nat, starts: seq<nat>, height: nat) {
    && RowCounts(c.iDiag, list, me, true, height) && RowCounts(c.iOffd, list, me, false, height)
    && c.diagNnz == Count(list, me, true) && c.offdNnz == Count(list, me, false)
    && IsKeys(c.keys, list, me, starts)
  }

  lemma RowCountsStep(i: seq<nat>, list: seq<Arrived>, e: Arrived, me: nat, diag: bool, height: nat)
    requires RowCounts(i, list, me, diag, height) && e.row < height
    ensures RowCounts(if (e.colRank == me) == diag then i[e.row + 1 := i[e.row + 1] + 1] else i,
                      list + [e], me, diag, height)
  {
    forall k | 0 <= k < height
      ensures |Select(list + [e], me, diag, k)|
           == |Select(list, me, diag, k)| + if e.row == k && (e.colRank == me) == diag then 1 else 0
    {
      SelectSnoc(list, e, me, diag, k);
    }
  }

  /** The body of the counting loop. */
  method CountEntry(c0: Counts, e: Arrived, me: nat, starts: seq<nat>, ghost list: seq<Arrived>, ghost height: nat)
    returns (c: Counts)
    requires Counted(c0, list, me, starts, height) && e.row < height && e.colRank < |starts|
    ensures Counted(c, list + [e], me, starts, height)
  {
    RowCountsStep(c0.iDiag, list, e, me, true, height);
    RowCountsStep(c0.iOffd, list, e, me, false, height);
    SelectSnoc(list, e, me, true, 0);
    SelectSnoc(list, e, me, false, 0);
    forall g ensures IsOffdColumn(list + [e], me, starts, g)
                <==> IsOffdColumn(list, me, starts, g) || (e.colRank != me && Global(starts, e) == g)
    {
      OffdColumnSnoc(list, e, me, starts, g);
    }
    if e.colRank == me {
      c := c0.(diagNnz := c0.diagNnz + 1, iDiag := c0.iDiag[e.row + 1 := c0.iDiag[e.row + 1] + 1]);
    } else {
      var keys := InsertKey(c0.keys, starts[e.colRank] + e.col);
      c := c0.(offdNnz := c0.offdNnz + 1, iOffd := c0.iOffd[e.row + 1 := c0.iOffd[e.row + 1] + 1], keys := keys);
    }
  }

  function Flat(recv: seq<seq<Arrived>>): seq<Arrived> {
    if recv == [] then [] else Flat(recv[..|recv| - 1]) + recv[|recv| - 1]
  }

  /** Rows and column ranks are in range. */
  predicate Acceptable(list: seq<Arrived>, ranks: nat, height: nat) {
    RowsBelow(list, height) && forall i :: 0 <= i < |list| ==> list[i].colRank < ranks
  }

  /** The counting loop over all source ranks and their entries. */
  method CountAll(recv: seq<seq<Arrived>>, me: nat, starts: seq<nat>, height: nat) returns (c: Counts)
    requires forall r :: 0 <= r < |recv| ==> Acceptable(recv[r], |starts|, height)
    ensures Counted(c, Flat(recv), me, starts, height)
  {
    c := Counts(seq(height + 1, _ => 0), seq(height + 1, _ => 0), 0, 0, []);
    for r := 0 to |recv|
      invariant Counted(c, Flat(recv[..r]), me, starts, height)
    {
      c := CountBlock(c, recv[r], me, starts, Flat(recv[..r]), height);
      assert recv[..r + 1][..r] == recv[..r];
    }
    assert recv[..|recv|] == recv;
  }

  method CountBlock(c0: Counts, block: seq<Arrived>, me: nat, starts: seq<nat>, ghost done: seq<Arrived>,
                    ghost height: nat) returns (c: Counts)
    requires Counted(c0, done, me, starts, height) && Acceptable(block, |starts|, height)
    ensures Counted(c, done + block, me, starts, height)
  {
    c := c0;
    assert done + block[..0] == done;
    for i := 0 to |block|
      invariant Counted(c, done + block[..i], me, starts, height)
    {
      assert done + block[..i + 1] == done + block[..i] + [block[i]];
      c := CountEntry(c, block[i], me, starts, done + block[..i], height);
    }
    assert block[..|block|] == block;
  }

  /** The pointers up to row k are summed up, the others still count. */
  ghost predicate SummedTo(i: seq<nat>, list: seq<Arrived>, me: nat, diag: bool, height: nat, k: nat) {
    && |i| == height + 1 && k <= height
    && (forall a :: 0 <= a <= k ==> i[a] == Start(list, me, diag, a))
    && (forall a :: k < a <= height ==> i[a] == |Select(list, me, diag, a - 1)|)
  }

  lemma SumStep(i: seq<nat>, list: seq<Arrived>, me: nat, diag: bool, height: nat, k: nat)
    requires SummedTo(i, list, me, diag, height, k) && k < height
    ensures SummedTo(i[k + 1 := i[k + 1] + i[k]], list, me, diag, height, k + 1)
  {
    assert Start(list, me, diag, k + 1) == i[k] + i[k + 1];
  }

  /** The prefix sums, in place. */
  method SumUp(i0: seq<nat>, ghost list: seq<Arrived>, ghost me: nat, ghost diag: bool, height: nat)
    returns (i: seq<nat>)
    requires RowCounts(i0, list, me, diag, height)
    ensures |i| == height + 1 && forall k :: 0 <= k <= height ==> i[k] == Start(list, me, diag, k)
  {
    i := i0;
    for k := 0 to height
      invariant SummedTo(i, list, me, diag, height, k)
    {
      SumStep(i, list, me, diag, height, k);
      i := i[k + 1 := i[k + 1] + i[k]];
    }
  }

  /** The second pass over the ordered map: numbers the keys in order. */
  method NumberKeys(keys: seq<nat>) returns (index: map<nat, nat>)
    requires Ascending(keys)
    ensures forall x :: 0 <= x < |keys| ==> keys[x] in index && index[keys[x]] == x
  {
    index := map[];
    for x := 0 to |keys|
      invariant forall a :: 0 <= a < x ==> keys[a] in index && index[keys[a]] == a
    {
      index := index[keys[x] := x];
    }
  }

  // ----- filling

  /** A matrix under construction: row pointers, columns, values, and the fill count of each row. */
  datatype Slots = Slots(I: seq<nat>, J: seq<nat>, data: seq<real>, counts: seq<nat>)

  function Columns(list: seq<Arrived>, col: Arrived -> nat): (r: seq<nat>)
    ensures |r| == |list|
  {
    seq(|list|, i requires 0 <= i < |list| => col(list[i]))
  }

  function Values(list: seq<Arrived>): (r: seq<real>)
    ensures |r| == |list|
  {
    seq(|list|, i requires 0 <= i < |list| => list[i].value)
  }

  /** Row k holds the entries of `list` that belong to it, in order of arrival. */
  ghost predicate RowFilled(s: Slots, list: seq<Arrived>, me: nat, diag: bool, col: Arrived -> nat, k: nat)
    requires k < |s.I| && k < |s.counts|
  {
    var (row, a) := (Select(list, me, diag, k), s.I[k]);
    && s.counts[k] == |row| && |s.J| == |s.data|
    && Holds(s.J, a, Columns(row, col)) && Holds(s.data, a, Values(row))
  }

  /** From place a on, s holds row. */
  ghost predicate Holds<T>(s: seq<T>, a: nat, row: seq<T>) {
    a + |row| <= |s| && s[a..a + |row|] == row
  }

  lemma HoldsElsewhere<T>(s: seq<T>, a: nat, row: seq<T>, x: nat, v: T)
    requires Holds(s, a, row) && x < |s| && (x < a || a + |row| <= x)
    ensures Holds(s[x := v], a, row)
  {
  }

  lemma HoldsNext<T>(s: seq<T>, a: nat, row: seq<T>, v: T)
    requires Holds(s, a, row) && a + |row| < |s|
    ensures Holds(s[a + |row| := v], a, row + [v])
  {
  }

  lemma ColumnsSnoc(row: seq<Arrived>, e: Arrived, col: Arrived -> nat)
    ensures Columns(row + [e], col) == Columns(row, col) + [col(e)]
    ensures Values(row + [e]) == Values(row) + [e.value]
  {
  }

  /** The arrays have room for the entries of all, and hold those of list. */
  ghost predicate Filling(s: Slots, all: seq<Arrived>, list: seq<Arrived>, me: nat, diag: bool, col: Arrived -> nat,
                          height: nat) {
    && |s.I| == height + 1 && |s.counts| == height && |s.J| == |s.data| == Start(all, me, diag, height)
    && (forall k :: 0 <= k <= height ==> s.I[k] == Start(all, me, diag, k))
    && forall k :: 0 <= k < height ==> RowFilled(s, list, me, diag, col, k)
  }

  /** Writes one entry at the next place of its row. */
  function Append(s: Slots, row: nat, col: nat, value: real): Slots
    requires row < |s.I| && row < |s.counts| && s.I[row] + s.counts[row] < |s.J| == |s.data|
  {
    var x := s.I[row] + s.counts[row];
    Slots(s.I, s.J[x := col], s.data[x := value], s.counts[row := s.counts[row] + 1])
  }

  lemma {:induction false} SelectPrefix(a: seq<Arrived>, b: seq<Arrived>, me: nat, diag: bool, k: nat)
    ensures |Select(a + b, me, diag, k)| == |Select(a, me, diag, k)| + |Select(b, me, diag, k)|
  {
    if b == [] {
      assert a + b == a;
    } else {
      SelectPrefix(a, b[..|b| - 1], me, diag, k);
      assert (a + b)[..|a + b| - 1] == a + b[..|b| - 1];
    }
  }

  /** There is room for the next entry, before the next row. */
  lemma Room(all: seq<Arrived>, list: seq<Arrived>, e: Arrived, rest: seq<Arrived>, me: nat, diag: bool, height: nat)
    requires all == list + [e] + rest && e.row < height && (e.colRank == me) == diag
    ensures Start(all, me, diag, e.row) + |Select(list, me, diag, e.row)| < Start(all, me, diag, e.row + 1)
         <= Start(all, me, diag, height)
  {
    hide Select;
    SelectPrefix(list + [e], rest, me, diag, e.row);
    SelectSnoc(list, e, me, diag, e.row);
    assert Start(all, me, diag, e.row + 1) == Start(all, me, diag, e.row) + |Select(all, me, diag, e.row)|;
    hide Start;
    StartRises(all, me, diag, e.row + 1, height);
  }

  lemma Regroup(list: seq<Arrived>, e: Arrived, rest: seq<Arrived>)
    ensures list + [e] + rest == list + ([e] + rest)
  {
  }

  lemma RowEnd(all: seq<Arrived>, list: seq<Arrived>, e: Arrived, rest: seq<Arrived>, me: nat, diag: bool, k: nat)
    requires all == list + [e] + rest
    ensures Start(all, me, diag, k) + |Select(list, me, diag, k)| <= Start(all, me, diag, k + 1)
  {
    Regroup(list, e, rest);
    SelectPrefix(list, [e] + rest, me, diag, k);
  }

  /** The next place of the row of e is not among the places that are in use in another row. */
  lemma RowsApart(all: seq<Arrived>, list: seq<Arrived>, e: Arrived, rest: seq<Arrived>, me: nat, diag: bool,
                  height: nat, k: nat)
    requires all == list + [e] + rest && e.row < height && (e.colRank == me) == diag && k < height && k != e.row
    ensures var x := Start(all, me, diag, e.row) + |Select(list, me, diag, e.row)|;
      x < Start(all, me, diag, k) || Start(all, me, diag, k) + |Select(list, me, diag, k)| <= x
  {
    hide Select;
    Room(all, list, e, rest, me, diag, height);
    RowEnd(all, list, e, rest, me, diag, k);
    hide Start;
    if k < e.row { StartRises(all, me, diag, k + 1, e.row); } else { StartRises(all, me, diag, e.row + 1, k); }
  }

  /** Writing elsewhere leaves the filled part of row k as it is. */
  lemma OtherRow(s: Slots, list: seq<Arrived>, e: Arrived, me: nat, diag: bool, col: Arrived -> nat, k: nat)
    requires e.row < |s.I| && e.row < |s.counts| && k < |s.I| && k < |s.counts| && k != e.row
    requires RowFilled(s, list, me, diag, col, k)
    requires var x := s.I[e.row] + s.counts[e.row];
      x < |s.J| && (x < s.I[k] || s.I[k] + |Select(list, me, diag, k)| <= x)
    ensures RowFilled(Append(s, e.row, col(e), e.value), list + [e], me, diag, col, k)
  {
    SelectSnoc(list, e, me, diag, k);
    hide Holds;
    hide Select;
    hide Columns;
    hide Values;
    var x := s.I[e.row] + s.counts[e.row];
    HoldsElsewhere(s.J, s.I[k], Columns(Select(list, me, diag, k), col), x, col(e));
    HoldsElsewhere(s.data, s.I[k], Values(Select(list, me, diag, k)), x, e.value);
  }

  lemma HasRoom(s: Slots, all: seq<Arrived>, list: seq<Arrived>, e: Arrived, rest: seq<Arrived>, me: nat, diag: bool,
                col: Arrived -> nat, height: nat)
    requires all == list + [e] + rest && e.row < height && (e.colRank == me) == diag
    requires Filling(s, all, list, me, diag, col, height)
    ensures s.I[e.row] + s.counts[e.row] < |s.J|
  {
    assert RowFilled(s, list, me, diag, col, e.row);
    Room(all, list, e, rest, me, diag, height);
  }

  lemma SameRow(s: Slots, all: seq<Arrived>, list: seq<Arrived>, e: Arrived, rest: seq<Arrived>, me: nat, diag: bool,
                col: Arrived -> nat, height: nat)
    requires all == list + [e] + rest && e.row < height && (e.colRank == me) == diag
    requires Filling(s, all, list, me, diag, col, height)
    ensures s.I[e.row] + s.counts[e.row] < |s.J|
    ensures RowFilled(Append(s, e.row, col(e), e.value), list + [e], me, diag, col, e.row)
  {
    hide Holds;
    hide Select;
    hide Columns;
    hide Values;
    hide Start;
    HasRoom(s, all, list, e, rest, me, diag, col, height);
    assert RowFilled(s, list, me, diag, col, e.row);
    SelectSnoc(list, e, me, diag, e.row);
    var row := Select(list, me, diag, e.row);
    ColumnsSnoc(row, e, col);
    HoldsNext(s.J, s.I[e.row], Columns(row, col), col(e));
    HoldsNext(s.data, s.I[e.row], Values(row), e.value);
  }

  /** The entry goes to the matrix of its kind. */
  function FillOne(s: Slots, e: Arrived, me: nat, diag: bool, col: nat): Slots
    requires e.row < |s.I| && e.row < |s.counts|
    requires (e.colRank == me) == diag ==> s.I[e.row] + s.counts[e.row] < |s.J| == |s.data|
  {
    if (e.colRank == me) == diag then Append(s, e.row, col, e.value) else s
  }

  /** One write keeps everything right: no slot that is in use is written again. */
  lemma FillStep(s: Slots, all: seq<Arrived>, list: seq<Arrived>, e: Arrived, rest: seq<Arrived>, me: nat, diag: bool,
                 col: Arrived -> nat, height: nat)
    requires all == list + [e] + rest && e.row < height && Filling(s, all, list, me, diag, col, height)
    ensures (e.colRank == me) == diag ==> s.I[e.row] + s.counts[e.row] < |s.J|
    ensures Filling(FillOne(s, e, me, diag, col(e)), all, list + [e], me, diag, col, height)
  {
    if (e.colRank == me) == diag { HasRoom(s, all, list, e, rest, me, diag, col, height); }
    var after := FillOne(s, e, me, diag, col(e));
    forall k | 0 <= k < height ensures RowFilled(after, list + [e], me, diag, col, k) {
      RowStep(s, all, list, e, rest, me, diag, col, height, k);
    }
  }

  lemma RowStep(s: Slots, all: seq<Arrived>, list: seq<Arrived>, e: Arrived, rest: seq<Arrived>, me: nat, diag: bool,
                col: Arrived -> nat, height: nat, k: nat)
    requires all == list + [e] + rest && e.row < height && Filling(s, all, list, me, diag, col, height) && k < height
    requires (e.colRank == me) == diag ==> s.I[e.row] + s.counts[e.row] < |s.J|
    ensures RowFilled(FillOne(s, e, me, diag, col(e)), list + [e], me, diag, col, k)
  {
    if (e.colRank == me) != diag {
      assert RowFilled(s, list, me, diag, col, k);
      SelectSnoc(list, e, me, diag, k);
    } else if k == e.row {
      SameRow(s, all, list, e, rest, me, diag, col, height);
    } else {
      RowElsewhere(s, all, list, e, rest, me, diag, col, height, k);
    }
  }

  lemma RowElsewhere(s: Slots, all: seq<Arrived>, list: seq<Arrived>, e: Arrived, rest: seq<Arrived>, me: nat,
                     diag: bool, col: Arrived -> nat, height: nat, k: nat)
    requires all == list + [e] + rest && e.row < height && Filling(s, all, list, me, diag, col, height)
    requires (e.colRank == me) == diag && s.I[e.row] + s.counts[e.row] < |s.J| && k < height && k != e.row
    ensures RowFilled(Append(s, e.row, col(e), e.value), list + [e], me, diag, col, k)
  {
    assert RowFilled(s, list, me, diag, col, e.row);
    RowsApart(all, list, e, rest, me, diag, height, k);
    OtherRow(s, list, e, me, diag, col, k);
  }

  /** Local columns of diag are element numbers of this rank; those of offd are positions in the map. */
  function DiagColumn(): Arrived -> nat {
    (e: Arrived) => e.col
  }

  function OffdColumn(starts: seq<nat>, index: map<nat, nat>): Arrived -> nat {
    (e: Arrived) => if Global(starts, e) in index then index[Global(starts, e)] else 0
  }

  ghost predicate BothFilling(diag: Slots, offd: Slots, all: seq<Arrived>, list: seq<Arrived>, me: nat,
                              starts: seq<nat>, index: map<nat, nat>, height: nat) {
    && Filling(diag, all, list, me, true, DiagColumn(), height)
    && Filling(offd, all, list, me, false, OffdColumn(starts, index), height)
  }

  /** The body of the filling loop. */
  method FillEntry(diag0: Slots, offd0: Slots, e: Arrived, me: nat, starts: seq<nat>, index: map<nat, nat>,
                   ghost all: seq<Arrived>, ghost list: seq<Arrived>, ghost rest: seq<Arrived>, ghost height: nat)
    returns (diag: Slots, offd: Slots)
    requires all == list + [e] + rest && e.row < height && e.colRank < |starts|
    requires e.colRank != me ==> Global(starts, e) in index
    requires BothFilling(diag0, offd0, all, list, me, starts, index, height)
    ensures BothFilling(diag, offd, all, list + [e], me, starts, index, height)
  {
    FillStep(diag0, all, list, e, rest, me, true, DiagColumn(), height);
    FillStep(offd0, all, list, e, rest, me, false, OffdColumn(starts, index), height);
    diag, offd := diag0, offd0;
    if e.colRank == me {
      diag := Append(diag, e.row, e.col, e.value);
    } else {
      offd := Append(offd, e.row, index[starts[e.colRank] + e.col], e.value);
    }
    assert diag == FillOne(diag0, e, me, true, DiagColumn()(e));
    assert offd == FillOne(offd0, e, me, false, OffdColumn(starts, index)(e));
  }

  lemma StartFilling(s: Slots, all: seq<Arrived>, me: nat, diag: bool, col: Arrived -> nat, height: nat)
    requires |s.I| == height + 1 && |s.counts| == height && |s.J| == |s.data| == Start(all, me, diag, height)
    requires forall k :: 0 <= k <= height ==> s.I[k] == Start(all, me, diag, k)
    requires forall k :: 0 <= k < height ==> s.counts[k] == 0
    ensures Filling(s, all, [], me, diag, col, height)
  {
    forall k | 0 <= k < height ensures RowFilled(s, [], me, diag, col, k) {
      StartRises(all, me, diag, k, height);
    }
  }

  /** The filling loop over all source ranks and their entries. */
  method FillAll(recv: seq<seq<Arrived>>, me: nat, starts: seq<nat>, index: map<nat, nat>, height: nat,
                 diag0: Slots, offd0: Slots) returns (diag: Slots, offd: Slots)
    requires forall r :: 0 <= r < |recv| ==> Acceptable(recv[r], |starts|, height)
    requires forall r, i :: 0 <= r < |recv| && 0 <= i < |recv[r]| && recv[r][i].colRank != me
               ==> Global(starts, recv[r][i]) in index
    requires BothFilling(diag0, offd0, Flat(recv), [], me, starts, index, height)
    ensures BothFilling(diag, offd, Flat(recv), Flat(recv), me, starts, index, height)
  {
    diag, offd := diag0, offd0;
    for r := 0 to |recv|
      invariant BothFilling(diag, offd, Flat(recv), Flat(recv[..r]), me, starts, index, height)
    {
      diag, offd := FillBlock(recv, me, starts, index, height, diag, offd, r);
    }
    assert recv[..|recv|] == recv;
  }

  method FillBlock(recv: seq<seq<Arrived>>, me: nat, starts: seq<nat>, index: map<nat, nat>, height: nat,
                   diag0: Slots, offd0: Slots, r: nat) returns (diag: Slots, offd: Slots)
    requires r < |recv| && Acceptable(recv[r], |starts|, height)
    requires forall i :: 0 <= i < |recv[r]| && recv[r][i].colRank != me ==> Global(starts, recv[r][i]) in index
    requires BothFilling(diag0, offd0, Flat(recv), Flat(recv[..r]), me, starts, index, height)
    ensures BothFilling(diag, offd, Flat(recv), Flat(recv[..r + 1]), me, starts, index, height)
  {
    diag, offd := diag0, offd0;
    ghost var done, block := Flat(recv[..r]), recv[r];
    assert done + block[..0] == done;
    for i := 0 to |recv[r]|
      invariant BothFilling(diag, offd, Flat(recv), done + block[..i], me, starts, index, height)
    {
      ghost var rest := FlatSplit(recv, r, i);
      assert done + block[..i + 1] == done + block[..i] + [block[i]];
      diag, offd := FillEntry(diag, offd, recv[r][i], me, starts, index, Flat(recv), done + block[..i], rest, height);
    }
    assert block[..|block|] == block && recv[..r + 1][..r] == recv[..r];
  }

  /** What comes before and after entry i of block r. */
  lemma FlatSplit(recv: seq<seq<Arrived>>, r: nat, i: nat) returns (rest: seq<Arrived>)
    requires r < |recv| && i < |recv[r]|
    ensures Flat(recv) == Flat(recv[..r]) + recv[r][..i] + [recv[r][i]] + rest
  {
    var tail := FlatTail(recv, r + 1);
    rest := recv[r][i + 1..] + tail;
    assert recv[..r + 1][..r] == recv[..r];
    assert recv[r] == recv[r][..i] + [recv[r][i]] + recv[r][i + 1..];
  }

  lemma {:induction false} FlatTail(recv: seq<seq<Arrived>>, r: nat) returns (tail: seq<Arrived>)
    requires r <= |recv|
    ensures Flat(recv) == Flat(recv[..r]) + tail
  {
    if r == |recv| {
      tail := [];
      assert recv[..r] == recv;
    } else {
      var m := |recv| - 1;
      tail := FlatTail(recv[..m], r);
      assert recv[..m][..r] == recv[..r];
      tail := tail + recv[m];
    }
  }

  // ----- the assembled rows

  /** Diag and offd hold all entries, and the column map and its index are inverse to each other. */
  ghost predicate IsAssembled(diag: Slots, offd: Slots, cmap: seq<nat>, index: map<nat, nat>, list: seq<Arrived>,
                              me: nat, starts: seq<nat>, height: nat) {
    && BothFilling(diag, offd, list, list, me, starts, index, height)
    && IsKeys(cmap, list, me, starts)
    && forall x :: 0 <= x < |cmap| ==> cmap[x] in index && index[cmap[x]] == x
  }

  lemma OffdIndexed(recv: seq<seq<Arrived>>, keys: seq<nat>, index: map<nat, nat>, me: nat, starts: seq<nat>, r: nat, i: nat)
    requires IsKeys(keys, Flat(recv), me, starts) && r < |recv| && i < |recv[r]| && recv[r][i].colRank != me
    requires forall x :: 0 <= x < |keys| ==> keys[x] in index
    ensures Global(starts, recv[r][i]) in index
  {
    var rest := FlatSplit(recv, r, i);
    var at := |Flat(recv[..r]) + recv[r][..i]|;
    assert Flat(recv)[at] == recv[r][i];
    assert IsOffdColumn(Flat(recv), me, starts, Global(starts, recv[r][i]));
  }

  /** Counting, prefix sums, column map and filling. */
  method Assemble(recv: seq<seq<Arrived>>, me: nat, starts: seq<nat>, height: nat)
    returns (diag: Slots, offd: Slots, cmap: seq<nat>, index: map<nat, nat>)
    requires forall r :: 0 <= r < |recv| ==> Acceptable(recv[r], |starts|, height)
    ensures IsAssembled(diag, offd, cmap, index, Flat(recv), me, starts, height)
  {
    var c := CountAll(recv, me, starts, height);
    ghost var list := Flat(recv);
    var iDiag := SumUp(c.iDiag, list, me, true, height);
    var iOffd := SumUp(c.iOffd, list, me, false, height);
    FlatRows(recv, height, |starts|);
    LastStartIsCount(list, me, true, height);
    LastStartIsCount(list, me, false, height);
    assert iDiag[height] == c.diagNnz && iOffd[height] == c.offdNnz;
    index := NumberKeys(c.keys);
    cmap := ReadKeys(c.keys, index);
    var none := seq(height, _ => 0);
    diag := Slots(iDiag, seq(c.diagNnz, _ => 0), seq(c.diagNnz, _ => 0.0), none);
    offd := Slots(iOffd, seq(c.offdNnz, _ => 0), seq(c.offdNnz, _ => 0.0), none);
    StartFilling(diag, list, me, true, DiagColumn(), height);
    StartFilling(offd, list, me, false, OffdColumn(starts, index), height);
    forall r, i | 0 <= r < |recv| && 0 <= i < |recv[r]| && recv[r][i].colRank != me
      ensures Global(starts, recv[r][i]) in index
    {
      OffdIndexed(recv, c.keys, index, me, starts, r, i);
    }
    diag, offd := FillAll(recv, me, starts, index, height, diag, offd);
  }

  lemma {:induction false} FlatRows(recv: seq<seq<Arrived>>, height: nat, ranks: nat)
    requires forall r :: 0 <= r < |recv| ==> Acceptable(recv[r], ranks, height)
    ensures Acceptable(Flat(recv), ranks, height)
  {
    if recv != [] { FlatRows(recv[..|recv| - 1], height, ranks); }
  }

  /** cmap: each key goes to its number. */
  method ReadKeys(keys: seq<nat>, index: map<nat, nat>) returns (cmap: seq<nat>)
    requires forall x :: 0 <= x < |keys| ==> keys[x] in index && index[keys[x]] == x
    ensures cmap == keys
  {
    cmap := seq(|keys|, _ => 0);
    for x := 0 to |keys|
      invariant |cmap| == |keys| && forall a :: 0 <= a < x ==> cmap[a] == keys[a]
    {
      cmap := cmap[index[keys[x]] := keys[x]];
    }
  }

  // ----- what the assembled matrix denotes

  /** Sum of the values in column g. */
  function Sum(cols: seq<nat>, vals: seq<real>, g: nat): real
    requires |cols| == |vals|
  {
    if cols == [] then 0.0
    else
      var m := |cols| - 1;
      Sum(cols[..m], vals[..m], g) + if cols[m] == g then vals[m] else 0.0
  }

  function Map(cols: seq<nat>, f: nat -> nat): (r: seq<nat>)
    ensures |r| == |cols| && forall i :: 0 <= i < |cols| ==> r[i] == f(cols[i])
  {
    seq(|cols|, i requires 0 <= i < |cols| => f(cols[i]))
  }

  /** The value in row k and global column g of one of the two matrices; f takes local to global columns. */
  function RowValue(s: Slots, f: nat -> nat, k: nat, g: nat): real
    requires k + 1 < |s.I| && s.I[k] <= s.I[k + 1] <= |s.J| == |s.data|
  {
    Sum(Map(s.J[s.I[k]..s.I[k + 1]], f), s.data[s.I[k]..s.I[k + 1]], g)
  }

  /** Columns of diag are shifted by the first column of this rank, those of offd go through the map. */
  function FromDiag(starts: seq<nat>, me: nat): nat -> nat {
    (j: nat) => if me < |starts| then starts[me] + j else 0
  }

  function FromOffd(cmap: seq<nat>): nat -> nat {
    (j: nat) => if j < |cmap| then cmap[j] else 0
  }

  /** What the received entries say about row k and global column g. */
  function Dense(list: seq<Arrived>, starts: seq<nat>, k: nat, g: nat): real {
    if list == [] then 0.0
    else
      var e := list[|list| - 1];
      Dense(list[..|list| - 1], starts, k, g) + if e.row == k && Global(starts, e) == g then e.value else 0.0
  }

  /** The part of it that goes to diag or to offd. */
  function DensePart(list: seq<Arrived>, starts: seq<nat>, me: nat, diag: bool, k: nat, g: nat): real {
    if list == [] then 0.0
    else
      var e := list[|list| - 1];
      DensePart(list[..|list| - 1], starts, me, diag, k, g) +
      if (e.colRank == me) == diag && e.row == k && Global(starts, e) == g then e.value else 0.0
  }

  lemma {:induction false} DenseSplits(list: seq<Arrived>, starts: seq<nat>, me: nat, k: nat, g: nat)
    ensures Dense(list, starts, k, g)
         == DensePart(list, starts, me, true, k, g) + DensePart(list, starts, me, false, k, g)
  {
    if list != [] { DenseSplits(list[..|list| - 1], starts, me, k, g); }
  }

  /** f takes the local column of every entry of the kind to its global column. */
  ghost predicate Restores(list: seq<Arrived>, starts: seq<nat>, me: nat, diag: bool, col: Arrived -> nat, f: nat -> nat) {
    forall i :: 0 <= i < |list| && (list[i].colRank == me) == diag ==> f(col(list[i])) == Global(starts, list[i])
  }

  lemma SumSnoc(row: seq<Arrived>, e: Arrived, col: Arrived -> nat, f: nat -> nat, g: nat)
    ensures Sum(Map(Columns(row + [e], col), f), Values(row + [e]), g)
         == Sum(Map(Columns(row, col), f), Values(row), g) + if f(col(e)) == g then e.value else 0.0
  {
    var (cols, vals) := (Map(Columns(row + [e], col), f), Values(row + [e]));
    assert cols[..|row|] == Map(Columns(row, col), f) && vals[..|row|] == Values(row);
  }

  lemma {:induction false} SelectSum(list: seq<Arrived>, starts: seq<nat>, me: nat, diag: bool, col: Arrived -> nat,
                                     f: nat -> nat, k: nat, g: nat)
    requires Restores(list, starts, me, diag, col, f)
    ensures Sum(Map(Columns(Select(list, me, diag, k), col), f), Values(Select(list, me, diag, k)), g)
         == DensePart(list, starts, me, diag, k, g)
  {
    if list != [] {
      var (m, e) := (|list| - 1, list[|list| - 1]);
      SelectSum(list[..m], starts, me, diag, col, f, k, g);
      if e.row == k && (e.colRank == me) == diag {
        assert f(col(list[m])) == Global(starts, list[m]);
        SumSnoc(Select(list[..m], me, diag, k), e, col, f, g);
      } else {
        assert Select(list, me, diag, k) == Select(list[..m], me, diag, k);
      }
    }
  }

  /** Row k takes exactly the slots from I[k] to I[k + 1], one for each of its entries: every slot is
      written once. */
  lemma RowsAreFull(s: Slots, list: seq<Arrived>, me: nat, diag: bool, col: Arrived -> nat, height: nat, k: nat)
    requires Filling(s, list, list, me, diag, col, height) && k < height
    ensures s.I[0] == 0 && s.I[k + 1] == s.I[k] + |Select(list, me, diag, k)| <= |s.J| == |s.data| == s.I[height]
    ensures s.J[s.I[k]..s.I[k + 1]] == Columns(Select(list, me, diag, k), col)
    ensures s.data[s.I[k]..s.I[k + 1]] == Values(Select(list, me, diag, k))
  {
    assert RowFilled(s, list, me, diag, col, k);
    StartRises(list, me, diag, k + 1, height);
  }

  /** A filled row is the whole row, and sums up to what the entries say. */
  lemma FilledRowValue(s: Slots, list: seq<Arrived>, starts: seq<nat>, me: nat, diag: bool, col: Arrived -> nat,
                       f: nat -> nat, height: nat, k: nat, g: nat)
    requires Filling(s, list, list, me, diag, col, height) && k < height && Restores(list, starts, me, diag, col, f)
    ensures s.I[k] <= s.I[k + 1] <= |s.J|
    ensures RowValue(s, f, k, g) == DensePart(list, starts, me, diag, k, g)
  {
    RowsAreFull(s, list, me, diag, col, height, k);
    SelectSum(list, starts, me, diag, col, f, k, g);
  }

  /** Both local columns are restored: diag by the shift, offd by the column map, which is inverse to the
      numbering used when filling. */
  lemma ColumnsRestored(cmap: seq<nat>, index: map<nat, nat>, list: seq<Arrived>, me: nat, starts: seq<nat>)
    requires IsKeys(cmap, list, me, starts) && me < |starts|
    requires forall x :: 0 <= x < |cmap| ==> cmap[x] in index && index[cmap[x]] == x
    ensures Restores(list, starts, me, true, DiagColumn(), FromDiag(starts, me))
    ensures Restores(list, starts, me, false, OffdColumn(starts, index), FromOffd(cmap))
  {
    forall i | 0 <= i < |list| && list[i].colRank != me
      ensures FromOffd(cmap)(OffdColumn(starts, index)(list[i])) == Global(starts, list[i])
    {
      var g := Global(starts, list[i]);
      assert IsOffdColumn(list, me, starts, g) && g in cmap;
      var x :| 0 <= x < |cmap| && cmap[x] == g;
    }
  }

  /** Assembling conserves the matrix: in every row and every global column, diag and offd together hold
      the sum of the received values. */
  lemma AssemblyConserves(diag: Slots, offd: Slots, cmap: seq<nat>, index: map<nat, nat>, list: seq<Arrived>, me: nat,
                          starts: seq<nat>, height: nat, k: nat, g: nat)
    requires IsAssembled(diag, offd, cmap, index, list, me, starts, height) && me < |starts| && k < height
    ensures diag.I[k] <= diag.I[k + 1] <= |diag.J| && offd.I[k] <= offd.I[k + 1] <= |offd.J|
    ensures RowValue(diag, FromDiag(starts, me), k, g) + RowValue(offd, FromOffd(cmap), k, g) == Dense(list, starts, k, g)
  {
    ColumnsRestored(cmap, index, list, me, starts);
    FilledRowValue(diag, list, starts, me, true, DiagColumn(), FromDiag(starts, me), height, k, g);
    FilledRowValue(offd, list, starts, me, false, OffdColumn(starts, index), FromOffd(cmap), height, k, g);
    DenseSplits(list, starts, me, k, g);
  }

  /** The column number is one of an element of its rank. */
  predicate InItsRange(e: Arrived, starts: seq<nat>) {
    e.colRank + 1 < |starts| && starts[e.colRank] + e.col < starts[e.colRank + 1]
  }

  /** The map holds columns of other ranks only. */
  lemma OffdIsRemote(cmap: seq<nat>, list: seq<Arrived>, me: nat, starts: seq<nat>, x: nat)
    requires IsKeys(cmap, list, me, starts) && me + 1 < |starts| && x < |cmap|
    requires forall a, b :: 0 <= a <= b < |starts| ==> starts[a] <= starts[b]
    requires forall i :: 0 <= i < |list| ==> InItsRange(list[i], starts)
    ensures cmap[x] < starts[me] || starts[me + 1] <= cmap[x]
  {
    assert cmap[x] in cmap;
    var i :| 0 <= i < |list| && list[i].colRank != me && Global(starts, list[i]) == cmap[x];
    assert InItsRange(list[i], starts);
    if list[i].colRank < me {
      assert starts[list[i].colRank + 1] <= starts[me];
    } else {
      assert starts[me + 1] <= starts[list[i].colRank];
    }
  }
}
