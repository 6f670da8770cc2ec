/** Element matrices, their triplets, and the order in which a rank receives them, in
    src/redecomp/transfer/MatrixTransfer.cpp. */
module ElementMatrices {
  import opened FieldTransfer
  import opened RCBPartition
  import opened MatrixPacking
  import opened TripletMerge

  /** An element matrix with the dofs of its rows and columns; values by column. */
  datatype Elem = Elem(rows: seq<nat>, cols: seq<nat>, vals: seq<real>)

  predicate Filled(e: Elem) {
    |e.vals| == Volume((|e.rows|, |e.cols|))
  }

  lemma ValueInRange(e: Elem, j: nat, i: nat)
    requires Filled(e) && j < |e.cols| && i < |e.rows|
    ensures i + j * |e.rows| < |e.vals|
  {
    VolumeIsProduct(|e.rows|, j);
    VolumeIsProduct(|e.rows|, j + 1);
    VolumeRises(|e.rows|, j + 1, |e.cols|);
    assert |e.rows| * (j + 1) == j * |e.rows| + |e.rows|;
  }

  lemma {:induction false} VolumeRises(rows: nat, j: nat, k: nat)
    requires j <= k
    ensures Volume((rows, j)) <= Volume((rows, k))
    decreases k
  {
    if j < k { VolumeRises(rows, j, k - 1); }
  }

  /** Value in row i and column j. */
  function ValueAt(e: Elem, j: nat, i: nat): real
    requires Filled(e) && j < |e.cols| && i < |e.rows|
  {
    ValueInRange(e, j, i);
    e.vals[i + j * |e.rows|]
  }

  /** Triplets of the first i rows of column j. */
  function ColumnTriplets(e: Elem, j: nat, i: nat): seq<Triplet>
    requires Filled(e) && j < |e.cols| && i <= |e.rows|
  {
    if i == 0 then []
    else ColumnTriplets(e, j, i - 1) + [Triplet(e.rows[i - 1], e.cols[j], ValueAt(e, j, i - 1))]
  }

  /** Triplets of the first j columns. */
  function ElemTriplets(e: Elem, j: nat): seq<Triplet>
    requires Filled(e) && j <= |e.cols|
  {
    if j == 0 then [] else ElemTriplets(e, j - 1) + ColumnTriplets(e, j - 1, |e.rows|)
  }

  predicate AllFilled(elems: seq<Elem>) {
    forall k :: 0 <= k < |elems| ==> Filled(elems[k])
  }

  function Triplets(elems: seq<Elem>): seq<Triplet>
    requires AllFilled(elems)
  {
    if elems == [] then []
    else
      var e := elems[|elems| - 1];
      Triplets(elems[..|elems| - 1]) + ElemTriplets(e, |e.cols|)
  }

  // ----- what an element matrix adds at row k and column g

  function ColumnSum(e: Elem, j: nat, i: nat, k: nat, g: nat): real
    requires Filled(e) && j < |e.cols| && i <= |e.rows|
  {
    if i == 0 then 0.0
    else ColumnSum(e, j, i - 1, k, g) + if e.rows[i - 1] == k && e.cols[j] == g then ValueAt(e, j, i - 1) else 0.0
  }

  function ElemSum(e: Elem, j: nat, k: nat, g: nat): real
    requires Filled(e) && j <= |e.cols|
  {
    if j == 0 then 0.0 else ElemSum(e, j - 1, k, g) + ColumnSum(e, j - 1, |e.rows|, k, g)
  }

  /** The scattered element matrix at (k, g). */
  function Scattered(e: Elem, k: nat, g: nat): real {
    if Filled(e) then ElemSum(e, |e.cols|, k, g) else 0.0
  }

  predicate Distinct(s: seq<nat>) {
    forall i, j :: 0 <= i < j < |s| ==> s[i] != s[j]
  }

  lemma {:induction false} ColumnEntry(e: Elem, j: nat, i: nat, c: nat, r: nat)
    requires Filled(e) && Distinct(e.rows) && Distinct(e.cols) && j < |e.cols| && i <= |e.rows|
    requires c < |e.cols| && r < |e.rows|
    ensures ColumnSum(e, j, i, e.rows[r], e.cols[c]) == if j == c && r < i then ValueAt(e, c, r) else 0.0
  {
    if i > 0 { ColumnEntry(e, j, i - 1, c, r); }
  }

  lemma {:induction false} ElemEntry(e: Elem, j: nat, c: nat, r: nat)
    requires Filled(e) && Distinct(e.rows) && Distinct(e.cols) && j <= |e.cols| && c < |e.cols| && r < |e.rows|
    ensures ElemSum(e, j, e.rows[r], e.cols[c]) == if c < j then ValueAt(e, c, r) else 0.0
  {
    if j > 0 {
      ElemEntry(e, j - 1, c, r);
      ColumnEntry(e, j - 1, |e.rows|, c, r);
    }
  }

  /** An element matrix is stored by columns: with distinct dofs, the value at row dof i and column dof j is entry
      i + j * rows of the buffer. */
  lemma ScatteredEntry(e: Elem, i: nat, j: nat)
    requires Filled(e) && Distinct(e.rows) && Distinct(e.cols) && i < |e.rows| && j < |e.cols|
    ensures i + j * |e.rows| < |e.vals|
    ensures Scattered(e, e.rows[i], e.cols[j]) == e.vals[i + j * |e.rows|]
  {
    ValueInRange(e, j, i);
    ElemEntry(e, |e.cols|, j, i);
  }

  lemma {:induction false} ColumnElsewhere(e: Elem, j: nat, i: nat, k: nat, g: nat)
    requires Filled(e) && j < |e.cols| && i <= |e.rows| && (k !in e.rows || g !in e.cols)
    ensures ColumnSum(e, j, i, k, g) == 0.0
  {
    if i > 0 { ColumnElsewhere(e, j, i - 1, k, g); }
  }

  lemma {:induction false} ElemElsewhere(e: Elem, j: nat, k: nat, g: nat)
    requires Filled(e) && j <= |e.cols| && (k !in e.rows || g !in e.cols)
    ensures ElemSum(e, j, k, g) == 0.0
  {
    if j > 0 {
      ElemElsewhere(e, j - 1, k, g);
      ColumnElsewhere(e, j - 1, |e.rows|, k, g);
    }
  }

  function ScatteredAll(elems: seq<Elem>, k: nat, g: nat): real {
    if elems == [] then 0.0
    else ScatteredAll(elems[..|elems| - 1], k, g) + Scattered(elems[|elems| - 1], k, g)
  }

  lemma {:induction false} ColumnTotal(e: Elem, j: nat, i: nat, k: nat, g: nat)
    requires Filled(e) && j < |e.cols| && i <= |e.rows|
    ensures Total(ColumnTriplets(e, j, i), k, g) == ColumnSum(e, j, i, k, g)
    decreases i
  {
    if i > 0 {
      ColumnTotal(e, j, i - 1, k, g);
      var t := ColumnTriplets(e, j, i);
      assert t[..|t| - 1] == ColumnTriplets(e, j, i - 1);
    }
  }

  lemma {:induction false} ElemTotal(e: Elem, j: nat, k: nat, g: nat)
    requires Filled(e) && j <= |e.cols|
    ensures Total(ElemTriplets(e, j), k, g) == ElemSum(e, j, k, g)
    decreases j
  {
    if j > 0 {
      ElemTotal(e, j - 1, k, g);
      ColumnTotal(e, j - 1, |e.rows|, k, g);
      TotalConcat(ElemTriplets(e, j - 1), ColumnTriplets(e, j - 1, |e.rows|), k, g);
    }
  }

  /** The triplets denote the sum of the scattered element matrices. */
  lemma {:induction false} TripletsTotal(elems: seq<Elem>, k: nat, g: nat)
    requires AllFilled(elems)
    ensures Total(Triplets(elems), k, g) == ScatteredAll(elems, k, g)
  {
    if elems != [] {
      var (m, e) := (|elems| - 1, elems[|elems| - 1]);
      TripletsTotal(elems[..m], k, g);
      ElemTotal(e, |e.cols|, k, g);
      TotalConcat(Triplets(elems[..m]), ElemTriplets(e, |e.cols|), k, g);
    }
  }

  // ----- receiving

  /** What one rank sends to another: test element positions, matrix sizes, trial dofs and values. */
  datatype Message = Message(offs: seq<nat>, sizes: seq<(nat, nat)>, dofs: seq<nat>, vals: seq<real>)

  function ColsOf(elems: seq<Elem>): (r: seq<seq<nat>>)
    ensures |r| == |elems| && forall k :: 0 <= k < |elems| ==> r[k] == elems[k].cols
  {
    seq(|elems|, k requires 0 <= k < |elems| => elems[k].cols)
  }

  function ValsOf(elems: seq<Elem>): (r: seq<seq<real>>)
    ensures |r| == |elems| && forall k :: 0 <= k < |elems| ==> r[k] == elems[k].vals
  {
    seq(|elems|, k requires 0 <= k < |elems| => elems[k].vals)
  }

  /** The message carries these element matrices; the rows are looked up in the receiver's table. */
  ghost predicate Carries(msg: Message, list: seq<Entity>, table: seq<seq<nat>>, elems: seq<Elem>) {
    && AllFilled(elems) && |msg.offs| == |msg.sizes| == |elems|
    && msg.dofs == Concat(ColsOf(elems)) && msg.vals == Concat(ValsOf(elems))
    && forall k :: 0 <= k < |elems| ==> CarriesAt(msg, list, table, elems, k)
  }

  ghost predicate CarriesAt(msg: Message, list: seq<Entity>, table: seq<seq<nat>>, elems: seq<Elem>, k: nat)
    requires |msg.offs| == |msg.sizes| == |elems| && k < |elems|
  {
    && msg.offs[k] < |list| && list[msg.offs[k]].index < |table|
    && elems[k].rows == table[list[msg.offs[k]].index] && msg.sizes[k] == (|elems[k].rows|, |elems[k].cols|)
  }

  lemma NextValue(e: Elem, j: nat, i: nat, vals: seq<real>, at: nat)
    requires Filled(e) && j < |e.cols| && i < |e.rows|
    requires at + |e.vals| <= |vals| && vals[at..at + |e.vals|] == e.vals
    ensures at + i + j * |e.rows| < |vals|
    ensures ColumnTriplets(e, j, i + 1)
         == ColumnTriplets(e, j, i) + [Triplet(e.rows[i], e.cols[j], vals[at + i + j * |e.rows|])]
  {
    ValueInRange(e, j, i);
    assert vals[at + (i + j * |e.rows|)] == e.vals[i + j * |e.rows|];
  }

  /** The loop over the rows of one column. */
  method AddColumn(rows: seq<nat>, col: nat, vals: seq<real>, at: nat, ghost e: Elem, j: nat, triplets0: seq<Triplet>)
    returns (triplets: seq<Triplet>)
    requires Filled(e) && rows == e.rows && j < |e.cols| && col == e.cols[j]
    requires at + |e.vals| <= |vals| && vals[at..at + |e.vals|] == e.vals
    ensures triplets == triplets0 + ColumnTriplets(e, j, |e.rows|)
  {
    triplets := triplets0;
    assert triplets == triplets0 + ColumnTriplets(e, j, 0);
    hide ColumnTriplets;
    hide Filled;
    for i := 0 to |rows|
      invariant triplets == triplets0 + ColumnTriplets(e, j, i)
    {
      NextValue(e, j, i, vals, at);
      triplets := triplets + [Triplet(rows[i], col, vals[at + i + j * |rows|])];
    }
  }

  /** The loop over the columns of one element matrix. */
  method AddElement(rows: seq<nat>, cols: seq<nat>, vals: seq<real>, at: nat, ghost e: Elem, triplets0: seq<Triplet>)
    returns (triplets: seq<Triplet>)
    requires Filled(e) && rows == e.rows && cols == e.cols
    requires at + |e.vals| <= |vals| && vals[at..at + |e.vals|] == e.vals
    ensures triplets == triplets0 + ElemTriplets(e, |e.cols|)
  {
    hide ColumnTriplets;
    hide Filled;
    triplets := triplets0;
    for j := 0 to |cols|
      invariant triplets == triplets0 + ElemTriplets(e, j)
    {
      triplets := AddColumn(rows, cols[j], vals, at, e, j, triplets);
    }
  }

  lemma {:induction false} NoDofsNoTriplets(elems: seq<Elem>)
    requires AllFilled(elems) && Concat(ColsOf(elems)) == []
    ensures Triplets(elems) == []
  {
    if elems != [] {
      var m := |elems| - 1;
      assert ColsOf(elems)[..m] == ColsOf(elems[..m]);
      NoDofsNoTriplets(elems[..m]);
    }
  }

  /** process_recv: the triplets of the received element matrices; a message without trial dofs is skipped. */
  method ReceiveMessage(msg: Message, list: seq<Entity>, table: seq<seq<nat>>, ghost elems: seq<Elem>,
                        triplets0: seq<Triplet>) returns (triplets: seq<Triplet>)
    requires Carries(msg, list, table, elems)
    ensures triplets == triplets0 + Triplets(elems)
  {
    hide ElemTriplets;
    hide Filled;
    hide CarriesAt;
    hide CountsAt;
    triplets := triplets0;
    if msg.dofs == [] {
      NoDofsNoTriplets(elems);
      return;
    }
    var trialCount, dofCount := 0, 0;
    CountsBegin(elems);
    for k := 0 to |msg.offs|
      invariant CountsAt(elems, k, trialCount, dofCount)
      invariant triplets == triplets0 + Triplets(elems[..k])
    {
      TripletsSnoc(elems, k);
      triplets, trialCount, dofCount := ReceiveElement(msg, list, table, elems, k, trialCount, dofCount, triplets);
    }
    assert elems[..|elems|] == elems;
  }

  /** Where the trial dofs and the values of element k start. */
  ghost predicate CountsAt(elems: seq<Elem>, k: nat, trialCount: nat, dofCount: nat) {
    k <= |elems| && trialCount == |Concat(ColsOf(elems)[..k])| && dofCount == |Concat(ValsOf(elems)[..k])|
  }

  lemma CountsBegin(elems: seq<Elem>)
    ensures CountsAt(elems, 0, 0, 0)
  {
  }

  lemma TripletsSnoc(elems: seq<Elem>, k: nat)
    requires AllFilled(elems) && k < |elems|
    ensures Triplets(elems[..k + 1]) == Triplets(elems[..k]) + ElemTriplets(elems[k], |elems[k].cols|)
  {
    assert elems[..k + 1][..k] == elems[..k];
  }

  /** The element loop body. */
  method ReceiveElement(msg: Message, list: seq<Entity>, table: seq<seq<nat>>, ghost elems: seq<Elem>, k: nat,
                        trialCount0: nat, dofCount0: nat, triplets0: seq<Triplet>)
    returns (triplets: seq<Triplet>, trialCount: nat, dofCount: nat)
    requires Carries(msg, list, table, elems) && k < |elems| && CountsAt(elems, k, trialCount0, dofCount0)
    ensures CountsAt(elems, k + 1, trialCount, dofCount)
    ensures triplets == triplets0 + ElemTriplets(elems[k], |elems[k].cols|)
  {
    assert CarriesAt(msg, list, table, elems, k) && Filled(elems[k]);
    ConcatAt(ColsOf(elems), k);
    ConcatAt(ValsOf(elems), k);
    var rows := table[list[msg.offs[k]].index];
    var cols := msg.dofs[trialCount0..trialCount0 + msg.sizes[k].1];
    triplets := AddElement(rows, cols, msg.vals, dofCount0, elems[k], triplets0);
    VolumeIsProduct(msg.sizes[k].0, msg.sizes[k].1);
    trialCount := trialCount0 + msg.sizes[k].1;
    dofCount := dofCount0 + msg.sizes[k].0 * msg.sizes[k].1;
  }
}

/** Sums over the rounds of the exchange. */
module RoundSums {
  import opened Exchange
  import opened TripletMerge
  import opened ElementMatrices

  /** The i-th message that rank me processes in a call of SendRecvEach: the messages of the rounds first, and
      its own one at the end. */
  function Nth(n: nat, me: nat, i: nat): (q: nat)
    requires me < n && i < n
    ensures q < n
  {
    if i == n - 1 then me
    else
      RoundsPair(n, me, i + 1);
      Source(n, me, i + 1)
  }

  /** This is the order of the log of the exchange. */
  lemma NthIsLogged<T>(n: nat, payload: Payload<T>, me: nat, c: nat, i: nat)
    requires me < n && i < n
    ensures i < |CallLog(n, payload, me, c)| && CallLog(n, payload, me, c)[i].source == Nth(n, me, i)
  {
    if i < n - 1 { RoundsLogAt(n, payload, me, c, n - 1, i); }
  }

  /** Sums over the messages in this order and over the ranks. */
  function RoundsSum(f: nat -> real, n: nat, me: nat, m: nat): real
    requires me < n && m <= n
  {
    if m == 0 then 0.0 else RoundsSum(f, n, me, m - 1) + f(Nth(n, me, m - 1))
  }

  function RanksSum(f: nat -> real, m: nat): real {
    if m == 0 then 0.0 else RanksSum(f, m - 1) + f(m - 1)
  }

  /** The first rounds go down from the rank below this one to rank 0, the others down from the last rank. */
  lemma {:induction false} RoundsSoFar(f: nat -> real, n: nat, me: nat, m: nat)
    requires me < n && m < n
    ensures RoundsSum(f, n, me, m)
         == if m <= me then RanksSum(f, me) - RanksSum(f, me - m)
            else RanksSum(f, me) + RanksSum(f, n) - RanksSum(f, n + me - m)
    decreases m
  {
    if m > 0 {
      RoundsSoFar(f, n, me, m - 1);
      ModOnce(me + n - m, n);
    }
  }

  /** Every rank is a source exactly once, so that the order of the messages does not matter for the sum. */
  lemma RoundsCoverRanks(f: nat -> real, n: nat, me: nat)
    requires me < n
    ensures RoundsSum(f, n, me, n) == RanksSum(f, n)
  {
    RoundsSoFar(f, n, me, n - 1);
  }

  /** elems[q] are the element matrices that rank q sends to rank me. */
  predicate Receivable(n: nat, me: nat, elems: seq<seq<Elem>>) {
    me < n && |elems| == n && forall q :: 0 <= q < n ==> AllFilled(elems[q])
  }

  /** The triplets that rank me has after m messages. */
  function Arrived(n: nat, me: nat, elems: seq<seq<Elem>>, m: nat): seq<Triplet>
    requires Receivable(n, me, elems) && m <= n
  {
    if m == 0 then [] else Arrived(n, me, elems, m - 1) + Triplets(elems[Nth(n, me, m - 1)])
  }

  function FromRank(elems: seq<seq<Elem>>, k: nat, g: nat): nat -> real {
    (q: nat) => if q < |elems| then ScatteredAll(elems[q], k, g) else 0.0
  }

  lemma {:induction false} ArrivedTotal(n: nat, me: nat, elems: seq<seq<Elem>>, m: nat, k: nat, g: nat)
    requires Receivable(n, me, elems) && m <= n
    ensures Total(Arrived(n, me, elems, m), k, g) == RoundsSum(FromRank(elems, k, g), n, me, m)
    decreases m
  {
    if m > 0 {
      ArrivedTotal(n, me, elems, m - 1, k, g);
      var q := Nth(n, me, m - 1);
      TripletsTotal(elems[q], k, g);
      TotalConcat(Arrived(n, me, elems, m - 1), Triplets(elems[q]), k, g);
    }
  }

  /** All triplets together denote the sum over all ranks. */
  lemma AllArrivedTotal(n: nat, me: nat, elems: seq<seq<Elem>>, k: nat, g: nat)
    requires Receivable(n, me, elems)
    ensures Total(Arrived(n, me, elems, n), k, g) == RanksSum(FromRank(elems, k, g), n)
  {
    ArrivedTotal(n, me, elems, n, k, g);
    RoundsCoverRanks(FromRank(elems, k, g), n, me);
  }
}
