/** What TransferByNodes and TransferByElements of src/redecomp/transfer have in common: values are read
    at a list of vector dofs, exchanged, and written at another list of vector dofs, block by block. */
module VDofTransfer {
  import opened Exchange

  /** One list of vector dofs for each pair of ranks. */
  type DofLists = seq<seq<seq<nat>>>

  predicate InBounds(dofs: seq<nat>, size: nat) {
    forall k :: 0 <= k < |dofs| ==> dofs[k] < size
  }

  /** GetSubVector. */
  function Take<T>(src: seq<T>, dofs: seq<nat>): (r: seq<T>)
    requires InBounds(dofs, |src|)
    ensures |r| == |dofs|
  {
    seq(|dofs|, k requires 0 <= k < |dofs| => src[dofs[k]])
  }

  /** SetSubVector: writes in list order, so that the last write to a dof stays. */
  function Put<T>(dst: seq<T>, dofs: seq<nat>, vals: seq<T>): (r: seq<T>)
    requires |vals| == |dofs| && InBounds(dofs, |dst|)
    ensures |r| == |dst|
  {
    if dofs == [] then dst
    else
      var k := |dofs| - 1;
      Put(dst, dofs[..k], vals[..k])[dofs[k] := vals[k]]
  }

  /** When all writes to dof x agree on its value y, x ends up with y if it is written at all. */
  lemma {:induction false} PutAgreeing<T>(dst: seq<T>, dofs: seq<nat>, vals: seq<T>, x: nat, y: T)
    requires |vals| == |dofs| && InBounds(dofs, |dst|) && x < |dst|
    requires forall k :: 0 <= k < |dofs| && dofs[k] == x ==> vals[k] == y
    ensures Put(dst, dofs, vals)[x] == if x in dofs then y else dst[x]
  {
    if dofs != [] {
      var k := |dofs| - 1;
      PutAgreeing(dst, dofs[..k], vals[..k], x, y);
      assert dofs == dofs[..k] + [dofs[k]];
    }
  }

  /** The lists fit the vectors: send[a][b] indexes rank a's source, recv[b][a] rank b's destination. */
  predicate Matched<T>(n: nat, send: DofLists, recv: DofLists, src: seq<seq<T>>, dst: seq<seq<T>>) {
    && Square(n, send) && Square(n, recv) && |src| == |dst| == n
    && forall a, b :: 0 <= a < n && 0 <= b < n ==> MatchedAt(send, recv, src, dst, a, b)
  }

  predicate MatchedAt<T>(send: DofLists, recv: DofLists, src: seq<seq<T>>, dst: seq<seq<T>>, a: nat, b: nat)
    requires a < |send| && b < |send[a]| && b < |recv| && a < |recv[b]| && a < |src| && b < |dst|
  {
    |send[a][b]| == |recv[b][a]| && InBounds(send[a][b], |src[a]|) && InBounds(recv[b][a], |dst[b]|)
  }

  /** What is to be on rank b after the blocks of the first a ranks. */
  function Moved<T>(n: nat, send: DofLists, recv: DofLists, src: seq<seq<T>>, dst: seq<seq<T>>, b: nat, a: nat)
    : (r: seq<T>)
    requires Matched(n, send, recv, src, dst) && b < n && a <= n
    ensures |r| == |dst[b]|
  {
    if a == 0 then dst[b]
    else
      assert MatchedAt(send, recv, src, dst, a - 1, b);
      Put(Moved(n, send, recv, src, dst, b, a - 1), recv[b][a - 1], Take(src[a - 1], send[a - 1][b]))
  }

  /** The exchange on all ranks: every rank sends what it reads at its lists, and writes what it receives
      at its lists, source rank after source rank. */
  method Move<T>(n: nat, send: DofLists, recv: DofLists, src: seq<seq<T>>, dst0: seq<seq<T>>)
    returns (dst: seq<seq<T>>)
    requires Matched(n, send, recv, src, dst0)
    ensures |dst| == n && forall b :: 0 <= b < n ==> dst[b] == Moved(n, send, recv, src, dst0, b, n)
  {
    var sent: seq<seq<seq<T>>> := [];
    for a := 0 to n
      invariant |sent| == a && forall c :: 0 <= c < a ==> SentBy(n, send, recv, src, dst0, c, sent[c])
    {
      var row := ReadRow(n, send, recv, src, dst0, a);
      sent := sent + [row];
    }
    forall c | 0 <= c < n ensures |sent[c]| == n { assert SentBy(n, send, recv, src, dst0, c, sent[c]); }
    var received := Transpose(n, sent);
    dst := [];
    for b := 0 to n
      invariant |dst| == b && forall c :: 0 <= c < b ==> dst[c] == Moved(n, send, recv, src, dst0, c, n)
    {
      forall a | 0 <= a < n ensures IsSent(n, send, recv, src, dst0, a, b, received[b][a]) {
        assert SentBy(n, send, recv, src, dst0, a, sent[a]);
      }
      var vector := WriteBlocks(n, send, recv, src, dst0, b, received[b]);
      dst := dst + [vector];
    }
  }

  ghost predicate IsSent<T>(n: nat, send: DofLists, recv: DofLists, src: seq<seq<T>>, dst: seq<seq<T>>, a: nat, b: nat,
                            buffer: seq<T>)
    requires Matched(n, send, recv, src, dst) && a < n && b < n
  {
    assert MatchedAt(send, recv, src, dst, a, b);
    buffer == Take(src[a], send[a][b])
  }

  ghost predicate SentBy<T>(n: nat, send: DofLists, recv: DofLists, src: seq<seq<T>>, dst: seq<seq<T>>, a: nat,
                            row: seq<seq<T>>)
    requires Matched(n, send, recv, src, dst) && a < n
  {
    |row| == n && forall b :: 0 <= b < n ==> IsSent(n, send, recv, src, dst, a, b, row[b])
  }

  method ReadRow<T>(n: nat, send: DofLists, ghost recv: DofLists, src: seq<seq<T>>, ghost dst: seq<seq<T>>, a: nat)
    returns (row: seq<seq<T>>)
    requires Matched(n, send, recv, src, dst) && a < n
    ensures SentBy(n, send, recv, src, dst, a, row)
  {
    row := [];
    for b := 0 to n
      invariant |row| == b && forall c :: 0 <= c < b ==> IsSent(n, send, recv, src, dst, a, c, row[c])
    {
      assert MatchedAt(send, recv, src, dst, a, b);
      row := row + [Take(src[a], send[a][b])];
    }
  }

  method WriteBlocks<T>(n: nat, ghost send: DofLists, recv: DofLists, ghost src: seq<seq<T>>, dst0: seq<seq<T>>, b: nat,
                        received: seq<seq<T>>) returns (dst: seq<T>)
    requires Matched(n, send, recv, src, dst0) && b < n && |received| == n
    requires forall a :: 0 <= a < n ==> IsSent(n, send, recv, src, dst0, a, b, received[a])
    ensures dst == Moved(n, send, recv, src, dst0, b, n)
  {
    dst := dst0[b];
    for a := 0 to n
      invariant dst == Moved(n, send, recv, src, dst0, b, a)
    {
      assert MatchedAt(send, recv, src, dst0, a, b) && IsSent(n, send, recv, src, dst0, a, b, received[a]);
      dst := Put(dst, recv[b][a], received[a]);
    }
  }

  /** Every value that rank b is sent agrees with one assignment of values to its dofs. */
  ghost predicate Agreeing<T>(n: nat, send: DofLists, recv: DofLists, src: seq<seq<T>>, dst: seq<seq<T>>, b: nat,
                              value: nat -> T)
    requires Matched(n, send, recv, src, dst) && b < n
  {
    forall a :: 0 <= a < n ==> AgreeingBlock(n, send, recv, src, dst, b, value, a)
  }

  ghost predicate AgreeingBlock<T>(n: nat, send: DofLists, recv: DofLists, src: seq<seq<T>>, dst: seq<seq<T>>, b: nat,
                                   value: nat -> T, a: nat)
    requires Matched(n, send, recv, src, dst) && b < n && a < n
  {
    assert MatchedAt(send, recv, src, dst, a, b);
    forall k :: 0 <= k < |send[a][b]| ==> src[a][send[a][b][k]] == value(recv[b][a][k])
  }

  /** Then every dof that is written ends up with its value. */
  lemma {:induction false} MovedValues<T>(n: nat, send: DofLists, recv: DofLists, src: seq<seq<T>>, dst: seq<seq<T>>,
                                          b: nat, a: nat, value: nat -> T, x: nat)
    requires Matched(n, send, recv, src, dst) && b < n && a <= n && x < |dst[b]|
    requires Agreeing(n, send, recv, src, dst, b, value)
    ensures Moved(n, send, recv, src, dst, b, a)[x]
         == if exists c :: 0 <= c < a && x in recv[b][c] then value(x) else dst[b][x]
  {
    if a > 0 {
      MovedValues(n, send, recv, src, dst, b, a - 1, value, x);
      assert MatchedAt(send, recv, src, dst, a - 1, b);
      assert AgreeingBlock(n, send, recv, src, dst, b, value, a - 1);
      PutAgreeing(Moved(n, send, recv, src, dst, b, a - 1), recv[b][a - 1], Take(src[a - 1], send[a - 1][b]), x, value(x));
    }
  }

  // ----- there and back

  /** Each pair of dofs of the way back is a pair of the way there, with the roles exchanged. */
  ghost predicate ReturnsAlong(there: seq<nat>, arrived: seq<nat>, leaving: seq<nat>, back: seq<nat>) {
    && |there| == |arrived| && |leaving| == |back|
    && forall k :: 0 <= k < |back| ==> Pairs(there, arrived, back[k], leaving[k])
  }

  ghost predicate Pairs(there: seq<nat>, arrived: seq<nat>, x: nat, y: nat)
    requires |there| == |arrived|
  {
    exists m :: 0 <= m < |there| && there[m] == x && arrived[m] == y
  }

  /** The lists of the four loops: from parent to redecomp (send, recv) and back (resend, rerecv). */
  datatype Route = Route(send: DofLists, recv: DofLists, resend: DofLists, rerecv: DofLists)

  ghost predicate RoundTrips<T>(n: nat, r: Route, src: seq<seq<T>>, redecomp: seq<seq<T>>, dst: seq<seq<T>>) {
    && Matched(n, r.send, r.recv, src, redecomp) && Matched(n, r.resend, r.rerecv, redecomp, dst)
    && (forall p :: 0 <= p < n ==> |src[p]| == |dst[p]|)
    && forall p, q :: 0 <= p < n && 0 <= q < n ==> Returns(r, p, q)
  }

  ghost predicate Returns(r: Route, p: nat, q: nat)
    requires p < |r.send| && q < |r.send[p]| && q < |r.recv| && p < |r.recv[q]|
    requires q < |r.resend| && p < |r.resend[q]| && p < |r.rerecv| && q < |r.rerecv[p]|
  {
    ReturnsAlong(r.send[p][q], r.recv[q][p], r.resend[q][p], r.rerecv[p][q])
  }

  /** The values that come back to parent rank p are its own. */
  lemma ReturnedValues<T>(n: nat, r: Route, src: seq<seq<T>>, redecomp0: seq<seq<T>>, redecomp: seq<seq<T>>,
                          dst: seq<seq<T>>, value: nat -> nat -> T, p: nat, q: nat, k: nat)
    requires Matched(n, r.send, r.recv, src, redecomp0) && RoundTrips(n, r, src, redecomp, dst)
    requires forall b :: 0 <= b < n ==> Agreeing(n, r.send, r.recv, src, redecomp0, b, value(b))
    requires forall b :: 0 <= b < n ==> redecomp[b] == Moved(n, r.send, r.recv, src, redecomp0, b, n)
    requires p < n && q < n && k < |r.rerecv[p][q]|
    ensures r.rerecv[p][q][k] < |src[p]| && k < |r.resend[q][p]| && r.resend[q][p][k] < |redecomp[q]|
    ensures redecomp[q][r.resend[q][p][k]] == src[p][r.rerecv[p][q][k]]
  {
    assert Returns(r, p, q) && MatchedAt(r.send, r.recv, src, redecomp, p, q);
    assert MatchedAt(r.resend, r.rerecv, redecomp, dst, q, p);
    assert Pairs(r.send[p][q], r.recv[q][p], r.rerecv[p][q][k], r.resend[q][p][k]);
    var m :| 0 <= m < |r.send[p][q]| && r.send[p][q][m] == r.rerecv[p][q][k] && r.recv[q][p][m] == r.resend[q][p][k];
    var x := r.recv[q][p][m];
    assert AgreeingBlock(n, r.send, r.recv, src, redecomp0, q, value(q), p);
    assert src[p][r.send[p][q][m]] == value(q)(x);
    assert x in r.recv[q][p];
    MovedValues(n, r.send, r.recv, src, redecomp0, q, n, value(q), x);
  }

  /** Round trip: a parent dof gets its value back exactly when some redecomp rank sends it back, and
      otherwise keeps what was there before. */
  lemma RoundTripValues<T>(n: nat, r: Route, src: seq<seq<T>>, redecomp0: seq<seq<T>>, redecomp: seq<seq<T>>,
                           dst: seq<seq<T>>, value: nat -> nat -> T, p: nat, x: nat)
    requires Matched(n, r.send, r.recv, src, redecomp0) && RoundTrips(n, r, src, redecomp, dst)
    requires forall b :: 0 <= b < n ==> Agreeing(n, r.send, r.recv, src, redecomp0, b, value(b))
    requires forall b :: 0 <= b < n ==> redecomp[b] == Moved(n, r.send, r.recv, src, redecomp0, b, n)
    requires p < n && x < |src[p]|
    ensures Moved(n, r.resend, r.rerecv, redecomp, dst, p, n)[x]
         == if exists q :: 0 <= q < n && x in r.rerecv[p][q] then src[p][x] else dst[p][x]
  {
    var own := (y: nat) => if y < |src[p]| then src[p][y] else src[p][x];
    forall q | 0 <= q < n ensures AgreeingBlock(n, r.resend, r.rerecv, redecomp, dst, p, own, q) {
      assert MatchedAt(r.resend, r.rerecv, redecomp, dst, q, p);
      forall k | 0 <= k < |r.resend[q][p]|
        ensures redecomp[q][r.resend[q][p][k]] == own(r.rerecv[p][q][k])
      {
        ReturnedValues(n, r, src, redecomp0, redecomp, dst, value, p, q, k);
      }
    }
    MovedValues(n, r.resend, r.rerecv, redecomp, dst, p, n, own, x);
  }
}
