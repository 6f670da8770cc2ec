/** TransferByElements of src/redecomp/transfer: the exchange of VDofTransfer with the vector dofs of whole
    elements. */
module ElementTransfer {
  import opened Exchange
  import opened RCBPartition
  import opened Redecomp
  import opened FieldTransfer
  import opened VDofTransfer

  /** Appends the vector dofs of the elements without ghost mark; on the parent side by the flags. */
  method ListOwned(table: seq<seq<nat>>, list: seq<Entity>) returns (dofs: seq<nat>)
    requires FieldTransfer.InRange(list, |table|)
    ensures dofs == Concat(Owned(Values(table, list), list))
  {
    dofs := [];
    ghost var vals := Values(table, list);
    for e := 0 to |list|
      invariant dofs == Concat(Owned(vals[..e], list[..e]))
    {
      OwnedSnoc(vals, list, e);
      if !list[e].isGhost {
        dofs := dofs + table[list[e].index];
      }
    }
    assert vals[..|list|] == vals && list[..|list|] == list;
  }

  lemma PairsGrow(a: seq<nat>, b: seq<nat>, c: seq<nat>, d: seq<nat>, x: nat, y: nat)
    requires |a| == |b| && |c| == |d|
    ensures VDofTransfer.Pairs(a, b, x, y) || VDofTransfer.Pairs(c, d, x, y) ==> VDofTransfer.Pairs(a + c, b + d, x, y)
  {
    if VDofTransfer.Pairs(a, b, x, y) {
      var m :| 0 <= m < |a| && a[m] == x && b[m] == y;
      assert (a + c)[m] == x && (b + d)[m] == y;
    }
    if VDofTransfer.Pairs(c, d, x, y) {
      var m :| 0 <= m < |c| && c[m] == x && d[m] == y;
      assert (a + c)[|a| + m] == x && (b + d)[|b| + m] == y;
    }
  }

  lemma ReturnsAppend(there: seq<nat>, arrived: seq<nat>, leaving: seq<nat>, back: seq<nat>, x: seq<nat>, y: seq<nat>,
                      own: bool)
    requires ReturnsAlong(there, arrived, leaving, back) && |x| == |y|
    ensures ReturnsAlong(there + x, arrived + y, leaving + if own then y else [], back + if own then x else [])
  {
    var (l, b) := (leaving + if own then y else [], back + if own then x else []);
    forall k | 0 <= k < |b| ensures VDofTransfer.Pairs(there + x, arrived + y, b[k], l[k]) {
      PairsGrow(there, arrived, x, y, b[k], l[k]);
      if k < |back| {
        assert VDofTransfer.Pairs(there, arrived, back[k], leaving[k]);
      } else {
        var m := k - |back|;
        assert x[m] == b[k] && y[m] == l[k];
      }
    }
  }

  lemma OwnedLast(vals: seq<seq<nat>>, list: seq<Entity>)
    requires |vals| == |list| > 0
    ensures var k := |list| - 1;
      && Concat(vals) == Concat(vals[..k]) + vals[k]
      && Concat(Owned(vals, list)) == Concat(Owned(vals[..k], list[..k])) + if !list[k].isGhost then vals[k] else []
  {
    OwnedSnoc(vals, list, |list| - 1);
    assert list[..|list|] == list && vals[..|list|] == vals;
  }

  /** x is a dof of an element of the list that carries no ghost mark. */
  ghost predicate OwnsDof(table: seq<seq<nat>>, list: seq<Entity>, x: nat) {
    exists k :: 0 <= k < |list| && !list[k].isGhost && list[k].index < |table| && x in table[list[k].index]
  }

  lemma {:induction false} OwnedDofs(table: seq<seq<nat>>, list: seq<Entity>, x: nat)
    requires FieldTransfer.InRange(list, |table|)
    ensures x in Concat(Owned(Values(table, list), list)) <==> OwnsDof(table, list, x)
  {
    if list != [] {
      var (k, vals) := (|list| - 1, Values(table, list));
      OwnedDofs(table, list[..k], x);
      assert vals[..k] == Values(table, list[..k]);
      OwnedLast(vals, list);
      OwnsDofSnoc(table, list, x);
    }
  }

  lemma OwnsDofSnoc(table: seq<seq<nat>>, list: seq<Entity>, x: nat)
    requires FieldTransfer.InRange(list, |table|) && list != []
    ensures var e := list[|list| - 1];
      OwnsDof(table, list, x) <==> OwnsDof(table, list[..|list| - 1], x) || (!e.isGhost && x in table[e.index])
  {
    assert list == list[..|list| - 1] + [list[|list| - 1]];
  }

  /** The dofs of the owned elements return along the dofs of all elements, on both sides element by element. */
  lemma {:induction false} ElementsReturnAlong(parent: seq<seq<nat>>, redecomp: seq<seq<nat>>, list: seq<Entity>)
    requires |parent| == |list| && SameShape(parent, redecomp)
    ensures ReturnsAlong(Concat(parent), Concat(redecomp), Concat(Owned(redecomp, list)), Concat(Owned(parent, list)))
  {
    if list != [] {
      var k := |list| - 1;
      ElementsReturnAlong(parent[..k], redecomp[..k], list[..k]);
      OwnedLast(parent, list);
      OwnedLast(redecomp, list);
      ReturnsAppend(Concat(parent[..k]), Concat(redecomp[..k]), Concat(Owned(redecomp[..k], list[..k])),
                    Concat(Owned(parent[..k], list[..k])), parent[k], redecomp[k], !list[k].isGhost);
    }
  }

  // ----- the lists of the four loops

  /** The element lists, and the vector dofs of the elements of parent rank p and of redecomp rank q. */
  datatype Spaces = Spaces(n: nat, p2r: ElementLists, parent: seq<seq<seq<nat>>>, redecomp: seq<seq<seq<nat>>>)

  /** Redecomp elements have as many vector dofs as the parent elements that they stand for. */
  ghost predicate Conforming(s: Spaces) {
    && Listed(s.n, s.p2r, s.parent) && Blocked(s.n, s.p2r, s.redecomp)
    && forall p, q :: 0 <= p < s.n && 0 <= q < s.n ==> ConformingAt(s, p, q)
  }

  ghost predicate ConformingAt(s: Spaces, p: nat, q: nat)
    requires Listed(s.n, s.p2r, s.parent) && Blocked(s.n, s.p2r, s.redecomp) && p < s.n && q < s.n
  {
    SameShape(Values(s.parent[p], s.p2r[p][q]), Block(s.n, s.p2r, s.redecomp, q, p))
  }

  /** The lists of a pair of ranks: all dofs of the listed elements there, those of the owned ones back. */
  ghost predicate RouteAt(s: Spaces, r: Route, p: nat, q: nat)
    requires Listed(s.n, s.p2r, s.parent) && Blocked(s.n, s.p2r, s.redecomp) && p < s.n && q < s.n
    requires Square(s.n, r.send) && Square(s.n, r.recv) && Square(s.n, r.resend) && Square(s.n, r.rerecv)
  {
    && r.send[p][q] == SerialBuffer(s.n, s.p2r, s.parent, p, q)
    && r.recv[q][p] == Concat(Block(s.n, s.p2r, s.redecomp, q, p))
    && r.resend[q][p] == ParallelBuffer(s.n, s.p2r, s.redecomp, q, p)
    && r.rerecv[p][q] == OwnedList(s, p, q)
  }

  function OwnedList(s: Spaces, p: nat, q: nat): seq<nat>
    requires Listed(s.n, s.p2r, s.parent) && p < s.n && q < s.n
  {
    Concat(Owned(Values(s.parent[p], s.p2r[p][q]), s.p2r[p][q]))
  }

  ghost function RouteOf(s: Spaces): (r: Route)
    requires Conforming(s)
    ensures Square(s.n, r.send) && Square(s.n, r.recv) && Square(s.n, r.resend) && Square(s.n, r.rerecv)
    ensures forall p, q :: 0 <= p < s.n && 0 <= q < s.n ==> RouteAt(s, r, p, q)
  {
    Route(seq(s.n, p requires 0 <= p < s.n => seq(s.n, q requires 0 <= q < s.n =>
            SerialBuffer(s.n, s.p2r, s.parent, p, q))),
          seq(s.n, q requires 0 <= q < s.n => seq(s.n, p requires 0 <= p < s.n =>
            Concat(Block(s.n, s.p2r, s.redecomp, q, p)))),
          seq(s.n, q requires 0 <= q < s.n => seq(s.n, p requires 0 <= p < s.n =>
            ParallelBuffer(s.n, s.p2r, s.redecomp, q, p))),
          seq(s.n, p requires 0 <= p < s.n => seq(s.n, q requires 0 <= q < s.n => OwnedList(s, p, q))))
  }

  /** Appends the vector dofs of the elements from first to last. */
  method ListBlock(table: seq<seq<nat>>, first: nat, last: nat) returns (dofs: seq<nat>)
    requires first <= last <= |table|
    ensures dofs == Concat(table[first..last])
  {
    dofs := [];
    ghost var block := table[first..last];
    for e := first to last
      invariant dofs == Concat(block[..e - first])
    {
      ConcatSnoc(block, e - first);
      dofs := dofs + table[e];
    }
    assert block[..|block|] == block;
  }

  /** What parent rank p reads for each redecomp rank; the loop of PackSerial, over dofs. */
  method SendTable(s: Spaces) returns (table: DofLists)
    requires Conforming(s)
    ensures table == RouteOf(s).send
  {
    table := [];
    for p := 0 to s.n
      invariant |table| == p && forall a :: 0 <= a < p ==> table[a] == RouteOf(s).send[a]
    {
      var row := PackSerialRow(s.n, s.p2r, s.parent, p);
      assert row == RouteOf(s).send[p] by { assert forall q :: 0 <= q < s.n ==> RouteAt(s, RouteOf(s), p, q); }
      table := table + [row];
    }
  }

  method RecvRow(s: Spaces, q: nat) returns (row: seq<seq<nat>>)
    requires Conforming(s) && q < s.n
    ensures row == RouteOf(s).recv[q]
  {
    var offsets := BuildElemOffsets(Sizes(s.n, s.p2r, q));
    row := [];
    for p := 0 to s.n
      invariant row == RouteOf(s).recv[q][..p]
    {
      assert RouteAt(s, RouteOf(s), p, q);
      SumToMonotone(Sizes(s.n, s.p2r, q), p + 1, s.n);
      var dofs := ListBlock(s.redecomp[q], offsets[p], offsets[p + 1]);
      row := row + [dofs];
    }
  }

  /** Where redecomp rank q writes what it receives. */
  method RecvTable(s: Spaces) returns (table: DofLists)
    requires Conforming(s)
    ensures table == RouteOf(s).recv
  {
    table := [];
    for q := 0 to s.n
      invariant table == RouteOf(s).recv[..q]
    {
      var row := RecvRow(s, q);
      table := table + [row];
    }
  }

  /** What redecomp rank q reads for each parent rank: its ghosts are skipped with a cursor; the loop of
      PackParallel, over dofs. */
  method ResendTable(s: Spaces) returns (table: DofLists)
    requires Conforming(s)
    ensures table == RouteOf(s).resend
  {
    table := [];
    for q := 0 to s.n
      invariant |table| == q && forall a :: 0 <= a < q ==> table[a] == RouteOf(s).resend[a]
    {
      var row := PackParallelRow(s.n, s.p2r, s.redecomp, q);
      assert row == RouteOf(s).resend[q] by { assert forall p :: 0 <= p < s.n ==> RouteAt(s, RouteOf(s), p, q); }
      table := table + [row];
    }
  }

  method RerecvRow(s: Spaces, p: nat) returns (row: seq<seq<nat>>)
    requires Conforming(s) && p < s.n
    ensures row == RouteOf(s).rerecv[p]
  {
    row := [];
    for q := 0 to s.n
      invariant row == RouteOf(s).rerecv[p][..q]
    {
      assert RouteAt(s, RouteOf(s), p, q);
      var dofs := ListOwned(s.parent[p], s.p2r[p][q]);
      row := row + [dofs];
    }
  }

  /** Where parent rank p writes what comes back: ghosts are skipped by their flags. */
  method RerecvTable(s: Spaces) returns (table: DofLists)
    requires Conforming(s)
    ensures table == RouteOf(s).rerecv
  {
    table := [];
    for p := 0 to s.n
      invariant table == RouteOf(s).rerecv[..p]
    {
      var row := RerecvRow(s, p);
      table := table + [row];
    }
  }

  // ----- the lists fit the vectors

  /** The dofs of the elements index the vector. */
  predicate TableFits(table: seq<seq<nat>>, size: nat) {
    forall e :: 0 <= e < |table| ==> InBounds(table[e], size)
  }

  /** Vectors of the sizes of the spaces. */
  ghost predicate Fit<T>(tables: seq<seq<seq<nat>>>, vectors: seq<seq<T>>) {
    |vectors| == |tables| && forall p :: 0 <= p < |tables| ==> TableFits(tables[p], |vectors[p]|)
  }

  lemma BoundsAppend(a: seq<nat>, b: seq<nat>, size: nat)
    ensures InBounds(a, size) && InBounds(b, size) ==> InBounds(a + b, size)
  {
  }

  lemma SliceFits(table: seq<seq<nat>>, first: nat, last: nat, size: nat)
    requires TableFits(table, size) && first <= last <= |table|
    ensures TableFits(table[first..last], size)
  {
    hide InBounds;
    assert forall e :: 0 <= e < last - first ==> table[first..last][e] == table[first + e];
  }

  lemma {:induction false} ConcatFits(table: seq<seq<nat>>, list: seq<Entity>, size: nat)
    requires TableFits(table, size) && |table| == |list|
    ensures InBounds(Concat(table), size) && InBounds(Concat(Owned(table, list)), size)
  {
    if table != [] {
      var k := |table| - 1;
      SliceFits(table, 0, k, size);
      ConcatFits(table[..k], list[..k], size);
      OwnedLast(table, list);
      BoundsAppend(Concat(table[..k]), table[k], size);
      BoundsAppend(Concat(Owned(table[..k], list[..k])), table[k], size);
      BoundsAppend(Concat(Owned(table[..k], list[..k])), [], size);
      hide InBounds;
      hide Owned;
      hide Concat;
    } else {
      assert Concat(table) == [] && Concat(Owned(table, list)) == [];
    }
  }

  lemma ValuesFit(table: seq<seq<nat>>, list: seq<Entity>, size: nat)
    requires TableFits(table, size) && FieldTransfer.InRange(list, |table|)
    ensures TableFits(Values(table, list), size)
  {
    hide InBounds;
  }

  lemma RouteFitsAt<T>(s: Spaces, r: Route, src: seq<seq<T>>, dst: seq<seq<T>>, p: nat, q: nat)
    requires Conforming(s) && p < s.n && q < s.n && Fit(s.parent, src) && Fit(s.redecomp, dst)
    requires Square(s.n, r.send) && Square(s.n, r.recv) && Square(s.n, r.resend) && Square(s.n, r.rerecv)
    requires RouteAt(s, r, p, q)
    ensures MatchedAt(r.send, r.recv, src, dst, p, q) && MatchedAt(r.resend, r.rerecv, dst, src, q, p)
    ensures Returns(r, p, q)
  {
    assert ConformingAt(s, p, q);
    var (list, a, b) := (s.p2r[p][q], Values(s.parent[p], s.p2r[p][q]), Block(s.n, s.p2r, s.redecomp, q, p));
    ValuesFit(s.parent[p], list, |src[p]|);
    ConcatFits(a, list, |src[p]|);
    SumToMonotone(Sizes(s.n, s.p2r, q), p, s.n);
    SumToMonotone(Sizes(s.n, s.p2r, q), p + 1, s.n);
    SliceFits(s.redecomp[q], Offset(s.n, s.p2r, q, p), Offset(s.n, s.p2r, q, p + 1), |dst[q]|);
    ConcatFits(b, list, |dst[q]|);
    ElementsReturnAlong(a, b, list);
  }

  lemma RouteFits<T>(s: Spaces, src: seq<seq<T>>, there: seq<seq<T>>, dst: seq<seq<T>>)
    requires Conforming(s) && Fit(s.parent, src) && Fit(s.redecomp, there) && Fit(s.parent, dst)
    ensures Matched(s.n, RouteOf(s).send, RouteOf(s).recv, src, there)
    ensures Matched(s.n, RouteOf(s).resend, RouteOf(s).rerecv, there, dst)
    ensures forall p, q :: 0 <= p < s.n && 0 <= q < s.n ==> Returns(RouteOf(s), p, q)
  {
    var r := RouteOf(s);
    forall p, q | 0 <= p < s.n && 0 <= q < s.n
      ensures MatchedAt(r.send, r.recv, src, there, p, q) && MatchedAt(r.resend, r.rerecv, there, dst, q, p)
      ensures Returns(r, p, q)
    {
      RouteFitsAt(s, r, src, there, p, q);
      RouteFitsAt(s, r, dst, there, p, q);
    }
  }

  // ----- the transfers

  method TransferToSerial<T>(s: Spaces, src: seq<seq<T>>, dst0: seq<seq<T>>) returns (dst: seq<seq<T>>)
    requires Conforming(s) && Fit(s.parent, src) && Fit(s.redecomp, dst0)
    ensures Matched(s.n, RouteOf(s).send, RouteOf(s).recv, src, dst0) && |dst| == s.n
    ensures forall q :: 0 <= q < s.n ==> dst[q] == Moved(s.n, RouteOf(s).send, RouteOf(s).recv, src, dst0, q, s.n)
  {
    var send := SendTable(s);
    var recv := RecvTable(s);
    RouteFits(s, src, dst0, src);
    dst := Move(s.n, send, recv, src, dst0);
  }

  method TransferToParallel<T>(s: Spaces, src: seq<seq<T>>, dst0: seq<seq<T>>) returns (dst: seq<seq<T>>)
    requires Conforming(s) && Fit(s.redecomp, src) && Fit(s.parent, dst0)
    ensures Matched(s.n, RouteOf(s).resend, RouteOf(s).rerecv, src, dst0) && |dst| == s.n
    ensures forall p :: 0 <= p < s.n ==> dst[p] == Moved(s.n, RouteOf(s).resend, RouteOf(s).rerecv, src, dst0, p, s.n)
  {
    var resend := ResendTable(s);
    var rerecv := RerecvTable(s);
    RouteFits(s, dst0, src, dst0);
    dst := Move(s.n, resend, rerecv, src, dst0);
  }

  // ----- there and back

  /** A conforming field: wherever redecomp rank q has the same dof twice, the parent values agree. */
  ghost predicate FieldAgrees<T>(s: Spaces, src: seq<seq<T>>, value: nat -> nat -> T)
    requires Conforming(s) && Fit(s.parent, src)
  {
    forall p, q :: 0 <= p < s.n && 0 <= q < s.n
      ==> FieldAgreesAt(Values(s.parent[p], s.p2r[p][q]), Block(s.n, s.p2r, s.redecomp, q, p), src[p], value(q))
  }

  ghost predicate FieldAgreesAt<T>(a: seq<seq<nat>>, b: seq<seq<nat>>, vector: seq<T>, value: nat -> T) {
    forall k :: 0 <= k < |a| && k < |b| ==> ValuesAgree(a[k], b[k], vector, value)
  }

  ghost predicate ValuesAgree<T>(a: seq<nat>, b: seq<nat>, vector: seq<T>, value: nat -> T) {
    |a| == |b| && forall j :: 0 <= j < |a| ==> a[j] < |vector| && vector[a[j]] == value(b[j])
  }

  lemma AgreeAppend<T>(a: seq<nat>, b: seq<nat>, c: seq<nat>, d: seq<nat>, vector: seq<T>, value: nat -> T)
    requires ValuesAgree(a, b, vector, value) && ValuesAgree(c, d, vector, value)
    ensures ValuesAgree(a + c, b + d, vector, value)
  {
  }

  lemma {:induction false} ConcatAgrees<T>(a: seq<seq<nat>>, b: seq<seq<nat>>, vector: seq<T>, value: nat -> T)
    requires |a| == |b| && FieldAgreesAt(a, b, vector, value)
    ensures ValuesAgree(Concat(a), Concat(b), vector, value)
  {
    if a != [] {
      var k := |a| - 1;
      ConcatAgrees(a[..k], b[..k], vector, value);
      AgreeAppend(Concat(a[..k]), Concat(b[..k]), a[k], b[k], vector, value);
    }
  }

  lemma ElementsAgree<T>(s: Spaces, src: seq<seq<T>>, there: seq<seq<T>>, value: nat -> nat -> T, q: nat)
    requires Conforming(s) && Fit(s.parent, src) && Fit(s.redecomp, there) && FieldAgrees(s, src, value) && q < s.n
    requires Matched(s.n, RouteOf(s).send, RouteOf(s).recv, src, there)
    ensures Agreeing(s.n, RouteOf(s).send, RouteOf(s).recv, src, there, q, value(q))
  {
    var r := RouteOf(s);
    forall p | 0 <= p < s.n ensures AgreeingBlock(s.n, r.send, r.recv, src, there, q, value(q), p) {
      assert ConformingAt(s, p, q) && RouteAt(s, r, p, q) && MatchedAt(r.send, r.recv, src, there, p, q);
      ConcatAgrees(Values(s.parent[p], s.p2r[p][q]), Block(s.n, s.p2r, s.redecomp, q, p), src[p], value(q));
    }
  }

  /** Some redecomp rank owns an element with dof x of parent rank p. */
  ghost predicate OwnedSomewhere(s: Spaces, p: nat, x: nat)
    requires Listed(s.n, s.p2r, s.parent) && p < s.n
  {
    exists q :: 0 <= q < s.n && OwnsDof(s.parent[p], s.p2r[p][q], x)
  }

  /** Round trip of TransferByElements: for a conforming field, a parent dof gets its value back exactly
      when it belongs to an element that some redecomp rank holds without ghost mark. */
  lemma ElementRoundTrip<T>(s: Spaces, src: seq<seq<T>>, there0: seq<seq<T>>, there: seq<seq<T>>, dst: seq<seq<T>>,
                            value: nat -> nat -> T, p: nat, x: nat)
    requires Conforming(s) && Fit(s.parent, src) && Fit(s.redecomp, there0) && Fit(s.redecomp, there)
    requires Fit(s.parent, dst) && FieldAgrees(s, src, value) && forall a :: 0 <= a < s.n ==> |src[a]| == |dst[a]|
    requires Matched(s.n, RouteOf(s).send, RouteOf(s).recv, src, there0)
    requires forall b :: 0 <= b < s.n
               ==> there[b] == Moved(s.n, RouteOf(s).send, RouteOf(s).recv, src, there0, b, s.n)
    requires p < s.n && x < |src[p]|
    ensures Matched(s.n, RouteOf(s).resend, RouteOf(s).rerecv, there, dst)
    ensures Moved(s.n, RouteOf(s).resend, RouteOf(s).rerecv, there, dst, p, s.n)[x]
         == if OwnedSomewhere(s, p, x) then src[p][x] else dst[p][x]
  {
    var r := RouteOf(s);
    RouteFits(s, src, there, dst);
    forall b | 0 <= b < s.n ensures Agreeing(s.n, r.send, r.recv, src, there0, b, value(b)) {
      ElementsAgree(s, src, there0, value, b);
    }
    RoundTripValues(s.n, r, src, there0, there, dst, value, p, x);
    forall q | 0 <= q < s.n ensures x in r.rerecv[p][q] <==> OwnsDof(s.parent[p], s.p2r[p][q], x) {
      assert RouteAt(s, r, p, q);
      OwnedDofs(s.parent[p], s.p2r[p][q], x);
    }
  }

  lemma MovedFits<T>(s: Spaces, src: seq<seq<T>>, there0: seq<seq<T>>, there: seq<seq<T>>)
    requires Conforming(s) && Fit(s.redecomp, there0) && Matched(s.n, RouteOf(s).send, RouteOf(s).recv, src, there0)
    requires |there| == s.n
    requires forall b :: 0 <= b < s.n
               ==> there[b] == Moved(s.n, RouteOf(s).send, RouteOf(s).recv, src, there0, b, s.n)
    ensures Fit(s.redecomp, there)
  {
  }

  /** Both transfers in sequence, on all ranks. */
  method RoundTrip<T>(s: Spaces, src: seq<seq<T>>, there0: seq<seq<T>>, dst0: seq<seq<T>>, ghost value: nat -> nat -> T)
    returns (dst: seq<seq<T>>)
    requires Conforming(s) && Fit(s.parent, src) && Fit(s.redecomp, there0) && Fit(s.parent, dst0)
    requires FieldAgrees(s, src, value) && forall a :: 0 <= a < s.n ==> |src[a]| == |dst0[a]|
    ensures |dst| == s.n
    ensures forall p, x :: 0 <= p < s.n && 0 <= x < |src[p]|
              ==> x < |dst[p]| && dst[p][x] == if OwnedSomewhere(s, p, x) then src[p][x] else dst0[p][x]
  {
    var there := TransferToSerial(s, src, there0);
    MovedFits(s, src, there0, there);
    dst := TransferToParallel(s, there, dst0);
    forall p, x | 0 <= p < s.n && 0 <= x < |src[p]|
      ensures x < |dst[p]| && dst[p][x] == if OwnedSomewhere(s, p, x) then src[p][x] else dst0[p][x]
    {
      ElementRoundTrip(s, src, there0, there, dst0, value, p, x);
    }
  }
}
