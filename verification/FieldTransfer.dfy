/** Element numbering of src/redecomp/RedecompMesh.cpp and the quadrature-field transfer of
    src/redecomp/RedecompTransfer.cpp. */
module Redecomp {
  import opened Exchange
  import opened RCBPartition

  /** p2r[p][q]: the elements that parent rank p sends to redecomp rank q, in order, with ghost marks. */
  type ElementLists = seq<seq<seq<Entity>>>

  /** Sum of the first k sizes. */
  function SumTo(sizes: seq<nat>, k: nat): nat
    requires k <= |sizes|
  {
    if k == 0 then 0 else SumTo(sizes, k - 1) + sizes[k - 1]
  }

  lemma {:induction false} SumToMonotone(sizes: seq<nat>, j: nat, k: nat)
    requires j <= k <= |sizes|
    ensures SumTo(sizes, j) <= SumTo(sizes, k)
  {
    if j < k { SumToMonotone(sizes, j, k - 1); }
  }

  /** Sizes of the blocks that redecomp rank q receives. */
  function Sizes(n: nat, p2r: ElementLists, q: nat): seq<nat>
    requires Square(n, p2r) && q < n
  {
    seq(n, p requires 0 <= p < n => |p2r[p][q]|)
  }

  /** First redecomp element of rank q that came from parent rank p: element k of the block that p sent
      has number Offset(p) + k. */
  function Offset(n: nat, p2r: ElementLists, q: nat, p: nat): nat
    requires Square(n, p2r) && q < n && p <= n
  {
    SumTo(Sizes(n, p2r, q), p)
  }

  /** The elements that redecomp rank q has from the parent ranks below p: rank and position. */
  ghost function Before(n: nat, p2r: ElementLists, q: nat, p: nat): set<(nat, nat)>
    requires Square(n, p2r) && q < n && p <= n
  {
    set c: nat, k: nat | c < p && k < |p2r[c][q]| :: (c, k)
  }

  ghost function RowOf(p: nat, m: nat): set<(nat, nat)> {
    set k: nat | k < m :: (p, k)
  }

  lemma {:induction false} RowSize(p: nat, m: nat)
    ensures |RowOf(p, m)| == m
  {
    if m == 0 {
      assert RowOf(p, 0) == {};
    } else {
      RowSize(p, m - 1);
      assert RowOf(p, m) == RowOf(p, m - 1) + {(p, m - 1)};
    }
  }

  lemma BeforeNext(n: nat, p2r: ElementLists, q: nat, p: nat)
    requires Square(n, p2r) && q < n && p < n
    ensures Before(n, p2r, q, p) !! RowOf(p, |p2r[p][q]|)
    ensures Before(n, p2r, q, p + 1) == Before(n, p2r, q, p) + RowOf(p, |p2r[p][q]|)
  {
  }

  /** The offset of a block counts the elements in the blocks of the parent ranks before it. */
  lemma {:induction false} OffsetCounts(n: nat, p2r: ElementLists, q: nat, p: nat)
    requires Square(n, p2r) && q < n && p <= n
    ensures Offset(n, p2r, q, p) == |Before(n, p2r, q, p)|
  {
    if p == 0 {
      assert Before(n, p2r, q, 0) == {};
    } else {
      hide RowOf;
      OffsetCounts(n, p2r, q, p - 1);
      RowSize(p - 1, |p2r[p - 1][q]|);
      BeforeNext(n, p2r, q, p - 1);
    }
  }

  /** r2p_elem_offsets_: received sizes, summed up in place. */
  method BuildElemOffsets(sizes: seq<nat>) returns (offsets: seq<nat>)
    requires sizes != []
    ensures |offsets| == |sizes| + 1
    ensures forall p :: 0 <= p <= |sizes| ==> offsets[p] == SumTo(sizes, p)
  {
    offsets := [0] + sizes;
    for i := 2 to |sizes| + 1
      invariant |offsets| == |sizes| + 1
      invariant forall p :: 0 <= p < i && p <= |sizes| ==> offsets[p] == SumTo(sizes, p)
      invariant forall p :: i <= p <= |sizes| ==> offsets[p] == sizes[p - 1]
    {
      offsets := offsets[i := offsets[i] + offsets[i - 1]];
    }
  }

  /** Positions of the ghost elements of one block, shifted by `first`. */
  function GhostsOf(list: seq<Entity>, first: nat): seq<nat> {
    if list == [] then []
    else
      var k := |list| - 1;
      GhostsOf(list[..k], first) + if list[k].isGhost then [first + k] else []
  }

  /** r2p_ghost_elems_: the parent rank packs the positions of the ghosts of a block. */
  method PackGhosts(list: seq<Entity>) returns (ghosts: seq<nat>)
    ensures ghosts == GhostsOf(list, 0)
  {
    ghosts := [];
    for i := 0 to |list|
      invariant ghosts == GhostsOf(list[..i], 0)
    {
      assert list[..i + 1][..i] == list[..i];
      if list[i].isGhost { ghosts := ghosts + [i]; }
    }
    assert list[..|list|] == list;
  }

  lemma {:induction false} GhostsShift(list: seq<Entity>, first: nat)
    ensures |GhostsOf(list, first)| == |GhostsOf(list, 0)|
    ensures forall t :: 0 <= t < |GhostsOf(list, 0)| ==> GhostsOf(list, first)[t] == GhostsOf(list, 0)[t] + first
  {
    if list != [] { GhostsShift(list[..|list| - 1], first); }
  }

  /** The redecomp rank shifts the received positions by the block's offset. */
  method ShiftGhosts(ghost list: seq<Entity>, received: seq<nat>, first: nat) returns (ghosts: seq<nat>)
    requires received == GhostsOf(list, 0)
    ensures ghosts == GhostsOf(list, first)
  {
    ghosts := received;
    for t := 0 to |ghosts|
      invariant |ghosts| == |received|
      invariant forall s :: 0 <= s < t ==> ghosts[s] == received[s] + first
      invariant forall s :: t <= s < |ghosts| ==> ghosts[s] == received[s]
    {
      ghosts := ghosts[t := ghosts[t] + first];
    }
    GhostsShift(list, first);
  }

  /** The cursor test of the transfer loops.  With the cursor past the ghosts of the first k elements, the
      test "the cursor's ghost is element first + k" tells whether element k is a ghost. */
  lemma {:induction false} CursorTest(list: seq<Entity>, first: nat, k: nat)
    requires k < |list|
    ensures var (ghosts, cursor) := (GhostsOf(list, first), |GhostsOf(list[..k], first)|);
      && cursor <= |ghosts|
      && (list[k].isGhost <==> cursor < |ghosts| && ghosts[cursor] == first + k)
      && |GhostsOf(list[..k + 1], first)| == cursor + if list[k].isGhost then 1 else 0
  {
    assert list[..k + 1][..k] == list[..k];
    GhostsOfPrefix(list, first, k);
    GhostsOfPrefix(list, first, k + 1);
    GhostsInRange(list, first);
    var (ghosts, cursor) := (GhostsOf(list, first), |GhostsOf(list[..k], first)|);
    if cursor < |ghosts| && ghosts[cursor] == first + k {
      assert list[ghosts[cursor] - first].isGhost;
    }
  }

  lemma {:induction false} GhostsOfPrefix(list: seq<Entity>, first: nat, k: nat)
    requires k <= |list|
    ensures GhostsOf(list[..k], first) <= GhostsOf(list, first)
  {
    if k < |list| {
      GhostsOfPrefix(list[..|list| - 1], first, k);
      assert list[..|list| - 1][..k] == list[..k];
    } else {
      assert list[..k] == list;
    }
  }

  lemma {:induction false} GhostsInRange(list: seq<Entity>, first: nat)
    ensures forall t :: 0 <= t < |GhostsOf(list, first)|
              ==> first <= GhostsOf(list, first)[t] < first + |list|
                  && list[GhostsOf(list, first)[t] - first].isGhost
  {
    if list != [] { GhostsInRange(list[..|list| - 1], first); }
  }
}

module FieldTransfer {
  import opened Exchange
  import opened RCBPartition
  import opened Redecomp

  /** The values of a field: for each element the values at its quadrature points. */
  type Field<T> = seq<seq<T>>

  function Concat<T>(vs: seq<seq<T>>): seq<T> {
    if vs == [] then [] else Concat(vs[..|vs| - 1]) + vs[|vs| - 1]
  }

  predicate InRange(list: seq<Entity>, size: nat) {
    forall k :: 0 <= k < |list| ==> list[k].index < size
  }

  /** Values of the listed elements, in list order. */
  function Values<X>(field: seq<X>, list: seq<Entity>): (r: seq<X>)
    requires InRange(list, |field|)
  {
    seq(|list|, k requires 0 <= k < |list| => field[list[k].index])
  }

  /** The values that do not belong to ghosts. */
  function Owned<T>(vals: Field<T>, list: seq<Entity>): Field<T>
    requires |vals| == |list|
  {
    if list == [] then []
    else
      var k := |list| - 1;
      Owned(vals[..k], list[..k]) + if list[k].isGhost then [] else [vals[k]]
  }

  /** Two tables of values that agree on the number of quadrature points of every element. */
  predicate SameShape<T>(a: Field<T>, b: Field<T>) {
    |a| == |b| && forall e :: 0 <= e < |a| ==> |a[e]| == |b[e]|
  }

  lemma {:induction false} ConcatSplit<T>(a: Field<T>, b: Field<T>)
    ensures Concat(a + b) == Concat(a) + Concat(b)
  {
    if b == [] {
      assert a + b == a;
    } else {
      var (most, last) := (b[..|b| - 1], b[|b| - 1]);
      ConcatSplit(a, most);
      assert (a + b)[..|a + b| - 1] == a + most && (a + b)[|a + b| - 1] == last;
      assert (Concat(a) + Concat(most)) + last == Concat(a) + (Concat(most) + last);
    }
  }

  lemma ConcatSnoc<T>(vals: Field<T>, k: nat)
    requires k < |vals|
    ensures Concat(vals[..k + 1]) == Concat(vals[..k]) + vals[k]
  {
    assert vals[..k + 1][..k] == vals[..k];
  }

  /** Where the values of element k start in a flat buffer, and that they are there. */
  lemma {:induction false} ConcatAt<T>(vals: Field<T>, k: nat)
    requires k < |vals|
    ensures |Concat(vals[..k])| + |vals[k]| == |Concat(vals[..k + 1])| <= |Concat(vals)|
    ensures Concat(vals)[|Concat(vals[..k])|..|Concat(vals[..k])| + |vals[k]|] == vals[k]
  {
    assert vals[..k + 1][..k] == vals[..k];
    ConcatSplit(vals[..k + 1], vals[k + 1..]);
    assert vals == vals[..k + 1] + vals[k + 1..];
  }

  // ----- TransferToSerial

  /** The buffer that a parent rank builds for one redecomp rank. */
  method PackSerial<T>(field: Field<T>, list: seq<Entity>) returns (buffer: seq<T>)
    requires InRange(list, |field|)
    ensures buffer == Concat(Values(field, list))
  {
    buffer := [];
    for k := 0 to |list|
      invariant buffer == Concat(Values(field, list)[..k])
    {
      assert Values(field, list)[..k + 1][..k] == Values(field, list)[..k];
      buffer := buffer + field[list[k].index];
    }
    assert Values(field, list)[..|list|] == Values(field, list);
  }

  /** The first k values of vals written over dst0 from position first on. */
  function Written<V>(dst0: seq<V>, first: nat, vals: seq<V>, k: nat): seq<V>
    requires first + |vals| <= |dst0| && k <= |vals|
  {
    dst0[..first] + vals[..k] + dst0[first + k..]
  }

  lemma WriteNext<V>(dst0: seq<V>, first: nat, vals: seq<V>, k: nat)
    requires first + |vals| <= |dst0| && k < |vals|
    ensures |Written(dst0, first, vals, k)| == |dst0|
    ensures Written(dst0, first, vals, k)[first + k] == dst0[first + k] == dst0[first..first + |vals|][k]
    ensures Written(dst0, first, vals, k)[first + k := vals[k]] == Written(dst0, first, vals, k + 1)
  {
  }

  lemma WrittenEnds<V>(dst0: seq<V>, first: nat, vals: seq<V>)
    requires first + |vals| <= |dst0|
    ensures Written(dst0, first, vals, 0) == dst0
    ensures Written(dst0, first, vals, |vals|) == dst0[..first] + vals + dst0[first + |vals|..]
  {
    assert vals[..|vals|] == vals;
  }

  /** Reads one block of elements [first, last) of dst from a buffer. */
  method UnpackBlock<T>(dst0: Field<T>, first: nat, last: nat, buffer: seq<T>, ghost vals: Field<T>)
    returns (dst: Field<T>)
    requires first <= last <= |dst0| && SameShape(dst0[first..last], vals) && buffer == Concat(vals)
    ensures dst == dst0[..first] + vals + dst0[last..]
  {
    hide Written;
    dst := dst0;
    var quadpt := 0;
    WrittenEnds(dst0, first, vals);
    for e := first to last
      invariant dst == Written(dst0, first, vals, e - first) && quadpt == |Concat(vals[..e - first])|
    {
      ConcatAt(vals, e - first);
      WriteNext(dst0, first, vals, e - first);
      hide Concat;
      dst := dst[e := buffer[quadpt..quadpt + |dst[e]|]];
      quadpt := quadpt + |dst[e]|;
    }
  }

  /** What TransferToSerial is to leave on redecomp rank q: block after block, the values of the parent
      elements. */
  function SerialBlocks<X>(n: nat, p2r: ElementLists, src: seq<seq<X>>, q: nat, p: nat): seq<X>
    requires Listed(n, p2r, src) && q < n && p <= n
  {
    if p == 0 then [] else SerialBlocks(n, p2r, src, q, p - 1) + Values(src[p - 1], p2r[p - 1][q])
  }

  function ToSerial<X>(n: nat, p2r: ElementLists, src: seq<seq<X>>, q: nat): seq<X>
    requires Listed(n, p2r, src) && q < n
  {
    SerialBlocks(n, p2r, src, q, n)
  }

  /** The lists name elements of the parent ranks. */
  predicate Listed<X>(n: nat, p2r: ElementLists, src: seq<seq<X>>) {
    Square(n, p2r) && |src| == n && forall p, q :: 0 <= p < n && 0 <= q < n ==> InRange(p2r[p][q], |src[p]|)
  }

  lemma {:induction false} BlockLength<X>(n: nat, p2r: ElementLists, src: seq<seq<X>>, q: nat, p: nat)
    requires Listed(n, p2r, src) && q < n && p <= n
    ensures |SerialBlocks(n, p2r, src, q, p)| == Offset(n, p2r, q, p)
  {
    if p > 0 { BlockLength(n, p2r, src, q, p - 1); }
  }

  /** Redecomp element Offset(p) + k of rank q carries the values of the k-th element that parent rank p
      lists for q. */
  lemma {:induction false} BlockContents<X>(n: nat, p2r: ElementLists, src: seq<seq<X>>, q: nat, p: nat, m: nat)
    requires Listed(n, p2r, src) && q < n && p < m <= n
    ensures var (first, last) := (Offset(n, p2r, q, p), Offset(n, p2r, q, p + 1));
      && first <= last <= |SerialBlocks(n, p2r, src, q, m)|
      && SerialBlocks(n, p2r, src, q, m)[first..last] == Values(src[p], p2r[p][q])
  {
    BlockLength(n, p2r, src, q, m);
    BlockLength(n, p2r, src, q, m - 1);
    var (first, last) := (Offset(n, p2r, q, p), Offset(n, p2r, q, p + 1));
    var (before, block) := (SerialBlocks(n, p2r, src, q, m - 1), Values(src[m - 1], p2r[m - 1][q]));
    assert SerialBlocks(n, p2r, src, q, m) == before + block;
    hide SumTo;
    hide Values;
    hide Sizes;
    if p < m - 1 {
      BlockContents(n, p2r, src, q, p, m - 1);
      assert (before + block)[first..last] == before[first..last];
    } else {
      assert (before + block)[|before|..|before| + |block|] == block;
    }
  }

  lemma SerialAt<X>(n: nat, p2r: ElementLists, src: seq<seq<X>>, q: nat, p: nat, k: nat)
    requires Listed(n, p2r, src) && q < n && p < n && k < |p2r[p][q]|
    ensures Offset(n, p2r, q, p) + k < |ToSerial(n, p2r, src, q)|
    ensures ToSerial(n, p2r, src, q)[Offset(n, p2r, q, p) + k] == src[p][p2r[p][q][k].index]
  {
    BlockContents(n, p2r, src, q, p, n);
    assert Values(src[p], p2r[p][q])[k] == ToSerial(n, p2r, src, q)[Offset(n, p2r, q, p) + k];
  }

  lemma BlockShape<T>(n: nat, p2r: ElementLists, src: seq<Field<T>>, q: nat, p: nat, dst: Field<T>)
    requires Listed(n, p2r, src) && q < n && p < n && SameShape(dst, ToSerial(n, p2r, src, q))
    ensures Offset(n, p2r, q, p) <= Offset(n, p2r, q, p + 1) <= |dst|
    ensures SameShape(dst[Offset(n, p2r, q, p)..Offset(n, p2r, q, p + 1)], Values(src[p], p2r[p][q]))
  {
    BlockContents(n, p2r, src, q, p, n);
    var (first, last) := (Offset(n, p2r, q, p), Offset(n, p2r, q, p + 1));
    forall e | 0 <= e < last - first
      ensures |dst[first..last][e]| == |Values(src[p], p2r[p][q])[e]|
    {
      assert Values(src[p], p2r[p][q])[e] == ToSerial(n, p2r, src, q)[first + e];
    }
  }

  lemma Splice<V>(done: seq<V>, vals: seq<V>, rest: seq<V>, last: nat)
    requires |done| + |vals| == last <= |rest|
    ensures (done + rest[|done|..])[|done|..last] == rest[|done|..last]
    ensures (done + rest[|done|..])[..|done|] + vals + (done + rest[|done|..])[last..] == done + vals + rest[last..]
  {
  }

  /** The field after the blocks of the first p ranks. */
  ghost function Received<T>(n: nat, p2r: ElementLists, src: seq<Field<T>>, q: nat, p: nat, dst0: Field<T>): Field<T>
    requires Listed(n, p2r, src) && q < n && p <= n && |SerialBlocks(n, p2r, src, q, p)| <= |dst0|
  {
    SerialBlocks(n, p2r, src, q, p) + dst0[|SerialBlocks(n, p2r, src, q, p)|..]
  }

  /** One block received: what the unpacking of rank p's buffer makes of the field. */
  lemma BlockReceived<T>(n: nat, p2r: ElementLists, src: seq<Field<T>>, q: nat, p: nat, dst0: Field<T>)
    requires Listed(n, p2r, src) && q < n && p < n && SameShape(dst0, ToSerial(n, p2r, src, q))
    requires |SerialBlocks(n, p2r, src, q, p)| <= |dst0|
    ensures |SerialBlocks(n, p2r, src, q, p + 1)| <= |dst0| == |Received(n, p2r, src, q, p, dst0)|
    ensures Offset(n, p2r, q, p) <= Offset(n, p2r, q, p + 1) <= |dst0|
    ensures var (first, last) := (Offset(n, p2r, q, p), Offset(n, p2r, q, p + 1));
            var (dst, vals) := (Received(n, p2r, src, q, p, dst0), Values(src[p], p2r[p][q]));
            && SameShape(dst[first..last], vals)
            && dst[..first] + vals + dst[last..] == Received(n, p2r, src, q, p + 1, dst0)
  {
    BlockLength(n, p2r, src, q, p);
    BlockLength(n, p2r, src, q, p + 1);
    BlockShape(n, p2r, src, q, p, dst0);
    var (done, vals) := (SerialBlocks(n, p2r, src, q, p), Values(src[p], p2r[p][q]));
    assert SerialBlocks(n, p2r, src, q, p + 1) == done + vals;
    hide SumTo;
    hide Values;
    hide Sizes;
    hide ToSerial;
    hide SerialBlocks;
    Splice(done, vals, dst0, Offset(n, p2r, q, p + 1));
  }

  lemma ReceivedEnds<T>(n: nat, p2r: ElementLists, src: seq<Field<T>>, q: nat, dst0: Field<T>)
    requires Listed(n, p2r, src) && q < n && |dst0| == |ToSerial(n, p2r, src, q)|
    ensures |SerialBlocks(n, p2r, src, q, 0)| <= |dst0| && Received(n, p2r, src, q, 0, dst0) == dst0
    ensures Received(n, p2r, src, q, n, dst0) == ToSerial(n, p2r, src, q)
  {
    assert SerialBlocks(n, p2r, src, q, 0) == [];
  }

  /** The receiving half of TransferToSerial on rank q. */
  method UnpackSerial<T>(n: nat, p2r: ElementLists, ghost src: seq<Field<T>>, q: nat, buffers: seq<seq<T>>,
                         dst0: Field<T>) returns (dst: Field<T>)
    requires Listed(n, p2r, src) && q < n && SameShape(dst0, ToSerial(n, p2r, src, q)) && |buffers| == n
    requires forall p :: 0 <= p < n ==> buffers[p] == SerialBuffer(n, p2r, src, p, q)
    ensures dst == ToSerial(n, p2r, src, q)
  {
    hide Received;
    hide SerialBlocks;
    hide Values;
    hide Concat;
    hide SumTo;
    var offsets := BuildElemOffsets(Sizes(n, p2r, q));
    dst := dst0;
    ReceivedEnds(n, p2r, src, q, dst0);
    for p := 0 to n
      invariant |SerialBlocks(n, p2r, src, q, p)| <= |dst0| && dst == Received(n, p2r, src, q, p, dst0)
    {
      BlockReceived(n, p2r, src, q, p, dst0);
      dst := UnpackBlock(dst, offsets[p], offsets[p + 1], buffers[p], Values(src[p], p2r[p][q]));
    }
  }

  /** What parent rank p sends to redecomp rank q. */
  function SerialBuffer<T>(n: nat, p2r: ElementLists, src: seq<Field<T>>, p: nat, q: nat): seq<T>
    requires Listed(n, p2r, src) && p < n && q < n
  {
    Concat(Values(src[p], p2r[p][q]))
  }

  method PackSerialRow<T>(n: nat, p2r: ElementLists, src: seq<Field<T>>, p: nat) returns (row: seq<seq<T>>)
    requires Listed(n, p2r, src) && p < n
    ensures |row| == n && forall q :: 0 <= q < n ==> row[q] == SerialBuffer(n, p2r, src, p, q)
  {
    row := [];
    for q := 0 to n
      invariant |row| == q && forall b :: 0 <= b < q ==> row[b] == SerialBuffer(n, p2r, src, p, b)
    {
      var buffer := PackSerial(src[p], p2r[p][q]);
      row := row + [buffer];
    }
  }

  /** TransferToSerial of a quadrature field, for all ranks.  dst0 has the right number of points for
      each redecomp element; its values do not matter. */
  method TransferToSerial<T>(n: nat, p2r: ElementLists, src: seq<Field<T>>, dst0: seq<Field<T>>)
    returns (dst: seq<Field<T>>)
    requires Listed(n, p2r, src) && |dst0| == n
    requires forall q :: 0 <= q < n ==> SameShape(dst0[q], ToSerial(n, p2r, src, q))
    ensures |dst| == n && forall q :: 0 <= q < n ==> dst[q] == ToSerial(n, p2r, src, q)
  {
    var sent: seq<seq<seq<T>>> := [];
    for p := 0 to n
      invariant |sent| == p && forall a :: 0 <= a < p ==> |sent[a]| == n
      invariant forall a, q :: 0 <= a < p && 0 <= q < n ==> sent[a][q] == SerialBuffer(n, p2r, src, a, q)
    {
      var row := PackSerialRow(n, p2r, src, p);
      sent := sent + [row];
    }
    var received := Transpose(n, sent);
    dst := [];
    for q := 0 to n
      invariant |dst| == q && forall a :: 0 <= a < q ==> dst[a] == ToSerial(n, p2r, src, a)
    {
      var field := UnpackSerial(n, p2r, src, q, received[q], dst0[q]);
      dst := dst + [field];
    }
  }

  // ----- TransferToParallel

  lemma OwnedSnoc<T>(vals: Field<T>, list: seq<Entity>, k: nat)
    requires |vals| == |list| && k < |list|
    ensures var (before, after) := (Concat(Owned(vals[..k], list[..k])), Concat(Owned(vals[..k + 1], list[..k + 1])));
            after == if list[k].isGhost then before else before + vals[k]
  {
    assert list[..k + 1][..k] == list[..k] && vals[..k + 1][..k] == vals[..k];
    var o := Owned(vals[..k], list[..k]);
    assert Owned(vals[..k + 1], list[..k + 1]) == if list[k].isGhost then o else o + [vals[k]];
    assert (o + [vals[k]])[..|o|] == o;
  }

  /** Buffer and ghost cursor after the first k elements of a block. */
  ghost predicate Packed<T>(buffer: seq<T>, cursor: nat, vals: Field<T>, list: seq<Entity>, first: nat, k: nat) {
    && k <= |list| == |vals|
    && cursor == |GhostsOf(list[..k], first)| && buffer == Concat(Owned(vals[..k], list[..k]))
  }

  lemma PackedNext<T>(buffer: seq<T>, cursor: nat, vals: Field<T>, list: seq<Entity>, first: nat, k: nat)
    requires Packed(buffer, cursor, vals, list, first, k) && k < |list|
    ensures var ghosts := GhostsOf(list, first);
            if cursor < |ghosts| && ghosts[cursor] == first + k then Packed(buffer, cursor + 1, vals, list, first, k + 1)
            else Packed(buffer + vals[k], cursor, vals, list, first, k + 1)
  {
    CursorTest(list, first, k);
    OwnedSnoc(vals, list, k);
    hide Concat;
    hide Owned;
    hide GhostsOf;
  }

  lemma PackedEnds<T>(buffer: seq<T>, cursor: nat, vals: Field<T>, list: seq<Entity>, first: nat)
    requires |vals| == |list|
    ensures Packed([], 0, vals, list, first, 0)
    ensures Packed(buffer, cursor, vals, list, first, |list|) ==> buffer == Concat(Owned(vals, list))
  {
    assert list[..|list|] == list && vals[..|vals|] == vals;
  }

  /** The buffer that a redecomp rank builds for one parent rank: the cursor over the sorted ghost list
      skips exactly the ghosts. */
  method PackParallel<T>(field: Field<T>, first: nat, last: nat, ghosts: seq<nat>, ghost list: seq<Entity>)
    returns (buffer: seq<T>)
    requires first <= last <= |field| && |list| == last - first && ghosts == GhostsOf(list, first)
    ensures buffer == Concat(Owned(field[first..last], list))
  {
    hide Packed;
    hide GhostsOf;
    hide Concat;
    buffer := [];
    var cursor: nat := 0;
    ghost var vals := field[first..last];
    PackedEnds(buffer, cursor, vals, list, first);
    for e := first to last
      invariant Packed(buffer, cursor, vals, list, first, e - first)
    {
      PackedNext(buffer, cursor, vals, list, first, e - first);
      assert field[e] == vals[e - first];
      if cursor < |ghosts| && ghosts[cursor] == e {
        cursor := cursor + 1;
      } else {
        buffer := buffer + field[e];
      }
    }
    PackedEnds(buffer, cursor, vals, list, first);
  }

  /** The effect of writing the owned values of one block into a parent field. */
  function Scatter<T>(dst: Field<T>, list: seq<Entity>, vals: Field<T>): (r: Field<T>)
    requires |vals| == |list| && InRange(list, |dst|)
    ensures |r| == |dst|
  {
    if list == [] then dst
    else
      var k := |list| - 1;
      var before := Scatter(dst, list[..k], vals[..k]);
      if list[k].isGhost then before else before[list[k].index := vals[k]]
  }

  /** The values of the listed elements have the shapes that dst has room for. */
  predicate Fits<T>(dst: Field<T>, list: seq<Entity>, vals: Field<T>) {
    && |vals| == |list| && InRange(list, |dst|)
    && forall k :: 0 <= k < |list| ==> |vals[k]| == |dst[list[k].index]|
  }

  lemma {:induction false} ScatterKeepsShape<T>(dst: Field<T>, list: seq<Entity>, vals: Field<T>)
    requires Fits(dst, list, vals)
    ensures SameShape(dst, Scatter(dst, list, vals))
  {
    if list != [] { ScatterKeepsShape(dst, list[..|list| - 1], vals[..|vals| - 1]); }
  }

  /** The values of the first k elements come first in the buffer of owned values. */
  lemma {:induction false} OwnedPrefix<T>(vals: Field<T>, list: seq<Entity>, k: nat, m: nat)
    requires |vals| == |list| && k <= m <= |list|
    ensures Concat(Owned(vals[..k], list[..k])) <= Concat(Owned(vals[..m], list[..m]))
  {
    if k < m {
      OwnedPrefix(vals, list, k, m - 1);
      OwnedSnoc(vals, list, m - 1);
    }
  }

  lemma AfterPrefix<T>(before: seq<T>, v: seq<T>, all: seq<T>)
    requires before + v <= all
    ensures |before| + |v| <= |all| && all[|before|..|before| + |v|] == v
  {
    assert all == before + v + all[|before| + |v|..];
  }

  /** In the buffer of owned values, the values of element k come right after those of the elements
      before it if it is owned, and take no room otherwise. */
  lemma OwnedAt<T>(vals: Field<T>, list: seq<Entity>, k: nat)
    requires |vals| == |list| && k < |list|
    ensures var (all, at) := (Concat(Owned(vals, list)), |Concat(Owned(vals[..k], list[..k]))|);
            var end := |Concat(Owned(vals[..k + 1], list[..k + 1]))|;
            end <= |all| && if list[k].isGhost then end == at
                            else end == at + |vals[k]| && all[at..end] == vals[k]
  {
    OwnedSnoc(vals, list, k);
    OwnedPrefix(vals, list, k + 1, |list|);
    assert list[..|list|] == list && vals[..|vals|] == vals;
    if !list[k].isGhost { AfterPrefix(Concat(Owned(vals[..k], list[..k])), vals[k], Concat(Owned(vals, list))); }
  }

  /** The parent field and the place in the buffer after the first k listed elements. */
  ghost predicate Unpacked<T>(dst0: Field<T>, dst: Field<T>, at: nat, vals: Field<T>, list: seq<Entity>, k: nat) {
    && k <= |list| && Fits(dst0, list, vals)
    && dst == Scatter(dst0, list[..k], vals[..k]) && at == |Concat(Owned(vals[..k], list[..k]))|
  }

  lemma UnpackedNext<T>(dst0: Field<T>, dst: Field<T>, at: nat, vals: Field<T>, list: seq<Entity>, k: nat)
    requires Unpacked(dst0, dst, at, vals, list, k) && k < |list|
    ensures list[k].isGhost ==> Unpacked(dst0, dst, at, vals, list, k + 1)
    ensures !list[k].isGhost ==>
      var (x, buffer) := (list[k].index, Concat(Owned(vals, list)));
      && x < |dst| && at + |dst[x]| <= |buffer| && buffer[at..at + |dst[x]|] == vals[k]
      && Unpacked(dst0, dst[x := vals[k]], at + |dst[x]|, vals, list, k + 1)
  {
    hide Concat;
    hide Owned;
    hide Scatter;
    ScatterNext(dst0, vals, list, k);
    OwnedAt(vals, list, k);
  }

  lemma ScatterNext<T>(dst0: Field<T>, vals: Field<T>, list: seq<Entity>, k: nat)
    requires Fits(dst0, list, vals) && k < |list|
    ensures list[k].index < |dst0| == |Scatter(dst0, list[..k], vals[..k])|
    ensures |Scatter(dst0, list[..k], vals[..k])[list[k].index]| == |vals[k]|
    ensures Scatter(dst0, list[..k + 1], vals[..k + 1])
         == if list[k].isGhost then Scatter(dst0, list[..k], vals[..k])
            else Scatter(dst0, list[..k], vals[..k])[list[k].index := vals[k]]
  {
    assert list[..k + 1][..k] == list[..k] && vals[..k + 1][..k] == vals[..k];
    ScatterKeepsShape(dst0, list[..k], vals[..k]);
  }

  lemma UnpackedEnds<T>(dst0: Field<T>, dst: Field<T>, at: nat, vals: Field<T>, list: seq<Entity>)
    requires Fits(dst0, list, vals)
    ensures Unpacked(dst0, dst0, 0, vals, list, 0)
    ensures Unpacked(dst0, dst, at, vals, list, |list|) ==> dst == Scatter(dst0, list, vals)
  {
    assert list[..|list|] == list && vals[..|vals|] == vals;
  }

  /** The receiving loop of TransferToParallel for one redecomp rank: skips the ghosts by their flags. */
  method UnpackParallel<T>(dst0: Field<T>, list: seq<Entity>, buffer: seq<T>, ghost vals: Field<T>)
    returns (dst: Field<T>)
    requires Fits(dst0, list, vals) && buffer == Concat(Owned(vals, list))
    ensures dst == Scatter(dst0, list, vals)
  {
    hide Unpacked;
    hide Concat;
    hide Owned;
    dst := dst0;
    var quadpt: nat := 0;
    UnpackedEnds(dst0, dst, quadpt, vals, list);
    for e := 0 to |list|
      invariant Unpacked(dst0, dst, quadpt, vals, list, e)
    {
      UnpackedNext(dst0, dst, quadpt, vals, list, e);
      if !list[e].isGhost {
        var points := |dst[list[e].index]|;
        dst := dst[list[e].index := buffer[quadpt..quadpt + points]];
        quadpt := quadpt + points;
      }
    }
    UnpackedEnds(dst0, dst, quadpt, vals, list);
  }

  /** The block of redecomp field values of rank q that belongs to parent rank p. */
  function Block<T>(n: nat, p2r: ElementLists, src: seq<Field<T>>, q: nat, p: nat): (r: Field<T>)
    requires Blocked(n, p2r, src) && q < n && p < n
    ensures |r| == |p2r[p][q]|
  {
    SumToMonotone(Sizes(n, p2r, q), p + 1, n);
    src[q][Offset(n, p2r, q, p)..Offset(n, p2r, q, p + 1)]
  }

  /** Every redecomp rank has one value per received element. */
  predicate Blocked<T>(n: nat, p2r: ElementLists, src: seq<Field<T>>) {
    Square(n, p2r) && |src| == n && forall q :: 0 <= q < n ==> |src[q]| == Offset(n, p2r, q, n)
  }

  /** The lists of parent rank p name only its elements. */
  predicate ListsInRange(n: nat, p2r: ElementLists, p: nat, size: nat)
    requires Square(n, p2r) && p < n
  {
    forall q :: 0 <= q < n ==> InRange(p2r[p][q], size)
  }

  /** What TransferToParallel is to leave on parent rank p after the blocks of the first q ranks. */
  function ToParallel<T>(n: nat, p2r: ElementLists, src: seq<Field<T>>, dst0: Field<T>, p: nat, q: nat): (r: Field<T>)
    requires Blocked(n, p2r, src) && p < n && q <= n
    requires ListsInRange(n, p2r, p, |dst0|)
    ensures |r| == |dst0|
  {
    if q == 0 then dst0
    else Scatter(ToParallel(n, p2r, src, dst0, p, q - 1), p2r[p][q - 1], Block(n, p2r, src, q - 1, p))
  }

  /** The field values have the shapes that the field dst0 of parent rank p has room for. */
  predicate FitsParent<T>(n: nat, p2r: ElementLists, src: seq<Field<T>>, dst0: Field<T>, p: nat)
    requires Blocked(n, p2r, src) && p < n
  {
    && ListsInRange(n, p2r, p, |dst0|)
    && (forall q :: 0 <= q < n ==> Fits(dst0, p2r[p][q], Block(n, p2r, src, q, p)))
  }

  /** What redecomp rank q sends to parent rank p. */
  function ParallelBuffer<T>(n: nat, p2r: ElementLists, src: seq<Field<T>>, q: nat, p: nat): seq<T>
    requires Blocked(n, p2r, src) && q < n && p < n
  {
    Concat(Owned(Block(n, p2r, src, q, p), p2r[p][q]))
  }

  method PackParallelRow<T>(n: nat, p2r: ElementLists, src: seq<Field<T>>, q: nat) returns (row: seq<seq<T>>)
    requires Blocked(n, p2r, src) && q < n
    ensures |row| == n && forall p :: 0 <= p < n ==> row[p] == ParallelBuffer(n, p2r, src, q, p)
  {
    hide ParallelBuffer;
    var offsets := BuildElemOffsets(Sizes(n, p2r, q));
    row := [];
    for p := 0 to n
      invariant |row| == p && forall a :: 0 <= a < p ==> row[a] == ParallelBuffer(n, p2r, src, q, a)
    {
      var buffer := PackParallelBlock(n, p2r, src, q, p, offsets[p], offsets[p + 1]);
      row := row + [buffer];
    }
  }

  method PackParallelBlock<T>(ghost n: nat, p2r: ElementLists, src: seq<Field<T>>, q: nat, p: nat, first: nat, last: nat)
    returns (buffer: seq<T>)
    requires Blocked(n, p2r, src) && q < n && p < n
    requires first == Offset(n, p2r, q, p) && last == Offset(n, p2r, q, p + 1)
    ensures buffer == ParallelBuffer(n, p2r, src, q, p)
  {
    var packed := PackGhosts(p2r[p][q]);
    var ghosts := ShiftGhosts(p2r[p][q], packed, first);
    SumToMonotone(Sizes(n, p2r, q), p + 1, n);
    hide GhostsOf;
    hide Concat;
    hide Owned;
    buffer := PackParallel(src[q], first, last, ghosts, p2r[p][q]);
  }

  lemma FitsSameShape<T>(a: Field<T>, b: Field<T>, list: seq<Entity>, vals: Field<T>)
    requires Fits(a, list, vals) && SameShape(a, b)
    ensures Fits(b, list, vals) && SameShape(a, Scatter(b, list, vals))
  {
    ScatterKeepsShape(b, list, vals);
  }

  /** Writing block after block never changes the shapes that the next block is to fit. */
  lemma BlockFits<T>(n: nat, p2r: ElementLists, src: seq<Field<T>>, dst0: Field<T>, p: nat, q: nat)
    requires Blocked(n, p2r, src) && p < n && FitsParent(n, p2r, src, dst0, p) && q < n
    requires SameShape(dst0, ToParallel(n, p2r, src, dst0, p, q))
    ensures Fits(ToParallel(n, p2r, src, dst0, p, q), p2r[p][q], Block(n, p2r, src, q, p))
    ensures SameShape(dst0, ToParallel(n, p2r, src, dst0, p, q + 1))
    ensures ToParallel(n, p2r, src, dst0, p, q + 1)
         == Scatter(ToParallel(n, p2r, src, dst0, p, q), p2r[p][q], Block(n, p2r, src, q, p))
  {
    FitsSameShape(dst0, ToParallel(n, p2r, src, dst0, p, q), p2r[p][q], Block(n, p2r, src, q, p));
  }

  method UnpackParallelRow<T>(n: nat, p2r: ElementLists, ghost src: seq<Field<T>>, dst0: Field<T>, p: nat,
                              buffers: seq<seq<T>>) returns (dst: Field<T>)
    requires Blocked(n, p2r, src) && p < n && FitsParent(n, p2r, src, dst0, p) && |buffers| == n
    requires forall q :: 0 <= q < n ==> buffers[q] == ParallelBuffer(n, p2r, src, q, p)
    ensures dst == ToParallel(n, p2r, src, dst0, p, n)
  {
    dst := dst0;
    assert dst == ToParallel(n, p2r, src, dst0, p, 0);
    hide ToParallel;
    hide Scatter;
    hide Fits;
    hide Block;
    hide Concat;
    hide Owned;
    for q := 0 to n
      invariant dst == ToParallel(n, p2r, src, dst0, p, q) && SameShape(dst0, dst)
    {
      BlockFits(n, p2r, src, dst0, p, q);
      dst := UnpackParallel(dst, p2r[p][q], buffers[q], Block(n, p2r, src, q, p));
    }
  }

  /** TransferToParallel of a quadrature field, for all ranks. */
  method TransferToParallel<T>(n: nat, p2r: ElementLists, src: seq<Field<T>>, dst0: seq<Field<T>>)
    returns (dst: seq<Field<T>>)
    requires Blocked(n, p2r, src) && |dst0| == n
    requires forall p :: 0 <= p < n ==> ListsInRange(n, p2r, p, |dst0[p]|) && FitsParent(n, p2r, src, dst0[p], p)
    ensures |dst| == n && forall p :: 0 <= p < n ==> dst[p] == ToParallel(n, p2r, src, dst0[p], p, n)
  {
    var sent: seq<seq<seq<T>>> := [];
    for q := 0 to n
      invariant |sent| == q && forall b :: 0 <= b < q ==> |sent[b]| == n
      invariant forall b, p :: 0 <= b < q && 0 <= p < n ==> sent[b][p] == ParallelBuffer(n, p2r, src, b, p)
    {
      var row := PackParallelRow(n, p2r, src, q);
      sent := sent + [row];
    }
    var received := Transpose(n, sent);
    dst := [];
    for p := 0 to n
      invariant |dst| == p && forall a :: 0 <= a < p ==> dst[a] == ToParallel(n, p2r, src, dst0[a], a, n)
    {
      var field := UnpackParallelRow(n, p2r, src, dst0[p], p, received[p]);
      dst := dst + [field];
    }
  }

  // ----- the round trip

  /** Some redecomp rank holds element x of parent rank p as its own. */
  ghost predicate OwnedBy(p2r: ElementLists, p: nat, x: nat, q: nat)
    requires p < |p2r| && q < |p2r[p]|
  {
    Entity(x, false) in p2r[p][q]
  }

  lemma {:induction false} ScatterOfValues<T>(dst: Field<T>, field: Field<T>, list: seq<Entity>, x: nat)
    requires |dst| == |field| && InRange(list, |field|) && x < |field|
    ensures Scatter(dst, list, Values(field, list))[x] == if Entity(x, false) in list then field[x] else dst[x]
  {
    if list != [] {
      var k := |list| - 1;
      ScatterOfValues(dst, field, list[..k], x);
      assert Values(field, list)[..k] == Values(field, list[..k]);
      assert list == list[..k] + [list[k]];
    }
  }

  lemma BlockIsValues<T>(n: nat, p2r: ElementLists, src: seq<Field<T>>, redecomp: seq<Field<T>>, p: nat, q: nat)
    requires Listed(n, p2r, src) && p < n && q < n && Blocked(n, p2r, redecomp) && redecomp[q] == ToSerial(n, p2r, src, q)
    ensures Block(n, p2r, redecomp, q, p) == Values(src[p], p2r[p][q])
  {
    BlockContents(n, p2r, src, q, p, n);
  }

  lemma {:induction false} RoundTripAt<T>(n: nat, p2r: ElementLists, src: seq<Field<T>>, redecomp: seq<Field<T>>,
                                          dst0: Field<T>, p: nat, q: nat, x: nat)
    requires Listed(n, p2r, src) && p < n && q <= n && |dst0| == |src[p]| && x < |dst0|
    requires Blocked(n, p2r, redecomp) && forall b :: 0 <= b < n ==> redecomp[b] == ToSerial(n, p2r, src, b)
    ensures ToParallel(n, p2r, redecomp, dst0, p, q)[x]
         == if exists b :: 0 <= b < q && OwnedBy(p2r, p, x, b) then src[p][x] else dst0[x]
  {
    if q > 0 {
      RoundTripAt(n, p2r, src, redecomp, dst0, p, q - 1, x);
      BlockIsValues(n, p2r, src, redecomp, p, q - 1);
      hide ToParallel;
      hide Values;
      hide Block;
      hide OwnedBy;
      hide Listed;
      ScatterThenValues(n, p2r, src, redecomp, dst0, p, q, x);
    }
  }

  lemma ScatterThenValues<T>(n: nat, p2r: ElementLists, src: seq<Field<T>>, redecomp: seq<Field<T>>,
                             dst0: Field<T>, p: nat, q: nat, x: nat)
    requires Listed(n, p2r, src) && p < n && 1 <= q <= n && |dst0| == |src[p]| && x < |dst0|
    requires Blocked(n, p2r, redecomp) && Block(n, p2r, redecomp, q - 1, p) == Values(src[p], p2r[p][q - 1])
    ensures ToParallel(n, p2r, redecomp, dst0, p, q)[x]
         == if OwnedBy(p2r, p, x, q - 1) then src[p][x] else ToParallel(n, p2r, redecomp, dst0, p, q - 1)[x]
  {
    ScatterOfValues(ToParallel(n, p2r, redecomp, dst0, p, q - 1), src[p], p2r[p][q - 1], x);
  }

  lemma SerialIsBlocked<T>(n: nat, p2r: ElementLists, src: seq<Field<T>>, redecomp: seq<Field<T>>)
    requires Listed(n, p2r, src) && |redecomp| == n
    requires forall b :: 0 <= b < n ==> redecomp[b] == ToSerial(n, p2r, src, b)
    ensures Blocked(n, p2r, redecomp)
  {
    forall q | 0 <= q < n ensures |redecomp[q]| == Offset(n, p2r, q, n) { BlockLength(n, p2r, src, q, n); }
  }

  /** Quadrature round trip: transferring to the redecomp mesh and back restores the value of a parent
      element exactly when some redecomp rank holds it without ghost mark, and leaves what was there
      before otherwise. */
  lemma FieldRoundTrip<T>(n: nat, p2r: ElementLists, src: seq<Field<T>>, redecomp: seq<Field<T>>,
                          dst0: Field<T>, p: nat, x: nat)
    requires Listed(n, p2r, src) && p < n && |dst0| == |src[p]| && x < |dst0|
    requires |redecomp| == n && forall b :: 0 <= b < n ==> redecomp[b] == ToSerial(n, p2r, src, b)
    ensures Blocked(n, p2r, redecomp)
    ensures ToParallel(n, p2r, redecomp, dst0, p, n)[x]
         == if exists q :: 0 <= q < n && OwnedBy(p2r, p, x, q) then src[p][x] else dst0[x]
  {
    SerialIsBlocked(n, p2r, src, redecomp);
    RoundTripAt(n, p2r, src, redecomp, dst0, p, n, x);
  }

  /** Some redecomp rank holds element x of parent rank p as its own. */
  ghost predicate Covered(n: nat, p2r: ElementLists, p: nat, x: nat)
    requires Square(n, p2r) && p < n
  {
    exists q :: 0 <= q < n && OwnedBy(p2r, p, x, q)
  }

  lemma SerialFitsBack<T>(n: nat, p2r: ElementLists, src: seq<Field<T>>, redecomp: seq<Field<T>>, dst0: Field<T>, p: nat)
    requires Listed(n, p2r, src) && p < n && SameShape(dst0, src[p])
    requires |redecomp| == n && forall b :: 0 <= b < n ==> redecomp[b] == ToSerial(n, p2r, src, b)
    ensures Blocked(n, p2r, redecomp) && FitsParent(n, p2r, redecomp, dst0, p)
  {
    SerialIsBlocked(n, p2r, src, redecomp);
    forall q | 0 <= q < n ensures Fits(dst0, p2r[p][q], Block(n, p2r, redecomp, q, p)) {
      BlockIsValues(n, p2r, src, redecomp, p, q);
    }
  }

  lemma AllRestored<T>(n: nat, p2r: ElementLists, src: seq<Field<T>>, redecomp: seq<Field<T>>, dst0: Field<T>, p: nat)
    requires Listed(n, p2r, src) && p < n && SameShape(dst0, src[p])
    requires |redecomp| == n && forall b :: 0 <= b < n ==> redecomp[b] == ToSerial(n, p2r, src, b)
    requires forall x :: 0 <= x < |src[p]| ==> Covered(n, p2r, p, x)
    ensures Blocked(n, p2r, redecomp) && ToParallel(n, p2r, redecomp, dst0, p, n) == src[p]
  {
    SerialIsBlocked(n, p2r, src, redecomp);
    forall x | 0 <= x < |src[p]| ensures ToParallel(n, p2r, redecomp, dst0, p, n)[x] == src[p][x] {
      assert Covered(n, p2r, p, x);
      FieldRoundTrip(n, p2r, src, redecomp, dst0, p, x);
    }
  }

  /** Both transfers in sequence, as a program on all ranks: the parent field comes back unchanged when
      every parent element is owned by some redecomp rank. */
  method RoundTrip<T>(n: nat, p2r: ElementLists, src: seq<Field<T>>, serial0: seq<Field<T>>, dst0: seq<Field<T>>)
    returns (dst: seq<Field<T>>)
    requires Listed(n, p2r, src) && |serial0| == n && |dst0| == n
    requires forall q :: 0 <= q < n ==> SameShape(serial0[q], ToSerial(n, p2r, src, q))
    requires forall p :: 0 <= p < n ==> SameShape(dst0[p], src[p])
    requires forall p, x :: 0 <= p < n && 0 <= x < |src[p]| ==> Covered(n, p2r, p, x)
    ensures dst == src
  {
    var redecomp := TransferToSerial(n, p2r, src, serial0);
    SerialIsBlocked(n, p2r, src, redecomp);
    forall p | 0 <= p < n
      ensures FitsParent(n, p2r, redecomp, dst0[p], p) && ToParallel(n, p2r, redecomp, dst0[p], p, n) == src[p]
    {
      SerialFitsBack(n, p2r, src, redecomp, dst0[p], p);
      AllRestored(n, p2r, src, redecomp, dst0[p], p);
    }
    dst := TransferToParallel(n, p2r, redecomp, dst0);
  }
}
