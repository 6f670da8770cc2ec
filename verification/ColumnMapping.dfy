/** Bucket, transform remotely, merge back: the conversion of column offsets into parent element numbers
    in src/redecomp/transfer/SparseMatrixTransfer.cpp. */
module ColumnMapping {
  import opened Exchange
  import opened RCBPartition
  import opened Redecomp
  import opened SparsePacking

  /** The column offsets of the entries whose column lives on rank c, in order. */
  function Bucket(items: seq<Entry>, c: nat): seq<nat> {
    if items == [] then []
    else
      var i := |items| - 1;
      Bucket(items[..i], c) + if items[i].colRank == c then [items[i].col] else []
  }

  predicate RanksBelow(n: nat, items: seq<Entry>) {
    forall i :: 0 <= i < |items| ==> items[i].colRank < n
  }

  method BucketByRank(n: nat, items: seq<Entry>) returns (buckets: seq<seq<nat>>)
    requires RanksBelow(n, items)
    ensures |buckets| == n && forall c :: 0 <= c < n ==> buckets[c] == Bucket(items, c)
  {
    buckets := seq(n, _ => []);
    for i := 0 to |items|
      invariant |buckets| == n && forall c :: 0 <= c < n ==> buckets[c] == Bucket(items[..i], c)
    {
      assert items[..i + 1][..i] == items[..i];
      var c := items[i].colRank;
      buckets := buckets[c := buckets[c] + [items[i].col]];
    }
    assert items[..|items|] == items;
  }

  /** Where entry i went: it is the entry of its bucket that the earlier entries of that bucket precede. */
  lemma {:induction false} BucketPosition(items: seq<Entry>, i: nat)
    requires i < |items|
    ensures var c := items[i].colRank;
      |Bucket(items[..i], c)| < |Bucket(items, c)| && Bucket(items, c)[|Bucket(items[..i], c)|] == items[i].col
  {
    var m := |items| - 1;
    if i < m {
      BucketPosition(items[..m], i);
      assert items[..m][..i] == items[..i];
    }
  }

  predicate Names(list: seq<Entity>, offsets: seq<nat>) {
    forall k :: 0 <= k < |offsets| ==> offsets[k] < |list|
  }

  function Lookup(list: seq<Entity>, offsets: seq<nat>): (r: seq<nat>)
    requires Names(list, offsets)
    ensures |r| == |offsets|
  {
    seq(|offsets|, k requires 0 <= k < |offsets| => list[offsets[k]].index)
  }

  /** On the rank of the columns: replaces each offset by the element it stands for, in place. */
  method LookUp(list: seq<Entity>, offsets0: seq<nat>) returns (offsets: seq<nat>)
    requires Names(list, offsets0)
    ensures offsets == Lookup(list, offsets0)
  {
    offsets := offsets0;
    for k := 0 to |offsets|
      invariant |offsets| == |offsets0|
      invariant forall i :: 0 <= i < k ==> offsets[i] == list[offsets0[i]].index
      invariant forall i :: k <= i < |offsets| ==> offsets[i] == offsets0[i]
    {
      offsets := offsets[k := list[offsets[k]].index];
    }
  }

  /** v is the element number at the place of entry i in the returned bucket of its rank. */
  predicate MergedAt(items: seq<Entry>, buckets: seq<seq<nat>>, i: nat, v: nat)
    requires i < |items|
  {
    var (c, k) := (items[i].colRank, |Bucket(items[..i], items[i].colRank)|);
    c < |buckets| && k < |buckets[c]| && v == buckets[c][k]
  }

  /** Back on the original rank: takes the next element number of the bucket of each entry, with one
      counter per rank. */
  method MergeBack(n: nat, items: seq<Entry>, buckets: seq<seq<nat>>) returns (cols: seq<nat>)
    requires RanksBelow(n, items) && |buckets| == n
    requires forall c :: 0 <= c < n ==> |buckets[c]| == |Bucket(items, c)|
    ensures |cols| == |items| && forall i :: 0 <= i < |items| ==> MergedAt(items, buckets, i, cols[i])
  {
    cols := [];
    var counts := seq(n, _ => 0);
    for i := 0 to |items|
      invariant |cols| == i && |counts| == n
      invariant forall c :: 0 <= c < n ==> counts[c] == |Bucket(items[..i], c)|
      invariant forall k :: 0 <= k < i ==> MergedAt(items, buckets, k, cols[k])
    {
      BucketPosition(items, i);
      BucketGrows(items, i);
      var c := items[i].colRank;
      cols := cols + [buckets[c][counts[c]]];
      counts := counts[c := counts[c] + 1];
    }
  }

  lemma BucketGrows(items: seq<Entry>, i: nat)
    requires i < |items|
    ensures forall c :: |Bucket(items[..i + 1], c)| == |Bucket(items[..i], c)| + if c == items[i].colRank then 1 else 0
  {
    assert items[..i + 1][..i] == items[..i];
  }

  /** The entries of all ranks name elements of the trial lists. */
  ghost predicate NamesColumns(n: nat, p2r: ElementLists, items: seq<Entry>, q: nat)
    requires Square(n, p2r) && q < n
  {
    forall i :: 0 <= i < |items| ==> items[i].colRank < n && items[i].col < |p2r[items[i].colRank][q]|
  }

  lemma {:induction false} BucketInRange(n: nat, p2r: ElementLists, items: seq<Entry>, q: nat, c: nat)
    requires Square(n, p2r) && q < n && c < n && NamesColumns(n, p2r, items, q)
    ensures forall k :: 0 <= k < |Bucket(items, c)| ==> Bucket(items, c)[k] < |p2r[c][q]|
  {
    if items != [] { BucketInRange(n, p2r, items[..|items| - 1], q, c); }
  }

  /** The parent element of entry i of rank q: looked up on the rank of its column. */
  function ColumnOf(n: nat, p2r: ElementLists, e: Entry, q: nat): nat
    requires Square(n, p2r) && q < n && e.colRank < n && e.col < |p2r[e.colRank][q]|
  {
    p2r[e.colRank][q][e.col].index
  }

  ghost predicate Mapped(n: nat, p2r: ElementLists, items: seq<Entry>, q: nat, cols: seq<nat>)
    requires Square(n, p2r) && q < n && NamesColumns(n, p2r, items, q)
  {
    |cols| == |items| && forall i :: 0 <= i < |items| ==> cols[i] == ColumnOf(n, p2r, items[i], q)
  }

  /** Buckets of all ranks. */
  method BucketAll(n: nat, all: seq<seq<Entry>>) returns (table: seq<seq<seq<nat>>>)
    requires |all| == n && forall q :: 0 <= q < n ==> RanksBelow(n, all[q])
    ensures Square(n, table)
    ensures forall q, c :: 0 <= q < n && 0 <= c < n ==> table[q][c] == Bucket(all[q], c)
  {
    table := [];
    for q := 0 to n
      invariant |table| == q && forall a :: 0 <= a < q ==> |table[a]| == n
      invariant forall a, c :: 0 <= a < q && 0 <= c < n ==> table[a][c] == Bucket(all[a], c)
    {
      var row := BucketByRank(n, all[q]);
      table := table + [row];
    }
  }

  /** Look-up on all ranks: recv[c][q] came from rank q to rank c. */
  method LookUpAll(n: nat, p2r: ElementLists, recv: seq<seq<seq<nat>>>) returns (table: seq<seq<seq<nat>>>)
    requires Square(n, p2r) && Square(n, recv)
    requires forall c, q :: 0 <= c < n && 0 <= q < n ==> Names(p2r[c][q], recv[c][q])
    ensures Square(n, table)
    ensures forall c, q :: 0 <= c < n && 0 <= q < n ==> table[c][q] == Lookup(p2r[c][q], recv[c][q])
  {
    table := [];
    for c := 0 to n
      invariant |table| == c && forall a :: 0 <= a < c ==> |table[a]| == n
      invariant forall a, q :: 0 <= a < c && 0 <= q < n ==> table[a][q] == Lookup(p2r[a][q], recv[a][q])
    {
      var row: seq<seq<nat>> := [];
      for q := 0 to n
        invariant |row| == q && forall a :: 0 <= a < q ==> row[a] == Lookup(p2r[c][a], recv[c][a])
      {
        var mapped := LookUp(p2r[c][q], recv[c][q]);
        row := row + [mapped];
      }
      table := table + [row];
    }
  }

  /** One round of the conversion on all ranks: every entry gets the element that the rank of its column
      has for it, in its original position. */
  method MapColumns(n: nat, all: seq<seq<Entry>>, p2r: ElementLists) returns (cols: seq<seq<nat>>)
    requires |all| == n && Square(n, p2r) && forall q :: 0 <= q < n ==> NamesColumns(n, p2r, all[q], q)
    ensures |cols| == n && forall q :: 0 <= q < n ==> Mapped(n, p2r, all[q], q, cols[q])
  {
    var returned := ConvertRemotely(n, all, p2r);
    cols := [];
    for q := 0 to n
      invariant |cols| == q && forall a :: 0 <= a < q ==> Mapped(n, p2r, all[a], a, cols[a])
    {
      assert Returned(n, p2r, all[q], q, returned[q]);
      var row := MergeBack(n, all[q], returned[q]);
      MergedIsMapped(n, p2r, all[q], q, returned[q], row);
      cols := cols + [row];
    }
  }

  /** The buckets of rank q, converted. */
  ghost predicate Returned(n: nat, p2r: ElementLists, items: seq<Entry>, q: nat, returned: seq<seq<nat>>)
    requires Square(n, p2r) && q < n
  {
    |returned| == n && forall c :: 0 <= c < n ==> Names(p2r[c][q], Bucket(items, c))
                                                  && returned[c] == Lookup(p2r[c][q], Bucket(items, c))
  }

  /** Buckets out, look-up on the ranks of the columns, buckets back. */
  method ConvertRemotely(n: nat, all: seq<seq<Entry>>, p2r: ElementLists) returns (returned: seq<seq<seq<nat>>>)
    requires |all| == n && Square(n, p2r) && forall q :: 0 <= q < n ==> NamesColumns(n, p2r, all[q], q)
    ensures |returned| == n && forall q :: 0 <= q < n ==> Returned(n, p2r, all[q], q, returned[q])
  {
    var buckets := BucketAll(n, all);
    var arrived := Transpose(n, buckets);
    forall c, q | 0 <= c < n && 0 <= q < n ensures Names(p2r[c][q], arrived[c][q]) {
      BucketInRange(n, p2r, all[q], q, c);
    }
    var found := LookUpAll(n, p2r, arrived);
    returned := Transpose(n, found);
    forall q | 0 <= q < n ensures Returned(n, p2r, all[q], q, returned[q]) {
      forall c | 0 <= c < n
        ensures Names(p2r[c][q], Bucket(all[q], c)) && returned[q][c] == Lookup(p2r[c][q], Bucket(all[q], c))
      {
        assert Names(p2r[c][q], arrived[c][q]) && arrived[c][q] == Bucket(all[q], c);
      }
    }
  }

  lemma MergedIsMapped(n: nat, p2r: ElementLists, items: seq<Entry>, q: nat, returned: seq<seq<nat>>, cols: seq<nat>)
    requires Square(n, p2r) && q < n && NamesColumns(n, p2r, items, q) && Returned(n, p2r, items, q, returned)
    requires |cols| == |items| && forall i :: 0 <= i < |items| ==> MergedAt(items, returned, i, cols[i])
    ensures Mapped(n, p2r, items, q, cols)
  {
    forall i | 0 <= i < |items| ensures cols[i] == ColumnOf(n, p2r, items[i], q) {
      BucketPosition(items, i);
      assert MergedAt(items, returned, i, cols[i]);
    }
  }
}
