/** A nodal field on the vertices of a mesh, from the partition to the restored field: RCB::generatePartitioning,
    RedecompMesh::BuildRedecomp and TransferByNodes of src/redecomp on all ranks. */
module VertexRoundTrip {
  import opened BisecTree
  import opened Exchange
  import opened RCBTree
  import opened RCBPartition
  import opened Redecomp
  import opened NodeLists
  import opened RedecompMesh
  import opened VDofTransfer
  import opened NodeTransfer
  import opened Repartition
  import FieldTransfer

  // ----- components of vertices

  /** The node and the component of a vector dof. */
  function NodeOf(s: Space, x: nat): (nat, nat)
    requires s.vdim > 0 && s.ndofs > 0
  {
    if s.byVDim then (x / s.vdim, x % s.vdim) else (x % s.ndofs, x / s.ndofs)
  }

  lemma QuotientOf(a: nat, b: nat, m: nat)
    requires b < m
    ensures (a * m + b) / m == a && (a * m + b) % m == b
  {
    var (q, r) := ((a * m + b) / m, (a * m + b) % m);
    assert q * m + r == a * m + b;
    DivUnique(a, b, q, r, m);
  }

  lemma NodeOfVDof(s: Space, u: nat, d: nat)
    requires u < s.ndofs && d < s.vdim
    ensures NodeOf(s, VDof(s, u, d)) == (u, d)
  {
    if s.byVDim { QuotientOf(u, d, s.vdim); } else { QuotientOf(d, u, s.ndofs); }
  }

  lemma QuotientInRange(x: nat, k: nat, m: nat)
    requires x < k * m
    ensures m > 0 && x / m < k && x == (x / m) * m + x % m
  {
    if k <= x / m { TimesMonotone(k, x / m, m); }
  }

  /** Every vector dof is a component of a node. */
  lemma VDofOfNode(s: Space, x: nat) returns (u: nat, d: nat)
    requires x < s.ndofs * s.vdim
    ensures u < s.ndofs && d < s.vdim && x == VDof(s, u, d)
  {
    QuotientInRange(x, s.ndofs, s.vdim);
    QuotientInRange(x, s.vdim, s.ndofs);
    u, d := NodeOf(s, x).0, NodeOf(s, x).1;
  }

  /** A field that ranks share: every component of a vertex has the value of its global number. */
  ghost predicate Shared<T>(s: Space, ids: seq<nat>, vector: seq<T>, field: (nat, nat) -> T) {
    && s.ndofs == |ids| && |vector| == s.ndofs * s.vdim
    && forall v: nat, d: nat :: v < |ids| && d < s.vdim ==> ValueAt(s, vector, v, d, field(ids[v], d))
  }

  /** The value that a vector dof of a rank is to have when `order` gives the global numbers of its nodes. */
  ghost function GlobalValue<T>(s: Space, order: seq<nat>, field: (nat, nat) -> T): nat -> T {
    (x: nat) =>
      if s.ndofs == 0 || s.vdim == 0 then field(0, 0)
      else
        var (u, d) := NodeOf(s, x);
        field(if u < |order| then order[u] else 0, d)
  }

  // ----- one pair of ranks

  /** Node u of the one rank and node w of the other have the same global number. */
  predicate SameVertex(ids: seq<nat>, order: seq<nat>, u: nat, w: nat) {
    u < |ids| && w < |order| && order[w] == ids[u]
  }

  predicate SameVertices(ids: seq<nat>, order: seq<nat>, a: seq<nat>, b: seq<nat>) {
    |a| == |b| && forall j :: 0 <= j < |a| ==> SameVertex(ids, order, a[j], b[j])
  }

  /** A listed vertex keeps its global number. */
  lemma VertexKeepsNumber<C>(m: Parent<C>, list: seq<Entity>, number: map<nat, nat>, order: seq<nat>, v: nat)
    requires WellIndexed(m) && FieldTransfer.InRange(list, |m.conn|) && Numbers(number, order)
    requires AllNumbered(m, list, number) && v in Nodes(LocalVisits(m, list))
    ensures SameVertex(m.globalId, order, v, VertexMap(number, m)(v))
  {
    VerticesNumbered(m, list, number);
    VisitsInRange(m, list);
    NodesAreDistinct(LocalVisits(m, list));
    var k :| 0 <= k < |LocalVisits(m, list)| && LocalVisits(m, list)[k].dof == v;
    assert VertexMap(number, m)(v) == number[m.globalId[v]];
  }

  /** The lists that the two ranks build on their own correspond vertex by vertex. */
  lemma PairConforms<C>(nVerts: nat -> nat, n: nat, parents: seq<Parent<C>>, xyz: nat -> C, p2r: ElementLists, q: nat,
                        mesh: Mesh<C>, number: map<nat, nat>, p: nat, a: NodeList, b: NodeList)
    requires Listable(n, parents, p2r) && Consistent(nVerts, parents, xyz) && q < n && p < n
    requires IsRebuilt(n, parents, xyz, p2r, q, mesh, number, VertexOrder(n, parents, p2r, q))
    requires Offset(n, p2r, q, p) + |p2r[p][q]| <= |mesh.elements|
    requires ListOf(LocalVisits(parents[p], p2r[p][q]), a)
    requires ListOf(BlockVisits(mesh.elements, Offset(n, p2r, q, p), p2r[p][q]), b)
    ensures |a.index| == |b.index| == |a.isGhost| && a.isGhost == b.isGhost
    ensures |VertexOrder(n, parents, p2r, q)| == |mesh.vertices|
    ensures SameVertices(parents[p].globalId, VertexOrder(n, parents, p2r, q), a.index, b.index)
  {
    hide IsRebuilt;
    hide Numbers;
    hide AllNumbered;
    hide VertexMap;
    hide LocalVisits;
    hide BlockVisits;
    hide Offset;
    hide VertexOrder;
    var (m, list, order) := (parents[p], p2r[p][q], VertexOrder(n, parents, p2r, q));
    assert WellIndexed(m) by { assert WellFormed(nVerts, m); }
    VertexListsPairUp(nVerts, n, parents, xyz, p2r, q, mesh, number, order, p);
    ListsConform(VertexMap(number, m), LocalVisits(m, list), BlockVisits(mesh.elements, Offset(n, p2r, q, p), list), a, b);
    RebuiltNumbers(n, parents, xyz, p2r, q, mesh, number, order, p);
    forall j | 0 <= j < |a.index| ensures SameVertex(m.globalId, order, a.index[j], b.index[j]) {
      assert a.index[j] in Nodes(LocalVisits(m, list));
      VertexKeepsNumber(m, list, number, order, a.index[j]);
    }
  }

  // ----- all ranks

  /** The parent meshes and the rebuilt ones. */
  datatype Meshes<C> = Meshes(n: nat, parents: seq<Parent<C>>, p2r: ElementLists, meshes: seq<Mesh<C>>,
                              numbers: seq<map<nat, nat>>)

  ghost predicate AllRebuilt<C>(nVerts: nat -> nat, xyz: nat -> C, r: Meshes<C>) {
    && Listable(r.n, r.parents, r.p2r) && Consistent(nVerts, r.parents, xyz) && |r.meshes| == |r.numbers| == r.n
    && forall q :: 0 <= q < r.n ==> RebuiltAt(xyz, r, q)
  }

  ghost predicate RebuiltAt<C>(xyz: nat -> C, r: Meshes<C>, q: nat)
    requires Listable(r.n, r.parents, r.p2r) && |r.meshes| == |r.numbers| == r.n && q < r.n
  {
    IsRebuilt(r.n, r.parents, xyz, r.p2r, q, r.meshes[q], r.numbers[q], VertexOrder(r.n, r.parents, r.p2r, q))
  }

  /** BuildRedecomp on all ranks. */
  method RebuildAll<C>(nVerts: nat -> nat, ghost xyz: nat -> C, n: nat, parents: seq<Parent<C>>, p2r: ElementLists,
                       blank: C) returns (r: Meshes<C>)
    requires Listable(n, parents, p2r) && Consistent(nVerts, parents, xyz)
    ensures r.n == n && r.parents == parents && r.p2r == p2r && AllRebuilt(nVerts, xyz, r)
  {
    hide MessageFor;
    hide IsRebuilt;
    hide VertexOrder;
    hide WellFormed;
    hide At;
    hide FieldTransfer.InRange;
    var received := ExchangeMessages(nVerts, xyz, n, parents, p2r);
    var meshes: seq<Mesh<C>>, numbers: seq<map<nat, nat>> := [], [];
    for q := 0 to n
      invariant |meshes| == |numbers| == q
      invariant forall a :: 0 <= a < q
                  ==> IsRebuilt(n, parents, xyz, p2r, a, meshes[a], numbers[a], VertexOrder(n, parents, p2r, a))
    {
      assert ReceivedFor(nVerts, n, parents, p2r, q, received[q]);
      var mesh, number := BuildRedecomp(nVerts, n, parents, xyz, p2r, q, received[q], blank);
      meshes, numbers := meshes + [mesh], numbers + [number];
    }
    r := Meshes(n, parents, p2r, meshes, numbers);
  }

  ghost predicate ReceivedFor<C>(nVerts: nat -> nat, n: nat, parents: seq<Parent<C>>, p2r: ElementLists, q: nat,
                                 messages: seq<Message<C>>)
    requires Listable(n, parents, p2r) && q < n && forall p :: 0 <= p < n ==> WellFormed(nVerts, parents[p])
  {
    |messages| == n && forall p :: 0 <= p < n ==> MessageFor(nVerts, parents[p], p2r[p][q], messages[p])
  }

  method ExchangeMessages<C>(nVerts: nat -> nat, ghost xyz: nat -> C, n: nat, parents: seq<Parent<C>>,
                             p2r: ElementLists) returns (received: seq<seq<Message<C>>>)
    requires Listable(n, parents, p2r) && Consistent(nVerts, parents, xyz)
    ensures |received| == n && forall q :: 0 <= q < n ==> ReceivedFor(nVerts, n, parents, p2r, q, received[q])
  {
    hide MessageFor;
    hide WellFormed;
    var sent: seq<seq<Message<C>>> := [];
    for p := 0 to n
      invariant |sent| == p && forall a :: 0 <= a < p ==> SentRow(nVerts, n, parents[a], p2r[a], sent[a])
    {
      var row := BuildRow(nVerts, n, parents[p], p2r[p]);
      sent := sent + [row];
    }
    received := Transpose(n, sent);
    forall q | 0 <= q < n ensures ReceivedFor(nVerts, n, parents, p2r, q, received[q]) {
      forall p | 0 <= p < n ensures MessageFor(nVerts, parents[p], p2r[p][q], received[q][p]) {
        assert SentRow(nVerts, n, parents[p], p2r[p], sent[p]);
      }
    }
  }

  ghost predicate SentRow<C>(nVerts: nat -> nat, n: nat, m: Parent<C>, lists: seq<seq<Entity>>, row: seq<Message<C>>) {
    && WellFormed(nVerts, m) && |lists| == |row| == n
    && forall q :: 0 <= q < n ==> FieldTransfer.InRange(lists[q], |m.conn|) && MessageFor(nVerts, m, lists[q], row[q])
  }

  method BuildRow<C>(ghost nVerts: nat -> nat, n: nat, m: Parent<C>, lists: seq<seq<Entity>>)
    returns (row: seq<Message<C>>)
    requires WellFormed(nVerts, m) && |lists| == n && forall q :: 0 <= q < n ==> FieldTransfer.InRange(lists[q], |m.conn|)
    ensures SentRow(nVerts, n, m, lists, row)
  {
    row := [];
    for q := 0 to n
      invariant |row| == q && forall b :: 0 <= b < q ==> MessageFor(nVerts, m, lists[b], row[b])
    {
      var msg := BuildMessage(nVerts, m, lists[q]);
      row := row + [msg];
    }
  }

  /** The nodal transfer of the vertices between these meshes: spaces of the meshes' sizes, and node lists that
      each side makes by its own walk. */
  ghost predicate VertexLists<C>(r: Meshes<C>, vdim: nat, t: Nodal) {
    && Listable(r.n, r.parents, r.p2r) && |r.meshes| == |t.ps| == |t.rs| == r.n
    && Square(r.n, t.p2r) && Square(r.n, t.r2p)
    && (forall p :: 0 <= p < r.n ==> t.ps[p].ndofs == |r.parents[p].globalId| && t.ps[p].vdim == vdim)
    && (forall q :: 0 <= q < r.n ==> t.rs[q].ndofs == |r.meshes[q].vertices| && t.rs[q].vdim == vdim)
    && forall p, q :: 0 <= p < r.n && 0 <= q < r.n ==> ListsAt(r, t, p, q)
  }

  ghost predicate ListsAt<C>(r: Meshes<C>, t: Nodal, p: nat, q: nat)
    requires Listable(r.n, r.parents, r.p2r) && |r.meshes| == r.n && Square(r.n, t.p2r) && Square(r.n, t.r2p)
    requires p < r.n && q < r.n
  {
    && ListOf(LocalVisits(r.parents[p], r.p2r[p][q]), t.p2r[p][q])
    && Offset(r.n, r.p2r, q, p) + |r.p2r[p][q]| <= |r.meshes[q].elements|
    && ListOf(BlockVisits(r.meshes[q].elements, Offset(r.n, r.p2r, q, p), r.p2r[p][q]), t.r2p[q][p])
  }

  lemma ListsConformAt<C>(nVerts: nat -> nat, xyz: nat -> C, r: Meshes<C>, vdim: nat, t: Nodal, p: nat, q: nat)
    requires AllRebuilt(nVerts, xyz, r) && VertexLists(r, vdim, t) && p < r.n && q < r.n
    ensures ConformingAt(t, p, q)
    ensures |VertexOrder(r.n, r.parents, r.p2r, q)| == t.rs[q].ndofs
    ensures SameVertices(r.parents[p].globalId, VertexOrder(r.n, r.parents, r.p2r, q), t.p2r[p][q].index,
                         t.r2p[q][p].index)
  {
    assert RebuiltAt(xyz, r, q) && ListsAt(r, t, p, q);
    PairConforms(nVerts, r.n, r.parents, xyz, r.p2r, q, r.meshes[q], r.numbers[q], p, t.p2r[p][q], t.r2p[q][p]);
  }

  lemma ListsConformAll<C>(nVerts: nat -> nat, xyz: nat -> C, r: Meshes<C>, vdim: nat, t: Nodal)
    requires AllRebuilt(nVerts, xyz, r) && VertexLists(r, vdim, t)
    ensures Conforming(r.n, t)
  {
    forall p, q | 0 <= p < r.n && 0 <= q < r.n ensures ConformingAt(t, p, q) {
      ListsConformAt(nVerts, xyz, r, vdim, t, p, q);
    }
  }

  ghost predicate AllShared<C, T>(r: Meshes<C>, t: Nodal, src: seq<seq<T>>, field: (nat, nat) -> T) {
    && |r.parents| == |t.ps| == |src| == r.n
    && forall p :: 0 <= p < r.n ==> Shared(t.ps[p], r.parents[p].globalId, src[p], field)
  }

  ghost function RankValue<C, T>(r: Meshes<C>, t: Nodal, field: (nat, nat) -> T, q: nat): nat -> T
    requires Listable(r.n, r.parents, r.p2r) && |t.rs| == r.n
  {
    if q < r.n then GlobalValue(t.rs[q], VertexOrder(r.n, r.parents, r.p2r, q), field)
    else GlobalValue(Space(0, 0, false), [], field)
  }

  ghost function FieldValue<C, T>(r: Meshes<C>, t: Nodal, field: (nat, nat) -> T): nat -> nat -> T
    requires Listable(r.n, r.parents, r.p2r) && |t.rs| == r.n
  {
    (q: nat) => RankValue(r, t, field, q)
  }

  /** A shared field agrees wherever a redecomp rank numbers a vertex of two parents once. */
  lemma SharedFieldAgrees<C, T>(nVerts: nat -> nat, xyz: nat -> C, r: Meshes<C>, vdim: nat, t: Nodal,
                                src: seq<seq<T>>, field: (nat, nat) -> T)
    requires AllRebuilt(nVerts, xyz, r) && VertexLists(r, vdim, t) && AllShared(r, t, src, field)
    ensures Conforming(r.n, t) && Fit(t.ps, src) && FieldAgrees(r.n, t, src, FieldValue(r, t, field))
  {
    var value := FieldValue(r, t, field);
    ListsConformAll(nVerts, xyz, r, vdim, t);
    forall p, q | 0 <= p < r.n && 0 <= q < r.n
      ensures FieldAgreesAt(t.ps[p], t.rs[q], t.p2r[p][q], t.r2p[q][p], src[p], value(q))
    {
      ListsConformAt(nVerts, xyz, r, vdim, t, p, q);
      AgreesAt(t.ps[p], t.rs[q], t.p2r[p][q], t.r2p[q][p], r.parents[p].globalId,
               VertexOrder(r.n, r.parents, r.p2r, q), src[p], field);
    }
  }

  lemma AgreesAt<T>(ps: Space, rs: Space, a: NodeList, b: NodeList, ids: seq<nat>, order: seq<nat>, vector: seq<T>,
                    field: (nat, nat) -> T)
    requires Shared(ps, ids, vector, field) && ps.vdim == rs.vdim && rs.ndofs == |order|
    requires SameVertices(ids, order, a.index, b.index)
    ensures FieldAgreesAt(ps, rs, a, b, vector, GlobalValue(rs, order, field))
  {
    forall j, d | 0 <= j < |a.index| && j < |b.index| && 0 <= d < ps.vdim
      ensures ValueAt(ps, vector, a.index[j], d, GlobalValue(rs, order, field)(VDof(rs, b.index[j], d)))
    {
      assert SameVertex(ids, order, a.index[j], b.index[j]);
      NodeOfVDof(rs, b.index[j], d);
      assert ValueAt(ps, vector, a.index[j], d, field(ids[a.index[j]], d));
    }
  }

  // ----- which vertices come back

  ghost predicate InElement<C>(m: Parent<C>, v: nat) {
    exists e :: 0 <= e < |m.conn| && v in m.conn[e]
  }

  /** Every element is owned by some redecomp rank. */
  ghost predicate AllOwnedSomewhere<C>(r: Meshes<C>) {
    && Listable(r.n, r.parents, r.p2r)
    && forall p, e :: 0 <= p < r.n && 0 <= e < |r.parents[p].conn| ==> FieldTransfer.Covered(r.n, r.p2r, p, e)
  }

  /** A vertex comes back exactly if it belongs to an element. */
  lemma VertexComesBack<C>(r: Meshes<C>, vdim: nat, t: Nodal, p: nat, v: nat, d: nat)
    requires VertexLists(r, vdim, t) && AllOwnedSomewhere(r) && p < r.n && WellIndexed(r.parents[p])
    requires v < t.ps[p].ndofs && d < vdim
    ensures (exists q :: 0 <= q < r.n && Returned(t, p, q, VDof(t.ps[p], v, d))) <==> InElement(r.parents[p], v)
  {
    var (m, x) := (r.parents[p], VDof(t.ps[p], v, d));
    forall q | 0 <= q < r.n
      ensures Returned(t, p, q, x)
         <==> exists k :: 0 <= k < |r.p2r[p][q]| && !r.p2r[p][q][k].isGhost && v in DofsOf(m.conn, r.p2r[p][q])[k]
    {
      ReturnedFrom(r, vdim, t, p, q, v, d);
    }
    if InElement(m, v) {
      var e :| 0 <= e < |m.conn| && v in m.conn[e];
      assert FieldTransfer.Covered(r.n, r.p2r, p, e);
      var q :| 0 <= q < r.n && FieldTransfer.OwnedBy(r.p2r, p, e, q);
      var k :| 0 <= k < |r.p2r[p][q]| && r.p2r[p][q][k] == Entity(e, false);
      assert v in DofsOf(m.conn, r.p2r[p][q])[k];
    }
    if q :| 0 <= q < r.n && Returned(t, p, q, x) {
      var k :| 0 <= k < |r.p2r[p][q]| && v in DofsOf(m.conn, r.p2r[p][q])[k];
      assert v in m.conn[r.p2r[p][q][k].index];
    }
  }

  lemma ReturnedFrom<C>(r: Meshes<C>, vdim: nat, t: Nodal, p: nat, q: nat, v: nat, d: nat)
    requires VertexLists(r, vdim, t) && p < r.n && q < r.n && WellIndexed(r.parents[p])
    requires v < t.ps[p].ndofs && d < vdim
    ensures Returned(t, p, q, VDof(t.ps[p], v, d))
       <==> exists k :: 0 <= k < |r.p2r[p][q]| && !r.p2r[p][q][k].isGhost
                        && v in DofsOf(r.parents[p].conn, r.p2r[p][q])[k]
  {
    var (m, list) := (r.parents[p], r.p2r[p][q]);
    assert ListsAt(r, t, p, q);
    VisitsInRange(m, list);
    NodesAreDistinct(LocalVisits(m, list));
    forall u | u in t.p2r[p][q].index ensures u < t.ps[p].ndofs {
      var k :| 0 <= k < |LocalVisits(m, list)| && LocalVisits(m, list)[k].dof == u;
    }
    NodeComesBack(t, p, q, DofsOf(m.conn, list), list, v, d);
  }

  // ----- the program

  method ParentLists<C>(m: Parent<C>, lists: seq<seq<Entity>>) returns (row: seq<NodeList>)
    requires forall q :: 0 <= q < |lists| ==> FieldTransfer.InRange(lists[q], |m.conn|)
    ensures |row| == |lists| && forall q :: 0 <= q < |lists| ==> ListOf(LocalVisits(m, lists[q]), row[q])
  {
    row := [];
    for q := 0 to |lists|
      invariant |row| == q && forall b :: 0 <= b < q ==> ListOf(LocalVisits(m, lists[b]), row[b])
    {
      var index, isGhost := P2RNodeList(m.conn, lists[q]);
      row := row + [NodeList(index, isGhost)];
    }
  }

  /** On redecomp rank q, from its own elements, offsets and ghosts. */
  method RedecompLists(n: nat, p2r: ElementLists, q: nat, elements: seq<seq<nat>>) returns (row: seq<NodeList>)
    requires Square(n, p2r) && q < n && |elements| == Offset(n, p2r, q, n)
    ensures |row| == n && forall p :: 0 <= p < n ==> BlockList(n, p2r, q, elements, p, row[p])
  {
    hide BlockList;
    var offsets := BuildElemOffsets(Sizes(n, p2r, q));
    row := [];
    for p := 0 to n
      invariant |row| == p && forall a :: 0 <= a < p ==> BlockList(n, p2r, q, elements, a, row[a])
    {
      var list := BuildBlockList(n, p2r, q, elements, p, offsets[p], offsets[p + 1]);
      row := row + [list];
    }
  }

  method BuildBlockList(ghost n: nat, p2r: ElementLists, q: nat, elements: seq<seq<nat>>, p: nat, first: nat, last: nat)
    returns (list: NodeList)
    requires Square(n, p2r) && q < n && |elements| == Offset(n, p2r, q, n) && p < n
    requires first == Offset(n, p2r, q, p) && last == Offset(n, p2r, q, p + 1)
    ensures BlockList(n, p2r, q, elements, p, list)
  {
    hide GhostsOf;
    hide Nodes;
    hide OnlyGhost;
    var packed := PackGhosts(p2r[p][q]);
    var ghosts := ShiftGhosts(p2r[p][q], packed, first);
    SumToMonotone(Sizes(n, p2r, q), p + 1, n);
    var index, isGhost := R2PNodeList(elements, first, last, ghosts, p2r[p][q]);
    list := NodeList(index, isGhost);
  }

  ghost predicate BlockList(n: nat, p2r: ElementLists, q: nat, elements: seq<seq<nat>>, p: nat, list: NodeList)
    requires Square(n, p2r) && q < n && p < n
  {
    && Offset(n, p2r, q, p) + |p2r[p][q]| <= |elements|
    && ListOf(BlockVisits(elements, Offset(n, p2r, q, p), p2r[p][q]), list)
  }

  method ParentTable<C>(n: nat, parents: seq<Parent<C>>, p2r: ElementLists) returns (table: seq<seq<NodeList>>)
    requires Listable(n, parents, p2r)
    ensures Square(n, table)
    ensures forall p, q :: 0 <= p < n && 0 <= q < n ==> ListOf(LocalVisits(parents[p], p2r[p][q]), table[p][q])
  {
    hide ListOf;
    table := [];
    for p := 0 to n
      invariant |table| == p && forall a :: 0 <= a < p ==> |table[a]| == n
      invariant forall a, q :: 0 <= a < p && 0 <= q < n ==> ListOf(LocalVisits(parents[a], p2r[a][q]), table[a][q])
    {
      var row := ParentLists(parents[p], p2r[p]);
      table := table + [row];
    }
  }

  method RedecompTable(n: nat, p2r: ElementLists, elements: seq<seq<seq<nat>>>) returns (table: seq<seq<NodeList>>)
    requires Square(n, p2r) && |elements| == n && forall q :: 0 <= q < n ==> |elements[q]| == Offset(n, p2r, q, n)
    ensures Square(n, table)
    ensures forall p, q :: 0 <= p < n && 0 <= q < n ==> BlockList(n, p2r, q, elements[q], p, table[q][p])
  {
    hide BlockList;
    table := [];
    for q := 0 to n
      invariant |table| == q && forall b :: 0 <= b < q ==> |table[b]| == n
      invariant forall p, b :: 0 <= p < n && 0 <= b < q ==> BlockList(n, p2r, b, elements[b], p, table[b][p])
    {
      var row := RedecompLists(n, p2r, q, elements[q]);
      table := table + [row];
    }
  }

  lemma ElementCounts<C>(nVerts: nat -> nat, xyz: nat -> C, r: Meshes<C>)
    requires AllRebuilt(nVerts, xyz, r)
    ensures forall q :: 0 <= q < r.n ==> |r.meshes[q].elements| == Offset(r.n, r.p2r, q, r.n)
  {
    forall q | 0 <= q < r.n ensures |r.meshes[q].elements| == Offset(r.n, r.p2r, q, r.n) {
      assert RebuiltAt(xyz, r, q);
      FieldTransfer.BlockLength(r.n, r.p2r, Tables(r.parents, r.numbers[q]), q, r.n);
    }
  }

  /** The spaces and node lists that the constructor of TransferByNodes makes on all ranks. */
  method MakeLists<C>(ghost nVerts: nat -> nat, ghost xyz: nat -> C, r: Meshes<C>, vdim: nat, parentByVDim: bool,
                      redecompByVDim: bool) returns (t: Nodal)
    requires AllRebuilt(nVerts, xyz, r)
    ensures VertexLists(r, vdim, t)
    ensures forall p :: 0 <= p < r.n ==> t.ps[p] == ParentSpace(r.parents[p], vdim, parentByVDim)
  {
    hide ListOf;
    hide RebuiltAt;
    hide Consistent;
    ElementCounts(nVerts, xyz, r);
    var elements := seq(r.n, q requires 0 <= q < r.n => r.meshes[q].elements);
    var p2r := ParentTable(r.n, r.parents, r.p2r);
    var r2p := RedecompTable(r.n, r.p2r, elements);
    var ps := seq(r.n, p requires 0 <= p < r.n => ParentSpace(r.parents[p], vdim, parentByVDim));
    var rs := seq(r.n, q requires 0 <= q < r.n => Space(|r.meshes[q].vertices|, vdim, redecompByVDim));
    t := Nodal(ps, rs, p2r, r2p);
    forall p, q | 0 <= p < r.n && 0 <= q < r.n ensures ListsAt(r, t, p, q) {
      assert BlockList(r.n, r.p2r, q, elements[q], p, r2p[q][p]);
    }
  }

  function ParentSpace<C>(m: Parent<C>, vdim: nat, byVDim: bool): Space {
    Space(|m.globalId|, vdim, byVDim)
  }

  /** Entry x of the vector that comes back is the one of src for a vertex of an element, else the one of dst0. */
  ghost predicate Kept<T>(src: seq<T>, dst0: seq<T>, dst: seq<T>, x: nat, restored: bool) {
    && x < |src| == |dst0| == |dst|
    && dst[x] == if restored then src[x] else dst0[x]
  }

  /** What is left on a parent rank: every component of every vertex of an element is restored, and components
      of other vertices keep what was there before. */
  ghost predicate Restored<C, T>(m: Parent<C>, s: Space, src: seq<T>, dst0: seq<T>, dst: seq<T>) {
    && |dst| == |src| == |dst0| == s.ndofs * s.vdim
    && forall v: nat, d: nat :: v < s.ndofs && d < s.vdim ==> Kept(src, dst0, dst, VDof(s, v, d), InElement(m, v))
  }

  /** The state between the two transfers. */
  ghost predicate There<T>(n: nat, t: Nodal, src: seq<seq<T>>, redecomp0: seq<seq<T>>, redecomp: seq<seq<T>>) {
    && Conforming(n, t) && Fit(t.ps, src) && Fit(t.rs, redecomp0) && Fit(t.rs, redecomp)
    && Matched(n, RouteOf(n, t).send, RouteOf(n, t).recv, src, redecomp0)
    && forall b :: 0 <= b < n
         ==> redecomp[b] == Moved(n, RouteOf(n, t).send, RouteOf(n, t).recv, src, redecomp0, b, n)
  }

  ghost function Back<T>(n: nat, t: Nodal, redecomp: seq<seq<T>>, dst0: seq<seq<T>>, p: nat): (r: seq<T>)
    requires Conforming(n, t) && Fit(t.rs, redecomp) && Fit(t.ps, dst0) && p < n
    ensures |r| == t.ps[p].ndofs * t.ps[p].vdim
  {
    RouteFits(n, t, dst0, redecomp, dst0);
    Moved(n, RouteOf(n, t).resend, RouteOf(n, t).rerecv, redecomp, dst0, p, n)
  }

  /** What comes back to one vertex. */
  lemma VertexBack<C, T>(r: Meshes<C>, vdim: nat, t: Nodal, src: seq<seq<T>>, redecomp0: seq<seq<T>>,
                         redecomp: seq<seq<T>>, dst0: seq<seq<T>>, value: nat -> nat -> T, p: nat, v: nat, d: nat)
    requires VertexLists(r, vdim, t) && AllOwnedSomewhere(r) && p < r.n && WellIndexed(r.parents[p])
    requires There(r.n, t, src, redecomp0, redecomp) && FieldAgrees(r.n, t, src, value) && Fit(t.ps, dst0)
    requires v < t.ps[p].ndofs && d < vdim
    ensures Kept(src[p], dst0[p], Back(r.n, t, redecomp, dst0, p), VDof(t.ps[p], v, d), InElement(r.parents[p], v))
  {
    hide RouteOf;
    hide Moved;
    hide Matched;
    hide ListsAt;
    hide InElement;
    hide Conforming;
    hide VDof;
    hide FieldAgrees;
    VDofInRange(t.ps[p], v, d);
    NodalRoundTrip(r.n, t, src, redecomp0, redecomp, dst0, value, p, VDof(t.ps[p], v, d));
    VertexComesBack(r, vdim, t, p, v, d);
  }

  /** What comes back to parent rank p. */
  lemma RankBack<C, T>(r: Meshes<C>, vdim: nat, t: Nodal, src: seq<seq<T>>, redecomp0: seq<seq<T>>,
                       redecomp: seq<seq<T>>, dst0: seq<seq<T>>, value: nat -> nat -> T, p: nat)
    requires VertexLists(r, vdim, t) && AllOwnedSomewhere(r) && p < r.n && WellIndexed(r.parents[p])
    requires There(r.n, t, src, redecomp0, redecomp) && FieldAgrees(r.n, t, src, value) && Fit(t.ps, dst0)
    ensures Restored(r.parents[p], t.ps[p], src[p], dst0[p], Back(r.n, t, redecomp, dst0, p))
  {
    hide FieldAgrees;
    hide AllOwnedSomewhere;
    hide Conforming;
    hide Matched;
    hide RouteOf;
    hide Moved;
    hide InElement;
    hide ListsAt;
    hide VDof;
    hide Back;
    forall v: nat, d: nat | v < t.ps[p].ndofs && d < vdim
      ensures Kept(src[p], dst0[p], Back(r.n, t, redecomp, dst0, p), VDof(t.ps[p], v, d), InElement(r.parents[p], v))
    {
      VertexBack(r, vdim, t, src, redecomp0, redecomp, dst0, value, p, v, d);
    }
  }

  /** The values that the two transfers leave on all parent ranks. */
  lemma RestoredAt<C, T>(nVerts: nat -> nat, xyz: nat -> C, r: Meshes<C>, vdim: nat, t: Nodal,
                         field: (nat, nat) -> T, src: seq<seq<T>>, redecomp0: seq<seq<T>>, redecomp: seq<seq<T>>,
                         dst0: seq<seq<T>>, p: nat)
    requires AllRebuilt(nVerts, xyz, r) && VertexLists(r, vdim, t) && AllShared(r, t, src, field)
    requires AllOwnedSomewhere(r) && There(r.n, t, src, redecomp0, redecomp) && Fit(t.ps, dst0) && p < r.n
    ensures Restored(r.parents[p], t.ps[p], src[p], dst0[p], Back(r.n, t, redecomp, dst0, p))
  {
    hide FieldAgrees;
    hide AllShared;
    hide AllOwnedSomewhere;
    hide Conforming;
    hide Matched;
    hide RouteOf;
    hide Moved;
    hide RebuiltAt;
    hide ListsAt;
    hide Restored;
    hide Back;
    hide FieldValue;
    SharedFieldAgrees(nVerts, xyz, r, vdim, t, src, field);
    RankBack(r, vdim, t, src, redecomp0, redecomp, dst0, FieldValue(r, t, field), p);
  }

  /** Both transfers, on all ranks. */
  method MoveAndReturn<C, T>(ghost nVerts: nat -> nat, ghost xyz: nat -> C, r: Meshes<C>, vdim: nat, t: Nodal,
                             ghost field: (nat, nat) -> T, src: seq<seq<T>>, dst0: seq<seq<T>>, blank: T)
    returns (dst: seq<seq<T>>)
    requires AllRebuilt(nVerts, xyz, r) && VertexLists(r, vdim, t) && AllShared(r, t, src, field)
    requires AllOwnedSomewhere(r) && Fit(t.ps, dst0)
    ensures |dst| == r.n && forall p :: 0 <= p < r.n ==> Restored(r.parents[p], t.ps[p], src[p], dst0[p], dst[p])
  {
    hide RouteOf;
    hide Moved;
    hide Matched;
    hide RebuiltAt;
    hide ListsAt;
    hide Restored;
    hide Conforming;
    ListsConformAll(nVerts, xyz, r, vdim, t);
    assert Fit(t.ps, src) by { assert forall p :: 0 <= p < r.n ==> Shared(t.ps[p], r.parents[p].globalId, src[p], field); }
    var redecomp0 := seq(r.n, q requires 0 <= q < r.n => seq(t.rs[q].ndofs * t.rs[q].vdim, _ => blank));
    var redecomp := NodeTransfer.TransferToSerial(r.n, t, src, redecomp0);
    dst := NodeTransfer.TransferToParallel(r.n, t, redecomp, dst0);
    forall p | 0 <= p < r.n ensures Restored(r.parents[p], t.ps[p], src[p], dst0[p], dst[p]) {
      RestoredAt(nVerts, xyz, r, vdim, t, field, src, redecomp0, redecomp, dst0, p);
    }
  }

  /** On every parent rank every vertex belongs to an element. */
  ghost predicate NoLooseVertices<C>(parents: seq<Parent<C>>) {
    forall p, v :: 0 <= p < |parents| && 0 <= v < |parents[p].globalId| ==> InElement(parents[p], v)
  }

  lemma WholeVector<C, T>(m: Parent<C>, s: Space, src: seq<T>, dst0: seq<T>, dst: seq<T>)
    requires Restored(m, s, src, dst0, dst) && forall v :: 0 <= v < s.ndofs ==> InElement(m, v)
    ensures dst == src
  {
    forall x | 0 <= x < |dst| ensures dst[x] == src[x] {
      var v, d := VDofOfNode(s, x);
      assert Kept(src, dst0, dst, VDof(s, v, d), InElement(m, v));
    }
  }

  lemma PartitionOwnsAll<C>(c: Config, k: nat, nodes: seq<seq<RCBInfo>>, r: Meshes<C>)
    requires Partitioned(c, k, r.n, nodes, r.p2r) && |r.parents| == r.n
    requires forall p :: 0 <= p < r.n ==> |r.parents[p].conn| == |c.coords[p]|
    ensures AllOwnedSomewhere(r)
  {
    var conn := seq(r.n, p requires 0 <= p < r.n => r.parents[p].conn);
    AllCovered(c, k, r.n, nodes, r.p2r, conn);
    forall p, q | 0 <= p < r.n && 0 <= q < r.n ensures FieldTransfer.InRange(r.p2r[p][q], |r.parents[p].conn|) {
      assert FieldTransfer.InRange(r.p2r[p][q], |conn[p]|);
    }
    forall p, e | 0 <= p < r.n && 0 <= e < |r.parents[p].conn| ensures FieldTransfer.Covered(r.n, r.p2r, p, e) {
      assert e < |conn[p]|;
    }
  }

  /** Partition the mesh, rebuild it, move a nodal field of the vertices to the redecomp meshes and move it back:
      every component of every vertex of an element is restored on every parent rank, whatever the centroids,
      the connectivity, the number of parts and ranks, and the orderings of the components are. */
  method PartitionAndReturn<C, T>(
    c: Config, k: nat, n: nat, ghost grid: set<real>, big: real, nVerts: nat -> nat, ghost xyz: nat -> C,
    parents: seq<Parent<C>>, nowhere: C, vdim: nat, parentByVDim: bool, redecompByVDim: bool,
    ghost field: (nat, nat) -> T, src: seq<seq<T>>, dst0: seq<seq<T>>, blank: T) returns (dst: seq<seq<T>>)
    requires 1 <= k <= n && |c.coords| == |parents| == n && Configured(c, grid, big)
    requires Consistent(nVerts, parents, xyz) && forall p :: 0 <= p < n ==> |parents[p].conn| == |c.coords[p]|
    requires |src| == |dst0| == n
    requires forall p :: 0 <= p < n ==> |dst0[p]| == |src[p]|
    requires forall p :: 0 <= p < n
               ==> Shared(ParentSpace(parents[p], vdim, parentByVDim), parents[p].globalId, src[p], field)
    ensures |dst| == n
    ensures forall p :: 0 <= p < n
              ==> Restored(parents[p], ParentSpace(parents[p], vdim, parentByVDim), src[p], dst0[p], dst[p])
    ensures NoLooseVertices(parents) ==> dst == src
  {
    hide Configured;
    hide Partitioned;
    hide ListsAt;
    hide RebuiltAt;
    hide Restored;
    hide Consistent;
    hide InElement;
    var nodes, p2r := PartitionAll(c, k, n, grid, big);
    PartitionOwnsAll(c, k, nodes, Meshes(n, parents, p2r, [], []));
    var r := RebuildAll(nVerts, xyz, n, parents, p2r, nowhere);
    var t := MakeLists(nVerts, xyz, r, vdim, parentByVDim, redecompByVDim);
    dst := MoveAndReturn(nVerts, xyz, r, vdim, t, field, src, dst0, blank);
    if NoLooseVertices(parents) {
      forall p | 0 <= p < n ensures dst[p] == src[p] {
        WholeVector(parents[p], t.ps[p], src[p], dst0[p], dst[p]);
      }
    }
  }
}
