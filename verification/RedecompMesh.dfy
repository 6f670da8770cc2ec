/** The rebuilding of the mesh on one redecomp rank: vertex renumbering, vertex coordinates and element
    connectivity of BuildRedecomp in src/redecomp/RedecompMesh.cpp. */
module RedecompMesh {
  import opened Exchange
  import opened RCBPartition
  import opened Redecomp
  import opened NodeLists
  import FieldTransfer

  /** What BuildRedecomp reads of a parent rank: type, attribute and vertices of each element, and for each
      vertex its coordinates and its global number. */
  datatype Parent<C> = Parent(types: seq<nat>, attributes: seq<int>, conn: seq<seq<nat>>, coords: seq<C>,
                              globalId: seq<nat>)

  /** nVerts gives the number of vertices of an element of each type. */
  ghost predicate WellFormed<C>(nVerts: nat -> nat, m: Parent<C>) {
    && WellIndexed(m) && |m.types| == |m.attributes| == |m.conn|
    && (forall e :: 0 <= e < |m.conn| ==> |m.conn[e]| == nVerts(m.types[e]))
  }

  ghost predicate WellIndexed<C>(m: Parent<C>) {
    && |m.coords| == |m.globalId|
    && (forall e, j :: 0 <= e < |m.conn| && 0 <= j < |m.conn[e]| ==> m.conn[e][j] < |m.globalId|)
    && (forall v, w :: 0 <= v < w < |m.globalId| ==> m.globalId[v] != m.globalId[w])
  }

  /** Ranks that share a vertex agree on its coordinates: they are a function of the global number. */
  ghost predicate Consistent<C>(nVerts: nat -> nat, parents: seq<Parent<C>>, xyz: nat -> C) {
    forall p :: 0 <= p < |parents| ==> WellFormed(nVerts, parents[p]) && At(parents[p], xyz)
  }

  ghost predicate At<C>(m: Parent<C>, xyz: nat -> C) {
    |m.coords| == |m.globalId| && forall v :: 0 <= v < |m.coords| ==> m.coords[v] == xyz(m.globalId[v])
  }

  function GlobalNumber<C>(m: Parent<C>): nat -> nat {
    (v: nat) => if v < |m.globalId| then m.globalId[v] else 0
  }

  /** Visits of the listed elements, by local and by global vertex number. */
  function LocalVisits<C>(m: Parent<C>, list: seq<Entity>): seq<Visit>
    requires FieldTransfer.InRange(list, |m.conn|)
  {
    Visits(DofsOf(m.conn, list), list)
  }

  function GlobalTable<C>(m: Parent<C>): seq<seq<nat>> {
    RenumberAll(GlobalNumber(m), m.conn)
  }

  lemma {:induction false} VisitsInRange<C>(m: Parent<C>, list: seq<Entity>)
    requires WellIndexed(m) && FieldTransfer.InRange(list, |m.conn|)
    ensures forall k :: 0 <= k < |LocalVisits(m, list)| ==> LocalVisits(m, list)[k].dof < |m.globalId|
  {
    if list != [] {
      var (k, dofs) := (|list| - 1, DofsOf(m.conn, list));
      VisitsInRange(m, list[..k]);
      assert dofs[..k] == DofsOf(m.conn, list[..k]);
      var last := seq(|dofs[k]|, j requires 0 <= j < |dofs[k]| => Visit(dofs[k][j], list[k].isGhost));
      assert LocalVisits(m, list) == LocalVisits(m, list[..k]) + last;
      assert forall j :: 0 <= j < |last| ==> last[j].dof == m.conn[list[k].index][j];
    }
  }

  /** The list of global vertex numbers is the list of local ones, renumbered: both are built by
      P2RNodeList, and correspond position by position. */
  lemma GlobalNodes<C>(m: Parent<C>, list: seq<Entity>)
    requires WellIndexed(m) && FieldTransfer.InRange(list, |m.conn|)
    ensures Nodes(Visits(DofsOf(GlobalTable(m), list), list)) == Renumber(GlobalNumber(m), Nodes(LocalVisits(m, list)))
    ensures forall i :: 0 <= i < |Nodes(LocalVisits(m, list))| ==> Nodes(LocalVisits(m, list))[i] < |m.globalId|
  {
    VisitsInRange(m, list);
    assert DofsOf(GlobalTable(m), list) == RenumberAll(GlobalNumber(m), DofsOf(m.conn, list));
    VisitsCommute(GlobalNumber(m), DofsOf(m.conn, list), list);
    NodesCommute(GlobalNumber(m), LocalVisits(m, list));
    var nodes := Nodes(LocalVisits(m, list));
    NodesAreDistinct(LocalVisits(m, list));
    forall i | 0 <= i < |nodes| ensures nodes[i] < |m.globalId| {
      assert nodes[i] in nodes;
    }
  }

  // ----- vert_idx_map

  function Unmarked(ids: seq<nat>): (r: seq<Visit>)
    ensures |r| == |ids| && forall i :: 0 <= i < |ids| ==> r[i] == Visit(ids[i], false)
  {
    seq(|ids|, i requires 0 <= i < |ids| => Visit(ids[i], false))
  }

  /** The global vertex numbers in order of first appearance. */
  function Distinct(ids: seq<nat>): seq<nat> {
    Nodes(Unmarked(ids))
  }

  lemma DistinctSnoc(ids: seq<nat>, g: nat)
    ensures Distinct(ids + [g]) == if g in Distinct(ids) then Distinct(ids) else Distinct(ids) + [g]
  {
    assert Unmarked(ids + [g])[..|ids|] == Unmarked(ids);
  }

  lemma DistinctMembers(ids: seq<nat>, g: nat)
    ensures g in Distinct(ids) <==> g in ids
  {
    NodesAreDistinct(Unmarked(ids));
    if g in ids {
      var i :| 0 <= i < |ids| && ids[i] == g;
      assert Unmarked(ids)[i].dof == g;
    }
  }

  /** number gives each global number its position in order, and covers no others. */
  ghost predicate Numbers(number: map<nat, nat>, order: seq<nat>) {
    && (forall g :: g in number ==> number[g] < |order| && order[number[g]] == g)
    && (forall i :: 0 <= i < |order| ==> order[i] in number && number[order[i]] == i)
  }

  /** row holds the positions of ids in order. */
  ghost predicate Positions(order: seq<nat>, ids: seq<nat>, row: seq<nat>) {
    |row| == |ids| && forall v :: 0 <= v < |ids| ==> row[v] < |order| && order[row[v]] == ids[v]
  }

  /** emplace: numbers g if it has no number yet. */
  method Emplace(number0: map<nat, nat>, count0: nat, g: nat, ghost done: seq<nat>)
    returns (number: map<nat, nat>, count: nat)
    requires Numbers(number0, Distinct(done)) && count0 == |Distinct(done)|
    ensures Numbers(number, Distinct(done + [g])) && count == |Distinct(done + [g])|
    ensures Distinct(done) <= Distinct(done + [g]) && g in number
  {
    DistinctSnoc(done, g);
    ghost var order := Distinct(done);
    number, count := number0, count0;
    if g !in number {
      assert g !in order;
      number := number[g := count];
      count := count + 1;
    } else {
      assert order[number[g]] in order;
    }
  }

  /** The pass over the numbers received from one rank. */
  method NumberRow(ids: seq<nat>, number0: map<nat, nat>, count0: nat, ghost done: seq<nat>)
    returns (number: map<nat, nat>, row: seq<nat>, count: nat)
    requires Numbers(number0, Distinct(done)) && count0 == |Distinct(done)|
    ensures Numbers(number, Distinct(done + ids)) && count == |Distinct(done + ids)|
    ensures Distinct(done) <= Distinct(done + ids) && Positions(Distinct(done + ids), ids, row)
  {
    number, row, count := number0, [], count0;
    assert done + ids[..0] == done;
    for v := 0 to |ids|
      invariant Numbers(number, Distinct(done + ids[..v])) && count == |Distinct(done + ids[..v])|
      invariant Distinct(done) <= Distinct(done + ids[..v]) && Positions(Distinct(done + ids[..v]), ids[..v], row)
    {
      assert done + ids[..v + 1] == done + ids[..v] + [ids[v]];
      number, count := Emplace(number, count, ids[v], done + ids[..v]);
      row := row + [number[ids[v]]];
    }
    assert ids[..|ids|] == ids;
  }

  /** Renumbers the received global vertex numbers in order of first appearance over all ranks. */
  method NumberVertices(received: seq<seq<nat>>) returns (number: map<nat, nat>, local: seq<seq<nat>>, count: nat)
    ensures Numbers(number, Distinct(FieldTransfer.Concat(received)))
    ensures count == |Distinct(FieldTransfer.Concat(received))| && |local| == |received|
    ensures forall r :: 0 <= r < |received| ==> Positions(Distinct(FieldTransfer.Concat(received)), received[r], local[r])
  {
    number, local, count := map[], [], 0;
    ghost var done := [];
    for r := 0 to |received|
      invariant done == FieldTransfer.Concat(received[..r]) && |local| == r
      invariant Numbers(number, Distinct(done)) && count == |Distinct(done)|
      invariant forall a :: 0 <= a < r ==> Positions(Distinct(done), received[a], local[a])
    {
      assert received[..r + 1][..r] == received[..r];
      ghost var before := done;
      var row;
      number, row, count := NumberRow(received[r], number, count, done);
      done := done + received[r];
      forall a | 0 <= a < r ensures Positions(Distinct(done), received[a], local[a]) {
        PositionsExtend(Distinct(before), Distinct(done), received[a], local[a]);
      }
      local := local + [row];
    }
    assert received[..|received|] == received;
  }

  lemma PositionsExtend(a: seq<nat>, b: seq<nat>, ids: seq<nat>, row: seq<nat>)
    requires a <= b && Positions(a, ids, row)
    ensures Positions(b, ids, row)
  {
  }

  // ----- vertices and elements

  /** The vertices numbered for these global numbers have their coordinates. */
  ghost predicate Located<C>(vertices: seq<C>, order: seq<nat>, xyz: nat -> C, ids: seq<nat>)
    requires |vertices| == |order|
  {
    forall v :: 0 <= v < |order| && order[v] in ids ==> vertices[v] == xyz(order[v])
  }

  /** Writes the received coordinates of one block at the new vertex numbers. */
  method PlaceVertices<C>(vertices0: seq<C>, local: seq<nat>, coords: seq<C>, ghost ids: seq<nat>,
                          ghost order: seq<nat>, ghost xyz: nat -> C, ghost done: seq<nat>)
    returns (vertices: seq<C>)
    requires |vertices0| == |order| && Positions(order, ids, local) && |coords| == |ids|
    requires forall i :: 0 <= i < |ids| ==> coords[i] == xyz(ids[i])
    requires forall i, j :: 0 <= i < j < |order| ==> order[i] != order[j]
    requires Located(vertices0, order, xyz, done)
    ensures |vertices| == |order| && Located(vertices, order, xyz, done + ids)
  {
    vertices := vertices0;
    assert done + ids[..0] == done;
    for i := 0 to |local|
      invariant |vertices| == |order| && Located(vertices, order, xyz, done + ids[..i])
    {
      assert done + ids[..i + 1] == done + ids[..i] + [ids[i]];
      vertices := vertices[local[i] := coords[i]];
    }
    assert ids[..|ids|] == ids;
  }

  /** Builds the elements of one block from the flat list of received connectivities; the type of an element
      tells how many of its entries are the element's. */
  method BuildElements(nVerts: nat -> nat, number: map<nat, nat>, flat: seq<nat>, types: seq<nat>,
                       ghost conn: seq<seq<nat>>)
    returns (elements: seq<seq<nat>>)
    requires flat == FieldTransfer.Concat(conn) && |types| == |conn|
    requires forall e :: 0 <= e < |conn| ==> nVerts(types[e]) == |conn[e]|
    requires forall e, j :: 0 <= e < |conn| && 0 <= j < |conn[e]| ==> conn[e][j] in number
    ensures elements == RenumberAll(Lookup(number), conn)
  {
    elements := [];
    var at := 0;
    for e := 0 to |types|
      invariant at == |FieldTransfer.Concat(conn[..e])| && |elements| == e
      invariant forall k :: 0 <= k < e ==> elements[k] == Renumber(Lookup(number), conn[k])
    {
      FieldTransfer.ConcatAt(conn, e);
      var vertices := flat[at..at + nVerts(types[e])];
      for j := 0 to |vertices|
        invariant |vertices| == |conn[e]|
        invariant forall i :: 0 <= i < j ==> vertices[i] == Lookup(number)(conn[e][i])
        invariant forall i :: j <= i < |vertices| ==> vertices[i] == conn[e][i]
      {
        vertices := vertices[j := number[vertices[j]]];
      }
      at := at + |vertices|;
      elements := elements + [vertices];
    }
  }

  function Lookup(number: map<nat, nat>): nat -> nat {
    (g: nat) => if g in number then number[g] else 0
  }

  /** The renumbering from a parent's local vertices to the redecomp vertices. */
  function VertexMap<C>(number: map<nat, nat>, m: Parent<C>): nat -> nat {
    (v: nat) => Lookup(number)(GlobalNumber(m)(v))
  }

  /** Every vertex of every listed element has been numbered, so that no lookup inserts a default. */
  lemma VerticesNumbered<C>(m: Parent<C>, list: seq<Entity>, number: map<nat, nat>)
    requires WellIndexed(m) && FieldTransfer.InRange(list, |m.conn|)
    requires forall g :: g in Nodes(Visits(DofsOf(GlobalTable(m), list), list)) ==> g in number
    ensures var conn := DofsOf(GlobalTable(m), list);
            forall k, j :: 0 <= k < |conn| && 0 <= j < |conn[k]| ==> conn[k][j] in number
    ensures forall k :: 0 <= k < |LocalVisits(m, list)| ==> GlobalNumber(m)(LocalVisits(m, list)[k].dof) in number
  {
    var conn := DofsOf(GlobalTable(m), list);
    forall k, j | 0 <= k < |conn| && 0 <= j < |conn[k]| ensures conn[k][j] in number {
      NodesComplete(conn, list, k, j);
    }
    GlobalNodes(m, list);
    var (visits, nodes) := (LocalVisits(m, list), Nodes(LocalVisits(m, list)));
    NodesAreDistinct(visits);
    forall k | 0 <= k < |visits| ensures GlobalNumber(m)(visits[k].dof) in number {
      var i :| 0 <= i < |nodes| && nodes[i] == visits[k].dof;
      assert Renumber(GlobalNumber(m), nodes)[i] in Renumber(GlobalNumber(m), nodes);
    }
  }

  /** The vertex renumbering tells the vertices of the listed elements apart. */
  lemma VertexMapInjective<C>(m: Parent<C>, list: seq<Entity>, number: map<nat, nat>, order: seq<nat>)
    requires WellIndexed(m) && FieldTransfer.InRange(list, |m.conn|) && Numbers(number, order)
    requires forall g :: g in Nodes(Visits(DofsOf(GlobalTable(m), list), list)) ==> g in number
    ensures InjectiveOn(VertexMap(number, m), LocalVisits(m, list))
  {
    VerticesNumbered(m, list, number);
    VisitsInRange(m, list);
    var (visits, f) := (LocalVisits(m, list), VertexMap(number, m));
    forall j, k | 0 <= j < |visits| && 0 <= k < |visits| && f(visits[j].dof) == f(visits[k].dof)
      ensures visits[j].dof == visits[k].dof
    {
      var (a, b) := (m.globalId[visits[j].dof], m.globalId[visits[k].dof]);
      assert GlobalNumber(m)(visits[j].dof) == a && GlobalNumber(m)(visits[k].dof) == b;
      assert a == order[number[a]] && b == order[number[b]];
    }
  }

  /** A redecomp mesh: vertex coordinates, and the vertices, type and attribute of each element. */
  datatype Mesh<C> = Mesh(vertices: seq<C>, elements: seq<seq<nat>>, types: seq<nat>, attributes: seq<int>)

  predicate Listable<C>(n: nat, parents: seq<Parent<C>>, p2r: ElementLists) {
    && Square(n, p2r) && |parents| == n
    && forall p, q :: 0 <= p < n && 0 <= q < n ==> FieldTransfer.InRange(p2r[p][q], |parents[p].conn|)
  }

  /** What parent rank p sends for its block: global vertex numbers, vertex coordinates in the same order,
      and types, flat connectivity and attributes of its elements. */
  datatype Message<C> = Message(ids: seq<nat>, coords: seq<C>, types: seq<nat>, flat: seq<nat>, attributes: seq<int>)

  method PackCoords<C>(m: Parent<C>, nodes: seq<nat>) returns (coords: seq<C>)
    requires forall i :: 0 <= i < |nodes| ==> nodes[i] < |m.coords|
    ensures |coords| == |nodes| && forall i :: 0 <= i < |nodes| ==> coords[i] == m.coords[nodes[i]]
  {
    coords := [];
    for v := 0 to |nodes|
      invariant |coords| == v && forall i :: 0 <= i < v ==> coords[i] == m.coords[nodes[i]]
    {
      coords := coords + [m.coords[nodes[v]]];
    }
  }

  method PackConnectivity<C>(m: Parent<C>, list: seq<Entity>) returns (flat: seq<nat>)
    requires FieldTransfer.InRange(list, |m.conn|)
    ensures flat == FieldTransfer.Concat(DofsOf(GlobalTable(m), list))
  {
    flat := [];
    ghost var conn := DofsOf(GlobalTable(m), list);
    for e := 0 to |list|
      invariant flat == FieldTransfer.Concat(conn[..e])
    {
      assert conn[..e + 1][..e] == conn[..e];
      flat := flat + Renumber(GlobalNumber(m), m.conn[list[e].index]);
    }
    assert conn[..|list|] == conn;
  }

  /** One value of each listed element: its type, or its attribute. */
  method PackTags<X>(tags: seq<X>, list: seq<Entity>) returns (packed: seq<X>)
    requires FieldTransfer.InRange(list, |tags|)
    ensures packed == FieldTransfer.Values(tags, list)
  {
    packed := [];
    for e := 0 to |list|
      invariant packed == FieldTransfer.Values(tags, list)[..e]
    {
      packed := packed + [tags[list[e].index]];
    }
  }

  /** The sending half on one parent rank, for one destination. */
  method BuildMessage<C>(ghost nVerts: nat -> nat, m: Parent<C>, list: seq<Entity>) returns (msg: Message<C>)
    requires WellFormed(nVerts, m) && FieldTransfer.InRange(list, |m.conn|)
    ensures MessageFor(nVerts, m, list, msg)
  {
    GlobalNodes(m, list);
    var ids, _ := P2RNodeList(GlobalTable(m), list);
    var nodes, _ := P2RNodeList(m.conn, list);
    var coords := PackCoords(m, nodes);
    var types := PackTags(m.types, list);
    var flat := PackConnectivity(m, list);
    var attributes := PackTags(m.attributes, list);
    msg := Message(ids, coords, types, flat, attributes);
  }

  ghost predicate MessageFor<C>(nVerts: nat -> nat, m: Parent<C>, list: seq<Entity>, msg: Message<C>)
    requires WellFormed(nVerts, m) && FieldTransfer.InRange(list, |m.conn|)
  {
    var (conn, nodes) := (DofsOf(GlobalTable(m), list), Nodes(LocalVisits(m, list)));
    && msg.ids == Nodes(Visits(conn, list)) && |msg.coords| == |msg.ids| == |nodes|
    && (forall i :: 0 <= i < |nodes| ==> nodes[i] < |m.globalId| && msg.ids[i] == m.globalId[nodes[i]]
                                         && msg.coords[i] == m.coords[nodes[i]])
    && msg.flat == FieldTransfer.Concat(conn)
    && msg.types == FieldTransfer.Values(m.types, list)
    && msg.attributes == FieldTransfer.Values(m.attributes, list)
  }

  ghost predicate AllNumbered<C>(m: Parent<C>, list: seq<Entity>, number: map<nat, nat>)
    requires FieldTransfer.InRange(list, |m.conn|)
  {
    forall g :: g in Nodes(Visits(DofsOf(GlobalTable(m), list), list)) ==> g in number
  }

  lemma NumbersDistinct(number: map<nat, nat>, order: seq<nat>)
    requires Numbers(number, order)
    ensures forall i, j :: 0 <= i < j < |order| ==> order[i] != order[j]
  {
    forall i, j | 0 <= i < j < |order| ensures order[i] != order[j] {
      assert number[order[i]] == i && number[order[j]] == j;
    }
  }

  lemma MessageCoords<C>(nVerts: nat -> nat, m: Parent<C>, list: seq<Entity>, msg: Message<C>, xyz: nat -> C)
    requires WellFormed(nVerts, m) && At(m, xyz) && FieldTransfer.InRange(list, |m.conn|)
    requires MessageFor(nVerts, m, list, msg)
    ensures forall i :: 0 <= i < |msg.ids| ==> msg.coords[i] == xyz(msg.ids[i])
  {
  }

  /** Element tables of the parents in redecomp vertex numbers. */
  function Tables<C>(parents: seq<Parent<C>>, number: map<nat, nat>): (r: seq<seq<seq<nat>>>)
    ensures |r| == |parents|
    ensures forall p :: 0 <= p < |parents| ==> r[p] == RenumberAll(VertexMap(number, parents[p]), parents[p].conn)
  {
    seq(|parents|, p requires 0 <= p < |parents| => RenumberAll(VertexMap(number, parents[p]), parents[p].conn))
  }

  lemma TableBlock<C>(m: Parent<C>, number: map<nat, nat>, list: seq<Entity>)
    requires FieldTransfer.InRange(list, |m.conn|)
    ensures RenumberAll(Lookup(number), DofsOf(GlobalTable(m), list))
         == FieldTransfer.Values(RenumberAll(VertexMap(number, m), m.conn), list)
  {
    var (a, b) := (RenumberAll(Lookup(number), DofsOf(GlobalTable(m), list)),
                   FieldTransfer.Values(RenumberAll(VertexMap(number, m), m.conn), list));
    forall k | 0 <= k < |list| ensures a[k] == b[k] {
      assert |a[k]| == |m.conn[list[k].index]| == |b[k]|;
      assert forall j :: 0 <= j < |a[k]| ==> a[k][j] == b[k][j];
    }
  }

  /** The global vertex numbers that parent rank p sends to rank q. */
  function SentIds<C>(m: Parent<C>, list: seq<Entity>): seq<nat>
    requires FieldTransfer.InRange(list, |m.conn|)
  {
    Nodes(Visits(DofsOf(GlobalTable(m), list), list))
  }

  function AllSentIds<C>(n: nat, parents: seq<Parent<C>>, p2r: ElementLists, q: nat): (r: seq<seq<nat>>)
    requires Listable(n, parents, p2r) && q < n
    ensures |r| == n && forall p :: 0 <= p < n ==> r[p] == SentIds(parents[p], p2r[p][q])
  {
    seq(n, p requires 0 <= p < n => SentIds(parents[p], p2r[p][q]))
  }

  /** The global vertices of rank q in the order of their new numbers: first appearance in the messages. */
  function VertexOrder<C>(n: nat, parents: seq<Parent<C>>, p2r: ElementLists, q: nat): seq<nat>
    requires Listable(n, parents, p2r) && q < n
  {
    Distinct(FieldTransfer.Concat(AllSentIds(n, parents, p2r, q)))
  }

  /** The elements of the first p blocks. */
  ghost function Rebuilt<C>(n: nat, parents: seq<Parent<C>>, p2r: ElementLists, q: nat, number: map<nat, nat>, p: nat)
    : seq<seq<nat>>
    requires Listable(n, parents, p2r) && q < n && p <= n
  {
    FieldTransfer.SerialBlocks(n, p2r, Tables(parents, number), q, p)
  }

  lemma BlocksSnoc<C>(n: nat, parents: seq<Parent<C>>, p2r: ElementLists, q: nat, number: map<nat, nat>, p: nat)
    requires Listable(n, parents, p2r) && q < n && p < n
    ensures Rebuilt(n, parents, p2r, q, number, p + 1)
         == Rebuilt(n, parents, p2r, q, number, p) + RenumberAll(Lookup(number), DofsOf(GlobalTable(parents[p]), p2r[p][q]))
  {
    TableBlock(parents[p], number, p2r[p][q]);
  }

  /** What rank q knows of the message of parent rank p: its numbers have been replaced by `local`. */
  ghost predicate Incoming<C>(nVerts: nat -> nat, m: Parent<C>, list: seq<Entity>, msg: Message<C>, order: seq<nat>,
                              local: seq<nat>) {
    && WellFormed(nVerts, m) && FieldTransfer.InRange(list, |m.conn|) && MessageFor(nVerts, m, list, msg)
    && Positions(order, SentIds(m, list), local)
  }

  method CreateVertices<C>(ghost nVerts: nat -> nat, n: nat, ghost parents: seq<Parent<C>>, ghost xyz: nat -> C, ghost p2r: ElementLists,
                           ghost q: nat, messages: seq<Message<C>>, ghost number: map<nat, nat>,
                           ghost order: seq<nat>, local: seq<seq<nat>>, blank: seq<C>)
    returns (vertices: seq<C>)
    requires Listable(n, parents, p2r) && q < n && |messages| == |local| == n
    requires forall p :: 0 <= p < n ==> Incoming(nVerts, parents[p], p2r[p][q], messages[p], order, local[p])
    requires forall p :: 0 <= p < n ==> At(parents[p], xyz)
    requires Numbers(number, order) && |blank| == |order|
    ensures |vertices| == |order|
    ensures Located(vertices, order, xyz, FieldTransfer.Concat(AllSentIds(n, parents, p2r, q)))
  {
    vertices := blank;
    ghost var ids := AllSentIds(n, parents, p2r, q);
    NumbersDistinct(number, order);
    for p := 0 to n
      invariant |vertices| == |order| && Located(vertices, order, xyz, FieldTransfer.Concat(ids[..p]))
    {
      FieldTransfer.ConcatSnoc(ids, p);
      MessageCoords(nVerts, parents[p], p2r[p][q], messages[p], xyz);
      vertices := PlaceVertices(vertices, local[p], messages[p].coords, ids[p], order, xyz,
                                FieldTransfer.Concat(ids[..p]));
    }
    assert ids[..n] == ids;
  }

  method CreateElements<C>(nVerts: nat -> nat, n: nat, ghost parents: seq<Parent<C>>, ghost p2r: ElementLists,
                           ghost q: nat, messages: seq<Message<C>>, number: map<nat, nat>, ghost order: seq<nat>,
                           ghost local: seq<seq<nat>>)
    returns (elements: seq<seq<nat>>, types: seq<nat>, attributes: seq<int>)
    requires Listable(n, parents, p2r) && Tagged(n, parents, p2r) && q < n && |messages| == |local| == n
    requires Numbers(number, order)
    requires forall p :: 0 <= p < n ==> Incoming(nVerts, parents[p], p2r[p][q], messages[p], order, local[p])
    ensures elements == Rebuilt(n, parents, p2r, q, number, n)
    ensures types == FieldTransfer.ToSerial(n, p2r, TypesOf(parents), q)
    ensures attributes == FieldTransfer.ToSerial(n, p2r, AttributesOf(parents), q)
  {
    elements, types, attributes := [], [], [];
    for p := 0 to n
      invariant elements == Rebuilt(n, parents, p2r, q, number, p)
      invariant types == FieldTransfer.SerialBlocks(n, p2r, TypesOf(parents), q, p)
      invariant attributes == FieldTransfer.SerialBlocks(n, p2r, AttributesOf(parents), q, p)
    {
      var block := UnpackElements(nVerts, parents[p], p2r[p][q], messages[p], number, order, local[p]);
      BlocksSnoc(n, parents, p2r, q, number, p);
      elements := elements + block;
      types := types + messages[p].types;
      attributes := attributes + messages[p].attributes;
    }
  }

  function TypesOf<C>(parents: seq<Parent<C>>): (r: seq<seq<nat>>)
    ensures |r| == |parents| && forall p :: 0 <= p < |parents| ==> r[p] == parents[p].types
  {
    seq(|parents|, p requires 0 <= p < |parents| => parents[p].types)
  }

  function AttributesOf<C>(parents: seq<Parent<C>>): (r: seq<seq<int>>)
    ensures |r| == |parents| && forall p :: 0 <= p < |parents| ==> r[p] == parents[p].attributes
  {
    seq(|parents|, p requires 0 <= p < |parents| => parents[p].attributes)
  }

  /** The lists name elements that have a type and an attribute. */
  ghost predicate Tagged<C>(n: nat, parents: seq<Parent<C>>, p2r: ElementLists) {
    FieldTransfer.Listed(n, p2r, TypesOf(parents)) && FieldTransfer.Listed(n, p2r, AttributesOf(parents))
  }

  lemma AllTagged<C>(nVerts: nat -> nat, n: nat, parents: seq<Parent<C>>, p2r: ElementLists)
    requires Listable(n, parents, p2r) && forall p :: 0 <= p < n ==> WellFormed(nVerts, parents[p])
    ensures Tagged(n, parents, p2r)
  {
    forall p, q | 0 <= p < n && 0 <= q < n
      ensures FieldTransfer.InRange(p2r[p][q], |parents[p].types|)
      ensures FieldTransfer.InRange(p2r[p][q], |parents[p].attributes|)
    {
      assert WellFormed(nVerts, parents[p]) && FieldTransfer.InRange(p2r[p][q], |parents[p].conn|);
    }
  }

  method UnpackElements<C>(nVerts: nat -> nat, ghost m: Parent<C>, ghost list: seq<Entity>, msg: Message<C>,
                           number: map<nat, nat>, ghost order: seq<nat>, ghost local: seq<nat>)
    returns (elements: seq<seq<nat>>)
    requires Incoming(nVerts, m, list, msg, order, local) && Numbers(number, order)
    ensures elements == RenumberAll(Lookup(number), DofsOf(GlobalTable(m), list))
  {
    SentNumbered(m, list, number, order, local);
    VerticesNumbered(m, list, number);
    elements := BuildElements(nVerts, number, msg.flat, msg.types, DofsOf(GlobalTable(m), list));
  }

  method NumberBlocks<C>(ghost nVerts: nat -> nat, n: nat, ghost parents: seq<Parent<C>>, ghost p2r: ElementLists, ghost q: nat,
                         messages: seq<Message<C>>)
    returns (number: map<nat, nat>, local: seq<seq<nat>>, count: nat)
    requires Listable(n, parents, p2r) && q < n && |messages| == n
    requires forall p :: 0 <= p < n ==> WellFormed(nVerts, parents[p]) && MessageFor(nVerts, parents[p], p2r[p][q], messages[p])
    ensures var order := VertexOrder(n, parents, p2r, q);
      && Numbers(number, order) && count == |order| && |local| == n
      && forall p :: 0 <= p < n ==> Incoming(nVerts, parents[p], p2r[p][q], messages[p], order, local[p])
  {
    var received := seq(n, p requires 0 <= p < n => messages[p].ids);
    assert received == AllSentIds(n, parents, p2r, q);
    number, local, count := NumberVertices(received);
  }

  /** BuildRedecomp on rank q, up to the finalisation of the topology: messages[p] is what parent rank p
      built for q. */
  method BuildRedecomp<C>(nVerts: nat -> nat, n: nat, parents: seq<Parent<C>>, ghost xyz: nat -> C, p2r: ElementLists,
                          q: nat, messages: seq<Message<C>>, blank: C)
    returns (mesh: Mesh<C>, number: map<nat, nat>)
    requires Listable(n, parents, p2r) && Consistent(nVerts, parents, xyz) && q < n && |messages| == n
    requires forall p :: 0 <= p < n ==> MessageFor(nVerts, parents[p], p2r[p][q], messages[p])
    ensures IsRebuilt(n, parents, xyz, p2r, q, mesh, number, VertexOrder(n, parents, p2r, q))
  {
    hide MessageFor;
    hide Located;
    hide Numbers;
    hide WellFormed;
    hide At;
    hide VertexOrder;
    hide IsRebuilt;
    hide AllNumbered;
    hide Tagged;
    var local, count;
    number, local, count := NumberBlocks(nVerts, n, parents, p2r, q, messages);
    ghost var order := VertexOrder(n, parents, p2r, q);
    AllTagged(nVerts, n, parents, p2r);
    BlocksNumbered(nVerts, n, parents, p2r, q, messages, number, order, local);
    hide Incoming;
    var vertices := CreateVertices(nVerts, n, parents, xyz, p2r, q, messages, number, order, local, seq(count, _ => blank));
    var elements, types, attributes := CreateElements(nVerts, n, parents, p2r, q, messages, number, order, local);
    mesh := Mesh(vertices, elements, types, attributes);
    RebuiltFrom(n, parents, xyz, p2r, q, mesh, number);
  }

  /** The pieces make a rebuilt mesh. */
  lemma RebuiltFrom<C>(n: nat, parents: seq<Parent<C>>, xyz: nat -> C, p2r: ElementLists, q: nat, mesh: Mesh<C>,
                       number: map<nat, nat>)
    requires Listable(n, parents, p2r) && Tagged(n, parents, p2r) && q < n
    requires Numbers(number, VertexOrder(n, parents, p2r, q))
    requires |mesh.vertices| == |VertexOrder(n, parents, p2r, q)|
    requires Located(mesh.vertices, VertexOrder(n, parents, p2r, q), xyz,
                     FieldTransfer.Concat(AllSentIds(n, parents, p2r, q)))
    requires mesh.elements == Rebuilt(n, parents, p2r, q, number, n)
    requires mesh.types == FieldTransfer.ToSerial(n, p2r, TypesOf(parents), q)
    requires mesh.attributes == FieldTransfer.ToSerial(n, p2r, AttributesOf(parents), q)
    requires forall p :: 0 <= p < n ==> AllNumbered(parents[p], p2r[p][q], number)
    ensures IsRebuilt(n, parents, xyz, p2r, q, mesh, number, VertexOrder(n, parents, p2r, q))
  {
    hide Numbers;
    hide AllNumbered;
    AllLocated(n, parents, p2r, q, mesh.vertices, xyz);
    hide VertexOrder;
    hide Located;
    TablesListed(n, parents, p2r, number);
    hide FieldTransfer.Listed;
    hide FieldTransfer.InRange;
  }

  lemma TablesListed<C>(n: nat, parents: seq<Parent<C>>, p2r: ElementLists, number: map<nat, nat>)
    requires Listable(n, parents, p2r)
    ensures FieldTransfer.Listed(n, p2r, Tables(parents, number))
  {
  }

  lemma BlocksNumbered<C>(nVerts: nat -> nat, n: nat, parents: seq<Parent<C>>, p2r: ElementLists, q: nat,
                          messages: seq<Message<C>>, number: map<nat, nat>, order: seq<nat>, local: seq<seq<nat>>)
    requires Listable(n, parents, p2r) && q < n && |messages| == |local| == n && Numbers(number, order)
    requires forall p :: 0 <= p < n ==> Incoming(nVerts, parents[p], p2r[p][q], messages[p], order, local[p])
    ensures forall p :: 0 <= p < n ==> AllNumbered(parents[p], p2r[p][q], number)
  {
    hide MessageFor;
    hide Numbers;
    hide AllNumbered;
    forall p | 0 <= p < n ensures AllNumbered(parents[p], p2r[p][q], number) {
      assert Incoming(nVerts, parents[p], p2r[p][q], messages[p], order, local[p]);
      SentNumbered(parents[p], p2r[p][q], number, order, local[p]);
    }
  }

  lemma SentNumbered<C>(m: Parent<C>, list: seq<Entity>, number: map<nat, nat>, order: seq<nat>, local: seq<nat>)
    requires FieldTransfer.InRange(list, |m.conn|)
    requires Numbers(number, order) && Positions(order, SentIds(m, list), local)
    ensures AllNumbered(m, list, number)
  {
    var ids := SentIds(m, list);
    forall g | g in ids ensures g in number {
      var i :| 0 <= i < |ids| && ids[i] == g;
      assert order[local[i]] == g;
    }
  }

  lemma AllLocated<C>(n: nat, parents: seq<Parent<C>>, p2r: ElementLists, q: nat, vertices: seq<C>, xyz: nat -> C)
    requires Listable(n, parents, p2r) && q < n && |vertices| == |VertexOrder(n, parents, p2r, q)|
    requires Located(vertices, VertexOrder(n, parents, p2r, q), xyz, FieldTransfer.Concat(AllSentIds(n, parents, p2r, q)))
    ensures forall v :: 0 <= v < |vertices| ==> vertices[v] == xyz(VertexOrder(n, parents, p2r, q)[v])
  {
    var (order, ids) := (VertexOrder(n, parents, p2r, q), FieldTransfer.Concat(AllSentIds(n, parents, p2r, q)));
    forall v | 0 <= v < |order| ensures vertices[v] == xyz(order[v]) {
      assert order[v] in order;
      DistinctMembers(ids, order[v]);
    }
  }

  /** What BuildRedecomp leaves: element tables in the new vertex numbers with the types and attributes of the
      listed elements, and every numbered vertex at its coordinates. */
  ghost predicate IsRebuilt<C>(n: nat, parents: seq<Parent<C>>, xyz: nat -> C, p2r: ElementLists, q: nat,
                               mesh: Mesh<C>, number: map<nat, nat>, order: seq<nat>)
    requires Listable(n, parents, p2r) && q < n
  {
    && Numbers(number, order) && |order| == |mesh.vertices|
    && (forall v :: 0 <= v < |order| ==> mesh.vertices[v] == xyz(order[v]))
    && FieldTransfer.Listed(n, p2r, Tables(parents, number))
    && mesh.elements == FieldTransfer.ToSerial(n, p2r, Tables(parents, number), q)
    && Tagged(n, parents, p2r)
    && mesh.types == FieldTransfer.ToSerial(n, p2r, TypesOf(parents), q)
    && mesh.attributes == FieldTransfer.ToSerial(n, p2r, AttributesOf(parents), q)
    && forall p :: 0 <= p < n ==> AllNumbered(parents[p], p2r[p][q], number)
  }

  /** Two elements with the same coordinates, corner by corner. */
  ghost predicate SameCorners<C>(vertices: seq<C>, row: seq<nat>, coords: seq<C>, conn: seq<nat>) {
    |row| == |conn| && forall j :: 0 <= j < |conn| ==> conn[j] < |coords| && row[j] < |vertices|
                                                       && vertices[row[j]] == coords[conn[j]]
  }

  /** Element e of a mesh is element x of a parent: same type, attribute and corners. */
  ghost predicate Copied<C>(mesh: Mesh<C>, e: nat, m: Parent<C>, x: nat) {
    && e < |mesh.elements| && e < |mesh.types| && e < |mesh.attributes|
    && x < |m.conn| && x < |m.types| && x < |m.attributes|
    && mesh.types[e] == m.types[x] && mesh.attributes[e] == m.attributes[x]
    && SameCorners(mesh.vertices, mesh.elements[e], m.coords, m.conn[x])
  }

  /** The parts of IsRebuilt that concern one parent rank's vertices. */
  lemma RebuiltNumbers<C>(n: nat, parents: seq<Parent<C>>, xyz: nat -> C, p2r: ElementLists, q: nat, mesh: Mesh<C>,
                          number: map<nat, nat>, order: seq<nat>, p: nat)
    requires Listable(n, parents, p2r) && q < n && p < n && IsRebuilt(n, parents, xyz, p2r, q, mesh, number, order)
    ensures Numbers(number, order) && |order| == |mesh.vertices| && AllNumbered(parents[p], p2r[p][q], number)
    ensures forall v :: 0 <= v < |order| ==> mesh.vertices[v] == xyz(order[v])
  {
  }

  lemma TagsAreCopied<C>(n: nat, parents: seq<Parent<C>>, xyz: nat -> C, p2r: ElementLists, q: nat, mesh: Mesh<C>,
                         number: map<nat, nat>, order: seq<nat>, p: nat, k: nat)
    requires Listable(n, parents, p2r) && q < n && IsRebuilt(n, parents, xyz, p2r, q, mesh, number, order)
    requires p < n && k < |p2r[p][q]|
    ensures var (e, x) := (Offset(n, p2r, q, p) + k, p2r[p][q][k].index);
      && e < |mesh.elements| && e < |mesh.types| && e < |mesh.attributes|
      && x < |parents[p].types| && x < |parents[p].attributes|
      && mesh.types[e] == parents[p].types[x] && mesh.attributes[e] == parents[p].attributes[x]
      && mesh.elements[e] == Renumber(VertexMap(number, parents[p]), parents[p].conn[x])
  {
    hide Numbers;
    hide AllNumbered;
    ElementIsRenumbered(n, parents, p2r, q, number, p, k);
    FieldTransfer.SerialAt(n, p2r, TypesOf(parents), q, p, k);
    FieldTransfer.SerialAt(n, p2r, AttributesOf(parents), q, p, k);
  }

  /** The rebuilt mesh is faithful: element Offset(p) + k of rank q has the type, the attribute and, corner by
      corner, the coordinates of the k-th element that parent rank p lists for q; and the renumbering of its
      vertices tells them apart, which is what the node lists need to pair up. */
  lemma MeshIsFaithful<C>(nVerts: nat -> nat, n: nat, parents: seq<Parent<C>>, xyz: nat -> C, p2r: ElementLists, q: nat,
                          mesh: Mesh<C>, number: map<nat, nat>, order: seq<nat>, p: nat, k: nat)
    requires Listable(n, parents, p2r) && Consistent(nVerts, parents, xyz) && q < n
    requires IsRebuilt(n, parents, xyz, p2r, q, mesh, number, order)
    requires p < n && k < |p2r[p][q]|
    ensures Copied(mesh, Offset(n, p2r, q, p) + k, parents[p], p2r[p][q][k].index)
    ensures InjectiveOn(VertexMap(number, parents[p]), LocalVisits(parents[p], p2r[p][q]))
  {
    hide IsRebuilt;
    hide AllNumbered;
    hide Numbers;
    hide SameCorners;
    hide InjectiveOn;
    var (list, m) := (p2r[p][q], parents[p]);
    assert WellFormed(nVerts, m) && At(m, xyz);
    RebuiltNumbers(n, parents, xyz, p2r, q, mesh, number, order, p);
    assert Copied(mesh, Offset(n, p2r, q, p) + k, m, list[k].index) by {
      TagsAreCopied(n, parents, xyz, p2r, q, mesh, number, order, p, k);
      Corners(m, list, number, order, mesh.vertices, xyz, k);
    }
    hide Copied;
    VertexMapInjective(m, list, number, order);
  }

  /** The vertex lists that both sides build on their own from their own meshes, the parent side from p2r
      and the redecomp side by a cursor over its ghosts, correspond position by position, with equal marks. */
  lemma VertexListsPairUp<C>(nVerts: nat -> nat, n: nat, parents: seq<Parent<C>>, xyz: nat -> C, p2r: ElementLists,
                             q: nat, mesh: Mesh<C>, number: map<nat, nat>, order: seq<nat>, p: nat)
    requires Listable(n, parents, p2r) && Consistent(nVerts, parents, xyz) && q < n && p < n
    requires IsRebuilt(n, parents, xyz, p2r, q, mesh, number, order)
    ensures Offset(n, p2r, q, p) + |p2r[p][q]| <= |mesh.elements|
    ensures Paired(VertexMap(number, parents[p]), LocalVisits(parents[p], p2r[p][q]),
                   BlockVisits(mesh.elements, Offset(n, p2r, q, p), p2r[p][q]))
  {
    BlockConforms(n, parents, p2r, q, number, p);
    VertexMapInjective(parents[p], p2r[p][q], number, order);
    NodeListsPairUp(VertexMap(number, parents[p]), parents[p].conn, p2r[p][q], mesh.elements, Offset(n, p2r, q, p));
  }

  lemma BlockConforms<C>(n: nat, parents: seq<Parent<C>>, p2r: ElementLists, q: nat, number: map<nat, nat>, p: nat)
    requires Listable(n, parents, p2r) && q < n && p < n && FieldTransfer.Listed(n, p2r, Tables(parents, number))
    ensures Conforms(VertexMap(number, parents[p]), parents[p].conn, p2r[p][q],
                     FieldTransfer.ToSerial(n, p2r, Tables(parents, number), q), Offset(n, p2r, q, p))
  {
    FieldTransfer.BlockContents(n, p2r, Tables(parents, number), q, p, n);
    var (elements, first) := (FieldTransfer.ToSerial(n, p2r, Tables(parents, number), q), Offset(n, p2r, q, p));
    forall k | 0 <= k < |p2r[p][q]|
      ensures ConformsAt(VertexMap(number, parents[p]), parents[p].conn, p2r[p][q], elements, first, k)
    {
      ElementIsRenumbered(n, parents, p2r, q, number, p, k);
    }
  }

  lemma ElementIsRenumbered<C>(n: nat, parents: seq<Parent<C>>, p2r: ElementLists, q: nat, number: map<nat, nat>,
                               p: nat, k: nat)
    requires Listable(n, parents, p2r) && q < n && p < n && k < |p2r[p][q]|
    requires FieldTransfer.Listed(n, p2r, Tables(parents, number))
    ensures var (e, elements) := (Offset(n, p2r, q, p) + k, FieldTransfer.ToSerial(n, p2r, Tables(parents, number), q));
      e < |elements| && elements[e] == Renumber(VertexMap(number, parents[p]), parents[p].conn[p2r[p][q][k].index])
  {
    FieldTransfer.SerialAt(n, p2r, Tables(parents, number), q, p, k);
  }

  lemma Corners<C>(m: Parent<C>, list: seq<Entity>, number: map<nat, nat>, order: seq<nat>, vertices: seq<C>,
                   xyz: nat -> C, k: nat)
    requires WellIndexed(m) && At(m, xyz) && FieldTransfer.InRange(list, |m.conn|) && k < |list|
    requires AllNumbered(m, list, number) && Numbers(number, order) && |order| == |vertices|
    requires forall v :: 0 <= v < |order| ==> vertices[v] == xyz(order[v])
    ensures var conn := m.conn[list[k].index];
            SameCorners(vertices, Renumber(VertexMap(number, m), conn), m.coords, conn)
  {
    VerticesNumbered(m, list, number);
    var (table, conn, f) := (DofsOf(GlobalTable(m), list), m.conn[list[k].index], VertexMap(number, m));
    forall j | 0 <= j < |conn|
      ensures conn[j] < |m.coords| && f(conn[j]) < |vertices| && vertices[f(conn[j])] == m.coords[conn[j]]
    {
      var g := m.globalId[conn[j]];
      assert table[k][j] == g && g in number;
      assert order[number[g]] == g;
    }
  }
}
