/** TransferByNodes of src/redecomp/transfer: the lists of vector dofs that it builds, and their round trip. */
module NodeTransfer {
  import opened NodeLists
  import opened VDofTransfer
  import opened Exchange
  import opened BisecTree
  import opened RCBPartition

  /** A finite element space with vdim components per dof, ordered by nodes or by components. */
  datatype Space = Space(ndofs: nat, vdim: nat, byVDim: bool)

  /** DofToVDof. */
  function VDof(s: Space, dof: nat, d: nat): nat {
    if s.byVDim then dof * s.vdim + d else d * s.ndofs + dof
  }

  lemma DivInRange(a: nat, b: nat, k: nat, m: nat)
    requires a < k && b < m
    ensures a * m + b < k * m
  {
    TimesMonotone(a + 1, k, m);
    assert (a + 1) * m == a * m + m;
  }

  lemma DivUnique(a: nat, b: nat, c: nat, d: nat, m: nat)
    requires b < m && d < m && a * m + b == c * m + d
    ensures a == c && b == d
  {
    if a < c { DivInRange(a, b, c, m); }
    if c < a { DivInRange(c, d, a, m); }
  }

  /** Components of nodes are told apart in both orderings. */
  lemma VDofInjective(s: Space, u: nat, d: nat, v: nat, e: nat)
    requires u < s.ndofs && v < s.ndofs && d < s.vdim && e < s.vdim && VDof(s, u, d) == VDof(s, v, e)
    ensures u == v && d == e
  {
    if s.byVDim { DivUnique(u, d, v, e, s.vdim); } else { DivUnique(d, u, e, v, s.ndofs); }
  }

  /** The two orderings: components of a node side by side, or nodes of a component side by side. */
  lemma VDofLayout(s: Space, u: nat, d: nat)
    ensures VDof(s, 0, 0) == 0
    ensures s.byVDim ==> VDof(s, u, d + 1) == VDof(s, u, d) + 1 && VDof(s, u + 1, d) == VDof(s, u, d) + s.vdim
    ensures !s.byVDim ==> VDof(s, u + 1, d) == VDof(s, u, d) + 1 && VDof(s, u, d + 1) == VDof(s, u, d) + s.ndofs
  {
    assert (u + 1) * s.vdim == u * s.vdim + s.vdim;
    assert (d + 1) * s.ndofs == d * s.ndofs + s.ndofs;
  }

  lemma VDofInRange(s: Space, u: nat, d: nat)
    requires u < s.ndofs && d < s.vdim
    ensures VDof(s, u, d) < s.ndofs * s.vdim
  {
    if s.byVDim { DivInRange(u, d, s.ndofs, s.vdim); } else { DivInRange(d, u, s.vdim, s.ndofs); }
  }

  // ----- the lists of the two directions

  function Component(s: Space, index: seq<nat>, d: nat): seq<nat> {
    seq(|index|, j requires 0 <= j < |index| => VDof(s, index[j], d))
  }

  /** To the redecomp mesh: all nodes of component 0, then all of component 1, and so on. */
  function ByComponent(s: Space, index: seq<nat>, d: nat): seq<nat> {
    if d == 0 then [] else ByComponent(s, index, d - 1) + Component(s, index, d - 1)
  }

  method ListByComponent(s: Space, index: seq<nat>) returns (dofs: seq<nat>)
    ensures dofs == ByComponent(s, index, s.vdim)
  {
    dofs := [];
    for d := 0 to s.vdim
      invariant dofs == ByComponent(s, index, d)
    {
      for j := 0 to |index|
        invariant dofs == ByComponent(s, index, d) + Component(s, index, d)[..j]
      {
        dofs := dofs + [VDof(s, index[j], d)];
      }
      assert Component(s, index, d)[..|index|] == Component(s, index, d);
    }
  }

  function Components(s: Space, node: nat): seq<nat> {
    seq(s.vdim, d requires 0 <= d < s.vdim => VDof(s, node, d))
  }

  /** Back to the parent mesh: all components of the first node without ghost mark, then of the next. */
  function ByNode(s: Space, index: seq<nat>, isGhost: seq<bool>): seq<nat>
    requires |isGhost| == |index|
  {
    if index == [] then []
    else
      var j := |index| - 1;
      ByNode(s, index[..j], isGhost[..j]) + if isGhost[j] then [] else Components(s, index[j])
  }

  method ListByNode(s: Space, index: seq<nat>, isGhost: seq<bool>) returns (dofs: seq<nat>)
    requires |isGhost| == |index|
    ensures dofs == ByNode(s, index, isGhost)
  {
    dofs := [];
    for j := 0 to |index|
      invariant dofs == ByNode(s, index[..j], isGhost[..j])
    {
      assert index[..j + 1][..j] == index[..j] && isGhost[..j + 1][..j] == isGhost[..j];
      if !isGhost[j] {
        ghost var before := dofs;
        for d := 0 to s.vdim
          invariant dofs == before + Components(s, index[j])[..d]
        {
          dofs := dofs + [VDof(s, index[j], d)];
        }
        assert Components(s, index[j])[..s.vdim] == Components(s, index[j]);
      }
    }
    assert index[..|index|] == index && isGhost[..|index|] == isGhost;
  }

  /** Entry k of the parent's list and entry k of the redecomp rank's list are the same component of
      corresponding nodes. */
  lemma {:induction false} ComponentEntry(ps: Space, rs: Space, pi: seq<nat>, ri: seq<nat>, m: nat, k: nat)
    returns (j: nat, d: nat)
    requires |pi| == |ri| && k < |ByComponent(ps, pi, m)|
    ensures j < |pi| && d < m && ByComponent(ps, pi, m)[k] == VDof(ps, pi[j], d)
    ensures k < |ByComponent(rs, ri, m)| && ByComponent(rs, ri, m)[k] == VDof(rs, ri[j], d)
    decreases m
  {
    ByComponentLength(ps, rs, pi, ri, m - 1);
    var before := |ByComponent(ps, pi, m - 1)|;
    if k < before {
      j, d := ComponentEntry(ps, rs, pi, ri, m - 1, k);
    } else {
      j, d := k - before, m - 1;
    }
  }

  lemma {:induction false} ByComponentLength(ps: Space, rs: Space, pi: seq<nat>, ri: seq<nat>, m: nat)
    requires |pi| == |ri|
    ensures |ByComponent(ps, pi, m)| == |ByComponent(rs, ri, m)|
  {
    if m > 0 { ByComponentLength(ps, rs, pi, ri, m - 1); }
  }

  /** The position of component d of node j in both lists. */
  lemma {:induction false} ComponentPosition(ps: Space, rs: Space, pi: seq<nat>, ri: seq<nat>, m: nat, j: nat, d: nat)
    returns (k: nat)
    requires |pi| == |ri| && j < |pi| && d < m
    ensures k < |ByComponent(ps, pi, m)| == |ByComponent(rs, ri, m)|
    ensures ByComponent(ps, pi, m)[k] == VDof(ps, pi[j], d) && ByComponent(rs, ri, m)[k] == VDof(rs, ri[j], d)
    decreases m
  {
    ByComponentLength(ps, rs, pi, ri, m - 1);
    if d == m - 1 {
      k := |ByComponent(ps, pi, m - 1)| + j;
    } else {
      k := ComponentPosition(ps, rs, pi, ri, m - 1, j, d);
    }
  }

  lemma {:induction false} NodeEntry(ps: Space, rs: Space, pi: seq<nat>, ri: seq<nat>, isGhost: seq<bool>, k: nat)
    returns (j: nat, d: nat)
    requires |pi| == |ri| == |isGhost| && ps.vdim == rs.vdim && k < |ByNode(ps, pi, isGhost)|
    ensures j < |pi| && d < ps.vdim && !isGhost[j] && ByNode(ps, pi, isGhost)[k] == VDof(ps, pi[j], d)
    ensures k < |ByNode(rs, ri, isGhost)| && ByNode(rs, ri, isGhost)[k] == VDof(rs, ri[j], d)
  {
    var m := |pi| - 1;
    ByNodeLength(ps, rs, pi[..m], ri[..m], isGhost[..m]);
    var before := |ByNode(ps, pi[..m], isGhost[..m])|;
    if k < before {
      j, d := NodeEntry(ps, rs, pi[..m], ri[..m], isGhost[..m], k);
    } else {
      j, d := m, k - before;
    }
  }

  lemma {:induction false} ByNodeLength(ps: Space, rs: Space, pi: seq<nat>, ri: seq<nat>, isGhost: seq<bool>)
    requires |pi| == |ri| == |isGhost| && ps.vdim == rs.vdim
    ensures |ByNode(ps, pi, isGhost)| == |ByNode(rs, ri, isGhost)|
  {
    if pi != [] {
      var m := |pi| - 1;
      ByNodeLength(ps, rs, pi[..m], ri[..m], isGhost[..m]);
    }
  }

  /** The dofs that come back: the components of the nodes without ghost mark. */
  lemma {:induction false} ByNodeMembers(s: Space, index: seq<nat>, isGhost: seq<bool>, x: nat)
    requires |isGhost| == |index|
    ensures x in ByNode(s, index, isGhost)
       <==> exists j, d :: 0 <= j < |index| && 0 <= d < s.vdim && !isGhost[j] && x == VDof(s, index[j], d)
  {
    if index != [] {
      var m := |index| - 1;
      ByNodeMembers(s, index[..m], isGhost[..m], x);
      if x in Components(s, index[m]) {
        var d :| 0 <= d < s.vdim && Components(s, index[m])[d] == x;
        assert x == VDof(s, index[m], d);
      }
      if j, d :| 0 <= j < |index| && 0 <= d < s.vdim && !isGhost[j] && x == VDof(s, index[j], d) {
        if j < m {
          assert !isGhost[..m][j] && x == VDof(s, index[..m][j], d);
        } else {
          assert Components(s, index[m])[d] == x;
        }
      }
    }
  }

  lemma ReturnEntry(ps: Space, rs: Space, pi: seq<nat>, ri: seq<nat>, isGhost: seq<bool>, k: nat)
    requires |pi| == |ri| == |isGhost| && ps.vdim == rs.vdim && k < |ByNode(ps, pi, isGhost)|
    ensures k < |ByNode(rs, ri, isGhost)| && |ByComponent(ps, pi, ps.vdim)| == |ByComponent(rs, ri, rs.vdim)|
    ensures Pairs(ByComponent(ps, pi, ps.vdim), ByComponent(rs, ri, rs.vdim),
                  ByNode(ps, pi, isGhost)[k], ByNode(rs, ri, isGhost)[k])
  {
    var j, d := NodeEntry(ps, rs, pi, ri, isGhost, k);
    ByComponentLength(ps, rs, pi, ri, ps.vdim);
    var m := ComponentPosition(ps, rs, pi, ri, ps.vdim, j, d);
  }

  /** The lists of the way back run along the lists of the way there. */
  lemma NodesReturnAlong(ps: Space, rs: Space, pi: seq<nat>, ri: seq<nat>, isGhost: seq<bool>)
    requires |pi| == |ri| == |isGhost| && ps.vdim == rs.vdim
    ensures ReturnsAlong(ByComponent(ps, pi, ps.vdim), ByComponent(rs, ri, rs.vdim),
                         ByNode(rs, ri, isGhost), ByNode(ps, pi, isGhost))
  {
    var (there, arrived) := (ByComponent(ps, pi, ps.vdim), ByComponent(rs, ri, rs.vdim));
    var (leaving, back) := (ByNode(rs, ri, isGhost), ByNode(ps, pi, isGhost));
    ByComponentLength(ps, rs, pi, ri, ps.vdim);
    ByNodeLength(ps, rs, pi, ri, isGhost);
    forall k | 0 <= k < |back| ensures Pairs(there, arrived, back[k], leaving[k]) {
      ReturnEntry(ps, rs, pi, ri, isGhost, k);
    }
  }

  // ----- the round trip of a nodal field

  /** A list of nodes with their ghost marks. */
  datatype NodeList = NodeList(index: seq<nat>, isGhost: seq<bool>)

  /** The node lists of all pairs of ranks, and the spaces: p2r[p][q] on parent rank p, r2p[q][p] on
      redecomp rank q. */
  datatype Nodal = Nodal(ps: seq<Space>, rs: seq<Space>, p2r: seq<seq<NodeList>>, r2p: seq<seq<NodeList>>)

  ghost predicate Conforming(n: nat, t: Nodal) {
    && |t.ps| == |t.rs| == n && Square(n, t.p2r) && Square(n, t.r2p)
    && forall p, q :: 0 <= p < n && 0 <= q < n ==> ConformingAt(t, p, q)
  }

  /** The two lists of a pair of ranks correspond position by position, with equal marks. */
  ghost predicate ConformingAt(t: Nodal, p: nat, q: nat)
    requires p < |t.ps| && p < |t.p2r| && q < |t.p2r[p]| && q < |t.rs| && q < |t.r2p| && p < |t.r2p[q]|
  {
    var (a, b) := (t.p2r[p][q], t.r2p[q][p]);
    && t.ps[p].vdim == t.rs[q].vdim && |a.index| == |b.index| == |a.isGhost| && a.isGhost == b.isGhost
    && forall j :: 0 <= j < |a.index| ==> a.index[j] < t.ps[p].ndofs && b.index[j] < t.rs[q].ndofs
  }

  /** The dof lists that the four loops of TransferByNodes build. */
  ghost function RouteOf(n: nat, t: Nodal): (r: Route)
    requires Conforming(n, t)
    ensures Square(n, r.send) && Square(n, r.recv) && Square(n, r.resend) && Square(n, r.rerecv)
    ensures forall p, q :: 0 <= p < n && 0 <= q < n ==> RouteAt(t, r, p, q)
  {
    assert forall p, q :: 0 <= p < n && 0 <= q < n ==> ConformingAt(t, p, q);
    Route(seq(n, p requires 0 <= p < n => seq(n, q requires 0 <= q < n =>
            ByComponent(t.ps[p], t.p2r[p][q].index, t.ps[p].vdim))),
          seq(n, q requires 0 <= q < n => seq(n, p requires 0 <= p < n =>
            ByComponent(t.rs[q], t.r2p[q][p].index, t.rs[q].vdim))),
          seq(n, q requires 0 <= q < n => seq(n, p requires 0 <= p < n =>
            BackList(t.rs[q], t.r2p[q][p]))),
          seq(n, p requires 0 <= p < n => seq(n, q requires 0 <= q < n =>
            BackList(t.ps[p], t.p2r[p][q]))))
  }

  function BackList(s: Space, list: NodeList): seq<nat> {
    if |list.isGhost| == |list.index| then ByNode(s, list.index, list.isGhost) else []
  }

  ghost predicate RouteAt(t: Nodal, r: Route, p: nat, q: nat)
    requires p < |t.ps| && p < |t.p2r| && q < |t.p2r[p]| && q < |t.rs| && q < |t.r2p| && p < |t.r2p[q]|
    requires p < |r.send| && q < |r.send[p]| && q < |r.recv| && p < |r.recv[q]|
    requires q < |r.resend| && p < |r.resend[q]| && p < |r.rerecv| && q < |r.rerecv[p]|
  {
    && r.send[p][q] == ByComponent(t.ps[p], t.p2r[p][q].index, t.ps[p].vdim)
    && r.recv[q][p] == ByComponent(t.rs[q], t.r2p[q][p].index, t.rs[q].vdim)
    && r.resend[q][p] == BackList(t.rs[q], t.r2p[q][p])
    && r.rerecv[p][q] == BackList(t.ps[p], t.p2r[p][q])
  }

  /** Vectors of the sizes of the spaces. */
  ghost predicate Fit<T>(spaces: seq<Space>, vectors: seq<seq<T>>) {
    |vectors| == |spaces| && forall p :: 0 <= p < |spaces| ==> |vectors[p]| == spaces[p].ndofs * spaces[p].vdim
  }

  lemma ListsInBounds(s: Space, index: seq<nat>, isGhost: seq<bool>)
    requires |isGhost| == |index| && forall j :: 0 <= j < |index| ==> index[j] < s.ndofs
    ensures InBounds(ByComponent(s, index, s.vdim), s.ndofs * s.vdim)
    ensures InBounds(ByNode(s, index, isGhost), s.ndofs * s.vdim)
  {
    forall k | 0 <= k < |ByComponent(s, index, s.vdim)| ensures ByComponent(s, index, s.vdim)[k] < s.ndofs * s.vdim {
      var j, d := ComponentEntry(s, s, index, index, s.vdim, k);
      VDofInRange(s, index[j], d);
    }
    forall k | 0 <= k < |ByNode(s, index, isGhost)| ensures ByNode(s, index, isGhost)[k] < s.ndofs * s.vdim {
      var j, d := NodeEntry(s, s, index, index, isGhost, k);
      VDofInRange(s, index[j], d);
    }
  }

  lemma RouteFitsAt<T>(t: Nodal, r: Route, src: seq<seq<T>>, dst: seq<seq<T>>, p: nat, q: nat)
    requires p < |t.ps| && p < |t.p2r| && q < |t.p2r[p]| && q < |t.rs| && q < |t.r2p| && p < |t.r2p[q]|
    requires p < |r.send| && q < |r.send[p]| && q < |r.recv| && p < |r.recv[q]|
    requires q < |r.resend| && p < |r.resend[q]| && p < |r.rerecv| && q < |r.rerecv[p]|
    requires ConformingAt(t, p, q) && RouteAt(t, r, p, q) && Fit(t.ps, src) && Fit(t.rs, dst)
    ensures MatchedAt(r.send, r.recv, src, dst, p, q) && MatchedAt(r.resend, r.rerecv, dst, src, q, p)
    ensures Returns(r, p, q)
  {
    var (a, b) := (t.p2r[p][q], t.r2p[q][p]);
    ListsInBounds(t.ps[p], a.index, a.isGhost);
    ListsInBounds(t.rs[q], b.index, b.isGhost);
    NodesReturnAlong(t.ps[p], t.rs[q], a.index, b.index, a.isGhost);
  }

  /** The four lists fit the vectors and return along each other, for all pairs of ranks. */
  lemma RouteFits<T>(n: nat, t: Nodal, src: seq<seq<T>>, redecomp: seq<seq<T>>, dst: seq<seq<T>>)
    requires Conforming(n, t) && Fit(t.ps, src) && Fit(t.rs, redecomp) && Fit(t.ps, dst)
    ensures var r := RouteOf(n, t);
      Matched(n, r.send, r.recv, src, redecomp) && RoundTrips(n, r, src, redecomp, dst)
  {
    var r := RouteOf(n, t);
    forall p, q | 0 <= p < n && 0 <= q < n
      ensures MatchedAt(r.send, r.recv, src, redecomp, p, q) && MatchedAt(r.resend, r.rerecv, redecomp, dst, q, p)
      ensures Returns(r, p, q)
    {
      assert ConformingAt(t, p, q) && RouteAt(t, r, p, q);
      RouteFitsAt(t, r, src, redecomp, p, q);
      RouteFitsAt(t, r, dst, redecomp, p, q);
    }
  }

  /** A conforming field: parent ranks that rank q numbers a node of once agree on its values. */
  ghost predicate FieldAgrees<T>(n: nat, t: Nodal, src: seq<seq<T>>, value: nat -> nat -> T)
    requires Conforming(n, t) && Fit(t.ps, src)
  {
    forall p, q :: 0 <= p < n && 0 <= q < n ==> FieldAgreesAt(t.ps[p], t.rs[q], t.p2r[p][q], t.r2p[q][p], src[p], value(q))
  }

  ghost predicate FieldAgreesAt<T>(ps: Space, rs: Space, a: NodeList, b: NodeList, vector: seq<T>, value: nat -> T) {
    forall j, d :: 0 <= j < |a.index| && j < |b.index| && 0 <= d < ps.vdim
      ==> ValueAt(ps, vector, a.index[j], d, value(VDof(rs, b.index[j], d)))
  }

  ghost predicate ValueAt<T>(s: Space, vector: seq<T>, node: nat, d: nat, y: T) {
    VDof(s, node, d) < |vector| && vector[VDof(s, node, d)] == y
  }

  lemma NodalAgreeing<T>(n: nat, t: Nodal, src: seq<seq<T>>, redecomp: seq<seq<T>>, value: nat -> nat -> T, q: nat)
    requires Conforming(n, t) && Fit(t.ps, src) && Fit(t.rs, redecomp) && q < n && FieldAgrees(n, t, src, value)
    requires Matched(n, RouteOf(n, t).send, RouteOf(n, t).recv, src, redecomp)
    ensures Agreeing(n, RouteOf(n, t).send, RouteOf(n, t).recv, src, redecomp, q, value(q))
  {
    var r := RouteOf(n, t);
    forall p | 0 <= p < n ensures AgreeingBlock(n, r.send, r.recv, src, redecomp, q, value(q), p) {
      assert ConformingAt(t, p, q) && RouteAt(t, r, p, q) && MatchedAt(r.send, r.recv, src, redecomp, p, q);
      var (a, b) := (t.p2r[p][q], t.r2p[q][p]);
      assert FieldAgreesAt(t.ps[p], t.rs[q], a, b, src[p], value(q));
      forall k | 0 <= k < |r.send[p][q]| ensures src[p][r.send[p][q][k]] == value(q)(r.recv[q][p][k]) {
        var j, d := ComponentEntry(t.ps[p], t.rs[q], a.index, b.index, t.ps[p].vdim, k);
        assert ValueAt(t.ps[p], src[p], a.index[j], d, value(q)(VDof(t.rs[q], b.index[j], d)));
      }
    }
  }

  /** Some redecomp rank has the node in its list for parent rank p without ghost mark. */
  ghost predicate Returned(t: Nodal, p: nat, q: nat, x: nat)
    requires p < |t.ps| && p < |t.p2r| && q < |t.p2r[p]|
  {
    var list := t.p2r[p][q];
    && |list.isGhost| == |list.index|
    && exists j, d :: 0 <= j < |list.index| && 0 <= d < t.ps[p].vdim && !list.isGhost[j]
                      && x == VDof(t.ps[p], list.index[j], d)
  }

  /** Nodal round trip.  For a conforming field, moving it to the redecomp mesh and back restores the
      components of exactly those parent nodes that some redecomp rank lists without ghost mark, and
      leaves what was there before elsewhere. */
  lemma NodalRoundTrip<T>(n: nat, t: Nodal, src: seq<seq<T>>, redecomp0: seq<seq<T>>, redecomp: seq<seq<T>>,
                          dst: seq<seq<T>>, value: nat -> nat -> T, p: nat, x: nat)
    requires Conforming(n, t) && Fit(t.ps, src) && Fit(t.rs, redecomp0) && Fit(t.rs, redecomp) && Fit(t.ps, dst)
    requires FieldAgrees(n, t, src, value) && p < n && x < |src[p]|
    requires Matched(n, RouteOf(n, t).send, RouteOf(n, t).recv, src, redecomp0)
    requires forall b :: 0 <= b < n
               ==> redecomp[b] == Moved(n, RouteOf(n, t).send, RouteOf(n, t).recv, src, redecomp0, b, n)
    ensures Matched(n, RouteOf(n, t).resend, RouteOf(n, t).rerecv, redecomp, dst)
    ensures Moved(n, RouteOf(n, t).resend, RouteOf(n, t).rerecv, redecomp, dst, p, n)[x]
         == if exists q :: 0 <= q < n && Returned(t, p, q, x) then src[p][x] else dst[p][x]
  {
    var r := RouteOf(n, t);
    RouteFits(n, t, src, redecomp, dst);
    forall b | 0 <= b < n ensures Agreeing(n, r.send, r.recv, src, redecomp0, b, value(b)) {
      NodalAgreeing(n, t, src, redecomp0, value, b);
    }
    RoundTripValues(n, r, src, redecomp0, redecomp, dst, value, p, x);
    ReturnedIsListed(n, t, p, x);
  }

  lemma ReturnedIsListed(n: nat, t: Nodal, p: nat, x: nat)
    requires Conforming(n, t) && p < n
    ensures forall q :: 0 <= q < n ==> (x in RouteOf(n, t).rerecv[p][q] <==> Returned(t, p, q, x))
  {
    forall q | 0 <= q < n ensures x in RouteOf(n, t).rerecv[p][q] <==> Returned(t, p, q, x) {
      assert ConformingAt(t, p, q) && RouteAt(t, RouteOf(n, t), p, q);
      ByNodeMembers(t.ps[p], t.p2r[p][q].index, t.p2r[p][q].isGhost, x);
    }
  }

  /** A node list as P2RNodeList and R2PNodeList leave it after a walk. */
  ghost predicate ListOf(visits: seq<Visit>, list: NodeList) {
    && list.index == Nodes(visits) && |list.isGhost| == |list.index|
    && forall i :: 0 <= i < |list.index| ==> list.isGhost[i] == OnlyGhost(visits, list.index[i])
  }

  /** Lists built independently from paired walks conform. */
  lemma ListsConform(f: nat -> nat, parent: seq<Visit>, redecomp: seq<Visit>, a: NodeList, b: NodeList)
    requires Paired(f, parent, redecomp) && ListOf(parent, a) && ListOf(redecomp, b)
    ensures b.index == Renumber(f, a.index) && |a.index| == |b.index| && a.isGhost == b.isGhost
  {
    forall i | 0 <= i < |a.index| ensures a.isGhost[i] == b.isGhost[i] {
      assert OnlyGhost(redecomp, Nodes(redecomp)[i]) <==> OnlyGhost(parent, Nodes(parent)[i]);
    }
  }

  /** All components of a node come back from rank q exactly when rank q holds an element that contains
      the node as its own. */
  lemma NodeComesBack(t: Nodal, p: nat, q: nat, dofs: seq<seq<nat>>, list: seq<Entity>, v: nat, d: nat)
    requires p < |t.ps| && p < |t.p2r| && q < |t.p2r[p]| && |dofs| == |list|
    requires ListOf(Visits(dofs, list), t.p2r[p][q]) && forall u :: u in t.p2r[p][q].index ==> u < t.ps[p].ndofs
    requires v < t.ps[p].ndofs && d < t.ps[p].vdim
    ensures Returned(t, p, q, VDof(t.ps[p], v, d))
       <==> exists k :: 0 <= k < |list| && !list[k].isGhost && v in dofs[k]
  {
    var (s, nodes) := (t.ps[p], t.p2r[p][q]);
    MarkMeaning(dofs, list, v);
    NodesAreDistinct(Visits(dofs, list));
    if !OnlyGhost(Visits(dofs, list), v) {
      var k :| 0 <= k < |list| && !list[k].isGhost && v in dofs[k];
      var c :| 0 <= c < |dofs[k]| && dofs[k][c] == v;
      NodesComplete(dofs, list, k, c);
      var j :| 0 <= j < |nodes.index| && nodes.index[j] == v;
      assert !nodes.isGhost[j] && VDof(s, v, d) == VDof(s, nodes.index[j], d);
    }
    if j, e :| 0 <= j < |nodes.index| && 0 <= e < s.vdim && !nodes.isGhost[j]
               && VDof(s, v, d) == VDof(s, nodes.index[j], e) {
      assert nodes.index[j] in nodes.index;
      VDofInjective(s, v, d, nodes.index[j], e);
    }
  }

  // ----- the transfers

  method ComponentTable(n: nat, spaces: seq<Space>, lists: seq<seq<NodeList>>) returns (table: DofLists)
    requires Square(n, lists) && |spaces| == n
    ensures Square(n, table)
    ensures forall a, b :: 0 <= a < n && 0 <= b < n
              ==> table[a][b] == ByComponent(spaces[a], lists[a][b].index, spaces[a].vdim)
  {
    table := [];
    for a := 0 to n
      invariant |table| == a && forall c :: 0 <= c < a ==> |table[c]| == n
      invariant forall c, b :: 0 <= c < a && 0 <= b < n
                  ==> table[c][b] == ByComponent(spaces[c], lists[c][b].index, spaces[c].vdim)
    {
      var row: seq<seq<nat>> := [];
      for b := 0 to n
        invariant |row| == b
        invariant forall c :: 0 <= c < b ==> row[c] == ByComponent(spaces[a], lists[a][c].index, spaces[a].vdim)
      {
        var dofs := ListByComponent(spaces[a], lists[a][b].index);
        row := row + [dofs];
      }
      table := table + [row];
    }
  }

  method BackRow(n: nat, s: Space, lists: seq<NodeList>) returns (row: seq<seq<nat>>)
    requires |lists| == n && forall b :: 0 <= b < n ==> |lists[b].isGhost| == |lists[b].index|
    ensures |row| == n && forall b :: 0 <= b < n ==> row[b] == BackList(s, lists[b])
  {
    row := [];
    for b := 0 to n
      invariant |row| == b && forall c :: 0 <= c < b ==> row[c] == BackList(s, lists[c])
    {
      var dofs := ListByNode(s, lists[b].index, lists[b].isGhost);
      row := row + [dofs];
    }
  }

  method BackTable(n: nat, spaces: seq<Space>, lists: seq<seq<NodeList>>) returns (table: DofLists)
    requires Square(n, lists) && |spaces| == n
    requires forall a, b :: 0 <= a < n && 0 <= b < n ==> |lists[a][b].isGhost| == |lists[a][b].index|
    ensures Square(n, table)
    ensures forall a, b :: 0 <= a < n && 0 <= b < n ==> table[a][b] == BackList(spaces[a], lists[a][b])
  {
    table := [];
    for a := 0 to n
      invariant |table| == a && forall c :: 0 <= c < a ==> |table[c]| == n
      invariant forall c, b :: 0 <= c < a && 0 <= b < n ==> table[c][b] == BackList(spaces[c], lists[c][b])
    {
      var row := BackRow(n, spaces[a], lists[a]);
      table := table + [row];
    }
  }

  lemma TableIs(n: nat, a: DofLists, b: DofLists)
    requires Square(n, a) && Square(n, b) && forall i, j :: 0 <= i < n && 0 <= j < n ==> a[i][j] == b[i][j]
    ensures a == b
  {
    forall i | 0 <= i < n ensures a[i] == b[i] { }
  }

  method TransferToSerial<T>(n: nat, t: Nodal, src: seq<seq<T>>, dst0: seq<seq<T>>) returns (dst: seq<seq<T>>)
    requires Conforming(n, t) && Fit(t.ps, src) && Fit(t.rs, dst0)
    ensures Matched(n, RouteOf(n, t).send, RouteOf(n, t).recv, src, dst0) && |dst| == n
    ensures forall q :: 0 <= q < n ==> dst[q] == Moved(n, RouteOf(n, t).send, RouteOf(n, t).recv, src, dst0, q, n)
  {
    var send := ComponentTable(n, t.ps, t.p2r);
    var recv := ComponentTable(n, t.rs, t.r2p);
    RouteFits(n, t, src, dst0, src);
    forall p, q | 0 <= p < n && 0 <= q < n
      ensures send[p][q] == RouteOf(n, t).send[p][q] && recv[q][p] == RouteOf(n, t).recv[q][p]
    {
      assert RouteAt(t, RouteOf(n, t), p, q);
    }
    TableIs(n, send, RouteOf(n, t).send);
    TableIs(n, recv, RouteOf(n, t).recv);
    dst := Move(n, send, recv, src, dst0);
  }

  method TransferToParallel<T>(n: nat, t: Nodal, src: seq<seq<T>>, dst0: seq<seq<T>>) returns (dst: seq<seq<T>>)
    requires Conforming(n, t) && Fit(t.rs, src) && Fit(t.ps, dst0)
    ensures Matched(n, RouteOf(n, t).resend, RouteOf(n, t).rerecv, src, dst0) && |dst| == n
    ensures forall p :: 0 <= p < n ==> dst[p] == Moved(n, RouteOf(n, t).resend, RouteOf(n, t).rerecv, src, dst0, p, n)
  {
    forall p, q | 0 <= p < n && 0 <= q < n ensures |t.p2r[p][q].isGhost| == |t.p2r[p][q].index| {
      assert ConformingAt(t, p, q);
    }
    forall q, p | 0 <= q < n && 0 <= p < n ensures |t.r2p[q][p].isGhost| == |t.r2p[q][p].index| {
      assert ConformingAt(t, p, q);
    }
    var resend := BackTable(n, t.rs, t.r2p);
    var rerecv := BackTable(n, t.ps, t.p2r);
    RouteFits(n, t, dst0, src, dst0);
    forall p, q | 0 <= p < n && 0 <= q < n
      ensures resend[q][p] == RouteOf(n, t).resend[q][p] && rerecv[p][q] == RouteOf(n, t).rerecv[p][q]
    {
      assert RouteAt(t, RouteOf(n, t), p, q);
    }
    TableIs(n, resend, RouteOf(n, t).resend);
    TableIs(n, rerecv, RouteOf(n, t).rerecv);
    dst := Move(n, resend, rerecv, src, dst0);
  }
}
