/** The node lists of src/redecomp/transfer/TransferByNodes.cpp, built independently on the parent side
    and on the redecomp side. */
module NodeLists {
  import opened RCBPartition
  import opened Redecomp

  /** One degree of freedom met while walking the elements, with the ghost mark of its element. */
  datatype Visit = Visit(dof: nat, isGhost: bool)

  /** All degrees of freedom met, element after element. */
  function Visits(dofs: seq<seq<nat>>, list: seq<Entity>): seq<Visit>
    requires |dofs| == |list|
  {
    if list == [] then []
    else
      var k := |list| - 1;
      Visits(dofs[..k], list[..k]) + seq(|dofs[k]|, j requires 0 <= j < |dofs[k]| => Visit(dofs[k][j], list[k].isGhost))
  }

  /** The nodes in order of first appearance. */
  function Nodes(visits: seq<Visit>): seq<nat> {
    if visits == [] then []
    else
      var before := Nodes(visits[..|visits| - 1]);
      var v := visits[|visits| - 1].dof;
      if v in before then before else before + [v]
  }

  /** A node whose elements are all ghosts. */
  predicate OnlyGhost(visits: seq<Visit>, v: nat) {
    forall k :: 0 <= k < |visits| && visits[k].dof == v ==> visits[k].isGhost
  }

  lemma {:induction false} NodesAreDistinct(visits: seq<Visit>)
    ensures forall i, j :: 0 <= i < j < |Nodes(visits)| ==> Nodes(visits)[i] != Nodes(visits)[j]
    ensures forall k :: 0 <= k < |visits| ==> visits[k].dof in Nodes(visits)
    ensures forall v :: v in Nodes(visits) ==> exists k :: 0 <= k < |visits| && visits[k].dof == v
  {
    if visits != [] {
      var m := |visits| - 1;
      NodesAreDistinct(visits[..m]);
      var before := Nodes(visits[..m]);
      forall i | 0 <= i < |before| ensures before[i] in before { }
      forall k | 0 <= k < |visits| ensures visits[k].dof in Nodes(visits) {
        if k < m { assert visits[..m][k] == visits[k]; }
      }
      forall v | v in Nodes(visits) ensures exists k :: 0 <= k < |visits| && visits[k].dof == v {
        if v in before {
          var k :| 0 <= k < m && visits[..m][k].dof == v;
          assert visits[k].dof == v;
        } else {
          assert visits[m].dof == v;
        }
      }
    }
  }

  /** The two lists under construction, and the map from node to position. */
  datatype Building = Building(index: seq<nat>, isGhost: seq<bool>, position: map<nat, nat>)

  ghost predicate Builds(b: Building, visits: seq<Visit>) {
    && b.index == Nodes(visits)
    && |b.isGhost| == |b.index|
    && (forall i :: 0 <= i < |b.index| ==> b.isGhost[i] == OnlyGhost(visits, b.index[i]))
    && (forall v :: v in b.position <==> v in b.index)
    && (forall v :: v in b.position ==> b.position[v] < |b.index| && b.index[b.position[v]] == v)
  }

  /** The loop over the degrees of freedom of one element. */
  method VisitElement(b0: Building, dofs: seq<nat>, isGhost: bool, ghost visits: seq<Visit>) returns (b: Building)
    requires Builds(b0, visits)
    ensures Builds(b, visits + seq(|dofs|, j requires 0 <= j < |dofs| => Visit(dofs[j], isGhost)))
  {
    b := b0;
    ghost var added := seq(|dofs|, j requires 0 <= j < |dofs| => Visit(dofs[j], isGhost));
    assert visits + added[..0] == visits;
    for j := 0 to |dofs|
      invariant Builds(b, visits + added[..j])
    {
      ghost var met := visits + added[..j];
      assert visits + added[..j + 1] == met + [Visit(dofs[j], isGhost)];
      b := VisitDof(b, dofs[j], isGhost, met);
    }
    assert added[..|dofs|] == added;
  }

  /** emplace: a node not yet in the map is appended; a node met again loses its ghost mark if this
      element is not a ghost. */
  method VisitDof(b0: Building, v: nat, isGhost: bool, ghost visits: seq<Visit>) returns (b: Building)
    requires Builds(b0, visits)
    ensures Builds(b, visits + [Visit(v, isGhost)])
  {
    if v !in b0.position {
      NewNode(b0, v, isGhost, visits);
      b := Building(b0.index + [v], b0.isGhost + [isGhost], b0.position[v := |b0.index|]);
    } else {
      KnownNode(b0, v, isGhost, visits);
      b := if isGhost then b0 else b0.(isGhost := b0.isGhost[b0.position[v] := false]);
    }
  }

  lemma NewNode(b: Building, v: nat, isGhost: bool, visits: seq<Visit>)
    requires Builds(b, visits) && v !in b.position
    ensures Builds(Building(b.index + [v], b.isGhost + [isGhost], b.position[v := |b.index|]), visits + [Visit(v, isGhost)])
  {
    var after := visits + [Visit(v, isGhost)];
    assert after[..|after| - 1] == visits;
    NodesAreDistinct(visits);
    var c := Building(b.index + [v], b.isGhost + [isGhost], b.position[v := |b.index|]);
    forall i | 0 <= i < |c.index| ensures c.isGhost[i] == OnlyGhost(after, c.index[i]) {
      OnlyGhostSnoc(visits, v, isGhost, c.index[i]);
    }
  }

  lemma KnownNode(b: Building, v: nat, isGhost: bool, visits: seq<Visit>)
    requires Builds(b, visits) && v in b.position
    ensures Builds(if isGhost then b else b.(isGhost := b.isGhost[b.position[v] := false]), visits + [Visit(v, isGhost)])
  {
    var after := visits + [Visit(v, isGhost)];
    assert after[..|after| - 1] == visits;
    NodesAreDistinct(visits);
    forall i | 0 <= i < |b.index| ensures OnlyGhost(after, b.index[i]) <==> OnlyGhost(visits, b.index[i]) && (b.index[i] == v ==> isGhost) {
      OnlyGhostSnoc(visits, v, isGhost, b.index[i]);
    }
  }

  lemma OnlyGhostSnoc(visits: seq<Visit>, v: nat, isGhost: bool, u: nat)
    ensures OnlyGhost(visits + [Visit(v, isGhost)], u) <==> OnlyGhost(visits, u) && (u == v ==> isGhost)
  {
    var after := visits + [Visit(v, isGhost)];
    assert after[|visits|] == Visit(v, isGhost);
    assert forall k :: 0 <= k < |visits| ==> after[k] == visits[k];
  }

  /** Degrees of freedom of the listed elements. */
  function DofsOf(table: seq<seq<nat>>, list: seq<Entity>): (r: seq<seq<nat>>)
    requires forall k :: 0 <= k < |list| ==> list[k].index < |table|
    ensures |r| == |list|
  {
    seq(|list|, k requires 0 <= k < |list| => table[list[k].index])
  }

  lemma VisitsSnoc(dofs: seq<seq<nat>>, list: seq<Entity>, k: nat)
    requires |dofs| == |list| && k < |list|
    ensures Visits(dofs[..k + 1], list[..k + 1])
         == Visits(dofs[..k], list[..k]) + seq(|dofs[k]|, j requires 0 <= j < |dofs[k]| => Visit(dofs[k][j], list[k].isGhost))
  {
    assert dofs[..k + 1][..k] == dofs[..k] && list[..k + 1][..k] == list[..k];
  }

  /** P2RNodeList for one destination rank; table gives the degrees of freedom of the parent's elements,
      as local or as global numbers. */
  method P2RNodeList(table: seq<seq<nat>>, list: seq<Entity>) returns (index: seq<nat>, isGhost: seq<bool>)
    requires forall k :: 0 <= k < |list| ==> list[k].index < |table|
    ensures var visits := Visits(DofsOf(table, list), list);
            && index == Nodes(visits) && |isGhost| == |index|
            && forall i :: 0 <= i < |index| ==> isGhost[i] == OnlyGhost(visits, index[i])
  {
    var b := Building([], [], map[]);
    ghost var dofs := DofsOf(table, list);
    for e := 0 to |list|
      invariant Builds(b, Visits(dofs[..e], list[..e]))
    {
      VisitsSnoc(dofs, list, e);
      b := VisitElement(b, table[list[e].index], list[e].isGhost, Visits(dofs[..e], list[..e]));
    }
    assert dofs[..|list|] == dofs && list[..|list|] == list;
    index, isGhost := b.index, b.isGhost;
  }

  /** R2PNodeList for one source rank: walks the redecomp elements [first, last) and recognises ghosts
      with a cursor over the sorted ghost list. */
  method R2PNodeList(table: seq<seq<nat>>, first: nat, last: nat, ghosts: seq<nat>, ghost list: seq<Entity>)
    returns (index: seq<nat>, isGhost: seq<bool>)
    requires first <= last <= |table| && |list| == last - first && ghosts == GhostsOf(list, first)
    ensures var visits := Visits(table[first..last], list);
            && index == Nodes(visits) && |isGhost| == |index|
            && forall i :: 0 <= i < |index| ==> isGhost[i] == OnlyGhost(visits, index[i])
  {
    var b := Building([], [], map[]);
    var cursor := 0;
    ghost var dofs := table[first..last];
    for e := first to last
      invariant Walked(b, cursor, dofs, first, list, e - first)
    {
      b, cursor := VisitNext(b, cursor, table[e], e, ghosts, dofs, first, list);
    }
    assert dofs[..|dofs|] == dofs && list[..|list|] == list;
    index, isGhost := b.index, b.isGhost;
  }

  /** The lists and the ghost cursor after the first k elements. */
  ghost predicate Walked(b: Building, cursor: nat, dofs: seq<seq<nat>>, first: nat, list: seq<Entity>, k: nat) {
    && |dofs| == |list| && k <= |list|
    && cursor == |GhostsOf(list[..k], first)|
    && Builds(b, Visits(dofs[..k], list[..k]))
  }

  method VisitNext(b0: Building, cursor0: nat, elemDofs: seq<nat>, e: nat, ghosts: seq<nat>, ghost dofs: seq<seq<nat>>,
                   ghost first: nat, ghost list: seq<Entity>) returns (b: Building, cursor: nat)
    requires first <= e < first + |list| && Walked(b0, cursor0, dofs, first, list, e - first)
    requires elemDofs == dofs[e - first] && ghosts == GhostsOf(list, first)
    ensures Walked(b, cursor, dofs, first, list, e - first + 1)
  {
    ghost var k := e - first;
    CursorTest(list, first, k);
    VisitsSnoc(dofs, list, k);
    cursor := cursor0;
    var isElemGhost := false;
    if cursor < |ghosts| && ghosts[cursor] == e {
      cursor := cursor + 1;
      isElemGhost := true;
    }
    b := VisitElement(b0, elemDofs, isElemGhost, Visits(dofs[..k], list[..k]));
  }

  // ----- renumbering

  function Renumber(f: nat -> nat, s: seq<nat>): (r: seq<nat>)
    ensures |r| == |s| && forall i :: 0 <= i < |s| ==> r[i] == f(s[i])
  {
    seq(|s|, i requires 0 <= i < |s| => f(s[i]))
  }

  function RenumberAll(f: nat -> nat, dofs: seq<seq<nat>>): (r: seq<seq<nat>>)
    ensures |r| == |dofs| && forall k :: 0 <= k < |dofs| ==> r[k] == Renumber(f, dofs[k])
  {
    seq(|dofs|, k requires 0 <= k < |dofs| => Renumber(f, dofs[k]))
  }

  function RenumberVisits(f: nat -> nat, visits: seq<Visit>): (r: seq<Visit>)
    ensures |r| == |visits|
    ensures forall k :: 0 <= k < |visits| ==> r[k] == Visit(f(visits[k].dof), visits[k].isGhost)
  {
    seq(|visits|, k requires 0 <= k < |visits| => Visit(f(visits[k].dof), visits[k].isGhost))
  }

  /** f tells the nodes of the walk apart. */
  ghost predicate InjectiveOn(f: nat -> nat, visits: seq<Visit>) {
    forall j, k :: 0 <= j < |visits| && 0 <= k < |visits| && f(visits[j].dof) == f(visits[k].dof)
      ==> visits[j].dof == visits[k].dof
  }

  /** First-occurrence deduplication commutes with an injective renumbering, and so do the marks. */
  lemma {:induction false} NodesCommute(f: nat -> nat, visits: seq<Visit>)
    requires InjectiveOn(f, visits)
    ensures Nodes(RenumberVisits(f, visits)) == Renumber(f, Nodes(visits))
    ensures forall i :: 0 <= i < |Nodes(visits)|
              ==> (OnlyGhost(RenumberVisits(f, visits), f(Nodes(visits)[i])) <==> OnlyGhost(visits, Nodes(visits)[i]))
  {
    if visits != [] {
      var m := |visits| - 1;
      var (before, v) := (Nodes(visits[..m]), visits[m].dof);
      NodesCommute(f, visits[..m]);
      assert RenumberVisits(f, visits)[..m] == RenumberVisits(f, visits[..m]);
      NodesAreDistinct(visits[..m]);
      if f(v) in Renumber(f, before) {
        var i :| 0 <= i < |before| && f(before[i]) == f(v);
        assert before[i] in before;
        var k :| 0 <= k < m && visits[..m][k].dof == before[i];
        assert visits[k].dof == v && v in before;
      }
    }
    MarksCommute(f, visits);
  }

  lemma MarksCommute(f: nat -> nat, visits: seq<Visit>)
    requires InjectiveOn(f, visits)
    ensures forall i :: 0 <= i < |Nodes(visits)|
              ==> (OnlyGhost(RenumberVisits(f, visits), f(Nodes(visits)[i])) <==> OnlyGhost(visits, Nodes(visits)[i]))
  {
    NodesAreDistinct(visits);
    forall i | 0 <= i < |Nodes(visits)|
      ensures OnlyGhost(RenumberVisits(f, visits), f(Nodes(visits)[i])) <==> OnlyGhost(visits, Nodes(visits)[i])
    {
      var v := Nodes(visits)[i];
      assert v in Nodes(visits);
      var j :| 0 <= j < |visits| && visits[j].dof == v;
      assert forall k :: 0 <= k < |visits| ==> (f(visits[k].dof) == f(v) <==> visits[k].dof == v);
      assert forall k :: 0 <= k < |visits| ==> RenumberVisits(f, visits)[k].isGhost == visits[k].isGhost;
    }
  }

  lemma {:induction false} VisitsCommute(f: nat -> nat, dofs: seq<seq<nat>>, list: seq<Entity>)
    requires |dofs| == |list|
    ensures Visits(RenumberAll(f, dofs), list) == RenumberVisits(f, Visits(dofs, list))
  {
    if list != [] {
      var k := |list| - 1;
      VisitsCommute(f, dofs[..k], list[..k]);
      assert RenumberAll(f, dofs)[..k] == RenumberAll(f, dofs[..k]);
    }
  }

  /** Two walks whose node lists have the same length and correspond position by position under f, with
      equal ghost marks. */
  ghost predicate Paired(f: nat -> nat, parent: seq<Visit>, redecomp: seq<Visit>) {
    && Nodes(redecomp) == Renumber(f, Nodes(parent))
    && forall i :: 0 <= i < |Nodes(parent)|
         ==> (OnlyGhost(redecomp, Nodes(redecomp)[i]) <==> OnlyGhost(parent, Nodes(parent)[i]))
  }

  /** Redecomp element first + k has the nodes of the k-th listed parent element, renumbered by f. */
  ghost predicate Conforms(f: nat -> nat, parent: seq<seq<nat>>, list: seq<Entity>, redecomp: seq<seq<nat>>, first: nat) {
    && first + |list| <= |redecomp|
    && (forall k :: 0 <= k < |list| ==> list[k].index < |parent|)
    && (forall k :: 0 <= k < |list| ==> ConformsAt(f, parent, list, redecomp, first, k))
  }

  ghost predicate ConformsAt(f: nat -> nat, parent: seq<seq<nat>>, list: seq<Entity>, redecomp: seq<seq<nat>>,
                             first: nat, k: nat)
    requires k < |list| && first + k < |redecomp| && list[k].index < |parent|
  {
    redecomp[first + k] == Renumber(f, parent[list[k].index])
  }

  /** The walk over the redecomp elements of one block. */
  function BlockVisits(elements: seq<seq<nat>>, first: nat, list: seq<Entity>): seq<Visit>
    requires first + |list| <= |elements|
  {
    Visits(elements[first..first + |list|], list)
  }

  lemma BlockIsRenumbered(f: nat -> nat, parent: seq<seq<nat>>, list: seq<Entity>, redecomp: seq<seq<nat>>, first: nat)
    requires Conforms(f, parent, list, redecomp, first)
    ensures redecomp[first..first + |list|] == RenumberAll(f, DofsOf(parent, list))
  {
    var (a, b) := (redecomp[first..first + |list|], RenumberAll(f, DofsOf(parent, list)));
    forall k | 0 <= k < |list| ensures a[k] == b[k] {
      assert ConformsAt(f, parent, list, redecomp, first, k);
    }
  }

  /** The node lists pair up.  When redecomp element first + k has the degrees of freedom of the k-th
      listed parent element under a renumbering that tells them apart, the two lists have the same
      length and correspond position by position, and their ghost marks agree. */
  lemma NodeListsPairUp(f: nat -> nat, parent: seq<seq<nat>>, list: seq<Entity>, redecomp: seq<seq<nat>>, first: nat)
    requires Conforms(f, parent, list, redecomp, first)
    requires InjectiveOn(f, Visits(DofsOf(parent, list), list))
    ensures Paired(f, Visits(DofsOf(parent, list), list), BlockVisits(redecomp, first, list))
  {
    BlockIsRenumbered(f, parent, list, redecomp, first);
    VisitsCommute(f, DofsOf(parent, list), list);
    NodesCommute(f, Visits(DofsOf(parent, list), list));
  }

  /** The meaning of a mark: it is false exactly when some element of the list is not a ghost and contains
      the node. */
  lemma {:induction false} MarkMeaning(dofs: seq<seq<nat>>, list: seq<Entity>, v: nat)
    requires |dofs| == |list|
    ensures !OnlyGhost(Visits(dofs, list), v) <==> exists k :: 0 <= k < |list| && !list[k].isGhost && v in dofs[k]
  {
    if list != [] {
      var k := |list| - 1;
      MarkMeaning(dofs[..k], list[..k], v);
      var (before, last) := (Visits(dofs[..k], list[..k]),
        seq(|dofs[k]|, j requires 0 <= j < |dofs[k]| => Visit(dofs[k][j], list[k].isGhost)));
      OnlyGhostConcat(before, last, v);
      assert forall j :: 0 <= j < |last| ==> last[j].dof == dofs[k][j];
    }
  }

  lemma OnlyGhostConcat(a: seq<Visit>, b: seq<Visit>, v: nat)
    ensures OnlyGhost(a + b, v) <==> OnlyGhost(a, v) && OnlyGhost(b, v)
  {
    assert forall k :: 0 <= k < |b| ==> (a + b)[|a| + k] == b[k];
    assert forall k :: 0 <= k < |a| ==> (a + b)[k] == a[k];
  }

  /** Every degree of freedom of every listed element appears in the node list. */
  lemma {:induction false} NodesComplete(dofs: seq<seq<nat>>, list: seq<Entity>, k: nat, j: nat)
    requires |dofs| == |list| && k < |list| && j < |dofs[k]|
    ensures dofs[k][j] in Nodes(Visits(dofs, list))
  {
    NodesAreDistinct(Visits(dofs, list));
    var i := VisitOf(dofs, list, k, j);
  }

  lemma {:induction false} VisitOf(dofs: seq<seq<nat>>, list: seq<Entity>, k: nat, j: nat) returns (i: nat)
    requires |dofs| == |list| && k < |list| && j < |dofs[k]|
    ensures i < |Visits(dofs, list)| && Visits(dofs, list)[i] == Visit(dofs[k][j], list[k].isGhost)
  {
    var m := |list| - 1;
    if k == m {
      i := |Visits(dofs[..m], list[..m])| + j;
    } else {
      i := VisitOf(dofs[..m], list[..m], k, j);
    }
  }
}
