/** The candidates of an intersection polygon, as src/tribol/geom/GeomUtilities.hpp treats them after they
    have been found: near-duplicates collapsed, ordered around their centroid, short segments checked. */
module PolyCollapse {
  import opened SegOverlap

  datatype Kind = A | B | AB

  /** A candidate with its metadata: what it came from, and the edges involved. */
  datatype Vertex = Vertex(x: real, y: real, kind: Kind, edgeA: int, edgeB: int)

  /** The candidates as they are stored: five parallel arrays. */
  class Candidates {
    const x: array<real>
    const y: array<real>
    const kind: array<Kind>
    const edgeA: array<int>
    const edgeB: array<int>

    constructor (x: array<real>, y: array<real>, kind: array<Kind>, edgeA: array<int>, edgeB: array<int>)
      ensures this.x == x && this.y == y && this.kind == kind && this.edgeA == edgeA && this.edgeB == edgeB
    {
      this.x, this.y, this.kind, this.edgeA, this.edgeB := x, y, kind, edgeA, edgeB;
    }

    ghost predicate Valid() {
      && x.Length == y.Length == kind.Length == edgeA.Length == edgeB.Length
      && x != y && edgeA != edgeB
    }

    /** Candidate i is entry i of each array. */
    function All(): (s: seq<Vertex>)
      requires Valid()
      reads x, y, kind, edgeA, edgeB
      ensures |s| == x.Length
      ensures forall i :: 0 <= i < |s| ==> s[i] == Vertex(x[i], y[i], kind[i], edgeA[i], edgeB[i])
    {
      seq(x.Length, i requires 0 <= i < x.Length reads x, y, kind, edgeA, edgeB =>
        Vertex(x[i], y[i], kind[i], edgeA[i], edgeB[i]))
    }
  }

  /** Two points of the plane at a distance of at least the tolerance. */
  ghost predicate Clear(mag: (real, real) -> real, tol: real, px: real, py: real, qx: real, qy: real) {
    mag(px - qx, py - qy) >= tol
  }

  /** Being clear is a matter of the squared distance, which has both coordinates in it. */
  lemma ClearByDistance(mag: (real, real) -> real, tol: real, px: real, py: real, qx: real, qy: real)
    requires IsMagnitude(mag) && tol >= 0.0
    ensures Clear(mag, tol, px, py, qx, qy)
       <==> (px - qx) * (px - qx) + (py - qy) * (py - qy) >= tol * tol
  {
    var m := mag(px - qx, py - qy);
    assert Length(m, px - qx, py - qy);
    SquaresCompare(m, tol);
  }

  lemma NegativeProduct(x: real, y: real)
    requires x < 0.0 < y
    ensures x * y < 0.0
  {
  }

  lemma SquaresCompare(a: real, b: real)
    requires a >= 0.0 && b >= 0.0
    ensures a >= b <==> a * a >= b * b
  {
    assert a * a - b * b == (a - b) * (a + b);
    if a < b { NegativeProduct(a - b, a + b); }
  }

  predicate Near(mag: (real, real) -> real, tol: real, p: Vertex, q: Vertex) {
    mag(p.x - q.x, p.y - q.y) < tol
  }

  /** Distances do not depend on the direction. */
  lemma MagnitudeIsEven(mag: (real, real) -> real, x: real, y: real)
    requires IsMagnitude(mag)
    ensures mag(-x, -y) == mag(x, y)
  {
    assert Length(mag(x, y), x, y) && Length(mag(-x, -y), -x, -y);
    SquaresAgree(mag(-x, -y), mag(x, y));
  }

  lemma NearIsSymmetric(mag: (real, real) -> real, tol: real, p: Vertex, q: Vertex)
    requires IsMagnitude(mag)
    ensures Near(mag, tol, p, q) <==> Near(mag, tol, q, p)
  {
    MagnitudeIsEven(mag, p.x - q.x, p.y - q.y);
  }

  // ----- collapse of near-duplicates

  /** The vertices of the list that are not near p. */
  function Apart(mag: (real, real) -> real, tol: real, p: Vertex, s: seq<Vertex>): (r: seq<Vertex>)
    ensures |r| <= |s|
  {
    if s == [] then []
    else (if Near(mag, tol, p, s[0]) then [] else [s[0]]) + Apart(mag, tol, p, s[1..])
  }

  /** What the collapse leaves: each vertex removes the later vertices near it, first occurrences first. */
  function Collapsed(mag: (real, real) -> real, tol: real, s: seq<Vertex>): (r: seq<Vertex>)
    ensures |r| <= |s|
    decreases |s|
  {
    if s == [] then [] else [s[0]] + Collapsed(mag, tol, Apart(mag, tol, s[0], s[1..]))
  }

  lemma {:induction false} ApartMembers(mag: (real, real) -> real, tol: real, p: Vertex, s: seq<Vertex>, v: Vertex)
    ensures v in Apart(mag, tol, p, s) <==> v in s && !Near(mag, tol, p, v)
  {
    if s != [] { ApartMembers(mag, tol, p, s[1..], v); }
  }

  /** All vertices are pairwise at least the tolerance apart. */
  ghost predicate PairwiseApart(mag: (real, real) -> real, tol: real, s: seq<Vertex>) {
    forall i, j :: 0 <= i < j < |s| ==> !Near(mag, tol, s[i], s[j])
  }

  lemma {:induction false} CollapsedMembers(mag: (real, real) -> real, tol: real, s: seq<Vertex>)
    ensures forall v :: v in Collapsed(mag, tol, s) ==> v in s
    decreases |s|
  {
    if s != [] {
      var rest := Apart(mag, tol, s[0], s[1..]);
      CollapsedMembers(mag, tol, rest);
      forall v | v in Collapsed(mag, tol, s) ensures v in s { ApartMembers(mag, tol, s[0], s[1..], v); }
    }
  }

  lemma {:induction false} NoneNear(mag: (real, real) -> real, tol: real, s: seq<Vertex>)
    ensures PairwiseApart(mag, tol, Collapsed(mag, tol, s))
    decreases |s|
  {
    if s != [] {
      var rest := Apart(mag, tol, s[0], s[1..]);
      NoneNear(mag, tol, rest);
      CollapsedMembers(mag, tol, rest);
      var r := Collapsed(mag, tol, s);
      forall j | 0 < j < |r| ensures !Near(mag, tol, r[0], r[j]) {
        assert r[j] in Collapsed(mag, tol, rest);
        ApartMembers(mag, tol, s[0], s[1..], r[j]);
      }
    }
  }

  /** After the collapse all remaining vertices are pairwise at least the tolerance apart. */
  lemma CollapsedIsApart(mag: (real, real) -> real, tol: real, s: seq<Vertex>)
    ensures var r := Collapsed(mag, tol, s);
            forall i, j :: 0 <= i < j < |r| ==> mag(r[i].x - r[j].x, r[i].y - r[j].y) >= tol
  {
    NoneNear(mag, tol, s);
    var r := Collapsed(mag, tol, s);
    forall i, j | 0 <= i < j < |r| ensures mag(r[i].x - r[j].x, r[i].y - r[j].y) >= tol {
      assert !Near(mag, tol, r[i], r[j]);
    }
  }

  /** Ascending indices below n. */
  ghost predicate Ascending(ids: seq<nat>, n: nat) {
    (forall k :: 0 <= k < |ids| ==> ids[k] < n) && forall k, l :: 0 <= k < l < |ids| ==> ids[k] < ids[l]
  }

  ghost function At<T>(s: seq<T>, ids: seq<nat>): (r: seq<T>)
    requires forall k :: 0 <= k < |ids| ==> ids[k] < |s|
    ensures |r| == |ids|
  {
    seq(|ids|, k requires 0 <= k < |ids| => s[ids[k]])
  }

  /** `far` are the indices of the vertices that are not near p. */
  ghost predicate FarFrom(mag: (real, real) -> real, tol: real, p: Vertex, s: seq<Vertex>, far: seq<nat>) {
    Ascending(far, |s|) && forall j: nat :: j < |s| ==> (j in far <==> !Near(mag, tol, p, s[j]))
  }

  /** `kept` are the indices of the vertices that are near no kept one before them. */
  ghost predicate KeepsFirst(mag: (real, real) -> real, tol: real, s: seq<Vertex>, kept: seq<nat>) {
    Ascending(kept, |s|) && forall j: nat :: j < |s| ==> (j in kept <==> FarFromKept(mag, tol, s, kept, j))
  }

  ghost predicate FarFromKept(mag: (real, real) -> real, tol: real, s: seq<Vertex>, kept: seq<nat>, j: nat)
    requires j < |s|
  {
    forall i: nat :: i in kept && i < j && i < |s| ==> !Near(mag, tol, s[i], s[j])
  }

  lemma {:induction false} ApartIsFar(mag: (real, real) -> real, tol: real, p: Vertex, s: seq<Vertex>)
    returns (far: seq<nat>)
    ensures FarFrom(mag, tol, p, s, far) && Apart(mag, tol, p, s) == At(s, far)
  {
    far := [];
    if s != [] {
      var rest := ApartIsFar(mag, tol, p, s[1..]);
      far := FarCons(mag, tol, p, s, rest);
    }
  }

  /** Indices into the tail of a list as indices into the list. */
  ghost function Later(ids: seq<nat>): (r: seq<nat>)
    ensures |r| == |ids| && forall k :: 0 <= k < |ids| ==> r[k] == ids[k] + 1
  {
    seq(|ids|, k requires 0 <= k < |ids| => ids[k] + 1)
  }

  lemma LaterMembers(ids: seq<nat>, n: nat)
    requires Ascending(ids, n)
    ensures Ascending(Later(ids), n + 1)
    ensures forall j: nat :: j in Later(ids) <==> j >= 1 && j - 1 in ids
  {
    forall j: nat ensures j in Later(ids) <==> j >= 1 && j - 1 in ids { LaterMember(ids, j); }
  }

  lemma LaterMember(ids: seq<nat>, j: nat)
    ensures j in Later(ids) <==> j >= 1 && j - 1 in ids
  {
    if j >= 1 && j - 1 in ids {
      var k :| 0 <= k < |ids| && ids[k] == j - 1;
      assert Later(ids)[k] == j;
    }
  }

  lemma ConsZero(ids: seq<nat>, n: nat)
    requires n >= 1 && Ascending(ids, n) && forall k :: 0 <= k < |ids| ==> ids[k] >= 1
    ensures Ascending([0] + ids, n)
    ensures forall j: nat :: j in [0] + ids <==> j == 0 || j in ids
  {
    var r := [0] + ids;
    forall k, l | 0 <= k < l < |r| ensures r[k] < r[l] {
      assert r[l] == ids[l - 1];
      if k > 0 { assert r[k] == ids[k - 1]; }
    }
  }

  lemma AtLater<T>(s: seq<T>, ids: seq<nat>)
    requires s != [] && Ascending(ids, |s| - 1)
    ensures forall k :: 0 <= k < |ids| ==> Later(ids)[k] < |s|
    ensures At(s, Later(ids)) == At(s[1..], ids)
  {
  }

  lemma AtZero<T>(s: seq<T>, ids: seq<nat>)
    requires s != [] && forall k :: 0 <= k < |ids| ==> ids[k] < |s|
    ensures At(s, [0] + ids) == [s[0]] + At(s, ids)
  {
  }

  lemma FarCons(mag: (real, real) -> real, tol: real, p: Vertex, s: seq<Vertex>, rest: seq<nat>) returns (far: seq<nat>)
    requires s != [] && FarFrom(mag, tol, p, s[1..], rest)
    ensures FarFrom(mag, tol, p, s, far)
    ensures At(s, far) == (if Near(mag, tol, p, s[0]) then [] else [s[0]]) + At(s[1..], rest)
  {
    hide Near;
    hide Ascending;
    far := Later(rest);
    LaterMembers(rest, |s| - 1);
    InRange(rest, |s| - 1);
    AtLater(s, rest);
    assert forall j :: 1 <= j < |s| ==> s[1..][j - 1] == s[j];
    if !Near(mag, tol, p, s[0]) {
      ConsZero(far, |s|);
      AtZero(s, far);
      far := [0] + far;
    }
  }

  lemma InRange(ids: seq<nat>, n: nat)
    requires Ascending(ids, n)
    ensures forall k :: 0 <= k < |ids| ==> ids[k] < n
  {
  }

  /** The collapse keeps exactly the vertices that are near no kept one before them. */
  lemma {:induction false} CollapsedKeepsFirst(mag: (real, real) -> real, tol: real, s: seq<Vertex>)
    returns (kept: seq<nat>)
    ensures KeepsFirst(mag, tol, s, kept) && Collapsed(mag, tol, s) == At(s, kept)
    decreases |s|
  {
    kept := [];
    if s != [] {
      var rest := Apart(mag, tol, s[0], s[1..]);
      var far := ApartIsFar(mag, tol, s[0], s[1..]);
      var inner := CollapsedKeepsFirst(mag, tol, rest);
      kept := KeepHead(mag, tol, s, far, inner);
    }
  }

  /** Indices into the list that `far` selects, as indices into the whole list. */
  lemma AtAscends(far: seq<nat>, inner: seq<nat>, n: nat)
    requires Ascending(far, n) && Ascending(inner, |far|)
    ensures Ascending(At(far, inner), n)
    ensures forall a: nat :: a < |far| ==> (far[a] in At(far, inner) <==> a in inner)
    ensures forall j: nat :: j in At(far, inner) ==> j in far
  {
    var all := At(far, inner);
    forall a: nat | a < |far| ensures far[a] in all <==> a in inner {
      if a in inner {
        var k :| 0 <= k < |inner| && inner[k] == a;
        assert all[k] == far[a];
      }
      if far[a] in all {
        var k :| 0 <= k < |all| && all[k] == far[a];
        assert inner[k] in inner;
      }
    }
  }

  lemma KeepHead(mag: (real, real) -> real, tol: real, s: seq<Vertex>, far: seq<nat>, inner: seq<nat>)
    returns (kept: seq<nat>)
    requires s != [] && FarFrom(mag, tol, s[0], s[1..], far) && KeepsFirst(mag, tol, At(s[1..], far), inner)
    ensures KeepsFirst(mag, tol, s, kept) && At(s, kept) == [s[0]] + At(At(s[1..], far), inner)
  {
    hide Near;
    hide Ascending;
    hide FarFromKept;
    var tail := s[1..];
    InRange(far, |tail|);
    InRange(inner, |far|);
    var ids := At(far, inner);
    AtAscends(far, inner, |tail|);
    LaterMembers(ids, |tail|);
    InRange(ids, |tail|);
    AtLater(s, ids);
    ConsZero(Later(ids), |s|);
    AtZero(s, Later(ids));
    AtTwice(tail, far, inner);
    kept := [0] + Later(ids);
    var rest := At(tail, far);
    assert forall b :: 0 <= b < |far| ==> rest[b] == s[far[b] + 1];
    KeptByAll(mag, tol, s, rest, far, inner, kept);
  }

  /** The vertices that are not near the first one, where they stand in the list, and which of them stay. */
  ghost predicate Selected(s: seq<Vertex>, rest: seq<Vertex>, far: seq<nat>, inner: seq<nat>, kept: seq<nat>)
    requires s != []
  {
    && |rest| == |far| && Ascending(far, |s| - 1) && Ascending(inner, |far|)
    && (forall b: nat :: b < |far| ==> rest[b] == s[far[b] + 1])
    && (forall b: nat :: b < |far| ==> (far[b] + 1 in kept <==> b in inner))
    && (forall i: nat :: i in kept ==> i == 0 || i - 1 in far)
  }

  /** A later vertex that stays among those not near the first one stays in the whole list. */
  lemma StaysInWhole(mag: (real, real) -> real, tol: real, s: seq<Vertex>, rest: seq<Vertex>, far: seq<nat>,
                     inner: seq<nat>, kept: seq<nat>, a: nat)
    requires s != [] && Selected(s, rest, far, inner, kept) && a < |far|
    requires FarFromKept(mag, tol, rest, inner, a) && !Near(mag, tol, s[0], s[far[a] + 1])
    ensures FarFromKept(mag, tol, s, kept, far[a] + 1)
  {
    hide Near;
    forall i: nat | i in kept && i < far[a] + 1 ensures !Near(mag, tol, s[i], s[far[a] + 1]) {
      if i > 0 {
        var b: nat :| b < |far| && far[b] == i - 1;
        assert b in inner && b < a;
      }
    }
  }

  lemma StaysInRest(mag: (real, real) -> real, tol: real, s: seq<Vertex>, rest: seq<Vertex>, far: seq<nat>,
                    inner: seq<nat>, kept: seq<nat>, a: nat)
    requires s != [] && Selected(s, rest, far, inner, kept) && a < |far|
    requires FarFromKept(mag, tol, s, kept, far[a] + 1)
    ensures FarFromKept(mag, tol, rest, inner, a)
  {
    hide Near;
    forall b: nat | b in inner && b < a ensures !Near(mag, tol, rest[b], rest[a]) {
      assert far[b] + 1 in kept && rest[b] == s[far[b] + 1];
    }
  }

  lemma StaysAlike(mag: (real, real) -> real, tol: real, s: seq<Vertex>, rest: seq<Vertex>, far: seq<nat>,
                   inner: seq<nat>, kept: seq<nat>, a: nat)
    requires s != [] && Selected(s, rest, far, inner, kept) && a < |far|
    requires !Near(mag, tol, s[0], s[far[a] + 1])
    ensures FarFromKept(mag, tol, s, kept, far[a] + 1) <==> FarFromKept(mag, tol, rest, inner, a)
  {
    hide Near;
    hide FarFromKept;
    hide Ascending;
    InRange(far, |s| - 1);
    if FarFromKept(mag, tol, rest, inner, a) { StaysInWhole(mag, tol, s, rest, far, inner, kept, a); }
    if FarFromKept(mag, tol, s, kept, far[a] + 1) { StaysInRest(mag, tol, s, rest, far, inner, kept, a); }
  }

  lemma FirstIsKept(mag: (real, real) -> real, tol: real, s: seq<Vertex>, kept: seq<nat>)
    requires s != []
    ensures FarFromKept(mag, tol, s, kept, 0)
  {
  }

  lemma NotKept(mag: (real, real) -> real, tol: real, s: seq<Vertex>, kept: seq<nat>, j: nat)
    requires 0 < j < |s| && 0 in kept && Near(mag, tol, s[0], s[j])
    ensures !FarFromKept(mag, tol, s, kept, j)
  {
    hide Near;
  }

  lemma KeptByAll(mag: (real, real) -> real, tol: real, s: seq<Vertex>, rest: seq<Vertex>, far: seq<nat>,
                  inner: seq<nat>, kept: seq<nat>)
    requires s != [] && FarFrom(mag, tol, s[0], s[1..], far) && KeepsFirst(mag, tol, rest, inner)
    requires Selected(s, rest, far, inner, kept) && 0 in kept
    ensures forall j: nat :: j < |s| ==> (j in kept <==> FarFromKept(mag, tol, s, kept, j))
  {
    hide Near;
    hide Ascending;
    hide FarFromKept;
    forall j: nat | j < |s| ensures j in kept <==> FarFromKept(mag, tol, s, kept, j) {
      if j == 0 {
        FirstIsKept(mag, tol, s, kept);
      } else {
        assert s[1..][j - 1] == s[j];
        if j - 1 in far {
          var a: nat :| a < |far| && far[a] == j - 1;
          StaysAlike(mag, tol, s, rest, far, inner, kept, a);
        } else {
          NotKept(mag, tol, s, kept, j);
        }
      }
    }
  }

  lemma AtTwice<T>(s: seq<T>, far: seq<nat>, inner: seq<nat>)
    requires Ascending(far, |s|) && Ascending(inner, |far|)
    ensures forall k :: 0 <= k < |inner| ==> At(far, inner)[k] < |s|
    ensures At(s, At(far, inner)) == At(At(s, far), inner)
  {
  }

  /** `kept` are the indices of the survivors: the vertices at a distance of at least the tolerance, in the plane,
      from every survivor before them. */
  ghost predicate Survivors(mag: (real, real) -> real, tol: real, s: seq<Vertex>, kept: seq<nat>) {
    && Ascending(kept, |s|)
    && forall j: nat :: j < |s|
         ==> (j in kept <==> forall i: nat :: i in kept && i < j ==> Clear(mag, tol, s[i].x, s[i].y, s[j].x, s[j].y))
  }

  lemma KeptSurvive(mag: (real, real) -> real, tol: real, s: seq<Vertex>, kept: seq<nat>)
    requires KeepsFirst(mag, tol, s, kept)
    ensures Survivors(mag, tol, s, kept)
  {
    forall j: nat | j < |s|
      ensures j in kept <==> forall i: nat :: i in kept && i < j ==> Clear(mag, tol, s[i].x, s[i].y, s[j].x, s[j].y)
    {
      assert j in kept <==> FarFromKept(mag, tol, s, kept, j);
    }
  }

  /** Nothing is lost: every candidate survives or is nearer than the tolerance to a survivor before it. */
  lemma CollapsedCovers(mag: (real, real) -> real, tol: real, s: seq<Vertex>, j: nat) returns (kept: seq<nat>)
    requires j < |s|
    ensures Ascending(kept, |s|) && Collapsed(mag, tol, s) == At(s, kept)
    ensures j in kept || exists i: nat :: i in kept && i < j && mag(s[i].x - s[j].x, s[i].y - s[j].y) < tol
  {
    kept := CollapsedKeepsFirst(mag, tol, s);
    KeptSurvive(mag, tol, s, kept);
  }

  /** Candidates that are pairwise at least the tolerance apart all survive. */
  lemma ApartAllSurvive(mag: (real, real) -> real, tol: real, s: seq<Vertex>, kept: seq<nat>)
    requires Survivors(mag, tol, s, kept)
    requires forall i, j :: 0 <= i < j < |s| ==> mag(s[i].x - s[j].x, s[i].y - s[j].y) >= tol
    ensures |kept| == |s| && At(s, kept) == s
  {
    AllBelow(kept, |s|);
  }

  lemma {:induction false} AllBelow(ids: seq<nat>, n: nat)
    requires Ascending(ids, n) && forall j: nat :: j < n ==> j in ids
    ensures |ids| == n && forall k :: 0 <= k < |ids| ==> ids[k] == k
  {
    assert |ids| > 0 ==> ids[0] < n;
    if n > 0 {
      var m := |ids| - 1;
      assert n - 1 in ids;
      assert ids[m] == n - 1;
      forall j: nat | j < n - 1 ensures j in ids[..m] {
        assert j in ids;
      }
      AllBelow(ids[..m], n - 1);
    }
  }

  lemma {:induction false} ApartKeeps(mag: (real, real) -> real, tol: real, p: Vertex, s: seq<Vertex>)
    requires forall j :: 0 <= j < |s| ==> !Near(mag, tol, p, s[j])
    ensures Apart(mag, tol, p, s) == s
  {
    if s != [] { ApartKeeps(mag, tol, p, s[1..]); }
  }

  /** Collapsing again changes nothing. */
  lemma {:induction false} CollapsedIsStable(mag: (real, real) -> real, tol: real, s: seq<Vertex>)
    requires PairwiseApart(mag, tol, s)
    ensures Collapsed(mag, tol, s) == s
    decreases |s|
  {
    if s != [] {
      ApartKeeps(mag, tol, s[0], s[1..]);
      CollapsedIsStable(mag, tol, s[1..]);
    }
  }

  /** w is v without entry j, as far as the first n entries go. */
  ghost predicate Removed(v: seq<Vertex>, w: seq<Vertex>, n: nat, j: nat) {
    j < n <= |v| == |w| && w[..j] == v[..j] && w[j..n - 1] == v[j + 1..n]
  }

  /** One array during the shift: the entries from j to l have moved down. */
  ghost predicate Shifted<T>(v: seq<T>, w: seq<T>, n: nat, j: nat, l: nat) {
    && j <= l < n <= |v| == |w|
    && (forall k :: 0 <= k < j ==> w[k] == v[k])
    && (forall k :: j <= k < l ==> w[k] == v[k + 1])
    && (forall k :: l <= k < n ==> w[k] == v[k])
  }

  lemma ShiftStep<T>(v: seq<T>, w: seq<T>, n: nat, j: nat, l: nat)
    requires Shifted(v, w, n, j, l) && l < n - 1
    ensures Shifted(v, w[l := w[l + 1]], n, j, l + 1)
  {
  }

  /** The shift that removes candidate j, in all five arrays. */
  method RemoveAt(c: Candidates, n: nat, j: nat)
    requires c.Valid() && j < n <= c.x.Length
    modifies c.x, c.y, c.kind, c.edgeA, c.edgeB
    ensures Removed(old(c.All()), c.All(), n, j)
  {
    ghost var (x, y, kind, a, b) := (c.x[..], c.y[..], c.kind[..], c.edgeA[..], c.edgeB[..]);
    for l := j to n - 1
      invariant Shifted(x, c.x[..], n, j, l) && Shifted(y, c.y[..], n, j, l)
      invariant Shifted(kind, c.kind[..], n, j, l)
      invariant Shifted(a, c.edgeA[..], n, j, l) && Shifted(b, c.edgeB[..], n, j, l)
    {
      ShiftOne(c, n, j, l, x, y, kind, a, b);
    }
    RemovedFromAll(old(c.All()), c.All(), n, j);
  }

  /** The body of the shift. */
  method ShiftOne(c: Candidates, ghost n: nat, ghost j: nat, l: nat, ghost x: seq<real>, ghost y: seq<real>,
                  ghost kind: seq<Kind>, ghost a: seq<int>, ghost b: seq<int>)
    requires c.Valid() && j <= l < n - 1 && n <= c.x.Length
    requires Shifted(x, c.x[..], n, j, l) && Shifted(y, c.y[..], n, j, l) && Shifted(kind, c.kind[..], n, j, l)
    requires Shifted(a, c.edgeA[..], n, j, l) && Shifted(b, c.edgeB[..], n, j, l)
    modifies c.x, c.y, c.kind, c.edgeA, c.edgeB
    ensures Shifted(x, c.x[..], n, j, l + 1) && Shifted(y, c.y[..], n, j, l + 1)
    ensures Shifted(kind, c.kind[..], n, j, l + 1)
    ensures Shifted(a, c.edgeA[..], n, j, l + 1) && Shifted(b, c.edgeB[..], n, j, l + 1)
  {
    hide Shifted;
    ShiftStep(x, c.x[..], n, j, l);
    ShiftStep(y, c.y[..], n, j, l);
    ShiftStep(kind, c.kind[..], n, j, l);
    ShiftStep(a, c.edgeA[..], n, j, l);
    ShiftStep(b, c.edgeB[..], n, j, l);
    ghost var (x0, y0, kind0, a0, b0) := (c.x[..], c.y[..], c.kind[..], c.edgeA[..], c.edgeB[..]);
    c.x[l] := c.x[l + 1];
    c.y[l] := c.y[l + 1];
    c.kind[l] := c.kind[l + 1];
    c.edgeA[l] := c.edgeA[l + 1];
    c.edgeB[l] := c.edgeB[l + 1];
    assert c.x[..] == x0[l := x0[l + 1]] && c.y[..] == y0[l := y0[l + 1]];
    assert c.kind[..] == kind0[l := kind0[l + 1]];
    assert c.edgeA[..] == a0[l := a0[l + 1]] && c.edgeB[..] == b0[l := b0[l + 1]];
  }

  lemma RemovedFromAll(v: seq<Vertex>, w: seq<Vertex>, n: nat, j: nat)
    requires j < n <= |v| == |w|
    requires forall k :: 0 <= k < j ==> w[k] == v[k]
    requires forall k :: j <= k < n - 1 ==> w[k] == v[k + 1]
    ensures Removed(v, w, n, j)
  {
  }

  /** The inner loop has settled the vertices of v between i and j; those from j to n are to be tested. */
  ghost predicate Testing(mag: (real, real) -> real, tol: real, v0: seq<Vertex>, n0: nat, v: seq<Vertex>, n: nat,
                          i: nat, j: nat) {
    && i < j <= n <= n0 <= |v0| == |v| && v[..i + 1] == v0[..i + 1]
    && v[i + 1..j] + Apart(mag, tol, v0[i], v[j..n]) == Apart(mag, tol, v0[i], v0[i + 1..n0])
  }

  lemma TestNext(mag: (real, real) -> real, tol: real, v0: seq<Vertex>, n0: nat, v: seq<Vertex>, n: nat, i: nat, j: nat)
    requires Testing(mag, tol, v0, n0, v, n, i, j) && j < n
    ensures i < j < n <= |v| == |v0| && v[i] == v0[i]
    ensures Apart(mag, tol, v0[i], v[j..n])
         == (if Near(mag, tol, v0[i], v[j]) then [] else [v[j]]) + Apart(mag, tol, v0[i], v[j + 1..n])
  {
    assert v[i] == v[..i + 1][i] == v0[..i + 1][i];
    assert v[j..n][0] == v[j] && v[j..n][1..] == v[j + 1..n];
  }

  lemma TestKeeps(mag: (real, real) -> real, tol: real, v0: seq<Vertex>, n0: nat, v: seq<Vertex>, n: nat, i: nat, j: nat)
    requires Testing(mag, tol, v0, n0, v, n, i, j) && j < n && !Near(mag, tol, v0[i], v[j])
    ensures Testing(mag, tol, v0, n0, v, n, i, j + 1)
  {
    TestNext(mag, tol, v0, n0, v, n, i, j);
    assert v[i + 1..j + 1] == v[i + 1..j] + [v[j]];
  }

  lemma TestRemoves(mag: (real, real) -> real, tol: real, v0: seq<Vertex>, n0: nat, v: seq<Vertex>, n: nat, i: nat,
                    j: nat, w: seq<Vertex>)
    requires Testing(mag, tol, v0, n0, v, n, i, j) && j < n && Near(mag, tol, v0[i], v[j])
    requires Removed(v, w, n, j)
    ensures Testing(mag, tol, v0, n0, w, n - 1, i, j)
  {
    TestNext(mag, tol, v0, n0, v, n, i, j);
    assert w[..i + 1] == w[..j][..i + 1] && v[..i + 1] == v[..j][..i + 1];
    assert w[i + 1..j] == w[..j][i + 1..] && v[i + 1..j] == v[..j][i + 1..];
  }

  /** The body of the inner loop: removes vertex j if it is near vertex i, otherwise goes on to the next. */
  method TestOne(mag: (real, real) -> real, tol: real, c: Candidates, n0: nat, i: nat, j0: nat,
                 ghost v0: seq<Vertex>, ghost m: nat) returns (n: nat, j: nat)
    requires c.Valid() && n0 <= c.x.Length && Testing(mag, tol, v0, m, c.All(), n0, i, j0) && j0 < n0
    modifies c.x, c.y, c.kind, c.edgeA, c.edgeB
    ensures Testing(mag, tol, v0, m, c.All(), n, i, j) && n - j < n0 - j0
  {
    hide Testing;
    hide Apart;
    hide Removed;
    n, j := n0, j0;
    ghost var v := c.All();
    TestNext(mag, tol, v0, m, v, n, i, j);
    if mag(c.x[i] - c.x[j], c.y[i] - c.y[j]) < tol {
      assert Near(mag, tol, v0[i], v[j]);
      RemoveAt(c, n, j);
      TestRemoves(mag, tol, v0, m, v, n, i, j, c.All());
      n := n - 1;
    } else {
      assert !Near(mag, tol, v0[i], v[j]);
      TestKeeps(mag, tol, v0, m, v, n, i, j);
      j := j + 1;
    }
  }

  lemma FarIsClear(mag: (real, real) -> real, tol: real, p: Vertex, s: seq<Vertex>, far: seq<nat>)
    requires FarFrom(mag, tol, p, s, far)
    ensures Ascending(far, |s|)
    ensures forall j: nat :: j < |s| ==> (j in far <==> Clear(mag, tol, p.x, p.y, s[j].x, s[j].y))
  {
  }

  /** The inner loop: removes the vertices after i that are nearer to it than the tolerance, and keeps the others
      in order. */
  method RemoveNear(mag: (real, real) -> real, tol: real, c: Candidates, n0: nat, i: nat)
    returns (n: nat, ghost far: seq<nat>)
    requires c.Valid() && i < n0 <= c.x.Length
    modifies c.x, c.y, c.kind, c.edgeA, c.edgeB
    ensures Testing(mag, tol, old(c.All()), n0, c.All(), n, i, n)
    ensures var (p, s) := (old(c.All())[i], old(c.All())[i + 1..n0]);
      && Ascending(far, |s|)
      && forall j: nat :: j < |s| ==> (j in far <==> Clear(mag, tol, p.x, p.y, s[j].x, s[j].y))
    ensures c.All()[..i + 1] == old(c.All())[..i + 1] && c.All()[i + 1..n] == At(old(c.All())[i + 1..n0], far)
  {
    n := n0;
    var j: nat := i + 1;
    ghost var v0 := c.All();
    assert v0[i + 1..j] == [];
    while j < n
      invariant Testing(mag, tol, v0, n0, c.All(), n, i, j)
      decreases n - j
    {
      n, j := TestOne(mag, tol, c, n, i, j, v0, n0);
    }
    far := ApartIsFar(mag, tol, v0[i], v0[i + 1..n0]);
    FarIsClear(mag, tol, v0[i], v0[i + 1..n0], far);
    assert Apart(mag, tol, v0[i], c.All()[n..n]) == [];
  }

  /** The first i vertices are settled, the others up to n are still to be collapsed. */
  ghost predicate Settled(mag: (real, real) -> real, tol: real, v0: seq<Vertex>, n0: nat, v: seq<Vertex>, n: nat, i: nat) {
    && i <= n <= n0 <= |v0| == |v|
    && v[..i] + Collapsed(mag, tol, v[i..n]) == Collapsed(mag, tol, v0[..n0])
  }

  lemma SettleNext(mag: (real, real) -> real, tol: real, v0: seq<Vertex>, n0: nat, v: seq<Vertex>, n: nat, i: nat,
                   w: seq<Vertex>, m: nat)
    requires Settled(mag, tol, v0, n0, v, n, i) && i < n && Testing(mag, tol, v, n, w, m, i, m)
    ensures Settled(mag, tol, v0, n0, w, m, i + 1)
  {
    assert v[i..n][0] == v[i] && v[i..n][1..] == v[i + 1..n];
    assert w[m..m] == [] && Apart(mag, tol, v[i], []) == [];
    assert w[i + 1..m] + [] == w[i + 1..m];
    assert Collapsed(mag, tol, v[i..n]) == [v[i]] + Collapsed(mag, tol, w[i + 1..m]);
    hide Apart;
    hide Collapsed;
    assert v[..i + 1] == v[..i] + [v[i]];
  }

  /** The collapse, in place: the first n entries of the array are what is left. */
  method Collapse(mag: (real, real) -> real, tol: real, c: Candidates, n0: nat) returns (n: nat, ghost kept: seq<nat>)
    requires c.Valid() && n0 <= c.x.Length
    modifies c.x, c.y, c.kind, c.edgeA, c.edgeB
    ensures n <= n0 && c.All()[..n] == Collapsed(mag, tol, old(c.All()[..n0]))
    ensures Survivors(mag, tol, old(c.All()[..n0]), kept) && c.All()[..n] == At(old(c.All()[..n0]), kept)
  {
    n := n0;
    var i := 0;
    ghost var v0 := c.All();
    assert v0[..0] + Collapsed(mag, tol, v0[0..n]) == Collapsed(mag, tol, v0[..n0]);
    while i < n
      invariant Settled(mag, tol, v0, n0, c.All(), n, i)
      decreases n - i
    {
      ghost var (v, n1) := (c.All(), n);
      ghost var far;
      n, far := RemoveNear(mag, tol, c, n, i);
      SettleNext(mag, tol, v0, n0, v, n1, i, c.All(), n);
      i := i + 1;
    }
    assert c.All()[n..n] == [];
    kept := CollapsedKeepsFirst(mag, tol, v0[..n0]);
    KeptSurvive(mag, tol, v0[..n0], kept);
  }

  // ----- ordering around the centroid

  /** The sorting key of a vertex: its polar angle about the centre and its squared distance. */
  datatype Key = Key(angle: real, radius2: real)

  predicate Leq(a: Key, b: Key) {
    a.angle < b.angle || (a.angle == b.angle && a.radius2 <= b.radius2)
  }

  function KeyOf(atan2: (real, real) -> real, cx: real, cy: real, v: Vertex): Key {
    Key(atan2(v.y - cy, v.x - cx), (v.x - cx) * (v.x - cx) + (v.y - cy) * (v.y - cy))
  }

  predicate SortedIds(keys: seq<Key>, ids: seq<nat>) {
    forall k, l :: 0 <= k < l < |ids| && ids[k] < |keys| && ids[l] < |keys| ==> Leq(keys[ids[k]], keys[ids[l]])
  }

  /** Distinct ids below n. */
  predicate Permutes(ids: seq<nat>, n: nat) {
    && (forall k :: 0 <= k < |ids| ==> ids[k] < n)
    && (forall k, l :: 0 <= k < l < |ids| ==> ids[k] != ids[l])
  }

  /** During an insertion of id into `was`: the entries from gap on have moved up by one, and are larger. */
  ghost predicate Gap(keys: seq<Key>, was: seq<nat>, id: nat, v: seq<nat>, gap: nat) {
    && gap <= |was| < |v| && id < |keys|
    && (forall k :: 0 <= k < |was| ==> was[k] < |keys|)
    && (forall k :: 0 <= k < gap ==> v[k] == was[k])
    && (forall k :: gap < k <= |was| ==> v[k] == was[k - 1])
    && (forall k :: gap <= k < |was| ==> !Leq(keys[was[k]], keys[id]))
  }

  lemma GapMoves(keys: seq<Key>, was: seq<nat>, id: nat, v: seq<nat>, gap: nat)
    requires Gap(keys, was, id, v, gap) && gap > 0 && !Leq(keys[v[gap - 1]], keys[id])
    ensures Gap(keys, was, id, v[gap := v[gap - 1]], gap - 1)
  {
  }

  lemma GapFilled(keys: seq<Key>, was: seq<nat>, id: nat, v: seq<nat>, gap: nat)
    requires Gap(keys, was, id, v, gap) && SortedIds(keys, was)
    requires gap > 0 ==> Leq(keys[was[gap - 1]], keys[id])
    ensures v[gap := id][..|was| + 1] == was[..gap] + [id] + was[gap..]
    ensures SortedIds(keys, v[gap := id][..|was| + 1])
  {
    var (w, r) := (v[gap := id][..|was| + 1], was[..gap] + [id] + was[gap..]);
    forall k | 0 <= k < |r| ensures w[k] == r[k] { }
    InsertedIsSorted(keys, was, gap, id);
  }

  /** The inner loop: moves the larger entries up. */
  method MoveUp(keys: seq<Key>, ids: array<nat>, i: nat) returns (j: int)
    requires 0 < i < ids.Length && forall k :: 0 <= k <= i ==> ids[k] < |keys|
    modifies ids
    ensures -1 <= j < i && Gap(keys, old(ids[..i]), old(ids[i]), ids[..], j + 1)
    ensures j >= 0 ==> Leq(keys[old(ids[..i])[j]], keys[old(ids[i])])
    ensures ids[i + 1..] == old(ids[i + 1..])
  {
    var id := ids[i];
    ghost var was := ids[..i];
    j := i - 1;
    while j >= 0
      invariant -1 <= j < i && Gap(keys, was, id, ids[..], j + 1)
      invariant ids[i + 1..] == old(ids[i + 1..])
    {
      if Leq(keys[ids[j]], keys[id]) {
        return;
      }
      GapMoves(keys, was, id, ids[..], j + 1);
      ids[j + 1] := ids[j];
      j := j - 1;
    }
  }

  /** One insertion, in place. */
  method InsertId(keys: seq<Key>, ids: array<nat>, i: nat)
    requires 0 < i < ids.Length && (forall k :: 0 <= k <= i ==> ids[k] < |keys|) && SortedIds(keys, ids[..i])
    modifies ids
    ensures SortedIds(keys, ids[..i + 1])
    ensures exists at :: 0 <= at <= i && ids[..i + 1] == old(ids[..at] + [ids[i]] + ids[at..i])
    ensures ids[i + 1..] == old(ids[i + 1..])
  {
    var id := ids[i];
    ghost var was := ids[..i];
    var j := MoveUp(keys, ids, i);
    GapFilled(keys, was, id, ids[..], j + 1);
    ghost var (v, at) := (ids[..], j + 1);
    ids[j + 1] := id;
    assert ids[..] == v[at := id] && ids[..i + 1] == v[at := id][..i + 1];
    assert old(ids[..at]) == was[..at] && old(ids[at..i]) == was[at..];
  }

  lemma InsertedIsSorted(keys: seq<Key>, was: seq<nat>, at: nat, id: nat)
    requires at <= |was| && SortedIds(keys, was) && id < |keys| && forall k :: 0 <= k < |was| ==> was[k] < |keys|
    requires at > 0 ==> Leq(keys[was[at - 1]], keys[id])
    requires forall k :: at <= k < |was| ==> !Leq(keys[was[k]], keys[id])
    ensures SortedIds(keys, was[..at] + [id] + was[at..])
  {
    var r := was[..at] + [id] + was[at..];
    forall k, l | 0 <= k < l < |r| ensures Leq(keys[r[k]], keys[r[l]]) {
      if k < at && l == at {
        assert k < at - 1 ==> Leq(keys[was[k]], keys[was[at - 1]]);
      } else if k < at && l < at {
        assert Leq(keys[was[k]], keys[was[l]]);
      } else if k < at {
        assert Leq(keys[was[k]], keys[was[l - 1]]);
      } else if k > at {
        assert Leq(keys[was[k - 1]], keys[was[l - 1]]);
      }
    }
  }

  /** The insertion sort of PolyReorderConvex: newIDs becomes a permutation that sorts the keys. */
  method SortIds(keys: seq<Key>, ids: array<nat>)
    requires ids.Length == |keys|
    modifies ids
    ensures Permutes(ids[..], |keys|) && SortedIds(keys, ids[..])
  {
    var n := |keys|;
    for i := 0 to n
      invariant forall k :: 0 <= k < i ==> ids[k] == k
    {
      ids[i] := i;
    }
    var i := 1;
    while i < n
      invariant 1 <= i && (n >= 1 ==> i <= n)
      invariant Permutes(ids[..], n)
      invariant i <= n ==> SortedIds(keys, ids[..i])
    {
      ghost var before := ids[..];
      assert before[..i] == ids[..i];
      InsertId(keys, ids, i);
      PermutesStep(before, ids[..], i, n);
      i := i + 1;
    }
    assert n >= 1 ==> ids[..i] == ids[..];
  }

  lemma PermutesStep(before: seq<nat>, after: seq<nat>, i: nat, n: nat)
    requires |before| == |after| && i < |before| && Permutes(before, n) && after[i + 1..] == before[i + 1..]
    requires exists at :: 0 <= at <= i && after[..i + 1] == before[..at] + [before[i]] + before[at..i]
    ensures Permutes(after, n)
  {
    var at :| 0 <= at <= i && after[..i + 1] == before[..at] + [before[i]] + before[at..i];
    forall k | 0 <= k < |after| ensures after[k] == before[if k < at then k else if k == at then i else if k <= i then k - 1 else k] {
      if k <= i { assert after[k] == after[..i + 1][k]; } else { assert after[k] == after[i + 1..][k - i - 1]; }
    }
  }

  // ----- reordering coordinates and metadata

  /** Origin of a vertex: metadata without coordinates. */
  datatype Meta = Meta(kind: Kind, edgeA: int, edgeB: int)

  function MetaOf(v: Vertex): Meta { Meta(v.kind, v.edgeA, v.edgeB) }

  function PointOf(v: Vertex): Point { Point(v.x, v.y) }

  predicate Below(ids: seq<nat>, n: nat) {
    forall i :: 0 <= i < |ids| ==> ids[i] < n
  }

  /** Coordinates and metadata of the vertices, in the order of ids. */
  function PointsBy(s: seq<Vertex>, ids: seq<nat>): (r: seq<Point>)
    requires Below(ids, |s|)
    ensures |r| == |ids|
  {
    seq(|ids|, i requires 0 <= i < |ids| => PointOf(s[ids[i]]))
  }

  function MetaBy(s: seq<Vertex>, ids: seq<nat>): (r: seq<Meta>)
    requires Below(ids, |s|)
    ensures |r| == |ids|
  {
    seq(|ids|, i requires 0 <= i < |ids| => MetaOf(s[ids[i]]))
  }

  /** The sums over the vertices: those of single vertices and of lists put together. */
  lemma {:induction false} SumsAdd(v: Vertex, s: seq<Vertex>, r: seq<Vertex>)
    ensures SumX([v]) == v.x && SumY([v]) == v.y
    ensures SumX(s + r) == SumX(s) + SumX(r) && SumY(s + r) == SumY(s) + SumY(r)
  {
    assert [v][..0] == [];
    if r == [] {
      assert s + r == s;
    } else {
      SumsAdd(v, s, r[..|r| - 1]);
      assert (s + r)[..|s + r| - 1] == s + r[..|r| - 1];
    }
  }

  function SumX(s: seq<Vertex>): real {
    if s == [] then 0.0 else SumX(s[..|s| - 1]) + s[|s| - 1].x
  }

  function SumY(s: seq<Vertex>): real {
    if s == [] then 0.0 else SumY(s[..|s| - 1]) + s[|s| - 1].y
  }

  /** p does not come after q: the angle at which it is seen from the centre is smaller, or the same and it is no
      further away. */
  ghost predicate NotAfter(atan2: (real, real) -> real, cx: real, cy: real, p: Vertex, q: Vertex) {
    var (a, b) := (atan2(p.y - cy, p.x - cx), atan2(q.y - cy, q.x - cx));
    || a < b
    || (a == b && (p.x - cx) * (p.x - cx) + (p.y - cy) * (p.y - cy) <= (q.x - cx) * (q.x - cx) + (q.y - cy) * (q.y - cy))
  }

  /** The ids put the vertices in order around their vertex average. */
  ghost predicate OrderedAround(atan2: (real, real) -> real, s: seq<Vertex>, ids: seq<nat>)
    requires Below(ids, |s|)
  {
    s != [] &&
    var (cx, cy) := (SumX(s) / |s| as real, SumY(s) / |s| as real);
    forall k, l :: 0 <= k < l < |ids| ==> NotAfter(atan2, cx, cy, s[ids[k]], s[ids[l]])
  }

  lemma SortedIsOrdered(atan2: (real, real) -> real, s: seq<Vertex>, keys: seq<Key>, ids: seq<nat>)
    requires s != [] && Below(ids, |s|) && SortedIds(keys, ids)
    requires keys == seq(|s|, i requires 0 <= i < |s|
      => KeyOf(atan2, SumX(s) / |s| as real, SumY(s) / |s| as real, s[i]))
    ensures OrderedAround(atan2, s, ids)
  {
    var (cx, cy) := (SumX(s) / |s| as real, SumY(s) / |s| as real);
    forall k, l | 0 <= k < l < |ids| ensures NotAfter(atan2, cx, cy, s[ids[k]], s[ids[l]]) {
      assert Leq(keys[ids[k]], keys[ids[l]]);
      KeysOrder(atan2, cx, cy, s[ids[k]], s[ids[l]]);
    }
  }

  lemma KeysOrder(atan2: (real, real) -> real, cx: real, cy: real, p: Vertex, q: Vertex)
    ensures Leq(KeyOf(atan2, cx, cy, p), KeyOf(atan2, cx, cy, q)) <==> NotAfter(atan2, cx, cy, p, q)
  {
  }

  /** Vertex-averaged centroid. */
  method Centroid(s: seq<Vertex>) returns (cx: real, cy: real)
    requires s != []
    ensures cx == SumX(s) / |s| as real && cy == SumY(s) / |s| as real
  {
    cx, cy := 0.0, 0.0;
    for i := 0 to |s|
      invariant cx == SumX(s[..i]) && cy == SumY(s[..i])
    {
      assert s[..i + 1][..i] == s[..i];
      cx, cy := cx + s[i].x, cy + s[i].y;
    }
    assert s[..|s|] == s;
    cx, cy := cx / |s| as real, cy / |s| as real;
  }

  /** w has the coordinates of v in the order of ids, and the metadata of v in its own order. */
  ghost predicate Reordered(v: seq<Vertex>, w: seq<Vertex>, ids: seq<nat>) {
    |v| == |w| == |ids| && Below(ids, |v|) && forall i :: 0 <= i < |ids| ==> ReorderedAt(v, w, ids, i)
  }

  ghost predicate ReorderedAt(v: seq<Vertex>, w: seq<Vertex>, ids: seq<nat>, i: nat)
    requires |v| == |w| == |ids| && Below(ids, |v|) && i < |ids|
  {
    PointOf(w[i]) == PointOf(v[ids[i]]) && MetaOf(w[i]) == MetaOf(v[i])
  }

  lemma PermutesBelow(ids: seq<nat>, n: nat)
    requires Permutes(ids, n)
    ensures Below(ids, n)
  {
  }

  /** Moves the coordinates of the first n vertices into the order of ids; the metadata stays in place. */
  method PermutePoints(c: Candidates, n: nat, ids: seq<nat>)
    requires c.Valid() && n <= c.x.Length && |ids| == n && Below(ids, n)
    modifies c.x, c.y
    ensures Reordered(old(c.All()[..n]), c.All()[..n], ids)
  {
    var xtemp, ytemp := c.x[..n], c.y[..n];
    for i := 0 to n
      invariant forall k :: 0 <= k < i ==> c.x[k] == xtemp[ids[k]] && c.y[k] == ytemp[ids[k]]
    {
      c.x[i] := xtemp[ids[i]];
      c.y[i] := ytemp[ids[i]];
    }
  }

  method Keys(atan2: (real, real) -> real, cx: real, cy: real, s: seq<Vertex>) returns (keys: seq<Key>)
    ensures keys == seq(|s|, i requires 0 <= i < |s| => KeyOf(atan2, cx, cy, s[i]))
  {
    keys := [];
    for i := 0 to |s|
      invariant |keys| == i && forall k :: 0 <= k < i ==> keys[k] == KeyOf(atan2, cx, cy, s[k])
    {
      keys := keys + [KeyOf(atan2, cx, cy, s[i])];
    }
  }

  /** PolyReorderConvex.  Fewer than three vertices are refused and left as they are. */
  method Reorder(atan2: (real, real) -> real, c: Candidates, n: nat) returns (ok: bool, ids: seq<nat>)
    requires c.Valid() && n <= c.x.Length
    modifies c.x, c.y
    ensures ok <==> n >= 3
    ensures !ok ==> c.All() == old(c.All())
    ensures ok ==> |ids| == n && Permutes(ids, n) && Below(ids, n) && OrderedAround(atan2, old(c.All()[..n]), ids)
    ensures ok ==> Reordered(old(c.All()[..n]), c.All()[..n], ids)
  {
    if n < 3 {
      return false, [];
    }
    hide SortedIds;
    hide Reordered;
    hide SumX;
    hide SumY;
    hide KeyOf;
    hide Permutes;
    var s := c.All()[..n];
    var cx, cy := Centroid(s);
    var keys := Keys(atan2, cx, cy, s);
    var sorted := new nat[n];
    SortIds(keys, sorted);
    ok, ids := true, sorted[..];
    PermutesBelow(ids, n);
    SortedIsOrdered(atan2, s, keys, ids);
    PermutePoints(c, n, ids);
  }

  // ----- short segments

  /** What CheckPolySegs makes of vertex k: the previous vertex, around the polygon, if the segment to it is
      short. */
  ghost predicate MarkedShort(mag: (real, real) -> real, tol: real, pts: seq<Point>, k: nat, id: nat)
    requires k < |pts|
  {
    var before := if k == 0 then |pts| - 1 else k - 1;
    id == if Clear(mag, tol, pts[k].x, pts[k].y, pts[before].x, pts[before].y) then k else before
  }

  /** The vertices that keep their own id, among the first k. */
  ghost function OwnIds(ids: seq<nat>, k: nat): seq<nat>
    requires k <= |ids|
  {
    if k == 0 then [] else OwnIds(ids, k - 1) + if ids[k - 1] == k - 1 then [k - 1] else []
  }

  lemma {:induction false} OwnIdsAscend(ids: seq<nat>, k: nat)
    requires k <= |ids|
    ensures Ascending(OwnIds(ids, k), k)
    ensures forall i: nat :: i in OwnIds(ids, k) <==> i < k && ids[i] == i
  {
    if k > 0 { OwnIdsAscend(ids, k - 1); }
  }

  ghost function OwnPoints(pts: seq<Point>, ids: seq<nat>, k: nat): seq<Point>
    requires k <= |ids| == |pts|
  {
    OwnIdsAscend(ids, k);
    At(pts, OwnIds(ids, k))
  }

  lemma OwnBegins(pts: seq<Point>, ids: seq<nat>)
    requires |ids| == |pts|
    ensures OwnIds(ids, 0) == [] && OwnPoints(pts, ids, 0) == []
  {
  }

  lemma OwnNext(pts: seq<Point>, ids: seq<nat>, k: nat)
    requires k < |ids| == |pts|
    ensures |OwnIds(ids, k + 1)| == |OwnIds(ids, k)| + if ids[k] == k then 1 else 0
    ensures OwnPoints(pts, ids, k + 1) == OwnPoints(pts, ids, k) + if ids[k] == k then [pts[k]] else []
  {
    OwnIdsAscend(ids, k);
    OwnIdsAscend(ids, k + 1);
  }

  /** A point is dropped exactly if the segment that ends in it is short; `own` are those that stay. */
  method CheckPolySegs(mag: (real, real) -> real, tol: real, pts: seq<Point>)
    returns (newIds: seq<nat>, count: nat, out: seq<Point>, ghost own: seq<nat>)
    ensures |newIds| == |pts|
    ensures forall k :: 0 <= k < |pts| ==> MarkedShort(mag, tol, pts, k, newIds[k])
    ensures Ascending(own, |pts|) && forall k: nat :: k in own <==> k < |pts| && newIds[k] == k
    ensures count == |own| && out == if count < 3 then [] else At(pts, own)
  {
    hide MarkedShort;
    hide Ascending;
    hide At;
    hide OwnIds;
    var n := |pts|;
    newIds := MarkShort(mag, tol, pts);
    count, out, own := 0, [], OwnIds(newIds, n);
    OwnIdsAscend(newIds, n);
    OwnBegins(pts, newIds);
    for i := 0 to n
      invariant count == |OwnIds(newIds, i)|
    {
      OwnNext(pts, newIds, i);
      if newIds[i] == i { count := count + 1; }
    }
    if count < 3 {
      return;
    }
    for i := 0 to n
      invariant out == OwnPoints(pts, newIds, i)
    {
      OwnNext(pts, newIds, i);
      if newIds[i] == i { out := out + [pts[i]]; }
    }
  }

  /** The loop over the segments: entry b is written for the segment that ends in b. */
  method MarkShort(mag: (real, real) -> real, tol: real, pts: seq<Point>) returns (ids: seq<nat>)
    ensures |ids| == |pts| && forall k :: 0 <= k < |pts| ==> MarkedShort(mag, tol, pts, k, ids[k])
  {
    var n := |pts|;
    ids := seq(n, i requires 0 <= i < n => i);
    for i := 0 to n
      invariant |ids| == n
      invariant forall k :: 1 <= k < n && k <= i ==> MarkedShort(mag, tol, pts, k, ids[k])
      invariant forall k :: i < k < n ==> ids[k] == k
      invariant n > 0 ==> if i == n then MarkedShort(mag, tol, pts, 0, ids[0]) else ids[0] == 0
    {
      var b := if i == n - 1 then 0 else i + 1;
      if mag(pts[b].x - pts[i].x, pts[b].y - pts[i].y) < tol {
        ids := ids[b := i];
      }
    }
  }

  ghost predicate PointsApart(mag: (real, real) -> real, tol: real, pts: seq<Point>) {
    forall i, j :: 0 <= i < |pts| && 0 <= j < |pts| && i != j
      ==> Clear(mag, tol, pts[i].x, pts[i].y, pts[j].x, pts[j].y)
  }

  /** Among points that are pairwise apart, CheckPolySegs changes nothing and returns identity ids. */
  lemma NothingShort(mag: (real, real) -> real, tol: real, pts: seq<Point>, ids: seq<nat>, own: seq<nat>)
    requires |pts| >= 2 && PointsApart(mag, tol, pts) && |ids| == |pts|
    requires forall k :: 0 <= k < |pts| ==> MarkedShort(mag, tol, pts, k, ids[k])
    requires Ascending(own, |pts|) && forall k: nat :: k in own <==> k < |pts| && ids[k] == k
    ensures forall k :: 0 <= k < |ids| ==> ids[k] == k
    ensures |own| == |pts| && At(pts, own) == pts
  {
    forall k: nat | k < |ids| ensures ids[k] == k && k in own {
      var before := if k == 0 then |pts| - 1 else k - 1;
      assert Clear(mag, tol, pts[k].x, pts[k].y, pts[before].x, pts[before].y);
    }
    AllBelow(own, |pts|);
  }

  /** Permuting points that are pairwise apart keeps them so. */
  lemma PermutedApart(mag: (real, real) -> real, tol: real, s: seq<Vertex>, ids: seq<nat>)
    requires IsMagnitude(mag) && PairwiseApart(mag, tol, s) && Permutes(ids, |s|) && Below(ids, |s|)
    ensures PointsApart(mag, tol, PointsBy(s, ids))
  {
    var pts := PointsBy(s, ids);
    forall i, j | 0 <= i < |pts| && 0 <= j < |pts| && i != j
      ensures Clear(mag, tol, pts[i].x, pts[i].y, pts[j].x, pts[j].y)
    {
      var (a, b) := (ids[i], ids[j]);
      assert a != b;
      NearIsSymmetric(mag, tol, s[a], s[b]);
      assert if a < b then !Near(mag, tol, s[a], s[b]) else !Near(mag, tol, s[b], s[a]);
    }
  }

  // ----- the end of Intersection2DPolygon

  /** Output vertex i is kept candidate ids[i], with its own coordinates and its own metadata. */
  ghost predicate Aligned(kept: seq<Vertex>, ids: seq<nat>, poly: seq<Point>, meta: seq<Meta>) {
    && |ids| == |kept| == |poly| == |meta| && Permutes(ids, |kept|) && Below(ids, |kept|)
    && forall i :: 0 <= i < |ids| ==> SameVertex(kept[ids[i]], poly[i], meta[i])
  }

  ghost predicate SameVertex(v: Vertex, p: Point, m: Meta) {
    p.x == v.x && p.y == v.y && m.kind == v.kind && m.edgeA == v.edgeA && m.edgeB == v.edgeB
  }

  lemma AlignedAsGathered(kept: seq<Vertex>, ids: seq<nat>)
    requires |ids| == |kept| && Permutes(ids, |kept|) && Below(ids, |kept|)
    ensures Aligned(kept, ids, PointsBy(kept, ids), MetaBy(kept, ids))
  {
    hide Permutes;
  }

  /** Metadata in the order of ids, and the reordered coordinates. */
  method Gather(w: seq<Vertex>, ids: seq<nat>, ghost v: seq<Vertex>) returns (meta: seq<Meta>, pts: seq<Point>)
    requires Reordered(v, w, ids)
    ensures pts == PointsBy(v, ids) && meta == MetaBy(v, ids)
  {
    meta, pts := [], [];
    for i := 0 to |ids|
      invariant meta == MetaBy(v, ids)[..i] && pts == PointsBy(v, ids)[..i]
    {
      assert ReorderedAt(v, w, ids, i) && ReorderedAt(v, w, ids, ids[i]);
      meta, pts := meta + [MetaOf(w[ids[i]])], pts + [PointOf(w[i])];
    }
  }

  /** Ordering and check of candidates that are pairwise apart. */
  method OrderAndCheck(mag: (real, real) -> real, atan2: (real, real) -> real, tol: real, c: Candidates, n: nat)
    returns (count: nat, poly: seq<Point>, meta: seq<Meta>, ghost ids: seq<nat>)
    requires c.Valid() && IsMagnitude(mag) && 3 <= n <= c.x.Length && PairwiseApart(mag, tol, c.All()[..n])
    modifies c.x, c.y, c.kind, c.edgeA, c.edgeB
    ensures count == n && Aligned(old(c.All()[..n]), ids, poly, meta) && OrderedAround(atan2, old(c.All()[..n]), ids)
    ensures PointsApart(mag, tol, poly)
  {
    hide OrderedAround;
    hide Permutes;
    hide PairwiseApart;
    hide PointsApart;
    hide Reordered;
    hide PointsBy;
    hide MetaBy;
    hide Ascending;
    hide At;
    ghost var kept := c.All()[..n];
    var _, order := Reorder(atan2, c, n);
    assert Below(order, n) by { PermutesBelow(order, n); }
    ids := order;
    var temp, pts := Gather(c.All()[..n], order, kept);
    PermutedApart(mag, tol, kept, ids);
    var newIds;
    ghost var own;
    newIds, count, poly, own := CheckPolySegs(mag, tol, pts);
    NothingShort(mag, tol, pts, newIds, own);
    assert poly == pts && count == n;
    meta := seq(count, i requires 0 <= i < count => temp[newIds[i]]);
    assert meta == temp;
    AlignedAsGathered(kept, ids);
  }

  /** Collapse, ordering and check of the candidates.  `kept` are the candidates at least the tolerance away from
      every kept one before them.  The result is an overlap exactly when they are at least three; its vertices are
      then these candidates in order around their centroid, none lost and none twice, each with its own metadata,
      and at least the tolerance apart. */
  method FinishPolygon(mag: (real, real) -> real, atan2: (real, real) -> real, tol: real, c: Candidates, n0: nat)
    returns (outcome: Outcome, poly: seq<Point>, meta: seq<Meta>, ghost kept: seq<nat>, ghost ids: seq<nat>)
    requires c.Valid() && IsMagnitude(mag) && n0 <= c.x.Length
    modifies c.x, c.y, c.kind, c.edgeA, c.edgeB
    ensures Survivors(mag, tol, old(c.All()[..n0]), kept)
    ensures outcome == NoOverlap <==> |kept| < 3
    ensures outcome == NoException ==> Aligned(At(old(c.All()[..n0]), kept), ids, poly, meta)
    ensures outcome == NoException ==> OrderedAround(atan2, At(old(c.All()[..n0]), kept), ids)
    ensures outcome == NoException ==> PointsApart(mag, tol, poly)
  {
    hide Survivors;
    hide OrderedAround;
    hide Collapsed;
    poly, meta, ids := [], [], [];
    ghost var s := c.All()[..n0];
    var n;
    n, kept := Collapse(mag, tol, c, n0);
    KeptInRange(mag, tol, s, kept);
    NoneNear(mag, tol, s);
    if n <= 2 {
      return NoOverlap, poly, meta, kept, ids;
    }
    var count;
    count, poly, meta, ids := OrderAndCheck(mag, atan2, tol, c, n);
    if count < 3 {
      // CheckPolySegs has nothing left to collapse
      assert false;
    }
    outcome := NoException;
  }

  lemma KeptInRange(mag: (real, real) -> real, tol: real, s: seq<Vertex>, kept: seq<nat>)
    requires Survivors(mag, tol, s, kept)
    ensures forall k :: 0 <= k < |kept| ==> kept[k] < |s|
  {
  }
}
