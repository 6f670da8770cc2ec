/** CheckSegOverlap of src/tribol/geom/GeomUtilities.hpp: the overlap of two edges on one line. */
module SegOverlap {

  /** A function that computes the length of a vector. */
  ghost predicate IsMagnitude(mag: (real, real) -> real) {
    forall x, y :: Length(mag(x, y), x, y)
  }

  ghost predicate Length(l: real, x: real, y: real) {
    l >= 0.0 && l * l == x * x + y * y
  }

  datatype Point = Point(x: real, y: real)

  /** The two return values that occur. */
  datatype Outcome = NoException | NoOverlap

  /** The test for one vertex: it lies in the direction of the edge and is no farther from its first vertex
      than the edge is long. */
  predicate Inside(mag: (real, real) -> real, p: Point, lvx: real, lvy: real, length: real, q: Point) {
    Dot(q.x - p.x, q.y - p.y, lvx, lvy) >= 0.0 && mag(q.x - p.x, q.y - p.y) <= length
  }

  /** The loop over the vertices of the other edge: how many are inside, and the last one that is. */
  method CountInside(mag: (real, real) -> real, p: Point, lvx: real, lvy: real, length: real, q: seq<Point>)
    returns (count: nat, id: int)
    requires |q| == 2
    ensures count == (if Inside(mag, p, lvx, lvy, length, q[0]) then 1 else 0)
                   + (if Inside(mag, p, lvx, lvy, length, q[1]) then 1 else 0)
    ensures id == if Inside(mag, p, lvx, lvy, length, q[1]) then 1
                  else if Inside(mag, p, lvx, lvy, length, q[0]) then 0 else -1
  {
    count, id := 0, -1;
    for i := 0 to |q|
      invariant i == 0 ==> count == 0 && id == -1
      invariant i == 1 ==> count == (if Inside(mag, p, lvx, lvy, length, q[0]) then 1 else 0)
                           && id == (if Inside(mag, p, lvx, lvy, length, q[0]) then 0 else -1)
      invariant i == 2 ==> count == (if Inside(mag, p, lvx, lvy, length, q[0]) then 1 else 0)
                                  + (if Inside(mag, p, lvx, lvy, length, q[1]) then 1 else 0)
                           && id == (if Inside(mag, p, lvx, lvy, length, q[1]) then 1
                                     else if Inside(mag, p, lvx, lvy, length, q[0]) then 0 else -1)
    {
      var proj := (q[i].x - p.x) * lvx + (q[i].y - p.y) * lvy;
      if proj >= 0.0 && mag(q[i].x - p.x, q[i].y - p.y) <= length {
        id := i;
        count := count + 1;
      }
    }
  }

  // ----- points of a line

  /** A line with a direction. */
  datatype Line = Line(o: Point, dx: real, dy: real)

  predicate Proper(l: Line) {
    l.dx != 0.0 || l.dy != 0.0
  }

  /** Coordinates of s times the direction. */
  function StepX(l: Line, s: real): real { s * l.dx }
  function StepY(l: Line, s: real): real { s * l.dy }

  function At(l: Line, t: real): Point {
    Point(l.o.x + StepX(l, t), l.o.y + StepY(l, t))
  }

  function Abs(t: real): real { if t < 0.0 then -t else t }
  function Min(s: real, t: real): real { if s < t then s else t }
  function Max(s: real, t: real): real { if s < t then t else s }

  predicate Between(t: real, a: real, b: real) {
    Min(a, b) <= t <= Max(a, b)
  }

  function Dot(a: real, b: real, c: real, d: real): real { a * c + b * d }

  /** The length of a stretch of the line whose ends are s apart. */
  function Span(mag: (real, real) -> real, l: Line, s: real): real {
    Abs(s) * mag(l.dx, l.dy)
  }

  lemma PositiveProduct(a: real, b: real)
    requires a > 0.0 && b > 0.0
    ensures a * b > 0.0
  {
  }

  lemma SquareIsPositive(a: real)
    ensures a * a >= 0.0 && (a != 0.0 ==> a * a > 0.0)
  {
    if a > 0.0 { PositiveProduct(a, a); }
    if a < 0.0 { PositiveProduct(-a, -a); }
  }

  lemma SquareRises(a: real, b: real)
    requires 0.0 <= a < b
    ensures a * a < b * b
  {
    PositiveProduct(b - a, b + a);
    assert b * b - a * a == (b - a) * (b + a);
  }

  lemma SquaresAgree(a: real, b: real)
    requires a >= 0.0 && b >= 0.0 && a * a == b * b
    ensures a == b
  {
    if a < b { SquareRises(a, b); } else if b < a { SquareRises(b, a); }
  }

  lemma SumOfSquares(x: real, y: real)
    requires x != 0.0 || y != 0.0
    ensures x * x + y * y > 0.0
  {
    SquareIsPositive(x);
    SquareIsPositive(y);
    if x != 0.0 {
      assert x * x > 0.0;
      assert y * y >= 0.0;
    } else {
      assert y * y > 0.0;
      assert x * x >= 0.0;
    }
  }

  lemma NormIsPositive(x: real, y: real)
    requires x != 0.0 || y != 0.0
    ensures Dot(x, y, x, y) > 0.0
  {
    SumOfSquares(x, y);
    calc {
      0.0;
    < x * x + y * y;
      Dot(x, y, x, y);
    }
  }

  lemma DirectionHasLength(mag: (real, real) -> real, l: Line)
    requires IsMagnitude(mag) && Proper(l)
    ensures mag(l.dx, l.dy) > 0.0
  {
    NormIsPositive(l.dx, l.dy);
    assert Length(mag(l.dx, l.dy), l.dx, l.dy);
  }

  /** Lengths on the line: the parameter difference times the length of the direction. */
  lemma LengthOnLine(mag: (real, real) -> real, l: Line, s: real)
    requires IsMagnitude(mag)
    ensures mag(StepX(l, s), StepY(l, s)) == Span(mag, l, s)
  {
    var (x, y, u) := (StepX(l, s), StepY(l, s), mag(l.dx, l.dy));
    assert Length(mag(x, y), x, y) && Length(u, l.dx, l.dy);
    var w := Span(mag, l, s);
    calc {
      w * w;
      (Abs(s) * Abs(s)) * (u * u);
      (s * s) * (l.dx * l.dx + l.dy * l.dy);
      x * x + y * y;
    }
    assert w >= 0.0;
    SquaresAgree(mag(x, y), w);
  }

  lemma SignOfProduct(p: real, d: real)
    requires d > 0.0
    ensures p * d >= 0.0 <==> p >= 0.0
  {
    if p < 0.0 { PositiveProduct(-p, d); } else if p > 0.0 { PositiveProduct(p, d); }
  }

  /** The sign of the projection is the sign of the product of the parameter differences. */
  lemma ProjectionSign(l: Line, s: real, e: real)
    requires Proper(l)
    ensures Dot(StepX(l, s), StepY(l, s), StepX(l, e), StepY(l, e)) >= 0.0 <==> s * e >= 0.0
  {
    NormIsPositive(l.dx, l.dy);
    assert Dot(StepX(l, s), StepY(l, s), StepX(l, e), StepY(l, e)) == (s * e) * Dot(l.dx, l.dy, l.dx, l.dy);
    SignOfProduct(s * e, Dot(l.dx, l.dy, l.dx, l.dy));
  }

  lemma SpansCompare(mag: (real, real) -> real, l: Line, s: real, e: real)
    requires IsMagnitude(mag) && Proper(l)
    ensures Span(mag, l, s) <= Span(mag, l, e) <==> Abs(s) <= Abs(e)
  {
    DirectionHasLength(mag, l);
    var u := mag(l.dx, l.dy);
    if Abs(s) < Abs(e) { PositiveProduct(Abs(e) - Abs(s), u); } else if Abs(e) < Abs(s) { PositiveProduct(Abs(s) - Abs(e), u); }
  }

  lemma WithinReach(s: real, e: real)
    ensures s * e >= 0.0 && Abs(s) <= Abs(e) <==> Between(s, 0.0, e)
  {
    if s > 0.0 && e < 0.0 { PositiveProduct(s, -e); }
    if s < 0.0 && e > 0.0 { PositiveProduct(-s, e); }
    if s > 0.0 && e > 0.0 { PositiveProduct(s, e); }
    if s < 0.0 && e < 0.0 { PositiveProduct(-s, -e); }
  }

  lemma Difference(l: Line, a: real, b: real)
    ensures At(l, b).x - At(l, a).x == StepX(l, b - a) && At(l, b).y - At(l, a).y == StepY(l, b - a)
  {
  }

  /** The test decides whether the vertex lies on the edge: in between its two ends. */
  lemma InsideIsBetween(mag: (real, real) -> real, l: Line, a0: real, a1: real, b: real)
    requires IsMagnitude(mag) && Proper(l)
    ensures var (p, q, r) := (At(l, a0), At(l, a1), At(l, b));
      Inside(mag, p, q.x - p.x, q.y - p.y, mag(q.x - p.x, q.y - p.y), r) <==> Between(b, a0, a1)
  {
    var (s, e) := (b - a0, a1 - a0);
    Difference(l, a0, b);
    Difference(l, a0, a1);
    LengthOnLine(mag, l, s);
    LengthOnLine(mag, l, e);
    ProjectionSign(l, s, e);
    SpansCompare(mag, l, s, e);
    WithinReach(s, e);
  }

  // ----- the overlap

  /** Left and right end of the intersection of the two parameter intervals. */
  function Lo(a0: real, a1: real, b0: real, b1: real): real { Max(Min(a0, a1), Min(b0, b1)) }
  function Hi(a0: real, a1: real, b0: real, b1: real): real { Min(Max(a0, a1), Max(b0, b1)) }

  /** s and t are the two ends, in some order. */
  predicate Ends(s: real, t: real, lo: real, hi: real) {
    (s == lo && t == hi) || (s == hi && t == lo)
  }

  /** Number of ends of one interval that lie in the other. */
  function Within(s: real, t: real, a: real, b: real): nat {
    (if Between(s, a, b) then 1 else 0) + if Between(t, a, b) then 1 else 0
  }

  /** Both ends of one edge in the other: they are the ends of the common part. */
  lemma ContainedEnds(a0: real, a1: real, b0: real, b1: real)
    requires Within(b0, b1, a0, a1) == 2
    ensures Ends(b0, b1, Lo(a0, a1, b0, b1), Hi(a0, a1, b0, b1)) && Ends(b0, b1, Lo(b0, b1, a0, a1), Hi(b0, b1, a0, a1))
    ensures Lo(a0, a1, b0, b1) <= Hi(a0, a1, b0, b1)
  {
  }

  /** Neither edge in the other, but some end in the other edge: then exactly one end of each is in the
      other, and these two are the ends of the common part. */
  lemma PartialEnds(a0: real, a1: real, b0: real, b1: real)
    requires Within(b0, b1, a0, a1) != 2 && Within(a0, a1, b0, b1) != 2
    requires Within(b0, b1, a0, a1) + Within(a0, a1, b0, b1) > 0
    ensures Within(b0, b1, a0, a1) == Within(a0, a1, b0, b1) == 1
    ensures Ends(if Between(a1, b0, b1) then a1 else a0, if Between(b1, a0, a1) then b1 else b0,
                 Lo(a0, a1, b0, b1), Hi(a0, a1, b0, b1))
    ensures Lo(a0, a1, b0, b1) <= Hi(a0, a1, b0, b1)
  {
  }

  /** The returned points, in order: one of the edges as a whole, or a vertex of each. */
  predicate FromEdges(p1: seq<Point>, p2: seq<Point>, overlap: (Point, Point))
    requires |p1| == |p2| == 2
  {
    overlap == (p1[0], p1[1]) || overlap == (p2[0], p2[1]) || (overlap.0 in p1 && overlap.1 in p2)
  }

  /** CheckSegOverlap for two edges on one line: the outcome is "no overlap" exactly when the edges have no
      point in common; otherwise the returned points are the two ends of the common part, and the returned
      length is its length.  The edges may point either way and may even be single points. */
  method CheckSegOverlap(mag: (real, real) -> real, p1: seq<Point>, p2: seq<Point>, initial: (Point, Point),
                         ghost l: Line, ghost a0: real, ghost a1: real, ghost b0: real, ghost b1: real)
    returns (outcome: Outcome, overlap: (Point, Point), area: real)
    requires IsMagnitude(mag) && Proper(l) && |p1| == |p2| == 2
    requires p1 == [At(l, a0), At(l, a1)] && p2 == [At(l, b0), At(l, b1)]
    ensures outcome == NoOverlap <==> Hi(a0, a1, b0, b1) < Lo(a0, a1, b0, b1)
    ensures area == Span(mag, l, Max(0.0, Hi(a0, a1, b0, b1) - Lo(a0, a1, b0, b1)))
    ensures outcome == NoOverlap ==> overlap == initial
    ensures outcome == NoException ==> exists s, t :: Ends(s, t, Lo(a0, a1, b0, b1), Hi(a0, a1, b0, b1))
                                                      && overlap == (At(l, s), At(l, t))
    ensures outcome == NoException ==> FromEdges(p1, p2, overlap)
  {
    InsideIsBetween(mag, l, a0, a1, b0);
    InsideIsBetween(mag, l, a0, a1, b1);
    InsideIsBetween(mag, l, b0, b1, a0);
    InsideIsBetween(mag, l, b0, b1, a1);
    overlap := initial;
    var (lvx1, lvy1) := (p1[1].x - p1[0].x, p1[1].y - p1[0].y);
    var e1 := mag(lvx1, lvy1);
    var (lvx2, lvy2) := (p2[1].x - p2[0].x, p2[1].y - p2[0].y);
    var e2 := mag(lvx2, lvy2);

    var inter2, twoInOne := CountInside(mag, p1[0], lvx1, lvy1, e1, p2);
    assert inter2 == Within(b0, b1, a0, a1);
    if inter2 == 2 {
      ContainedEnds(a0, a1, b0, b1);
      EndsLength(mag, l, b0, b1, a0, a1, b0, b1);
      return NoException, (p2[0], p2[1]), e2;
    }
    var inter1, oneInTwo := CountInside(mag, p2[0], lvx2, lvy2, e2, p1);
    assert inter1 == Within(a0, a1, b0, b1);
    if inter1 == 2 {
      ContainedEnds(b0, b1, a0, a1);
      EndsLength(mag, l, a0, a1, a0, a1, b0, b1);
      return NoException, (p1[0], p1[1]), e1;
    }
    if inter1 == 0 && inter2 == 0 {
      ApartLength(mag, l, a0, a1, b0, b1);
      return NoOverlap, overlap, 0.0;
    }
    PartialEnds(a0, a1, b0, b1);
    if oneInTwo == -1 || twoInOne == -1 {
      // an end of each edge lies in the other, so that both ids are set
      assert false;
    }
    overlap, area := PartialOverlap(mag, p1, p2, oneInTwo, twoInOne, l, a0, a1, b0, b1);
    outcome := NoException;
  }

  /** The last case: the edges overlap between the end of each that lies in the other. */
  method PartialOverlap(mag: (real, real) -> real, p1: seq<Point>, p2: seq<Point>, oneInTwo: int, twoInOne: int,
                        ghost l: Line, ghost a0: real, ghost a1: real, ghost b0: real, ghost b1: real)
    returns (overlap: (Point, Point), area: real)
    requires IsMagnitude(mag) && p1 == [At(l, a0), At(l, a1)] && p2 == [At(l, b0), At(l, b1)]
    requires Within(b0, b1, a0, a1) == Within(a0, a1, b0, b1) == 1
    requires oneInTwo == (if Between(a1, b0, b1) then 1 else 0) && twoInOne == (if Between(b1, a0, a1) then 1 else 0)
    ensures area == Span(mag, l, Max(0.0, Hi(a0, a1, b0, b1) - Lo(a0, a1, b0, b1)))
    ensures overlap.0 in p1 && overlap.1 in p2
    ensures exists s, t :: Ends(s, t, Lo(a0, a1, b0, b1), Hi(a0, a1, b0, b1)) && overlap == (At(l, s), At(l, t))
  {
    PartialEnds(a0, a1, b0, b1);
    ghost var s, t := if Between(a1, b0, b1) then a1 else a0, if Between(b1, a0, a1) then b1 else b0;
    overlap := (p1[oneInTwo], p2[twoInOne]);
    assert overlap == (At(l, s), At(l, t));
    area := mag(overlap.1.x - overlap.0.x, overlap.1.y - overlap.0.y);
    EndsLength(mag, l, s, t, a0, a1, b0, b1);
  }

  /** The distance of the two ends is the length of the common part. */
  lemma EndsLength(mag: (real, real) -> real, l: Line, s: real, t: real, a0: real, a1: real, b0: real, b1: real)
    requires IsMagnitude(mag) && Ends(s, t, Lo(a0, a1, b0, b1), Hi(a0, a1, b0, b1))
    requires Lo(a0, a1, b0, b1) <= Hi(a0, a1, b0, b1)
    ensures mag(At(l, t).x - At(l, s).x, At(l, t).y - At(l, s).y)
         == Span(mag, l, Max(0.0, Hi(a0, a1, b0, b1) - Lo(a0, a1, b0, b1)))
  {
    Difference(l, s, t);
    LengthOnLine(mag, l, t - s);
    assert Abs(t - s) == Abs(Max(0.0, Hi(a0, a1, b0, b1) - Lo(a0, a1, b0, b1)));
  }

  lemma ApartLength(mag: (real, real) -> real, l: Line, a0: real, a1: real, b0: real, b1: real)
    requires Within(b0, b1, a0, a1) == Within(a0, a1, b0, b1) == 0
    ensures Hi(a0, a1, b0, b1) < Lo(a0, a1, b0, b1)
    ensures Span(mag, l, Max(0.0, Hi(a0, a1, b0, b1) - Lo(a0, a1, b0, b1))) == 0.0
  {
  }
}
