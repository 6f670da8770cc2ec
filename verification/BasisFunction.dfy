/** Basis functions, mapping Jacobian and tangent gradients of src/tribol/integ/BasisFunction.hpp. */
module Vectors {

  type Vec = seq<real>

  function Dot(a: Vec, b: Vec): real
    requires |a| == |b|
  {
    if a == [] then 0.0 else Dot(a[..|a| - 1], b[..|b| - 1]) + a[|a| - 1] * b[|b| - 1]
  }

  /** The products are summed with weight one: with the i-th unit vector, entry i comes out. */
  lemma {:induction false} DotWithUnit(a: Vec, unit: Vec, i: nat)
    requires i < |a| == |unit| && unit[i] == 1.0 && forall k :: 0 <= k < |unit| && k != i ==> unit[k] == 0.0
    ensures Dot(a, unit) == a[i]
  {
    var m := |a| - 1;
    if i < m {
      DotWithUnit(a[..m], unit[..m], i);
    } else {
      DotWithNone(a[..m], unit[..m]);
    }
  }

  lemma {:induction false} DotWithNone(a: Vec, none: Vec)
    requires |a| == |none| && forall k :: 0 <= k < |none| ==> none[k] == 0.0
    ensures Dot(a, none) == 0.0
  {
    if a != [] { DotWithNone(a[..|a| - 1], none[..|a| - 1]); }
  }

  /** s p + t q. */
  function Lin(s: real, p: real, t: real, q: real): real {
    s * p + t * q
  }

  /** s a + t b. */
  function Combine(s: real, a: Vec, t: real, b: Vec): (r: Vec)
    requires |a| == |b|
    ensures |r| == |a| && forall i :: 0 <= i < |a| ==> r[i] == Lin(s, a[i], t, b[i])
  {
    seq(|a|, i requires 0 <= i < |a| => Lin(s, a[i], t, b[i]))
  }

  lemma {:induction false} DotSymmetric(a: Vec, b: Vec)
    requires |a| == |b|
    ensures Dot(a, b) == Dot(b, a)
  {
    if a != [] { DotSymmetric(a[..|a| - 1], b[..|b| - 1]); }
  }

  lemma {:induction false} DotCombine(x: Vec, s: real, a: Vec, t: real, b: Vec)
    requires |x| == |a| == |b|
    ensures Dot(x, Combine(s, a, t, b)) == Lin(s, Dot(x, a), t, Dot(x, b))
  {
    if x != [] {
      var m := |x| - 1;
      DotCombine(x[..m], s, a[..m], t, b[..m]);
      assert Combine(s, a, t, b)[..m] == Combine(s, a[..m], t, b[..m]);
      Distribute(s, Dot(x[..m], a[..m]), t, Dot(x[..m], b[..m]), x[m], a[m], b[m]);
    }
  }

  lemma Distribute(s: real, p: real, t: real, q: real, x: real, a: real, b: real)
    ensures Lin(s, p, t, q) + x * Lin(s, a, t, b) == Lin(s, p + x * a, t, q + x * b)
  {
  }

  function Square(a: real): real { a * a }

  lemma SquareOfPositive(a: real)
    requires a > 0.0
    ensures Square(a) > 0.0
  {
    calc {
      Square(a);
      a * a;
    > { PositiveProduct(a, a); }
      0.0;
    }
  }

  lemma SquareOfNegative(a: real)
    requires a < 0.0
    ensures Square(a) > 0.0
  {
    calc {
      Square(a);
      -a * -a;
    > { PositiveProduct(-a, -a); }
      0.0;
    }
  }

  lemma SquareOfZero(a: real)
    requires a == 0.0
    ensures Square(a) == 0.0
  {
  }

  lemma SquareIsPositive(a: real)
    ensures Square(a) >= 0.0
    ensures Square(a) == 0.0 <==> a == 0.0
  {
    if a == 0.0 {
      SquareOfZero(a);
    } else if a > 0.0 {
      SquareOfPositive(a);
    } else {
      SquareOfNegative(a);
    }
  }

  lemma PositiveProduct(a: real, b: real)
    requires a > 0.0 && b > 0.0
    ensures a * b > 0.0
  {
  }

  predicate IsZero(a: Vec) {
    forall i :: 0 <= i < |a| ==> a[i] == 0.0
  }

  lemma SumIsZero(x: real, y: real)
    requires x >= 0.0 && y >= 0.0
    ensures x + y >= 0.0 && (x + y == 0.0 <==> x == 0.0 && y == 0.0)
  {
  }

  /** A vector has length zero exactly if it is the zero vector. */
  lemma {:induction false} NormIsZero(a: Vec)
    ensures Dot(a, a) >= 0.0
    ensures Dot(a, a) == 0.0 <==> IsZero(a)
  {
    if a != [] {
      var m := |a| - 1;
      NormIsZero(a[..m]);
      SquareIsPositive(a[m]);
      assert Dot(a, a) == Dot(a[..m], a[..m]) + Square(a[m]);
      SumIsZero(Dot(a[..m], a[..m]), Square(a[m]));
      ZeroSnoc(a);
    }
  }

  lemma ZeroSnoc(a: Vec)
    requires a != []
    ensures IsZero(a) <==> IsZero(a[..|a| - 1]) && a[|a| - 1] == 0.0
  {
    assert a == a[..|a| - 1] + [a[|a| - 1]];
  }
}

module TangentGradients {
  import opened Vectors

  /** The columns of a mapping Jacobian with one or two parent directions, of one common dimension. */
  predicate IsJacobian(jac: seq<Vec>) {
    1 <= |jac| <= 2 && (|jac| == 2 ==> |jac[0]| == |jac[1]|)
  }

  /** Only the trivial combination of the columns vanishes. */
  ghost predicate FullRank(jac: seq<Vec>)
    requires IsJacobian(jac)
  {
    if |jac| == 1 then !IsZero(jac[0])
    else forall s, t :: IsZero(Combine(s, jac[0], t, jac[1])) ==> s == 0.0 && t == 0.0
  }

  /** The linear combination of the columns with the given coefficients. */
  function Span(jac: seq<Vec>, coef: Vec): (r: Vec)
    requires IsJacobian(jac) && |coef| == |jac|
    ensures |r| == |jac[0]|
  {
    if |jac| == 1 then Combine(coef[0], jac[0], 0.0, jac[0]) else Combine(coef[0], jac[0], coef[1], jac[1])
  }

  function MetricDeterminant(aa: real, ab: real, bb: real): real { aa * bb - ab * ab }

  function Determinant(a: Vec, b: Vec): real
    requires |a| == |b|
  {
    MetricDeterminant(Dot(a, a), Dot(a, b), Dot(b, b))
  }

  /** The squared length of (b.b) a - (a.b) b is (b.b) times the determinant. */
  lemma GramVector(a: Vec, b: Vec)
    requires |a| == |b|
    ensures var w := Combine(Dot(b, b), a, -Dot(a, b), b);
      Dot(w, w) == Dot(b, b) * Determinant(a, b)
  {
    var (aa, ab, bb) := (Dot(a, a), Dot(a, b), Dot(b, b));
    var w := Combine(bb, a, -ab, b);
    DotCombine(w, bb, a, -ab, b);
    DotSymmetric(w, a);
    DotSymmetric(w, b);
    DotCombine(a, bb, a, -ab, b);
    DotCombine(b, bb, a, -ab, b);
    DotSymmetric(b, a);
    hide Dot;
    hide Combine;
    hide Lin;
    hide MetricDeterminant;
    GramAlgebra(aa, ab, bb);
  }

  lemma GramAlgebra(aa: real, ab: real, bb: real)
    ensures Lin(bb, Lin(bb, aa, -ab, ab), -ab, Lin(bb, ab, -ab, bb)) == bb * MetricDeterminant(aa, ab, bb)
  {
  }

  lemma NonNegativeFactor(b: real, d: real, p: real)
    requires b > 0.0 && p == b * d && p >= 0.0
    ensures d >= 0.0 && (d == 0.0 ==> p == 0.0)
  {
    if d < 0.0 { PositiveProduct(b, -d); }
  }

  /** A zero column: no rank, no determinant. */
  lemma ZeroColumn(a: Vec, b: Vec)
    requires |a| == |b| && Dot(b, b) == 0.0
    ensures Determinant(a, b) == 0.0 && !FullRank([a, b])
  {
    NormIsZero(b);
    DotZero(a, b);
    var z := Combine(0.0, [a, b][0], 1.0, [a, b][1]);
    assert IsZero(z);
  }

  lemma {:induction false} DotZero(a: Vec, b: Vec)
    requires |a| == |b| && IsZero(b)
    ensures Dot(a, b) == 0.0
  {
    if a != [] { DotZero(a[..|a| - 1], b[..|b| - 1]); }
  }

  /** With a determinant that is not zero, a combination vanishes only trivially. */
  lemma Independent(a: Vec, b: Vec)
    requires |a| == |b| && Determinant(a, b) != 0.0
    ensures FullRank([a, b])
  {
    forall s, t | IsZero(Combine(s, [a, b][0], t, [a, b][1])) ensures s == 0.0 && t == 0.0 {
      DotZero(a, Combine(s, a, t, b));
      DotZero(b, Combine(s, a, t, b));
      DotCombine(a, s, a, t, b);
      DotCombine(b, s, a, t, b);
      DotSymmetric(a, b);
      hide MetricDeterminant;
      OnlySolution(Dot(a, a), Dot(a, b), Dot(b, b), s, t, 0.0, 0.0);
    }
  }

  /** With a vanishing determinant and b not zero, (b.b) a - (a.b) b is a combination that vanishes. */
  lemma Dependent(a: Vec, b: Vec)
    requires |a| == |b| && Determinant(a, b) == 0.0 && Dot(b, b) != 0.0
    ensures !FullRank([a, b])
  {
    var w := Combine(Dot(b, b), [a, b][0], -Dot(a, b), [a, b][1]);
    GramVector(a, b);
    NormIsZero(w);
    assert IsZero(w);
  }

  lemma DeterminantSign(a: Vec, b: Vec)
    requires |a| == |b| && Dot(b, b) != 0.0
    ensures Determinant(a, b) >= 0.0
  {
    var w := Combine(Dot(b, b), a, -Dot(a, b), b);
    GramVector(a, b);
    NormIsZero(w);
    NormIsZero(b);
    hide Determinant;
    hide Combine;
    NonNegativeFactor(Dot(b, b), Determinant(a, b), Dot(w, w));
  }

  /** The determinant is never negative, and positive exactly if the columns have full rank. */
  lemma RankTest(a: Vec, b: Vec)
    requires |a| == |b|
    ensures Determinant(a, b) >= 0.0
    ensures Determinant(a, b) > 0.0 <==> FullRank([a, b])
  {
    hide Determinant;
    hide FullRank;
    hide Dot;
    if Dot(b, b) == 0.0 {
      ZeroColumn(a, b);
    } else {
      DeterminantSign(a, b);
      if Determinant(a, b) == 0.0 { Dependent(a, b); } else { Independent(a, b); }
    }
  }

  /** A system with this matrix and a determinant that is not zero has one solution. */
  lemma OnlySolution(aa: real, ab: real, bb: real, s: real, t: real, u: real, v: real)
    requires MetricDeterminant(aa, ab, bb) != 0.0
    requires Lin(s, aa, t, ab) == Lin(u, aa, v, ab) && Lin(s, ab, t, bb) == Lin(u, ab, v, bb)
    ensures s == u && t == v
  {
    Subtract(s, t, u, v, aa, ab);
    Subtract(s, t, u, v, ab, bb);
    Eliminate(aa, ab, bb, s - u, t - v);
  }

  lemma Subtract(s: real, t: real, u: real, v: real, p: real, q: real)
    requires Lin(s, p, t, q) == Lin(u, p, v, q)
    ensures Lin(s - u, p, t - v, q) == 0.0
  {
  }

  lemma Eliminate(aa: real, ab: real, bb: real, x: real, y: real)
    requires aa * bb - ab * ab != 0.0 && Lin(x, aa, y, ab) == 0.0 && Lin(x, ab, y, bb) == 0.0
    ensures x == 0.0 && y == 0.0
  {
    Cross(aa, ab, bb, x, y);
    ZeroFactor(x, aa * bb - ab * ab);
    ZeroFactor(y, aa * bb - ab * ab);
  }

  lemma Cross(aa: real, ab: real, bb: real, x: real, y: real)
    requires Lin(x, aa, y, ab) == 0.0 && Lin(x, ab, y, bb) == 0.0
    ensures x * (aa * bb - ab * ab) == 0.0 && y * (aa * bb - ab * ab) == 0.0
  {
    var (p, q) := (Lin(x, aa, y, ab), Lin(x, ab, y, bb));
    assert x * (aa * bb - ab * ab) == bb * p - ab * q;
    assert y * (aa * bb - ab * ab) == aa * q - ab * p;
  }

  lemma ZeroFactor(x: real, d: real)
    requires x * d == 0.0 && d != 0.0
    ensures x == 0.0
  {
  }

  // ----- the coefficients

  /** The coefficients solve the system of the metric. */
  predicate Solves(jac: seq<Vec>, coef: Vec, d: Vec)
    requires IsJacobian(jac) && |coef| == |d| == |jac|
  {
    if |jac| == 1 then Lin(coef[0], Dot(jac[0], jac[0]), 0.0, Dot(jac[0], jac[0])) == d[0]
    else && Lin(coef[0], Dot(jac[0], jac[0]), coef[1], Dot(jac[0], jac[1])) == d[0]
         && Lin(coef[0], Dot(jac[0], jac[1]), coef[1], Dot(jac[1], jac[1])) == d[1]
  }

  /** The chain rule: the parent derivatives are the physical gradient times the Jacobian. */
  predicate ChainRule(jac: seq<Vec>, gradient: Vec, d: Vec)
    requires IsJacobian(jac) && |d| == |jac| && |gradient| == |jac[0]|
  {
    forall c :: 0 <= c < |jac| ==> Dot(jac[c], gradient) == d[c]
  }

  lemma SpanObeysChainRule(jac: seq<Vec>, coef: Vec, d: Vec)
    requires IsJacobian(jac) && |coef| == |d| == |jac|
    ensures ChainRule(jac, Span(jac, coef), d) <==> Solves(jac, coef, d)
  {
    if |jac| == 1 {
      DotCombine(jac[0], coef[0], jac[0], 0.0, jac[0]);
    } else {
      DotCombine(jac[0], coef[0], jac[0], coef[1], jac[1]);
      DotCombine(jac[1], coef[0], jac[0], coef[1], jac[1]);
      DotSymmetric(jac[0], jac[1]);
      var g := Span(jac, coef);
      assert ChainRule(jac, g, d) <==> Dot(jac[0], g) == d[0] && Dot(jac[1], g) == d[1];
    }
  }

  lemma OneTerm(s: real, m: real)
    ensures Lin(s, m, 0.0, m) == s * m && Lin(s, m, 0.0 - 0.0, m) == s * m
  {
  }

  /** There is only one gradient in the tangent space that obeys the chain rule. */
  lemma GradientIsUnique(jac: seq<Vec>, coef: Vec, other: Vec, d: Vec)
    requires IsJacobian(jac) && |coef| == |other| == |d| == |jac| && FullRank(jac)
    requires ChainRule(jac, Span(jac, coef), d) && ChainRule(jac, Span(jac, other), d)
    ensures coef == other
  {
    SpanObeysChainRule(jac, coef, d);
    SpanObeysChainRule(jac, other, d);
    if |jac| == 1 {
      NormIsZero(jac[0]);
      var m := Dot(jac[0], jac[0]);
      Subtract(coef[0], 0.0, other[0], 0.0, m, m);
      OneTerm(coef[0] - other[0], m);
      ZeroFactor(coef[0] - other[0], m);
    } else {
      hide FullRank;
      hide ChainRule;
      hide Dot;
      hide MetricDeterminant;
      var (a, b) := (jac[0], jac[1]);
      RankTest(a, b);
      assert jac == [a, b];
      OnlySolution(Dot(a, a), Dot(a, b), Dot(b, b), coef[0], coef[1], other[0], other[1]);
    }
  }

  /** The metric entries, accumulated over the physical components. */
  method Metric(a: Vec, b: Vec) returns (m: real)
    requires |a| == |b|
    ensures m == Dot(a, b)
  {
    m := 0.0;
    for i := 0 to |a|
      invariant m == Dot(a[..i], b[..i])
    {
      assert a[..i + 1][..i] == a[..i] && b[..i + 1][..i] == b[..i];
      m := m + a[i] * b[i];
    }
    assert a[..|a|] == a && b[..|b|] == b;
  }

  /** The inverse of the metric, row by row. */
  ghost predicate Inverts(jac: seq<Vec>, inverse: Vec)
    requires IsJacobian(jac)
  {
    if |jac| == 1 then |inverse| == 1 && inverse[0] * Dot(jac[0], jac[0]) == 1.0
    else |inverse| == 4 && InvertsMetric(inverse, Dot(jac[0], jac[0]), Dot(jac[0], jac[1]), Dot(jac[1], jac[1]))
  }

  /** The product of the inverse and the metric is the identity. */
  predicate InvertsMetric(inverse: Vec, aa: real, ab: real, bb: real)
    requires |inverse| == 4
  {
    && Lin(inverse[0], aa, inverse[2], ab) == 1.0 && Lin(inverse[1], aa, inverse[3], ab) == 0.0
    && Lin(inverse[0], ab, inverse[2], bb) == 0.0 && Lin(inverse[1], ab, inverse[3], bb) == 1.0
  }

  /** One entry of the product of the metric and its inverse, both times the determinant. */
  lemma Entry(p: real, q: real, d: real, x: real, y: real, u: real, v: real, r: real)
    requires p * d == x && q * d == y && d != 0.0 && Lin(x, u, y, v) == r * d
    ensures Lin(p, u, q, v) == r
  {
    assert Lin(p, u, q, v) * d == Lin(p * d, u, q * d, v);
    ZeroFactor(Lin(p, u, q, v) - r, d);
  }

  lemma Quotient(x: real, d: real)
    requires d != 0.0
    ensures (x / d) * d == x
  {
  }

  /** The adjugate of the metric over its determinant, row by row. */
  function MetricInverse(aa: real, ab: real, bb: real, d: real): (r: Vec)
    requires d != 0.0
    ensures |r| == 4
  {
    [bb / d, -ab / d, -ab / d, aa / d]
  }

  lemma InverseAlgebra(aa: real, ab: real, bb: real, d: real)
    requires d == MetricDeterminant(aa, ab, bb) && d != 0.0
    ensures InvertsMetric(MetricInverse(aa, ab, bb, d), aa, ab, bb)
  {
    Quotient(bb, d);
    Quotient(-ab, d);
    Quotient(aa, d);
    Entry(bb / d, -ab / d, d, bb, -ab, aa, ab, 1.0);
    Entry(-ab / d, aa / d, d, -ab, aa, aa, ab, 0.0);
    Entry(bb / d, -ab / d, d, bb, -ab, ab, bb, 0.0);
    Entry(-ab / d, aa / d, d, -ab, aa, ab, bb, 1.0);
  }

  method InverseMetric(jac: seq<Vec>) returns (ok: bool, inverse: Vec)
    requires IsJacobian(jac)
    ensures ok <==> FullRank(jac)
    ensures ok ==> Inverts(jac, inverse)
  {
    inverse := [];
    if |jac| == 1 {
      var metric := Metric(jac[0], jac[0]);
      NormIsZero(jac[0]);
      if metric <= 0.0 {
        return false, inverse;
      }
      Quotient(1.0, metric);
      inverse := [1.0 / metric];
      return true, inverse;
    }
    ok, inverse := InverseOfTwo(jac[0], jac[1]);
    assert jac == [jac[0], jac[1]];
  }

  /** The case of two parent directions. */
  method InverseOfTwo(a: Vec, b: Vec) returns (ok: bool, inverse: Vec)
    requires |a| == |b|
    ensures ok <==> FullRank([a, b])
    ensures ok ==> |inverse| == 4 && InvertsMetric(inverse, Dot(a, a), Dot(a, b), Dot(b, b))
  {
    var aa := Metric(a, a);
    var ab := Metric(a, b);
    var bb := Metric(b, b);
    RankTest(a, b);
    var d := MetricDeterminant(aa, ab, bb);
    assert d == Determinant(a, b);
    hide MetricDeterminant;
    hide Determinant;
    hide Dot;
    hide InvertsMetric;
    if d <= 0.0 {
      return false, [];
    }
    InverseAlgebra(aa, ab, bb, d);
    return true, MetricInverse(aa, ab, bb, d);
  }

  /** Row c of the inverse times the first i entries of d. */
  function RowTimes(inverse: Vec, p: nat, c: nat, d: Vec, i: nat): real
    requires 1 <= p <= 2 && c < p && i <= p == |d| && |inverse| == p * p
  {
    if i == 0 then 0.0
    else
      IndexInRange(p, c, i - 1);
      RowTimes(inverse, p, c, d, i - 1) + inverse[p * c + (i - 1)] * d[i - 1]
  }

  lemma IndexInRange(p: nat, c: nat, i: nat)
    requires 1 <= p <= 2 && c < p && i < p
    ensures p * c + i < p * p
  {
    if p == 1 { assert c == 0 && i == 0; } else { assert p == 2; }
  }

  /** The loops over the parent components: the inverse metric times the parent derivatives. */
  method Coefficients(jac: seq<Vec>, inverse: Vec, d: Vec) returns (coef: Vec)
    requires IsJacobian(jac) && |d| == |jac| && Inverts(jac, inverse)
    ensures |coef| == |jac| && Solves(jac, coef, d)
  {
    coef := Multiply(|jac|, inverse, d);
    if |jac| == 1 {
      OneSolves(inverse, Dot(jac[0], jac[0]), d);
    } else {
      TwoSolve(inverse, Dot(jac[0], jac[0]), Dot(jac[0], jac[1]), Dot(jac[1], jac[1]), d);
    }
  }

  method Multiply(p: nat, inverse: Vec, d: Vec) returns (coef: Vec)
    requires 1 <= p <= 2 && |d| == p && |inverse| == p * p
    ensures |coef| == p && forall c :: 0 <= c < p ==> coef[c] == RowTimes(inverse, p, c, d, p)
  {
    coef := [];
    for c := 0 to p
      invariant |coef| == c && forall k :: 0 <= k < c ==> coef[k] == RowTimes(inverse, p, k, d, p)
    {
      var sum := 0.0;
      for i := 0 to p
        invariant sum == RowTimes(inverse, p, c, d, i)
      {
        IndexInRange(p, c, i);
        sum := sum + inverse[p * c + i] * d[i];
      }
      coef := coef + [sum];
    }
  }

  lemma OneSolves(inverse: Vec, m: real, d: Vec)
    requires |inverse| == 1 == |d| && inverse[0] * m == 1.0
    ensures Lin(RowTimes(inverse, 1, 0, d, 1), m, 0.0, m) == d[0]
  {
    var (x, y) := (inverse[0], d[0]);
    assert RowTimes(inverse, 1, 0, d, 0) == 0.0;
    assert RowTimes(inverse, 1, 0, d, 1) == x * y;
    OneTerm(x * y, m);
    Reorder(x, y, m);
  }

  lemma Reorder(x: real, y: real, m: real)
    requires x * m == 1.0
    ensures (x * y) * m == y
  {
    assert (x * y) * m == (x * m) * y;
  }

  lemma TwoSolve(inverse: Vec, aa: real, ab: real, bb: real, d: Vec)
    requires |inverse| == 4 && |d| == 2 && InvertsMetric(inverse, aa, ab, bb)
    ensures Lin(RowTimes(inverse, 2, 0, d, 2), aa, RowTimes(inverse, 2, 1, d, 2), ab) == d[0]
    ensures Lin(RowTimes(inverse, 2, 0, d, 2), ab, RowTimes(inverse, 2, 1, d, 2), bb) == d[1]
  {
    RowOfTwo(inverse, d);
    var (i0, i1, i2, i3) := (inverse[0], inverse[1], inverse[2], inverse[3]);
    Apply(i0, i1, i2, i3, d[0], d[1], aa, ab, 1.0, 0.0);
    Apply(i0, i1, i2, i3, d[0], d[1], ab, bb, 0.0, 1.0);
  }

  lemma RowOfTwo(inverse: Vec, d: Vec)
    requires |inverse| == 4 && |d| == 2
    ensures RowTimes(inverse, 2, 0, d, 2) == Lin(inverse[0], d[0], inverse[1], d[1])
    ensures RowTimes(inverse, 2, 1, d, 2) == Lin(inverse[2], d[0], inverse[3], d[1])
  {
    assert RowTimes(inverse, 2, 0, d, 1) == 0.0 + inverse[0] * d[0];
    assert RowTimes(inverse, 2, 1, d, 1) == 0.0 + inverse[2] * d[0];
  }

  lemma Apply(i0: real, i1: real, i2: real, i3: real, x: real, y: real, u: real, v: real, r: real, q: real)
    requires Lin(i0, u, i2, v) == r && Lin(i1, u, i3, v) == q
    ensures Lin(Lin(i0, x, i1, y), u, Lin(i2, x, i3, y), v) == Lin(r, x, q, y)
    ensures r == 1.0 && q == 0.0 ==> Lin(r, x, q, y) == x
    ensures r == 0.0 && q == 1.0 ==> Lin(r, x, q, y) == y
  {
    assert Lin(Lin(i0, x, i1, y), u, Lin(i2, x, i3, y), v) == Lin(Lin(i0, u, i2, v), x, Lin(i1, u, i3, v), y);
  }

  /** The loops over the physical components of one node. */
  method Gradient(jac: seq<Vec>, coef: Vec) returns (g: Vec)
    requires IsJacobian(jac) && |coef| == |jac|
    ensures g == Span(jac, coef)
  {
    g := [];
    for i := 0 to |jac[0]|
      invariant |g| == i && forall k :: 0 <= k < i ==> g[k] == Span(jac, coef)[k]
    {
      var sum := 0.0;
      sum := sum + jac[0][i] * coef[0];
      if |jac| == 2 {
        sum := sum + jac[1][i] * coef[1];
      }
      assert sum == Span(jac, coef)[i];
      g := g + [sum];
    }
  }

  /** Node `node` has a tangent gradient that obeys the chain rule. */
  ghost predicate TangentGradient(jac: seq<Vec>, d: Vec, g: Vec)
    requires IsJacobian(jac)
  {
    |d| == |jac| && |g| == |jac[0]| && ChainRule(jac, g, d) && exists coef :: |coef| == |jac| && g == Span(jac, coef)
  }

  /** With full rank there is only one tangent gradient. */
  lemma TangentGradientIsUnique(jac: seq<Vec>, d: Vec, g: Vec, h: Vec)
    requires IsJacobian(jac) && FullRank(jac) && TangentGradient(jac, d, g) && TangentGradient(jac, d, h)
    ensures g == h
  {
    var coef :| |coef| == |jac| && g == Span(jac, coef);
    var other :| |other| == |jac| && h == Span(jac, other);
    GradientIsUnique(jac, coef, other, d);
  }

  /** The flag tells whether the Jacobian has full rank; with it every node's gradient lies in the tangent
      space and obeys the chain rule, and otherwise all gradients are zero. */
  ghost predicate ArePhysical(jac: seq<Vec>, derivs: seq<Vec>, ok: bool, out: seq<Vec>)
    requires IsJacobian(jac)
  {
    && |out| == |derivs| && (ok <==> FullRank(jac))
    && (ok ==> forall k :: 0 <= k < |out| ==> TangentGradient(jac, derivs[k], out[k]))
    && (!ok ==> forall k :: 0 <= k < |out| ==> |out[k]| == |jac[0]| && IsZero(out[k]))
  }

  /** Flag and gradients are determined by the Jacobian and the parent derivatives. */
  lemma PhysicalIsUnique(jac: seq<Vec>, derivs: seq<Vec>, ok: bool, out: seq<Vec>, ok': bool, out': seq<Vec>)
    requires IsJacobian(jac) && ArePhysical(jac, derivs, ok, out) && ArePhysical(jac, derivs, ok', out')
    ensures ok == ok' && out == out'
  {
    forall k | 0 <= k < |out| ensures out[k] == out'[k] {
      if ok { TangentGradientIsUnique(jac, derivs[k], out[k], out'[k]); }
    }
  }

  /** ComputePhysicalDerivatives. */
  method ComputePhysicalDerivatives(jac: seq<Vec>, derivs: seq<Vec>) returns (ok: bool, out: seq<Vec>)
    requires IsJacobian(jac) && forall k :: 0 <= k < |derivs| ==> |derivs[k]| == |jac|
    ensures ArePhysical(jac, derivs, ok, out)
  {
    out := seq(|derivs|, _ => seq(|jac[0]|, _ => 0.0));
    var inverse;
    ok, inverse := InverseMetric(jac);
    if !ok {
      return;
    }
    for k := 0 to |derivs|
      invariant |out| == |derivs| && forall n :: 0 <= n < k ==> TangentGradient(jac, derivs[n], out[n])
    {
      var coef := Coefficients(jac, inverse, derivs[k]);
      var g := Gradient(jac, coef);
      SpanObeysChainRule(jac, coef, derivs[k]);
      out := out[k := g];
    }
  }

  // ----- mapping Jacobian

  /** Sum over the first n nodes of one coordinate times one parent derivative. */
  function NodeSum(coords: seq<Vec>, derivs: seq<Vec>, p: nat, c: nat, n: nat): real
    requires n <= |coords| == |derivs|
    requires forall k :: 0 <= k < n ==> p < |coords[k]| && c < |derivs[k]|
  {
    if n == 0 then 0.0 else NodeSum(coords, derivs, p, c, n - 1) + coords[n - 1][p] * derivs[n - 1][c]
  }

  predicate Table(v: seq<Vec>, width: nat) {
    forall k :: 0 <= k < |v| ==> |v[k]| == width
  }

  /** The mapping Jacobian of the nodes, as columns. */
  predicate IsMapping(jac: seq<Vec>, coords: seq<Vec>, derivs: seq<Vec>, dim: nat, parents: nat)
    requires |coords| == |derivs| && Table(coords, dim) && Table(derivs, parents)
  {
    && |jac| == parents && Table(jac, dim)
    && forall p, c :: 0 <= p < dim && 0 <= c < parents ==> jac[c][p] == NodeSum(coords, derivs, p, c, |coords|)
  }

  /** ComputeMappingJacobian. */
  method ComputeMappingJacobian(coords: seq<Vec>, derivs: seq<Vec>, dim: nat, parents: nat) returns (jac: seq<Vec>)
    requires |coords| == |derivs| && Table(coords, dim) && Table(derivs, parents)
    ensures IsMapping(jac, coords, derivs, dim, parents)
  {
    jac := seq(parents, _ => seq(dim, _ => 0.0));
    for p := 0 to dim
      invariant |jac| == parents && Table(jac, dim)
      invariant forall r, c :: 0 <= r < p && 0 <= c < parents ==> jac[c][r] == NodeSum(coords, derivs, r, c, |coords|)
    {
      for c := 0 to parents
        invariant |jac| == parents && Table(jac, dim)
        invariant forall r, b :: 0 <= r < p && 0 <= b < parents ==> jac[b][r] == NodeSum(coords, derivs, r, b, |coords|)
        invariant forall b :: 0 <= b < c ==> jac[b][p] == NodeSum(coords, derivs, p, b, |coords|)
      {
        var derivative := 0.0;
        for node := 0 to |coords|
          invariant derivative == NodeSum(coords, derivs, p, c, node)
        {
          derivative := derivative + coords[node][p] * derivs[node][c];
        }
        jac := jac[c := jac[c][p := derivative]];
      }
    }
  }

  /** Sum over the first n nodes of one parent derivative. */
  function DerivSum(derivs: seq<Vec>, c: nat, n: nat): real
    requires n <= |derivs| && forall k :: 0 <= k < n ==> c < |derivs[k]|
  {
    if n == 0 then 0.0 else DerivSum(derivs, c, n - 1) + derivs[n - 1][c]
  }

  /** Nodal coordinates moved by the vector t. */
  predicate Translated(coords: seq<Vec>, moved: seq<Vec>, t: Vec) {
    && |moved| == |coords| && Table(coords, |t|) && Table(moved, |t|)
    && forall k, p :: 0 <= k < |coords| && 0 <= p < |t| ==> moved[k][p] == coords[k][p] + t[p]
  }

  lemma {:induction false} TranslatedSum(coords: seq<Vec>, moved: seq<Vec>, t: Vec, derivs: seq<Vec>, parents: nat,
                                         p: nat, c: nat, n: nat)
    requires Translated(coords, moved, t) && |derivs| == |coords| && Table(derivs, parents)
    requires p < |t| && c < parents && n <= |coords|
    ensures NodeSum(moved, derivs, p, c, n) == NodeSum(coords, derivs, p, c, n) + t[p] * DerivSum(derivs, c, n)
  {
    if n > 0 {
      TranslatedSum(coords, moved, t, derivs, parents, p, c, n - 1);
      MovedTerm(coords[n - 1][p], t[p], derivs[n - 1][c], NodeSum(coords, derivs, p, c, n - 1), DerivSum(derivs, c, n - 1));
      assert moved[n - 1][p] == coords[n - 1][p] + t[p];
    }
  }

  lemma MovedTerm(x: real, t: real, d: real, s: real, e: real)
    ensures (s + t * e) + (x + t) * d == (s + x * d) + t * (e + d)
  {
  }

  /** If the derivatives of the basis sum up to zero over the nodes, moving all nodes by the same vector does
      not change the sums of the mapping Jacobian. */
  lemma JacobianIgnoresTranslation(coords: seq<Vec>, moved: seq<Vec>, t: Vec, derivs: seq<Vec>, parents: nat)
    requires Translated(coords, moved, t) && |derivs| == |coords| && Table(derivs, parents)
    requires forall c :: 0 <= c < parents ==> DerivSum(derivs, c, |derivs|) == 0.0
    ensures forall p, c :: 0 <= p < |t| && 0 <= c < parents
              ==> NodeSum(moved, derivs, p, c, |moved|) == NodeSum(coords, derivs, p, c, |coords|)
  {
    forall p, c | 0 <= p < |t| && 0 <= c < parents
      ensures NodeSum(moved, derivs, p, c, |moved|) == NodeSum(coords, derivs, p, c, |coords|)
    {
      TranslatedSum(coords, moved, t, derivs, parents, p, c, |coords|);
    }
  }

  lemma MappingIsUnique(coords: seq<Vec>, moved: seq<Vec>, t: Vec, derivs: seq<Vec>, parents: nat, jac: seq<Vec>,
                        jac': seq<Vec>)
    requires Translated(coords, moved, t) && |derivs| == |coords| && Table(derivs, parents)
    requires forall c :: 0 <= c < parents ==> DerivSum(derivs, c, |derivs|) == 0.0
    requires IsMapping(jac, coords, derivs, |t|, parents) && IsMapping(jac', moved, derivs, |t|, parents)
    ensures jac == jac'
  {
    JacobianIgnoresTranslation(coords, moved, t, derivs, parents);
    forall c | 0 <= c < parents ensures jac[c] == jac'[c] {
      assert forall p :: 0 <= p < |t| ==> jac[c][p] == jac'[c][p];
    }
  }
}

/** The Lagrange bases: values and parent derivatives at a point of the parent element. */
module LagrangeBases {
  import opened Vectors
  import opened TangentGradients

  datatype Basis = LinearEdge | QuadraticEdge | LinearTriangle | LinearQuad | QuadraticQuad

  function ParentDimension(b: Basis): nat {
    match b
    case LinearEdge => 1
    case QuadraticEdge => 1
    case _ => 2
  }

  function NodeCount(b: Basis): nat {
    match b
    case LinearEdge => 2
    case QuadraticEdge => 3
    case LinearTriangle => 3
    case LinearQuad => 4
    case QuadraticQuad => 9
  }

  function Linear(x: real): Vec { [0.5 * (1.0 - x), 0.5 * (1.0 + x)] }

  function LinearDerivs(): Vec { [-0.5, 0.5] }

  function Quadratic(x: real): Vec { [0.5 * x * (x - 1.0), 0.5 * x * (x + 1.0), 1.0 - x * x] }

  function QuadraticDerivs(x: real): Vec { [x - 0.5, x + 0.5, -2.0 * x] }

  function Times(a: real, b: real): real { a * b }

  /** Tensor products in the node order of the linear quadrilateral. */
  function FourProducts(x: Vec, y: Vec): (r: Vec)
    requires |x| == |y| == 2
    ensures |r| == 4
  {
    [Times(x[0], y[0]), Times(x[1], y[0]), Times(x[1], y[1]), Times(x[0], y[1])]
  }

  /** Tensor products in the node order of the quadratic one: vertices, edge midpoints, centre. */
  function NineProducts(x: Vec, y: Vec): (r: Vec)
    requires |x| == |y| == 3
    ensures |r| == 9
  {
    [Times(x[0], y[0]), Times(x[1], y[0]), Times(x[1], y[1]), Times(x[0], y[1]), Times(x[2], y[0]),
     Times(x[1], y[2]), Times(x[2], y[1]), Times(x[0], y[2]), Times(x[2], y[2])]
  }

  const X_FACTOR_BY_NODE: seq<nat> := [0, 1, 1, 0, 2, 1, 2, 0, 2]
  const Y_FACTOR_BY_NODE: seq<nat> := [0, 0, 1, 1, 0, 2, 1, 2, 2]

  /** The loop over the factor tables fills in the same products, node by node, as the list above. */
  method ProductsByTable(x: Vec, y: Vec) returns (r: Vec)
    requires |x| == |y| == 3
    ensures r == NineProducts(x, y)
  {
    r := seq(9, _ => 0.0);
    for node := 0 to 9
      invariant |r| == 9 && forall k :: 0 <= k < node ==> r[k] == NineProducts(x, y)[k]
    {
      NineByTable(x, y, node);
      r := r[node := x[X_FACTOR_BY_NODE[node]] * y[Y_FACTOR_BY_NODE[node]]];
    }
  }

  function Eval(b: Basis, xi: Vec): (r: Vec)
    requires |xi| == ParentDimension(b)
    ensures |r| == NodeCount(b)
  {
    match b
    case LinearEdge => Linear(xi[0])
    case QuadraticEdge => Quadratic(xi[0])
    case LinearTriangle => [1.0 - xi[0] - xi[1], xi[0], xi[1]]
    case LinearQuad => FourProducts(Linear(xi[0]), Linear(xi[1]))
    case QuadraticQuad => NineProducts(Quadratic(xi[0]), Quadratic(xi[1]))
  }

  function Pairs(x: Vec, y: Vec): (r: seq<Vec>)
    requires |x| == |y|
    ensures |r| == |x|
  {
    seq(|x|, k requires 0 <= k < |x| => [x[k], y[k]])
  }

  function Singles(x: Vec): (r: seq<Vec>)
    ensures |r| == |x|
  {
    seq(|x|, k requires 0 <= k < |x| => [x[k]])
  }

  function EvalParentDerivatives(b: Basis, xi: Vec): (r: seq<Vec>)
    requires |xi| == ParentDimension(b)
    ensures |r| == NodeCount(b) && Table(r, ParentDimension(b))
  {
    match b
    case LinearEdge => Singles(LinearDerivs())
    case QuadraticEdge => Singles(QuadraticDerivs(xi[0]))
    case LinearTriangle => [[-1.0, -1.0], [1.0, 0.0], [0.0, 1.0]]
    case LinearQuad => Pairs(FourProducts(LinearDerivs(), Linear(xi[1])), FourProducts(Linear(xi[0]), LinearDerivs()))
    case QuadraticQuad => Pairs(NineProducts(QuadraticDerivs(xi[0]), Quadratic(xi[1])),
                                NineProducts(Quadratic(xi[0]), QuadraticDerivs(xi[1])))
  }

  function Sum(v: Vec): real {
    if v == [] then 0.0 else Sum(v[..|v| - 1]) + v[|v| - 1]
  }

  lemma SumSnoc(v: Vec, n: nat)
    requires n < |v|
    ensures Sum(v[..n + 1]) == Sum(v[..n]) + v[n]
  {
    assert v[..n + 1][..n] == v[..n];
  }

  lemma SumOfTwo(v: Vec)
    requires |v| == 2
    ensures Sum(v) == v[0] + v[1]
  {
    SumSnoc(v, 0);
    SumSnoc(v, 1);
    assert v[..2] == v;
  }

  lemma SumOfThree(v: Vec)
    requires |v| == 3
    ensures Sum(v) == v[0] + v[1] + v[2]
  {
    SumSnoc(v, 0);
    SumSnoc(v, 1);
    SumSnoc(v, 2);
    assert v[..3] == v;
  }

  lemma SumOfFour(v: Vec)
    requires |v| >= 4
    ensures Sum(v[..4]) == v[0] + v[1] + v[2] + v[3]
  {
    SumSnoc(v, 0);
    SumSnoc(v, 1);
    SumSnoc(v, 2);
    SumSnoc(v, 3);
  }

  lemma SumOfNine(v: Vec)
    requires |v| == 9
    ensures Sum(v) == v[0] + v[1] + v[2] + v[3] + v[4] + v[5] + v[6] + v[7] + v[8]
  {
    SumOfFour(v);
    SumSnoc(v, 4);
    SumSnoc(v, 5);
    SumSnoc(v, 6);
    SumSnoc(v, 7);
    SumSnoc(v, 8);
    assert v[..9] == v;
  }

  /** A tensor product sums up to the product of the sums of its factors. */
  lemma SumOfFourProducts(x: Vec, y: Vec)
    requires |x| == |y| == 2
    ensures Sum(FourProducts(x, y)) == Sum(x) * Sum(y)
  {
    SumOfTwo(x);
    SumOfTwo(y);
    var p := FourProducts(x, y);
    SumOfFour(p);
    assert p[..4] == p;
    FourTerms(x[0], x[1], y[0], y[1]);
  }

  lemma FourTerms(a: real, b: real, c: real, d: real)
    ensures a * c + b * c + b * d + a * d == (a + b) * (c + d)
  {
  }

  lemma SumOfNineProducts(x: Vec, y: Vec)
    requires |x| == |y| == 3
    ensures Sum(NineProducts(x, y)) == Sum(x) * Sum(y)
  {
    SumOfThree(x);
    SumOfThree(y);
    SumOfNine(NineProducts(x, y));
    NineTerms(x[0], x[1], x[2], y[0], y[1], y[2]);
  }

  lemma NineTerms(a: real, b: real, c: real, d: real, e: real, f: real)
    ensures a * d + b * d + b * e + a * e + c * d + b * f + c * e + a * f + c * f == (a + b + c) * (d + e + f)
  {
  }

  lemma FactorSums(x: real)
    ensures Sum(Linear(x)) == 1.0 && Sum(LinearDerivs()) == 0.0
    ensures Sum(Quadratic(x)) == 1.0 && Sum(QuadraticDerivs(x)) == 0.0
  {
    SumOfTwo(Linear(x));
    SumOfTwo(LinearDerivs());
    SumOfThree(Quadratic(x));
    SumOfThree(QuadraticDerivs(x));
    assert 0.5 * x * (x - 1.0) + 0.5 * x * (x + 1.0) == x * x;
  }

  /** Every basis is a partition of unity: at every point its values sum up to one. */
  lemma PartitionOfUnity(b: Basis, xi: Vec)
    requires |xi| == ParentDimension(b)
    ensures Sum(Eval(b, xi)) == 1.0
  {
    FactorSums(xi[0]);
    match b
    case LinearEdge =>
    case QuadraticEdge =>
    case LinearTriangle => SumOfThree(Eval(b, xi));
    case LinearQuad =>
      FactorSums(xi[1]);
      SumOfFourProducts(Linear(xi[0]), Linear(xi[1]));
    case QuadraticQuad =>
      FactorSums(xi[1]);
      SumOfNineProducts(Quadratic(xi[0]), Quadratic(xi[1]));
  }

  /** Column c of a table. */
  function Column(t: seq<Vec>, c: nat): (r: Vec)
    requires forall k :: 0 <= k < |t| ==> c < |t[k]|
    ensures |r| == |t|
  {
    seq(|t|, k requires 0 <= k < |t| => t[k][c])
  }

  lemma {:induction false} DerivSumIsSum(t: seq<Vec>, c: nat, n: nat)
    requires n <= |t| && forall k :: 0 <= k < |t| ==> c < |t[k]|
    ensures DerivSum(t, c, n) == Sum(Column(t, c)[..n])
  {
    if n > 0 {
      DerivSumIsSum(t, c, n - 1);
      assert Column(t, c)[..n][..n - 1] == Column(t, c)[..n - 1];
    }
  }

  /** The parent derivatives of every basis sum up to zero over the nodes. */
  lemma DerivativesSumToZero(b: Basis, xi: Vec, c: nat)
    requires |xi| == ParentDimension(b) && c < ParentDimension(b)
    ensures DerivSum(EvalParentDerivatives(b, xi), c, NodeCount(b)) == 0.0
  {
    var t := EvalParentDerivatives(b, xi);
    DerivSumIsSum(t, c, |t|);
    assert Column(t, c)[..|t|] == Column(t, c);
    FactorSums(xi[0]);
    match b
    case LinearEdge => assert Column(t, c) == LinearDerivs();
    case QuadraticEdge => assert Column(t, c) == QuadraticDerivs(xi[0]);
    case LinearTriangle => SumOfThree(Column(t, c));
    case LinearQuad =>
      FactorSums(xi[1]);
      if c == 0 {
        SumOfFourProducts(LinearDerivs(), Linear(xi[1]));
        assert Column(t, c) == FourProducts(LinearDerivs(), Linear(xi[1]));
      } else {
        SumOfFourProducts(Linear(xi[0]), LinearDerivs());
        assert Column(t, c) == FourProducts(Linear(xi[0]), LinearDerivs());
      }
    case QuadraticQuad =>
      FactorSums(xi[1]);
      if c == 0 {
        SumOfNineProducts(QuadraticDerivs(xi[0]), Quadratic(xi[1]));
        assert Column(t, c) == NineProducts(QuadraticDerivs(xi[0]), Quadratic(xi[1]));
      } else {
        SumOfNineProducts(Quadratic(xi[0]), QuadraticDerivs(xi[1]));
        assert Column(t, c) == NineProducts(Quadratic(xi[0]), QuadraticDerivs(xi[1]));
      }
  }

  /** For every basis, moving all nodes by one vector leaves the mapping Jacobian as it is. */
  lemma TranslationInvariance(b: Basis, xi: Vec, coords: seq<Vec>, moved: seq<Vec>, t: Vec)
    requires |xi| == ParentDimension(b) && |coords| == NodeCount(b) && Translated(coords, moved, t)
    ensures var d := EvalParentDerivatives(b, xi);
      forall p, c :: 0 <= p < |t| && 0 <= c < ParentDimension(b)
        ==> NodeSum(moved, d, p, c, |moved|) == NodeSum(coords, d, p, c, |coords|)
  {
    var d := EvalParentDerivatives(b, xi);
    forall c | 0 <= c < ParentDimension(b) ensures DerivSum(d, c, |d|) == 0.0 { DerivativesSumToZero(b, xi, c); }
    JacobianIgnoresTranslation(coords, moved, t, d, ParentDimension(b));
  }

  /** Gradients of translated nodes: for every basis, the Jacobian, the success flag and the gradients that are
      computed from translated nodal coordinates are the same. */
  lemma GradientsIgnoreTranslation(b: Basis, xi: Vec, coords: seq<Vec>, moved: seq<Vec>, t: Vec, jac: seq<Vec>,
                                   ok: bool, out: seq<Vec>, jac': seq<Vec>, ok': bool, out': seq<Vec>)
    requires |xi| == ParentDimension(b) && |coords| == NodeCount(b) && Translated(coords, moved, t)
    requires IsMapping(jac, coords, EvalParentDerivatives(b, xi), |t|, ParentDimension(b))
    requires IsMapping(jac', moved, EvalParentDerivatives(b, xi), |t|, ParentDimension(b))
    requires ArePhysical(jac, EvalParentDerivatives(b, xi), ok, out)
    requires ArePhysical(jac', EvalParentDerivatives(b, xi), ok', out')
    ensures jac == jac' && ok == ok' && out == out'
  {
    var d := EvalParentDerivatives(b, xi);
    forall c | 0 <= c < ParentDimension(b) ensures DerivSum(d, c, |d|) == 0.0 { DerivativesSumToZero(b, xi, c); }
    MappingIsUnique(coords, moved, t, d, ParentDimension(b), jac, jac');
    PhysicalIsUnique(jac, d, ok, out, ok', out');
  }

  // ----- the derivatives belong to the values

  /** The coefficients of the second powers of the quadratic factors. */
  function Curvature(): Vec { [0.5, 0.5, -1.0] }

  /** The value after a step of h: value + h slope + h^2 curvature. */
  function Step(value: real, slope: real, curvature: real, h: real): real {
    value + h * slope + h * h * curvature
  }

  ghost predicate Expands(after: Vec, value: Vec, slope: Vec, curvature: Vec, h: real) {
    && |after| == |value| == |slope| == |curvature|
    && forall k :: 0 <= k < |value| ==> after[k] == Step(value[k], slope[k], curvature[k], h)
  }

  lemma LinearExpands(x: real, h: real)
    ensures Expands(Linear(x + h), Linear(x), LinearDerivs(), [0.0, 0.0], h)
  {
  }

  lemma QuadraticExpands(x: real, h: real)
    ensures Expands(Quadratic(x + h), Quadratic(x), QuadraticDerivs(x), Curvature(), h)
  {
    First(x, h);
    Second(x, h);
    Third(x, h);
  }

  lemma First(x: real, h: real)
    ensures 0.5 * (x + h) * ((x + h) - 1.0) == Step(0.5 * x * (x - 1.0), x - 0.5, 0.5, h)
  {
  }

  lemma Second(x: real, h: real)
    ensures 0.5 * (x + h) * ((x + h) + 1.0) == Step(0.5 * x * (x + 1.0), x + 0.5, 0.5, h)
  {
  }

  lemma Third(x: real, h: real)
    ensures 1.0 - (x + h) * (x + h) == Step(1.0 - x * x, -2.0 * x, -1.0, h)
  {
  }

  lemma Scaled(v: real, s: real, c: real, h: real, y: real)
    ensures Times(Step(v, s, c, h), y) == Step(Times(v, y), Times(s, y), Times(c, y), h)
    ensures Times(y, Step(v, s, c, h)) == Step(Times(y, v), Times(y, s), Times(y, c), h)
  {
  }

  lemma FourExpand(a: Vec, v: Vec, s: Vec, c: Vec, h: real, y: Vec)
    requires Expands(a, v, s, c, h) && |v| == |y| == 2
    ensures Expands(FourProducts(a, y), FourProducts(v, y), FourProducts(s, y), FourProducts(c, y), h)
    ensures Expands(FourProducts(y, a), FourProducts(y, v), FourProducts(y, s), FourProducts(y, c), h)
  {
    Scaled(v[0], s[0], c[0], h, y[0]);
    Scaled(v[0], s[0], c[0], h, y[1]);
    Scaled(v[1], s[1], c[1], h, y[0]);
    Scaled(v[1], s[1], c[1], h, y[1]);
  }

  lemma NineByTable(x: Vec, y: Vec, k: nat)
    requires |x| == |y| == 3 && k < 9
    ensures X_FACTOR_BY_NODE[k] < 3 && Y_FACTOR_BY_NODE[k] < 3
    ensures NineProducts(x, y)[k] == Times(x[X_FACTOR_BY_NODE[k]], y[Y_FACTOR_BY_NODE[k]])
  {
  }

  lemma NineExpandX(a: Vec, v: Vec, s: Vec, c: Vec, h: real, y: Vec)
    requires Expands(a, v, s, c, h) && |v| == |y| == 3
    ensures Expands(NineProducts(a, y), NineProducts(v, y), NineProducts(s, y), NineProducts(c, y), h)
  {
    forall k | 0 <= k < 9
      ensures NineProducts(a, y)[k] == Step(NineProducts(v, y)[k], NineProducts(s, y)[k], NineProducts(c, y)[k], h)
    {
      NineByTable(a, y, k);
      NineByTable(v, y, k);
      NineByTable(s, y, k);
      NineByTable(c, y, k);
      var i := X_FACTOR_BY_NODE[k];
      Scaled(v[i], s[i], c[i], h, y[Y_FACTOR_BY_NODE[k]]);
    }
  }

  lemma NineExpandY(x: Vec, a: Vec, v: Vec, s: Vec, c: Vec, h: real)
    requires Expands(a, v, s, c, h) && |v| == |x| == 3
    ensures Expands(NineProducts(x, a), NineProducts(x, v), NineProducts(x, s), NineProducts(x, c), h)
  {
    forall k | 0 <= k < 9
      ensures NineProducts(x, a)[k] == Step(NineProducts(x, v)[k], NineProducts(x, s)[k], NineProducts(x, c)[k], h)
    {
      NineByTable(x, a, k);
      NineByTable(x, v, k);
      NineByTable(x, s, k);
      NineByTable(x, c, k);
      var j := Y_FACTOR_BY_NODE[k];
      Scaled(v[j], s[j], c[j], h, x[X_FACTOR_BY_NODE[k]]);
    }
  }

  /** The coefficients of the second powers for a step in parent direction c. */
  function CurvatureOf(b: Basis, xi: Vec, c: nat): Vec
    requires |xi| == ParentDimension(b) && c < |xi|
  {
    match b
    case LinearEdge => [0.0, 0.0]
    case QuadraticEdge => Curvature()
    case LinearTriangle => [0.0, 0.0, 0.0]
    case LinearQuad => if c == 0 then FourProducts([0.0, 0.0], Linear(xi[1])) else FourProducts(Linear(xi[0]), [0.0, 0.0])
    case QuadraticQuad =>
      if c == 0 then NineProducts(Curvature(), Quadratic(xi[1])) else NineProducts(Quadratic(xi[0]), Curvature())
  }

  /** What DerivativesAreSlopes says of one basis at one point. */
  ghost predicate AreSlopes(b: Basis, xi: Vec, c: nat, h: real)
    requires |xi| == ParentDimension(b) && c < |xi|
  {
    Expands(Eval(b, xi[c := xi[c] + h]), Eval(b, xi), Column(EvalParentDerivatives(b, xi), c), CurvatureOf(b, xi, c), h)
  }

  lemma FourAreSlopes(xi: Vec, c: nat, h: real)
    requires |xi| == 2 && c < 2
    ensures AreSlopes(LinearQuad, xi, c, h)
  {
    var d := Column(EvalParentDerivatives(LinearQuad, xi), c);
    LinearExpands(xi[c], h);
    if c == 0 {
      assert d == FourProducts(LinearDerivs(), Linear(xi[1]));
      FourExpand(Linear(xi[0] + h), Linear(xi[0]), LinearDerivs(), [0.0, 0.0], h, Linear(xi[1]));
    } else {
      assert d == FourProducts(Linear(xi[0]), LinearDerivs());
      FourExpand(Linear(xi[1] + h), Linear(xi[1]), LinearDerivs(), [0.0, 0.0], h, Linear(xi[0]));
    }
  }

  lemma NineAreSlopes(xi: Vec, c: nat, h: real)
    requires |xi| == 2 && c < 2
    ensures AreSlopes(QuadraticQuad, xi, c, h)
  {
    var d := Column(EvalParentDerivatives(QuadraticQuad, xi), c);
    QuadraticExpands(xi[c], h);
    if c == 0 {
      assert d == NineProducts(QuadraticDerivs(xi[0]), Quadratic(xi[1]));
      NineExpandX(Quadratic(xi[0] + h), Quadratic(xi[0]), QuadraticDerivs(xi[0]), Curvature(), h, Quadratic(xi[1]));
    } else {
      assert d == NineProducts(Quadratic(xi[0]), QuadraticDerivs(xi[1]));
      NineExpandY(Quadratic(xi[0]), Quadratic(xi[1] + h), Quadratic(xi[1]), QuadraticDerivs(xi[1]), Curvature(), h);
    }
  }

  /** The parent derivatives are the derivatives of the basis values: a step of h in one parent direction
      changes the values by h times the derivatives plus h^2 times a term that does not depend on h. */
  lemma DerivativesAreSlopes(b: Basis, xi: Vec, c: nat, h: real)
    requires |xi| == ParentDimension(b) && c < |xi|
    ensures Expands(Eval(b, xi[c := xi[c] + h]), Eval(b, xi), Column(EvalParentDerivatives(b, xi), c), CurvatureOf(b, xi, c), h)
  {
    var d := Column(EvalParentDerivatives(b, xi), c);
    match b
    case LinearEdge =>
      assert d == LinearDerivs();
      LinearExpands(xi[0], h);
    case QuadraticEdge =>
      assert d == QuadraticDerivs(xi[0]);
      QuadraticExpands(xi[0], h);
    case LinearTriangle =>
      assert d == if c == 0 then [-1.0, 1.0, 0.0] else [-1.0, 0.0, 1.0];
    case LinearQuad => FourAreSlopes(xi, c, h);
    case QuadraticQuad => NineAreSlopes(xi, c, h);
  }

  // ----- the Jacobian belongs to the interpolated position

  /** Coordinate p of every node times the value that a basis has there. */
  function Terms(coords: seq<Vec>, p: nat, values: Vec): (r: Vec)
    requires |coords| == |values| && forall k :: 0 <= k < |coords| ==> p < |coords[k]|
    ensures |r| == |coords| && forall k :: 0 <= k < |r| ==> r[k] == Times(coords[k][p], values[k])
  {
    seq(|coords|, k requires 0 <= k < |coords| => Times(coords[k][p], values[k]))
  }

  lemma {:induction false} SumExpands(after: Vec, value: Vec, slope: Vec, curvature: Vec, h: real)
    requires Expands(after, value, slope, curvature, h)
    ensures Sum(after) == Step(Sum(value), Sum(slope), Sum(curvature), h)
  {
    if after != [] {
      var m := |after| - 1;
      SumExpands(after[..m], value[..m], slope[..m], curvature[..m], h);
      StepsAdd(Sum(value[..m]), value[m], Sum(slope[..m]), slope[m], Sum(curvature[..m]), curvature[m], h);
    }
  }

  lemma StepsAdd(v: real, w: real, s: real, t: real, c: real, d: real, h: real)
    ensures Step(v, s, c, h) + Step(w, t, d, h) == Step(v + w, s + t, c + d, h)
  {
  }

  lemma {:induction false} NodeSumIsSum(coords: seq<Vec>, derivs: seq<Vec>, p: nat, c: nat, n: nat)
    requires n <= |coords| == |derivs|
    requires forall k :: 0 <= k < |coords| ==> p < |coords[k]| && c < |derivs[k]|
    ensures NodeSum(coords, derivs, p, c, n) == Sum(Terms(coords, p, Column(derivs, c))[..n])
  {
    if n > 0 {
      NodeSumIsSum(coords, derivs, p, c, n - 1);
      SumSnoc(Terms(coords, p, Column(derivs, c)), n - 1);
    }
  }

  lemma TermsExpand(coords: seq<Vec>, p: nat, after: Vec, value: Vec, slope: Vec, curvature: Vec, h: real)
    requires Expands(after, value, slope, curvature, h)
    requires |coords| == |value| && forall k :: 0 <= k < |coords| ==> p < |coords[k]|
    ensures Expands(Terms(coords, p, after), Terms(coords, p, value), Terms(coords, p, slope), Terms(coords, p, curvature), h)
  {
    hide Times;
    hide Step;
    forall k | 0 <= k < |coords|
      ensures Terms(coords, p, after)[k]
           == Step(Terms(coords, p, value)[k], Terms(coords, p, slope)[k], Terms(coords, p, curvature)[k], h)
    {
      Scaled(value[k], slope[k], curvature[k], h, coords[k][p]);
    }
  }

  /** The mapping Jacobian is the derivative of the interpolated position: a step of h in parent direction c moves
      coordinate p by h times the Jacobian's entry plus h^2 times a term that does not depend on h. */
  lemma JacobianIsDerivative(b: Basis, xi: Vec, coords: seq<Vec>, dim: nat, jac: seq<Vec>, p: nat, c: nat, h: real)
    requires |xi| == ParentDimension(b) && |coords| == NodeCount(b) && Table(coords, dim)
    requires IsMapping(jac, coords, EvalParentDerivatives(b, xi), dim, ParentDimension(b))
    requires p < dim && c < ParentDimension(b)
    ensures Sum(Terms(coords, p, Eval(b, xi[c := xi[c] + h])))
         == Sum(Terms(coords, p, Eval(b, xi))) + h * jac[c][p] + h * h * Sum(Terms(coords, p, CurvatureOf(b, xi, c)))
  {
    hide Eval;
    hide EvalParentDerivatives;
    hide CurvatureOf;
    hide Terms;
    hide NodeSum;
    hide Sum;
    hide Expands;
    var d := EvalParentDerivatives(b, xi);
    var after := Eval(b, xi[c := xi[c] + h]);
    DerivativesAreSlopes(b, xi, c, h);
    SameSizes(after, Eval(b, xi), Column(d, c), CurvatureOf(b, xi, c), h);
    TermsExpand(coords, p, after, Eval(b, xi), Column(d, c), CurvatureOf(b, xi, c), h);
    SumExpands(Terms(coords, p, after), Terms(coords, p, Eval(b, xi)), Terms(coords, p, Column(d, c)),
               Terms(coords, p, CurvatureOf(b, xi, c)), h);
    NodeSumIsSum(coords, d, p, c, |coords|);
    assert Terms(coords, p, Column(d, c))[..|coords|] == Terms(coords, p, Column(d, c));
  }

  lemma SameSizes(after: Vec, value: Vec, slope: Vec, curvature: Vec, h: real)
    requires Expands(after, value, slope, curvature, h)
    ensures |after| == |value| == |slope| == |curvature|
  {
  }

  // ----- nodes

  /** Parent coordinates of the nodes. */
  function ParentNode(b: Basis, i: nat): (r: Vec)
    requires i < NodeCount(b)
    ensures |r| == ParentDimension(b)
  {
    match b
    case LinearEdge => [if i == 0 then -1.0 else 1.0]
    case QuadraticEdge => [if i == 0 then -1.0 else if i == 1 then 1.0 else 0.0]
    case LinearTriangle => [if i == 1 then 1.0 else 0.0, if i == 2 then 1.0 else 0.0]
    case LinearQuad => [if i == 0 || i == 3 then -1.0 else 1.0, if i < 2 then -1.0 else 1.0]
    case QuadraticQuad =>
      [[-1.0, -1.0], [1.0, -1.0], [1.0, 1.0], [-1.0, 1.0], [0.0, -1.0], [1.0, 0.0], [0.0, 1.0], [-1.0, 0.0], [0.0, 0.0]][i]
  }

  /** The basis belongs to its nodes: function k is one at node k and zero at the other nodes. */
  lemma NodalBasis(b: Basis, i: nat, k: nat)
    requires i < NodeCount(b) && k < NodeCount(b)
    ensures Eval(b, ParentNode(b, i))[k] == if k == i then 1.0 else 0.0
  {
    if b == QuadraticQuad {
      NineByTable(Quadratic(ParentNode(b, i)[0]), Quadratic(ParentNode(b, i)[1]), k);
    }
  }

  // ----- elements with affinely placed nodes

  /** Component d of the parent nodes. */
  function NodeColumn(b: Basis, d: nat): (r: Vec)
    requires d < ParentDimension(b)
    ensures |r| == NodeCount(b) && forall k :: 0 <= k < |r| ==> r[k] == ParentNode(b, k)[d]
  {
    seq(NodeCount(b), k requires 0 <= k < NodeCount(b) => ParentNode(b, k)[d])
  }

  function Products(x: Vec, y: Vec): (r: Vec)
    requires |x| == |y|
    ensures |r| == |x| && forall k :: 0 <= k < |r| ==> r[k] == Times(x[k], y[k])
  {
    seq(|x|, k requires 0 <= k < |x| => Times(x[k], y[k]))
  }

  lemma LinearMoment(x: real)
    ensures Sum(Products([-1.0, 1.0], Linear(x))) == x
    ensures Sum(Products([-1.0, 1.0, 0.0], Quadratic(x))) == x
  {
    SumOfTwo(Products([-1.0, 1.0], Linear(x)));
    SumOfThree(Products([-1.0, 1.0, 0.0], Quadratic(x)));
    assert -1.0 * (0.5 * x * (x - 1.0)) + 1.0 * (0.5 * x * (x + 1.0)) == x;
  }

  lemma Associates(a: real, x: real, y: real)
    ensures Times(a, Times(x, y)) == Times(Times(a, x), y) == Times(x, Times(a, y))
  {
  }

  lemma FourMoments(x: Vec, y: Vec)
    requires |x| == |y| == 2
    ensures Products(NodeColumn(LinearQuad, 0), FourProducts(x, y)) == FourProducts(Products([-1.0, 1.0], x), y)
    ensures Products(NodeColumn(LinearQuad, 1), FourProducts(x, y)) == FourProducts(x, Products([-1.0, 1.0], y))
  {
    hide Times;
    var w := [-1.0, 1.0];
    assert NodeColumn(LinearQuad, 0) == [w[0], w[1], w[1], w[0]] && NodeColumn(LinearQuad, 1) == [w[0], w[0], w[1], w[1]];
    forall i, j, k | 0 <= i < 2 && 0 <= j < 2 && 0 <= k < 2
      ensures Times(w[k], Times(x[i], y[j])) == Times(Times(w[k], x[i]), y[j]) == Times(x[i], Times(w[k], y[j]))
    {
      Associates(w[k], x[i], y[j]);
    }
  }

  lemma NineMoment(x: Vec, y: Vec, k: nat)
    requires |x| == |y| == 3 && k < 9
    ensures Products(NodeColumn(QuadraticQuad, 0), NineProducts(x, y))[k]
         == NineProducts(Products([-1.0, 1.0, 0.0], x), y)[k]
    ensures Products(NodeColumn(QuadraticQuad, 1), NineProducts(x, y))[k]
         == NineProducts(x, Products([-1.0, 1.0, 0.0], y))[k]
  {
    hide Times;
    hide NineProducts;
    var w := [-1.0, 1.0, 0.0];
    NineByTable(x, y, k);
    NineByTable(Products(w, x), y, k);
    NineByTable(x, Products(w, y), k);
    var (i, j) := (X_FACTOR_BY_NODE[k], Y_FACTOR_BY_NODE[k]);
    NineColumns(k);
    Associates(w[i], x[i], y[j]);
    Associates(w[j], x[i], y[j]);
  }

  lemma NineColumns(k: nat)
    requires k < 9
    ensures X_FACTOR_BY_NODE[k] < 3 && Y_FACTOR_BY_NODE[k] < 3
    ensures NodeColumn(QuadraticQuad, 0)[k] == [-1.0, 1.0, 0.0][X_FACTOR_BY_NODE[k]]
    ensures NodeColumn(QuadraticQuad, 1)[k] == [-1.0, 1.0, 0.0][Y_FACTOR_BY_NODE[k]]
  {
  }

  lemma NineMoments(x: Vec, y: Vec)
    requires |x| == |y| == 3
    ensures Products(NodeColumn(QuadraticQuad, 0), NineProducts(x, y)) == NineProducts(Products([-1.0, 1.0, 0.0], x), y)
    ensures Products(NodeColumn(QuadraticQuad, 1), NineProducts(x, y)) == NineProducts(x, Products([-1.0, 1.0, 0.0], y))
  {
    hide NineProducts;
    hide Products;
    hide NodeColumn;
    forall k | 0 <= k < 9
      ensures Products(NodeColumn(QuadraticQuad, 0), NineProducts(x, y))[k] == NineProducts(Products([-1.0, 1.0, 0.0], x), y)[k]
      ensures Products(NodeColumn(QuadraticQuad, 1), NineProducts(x, y))[k] == NineProducts(x, Products([-1.0, 1.0, 0.0], y))[k]
    {
      NineMoment(x, y, k);
    }
  }

  lemma FourReproduce(xi: Vec, d: nat)
    requires |xi| == 2 && d < 2
    ensures Sum(Products(NodeColumn(LinearQuad, d), FourProducts(Linear(xi[0]), Linear(xi[1])))) == xi[d]
  {
    hide Products;
    hide NodeColumn;
    hide Sum;
    hide FourProducts;
    LinearMoment(xi[d]);
    FactorSums(xi[1 - d]);
    FourMoments(Linear(xi[0]), Linear(xi[1]));
    if d == 0 {
      SumOfFourProducts(Products([-1.0, 1.0], Linear(xi[0])), Linear(xi[1]));
    } else {
      SumOfFourProducts(Linear(xi[0]), Products([-1.0, 1.0], Linear(xi[1])));
    }
  }

  lemma NineReproduce(xi: Vec, d: nat)
    requires |xi| == 2 && d < 2
    ensures Sum(Products(NodeColumn(QuadraticQuad, d), NineProducts(Quadratic(xi[0]), Quadratic(xi[1])))) == xi[d]
  {
    hide Products;
    hide NodeColumn;
    hide Sum;
    hide NineProducts;
    LinearMoment(xi[d]);
    FactorSums(xi[1 - d]);
    NineMoments(Quadratic(xi[0]), Quadratic(xi[1]));
    if d == 0 {
      SumOfNineProducts(Products([-1.0, 1.0, 0.0], Quadratic(xi[0])), Quadratic(xi[1]));
    } else {
      SumOfNineProducts(Quadratic(xi[0]), Products([-1.0, 1.0, 0.0], Quadratic(xi[1])));
    }
  }

  /** Every basis reproduces its own coordinates: interpolating the parent coordinates of the nodes gives the
      point itself. */
  lemma CoordinatesReproduced(b: Basis, xi: Vec, d: nat)
    requires |xi| == ParentDimension(b) && d < |xi|
    ensures Sum(Products(NodeColumn(b, d), Eval(b, xi))) == xi[d]
  {
    var (n, e) := (NodeColumn(b, d), Eval(b, xi));
    LinearMoment(xi[d]);
    match b
    case LinearEdge => assert n == [-1.0, 1.0];
    case QuadraticEdge => assert n == [-1.0, 1.0, 0.0];
    case LinearTriangle => SumOfThree(Products(n, e));
    case LinearQuad => FourReproduce(xi, d);
    case QuadraticQuad => NineReproduce(xi, d);
  }

  /** Nodes placed at t plus a linear image of the parent nodes: a[d] is the image of parent direction d. */
  ghost predicate PlacedAffinely(b: Basis, coords: seq<Vec>, t: Vec, a: seq<Vec>) {
    && |coords| == NodeCount(b) && Table(coords, |t|) && |a| == ParentDimension(b) && Table(a, |t|)
    && forall k, p :: 0 <= k < |coords| && 0 <= p < |t| ==> coords[k][p] == Placed(t, a, ParentNode(b, k), p)
  }

  /** Component p of the image of a parent point. */
  ghost function Placed(t: Vec, a: seq<Vec>, xi: Vec, p: nat): real
    requires |xi| == |a| && 1 <= |a| <= 2 && Table(a, |t|) && p < |t|
  {
    if |a| == 1 then t[p] + a[0][p] * xi[0] else t[p] + a[0][p] * xi[0] + a[1][p] * xi[1]
  }

  function Weigh(t: real, u: real, v: real, s: real, x: real, y: real): real { t * s + u * x + v * y }

  /** Interpolating an affine combination. */
  lemma {:induction false} SumAffine(coords: seq<Vec>, p: nat, values: Vec, t: real, u: real, x: Vec, v: real, y: Vec)
    requires |coords| == |values| == |x| == |y| && forall k :: 0 <= k < |coords| ==> p < |coords[k]|
    requires forall k :: 0 <= k < |coords| ==> coords[k][p] == Weigh(t, u, v, 1.0, x[k], y[k])
    ensures Sum(Terms(coords, p, values))
         == Weigh(t, u, v, Sum(values), Sum(Products(x, values)), Sum(Products(y, values)))
  {
    hide Weigh;
    hide Times;
    if coords == [] {
      NoWeight(t, u, v);
    } else {
      var m := |coords| - 1;
      SumAffine(coords[..m], p, values[..m], t, u, x[..m], v, y[..m]);
      TermsSnoc(coords, p, values);
      ProductsSnoc(x, values);
      ProductsSnoc(y, values);
      AddWeight(t, u, v, x[m], y[m], values[m], Sum(values[..m]), Sum(Products(x[..m], values[..m])),
                Sum(Products(y[..m], values[..m])));
    }
  }

  lemma NoWeight(t: real, u: real, v: real)
    ensures Weigh(t, u, v, 0.0, 0.0, 0.0) == 0.0
  {
  }

  lemma TermsSnoc(coords: seq<Vec>, p: nat, values: Vec)
    requires |coords| == |values| > 0 && forall k :: 0 <= k < |coords| ==> p < |coords[k]|
    ensures var m := |coords| - 1;
      Sum(Terms(coords, p, values)) == Sum(Terms(coords[..m], p, values[..m])) + Times(coords[m][p], values[m])
  {
    hide Times;
    var m := |coords| - 1;
    assert Terms(coords, p, values)[..m] == Terms(coords[..m], p, values[..m]);
  }

  lemma ProductsSnoc(x: Vec, y: Vec)
    requires |x| == |y| > 0
    ensures var m := |x| - 1; Sum(Products(x, y)) == Sum(Products(x[..m], y[..m])) + Times(x[m], y[m])
  {
    hide Times;
    var m := |x| - 1;
    assert Products(x, y)[..m] == Products(x[..m], y[..m]);
  }

  lemma AddWeight(t: real, u: real, v: real, x: real, y: real, w: real, s: real, sx: real, sy: real)
    ensures Weigh(t, u, v, s, sx, sy) + Times(Weigh(t, u, v, 1.0, x, y), w)
         == Weigh(t, u, v, s + w, sx + Times(x, w), sy + Times(y, w))
  {
  }

  /** With affinely placed nodes, the interpolated position is the image of the point. */
  lemma AffinePosition(b: Basis, xi: Vec, coords: seq<Vec>, t: Vec, a: seq<Vec>, p: nat)
    requires |xi| == ParentDimension(b) && PlacedAffinely(b, coords, t, a) && p < |t|
    ensures Sum(Terms(coords, p, Eval(b, xi))) == Placed(t, a, xi, p)
  {
    hide Eval;
    hide Terms;
    hide Products;
    hide Sum;
    hide ParentNode;
    hide Placed;
    hide Weigh;
    PartitionOfUnity(b, xi);
    CoordinatesReproduced(b, xi, 0);
    CoordinatesReproduced(b, xi, |a| - 1);
    var (x, y) := (NodeColumn(b, 0), NodeColumn(b, |a| - 1));
    var v := if |a| == 1 then 0.0 else a[1][p];
    forall k | 0 <= k < |coords| ensures coords[k][p] == Weigh(t[p], a[0][p], v, 1.0, x[k], y[k]) {
      PlacedIsWeighed(t, a, ParentNode(b, k), p);
    }
    PlacedIsWeighed(t, a, xi, p);
    SumAffine(coords, p, Eval(b, xi), t[p], a[0][p], x, v, y);
  }

  lemma PlacedIsWeighed(t: Vec, a: seq<Vec>, xi: Vec, p: nat)
    requires |xi| == |a| && 1 <= |a| <= 2 && Table(a, |t|) && p < |t|
    ensures Placed(t, a, xi, p)
         == Weigh(t[p], a[0][p], if |a| == 1 then 0.0 else a[1][p], 1.0, xi[0], xi[|a| - 1])
  {
  }

  /** With affinely placed nodes, the mapping Jacobian is the matrix of the placement, at every point. */
  lemma AffineJacobian(b: Basis, xi: Vec, coords: seq<Vec>, t: Vec, a: seq<Vec>, jac: seq<Vec>)
    requires |xi| == ParentDimension(b) && PlacedAffinely(b, coords, t, a)
    requires IsMapping(jac, coords, EvalParentDerivatives(b, xi), |t|, ParentDimension(b))
    ensures jac == a
  {
    hide Eval;
    hide EvalParentDerivatives;
    hide Terms;
    hide CurvatureOf;
    forall c | 0 <= c < |a| ensures jac[c] == a[c] {
      forall p | 0 <= p < |t| ensures jac[c][p] == a[c][p] {
        AffineEntry(b, xi, coords, t, a, jac, p, c);
      }
    }
  }

  lemma AffineEntry(b: Basis, xi: Vec, coords: seq<Vec>, t: Vec, a: seq<Vec>, jac: seq<Vec>, p: nat, c: nat)
    requires |xi| == ParentDimension(b) && PlacedAffinely(b, coords, t, a) && p < |t| && c < |a|
    requires IsMapping(jac, coords, EvalParentDerivatives(b, xi), |t|, ParentDimension(b))
    ensures jac[c][p] == a[c][p]
  {
    hide Eval;
    hide EvalParentDerivatives;
    hide Terms;
    hide CurvatureOf;
    hide PlacedAffinely;
    hide NodeSum;
    hide Sum;
    IsPlaced(b, coords, t, a);
    var (forth, back) := (xi[c := xi[c] + 1.0], xi[c := xi[c] + -1.0]);
    JacobianIsDerivative(b, xi, coords, |t|, jac, p, c, 1.0);
    JacobianIsDerivative(b, xi, coords, |t|, jac, p, c, -1.0);
    AffinePosition(b, xi, coords, t, a, p);
    AffinePosition(b, forth, coords, t, a, p);
    AffinePosition(b, back, coords, t, a, p);
    StepPlaced(t, a, xi, p, c, 1.0);
    StepPlaced(t, a, xi, p, c, -1.0);
  }

  lemma IsPlaced(b: Basis, coords: seq<Vec>, t: Vec, a: seq<Vec>)
    requires PlacedAffinely(b, coords, t, a)
    ensures |coords| == NodeCount(b) && Table(coords, |t|) && |a| == ParentDimension(b) && Table(a, |t|)
  {
  }

  lemma StepPlaced(t: Vec, a: seq<Vec>, xi: Vec, p: nat, c: nat, h: real)
    requires |xi| == |a| && 1 <= |a| <= 2 && Table(a, |t|) && p < |t| && c < |a|
    ensures Placed(t, a, xi[c := xi[c] + h], p) == Placed(t, a, xi, p) + h * a[c][p]
  {
  }

  // ----- gradients of linear functions

  /** The first n vectors, each times its weight, added up. */
  function Weighted(vs: seq<Vec>, w: Vec, dim: nat, n: nat): (r: Vec)
    requires n <= |vs| == |w| && Table(vs, dim)
    ensures |r| == dim
  {
    if n == 0 then seq(dim, _ => 0.0) else Combine(1.0, Weighted(vs, w, dim, n - 1), w[n - 1], vs[n - 1])
  }

  lemma {:induction false} WeightedIsSum(vs: seq<Vec>, w: Vec, dim: nat, q: nat, n: nat)
    requires n <= |vs| == |w| && Table(vs, dim) && q < dim
    ensures Weighted(vs, w, dim, n)[q] == Sum(Terms(vs, q, w)[..n])
  {
    if n > 0 {
      WeightedIsSum(vs, w, dim, q, n - 1);
      SumSnoc(Terms(vs, q, w), n - 1);
    }
  }

  /** Column c of the mapping Jacobian adds up the nodes, each times its derivative. */
  lemma {:induction false} ColumnIsWeighted(coords: seq<Vec>, derivs: seq<Vec>, dim: nat, p: nat, c: nat, n: nat)
    requires n <= |coords| == |derivs| && Table(coords, dim) && p < dim
    requires forall k :: 0 <= k < |derivs| ==> c < |derivs[k]|
    ensures NodeSum(coords, derivs, p, c, n) == Weighted(coords, Column(derivs, c), dim, n)[p]
  {
    if n > 0 { ColumnIsWeighted(coords, derivs, dim, p, c, n - 1); }
  }

  ghost predicate IsTangent(jac: seq<Vec>, v: Vec)
    requires IsJacobian(jac)
  {
    exists coef: Vec :: |coef| == |jac| && v == Span(jac, coef)
  }

  /** Weighted sums of tangent vectors are tangent. */
  lemma {:induction false} WeightedIsTangent(jac: seq<Vec>, out: seq<Vec>, w: Vec, n: nat) returns (coef: Vec)
    requires IsJacobian(jac) && n <= |out| == |w| && Table(out, |jac[0]|)
    requires forall k :: 0 <= k < |out| ==> IsTangent(jac, out[k])
    ensures |coef| == |jac| && Weighted(out, w, |jac[0]|, n) == Span(jac, coef)
  {
    if n == 0 {
      coef := seq(|jac|, _ => 0.0);
    } else {
      var before := WeightedIsTangent(jac, out, w, n - 1);
      assert IsTangent(jac, out[n - 1]);
      var last: Vec :| |last| == |jac| && out[n - 1] == Span(jac, last);
      coef := Combine(1.0, before, w[n - 1], last);
      SpansAdd(jac, before, last, w[n - 1]);
    }
  }

  lemma SpansAdd(jac: seq<Vec>, x: Vec, y: Vec, s: real)
    requires IsJacobian(jac) && |x| == |y| == |jac|
    ensures Combine(1.0, Span(jac, x), s, Span(jac, y)) == Span(jac, Combine(1.0, x, s, y))
  {
    var second := if |jac| == 1 then jac[0] else jac[1];
    var (x1, y1) := (if |jac| == 1 then 0.0 else x[1], if |jac| == 1 then 0.0 else y[1]);
    forall q | 0 <= q < |jac[0]|
      ensures Combine(1.0, Span(jac, x), s, Span(jac, y))[q] == Span(jac, Combine(1.0, x, s, y))[q]
    {
      LinsAdd(x[0], y[0], x1, y1, s, jac[0][q], second[q]);
    }
  }

  lemma LinsAdd(x: real, y: real, x1: real, y1: real, s: real, p: real, q: real)
    ensures Lin(1.0, Lin(x, p, x1, q), s, Lin(y, p, y1, q)) == Lin(Lin(1.0, x, s, y), p, Lin(1.0, x1, s, y1), q)
    ensures Lin(1.0, 0.0, s, 0.0) == 0.0
  {
  }

  /** Summing nodal values against gradients and nodal positions against derivatives gives the same pairing. */
  lemma {:induction false} SamePairing(column: Vec, out: seq<Vec>, u: Vec, g: Vec, coords: seq<Vec>, d: Vec, n: nat)
    requires n <= |out| == |u| == |coords| == |d| && |g| == |column| && Table(out, |g|) && Table(coords, |g|)
    requires forall k :: 0 <= k < |out| ==> Dot(column, out[k]) == d[k] && Dot(g, coords[k]) == u[k]
    ensures Dot(column, Weighted(out, u, |g|, n)) == Dot(g, Weighted(coords, d, |g|, n))
  {
    if n == 0 {
      DotZero(column, Weighted(out, u, |g|, 0));
      DotZero(g, Weighted(coords, d, |g|, 0));
    } else {
      SamePairing(column, out, u, g, coords, d, n - 1);
      DotCombine(column, 1.0, Weighted(out, u, |g|, n - 1), u[n - 1], out[n - 1]);
      DotCombine(g, 1.0, Weighted(coords, d, |g|, n - 1), d[n - 1], coords[n - 1]);
    }
  }

  /** Gradients are exact on linear functions: for every element whose Jacobian has full rank, curved ones too, the
      nodal values of a linear function with tangent gradient g, times the physical gradients, add up to g. */
  lemma LinearFunctionsHaveTheirGradient(coords: seq<Vec>, derivs: seq<Vec>, dim: nat, jac: seq<Vec>, out: seq<Vec>,
                                         g: Vec, u: Vec)
    requires IsJacobian(jac) && |jac[0]| == dim && |coords| == |derivs| == |u| && Table(coords, dim) && Table(derivs, |jac|)
    requires IsMapping(jac, coords, derivs, dim, |jac|) && ArePhysical(jac, derivs, true, out)
    requires |g| == dim && IsTangent(jac, g)
    requires forall k :: 0 <= k < |u| ==> u[k] == Dot(g, coords[k])
    ensures |out| == |u| && Table(out, dim) && forall q :: 0 <= q < dim ==> Sum(Terms(out, q, u)) == g[q]
  {
    var n := |u|;
    hide FullRank;
    hide Dot;
    hide Span;
    hide NodeSum;
    PhysicalParts(jac, derivs, out);
    hide ArePhysical;
    var sum := Weighted(out, u, dim, n);
    var coef := WeightedIsTangent(jac, out, u, n);
    var d := seq(|jac|, c requires 0 <= c < |jac| => Dot(jac[c], g));
    forall c | 0 <= c < |jac| ensures Dot(jac[c], sum) == d[c] {
      PairWithColumn(coords, derivs, dim, jac, out, g, u, c);
    }
    TwoTangents(jac, d, sum, g);
    forall q | 0 <= q < dim ensures Sum(Terms(out, q, u)) == g[q] {
      WeightedIsSum(out, u, dim, q, n);
      assert Terms(out, q, u)[..n] == Terms(out, q, u);
    }
  }

  lemma PhysicalParts(jac: seq<Vec>, derivs: seq<Vec>, out: seq<Vec>)
    requires IsJacobian(jac) && Table(derivs, |jac|) && ArePhysical(jac, derivs, true, out)
    ensures FullRank(jac) && |out| == |derivs| && Table(out, |jac[0]|)
    ensures forall k :: 0 <= k < |out| ==> ChainRule(jac, out[k], derivs[k]) && IsTangent(jac, out[k])
  {
    forall k | 0 <= k < |out|
      ensures |out[k]| == |jac[0]| && ChainRule(jac, out[k], derivs[k]) && IsTangent(jac, out[k])
    {
      assert TangentGradient(jac, derivs[k], out[k]);
    }
  }

  lemma TwoTangents(jac: seq<Vec>, d: Vec, v: Vec, w: Vec)
    requires IsJacobian(jac) && FullRank(jac) && |d| == |jac| && |v| == |w| == |jac[0]|
    requires IsTangent(jac, v) && IsTangent(jac, w)
    requires forall c :: 0 <= c < |jac| ==> Dot(jac[c], v) == d[c] && Dot(jac[c], w) == d[c]
    ensures v == w
  {
    hide Dot;
    hide Span;
    hide FullRank;
    TangentGradientIsUnique(jac, d, v, w);
  }

  lemma PairWithColumn(coords: seq<Vec>, derivs: seq<Vec>, dim: nat, jac: seq<Vec>, out: seq<Vec>, g: Vec, u: Vec, c: nat)
    requires IsJacobian(jac) && |jac[0]| == dim == |g| && |coords| == |derivs| == |u| == |out| && c < |jac|
    requires Table(coords, dim) && Table(derivs, |jac|) && Table(out, dim)
    requires IsMapping(jac, coords, derivs, dim, |jac|)
    requires forall k :: 0 <= k < |out| ==> ChainRule(jac, out[k], derivs[k])
    requires forall k :: 0 <= k < |u| ==> u[k] == Dot(g, coords[k])
    ensures Dot(jac[c], Weighted(out, u, dim, |u|)) == Dot(jac[c], g)
  {
    hide Dot;
    hide NodeSum;
    var (col, n) := (Column(derivs, c), |u|);
    SamePairing(jac[c], out, u, g, coords, col, n);
    assert jac[c] == Weighted(coords, col, dim, n) by {
      hide Weighted;
      forall p | 0 <= p < dim ensures jac[c][p] == Weighted(coords, col, dim, n)[p] {
        ColumnIsWeighted(coords, derivs, dim, p, c, n);
      }
    }
    DotSymmetric(g, jac[c]);
  }
}
