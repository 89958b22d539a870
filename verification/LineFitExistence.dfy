/** Exactly when a straight line can be fitted, as a condition on the prompt lengths alone. */
module LineFitExistence {
  import opened Wrappers
  import opened Vectors
  import opened LinearSolver
  import opened LeastSquares
  import opened TtftModels

  function SumOf(x: seq<int>, k: nat): int
    requires k <= |x|
  {
    if k == 0 then 0 else SumOf(x, k - 1) + x[k-1]
  }

  function SumOfSquares(x: seq<int>, k: nat): int
    requires k <= |x|
  {
    if k == 0 then 0 else SumOfSquares(x, k - 1) + x[k-1] * x[k-1]
  }

  /** n * (sum of squares) - (sum)^2, an integer. */
  function Spread(x: seq<int>, k: nat): int
    requires k <= |x|
  {
    k * SumOfSquares(x, k) - SumOf(x, k) * SumOf(x, k)
  }

  ghost predicate AllEqual(x: seq<int>) {
    forall i, j :: 0 <= i < |x| && 0 <= j < |x| ==> x[i] == x[j]
  }

  /** The larger of the sample count and the absolute sum of the lengths. */
  function Scale(x: seq<int>): int {
    var s := SumOf(x, |x|);
    var a := if s < 0 then -s else s;
    if a > |x| then a else |x|
  }

  // ---------------------------------------------------------------- the spread

  function SquaredDistance(x: seq<int>, v: int, k: nat): int
    requires k <= |x|
  {
    if k == 0 then 0 else SquaredDistance(x, v, k - 1) + (x[k-1] - v) * (x[k-1] - v)
  }

  lemma {:induction false} SquaredDistanceExpands(x: seq<int>, v: int, k: nat)
    requires k <= |x|
    ensures SquaredDistance(x, v, k) == SumOfSquares(x, k) - 2 * v * SumOf(x, k) + k * v * v
  {
    if k != 0 {
      SquaredDistanceExpands(x, v, k - 1);
      ExpandSquare(k, SumOfSquares(x, k - 1), SumOf(x, k - 1), x[k-1], v);
    }
  }

  lemma ExpandSquare(k: int, q: int, s: int, a: int, v: int)
    ensures q - 2 * v * s + (k - 1) * v * v + (a - v) * (a - v) == q + a * a - 2 * v * (s + a) + k * v * v
  {
  }

  lemma ExpandSpread(k: int, q: int, s: int, a: int)
    ensures k * (q + a * a) - (s + a) * (s + a) == (k - 1) * q - s * s + (q - 2 * a * s + (k - 1) * a * a)
  {
  }

  lemma {:induction false} SquaredDistanceSign(x: seq<int>, v: int, k: nat)
    requires k <= |x|
    ensures SquaredDistance(x, v, k) >= 0
    ensures SquaredDistance(x, v, k) == 0 <==> forall i :: 0 <= i < k ==> x[i] == v
  {
    if k != 0 {
      SquaredDistanceSign(x, v, k - 1);
      var d := x[k-1] - v;
      assert d * d >= 0;
      assert d != 0 ==> d * d >= 1;
    }
  }

  /** The spread grows by the squared distances to the new length. */
  lemma SpreadStep(x: seq<int>, k: nat)
    requires 0 < k <= |x|
    ensures Spread(x, k) == Spread(x, k - 1) + SquaredDistance(x, x[k-1], k - 1)
  {
    SquaredDistanceExpands(x, x[k-1], k - 1);
    ExpandSpread(k, SumOfSquares(x, k - 1), SumOf(x, k - 1), x[k-1]);
  }

  /** The spread is never negative, and zero only when all lengths coincide. */
  lemma {:induction false} SpreadSign(x: seq<int>, k: nat)
    requires k <= |x|
    ensures Spread(x, k) >= 0
    ensures Spread(x, k) == 0 <==> AllEqual(x[..k])
  {
    if k != 0 {
      hide Spread;
      SpreadSign(x, k - 1);
      SpreadStep(x, k);
      SquaredDistanceSign(x, x[k-1], k - 1);
      assert x[..k] == x[..k-1] + [x[k-1]];
      if AllEqual(x[..k]) {
        assert forall i :: 0 <= i < k - 1 ==> x[..k][i] == x[..k][k-1];
        assert forall i :: 0 <= i < k - 1 ==> x[..k-1][i] == x[..k][i];
      }
      if Spread(x, k) == 0 {
        assert forall i :: 0 <= i < k ==> x[..k][i] == x[k-1];
      }
    }
  }

  // ---------------------------------------------------------------- two equations

  lemma QuotientBelow(q: real, p: real, d: real)
    requires p > 0.0 && q * p == d
    ensures Abs(q) < PIVOT_MIN <==> Abs(d) < PIVOT_MIN * p
  {
    var a := Abs(q);
    assert Abs(d) == a * p by {
      if q < 0.0 {
        assert (-q) * p == -d;
        var m := Product(-q, p);
        assert m > 0.0;
      } else if q > 0.0 {
        var m := Product(q, p);
        assert m > 0.0;
      }
    }
    if a < PIVOT_MIN {
      var m := Product(PIVOT_MIN - a, p);
      assert m == PIVOT_MIN * p - a * p;
    }
    if a > PIVOT_MIN {
      var m := Product(a - PIVOT_MIN, p);
      assert m == a * p - PIVOT_MIN * p;
    }
  }

  function Larger(a: real, b: real): real {
    if Abs(b) > a then Abs(b) else a
  }

  /** The determinant of [[a, b], [b, c]] is tiny against its larger first-column entry. */
  ghost predicate TooFlat(a: real, b: real, c: real) {
    Abs(a * c - b * b) < PIVOT_MIN * Larger(a, b)
  }

  /** The entry left at the second pivot position, with or without a row swap. */
  function SecondPivot(a: real, b: real, c: real): real
    requires a >= 1.0
  {
    if Abs(b) > a then b - a * (c / b) else c - b * (b / a)
  }

  lemma SecondPivotSize(a: real, b: real, c: real)
    requires a >= 1.0
    ensures Abs(SecondPivot(a, b, c)) < PIVOT_MIN <==> TooFlat(a, b, c)
  {
    var q := SecondPivot(a, b, c);
    if Abs(b) > a {
      assert q * b == b * b - a * c by {
        DivideIsScale(c, b);
        assert a * (c / b) * b == a * (b * (c / b));
      }
      if b > 0.0 {
        QuotientBelow(q, b, b * b - a * c);
      } else {
        assert q * -b == -(q * b);
        QuotientBelow(q, -b, a * c - b * b);
      }
    } else {
      assert q * a == a * c - b * b by {
        DivideIsScale(b, a);
        assert b * (b / a) * a == b * (a * (b / a));
      }
      QuotientBelow(q, a, a * c - b * b);
    }
  }

  lemma FirstStep(aug: Matrix, a: real, b: real, c: real)
    requires Augmented(aug, 2) && aug[0][0] == a && aug[0][1] == b && aug[1][0] == b && aug[1][1] == c
    requires a >= 1.0
    ensures Acceptable(aug, 2, 0)
    ensures Step(aug, 2, 0)[1][1] == SecondPivot(a, b, c)
  {
    assert PivotRow(aug, 2, 0, 1) == 0;
    assert PivotRow(aug, 2, 0, 2) == if Abs(b) > a then 1 else 0;
  }

  lemma SecondStep(r: Matrix)
    requires Augmented(r, 2)
    ensures Reduce(r, 2, 1).None? <==> Abs(r[1][1]) < PIVOT_MIN
  {
    hide Step;
    assert PivotRow(r, 2, 1, 2) == 1;
    if Acceptable(r, 2, 1) {
      assert Reduce(Step(r, 2, 1), 2, 2).Some?;
    }
  }

  lemma TwoEquations(g: Matrix, v: Vec)
    requires Square(g, 2) && |v| == 2 && g[0][1] == g[1][0] && g[0][0] >= 1.0
    ensures Solution(g, v).None? <==> TooFlat(g[0][0], g[0][1], g[1][1])
  {
    hide Step, TooFlat, SecondPivot, Acceptable;
    var aug := Augment(g, v);
    FirstStep(aug, g[0][0], g[0][1], g[1][1]);
    SecondPivotSize(g[0][0], g[0][1], g[1][1]);
    SecondStep(Step(aug, 2, 0));
    assert Reduce(aug, 2, 0) == Reduce(Step(aug, 2, 0), 2, 1);
  }

  // ---------------------------------------------------------------- the line

  lemma {:induction false} LineSums(x: seq<int>, k: nat)
    requires k <= |x|
    ensures
      var f := LineFeatures(x);
      var ones, lengths := Column(f, 0), Column(f, 1);
      && Dot(ones, ones, k) == k as real
      && Dot(ones, lengths, k) == SumOf(x, k) as real
      && Dot(lengths, ones, k) == SumOf(x, k) as real
      && Dot(lengths, lengths, k) == SumOfSquares(x, k) as real
  {
    if k != 0 {
      LineSums(x, k - 1);
      var v := x[k-1];
      assert (v * v) as real == (v as real) * (v as real);
    }
  }

  lemma LineGram(x: seq<int>)
    ensures
      var g, n := Gram(LineFeatures(x), 2), |x|;
      && g[0][0] == n as real && g[0][1] == g[1][0] == SumOf(x, n) as real
      && g[1][1] == SumOfSquares(x, n) as real
  {
    LineSums(x, |x|);
    hide Dot;
    GramRow(LineFeatures(x), 2, 0);
    GramRow(LineFeatures(x), 2, 1);
  }

  lemma SpreadAsReal(x: seq<int>, k: nat)
    requires k <= |x|
    ensures Spread(x, k) as real ==
      (k as real) * (SumOfSquares(x, k) as real) - (SumOf(x, k) as real) * (SumOf(x, k) as real)
  {
    var q, s := SumOfSquares(x, k), SumOf(x, k);
    assert (k * q) as real == (k as real) * (q as real);
    assert (s * s) as real == (s as real) * (s as real);
  }

  lemma FlatMeansSpread(x: seq<int>)
    ensures
      TooFlat(|x| as real, SumOf(x, |x|) as real, SumOfSquares(x, |x|) as real) <==>
        Spread(x, |x|) as real < PIVOT_MIN * (Scale(x) as real)
  {
    hide Spread, SumOf, SumOfSquares, Larger, Scale, TooFlat, AllEqual;
    SpreadSign(x, |x|);
    SpreadAsReal(x, |x|);
    LargerIsScale(x);
    TooFlatFrom(|x| as real, SumOf(x, |x|) as real, SumOfSquares(x, |x|) as real, Spread(x, |x|) as real);
  }

  lemma TooFlatFrom(a: real, b: real, c: real, d: real)
    requires d == a * c - b * b && d >= 0.0
    ensures TooFlat(a, b, c) <==> d < PIVOT_MIN * Larger(a, b)
  {
  }

  lemma LargerIsScale(x: seq<int>)
    ensures Larger(|x| as real, SumOf(x, |x|) as real) == Scale(x) as real
  {
    hide SumOf;
  }

  /** A line is fitted to two or more points unless the spread of the lengths is tiny against their scale. */
  lemma LineFitsIffSpread(x: seq<int>, y: Vec)
    requires |x| == |y| >= 2
    ensures Coefficients(LineFeatures(x), y).None? <==> Spread(x, |x|) as real < PIVOT_MIN * (Scale(x) as real)
  {
    hide Dot, Solution, Gram, Spread, SumOf, SumOfSquares, TooFlat, Scale;
    LineGram(x);
    TwoEquations(Gram(LineFeatures(x), 2), Projections(LineFeatures(x), y, 2));
    FlatMeansSpread(x);
  }

  /** Equal lengths are always rejected; different lengths are accepted up to a scale of 10^12. */
  lemma LineFitsForDifferentLengths(x: seq<int>, y: Vec)
    requires |x| == |y| >= 2
    ensures AllEqual(x) ==> Coefficients(LineFeatures(x), y).None?
    ensures !AllEqual(x) && Scale(x) <= 1000000000000 ==> Coefficients(LineFeatures(x), y).Some?
  {
    LineFitsIffSpread(x, y);
    SpreadSign(x, |x|);
    assert x[..|x|] == x;
    hide Spread, SumOf;
    var s := Scale(x) as real;
    assert PIVOT_MIN * 1000000000000.0 == 1.0;
  }

  // ---------------------------------------------------------------- a line that is not fitted

  /** Two successful requests whose prompt lengths differ by one token. */
  function FarApartRows(t0: real, t1: real): seq<Row> {
    [Row(10000000000000, t0, true), Row(10000000000001, t1, true)]
  }

  lemma PointsOfTwo(a: Row, b: Row)
    requires a.success && b.success
    ensures Points([a, b]) == [a, b]
  {
    assert [a, b][..1] == [a] && [a][..0] == [];
    assert [a, b][1..] == [b] && [b][1..] == [];
  }

  /** Different lengths have a unique least-squares line, yet none is returned for lengths 10^13 and 10^13 + 1. */
  lemma ThresholdLosesALine(t0: real, t1: real)
    ensures
      var points := Points(FarApartRows(t0, t1));
      var x, y := Lengths(points), Times(points);
      && x == [10000000000000, 10000000000001]
      && Coefficients(LineFeatures(x), y).None?
      && forall z: Vec :: |z| == 2 && InKernel(Gram(LineFeatures(x), 2), z) ==> !NonZero(z)
  {
    var rows := FarApartRows(t0, t1);
    PointsOfTwo(rows[0], rows[1]);
    var x, y := Lengths(rows), Times(rows);
    hide Spread;
    LineFitsIffSpread(x, y);
    assert x == [10000000000000, 10000000000001];
    SumsOfTwo(x);
    assert Scale(x) == 20000000000001;
    assert PIVOT_MIN * 20000000000001.0 > 1.0;
    forall z: Vec | |z| == 2 && InKernel(Gram(LineFeatures(x), 2), z) ensures !NonZero(z) {
      LineColumnsIndependent(x, z);
    }
  }

  lemma SumsOfTwo(x: seq<int>)
    requires |x| == 2
    ensures SumOf(x, 2) == x[0] + x[1]
    ensures Spread(x, 2) == (x[0] - x[1]) * (x[0] - x[1])
  {
    assert SumOf(x, 0) == 0 && SumOf(x, 1) == x[0];
    assert SumOfSquares(x, 0) == 0 && SumOfSquares(x, 1) == x[0] * x[0];
    ExpandDifference(x[0], x[1]);
  }

  lemma ExpandDifference(a: int, b: int)
    ensures 2 * (a * a + b * b) - (a + b) * (a + b) == (a - b) * (a - b)
  {
  }

  lemma LineColumnsIndependent(x: seq<int>, z: Vec)
    requires |x| >= 2 && x[0] != x[1] && |z| == 2 && InKernel(Gram(LineFeatures(x), 2), z)
    ensures !NonZero(z)
  {
    hide Dot, Gram, InKernel, FittedTo;
    GramKernel(LineFeatures(x), z);
    LineValue(x, z, 0);
    LineValue(x, z, 1);
    var d := (x[0] as real) - (x[1] as real);
    assert d * z[1] == 0.0;
    NoZeroDivisor(d, z[1]);
  }
}
