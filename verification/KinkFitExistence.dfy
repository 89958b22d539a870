/** Exactly when a kinked line can be fitted at a breakpoint, as a condition on the prompt lengths alone. */
module KinkFitExistence {
  import opened Wrappers
  import opened Vectors
  import opened LinearSolver
  import opened LeastSquares
  import opened TtftModels
  import opened LineFitExistence

  // ---------------------------------------------------------------- three equations

  /** The minor of columns 0 and 1 in the rows p and row. */
  function Minor(p: Vec, row: Vec): real
    requires |p| >= 3 && |row| >= 3
  {
    ClearedProduct(p[0], p[1], row[0], row[1])
  }

  function OuterMinor(p: Vec, row: Vec): real
    requires |p| >= 3 && |row| >= 3
  {
    ClearedProduct(p[0], p[2], row[0], row[2])
  }

  function Determinant(a: Vec, b: Vec, c: Vec): real
    requires |a| >= 3 && |b| >= 3 && |c| >= 3
  {
    a[0] * (b[1] * c[2] - b[2] * c[1]) - a[1] * (b[0] * c[2] - b[2] * c[0]) + a[2] * (b[0] * c[1] - b[1] * c[0])
  }

  /** e is m over p. */
  ghost predicate IsQuotient(e: real, p: real, m: real) {
    p != 0.0 && e * p == m
  }

  lemma AbsQuotient(e: real, p: real, m: real)
    requires IsQuotient(e, p, m)
    ensures Abs(e) < PIVOT_MIN <==> Abs(m) < PIVOT_MIN * Abs(p)
  {
    if p > 0.0 {
      QuotientBelow(e, p, m);
    } else {
      assert e * -p == -m;
      QuotientBelow(e, -p, -m);
    }
  }

  lemma AbsTimes(e: real, p: real)
    ensures Abs(e * p) == Abs(e) * Abs(p)
  {
    if e < 0.0 && p > 0.0 {
      assert Product(-e, p) == -(e * p);
    } else if e > 0.0 && p < 0.0 {
      assert Product(e, -p) == -(e * p);
    } else if e > 0.0 && p > 0.0 {
      assert Product(e, p) == e * p;
    } else if e < 0.0 && p < 0.0 {
      assert Product(-e, -p) == e * p;
    }
  }

  /** What clearing leaves of the entry rj, below the pivot entry p0 and beside r0. */
  function ClearedValue(p0: real, pj: real, r0: real, rj: real): real
    requires p0 != 0.0
  {
    rj - r0 * (pj / p0)
  }

  lemma StepEntry(aug: Matrix, n: nat, col: nat, i: nat, j: nat)
    requires Augmented(aug, n) && col < i < n && Acceptable(aug, n, col) && col <= j <= n
    ensures
      var p := PivotRow(aug, n, col, n);
      var row := Swapped(aug, col, p)[i];
      && |row| == n + 1 && aug[p][col] != 0.0
      && Step(aug, n, col)[i][j] == ClearedValue(aug[p][col], aug[p][j], row[col], row[j])
  {
    var p := PivotRow(aug, n, col, n);
    var s := Swapped(aug, col, p);
    assert s[col] == aug[p];
    var pivotRow := ScaledRow(s[col], col, s[col][col]);
    assert Step(aug, n, col)[i] == ClearedRow(s[i], pivotRow, col);
    hide Step, Swapped, Acceptable, ClearedValue;
    RowEntry(s[col], s[i], col, j);
  }

  lemma RowEntry(pivot: Vec, row: Vec, col: nat, j: nat)
    requires |pivot| == |row| && col < |row| && col <= j < |row| && pivot[col] != 0.0
    ensures ClearedRow(row, ScaledRow(pivot, col, pivot[col]), col)[j]
      == ClearedValue(pivot[col], pivot[j], row[col], row[j])
  {
  }

  function ClearedProduct(p0: real, pj: real, r0: real, rj: real): real {
    rj * p0 - r0 * pj
  }

  lemma ClearedTimes(p0: real, pj: real, r0: real, rj: real)
    requires p0 != 0.0
    ensures IsQuotient(ClearedValue(p0, pj, r0, rj), p0, ClearedProduct(p0, pj, r0, rj))
  {
    DivideIsScale(pj, p0);
    assert r0 * (pj / p0) * p0 == r0 * (p0 * (pj / p0));
  }

  /** The entries the first step leaves behind, times the pivot, are minors of the original rows. */
  lemma FirstStepEntries(aug: Matrix, i: nat)
    requires Augmented(aug, 3) && Acceptable(aug, 3, 0) && 1 <= i < 3
    ensures
      var p := PivotRow(aug, 3, 0, 3);
      var row, r := Swapped(aug, 0, p)[i], Step(aug, 3, 0)[i];
      && |row| == 4 && aug[p][0] != 0.0
      && IsQuotient(r[1], aug[p][0], Minor(aug[p], row)) && IsQuotient(r[2], aug[p][0], OuterMinor(aug[p], row))
  {
    hide Step, Swapped, ClearedValue, Acceptable, ClearedProduct, IsQuotient;
    var p := PivotRow(aug, 3, 0, 3);
    StepEntry(aug, 3, 0, i, 1);
    StepEntry(aug, 3, 0, i, 2);
    var pivot, row := aug[p], Swapped(aug, 0, p)[i];
    ClearedTimes(pivot[0], pivot[1], row[0], row[1]);
    ClearedTimes(pivot[0], pivot[2], row[0], row[2]);
  }

  /** The row that is left for the third pivot. */
  function OtherRow(r: Matrix, q: nat): Vec
    requires |r| == 3
  {
    if q == 1 then r[2] else r[1]
  }

  lemma SwappedOther(r: Matrix, q: nat)
    requires |r| == 3 && 1 <= q < 3
    ensures Swapped(r, 1, q)[2] == OtherRow(r, q)
  {
  }

  lemma SecondStepEntry(r: Matrix)
    requires Augmented(r, 3) && Acceptable(r, 3, 1)
    ensures
      var q := PivotRow(r, 3, 1, 3);
      var rest := OtherRow(r, q);
      IsQuotient(Step(r, 3, 1)[2][2], r[q][1], ClearedProduct(r[q][1], r[q][2], rest[1], rest[2]))
  {
    hide Step, Swapped, ClearedValue, Acceptable, ClearedProduct, IsQuotient;
    var q := PivotRow(r, 3, 1, 3);
    StepEntry(r, 3, 1, 2, 2);
    SwappedOther(r, q);
    ClearedTimes(r[q][1], r[q][2], OtherRow(r, q)[1], OtherRow(r, q)[2]);
  }

  lemma MinorsOfMinors(p: Vec, q: Vec, r: Vec)
    requires |p| >= 3 && |q| >= 3 && |r| >= 3
    ensures OuterMinor(p, r) * Minor(p, q) - Minor(p, r) * OuterMinor(p, q) == p[0] * Determinant(p, q, r)
  {
  }

  /** The third pivot is the determinant over the second minor. */
  lemma ThirdPivot(t: real, p: Vec, q: Vec, r: Vec, q1: real, q2: real, r1: real, r2: real)
    requires |p| >= 3 && |q| >= 3 && |r| >= 3
    requires IsQuotient(q1, p[0], Minor(p, q)) && IsQuotient(q2, p[0], OuterMinor(p, q))
    requires IsQuotient(r1, p[0], Minor(p, r)) && IsQuotient(r2, p[0], OuterMinor(p, r))
    requires IsQuotient(t, q1, ClearedProduct(q1, q2, r1, r2))
    ensures IsQuotient(t, Minor(p, q), Determinant(p, q, r))
  {
    hide Minor, OuterMinor, Determinant;
    var p0, d := p[0], Determinant(p, q, r);
    var mq, oq, mr, or := Minor(p, q), OuterMinor(p, q), Minor(p, r), OuterMinor(p, r);
    MinorsOfMinors(p, q, r);
    ScaleTwice(t, q1, q2, r1, r2, p0);
    assert t * mq * p0 == or * mq - mr * oq == p0 * d;
    Cancel(p0, t * mq, d);
    NoZeroDivisor(p0, q1);
  }

  lemma ScaleTwice(t: real, q1: real, q2: real, r1: real, r2: real, p0: real)
    requires t * q1 == r2 * q1 - r1 * q2
    ensures t * (q1 * p0) * p0 == (r2 * p0) * (q1 * p0) - (r1 * p0) * (q2 * p0)
  {
    assert t * (q1 * p0) * p0 == (t * q1) * (p0 * p0);
    assert (r2 * p0) * (q1 * p0) == (r2 * q1) * (p0 * p0);
    assert (r1 * p0) * (q2 * p0) == (r1 * q2) * (p0 * p0);
  }

  lemma Cancel(p: real, a: real, b: real)
    requires p != 0.0 && a * p == p * b
    ensures a == b
  {
    assert p * (a - b) == 0.0;
    NoZeroDivisor(p, a - b);
  }

  /** Rows in the order in which elimination takes them as pivot rows. */
  ghost predicate PivotOrder(aug: Matrix, p: Vec, q: Vec, r: Vec)
    requires Augmented(aug, 3) && |p| == |q| == |r| == 4
  {
    var first := PivotRow(aug, 3, 0, 3);
    var s := Swapped(aug, 0, first);
    && p == aug[first]
    && (if Abs(Minor(p, s[2])) > Abs(Minor(p, s[1])) then q == s[2] && r == s[1] else q == s[1] && r == s[2])
  }

  lemma PivotOrderExists(aug: Matrix) returns (p: Vec, q: Vec, r: Vec)
    requires Augmented(aug, 3)
    ensures |p| == |q| == |r| == 4 && PivotOrder(aug, p, q, r)
  {
    var first := PivotRow(aug, 3, 0, 3);
    var s := Swapped(aug, 0, first);
    p := aug[first];
    if Abs(Minor(p, s[2])) > Abs(Minor(p, s[1])) {
      q, r := s[2], s[1];
    } else {
      q, r := s[1], s[2];
    }
  }

  /** Which row the second column's pivot is taken from, in terms of the minors. */
  lemma SecondPivotRow(aug: Matrix, p: Vec, q: Vec, r: Vec)
    requires Augmented(aug, 3) && |p| == |q| == |r| == 4 && PivotOrder(aug, p, q, r) && Acceptable(aug, 3, 0)
    ensures
      var r1 := Step(aug, 3, 0);
      var k := PivotRow(r1, 3, 1, 3);
      && IsQuotient(r1[k][1], p[0], Minor(p, q)) && IsQuotient(r1[k][2], p[0], OuterMinor(p, q))
      && IsQuotient(OtherRow(r1, k)[1], p[0], Minor(p, r)) && IsQuotient(OtherRow(r1, k)[2], p[0], OuterMinor(p, r))
  {
    hide Minor, OuterMinor, Step, Acceptable, Swapped, IsQuotient;
    var r1 := Step(aug, 3, 0);
    FirstStepEntries(aug, 1);
    FirstStepEntries(aug, 2);
    assert PivotRow(r1, 3, 1, 3) == if Abs(r1[2][1]) > Abs(r1[1][1]) then 2 else 1 by {
      assert PivotRow(r1, 3, 1, 2) == 1;
    }
    hide PivotRow;
    var s := Swapped(aug, 0, PivotRow(aug, 3, 0, 3));
    CompareScaled(r1[1][1], r1[2][1], p[0], Minor(p, s[1]), Minor(p, s[2]));
  }

  lemma CompareScaled(e: real, f: real, p: real, m: real, n: real)
    requires IsQuotient(e, p, m) && IsQuotient(f, p, n)
    ensures Abs(f) > Abs(e) <==> Abs(n) > Abs(m)
  {
    hide IsQuotient, Product, Abs;
    AbsOfQuotient(e, p, m);
    AbsOfQuotient(f, p, n);
    CompareTimes(Abs(e), Abs(f), Abs(p));
  }

  lemma AbsOfQuotient(e: real, p: real, m: real)
    requires IsQuotient(e, p, m)
    ensures Abs(p) > 0.0 && Abs(m) == Product(Abs(e), Abs(p))
  {
    AbsTimes(e, p);
  }

  lemma CompareTimes(a: real, b: real, t: real)
    requires t > 0.0
    ensures b > a <==> Product(b, t) > Product(a, t)
  {
    if b > a {
      TimesLarger(a, b, t);
    } else if a > b {
      TimesLarger(b, a, t);
    }
  }

  lemma TimesLarger(a: real, b: real, t: real)
    requires t > 0.0 && b > a
    ensures Product(b, t) > Product(a, t)
  {
    assert Product(b - a, t) > 0.0;
    assert b * t == (b - a) * t + a * t;
  }

  /** Elimination of three equations fails exactly when one of its three pivots is too small. */
  lemma ThreeEquations(aug: Matrix, p: Vec, q: Vec, r: Vec)
    requires Augmented(aug, 3) && |p| == |q| == |r| == 4 && PivotOrder(aug, p, q, r)
    requires Abs(p[0]) >= PIVOT_MIN
    ensures GivesUpAt(aug, 3, 1) <==> Abs(Minor(p, q)) < PIVOT_MIN * Abs(p[0])
    ensures GivesUpAt(aug, 3, 2) <==>
      Abs(Minor(p, q)) >= PIVOT_MIN * Abs(p[0]) && Abs(Determinant(p, q, r)) < PIVOT_MIN * Abs(Minor(p, q))
    ensures !GivesUpAt(aug, 3, 0)
    ensures Steps(aug, 3, 1) == Some(Step(aug, 3, 0))
    ensures !GivesUpAt(aug, 3, 1) ==> Steps(aug, 3, 2) == Some(Step(Step(aug, 3, 0), 3, 1))
    ensures !GivesUpAt(aug, 3, 1) ==>
      IsQuotient(Step(Step(aug, 3, 0), 3, 1)[2][2], Minor(p, q), Determinant(p, q, r))
  {
    hide Minor, OuterMinor, Determinant, Step, Swapped, IsQuotient, ClearedProduct;
    assert Acceptable(aug, 3, 0);
    assert Steps(aug, 3, 0) == Some(aug);
    var r1 := Step(aug, 3, 0);
    SecondPivotRow(aug, p, q, r);
    var k := PivotRow(r1, 3, 1, 3);
    AbsQuotient(r1[k][1], p[0], Minor(p, q));
    assert Steps(aug, 3, 1) == Some(r1);
    if Acceptable(r1, 3, 1) {
      var r2 := Step(r1, 3, 1);
      SecondStepEntry(r1);
      ThirdPivot(r2[2][2], p, q, r, r1[k][1], r1[k][2], OtherRow(r1, k)[1], OtherRow(r1, k)[2]);
      AbsQuotient(r2[2][2], Minor(p, q), Determinant(p, q, r));
      assert PivotRow(r2, 3, 2, 3) == 2;
      assert Steps(aug, 3, 2) == Some(r2);
    }
  }

  // ---------------------------------------------------------------- the kinked line's normal matrix

  function Over(v: int, breakpoint: int): int {
    if v > breakpoint then v - breakpoint else 0
  }

  function OverSum(x: seq<int>, b: int, k: nat): int
    requires k <= |x|
  {
    if k == 0 then 0 else OverSum(x, b, k - 1) + Over(x[k-1], b)
  }

  function OverProducts(x: seq<int>, b: int, k: nat): int
    requires k <= |x|
  {
    if k == 0 then 0 else OverProducts(x, b, k - 1) + x[k-1] * Over(x[k-1], b)
  }

  function OverSquares(x: seq<int>, b: int, k: nat): int
    requires k <= |x|
  {
    if k == 0 then 0 else OverSquares(x, b, k - 1) + Over(x[k-1], b) * Over(x[k-1], b)
  }

  /** Row i of the normal matrix of the features 1, length and length over the breakpoint: integers. */
  function NormalRow(x: seq<int>, b: int, i: nat): (row: seq<int>)
    ensures |row| == 3
  {
    var n := |x|;
    if i == 0 then [n, SumOf(x, n), OverSum(x, b, n)]
    else if i == 1 then [SumOf(x, n), SumOfSquares(x, n), OverProducts(x, b, n)]
    else [OverSum(x, b, n), OverProducts(x, b, n), OverSquares(x, b, n)]
  }

  function AbsInt(a: int): nat {
    if a < 0 then -a else a
  }

  function RowMinor(p: seq<int>, row: seq<int>): int
    requires |p| == |row| == 3
  {
    row[1] * p[0] - row[0] * p[1]
  }

  function RowDeterminant(a: seq<int>, b: seq<int>, c: seq<int>): int
    requires |a| == |b| == |c| == 3
  {
    a[0] * (b[1] * c[2] - b[2] * c[1]) - a[1] * (b[0] * c[2] - b[2] * c[0]) + a[2] * (b[0] * c[1] - b[1] * c[0])
  }

  datatype PivotRows = PivotRows(first: seq<int>, second: seq<int>, third: seq<int>)

  /** The row of the first pivot: the first of those with the largest entry in the first column. */
  function FirstRow(x: seq<int>, b: int): (i: nat)
    ensures i < 3
    ensures AbsInt(NormalRow(x, b, i)[0]) >= |x|
  {
    var c0, c1, c2 := AbsInt(NormalRow(x, b, 0)[0]), AbsInt(NormalRow(x, b, 1)[0]), AbsInt(NormalRow(x, b, 2)[0]);
    var i := if c1 > c0 then 1 else 0;
    if c2 > (if c1 > c0 then c1 else c0) then 2 else i
  }

  /** The rows in the order in which elimination takes its pivots from them. */
  function RowsInOrder(x: seq<int>, b: int): (o: PivotRows)
    ensures |o.first| == |o.second| == |o.third| == 3
  {
    var i := FirstRow(x, b);
    var p := NormalRow(x, b, i);
    var s1, s2 := NormalRow(x, b, if i == 1 then 0 else 1), NormalRow(x, b, if i == 2 then 0 else 2);
    if AbsInt(RowMinor(p, s2)) > AbsInt(RowMinor(p, s1)) then PivotRows(p, s2, s1) else PivotRows(p, s1, s2)
  }

  ghost predicate Agrees(v: Vec, row: seq<int>) {
    |v| == 4 && |row| == 3 && forall j :: 0 <= j < 3 ==> v[j] == row[j] as real
  }

  lemma RealDifference(a: int, b: int, c: int, d: int)
    ensures (a * b - c * d) as real == (a as real) * (b as real) - (c as real) * (d as real)
  {
    assert (a * b) as real == (a as real) * (b as real);
    assert (c * d) as real == (c as real) * (d as real);
  }

  lemma RealProduct(a: int, b: int)
    ensures (a * b) as real == (a as real) * (b as real)
  {
  }

  lemma MinorAgrees(p: Vec, v: Vec, first: seq<int>, row: seq<int>)
    requires Agrees(p, first) && Agrees(v, row)
    ensures Minor(p, v) == RowMinor(first, row) as real
    ensures Abs(Minor(p, v)) == AbsInt(RowMinor(first, row)) as real
  {
    RealDifference(row[1], first[0], row[0], first[1]);
  }

  lemma DeterminantAgrees(a: Vec, b: Vec, c: Vec, ra: seq<int>, rb: seq<int>, rc: seq<int>)
    requires Agrees(a, ra) && Agrees(b, rb) && Agrees(c, rc)
    ensures Abs(Determinant(a, b, c)) == AbsInt(RowDeterminant(ra, rb, rc)) as real
  {
    var m0, m1, m2 := rb[1] * rc[2] - rb[2] * rc[1], rb[0] * rc[2] - rb[2] * rc[0], rb[0] * rc[1] - rb[1] * rc[0];
    RealDifference(rb[1], rc[2], rb[2], rc[1]);
    RealDifference(rb[0], rc[2], rb[2], rc[0]);
    RealDifference(rb[0], rc[1], rb[1], rc[0]);
    RealProduct(ra[0], m0);
    RealProduct(ra[1], m1);
    RealProduct(ra[2], m2);
    assert Determinant(a, b, c) == a[0] * (m0 as real) - a[1] * (m1 as real) + a[2] * (m2 as real);
    assert RowDeterminant(ra, rb, rc) == ra[0] * m0 - ra[1] * m1 + ra[2] * m2;
  }

  // ---------------------------------------------------------------- the sums behind it

  /** Inner products of integer columns are integer sums. */
  ghost predicate IntColumn(v: Vec, a: seq<int>) {
    |v| == |a| && forall s :: 0 <= s < |a| ==> v[s] == a[s] as real
  }

  function IntDot(a: seq<int>, b: seq<int>, k: nat): int
    requires k <= |a| && k <= |b|
  {
    if k == 0 then 0 else IntDot(a, b, k - 1) + a[k-1] * b[k-1]
  }

  lemma {:induction false} IntDotAgrees(v: Vec, w: Vec, a: seq<int>, b: seq<int>, k: nat)
    requires IntColumn(v, a) && IntColumn(w, b) && k <= |a| == |b|
    ensures Dot(v, w, k) == IntDot(a, b, k) as real
  {
    if k != 0 {
      IntDotAgrees(v, w, a, b, k - 1);
      RealProduct(a[k-1], b[k-1]);
    }
  }

  function Ones(n: nat): (a: seq<int>)
    ensures |a| == n
  {
    seq(n, _ => 1)
  }

  function Overs(x: seq<int>, b: int): (a: seq<int>)
    ensures |a| == |x|
  {
    seq(|x|, s requires 0 <= s < |x| => Over(x[s], b))
  }

  lemma {:induction false} SumsAreProducts(x: seq<int>, b: int, k: nat)
    requires k <= |x|
    ensures
      var ones, overs := Ones(|x|), Overs(x, b);
      && IntDot(ones, ones, k) == k
      && IntDot(ones, x, k) == IntDot(x, ones, k) == SumOf(x, k)
      && IntDot(x, x, k) == SumOfSquares(x, k)
      && IntDot(ones, overs, k) == IntDot(overs, ones, k) == OverSum(x, b, k)
      && IntDot(x, overs, k) == IntDot(overs, x, k) == OverProducts(x, b, k)
      && IntDot(overs, overs, k) == OverSquares(x, b, k)
  {
    if k != 0 {
      SumsAreProducts(x, b, k - 1);
      hide Over;
    }
  }

  lemma KinkColumns(x: seq<int>, b: int)
    ensures
      var f := KinkFeatures(x, b);
      IntColumn(Column(f, 0), Ones(|x|)) && IntColumn(Column(f, 1), x) && IntColumn(Column(f, 2), Overs(x, b))
  {
    forall s: nat | s < |x|
      ensures Column(KinkFeatures(x, b), 0)[s] == 1.0
      ensures Column(KinkFeatures(x, b), 1)[s] == x[s] as real
      ensures Column(KinkFeatures(x, b), 2)[s] == Over(x[s], b) as real
    {
      KinkEntries(x, b, s);
    }
  }

  /** The i-th integer column. */
  function IntFeature(x: seq<int>, b: int, i: nat): (a: seq<int>)
    ensures |a| == |x|
  {
    if i == 0 then Ones(|x|) else if i == 1 then x else Overs(x, b)
  }

  lemma NormalEntry(x: seq<int>, b: int, i: nat, j: nat)
    requires i < 3 && j < 3
    ensures IntDot(IntFeature(x, b, i), IntFeature(x, b, j), |x|) == NormalRow(x, b, i)[j]
  {
    hide IntDot, Ones, Overs, SumOf, SumOfSquares, OverSum, OverProducts, OverSquares;
    SumsAreProducts(x, b, |x|);
    assert i == 0 || i == 1 || i == 2;
    assert j == 0 || j == 1 || j == 2;
  }

  lemma FeatureColumn(x: seq<int>, b: int, i: nat)
    requires i < 3
    ensures IntColumn(Column(KinkFeatures(x, b), i), IntFeature(x, b, i))
  {
    KinkColumns(x, b);
    hide Column, KinkFeatures, Ones, Overs, IntColumn;
  }

  lemma KinkDot(x: seq<int>, b: int, i: nat, j: nat)
    requires i < 3 && j < 3
    ensures Dot(Column(KinkFeatures(x, b), i), Column(KinkFeatures(x, b), j), |x|) == NormalRow(x, b, i)[j] as real
  {
    hide Dot, Column, KinkFeatures, IntColumn, IntDot, NormalRow, IntFeature;
    FeatureColumn(x, b, i);
    FeatureColumn(x, b, j);
    NormalEntry(x, b, i, j);
    IntDotAgrees(Column(KinkFeatures(x, b), i), Column(KinkFeatures(x, b), j),
                 IntFeature(x, b, i), IntFeature(x, b, j), |x|);
  }

  lemma KinkEntries(x: seq<int>, b: int, s: nat)
    requires s < |x|
    ensures
      var f := KinkFeatures(x, b);
      Column(f, 0)[s] == 1.0 && Column(f, 1)[s] == x[s] as real && Column(f, 2)[s] == Over(x[s], b) as real
  {
  }

  lemma KinkGram(x: seq<int>, b: int, i: nat)
    requires i < 3
    ensures
      var g := Gram(KinkFeatures(x, b), 3);
      g[i][0] == NormalRow(x, b, i)[0] as real && g[i][1] == NormalRow(x, b, i)[1] as real
      && g[i][2] == NormalRow(x, b, i)[2] as real
  {
    hide Dot, KinkFeatures, NormalRow;
    KinkDot(x, b, i, 0);
    KinkDot(x, b, i, 1);
    KinkDot(x, b, i, 2);
    GramRow(KinkFeatures(x, b), 3, i);
  }

  /** The augmented normal equations of the kink, row by row. */
  function KinkSystem(x: seq<int>, y: Vec, b: int): (aug: Matrix)
    requires |x| == |y|
    ensures Augmented(aug, 3)
  {
    Augment(Gram(KinkFeatures(x, b), 3), Projections(KinkFeatures(x, b), y, 3))
  }

  lemma KinkSystemAgrees(x: seq<int>, y: Vec, b: int, i: nat)
    requires |x| == |y| && i < 3
    ensures Agrees(KinkSystem(x, y, b)[i], NormalRow(x, b, i))
  {
    hide Dot, KinkFeatures, Gram, Projections, NormalRow;
    KinkGram(x, b, i);
    var g := Gram(KinkFeatures(x, b), 3);
    assert KinkSystem(x, y, b)[i] == g[i] + [Projections(KinkFeatures(x, b), y, 3)[i]];
  }

  lemma FirstPivotAgrees(x: seq<int>, y: Vec, b: int)
    requires |x| == |y|
    ensures PivotRow(KinkSystem(x, y, b), 3, 0, 3) == FirstRow(x, b)
  {
    hide NormalRow, KinkSystem;
    var aug := KinkSystem(x, y, b);
    KinkSystemAgrees(x, y, b, 0);
    KinkSystemAgrees(x, y, b, 1);
    KinkSystemAgrees(x, y, b, 2);
    assert PivotRow(aug, 3, 0, 1) == 0;
    assert PivotRow(aug, 3, 0, 2) == if Abs(aug[1][0]) > Abs(aug[0][0]) then 1 else 0;
  }

  lemma OrderAgrees(x: seq<int>, y: Vec, b: int, p: Vec, q: Vec, r: Vec)
    requires |x| == |y| && |p| == |q| == |r| == 4 && PivotOrder(KinkSystem(x, y, b), p, q, r)
    ensures
      var o := RowsInOrder(x, b);
      Agrees(p, o.first) && Agrees(q, o.second) && Agrees(r, o.third)
  {
    hide NormalRow, KinkSystem, Minor, RowMinor;
    var aug, i := KinkSystem(x, y, b), FirstRow(x, b);
    KinkSystemAgrees(x, y, b, 0);
    KinkSystemAgrees(x, y, b, 1);
    KinkSystemAgrees(x, y, b, 2);
    FirstPivotAgrees(x, y, b);
    var s := Swapped(aug, 0, i);
    var i1, i2 := if i == 1 then 0 else 1, if i == 2 then 0 else 2;
    assert s[1] == aug[i1] && s[2] == aug[i2];
    MinorAgrees(p, s[1], NormalRow(x, b, i), NormalRow(x, b, i1));
    MinorAgrees(p, s[2], NormalRow(x, b, i), NormalRow(x, b, i2));
  }

  // ---------------------------------------------------------------- when a breakpoint is fitted

  /** The pivots in integers: first, second times first, third times second. */
  function PivotSize(x: seq<int>, b: int): nat {
    AbsInt(RowsInOrder(x, b).first[0])
  }

  function MinorSize(x: seq<int>, b: int): nat {
    AbsInt(RowMinor(RowsInOrder(x, b).first, RowsInOrder(x, b).second))
  }

  function DeterminantSize(x: seq<int>, b: int): nat {
    var o := RowsInOrder(x, b);
    AbsInt(RowDeterminant(o.first, o.second, o.third))
  }

  lemma KinkElimination(x: seq<int>, y: Vec, b: int) returns (p: Vec, q: Vec, r: Vec)
    requires |x| == |y| > 0
    ensures |p| == |q| == |r| == 4 && PivotOrder(KinkSystem(x, y, b), p, q, r)
    ensures Abs(p[0]) == PivotSize(x, b) as real >= 1.0
    ensures Abs(Minor(p, q)) == MinorSize(x, b) as real
    ensures Abs(Determinant(p, q, r)) == DeterminantSize(x, b) as real
  {
    hide KinkSystem, NormalRow, Minor, RowMinor, Determinant, RowDeterminant, FirstRow, PivotOrder;
    p, q, r := PivotOrderExists(KinkSystem(x, y, b));
    OrderAgrees(x, y, b, p, q, r);
    var o := RowsInOrder(x, b);
    MinorAgrees(p, q, o.first, o.second);
    DeterminantAgrees(p, q, r, o.first, o.second, o.third);
    assert o.first == NormalRow(x, b, FirstRow(x, b));
  }

  /** A breakpoint is fitted exactly when neither the second nor the third pivot is below the threshold. */
  lemma BreakpointFitsExactly(x: seq<int>, y: Vec, b: int)
    requires |x| == |y| > 0
    ensures Fits(x, y, b) <==>
      && MinorSize(x, b) as real >= PIVOT_MIN * (PivotSize(x, b) as real)
      && DeterminantSize(x, b) as real >= PIVOT_MIN * (MinorSize(x, b) as real)
  {
    hide Dot, KinkFeatures, Gram, Projections, Minor, Determinant, PivotOrder, Steps, GivesUpAt, Reduce;
    hide MinorSize, PivotSize, DeterminantSize;
    var f, aug := KinkFeatures(x, b), KinkSystem(x, y, b);
    var p, q, r := KinkElimination(x, y, b);
    ThreeEquations(aug, p, q, r);
    RejectedExactly(Gram(f, 3), Projections(f, y, 3));
    GivesUpBelow(aug);
  }

  lemma GivesUpBelow(aug: Matrix)
    requires Augmented(aug, 3)
    ensures (exists c: nat :: GivesUpAt(aug, 3, c)) <==> GivesUpAt(aug, 3, 0) || GivesUpAt(aug, 3, 1) || GivesUpAt(aug, 3, 2)
  {
  }

  // ---------------------------------------------------------------- integer pivots

  lemma ZeroQuotient(e: real, p: real, m: real)
    requires IsQuotient(e, p, m) && m == 0.0
    ensures e == 0.0
  {
    assert p * e == 0.0;
    NoZeroDivisor(p, e);
  }

  lemma InteriorNonSingular(x: seq<int>, b: int)
    requires b in Interior(x)
    ensures !Singular(Gram(KinkFeatures(x, b), 3))
  {
    hide Dot, KinkFeatures, Gram, InKernel, NonZero;
    forall z: Vec | |z| == 3 && InKernel(Gram(KinkFeatures(x, b), 3), z) ensures !NonZero(z) {
      KinkColumnsIndependent(x, b, z);
    }
  }

  /** A second pivot column of zeros would need a matrix that is singular. */
  lemma SecondPivotNotZero(x: seq<int>, y: Vec, b: int)
    requires b in Interior(x) && |x| == |y| > 0
    ensures MinorSize(x, b) > 0
  {
    hide Dot, KinkFeatures, Gram, Projections, Minor, OuterMinor, Determinant, Singular, Step, IsQuotient, RowsInOrder;
    if MinorSize(x, b) == 0 {
      var f, aug := KinkFeatures(x, b), KinkSystem(x, y, b);
      var p, q, r := KinkElimination(x, y, b);
      ThreeEquations(aug, p, q, r);
      InteriorNonSingular(x, b);
      RejectionExplained(Gram(f, 3), Projections(f, y, 3), 1);
      var r1 := Step(aug, 3, 0);
      var i :| 1 <= i < 3 && r1[i][1] != 0.0;
      FirstStepEntries(aug, i);
      ZeroQuotient(r1[i][1], p[0], 0.0);
    }
  }

  lemma ThirdPivotNotZero(x: seq<int>, y: Vec, b: int)
    requires b in Interior(x) && |x| == |y| > 0 && !GivesUpAt(KinkSystem(x, y, b), 3, 1)
    ensures DeterminantSize(x, b) > 0
  {
    hide Dot, KinkFeatures, Gram, Projections, Minor, Determinant, Singular, Step, IsQuotient, RowsInOrder;
    SecondPivotNotZero(x, y, b);
    if DeterminantSize(x, b) == 0 {
      var f, aug := KinkFeatures(x, b), KinkSystem(x, y, b);
      var p, q, r := KinkElimination(x, y, b);
      ThreeEquations(aug, p, q, r);
      InteriorNonSingular(x, b);
      assert PIVOT_MIN * (MinorSize(x, b) as real) > 0.0;
      RejectionExplained(Gram(f, 3), Projections(f, y, 3), 2);
      ZeroQuotient(Step(Step(aug, 3, 0), 3, 1)[2][2], Minor(p, q), Determinant(p, q, r));
    }
  }

  /** An interior breakpoint is fitted whenever its first pivot and its largest minor are at most 10^12. */
  lemma SmallBreakpointFits(x: seq<int>, y: Vec, b: int)
    requires b in Interior(x) && |x| == |y|
    requires PivotSize(x, b) <= 1000000000000 && MinorSize(x, b) <= 1000000000000
    ensures Fits(x, y, b)
  {
    hide Dot, KinkFeatures, Gram, Projections, Fits, GivesUpAt, RowsInOrder;
    assert b in x;
    var p, q, r := KinkElimination(x, y, b);
    ThreeEquations(KinkSystem(x, y, b), p, q, r);
    BreakpointFitsExactly(x, y, b);
    SecondPivotNotZero(x, y, b);
    hide PivotSize, MinorSize, DeterminantSize, Minor, Determinant;
    AtMostOne(PivotSize(x, b));
    AtMostOne(MinorSize(x, b));
    ThirdPivotNotZero(x, y, b);
  }

  lemma AtMostOne(n: nat)
    requires n <= 1000000000000
    ensures PIVOT_MIN * (n as real) <= 1.0
  {
    assert PIVOT_MIN * 1000000000000.0 == 1.0;
  }

  // ---------------------------------------------------------------- bounds on the sums

  ghost predicate LengthsUpTo(x: seq<int>, longest: int) {
    forall i :: 0 <= i < |x| ==> 0 <= x[i] <= longest
  }

  lemma TimesUpTo(a: int, b: int, c: int, d: int)
    requires 0 <= a <= c && 0 <= b <= d
    ensures 0 <= a * b <= c * d
  {
    assert a * b <= a * d <= c * d;
  }

  lemma NextMultiple(k: nat, l: int)
    ensures (k + 1) * l == k * l + l
  {
  }

  lemma {:induction false} SumsUpTo(x: seq<int>, b: int, l: int, k: nat)
    requires LengthsUpTo(x, l) && b >= 0 && k <= |x|
    ensures 0 <= SumOf(x, k) <= k * l && 0 <= OverSum(x, b, k) <= k * l
    ensures 0 <= SumOfSquares(x, k) <= k * (l * l) && 0 <= OverProducts(x, b, k) <= k * (l * l)
  {
    if k != 0 {
      SumsUpTo(x, b, l, k - 1);
      NextMultiple(k - 1, l);
      NextMultiple(k - 1, l * l);
      var v := x[k-1];
      TimesUpTo(v, v, l, l);
      TimesUpTo(v, Over(v, b), l, l);
    }
  }

  lemma EntriesUpTo(x: seq<int>, b: int, l: int, i: nat)
    requires LengthsUpTo(x, l) && b >= 0 && l >= 1 && i < 3
    ensures 0 <= NormalRow(x, b, i)[0] <= |x| * l
    ensures 0 <= NormalRow(x, b, i)[1] <= |x| * (l * l)
  {
    hide SumOf, SumOfSquares, OverSum, OverProducts, OverSquares;
    SumsUpTo(x, b, l, |x|);
    LinearUpTo(|x|, l);
  }

  lemma LinearUpTo(n: nat, l: int)
    requires l >= 1
    ensures n <= n * l <= n * (l * l)
  {
    TimesUpTo(n, 1, n, l);
    TimesUpTo(n * l, 1, n * l, l);
    assert n * l * l == n * (l * l);
  }

  lemma RowMinorUpTo(p: seq<int>, row: seq<int>, m: int, n: int)
    requires |p| == |row| == 3
    requires 0 <= p[0] <= m && 0 <= row[0] <= m && 0 <= p[1] <= n && 0 <= row[1] <= n
    ensures AbsInt(RowMinor(p, row)) <= n * m
  {
    TimesUpTo(row[1], p[0], n, m);
    TimesUpTo(row[0], p[1], m, n);
    assert m * n == n * m;
  }

  lemma SizesUpTo(x: seq<int>, b: int, l: int)
    requires LengthsUpTo(x, l) && b >= 0 && l >= 1
    ensures PivotSize(x, b) <= |x| * l
    ensures MinorSize(x, b) <= (|x| * (l * l)) * (|x| * l)
  {
    hide NormalRow, RowMinor, FirstRow;
    EntriesUpTo(x, b, l, 0);
    EntriesUpTo(x, b, l, 1);
    EntriesUpTo(x, b, l, 2);
    var o := RowsInOrder(x, b);
    RowMinorUpTo(o.first, o.second, |x| * l, |x| * (l * l));
  }

  /**
   Lengths from 0 to longest with (samples * longest^2) * (samples * longest) at most 10^12:
   every interior breakpoint is fitted.
   */
  lemma InteriorBreakpointsFit(x: seq<int>, y: Vec, b: int, longest: int)
    requires b in Interior(x) && |x| == |y| && LengthsUpTo(x, longest)
    requires (|x| * (longest * longest)) * (|x| * longest) <= 1000000000000
    ensures Fits(x, y, b)
  {
    hide Fits, PivotSize, MinorSize, RowsInOrder;
    var u := SortedUnique(x);
    assert u[|u|-1] in x && u[0] in x && u[0] < u[|u|-1];
    assert longest >= 1;
    assert b in x;
    SizesUpTo(x, b, longest);
    TimesUpTo(1, |x| * longest, |x| * (longest * longest), |x| * longest) by {
      TimesUpTo(1, 1, longest, longest);
      TimesUpTo(1, 1, |x|, longest * longest);
    }
    SmallBreakpointFits(x, y, b);
  }

  /** So with four distinct lengths in that range the search always returns a model. */
  lemma SearchSucceeds(x: seq<int>, y: Vec, best: Option<PiecewiseModel>, longest: int)
    requires |x| == |y| && SearchFound(x, y, best)
    requires |SortedUnique(x)| >= 4 && LengthsUpTo(x, longest)
    requires (|x| * (longest * longest)) * (|x| * longest) <= 1000000000000
    ensures best.Some?
  {
    hide Fits, IsFitAt, BestAmong;
    var b := Interior(x)[0];
    InteriorBreakpointsFit(x, y, b, longest);
  }

  // ---------------------------------------------------------------- a search that finds nothing

  /** Four distinct lengths, each one token longer than the last. */
  const FAR_LENGTHS: seq<int> := [10000000000000, 10000000000001, 10000000000002, 10000000000003]

  lemma FarSums(b: int)
    requires b == 10000000000001 || b == 10000000000002
    ensures
      var x := FAR_LENGTHS;
      && SumOf(x, 4) == 40000000000006
      && SumOfSquares(x, 4) == 400000000000120000000000014
      && OverSum(x, b, 4) == (if b == 10000000000001 then 3 else 1)
      && OverProducts(x, b, 4) == (if b == 10000000000001 then 30000000000008 else 10000000000003)
      && OverSquares(x, b, 4) == (if b == 10000000000001 then 5 else 1)
  {
    var x := FAR_LENGTHS;
    assert SumOf(x, 0) == 0 && SumOf(x, 1) == x[0] && SumOf(x, 2) == x[0] + x[1] && SumOf(x, 3) == x[0] + x[1] + x[2];
    assert SumOfSquares(x, 0) == 0 && SumOfSquares(x, 1) == x[0] * x[0];
    assert SumOfSquares(x, 2) == x[0] * x[0] + x[1] * x[1];
    assert SumOfSquares(x, 3) == x[0] * x[0] + x[1] * x[1] + x[2] * x[2];
    assert OverSum(x, b, 0) == 0 && OverSum(x, b, 1) == 0 && OverSum(x, b, 2) == 0;
    assert OverProducts(x, b, 0) == 0 && OverProducts(x, b, 1) == 0 && OverProducts(x, b, 2) == 0;
    assert OverSquares(x, b, 0) == 0 && OverSquares(x, b, 1) == 0 && OverSquares(x, b, 2) == 0;
    assert OverSum(x, b, 3) == Over(x[2], b) && OverProducts(x, b, 3) == x[2] * Over(x[2], b);
    assert OverSquares(x, b, 3) == Over(x[2], b) * Over(x[2], b);
  }

  /** For these lengths neither interior breakpoint is fitted, although both have a unique least-squares kink. */
  lemma FarBreakpointsLost(y: Vec, b: int)
    requires |y| == 4 && (b == 10000000000001 || b == 10000000000002)
    ensures !Fits(FAR_LENGTHS, y, b)
  {
    var x := FAR_LENGTHS;
    FarSums(b);
    BreakpointFitsExactly(x, y, b);
    hide SumOf, SumOfSquares, OverSum, OverProducts, OverSquares, Fits;
    if b == 10000000000001 {
      FarPivots(x, b, 3, 30000000000008, 5);
    } else {
      FarPivots(x, b, 1, 10000000000003, 1);
    }
  }

  lemma FarPivots(x: seq<int>, b: int, over: int, products: int, squares: int)
    requires x == FAR_LENGTHS && SumOf(x, 4) == 40000000000006 && SumOfSquares(x, 4) == 400000000000120000000000014
    requires OverSum(x, b, 4) == over && OverProducts(x, b, 4) == products && OverSquares(x, b, 4) == squares
    requires (over == 3 && products == 30000000000008 && squares == 5)
      || (over == 1 && products == 10000000000003 && squares == 1)
    ensures DeterminantSize(x, b) == 6 && MinorSize(x, b) >= 10000000000000
    ensures DeterminantSize(x, b) as real < PIVOT_MIN * (MinorSize(x, b) as real)
  {
    hide SumOf, SumOfSquares, OverSum, OverProducts, OverSquares;
    assert FirstRow(x, b) == 1;
    var r0, r1, r2 := NormalRow(x, b, 0), NormalRow(x, b, 1), NormalRow(x, b, 2);
    assert RowMinor(r1, r0) == -20;
    assert RowMinor(r1, r2) == products * 40000000000006 - over * 400000000000120000000000014;
    assert RowsInOrder(x, b) == PivotRows(r1, r2, r0);
    assert PIVOT_MIN * 10000000000000.0 == 10.0;
  }

  lemma FarLengthsSorted()
    ensures SortedUnique(FAR_LENGTHS) == FAR_LENGTHS
    ensures forall b :: b in Interior(FAR_LENGTHS) ==> b == 10000000000001 || b == 10000000000002
  {
    hide SortedUnique;
    assert SortedUnique([]) == [] by {
      NothingSorted();
    }
    var x := FAR_LENGTHS;
    AppendSorted(x, 0);
    AppendSorted(x, 1);
    AppendSorted(x, 2);
    AppendSorted(x, 3);
    assert x[..0] == [] && x[..4] == x;
    assert Interior(x) == x[1..3] == [10000000000001, 10000000000002];
  }

  lemma NothingSorted()
    ensures SortedUnique([]) == []
  {
  }

  /** A new longest length goes to the end. */
  lemma AppendSorted(x: seq<int>, k: nat)
    requires k < |x| && Increasing(x)
    ensures SortedUnique(x[..k]) == x[..k] ==> SortedUnique(x[..k+1]) == x[..k+1]
  {
    assert x[..k+1][..k] == x[..k];
    InsertLast(x[..k], x[k]);
    assert x[..k] + [x[k]] == x[..k+1];
  }

  lemma IncreasingTail(u: seq<int>)
    requires Increasing(u) && u != []
    ensures Increasing(u[1..])
  {
    var rest := u[1..];
    forall i, j | 0 <= i < j < |rest| ensures rest[i] < rest[j] {
      assert u[i + 1] < u[j + 1];
    }
  }

  lemma {:induction false} InsertLast(u: seq<int>, v: int)
    requires Increasing(u) && forall w :: w in u ==> w < v
    ensures Insert(u, v) == u + [v]
  {
    if u != [] {
      var rest := u[1..];
      IncreasingTail(u);
      assert u == [u[0]] + rest && u[0] in u;
      forall w | w in rest ensures w < v {
        assert w in [u[0]] + rest;
      }
      InsertLast(rest, v);
      assert u + [v] == [u[0]] + (rest + [v]);
    }
  }

  lemma FarSearchFindsNothing(y: Vec, best: Option<PiecewiseModel>)
    requires |y| == 4 && SearchFound(FAR_LENGTHS, y, best)
    ensures |SortedUnique(FAR_LENGTHS)| == 4 && best.None?
  {
    hide Fits, IsFitAt, BestAmong;
    FarLengthsSorted();
    forall b | b in Interior(FAR_LENGTHS) ensures !Fits(FAR_LENGTHS, y, b) {
      FarBreakpointsLost(y, b);
    }
  }
}
