/**
 Ordinary least squares through the normal equations. The accumulation loops build the
 Gram matrix and the moment vector; the theorems say that the coefficients the solver
 returns are the single minimiser of the squared error.
 */
module LeastSquares {
  import opened Wrappers
  import opened Vectors
  import opened LinearSolver

  /** meanSquaredError is the square of the reported root-mean-square error. */
  datatype Fit = Fit(
    coefficients: Vec,
    sse: real,
    meanAbsoluteError: real,
    meanSquaredError: real,
    r2: real,
    numSamples: nat)

  ghost predicate AtLeastWide(features: Matrix, k: nat) {
    forall s :: 0 <= s < |features| ==> k <= |features[s]|
  }

  function Column(features: Matrix, i: nat): (v: Vec)
    requires AtLeastWide(features, i + 1)
    ensures |v| == |features|
  {
    seq(|features|, s requires 0 <= s < |features| => features[s][i])
  }

  /** The inner products of u with the first k columns. */
  function Projections(features: Matrix, u: Vec, k: nat): (v: Vec)
    requires AtLeastWide(features, k) && |u| == |features|
    ensures |v| == k
  {
    seq(k, i requires 0 <= i < k => Dot(u, Column(features, i), |u|))
  }

  function Gram(features: Matrix, k: nat): (g: Matrix)
    requires AtLeastWide(features, k)
    ensures Square(g, k)
  {
    seq(k, i requires 0 <= i < k => Projections(features, Column(features, i), k))
  }

  /** The model's estimates, using the first k coefficients. */
  function FittedTo(features: Matrix, c: Vec, k: nat): (v: Vec)
    requires k <= |c| && AtLeastWide(features, k)
    ensures |v| == |features|
  {
    seq(|features|, s requires 0 <= s < |features| => Dot(c, features[s], k))
  }

  function Fitted(features: Matrix, c: Vec): (v: Vec)
    requires AtLeastWide(features, |c|)
    ensures |v| == |features|
  {
    FittedTo(features, c, |c|)
  }

  function Minus(a: Vec, b: Vec): (v: Vec)
    requires |a| == |b|
    ensures |v| == |a|
  {
    seq(|a|, s requires 0 <= s < |a| => a[s] - b[s])
  }

  function Residuals(features: Matrix, y: Vec, c: Vec): (v: Vec)
    requires |features| == |y| && AtLeastWide(features, |c|)
    ensures |v| == |y|
  {
    Minus(y, Fitted(features, c))
  }

  /** The sum of squared residuals. */
  function Sse(features: Matrix, y: Vec, c: Vec): real
    requires |features| == |y| && AtLeastWide(features, |c|)
  {
    var r := Residuals(features, y, c);
    Dot(r, r, |r|)
  }

  function Sum(v: Vec, k: nat): real
    requires k <= |v|
  {
    if k == 0 then 0.0 else Sum(v, k - 1) + v[k-1]
  }

  function Mean(v: Vec): real
    requires |v| > 0
  {
    Sum(v, |v|) / |v| as real
  }

  /** The sum of squared deviations from the mean. */
  function Sst(y: Vec): real
    requires |y| > 0
  {
    var d := seq(|y|, s requires 0 <= s < |y| => y[s] - Mean(y));
    Dot(d, d, |y|)
  }

  function RSquared(sse: real, sst: real): real {
    if sst > 0.0 then 1.0 - sse / sst else 1.0
  }

  /** The coefficients of the fit, None when there is nothing to fit or the solver gives up. */
  function Coefficients(features: Matrix, y: Vec): (c: Option<Vec>)
    requires 0 < |features| == |y| ==> AtLeastWide(features, |features[0]|)
    ensures c.Some? ==> 0 < |features| == |y| && |c.value| == |features[0]|
  {
    if |features| == 0 || |features| != |y| then None
    else
      var k := |features[0]|;
      Solution(Gram(features, k), Projections(features, y, k))
  }

  // ---------------------------------------------------------------- the minimisation theorem

  lemma FittedStep(features: Matrix, c: Vec, k: nat)
    requires 0 < k <= |c| && AtLeastWide(features, k)
    ensures forall s :: 0 <= s < |features| ==>
      FittedTo(features, c, k)[s] == FittedTo(features, c, k - 1)[s] + c[k-1] * Column(features, k - 1)[s]
  {
  }

  lemma DotLast(c: Vec, p: Vec, k: nat)
    requires 0 < k <= |c| && k <= |p|
    ensures Dot(c, p, k) == Dot(c, p, k - 1) + c[k-1] * p[k-1]
  {
  }

  lemma NothingExchanged(features: Matrix, u: Vec, c: Vec)
    requires |u| == |features|
    ensures Dot(u, FittedTo(features, c, 0), |u|) == 0.0 == Dot(c, Projections(features, u, 0), 0)
  {
    DotZero(u, FittedTo(features, c, 0), |u|);
  }

  /** Taking inner products with the fitted values is the same as combining the projections. */
  lemma {:induction false} ExchangeSums(features: Matrix, u: Vec, c: Vec, k: nat)
    requires |u| == |features| && k <= |c| && AtLeastWide(features, k)
    ensures Dot(u, FittedTo(features, c, k), |u|) == Dot(c, Projections(features, u, k), k)
    decreases k
  {
    hide Dot, FittedTo;
    var f, p := FittedTo(features, c, k), Projections(features, u, k);
    if k == 0 {
      NothingExchanged(features, u, c);
    } else {
      var f', p' := FittedTo(features, c, k - 1), Projections(features, u, k - 1);
      var col := Column(features, k - 1);
      ExchangeSums(features, u, c, k - 1);
      FittedStep(features, c, k);
      DotAgree(c, p, c, p', k - 1);
      DotLast(c, p, k);
      DotCombine(u, f, f', c[k-1], col, |u|);
    }
  }

  lemma GramRow(features: Matrix, k: nat, i: nat)
    requires AtLeastWide(features, k) && i < k
    ensures Gram(features, k)[i] == Projections(features, Column(features, i), k)
  {
  }

  lemma ResidualsAreDifferences(features: Matrix, y: Vec, c: Vec)
    requires |features| == |y| && AtLeastWide(features, |c|)
    ensures forall s :: 0 <= s < |y| ==> Residuals(features, y, c)[s] == y[s] + (-1.0) * Fitted(features, c)[s]
  {
  }

  lemma GramTimes(features: Matrix, c: Vec, i: nat)
    requires AtLeastWide(features, |c|) && i < |c|
    ensures Dot(c, Gram(features, |c|)[i], |c|) == Dot(Column(features, i), Fitted(features, c), |features|)
  {
    hide Dot, Column, FittedTo;
    ExchangeSums(features, Column(features, i), c, |c|);
    GramRow(features, |c|, i);
  }

  lemma ResidualTimes(features: Matrix, y: Vec, c: Vec, col: Vec)
    requires |features| == |y| == |col| && AtLeastWide(features, |c|)
    ensures Dot(Residuals(features, y, c), col, |y|) == Dot(y, col, |y|) - Dot(col, Fitted(features, c), |y|)
  {
    hide Dot, FittedTo;
    var r, f, m := Residuals(features, y, c), Fitted(features, c), |y|;
    ResidualsAreDifferences(features, y, c);
    DotCombine(col, r, y, -1.0, f, m);
    DotSymmetric(col, r, m);
    DotSymmetric(col, y, m);
  }

  /** The normal equations say that the residuals are orthogonal to every column. */
  lemma ResidualsOrthogonal(features: Matrix, y: Vec, c: Vec, i: nat)
    requires |features| == |y| && AtLeastWide(features, |c|) && i < |c|
    ensures Dot(c, Gram(features, |c|)[i], |c|) == Projections(features, y, |c|)[i]
      <==> Dot(Residuals(features, y, c), Column(features, i), |y|) == 0.0
  {
    hide Dot, Gram, Column, Residuals, FittedTo;
    GramTimes(features, c, i);
    ResidualTimes(features, y, c, Column(features, i));
  }

  /** |r - e|^2 when e is orthogonal to r. */
  lemma Pythagoras(r: Vec, e: Vec, q: Vec, m: nat)
    requires |r| == |e| == |q| == m
    requires forall s :: 0 <= s < m ==> q[s] == r[s] + (-1.0) * e[s]
    requires Dot(r, e, m) == 0.0
    ensures Dot(q, q, m) == Dot(r, r, m) + Dot(e, e, m)
  {
    DotCombine(q, q, r, -1.0, e, m);
    DotSymmetric(q, r, m);
    DotSymmetric(q, e, m);
    DotCombine(r, q, r, -1.0, e, m);
    DotCombine(e, q, r, -1.0, e, m);
    DotSymmetric(e, r, m);
  }

  lemma FittedDifference(features: Matrix, c: Vec, c': Vec, d: Vec, s: nat)
    requires |c| == |c'| == |d| && AtLeastWide(features, |c|) && s < |features|
    requires forall i :: 0 <= i < |c| ==> c'[i] == c[i] + 1.0 * d[i]
    ensures Fitted(features, c')[s] == Fitted(features, c)[s] + Fitted(features, d)[s]
  {
    var k, row := |c|, features[s];
    DotSymmetric(c', row, k);
    DotSymmetric(c, row, k);
    DotSymmetric(d, row, k);
    DotCombine(row, c', c, 1.0, d, k);
  }

  /** The squared error of any coefficients, measured from a solution of the normal equations. */
  lemma ErrorDecomposition(features: Matrix, y: Vec, c: Vec, c': Vec)
    requires |features| == |y| && AtLeastWide(features, |c|) && |c'| == |c|
    requires SolvesSystem(Gram(features, |c|), Projections(features, y, |c|), c)
    ensures
      var e := Fitted(features, Minus(c', c));
      Sse(features, y, c') == Sse(features, y, c) + Dot(e, e, |y|)
  {
    var k, m, d := |c|, |y|, Minus(c', c);
    var e, r, r' := Fitted(features, d), Residuals(features, y, c), Residuals(features, y, c');
    var p := Projections(features, r, k);
    forall i | 0 <= i < k ensures p[i] == 0.0 {
      assert Dot(c, Gram(features, k)[i], k) == Projections(features, y, k)[i];
      ResidualsOrthogonal(features, y, c, i);
    }
    ExchangeSums(features, r, d, k);
    DotZero(d, p, k);
    forall s | 0 <= s < m ensures r'[s] == r[s] + (-1.0) * e[s] {
      FittedDifference(features, c, c', d, s);
    }
    Pythagoras(r, e, r', m);
  }

  /** No coefficients fit better than those the solver returns, and no others fit as well. */
  lemma CoefficientsAreUniqueMinimum(features: Matrix, y: Vec, c': Vec)
    requires 0 < |features| == |y| && AtLeastWide(features, |features[0]|)
    requires Coefficients(features, y).Some? && |c'| == |features[0]|
    ensures Sse(features, y, c') >= Sse(features, y, Coefficients(features, y).value)
    ensures Sse(features, y, c') == Sse(features, y, Coefficients(features, y).value)
      ==> c' == Coefficients(features, y).value
  {
    var k, m := |features[0]|, |y|;
    var c := Coefficients(features, y).value;
    var gram, moments := Gram(features, k), Projections(features, y, k);
    SolutionIsUnique(gram, moments, c);
    ErrorDecomposition(features, y, c, c');
    var d := Minus(c', c);
    var e := Fitted(features, d);
    DotSelf(e, m);
    if Dot(e, e, m) == 0.0 {
      SameFitSolvesToo(features, y, c, c');
      SolutionIsUnique(gram, moments, c');
    }
  }

  lemma SameFitSolvesToo(features: Matrix, y: Vec, c: Vec, c': Vec)
    requires |features| == |y| && AtLeastWide(features, |c|) && |c'| == |c|
    requires SolvesSystem(Gram(features, |c|), Projections(features, y, |c|), c)
    requires forall s :: 0 <= s < |y| ==> Fitted(features, Minus(c', c))[s] == 0.0
    ensures SolvesSystem(Gram(features, |c|), Projections(features, y, |c|), c')
  {
    var k, d := |c|, Minus(c', c);
    forall s | 0 <= s < |y| ensures Residuals(features, y, c')[s] == Residuals(features, y, c)[s] {
      FittedDifference(features, c, c', d, s);
    }
    assert Residuals(features, y, c') == Residuals(features, y, c);
    forall i | 0 <= i < k ensures Dot(c', Gram(features, k)[i], k) == Projections(features, y, k)[i] {
      assert Dot(c, Gram(features, k)[i], k) == Projections(features, y, k)[i];
      ResidualsOrthogonal(features, y, c, i);
      ResidualsOrthogonal(features, y, c', i);
    }
  }

  /** The kernel of the Gram matrix is the set of coefficients that fit zero everywhere. */
  lemma GramKernel(features: Matrix, z: Vec)
    requires AtLeastWide(features, |z|)
    ensures InKernel(Gram(features, |z|), z) <==> forall s :: 0 <= s < |features| ==> Fitted(features, z)[s] == 0.0
  {
    var k, m, f := |z|, |features|, Fitted(features, z);
    var gram := Gram(features, k);
    forall i | 0 <= i < k ensures Dot(z, gram[i], k) == Dot(f, Column(features, i), m) {
      ExchangeSums(features, Column(features, i), z, k);
      DotSymmetric(f, Column(features, i), m);
    }
    if forall s :: 0 <= s < m ==> f[s] == 0.0 {
      forall i | 0 <= i < k ensures Dot(z, gram[i], k) == 0.0 {
        DotZero(Column(features, i), f, m);
        DotSymmetric(f, Column(features, i), m);
      }
    }
    if InKernel(gram, z) {
      var p := Projections(features, f, k);
      forall i | 0 <= i < k ensures p[i] == 0.0 {
        assert Dot(z, gram[i], k) == 0.0;
      }
      ExchangeSums(features, f, z, k);
      DotZero(z, p, k);
      DotSelf(f, m);
    }
  }

  // ---------------------------------------------------------------- the accumulation loops

  function PlusMultiple(x: Vec, f: real, row: Vec): (v: Vec)
    requires |x| <= |row|
    ensures |v| == |x|
  {
    seq(|x|, j requires 0 <= j < |x| => x[j] + f * row[j])
  }

  /** The innermost loop: row i of the Gram matrix gains row[i] times the sample. */
  method AddToRow(xtx: array<Vec>, i: nat, row: Vec)
    requires i < xtx.Length <= |row| && |xtx[i]| == xtx.Length
    modifies xtx
    ensures xtx[..] == old(xtx[..])[i := PlusMultiple(old(xtx[i]), row[i], row)]
  {
    ghost var before, target := xtx[i], PlusMultiple(xtx[i], row[i], row);
    for j := 0 to xtx.Length
      invariant forall a :: 0 <= a < xtx.Length && a != i ==> xtx[a] == old(xtx[a])
      invariant |xtx[i]| == xtx.Length
      invariant forall b :: 0 <= b < xtx.Length ==> xtx[i][b] == if b < j then target[b] else before[b]
    {
      xtx[i] := xtx[i][j := xtx[i][j] + row[i] * row[j]];
    }
    assert xtx[i] == target;
  }

  lemma PlusMultipleAt(x: Vec, f: real, row: Vec, j: nat)
    requires |x| <= |row| && j < |x|
    ensures PlusMultiple(x, f, row)[j] == x[j] + row[j] * f
  {
  }

  /** One sample added to the Gram matrix and to the moments. */
  method AddSample(xtx: array<Vec>, xty: array<real>, k: nat, row: Vec, target: real)
    requires xtx.Length == xty.Length == k <= |row|
    requires forall i :: 0 <= i < k ==> |xtx[i]| == k
    modifies xtx, xty
    ensures xty[..] == PlusMultiple(old(xty[..]), target, row)
    ensures forall i :: 0 <= i < k ==> xtx[i] == PlusMultiple(old(xtx[i]), row[i], row)
  {
    hide PlusMultiple;
    ghost var moments := PlusMultiple(xty[..], target, row);
    for i := 0 to k
      invariant forall a :: 0 <= a < k ==> xty[a] == if a < i then moments[a] else old(xty[a])
      invariant forall a :: 0 <= a < k ==>
        xtx[a] == if a < i then PlusMultiple(old(xtx[a]), row[a], row) else old(xtx[a])
    {
      PlusMultipleAt(old(xty[..]), target, row, i);
      xty[i] := xty[i] + row[i] * target;
      label before:
      AddToRow(xtx, i, row);
      assert forall a :: 0 <= a < k && a != i ==> xtx[a] == xtx[..][a] == old@before(xtx[..])[a];
      assert xtx[i] == xtx[..][i];
    }
  }

  /** The projections after the first s samples. */
  function ProjectionsTo(features: Matrix, u: Vec, k: nat, s: nat): (v: Vec)
    requires AtLeastWide(features, k) && |u| == |features| && s <= |u|
    ensures |v| == k
  {
    seq(k, i requires 0 <= i < k => Dot(u, Column(features, i), s))
  }

  lemma SampleAdded(features: Matrix, u: Vec, k: nat, s: nat)
    requires AtLeastWide(features, k) && |u| == |features| && s < |u|
    ensures PlusMultiple(ProjectionsTo(features, u, k, s), u[s], features[s]) == ProjectionsTo(features, u, k, s + 1)
  {
    var before, after := ProjectionsTo(features, u, k, s), ProjectionsTo(features, u, k, s + 1);
    var sum := PlusMultiple(before, u[s], features[s]);
    forall i | 0 <= i < k ensures sum[i] == after[i] {
      var col := Column(features, i);
      assert Dot(u, col, s + 1) == Dot(u, col, s) + u[s] * col[s];
    }
  }

  method NormalEquations(features: Matrix, y: Vec, k: nat) returns (gram: Matrix, moments: Vec)
    requires |features| == |y| && AtLeastWide(features, k)
    ensures gram == Gram(features, k) && moments == Projections(features, y, k)
  {
    hide Dot, Column, PlusMultiple;
    var xtx := new Vec[k](_ => seq(k, _ => 0.0));
    var xty := new real[k](_ => 0.0);
    StartsAtZero(features, y, k);
    forall i | 0 <= i < k ensures xtx[i] == ProjectionsTo(features, Column(features, i), k, 0) {
      StartsAtZero(features, Column(features, i), k);
    }
    assert xty[..] == seq(k, _ => 0.0);
    for s := 0 to |features|
      invariant xty[..] == ProjectionsTo(features, y, k, s)
      invariant forall i :: 0 <= i < k ==> xtx[i] == ProjectionsTo(features, Column(features, i), k, s)
    {
      AddSample(xtx, xty, k, features[s], y[s]);
      SampleAdded(features, y, k, s);
      forall i | 0 <= i < k ensures xtx[i] == ProjectionsTo(features, Column(features, i), k, s + 1) {
        SampleAdded(features, Column(features, i), k, s);
        ColumnAt(features, i, s);
      }
    }
    gram, moments := xtx[..], xty[..];
    AllSamples(features, y, k);
    forall i | 0 <= i < k ensures gram[i] == Gram(features, k)[i] {
      AllSamples(features, Column(features, i), k);
      assert gram[i] == xtx[i];
    }
    assert gram == Gram(features, k);
  }

  lemma StartsAtZero(features: Matrix, u: Vec, k: nat)
    requires AtLeastWide(features, k) && |u| == |features|
    ensures ProjectionsTo(features, u, k, 0) == seq(k, _ => 0.0)
  {
  }

  lemma AllSamples(features: Matrix, u: Vec, k: nat)
    requires AtLeastWide(features, k) && |u| == |features|
    ensures ProjectionsTo(features, u, k, |u|) == Projections(features, u, k)
  {
  }

  lemma ColumnAt(features: Matrix, i: nat, s: nat)
    requires AtLeastWide(features, i + 1) && s < |features|
    ensures Column(features, i)[s] == features[s][i]
  {
  }

  /** c fits better than all other coefficient vectors of its width. */
  ghost predicate IsUniqueMinimum(features: Matrix, y: Vec, c: Vec)
    requires |features| == |y| && AtLeastWide(features, |c|)
  {
    forall c': Vec :: |c'| == |c| ==>
      && Sse(features, y, c') >= Sse(features, y, c)
      && (Sse(features, y, c') == Sse(features, y, c) ==> c' == c)
  }

  function MeanAbsolute(v: Vec): real
    requires |v| > 0
  {
    Mean(seq(|v|, s requires 0 <= s < |v| => Abs(v[s])))
  }

  /** The statistics reported for given coefficients. */
  function Report(features: Matrix, y: Vec, c: Vec): (fit: Fit)
    requires 0 < |features| == |y| && AtLeastWide(features, |c|)
    ensures fit.coefficients == c && fit.sse == Sse(features, y, c)
  {
    var residuals := Residuals(features, y, c);
    var sse := Dot(residuals, residuals, |residuals|);
    Fit(c, sse, MeanAbsolute(residuals), sse / |y| as real, RSquared(sse, Sst(y)), |y|)
  }

  // ---------------------------------------------------------------- what the statistics mean

  lemma {:induction false} SumIsTotal(v: Vec, k: nat)
    requires k <= |v|
    ensures Sum(v, k) == Total(v[..k])
  {
    if k > 0 {
      SumIsTotal(v, k - 1);
      TotalAppend(v[..k-1], v[k-1]);
      assert v[..k] == v[..k-1] + [v[k-1]];
    }
  }

  lemma {:induction false} DotIsTotal(r: Vec, k: nat, squares: Vec)
    requires k <= |r| && |squares| == k && forall s :: 0 <= s < k ==> squares[s] == Squared(r[s])
    ensures Dot(r, r, k) == Total(squares)
  {
    if k > 0 {
      DotIsTotal(r, k - 1, squares[..k-1]);
      TotalAppend(squares[..k-1], squares[k-1]);
      assert squares == squares[..k-1] + [squares[k-1]];
    }
  }

  /** The error is the total of the squared distances of the targets from the estimates. */
  lemma ErrorIsTotal(features: Matrix, y: Vec, c: Vec, squares: Vec)
    requires |features| == |y| == |squares| && AtLeastWide(features, |c|)
    requires forall s :: 0 <= s < |y| ==> squares[s] == Squared(y[s] - Fitted(features, c)[s])
    ensures Sse(features, y, c) == Total(squares)
  {
    hide Squared, Fitted;
    DotIsTotal(Residuals(features, y, c), |y|, squares);
  }

  /** The mean times the count is the total. */
  lemma MeanIsAverage(v: Vec)
    requires |v| > 0
    ensures Mean(v) * (|v| as real) == Total(v)
  {
    SumIsTotal(v, |v|);
    assert v[..|v|] == v;
    DivideIsScale(Sum(v, |v|), |v| as real);
  }

  lemma {:induction false} TotalScaled(d: Vec, f: real, scaled: Vec)
    requires |scaled| == |d| && forall s :: 0 <= s < |d| ==> scaled[s] == Product(f, d[s])
    ensures Total(scaled) == Product(f, Total(d))
  {
    if d != [] {
      TotalScaled(d[1..], f, scaled[1..]);
      assert f * (d[0] + Total(d[1..])) == f * d[0] + f * Total(d[1..]);
    }
  }

  lemma {:induction false} TotalAdded(a: Vec, b: Vec, both: Vec)
    requires |a| == |b| == |both| && forall s :: 0 <= s < |a| ==> both[s] == a[s] + b[s]
    ensures Total(both) == Total(a) + Total(b)
  {
    if a != [] {
      TotalAdded(a[1..], b[1..], both[1..]);
    }
  }

  lemma {:induction false} TotalConstant(c: real, v: Vec)
    requires forall s :: 0 <= s < |v| ==> v[s] == c
    ensures Total(v) == Product(c, |v| as real)
  {
    if v != [] {
      TotalConstant(c, v[1..]);
      assert c * (|v| as real) == c + c * (|v[1..]| as real);
    }
  }

  lemma ProductNegated(m: real, n: real)
    ensures Product(-m, n) == -(m * n)
  {
  }

  /** The deviations from the mean cancel out. */
  lemma DeviationsCancel(y: Vec, d: Vec)
    requires 0 < |y| == |d| && forall s :: 0 <= s < |y| ==> d[s] == y[s] - Mean(y)
    ensures Total(d) == 0.0
  {
    hide Mean, Product;
    var minus: Vec := seq(|y|, _ => -Mean(y));
    TotalAdded(y, minus, d);
    TotalConstant(-Mean(y), minus);
    MeanIsAverage(y);
    ProductNegated(Mean(y), |y| as real);
  }

  lemma SquareOfSum(y: real, m: real, c: real)
    ensures Squared(y - c) == Squared(y - m) + (Product(2.0 * (m - c), y - m) + Squared(m - c))
  {
  }

  lemma CrossTermVanishes(near: Vec, d: Vec, f: real, g: real, far: Vec)
    requires |near| == |d| == |far| && Total(d) == 0.0
    requires forall s :: 0 <= s < |far| ==> far[s] == near[s] + (Product(f, d[s]) + g)
    ensures Total(far) == Total(near) + Product(g, |far| as real)
  {
    hide Total, Product;
    var n := |far|;
    var cross := seq(n, s requires 0 <= s < n => Product(f, d[s]));
    var rest := seq(n, _ => g);
    var both := seq(n, s requires 0 <= s < n => cross[s] + rest[s]);
    TotalAdded(near, both, far);
    TotalAdded(cross, rest, both);
    TotalConstant(g, rest);
    TotalScaled(d, f, cross);
    ProductWithZero(f);
  }

  lemma ProductWithZero(f: real)
    ensures Product(f, 0.0) == 0.0
  {
  }

  /** The spread is measured from the mean: from any other constant the squared distances add up to more. */
  lemma SpreadIsLeastFromMean(y: Vec, c: real, far: Vec)
    requires 0 < |y| == |far| && forall s :: 0 <= s < |y| ==> far[s] == Squared(y[s] - c)
    ensures Total(far) == Sst(y) + Product(Squared(Mean(y) - c), |y| as real)
  {
    hide Squared, Mean, Total, Dot, Product;
    var m, n := Mean(y), |y|;
    var d := seq(n, s requires 0 <= s < n => y[s] - m);
    var near := seq(n, s requires 0 <= s < n => Squared(y[s] - m));
    forall s | 0 <= s < n ensures far[s] == near[s] + (Product(2.0 * (m - c), d[s]) + Squared(m - c)) {
      SquareOfSum(y[s], m, c);
    }
    DeviationsCancel(y, d);
    DotIsTotal(d, n, near);
    CrossTermVanishes(near, d, 2.0 * (m - c), Squared(m - c), far);
  }

  /** The reported statistics: errors per sample, and the share of the spread that is left over. */
  lemma ReportMeans(features: Matrix, y: Vec, c: Vec, distances: Vec)
    requires 0 < |features| == |y| == |distances| && AtLeastWide(features, |c|)
    requires forall s :: 0 <= s < |y| ==>
      distances[s] >= 0.0
      && (distances[s] == y[s] - Fitted(features, c)[s] || distances[s] == Fitted(features, c)[s] - y[s])
    ensures
      var fit := Report(features, y, c);
      && fit.coefficients == c && fit.sse == Sse(features, y, c) && fit.numSamples == |y|
      && fit.meanSquaredError * (|y| as real) == fit.sse
      && fit.meanAbsoluteError * (|y| as real) == Total(distances)
      && (Sst(y) > 0.0 ==> (1.0 - fit.r2) * Sst(y) == fit.sse)
      && (Sst(y) <= 0.0 ==> fit.r2 == 1.0)
  {
    hide Dot, Fitted, Sst, MeanAbsolute, Residuals, RSquared;
    var r := Residuals(features, y, c);
    var sse := Dot(r, r, |r|);
    AbsoluteMeans(features, y, c, distances);
    DivideIsScale(sse, |y| as real);
    ShareMeans(sse, Sst(y));
  }

  lemma AbsoluteMeans(features: Matrix, y: Vec, c: Vec, distances: Vec)
    requires 0 < |features| == |y| == |distances| && AtLeastWide(features, |c|)
    requires forall s :: 0 <= s < |y| ==>
      distances[s] >= 0.0
      && (distances[s] == y[s] - Fitted(features, c)[s] || distances[s] == Fitted(features, c)[s] - y[s])
    ensures MeanAbsolute(Residuals(features, y, c)) * (|y| as real) == Total(distances)
  {
    hide Fitted, Mean, Total;
    var r := Residuals(features, y, c);
    var all := seq(|r|, s requires 0 <= s < |r| => Abs(r[s]));
    assert all == distances;
    MeanIsAverage(all);
  }

  lemma ShareMeans(sse: real, sst: real)
    ensures sst > 0.0 ==> (1.0 - RSquared(sse, sst)) * sst == sse
    ensures sst <= 0.0 ==> RSquared(sse, sst) == 1.0
  {
    if sst > 0.0 {
      DivideIsScale(sse, sst);
    }
  }

  method FitLeastSquares(features: Matrix, y: Vec) returns (fit: Option<Fit>)
    requires 0 < |features| == |y| ==> AtLeastWide(features, |features[0]|)
    ensures fit.None? <==> Coefficients(features, y).None?
    ensures fit.Some? ==>
      && 0 < |features| == |y| && |fit.value.coefficients| == |features[0]|
      && Some(fit.value.coefficients) == Coefficients(features, y)
      && fit.value == Report(features, y, fit.value.coefficients)
      && IsUniqueMinimum(features, y, fit.value.coefficients)
  {
    hide Dot, Solution, Gram, Projections, Sst;
    if |features| == 0 || |features| != |y| {
      return None;
    }
    var k := |features[0]|;
    var gram, moments := NormalEquations(features, y, k);
    var solved := SolveLinearSystem(gram, moments);
    if solved == None {
      return None;
    }
    var coef := solved.value;
    fit := Some(Report(features, y, coef));
    forall c: Vec | |c| == k
      ensures Sse(features, y, c) >= Sse(features, y, coef)
      ensures Sse(features, y, c) == Sse(features, y, coef) ==> c == coef
    {
      CoefficientsAreUniqueMinimum(features, y, c);
    }
  }
}
