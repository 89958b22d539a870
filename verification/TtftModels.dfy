/**
 The two latency models fitted to profiling rows: a straight line, and a line with one kink
 whose position is searched for among the measured prompt lengths.
 */
module TtftModels {
  import opened Wrappers
  import opened Vectors
  import opened LinearSolver
  import opened LeastSquares
  import opened Picking

  /** One measurement; prompt lengths are token counts. */
  datatype Row = Row(promptLen: int, ttft: real, success: bool)

  datatype LinearModel = LinearModel(fixed: real, tokenCost: real, fit: Fit)

  datatype PiecewiseModel = PiecewiseModel(
    breakpoint: int,
    fixed: real,
    slopeBefore: real,
    slopeAfter: real,
    slopeDelta: real,
    fit: Fit)

  /** The rows of successful requests, in order. */
  function Points(rows: seq<Row>): (p: seq<Row>)
    ensures |p| <= |rows|
  {
    if rows == [] then []
    else if rows[|rows|-1].success then Points(rows[..|rows|-1]) + [rows[|rows|-1]]
    else Points(rows[..|rows|-1])
  }

  function Lengths(points: seq<Row>): (x: seq<int>)
    ensures |x| == |points|
  {
    seq(|points|, i requires 0 <= i < |points| => points[i].promptLen)
  }

  function Times(points: seq<Row>): (y: Vec)
    ensures |y| == |points|
  {
    seq(|points|, i requires 0 <= i < |points| => points[i].ttft)
  }

  predicate Succeeded(r: Row) {
    r.success
  }

  /** x and y are the prompt lengths and the times of the successful rows and of no others, in order. */
  ghost predicate Samples(rows: seq<Row>, x: seq<int>, y: Vec) {
    exists picked: seq<Row> :: Picks(rows, Succeeded, picked) && Columns(picked, x, y)
  }

  ghost predicate Columns(picked: seq<Row>, x: seq<int>, y: Vec) {
    && |x| == |y| == |picked|
    && forall i :: 0 <= i < |picked| ==> picked[i].promptLen == x[i] && picked[i].ttft == y[i]
  }

  lemma {:induction false} PointsArePicked(rows: seq<Row>)
    ensures Picks(rows, Succeeded, Points(rows))
  {
    if rows == [] {
      PicksNothing(Succeeded);
    } else {
      hide Picks;
      var front, last := rows[..|rows|-1], rows[|rows|-1];
      assert rows == front + [last];
      PointsArePicked(front);
      PicksOneMore(front, Succeeded, Points(front), last);
    }
  }

  /** The rows that are fitted are the successful ones. */
  lemma PointsAreSamples(rows: seq<Row>)
    ensures Samples(rows, Lengths(Points(rows)), Times(Points(rows)))
  {
    PointsArePicked(rows);
    assert Columns(Points(rows), Lengths(Points(rows)), Times(Points(rows)));
  }

  lemma {:induction false} PointsConcat(a: seq<Row>, b: seq<Row>)
    ensures Points(a + b) == Points(a) + Points(b)
  {
    if b == [] {
      assert a + b == a;
    } else {
      var n := |b| - 1;
      PointsConcat(a, b[..n]);
      assert (a + b)[..|a| + n] == a + b[..n];
    }
  }

  /** A failed request, wherever it stands, changes neither the samples nor a fit. */
  lemma FailedRowIsIgnored(a: seq<Row>, failed: Row, b: seq<Row>)
    requires !failed.success
    ensures Points(a + [failed] + b) == Points(a + b)
  {
    PointsConcat(a + [failed], b);
    PointsConcat(a, [failed]);
    PointsConcat(a, b);
    assert [failed][..0] == [];
  }

  /** Every successful row counts as often as it occurs. */
  lemma PointsCount(rows: seq<Row>, r: Row)
    ensures multiset(Points(rows))[r] == if r.success then multiset(rows)[r] else 0
  {
    PointsArePicked(rows);
    PicksCount(rows, Succeeded, Points(rows), r);
  }

  // ---------------------------------------------------------------- the distinct lengths in order

  ghost predicate Increasing(u: seq<int>) {
    forall i, j :: 0 <= i < j < |u| ==> u[i] < u[j]
  }

  function Insert(u: seq<int>, v: int): (r: seq<int>)
    requires Increasing(u)
    ensures Increasing(r)
    ensures forall w :: w in r <==> w == v || w in u
  {
    if u == [] then [v]
    else if v < u[0] then [v] + u
    else if v == u[0] then u
    else
      assert forall i :: 1 <= i < |u| ==> u[1..][i-1] == u[i];
      var rest := Insert(u[1..], v);
      assert forall w :: w in u <==> w == u[0] || w in u[1..];
      PrependIncreasing(u[0], rest);
      [u[0]] + rest
  }

  lemma PrependIncreasing(v: int, rest: seq<int>)
    requires Increasing(rest) && forall w :: w in rest ==> v < w
    ensures Increasing([v] + rest)
  {
    var r := [v] + rest;
    forall i, j | 0 <= i < j < |r| ensures r[i] < r[j] {
      assert r[j] == rest[j-1] && rest[j-1] in rest;
      if i > 0 {
        assert r[i] == rest[i-1];
      }
    }
  }

  function SortedUnique(x: seq<int>): (u: seq<int>)
    ensures Increasing(u)
    ensures forall v :: v in u <==> v in x
  {
    if x == [] then [] else
    assert forall v :: v in x <==> v == x[|x|-1] || v in x[..|x|-1];
    Insert(SortedUnique(x[..|x|-1]), x[|x|-1])
  }

  /** The candidate kinks: every distinct length but the shortest and the longest. */
  function Interior(x: seq<int>): (b: seq<int>)
    ensures |SortedUnique(x)| < 4 ==> b == []
    ensures forall v :: v in b ==> v in x
  {
    var u := SortedUnique(x);
    if |u| < 4 then [] else u[1..|u|-1]
  }

  ghost predicate FourDifferent(x: seq<int>) {
    exists a, b, c, d :: a in x && b in x && c in x && d in x && a < b < c < d
  }

  ghost predicate Between(x: seq<int>, v: int) {
    exists low, high :: low in x && high in x && low < v < high
  }

  /** With four different lengths every length between two others is a candidate, and nothing else ever is. */
  lemma CandidatesExactly(x: seq<int>, v: int)
    ensures v in Interior(x) <==> FourDifferent(x) && v in x && Between(x, v)
    ensures Increasing(Interior(x))
  {
    hide SortedUnique, FourDifferent;
    FourIsFour(x);
    if |SortedUnique(x)| >= 4 {
      InnerIsBetween(SortedUnique(x), v);
      BetweenSame(x, SortedUnique(x), v);
    }
  }

  lemma BetweenSame(x: seq<int>, u: seq<int>, v: int)
    requires forall w :: w in u <==> w in x
    ensures Between(x, v) <==> Between(u, v)
  {
    if Between(x, v) {
      var low, high :| low in x && high in x && low < v < high;
      assert low in u && high in u;
    }
    if Between(u, v) {
      var low, high :| low in u && high in u && low < v < high;
      assert low in x && high in x;
    }
  }

  lemma InnerIsBetween(u: seq<int>, v: int)
    requires Increasing(u) && |u| >= 2
    ensures v in u[1..|u|-1] <==> v in u && Between(u, v)
  {
    var inner := u[1..|u|-1];
    if v in inner {
      var i :| 0 <= i < |inner| && inner[i] == v;
      assert u[0] < u[i + 1] < u[|u|-1] && u[0] in u && u[|u|-1] in u;
    }
    if v in u && Between(u, v) {
      var low, high :| low in u && high in u && low < v < high;
      var i, l, h := Place(u, v), Place(u, low), Place(u, high);
      assert l < i < h;
      assert inner[i - 1] == v;
    }
  }

  ghost function Place(u: seq<int>, v: int): (i: nat)
    requires v in u
    ensures i < |u| && u[i] == v
  {
    var i :| 0 <= i < |u| && u[i] == v;
    i
  }

  lemma FourIsFour(x: seq<int>)
    ensures |SortedUnique(x)| >= 4 <==> FourDifferent(x)
  {
    hide SortedUnique, FourDifferent;
    var u := SortedUnique(x);
    if |u| >= 4 {
      FirstFour(u, x);
    }
    if FourDifferent(x) {
      var a, b, c, d := FourOf(x);
      FourPlaces(u, a, b, c, d);
    }
  }

  lemma FourOf(x: seq<int>) returns (a: int, b: int, c: int, d: int)
    requires FourDifferent(x)
    ensures a in x && b in x && c in x && d in x && a < b < c < d
  {
    a, b, c, d :| a in x && b in x && c in x && d in x && a < b < c < d;
  }

  lemma FirstFour(u: seq<int>, x: seq<int>)
    requires |u| >= 4 && Increasing(u) && u[0] in x && u[1] in x && u[2] in x && u[3] in x
    ensures FourDifferent(x)
  {
    assert u[0] < u[1] < u[2] < u[3];
  }

  lemma FourPlaces(u: seq<int>, a: int, b: int, c: int, d: int)
    requires Increasing(u) && a in u && b in u && c in u && d in u && a < b < c < d
    ensures |u| >= 4
  {
    assert Place(u, a) < Place(u, b) < Place(u, c) < Place(u, d);
  }

  // ---------------------------------------------------------------- designs

  /** Rows of the same width whose first entry is 1. */
  ghost predicate HasIntercept(features: Matrix, k: nat) {
    0 < k && forall s :: 0 <= s < |features| ==> |features[s]| == k && features[s][0] == 1.0
  }

  function LineFeatures(x: seq<int>): (f: Matrix)
    ensures |f| == |x| && HasIntercept(f, 2) && AtLeastWide(f, 2)
  {
    seq(|x|, s requires 0 <= s < |x| => [1.0, x[s] as real])
  }

  function Ramp(v: int, breakpoint: int): real {
    if v > breakpoint then (v - breakpoint) as real else 0.0
  }

  function KinkFeatures(x: seq<int>, breakpoint: int): (f: Matrix)
    ensures |f| == |x| && HasIntercept(f, 3) && AtLeastWide(f, 3)
  {
    seq(|x|, s requires 0 <= s < |x| => [1.0, x[s] as real, Ramp(x[s], breakpoint)])
  }

  /** The kinked line with coefficients c, at prompt length v. */
  function KinkAt(c: Vec, breakpoint: int, v: int): real
    requires |c| == 3
  {
    c[0] + c[1] * (v as real) + c[2] * Ramp(v, breakpoint)
  }

  lemma KinkValue(x: seq<int>, breakpoint: int, c: Vec, s: nat)
    requires |c| == 3 && s < |x|
    ensures Fitted(KinkFeatures(x, breakpoint), c)[s] == KinkAt(c, breakpoint, x[s])
  {
    var row := KinkFeatures(x, breakpoint)[s];
    assert Dot(c, row, 0) == 0.0;
    assert Dot(c, row, 1) == c[0];
    assert Dot(c, row, 2) == c[0] + c[1] * (x[s] as real);
    assert Dot(c, row, 3) == Dot(c, row, 2) + c[2] * Ramp(x[s], breakpoint);
  }

  /** The kinked line is one straight line up to the breakpoint and another one from there, joined at it. */
  lemma KinkIsTwoLines(breakpoint: int, fixed: real, before: real, change: real, v: int)
    ensures
      var (b, at) := (breakpoint as real, v as real);
      KinkAt([fixed, before, change], breakpoint, v) ==
        if v <= breakpoint then fixed + before * at
        else (fixed + before * b) + (before + change) * (at - b)
  {
  }

  lemma LineValue(x: seq<int>, c: Vec, s: nat)
    requires |c| == 2 && s < |x|
    ensures Fitted(LineFeatures(x), c)[s] == c[0] + c[1] * (x[s] as real)
  {
    var row := LineFeatures(x)[s];
    assert Dot(c, row, 0) == 0.0;
    assert Dot(c, row, 1) == c[0];
    assert Dot(c, row, 2) == Dot(c, row, 1) + c[1] * (x[s] as real);
  }

  /** A straight line is a kinked line whose slope does not change, wherever the kink. */
  lemma LineIsKinkWithoutChange(x: seq<int>, y: Vec, breakpoint: int, a: real, b: real)
    requires |x| == |y|
    ensures Sse(KinkFeatures(x, breakpoint), y, [a, b, 0.0]) == Sse(LineFeatures(x), y, [a, b])
  {
    hide Dot, KinkFeatures, LineFeatures;
    var r := Residuals(KinkFeatures(x, breakpoint), y, [a, b, 0.0]);
    var r' := Residuals(LineFeatures(x), y, [a, b]);
    forall s | 0 <= s < |x| ensures r[s] == r'[s] {
      KinkValue(x, breakpoint, [a, b, 0.0], s);
      LineValue(x, [a, b], s);
    }
    assert r == r';
  }

  // ---------------------------------------------------------------- the share of variance explained

  /** With an intercept the constant model is among the candidates, so the fit is no worse than the mean. */
  lemma FitBeatsMean(features: Matrix, y: Vec, k: nat)
    requires |features| == |y| > 0 && HasIntercept(features, k) && Coefficients(features, y).Some?
    ensures
      var sse := Sse(features, y, Coefficients(features, y).value);
      0.0 <= sse <= Sst(y) && 0.0 <= RSquared(sse, Sst(y)) <= 1.0
  {
    hide Coefficients;
    var c := Coefficients(features, y).value;
    var flat: Vec := [Mean(y)] + seq(k - 1, _ => 0.0);
    var m := |y|;
    var r, d := Residuals(features, y, flat), seq(m, s requires 0 <= s < m => y[s] - Mean(y));
    forall s | 0 <= s < m ensures r[s] == d[s] {
      var row := features[s];
      assert Dot(flat, row, 0) == 0.0;
      assert Dot(flat, row, 1) == Mean(y) * row[0];
      DotTail(flat, row, 1, k);
    }
    assert r == d;
    CoefficientsAreUniqueMinimum(features, y, flat);
    DotSelf(Residuals(features, y, c), m);
    RatioInUnit(Sse(features, y, c), Sst(y));
  }

  lemma RatioInUnit(sse: real, sst: real)
    requires 0.0 <= sse <= sst
    ensures 0.0 <= RSquared(sse, sst) <= 1.0
  {
    if sst > 0.0 {
      RatioMonotone(0.0, sse, sst);
      RatioMonotone(sse, sst, sst);
    }
  }

  lemma RatioMonotone(a: real, b: real, sst: real)
    requires a <= b && sst > 0.0
    ensures a / sst <= b / sst
  {
    var q := (b - a) / sst;
    assert q * sst == b - a;
    assert b / sst == a / sst + q;
    if q < 0.0 {
      var p := Product(-q, sst);
      assert false;
    }
  }

  // ---------------------------------------------------------------- the searches

  method FitLinearModel(rows: seq<Row>) returns (model: Option<LinearModel>)
    ensures
      var x, y := Lengths(Points(rows)), Times(Points(rows));
      && Samples(rows, x, y)
      && (model.None? <==> |x| < 2 || Coefficients(LineFeatures(x), y).None?)
      && (model.Some? ==>
            && Coefficients(LineFeatures(x), y) == Some([model.value.fixed, model.value.tokenCost])
            && model.value.fit == Report(LineFeatures(x), y, [model.value.fixed, model.value.tokenCost])
            && IsUniqueMinimum(LineFeatures(x), y, [model.value.fixed, model.value.tokenCost])
            && 0.0 <= model.value.fit.r2 <= 1.0)
  {
    hide Dot, Coefficients, LineFeatures, Sse, Sst, Report, Samples;
    var points := Points(rows);
    PointsAreSamples(rows);
    if |points| < 2 {
      return None;
    }
    var x, y := Lengths(points), Times(points);
    var fit := FitLeastSquares(LineFeatures(x), y);
    if fit == None {
      return None;
    }
    var coef := fit.value.coefficients;
    assert coef == [coef[0], coef[1]];
    FitBeatsMean(LineFeatures(x), y, 2);
    ReportR2(LineFeatures(x), y, coef);
    model := Some(LinearModel(coef[0], coef[1], fit.value));
  }

  lemma ReportR2(features: Matrix, y: Vec, c: Vec)
    requires 0 < |features| == |y| && AtLeastWide(features, |c|)
    ensures Report(features, y, c).r2 == RSquared(Sse(features, y, c), Sst(y))
  {
  }

  // A candidate kink that was fitted.
  ghost predicate Fits(x: seq<int>, y: Vec, breakpoint: int)
    requires |x| == |y|
  {
    Coefficients(KinkFeatures(x, breakpoint), y).Some?
  }

  function KinkError(x: seq<int>, y: Vec, breakpoint: int, c: Vec): real
    requires |x| == |y| && |c| == 3
  {
    Sse(KinkFeatures(x, breakpoint), y, c)
  }

  /** The model is exactly the fit at its breakpoint. */
  ghost predicate IsFitAt(x: seq<int>, y: Vec, m: PiecewiseModel)
    requires |x| == |y| > 0
  {
    var c := [m.fixed, m.slopeBefore, m.slopeDelta];
    && Coefficients(KinkFeatures(x, m.breakpoint), y) == Some(c)
    && m.fit == Report(KinkFeatures(x, m.breakpoint), y, c)
    && m.slopeAfter == m.slopeBefore + m.slopeDelta
  }

  /** No coefficients at a fitted breakpoint beat the model, and earlier breakpoints do strictly worse. */
  ghost predicate BestAmong(x: seq<int>, y: Vec, m: PiecewiseModel, candidates: seq<int>)
    requires |x| == |y|
  {
    forall b, c: Vec :: b in candidates && Fits(x, y, b) && |c| == 3 ==>
      && KinkError(x, y, b, c) >= m.fit.sse
      && (b < m.breakpoint ==> KinkError(x, y, b, c) > m.fit.sse)
  }

  /** What the search knows after looking at some of the candidates. */
  ghost predicate BestSoFar(x: seq<int>, y: Vec, best: Option<PiecewiseModel>, candidates: seq<int>)
    requires |x| == |y| > 0
  {
    && (best.None? ==> forall b :: b in candidates ==> !Fits(x, y, b))
    && (best.Some? ==>
          && best.value.breakpoint in candidates
          && IsFitAt(x, y, best.value)
          && BestAmong(x, y, best.value, candidates))
  }

  lemma SkipCandidate(x: seq<int>, y: Vec, best: Option<PiecewiseModel>, candidates: seq<int>, b: int)
    requires |x| == |y| > 0 && BestSoFar(x, y, best, candidates) && !Fits(x, y, b)
    ensures BestSoFar(x, y, best, candidates + [b])
  {
    hide IsFitAt, KinkError, Fits;
  }

  /** A fitted candidate replaces the best only when its error is strictly smaller. */
  lemma WeighCandidate(x: seq<int>, y: Vec, best: Option<PiecewiseModel>, candidates: seq<int>, m: PiecewiseModel)
    requires |x| == |y| > 0 && BestSoFar(x, y, best, candidates)
    requires forall b :: b in candidates ==> b < m.breakpoint
    requires IsFitAt(x, y, m)
    requires forall c: Vec :: |c| == 3 ==> KinkError(x, y, m.breakpoint, c) >= m.fit.sse
    ensures BestSoFar(x, y, if best == None || m.fit.sse < best.value.fit.sse then Some(m) else best,
                      candidates + [m.breakpoint])
  {
    hide IsFitAt, KinkError, Fits;
  }

  lemma FitAtBreakpoint(x: seq<int>, y: Vec, fit: Fit, m: PiecewiseModel)
    requires |x| == |y| > 0 && |fit.coefficients| == 3
    requires m == PiecewiseModel(m.breakpoint, fit.coefficients[0], fit.coefficients[1],
                                 fit.coefficients[1] + fit.coefficients[2], fit.coefficients[2], fit)
    requires Coefficients(KinkFeatures(x, m.breakpoint), y) == Some(fit.coefficients)
    requires fit == Report(KinkFeatures(x, m.breakpoint), y, fit.coefficients)
    requires IsUniqueMinimum(KinkFeatures(x, m.breakpoint), y, fit.coefficients)
    ensures IsFitAt(x, y, m)
    ensures forall c: Vec :: |c| == 3 ==> KinkError(x, y, m.breakpoint, c) >= m.fit.sse
  {
    hide Coefficients, KinkFeatures, Dot, Residuals;
    var c := fit.coefficients;
    assert c == [c[0], c[1], c[2]];
  }

  /** What the search returns: the best kink of all, or nothing when no candidate was fitted. */
  ghost predicate SearchFound(x: seq<int>, y: Vec, best: Option<PiecewiseModel>)
    requires |x| == |y|
  {
    && (best.None? <==> forall b :: b in Interior(x) ==> !Fits(x, y, b))
    && (best.Some? ==>
          && |x| > 0 && best.value.breakpoint in Interior(x)
          && IsFitAt(x, y, best.value)
          && BestAmong(x, y, best.value, Interior(x))
          && 0.0 <= best.value.fit.sse <= Sst(y)
          && 0.0 <= best.value.fit.r2 <= 1.0)
  }

  method FitPiecewiseLinearModel(rows: seq<Row>) returns (best: Option<PiecewiseModel>)
    ensures Samples(rows, Lengths(Points(rows)), Times(Points(rows)))
    ensures SearchFound(Lengths(Points(rows)), Times(Points(rows)), best)
  {
    PointsAreSamples(rows);
    hide Samples, Dot, Coefficients, KinkFeatures, Sse, Sst, Report, IsFitAt, BestAmong, IsUniqueMinimum, SearchFound;
    var points := Points(rows);
    var x, y := Lengths(points), Times(points);
    var uniqueLengths := SortedUnique(x);
    best := None;
    if |uniqueLengths| < 4 {
      NothingToSearch(x, y);
      return;
    }
    assert x != [] by {
      assert uniqueLengths[0] in x;
    }
    var interior := Interior(x);
    for i := 0 to |interior|
      invariant BestSoFar(x, y, best, interior[..i])
    {
      var breakpoint := interior[i];
      assert interior[..i+1] == interior[..i] + [breakpoint];
      var model := FitLeastSquares(KinkFeatures(x, breakpoint), y);
      if model == None {
        SkipCandidate(x, y, best, interior[..i], breakpoint);
        continue;
      }
      var c := model.value.coefficients;
      var candidate := PiecewiseModel(breakpoint, c[0], c[1], c[1] + c[2], c[2], model.value);
      FitAtBreakpoint(x, y, model.value, candidate);
      WeighCandidate(x, y, best, interior[..i], candidate);
      if best == None || model.value.sse < best.value.fit.sse {
        best := Some(candidate);
      }
    }
    assert interior[..|interior|] == interior;
    SearchResult(x, y, best);
  }

  lemma NothingToSearch(x: seq<int>, y: Vec)
    requires |x| == |y| && |SortedUnique(x)| < 4
    ensures SearchFound(x, y, None)
  {
  }

  lemma SearchResult(x: seq<int>, y: Vec, best: Option<PiecewiseModel>)
    requires |x| == |y| > 0 && BestSoFar(x, y, best, Interior(x))
    ensures SearchFound(x, y, best)
  {
    hide Dot, Coefficients, KinkFeatures, Sse, Sst, BestAmong;
    if best.Some? {
      var m := best.value;
      assert Fits(x, y, m.breakpoint);
      FitBeatsMean(KinkFeatures(x, m.breakpoint), y, 3);
      ReportR2(KinkFeatures(x, m.breakpoint), y, [m.fixed, m.slopeBefore, m.slopeDelta]);
    }
  }

  /** The kinked model fits at least as well as any straight line over the same rows. */
  lemma PiecewiseBeatsLine(x: seq<int>, y: Vec, m: PiecewiseModel, a: real, b: real)
    requires |x| == |y| > 0 && m.breakpoint in Interior(x) && IsFitAt(x, y, m) && BestAmong(x, y, m, Interior(x))
    ensures m.fit.sse <= Sse(LineFeatures(x), y, [a, b])
    ensures m.fit.r2 >= RSquared(Sse(LineFeatures(x), y, [a, b]), Sst(y))
  {
    hide Dot, Coefficients, KinkFeatures, LineFeatures, Sse, Sst;
    LineIsKinkWithoutChange(x, y, m.breakpoint, a, b);
    var c := [m.fixed, m.slopeBefore, m.slopeDelta];
    assert KinkError(x, y, m.breakpoint, [a, b, 0.0]) >= m.fit.sse;
    var sst, line := Sst(y), Sse(LineFeatures(x), y, [a, b]);
    if sst > 0.0 {
      RatioMonotone(m.fit.sse, line, sst);
    }
  }

  // ---------------------------------------------------------------- when no model is returned

  /** At an interior breakpoint the three columns are independent. */
  lemma KinkColumnsIndependent(x: seq<int>, breakpoint: int, z: Vec)
    requires breakpoint in Interior(x)
    requires |z| == 3 && InKernel(Gram(KinkFeatures(x, breakpoint), 3), z)
    ensures !NonZero(z)
  {
    hide Dot, KinkFeatures, Gram, Fitted, FittedTo, InKernel, KinkAt, NonZero, Ramp;
    var u := SortedUnique(x);
    GramKernel(KinkFeatures(x, breakpoint), z);
    forall v | v in u ensures KinkAt(z, breakpoint, v) == 0.0 {
      var s :| 0 <= s < |x| && x[s] == v;
      KinkValue(x, breakpoint, z, s);
    }
    var i :| 1 <= i < |u| - 1 && u[i] == breakpoint;
    assert u[0] in u && u[i] in u && u[|u|-1] in u;
    KernelIsZero(z, u[0], breakpoint, u[|u|-1]);
  }

  lemma KernelIsZero(z: Vec, low: int, breakpoint: int, high: int)
    requires |z| == 3 && low < breakpoint < high
    requires KinkAt(z, breakpoint, low) == KinkAt(z, breakpoint, breakpoint) == KinkAt(z, breakpoint, high) == 0.0
    ensures !NonZero(z)
  {
    var l, b := low as real, breakpoint as real;
    assert z[2] * Ramp(low, breakpoint) == 0.0 && z[2] * Ramp(breakpoint, breakpoint) == 0.0;
    assert z[1] * (b - l) == 0.0;
    NoZeroDivisor(b - l, z[1]);
    assert z[1] == 0.0 && z[0] == 0.0;
    NoZeroDivisor(Ramp(high, breakpoint), z[2]);
  }
}
