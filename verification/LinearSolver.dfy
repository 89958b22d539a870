/**
 Gauss-Jordan elimination with partial pivoting: the loop nest that reduces the augmented
 rows in place, a functional account of one column step, and what the answer means.
 */
module LinearSolver {
  import opened Wrappers
  import opened Vectors

  /** A column whose largest candidate is below this is given up on. */
  const PIVOT_MIN: real := 0.000000000001

  /** n rows of n coefficients and one right-hand side each. */
  ghost predicate Augmented(aug: Matrix, n: nat) {
    |aug| == n && forall i :: 0 <= i < n ==> |aug[i]| == n + 1
  }

  /**
   Every row is orthogonal to w. With w = z + [-1.0] this says that z solves the augmented
   system; with w = z + [0.0] it says that z is in the kernel of the coefficient part.
   */
  ghost predicate Null(aug: Matrix, w: Vec)
    requires |w| > 0 && Augmented(aug, |w| - 1)
  {
    forall i :: 0 <= i < |aug| ==> Dot(w, aug[i], |w|) == 0.0
  }

  /** The first k columns are those of the identity. */
  ghost predicate UnitColumns(aug: Matrix, n: nat, k: nat)
    requires Augmented(aug, n) && k <= n
  {
    forall i, c :: 0 <= i < n && 0 <= c < k ==> aug[i][c] == if i == c then 1.0 else 0.0
  }

  ghost predicate Square(matrix: Matrix, n: nat) {
    |matrix| == n && forall i :: 0 <= i < n ==> |matrix[i]| == n
  }

  /** z satisfies matrix * z = vector. */
  ghost predicate SolvesSystem(matrix: Matrix, vector: Vec, z: Vec)
    requires Square(matrix, |vector|) && |z| == |vector|
  {
    forall i :: 0 <= i < |vector| ==> Dot(z, matrix[i], |z|) == vector[i]
  }

  // ---------------------------------------------------------------- one column step

  /** The first row in [col, end) whose entry in column col is largest in absolute value. */
  function PivotRow(aug: Matrix, n: nat, col: nat, end: nat): (p: nat)
    requires Augmented(aug, n) && col < end <= n
    ensures col <= p < end
    ensures forall i :: col <= i < end ==> Abs(aug[i][col]) <= Abs(aug[p][col])
    ensures forall i :: col <= i < p ==> Abs(aug[i][col]) < Abs(aug[p][col])
  {
    if end == col + 1 then col
    else
      var p := PivotRow(aug, n, col, end - 1);
      if Abs(aug[end-1][col]) > Abs(aug[p][col]) then end - 1 else p
  }

  function Swapped(aug: Matrix, i: nat, j: nat): (r: Matrix)
    requires i < |aug| && j < |aug|
    ensures |r| == |aug|
  {
    aug[i := aug[j]][j := aug[i]]
  }

  /** Divide the entries from column col on by v; those to the left are not touched. */
  function ScaledRow(row: Vec, col: nat, v: real): (r: Vec)
    requires v != 0.0
    ensures |r| == |row|
  {
    seq(|row|, j requires 0 <= j < |row| => if j < col then row[j] else row[j] / v)
  }

  /** Subtract row[col] times the pivot row from column col on. */
  function ClearedRow(row: Vec, pivotRow: Vec, col: nat): (r: Vec)
    requires |row| == |pivotRow| && col < |row|
    ensures |r| == |row|
  {
    seq(|row|, j requires 0 <= j < |row| => if j < col then row[j] else row[j] - row[col] * pivotRow[j])
  }

  predicate Acceptable(aug: Matrix, n: nat, col: nat)
    requires Augmented(aug, n) && col < n
  {
    Abs(aug[PivotRow(aug, n, col, n)][col]) >= PIVOT_MIN
  }

  function Step(aug: Matrix, n: nat, col: nat): (r: Matrix)
    requires Augmented(aug, n) && col < n && Acceptable(aug, n, col)
    ensures Augmented(r, n)
  {
    var s := Swapped(aug, col, PivotRow(aug, n, col, n));
    var pivotRow := ScaledRow(s[col], col, s[col][col]);
    seq(n, i requires 0 <= i < n => if i == col then pivotRow else ClearedRow(s[i], pivotRow, col))
  }

  /** All the column steps from col on; None when some column has no acceptable pivot. */
  function Reduce(aug: Matrix, n: nat, col: nat): (r: Option<Matrix>)
    requires Augmented(aug, n) && col <= n
    ensures r.Some? ==> Augmented(r.value, n)
    decreases n - col
  {
    if col == n then Some(aug)
    else if !Acceptable(aug, n, col) then None
    else Reduce(Step(aug, n, col), n, col + 1)
  }

  function Augment(matrix: Matrix, vector: Vec): (aug: Matrix)
    requires Square(matrix, |vector|)
    ensures Augmented(aug, |vector|)
  {
    seq(|vector|, i requires 0 <= i < |vector| => matrix[i] + [vector[i]])
  }

  /** The answer of the solver as a function of its input. */
  function Solution(matrix: Matrix, vector: Vec): (x: Option<Vec>)
    requires Square(matrix, |vector|)
    ensures x.Some? ==> |x.value| == |vector|
  {
    var n := |vector|;
    match Reduce(Augment(matrix, vector), n, 0)
    case None => None
    case Some(r) => Some(seq(n, i requires 0 <= i < n => r[i][n]))
  }

  // ---------------------------------------------------------------- what a step preserves

  lemma ScaledIsMultiple(row: Vec, col: nat, v: real, inv: real)
    requires v != 0.0 && inv == 1.0 / v
    requires forall j :: 0 <= j < col && j < |row| ==> row[j] == 0.0
    ensures inv != 0.0
    ensures forall j :: 0 <= j < |row| ==> ScaledRow(row, col, v)[j] == inv * row[j]
  {
    forall j | 0 <= j < |row| ensures ScaledRow(row, col, v)[j] == inv * row[j] {
      DivideIsScale(row[j], v);
    }
  }

  lemma ClearedIsCombination(row: Vec, pivotRow: Vec, col: nat, g: real)
    requires |row| == |pivotRow| && col < |row| && g == -row[col]
    requires forall j :: 0 <= j < col ==> pivotRow[j] == 0.0
    ensures forall j :: 0 <= j < |row| ==> ClearedRow(row, pivotRow, col)[j] == row[j] + g * pivotRow[j]
  {
  }

  lemma ScaleKeepsRow(row: Vec, col: nat, v: real, w: Vec)
    requires |row| == |w| && v != 0.0
    requires forall j :: 0 <= j < col && j < |row| ==> row[j] == 0.0
    ensures Dot(w, ScaledRow(row, col, v), |w|) == 0.0 <==> Dot(w, row, |w|) == 0.0
  {
    var inv := 1.0 / v;
    ScaledIsMultiple(row, col, v, inv);
    MultipleIsZero(w, ScaledRow(row, col, v), inv, row, |w|);
  }

  lemma ClearKeepsRow(row: Vec, pivotRow: Vec, col: nat, w: Vec)
    requires |row| == |pivotRow| == |w| && col < |row|
    requires forall j :: 0 <= j < col ==> pivotRow[j] == 0.0
    requires Dot(w, pivotRow, |w|) == 0.0
    ensures Dot(w, ClearedRow(row, pivotRow, col), |w|) == Dot(w, row, |w|)
  {
    var g := -row[col];
    ClearedIsCombination(row, pivotRow, col, g);
    DotCombine(w, ClearedRow(row, pivotRow, col), row, g, pivotRow, |w|);
  }

  lemma SwapKeepsNull(aug: Matrix, i: nat, j: nat, w: Vec)
    requires |w| > 0 && Augmented(aug, |w| - 1) && i < |aug| && j < |aug|
    ensures Null(Swapped(aug, i, j), w) <==> Null(aug, w)
  {
    var s := Swapped(aug, i, j);
    assert s[i] == aug[j] && s[j] == aug[i];
    if Null(s, w) {
      forall k | 0 <= k < |aug| ensures Dot(w, aug[k], |w|) == 0.0 {
        var k' := if k == i then j else if k == j then i else k;
        assert s[k'] == aug[k];
      }
    }
  }

  /** The three row operations of one step neither lose nor add a solution or a kernel vector. */
  lemma StepKeepsNull(aug: Matrix, n: nat, col: nat, w: Vec)
    requires |w| == n + 1 && Augmented(aug, n) && col < n && Acceptable(aug, n, col)
    requires UnitColumns(aug, n, col)
    ensures Null(Step(aug, n, col), w) <==> Null(aug, w)
  {
    var p := PivotRow(aug, n, col, n);
    var s := Swapped(aug, col, p);
    SwapKeepsNull(aug, col, p, w);
    assert s[col] == aug[p];
    var pivotRow := ScaledRow(s[col], col, s[col][col]);
    ScaleKeepsRow(s[col], col, s[col][col], w);
    var r := Step(aug, n, col);
    assert r[col] == pivotRow;
    if Dot(w, pivotRow, n + 1) == 0.0 {
      forall i | 0 <= i < n ensures Dot(w, r[i], n + 1) == 0.0 <==> Dot(w, s[i], n + 1) == 0.0 {
        if i != col {
          ClearKeepsRow(s[i], pivotRow, col, w);
        }
      }
    } else {
      assert !Null(r, w) && !Null(s, w);
    }
  }

  /** After the step for column col that column is a unit column too, and the ones to its left stay so. */
  lemma StepExtendsIdentity(aug: Matrix, n: nat, col: nat)
    requires Augmented(aug, n) && col < n && Acceptable(aug, n, col)
    requires UnitColumns(aug, n, col)
    ensures UnitColumns(Step(aug, n, col), n, col + 1)
  {
    var p := PivotRow(aug, n, col, n);
    var s := Swapped(aug, col, p);
    var v := s[col][col];
    assert v != 0.0 && v / v == 1.0;
    var pivotRow := ScaledRow(s[col], col, v);
    var r := Step(aug, n, col);
    forall i, c | 0 <= i < n && 0 <= c < col + 1 ensures r[i][c] == if i == c then 1.0 else 0.0 {
      if c < col {
        assert aug[p][c] == 0.0 && aug[col][c] == 0.0;
        assert s[i][c] == if i == c then 1.0 else 0.0;
      }
    }
  }

  /** The whole elimination keeps the null vectors and ends in the identity. */
  lemma {:induction false} ReduceKeepsNull(aug: Matrix, n: nat, col: nat, w: Vec)
    requires |w| == n + 1 && Augmented(aug, n) && col <= n && UnitColumns(aug, n, col)
    requires Reduce(aug, n, col).Some?
    ensures UnitColumns(Reduce(aug, n, col).value, n, n)
    ensures Null(Reduce(aug, n, col).value, w) <==> Null(aug, w)
    decreases n - col
  {
    hide Dot, Step, Acceptable, UnitColumns, Null;
    if col < n {
      StepExtendsIdentity(aug, n, col);
      StepKeepsNull(aug, n, col, w);
      ReduceKeepsNull(Step(aug, n, col), n, col + 1, w);
    }
  }

  lemma IdentitySolution(r: Matrix, z: Vec)
    requires Augmented(r, |z|) && UnitColumns(r, |z|, |z|)
    ensures Null(r, z + [-1.0]) <==> forall i :: 0 <= i < |z| ==> z[i] == r[i][|z|]
  {
    var n := |z|;
    var w := z + [-1.0];
    forall i | 0 <= i < n ensures Dot(w, r[i], n + 1) == 0.0 <==> z[i] == r[i][n] {
      DotUnit(w, r[i], i, n);
    }
    if Null(r, w) {
      forall i | 0 <= i < n ensures z[i] == r[i][n] {
        assert Dot(w, r[i], n + 1) == 0.0;
      }
    }
  }

  /** Null vectors of the augmented rows, read off as statements about the system. */
  lemma AugmentMeans(matrix: Matrix, vector: Vec, z: Vec, t: real)
    requires Square(matrix, |vector|) && |z| == |vector|
    ensures Null(Augment(matrix, vector), z + [t]) <==>
      forall i :: 0 <= i < |z| ==> Dot(z, matrix[i], |z|) == -t * vector[i]
  {
    hide Dot;
    var n := |z|;
    var aug, w := Augment(matrix, vector), z + [t];
    forall i | 0 <= i < n ensures Dot(w, aug[i], n + 1) == Dot(z, matrix[i], n) + t * vector[i] {
      assert aug[i] == matrix[i] + [vector[i]];
      AugmentedRow(matrix[i], vector[i], z, t);
    }
    if Null(aug, w) {
      forall i | 0 <= i < n ensures Dot(z, matrix[i], n) == -t * vector[i] {
        assert Dot(w, aug[i], n + 1) == 0.0;
      }
    }
  }

  lemma AugmentedRow(row: Vec, last: real, z: Vec, t: real)
    requires |row| == |z|
    ensures Dot(z + [t], row + [last], |z| + 1) == Dot(z, row, |z|) + t * last
  {
    DotAgree(z + [t], row + [last], z, row, |z|);
  }

  /** Whenever the solver answers, its answer is the one and only solution. */
  lemma SolutionIsUnique(matrix: Matrix, vector: Vec, z: Vec)
    requires Square(matrix, |vector|) && |z| == |vector|
    requires Solution(matrix, vector).Some?
    ensures SolvesSystem(matrix, vector, z) <==> z == Solution(matrix, vector).value
  {
    hide Dot, Reduce;
    var aug, n := Augment(matrix, vector), |z|;
    AugmentMeans(matrix, vector, z, -1.0);
    ReduceKeepsNull(aug, n, 0, z + [-1.0]);
    var r := Reduce(aug, n, 0).value;
    IdentitySolution(r, z);
    assert z == Solution(matrix, vector).value <==> forall i :: 0 <= i < n ==> z[i] == r[i][n];
  }

  // ---------------------------------------------------------------- when there is no answer

  ghost predicate InKernel(matrix: Matrix, z: Vec)
    requires Square(matrix, |z|)
  {
    forall i :: 0 <= i < |z| ==> Dot(z, matrix[i], |z|) == 0.0
  }

  ghost predicate NonZero(z: Vec) {
    exists i :: 0 <= i < |z| && z[i] != 0.0
  }

  ghost predicate Singular(matrix: Matrix) {
    Square(matrix, |matrix|) && exists z: Vec :: |z| == |matrix| && NonZero(z) && InKernel(matrix, z)
  }

  /** A matrix with a non-trivial kernel is never answered. */
  lemma SingularIsRejected(matrix: Matrix, vector: Vec)
    requires Square(matrix, |vector|) && Singular(matrix)
    ensures Solution(matrix, vector) == None
  {
    hide Reduce;
    var n := |vector|;
    var k: Vec :| |k| == n && NonZero(k) && InKernel(matrix, k);
    if Solution(matrix, vector).Some? {
      var x := Solution(matrix, vector).value;
      SolutionIsUnique(matrix, vector, x);
      var y := seq(n, i requires 0 <= i < n => x[i] + k[i]);
      forall i | 0 <= i < n ensures Dot(y, matrix[i], n) == vector[i] {
        DotSymmetric(y, matrix[i], n);
        DotSymmetric(x, matrix[i], n);
        DotSymmetric(k, matrix[i], n);
        DotCombine(matrix[i], y, x, 1.0, k, n);
      }
      var i :| 0 <= i < n && k[i] != 0.0;
      assert y[i] != x[i];
      SolutionIsUnique(matrix, vector, y);
      assert false;
    }
  }

  /** The rows after c column steps; None once a column before has had no acceptable pivot. */
  function Steps(aug: Matrix, n: nat, c: nat): (r: Option<Matrix>)
    requires Augmented(aug, n) && c <= n
    ensures r.Some? ==> Augmented(r.value, n)
  {
    if c == 0 then Some(aug)
    else
      match Steps(aug, n, c - 1)
      case None => None
      case Some(r) => if Acceptable(r, n, c - 1) then Some(Step(r, n, c - 1)) else None
  }

  /** Elimination reaches column c, and there even the largest candidate is below the threshold. */
  ghost predicate GivesUpAt(aug: Matrix, n: nat, c: nat)
    requires Augmented(aug, n)
  {
    c < n && Steps(aug, n, c).Some? && !Acceptable(Steps(aug, n, c).value, n, c)
  }

  /** The column steps from the front and from the back are the same elimination. */
  lemma {:induction false} ReduceFollowsSteps(aug: Matrix, n: nat, c: nat)
    requires Augmented(aug, n) && c <= n && Steps(aug, n, c).Some?
    ensures Reduce(aug, n, 0) == Reduce(Steps(aug, n, c).value, n, c)
  {
    hide Step, Acceptable;
    if c > 0 {
      ReduceFollowsSteps(aug, n, c - 1);
    }
  }

  lemma {:induction false} StepsOrGivesUp(aug: Matrix, n: nat, c: nat)
    requires Augmented(aug, n) && c <= n
    ensures Steps(aug, n, c).Some? || exists d: nat :: d < c && GivesUpAt(aug, n, d)
  {
    hide Step, Acceptable;
    if c > 0 {
      StepsOrGivesUp(aug, n, c - 1);
      if Steps(aug, n, c - 1).Some? && Steps(aug, n, c).None? {
        assert GivesUpAt(aug, n, c - 1);
      }
    }
  }

  /** What the iterate has in common with the matrix elimination started from. */
  lemma {:induction false} StepsKeepNull(aug: Matrix, n: nat, c: nat, w: Vec)
    requires Augmented(aug, n) && |w| == n + 1 && c <= n && Steps(aug, n, c).Some?
    ensures UnitColumns(Steps(aug, n, c).value, n, c)
    ensures Null(Steps(aug, n, c).value, w) <==> Null(aug, w)
  {
    hide Dot, Step, Acceptable, UnitColumns, Null;
    if c == 0 {
      assert UnitColumns(aug, n, 0) by {
        NoColumns(aug, n);
      }
    } else {
      StepsKeepNull(aug, n, c - 1, w);
      var r := Steps(aug, n, c - 1).value;
      StepExtendsIdentity(r, n, c - 1);
      StepKeepsNull(r, n, c - 1, w);
    }
  }

  lemma NoColumns(aug: Matrix, n: nat)
    requires Augmented(aug, n)
    ensures UnitColumns(aug, n, 0)
  {
  }

  /** There is no answer exactly when elimination gives up at some column it reaches. */
  lemma RejectedExactly(matrix: Matrix, vector: Vec)
    requires Square(matrix, |vector|)
    ensures Solution(matrix, vector).None? <==> exists c: nat :: GivesUpAt(Augment(matrix, vector), |vector|, c)
  {
    hide Step, Acceptable;
    var aug, n := Augment(matrix, vector), |vector|;
    if c: nat :| GivesUpAt(aug, n, c) {
      ReduceFollowsSteps(aug, n, c);
    } else {
      StepsOrGivesUp(aug, n, n);
      ReduceFollowsSteps(aug, n, n);
    }
  }

  /** With nothing but zeros to choose from, the columns so far depend on each other. */
  lemma ZeroColumnMeansKernel(r: Matrix, n: nat, c: nat) returns (z: Vec)
    requires Augmented(r, n) && c < n && UnitColumns(r, n, c)
    requires forall i :: c <= i < n ==> r[i][c] == 0.0
    ensures |z| == n && NonZero(z) && Null(r, z + [0.0])
  {
    z := seq(n, j requires 0 <= j < n => if j < c then -r[j][c] else if j == c then 1.0 else 0.0);
    assert z[c] == 1.0;
    var w := z + [0.0];
    forall i | 0 <= i < n ensures Dot(w, r[i], n + 1) == 0.0 {
      DotUnit(w, r[i], i, c);
      assert Dot(w, r[i], c + 1) == 0.0;
      DotTail(w, r[i], c + 1, n + 1);
    }
  }

  lemma {:induction false} DotTail(w: Vec, r: Vec, c: nat, k: nat)
    requires c <= k <= |w| && k <= |r|
    requires forall j :: c <= j < k ==> w[j] == 0.0
    ensures Dot(w, r, k) == Dot(w, r, c)
  {
    if c < k {
      DotTail(w, r, c, k - 1);
    }
  }

  /**
   Where elimination gives up on a matrix that is not singular, the candidates are not all
   zero: the column is lost to the threshold alone.
   */
  lemma RejectionExplained(matrix: Matrix, vector: Vec, c: nat)
    requires Square(matrix, |vector|) && GivesUpAt(Augment(matrix, vector), |vector|, c)
    ensures
      var r := Steps(Augment(matrix, vector), |vector|, c).value;
      && (forall i :: c <= i < |vector| ==> Abs(r[i][c]) < PIVOT_MIN)
      && (!Singular(matrix) ==> exists i :: c <= i < |vector| && r[i][c] != 0.0)
  {
    var aug, n := Augment(matrix, vector), |vector|;
    var r := Steps(aug, n, c).value;
    StepsKeepNull(aug, n, c, seq(n + 1, _ => 0.0));
    if i: nat :| c <= i < n && r[i][c] != 0.0 {
    } else {
      var z := ZeroColumnMeansKernel(r, n, c);
      StepsKeepNull(aug, n, c, z + [0.0]);
      AugmentMeans(matrix, vector, z, 0.0);
      assert InKernel(matrix, z);
    }
  }

  // ---------------------------------------------------------------- the in-place algorithm

  /** The loop that divides one row by its pivot. */
  method NormalizeRow(aug: array<Vec>, n: nat, col: nat)
    requires aug.Length == n && col < n && |aug[col]| == n + 1 && aug[col][col] != 0.0
    modifies aug
    ensures aug[..] == old(aug[..])[col := ScaledRow(old(aug[col]), col, old(aug[col])[col])]
  {
    var pivotValue := aug[col][col];
    ghost var row, target := aug[col], ScaledRow(aug[col], col, pivotValue);
    for j := col to n + 1
      invariant forall k :: 0 <= k < n && k != col ==> aug[k] == old(aug[k])
      invariant |aug[col]| == n + 1
      invariant forall k :: 0 <= k <= n ==> aug[col][k] == if k < j then target[k] else row[k]
    {
      aug[col] := aug[col][j := aug[col][j] / pivotValue];
    }
    assert aug[col] == target;
  }

  /** The loop that subtracts a multiple of the pivot row from another row, skipped for a zero factor. */
  method EliminateRow(aug: array<Vec>, n: nat, row: nat, col: nat)
    requires aug.Length == n && col < n && row < n && row != col
    requires |aug[row]| == |aug[col]| == n + 1
    modifies aug
    ensures aug[..] == old(aug[..])[row := ClearedRow(old(aug[row]), old(aug[col]), col)]
  {
    var factor := aug[row][col];
    ghost var before, target := aug[row], ClearedRow(aug[row], aug[col], col);
    if factor == 0.0 {
      assert target == before;
      return;
    }
    for j := col to n + 1
      invariant forall k :: 0 <= k < n && k != row ==> aug[k] == old(aug[k])
      invariant |aug[row]| == n + 1
      invariant forall k :: 0 <= k <= n ==> aug[row][k] == if k < j then target[k] else before[k]
    {
      aug[row] := aug[row][j := aug[row][j] - factor * aug[col][j]];
    }
    assert aug[row] == target;
  }

  /** The inner loop over the rows: every other row is cleared by the pivot row. */
  method ClearOthers(aug: array<Vec>, n: nat, col: nat)
    requires aug.Length == n && Augmented(aug[..], n) && col < n
    modifies aug
    ensures Augmented(aug[..], n) && aug[col] == old(aug[col])
    ensures forall k :: 0 <= k < n && k != col ==> aug[k] == ClearedRow(old(aug[k]), old(aug[col]), col)
  {
    hide ClearedRow;
    ghost var before := aug[..];
    assert forall k :: 0 <= k < n ==> |before[k]| == n + 1;
    for row := 0 to n
      invariant aug[col] == before[col]
      invariant forall k :: 0 <= k < n && k != col ==>
        aug[k] == if k < row then ClearedRow(before[k], before[col], col) else before[k]
    {
      if row == col {
        continue;
      }
      label here:
      EliminateRow(aug, n, row, col);
      assert forall k :: 0 <= k < n && k != row ==> aug[k] == aug[..][k] == old@here(aug[..])[k];
      assert aug[row] == aug[..][row];
    }
  }

  /** One pass of the outer loop: false when the best pivot is too small. */
  method EliminateColumn(aug: array<Vec>, n: nat, col: nat) returns (ok: bool)
    requires aug.Length == n && Augmented(aug[..], n) && col < n
    modifies aug
    ensures ok == Acceptable(old(aug[..]), n, col)
    ensures ok ==> aug[..] == Step(old(aug[..]), n, col)
  {
    ghost var before := aug[..];
    var pivot := PivotRow(aug[..], n, col, n);
    if Abs(aug[pivot][col]) < PIVOT_MIN {
      return false;
    }
    if pivot != col {
      aug[col], aug[pivot] := aug[pivot], aug[col];
    }
    ghost var swapped := Swapped(before, col, pivot);
    assert aug[..] == swapped;
    assert forall k :: 0 <= k < n ==> |swapped[k]| == n + 1;

    hide ClearedRow, ScaledRow;
    NormalizeRow(aug, n, col);
    assert aug[col] == ScaledRow(swapped[col], col, swapped[col][col]);
    assert forall k :: 0 <= k < n && k != col ==> aug[k] == aug[..][k] == swapped[k];
    ClearOthers(aug, n, col);
    ok := true;
    assert aug[..] == Step(before, n, col);
  }

  method SolveLinearSystem(matrix: Matrix, vector: Vec) returns (x: Option<Vec>)
    requires Square(matrix, |vector|)
    ensures x == Solution(matrix, vector)
    ensures x.Some? ==> |x.value| == |vector|
    ensures x.Some? ==> forall z: Vec :: |z| == |vector| ==> (SolvesSystem(matrix, vector, z) <==> z == x.value)
  {
    var n := |vector|;
    var aug := new Vec[n];
    for i := 0 to n
      invariant forall k :: 0 <= k < i ==> aug[k] == matrix[k] + [vector[k]]
    {
      aug[i] := matrix[i] + [vector[i]];
    }
    assert aug[..] == Augment(matrix, vector);

    for col := 0 to n
      invariant Augmented(aug[..], n)
      invariant Reduce(aug[..], n, col) == Reduce(Augment(matrix, vector), n, 0)
    {
      var ok := EliminateColumn(aug, n, col);
      if !ok {
        return None;
      }
    }

    var rows := aug[..];
    x := Some(seq(n, i requires 0 <= i < n => rows[i][n]));
    forall z: Vec | |z| == n ensures SolvesSystem(matrix, vector, z) <==> z == x.value {
      SolutionIsUnique(matrix, vector, z);
    }
  }
}
