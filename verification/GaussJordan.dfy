/** The linear solver of the MVDR reference: Gauss-Jordan elimination with partial
    pivoting on the matrix extended by its right-hand side. */
module GaussJordan {
  import opened Vectors

  datatype Result<+T> = Ok(value: T) | Singular | ShapeMismatch | ZeroDenominator

  const TOLERANCE: real := 0.000000000001

  function Abs(x: real): real { if x < 0.0 then -x else x }

  /** n rows of n coefficients and a right-hand side. */
  ghost predicate Augmented(rows: Matrix, n: nat) {
    |rows| == n && forall r :: 0 <= r < n ==> |rows[r]| == n + 1
  }

  function Augment(matrix: Matrix, right: Vector): Matrix
    requires |matrix| == |right|
  {
    seq(|right|, (r: nat) requires r < |right| => matrix[r] + [right[r]])
  }

  /** x satisfies every row. */
  ghost predicate Solves(rows: Matrix, x: Vector)
    requires Augmented(rows, |x|)
  {
    forall r :: 0 <= r < |x| ==> Dot(rows[r], x + [-1.0]) == 0.0
  }

  // ------------------------------------------------ elimination on whole rows

  /** The first row from `pivot` up to `end` with the largest entry in column `pivot`. */
  function Select(rows: Matrix, pivot: nat, end: nat): (s: nat)
    requires pivot < end <= |rows| && forall r :: 0 <= r < |rows| ==> pivot < |rows[r]|
    ensures pivot <= s < end
    ensures forall r :: pivot <= r < end ==> Abs(rows[r][pivot]) <= Abs(rows[s][pivot])
    ensures forall r :: pivot <= r < s ==> Abs(rows[r][pivot]) < Abs(rows[s][pivot])
  {
    if end == pivot + 1 then pivot
    else
      var best := Select(rows, pivot, end - 1);
      if Abs(rows[end - 1][pivot]) > Abs(rows[best][pivot]) then end - 1 else best
  }

  function Swap(rows: Matrix, i: nat, j: nat): Matrix
    requires i < |rows| && j < |rows|
  {
    rows[i := rows[j]][j := rows[i]]
  }

  /** Every other row minus its multiple of the pivot row. */
  function Eliminate(rows: Matrix, pivot: nat): Matrix
    requires pivot < |rows| && (forall r :: 0 <= r < |rows| ==> |rows[r]| == |rows[pivot]|) && pivot < |rows[pivot]|
  {
    seq(|rows|, (r: nat) requires r < |rows| =>
      if r == pivot then rows[r] else Axpy(rows[r], -rows[r][pivot], rows[pivot]))
  }

  function PivotStep(rows: Matrix, n: nat, pivot: nat): (r: Result<Matrix>)
    requires Augmented(rows, n) && pivot < n
    ensures r.Ok? ==> Augmented(r.value, n)
  {
    var selected := Select(rows, pivot, n);
    if Abs(rows[selected][pivot]) <= TOLERANCE then Singular
    else
      var swapped := Swap(rows, pivot, selected);
      Ok(Eliminate(swapped[pivot := Over(swapped[pivot], swapped[pivot][pivot])], pivot))
  }

  function Reduce(rows: Matrix, n: nat, pivot: nat): (r: Result<Matrix>)
    requires Augmented(rows, n) && pivot <= n
    ensures r.Ok? ==> Augmented(r.value, n)
    decreases n - pivot
  {
    if pivot == n then Ok(rows)
    else
      var step := PivotStep(rows, n, pivot);
      if step.Ok? then Reduce(step.value, n, pivot + 1) else step
  }

  function LastColumn(rows: Matrix, n: nat): Vector
    requires Augmented(rows, n)
  {
    seq(n, (r: nat) requires r < n => rows[r][n])
  }

  function Solution(matrix: Matrix, right: Vector): (r: Result<Vector>)
    requires Square(matrix, |right|)
  {
    var reduced := Reduce(Augment(matrix, right), |right|, 0);
    if reduced.Ok? then Ok(LastColumn(reduced.value, |right|)) else Singular
  }

  // ------------------------------------------------------------ correctness

  /** The columns before `pivot` are those of the identity. */
  ghost predicate Reduced(rows: Matrix, n: nat, pivot: nat)
    requires Augmented(rows, n) && pivot <= n
  {
    forall r, c :: 0 <= r < n && 0 <= c < pivot ==> rows[r][c] == if r == c then 1.0 else 0.0
  }

  lemma SwapKeepsSolutions(rows: Matrix, n: nat, i: nat, j: nat, x: Vector)
    requires Augmented(rows, n) && i < n && j < n && |x| == n
    ensures Augmented(Swap(rows, i, j), n)
    ensures Solves(Swap(rows, i, j), x) <==> Solves(rows, x)
  {
    var s := Swap(rows, i, j);
    assert s[i] == rows[j] && s[j] == rows[i];
    assert forall r :: 0 <= r < n && r != i && r != j ==> s[r] == rows[r];
  }

  lemma ScaleKeepsSolutions(rows: Matrix, n: nat, i: nat, d: real, x: Vector)
    requires Augmented(rows, n) && i < n && d != 0.0 && |x| == n
    ensures Augmented(rows[i := Over(rows[i], d)], n)
    ensures Solves(rows[i := Over(rows[i], d)], x) <==> Solves(rows, x)
  {
    DotOver(rows[i], d, x + [-1.0]);
    var s := rows[i := Over(rows[i], d)];
    assert forall r :: 0 <= r < n && r != i ==> s[r] == rows[r];
    assert Dot(s[i], x + [-1.0]) == 0.0 <==> Dot(rows[i], x + [-1.0]) == 0.0;
  }

  lemma EliminateKeepsSolutions(rows: Matrix, n: nat, pivot: nat, x: Vector)
    requires Augmented(rows, n) && pivot < n && |x| == n
    ensures Augmented(Eliminate(rows, pivot), n)
    ensures Solves(Eliminate(rows, pivot), x) <==> Solves(rows, x)
  {
    var s, y := Eliminate(rows, pivot), x + [-1.0];
    forall r | 0 <= r < n && r != pivot
      ensures Dot(s[r], y) == Dot(rows[r], y) + Times(-rows[r][pivot], Dot(rows[pivot], y))
    {
      DotAxpy(rows[r], -rows[r][pivot], rows[pivot], y);
    }
    assert s[pivot] == rows[pivot];
  }

  /** One pivot step changes neither the set of solutions ... */
  lemma StepKeepsSolutions(rows: Matrix, n: nat, pivot: nat, x: Vector)
    requires Augmented(rows, n) && pivot < n && |x| == n && PivotStep(rows, n, pivot).Ok?
    ensures Solves(PivotStep(rows, n, pivot).value, x) <==> Solves(rows, x)
  {
    var swapped := Swap(rows, pivot, Select(rows, pivot, n));
    SwapKeepsSolutions(rows, n, pivot, Select(rows, pivot, n), x);
    ScaleKeepsSolutions(swapped, n, pivot, swapped[pivot][pivot], x);
    EliminateKeepsSolutions(swapped[pivot := Over(swapped[pivot], swapped[pivot][pivot])], n, pivot, x);
  }

  lemma SelfQuotient(d: real)
    requires d != 0.0
    ensures d / d == 1.0
  {
  }

  /** ... nor the columns already reduced, and it reduces one more. */
  lemma StepReduces(rows: Matrix, n: nat, pivot: nat)
    requires Augmented(rows, n) && pivot < n && Reduced(rows, n, pivot) && PivotStep(rows, n, pivot).Ok?
    ensures Reduced(PivotStep(rows, n, pivot).value, n, pivot + 1)
  {
    var swapped := Swap(rows, pivot, Select(rows, pivot, n));
    var d := swapped[pivot][pivot];
    var scaled := swapped[pivot := Over(swapped[pivot], d)];
    var next := PivotStep(rows, n, pivot).value;
    assert next == Eliminate(scaled, pivot);
    assert Reduced(swapped, n, pivot);
    forall c | 0 <= c < pivot ensures scaled[pivot][c] == 0.0 { assert swapped[pivot][c] == 0.0; }
    SelfQuotient(d);
    assert scaled[pivot][pivot] == 1.0;
    forall r, c | 0 <= r < n && 0 <= c < pivot + 1 ensures next[r][c] == if r == c then 1.0 else 0.0 {
      if r != pivot {
        assert next[r][c] == scaled[r][c] + Times(-scaled[r][pivot], scaled[pivot][c]);
      }
    }
  }

  lemma {:induction false} ReduceSolves(rows: Matrix, n: nat, pivot: nat, x: Vector)
    requires Augmented(rows, n) && pivot <= n && |x| == n && Reduced(rows, n, pivot) && Reduce(rows, n, pivot).Ok?
    ensures Solves(rows, x) <==> x == LastColumn(Reduce(rows, n, pivot).value, n)
    decreases n - pivot
  {
    if pivot == n {
      forall r | 0 <= r < n ensures Dot(rows[r], x + [-1.0]) == x[r] - rows[r][n] {
        assert rows[r][..n] == rows[r][..|rows[r]| - 1] && (x + [-1.0])[..n] == x;
        DotUnit(rows[r][..n], r, x);
      }
    } else {
      StepKeepsSolutions(rows, n, pivot, x);
      StepReduces(rows, n, pivot);
      ReduceSolves(PivotStep(rows, n, pivot).value, n, pivot + 1, x);
    }
  }

  /** A returned vector is the one and only solution of matrix * x == right. */
  lemma {:induction false} UniqueSolution(matrix: Matrix, right: Vector, x: Vector)
    requires Square(matrix, |right|) && |x| == |right| && Solution(matrix, right).Ok?
    ensures Mul(matrix, x) == right <==> x == Solution(matrix, right).value
  {
    var n, rows := |right|, Augment(matrix, right);
    ReduceSolves(rows, n, 0, x);
    forall r | 0 <= r < n ensures Dot(rows[r], x + [-1.0]) == Mul(matrix, x)[r] - right[r] {
      assert rows[r][..|rows[r]| - 1] == matrix[r] && (x + [-1.0])[..n] == x;
    }
    if Solves(rows, x) {
      forall r | 0 <= r < n ensures Mul(matrix, x)[r] == right[r] { assert Dot(rows[r], x + [-1.0]) == 0.0; }
    }
  }

  // -------------------------------------------------------------- refusals

  /** What row r makes of v; the right-hand side does not matter. */
  function Residual(rows: Matrix, v: Vector, r: nat): real
    requires Augmented(rows, |v|) && r < |v|
  {
    Dot(rows[r], v + [0.0])
  }

  /** v has entry 1 at p: the rows before `pivot` vanish on it, and no row makes more of it
      than the tolerance. */
  ghost predicate NearNull(rows: Matrix, v: Vector, p: nat, pivot: nat)
    requires Augmented(rows, |v|)
  {
    && p < |v| && v[p] == 1.0
    && (forall r :: 0 <= r < |v| && r < pivot ==> Residual(rows, v, r) == 0.0)
    && forall r :: 0 <= r < |v| ==> Abs(Residual(rows, v, r)) <= TOLERANCE
  }

  /** The vector on which the reduced rows vanish: 1 at the pivot, and the column above it
      with its sign changed. */
  function Kernel(rows: Matrix, n: nat, pivot: nat): Vector
    requires Augmented(rows, n) && pivot < n
  {
    seq(n, (j: nat) requires j < n => if j < pivot then -rows[j][pivot] else if j == pivot then 1.0 else 0.0)
  }

  /** A row whose first k entries are a unit vector's, against a vector. */
  lemma {:induction false} DotHead(row: Vector, v: Vector, i: nat, k: nat)
    requires |row| == |v| && k <= |row| && forall j :: 0 <= j < k ==> row[j] == if i == j then 1.0 else 0.0
    ensures Dot(row[..k], v[..k]) == if i < k then v[i] else 0.0
  {
    assert Unit(row[..k], i);
    DotUnit(row[..k], i, v[..k]);
  }

  /** Entries of v that are zero add nothing. */
  lemma {:induction false} DotTail(row: Vector, v: Vector, k: nat, m: nat)
    requires |row| == |v| && k <= m <= |row| && forall j :: k <= j < m ==> v[j] == 0.0
    ensures Dot(row[..m], v[..m]) == Dot(row[..k], v[..k])
    decreases m
  {
    if k < m {
      DotTail(row, v, k, m - 1);
      assert row[..m][..m - 1] == row[..m - 1] && v[..m][..m - 1] == v[..m - 1];
    }
  }

  lemma KernelResidual(rows: Matrix, n: nat, pivot: nat, r: nat)
    requires Augmented(rows, n) && pivot < n && Reduced(rows, n, pivot) && r < n
    ensures Residual(rows, Kernel(rows, n, pivot), r) == if r < pivot then 0.0 else rows[r][pivot]
  {
    var v := Kernel(rows, n, pivot) + [0.0];
    DotHead(rows[r], v, r, pivot);
    DotTail(rows[r], v, pivot + 1, n + 1);
    assert rows[r][..n + 1] == rows[r] && v[..n + 1] == v;
    assert rows[r][..pivot + 1][..pivot] == rows[r][..pivot] && v[..pivot + 1][..pivot] == v[..pivot];
  }

  /** A column without a pivot is, up to the tolerance, a combination of those before it. */
  lemma RefusedPivot(rows: Matrix, n: nat, pivot: nat)
    requires Augmented(rows, n) && pivot < n && Reduced(rows, n, pivot) && !PivotStep(rows, n, pivot).Ok?
    ensures NearNull(rows, Kernel(rows, n, pivot), pivot, pivot)
  {
    forall r | 0 <= r < n
      ensures Residual(rows, Kernel(rows, n, pivot), r) == if r < pivot then 0.0 else rows[r][pivot]
    {
      KernelResidual(rows, n, pivot, r);
    }
  }

  /** Undoing a pivot step leaves the residuals as they are, when the pivot row has none. */
  lemma StepResiduals(rows: Matrix, n: nat, pivot: nat, v: Vector, p: nat)
    requires Augmented(rows, n) && pivot < n && |v| == n && PivotStep(rows, n, pivot).Ok?
    requires NearNull(PivotStep(rows, n, pivot).value, v, p, pivot + 1)
    ensures NearNull(rows, v, p, pivot)
  {
    var selected, next, y := Select(rows, pivot, n), PivotStep(rows, n, pivot).value, v + [0.0];
    var swapped := Swap(rows, pivot, selected);
    var scaled := swapped[pivot := Over(swapped[pivot], swapped[pivot][pivot])];
    DotOver(swapped[pivot], swapped[pivot][pivot], y);
    NoQuotient(Residual(swapped, v, pivot), swapped[pivot][pivot]);
    assert Residual(next, v, pivot) == 0.0 && next[pivot] == scaled[pivot];
    forall r | 0 <= r < n ensures Residual(swapped, v, r) == Residual(next, v, r) {
      if r != pivot { DotAxpy(scaled[r], -scaled[r][pivot], scaled[pivot], y); }
    }
    SwapResiduals(rows, n, pivot, selected, v, p);
  }

  lemma NoQuotient(x: real, d: real)
    requires d != 0.0
    ensures x / d == 0.0 <==> x == 0.0
  {
    if x / d == 0.0 { assert x == (x / d) * d; }
  }

  lemma SwapResiduals(rows: Matrix, n: nat, i: nat, j: nat, v: Vector, p: nat)
    requires Augmented(rows, n) && i <= j < n && |v| == n
    requires Augmented(Swap(rows, i, j), n) && NearNull(Swap(rows, i, j), v, p, i)
    ensures NearNull(rows, v, p, i)
  {
    var s := Swap(rows, i, j);
    forall r | 0 <= r < n ensures Residual(rows, v, r) ==
      Residual(s, v, if r == i then j else if r == j then i else r) {}
  }

  lemma {:induction false} ReduceRefused(rows: Matrix, n: nat, pivot: nat) returns (v: Vector, p: nat)
    requires Augmented(rows, n) && pivot <= n && Reduced(rows, n, pivot) && !Reduce(rows, n, pivot).Ok?
    ensures |v| == n && NearNull(rows, v, p, pivot)
    decreases n - pivot
  {
    if PivotStep(rows, n, pivot).Ok? {
      StepReduces(rows, n, pivot);
      v, p := ReduceRefused(PivotStep(rows, n, pivot).value, n, pivot + 1);
      StepResiduals(rows, n, pivot, v, p);
    } else {
      v, p := Kernel(rows, n, pivot), pivot;
      RefusedPivot(rows, n, pivot);
    }
  }

  /** A vector with an entry 1 that the matrix maps to almost nothing. */
  ghost predicate AlmostSingular(matrix: Matrix, v: Vector, p: nat)
    requires Square(matrix, |v|)
  {
    p < |v| && v[p] == 1.0 &&
    forall i :: 0 <= i < |v| ==> -0.000000000001 <= Mul(matrix, v)[i] <= 0.000000000001
  }

  /** A system is refused only when the matrix maps some vector with an entry 1 to a vector
      whose entries all lie within the tolerance of the source. */
  lemma RefusedIsAlmostSingular(matrix: Matrix, right: Vector) returns (v: Vector, p: nat)
    requires Square(matrix, |right|) && !Solution(matrix, right).Ok?
    ensures |v| == |right| && AlmostSingular(matrix, v, p)
  {
    var rows := Augment(matrix, right);
    v, p := ReduceRefused(rows, |right|, 0);
    forall r | 0 <= r < |right| ensures Residual(rows, v, r) == Mul(matrix, v)[r] {
      assert rows[r][..|rows[r]| - 1] == matrix[r] && (v + [0.0])[..|v|] == v;
    }
  }

  /** x is the one and only solution of matrix * x == right. */
  ghost predicate OnlySolution(matrix: Matrix, right: Vector, x: Vector)
    requires Square(matrix, |right|)
  {
    |x| == |right| && Mul(matrix, x) == right &&
    forall y: Vector :: |y| == |right| && Mul(matrix, y) == right ==> y == x
  }

  /** What an answer says about the system: a vector is its only solution, and a refusal means
      that the matrix is singular up to the tolerance. */
  ghost predicate Explained(matrix: Matrix, right: Vector, r: Result<Vector>)
    requires Square(matrix, |right|)
  {
    match r
    case Ok(x) => OnlySolution(matrix, right, x)
    case Singular => exists v: Vector, p: nat :: |v| == |right| && AlmostSingular(matrix, v, p)
    case ShapeMismatch => false
    case ZeroDenominator => false
  }

  lemma SolutionIsExplained(matrix: Matrix, right: Vector)
    requires Square(matrix, |right|)
    ensures Explained(matrix, right, Solution(matrix, right))
  {
    if Solution(matrix, right).Ok? {
      UniqueSolution(matrix, right, Solution(matrix, right).value);
      forall y: Vector | |y| == |right| && Mul(matrix, y) == right ensures y == Solution(matrix, right).value {
        UniqueSolution(matrix, right, y);
      }
    } else {
      var v, p := RefusedIsAlmostSingular(matrix, right);
    }
  }

  /** A matrix that maps a vector other than zero to zero is always refused. */
  lemma SingularIsRefused(matrix: Matrix, right: Vector, v: Vector, p: nat)
    requires Square(matrix, |right|) && |v| == |right| && p < |v| && v[p] != 0.0
    requires forall i :: 0 <= i < |v| ==> Mul(matrix, v)[i] == 0.0
    ensures Solution(matrix, right).Singular?
  {
    if Solution(matrix, right).Ok? {
      var x := Solution(matrix, right).value;
      UniqueSolution(matrix, right, x);
      var y := Axpy(x, 1.0, v);
      assert y[p] == x[p] + v[p];
      forall i | 0 <= i < |v| ensures Mul(matrix, y)[i] == right[i] {
        DotAxpyRight(matrix[i], x, 1.0, v);
        assert Mul(matrix, v)[i] == 0.0 && Mul(matrix, x)[i] == right[i];
      }
      UniqueSolution(matrix, right, y);
    }
  }

  /** The bound itself: one equation in one unknown is refused exactly within the tolerance. */
  lemma OneEquation(a: real, b: real)
    ensures Solution([[a]], [b]).Singular? <==> -0.000000000001 <= a <= 0.000000000001
    ensures Solution([[a]], [b]).Ok? ==> Solution([[a]], [b]).value == [b / a]
  {
    var rows := Augment([[a]], [b]);
    assert rows[0] == [a] + [b] == [a, b];
    var step := PivotStep(rows, 1, 0);
    if step.Ok? {
      assert step.value[0] == Over([a, b], a);
      assert Reduce(step.value, 1, 1) == step;
    }
  }
}
