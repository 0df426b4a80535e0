/** The two in-place solvers, the Python one on a list of rows and the native one on
    one flat table, against the elimination on whole rows. */
module Solvers {
  import opened Vectors
  import opened GaussJordan

  /** Columns `from`.. of a row divided; the earlier ones untouched. */
  method DivideFrom(row: Vector, from: nat, divisor: real) returns (r: Vector)
    requires from <= |row| && divisor != 0.0
    ensures |r| == |row| && forall j :: 0 <= j < |row| ==> r[j] == if j < from then row[j] else row[j] / divisor
  {
    r := row;
    for column := from to |row|
      invariant |r| == |row|
      invariant forall j :: 0 <= j < |row| ==> r[j] == if from <= j < column then row[j] / divisor else row[j]
    {
      r := r[column := r[column] / divisor];
    }
  }

  /** Columns `from`.. of a row minus a multiple of the pivot row's. */
  method SubtractFrom(row: Vector, from: nat, factor: real, pivotRow: Vector) returns (r: Vector)
    requires from <= |row| == |pivotRow|
    ensures |r| == |row|
    ensures forall j :: 0 <= j < |row| ==> r[j] == if j < from then row[j] else row[j] - factor * pivotRow[j]
  {
    r := row;
    for column := from to |row|
      invariant |r| == |row|
      invariant forall j :: 0 <= j < |row| ==>
                r[j] == if from <= j < column then row[j] - factor * pivotRow[j] else row[j]
    {
      r := r[column := r[column] - factor * pivotRow[column]];
    }
  }

  /** Leaving out the leading zeros makes no difference to a division ... */
  lemma TailOver(row: Vector, from: nat, d: real, r: Vector)
    requires d != 0.0 && |r| == |row| && (forall j :: 0 <= j < |row| && j < from ==> row[j] == 0.0)
    requires forall j :: 0 <= j < |row| ==> r[j] == if j < from then row[j] else row[j] / d
    ensures r == Over(row, d)
  {
  }

  /** ... nor to a subtraction. */
  lemma TailAxpy(row: Vector, from: nat, factor: real, pivotRow: Vector, r: Vector)
    requires |r| == |row| == |pivotRow| && (forall j :: 0 <= j < |row| && j < from ==> pivotRow[j] == 0.0)
    requires forall j :: 0 <= j < |row| ==> r[j] == if j < from then row[j] else row[j] - factor * pivotRow[j]
    ensures r == Axpy(row, -factor, pivotRow)
  {
    forall j | 0 <= j < |row| ensures r[j] == Axpy(row, -factor, pivotRow)[j] { Negated(factor, pivotRow[j]); }
  }

  lemma Negated(factor: real, x: real)
    ensures Times(-factor, x) == -(factor * x)
    ensures x == 0.0 ==> factor * x == 0.0
  {
  }

  /** The first row with the largest pivot candidate. */
  method SelectRow(rows: Matrix, pivot: nat, size: nat) returns (selected: nat)
    requires Augmented(rows, size) && pivot < size
    ensures selected == Select(rows, pivot, size)
  {
    selected := pivot;
    for row := pivot + 1 to size
      invariant selected == Select(rows, pivot, row)
    {
      if Abs(rows[row][pivot]) > Abs(rows[selected][pivot]) { selected := row; }
    }
  }

  /** The elimination loop over all rows but the pivot row. */
  method EliminateRows(scaled: Matrix, size: nat, pivot: nat) returns (rows: Matrix)
    requires Augmented(scaled, size) && pivot < size
    requires forall j :: 0 <= j < pivot ==> scaled[pivot][j] == 0.0
    ensures rows == Eliminate(scaled, pivot)
  {
    rows := scaled;
    for row := 0 to size
      invariant Augmented(rows, size)
      invariant forall k :: 0 <= k < size ==> rows[k] == if k < row then Eliminate(scaled, pivot)[k] else scaled[k]
    {
      if row != pivot {
        assert rows[pivot] == scaled[pivot] && rows[row] == scaled[row];
        var reduced := SubtractFrom(rows[row], pivot, rows[row][pivot], rows[pivot]);
        TailAxpy(rows[row], pivot, rows[row][pivot], rows[pivot], reduced);
        rows := rows[row := reduced];
      }
    }
  }

  /** One round of _solve: select, swap whole rows, divide, eliminate. */
  method PivotOn(before: Matrix, size: nat, pivot: nat) returns (r: Result<Matrix>)
    requires Augmented(before, size) && pivot < size && Reduced(before, size, pivot)
    ensures r == PivotStep(before, size, pivot)
  {
    var rows := before;
    var selected := SelectRow(rows, pivot, size);
    if Abs(rows[selected][pivot]) <= TOLERANCE { return Singular; }
    rows := rows[pivot := rows[selected]][selected := rows[pivot]];
    assert forall j :: 0 <= j < pivot ==> rows[pivot][j] == before[selected][j] == 0.0;
    var divisor := rows[pivot][pivot];
    var divided := DivideFrom(rows[pivot], pivot, divisor);
    TailOver(rows[pivot], pivot, divisor, divided);
    assert forall j :: 0 <= j < pivot ==> divided[j] == rows[pivot][j];
    rows := rows[pivot := divided];
    rows := EliminateRows(rows, size, pivot);
    r := Ok(rows);
  }

  /** _solve of the Python reference. */
  method Solve(matrix: Matrix, right: Vector) returns (r: Result<Vector>)
    requires Square(matrix, |right|)
    ensures r == Solution(matrix, right) && Explained(matrix, right, r)
  {
    SolutionIsExplained(matrix, right);
    var size := |right|;
    var rows := Augment(matrix, right);
    for pivot := 0 to size
      invariant Augmented(rows, size) && Reduced(rows, size, pivot)
      invariant Reduce(rows, size, pivot) == Reduce(Augment(matrix, right), size, 0)
    {
      var next := PivotOn(rows, size, pivot);
      if !next.Ok? { return Singular; }
      StepReduces(rows, size, pivot);
      rows := next.value;
    }
    r := Ok(LastColumn(rows, size));
  }

  // -------------------------------------------------------------- flat table

  /** The native table as a list of rows. */
  ghost function Rows(table: array2<real>): Matrix
    reads table
  {
    seq(table.Length0, (r: nat) requires r < table.Length0 reads table =>
      seq(table.Length1, (c: nat) requires c < table.Length1 reads table => table[r, c]))
  }

  /** The native swap exchanges only columns pivot.. of two rows. */
  method SwapTail(table: array2<real>, pivot: nat, selected: nat)
    requires pivot <= table.Length1 && pivot < table.Length0 && selected < table.Length0
    modifies table
    ensures forall r, c :: 0 <= r < table.Length0 && 0 <= c < table.Length1 ==>
      table[r, c] == (if c < pivot then old(table[r, c]) else if r == pivot then old(table[selected, c])
      else if r == selected then old(table[pivot, c]) else old(table[r, c]))
  {
    for column := pivot to table.Length1
      invariant forall r, c :: 0 <= r < table.Length0 && 0 <= c < table.Length1 ==>
        table[r, c] == (if c < pivot || c >= column then old(table[r, c])
                        else if r == pivot then old(table[selected, c])
        else if r == selected then old(table[pivot, c]) else old(table[r, c]))
    {
      var x := table[pivot, column];
      table[pivot, column] := table[selected, column];
      table[selected, column] := x;
    }
  }

  method DivideTail(table: array2<real>, pivot: nat, divisor: real)
    requires pivot <= table.Length1 && pivot < table.Length0 && divisor != 0.0
    modifies table
    ensures forall r, c :: 0 <= r < table.Length0 && 0 <= c < table.Length1 ==>
      table[r, c] == (if r == pivot && c >= pivot then old(table[r, c]) / divisor else old(table[r, c]))
  {
    for column := pivot to table.Length1
      invariant forall r, c :: 0 <= r < table.Length0 && 0 <= c < table.Length1 ==>
        table[r, c] == (if r == pivot && pivot <= c < column then old(table[r, c]) / divisor else old(table[r, c]))
    {
      table[pivot, column] := table[pivot, column] / divisor;
    }
  }

  method SubtractTail(table: array2<real>, pivot: nat, row: nat, factor: real)
    requires pivot <= table.Length1 && pivot < table.Length0 && row < table.Length0 && row != pivot
    modifies table
    ensures forall r, c :: 0 <= r < table.Length0 && 0 <= c < table.Length1 ==>
      table[r, c] == (if r == row && c >= pivot then old(table[r, c]) - factor * old(table[pivot, c])
                      else old(table[r, c]))
  {
    for column := pivot to table.Length1
      invariant forall r, c :: 0 <= r < table.Length0 && 0 <= c < table.Length1 ==>
        table[r, c] == (if r == row && pivot <= c < column then old(table[r, c]) - factor * old(table[pivot, c])
                        else old(table[r, c]))
    {
      table[row, column] := table[row, column] - factor * table[pivot, column];
    }
  }

  lemma SwapTailIsSwap(before: Matrix, after: Matrix, size: nat, pivot: nat, selected: nat)
    requires Augmented(before, size) && Augmented(after, size) && pivot <= selected < size &&
             Reduced(before, size, pivot)
    requires forall r, c {:trigger after[r][c]} :: 0 <= r < size && 0 <= c < size + 1 ==>
      after[r][c] == (if c < pivot then before[r][c] else if r == pivot then before[selected][c]
                      else if r == selected then before[pivot][c] else before[r][c])
    ensures after == Swap(before, pivot, selected)
    ensures forall j :: 0 <= j < pivot ==> after[pivot][j] == 0.0
  {
    forall r | 0 <= r < size ensures after[r] == Swap(before, pivot, selected)[r] {
      var other := if r == selected then pivot else if r == pivot then selected else r;
      assert Swap(before, pivot, selected)[r] == before[other];
      forall c | 0 <= c < size + 1 ensures after[r][c] == before[other][c] {
        if c < pivot { assert before[r][c] == before[other][c]; }
      }
    }
    assert forall j :: 0 <= j < pivot ==> before[pivot][j] == 0.0;
  }

  lemma DivideTailIsOver(before: Matrix, after: Matrix, size: nat, pivot: nat)
    requires Augmented(before, size) && Augmented(after, size) && pivot < size && before[pivot][pivot] != 0.0
    requires forall j :: 0 <= j < pivot ==> before[pivot][j] == 0.0
    requires forall r, c :: 0 <= r < size && 0 <= c < size + 1 ==>
      after[r][c] == if r == pivot && c >= pivot then before[r][c] / before[pivot][pivot] else before[r][c]
    ensures after == before[pivot := Over(before[pivot], before[pivot][pivot])]
    ensures forall j :: 0 <= j < pivot ==> after[pivot][j] == 0.0
  {
    TailOver(before[pivot], pivot, before[pivot][pivot], after[pivot]);
    assert forall r :: 0 <= r < size && r != pivot ==> after[r] == before[r];
  }

  /** The native elimination loop. */
  method EliminateTable(table: array2<real>, size: nat, pivot: nat)
    requires table.Length0 == size && table.Length1 == size + 1 && pivot < size
    requires forall j :: 0 <= j < pivot ==> table[pivot, j] == 0.0
    modifies table
    ensures Rows(table) == Eliminate(old(Rows(table)), pivot)
  {
    ghost var scaled := Rows(table);
    for row := 0 to size
      invariant forall k :: 0 <= k < size ==>
                Rows(table)[k] == if k < row then Eliminate(scaled, pivot)[k] else scaled[k]
    {
      if row != pivot {
        ghost var now := Rows(table);
        assert now[pivot] == scaled[pivot] && now[row] == scaled[row];
        SubtractTail(table, pivot, row, table[row, pivot]);
        TailAxpy(now[row], pivot, now[row][pivot], now[pivot], Rows(table)[row]);
        forall k | 0 <= k < size && k != row ensures Rows(table)[k] == now[k] {}
      }
    }
  }

  /** One round of solve_linear_system. What it leaves alone in columns before the
      pivot are zeros, so it has the effect of the round on whole rows. */
  method PivotTable(table: array2<real>, size: nat, pivot: nat) returns (ok: bool)
    requires table.Length0 == size && table.Length1 == size + 1 && pivot < size && Reduced(Rows(table), size, pivot)
    modifies table
    ensures ok <==> PivotStep(old(Rows(table)), size, pivot).Ok?
    ensures ok ==> Rows(table) == PivotStep(old(Rows(table)), size, pivot).value
  {
    var selected := SelectInTable(table, size, pivot);
    ghost var before := Rows(table);
    assert before[selected][pivot] == table[selected, pivot];
    if Abs(table[selected, pivot]) <= TOLERANCE { return false; }
    SwapTail(table, pivot, selected);
    ghost var swapped := Rows(table);
    SwapTailIsSwap(before, swapped, size, pivot, selected);
    assert swapped[pivot][pivot] == table[pivot, pivot];
    DivideTail(table, pivot, table[pivot, pivot]);
    DivideTailIsOver(swapped, Rows(table), size, pivot);
    forall j | 0 <= j < pivot ensures table[pivot, j] == 0.0 { assert Rows(table)[pivot][j] == table[pivot, j]; }
    EliminateTable(table, size, pivot);
    ok := true;
  }

  method SelectInTable(table: array2<real>, size: nat, pivot: nat) returns (selected: nat)
    requires table.Length0 == size && table.Length1 == size + 1 && pivot < size
    ensures selected == Select(Rows(table), pivot, size)
  {
    selected := pivot;
    ghost var rows := Rows(table);
    for row := pivot + 1 to size
      invariant selected == Select(rows, pivot, row)
    {
      assert rows[row][pivot] == table[row, pivot] && rows[selected][pivot] == table[selected, pivot];
      if Abs(table[row, pivot]) > Abs(table[selected, pivot]) { selected := row; }
    }
  }

  /** The elimination and the back reading of the native solver. */
  method SolveTable(matrix: Matrix, right: Vector) returns (r: Result<Vector>)
    requires Square(matrix, |right|)
    ensures r == Solution(matrix, right)
  {
    var size := |right|;
    var rows := Augment(matrix, right);
    var table := new real[size, size + 1]((r, c) => if 0 <= r < |rows| && 0 <= c < |rows[r]| then rows[r][c] else 0.0);
    forall r | 0 <= r < size ensures Rows(table)[r] == rows[r] {}
    assert Rows(table) == rows;
    for pivot := 0 to size
      invariant Augmented(Rows(table), size) && Reduced(Rows(table), size, pivot)
      invariant Reduce(Rows(table), size, pivot) == Reduce(Augment(matrix, right), size, 0)
    {
      ghost var before := Rows(table);
      var ok := PivotTable(table, size, pivot);
      if !ok { return Singular; }
      StepReduces(before, size, pivot);
    }
    var result: Vector := [];
    for row := 0 to size
      invariant |result| == row && forall k :: 0 <= k < row ==> result[k] == table[k, size]
    {
      result := result + [table[row, size]];
    }
    assert result == LastColumn(Rows(table), size);
    r := Ok(result);
  }

  /** solve_linear_system of the native runtime: the same answer, and the same
      refusals, as the Python solver; the empty system is refused here only. */
  method SolveLinearSystem(matrix: Matrix, right: Vector) returns (r: Result<Vector>)
    requires forall i :: 0 <= i < |matrix| ==> |matrix[i]| == |matrix|
    ensures r == if |right| == 0 || |matrix| != |right| then ShapeMismatch else Solution(matrix, right)
    ensures |matrix| == |right| > 0 ==> Explained(matrix, right, r)
  {
    if |matrix| != |right| || |right| == 0 { return ShapeMismatch; }
    SolutionIsExplained(matrix, right);
    r := SolveTable(matrix, right);
  }
}
