/**
 * How the views hand a bulk fill or modify of one line (a row, a column or a
 * diagonal from a start cell) down to their base, and from there to the
 * storage leaf; and what the offset view's whole-region fill and modify do.
 */
module Routing {
  import opened Grids
  import opened Views

  /** A bulk operation on one line: a fill (with a value or a supplier) or a modify. */
  datatype BulkOp = FillLine(line: Line, supplied: bool) | ModifyLine(line: Line)

  /** The operation and start cell a bulk call reaches at the leaf. */
  datatype Target = Target(op: BulkOp, row: int, col: int)

  /**
   * The operation a transposed view asks its base for, as the code does it:
   * fillColumn becomes the base's fillRow and modifyRow/modifyColumn swap,
   * but fillRow becomes the base's fillDiagonal, and fillDiagonal becomes
   * the base's fillRow when given a supplier (and stays fillDiagonal when
   * given a value).
   */
  function Flip(op: BulkOp): (f: BulkOp)
    ensures f.FillLine? == op.FillLine? && (f.FillLine? ==> f.supplied == op.supplied)
  {
    match op
    case FillLine(RowLine, s) => FillLine(DiagonalLine, s)
    case FillLine(ColumnLine, s) => FillLine(RowLine, s)
    case FillLine(DiagonalLine, s) => if s then FillLine(RowLine, s) else FillLine(DiagonalLine, s)
    case ModifyLine(RowLine) => ModifyLine(ColumnLine)
    case ModifyLine(ColumnLine) => ModifyLine(RowLine)
    case ModifyLine(DiagonalLine) => ModifyLine(DiagonalLine)
  }

  /** A line seen through a transpose: rows and columns swap, the diagonal stays. */
  function Mirror(line: Line): Line {
    match line
    case RowLine => ColumnLine
    case ColumnLine => RowLine
    case DiagonalLine => DiagonalLine
  }

  /** The operation a transposed view should ask its base for: the same operation on the mirrored line. */
  function IntendedFlip(op: BulkOp): (f: BulkOp)
    ensures f.FillLine? == op.FillLine? && (f.FillLine? ==> f.supplied == op.supplied)
    ensures f.line == Mirror(op.line)
  {
    match op
    case FillLine(line, s) => FillLine(Mirror(line), s)
    case ModifyLine(line) => ModifyLine(Mirror(line))
  }

  /** Flipping twice as intended gives back the original operation; the written Flip does not (see below). */
  lemma IntendedFlipInvolutive(op: BulkOp)
    ensures IntendedFlip(IntendedFlip(op)) == op
    ensures Flip(Flip(FillLine(RowLine, false))) != FillLine(RowLine, false)
  {
  }

  function TransposedOp(op: BulkOp, corrected: bool): BulkOp {
    if corrected then IntendedFlip(op) else Flip(op)
  }

  /**
   * Whether every view on the chain implements `op` itself (rather than
   * inheriting a default, which is not part of this model): row subsets
   * implement row fills and modifies, column subsets column ones, offsets
   * and transposes all of them, limits none.
   */
  predicate Overrides(v: View, op: BulkOp, corrected: bool) {
    match v
    case Leaf(_, _, _) => true
    case Rows(b, _, _) => op.line == RowLine && Overrides(b, op, corrected)
    case Cols(b, _, _) => op.line == ColumnLine && Overrides(b, op, corrected)
    case Offset(b, _, _, _) => Overrides(b, op, corrected)
    case Limit(_, _, _, _) => false
    case Transposed(b, _) => Overrides(b, TransposedOp(op, corrected), corrected)
  }

  /**
   * The leaf operation and start cell a bulk call on `v` at (r, c) turns
   * into, or None when an index array of a view on the way is indexed out
   * of range. A fill stays a fill with the same kind of source, a modify
   * stays a modify.
   */
  function Route(v: View, op: BulkOp, r: int, c: int, corrected: bool): (t: Option<Target>)
    requires Overrides(v, op, corrected)
    ensures t.Some? ==> t.value.op.FillLine? == op.FillLine?
    ensures t.Some? && op.FillLine? ==> t.value.op.supplied == op.supplied
  {
    match v
    case Leaf(_, _, _) => Some(Target(op, r, c))
    case Rows(b, _, idx) => if 0 <= r < |idx| then Route(b, op, idx[r], c, corrected) else None
    case Cols(b, _, idx) => if 0 <= c < |idx| then Route(b, op, r, idx[c], corrected) else None
    case Offset(b, _, dr, dc) => Route(b, op, dr + r, dc + c, corrected)
    case Transposed(b, _) => Route(b, TransposedOp(op, corrected), c, r, corrected)
  }

  /** Route, followed by the leaf's own check that the start cell lies inside it. */
  function Reach(v: View, op: BulkOp, r: int, c: int, corrected: bool): (t: Option<Target>)
    requires Overrides(v, op, corrected)
    ensures t.Some? <==> Route(v, op, r, c, corrected).Some? &&
                         0 <= Route(v, op, r, c, corrected).value.row < LeafOf(v).rows &&
                         0 <= Route(v, op, r, c, corrected).value.col < LeafOf(v).cols
    ensures t.Some? ==> t == Route(v, op, r, c, corrected)
  {
    match Route(v, op, r, c, corrected)
    case Some(t) => if 0 <= t.row < LeafOf(v).rows && 0 <= t.col < LeafOf(v).cols then Some(t) else None
    case None => None
  }

  /** No row or column subset on the chain selects the same base index twice. */
  predicate Distinct(v: View) {
    match v
    case Leaf(_, _, _) => true
    case Rows(b, _, idx) => Distinct(b) && forall i, k :: 0 <= i < k < |idx| ==> idx[i] != idx[k]
    case Cols(b, _, idx) => Distinct(b) && forall i, k :: 0 <= i < k < |idx| ==> idx[i] != idx[k]
    case Offset(b, _, _, _) => Distinct(b)
    case Limit(b, _, _, _) => Distinct(b)
    case Transposed(b, _) => Distinct(b)
  }

  /** Seen through a transpose, a cell keeps its position on the mirrored line. */
  lemma AlongMirrored(line: Line, r: int, c: int, i: int, j: int)
    ensures Along(Mirror(line), c, r, j, i) == Along(line, r, c, i, j)
  {
  }

  /**
   * With the corrected transpose, a bulk call follows its line: for every
   * cell (i, j) inside a proper view without repeated indices, the leaf cell
   * it stands for lies on the leaf line the call reaches exactly when (i, j)
   * lies on the view's line, and at the same position, so it receives the
   * same value.
   */
  lemma {:induction false} CorrectedRouteFollowsLine(v: View, op: BulkOp, r: int, c: int, i: int, j: int)
    requires Proper(v) && Distinct(v) && Overrides(v, op, true)
    requires Route(v, op, r, c, true).Some?
    requires 0 <= i < Shape(v).rows && 0 <= j < Shape(v).cols
    ensures Locate(v, i, j).Some?
    ensures var t := Route(v, op, r, c, true).value;
            var p := Locate(v, i, j).value;
            Along(t.op.line, t.row, t.col, p.row, p.col) == Along(op.line, r, c, i, j)
  {
    InShapeResolves(v, i, j);
    match v
    case Leaf(_, _, _) =>
    case Rows(b, _, idx) =>
      CorrectedRouteFollowsLine(b, op, idx[r], c, idx[i], j);
      assert idx[i] == idx[r] <==> i == r;
    case Cols(b, _, idx) =>
      CorrectedRouteFollowsLine(b, op, r, idx[c], i, idx[j]);
      assert idx[j] == idx[c] <==> j == c;
    case Offset(b, _, dr, dc) =>
      CorrectedRouteFollowsLine(b, op, dr + r, dc + c, dr + i, dc + j);
    case Transposed(b, _) =>
      CorrectedRouteFollowsLine(b, IntendedFlip(op), c, r, j, i);
      AlongMirrored(op.line, r, c, i, j);
  }

  /**
   * What a routed line update does to the view: after the leaf line reached
   * from (r, c) is updated, every cell (i, j) of a proper view without
   * repeated indices holds the value the update gives the k-th cell of the
   * view's own line when (i, j) is that cell, and keeps its value when (i, j)
   * is off the line.
   */
  lemma RoutedLineUpdate(g: Grid, v: View, op: BulkOp, r: int, c: int, u: Update, i: int, j: int)
    requires Proper(v) && Distinct(v) && Overrides(v, op, true) && Reach(v, op, r, c, true).Some?
    requires IsGrid(g, LeafOf(v).rows, LeafOf(v).cols)
    requires 0 <= i < Shape(v).rows && 0 <= j < Shape(v).cols
    ensures Resolve(v, i, j).Some?
    ensures var t := Reach(v, op, r, c, true).value;
            var p := Resolve(v, i, j).value;
            UpdateLine(g, t.op.line, t.row, t.col, u)[p.row][p.col] ==
              match Along(op.line, r, c, i, j)
              case Some(k) => Written(u, k, g[p.row][p.col])
              case None => g[p.row][p.col]
  {
    InShapeResolves(v, i, j);
    CorrectedRouteFollowsLine(v, op, r, c, i, j);
  }

  /**
   * The on-line half of CorrectedRouteFollowsLine, which needs no distinct
   * indices: a cell (i, j) on the view's line, inside a proper view, stands
   * for a leaf cell at the same position on the leaf line the call reaches.
   */
  lemma {:induction false} OnLineRouteFollowsLine(v: View, op: BulkOp, r: int, c: int, i: int, j: int)
    requires Proper(v) && Overrides(v, op, true) && Route(v, op, r, c, true).Some?
    requires 0 <= i < Shape(v).rows && 0 <= j < Shape(v).cols && Along(op.line, r, c, i, j).Some?
    ensures Locate(v, i, j).Some?
    ensures var t := Route(v, op, r, c, true).value;
            var p := Locate(v, i, j).value;
            Along(t.op.line, t.row, t.col, p.row, p.col) == Along(op.line, r, c, i, j)
  {
    InShapeResolves(v, i, j);
    match v
    case Leaf(_, _, _) =>
    case Rows(b, _, idx) =>
      OnLineRouteFollowsLine(b, op, idx[r], c, idx[i], j);
    case Cols(b, _, idx) =>
      OnLineRouteFollowsLine(b, op, r, idx[c], i, idx[j]);
    case Offset(b, _, dr, dc) =>
      OnLineRouteFollowsLine(b, op, dr + r, dc + c, dr + i, dc + j);
    case Transposed(b, _) =>
      AlongMirrored(op.line, r, c, i, j);
      OnLineRouteFollowsLine(b, IntendedFlip(op), c, r, j, i);
  }

  /**
   * The on-line half of RoutedLineUpdate, for any proper view, repeated
   * indices included: the k-th cell of the view's line holds the value the
   * update writes to the k-th cell.
   */
  lemma OnLineUpdate(g: Grid, v: View, op: BulkOp, r: int, c: int, u: Update, i: int, j: int)
    requires Proper(v) && Overrides(v, op, true) && Reach(v, op, r, c, true).Some?
    requires IsGrid(g, LeafOf(v).rows, LeafOf(v).cols)
    requires 0 <= i < Shape(v).rows && 0 <= j < Shape(v).cols && Along(op.line, r, c, i, j).Some?
    ensures Resolve(v, i, j).Some?
    ensures var t := Reach(v, op, r, c, true).value;
            var p := Resolve(v, i, j).value;
            UpdateLine(g, t.op.line, t.row, t.col, u)[p.row][p.col] ==
              Written(u, Along(op.line, r, c, i, j).value, g[p.row][p.col])
  {
    InShapeResolves(v, i, j);
    OnLineRouteFollowsLine(v, op, r, c, i, j);
  }

  /** Modifies, and fills of a diagonal with a value, are flipped the same way as written and as intended. */
  predicate FlipsAsIntended(op: BulkOp) {
    op.ModifyLine? || op == FillLine(DiagonalLine, false)
  }

  /**
   * For those operations the code's routing is the corrected one, so they
   * follow their line through every chain of views.
   */
  lemma {:induction false} WrittenRouteIsCorrected(v: View, op: BulkOp, r: int, c: int)
    requires FlipsAsIntended(op)
    ensures Overrides(v, op, false) == Overrides(v, op, true)
    ensures Overrides(v, op, false) ==> Route(v, op, r, c, false) == Route(v, op, r, c, true)
  {
    match v
    case Leaf(_, _, _) =>
    case Rows(b, _, idx) =>
      if 0 <= r < |idx| { WrittenRouteIsCorrected(b, op, idx[r], c); } else { WrittenRouteIsCorrected(b, op, 0, c); }
    case Cols(b, _, idx) =>
      if 0 <= c < |idx| { WrittenRouteIsCorrected(b, op, r, idx[c]); } else { WrittenRouteIsCorrected(b, op, r, 0); }
    case Offset(b, _, dr, dc) => WrittenRouteIsCorrected(b, op, dr + r, dc + c);
    case Limit(_, _, _, _) =>
    case Transposed(b, _) => WrittenRouteIsCorrected(b, Flip(op), c, r);
  }

  /**
   * As written, fillRow on a transposed 2 x 2 leaf from (0, 0) fills the
   * leaf's diagonal: view cell (0, 1), which stands for leaf cell (1, 0), is
   * on the view's row but not on the leaf line that is filled.
   */
  lemma TransposedFillRowMissesRow()
    ensures var v := Transposed(Leaf(2, 2, Other(0)), Other(0));
            var t := Route(v, FillLine(RowLine, false), 0, 0, false).value;
            Locate(v, 0, 1) == Some(Cell(1, 0)) &&
            Along(RowLine, 0, 0, 0, 1) == Some(1) &&
            Along(t.op.line, t.row, t.col, 1, 0) == None
  {
  }

  /**
   * As written, fillDiagonal with a supplier on a transposed 2 x 2 leaf from
   * (0, 0) fills the leaf's first row: leaf cell (0, 1), which is view cell
   * (1, 0) and off the view's diagonal, is filled, and view cell (1, 1) on the
   * diagonal is not.
   */
  lemma TransposedSuppliedDiagonalMissesDiagonal()
    ensures var v := Transposed(Leaf(2, 2, Other(0)), Other(0));
            var t := Route(v, FillLine(DiagonalLine, true), 0, 0, false).value;
            Along(t.op.line, t.row, t.col, 0, 1) == Some(1) && Along(DiagonalLine, 0, 0, 1, 0) == None &&
            Along(t.op.line, t.row, t.col, 1, 1) == None && Along(DiagonalLine, 0, 0, 1, 1) == Some(1)
  {
  }

  // ------------------------------------------------- offset fillAll / modifyAll

  /** The leaf values after a bulk call, and whether it completed. */
  datatype Run = Run(grid: Grid, ok: bool)

  /**
   * The offset view's fillAll / modifyAll: for base columns j from the column
   * offset up to the base's column count, the base's column operation from
   * the row offset. An access failure stops the sweep; the columns done
   * before it stay done.
   */
  function Sweep(g: Grid, base: View, op: BulkOp, dr: int, j: int, n: int, u: Update, corrected: bool): (run: Run)
    requires Overrides(base, op, corrected)
    ensures |run.grid| == |g| && forall i :: 0 <= i < |g| ==> |run.grid[i]| == |g[i]|
    decreases n - j
  {
    if j >= n then Run(g, true)
    else match Reach(base, op, dr, j, corrected)
      case Some(t) => Sweep(UpdateLine(g, t.op.line, t.row, t.col, u), base, op, dr, j + 1, n, u, corrected)
      case None => Run(g, false)
  }

  /** Updating column dc from row dr, then the block right of it, is the block from (dr, dc). */
  lemma BlockStep(g: Grid, m: nat, n: nat, dr: int, dc: int, u: Update)
    requires IsGrid(g, m, n)
    ensures Block(UpdateLine(g, ColumnLine, dr, dc, u), dr, dc + 1, u) == Block(g, dr, dc, u)
  {
    var h := UpdateLine(g, ColumnLine, dr, dc, u);
    var x, y := Block(h, dr, dc + 1, u), Block(g, dr, dc, u);
    assert |x| == |y|;
    forall i | 0 <= i < |x|
      ensures x[i] == y[i]
    {
      assert |x[i]| == |y[i]|;
      forall k | 0 <= k < |x[i]|
        ensures x[i][k] == y[i][k]
      {
      }
    }
  }

  /** A block that starts right of the last column is the grid itself. */
  lemma BlockBeyond(g: Grid, m: nat, n: nat, dr: int, dc: int, u: Update)
    requires IsGrid(g, m, n) && dc >= n
    ensures Block(g, dr, dc, u) == g
  {
    var y := Block(g, dr, dc, u);
    forall i | 0 <= i < |g|
      ensures y[i] == g[i]
    {
    }
  }

  /**
   * Offset fillAll / modifyAll directly over a storage leaf of shape m x n:
   * with the offsets inside the leaf, exactly the cells at or below row dr
   * and at or right of column dc change, each column filled downwards from
   * row dr; all other cells keep their values.
   */
  lemma {:induction false} SweepOverLeafIsBlock(g: Grid, m: nat, n: nat, k: Kernel, op: BulkOp, dr: int, dc: int, u: Update, corrected: bool)
    requires IsGrid(g, m, n) && op.line == ColumnLine
    requires 0 <= dr < m && 0 <= dc
    ensures Sweep(g, Leaf(m, n, k), op, dr, dc, n, u, corrected) == Run(Block(g, dr, dc, u), true)
    decreases n - dc
  {
    if dc >= n {
      BlockBeyond(g, m, n, dr, dc, u);
    } else {
      var h := UpdateLine(g, ColumnLine, dr, dc, u);
      assert IsGrid(h, m, n);
      SweepOverLeafIsBlock(h, m, n, k, op, dr, dc + 1, u, corrected);
      BlockStep(g, m, n, dr, dc, u);
    }
  }

  /** With a column offset left of the leaf or a row offset outside it, the sweep fails at once and changes nothing. */
  lemma SweepOverLeafFails(g: Grid, m: nat, n: nat, k: Kernel, op: BulkOp, dr: int, dc: int, u: Update, corrected: bool)
    requires IsGrid(g, m, n) && op.line == ColumnLine
    requires dc < n && (dc < 0 || dr < 0 || dr >= m)
    ensures Sweep(g, Leaf(m, n, k), op, dr, dc, n, u, corrected) == Run(g, false)
  {
  }

  /**
   * Offset fillAll / modifyAll over any proper base without repeated
   * indices, with the corrected transpose: when the sweep from column j0
   * completes, every cell (i, j) of the base at or below row dr and at or
   * right of column j0 holds the value written to the (i - dr)-th cell of its
   * column, and every other cell of the base keeps its value.
   */
  lemma {:induction false} SweepFollowsBlock(g: Grid, base: View, op: BulkOp, dr: int, j0: int, u: Update, i: int, j: int)
    requires Proper(base) && Distinct(base) && op.line == ColumnLine && Overrides(base, op, true)
    requires IsGrid(g, LeafOf(base).rows, LeafOf(base).cols)
    requires Sweep(g, base, op, dr, j0, Shape(base).cols, u, true).ok
    requires 0 <= i < Shape(base).rows && 0 <= j < Shape(base).cols
    ensures Resolve(base, i, j).Some?
    ensures var p := Resolve(base, i, j).value;
            Sweep(g, base, op, dr, j0, Shape(base).cols, u, true).grid[p.row][p.col] ==
              if i >= dr && j >= j0 then Written(u, i - dr, g[p.row][p.col]) else g[p.row][p.col]
    decreases Shape(base).cols - j0
  {
    InShapeResolves(base, i, j);
    if j0 < Shape(base).cols {
      var t := Reach(base, op, dr, j0, true).value;
      var h := UpdateLine(g, t.op.line, t.row, t.col, u);
      assert IsGrid(h, LeafOf(base).rows, LeafOf(base).cols);
      RoutedLineUpdate(g, base, op, dr, j0, u, i, j);
      SweepFollowsBlock(h, base, op, dr, j0 + 1, u, i, j);
    }
  }

  /**
   * With a repeated column index the sweep is not a block update: offset
   * modifyAll over a 1 x 2 leaf seen through columns [0, 0] modifies leaf
   * column 0 twice and leaves leaf column 1 alone.
   */
  lemma RepeatedColumnsModifyTwice()
    ensures var base := Cols(Leaf(1, 2, Other(0)), Other(0), [0, 0]);
            Sweep([[1, 5]], base, ModifyLine(ColumnLine), 0, 0, 2, Change(x => x + 1), true) == Run([[3, 5]], true)
  {
    var base := Cols(Leaf(1, 2, Other(0)), Other(0), [0, 0]);
    var u := Change(x => x + 1);
    var once := UpdateLine([[1, 5]], ColumnLine, 0, 0, u);
    assert once[0][0] == 2 && once[0][1] == 5;
    assert once[0] == [2, 5];
    var twice := UpdateLine(once, ColumnLine, 0, 0, u);
    assert twice[0][0] == 3 && twice[0][1] == 5;
    assert twice[0] == [3, 5];
  }
}
