/**
 * The values held by a storage leaf, seen as a rectangular grid, and the
 * updates a leaf performs for one cell or for one line of cells (a row, a
 * column or a diagonal walked from a start cell to the edge).
 */
module Grids {

  datatype Option<T> = None | Some(value: T)

  /** A leaf coordinate: (row, column). */
  datatype Cell = Cell(row: int, col: int)

  /** Row-major values of a leaf; IsGrid says it is rectangular. */
  type Grid = seq<seq<int>>

  predicate IsGrid(g: Grid, m: nat, n: nat) {
    |g| == m && forall i :: 0 <= i < m ==> |g[i]| == n
  }

  /** The three directions a bulk fill or modify walks from its start cell. */
  datatype Line = RowLine | ColumnLine | DiagonalLine

  /** The k-th cell of the line that starts at (r0, c0). */
  function Step(line: Line, r0: int, c0: int, k: nat): Cell {
    match line
    case RowLine => Cell(r0, c0 + k)
    case ColumnLine => Cell(r0 + k, c0)
    case DiagonalLine => Cell(r0 + k, c0 + k)
  }

  /** Where (i, j) lies on the line that starts at (r0, c0): its position, or None if it is off the line. */
  function Along(line: Line, r0: int, c0: int, i: int, j: int): (k: Option<nat>)
    ensures k.Some? ==> Step(line, r0, c0, k.value) == Cell(i, j)
    ensures k.None? ==> forall p: nat :: Step(line, r0, c0, p) != Cell(i, j)
  {
    match line
    case RowLine => if i == r0 && j >= c0 then Some(j - c0) else None
    case ColumnLine => if j == c0 && i >= r0 then Some(i - r0) else None
    case DiagonalLine => if i - r0 == j - c0 && i >= r0 then Some(i - r0) else None
  }

  /**
   * What is written into a cell: a fixed value, the k-th value of a supplier,
   * an increment (`add`) or a unary modifier (`modify`).
   */
  datatype Update =
    | Assign(x: int)
    | Supply(s: nat -> int)
    | Increase(a: int)
    | Change(f: int -> int)

  /** The updates a `fill` takes: a value or a supplier. */
  type Fill = u: Update | u.Assign? || u.Supply? witness Assign(0)

  /** The new value of a cell that held `v` and is the k-th cell the update reaches. */
  function Written(u: Update, k: nat, v: int): int {
    match u
    case Assign(x) => x
    case Supply(s) => s(k)
    case Increase(a) => v + a
    case Change(f) => f(v)
  }

  /** The grid after one cell is updated. */
  function UpdateCell(g: Grid, p: Cell, u: Update): (h: Grid)
    requires 0 <= p.row < |g| && 0 <= p.col < |g[p.row]|
  {
    g[p.row := g[p.row][p.col := Written(u, 0, g[p.row][p.col])]]
  }

  /** The grid after every cell of a line is updated, the k-th cell with the k-th value. */
  function UpdateLine(g: Grid, line: Line, r0: int, c0: int, u: Update): (h: Grid) {
    seq(|g|, i requires 0 <= i < |g| =>
      seq(|g[i]|, j requires 0 <= j < |g[i]| =>
        match Along(line, r0, c0, i, j)
        case Some(k) => Written(u, k, g[i][j])
        case None => g[i][j]))
  }

  /**
   * The grid after the trailing block from (dr, dc) is updated column by
   * column, each column walked downwards from row dr.
   */
  function Block(g: Grid, dr: int, dc: int, u: Update): (h: Grid) {
    seq(|g|, i requires 0 <= i < |g| =>
      seq(|g[i]|, j requires 0 <= j < |g[i]| =>
        if i >= dr && j >= dc then Written(u, i - dr, g[i][j]) else g[i][j]))
  }
}
