/**
 * A storage leaf over a two-dimensional array, and every region operation
 * issued through a view of it: the view remaps the coordinates, the leaf
 * checks its bounds and performs the write. A failed access (an index array
 * of a view indexed out of range, or a leaf coordinate outside the array)
 * changes nothing and reports false, standing for the exception the access
 * throws.
 */
module Storage {
  import opened Grids
  import opened Views
  import opened Routing

  /** One invocation of a multiply kernel: the kernel, the target region and the inner dimension. */
  datatype KernelCall = KernelCall(kernel: Kernel, target: View, complexity: int)

  class Store {
    const data: array2<int>
    const kernel: Kernel
    /** The kernel invocations made through this leaf's regions, oldest first. */
    var calls: seq<KernelCall>

    /** A zero-filled leaf of shape rows x cols whose regions multiply with `kernel`. */
    constructor (rows: nat, cols: nat, kernel: Kernel)
      ensures data.Length0 == rows && data.Length1 == cols && this.kernel == kernel
      ensures IsGrid(Grid(), rows, cols) && forall i, j :: 0 <= i < rows && 0 <= j < cols ==> Grid()[i][j] == 0
      ensures calls == []
    {
      data := new int[rows, cols]((i, j) => 0);
      this.kernel := kernel;
      calls := [];
    }

    /** This leaf as a region. */
    function Region(): View {
      Leaf(data.Length0, data.Length1, kernel)
    }

    /** `v` is this leaf or a chain of views over it. */
    predicate Over(v: View) {
      LeafOf(v) == Region()
    }

    /** The values held, row by row. */
    ghost function Grid(): Grid
      reads data
    {
      seq(data.Length0, i requires 0 <= i < data.Length0 reads data =>
        seq(data.Length1, j requires 0 <= j < data.Length1 reads data => data[i, j]))
    }

    ghost predicate Holds(g: Grid)
      reads data
    {
      IsGrid(g, data.Length0, data.Length1) &&
      forall i, j :: 0 <= i < data.Length0 && 0 <= j < data.Length1 ==> data[i, j] == g[i][j]
    }

    lemma HoldsIsGrid(g: Grid)
      requires Holds(g)
      ensures Grid() == g
    {
      var h := Grid();
      forall i | 0 <= i < |g|
        ensures h[i] == g[i]
      {
      }
    }

    // -------------------------------------------------------- element access

    /** get / doubleValue: the value at the leaf cell (r, c) is redirected to. */
    method Get(v: View, r: int, c: int) returns (x: Option<int>)
      requires Over(v)
      ensures x.Some? <==> Resolve(v, r, c).Some?
      ensures x.Some? ==> x.value == Grid()[Resolve(v, r, c).value.row][Resolve(v, r, c).value.col]
    {
      match Resolve(v, r, c)
      case Some(p) => x := Some(data[p.row, p.col]);
      case None => x := None;
    }

    /** The write shared by the single-cell operations. */
    method UpdateOne(v: View, r: int, c: int, u: Update) returns (ok: bool)
      requires Over(v)
      modifies data
      ensures ok == Resolve(v, r, c).Some?
      ensures Grid() == if ok then UpdateCell(old(Grid()), Resolve(v, r, c).value, u) else old(Grid())
    {
      ghost var g := Grid();
      match Resolve(v, r, c)
      case Some(p) =>
        data[p.row, p.col] := Written(u, 0, data[p.row, p.col]);
        ok := true;
        HoldsIsGrid(UpdateCell(g, p, u));
      case None =>
        ok := false;
        HoldsIsGrid(g);
    }

    /** set: the value lands in the one leaf cell (r, c) is redirected to. */
    method Set(v: View, r: int, c: int, x: int) returns (ok: bool)
      requires Over(v)
      modifies data
      ensures ok == Resolve(v, r, c).Some?
      ensures Grid() == if ok then UpdateCell(old(Grid()), Resolve(v, r, c).value, Assign(x)) else old(Grid())
    {
      ok := UpdateOne(v, r, c, Assign(x));
    }

    /** add: the addend is added to the one leaf cell (r, c) is redirected to. */
    method Add(v: View, r: int, c: int, addend: int) returns (ok: bool)
      requires Over(v)
      modifies data
      ensures ok == Resolve(v, r, c).Some?
      ensures Grid() == if ok then UpdateCell(old(Grid()), Resolve(v, r, c).value, Increase(addend)) else old(Grid())
    {
      ok := UpdateOne(v, r, c, Increase(addend));
    }

    /** fillOne with a value or a supplier: one value into the leaf cell (r, c) is redirected to. */
    method FillOne(v: View, r: int, c: int, src: Fill) returns (ok: bool)
      requires Over(v)
      modifies data
      ensures ok == Resolve(v, r, c).Some?
      ensures Grid() == if ok then UpdateCell(old(Grid()), Resolve(v, r, c).value, src) else old(Grid())
    {
      ok := UpdateOne(v, r, c, src);
    }

    /** modifyOne: the modifier is applied to the leaf cell (r, c) is redirected to. */
    method ModifyOne(v: View, r: int, c: int, modifier: int -> int) returns (ok: bool)
      requires Over(v)
      modifies data
      ensures ok == Resolve(v, r, c).Some?
      ensures Grid() == if ok then UpdateCell(old(Grid()), Resolve(v, r, c).value, Change(modifier)) else old(Grid())
    {
      ok := UpdateOne(v, r, c, Change(modifier));
    }

    // ---------------------------------------------------------- bulk on a line

    /** The leaf performs a line operation from a start cell inside it, to the edge. */
    method UpdateLineAt(t: Target, u: Update)
      requires 0 <= t.row < data.Length0 && 0 <= t.col < data.Length1
      modifies data
      ensures Grid() == UpdateLine(old(Grid()), t.op.line, t.row, t.col, u)
    {
      ghost var g := Grid();
      forall i, j | 0 <= i < data.Length0 && 0 <= j < data.Length1 && Along(t.op.line, t.row, t.col, i, j).Some? {
        data[i, j] := Written(u, Along(t.op.line, t.row, t.col, i, j).value, data[i, j]);
      }
      HoldsIsGrid(UpdateLine(g, t.op.line, t.row, t.col, u));
    }

    /**
     * fillRow / fillColumn / fillDiagonal with a value or a supplier: the
     * views route the call (Route) to one leaf line, which is filled. With
     * `corrected` false a transposed view routes as the code does (Flip);
     * with it true, as intended (IntendedFlip), and RoutedLineUpdate says
     * what the fill does to the view.
     */
    method FillLine(v: View, line: Line, r: int, c: int, src: Fill, corrected: bool) returns (ok: bool)
      requires Over(v) && Overrides(v, BulkOp.FillLine(line, src.Supply?), corrected)
      modifies data
      ensures ok == Reach(v, BulkOp.FillLine(line, src.Supply?), r, c, corrected).Some?
      ensures ok ==> var t := Reach(v, BulkOp.FillLine(line, src.Supply?), r, c, corrected).value;
                     Grid() == UpdateLine(old(Grid()), t.op.line, t.row, t.col, src)
      ensures !ok ==> Grid() == old(Grid())
    {
      var target := Reach(v, BulkOp.FillLine(line, src.Supply?), r, c, corrected);
      ok := target.Some?;
      if ok {
        UpdateLineAt(target.value, src);
      } else {
        HoldsIsGrid(Grid());
      }
    }

    /** modifyRow / modifyColumn / modifyDiagonal: the routed leaf line is modified. */
    method ModifyLine(v: View, line: Line, r: int, c: int, modifier: int -> int, corrected: bool) returns (ok: bool)
      requires Over(v) && Overrides(v, BulkOp.ModifyLine(line), corrected)
      modifies data
      ensures ok == Reach(v, BulkOp.ModifyLine(line), r, c, corrected).Some?
      ensures ok ==> var t := Reach(v, BulkOp.ModifyLine(line), r, c, corrected).value;
                     Grid() == UpdateLine(old(Grid()), t.op.line, t.row, t.col, Change(modifier))
      ensures !ok ==> Grid() == old(Grid())
    {
      var target := Reach(v, BulkOp.ModifyLine(line), r, c, corrected);
      ok := target.Some?;
      if ok {
        UpdateLineAt(target.value, Change(modifier));
      } else {
        HoldsIsGrid(Grid());
      }
    }

    // ----------------------------------------------- offset fillAll / modifyAll

    /**
     * The offset view's fillAll: column by column over the base, from the
     * column offset to the base's column count, the base's fillColumn from
     * the row offset.
     */
    method FillAll(v: View, src: Fill, corrected: bool) returns (ok: bool)
      requires Over(v) && v.Offset? && Overrides(v.base, BulkOp.FillLine(ColumnLine, src.Supply?), corrected)
      modifies data
      ensures Run(Grid(), ok) == Sweep(old(Grid()), v.base, BulkOp.FillLine(ColumnLine, src.Supply?), v.dr, v.dc, Shape(v.base).cols, src, corrected)
    {
      var op := BulkOp.FillLine(ColumnLine, src.Supply?);
      var n := Shape(v.base).cols;
      var j := v.dc;
      while j < n
        invariant Sweep(old(Grid()), v.base, op, v.dr, v.dc, n, src, corrected) == Sweep(Grid(), v.base, op, v.dr, j, n, src, corrected)
        decreases n - j
      {
        var done := FillLine(v.base, ColumnLine, v.dr, j, src, corrected);
        if !done {
          return false;
        }
        j := j + 1;
      }
      return true;
    }

    /** The offset view's modifyAll: the base's modifyColumn from the row offset, column by column. */
    method ModifyAll(v: View, modifier: int -> int, corrected: bool) returns (ok: bool)
      requires Over(v) && v.Offset? && Overrides(v.base, BulkOp.ModifyLine(ColumnLine), corrected)
      modifies data
      ensures Run(Grid(), ok) == Sweep(old(Grid()), v.base, BulkOp.ModifyLine(ColumnLine), v.dr, v.dc, Shape(v.base).cols, Change(modifier), corrected)
    {
      var op := BulkOp.ModifyLine(ColumnLine);
      var j := v.dc;
      while j < Shape(v.base).cols
        invariant Sweep(old(Grid()), v.base, op, v.dr, v.dc, Shape(v.base).cols, Change(modifier), corrected)
               == Sweep(Grid(), v.base, op, v.dr, j, Shape(v.base).cols, Change(modifier), corrected)
        decreases Shape(v.base).cols - j
      {
        var done := ModifyLine(v.base, ColumnLine, v.dr, j, modifier, corrected);
        if !done {
          return false;
        }
        j := j + 1;
      }
      return true;
    }

    // -------------------------------------------------------------- multiply

    /**
     * fillByMultiplying on a view: the shape check runs first; only when it
     * passes is the view's own kernel invoked, exactly once, with the
     * computed complexity.
     */
    method FillByMultiplying(v: View, leftCount: nat, rightCount: nat) returns (res: Result<int>)
      requires Over(v) && !v.Leaf?
      modifies this`calls
      ensures res == MultiplyCheck(Shape(v), leftCount, rightCount)
      ensures calls == if res.Ok? then old(calls) + [KernelCall(v.kernel, v, res.value)] else old(calls)
    {
      res := MultiplyCheck(Shape(v), leftCount, rightCount);
      if res.Ok? {
        calls := calls + [KernelCall(v.kernel, v, res.value)];
      }
    }

    /**
     * set followed by get through the same view: the value set is read back,
     * every other leaf cell keeps its value, and both fail together.
     */
    method SetThenGet(v: View, r: int, c: int, x: int) returns (y: Option<int>)
      requires Over(v)
      modifies data
      ensures y.Some? <==> Resolve(v, r, c).Some?
      ensures y.Some? ==> y.value == x
      ensures forall i, j :: 0 <= i < data.Length0 && 0 <= j < data.Length1 && Resolve(v, r, c) != Some(Cell(i, j)) ==>
                data[i, j] == old(data[i, j])
    {
      var ok := Set(v, r, c, x);
      y := Get(v, r, c);
      assert forall i, j :: 0 <= i < data.Length0 && 0 <= j < data.Length1 ==> data[i, j] == Grid()[i][j];
    }
  }
}
