/**
 * Zero-copy region views over a two-dimensional storage leaf: row subsets,
 * column subsets, offset sub-blocks, size-limited windows and transposes.
 * A view owns no values; every access is remapped through its chain of
 * transforms down to the leaf. Each view also carries the multiply kernel
 * bound when it was constructed.
 */
module Views {
  import opened Grids

  /**
   * A multiply kernel: the primitive and the generic families are bound to
   * the shape of the region that owns them; any other kernel is opaque.
   */
  datatype Kernel = Primitive(rows: int, cols: int) | Generic(rows: int, cols: int) | Other(id: nat)

  /**
   * The kernel a view constructor keeps: a fresh primitive or generic kernel
   * sized to the view's own shape, or the supplied kernel unchanged.
   */
  function Bind(k: Kernel, rows: int, cols: int): (b: Kernel)
    ensures b.Primitive? == k.Primitive? && b.Generic? == k.Generic? && b.Other? == k.Other?
    ensures !b.Other? ==> b.rows == rows && b.cols == cols
    ensures b.Other? ==> b == k
  {
    match k
    case Primitive(_, _) => Primitive(rows, cols)
    case Generic(_, _) => Generic(rows, cols)
    case Other(_) => k
  }

  /**
   * A region: the storage leaf itself, or one view over a base region.
   * `idx` holds the selected base rows (Rows) or columns (Cols); Offset
   * shifts by (dr, dc); Limit narrows the shape to (rl, cl).
   */
  datatype View =
    | Leaf(rows: nat, cols: nat, kernel: Kernel)
    | Rows(base: View, kernel: Kernel, idx: seq<int>)
    | Cols(base: View, kernel: Kernel, idx: seq<int>)
    | Offset(base: View, kernel: Kernel, dr: int, dc: int)
    | Limit(base: View, kernel: Kernel, rl: int, cl: int)
    | Transposed(base: View, kernel: Kernel)

  datatype Dims = Dims(rows: int, cols: int)

  /** The declared shape of a region (countRows, countColumns). */
  function Shape(v: View): Dims {
    match v
    case Leaf(m, n, _) => Dims(m, n)
    case Rows(b, _, idx) => Dims(|idx|, Shape(b).cols)
    case Cols(b, _, idx) => Dims(Shape(b).rows, |idx|)
    case Offset(b, _, dr, dc) => Dims(Shape(b).rows - dr, Shape(b).cols - dc)
    case Limit(_, _, rl, cl) => Dims(rl, cl)
    case Transposed(b, _) => Dims(Shape(b).cols, Shape(b).rows)
  }

  /** The storage leaf at the bottom of a chain of views. */
  function LeafOf(v: View): (l: View)
    ensures l.Leaf?
  {
    if v.Leaf? then v else LeafOf(v.base)
  }

  /**
   * The leaf coordinate that view coordinate (r, c) is redirected to, or
   * None when a row or column index array of a view on the way is indexed
   * out of its range. Views check nothing else: their own shape is not
   * consulted, the leaf alone checks its bounds (see Resolve).
   */
  function Locate(v: View, r: int, c: int): Option<Cell> {
    match v
    case Leaf(_, _, _) => Some(Cell(r, c))
    case Rows(b, _, idx) => if 0 <= r < |idx| then Locate(b, idx[r], c) else None
    case Cols(b, _, idx) => if 0 <= c < |idx| then Locate(b, r, idx[c]) else None
    case Offset(b, _, dr, dc) => Locate(b, dr + r, dc + c)
    case Limit(b, _, _, _) => Locate(b, r, c)
    case Transposed(b, _) => Locate(b, c, r)
  }

  /** The leaf cell an element access through `v` reaches, or None if the access fails. */
  function Resolve(v: View, r: int, c: int): (p: Option<Cell>)
    ensures p.Some? <==> Locate(v, r, c).Some? &&
                         0 <= Locate(v, r, c).value.row < LeafOf(v).rows && 0 <= Locate(v, r, c).value.col < LeafOf(v).cols
    ensures p.Some? ==> Locate(v, r, c) == p
  {
    match Locate(v, r, c)
    case Some(q) => if 0 <= q.row < LeafOf(v).rows && 0 <= q.col < LeafOf(v).cols then Some(q) else None
    case None => None
  }

  /**
   * Every node is as the factories build it: its kernel is the base's kernel
   * re-bound to the node's own shape, and no transpose sits directly on a
   * transpose.
   */
  predicate Built(v: View) {
    match v
    case Leaf(_, _, _) => true
    case Rows(b, k, idx) => Built(b) && k == Bind(b.kernel, |idx|, Shape(b).cols)
    case Cols(b, k, idx) => Built(b) && k == Bind(b.kernel, Shape(b).rows, |idx|)
    case Offset(b, k, dr, dc) => Built(b) && k == Bind(b.kernel, Shape(b).rows - dr, Shape(b).cols - dc)
    case Limit(b, k, rl, cl) => Built(b) && k == Bind(b.kernel, rl, cl)
    case Transposed(b, k) => Built(b) && !b.Transposed? && k == Bind(b.kernel, Shape(b).cols, Shape(b).rows)
  }

  /**
   * The transform parameters fit the base: selected indices lie inside the
   * base, offsets and limits do not exceed the base's shape.
   */
  predicate Proper(v: View) {
    match v
    case Leaf(_, _, _) => true
    case Rows(b, _, idx) => Proper(b) && forall i :: 0 <= i < |idx| ==> 0 <= idx[i] < Shape(b).rows
    case Cols(b, _, idx) => Proper(b) && forall i :: 0 <= i < |idx| ==> 0 <= idx[i] < Shape(b).cols
    case Offset(b, _, dr, dc) => Proper(b) && 0 <= dr <= Shape(b).rows && 0 <= dc <= Shape(b).cols
    case Limit(b, _, rl, cl) => Proper(b) && 0 <= rl <= Shape(b).rows && 0 <= cl <= Shape(b).cols
    case Transposed(b, _) => Proper(b)
  }

  // ---------------------------------------------------------------- factories

  /** regionByColumns: select (and reorder or repeat) base columns. */
  function RegionByColumns(v: View, columns: seq<int>): (w: View)
    ensures Shape(w) == Dims(Shape(v).rows, |columns|)
    ensures forall r, c :: Locate(w, r, c) == if 0 <= c < |columns| then Locate(v, r, columns[c]) else None
    ensures LeafOf(w) == LeafOf(v) && w.kernel == Bind(v.kernel, Shape(v).rows, |columns|)
    ensures Built(v) ==> Built(w)
  {
    Cols(v, Bind(v.kernel, Shape(v).rows, |columns|), columns)
  }

  /** regionByRows: select (and reorder or repeat) base rows. */
  function RegionByRows(v: View, rows: seq<int>): (w: View)
    ensures Shape(w) == Dims(|rows|, Shape(v).cols)
    ensures forall r, c :: Locate(w, r, c) == if 0 <= r < |rows| then Locate(v, rows[r], c) else None
    ensures LeafOf(w) == LeafOf(v) && w.kernel == Bind(v.kernel, |rows|, Shape(v).cols)
    ensures Built(v) ==> Built(w)
  {
    Rows(v, Bind(v.kernel, |rows|, Shape(v).cols), rows)
  }

  /** regionByOffsets: the sub-block whose origin is base cell (rowOffset, columnOffset). */
  function RegionByOffsets(v: View, rowOffset: int, columnOffset: int): (w: View)
    ensures Shape(w) == Dims(Shape(v).rows - rowOffset, Shape(v).cols - columnOffset)
    ensures forall r, c :: Locate(w, r, c) == Locate(v, rowOffset + r, columnOffset + c)
    ensures LeafOf(w) == LeafOf(v) && w.kernel == Bind(v.kernel, Shape(w).rows, Shape(w).cols)
    ensures Built(v) ==> Built(w)
  {
    Offset(v, Bind(v.kernel, Shape(v).rows - rowOffset, Shape(v).cols - columnOffset), rowOffset, columnOffset)
  }

  /** regionByLimits: the same cells, with the shape narrowed to (rowLimit, columnLimit). */
  function RegionByLimits(v: View, rowLimit: int, columnLimit: int): (w: View)
    ensures Shape(w) == Dims(rowLimit, columnLimit)
    ensures forall r, c :: Locate(w, r, c) == Locate(v, r, c)
    ensures LeafOf(w) == LeafOf(v) && w.kernel == Bind(v.kernel, rowLimit, columnLimit)
    ensures Built(v) ==> Built(w)
  {
    Limit(v, Bind(v.kernel, rowLimit, columnLimit), rowLimit, columnLimit)
  }

  /**
   * regionByTransposing: a transposed view hands back its own base; any
   * other region is wrapped once.
   */
  function RegionByTransposing(v: View): (w: View)
    ensures v.Transposed? ==> w == v.base
    ensures !v.Transposed? ==> w == Transposed(v, Bind(v.kernel, Shape(v).cols, Shape(v).rows))
    ensures Shape(w) == Dims(Shape(v).cols, Shape(v).rows)
    ensures forall r, c :: Locate(w, r, c) == Locate(v, c, r)
    ensures LeafOf(w) == LeafOf(v)
    ensures Built(v) ==> Built(w)
  {
    if v.Transposed? then v.base else Transposed(v, Bind(v.kernel, Shape(v).cols, Shape(v).rows))
  }

  // ------------------------------------------------------------------ lemmas

  /**
   * Transposing twice gives back a region equal to the one started from: the
   * very same one when it is not itself a transpose, otherwise a new
   * transpose of the same base.
   */
  lemma TransposeTwice(v: View)
    requires Built(v)
    ensures RegionByTransposing(RegionByTransposing(v)) == v
  {
  }

  /**
   * Every view carries a kernel of its leaf's family, and a primitive or
   * generic kernel is sized to the view's own shape, not the base's.
   */
  lemma {:induction false} KernelFitsView(v: View)
    requires Built(v) && !v.Leaf?
    ensures v.kernel == Bind(LeafOf(v).kernel, Shape(v).rows, Shape(v).cols)
  {
    if !v.base.Leaf? {
      KernelFitsView(v.base);
    }
  }

  /**
   * The shape is derived correctly from the transforms: in a proper view
   * every coordinate inside the declared shape reaches a cell of the leaf.
   */
  lemma {:induction false} InShapeResolves(v: View, r: int, c: int)
    requires Proper(v) && 0 <= r < Shape(v).rows && 0 <= c < Shape(v).cols
    ensures Resolve(v, r, c).Some?
  {
    match v
    case Leaf(_, _, _) =>
    case Rows(b, _, idx) => InShapeResolves(b, idx[r], c);
    case Cols(b, _, idx) => InShapeResolves(b, r, idx[c]);
    case Offset(b, _, dr, dc) => InShapeResolves(b, dr + r, dc + c);
    case Limit(b, _, _, _) => InShapeResolves(b, r, c);
    case Transposed(b, _) => InShapeResolves(b, c, r);
  }

  /** An offset of an offset addresses the same cells as the summed offset. */
  lemma OffsetsCompose(v: View, a: int, b: int, c: int, d: int)
    ensures var w := RegionByOffsets(RegionByOffsets(v, a, b), c, d);
            var s := RegionByOffsets(v, a + c, b + d);
            Shape(w) == Shape(s) && forall r, k :: Locate(w, r, k) == Locate(s, r, k)
  {
  }

  // ---------------------------------------------------------------- multiply

  datatype MultiplyError = DivisionByZero | MultiplicationNotPossible

  datatype Result<T> = Ok(value: T) | Err(error: MultiplyError)

  function Abs(x: int): nat { if x < 0 then -x else x }

  /** Java's integer division, which truncates toward zero. */
  function JavaDiv(a: int, b: int): (q: int)
    requires b != 0
    ensures Abs(q) == Abs(a) / Abs(b)
    ensures q > 0 ==> (a < 0) == (b < 0)
    ensures q < 0 ==> (a < 0) != (b < 0)
  {
    var x, y := Abs(a), Abs(b);
    QuotientNonNegative(x, y);
    var q := x / y;
    if (a < 0) == (b < 0) then q else -q
  }

  lemma QuotientNonNegative(x: nat, y: nat)
    requires y > 0
    ensures x / y >= 0
  {
  }

  /**
   * The shape check fillByMultiplying runs before it calls the kernel: the
   * inner dimension implied by the left operand on this region's rows must
   * equal the one implied by the right operand on its columns. A region with
   * no rows or no columns makes the division itself fail.
   */
  function MultiplyCheck(shape: Dims, leftCount: nat, rightCount: nat): (res: Result<int>)
    ensures res == Err(DivisionByZero) <==> shape.rows == 0 || shape.cols == 0
    ensures res.Ok? <==> shape.rows != 0 && shape.cols != 0 && JavaDiv(leftCount, shape.rows) == JavaDiv(rightCount, shape.cols)
    ensures res.Ok? ==> res.value == JavaDiv(leftCount, shape.rows) && res.value == JavaDiv(rightCount, shape.cols)
  {
    if shape.rows == 0 || shape.cols == 0 then Err(DivisionByZero)
    else if JavaDiv(leftCount, shape.rows) != JavaDiv(rightCount, shape.cols) then Err(MultiplicationNotPossible)
    else Ok(JavaDiv(leftCount, shape.rows))
  }

  /** An (m x k) left operand and a (k x n) right operand pass the check on an (m x n) target, with complexity k. */
  lemma MultiplyAcceptsMatchingOperands(m: nat, n: nat, k: nat)
    requires m > 0 && n > 0
    ensures MultiplyCheck(Dims(m, n), m * k, k * n) == Ok(k)
  {
    ExactQuotient(m, k);
    ExactQuotient(n, k);
    assert k * n == n * k;
  }

  /** Dividing m * k by m gives back k. */
  lemma ExactQuotient(m: nat, k: nat)
    requires m > 0
    ensures (m * k) / m == k
  {
    var q, r := (m * k) / m, (m * k) % m;
    assert m * k == m * q + r && 0 <= r < m;
    assert m * (k - q) == r;
    ProductBounds(m, k - q);
  }

  lemma ProductBounds(m: int, x: int)
    requires m > 0
    ensures x >= 1 ==> m * x >= m
    ensures x <= -1 ==> m * x <= -m
  {
  }

  /**
   * When the check passes on a target with positive shape, the operands hold
   * the returned complexity k of rows and columns (up to a truncated
   * remainder); when they do not, it fails.
   */
  lemma MultiplyCheckMeaning(m: nat, n: nat, left: nat, right: nat)
    requires m > 0 && n > 0
    ensures MultiplyCheck(Dims(m, n), left, right).Ok? <==> left / m == right / n
    ensures MultiplyCheck(Dims(m, n), left, right).Ok? ==>
              var k := MultiplyCheck(Dims(m, n), left, right).value;
              m * k <= left < m * (k + 1) && n * k <= right < n * (k + 1)
  {
  }
}
