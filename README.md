# Region views and Gauss-Seidel equations of ojAlgo, in Dafny

This project models two parts of ojAlgo.

**Region views (`Subregion2D`).** A `TransformableRegion` can be narrowed
without copying: `regionByColumns`, `regionByRows`, `regionByOffsets`,
`regionByLimits` and `regionByTransposing` each wrap the region in a view.
The view owns no values and remaps every coordinate to its base, and so on
down to a storage leaf. Each view also carries a multiply kernel. Its
constructor re-binds the base's kernel to the view's own shape when the
kernel is a primitive or generic `MultiplyBoth`.

The model covers:
- the view chain as a datatype (`Views.View`), with shape, remapping, equality and hash codes;
- the routing of bulk row, column and diagonal fills and modifies through the chain;
- the offset view's whole-region `fillAll` / `modifyAll` loops;
- the shape check that `fillByMultiplying` runs before it invokes the kernel.

The storage leaf is a class over an `array2<int>` (`Storage.Store`). Every
view operation is a method that remaps the call and writes into that array.

**Equations (`Equation`).** One row of a linear system for the Gauss-Seidel
solver. It holds a mutable body and the fixed row `index`. It also holds a
cached pivot, which `set`, `add` and `modifyOne` keep equal to the body
element at `index`, and a right-hand side. `equals`, `hashCode` and
`compareTo` depend on `index` alone. `denseSystem` and `sparseSystem` build
one fresh equation per row. `Equations.Equation` is a class over an
`array<int>` body.

A failed access is modelled as a `false` / `None` / `Err` result that
changes nothing. Such an access is:
- a view's index array indexed out of range;
- a leaf coordinate outside the array;
- a division by zero or mismatched operands in `fillByMultiplying`.

In Java each of these is an exception. Views never check their own shape.
Only index arrays and the leaf bounds fail, as in the code.

## Model

| member | source | states |
|---|---|---|
| Views.Bind | src/main/java/org/ojalgo/matrix/store/Subregion2D.java:637-648 | a view keeps the kernel family; primitive and generic kernels are re-made at the view's own (rows, columns), any other kernel is kept as is |
| Views.Shape | src/main/java/org/ojalgo/matrix/store/Subregion2D.java:58-64 | countRows / countColumns of the five views: selected count by base extent, base minus offsets, the limits, or the base's shape swapped |
| Views.Locate | src/main/java/org/ojalgo/matrix/store/Subregion2D.java:66-68 | the get / doubleValue remapping of each view down to a leaf coordinate, failing only where an index array is indexed out of range |
| Views.Resolve | src/main/java/org/ojalgo/matrix/store/Subregion2D.java:270-272 | an element access succeeds exactly when the remapped cell lies inside the leaf, and then reaches that cell |
| Views.RegionByColumns | src/main/java/org/ojalgo/matrix/store/Subregion2D.java:660-662 | shape is (base rows, number of selected columns); view column c is base column columns[c], out-of-range c fails; same leaf; kernel bound to the new shape; factory-built chains stay factory-built |
| Views.RegionByRows | src/main/java/org/ojalgo/matrix/store/Subregion2D.java:672-674 | shape is (number of selected rows, base columns); view row r is base row rows[r], out-of-range r fails; same leaf; kernel bound to the new shape |
| Views.RegionByOffsets | src/main/java/org/ojalgo/matrix/store/Subregion2D.java:668-670 | shape is the base shape minus the offsets; view cell (r, c) is base cell (rowOffset + r, columnOffset + c); kernel bound to the new shape |
| Views.RegionByLimits | src/main/java/org/ojalgo/matrix/store/Subregion2D.java:664-666 | shape is (rowLimit, columnLimit); every cell maps to the same base cell; kernel bound to the limits |
| Views.RegionByTransposing | src/main/java/org/ojalgo/matrix/store/Subregion2D.java:614-617 | a transposed view returns its base, anything else is wrapped once; rows and columns of the shape swap and cell (r, c) is base cell (c, r) |
| Views.TransposeTwice | src/main/java/org/ojalgo/matrix/store/Subregion2D.java:676-678 | transposing a factory-built region twice gives back an equal region (the same object when it is not itself a transpose) |
| Views.KernelFitsView | src/main/java/org/ojalgo/matrix/store/Subregion2D.java:637-648 | in a factory-built chain every view's kernel is its leaf's kernel re-bound to that view's own shape |
| Views.InShapeResolves | src/main/java/org/ojalgo/matrix/store/Subregion2D.java:262-268 | the counted shape is consistent with the remapping: in a view whose indices, offsets and limits fit its base, every coordinate inside the shape reaches a leaf cell |
| Views.OffsetsCompose | src/main/java/org/ojalgo/matrix/store/Subregion2D.java:246-252 | an offset view of an offset view has the shape and the cells of one offset view with the summed offsets |
| Views.JavaDiv | src/main/java/org/ojalgo/matrix/store/Subregion2D.java:652 | Java integer division: magnitude is the quotient of magnitudes, sign is positive only for operands of equal sign (truncation toward zero) |
| Views.MultiplyCheck | src/main/java/org/ojalgo/matrix/store/Subregion2D.java:652-655 | a region with no rows or no columns fails with a division by zero; otherwise the check passes exactly when both operands imply the same inner dimension, which is returned |
| Views.MultiplyAcceptsMatchingOperands | src/main/java/org/ojalgo/matrix/store/Subregion2D.java:650-658 | an m x k left operand and a k x n right operand pass the check on an m x n region, with complexity k |
| Views.MultiplyCheckMeaning | src/main/java/org/ojalgo/matrix/store/Subregion2D.java:650-658 | the check passes exactly when the two truncated quotients agree, and the complexity k returned brackets both operand sizes |
| ViewEquality.Equal | src/main/java/org/ojalgo/matrix/store/Subregion2D.java:274-294 | the five `equals`: same kind, equal bases and equal transform parameters; the kernel is ignored |
| ViewEquality.IndexHash | src/main/java/org/ojalgo/matrix/store/Subregion2D.java:121-127 | `Arrays.hashCode` of an index array |
| ViewEquality.Hash | src/main/java/org/ojalgo/matrix/store/Subregion2D.java:352-360 | the five `hashCode` formulas over the base's hash and the transform parameters |
| ViewEquality.EqualReflexive | src/main/java/org/ojalgo/matrix/store/Subregion2D.java:274-294 | every view equals itself, so the identity shortcut of `equals` changes no answer |
| ViewEquality.EqualSymmetric | src/main/java/org/ojalgo/matrix/store/Subregion2D.java:425-445 | `equals` of the views is symmetric |
| ViewEquality.EqualTransitive | src/main/java/org/ojalgo/matrix/store/Subregion2D.java:179-199 | `equals` of the views is transitive |
| ViewEquality.EqualSameHash | src/main/java/org/ojalgo/matrix/store/Subregion2D.java:352-360 | equal views have equal hash codes (the hashCode formulas of all five view kinds) |
| ViewEquality.EqualSameCells | src/main/java/org/ojalgo/matrix/store/Subregion2D.java:70-90 | equal views have the same shape and the same leaf, and redirect every coordinate alike, although `equals` ignores the kernel |
| ViewEquality.EqualBuiltIdentical | src/main/java/org/ojalgo/matrix/store/Subregion2D.java:531-548 | two equal factory-built views are identical, kernel included |
| Routing.Flip | src/main/java/org/ojalgo/matrix/store/Subregion2D.java:550-612 | the transposed view's routing as written: a fill stays a fill with the same kind of source, a modify stays a modify |
| Routing.IntendedFlip | src/main/java/org/ojalgo/matrix/store/Subregion2D.java:598-612 | the transposed routing as intended: the same operation on the mirrored line (row and column swap, diagonal stays) |
| Routing.IntendedFlipInvolutive | src/main/java/org/ojalgo/matrix/store/Subregion2D.java:578-584 | the intended flip undoes itself; the written one does not (fillRow flipped twice is not fillRow) |
| Routing.Route | src/main/java/org/ojalgo/matrix/store/Subregion2D.java:312-346 | delegation of the bulk line operations down the chain keeps the operation's kind and source kind |
| Routing.Reach | src/main/java/org/ojalgo/matrix/store/Subregion2D.java:92-102 | a routed bulk call reaches the leaf exactly when the routed start cell lies inside the leaf, and then from that cell |
| Routing.AlongMirrored | src/main/java/org/ojalgo/matrix/store/Subregion2D.java:598-604 | seen through a transpose, a cell keeps its position on the mirrored line |
| Routing.CorrectedRouteFollowsLine | src/main/java/org/ojalgo/matrix/store/Subregion2D.java:550-584 | with the corrected transpose, in a proper view without repeated indices, a cell lies on the leaf line reached exactly when it lies on the view's line, at the same position |
| Routing.RoutedLineUpdate | src/main/java/org/ojalgo/matrix/store/Subregion2D.java:459-469 | after the routed leaf line is updated, each view cell on the view's line holds the k-th written value and each cell off it keeps its value |
| Routing.OnLineRouteFollowsLine | src/main/java/org/ojalgo/matrix/store/Subregion2D.java:92-102 | with the corrected transpose, in any proper view, repeated indices included, a cell on the view's line stands for the leaf cell at the same position on the leaf line reached |
| Routing.OnLineUpdate | src/main/java/org/ojalgo/matrix/store/Subregion2D.java:129-131 | after the routed leaf line is updated, each cell on the view's line, repeated indices included, holds the k-th written value |
| Routing.WrittenRouteIsCorrected | src/main/java/org/ojalgo/matrix/store/Subregion2D.java:598-612 | for modifies and value diagonal fills the written routing is the corrected one through every chain |
| Routing.TransposedFillRowMissesRow | src/main/java/org/ojalgo/matrix/store/Subregion2D.java:578-584 | as written, fillRow on a transposed 2 x 2 leaf fills the leaf diagonal and misses view cell (0, 1) of the row |
| Routing.TransposedSuppliedDiagonalMissesDiagonal | src/main/java/org/ojalgo/matrix/store/Subregion2D.java:562-564 | as written, fillDiagonal with a supplier on a transposed 2 x 2 leaf fills an off-diagonal cell and misses diagonal cell (1, 1) |
| Routing.Sweep | src/main/java/org/ojalgo/matrix/store/Subregion2D.java:296-310 | the column loop of offset fillAll / modifyAll: the base's column operation from the row offset for each column from the column offset, stopping at the first failure; the leaf keeps its shape |
| Routing.SweepFollowsBlock | src/main/java/org/ojalgo/matrix/store/Subregion2D.java:296-310 | over any proper base without repeated indices, a completed sweep writes the (i - dr)-th column value into every base cell at or below row dr and at or right of the column offset, and leaves every other base cell alone |
| Routing.SweepOverLeafIsBlock | src/main/java/org/ojalgo/matrix/store/Subregion2D.java:296-310 | offset fillAll / modifyAll directly over a leaf updates exactly the trailing block from (rowOffset, columnOffset), each column from the row offset down |
| Routing.SweepOverLeafFails | src/main/java/org/ojalgo/matrix/store/Subregion2D.java:362-366 | with an offset outside the leaf, the column loop fails on its first column and changes nothing |
| Routing.RepeatedColumnsModifyTwice | src/main/java/org/ojalgo/matrix/store/Subregion2D.java:362-366 | through columns [0, 0] of a 1 x 2 leaf, offset modifyAll modifies leaf column 0 twice and leaves column 1 alone |
| Storage.Store.Get | src/main/java/org/ojalgo/matrix/store/Subregion2D.java:348-350 | reads the value of the leaf cell the view redirects (r, c) to; fails exactly when the redirection fails |
| Storage.Store.Set | src/main/java/org/ojalgo/matrix/store/Subregion2D.java:384-390 | writes exactly the one redirected leaf cell, or changes nothing when the access fails |
| Storage.Store.Add | src/main/java/org/ojalgo/matrix/store/Subregion2D.java:254-260 | adds to exactly the one redirected leaf cell, or changes nothing |
| Storage.Store.FillOne | src/main/java/org/ojalgo/matrix/store/Subregion2D.java:332-338 | fills exactly the one redirected leaf cell with the value or the supplier's next value |
| Storage.Store.ModifyOne | src/main/java/org/ojalgo/matrix/store/Subregion2D.java:376-378 | applies the modifier to exactly the one redirected leaf cell |
| Storage.Store.FillLine | src/main/java/org/ojalgo/matrix/store/Subregion2D.java:312-326 | fillRow / fillColumn / fillDiagonal: succeeds exactly when the routed start cell is inside the leaf, and then fills that leaf line and nothing else; the transposed routing is as written or as intended, by a flag |
| Storage.Store.ModifyLine | src/main/java/org/ojalgo/matrix/store/Subregion2D.java:368-382 | modifyRow / modifyColumn / modifyDiagonal: modifies exactly the routed leaf line, or changes nothing |
| Storage.Store.FillAll | src/main/java/org/ojalgo/matrix/store/Subregion2D.java:296-310 | the column loop of the offset view's fillAll: the new values and outcome are those of the column sweep from the column offset to the base's column count |
| Storage.Store.ModifyAll | src/main/java/org/ojalgo/matrix/store/Subregion2D.java:362-366 | the column loop of the offset view's modifyAll, as the same sweep |
| Storage.Store.FillByMultiplying | src/main/java/org/ojalgo/matrix/store/Subregion2D.java:650-658 | the shape check runs first; when it passes the view's own kernel is invoked exactly once with the view and the complexity, otherwise no kernel is invoked |
| Storage.Store.SetThenGet | src/main/java/org/ojalgo/matrix/store/Subregion2D.java:141-143 | set then get through the same view on the store reads back the value set, fails exactly when set fails, and leaves every other leaf cell unchanged |
| Equations.Equation.constructor | src/main/java/org/ojalgo/equation/Equation.java:136-145 | the body is shared, the index is the given pivot row, the right-hand side is kept and the cached pivot starts at zero |
| Equations.Equation.Set | src/main/java/org/ojalgo/equation/Equation.java:244-249 | one body element is replaced; the cached pivot takes the value when the element is the one at `index`, so a current pivot stays current |
| Equations.Equation.Add | src/main/java/org/ojalgo/equation/Equation.java:151-156 | one body element is incremented; the cached pivot is re-read at `index` |
| Equations.Equation.ModifyOne | src/main/java/org/ojalgo/equation/Equation.java:233-238 | one body element is modified; the cached pivot is re-read at `index` |
| Equations.Equation.SetRHS | src/main/java/org/ojalgo/equation/Equation.java:251-253 | only the right-hand side changes |
| Equations.Equation.GetRHS | src/main/java/org/ojalgo/equation/Equation.java:218-220 | returns the right-hand side |
| Equations.Equation.GetPivot | src/main/java/org/ojalgo/equation/Equation.java:211-213 | returns the cached pivot |
| Equations.Equation.CompareTo | src/main/java/org/ojalgo/equation/Equation.java:169-171 | -1, 0 or 1 as the index is smaller than, equal to or larger than the other's |
| Equations.Equation.Equals | src/main/java/org/ojalgo/equation/Equation.java:185-198 | an equation equals exactly the non-null equations with the same index |
| Equations.Equation.HashCode | src/main/java/org/ojalgo/equation/Equation.java:222-227 | the hash code 31 + index |
| Equations.CompareMatchesEquals | src/main/java/org/ojalgo/equation/Equation.java:185-198 | compareTo is zero exactly when equals holds |
| Equations.CompareIsOrder | src/main/java/org/ojalgo/equation/Equation.java:169-171 | compareTo is antisymmetric and transitive |
| Equations.HashMatchesEquals | src/main/java/org/ojalgo/equation/Equation.java:222-227 | equal equations have equal hash codes, and equal hash codes mean equal equations |
| Equations.HashWrapsInjectively | src/main/java/org/ojalgo/equation/Equation.java:222-227 | with Java's 32-bit wrap-around, the hash codes of two equations whose indices fit an `int` are equal exactly when the equations are equal |
| Equations.NewSystem | src/main/java/org/ojalgo/equation/Equation.java:54-58 | the loop that builds one fresh equation per row: index i, zero right-hand side and pivot, an all-zero body of `cols` elements of its own |
| Equations.DenseSystem | src/main/java/org/ojalgo/equation/Equation.java:52-61 | `rows` equations; the i-th has index i, zero right-hand side and pivot, and a fresh all-zero dense body of `cols` elements of its own |
| Equations.SparseSystem | src/main/java/org/ojalgo/equation/Equation.java:87-96 | as DenseSystem, with sparse bodies |

## Left out

- Values are mathematical integers, not `double` or a generic number type. No floating-point rounding is modelled.
- Hash codes are computed without the 32-bit wrap-around of Java `int`. `ViewEquality.Hash` and `Equations.Equation.HashCode` are exact. `Equations.HashMatchesEquals` holds in both directions with wrap-around too, since adding 31 modulo 2^32 is a bijection (`Equations.HashWrapsInjectively`, over `int` indices).
- Views.JavaDiv: `Math.toIntExact` overflow and the `(int)` casts of long coordinates are not modelled. Coordinates are unbounded integers.
- The multiply kernels' own computation is not modelled. `Storage.Store.FillByMultiplying` records the invocation (kernel, target view, complexity) but does not write the product.
- Views that inherit a default implementation of a bulk operation are outside the model. Examples are limit views for every line operation, and row-subset views for column or diagonal operations. `Routing.Overrides` is the precondition that excludes them. Those defaults are not part of this model.
- The `Access1D`-values overloads of fillRow, fillColumn and fillOne are not modelled, and neither is `fillOne(row, col, values, valueIndex)`.
- A supplier is modelled as a stream indexed by position along one line, restarting for each line call. The model does not capture a Java supplier's state carried from one column to the next in offset `fillAll`.
- Routing.Flip and the store: the store's line methods take a flag choosing the written routing (`Routing.Flip`) or the corrected one (`Routing.IntendedFlip`). What a fill does to the view's own line (`Routing.RoutedLineUpdate`, `Routing.SweepFollowsBlock`) is proved for the corrected routing only. See Findings.
- Routing.SweepFollowsBlock: speaks of the leaf cells that the base's in-shape cells map to. It does not prove that leaf cells outside the base's image keep their values. Over a leaf base that is proved by `Routing.SweepOverLeafIsBlock`.
- Routing.CorrectedRouteFollowsLine: requires distinct indices. With a repeated row or column index, a cell off the view's line can share its leaf cell with a cell on the line and so change too. For such views only the on-line half is proved, by `Routing.OnLineRouteFollowsLine`.
- Routing.RoutedLineUpdate: requires distinct indices for the same reason. With repeated indices only the on-line half is proved, by `Routing.OnLineUpdate`.
- Routing.SweepFollowsBlock: requires distinct indices. With a repeated column index the trailing-block property fails: the repeated leaf column is modified once per repetition, and a base cell left of the column offset can change (`Routing.RepeatedColumnsModifyTwice`).
- Row and column subsets keep the caller's index array without copying. The model captures the indices at construction as a `seq<int>`, so a later change to that array by the caller, which would change the view's remapping, is not modelled.
- Regions with a `null` base are left out.
- The storage leaf's own `equals` and `hashCode` are not part of this model. A leaf is a value of shape and kernel: two leaves, and so two views over two different stores, are equal when their shapes and kernels are equal. The leaf hash is a parameter.
- The storage leaf's own `regionByX` factories are not part of this model. Every chain of views starts at the leaf on the assumption that those factories behave like the views' own at Subregion2D.java:660-678, re-binding the leaf's kernel in the same way. The leaf's own `fillByMultiplying` is not modelled.
- The private no-argument `Subregion2D` constructor and `toString` are left out.
- The remaining methods of `Equation` are left out: `adjust`, `initialise`, `calculate`, `dot`, `count`, `get`, `doubleValue`, `getBody` and `toString`. `adjust` and `calculate` are floating-point Gauss-Seidel arithmetic.
- The other `Equation` factories (`dense`, `sparse`, `of`, `wrap`, the `numberOfNonzeros` variants), the deprecated public constructor and the `Comparable<?>` overloads are left out. Dense and sparse bodies are both modelled as zero-initialised arrays.
- Equations.Equation.Set, Add and ModifyOne require the element index to lie inside the body. An out-of-range index throws in the array classes, and those classes are not part of this model.
- Equations.DenseSystem and SparseSystem take `nat` sizes. A negative row count, which Java's `ArrayList` rejects, is not modelled.
- Object identity in `equals` (`this == obj`) is modelled through reflexivity of structural equality.
- `OffHeapZ032` is not part of this model.

## Findings

| source | as written | input that shows it | evidently intended | confidence | as-written member | corrected member |
|---|---|---|---|---|---|---|
| src/main/java/org/ojalgo/matrix/store/Subregion2D.java:578-584 | a transposed view's `fillRow(row, col, …)` calls the base's `fillDiagonal(col, row, …)` | `fillRow(0, 0, x)` on the transpose of a 2 x 2 leaf: view cell (0, 1), leaf cell (1, 0), is on the row but not filled; leaf cell (1, 1) is filled instead | the base's `fillColumn(col, row, …)`, as `modifyRow` does at 610-612 | high; not executed | Routing.TransposedFillRowMissesRow | Routing.CorrectedRouteFollowsLine |
| src/main/java/org/ojalgo/matrix/store/Subregion2D.java:562-564 | a transposed view's `fillDiagonal(row, col, supplier)` calls the base's `fillRow(col, row, supplier)` | `fillDiagonal(0, 0, s)` on the transpose of a 2 x 2 leaf fills leaf cell (0, 1), which is off the diagonal, and leaves diagonal cell (1, 1) alone | the base's `fillDiagonal(col, row, supplier)`, as the value overload does at 558-560 | high; not executed | Routing.TransposedSuppliedDiagonalMissesDiagonal | Routing.IntendedFlip |
