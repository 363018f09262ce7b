# A verified model of the ray tracer core of ray-tracer-challenge

This project models the core of a small JavaScript ray tracer: the numeric foundation it is
built on, the shapes it intersects, the world and camera that drive it, its PPM image writers
and its Wavefront OBJ reader. Numbers are Dafny `real`s, and the transcendental and
floating-point helpers the code calls are passed in as function parameters. The proofs state
what each operation promises: round trips, orderings, permutations, error cases and the
geometry of each hit.

Modules, in the order the program builds on them:

- `Wrappers` is the `Option`/`Result` pair. The error constructors stand for the exceptions the
  JavaScript throws.
- `RtMath` is math.js: `EPSILON`, `floatIsEqual` and `degreesToRadians`, plus `Math.abs`,
  `Math.max` and `Math.min`, and extended reals for the cone's infinite limits.
- `Tuples` and `Colors` are tuple.js and color.js. A 4-tuple is a point when w = 1 and a
  vector when w = 0, and a colour is a point.
- `Matrices` is matrix.js.
  - A `Grid` value and the functions on it (product, transpose, submatrix, determinant,
    minor, cofactor, inverse) specify the `Matrix` class.
  - The class keeps the column-major `array2` that `get`/`set` update in place.
  - Every matrix operation is a method proved equal to its specification function.
- `MatrixLaws` and `InverseLaws` prove the algebra the renderer relies on:
  - the identity laws and transposition;
  - the cofactor expansion;
  - a 4x4 matrix times its inverse is the identity;
  - the inverse is unique.
- `Transformations` is transformations.js, with `cos`/`sin` as parameters.
- `Rays` is ray.js: `position`, and the unit-sphere `intersect`.
- `Intersections` is intersection.js: the `hit` loop, and the sort by t used by groups and
  the world.
- `Planes`, `Cubes`, `Cylinders`, `Cones` and `Triangles` are the per-primitive
  `localIntersect`/`localNormalAt` rules (cone.js caps and bounds included).
- `CsgRules` is the `intersectionAllowed` table of csg.js.
- `Bounding` is bounds.js and bounding-box.js.
- `Shapes` is shape.js with the subclasses that keep state in it:
  - one `Shape` class whose `kind` says which subclass an object is;
  - its parent chain, group children and CSG operands are fields updated in place.
- `Worlds`, `Cameras` and `Patterns` are world.js, camera.js and pattern.js.
- `Ppm`, `ColorCanvases` and `CanvasUtilities` are the P3 writers of color-canvas.js and
  canvas-utils.js:
  - channel scaling;
  - bounds-checked pixel access on a caller-supplied array;
  - the 70-character line wrapping (of "Plain PPM" in the Netpbm ppm(5) format).
- `ObjFiles` is obj-file.js, in two forms:
  - a `ParseState` value with a step function per line, about which the parsing properties
    are proved;
  - the `Parser` class, whose methods are proved to follow those step functions.

## Model

| member | source | states |
|---|---|---|
| RtMath.Abs | src/lib/math.js:3 | `Math.abs`: non-negative and equal to x or -x |
| RtMath.FloatIsEqualInterval | src/lib/math.js:2-3 | `floatIsEqual(f1, f2)` holds exactly when f1 lies in the open interval (f2 - 0.00001, f2 + 0.00001) |
| RtMath.FloatIsEqualReflexive | src/lib/math.js:3 | every number is equal to itself |
| RtMath.FloatIsEqualSymmetric | src/lib/math.js:3 | the comparison does not depend on argument order |
| RtMath.FloatIsEqualStrict | src/lib/math.js:3 | numbers exactly EPSILON apart compare unequal (the test is `<`, not `<=`) |
| RtMath.DegreesToRadiansLinear | src/lib/math.js:4 | `degreesToRadians` is additive and homogeneous, and 180 degrees is pi |
| RtMath.FloatIsEqual | src/lib/math.js:2-3 | `floatIsEqual(f1, f2)` holds exactly when each number lies strictly within 0.00001 of the other, read from either side |
| RtMath.DegreesToRadians | src/lib/math.js:4 | 0 degrees is 0, 180 is pi and 90 is pi/2; for a positive pi the angle is positive exactly when the degrees are |
| Tuples.Point | src/lib/tuple.js:23-25 | a point has w = 1 and the given x, y, z |
| Tuples.Vector | src/lib/tuple.js:27-29 | a vector has w = 0 and the given x, y, z |
| Tuples.PointPlusVector | src/lib/tuple.js:43-44 | point + vector (either order) is the point moved by the vector |
| Tuples.VectorPlusVector | src/lib/tuple.js:43-44 | vector + vector is a vector with summed components |
| Tuples.PointMinusPoint | src/lib/tuple.js:46-47 | point - point is the vector between them |
| Tuples.PointMinusVector | src/lib/tuple.js:46-47 | point - vector is a point |
| Tuples.SubUndoesAdd | src/lib/tuple.js:43-47 | `sub` and `add` undo each other |
| Tuples.NegateFlipsAll | src/lib/tuple.js:55 | `negate` flips all four components (w too, so a negated point has w = -1), is multiplication by -1, an involution, and an additive inverse |
| Tuples.DivideThenMultiply | src/lib/tuple.js:57-59 | `divide` by a non-zero scalar and `multiply` by it undo each other |
| Tuples.EqualsIsEquivalenceLike | src/lib/tuple.js:49-53 | `equals` is reflexive and symmetric, and equal tuples are both points or both not |
| Tuples.DotCommutes | src/lib/tuple.js:71-72 | `dot` commutes and a tuple's dot with itself is non-negative |
| Tuples.CrossProperties | src/lib/tuple.js:74-79 | `cross` is a vector orthogonal to both operands and anti-commutative |
| Tuples.ReflectBy | src/lib/tuple.js:86-88 | `reflect(v, n)` subtracts 2 (v . n) n from v |
| Tuples.ReflectParallel | src/lib/tuple.js:86-88 | a vector orthogonal to the normal is reflected to itself |
| Tuples.ReflectFlipsNormalPart | src/lib/tuple.js:86-88 | about a unit normal, the reflected vector's normal component is the negated original one |
| Tuples.ReflectInvolution | src/lib/tuple.js:86-88 | about a unit normal, reflecting twice gives the vector back |
| Tuples.Add | src/lib/tuple.js:43-44 | a point plus a vector, in either order, is a point; two vectors add up to a vector (the inverse law is Tuples.SubUndoesAdd) |
| Tuples.Sub | src/lib/tuple.js:46-47 | a tuple minus itself is zero; point minus point is a vector and point minus vector a point |
| Tuples.Equals | src/lib/tuple.js:49-53 | equal tuples compare equal, and tuples that compare equal agree on being a point and on being a vector, since w is compared exactly |
| Tuples.Negate | src/lib/tuple.js:55 | the negation added to the tuple gives zero; a negated vector is a vector, a negated point has w = -1 |
| Tuples.Multiply | src/lib/tuple.js:57 | a scaled vector is a vector, and a scaled point has the factor as its w |
| Tuples.Divide | src/lib/tuple.js:59 | multiplying the quotient by the non-zero divisor gives the tuple back; a vector stays a vector |
| Tuples.Dot | src/lib/tuple.js:71-72 | the zero tuple has dot product 0 with every tuple, on either side |
| Tuples.Cross | src/lib/tuple.js:74-79 | the cross product is a vector orthogonal to both operands |
| Tuples.Reflect | src/lib/tuple.js:86-88 | a vector orthogonal to the normal is its own reflection; reflecting a vector about a vector gives a vector |
| Colors.Color | src/lib/color.js:3-7 | a colour is a point whose red, green, blue are x, y, z |
| Colors.AddSubtractChannels | src/lib/color.js:17-25 | adding and subtracting colours work per channel and rebuild a point (w = 1, where the tuple sum of two points has w = 2) |
| Colors.SubtractUndoesAdd | src/lib/color.js:17-25 | subtracting the colour that was added restores the channels |
| Colors.ScalarResetsW | src/lib/color.js:27-30 | scaling multiplies each channel and keeps w = 1; scaling by 0 gives black |
| Colors.MultiplyColorLaws | src/lib/color.js:32-37 | the channel-wise product commutes, has white as unit and black as absorbing element |
| Colors.ConstantChannels | src/lib/color.js:11-15 | the named colours have the stated channels |
| Colors.AddColor | src/lib/color.js:17-20 | the sum is a colour from which subtracting the second colour restores the first one's channels |
| Colors.SubtractColor | src/lib/color.js:22-25 | the difference is a colour, black exactly when the two colours have the same channels |
| Colors.MultiplyByScalar | src/lib/color.js:27-30 | the result is a colour; the factor 1 keeps the channels and 0 gives black |
| Colors.MultiplyColor | src/lib/color.js:32-37 | the product is a colour; white keeps the first colour's channels and black gives black |
| Ppm.Round | src/lib/color-canvas.js:8 | `Math.round`: the nearest integer, halves rounding up |
| Ppm.ScaleColorToPPM | src/lib/color-canvas.js:7-15 | the scaled channel never exceeds 255 and is never negative |
| Ppm.ScaleColorToPPMRange | src/lib/color-canvas.js:7-15 | within 0..1 the result is the nearest whole number to val * 255; well below 0 it is 0; from 1 up it is 255 |
| Ppm.ScaleColorToPPMMonotonic | src/lib/color-canvas.js:7-15 | a brighter channel never scales to a smaller number |
| Ppm.ScaleColorToPPMExamples | src/lib/color-canvas.js:7-15 | 1.5, 0.5, -0.5, 0, 1, 0.8, 0.6 scale to 255, 128, 0, 0, 255, 204, 153 |
| Ppm.NatToString | src/lib/color-canvas.js:20 | the decimal text of a number is a non-empty string of digits, at most three of them below 1000 |
| Ppm.NatToStringReadsBack | src/lib/color-canvas.js:20 | reading the decimal text back gives the number |
| Ppm.NatToStringExamples | src/lib/color-canvas.js:20 | 0, 5, 128, 255 print as "0", "5", "128", "255" |
| Ppm.ColorToPPM_RGB | src/lib/color-canvas.js:16-21 | a pixel's text never has four non-space characters in a row |
| Ppm.ColorToPPM_RGBChannels | src/lib/color-canvas.js:16-21 | a pixel's text is three digit strings separated by single spaces that read back as the scaled red, green and blue |
| Ppm.ShortRunsAcrossSpace | src/lib/color-canvas.js:115 | joining two such texts with a space keeps the property |
| Ppm.JoinShortRuns | src/lib/color-canvas.js:115 | a row's pixel texts joined by spaces keep the property |
| Ppm.HeaderExample | src/lib/color-canvas.js:104 | the header of a 5 by 3 canvas is "P3\n5 3\n255" |
| Ppm.Header | src/lib/color-canvas.js:104 | "P3", a newline, the decimal texts of width and height around one space, a newline and "255"; Ppm.NatToStringReadsBack reads those texts back as the dimensions |
| ColorCanvases.RgbValues | src/lib/color-canvas.js:105 | one text per pixel, in buffer order, each the pixel's `colorToPPM_RGB` |
| ColorCanvases.SafeLineEnd | src/lib/color-canvas.js:94-102 | for a line longer than 70, the cut is the last space at or before index 70, and it lies in 67..70 |
| ColorCanvases.FindSafeLineEnd | src/lib/color-canvas.js:94-102 | the count-down loop stops at that space, without running off the line |
| ColorCanvases.Wrap | src/lib/color-canvas.js:117-125 | every piece of a wrapped row is at most 70 characters, and the pieces joined with the dropped spaces give the row back |
| ColorCanvases.WrapStep | src/lib/color-canvas.js:117-123 | one loop pass emits the head up to the safe space and continues with what follows that space |
| ColorCanvases.AppendWrapped | src/lib/color-canvas.js:117-125 | the wrapping loop appends exactly the row's wrapped pieces, each followed by a newline |
| ColorCanvases.LinesAppend | src/lib/color-canvas.js:121-125 | the text of two runs of lines is the concatenation of their texts |
| ColorCanvases.RowLine | src/lib/color-canvas.js:109-115 | a row's line keeps the no-four-digits property the wrap depends on |
| ColorCanvases.BodyLines | src/lib/color-canvas.js:108-126 | no body line of the PPM text is longer than 70 characters |
| ColorCanvases.ColorCanvas.constructor | src/lib/color-canvas.js:41-45 | the canvas keeps the caller's array itself, and its width and height |
| ColorCanvases.ColorCanvas.SafeXyToIndex | src/lib/color-canvas.js:51-57 | succeeds exactly inside the canvas, with x + width * y below width * height; otherwise the out-of-bounds error |
| ColorCanvases.ColorCanvas.IsInBounds | src/lib/color-canvas.js:74-76 | a pixel inside the canvas has a buffer index x + width * y within the buffer |
| ColorCanvases.ColorCanvas.IndexToXY | src/lib/color-canvas.js:59-63 | the column is below the width, the row is non-negative, and together they give back the index (ColorCanvases.IndexToXYRoundTrip adds that an index of the buffer lands inside the canvas) |
| ColorCanvases.ColorCanvas.GetPixel | src/lib/color-canvas.js:70-72 | inside the canvas the stored colour at x + width * y, otherwise the out-of-bounds error |
| ColorCanvases.ColorCanvas.WritePixel | src/lib/color-canvas.js:66-68 | only the addressed pixel changes and reads back as the colour; outside the canvas an error and nothing changes |
| ColorCanvases.ColorCanvas.IndexUnique | src/lib/color-canvas.js:56 | two different pixels never share a buffer index |
| ColorCanvases.ColorCanvas.SaveToPPM | src/lib/color-canvas.js:93-129 | the text is the header, a newline, and every row's line wrapped at 70, each piece on its own line |
| ColorCanvases.ColorCanvas.RowRgbs | src/lib/color-canvas.js:109-113 | the inner loop collects exactly row i's pixel texts in order |
| ColorCanvases.IndexRoundTrip | src/lib/color-canvas.js:51-63 | `indexToXY` undoes `safe_xyToIndex` on every pixel |
| ColorCanvases.IndexToXYRoundTrip | src/lib/color-canvas.js:51-63 | every buffer index maps to a pixel inside the canvas whose index is that index again |
| CanvasUtilities.RowLines | src/lib/canvas-utils.js:50-56 | one body line per row |
| CanvasUtilities.RowLinesAreRows | src/lib/canvas-utils.js:50-56 | line k is row k's `width` pixel texts joined with single spaces |
| CanvasUtilities.RowLinesMatchWrappedWhenShort | src/lib/canvas-utils.js:45-59 | when no row is longer than 70 characters, this body equals the wrapping body of color-canvas.js |
| CanvasUtilities.JoinLength | src/lib/canvas-utils.js:55 | n texts of length len joined by spaces have n * len + n - 1 characters |
| CanvasUtilities.PaleOrangeText | src/lib/canvas-utils.js:38-43 | the colour (1, 0.8, 0.6) is written "255 204 153" |
| CanvasUtilities.LongRowNotWrapped | src/lib/canvas-utils.js:45-59 | a 10 by 2 canvas of (1, 0.8, 0.6) gets a 119-character first body line, over the 70 limit |
| CanvasUtilities.CanvasUtils.constructor | src/lib/canvas-utils.js:5-6 | the closure keeps the caller's array itself, and its width and height |
| CanvasUtilities.CanvasUtils.SafeXyToIndex | src/lib/canvas-utils.js:10-16 | succeeds exactly inside the canvas, with x + width * y below width * height; otherwise the out-of-bounds error |
| CanvasUtilities.CanvasUtils.GetPixel | src/lib/canvas-utils.js:23 | inside the canvas the stored colour, otherwise the error |
| CanvasUtilities.CanvasUtils.WritePixel | src/lib/canvas-utils.js:19-21 | only the addressed pixel changes and reads back as the colour; outside the canvas an error and nothing changes |
| CanvasUtilities.CanvasUtils.DistinctPixels | src/lib/canvas-utils.js:15 | two different pixels never share a buffer index |
| CanvasUtilities.CanvasUtils.SaveToPPM | src/lib/canvas-utils.js:45-59 | the text is the header, a newline, and one unwrapped line per row |
| CanvasUtilities.CanvasUtils.RowTexts | src/lib/canvas-utils.js:51-54 | the inner loop collects exactly row i's pixel texts in order |
| Matrices.Identity | src/lib/matrix.js:63-68 | the identity is a 4x4 matrix |
| Matrices.Mul | src/lib/matrix.js:93-109 | the product of two n x n matrices is n x n |
| Matrices.Transpose | src/lib/matrix.js:143-157 | the transpose of a rows x cols matrix is cols x rows |
| Matrices.Submatrix | src/lib/matrix.js:181-197 | one row and column fewer, and entry (i, j) is the original's entry at the indices that skip the removed row and column |
| Matrices.InverseAsWritten | src/lib/matrix.js:214-238 | `inverse` as written: a matrix of the same size when the determinant is non-zero |
| Matrices.Inverse | src/lib/matrix.js:219-238 | the inverse with the 1x1 determinant corrected: a matrix of the same size when the determinant is non-zero |
| Matrices.MulTuple | src/lib/matrix.js:115-138 | has no contract: the matrix applied to the tuple; MatrixLaws.MulTupleIdentity, MatrixLaws.MulTupleAssociates and MatrixLaws.MulTupleRow state its properties |
| Matrices.Det | src/lib/matrix.js:163-175 | has no contract: ad - bc on a 2x2 matrix, otherwise the row-0 cofactor expansion; MatrixLaws.Det2Of, MatrixLaws.Det3Formula, MatrixLaws.DetOfOneByOneIsZero and InverseLaws.DetOf4 state what it computes |
| Matrices.Minor | src/lib/matrix.js:203 | has no contract: the determinant of the submatrix; MatrixLaws.Cofactor4Formula and MatrixLaws.FirstRowCofactors use it |
| Matrices.Cofactor | src/lib/matrix.js:208-212 | has no contract: the minor, negated when row + col is odd; InverseLaws.ExpandRowByCofactors and InverseLaws.ExpandColumnByCofactors state the expansion laws |
| Matrices.IsInvertible | src/lib/matrix.js:214 | holds exactly when `inverse` as written returns a matrix |
| Matrices.GridExtensionality | src/lib/matrix.js:23 | two matrices of one shape with equal entries are equal |
| Matrices.Matrix.Cells | src/lib/matrix.js:7-43 | the column-stored object read as rows: row i, column j is `data[j][i]` |
| Matrices.Matrix.constructor | src/lib/matrix.js:7-43 | `Matrix(rows, columns, initValue)` has the given shape and every entry equal to initValue |
| Matrices.Matrix.Set | src/lib/matrix.js:24 | `set(i, j, val)` changes that one entry and no other |
| Matrices.Matrix.Row | src/lib/matrix.js:25-30 | `row(i)` is row i of the matrix |
| Matrices.Matrix.Col | src/lib/matrix.js:31 | `col(j)` is column j of the matrix |
| Matrices.Matrix.Get | src/lib/matrix.js:23 | has no contract: entry (i, j) read from the column-major store; Matrices.Matrix.Cells is defined from it and every method of the class is stated through Cells |
| Matrices.InitFromArray | src/lib/matrix.js:48-58 | a fresh matrix whose rows are the given nested arrays |
| Matrices.Equals | src/lib/matrix.js:72-86 | true exactly when the shapes agree and every entry is within EPSILON of the other's |
| Matrices.Multiply | src/lib/matrix.js:93-109 | a fresh n x n matrix equal to the product of the two matrices' values |
| Matrices.RowByColumn | src/lib/matrix.js:98-102 | the inner loop sums row i of m1 against column j of m2 |
| Matrices.MultiplyTuple | src/lib/matrix.js:115-138 | `multiplyTuple` on the object is the matrix value applied to the tuple |
| Matrices.TransposeMatrix | src/lib/matrix.js:143-157 | a fresh matrix equal to the transpose; an error exactly when there are no columns (`initFromArray` reads `rows[0]`) |
| Matrices.SubmatrixOf | src/lib/matrix.js:181-197 | a fresh matrix equal to the submatrix value |
| Matrices.Determinant | src/lib/matrix.js:163-175 | the loop computes the row-0 cofactor expansion of the matrix value |
| Matrices.MinorOf | src/lib/matrix.js:203 | the determinant of the submatrix |
| Matrices.CofactorOf | src/lib/matrix.js:208-212 | the minor, negated when row + col is odd |
| Matrices.InverseOf | src/lib/matrix.js:214-238 | an error exactly when the determinant is 0, otherwise a fresh matrix whose entry (j, i) is cofactor (i, j) over the determinant |
| MatrixLaws.RowTimesColumnStep | src/lib/matrix.js:100-102 | one round of the product loop adds one term |
| MatrixLaws.Mul4Entry | src/lib/matrix.js:93-109 | a 4x4 product entry is its four-term sum |
| MatrixLaws.MulIdentity | src/lib/matrix.test.js:178-188 | multiplying by the identity on either side changes nothing |
| MatrixLaws.MulTupleIdentity | src/lib/matrix.js:63-68 | the identity maps every tuple to itself |
| MatrixLaws.MulTupleAssociates | src/lib/matrix.js:93-138 | applying a product to a tuple is applying its factors in turn, the right one first |
| MatrixLaws.MulTupleAssociatesRow | src/lib/matrix.js:93-138 | the same, coordinate by coordinate |
| MatrixLaws.ProductRowApplied | src/lib/matrix.js:93-138 | row i of a product against t equals row i of the left factor against the right factor's image of t |
| MatrixLaws.MulTupleRow | src/lib/matrix.js:115-138 | coordinate i of the image is row i against the tuple |
| MatrixLaws.TransposeInvolution | src/lib/matrix.js:143-157 | transposing twice gives the matrix back |
| MatrixLaws.TransposeEntries | src/lib/matrix.js:143-157 | transposing swaps the dimensions and mirrors every entry |
| MatrixLaws.TransposeIdentity | src/lib/matrix.test.js:207-210 | the identity is its own transpose |
| MatrixLaws.SkipBijective | src/lib/matrix.js:184-194 | the index skipping a removed row never lands on it, keeps the order and reaches every other index |
| MatrixLaws.ExpansionStep | src/lib/matrix.js:169-171 | one round of the expansion loop adds one term |
| MatrixLaws.Det3Formula | src/lib/matrix.js:163-175 | the row-0 expansion of a 3x3 matrix is the textbook determinant |
| MatrixLaws.Det2Of | src/lib/matrix.js:166-167 | a 2x2 determinant is ad - bc |
| MatrixLaws.Det4Expansion | src/lib/matrix.js:169-171 | a 4x4 determinant is the sum of the first row against its cofactors |
| MatrixLaws.Cofactor4Formula | src/lib/matrix.js:208-212 | a 4x4 cofactor is the signed 3x3 determinant of its submatrix |
| MatrixLaws.DetOfOneByOneIsZero | src/lib/matrix.js:163-175 | `determinant` of any 1x1 matrix is 0: the loop's cofactors are determinants of 0x0 matrices, which are 0 |
| MatrixLaws.CorrectionAgreesFromSize3 | src/lib/matrix.js:163-238 | from size 3 up the corrected determinant, cofactors and inverse are exactly those as written |
| MatrixLaws.InverseAsWrittenOfIdentity2 | src/lib/matrix.js:219-238 | as written, the inverse of the 2x2 identity is the zero matrix |
| MatrixLaws.InverseAsWrittenDoesNotInvert | src/lib/matrix.js:219-238 | so the 2x2 identity times its inverse as written is not the identity |
| MatrixLaws.Mul2Entry | src/lib/matrix.js:93-109 | a 2x2 product entry is its two-term sum |
| MatrixLaws.Inverse2Entries | src/lib/matrix.js:219-238 | the corrected 2x2 inverse is (d, -b; -c, a) over ad - bc |
| MatrixLaws.Inverse2Inverts | src/lib/matrix.js:214-238 | the corrected 2x2 inverse exists exactly when ad - bc is non-zero and is then a two-sided inverse |
| MatrixLaws.Determinant3Example | src/lib/matrix.test.js:218-224 | the 3x3 test matrix has cofactors 56, 12, -46 and determinant -196 |
| MatrixLaws.Determinant4Example | src/lib/matrix.test.js:226-239 | the 4x4 test matrix has first-row cofactors 690, 447, 210, 51 and determinant -4071 |
| MatrixLaws.FirstRowCofactors | src/lib/matrix.js:163-212 | a 4x4 determinant is the first row against the signed 3x3 minors |
| MatrixLaws.InverseTestDeterminant | src/lib/matrix.test.js:304-313 | the inverse test matrix has determinant 532 |
| MatrixLaws.IdentityDeterminant | src/lib/matrix.js:63-68 | the identity has determinant 1, so it is invertible |
| MatrixLaws.InverseExample | src/lib/matrix.test.js:304-315 | the inverse test's cofactors -160 and 105 land, divided by 532, at the transposed positions |
| InverseLaws.CofactorsOf4 | src/lib/matrix.js:163-212 | the sixteen cofactors and the determinant of a 4x4 matrix over its entries |
| InverseLaws.DetOf4 | src/lib/matrix.js:163-175 | a 4x4 determinant is the signed sum over the 24 permutations |
| InverseLaws.ExpandRowByCofactors | src/lib/matrix.js:163-212 | any row against its own cofactors gives the determinant, against another row's gives 0 |
| InverseLaws.ExpandColumnByCofactors | src/lib/matrix.js:163-212 | the same for columns |
| InverseLaws.Inverse4Entry | src/lib/matrix.js:219-238 | entry (i, j) of the inverse is cofactor (j, i) over the determinant |
| InverseLaws.InverseIsCofactorQuotient | src/lib/matrix.js:219-238 | the inverse of an invertible 4x4 matrix holds all its transposed cofactor quotients |
| InverseLaws.RightQuotientEntry | src/lib/matrix.js:219-238 | every entry of g times its inverse is the identity's |
| InverseLaws.LeftQuotientEntry | src/lib/matrix.js:219-238 | every entry of the inverse times g is the identity's |
| InverseLaws.Inverse4Inverts | src/lib/matrix.js:214-238 | a 4x4 inverse exists exactly when the determinant is non-zero, and is then a two-sided inverse |
| InverseLaws.MulAssociative | src/lib/matrix.js:93-109 | the 4x4 product is associative |
| InverseLaws.MulByInverseCancels | src/lib/matrix.test.js:367-380 | a product multiplied by the inverse of its right factor is the left factor |
| InverseLaws.InverseUnique | src/lib/matrix.js:219-238 | any right inverse of an invertible matrix is its `inverse` |
| InverseLaws.InverseMapsBack | src/lib/matrix.js:115-238 | mapping a tuple through a matrix and its inverse, in either order, gives it back |
| Transformations.Translation | src/lib/transformations.js:3-10 | a translation is a 4x4 matrix with bottom row (0, 0, 0, 1) |
| Transformations.Scaling | src/lib/transformations.js:12-19 | a scaling is a 4x4 matrix with bottom row (0, 0, 0, 1) |
| Transformations.RotationX | src/lib/transformations.js:21-28 | a rotation about x is a 4x4 matrix with bottom row (0, 0, 0, 1) |
| Transformations.RotationY | src/lib/transformations.js:30-37 | a rotation about y is a 4x4 matrix with bottom row (0, 0, 0, 1) |
| Transformations.RotationZ | src/lib/transformations.js:39-46 | a rotation about z is a 4x4 matrix with bottom row (0, 0, 0, 1) |
| Transformations.KeepsWMapsKinds | src/lib/transformations.js:3-46 | such a matrix keeps w, so it maps points to points and vectors to vectors |
| Transformations.TranslationMoves | src/lib/transformations.js:3-10 | a translation adds its offset to a point and leaves a vector unchanged |
| Transformations.TranslationInverse | src/lib/transformations.js:3-10 | a translation has determinant 1 and its inverse is the opposite translation |
| Transformations.TranslationInverseMovesBack | src/lib/transformations.test.js:20-26 | the inverse of a translation moves a point back by the offset |
| Transformations.TranslationExamples | src/lib/transformations.test.js:13-33 | (5, -3, 2) takes (-3, 4, 5) to (2, 1, 7), its inverse takes it to (-8, 7, 3), and the vector is not moved |
| Transformations.ScalingScales | src/lib/transformations.js:12-19 | scaling multiplies x, y, z by the factors and keeps w |
| Transformations.ScalingInverse | src/lib/transformations.js:12-19 | a scaling has determinant xyz, is invertible exactly when no factor is 0, and its inverse is then the scaling by the reciprocals |
| Transformations.ScalingExamples | src/lib/transformations.test.js:36-64 | (2, 3, 4) scales (-4, 6, 8) to (-8, 18, 32) as point and as vector; (-1, 1, 1) mirrors x |
| Transformations.ScalingInverseExample | src/lib/transformations.test.js:50-56 | the inverse of scaling (2, 3, 4) takes (-4, 6, 8) to (-2, 2, 2) |
| Transformations.ReflectionIsScaling | src/lib/transformations.test.js:58-64 | scaling by (-1, 1, 1) negates x and nothing else |
| Transformations.RotationXTurns | src/lib/transformations.js:21-28 | a rotation about x keeps x and w and turns (y, z) by (cos, sin) |
| Transformations.RotationYTurns | src/lib/transformations.js:30-37 | a rotation about y keeps y and w and turns (z, x) by (cos, sin) |
| Transformations.RotationZTurns | src/lib/transformations.js:39-46 | a rotation about z keeps z and w and turns (x, y) by (cos, sin) |
| Transformations.RotationXInverse | src/lib/transformations.test.js:77-83 | for cos² + sin² = 1 the inverse of a rotation about x is the rotation by the opposite angle |
| Transformations.RotationYInverse | src/lib/transformations.js:30-37 | the same about y |
| Transformations.RotationZInverse | src/lib/transformations.js:39-46 | the same about z |
| Rays.PositionLaws | src/lib/ray.js:14-16 | `position` at 0 is the origin, a point plus a multiple of a vector is a point, and moving along the ray adds up |
| Rays.Position | src/lib/ray.js:14-16 | has no contract: origin + t * direction; Rays.PositionLaws states that t = 0 is the origin, that points stay points and that steps add up |
| Rays.Intersect | src/lib/ray.js:23-38 | no hit exactly when the discriminant is negative, otherwise two, each tagged with the shape (Rays.IntersectSolves adds the order and that both lie on the sphere) |
| Rays.PositionExamples | src/lib/ray.test.js:32-38 | from (2, 3, 4) along (1, 0, 0) at t = 0, 1, -1, 2.5 |
| Rays.QuadraticRoot | src/lib/ray.js:28-35 | a quadratic-formula root solves the quadratic |
| Rays.QuadraticPair | src/lib/ray.js:28-35 | with a positive leading coefficient, the two roots are ordered and both solve the quadratic |
| Rays.DistanceAlongRay | src/lib/ray.js:24-28 | the squared distance of `position(r, t)` from the origin is a t² + b t + c + 1 with the coefficients `intersect` computes |
| Rays.SquaresAlong | src/lib/ray.js:24-28 | the squared length of o + d t as a polynomial in t |
| Rays.IntersectSolves | src/lib/ray.js:23-38 | no intersection exactly when the discriminant is negative; otherwise two, tagged with the shape, in ascending order, equal for a tangent ray, each at a point on the unit sphere |
| Rays.RootOnUnitSphere | src/lib/ray.js:24-35 | a root of the ray's quadratic is a parameter where the ray meets the unit sphere |
| Rays.IntersectFrom | src/lib/ray.js:23-38 | `intersect` in terms of its coefficients: empty for a negative discriminant, otherwise the two formula roots |
| Rays.AlongZHits | src/lib/ray.test.js:41-84 | a ray along z from (0, y, z) misses when abs(y) > 1 and otherwise meets the sphere at -z ∓ sqrt(1 - y²) |
| Rays.DiscriminantAlongZ | src/lib/ray.js:28 | such a ray's discriminant is 4 (1 - y²) |
| Rays.SqrtOfSquareAbs | src/lib/ray.js:34-35 | the square root of a square is the magnitude |
| Rays.SqrtOfSquare | src/lib/ray.js:34-35 | the square root of a perfect square of a non-negative number is that number |
| Cameras.MakeCamera | src/lib/camera.js:5-29 | the camera keeps its size, field of view and transform, the transform defaulting to the identity |
| Cameras.HalfExtents | src/lib/camera.js:6-16 | a landscape canvas spans the half view across, a portrait one up, and the half extents keep the aspect ratio |
| Cameras.AspectAtLeastOne | src/lib/camera.js:10 | the aspect is at least 1 exactly when the canvas is at least as wide as it is high |
| Cameras.PixelSizeByLongerSide | src/lib/camera.js:18 | the pixel size is 2 tan(fov / 2) over the longer side, and hsize by vsize pixels cover exactly 2 halfWidth by 2 halfHeight |
| Cameras.PixelSizeSymmetric | src/lib/camera.js:5-29 | swapping width and height leaves the pixel size unchanged |
| Cameras.PixelSizeExamples | src/lib/camera.test.js:18-26 | 200 by 125 and 125 by 200 with tan(fov / 2) = 1 have pixels of size 0.01 |
| Cameras.CentrePixel | src/lib/camera.js:34-39 | the centre pixel of an odd-sized canvas lies on the axis of view |
| Cameras.RayForPixel | src/lib/camera.js:34-47 | an error exactly when the transform is singular |
| Cameras.RayForPixelFrame | src/lib/camera.js:34-47 | the transform carries the ray's origin to the eye at the origin and the point it aims at to the pixel centre on z = -1 |
| Cameras.RayForPixelUntransformed | src/lib/camera.js:34-47 | with the identity transform the ray starts at the origin and heads for the pixel centre |
| Cameras.RayThroughCentre | src/lib/camera.test.js:29-34 | the ray through the centre of a 201 by 101 canvas points straight down -z |
| Intersections.Intersections | src/lib/intersection.js:11-13 | the intersections are the arguments, in the order given |
| Intersections.Hit | src/lib/intersection.js:18-30 | nothing exactly when no t lies in [0, `Number.MAX_VALUE`); otherwise the first element with the smallest t in that range |
| Intersections.HitBecomesLast | src/lib/intersection.js:22-27 | a candidate below the current minimum becomes the hit of the longer prefix |
| Intersections.HitStays | src/lib/intersection.js:22-27 | otherwise the hit of the prefix stays the hit (ties keep the earlier element) |
| Intersections.HitIsUnique | src/lib/intersection.js:18-30 | there is at most one hit |
| Intersections.HitExists | src/lib/intersection.js:18-30 | a hit exists exactly when some t lies in [0, `Number.MAX_VALUE`) |
| Intersections.HitExamples | src/lib/intersection.test.js:35-74 | (1, 2) hits the first, (-1, 1) the second, (-2, -1) nothing, (5, 7, -3, 2) the last |
| Intersections.InsertByT | src/lib/world.js:45-47 | inserting into a list sorted by t keeps it sorted and adds exactly the one element |
| Intersections.SortByT | src/lib/world.js:45-47 | the sorted list is ordered by t and a permutation of its input; `SortByTStable` adds that it is stable, as `Array.prototype.sort` is |
| Intersections.SortByTPermutes | src/lib/world.js:45-47 | sorting keeps the length and exactly the elements |
| Intersections.WithTMembers | src/lib/world.js:45-47 | the elements of a list that carry one given t (`WithT`, kept in list order) are exactly those of the list with that t |
| Intersections.InsertByTStable | src/lib/world.js:45-47 | an inserted element goes in front of every element of equal t, and the others keep their order |
| Intersections.SortByTStable | src/lib/world.js:45-47 | the sort is stable: for every t, the elements with that t come out in the order they went in, as the stable `Array.prototype.sort` keeps hits of equal t in the order they were concatenated |
| Intersections.SortedDeterminedByGroups | src/lib/world.js:45-47 | two sorted lists that hold the same elements of each t in the same order are equal |
| Intersections.StableSortIsSortByT | src/lib/world.js:45-47 | any sorted list that keeps each t's elements in input order is exactly `SortByT`'s result, so the model's sort and JavaScript's stable sort give the same list |
| Intersections.SortedPermutationsAgreeOnT | src/lib/world.js:45-47 | any two sorted permutations of one list have the same sequence of t values, whichever sort is used |
| Intersections.RemoveAt | src/lib/world.js:45-47 | removing index i shifts the later elements down by one |
| Intersections.RemoveAtKeeps | src/lib/world.js:45-47 | removing an element keeps the rest of the multiset and the order |
| Worlds.World.constructor | src/lib/world.js:8-13 | a new world has no objects and no light |
| Worlds.World.AddObject | src/lib/world.js:30-31 | pushing an object appends it and leaves the light |
| Worlds.World.SetLight | src/lib/world.js:21 | setting the light leaves the objects |
| Worlds.AllHits | src/lib/world.js:41-43 | every object contributes two intersections, or none when the ray misses the unit sphere |
| Worlds.IntersectWorld | src/lib/world.js:40-48 | the result is sorted by t, a permutation of all objects' intersections, and has two per object when the ray meets the unit sphere |
| Worlds.ObjectHitsOnUnitSphere | src/lib/world.js:42 | one object's intersections are tagged with it and lie on the unit sphere |
| Worlds.AllHitsOnUnitSphere | src/lib/world.js:41-43 | every intersection belongs to one of the objects and lies on the unit sphere, whatever the objects' transforms |
| Worlds.WorldHitsOnUnitSphere | src/lib/world.js:40-48 | the same for the sorted result |
| Worlds.EmptyWorldMisses | src/lib/world.test.js:11-15 | a new world has no objects, no light and no intersections |
| Patterns.JsRem | src/lib/pattern.js:14 | JavaScript's `%`: the remainder has the dividend's sign and is smaller than the divisor in size |
| Patterns.JsRemByTwo | src/lib/pattern.js:14 | the remainder by 2 is 0 exactly for even numbers, negative ones included |
| Patterns.StripeAtParity | src/lib/pattern.js:13-19 | the first colour exactly where floor(x) is even, that is on [2k, 2k + 1) for every integer k, the second elsewhere |
| Patterns.StripeAt | src/lib/pattern.js:13-19 | one of the two colours: the first exactly when floor(x) is even, negative x included, the second otherwise |
| Patterns.StripeIgnoresYZ | src/lib/pattern.test.js:21-31 | the colour depends on x alone |
| Patterns.StripePeriodTwo | src/lib/pattern.js:13-19 | moving two units along x keeps the colour |
| Patterns.StripeExamples | src/lib/pattern.test.js:7-40 | the stripe keeps its colours; x = 0, 0.9, -1.1 give the first, 1, -0.1, -1 the second |
| Planes.LocalNormalAt | src/lib/plane.js:7-9 | the normal is the unit vector up the y axis, at every point |
| Planes.LocalIntersect | src/lib/plane.js:11-19 | no intersection exactly when abs(direction.y) < EPSILON; otherwise one, tagged with the plane, at a point with y = 0 |
| Planes.IntersectExamples | src/lib/plane.test.js:24-50 | parallel and coplanar rays miss; rays from above and below meet the plane at t = 1 |
| Cubes.Max3 | src/lib/cube.js:12 | `Math.max` of three is an upper bound that equals one of them |
| Cubes.Min3 | src/lib/cube.js:13 | `Math.min` of three is a lower bound that equals one of them |
| Cubes.LocalIntersect | src/lib/cube.js:7-20 | no intersection exactly when some axis's entry is beyond another's exit; otherwise the latest entry and the earliest exit, in that order, inside every axis's interval |
| Cubes.LocalNormalAt | src/lib/cube.js:25-35 | the component of largest magnitude is kept and the others zeroed, ties going to x and then to y |
| Cubes.NormalExamples | src/lib/cube.test.js:52-65 | (1, 0.5, -0.8) gives (1, 0, 0), points on a z face and a y face give z and y normals, and the corners (1, 1, 1) and (-1, -1, -1) give x normals |
| Cylinders.LocalIntersect | src/lib/cylinder.js:7-28 | every result is tagged with the cylinder |
| Cylinders.LocalNormalAt | src/lib/cylinder.js:30-32 | the normal is the point without its y: perpendicular to the axis, and of length 1 on the wall |
| Cylinders.WallDistanceAlongRay | src/lib/cylinder.js:8-17 | along the ray, x² + z² - 1 is the quadratic a t² + b t + c with the coefficients computed |
| Cylinders.LocalIntersectSolves | src/lib/cylinder.js:7-28 | no result exactly when abs(a) < EPSILON or the discriminant is negative; otherwise two, tagged, in ascending order, each on the wall x² + z² = 1 |
| Cylinders.TwoResultsOnWall | src/lib/cylinder.js:18-27 | past both guards there are two ordered results on the wall |
| Cylinders.LocalIntersectRoots | src/lib/cylinder.js:24-27 | past both guards the results are the two formula roots, smaller first |
| Cylinders.RootsOnWall | src/lib/cylinder.js:24-25 | the two formula roots are ordered and both on the wall |
| Cylinders.LeadingCoefficientPositive | src/lib/cylinder.js:8-13 | a sum of two squares not within EPSILON of 0 is positive |
| Cylinders.RootOnWall | src/lib/cylinder.js:8-25 | a root of the ray's quadratic is where the ray meets the wall |
| Cones.ConeAlongRay | src/lib/cone.js:25-36 | along the ray, x² - y² + z² is the quadratic a t² + b t + c with the coefficients computed |
| Cones.CapHit | src/lib/cone.js:9-14 | at most one result, at a finite limit's height and passing the `checkCap` test x² + z² <= abs(limit); present whenever `checkCap` passes there |
| Cones.CapHitCorrected | src/lib/cone.js:8-14 | with the disc test x² + z² <= limit², the cap's radius at that height being abs(limit): a result exactly when the point where the ray reaches a finite limit's height lies in the cap's disc, and then at that t |
| Cones.CheckCapAgreesAtUnitLimits | src/lib/cone.js:8-14 | `checkCap` and the disc test agree at limits 0, 1 and -1 |
| Cones.CapHitAsWrittenMissesDisc | src/lib/cone.js:8-14 | the ray from (3, 10, 0) straight down reaches the cap at height 4 inside its disc at t = 6, yet `checkCap` keeps no hit there; the disc test keeps it |
| Cones.IntersectCaps | src/lib/cone.js:94-114 | an open cone or a ray with abs(direction.y) < EPSILON keeps the list; otherwise at most two cap hits are appended after it, lower cap first, each on its cap |
| Cones.ParallelHitOnCone | src/lib/cone.js:39-47 | for a ray exactly parallel to one half of the cone, the root of the linear equation lies on the cone |
| Cones.ParallelHitAsWrittenMissesCone | src/lib/cone.js:44 | for the ray from (0, 0, z0) along (0, 1, 1), the root as written, -z0/4, is not on the cone, and the root -z0/2 is |
| Cones.ParallelRoots | src/lib/cone.js:44 | for that ray the root as written is -z0/4 and the linear root -z0/2 |
| Cones.BodyHits | src/lib/cone.js:50-68 | every body hit is tagged with the cone |
| Cones.KeepWithinLimits | src/lib/cone.js:61-68 | a root is kept only when its height is strictly between the limits |
| Cones.ConeRoots | src/lib/cone.js:50-53 | both formula roots solve the ray's quadratic |
| Cones.RootOnCone | src/lib/cone.js:25-53 | a root of the quadratic is a point of the cone |
| Cones.BodyHitsOnCone | src/lib/cone.js:50-68 | at most two body hits, none for a negative discriminant, in ascending order, each tagged, on the cone and between the limits |
| Cones.LocalIntersect | src/lib/cone.js:24-71 | nothing when a and b are both within EPSILON of 0; when only a is, the one root -c / (2 b) that line 44 computes; otherwise the body hits; the cap hits follow in the last two cases; every hit is tagged with the cone |
| Cones.LocalIntersectCorrected | src/lib/cone.js:39-47 | the same as `localIntersect` except for a ray parallel to one half of the cone, which gets the root -c / b of the linear equation |
| Cones.LocalIntersectParallel | src/lib/cone.js:39-47 | with the corrected root, a ray exactly parallel to one half of the cone gets a first hit, tagged with the cone, that lies on the cone |
| Cones.LocalIntersectParallelAsWritten | src/lib/cone.js:39-47 | the ray from (0, 0, z0) along (0, 1, 1) gets as first hit t = -z0/4, off the cone, where the corrected intersection's first hit -z0/2 is on it |
| Cones.LocalNormalAt | src/lib/cone.js:73-89 | straight up inside radius 1 near the upper limit, straight down near the lower one |
| Cones.NormalOnBody | src/lib/cone.js:73-89 | away from the caps, at a point of the cone the normal is (x, -y, z), perpendicular to the line from the apex |
| Cones.Limit | src/lib/cone.js:122-123 | the larger magnitude of the limits is never -∞ and, when finite, non-negative |
| Cones.BoundsAsWritten | src/lib/cone.js:116-125 | the box `bounds()` leaves through its chained assignments: x and y from -L to L, z from -1 to 1 |
| Cones.DefaultBoxAsWritten | src/lib/cone.js:116-125 | the default cone's box as written is infinite in y both ways |
| Cones.BoxAsWrittenMissesBody | src/lib/cone.js:116-125 | the cone from -2 to 1 has the body point (0, -1.5, 1.5) outside its box as written |
| Cones.ConeBoxContainsBody | src/lib/cone.js:116-125 | every point of the body between the limits is inside the corrected box |
| Cones.ConeBoxHoldsExample | src/lib/cone.js:116-125 | the point (0, -1.5, 1.5) is in the corrected box |
| RtMath.ExtAbs | src/lib/cone.js:122 | `Math.abs` on a number that may be infinite: finite exactly when the argument is, then its magnitude, and never -∞ |
| RtMath.ExtMax | src/lib/cone.js:122 | `Math.max` on numbers that may be infinite: one of the two, and below y exactly when both are |
| Bounding.ExtPoint | src/lib/bounds.js:7-8 | a limit point, whose coordinates may be infinite, has w = 1 and the given x, y, z |
| Bounding.NewBounds | src/lib/bounds.js:6-13 | a new box runs from (-1, -1, -1) to (1, 1, 1), its limits are points and each minimum is at most its maximum |
| Bounding.BoundingBox | src/lib/bounding-box.js:7-24 | the bounds come back unchanged with eight corners, corner i taking the maximum in x, y, z exactly where bits 2, 1, 0 of i are set |
| Bounding.CornersEnumerate | src/lib/bounding-box.js:7-24 | every min/max combination is a corner, at the index spelling it in binary; the first and last corners are the two limits |
| CsgRules.IntersectionAllowed | src/lib/csg.js:12-23 | an unknown operation keeps nothing |
| CsgRules.AllowedIffBoundary | src/lib/csg.js:12-23 | for union, intersection and difference a hit on one child is kept exactly when crossing that child's surface changes whether the point is inside the combined solid |
| CsgRules.OwnSideIrrelevant | src/lib/csg.js:12-23 | a left hit never depends on being inside the left child, a right hit never on being inside the right one |
| CsgRules.TruthTables | src/lib/csg.test.js:18-50 | the twenty-four rows of the union, intersection and difference truth table |
| Shapes.InverseOrFail | src/lib/shape.js:35 | inverting a transformation succeeds exactly when its determinant is non-zero, and then gives the inverse of the matrix module; otherwise it fails as not invertible |
| Shapes.Shape.constructor | src/lib/shape.js:9-19 | whatever props are passed, a new shape has the identity transformation, the default material and no parent, because the defaults are copied over the props |
| Shapes.Shape.SetTransform | src/lib/shape.js:21-27 | the transformation becomes the given matrix, is what `getTransform` then returns, and nothing else about the shape changes |
| Shapes.Shape.GetTransform | src/lib/shape.js:21-23 | the shape's own transformation, so it returns what the last `setTransform` stored |
| Shapes.Shape.AddChild | src/lib/group.js:10-13 | the child's parent becomes the group and the child is appended to the end of its shapes, leaving the rest of the group as it was |
| Shapes.Shape.LocalNormalAt | src/lib/shape.js:51-53 | the base shape and a CSG node give the point read as a vector, a triangle its stored normal (triangle.js:18-20), each other solid a vector; a group (group.js:15-17) and a smooth triangle called without a hit fail, and only they |
| Shapes.Shape.NormalToWorld | src/lib/shape.js:73-83 | converting a normal to world space succeeds exactly when every transformation up to the root is invertible, and gives a vector when normalising keeps vectors |
| Shapes.Shape.NormalAt | src/lib/shape.js:42-49 | a normal is found only when the whole chain of transformations is invertible, never on a group or a smooth triangle, and is a vector when normalising keeps vectors |
| Shapes.Shape.Intersect | src/lib/shape.js:32-37 | a shape with a singular transformation fails as not invertible; otherwise its hits are its local hits for the ray transformed by the inverse |
| Shapes.Shape.LocalIntersect | src/lib/group.js:19-26 | a group succeeds exactly when every child's intersection does, and then returns all the children's hits sorted by t and as a permutation of them; any other solid tags every hit with itself; only the base shape and a CSG node, which have no local intersection, fail |
| Shapes.ChildHits | src/lib/group.js:20-22 | the children's hits are collected exactly when no child fails, and an empty group collects none |
| Shapes.WorldToObjectRoundTrip | src/lib/shape.js:60-66 | converting a point to object space succeeds exactly when every transformation up to the root is invertible, and mapping the result back up through the chain returns the original point |
| Shapes.Shape.WorldToObject | src/lib/shape.js:60-66 | succeeds exactly when every transformation from the shape up to the root is invertible, and otherwise fails with the not-invertible error |
| Shapes.WorldToObjectUnparented | src/lib/shape.js:60-66 | a shape without a parent maps a point to object space by the inverse of its transformation |
| Shapes.WorldToObjectParentFirst | src/lib/shape.js:61-65 | a child applies its parent's conversion first and its own inverse after it |
| Shapes.TriangleNormalIgnoresPoint | src/lib/triangle.js:18-20 | a triangle's normal is the same at every point |
| Shapes.EmptyGroupMisses | src/lib/group.js:19-26 | an empty group has no hits for any ray |
| Shapes.ConeKind | src/lib/cone.js:17-22 | a new cone is open and runs from minus to plus infinity |
| Shapes.MakeCsg | src/lib/csg.js:3-5 | a new CSG node stores the operation and both operands, becomes the parent of each, and starts with no parent of its own, the identity and the default material (constructor at csg.js:25-32) |
| Shapes.GroupExample | src/lib/group.test.js:12-27 | a new group has the identity and, after one child is added, holds that child and is its parent |
| Triangles.MakeTriangle | src/lib/triangle.js:7-16 | the corners are stored, the two edges lead from p1 to p2 and to p3 (vectors when the corners are points), and the normal is the normalised cross product e2 x e1 |
| Triangles.NormalIsPerpendicular | src/lib/triangle.js:15 | the cross product that is normalised into the normal is perpendicular to both edges |
| Triangles.ConstructorExample | src/lib/triangle.test.js:11-19 | the example triangle has edges (-1, -1, 0) and (1, -1, 0) and its normal comes from (0, 0, -2) |
| Triangles.LocalIntersectHelper | src/lib/triangle.js:26-57 | a ray whose determinant is taken for zero gets nothing, and any result has barycentric u, v inside the triangle |
| Triangles.CramerX | src/lib/triangle.js:28-50 | Cramer's rule for the Möller–Trumbore system, x component |
| Triangles.CramerY | src/lib/triangle.js:28-50 | Cramer's rule for the Möller–Trumbore system, y component |
| Triangles.CramerZ | src/lib/triangle.js:28-50 | Cramer's rule for the Möller–Trumbore system, z component |
| Triangles.TripleProductLaws | src/lib/triangle.js:28-50 | the scalar triple product is invariant under cyclic rotation and vanishes with a repeated factor |
| Triangles.TripleProductsOfSolution | src/lib/triangle.js:28-50 | where the origin offset is u e1 + v e2 - t d, the helper's three triple products are u, v and t times the determinant |
| Triangles.MeetsAtComponents | src/lib/triangle.js:26-57 | meeting the triangle's plane at (t, u, v) is the three-component linear system the helper solves |
| Triangles.SolutionSolvesSystem | src/lib/triangle.js:35-50 | with a non-zero determinant the helper's u, v and t solve that system |
| Triangles.SolvesX | src/lib/triangle.js:35-50 | the x component of that solution |
| Triangles.SolvesY | src/lib/triangle.js:35-50 | the y component of that solution |
| Triangles.SolvesZ | src/lib/triangle.js:35-50 | the z component of that solution |
| Triangles.SolutionMeetsPlane | src/lib/triangle.js:35-50 | with a non-zero determinant the ray at the helper's t is p1 + u e1 + v e2 |
| Triangles.HelperHitLiesOnTriangle | src/lib/triangle.js:26-57 | every result of the helper is a point of the triangle that the ray reaches at t |
| Triangles.HelperFindsEveryHit | src/lib/triangle.js:26-57 | every point of the triangle that the ray reaches (determinant not taken for zero) is found, with exactly its t, u and v |
| Triangles.SolutionProducts | src/lib/triangle.js:28-50 | where the ray meets the plane at (t, u, v), the triple products are u, v and t times the determinant |
| Triangles.SolutionIsUnique | src/lib/triangle.js:35-50 | with a non-zero determinant the helper's (t, u, v) is the only place the ray meets the plane |
| Triangles.LocalIntersect | src/lib/triangle.js:59-67 | at most one intersection, tagged with the triangle, present exactly when the helper finds one and then at its t |
| Triangles.LocalIntersectMeetsTriangle | src/lib/triangle.js:59-67 | a reported intersection lies on the triangle, and a ray that meets the triangle (determinant not taken for zero) is reported there |
| Triangles.MakeSmoothTriangle | src/lib/smooth-triangle.js:6-12 | a smooth triangle holds the flat triangle built from its corners and the three vertex normals |
| Triangles.SmoothNormalAtCorners | src/lib/smooth-triangle.js:14-18 | the interpolated normal is n1, n2 and n3 at the corners (0, 0), (1, 0) and (0, 1) |
| Triangles.SmoothNormalAt | src/lib/smooth-triangle.js:14-18 | with vector vertex normals, the interpolated normal is a vector (Triangles.SmoothNormalAtCorners gives its values at the corners) |
| Triangles.SmoothNormalIsAffine | src/lib/smooth-triangle.js:14-18 | the interpolated normal at (u, v) is n1 + u (n2 - n1) + v (n3 - n1) |
| Triangles.SmoothLocalIntersect | src/lib/smooth-triangle.js:20-28 | the hits of a smooth triangle are those of its flat triangle, since the `Intersection` factory drops the u and v passed to it |
| ObjFiles.Split | src/lib/obj-file.js:47 | splitting always yields at least one piece |
| ObjFiles.SplitPiecesLackSep | src/lib/obj-file.js:47 | no piece of a split holds the separator |
| ObjFiles.SplitJoin | src/lib/obj-file.js:47 | joining the pieces with the separator gives the text back |
| ObjFiles.TrimStart | src/lib/obj-file.js:112 | dropping leading white space never lengthens the text |
| ObjFiles.TrimEnd | src/lib/obj-file.js:112 | dropping trailing white space never lengthens the text |
| ObjFiles.Trim | src/lib/obj-file.js:112 | trimming never lengthens the text |
| ObjFiles.TrimStartCuts | src/lib/obj-file.js:112 | the leading cut keeps a suffix that starts with a non-space and drops only white space |
| ObjFiles.TrimEndCuts | src/lib/obj-file.js:112 | the trailing cut keeps a prefix that ends with a non-space and drops only white space |
| ObjFiles.TrimCutsSpace | src/lib/obj-file.js:112 | what `trim` keeps is a slice of the text with white space at neither end, and everything before and after it is white space |
| ObjFiles.TrimIdempotent | src/lib/obj-file.js:81 | trimming twice is trimming once, so the second `trim` in `parseVertex` changes nothing |
| ObjFiles.DropNewlines | src/lib/obj-file.js:112 | dropping the lone "\n" pieces never adds a piece |
| ObjFiles.TrimAll | src/lib/obj-file.js:112 | trimming each piece keeps the number of pieces |
| ObjFiles.Tokens | src/lib/obj-file.js:112 | every part of a line is already trimmed: trimming it again changes nothing |
| ObjFiles.Command | src/lib/obj-file.js:113 | `undefined` exactly for a line with no parts, otherwise the first part |
| ObjFiles.GroupName | src/lib/obj-file.js:141-142 | the second part, or the key "undefined" when the line has no second part |
| ObjFiles.Initial | src/lib/obj-file.js:30-40 | the constructor's fields form a well-formed parser: the empty vertex 0, offset 0, and the default group, active and listed once |
| ObjFiles.VertexAt | src/lib/obj-file.js:73-78 | a vertex is found exactly when the index is a whole number and the offset plus the index lies inside the vertex list, and it is the entry there |
| ObjFiles.ParseVertex | src/lib/obj-file.js:80-82 | a line of at least four parts gives a point, and a shorter one throws |
| ObjFiles.FaceTriangle | src/lib/obj-file.js:91 | the triangle of a face has the face's three corners |
| ObjFiles.NewTriangle | src/lib/triangle.js:7-16 | a triangle is made exactly when all three corners exist, from those corners; a missing corner throws a TypeError |
| ObjFiles.ParseFace | src/lib/obj-file.js:84-92 | a face made from a line has the three vertices its parts 1 to 3 name |
| ObjFiles.FanFromShape | src/lib/obj-file.js:94-108 | from any index on, the fan holds one triangle (v1, vi, vi+1) per remaining pair, in order, and throws exactly when a named vertex is missing |
| ObjFiles.FanFrom | src/lib/obj-file.js:99-107 | nothing once the index has reached the last part; otherwise, when it succeeds, one triangle for each remaining pair of parts |
| ObjFiles.Triangulate | src/lib/obj-file.js:94-108 | no triangles for three or fewer parts; when it succeeds, n - 2 triangles for a command and n vertex indices |
| ObjFiles.TriangulateFan | src/lib/obj-file.js:94-108 | a polygon of n vertex indices becomes the n - 2 fan triangles (v1, vi, vi+1) in order, and throws exactly when one of its indices names no vertex |
| ObjFiles.TriangleAsPolygon | src/lib/obj-file.js:94-108 | a polygon of three indices with no white space around them is the one triangle `parseFace` builds |
| ObjFiles.VertexLine | src/lib/obj-file.js:117-125 | the offset moves to the last vertex unless the previous statement was a `v`; the point is appended only when the line has three numbers, and otherwise the line throws a TypeError after the offset has moved; groups and ignored lines stay |
| ObjFiles.FaceLine | src/lib/obj-file.js:127-139 | the face's triangles go to the end of the active group and the last instruction becomes `f`; a throw changes nothing |
| ObjFiles.GroupLine | src/lib/obj-file.js:141-150 | the named group becomes active, and is made empty and last in key order only when no group of that name exists |
| ObjFiles.StepLine | src/lib/obj-file.js:110-156 | after any line the active group is still one of the groups |
| ObjFiles.RunLines | src/lib/obj-file.js:46-50 | after any run of lines the active group is still one of the groups |
| ObjFiles.StepKeepsWellFormed | src/lib/obj-file.js:110-156 | every line keeps the parser well formed |
| ObjFiles.RunKeepsWellFormed | src/lib/obj-file.js:46-50 | every run of lines keeps the parser well formed |
| ObjFiles.OtherLinesOnlyIgnored | src/lib/obj-file.js:152-154 | a line whose first word is not `v`, `f` or `g`, a blank line included, is kept verbatim and changes nothing else; neither such a line nor a `g` line touches the vertices, the offset or the last instruction |
| ObjFiles.OtherLineStep | src/lib/obj-file.js:152-154 | such a line appends itself to the ignored lines and leaves everything else |
| ObjFiles.OtherLineRun | src/lib/obj-file.js:46-50 | a run starting with such a line continues from the state it leaves |
| ObjFiles.OtherLinesKeptInOrder | src/lib/obj-file.test.js:5-10 | lines none of which is a `v`, `f` or `g` statement are all kept, in order, and nothing else changes |
| ObjFiles.FaceAddsOneTriangle | src/lib/obj-file.js:134-136 | a face of three indices adds exactly the one triangle of the vertices it names to the end of the active group, leaves every other group as it was, and throws exactly when `parseFace` does |
| ObjFiles.PolygonAddsFan | src/lib/obj-file.js:129-133 | a face of n > 3 indices adds the n - 2 fan triangles, in order, to the end of the active group, and throws, changing nothing, exactly when an index names no vertex |
| ObjFiles.StepOnlyAdds | src/lib/obj-file.js:110-156 | one line keeps every vertex, ignored line and group key, and every group's triangles stay at its front |
| ObjFiles.RunLinesOnlyAdds | src/lib/obj-file.js:46-50 | a whole parse only ever adds vertices, ignored lines, group keys and triangles at the end of groups |
| ObjFiles.VLines | src/lib/obj-file.js:117-125 | the `v` lines are a selection of the lines |
| ObjFiles.StepVertices | src/lib/obj-file.js:117-125 | a line that does not throw appends a vertex exactly when it is a `v` line, and then the point it names |
| ObjFiles.AppendsPointsCons | src/lib/obj-file.js:123 | appending one point and then the points of the rest is appending the points of all the lines |
| ObjFiles.VerticesFromVLines | src/lib/obj-file.js:117-125 | when nothing throws, the vertex list grows by the points of the `v` lines, in order |
| ObjFiles.VBlockRun | src/lib/obj-file.js:118-120 | a run of `v` lines leaves the offset where its first line put it |
| ObjFiles.AllVLines | src/lib/obj-file.js:117 | lines that are all `v` lines are their own `v` lines |
| ObjFiles.VertexBlockIndexing | src/lib/obj-file.js:73-78 | after any other statement, a run of n `v` lines makes face indices 1 to n name its n points |
| ObjFiles.IndexingAfterAppend | src/lib/obj-file.js:73-78 | points appended after the offset are found at indices 1, 2, ... |
| ObjFiles.CollectGroups | src/lib/obj-file.js:55-66 | the groups `toGroup` adds are non-empty, each named by its key, with that key's triangles |
| ObjFiles.CollectGroupsComplete | src/lib/obj-file.js:58-63 | every key whose group holds a triangle is in the result |
| ObjFiles.ToGroupContents | src/lib/obj-file.js:55-66 | a named group is in the result exactly when the parser has a non-empty group of that name with those triangles |
| ObjFiles.PrependNothing | src/lib/obj-file.js:97 | starting the fan from no triangles changes nothing |
| ObjFiles.PrependStep | src/lib/obj-file.js:104 | pushing a triangle and then the rest is the same as prepending both |
| ObjFiles.Parser.constructor | src/lib/obj-file.js:30-40 | a new parser has the constructor's fields and is well formed |
| ObjFiles.Parser.DefaultGroup | src/lib/obj-file.js:35-38 | the default group is the group kept under "default" |
| ObjFiles.Parser.GetGroupByName | src/lib/obj-file.js:42-44 | a group is found exactly when its key exists, and it is the group under that key |
| ObjFiles.Parser.CreateGroup | src/lib/obj-file.js:68-71 | the key gets a new empty group; a new key goes last in key order, an existing one keeps its place; nothing else changes and the parser stays well formed |
| ObjFiles.Parser.GetVertexByIndex | src/lib/obj-file.js:73-78 | a vertex is found only at a whole index inside the list, and is the entry there |
| ObjFiles.Parser.TriangulatePolygon | src/lib/obj-file.js:94-108 | the loop returns exactly the fan `TriangulateFan` describes, or the throw of its first triangle with a missing corner |
| ObjFiles.Parser.ParseLine | src/lib/obj-file.js:110-156 | the parser's new state and result are those of one step on the line, and it stays well formed |
| ObjFiles.Parser.VertexCase | src/lib/obj-file.js:117-125 | the `v` case does what `VertexLine` states |
| ObjFiles.Parser.FaceCase | src/lib/obj-file.js:127-139 | the `f` case does what `FaceLine` states |
| ObjFiles.Parser.ParseString | src/lib/obj-file.js:46-50 | the lines between "\n" characters are parsed in order, and the first line that throws ends the parse |
| ObjFiles.Parser.ToGroup | src/lib/obj-file.js:55-66 | the result holds exactly the non-empty groups, each named by its key |
| ObjFiles.ParseObjFile | src/lib/obj-file.js:21-27 | a new parser fed the whole text ends well formed, in the state and with the outcome of running all its lines from the initial state |
| RtMath.Max | src/lib/cube.js:12 | `Math.max` of two numbers is at least both and is one of them |
| RtMath.Min | src/lib/color-canvas.js:14 | `Math.min` of two numbers is at most both and is one of them |

## Left out

### Numbers, helpers and rendering

- Floating point: numbers are exact reals.
  - IEEE-754 rounding, `Infinity` arithmetic and NaN are not modelled.
  - The one deliberate NaN path is a cone's body roots under a negative discriminant. It is modelled as "no body hits", which is what the failed comparisons give.
- Transcendental functions and helpers whose code is not part of this model are passed as parameters, with only the facts the proofs need:
  - `Math.sqrt`, which is non-negative and squares back on non-negative input;
  - `Math.tan`, `Math.sin` and `Math.cos`;
  - tuple.js `magnitude`/`normalize`;
  - `checkAxis` and `isZero`, imported from math.js by cube.js and triangle.js but defined nowhere in the sources (math.js exports only `EPSILON`, `floatIsEqual` and `degreesToRadians`); the only fact required of `isZero` is that `isZero(0)` holds;
  - `transform`, imported from ray.js by shape.js but likewise defined nowhere (ray.js exports only `Ray`, `position` and `intersect`);
  - the `Number` conversion of OBJ tokens.
- As written, the imports of `checkAxis`, `isZero` and `transform` bind nothing, so cube and triangle intersection and every `Shape.intersect` would fail at the call. That failure is not modelled: the model gives these helpers the meaning their call sites and tests expect.
- `Math.pow`, material.js `lighting`, sphere.js, light.js and projectile.js are not part of this model: they are shading and records with no behaviour in the core.
  - The `Material` record is kept without its `pattern` field.
- `World.Default` is not part of this model. It writes materials onto `Sphere()` records that have no material field.
- The `uuid` identifiers of shapes are not part of this model. They are random and nothing in the core reads them.
- The browser side of the canvases is not part of this model: `initFromHTMLCanvasContext`, `toHTML5CanvasImageData`, `ImageData`, blobs and file saving.
- `parseObjFromUrl` is not part of this model: it is a network fetch.
- `shearing`, `viewTransform`, `prepareComputations`, `shadeHit`, `colorAt`, `isShadowed` and `render` are named by the tests but have no code in the sources. They are not part of this model.
- Matrix `toString` is not part of this model: it only formats the matrix for display.

### Weaker contracts and narrower inputs

- Rays.Intersect: requires `dot(direction, direction) != 0`. A zero direction divides by zero into NaN roots in the source, which the real model cannot express. `Worlds.AllHits` and `Worlds.IntersectWorld` inherit the requirement.
- Cameras.MakeCamera: requires `hsize > 0` and `vsize > 0`. Otherwise the aspect ratio and the pixel size divide by zero.
- Matrices.Multiply: requires two square matrices of the same size, which is what its source comment says it handles.
- Matrices.Matrix.Col: returns the column as a value. In matrix.js `col` hands back the stored column array itself, so a caller writing into it would change the matrix; that aliasing is not modelled.
- Cones.IntersectCaps: returns the list with the cap hits appended, rather than pushing them into the caller's array in place.
  - The caller's array is not shared with anything else, so only the in-place update is lost.
  - A closed cone with an infinite limit is treated as having no cap on that side. The source computes t = (±Infinity - origin.y) / direction.y, an infinite t. `checkCap` then passes whenever direction.x and direction.z are both non-zero (Infinity <= Infinity), so the source pushes a cap hit at an infinite t; with either of them zero the coordinate is NaN and no hit is pushed. Reals have no infinite t, so those hits are not modelled.
- Shapes.Shape.LocalNormalAt: a smooth triangle reached through `normalAt` gets no intersection. Its local normal therefore reads `i.u` from `undefined` and throws.
  - The interpolation itself is `Triangles.SmoothNormalAt`, proved at the corners and affine.
- Triangles.SmoothLocalIntersect: the u and v passed to `Intersection` are dropped, because the factory keeps only t and the object. The smooth-triangle test that expects them on the result is not met by this code.
- Shapes.Shape.NormalAt: the ancestor chain is a ghost argument, and trees are bounded by a ghost height, so that recursion along `parent` and `shapes` terminates. Cyclic parent links, which the source does not prevent, are outside the model.
- ObjFiles.Parser.ToGroup: returns the non-empty groups as named values rather than a new `Group` that becomes their parent. Triangles are recorded by their three corners; the rest of a triangle is `Triangles.MakeTriangle` of them.
- ObjFiles.CollectGroups: keys are visited in creation order. JavaScript would put integer-like group names first, in numeric order; that is not modelled.
- ObjFiles.GroupLine: prototype-inherited keys of the `groups` object (a group named `toString`, say) are not modelled. The model treats `groups` as a plain map.
- Bounding.NewBounds: each call yields a fresh value. The separate `min`/`max` objects of the source cannot be aliased here, so the mutation in cone.js `bounds()` is modelled as building a new value.
- ColorCanvases.ColorCanvas.constructor: the pixel array is the caller's and is kept, not copied. The model states this aliasing but proves nothing about writes made to the array through other references.

## Findings

| source | as written | input that shows it | evidently intended | confidence | as-written member | corrected member |
|---|---|---|---|---|---|---|
| src/lib/matrix.js:163-175 | the determinant of a 1x1 matrix expands into an empty sum and is 0, so every 2x2 cofactor is 0 and `inverse` of an invertible 2x2 matrix is the zero matrix | the 2x2 identity (determinant 1): the inverse as written is all zeros, so the top-left entry of the identity times it is 0, not 1 | the determinant of [[a]] is a, so that the 2x2 inverse is the adjugate over the determinant | not executed | MatrixLaws.InverseAsWrittenDoesNotInvert | MatrixLaws.Inverse2Inverts |
| src/lib/cone.js:44 | a ray parallel to the cone's surface gets `t = -c / (2b)` | ray from (0, 0, -1) along (0, 1, 1): a = 0, b = -2, c = 1 gives t = 0.25 and the point (0, 0.25, -0.75), where x² + z² = 0.5625 but y² = 0.0625, off the cone; the test at cone.test.js:57-62 expects the as-written value 0.35355 for the normalised direction, where the cone is met at 0.70711 | `t = -c / b`, the root of the linear equation b t + c = 0, which lies on the cone | not executed | Cones.LocalIntersectParallelAsWritten | Cones.LocalIntersectParallel |
| src/lib/cone.js:116-125 | `bounds()` overwrites the y limits with ±max(abs(min), abs(max)) and leaves z at ±1 | the cone from y = -2 to 1 has the body point (0, -1.5, 1.5), whose z lies outside the box [-2, 2] x [-2, 2] x [-1, 1] | x and z in ±max(abs(min), abs(max)) and y from min to max | not executed | Cones.BoxAsWrittenMissesBody | Cones.ConeBoxContainsBody |
| src/lib/canvas-utils.js:45-59 | `saveToPPM` writes each row as one line, however long | a 10x2 canvas of (1, 0.8, 0.6) gives a 119-character line, where the canvas test at canvas-utils.test.js:54-69 expects it split at 70 characters | body lines of at most 70 characters broken at spaces, as color-canvas.js writes them | not executed | CanvasUtilities.LongRowNotWrapped | ColorCanvases.BodyLines |
| src/lib/cone.js:8-14 | `checkCap` keeps a cap hit when x² + z² <= abs(y) | the closed cone from -4 to 4 and the ray from (3, 10, 0) along (0, -1, 0): the top cap is reached at t = 6, at (3, 4, 0), inside the disc of radius 4 (9 <= 16), but 9 > 4, so the hit is dropped | x² + z² <= y², within the radius of the cone as the comment on line 8 says | not executed | Cones.CapHitAsWrittenMissesDisc | Cones.CapHitCorrected |

The shape tree keeps the source's behaviour wherever a row above is found: `Shapes.Shape.LocalIntersect` calls the cone intersection as written (`Cones.LocalIntersect`, with the root of line 44), and `Cones.LocalIntersectCorrected` is the corrected alternative. Likewise the caps use `checkCap` as written (`Cones.CapHit`), with the disc test in `Cones.CapHitCorrected`.
