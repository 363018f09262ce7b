/** Laws of the matrix algebra of matrix.js, stated on `Grid` values: the identity is
    neutral, transposition is an involution, the determinant and cofactors have their
    textbook closed forms on small matrices, and the corrected inverse really inverts. */
module MatrixLaws {
  import opened Wrappers
  import opened Matrices

  /** One round of the product loop. */
  lemma RowTimesColumnStep(a: Grid, b: Grid, i: nat, j: nat, k: nat)
    requires IsSquare(a) && IsSquare(b) && |a| == |b|
    requires i < |a| && j < |a| && 0 < k <= |a|
    ensures RowTimesColumn(a, b, i, j, k) == RowTimesColumn(a, b, i, j, k - 1) + a[i][k - 1] * b[k - 1][j]
  {
  }

  /** The first two rounds of the product loop for 4x4 matrices. */
  lemma RowTimesColumn2(a: Grid, b: Grid, i: nat, j: nat)
    requires IsMatrix(a, 4, 4) && IsMatrix(b, 4, 4) && i < 4 && j < 4
    ensures RowTimesColumn(a, b, i, j, 2) == a[i][0] * b[0][j] + a[i][1] * b[1][j]
  {
    RowTimesColumnStep(a, b, i, j, 1);
    RowTimesColumnStep(a, b, i, j, 2);
  }

  /** The product loop for 4x4 matrices, written out. */
  lemma RowTimesColumn4(a: Grid, b: Grid, i: nat, j: nat)
    requires IsMatrix(a, 4, 4) && IsMatrix(b, 4, 4) && i < 4 && j < 4
    ensures RowTimesColumn(a, b, i, j, 4)
         == a[i][0] * b[0][j] + a[i][1] * b[1][j] + a[i][2] * b[2][j] + a[i][3] * b[3][j]
  {
    RowTimesColumn2(a, b, i, j);
    RowTimesColumnStep(a, b, i, j, 3);
    RowTimesColumnStep(a, b, i, j, 4);
  }

  /** The entries of a 4x4 product. */
  lemma Mul4Entry(a: Grid, b: Grid, i: nat, j: nat)
    requires IsMatrix(a, 4, 4) && IsMatrix(b, 4, 4) && i < 4 && j < 4
    ensures Mul(a, b)[i][j]
         == a[i][0] * b[0][j] + a[i][1] * b[1][j] + a[i][2] * b[2][j] + a[i][3] * b[3][j]
  {
    RowTimesColumn4(a, b, i, j);
  }

  /** Multiplying by the identity, on either side, changes nothing. */
  lemma MulIdentity(a: Grid)
    requires IsMatrix(a, 4, 4)
    ensures Mul(a, Identity()) == a
    ensures Mul(Identity(), a) == a
  {
    forall i, j | 0 <= i < 4 && 0 <= j < 4
      ensures Mul(a, Identity())[i][j] == a[i][j] && Mul(Identity(), a)[i][j] == a[i][j]
    {
      Mul4Entry(a, Identity(), i, j);
      Mul4Entry(Identity(), a, i, j);
    }
    GridExtensionality(Mul(a, Identity()), a, 4, 4);
    GridExtensionality(Mul(Identity(), a), a, 4, 4);
  }

  /** The identity applied to a tuple gives the tuple back. */
  lemma MulTupleIdentity(t: Tuples.Tuple)
    ensures MulTuple(Identity(), t) == t
  {
  }

  /** The polynomial identity behind `MulTupleAssociates`, on one row. */
  lemma RowRegroup(a0: real, a1: real, a2: real, a3: real,
                   b00: real, b01: real, b02: real, b03: real,
                   b10: real, b11: real, b12: real, b13: real,
                   b20: real, b21: real, b22: real, b23: real,
                   b30: real, b31: real, b32: real, b33: real,
                   x: real, y: real, z: real, w: real)
    ensures (a0 * b00 + a1 * b10 + a2 * b20 + a3 * b30) * x
          + (a0 * b01 + a1 * b11 + a2 * b21 + a3 * b31) * y
          + (a0 * b02 + a1 * b12 + a2 * b22 + a3 * b32) * z
          + (a0 * b03 + a1 * b13 + a2 * b23 + a3 * b33) * w
         == a0 * (b00 * x + b01 * y + b02 * z + b03 * w)
          + a1 * (b10 * x + b11 * y + b12 * z + b13 * w)
          + a2 * (b20 * x + b21 * y + b22 * z + b23 * w)
          + a3 * (b30 * x + b31 * y + b32 * z + b33 * w)
  {
  }

  /** `RowRegroup` with the row of the product named. */
  lemma RowRegroupNamed(m0: real, m1: real, m2: real, m3: real, a0: real, a1: real, a2: real, a3: real,
                        b00: real, b01: real, b02: real, b03: real,
                        b10: real, b11: real, b12: real, b13: real,
                        b20: real, b21: real, b22: real, b23: real,
                        b30: real, b31: real, b32: real, b33: real,
                        x: real, y: real, z: real, w: real)
    requires m0 == a0 * b00 + a1 * b10 + a2 * b20 + a3 * b30
    requires m1 == a0 * b01 + a1 * b11 + a2 * b21 + a3 * b31
    requires m2 == a0 * b02 + a1 * b12 + a2 * b22 + a3 * b32
    requires m3 == a0 * b03 + a1 * b13 + a2 * b23 + a3 * b33
    ensures m0 * x + m1 * y + m2 * z + m3 * w
         == a0 * (b00 * x + b01 * y + b02 * z + b03 * w)
          + a1 * (b10 * x + b11 * y + b12 * z + b13 * w)
          + a2 * (b20 * x + b21 * y + b22 * z + b23 * w)
          + a3 * (b30 * x + b31 * y + b32 * z + b33 * w)
  {
    RowRegroup(a0, a1, a2, a3, b00, b01, b02, b03, b10, b11, b12, b13,
               b20, b21, b22, b23, b30, b31, b32, b33, x, y, z, w);
  }

  /** Row i of a 4x4 product, written out. */
  predicate IsProductRow(ab: Grid, a: Grid, b: Grid, i: nat)
    requires IsMatrix(ab, 4, 4) && IsMatrix(a, 4, 4) && IsMatrix(b, 4, 4) && i < 4
  {
    forall j :: 0 <= j < 4 ==>
      ab[i][j] == a[i][0] * b[0][j] + a[i][1] * b[1][j] + a[i][2] * b[2][j] + a[i][3] * b[3][j]
  }

  /** One row of `MulTupleAssociates`. */
  lemma MulTupleAssociatesRow(a: Grid, b: Grid, t: Tuples.Tuple, i: nat)
    requires IsMatrix(a, 4, 4) && IsMatrix(b, 4, 4) && i < 4
    ensures Coord(MulTuple(Mul(a, b), t), i) == Coord(MulTuple(a, MulTuple(b, t)), i)
  {
    var ab, bt := Mul(a, b), MulTuple(b, t);
    ProductRow(a, b, i);
    ProductRowApplied(ab, a, b, t, i);
    MulTupleRow(ab, t, i);
    MulTupleRow(a, bt, i);
  }

  /** Row i of `Mul(a, b)` is row i of a against the columns of b. */
  lemma ProductRow(a: Grid, b: Grid, i: nat)
    requires IsMatrix(a, 4, 4) && IsMatrix(b, 4, 4) && i < 4
    ensures IsProductRow(Mul(a, b), a, b, i)
  {
    forall j | 0 <= j < 4
      ensures Mul(a, b)[i][j] == a[i][0] * b[0][j] + a[i][1] * b[1][j] + a[i][2] * b[2][j] + a[i][3] * b[3][j]
    {
      Mul4Entry(a, b, i, j);
    }
  }

  /** A product row applied to a tuple is the factor's row applied to the other factor's
      image of the tuple. */
  lemma ProductRowApplied(ab: Grid, a: Grid, b: Grid, t: Tuples.Tuple, i: nat)
    requires IsMatrix(ab, 4, 4) && IsMatrix(a, 4, 4) && IsMatrix(b, 4, 4) && i < 4
    requires IsProductRow(ab, a, b, i)
    ensures RowDot(ab, i, t) == RowDot(a, i, MulTuple(b, t))
  {
    ProductRowSpread(ab, a, b, t, i);
    ImageRowSpread(a, b, t, i);
  }

  /** Row i of a times b times t, spread into its sixteen products. */
  function Spread(a: Grid, b: Grid, t: Tuples.Tuple, i: nat): real
    requires IsMatrix(a, 4, 4) && IsMatrix(b, 4, 4) && i < 4
  {
    a[i][0] * b[0][0] * t.x + a[i][1] * b[1][0] * t.x + a[i][2] * b[2][0] * t.x + a[i][3] * b[3][0] * t.x
    + a[i][0] * b[0][1] * t.y + a[i][1] * b[1][1] * t.y + a[i][2] * b[2][1] * t.y + a[i][3] * b[3][1] * t.y
    + a[i][0] * b[0][2] * t.z + a[i][1] * b[1][2] * t.z + a[i][2] * b[2][2] * t.z + a[i][3] * b[3][2] * t.z
    + a[i][0] * b[0][3] * t.w + a[i][1] * b[1][3] * t.w + a[i][2] * b[2][3] * t.w + a[i][3] * b[3][3] * t.w
  }

  lemma ProductRowSpread(ab: Grid, a: Grid, b: Grid, t: Tuples.Tuple, i: nat)
    requires IsMatrix(ab, 4, 4) && IsMatrix(a, 4, 4) && IsMatrix(b, 4, 4) && i < 4
    requires IsProductRow(ab, a, b, i)
    ensures RowDot(ab, i, t) == Spread(a, b, t, i)
  {
    ScaleSum(ab[i][0], t.x, a[i][0], a[i][1], a[i][2], a[i][3], b[0][0], b[1][0], b[2][0], b[3][0]);
    ScaleSum(ab[i][1], t.y, a[i][0], a[i][1], a[i][2], a[i][3], b[0][1], b[1][1], b[2][1], b[3][1]);
    ScaleSum(ab[i][2], t.z, a[i][0], a[i][1], a[i][2], a[i][3], b[0][2], b[1][2], b[2][2], b[3][2]);
    ScaleSum(ab[i][3], t.w, a[i][0], a[i][1], a[i][2], a[i][3], b[0][3], b[1][3], b[2][3], b[3][3]);
  }

  lemma ImageRowSpread(a: Grid, b: Grid, t: Tuples.Tuple, i: nat)
    requires IsMatrix(a, 4, 4) && IsMatrix(b, 4, 4) && i < 4
    ensures RowDot(a, i, MulTuple(b, t)) == Spread(a, b, t, i)
  {
    var bt := MulTuple(b, t);
    ScaleSumLeft(a[i][0], bt.x, b[0][0], b[0][1], b[0][2], b[0][3], t.x, t.y, t.z, t.w);
    ScaleSumLeft(a[i][1], bt.y, b[1][0], b[1][1], b[1][2], b[1][3], t.x, t.y, t.z, t.w);
    ScaleSumLeft(a[i][2], bt.z, b[2][0], b[2][1], b[2][2], b[2][3], t.x, t.y, t.z, t.w);
    ScaleSumLeft(a[i][3], bt.w, b[3][0], b[3][1], b[3][2], b[3][3], t.x, t.y, t.z, t.w);
  }

  /** A sum of four products, scaled on the right, spread over its terms. */
  lemma ScaleSum(m: real, x: real, a0: real, a1: real, a2: real, a3: real, b0: real, b1: real, b2: real, b3: real)
    requires m == a0 * b0 + a1 * b1 + a2 * b2 + a3 * b3
    ensures m * x == a0 * b0 * x + a1 * b1 * x + a2 * b2 * x + a3 * b3 * x
  {
  }

  /** A scalar times a sum of four products, spread over its terms. */
  lemma ScaleSumLeft(a: real, u: real, b0: real, b1: real, b2: real, b3: real, x: real, y: real, z: real, w: real)
    requires u == b0 * x + b1 * y + b2 * z + b3 * w
    ensures a * u == a * b0 * x + a * b1 * y + a * b2 * z + a * b3 * w
  {
  }

  /** Substituting four named sums into a row. */
  lemma SubstituteSums(n0: real, n1: real, n2: real, n3: real, a0: real, a1: real, a2: real, a3: real,
                       s0: real, s1: real, s2: real, s3: real)
    requires n0 == s0 && n1 == s1 && n2 == s2 && n3 == s3
    ensures a0 * n0 + a1 * n1 + a2 * n2 + a3 * n3 == a0 * s0 + a1 * s1 + a2 * s2 + a3 * s3
  {
  }

  /** Applying a product is applying its factors in turn, the right one first. */
  lemma MulTupleAssociates(a: Grid, b: Grid, t: Tuples.Tuple)
    requires IsMatrix(a, 4, 4) && IsMatrix(b, 4, 4)
    ensures MulTuple(Mul(a, b), t) == MulTuple(a, MulTuple(b, t))
  {
    var l, r := MulTuple(Mul(a, b), t), MulTuple(a, MulTuple(b, t));
    MulTupleAssociatesRow(a, b, t, 0);
    MulTupleAssociatesRow(a, b, t, 1);
    MulTupleAssociatesRow(a, b, t, 2);
    MulTupleAssociatesRow(a, b, t, 3);
    assert Coord(l, 2) == l.z && Coord(r, 2) == r.z;
    assert Coord(l, 3) == l.w && Coord(r, 3) == r.w;
  }

  /** Coordinate i of a tuple: x, y, z, w for i = 0, 1, 2, 3. */
  function Coord(t: Tuples.Tuple, i: nat): real
    requires i < 4
  {
    if i == 0 then t.x else if i == 1 then t.y else if i == 2 then t.z else t.w
  }

  /** Coordinate i of the image of t is row i of g against t. */
  lemma MulTupleRow(g: Grid, t: Tuples.Tuple, i: nat)
    requires IsMatrix(g, 4, 4) && i < 4
    ensures Coord(MulTuple(g, t), i) == RowDot(g, i, t)
  {
  }

  /** Row i of g against the tuple t. */
  function RowDot(g: Grid, i: nat, t: Tuples.Tuple): real
    requires IsMatrix(g, 4, 4) && i < 4
  {
    g[i][0] * t.x + g[i][1] * t.y + g[i][2] * t.z + g[i][3] * t.w
  }

  /** Transposing twice gives the matrix back. */
  lemma TransposeInvolution(g: Grid, cols: nat)
    requires IsMatrix(g, |g|, cols)
    ensures Transpose(Transpose(g, cols), |g|) == g
  {
    GridExtensionality(Transpose(Transpose(g, cols), |g|), g, |g|, cols);
  }

  /** Transposing swaps the dimensions and mirrors every entry. */
  lemma TransposeEntries(g: Grid, cols: nat, i: nat, j: nat)
    requires IsMatrix(g, |g|, cols) && i < cols && j < |g|
    ensures |Transpose(g, cols)| == cols && |Transpose(g, cols)[i]| == |g|
    ensures Transpose(g, cols)[i][j] == g[j][i]
  {
  }

  /** The identity is its own transpose. */
  lemma TransposeIdentity()
    ensures Transpose(Identity(), 4) == Identity()
  {
    GridExtensionality(Transpose(Identity(), 4), Identity(), 4, 4);
  }

  /** Removing a row or column: `Skip` never lands on the dropped index, keeps the order,
      and reaches every other index. */
  lemma SkipBijective(k: nat, drop: nat)
    ensures Skip(k, drop) != drop
    ensures forall k' :: k < k' ==> Skip(k, drop) < Skip(k', drop)
    ensures k != drop ==> Skip(if k < drop then k else k - 1, drop) == k
  {
  }

  /** The closed form of a 3x3 determinant. */
  function Det3(g: Grid): real
    requires IsMatrix(g, 3, 3)
  {
    g[0][0] * (g[1][1] * g[2][2] - g[1][2] * g[2][1])
    - g[0][1] * (g[1][0] * g[2][2] - g[1][2] * g[2][0])
    + g[0][2] * (g[1][0] * g[2][1] - g[1][1] * g[2][0])
  }

  /** One round of the expansion loop. */
  lemma ExpansionStep(g: Grid, k: nat)
    requires IsSquare(g) && 0 < k <= |g|
    ensures ExpansionSum(g, k) == ExpansionSum(g, k - 1) + g[0][k - 1] * Cofactor(g, 0, k - 1)
  {
  }

  /** The row-0 expansion of a 3x3 matrix is the textbook determinant. */
  lemma Det3Formula(g: Grid)
    requires IsMatrix(g, 3, 3)
    ensures Det(g) == Det3(g)
  {
    var s0 := Submatrix(g, 3, 0, 0);
    var s1 := Submatrix(g, 3, 0, 1);
    var s2 := Submatrix(g, 3, 0, 2);
    Det2Of(s0, g[1][1], g[1][2], g[2][1], g[2][2]);
    Det2Of(s1, g[1][0], g[1][2], g[2][0], g[2][2]);
    Det2Of(s2, g[1][0], g[1][1], g[2][0], g[2][1]);
    assert Minor(g, 0, 0) == Det(s0) && Minor(g, 0, 1) == Det(s1) && Minor(g, 0, 2) == Det(s2);
    assert Cofactor(g, 0, 0) == g[1][1] * g[2][2] - g[1][2] * g[2][1];
    assert Cofactor(g, 0, 1) == -(g[1][0] * g[2][2] - g[1][2] * g[2][0]);
    assert Cofactor(g, 0, 2) == g[1][0] * g[2][1] - g[1][1] * g[2][0];
    ExpansionStep(g, 1);
    assert ExpansionSum(g, 0) == 0.0;
    ExpansionStep(g, 2);
    ExpansionStep(g, 3);
  }

  /** The determinant of a 2x2 matrix with the given entries. */
  lemma Det2Of(s: Grid, a: real, b: real, c: real, d: real)
    requires IsMatrix(s, 2, 2) && s[0][0] == a && s[0][1] == b && s[1][0] == c && s[1][1] == d
    ensures Det(s) == a * d - b * c
  {
  }

  /** A 4x4 determinant is the row-0 expansion over its first-row cofactors. */
  lemma Det4Expansion(g: Grid)
    requires IsMatrix(g, 4, 4)
    ensures Det(g) == g[0][0] * Cofactor(g, 0, 0) + g[0][1] * Cofactor(g, 0, 1)
                    + g[0][2] * Cofactor(g, 0, 2) + g[0][3] * Cofactor(g, 0, 3)
  {
    ExpansionStep(g, 1);
    assert ExpansionSum(g, 0) == 0.0;
    ExpansionStep(g, 2);
    ExpansionStep(g, 3);
    ExpansionStep(g, 4);
  }

  /** A cofactor of a 4x4 matrix is the signed 3x3 determinant of its submatrix. */
  lemma Cofactor4Formula(g: Grid, row: nat, col: nat)
    requires IsMatrix(g, 4, 4) && row < 4 && col < 4
    ensures Cofactor(g, row, col)
         == (if (row + col) % 2 == 1 then -1.0 else 1.0) * Det3(Submatrix(g, 4, row, col))
  {
    Det3Formula(Submatrix(g, 4, row, col));
  }

  /** The determinant as written makes every 1x1 matrix singular: its expansion multiplies
      the entry by the determinant of a 0x0 matrix, an empty sum. */
  lemma DetOfOneByOneIsZero(s: Grid)
    requires IsMatrix(s, 1, 1)
    ensures Det(s) == 0.0
  {
    calc {
      Det(s);
      ExpansionSum(s, 1);
      ExpansionSum(s, 0) + s[0][0] * Cofactor(s, 0, 0);
      s[0][0] * Det(Submatrix(s, 1, 0, 0));
      { assert |Submatrix(s, 1, 0, 0)| == 0; }
      s[0][0] * ExpansionSum(Submatrix(s, 1, 0, 0), 0);
    }
  }

  /** The correction only concerns the 1x1 case: from size 2 on both determinants agree,
      and from size 3 on so do the cofactors and the inverses. */
  lemma CorrectionAgreesFromSize3(g: Grid)
    requires IsSquare(g) && |g| >= 3
    ensures DetCorrected(g) == Det(g)
    ensures forall r, c :: 0 <= r < |g| && 0 <= c < |g| ==> CofactorCorrected(g, r, c) == Cofactor(g, r, c)
    ensures Inverse(g) == InverseAsWritten(g)
  {
    forall r, c | 0 <= r < |g| && 0 <= c < |g|
      ensures CofactorCorrected(g, r, c) == Cofactor(g, r, c)
    {
      assert |Submatrix(g, |g|, r, c)| == |g| - 1;
    }
    if Det(g) != 0.0 {
      var a, b := Inverse(g).value, InverseAsWritten(g).value;
      forall i, j | 0 <= i < |g| && 0 <= j < |g| ensures a[i][j] == b[i][j] {
        assert a[i][j] == CofactorCorrected(g, j, i) / Det(g);
      }
      GridExtensionality(a, b, |g|, |g|);
    }
  }

  /** The inverse as written sends the identity of size 2 to the zero matrix. */
  lemma InverseAsWrittenOfIdentity2()
    ensures InverseAsWritten([[1.0, 0.0], [0.0, 1.0]]) == Some([[0.0, 0.0], [0.0, 0.0]])
  {
    var g := [[1.0, 0.0], [0.0, 1.0]];
    forall r, c | 0 <= r < 2 && 0 <= c < 2 ensures Cofactor(g, r, c) == 0.0 {
      DetOfOneByOneIsZero(Submatrix(g, 2, r, c));
    }
    GridExtensionality(InverseAsWritten(g).value, [[0.0, 0.0], [0.0, 0.0]], 2, 2);
  }

  /** So `multiply(g, inverse(g))` is not the identity, even for the identity itself. */
  lemma InverseAsWrittenDoesNotInvert()
    ensures var g := [[1.0, 0.0], [0.0, 1.0]];
            InverseAsWritten(g).Some? && Mul(g, InverseAsWritten(g).value)[0][0] == 0.0
  {
    InverseAsWrittenOfIdentity2();
    var g := [[1.0, 0.0], [0.0, 1.0]];
    var z := [[0.0, 0.0], [0.0, 0.0]];
    assert Mul(g, z)[0][0] == RowTimesColumn(g, z, 0, 0, 2);
  }

  /** The entries of a 2x2 product. */
  lemma Mul2Entry(a: Grid, b: Grid, i: nat, j: nat)
    requires IsMatrix(a, 2, 2) && IsMatrix(b, 2, 2) && i < 2 && j < 2
    ensures Mul(a, b)[i][j] == a[i][0] * b[0][j] + a[i][1] * b[1][j]
  {
    RowTimesColumnStep(a, b, i, j, 1);
    RowTimesColumnStep(a, b, i, j, 2);
  }

  /** The corrected inverse of a 2x2 matrix, entry by entry. */
  lemma Inverse2Entries(g: Grid)
    requires IsMatrix(g, 2, 2)
    ensures DetCorrected(g) == g[0][0] * g[1][1] - g[0][1] * g[1][0]
    ensures Inverse(g).Some? ==>
              var d := DetCorrected(g);
              Inverse(g).value[0][0] == g[1][1] / d && Inverse(g).value[0][1] == -g[0][1] / d &&
              Inverse(g).value[1][0] == -g[1][0] / d && Inverse(g).value[1][1] == g[0][0] / d
  {
    var s00, s01 := Submatrix(g, 2, 0, 0), Submatrix(g, 2, 0, 1);
    var s10, s11 := Submatrix(g, 2, 1, 0), Submatrix(g, 2, 1, 1);
    assert DetCorrected(s00) == g[1][1] && DetCorrected(s01) == g[1][0];
    assert DetCorrected(s10) == g[0][1] && DetCorrected(s11) == g[0][0];
  }

  /** The arithmetic of a 2x2 inverse. */
  lemma Inverse2Arith(a: real, b: real, c: real, e: real, v00: real, v01: real, v10: real, v11: real)
    requires a * e - b * c != 0.0
    requires v00 == e / (a * e - b * c) && v01 == -b / (a * e - b * c)
    requires v10 == -c / (a * e - b * c) && v11 == a / (a * e - b * c)
    ensures a * v00 + b * v10 == 1.0 && a * v01 + b * v11 == 0.0
    ensures c * v00 + e * v10 == 0.0 && c * v01 + e * v11 == 1.0
    ensures v00 * a + v01 * c == 1.0 && v00 * b + v01 * e == 0.0
    ensures v10 * a + v11 * c == 0.0 && v10 * b + v11 * e == 1.0
  {
  }

  /** A 2x2 product whose four entries are those of the identity is the identity. */
  lemma Mul2IsIdentity(a: Grid, b: Grid)
    requires IsMatrix(a, 2, 2) && IsMatrix(b, 2, 2)
    requires a[0][0] * b[0][0] + a[0][1] * b[1][0] == 1.0 && a[0][0] * b[0][1] + a[0][1] * b[1][1] == 0.0
    requires a[1][0] * b[0][0] + a[1][1] * b[1][0] == 0.0 && a[1][0] * b[0][1] + a[1][1] * b[1][1] == 1.0
    ensures Mul(a, b) == [[1.0, 0.0], [0.0, 1.0]]
  {
    Mul2Entry(a, b, 0, 0);
    Mul2Entry(a, b, 0, 1);
    Mul2Entry(a, b, 1, 0);
    Mul2Entry(a, b, 1, 1);
    GridExtensionality(Mul(a, b), [[1.0, 0.0], [0.0, 1.0]], 2, 2);
  }

  /** The corrected inverse of a 2x2 matrix is a two-sided inverse, and exists exactly when
      the determinant is not 0. */
  lemma Inverse2Inverts(g: Grid)
    requires IsMatrix(g, 2, 2)
    ensures Inverse(g).None? <==> g[0][0] * g[1][1] - g[0][1] * g[1][0] == 0.0
    ensures Inverse(g).Some? ==>
              Mul(g, Inverse(g).value) == [[1.0, 0.0], [0.0, 1.0]] &&
              Mul(Inverse(g).value, g) == [[1.0, 0.0], [0.0, 1.0]]
  {
    Inverse2Entries(g);
    if Inverse(g).Some? {
      var v := Inverse(g).value;
      Inverse2Arith(g[0][0], g[0][1], g[1][0], g[1][1], v[0][0], v[0][1], v[1][0], v[1][1]);
      Mul2IsIdentity(g, v);
      Mul2IsIdentity(v, g);
    }
  }

  /** The 3x3 determinant test and its first-row cofactors. */
  lemma Determinant3Example()
    ensures var g := [[1.0, 2.0, 6.0], [-5.0, 8.0, -4.0], [2.0, 6.0, 4.0]];
            Det(g) == -196.0 && Cofactor(g, 0, 0) == 56.0 && Cofactor(g, 0, 1) == 12.0 &&
            Cofactor(g, 0, 2) == -46.0
  {
    Det3Formula([[1.0, 2.0, 6.0], [-5.0, 8.0, -4.0], [2.0, 6.0, 4.0]]);
  }

  /** The 4x4 determinant test: its first-row cofactors and the determinant they give. */
  lemma Determinant4Example()
    ensures var g := [[-2.0, -8.0, 3.0, 5.0], [-3.0, 1.0, 7.0, 3.0],
                      [1.0, 2.0, -9.0, 6.0], [-6.0, 7.0, 7.0, -9.0]];
            Cofactor(g, 0, 0) == 690.0 && Cofactor(g, 0, 1) == 447.0 && Cofactor(g, 0, 2) == 210.0
            && Cofactor(g, 0, 3) == 51.0 && Det(g) == -4071.0
  {
    var g := [[-2.0, -8.0, 3.0, 5.0], [-3.0, 1.0, 7.0, 3.0],
              [1.0, 2.0, -9.0, 6.0], [-6.0, 7.0, 7.0, -9.0]];
    FirstRowCofactors(g, 690.0, 447.0, 210.0, 51.0);
  }

  /** A 4x4 determinant from first-row cofactors already worked out, each checked on its
      own submatrix. */
  lemma FirstRowCofactors(g: Grid, c0: real, c1: real, c2: real, c3: real)
    requires IsMatrix(g, 4, 4)
    requires Det3(Submatrix(g, 4, 0, 0)) == c0 && Det3(Submatrix(g, 4, 0, 1)) == -c1
    requires Det3(Submatrix(g, 4, 0, 2)) == c2 && Det3(Submatrix(g, 4, 0, 3)) == -c3
    ensures Cofactor(g, 0, 0) == c0 && Cofactor(g, 0, 1) == c1 && Cofactor(g, 0, 2) == c2
            && Cofactor(g, 0, 3) == c3
    ensures Det(g) == g[0][0] * c0 + g[0][1] * c1 + g[0][2] * c2 + g[0][3] * c3
  {
    Det4Expansion(g);
    Cofactor4Formula(g, 0, 0);
    Cofactor4Formula(g, 0, 1);
    Cofactor4Formula(g, 0, 2);
    Cofactor4Formula(g, 0, 3);
  }

  /** The matrix of the inverse test. */
  function InverseTestMatrix(): (g: Grid)
    ensures IsMatrix(g, 4, 4)
  {
    [[-5.0, 2.0, 6.0, -8.0], [1.0, -5.0, 1.0, 8.0], [7.0, 7.0, -6.0, -7.0], [1.0, -3.0, 7.0, 4.0]]
  }

  /** Its determinant is 532. */
  lemma InverseTestDeterminant()
    ensures Det(InverseTestMatrix()) == 532.0
  {
    FirstRowCofactors(InverseTestMatrix(), 116.0, -430.0, -42.0, -278.0);
  }

  /** The identity's determinant is 1, so it is invertible. */
  lemma IdentityDeterminant()
    ensures Det(Identity()) == 1.0
  {
    FirstRowCofactors(Identity(), 1.0, 0.0, 0.0, 0.0);
  }

  /** The inverse test: the cofactors at (2, 3) and (3, 2) and the inverse entries they
      become, transposed and divided by 532. */
  lemma InverseExample()
    ensures var g := InverseTestMatrix();
            Cofactor(g, 2, 3) == -160.0 && Cofactor(g, 3, 2) == 105.0 &&
            Inverse(g).Some? && Inverse(g).value[3][2] == -160.0 / 532.0 &&
            Inverse(g).value[2][3] == 105.0 / 532.0
  {
    var g := InverseTestMatrix();
    InverseTestDeterminant();
    Cofactor4Formula(g, 2, 3);
    Cofactor4Formula(g, 3, 2);
    CorrectionAgreesFromSize3(g);
  }
}
