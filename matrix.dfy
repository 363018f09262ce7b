/** Matrices of matrix.js.

    Other components pass matrices around as values, so the algebra is first stated on
    `Grid` values (row i, column j is `g[i][j]`); the class `Matrix` then models the
    mutable, column-stored object of matrix.js, and each of its operations is proved to
    compute the corresponding `Grid` function. */
module Matrices {
  import opened RtMath
  import opened Tuples
  import opened Wrappers

  type Grid = seq<seq<real>>

  predicate IsMatrix(g: Grid, rows: nat, cols: nat)
  {
    |g| == rows && forall i :: 0 <= i < rows ==> |g[i]| == cols
  }

  predicate IsSquare(g: Grid)
  {
    IsMatrix(g, |g|, |g|)
  }

  /** `Matrix.identity` */
  function Identity(): (g: Grid)
    ensures IsMatrix(g, 4, 4)
  {
    [[1.0, 0.0, 0.0, 0.0],
     [0.0, 1.0, 0.0, 0.0],
     [0.0, 0.0, 1.0, 0.0],
     [0.0, 0.0, 0.0, 1.0]]
  }

  /** Every entry within EPSILON of the other's. */
  ghost predicate ApproxEqual(a: Grid, b: Grid, rows: nat, cols: nat)
    requires IsMatrix(a, rows, cols) && IsMatrix(b, rows, cols)
  {
    forall i, j :: 0 <= i < rows && 0 <= j < cols ==> FloatIsEqual(a[i][j], b[i][j])
  }

  /** The running sum `a[i][0]*b[0][j] + ... + a[i][k-1]*b[k-1][j]` of the product loop. */
  function RowTimesColumn(a: Grid, b: Grid, i: nat, j: nat, k: nat): real
    requires IsSquare(a) && IsSquare(b) && |a| == |b|
    requires i < |a| && j < |a| && k <= |a|
  {
    if k == 0 then 0.0 else RowTimesColumn(a, b, i, j, k - 1) + a[i][k - 1] * b[k - 1][j]
  }

  function Mul(a: Grid, b: Grid): (c: Grid)
    requires IsSquare(a) && IsSquare(b) && |a| == |b|
    ensures IsMatrix(c, |a|, |a|)
  {
    seq(|a|, i requires 0 <= i < |a| => seq(|a|, j requires 0 <= j < |a| => RowTimesColumn(a, b, i, j, |a|)))
  }

  /** `multiplyTuple`: a 4x4 matrix applied to a column tuple. */
  function MulTuple(g: Grid, t: Tuple): Tuple
    requires IsMatrix(g, 4, 4)
  {
    Tuple(g[0][0] * t.x + g[0][1] * t.y + g[0][2] * t.z + g[0][3] * t.w,
          g[1][0] * t.x + g[1][1] * t.y + g[1][2] * t.z + g[1][3] * t.w,
          g[2][0] * t.x + g[2][1] * t.y + g[2][2] * t.z + g[2][3] * t.w,
          g[3][0] * t.x + g[3][1] * t.y + g[3][2] * t.z + g[3][3] * t.w)
  }

  function Transpose(g: Grid, cols: nat): (t: Grid)
    requires IsMatrix(g, |g|, cols)
    ensures IsMatrix(t, cols, |g|)
  {
    seq(cols, i requires 0 <= i < cols => seq(|g|, j requires 0 <= j < |g| => g[j][i]))
  }

  /** Index of the row (or column) of the original that lands at `k` once `drop` is removed. */
  function Skip(k: nat, drop: nat): nat
  {
    if k < drop then k else k + 1
  }

  function Submatrix(g: Grid, cols: nat, row: nat, col: nat): (s: Grid)
    requires IsMatrix(g, |g|, cols) && row < |g| && col < cols
    ensures IsMatrix(s, |g| - 1, cols - 1)
    ensures forall i, j :: 0 <= i < |g| - 1 && 0 <= j < cols - 1 ==> s[i][j] == g[Skip(i, row)][Skip(j, col)]
  {
    seq(|g| - 1, i requires 0 <= i < |g| - 1 =>
      seq(cols - 1, j requires 0 <= j < cols - 1 => g[Skip(i, row)][Skip(j, col)]))
  }

  /** `determinant`: `ad - bc` on a 2x2 matrix, otherwise expansion along row 0. */
  function Det(g: Grid): real
    requires IsSquare(g)
    decreases |g|, 3, 0
  {
    if |g| == 2 then g[0][0] * g[1][1] - g[0][1] * g[1][0]
    else ExpansionSum(g, |g|)
  }

  /** The loop `det += m.get(0, j) * cofactor(m, 0, j)` after its first `k` rounds. */
  function ExpansionSum(g: Grid, k: nat): real
    requires IsSquare(g) && k <= |g|
    decreases |g|, 2, k
  {
    if k == 0 then 0.0 else ExpansionSum(g, k - 1) + g[0][k - 1] * Cofactor(g, 0, k - 1)
  }

  function Minor(g: Grid, row: nat, col: nat): real
    requires IsSquare(g) && row < |g| && col < |g|
    decreases |g|, 0, 0
  {
    Det(Submatrix(g, |g|, row, col))
  }

  function Cofactor(g: Grid, row: nat, col: nat): real
    requires IsSquare(g) && row < |g| && col < |g|
    decreases |g|, 1, 0
  {
    if (row + col) % 2 == 1 then -Minor(g, row, col) else Minor(g, row, col)
  }

  predicate IsInvertible(g: Grid): (b: bool)
    requires IsSquare(g)
    ensures b <==> InverseAsWritten(g).Some?
  {
    Det(g) != 0.0
  }

  /** `inverse` as written: the transposed cofactors over the determinant, no value when
      singular. On a 2x2 matrix every cofactor is the determinant of a 1x1 matrix, which
      `determinant` makes 0, so every entry is 0. */
  function InverseAsWritten(g: Grid): (r: Option<Grid>)
    requires IsSquare(g)
    ensures r.Some? ==> IsMatrix(r.value, |g|, |g|)
  {
    if Det(g) == 0.0 then None
    else Some(seq(|g|, i requires 0 <= i < |g| =>
                seq(|g|, j requires 0 <= j < |g| => Cofactor(g, j, i) / Det(g))))
  }

  /** The determinant with the 1x1 case it evidently means: the single entry. */
  function DetCorrected(g: Grid): real
    requires IsSquare(g)
  {
    if |g| == 1 then g[0][0] else Det(g)
  }

  function CofactorCorrected(g: Grid, row: nat, col: nat): real
    requires IsSquare(g) && row < |g| && col < |g|
  {
    var m := DetCorrected(Submatrix(g, |g|, row, col));
    if (row + col) % 2 == 1 then -m else m
  }

  /** The inverse every other component uses: transposed corrected cofactors over the
      determinant, no value when the determinant is 0. */
  function Inverse(g: Grid): (r: Option<Grid>)
    requires IsSquare(g)
    ensures r.Some? ==> IsMatrix(r.value, |g|, |g|)
  {
    if DetCorrected(g) == 0.0 then None
    else Some(seq(|g|, i requires 0 <= i < |g| =>
                seq(|g|, j requires 0 <= j < |g| => CofactorCorrected(g, j, i) / DetCorrected(g))))
  }

  /** Two matrices of one shape with the same entries are the same value. */
  lemma GridExtensionality(g: Grid, h: Grid, rows: nat, cols: nat)
    requires IsMatrix(g, rows, cols) && IsMatrix(h, rows, cols)
    requires forall i, j :: 0 <= i < rows && 0 <= j < cols ==> g[i][j] == h[i][j]
    ensures g == h
  {
    forall i | 0 <= i < rows
      ensures g[i] == h[i]
    {
    }
  }

  /** The mutable matrix object: `data[j, i]` holds row i, column j, as `data[j][i]` does. */
  class Matrix {
    const rows: nat
    const columns: nat
    const data: array2<real>

    ghost predicate Valid()
      reads this
    {
      data.Length0 == columns && data.Length1 == rows
    }

    /** The matrix as a value. */
    ghost function Cells(): (g: Grid)
      reads this, data
      requires Valid()
      ensures IsMatrix(g, rows, columns)
      ensures forall i, j :: 0 <= i < rows && 0 <= j < columns ==> g[i][j] == data[j, i]
    {
      seq(rows, i requires 0 <= i < rows reads this, data =>
        seq(columns, j requires 0 <= j < columns reads this, data => data[j, i]))
    }

    /** `Matrix(rows, columns, initValue)` */
    constructor (rows: nat, columns: nat, initValue: real)
      ensures Valid() && fresh(data)
      ensures this.rows == rows && this.columns == columns
      ensures forall i, j :: 0 <= i < rows && 0 <= j < columns ==> Cells()[i][j] == initValue
    {
      this.rows := rows;
      this.columns := columns;
      var d := new real[columns, rows];
      var i := 0;
      while i < columns
        invariant 0 <= i <= columns
        invariant forall a, b :: 0 <= a < i && 0 <= b < rows ==> d[a, b] == initValue
      {
        var j := 0;
        while j < rows
          invariant 0 <= j <= rows
          invariant forall a, b :: 0 <= a < i && 0 <= b < rows ==> d[a, b] == initValue
          invariant forall b :: 0 <= b < j ==> d[i, b] == initValue
        {
          d[i, j] := initValue;
          j := j + 1;
        }
        i := i + 1;
      }
      data := d;
    }

    function Width(): nat reads this { columns }

    function Height(): nat reads this { rows }

    /** `get(i, j)`: row i, column j, which the column-major store keeps at `data[j, i]`. */
    function Get(i: nat, j: nat): real
      reads this, data
      requires Valid() && i < rows && j < columns
    {
      data[j, i]
    }

    /** `set(i, j, val)`: only the one cell changes. */
    method Set(i: nat, j: nat, val: real)
      requires Valid() && i < rows && j < columns
      modifies data
      ensures Valid() && Get(i, j) == val
      ensures forall a, b :: 0 <= a < rows && 0 <= b < columns && (a != i || b != j) ==>
        Get(a, b) == old(Get(a, b))
    {
      data[j, i] := val;
    }

    /** `row(i)`: the i-th entry of every column, in column order. */
    function Row(i: nat): (r: seq<real>)
      reads this, data
      requires Valid() && i < rows
      ensures r == Cells()[i]
    {
      seq(columns, j requires 0 <= j < columns reads this, data => data[j, i])
    }

    /** `col(j)`: the entries of the j-th column, as a value. */
    function Col(j: nat): (c: seq<real>)
      reads this, data
      requires Valid() && j < columns
      ensures |c| == rows && forall i :: 0 <= i < rows ==> c[i] == Cells()[i][j]
    {
      seq(rows, i requires 0 <= i < rows reads this, data => data[j, i])
    }
  }

  /** `Matrix.initFromArray(rows)` */
  method InitFromArray(rs: Grid) returns (m: Matrix)
    requires |rs| > 0 && IsMatrix(rs, |rs|, |rs[0]|)
    ensures fresh(m) && fresh(m.data) && m.Valid()
    ensures m.rows == |rs| && m.columns == |rs[0]| && m.Cells() == rs
  {
    m := new Matrix(|rs|, |rs[0]|, 0.0);
    var i := 0;
    while i < |rs|
      invariant 0 <= i <= |rs| && m.Valid()
      invariant forall a, b :: 0 <= a < i && 0 <= b < m.columns ==> m.Get(a, b) == rs[a][b]
    {
      var j := 0;
      while j < |rs[0]|
        invariant 0 <= j <= |rs[0]| && m.Valid()
        invariant forall a, b :: 0 <= a < i && 0 <= b < m.columns ==> m.Get(a, b) == rs[a][b]
        invariant forall b :: 0 <= b < j ==> m.Get(i, b) == rs[i][b]
      {
        m.Set(i, j, rs[i][j]);
        j := j + 1;
      }
      i := i + 1;
    }
    GridExtensionality(m.Cells(), rs, m.rows, m.columns);
  }

  /** `equals`: false on different shapes, otherwise every entry within EPSILON. */
  method Equals(m1: Matrix, m2: Matrix) returns (r: bool)
    requires m1.Valid() && m2.Valid()
    ensures r <==> m1.rows == m2.rows && m1.columns == m2.columns &&
                   ApproxEqual(m1.Cells(), m2.Cells(), m1.rows, m1.columns)
  {
    if m1.rows != m2.rows || m1.columns != m2.columns {
      return false;
    }
    var i := 0;
    while i < m1.rows
      invariant 0 <= i <= m1.rows
      invariant forall a, b :: 0 <= a < i && 0 <= b < m1.columns ==> FloatIsEqual(m1.Get(a, b), m2.Get(a, b))
    {
      var j := 0;
      while j < m1.columns
        invariant 0 <= j <= m1.columns
        invariant forall a, b :: 0 <= a < i && 0 <= b < m1.columns ==> FloatIsEqual(m1.Get(a, b), m2.Get(a, b))
        invariant forall b :: 0 <= b < j ==> FloatIsEqual(m1.Get(i, b), m2.Get(i, b))
      {
        if !FloatIsEqual(m1.Get(i, j), m2.Get(i, j)) {
          assert !FloatIsEqual(m1.Cells()[i][j], m2.Cells()[i][j]);
          return false;
        }
        j := j + 1;
      }
      i := i + 1;
    }
    forall a, b | 0 <= a < m1.rows && 0 <= b < m1.columns
      ensures FloatIsEqual(m1.Cells()[a][b], m2.Cells()[a][b])
    {
      assert FloatIsEqual(m1.Get(a, b), m2.Get(a, b));
    }
    return true;
  }

  /** `multiply(m1, m2)` for two n x n matrices. */
  method Multiply(m1: Matrix, m2: Matrix) returns (m: Matrix)
    requires m1.Valid() && m2.Valid()
    requires m1.rows == m1.columns == m2.rows == m2.columns
    ensures fresh(m) && fresh(m.data) && m.Valid() && m.rows == m.columns == m1.rows
    ensures m.Cells() == Mul(m1.Cells(), m2.Cells())
  {
    ghost var a, b := m1.Cells(), m2.Cells();
    var n := m1.rows;
    m := new Matrix(n, n, 0.0);
    var i := 0;
    while i < n
      invariant 0 <= i <= n && m.Valid() && m.rows == m.columns == n
      invariant forall x, y :: 0 <= x < i && 0 <= y < n ==> m.Get(x, y) == RowTimesColumn(a, b, x, y, n)
    {
      var j := 0;
      while j < n
        invariant 0 <= j <= n && m.Valid()
        invariant forall x, y :: 0 <= x < i && 0 <= y < n ==> m.Get(x, y) == RowTimesColumn(a, b, x, y, n)
        invariant forall y :: 0 <= y < j ==> m.Get(i, y) == RowTimesColumn(a, b, i, y, n)
      {
        var product := RowByColumn(m1, m2, i, j);
        m.Set(i, j, product);
        j := j + 1;
      }
      i := i + 1;
    }
    GridExtensionality(m.Cells(), Mul(a, b), n, n);
  }

  /** The inner loop of `multiply`: row i of m1 against column j of m2. */
  method RowByColumn(m1: Matrix, m2: Matrix, i: nat, j: nat) returns (product: real)
    requires m1.Valid() && m2.Valid()
    requires m1.rows == m1.columns == m2.rows == m2.columns && i < m1.rows && j < m1.rows
    ensures product == RowTimesColumn(m1.Cells(), m2.Cells(), i, j, m1.rows)
  {
    ghost var a, b := m1.Cells(), m2.Cells();
    var n := m1.rows;
    product := 0.0;
    var k := 0;
    while k < n
      invariant 0 <= k <= n
      invariant product == RowTimesColumn(a, b, i, j, k)
    {
      product := product + m1.Get(i, k) * m2.Get(k, j);
      k := k + 1;
    }
  }

  /** `multiplyTuple(m, t)` */
  function MultiplyTuple(m: Matrix, t: Tuple): (r: Tuple)
    reads m, m.data
    requires m.Valid() && m.rows == 4 && m.columns == 4
    ensures r == MulTuple(m.Cells(), t)
  {
    Tuple(m.Get(0, 0) * t.x + m.Get(0, 1) * t.y + m.Get(0, 2) * t.z + m.Get(0, 3) * t.w,
          m.Get(1, 0) * t.x + m.Get(1, 1) * t.y + m.Get(1, 2) * t.z + m.Get(1, 3) * t.w,
          m.Get(2, 0) * t.x + m.Get(2, 1) * t.y + m.Get(2, 2) * t.z + m.Get(2, 3) * t.w,
          m.Get(3, 0) * t.x + m.Get(3, 1) * t.y + m.Get(3, 2) * t.z + m.Get(3, 3) * t.w)
  }

  /** `transpose(m)`: collects the columns as rows and rebuilds through `initFromArray`,
      which throws (reading `rows[0]`) when there are no columns. */
  method TransposeMatrix(m: Matrix) returns (r: Result<Matrix>)
    requires m.Valid()
    ensures r.Err? <==> m.columns == 0
    ensures r.Ok? ==> fresh(r.value) && r.value.Valid() && r.value.rows == m.columns &&
                      r.value.columns == m.rows && r.value.Cells() == Transpose(m.Cells(), m.columns)
  {
    var d: Grid := [];
    var i := 0;
    while i < m.columns
      invariant 0 <= i <= m.columns && |d| == i
      invariant forall x :: 0 <= x < i ==> |d[x]| == m.rows
      invariant forall x, y :: 0 <= x < i && 0 <= y < m.rows ==> d[x][y] == m.Get(y, x)
    {
      var row: seq<real> := [];
      var j := 0;
      while j < m.rows
        invariant 0 <= j <= m.rows && |row| == j
        invariant forall y :: 0 <= y < j ==> row[y] == m.Get(y, i)
      {
        row := row + [m.Get(j, i)];
        j := j + 1;
      }
      d := d + [row];
      i := i + 1;
    }
    if |d| == 0 {
      return Err(TypeError("rows[0] is undefined"));
    }
    var t := InitFromArray(d);
    GridExtensionality(t.Cells(), Transpose(m.Cells(), m.columns), m.columns, m.rows);
    return Ok(t);
  }

  /** `submatrix(m, row, col)` */
  method SubmatrixOf(m: Matrix, row: nat, col: nat) returns (s: Matrix)
    requires m.Valid() && row < m.rows && col < m.columns
    ensures fresh(s) && fresh(s.data) && s.Valid()
    ensures s.rows == m.rows - 1 && s.columns == m.columns - 1
    ensures s.Cells() == Submatrix(m.Cells(), m.columns, row, col)
  {
    s := new Matrix(m.rows - 1, m.columns - 1, 0.0);
    var i, mi := 0, 0;
    while i < m.rows
      invariant 0 <= i <= m.rows && s.Valid()
      invariant mi == if i <= row then i else i - 1
      invariant forall x, y :: 0 <= x < mi && 0 <= y < s.columns ==>
        s.Get(x, y) == m.Get(Skip(x, row), Skip(y, col))
    {
      if i != row {
        var j, mj := 0, 0;
        while j < m.columns
          invariant 0 <= j <= m.columns && s.Valid()
          invariant mj == if j <= col then j else j - 1
          invariant forall x, y :: 0 <= x < mi && 0 <= y < s.columns ==>
            s.Get(x, y) == m.Get(Skip(x, row), Skip(y, col))
          invariant forall y :: 0 <= y < mj ==> s.Get(mi, y) == m.Get(Skip(mi, row), Skip(y, col))
        {
          if j != col {
            s.Set(mi, mj, m.Get(i, j));
            mj := mj + 1;
          }
          j := j + 1;
        }
        mi := mi + 1;
      }
      i := i + 1;
    }
    GridExtensionality(s.Cells(), Submatrix(m.Cells(), m.columns, row, col), s.rows, s.columns);
  }

  /** `determinant(m)` on the object; recursion goes through freshly built submatrices. */
  method Determinant(m: Matrix) returns (det: real)
    requires m.Valid() && m.rows == m.columns
    ensures det == Det(m.Cells())
    decreases m.rows, 2
  {
    ghost var g := m.Cells();
    det := 0.0;
    if m.rows == 2 {
      det := m.Get(0, 0) * m.Get(1, 1) - m.Get(0, 1) * m.Get(1, 0);
    } else {
      var j := 0;
      while j < m.columns
        invariant 0 <= j <= m.columns
        invariant det == ExpansionSum(g, j)
      {
        var c := CofactorOf(m, 0, j);
        det := det + m.Get(0, j) * c;
        j := j + 1;
      }
    }
  }

  /** `minor(m, row, col)` */
  method MinorOf(m: Matrix, row: nat, col: nat) returns (r: real)
    requires m.Valid() && m.rows == m.columns && row < m.rows && col < m.columns
    ensures r == Minor(m.Cells(), row, col)
    decreases m.rows, 0
  {
    var s := SubmatrixOf(m, row, col);
    r := Determinant(s);
  }

  /** `cofactor(m, row, col)` */
  method CofactorOf(m: Matrix, row: nat, col: nat) returns (r: real)
    requires m.Valid() && m.rows == m.columns && row < m.rows && col < m.columns
    ensures r == Cofactor(m.Cells(), row, col)
    decreases m.rows, 1
  {
    var mm := MinorOf(m, row, col);
    r := if (row + col) % 2 == 1 then -mm else mm;
  }

  /** `inverse(m)`: throws on a zero determinant, otherwise fills entry (j, i) with
      cofactor (i, j) over the determinant. */
  method InverseOf(m: Matrix) returns (r: Result<Matrix>)
    requires m.Valid() && m.rows == m.columns
    ensures r.Err? <==> Det(m.Cells()) == 0.0
    ensures r.Err? ==> r.fault == NotInvertible
    ensures r.Ok? ==> fresh(r.value) && r.value.Valid() && r.value.rows == r.value.columns == m.rows &&
                      InverseAsWritten(m.Cells()) == Some(r.value.Cells())
  {
    ghost var g := m.Cells();
    var d := Determinant(m);
    if d == 0.0 {
      return Err(NotInvertible);
    }
    var m2 := new Matrix(m.rows, m.columns, 0.0);
    var md := Determinant(m);
    var i := 0;
    while i < m.rows
      invariant 0 <= i <= m.rows && m2.Valid() && m2.rows == m2.columns == m.rows
      invariant forall x, y :: 0 <= x < m.rows && 0 <= y < i ==> m2.Get(x, y) == Cofactor(g, y, x) / md
    {
      var j := 0;
      while j < m.columns
        invariant 0 <= j <= m.columns && m2.Valid()
        invariant forall x, y :: 0 <= x < m.rows && 0 <= y < i ==> m2.Get(x, y) == Cofactor(g, y, x) / md
        invariant forall x :: 0 <= x < j ==> m2.Get(x, i) == Cofactor(g, i, x) / md
      {
        var c := CofactorOf(m, i, j);
        m2.Set(j, i, c / md);
        j := j + 1;
      }
      i := i + 1;
    }
    GridExtensionality(m2.Cells(), InverseAsWritten(g).value, m.rows, m.rows);
    return Ok(m2);
  }
}
