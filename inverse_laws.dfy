/** The adjugate identities of 4x4 matrices: expanding along any row or column by its own
    cofactors gives the determinant, and by another row's or column's gives 0. From them the
    corrected `inverse` of a 4x4 matrix is a two-sided inverse, which is what shapes and the
    camera rely on when they map rays and points through `inverse(transform)`. */
module InverseLaws {
  import opened Wrappers
  import opened Tuples
  import opened Matrices
  import opened MatrixLaws

  /** A 3x3 determinant of nine named entries, row by row. */
  function Minor3(a: real, b: real, c: real, d: real, e: real, f: real, p: real, q: real, r: real): real
  {
    a * (e * r - f * q) - b * (d * r - f * p) + c * (d * q - e * p)
  }

  /** The determinant of a 4x4 matrix of named entries as the signed sum over all 24
      permutations. */
  function Leibniz4(m00: real, m01: real, m02: real, m03: real,
      m10: real, m11: real, m12: real, m13: real,
      m20: real, m21: real, m22: real, m23: real,
      m30: real, m31: real, m32: real, m33: real): real
  {
    0.0
    + m00 * m11 * m22 * m33
    - m00 * m11 * m23 * m32
    - m00 * m12 * m21 * m33
    + m00 * m12 * m23 * m31
    + m00 * m13 * m21 * m32
    - m00 * m13 * m22 * m31
    - m01 * m10 * m22 * m33
    + m01 * m10 * m23 * m32
    + m01 * m12 * m20 * m33
    - m01 * m12 * m23 * m30
    - m01 * m13 * m20 * m32
    + m01 * m13 * m22 * m30
    + m02 * m10 * m21 * m33
    - m02 * m10 * m23 * m31
    - m02 * m11 * m20 * m33
    + m02 * m11 * m23 * m30
    + m02 * m13 * m20 * m31
    - m02 * m13 * m21 * m30
    - m03 * m10 * m21 * m32
    + m03 * m10 * m22 * m31
    + m03 * m11 * m20 * m32
    - m03 * m11 * m22 * m30
    - m03 * m12 * m20 * m31
    + m03 * m12 * m21 * m30
  }

  /** Row 0 expanded by its own cofactors. */
  lemma RowByCofactors00(m00: real, m01: real, m02: real, m03: real,
      m10: real, m11: real, m12: real, m13: real,
      m20: real, m21: real, m22: real, m23: real,
      m30: real, m31: real, m32: real, m33: real)
    ensures m00 * (Minor3(m11, m12, m13, m21, m22, m23, m31, m32, m33))
          + m01 * (-Minor3(m10, m12, m13, m20, m22, m23, m30, m32, m33))
          + m02 * (Minor3(m10, m11, m13, m20, m21, m23, m30, m31, m33))
          + m03 * (-Minor3(m10, m11, m12, m20, m21, m22, m30, m31, m32))
         == Leibniz4(m00, m01, m02, m03, m10, m11, m12, m13, m20, m21, m22, m23, m30, m31, m32, m33)
  {
  }

  /** Row 0 expanded by the cofactors of row 1. */
  lemma RowByCofactors01(m00: real, m01: real, m02: real, m03: real,
      m10: real, m11: real, m12: real, m13: real,
      m20: real, m21: real, m22: real, m23: real,
      m30: real, m31: real, m32: real, m33: real)
    ensures m00 * (-Minor3(m01, m02, m03, m21, m22, m23, m31, m32, m33))
          + m01 * (Minor3(m00, m02, m03, m20, m22, m23, m30, m32, m33))
          + m02 * (-Minor3(m00, m01, m03, m20, m21, m23, m30, m31, m33))
          + m03 * (Minor3(m00, m01, m02, m20, m21, m22, m30, m31, m32))
         == 0.0
  {
  }

  /** Row 0 expanded by the cofactors of row 2. */
  lemma RowByCofactors02(m00: real, m01: real, m02: real, m03: real,
      m10: real, m11: real, m12: real, m13: real,
      m20: real, m21: real, m22: real, m23: real,
      m30: real, m31: real, m32: real, m33: real)
    ensures m00 * (Minor3(m01, m02, m03, m11, m12, m13, m31, m32, m33))
          + m01 * (-Minor3(m00, m02, m03, m10, m12, m13, m30, m32, m33))
          + m02 * (Minor3(m00, m01, m03, m10, m11, m13, m30, m31, m33))
          + m03 * (-Minor3(m00, m01, m02, m10, m11, m12, m30, m31, m32))
         == 0.0
  {
  }

  /** Row 0 expanded by the cofactors of row 3. */
  lemma RowByCofactors03(m00: real, m01: real, m02: real, m03: real,
      m10: real, m11: real, m12: real, m13: real,
      m20: real, m21: real, m22: real, m23: real,
      m30: real, m31: real, m32: real, m33: real)
    ensures m00 * (-Minor3(m01, m02, m03, m11, m12, m13, m21, m22, m23))
          + m01 * (Minor3(m00, m02, m03, m10, m12, m13, m20, m22, m23))
          + m02 * (-Minor3(m00, m01, m03, m10, m11, m13, m20, m21, m23))
          + m03 * (Minor3(m00, m01, m02, m10, m11, m12, m20, m21, m22))
         == 0.0
  {
  }

  /** Row 1 expanded by the cofactors of row 0. */
  lemma RowByCofactors10(m00: real, m01: real, m02: real, m03: real,
      m10: real, m11: real, m12: real, m13: real,
      m20: real, m21: real, m22: real, m23: real,
      m30: real, m31: real, m32: real, m33: real)
    ensures m10 * (Minor3(m11, m12, m13, m21, m22, m23, m31, m32, m33))
          + m11 * (-Minor3(m10, m12, m13, m20, m22, m23, m30, m32, m33))
          + m12 * (Minor3(m10, m11, m13, m20, m21, m23, m30, m31, m33))
          + m13 * (-Minor3(m10, m11, m12, m20, m21, m22, m30, m31, m32))
         == 0.0
  {
  }

  /** Row 1 expanded by its own cofactors. */
  lemma RowByCofactors11(m00: real, m01: real, m02: real, m03: real,
      m10: real, m11: real, m12: real, m13: real,
      m20: real, m21: real, m22: real, m23: real,
      m30: real, m31: real, m32: real, m33: real)
    ensures m10 * (-Minor3(m01, m02, m03, m21, m22, m23, m31, m32, m33))
          + m11 * (Minor3(m00, m02, m03, m20, m22, m23, m30, m32, m33))
          + m12 * (-Minor3(m00, m01, m03, m20, m21, m23, m30, m31, m33))
          + m13 * (Minor3(m00, m01, m02, m20, m21, m22, m30, m31, m32))
         == Leibniz4(m00, m01, m02, m03, m10, m11, m12, m13, m20, m21, m22, m23, m30, m31, m32, m33)
  {
  }

  /** Row 1 expanded by the cofactors of row 2. */
  lemma RowByCofactors12(m00: real, m01: real, m02: real, m03: real,
      m10: real, m11: real, m12: real, m13: real,
      m20: real, m21: real, m22: real, m23: real,
      m30: real, m31: real, m32: real, m33: real)
    ensures m10 * (Minor3(m01, m02, m03, m11, m12, m13, m31, m32, m33))
          + m11 * (-Minor3(m00, m02, m03, m10, m12, m13, m30, m32, m33))
          + m12 * (Minor3(m00, m01, m03, m10, m11, m13, m30, m31, m33))
          + m13 * (-Minor3(m00, m01, m02, m10, m11, m12, m30, m31, m32))
         == 0.0
  {
  }

  /** Row 1 expanded by the cofactors of row 3. */
  lemma RowByCofactors13(m00: real, m01: real, m02: real, m03: real,
      m10: real, m11: real, m12: real, m13: real,
      m20: real, m21: real, m22: real, m23: real,
      m30: real, m31: real, m32: real, m33: real)
    ensures m10 * (-Minor3(m01, m02, m03, m11, m12, m13, m21, m22, m23))
          + m11 * (Minor3(m00, m02, m03, m10, m12, m13, m20, m22, m23))
          + m12 * (-Minor3(m00, m01, m03, m10, m11, m13, m20, m21, m23))
          + m13 * (Minor3(m00, m01, m02, m10, m11, m12, m20, m21, m22))
         == 0.0
  {
  }

  /** Row 2 expanded by the cofactors of row 0. */
  lemma RowByCofactors20(m00: real, m01: real, m02: real, m03: real,
      m10: real, m11: real, m12: real, m13: real,
      m20: real, m21: real, m22: real, m23: real,
      m30: real, m31: real, m32: real, m33: real)
    ensures m20 * (Minor3(m11, m12, m13, m21, m22, m23, m31, m32, m33))
          + m21 * (-Minor3(m10, m12, m13, m20, m22, m23, m30, m32, m33))
          + m22 * (Minor3(m10, m11, m13, m20, m21, m23, m30, m31, m33))
          + m23 * (-Minor3(m10, m11, m12, m20, m21, m22, m30, m31, m32))
         == 0.0
  {
  }

  /** Row 2 expanded by the cofactors of row 1. */
  lemma RowByCofactors21(m00: real, m01: real, m02: real, m03: real,
      m10: real, m11: real, m12: real, m13: real,
      m20: real, m21: real, m22: real, m23: real,
      m30: real, m31: real, m32: real, m33: real)
    ensures m20 * (-Minor3(m01, m02, m03, m21, m22, m23, m31, m32, m33))
          + m21 * (Minor3(m00, m02, m03, m20, m22, m23, m30, m32, m33))
          + m22 * (-Minor3(m00, m01, m03, m20, m21, m23, m30, m31, m33))
          + m23 * (Minor3(m00, m01, m02, m20, m21, m22, m30, m31, m32))
         == 0.0
  {
  }

  /** Row 2 expanded by its own cofactors. */
  lemma RowByCofactors22(m00: real, m01: real, m02: real, m03: real,
      m10: real, m11: real, m12: real, m13: real,
      m20: real, m21: real, m22: real, m23: real,
      m30: real, m31: real, m32: real, m33: real)
    ensures m20 * (Minor3(m01, m02, m03, m11, m12, m13, m31, m32, m33))
          + m21 * (-Minor3(m00, m02, m03, m10, m12, m13, m30, m32, m33))
          + m22 * (Minor3(m00, m01, m03, m10, m11, m13, m30, m31, m33))
          + m23 * (-Minor3(m00, m01, m02, m10, m11, m12, m30, m31, m32))
         == Leibniz4(m00, m01, m02, m03, m10, m11, m12, m13, m20, m21, m22, m23, m30, m31, m32, m33)
  {
  }

  /** Row 2 expanded by the cofactors of row 3. */
  lemma RowByCofactors23(m00: real, m01: real, m02: real, m03: real,
      m10: real, m11: real, m12: real, m13: real,
      m20: real, m21: real, m22: real, m23: real,
      m30: real, m31: real, m32: real, m33: real)
    ensures m20 * (-Minor3(m01, m02, m03, m11, m12, m13, m21, m22, m23))
          + m21 * (Minor3(m00, m02, m03, m10, m12, m13, m20, m22, m23))
          + m22 * (-Minor3(m00, m01, m03, m10, m11, m13, m20, m21, m23))
          + m23 * (Minor3(m00, m01, m02, m10, m11, m12, m20, m21, m22))
         == 0.0
  {
  }

  /** Row 3 expanded by the cofactors of row 0. */
  lemma RowByCofactors30(m00: real, m01: real, m02: real, m03: real,
      m10: real, m11: real, m12: real, m13: real,
      m20: real, m21: real, m22: real, m23: real,
      m30: real, m31: real, m32: real, m33: real)
    ensures m30 * (Minor3(m11, m12, m13, m21, m22, m23, m31, m32, m33))
          + m31 * (-Minor3(m10, m12, m13, m20, m22, m23, m30, m32, m33))
          + m32 * (Minor3(m10, m11, m13, m20, m21, m23, m30, m31, m33))
          + m33 * (-Minor3(m10, m11, m12, m20, m21, m22, m30, m31, m32))
         == 0.0
  {
  }

  /** Row 3 expanded by the cofactors of row 1. */
  lemma RowByCofactors31(m00: real, m01: real, m02: real, m03: real,
      m10: real, m11: real, m12: real, m13: real,
      m20: real, m21: real, m22: real, m23: real,
      m30: real, m31: real, m32: real, m33: real)
    ensures m30 * (-Minor3(m01, m02, m03, m21, m22, m23, m31, m32, m33))
          + m31 * (Minor3(m00, m02, m03, m20, m22, m23, m30, m32, m33))
          + m32 * (-Minor3(m00, m01, m03, m20, m21, m23, m30, m31, m33))
          + m33 * (Minor3(m00, m01, m02, m20, m21, m22, m30, m31, m32))
         == 0.0
  {
  }

  /** Row 3 expanded by the cofactors of row 2. */
  lemma RowByCofactors32(m00: real, m01: real, m02: real, m03: real,
      m10: real, m11: real, m12: real, m13: real,
      m20: real, m21: real, m22: real, m23: real,
      m30: real, m31: real, m32: real, m33: real)
    ensures m30 * (Minor3(m01, m02, m03, m11, m12, m13, m31, m32, m33))
          + m31 * (-Minor3(m00, m02, m03, m10, m12, m13, m30, m32, m33))
          + m32 * (Minor3(m00, m01, m03, m10, m11, m13, m30, m31, m33))
          + m33 * (-Minor3(m00, m01, m02, m10, m11, m12, m30, m31, m32))
         == 0.0
  {
  }

  /** Row 3 expanded by its own cofactors. */
  lemma RowByCofactors33(m00: real, m01: real, m02: real, m03: real,
      m10: real, m11: real, m12: real, m13: real,
      m20: real, m21: real, m22: real, m23: real,
      m30: real, m31: real, m32: real, m33: real)
    ensures m30 * (-Minor3(m01, m02, m03, m11, m12, m13, m21, m22, m23))
          + m31 * (Minor3(m00, m02, m03, m10, m12, m13, m20, m22, m23))
          + m32 * (-Minor3(m00, m01, m03, m10, m11, m13, m20, m21, m23))
          + m33 * (Minor3(m00, m01, m02, m10, m11, m12, m20, m21, m22))
         == Leibniz4(m00, m01, m02, m03, m10, m11, m12, m13, m20, m21, m22, m23, m30, m31, m32, m33)
  {
  }

  /** Column 0 expanded by its own cofactors. */
  lemma ColumnByCofactors00(m00: real, m01: real, m02: real, m03: real,
      m10: real, m11: real, m12: real, m13: real,
      m20: real, m21: real, m22: real, m23: real,
      m30: real, m31: real, m32: real, m33: real)
    ensures (Minor3(m11, m12, m13, m21, m22, m23, m31, m32, m33)) * m00
          + (-Minor3(m01, m02, m03, m21, m22, m23, m31, m32, m33)) * m10
          + (Minor3(m01, m02, m03, m11, m12, m13, m31, m32, m33)) * m20
          + (-Minor3(m01, m02, m03, m11, m12, m13, m21, m22, m23)) * m30
         == Leibniz4(m00, m01, m02, m03, m10, m11, m12, m13, m20, m21, m22, m23, m30, m31, m32, m33)
  {
  }

  /** Column 0 expanded by the cofactors of column 1. */
  lemma ColumnByCofactors01(m00: real, m01: real, m02: real, m03: real,
      m10: real, m11: real, m12: real, m13: real,
      m20: real, m21: real, m22: real, m23: real,
      m30: real, m31: real, m32: real, m33: real)
    ensures (-Minor3(m10, m12, m13, m20, m22, m23, m30, m32, m33)) * m00
          + (Minor3(m00, m02, m03, m20, m22, m23, m30, m32, m33)) * m10
          + (-Minor3(m00, m02, m03, m10, m12, m13, m30, m32, m33)) * m20
          + (Minor3(m00, m02, m03, m10, m12, m13, m20, m22, m23)) * m30
         == 0.0
  {
  }

  /** Column 0 expanded by the cofactors of column 2. */
  lemma ColumnByCofactors02(m00: real, m01: real, m02: real, m03: real,
      m10: real, m11: real, m12: real, m13: real,
      m20: real, m21: real, m22: real, m23: real,
      m30: real, m31: real, m32: real, m33: real)
    ensures (Minor3(m10, m11, m13, m20, m21, m23, m30, m31, m33)) * m00
          + (-Minor3(m00, m01, m03, m20, m21, m23, m30, m31, m33)) * m10
          + (Minor3(m00, m01, m03, m10, m11, m13, m30, m31, m33)) * m20
          + (-Minor3(m00, m01, m03, m10, m11, m13, m20, m21, m23)) * m30
         == 0.0
  {
  }

  /** Column 0 expanded by the cofactors of column 3. */
  lemma ColumnByCofactors03(m00: real, m01: real, m02: real, m03: real,
      m10: real, m11: real, m12: real, m13: real,
      m20: real, m21: real, m22: real, m23: real,
      m30: real, m31: real, m32: real, m33: real)
    ensures (-Minor3(m10, m11, m12, m20, m21, m22, m30, m31, m32)) * m00
          + (Minor3(m00, m01, m02, m20, m21, m22, m30, m31, m32)) * m10
          + (-Minor3(m00, m01, m02, m10, m11, m12, m30, m31, m32)) * m20
          + (Minor3(m00, m01, m02, m10, m11, m12, m20, m21, m22)) * m30
         == 0.0
  {
  }

  /** Column 1 expanded by the cofactors of column 0. */
  lemma ColumnByCofactors10(m00: real, m01: real, m02: real, m03: real,
      m10: real, m11: real, m12: real, m13: real,
      m20: real, m21: real, m22: real, m23: real,
      m30: real, m31: real, m32: real, m33: real)
    ensures (Minor3(m11, m12, m13, m21, m22, m23, m31, m32, m33)) * m01
          + (-Minor3(m01, m02, m03, m21, m22, m23, m31, m32, m33)) * m11
          + (Minor3(m01, m02, m03, m11, m12, m13, m31, m32, m33)) * m21
          + (-Minor3(m01, m02, m03, m11, m12, m13, m21, m22, m23)) * m31
         == 0.0
  {
  }

  /** Column 1 expanded by its own cofactors. */
  lemma ColumnByCofactors11(m00: real, m01: real, m02: real, m03: real,
      m10: real, m11: real, m12: real, m13: real,
      m20: real, m21: real, m22: real, m23: real,
      m30: real, m31: real, m32: real, m33: real)
    ensures (-Minor3(m10, m12, m13, m20, m22, m23, m30, m32, m33)) * m01
          + (Minor3(m00, m02, m03, m20, m22, m23, m30, m32, m33)) * m11
          + (-Minor3(m00, m02, m03, m10, m12, m13, m30, m32, m33)) * m21
          + (Minor3(m00, m02, m03, m10, m12, m13, m20, m22, m23)) * m31
         == Leibniz4(m00, m01, m02, m03, m10, m11, m12, m13, m20, m21, m22, m23, m30, m31, m32, m33)
  {
  }

  /** Column 1 expanded by the cofactors of column 2. */
  lemma ColumnByCofactors12(m00: real, m01: real, m02: real, m03: real,
      m10: real, m11: real, m12: real, m13: real,
      m20: real, m21: real, m22: real, m23: real,
      m30: real, m31: real, m32: real, m33: real)
    ensures (Minor3(m10, m11, m13, m20, m21, m23, m30, m31, m33)) * m01
          + (-Minor3(m00, m01, m03, m20, m21, m23, m30, m31, m33)) * m11
          + (Minor3(m00, m01, m03, m10, m11, m13, m30, m31, m33)) * m21
          + (-Minor3(m00, m01, m03, m10, m11, m13, m20, m21, m23)) * m31
         == 0.0
  {
  }

  /** Column 1 expanded by the cofactors of column 3. */
  lemma ColumnByCofactors13(m00: real, m01: real, m02: real, m03: real,
      m10: real, m11: real, m12: real, m13: real,
      m20: real, m21: real, m22: real, m23: real,
      m30: real, m31: real, m32: real, m33: real)
    ensures (-Minor3(m10, m11, m12, m20, m21, m22, m30, m31, m32)) * m01
          + (Minor3(m00, m01, m02, m20, m21, m22, m30, m31, m32)) * m11
          + (-Minor3(m00, m01, m02, m10, m11, m12, m30, m31, m32)) * m21
          + (Minor3(m00, m01, m02, m10, m11, m12, m20, m21, m22)) * m31
         == 0.0
  {
  }

  /** Column 2 expanded by the cofactors of column 0. */
  lemma ColumnByCofactors20(m00: real, m01: real, m02: real, m03: real,
      m10: real, m11: real, m12: real, m13: real,
      m20: real, m21: real, m22: real, m23: real,
      m30: real, m31: real, m32: real, m33: real)
    ensures (Minor3(m11, m12, m13, m21, m22, m23, m31, m32, m33)) * m02
          + (-Minor3(m01, m02, m03, m21, m22, m23, m31, m32, m33)) * m12
          + (Minor3(m01, m02, m03, m11, m12, m13, m31, m32, m33)) * m22
          + (-Minor3(m01, m02, m03, m11, m12, m13, m21, m22, m23)) * m32
         == 0.0
  {
  }

  /** Column 2 expanded by the cofactors of column 1. */
  lemma ColumnByCofactors21(m00: real, m01: real, m02: real, m03: real,
      m10: real, m11: real, m12: real, m13: real,
      m20: real, m21: real, m22: real, m23: real,
      m30: real, m31: real, m32: real, m33: real)
    ensures (-Minor3(m10, m12, m13, m20, m22, m23, m30, m32, m33)) * m02
          + (Minor3(m00, m02, m03, m20, m22, m23, m30, m32, m33)) * m12
          + (-Minor3(m00, m02, m03, m10, m12, m13, m30, m32, m33)) * m22
          + (Minor3(m00, m02, m03, m10, m12, m13, m20, m22, m23)) * m32
         == 0.0
  {
  }

  /** Column 2 expanded by its own cofactors. */
  lemma ColumnByCofactors22(m00: real, m01: real, m02: real, m03: real,
      m10: real, m11: real, m12: real, m13: real,
      m20: real, m21: real, m22: real, m23: real,
      m30: real, m31: real, m32: real, m33: real)
    ensures (Minor3(m10, m11, m13, m20, m21, m23, m30, m31, m33)) * m02
          + (-Minor3(m00, m01, m03, m20, m21, m23, m30, m31, m33)) * m12
          + (Minor3(m00, m01, m03, m10, m11, m13, m30, m31, m33)) * m22
          + (-Minor3(m00, m01, m03, m10, m11, m13, m20, m21, m23)) * m32
         == Leibniz4(m00, m01, m02, m03, m10, m11, m12, m13, m20, m21, m22, m23, m30, m31, m32, m33)
  {
  }

  /** Column 2 expanded by the cofactors of column 3. */
  lemma ColumnByCofactors23(m00: real, m01: real, m02: real, m03: real,
      m10: real, m11: real, m12: real, m13: real,
      m20: real, m21: real, m22: real, m23: real,
      m30: real, m31: real, m32: real, m33: real)
    ensures (-Minor3(m10, m11, m12, m20, m21, m22, m30, m31, m32)) * m02
          + (Minor3(m00, m01, m02, m20, m21, m22, m30, m31, m32)) * m12
          + (-Minor3(m00, m01, m02, m10, m11, m12, m30, m31, m32)) * m22
          + (Minor3(m00, m01, m02, m10, m11, m12, m20, m21, m22)) * m32
         == 0.0
  {
  }

  /** Column 3 expanded by the cofactors of column 0. */
  lemma ColumnByCofactors30(m00: real, m01: real, m02: real, m03: real,
      m10: real, m11: real, m12: real, m13: real,
      m20: real, m21: real, m22: real, m23: real,
      m30: real, m31: real, m32: real, m33: real)
    ensures (Minor3(m11, m12, m13, m21, m22, m23, m31, m32, m33)) * m03
          + (-Minor3(m01, m02, m03, m21, m22, m23, m31, m32, m33)) * m13
          + (Minor3(m01, m02, m03, m11, m12, m13, m31, m32, m33)) * m23
          + (-Minor3(m01, m02, m03, m11, m12, m13, m21, m22, m23)) * m33
         == 0.0
  {
  }

  /** Column 3 expanded by the cofactors of column 1. */
  lemma ColumnByCofactors31(m00: real, m01: real, m02: real, m03: real,
      m10: real, m11: real, m12: real, m13: real,
      m20: real, m21: real, m22: real, m23: real,
      m30: real, m31: real, m32: real, m33: real)
    ensures (-Minor3(m10, m12, m13, m20, m22, m23, m30, m32, m33)) * m03
          + (Minor3(m00, m02, m03, m20, m22, m23, m30, m32, m33)) * m13
          + (-Minor3(m00, m02, m03, m10, m12, m13, m30, m32, m33)) * m23
          + (Minor3(m00, m02, m03, m10, m12, m13, m20, m22, m23)) * m33
         == 0.0
  {
  }

  /** Column 3 expanded by the cofactors of column 2. */
  lemma ColumnByCofactors32(m00: real, m01: real, m02: real, m03: real,
      m10: real, m11: real, m12: real, m13: real,
      m20: real, m21: real, m22: real, m23: real,
      m30: real, m31: real, m32: real, m33: real)
    ensures (Minor3(m10, m11, m13, m20, m21, m23, m30, m31, m33)) * m03
          + (-Minor3(m00, m01, m03, m20, m21, m23, m30, m31, m33)) * m13
          + (Minor3(m00, m01, m03, m10, m11, m13, m30, m31, m33)) * m23
          + (-Minor3(m00, m01, m03, m10, m11, m13, m20, m21, m23)) * m33
         == 0.0
  {
  }

  /** Column 3 expanded by its own cofactors. */
  lemma ColumnByCofactors33(m00: real, m01: real, m02: real, m03: real,
      m10: real, m11: real, m12: real, m13: real,
      m20: real, m21: real, m22: real, m23: real,
      m30: real, m31: real, m32: real, m33: real)
    ensures (-Minor3(m10, m11, m12, m20, m21, m22, m30, m31, m32)) * m03
          + (Minor3(m00, m01, m02, m20, m21, m22, m30, m31, m32)) * m13
          + (-Minor3(m00, m01, m02, m10, m11, m12, m30, m31, m32)) * m23
          + (Minor3(m00, m01, m02, m10, m11, m12, m20, m21, m22)) * m33
         == Leibniz4(m00, m01, m02, m03, m10, m11, m12, m13, m20, m21, m22, m23, m30, m31, m32, m33)
  {
  }

  /** The cofactor at (0, 0) of a 4x4 matrix over its entries. */
  lemma Cofactor00Of4(g: Grid)
    requires IsMatrix(g, 4, 4)
    ensures Cofactor(g, 0, 0) == Minor3(g[1][1], g[1][2], g[1][3], g[2][1], g[2][2], g[2][3], g[3][1], g[3][2], g[3][3])
  {
    Cofactor4Formula(g, 0, 0);
  }

  /** The cofactor at (0, 1) of a 4x4 matrix over its entries. */
  lemma Cofactor01Of4(g: Grid)
    requires IsMatrix(g, 4, 4)
    ensures Cofactor(g, 0, 1) == -Minor3(g[1][0], g[1][2], g[1][3], g[2][0], g[2][2], g[2][3], g[3][0], g[3][2], g[3][3])
  {
    Cofactor4Formula(g, 0, 1);
  }

  /** The cofactor at (0, 2) of a 4x4 matrix over its entries. */
  lemma Cofactor02Of4(g: Grid)
    requires IsMatrix(g, 4, 4)
    ensures Cofactor(g, 0, 2) == Minor3(g[1][0], g[1][1], g[1][3], g[2][0], g[2][1], g[2][3], g[3][0], g[3][1], g[3][3])
  {
    Cofactor4Formula(g, 0, 2);
  }

  /** The cofactor at (0, 3) of a 4x4 matrix over its entries. */
  lemma Cofactor03Of4(g: Grid)
    requires IsMatrix(g, 4, 4)
    ensures Cofactor(g, 0, 3) == -Minor3(g[1][0], g[1][1], g[1][2], g[2][0], g[2][1], g[2][2], g[3][0], g[3][1], g[3][2])
  {
    Cofactor4Formula(g, 0, 3);
  }

  /** The cofactor at (1, 0) of a 4x4 matrix over its entries. */
  lemma Cofactor10Of4(g: Grid)
    requires IsMatrix(g, 4, 4)
    ensures Cofactor(g, 1, 0) == -Minor3(g[0][1], g[0][2], g[0][3], g[2][1], g[2][2], g[2][3], g[3][1], g[3][2], g[3][3])
  {
    Cofactor4Formula(g, 1, 0);
  }

  /** The cofactor at (1, 1) of a 4x4 matrix over its entries. */
  lemma Cofactor11Of4(g: Grid)
    requires IsMatrix(g, 4, 4)
    ensures Cofactor(g, 1, 1) == Minor3(g[0][0], g[0][2], g[0][3], g[2][0], g[2][2], g[2][3], g[3][0], g[3][2], g[3][3])
  {
    Cofactor4Formula(g, 1, 1);
  }

  /** The cofactor at (1, 2) of a 4x4 matrix over its entries. */
  lemma Cofactor12Of4(g: Grid)
    requires IsMatrix(g, 4, 4)
    ensures Cofactor(g, 1, 2) == -Minor3(g[0][0], g[0][1], g[0][3], g[2][0], g[2][1], g[2][3], g[3][0], g[3][1], g[3][3])
  {
    Cofactor4Formula(g, 1, 2);
  }

  /** The cofactor at (1, 3) of a 4x4 matrix over its entries. */
  lemma Cofactor13Of4(g: Grid)
    requires IsMatrix(g, 4, 4)
    ensures Cofactor(g, 1, 3) == Minor3(g[0][0], g[0][1], g[0][2], g[2][0], g[2][1], g[2][2], g[3][0], g[3][1], g[3][2])
  {
    Cofactor4Formula(g, 1, 3);
  }

  /** The cofactor at (2, 0) of a 4x4 matrix over its entries. */
  lemma Cofactor20Of4(g: Grid)
    requires IsMatrix(g, 4, 4)
    ensures Cofactor(g, 2, 0) == Minor3(g[0][1], g[0][2], g[0][3], g[1][1], g[1][2], g[1][3], g[3][1], g[3][2], g[3][3])
  {
    Cofactor4Formula(g, 2, 0);
  }

  /** The cofactor at (2, 1) of a 4x4 matrix over its entries. */
  lemma Cofactor21Of4(g: Grid)
    requires IsMatrix(g, 4, 4)
    ensures Cofactor(g, 2, 1) == -Minor3(g[0][0], g[0][2], g[0][3], g[1][0], g[1][2], g[1][3], g[3][0], g[3][2], g[3][3])
  {
    Cofactor4Formula(g, 2, 1);
  }

  /** The cofactor at (2, 2) of a 4x4 matrix over its entries. */
  lemma Cofactor22Of4(g: Grid)
    requires IsMatrix(g, 4, 4)
    ensures Cofactor(g, 2, 2) == Minor3(g[0][0], g[0][1], g[0][3], g[1][0], g[1][1], g[1][3], g[3][0], g[3][1], g[3][3])
  {
    Cofactor4Formula(g, 2, 2);
  }

  /** The cofactor at (2, 3) of a 4x4 matrix over its entries. */
  lemma Cofactor23Of4(g: Grid)
    requires IsMatrix(g, 4, 4)
    ensures Cofactor(g, 2, 3) == -Minor3(g[0][0], g[0][1], g[0][2], g[1][0], g[1][1], g[1][2], g[3][0], g[3][1], g[3][2])
  {
    Cofactor4Formula(g, 2, 3);
  }

  /** The cofactor at (3, 0) of a 4x4 matrix over its entries. */
  lemma Cofactor30Of4(g: Grid)
    requires IsMatrix(g, 4, 4)
    ensures Cofactor(g, 3, 0) == -Minor3(g[0][1], g[0][2], g[0][3], g[1][1], g[1][2], g[1][3], g[2][1], g[2][2], g[2][3])
  {
    Cofactor4Formula(g, 3, 0);
  }

  /** The cofactor at (3, 1) of a 4x4 matrix over its entries. */
  lemma Cofactor31Of4(g: Grid)
    requires IsMatrix(g, 4, 4)
    ensures Cofactor(g, 3, 1) == Minor3(g[0][0], g[0][2], g[0][3], g[1][0], g[1][2], g[1][3], g[2][0], g[2][2], g[2][3])
  {
    Cofactor4Formula(g, 3, 1);
  }

  /** The cofactor at (3, 2) of a 4x4 matrix over its entries. */
  lemma Cofactor32Of4(g: Grid)
    requires IsMatrix(g, 4, 4)
    ensures Cofactor(g, 3, 2) == -Minor3(g[0][0], g[0][1], g[0][3], g[1][0], g[1][1], g[1][3], g[2][0], g[2][1], g[2][3])
  {
    Cofactor4Formula(g, 3, 2);
  }

  /** The cofactor at (3, 3) of a 4x4 matrix over its entries. */
  lemma Cofactor33Of4(g: Grid)
    requires IsMatrix(g, 4, 4)
    ensures Cofactor(g, 3, 3) == Minor3(g[0][0], g[0][1], g[0][2], g[1][0], g[1][1], g[1][2], g[2][0], g[2][1], g[2][2])
  {
    Cofactor4Formula(g, 3, 3);
  }

  /** All sixteen cofactors, and the determinant, over the entries. */
  lemma CofactorsOf4(g: Grid)
    requires IsMatrix(g, 4, 4)
    ensures Det(g) == Leibniz4(g[0][0], g[0][1], g[0][2], g[0][3],
        g[1][0], g[1][1], g[1][2], g[1][3],
        g[2][0], g[2][1], g[2][2], g[2][3],
        g[3][0], g[3][1], g[3][2], g[3][3])
    ensures Cofactor(g, 0, 0) == Minor3(g[1][1], g[1][2], g[1][3], g[2][1], g[2][2], g[2][3], g[3][1], g[3][2], g[3][3])
    ensures Cofactor(g, 0, 1) == -Minor3(g[1][0], g[1][2], g[1][3], g[2][0], g[2][2], g[2][3], g[3][0], g[3][2], g[3][3])
    ensures Cofactor(g, 0, 2) == Minor3(g[1][0], g[1][1], g[1][3], g[2][0], g[2][1], g[2][3], g[3][0], g[3][1], g[3][3])
    ensures Cofactor(g, 0, 3) == -Minor3(g[1][0], g[1][1], g[1][2], g[2][0], g[2][1], g[2][2], g[3][0], g[3][1], g[3][2])
    ensures Cofactor(g, 1, 0) == -Minor3(g[0][1], g[0][2], g[0][3], g[2][1], g[2][2], g[2][3], g[3][1], g[3][2], g[3][3])
    ensures Cofactor(g, 1, 1) == Minor3(g[0][0], g[0][2], g[0][3], g[2][0], g[2][2], g[2][3], g[3][0], g[3][2], g[3][3])
    ensures Cofactor(g, 1, 2) == -Minor3(g[0][0], g[0][1], g[0][3], g[2][0], g[2][1], g[2][3], g[3][0], g[3][1], g[3][3])
    ensures Cofactor(g, 1, 3) == Minor3(g[0][0], g[0][1], g[0][2], g[2][0], g[2][1], g[2][2], g[3][0], g[3][1], g[3][2])
    ensures Cofactor(g, 2, 0) == Minor3(g[0][1], g[0][2], g[0][3], g[1][1], g[1][2], g[1][3], g[3][1], g[3][2], g[3][3])
    ensures Cofactor(g, 2, 1) == -Minor3(g[0][0], g[0][2], g[0][3], g[1][0], g[1][2], g[1][3], g[3][0], g[3][2], g[3][3])
    ensures Cofactor(g, 2, 2) == Minor3(g[0][0], g[0][1], g[0][3], g[1][0], g[1][1], g[1][3], g[3][0], g[3][1], g[3][3])
    ensures Cofactor(g, 2, 3) == -Minor3(g[0][0], g[0][1], g[0][2], g[1][0], g[1][1], g[1][2], g[3][0], g[3][1], g[3][2])
    ensures Cofactor(g, 3, 0) == -Minor3(g[0][1], g[0][2], g[0][3], g[1][1], g[1][2], g[1][3], g[2][1], g[2][2], g[2][3])
    ensures Cofactor(g, 3, 1) == Minor3(g[0][0], g[0][2], g[0][3], g[1][0], g[1][2], g[1][3], g[2][0], g[2][2], g[2][3])
    ensures Cofactor(g, 3, 2) == -Minor3(g[0][0], g[0][1], g[0][3], g[1][0], g[1][1], g[1][3], g[2][0], g[2][1], g[2][3])
    ensures Cofactor(g, 3, 3) == Minor3(g[0][0], g[0][1], g[0][2], g[1][0], g[1][1], g[1][2], g[2][0], g[2][1], g[2][2])
  {
    Cofactor00Of4(g);
    Cofactor01Of4(g);
    Cofactor02Of4(g);
    Cofactor03Of4(g);
    Cofactor10Of4(g);
    Cofactor11Of4(g);
    Cofactor12Of4(g);
    Cofactor13Of4(g);
    Cofactor20Of4(g);
    Cofactor21Of4(g);
    Cofactor22Of4(g);
    Cofactor23Of4(g);
    Cofactor30Of4(g);
    Cofactor31Of4(g);
    Cofactor32Of4(g);
    Cofactor33Of4(g);
    DetOf4(g);
  }

  /** The determinant of a 4x4 matrix over its entries. */
  lemma DetOf4(g: Grid)
    requires IsMatrix(g, 4, 4)
    ensures Det(g) == Leibniz4(g[0][0], g[0][1], g[0][2], g[0][3],
        g[1][0], g[1][1], g[1][2], g[1][3],
        g[2][0], g[2][1], g[2][2], g[2][3],
        g[3][0], g[3][1], g[3][2], g[3][3])
  {
    Cofactor00Of4(g);
    Cofactor01Of4(g);
    Cofactor02Of4(g);
    Cofactor03Of4(g);
    Det4Expansion(g);
    RowByCofactors00(g[0][0], g[0][1], g[0][2], g[0][3],
        g[1][0], g[1][1], g[1][2], g[1][3],
        g[2][0], g[2][1], g[2][2], g[2][3],
        g[3][0], g[3][1], g[3][2], g[3][3]);
  }


  /** `ExpandRowByCofactors` for row 0 and the cofactors of row 0. */
  lemma RowByCofactorsCase00(g: Grid)
    requires IsMatrix(g, 4, 4)
    ensures g[0][0] * Cofactor(g, 0, 0) + g[0][1] * Cofactor(g, 0, 1)
          + g[0][2] * Cofactor(g, 0, 2) + g[0][3] * Cofactor(g, 0, 3) == Det(g)
  {
    Cofactor00Of4(g);
    Cofactor01Of4(g);
    Cofactor02Of4(g);
    Cofactor03Of4(g);
    DetOf4(g);
    RowByCofactors00(g[0][0], g[0][1], g[0][2], g[0][3],
        g[1][0], g[1][1], g[1][2], g[1][3],
        g[2][0], g[2][1], g[2][2], g[2][3],
        g[3][0], g[3][1], g[3][2], g[3][3]);
  }

  /** `ExpandRowByCofactors` for row 0 and the cofactors of row 1. */
  lemma RowByCofactorsCase01(g: Grid)
    requires IsMatrix(g, 4, 4)
    ensures g[0][0] * Cofactor(g, 1, 0) + g[0][1] * Cofactor(g, 1, 1)
          + g[0][2] * Cofactor(g, 1, 2) + g[0][3] * Cofactor(g, 1, 3) == 0.0
  {
    Cofactor10Of4(g);
    Cofactor11Of4(g);
    Cofactor12Of4(g);
    Cofactor13Of4(g);
    RowByCofactors01(g[0][0], g[0][1], g[0][2], g[0][3],
        g[1][0], g[1][1], g[1][2], g[1][3],
        g[2][0], g[2][1], g[2][2], g[2][3],
        g[3][0], g[3][1], g[3][2], g[3][3]);
  }

  /** `ExpandRowByCofactors` for row 0 and the cofactors of row 2. */
  lemma RowByCofactorsCase02(g: Grid)
    requires IsMatrix(g, 4, 4)
    ensures g[0][0] * Cofactor(g, 2, 0) + g[0][1] * Cofactor(g, 2, 1)
          + g[0][2] * Cofactor(g, 2, 2) + g[0][3] * Cofactor(g, 2, 3) == 0.0
  {
    Cofactor20Of4(g);
    Cofactor21Of4(g);
    Cofactor22Of4(g);
    Cofactor23Of4(g);
    RowByCofactors02(g[0][0], g[0][1], g[0][2], g[0][3],
        g[1][0], g[1][1], g[1][2], g[1][3],
        g[2][0], g[2][1], g[2][2], g[2][3],
        g[3][0], g[3][1], g[3][2], g[3][3]);
  }

  /** `ExpandRowByCofactors` for row 0 and the cofactors of row 3. */
  lemma RowByCofactorsCase03(g: Grid)
    requires IsMatrix(g, 4, 4)
    ensures g[0][0] * Cofactor(g, 3, 0) + g[0][1] * Cofactor(g, 3, 1)
          + g[0][2] * Cofactor(g, 3, 2) + g[0][3] * Cofactor(g, 3, 3) == 0.0
  {
    Cofactor30Of4(g);
    Cofactor31Of4(g);
    Cofactor32Of4(g);
    Cofactor33Of4(g);
    RowByCofactors03(g[0][0], g[0][1], g[0][2], g[0][3],
        g[1][0], g[1][1], g[1][2], g[1][3],
        g[2][0], g[2][1], g[2][2], g[2][3],
        g[3][0], g[3][1], g[3][2], g[3][3]);
  }

  /** `ExpandRowByCofactors` for row 1 and the cofactors of row 0. */
  lemma RowByCofactorsCase10(g: Grid)
    requires IsMatrix(g, 4, 4)
    ensures g[1][0] * Cofactor(g, 0, 0) + g[1][1] * Cofactor(g, 0, 1)
          + g[1][2] * Cofactor(g, 0, 2) + g[1][3] * Cofactor(g, 0, 3) == 0.0
  {
    Cofactor00Of4(g);
    Cofactor01Of4(g);
    Cofactor02Of4(g);
    Cofactor03Of4(g);
    RowByCofactors10(g[0][0], g[0][1], g[0][2], g[0][3],
        g[1][0], g[1][1], g[1][2], g[1][3],
        g[2][0], g[2][1], g[2][2], g[2][3],
        g[3][0], g[3][1], g[3][2], g[3][3]);
  }

  /** `ExpandRowByCofactors` for row 1 and the cofactors of row 1. */
  lemma RowByCofactorsCase11(g: Grid)
    requires IsMatrix(g, 4, 4)
    ensures g[1][0] * Cofactor(g, 1, 0) + g[1][1] * Cofactor(g, 1, 1)
          + g[1][2] * Cofactor(g, 1, 2) + g[1][3] * Cofactor(g, 1, 3) == Det(g)
  {
    Cofactor10Of4(g);
    Cofactor11Of4(g);
    Cofactor12Of4(g);
    Cofactor13Of4(g);
    DetOf4(g);
    RowByCofactors11(g[0][0], g[0][1], g[0][2], g[0][3],
        g[1][0], g[1][1], g[1][2], g[1][3],
        g[2][0], g[2][1], g[2][2], g[2][3],
        g[3][0], g[3][1], g[3][2], g[3][3]);
  }

  /** `ExpandRowByCofactors` for row 1 and the cofactors of row 2. */
  lemma RowByCofactorsCase12(g: Grid)
    requires IsMatrix(g, 4, 4)
    ensures g[1][0] * Cofactor(g, 2, 0) + g[1][1] * Cofactor(g, 2, 1)
          + g[1][2] * Cofactor(g, 2, 2) + g[1][3] * Cofactor(g, 2, 3) == 0.0
  {
    Cofactor20Of4(g);
    Cofactor21Of4(g);
    Cofactor22Of4(g);
    Cofactor23Of4(g);
    RowByCofactors12(g[0][0], g[0][1], g[0][2], g[0][3],
        g[1][0], g[1][1], g[1][2], g[1][3],
        g[2][0], g[2][1], g[2][2], g[2][3],
        g[3][0], g[3][1], g[3][2], g[3][3]);
  }

  /** `ExpandRowByCofactors` for row 1 and the cofactors of row 3. */
  lemma RowByCofactorsCase13(g: Grid)
    requires IsMatrix(g, 4, 4)
    ensures g[1][0] * Cofactor(g, 3, 0) + g[1][1] * Cofactor(g, 3, 1)
          + g[1][2] * Cofactor(g, 3, 2) + g[1][3] * Cofactor(g, 3, 3) == 0.0
  {
    Cofactor30Of4(g);
    Cofactor31Of4(g);
    Cofactor32Of4(g);
    Cofactor33Of4(g);
    RowByCofactors13(g[0][0], g[0][1], g[0][2], g[0][3],
        g[1][0], g[1][1], g[1][2], g[1][3],
        g[2][0], g[2][1], g[2][2], g[2][3],
        g[3][0], g[3][1], g[3][2], g[3][3]);
  }

  /** `ExpandRowByCofactors` for row 2 and the cofactors of row 0. */
  lemma RowByCofactorsCase20(g: Grid)
    requires IsMatrix(g, 4, 4)
    ensures g[2][0] * Cofactor(g, 0, 0) + g[2][1] * Cofactor(g, 0, 1)
          + g[2][2] * Cofactor(g, 0, 2) + g[2][3] * Cofactor(g, 0, 3) == 0.0
  {
    Cofactor00Of4(g);
    Cofactor01Of4(g);
    Cofactor02Of4(g);
    Cofactor03Of4(g);
    RowByCofactors20(g[0][0], g[0][1], g[0][2], g[0][3],
        g[1][0], g[1][1], g[1][2], g[1][3],
        g[2][0], g[2][1], g[2][2], g[2][3],
        g[3][0], g[3][1], g[3][2], g[3][3]);
  }

  /** `ExpandRowByCofactors` for row 2 and the cofactors of row 1. */
  lemma RowByCofactorsCase21(g: Grid)
    requires IsMatrix(g, 4, 4)
    ensures g[2][0] * Cofactor(g, 1, 0) + g[2][1] * Cofactor(g, 1, 1)
          + g[2][2] * Cofactor(g, 1, 2) + g[2][3] * Cofactor(g, 1, 3) == 0.0
  {
    Cofactor10Of4(g);
    Cofactor11Of4(g);
    Cofactor12Of4(g);
    Cofactor13Of4(g);
    RowByCofactors21(g[0][0], g[0][1], g[0][2], g[0][3],
        g[1][0], g[1][1], g[1][2], g[1][3],
        g[2][0], g[2][1], g[2][2], g[2][3],
        g[3][0], g[3][1], g[3][2], g[3][3]);
  }

  /** `ExpandRowByCofactors` for row 2 and the cofactors of row 2. */
  lemma RowByCofactorsCase22(g: Grid)
    requires IsMatrix(g, 4, 4)
    ensures g[2][0] * Cofactor(g, 2, 0) + g[2][1] * Cofactor(g, 2, 1)
          + g[2][2] * Cofactor(g, 2, 2) + g[2][3] * Cofactor(g, 2, 3) == Det(g)
  {
    Cofactor20Of4(g);
    Cofactor21Of4(g);
    Cofactor22Of4(g);
    Cofactor23Of4(g);
    DetOf4(g);
    RowByCofactors22(g[0][0], g[0][1], g[0][2], g[0][3],
        g[1][0], g[1][1], g[1][2], g[1][3],
        g[2][0], g[2][1], g[2][2], g[2][3],
        g[3][0], g[3][1], g[3][2], g[3][3]);
  }

  /** `ExpandRowByCofactors` for row 2 and the cofactors of row 3. */
  lemma RowByCofactorsCase23(g: Grid)
    requires IsMatrix(g, 4, 4)
    ensures g[2][0] * Cofactor(g, 3, 0) + g[2][1] * Cofactor(g, 3, 1)
          + g[2][2] * Cofactor(g, 3, 2) + g[2][3] * Cofactor(g, 3, 3) == 0.0
  {
    Cofactor30Of4(g);
    Cofactor31Of4(g);
    Cofactor32Of4(g);
    Cofactor33Of4(g);
    RowByCofactors23(g[0][0], g[0][1], g[0][2], g[0][3],
        g[1][0], g[1][1], g[1][2], g[1][3],
        g[2][0], g[2][1], g[2][2], g[2][3],
        g[3][0], g[3][1], g[3][2], g[3][3]);
  }

  /** `ExpandRowByCofactors` for row 3 and the cofactors of row 0. */
  lemma RowByCofactorsCase30(g: Grid)
    requires IsMatrix(g, 4, 4)
    ensures g[3][0] * Cofactor(g, 0, 0) + g[3][1] * Cofactor(g, 0, 1)
          + g[3][2] * Cofactor(g, 0, 2) + g[3][3] * Cofactor(g, 0, 3) == 0.0
  {
    Cofactor00Of4(g);
    Cofactor01Of4(g);
    Cofactor02Of4(g);
    Cofactor03Of4(g);
    RowByCofactors30(g[0][0], g[0][1], g[0][2], g[0][3],
        g[1][0], g[1][1], g[1][2], g[1][3],
        g[2][0], g[2][1], g[2][2], g[2][3],
        g[3][0], g[3][1], g[3][2], g[3][3]);
  }

  /** `ExpandRowByCofactors` for row 3 and the cofactors of row 1. */
  lemma RowByCofactorsCase31(g: Grid)
    requires IsMatrix(g, 4, 4)
    ensures g[3][0] * Cofactor(g, 1, 0) + g[3][1] * Cofactor(g, 1, 1)
          + g[3][2] * Cofactor(g, 1, 2) + g[3][3] * Cofactor(g, 1, 3) == 0.0
  {
    Cofactor10Of4(g);
    Cofactor11Of4(g);
    Cofactor12Of4(g);
    Cofactor13Of4(g);
    RowByCofactors31(g[0][0], g[0][1], g[0][2], g[0][3],
        g[1][0], g[1][1], g[1][2], g[1][3],
        g[2][0], g[2][1], g[2][2], g[2][3],
        g[3][0], g[3][1], g[3][2], g[3][3]);
  }

  /** `ExpandRowByCofactors` for row 3 and the cofactors of row 2. */
  lemma RowByCofactorsCase32(g: Grid)
    requires IsMatrix(g, 4, 4)
    ensures g[3][0] * Cofactor(g, 2, 0) + g[3][1] * Cofactor(g, 2, 1)
          + g[3][2] * Cofactor(g, 2, 2) + g[3][3] * Cofactor(g, 2, 3) == 0.0
  {
    Cofactor20Of4(g);
    Cofactor21Of4(g);
    Cofactor22Of4(g);
    Cofactor23Of4(g);
    RowByCofactors32(g[0][0], g[0][1], g[0][2], g[0][3],
        g[1][0], g[1][1], g[1][2], g[1][3],
        g[2][0], g[2][1], g[2][2], g[2][3],
        g[3][0], g[3][1], g[3][2], g[3][3]);
  }

  /** `ExpandRowByCofactors` for row 3 and the cofactors of row 3. */
  lemma RowByCofactorsCase33(g: Grid)
    requires IsMatrix(g, 4, 4)
    ensures g[3][0] * Cofactor(g, 3, 0) + g[3][1] * Cofactor(g, 3, 1)
          + g[3][2] * Cofactor(g, 3, 2) + g[3][3] * Cofactor(g, 3, 3) == Det(g)
  {
    Cofactor30Of4(g);
    Cofactor31Of4(g);
    Cofactor32Of4(g);
    Cofactor33Of4(g);
    DetOf4(g);
    RowByCofactors33(g[0][0], g[0][1], g[0][2], g[0][3],
        g[1][0], g[1][1], g[1][2], g[1][3],
        g[2][0], g[2][1], g[2][2], g[2][3],
        g[3][0], g[3][1], g[3][2], g[3][3]);
  }

  /** `ExpandColumnByCofactors` for column 0 and the cofactors of column 0. */
  lemma ColumnByCofactorsCase00(g: Grid)
    requires IsMatrix(g, 4, 4)
    ensures Cofactor(g, 0, 0) * g[0][0] + Cofactor(g, 1, 0) * g[1][0]
          + Cofactor(g, 2, 0) * g[2][0] + Cofactor(g, 3, 0) * g[3][0] == Det(g)
  {
    Cofactor00Of4(g);
    Cofactor10Of4(g);
    Cofactor20Of4(g);
    Cofactor30Of4(g);
    DetOf4(g);
    ColumnByCofactors00(g[0][0], g[0][1], g[0][2], g[0][3],
        g[1][0], g[1][1], g[1][2], g[1][3],
        g[2][0], g[2][1], g[2][2], g[2][3],
        g[3][0], g[3][1], g[3][2], g[3][3]);
  }

  /** `ExpandColumnByCofactors` for column 0 and the cofactors of column 1. */
  lemma ColumnByCofactorsCase01(g: Grid)
    requires IsMatrix(g, 4, 4)
    ensures Cofactor(g, 0, 1) * g[0][0] + Cofactor(g, 1, 1) * g[1][0]
          + Cofactor(g, 2, 1) * g[2][0] + Cofactor(g, 3, 1) * g[3][0] == 0.0
  {
    Cofactor01Of4(g);
    Cofactor11Of4(g);
    Cofactor21Of4(g);
    Cofactor31Of4(g);
    ColumnByCofactors01(g[0][0], g[0][1], g[0][2], g[0][3],
        g[1][0], g[1][1], g[1][2], g[1][3],
        g[2][0], g[2][1], g[2][2], g[2][3],
        g[3][0], g[3][1], g[3][2], g[3][3]);
  }

  /** `ExpandColumnByCofactors` for column 0 and the cofactors of column 2. */
  lemma ColumnByCofactorsCase02(g: Grid)
    requires IsMatrix(g, 4, 4)
    ensures Cofactor(g, 0, 2) * g[0][0] + Cofactor(g, 1, 2) * g[1][0]
          + Cofactor(g, 2, 2) * g[2][0] + Cofactor(g, 3, 2) * g[3][0] == 0.0
  {
    Cofactor02Of4(g);
    Cofactor12Of4(g);
    Cofactor22Of4(g);
    Cofactor32Of4(g);
    ColumnByCofactors02(g[0][0], g[0][1], g[0][2], g[0][3],
        g[1][0], g[1][1], g[1][2], g[1][3],
        g[2][0], g[2][1], g[2][2], g[2][3],
        g[3][0], g[3][1], g[3][2], g[3][3]);
  }

  /** `ExpandColumnByCofactors` for column 0 and the cofactors of column 3. */
  lemma ColumnByCofactorsCase03(g: Grid)
    requires IsMatrix(g, 4, 4)
    ensures Cofactor(g, 0, 3) * g[0][0] + Cofactor(g, 1, 3) * g[1][0]
          + Cofactor(g, 2, 3) * g[2][0] + Cofactor(g, 3, 3) * g[3][0] == 0.0
  {
    Cofactor03Of4(g);
    Cofactor13Of4(g);
    Cofactor23Of4(g);
    Cofactor33Of4(g);
    ColumnByCofactors03(g[0][0], g[0][1], g[0][2], g[0][3],
        g[1][0], g[1][1], g[1][2], g[1][3],
        g[2][0], g[2][1], g[2][2], g[2][3],
        g[3][0], g[3][1], g[3][2], g[3][3]);
  }

  /** `ExpandColumnByCofactors` for column 1 and the cofactors of column 0. */
  lemma ColumnByCofactorsCase10(g: Grid)
    requires IsMatrix(g, 4, 4)
    ensures Cofactor(g, 0, 0) * g[0][1] + Cofactor(g, 1, 0) * g[1][1]
          + Cofactor(g, 2, 0) * g[2][1] + Cofactor(g, 3, 0) * g[3][1] == 0.0
  {
    Cofactor00Of4(g);
    Cofactor10Of4(g);
    Cofactor20Of4(g);
    Cofactor30Of4(g);
    ColumnByCofactors10(g[0][0], g[0][1], g[0][2], g[0][3],
        g[1][0], g[1][1], g[1][2], g[1][3],
        g[2][0], g[2][1], g[2][2], g[2][3],
        g[3][0], g[3][1], g[3][2], g[3][3]);
  }

  /** `ExpandColumnByCofactors` for column 1 and the cofactors of column 1. */
  lemma ColumnByCofactorsCase11(g: Grid)
    requires IsMatrix(g, 4, 4)
    ensures Cofactor(g, 0, 1) * g[0][1] + Cofactor(g, 1, 1) * g[1][1]
          + Cofactor(g, 2, 1) * g[2][1] + Cofactor(g, 3, 1) * g[3][1] == Det(g)
  {
    Cofactor01Of4(g);
    Cofactor11Of4(g);
    Cofactor21Of4(g);
    Cofactor31Of4(g);
    DetOf4(g);
    ColumnByCofactors11(g[0][0], g[0][1], g[0][2], g[0][3],
        g[1][0], g[1][1], g[1][2], g[1][3],
        g[2][0], g[2][1], g[2][2], g[2][3],
        g[3][0], g[3][1], g[3][2], g[3][3]);
  }

  /** `ExpandColumnByCofactors` for column 1 and the cofactors of column 2. */
  lemma ColumnByCofactorsCase12(g: Grid)
    requires IsMatrix(g, 4, 4)
    ensures Cofactor(g, 0, 2) * g[0][1] + Cofactor(g, 1, 2) * g[1][1]
          + Cofactor(g, 2, 2) * g[2][1] + Cofactor(g, 3, 2) * g[3][1] == 0.0
  {
    Cofactor02Of4(g);
    Cofactor12Of4(g);
    Cofactor22Of4(g);
    Cofactor32Of4(g);
    ColumnByCofactors12(g[0][0], g[0][1], g[0][2], g[0][3],
        g[1][0], g[1][1], g[1][2], g[1][3],
        g[2][0], g[2][1], g[2][2], g[2][3],
        g[3][0], g[3][1], g[3][2], g[3][3]);
  }

  /** `ExpandColumnByCofactors` for column 1 and the cofactors of column 3. */
  lemma ColumnByCofactorsCase13(g: Grid)
    requires IsMatrix(g, 4, 4)
    ensures Cofactor(g, 0, 3) * g[0][1] + Cofactor(g, 1, 3) * g[1][1]
          + Cofactor(g, 2, 3) * g[2][1] + Cofactor(g, 3, 3) * g[3][1] == 0.0
  {
    Cofactor03Of4(g);
    Cofactor13Of4(g);
    Cofactor23Of4(g);
    Cofactor33Of4(g);
    ColumnByCofactors13(g[0][0], g[0][1], g[0][2], g[0][3],
        g[1][0], g[1][1], g[1][2], g[1][3],
        g[2][0], g[2][1], g[2][2], g[2][3],
        g[3][0], g[3][1], g[3][2], g[3][3]);
  }

  /** `ExpandColumnByCofactors` for column 2 and the cofactors of column 0. */
  lemma ColumnByCofactorsCase20(g: Grid)
    requires IsMatrix(g, 4, 4)
    ensures Cofactor(g, 0, 0) * g[0][2] + Cofactor(g, 1, 0) * g[1][2]
          + Cofactor(g, 2, 0) * g[2][2] + Cofactor(g, 3, 0) * g[3][2] == 0.0
  {
    Cofactor00Of4(g);
    Cofactor10Of4(g);
    Cofactor20Of4(g);
    Cofactor30Of4(g);
    ColumnByCofactors20(g[0][0], g[0][1], g[0][2], g[0][3],
        g[1][0], g[1][1], g[1][2], g[1][3],
        g[2][0], g[2][1], g[2][2], g[2][3],
        g[3][0], g[3][1], g[3][2], g[3][3]);
  }

  /** `ExpandColumnByCofactors` for column 2 and the cofactors of column 1. */
  lemma ColumnByCofactorsCase21(g: Grid)
    requires IsMatrix(g, 4, 4)
    ensures Cofactor(g, 0, 1) * g[0][2] + Cofactor(g, 1, 1) * g[1][2]
          + Cofactor(g, 2, 1) * g[2][2] + Cofactor(g, 3, 1) * g[3][2] == 0.0
  {
    Cofactor01Of4(g);
    Cofactor11Of4(g);
    Cofactor21Of4(g);
    Cofactor31Of4(g);
    ColumnByCofactors21(g[0][0], g[0][1], g[0][2], g[0][3],
        g[1][0], g[1][1], g[1][2], g[1][3],
        g[2][0], g[2][1], g[2][2], g[2][3],
        g[3][0], g[3][1], g[3][2], g[3][3]);
  }

  /** `ExpandColumnByCofactors` for column 2 and the cofactors of column 2. */
  lemma ColumnByCofactorsCase22(g: Grid)
    requires IsMatrix(g, 4, 4)
    ensures Cofactor(g, 0, 2) * g[0][2] + Cofactor(g, 1, 2) * g[1][2]
          + Cofactor(g, 2, 2) * g[2][2] + Cofactor(g, 3, 2) * g[3][2] == Det(g)
  {
    Cofactor02Of4(g);
    Cofactor12Of4(g);
    Cofactor22Of4(g);
    Cofactor32Of4(g);
    DetOf4(g);
    ColumnByCofactors22(g[0][0], g[0][1], g[0][2], g[0][3],
        g[1][0], g[1][1], g[1][2], g[1][3],
        g[2][0], g[2][1], g[2][2], g[2][3],
        g[3][0], g[3][1], g[3][2], g[3][3]);
  }

  /** `ExpandColumnByCofactors` for column 2 and the cofactors of column 3. */
  lemma ColumnByCofactorsCase23(g: Grid)
    requires IsMatrix(g, 4, 4)
    ensures Cofactor(g, 0, 3) * g[0][2] + Cofactor(g, 1, 3) * g[1][2]
          + Cofactor(g, 2, 3) * g[2][2] + Cofactor(g, 3, 3) * g[3][2] == 0.0
  {
    Cofactor03Of4(g);
    Cofactor13Of4(g);
    Cofactor23Of4(g);
    Cofactor33Of4(g);
    ColumnByCofactors23(g[0][0], g[0][1], g[0][2], g[0][3],
        g[1][0], g[1][1], g[1][2], g[1][3],
        g[2][0], g[2][1], g[2][2], g[2][3],
        g[3][0], g[3][1], g[3][2], g[3][3]);
  }

  /** `ExpandColumnByCofactors` for column 3 and the cofactors of column 0. */
  lemma ColumnByCofactorsCase30(g: Grid)
    requires IsMatrix(g, 4, 4)
    ensures Cofactor(g, 0, 0) * g[0][3] + Cofactor(g, 1, 0) * g[1][3]
          + Cofactor(g, 2, 0) * g[2][3] + Cofactor(g, 3, 0) * g[3][3] == 0.0
  {
    Cofactor00Of4(g);
    Cofactor10Of4(g);
    Cofactor20Of4(g);
    Cofactor30Of4(g);
    ColumnByCofactors30(g[0][0], g[0][1], g[0][2], g[0][3],
        g[1][0], g[1][1], g[1][2], g[1][3],
        g[2][0], g[2][1], g[2][2], g[2][3],
        g[3][0], g[3][1], g[3][2], g[3][3]);
  }

  /** `ExpandColumnByCofactors` for column 3 and the cofactors of column 1. */
  lemma ColumnByCofactorsCase31(g: Grid)
    requires IsMatrix(g, 4, 4)
    ensures Cofactor(g, 0, 1) * g[0][3] + Cofactor(g, 1, 1) * g[1][3]
          + Cofactor(g, 2, 1) * g[2][3] + Cofactor(g, 3, 1) * g[3][3] == 0.0
  {
    Cofactor01Of4(g);
    Cofactor11Of4(g);
    Cofactor21Of4(g);
    Cofactor31Of4(g);
    ColumnByCofactors31(g[0][0], g[0][1], g[0][2], g[0][3],
        g[1][0], g[1][1], g[1][2], g[1][3],
        g[2][0], g[2][1], g[2][2], g[2][3],
        g[3][0], g[3][1], g[3][2], g[3][3]);
  }

  /** `ExpandColumnByCofactors` for column 3 and the cofactors of column 2. */
  lemma ColumnByCofactorsCase32(g: Grid)
    requires IsMatrix(g, 4, 4)
    ensures Cofactor(g, 0, 2) * g[0][3] + Cofactor(g, 1, 2) * g[1][3]
          + Cofactor(g, 2, 2) * g[2][3] + Cofactor(g, 3, 2) * g[3][3] == 0.0
  {
    Cofactor02Of4(g);
    Cofactor12Of4(g);
    Cofactor22Of4(g);
    Cofactor32Of4(g);
    ColumnByCofactors32(g[0][0], g[0][1], g[0][2], g[0][3],
        g[1][0], g[1][1], g[1][2], g[1][3],
        g[2][0], g[2][1], g[2][2], g[2][3],
        g[3][0], g[3][1], g[3][2], g[3][3]);
  }

  /** `ExpandColumnByCofactors` for column 3 and the cofactors of column 3. */
  lemma ColumnByCofactorsCase33(g: Grid)
    requires IsMatrix(g, 4, 4)
    ensures Cofactor(g, 0, 3) * g[0][3] + Cofactor(g, 1, 3) * g[1][3]
          + Cofactor(g, 2, 3) * g[2][3] + Cofactor(g, 3, 3) * g[3][3] == Det(g)
  {
    Cofactor03Of4(g);
    Cofactor13Of4(g);
    Cofactor23Of4(g);
    Cofactor33Of4(g);
    DetOf4(g);
    ColumnByCofactors33(g[0][0], g[0][1], g[0][2], g[0][3],
        g[1][0], g[1][1], g[1][2], g[1][3],
        g[2][0], g[2][1], g[2][2], g[2][3],
        g[3][0], g[3][1], g[3][2], g[3][3]);
  }

  /** Row i of a 4x4 matrix expanded by the cofactors of row j: the determinant when
      i = j, and 0 otherwise. */
  lemma ExpandRowByCofactors(g: Grid, i: nat, j: nat)
    requires IsMatrix(g, 4, 4) && i < 4 && j < 4
    ensures g[i][0] * Cofactor(g, j, 0) + g[i][1] * Cofactor(g, j, 1)
          + g[i][2] * Cofactor(g, j, 2) + g[i][3] * Cofactor(g, j, 3)
         == if i == j then Det(g) else 0.0
  {
    if i == 0 {
      if j == 0 {
        RowByCofactorsCase00(g);
      } else if j == 1 {
        RowByCofactorsCase01(g);
      } else if j == 2 {
        RowByCofactorsCase02(g);
      } else {
        RowByCofactorsCase03(g);
      }
    } else if i == 1 {
      if j == 0 {
        RowByCofactorsCase10(g);
      } else if j == 1 {
        RowByCofactorsCase11(g);
      } else if j == 2 {
        RowByCofactorsCase12(g);
      } else {
        RowByCofactorsCase13(g);
      }
    } else if i == 2 {
      if j == 0 {
        RowByCofactorsCase20(g);
      } else if j == 1 {
        RowByCofactorsCase21(g);
      } else if j == 2 {
        RowByCofactorsCase22(g);
      } else {
        RowByCofactorsCase23(g);
      }
    } else {
      if j == 0 {
        RowByCofactorsCase30(g);
      } else if j == 1 {
        RowByCofactorsCase31(g);
      } else if j == 2 {
        RowByCofactorsCase32(g);
      } else {
        RowByCofactorsCase33(g);
      }
    }
  }

  /** Column j of a 4x4 matrix expanded by the cofactors of column i: the determinant when
      i = j, and 0 otherwise. */
  lemma ExpandColumnByCofactors(g: Grid, i: nat, j: nat)
    requires IsMatrix(g, 4, 4) && i < 4 && j < 4
    ensures Cofactor(g, 0, i) * g[0][j] + Cofactor(g, 1, i) * g[1][j]
          + Cofactor(g, 2, i) * g[2][j] + Cofactor(g, 3, i) * g[3][j]
         == if i == j then Det(g) else 0.0
  {
    if j == 0 {
      if i == 0 {
        ColumnByCofactorsCase00(g);
      } else if i == 1 {
        ColumnByCofactorsCase01(g);
      } else if i == 2 {
        ColumnByCofactorsCase02(g);
      } else {
        ColumnByCofactorsCase03(g);
      }
    } else if j == 1 {
      if i == 0 {
        ColumnByCofactorsCase10(g);
      } else if i == 1 {
        ColumnByCofactorsCase11(g);
      } else if i == 2 {
        ColumnByCofactorsCase12(g);
      } else {
        ColumnByCofactorsCase13(g);
      }
    } else if j == 2 {
      if i == 0 {
        ColumnByCofactorsCase20(g);
      } else if i == 1 {
        ColumnByCofactorsCase21(g);
      } else if i == 2 {
        ColumnByCofactorsCase22(g);
      } else {
        ColumnByCofactorsCase23(g);
      }
    } else {
      if i == 0 {
        ColumnByCofactorsCase30(g);
      } else if i == 1 {
        ColumnByCofactorsCase31(g);
      } else if i == 2 {
        ColumnByCofactorsCase32(g);
      } else {
        ColumnByCofactorsCase33(g);
      }
    }
  }

  /** The entries of the inverse of a 4x4 matrix: transposed cofactors over the determinant. */
  lemma Inverse4Entry(g: Grid, i: nat, j: nat)
    requires IsMatrix(g, 4, 4) && i < 4 && j < 4 && Det(g) != 0.0
    ensures Inverse(g).Some? && Inverse(g).value[i][j] == Cofactor(g, j, i) / Det(g)
  {
    CorrectionAgreesFromSize3(g);
  }

  /** A product entry whose right factor's column is a list of quotients over `d` whose
      numerators, against the row, sum to `d` or to zero. */
  lemma RowTimesQuotients(g: Grid, v: Grid, i: nat, j: nat, d: real, same: bool,
                          c0: real, c1: real, c2: real, c3: real)
    requires IsMatrix(g, 4, 4) && IsMatrix(v, 4, 4) && i < 4 && j < 4 && d != 0.0
    requires v[0][j] == c0 / d && v[1][j] == c1 / d && v[2][j] == c2 / d && v[3][j] == c3 / d
    requires g[i][0] * c0 + g[i][1] * c1 + g[i][2] * c2 + g[i][3] * c3 == if same then d else 0.0
    ensures Mul(g, v)[i][j] == if same then 1.0 else 0.0
  {
    Mul4Entry(g, v, i, j);
    SumOverDeterminant(g[i][0] * c0 + g[i][1] * c1 + g[i][2] * c2 + g[i][3] * c3, d, same);
  }

  /** A product entry whose left factor's row is a list of quotients over `d` whose
      numerators, against the column, sum to `d` or to zero. */
  lemma QuotientsTimesColumn(v: Grid, g: Grid, i: nat, j: nat, d: real, same: bool,
                             c0: real, c1: real, c2: real, c3: real)
    requires IsMatrix(g, 4, 4) && IsMatrix(v, 4, 4) && i < 4 && j < 4 && d != 0.0
    requires v[i][0] == c0 / d && v[i][1] == c1 / d && v[i][2] == c2 / d && v[i][3] == c3 / d
    requires c0 * g[0][j] + c1 * g[1][j] + c2 * g[2][j] + c3 * g[3][j] == if same then d else 0.0
    ensures Mul(v, g)[i][j] == if same then 1.0 else 0.0
  {
    Mul4Entry(v, g, i, j);
    SumOverDeterminant(c0 * g[0][j] + c1 * g[1][j] + c2 * g[2][j] + c3 * g[3][j], d, same);
  }

  /** v holds the cofactors of g, transposed and divided by the determinant. */
  predicate IsCofactorQuotient(g: Grid, v: Grid)
    requires IsMatrix(g, 4, 4) && IsMatrix(v, 4, 4) && Det(g) != 0.0
  {
    forall i, j :: 0 <= i < 4 && 0 <= j < 4 ==> v[i][j] == Cofactor(g, j, i) / Det(g)
  }

  /** `inverse(g)` of an invertible 4x4 matrix is its cofactor quotient. */
  lemma InverseIsCofactorQuotient(g: Grid)
    requires IsMatrix(g, 4, 4) && Det(g) != 0.0
    ensures Inverse(g).Some? && IsMatrix(Inverse(g).value, 4, 4)
    ensures IsCofactorQuotient(g, Inverse(g).value)
  {
    forall i, j | 0 <= i < 4 && 0 <= j < 4
      ensures Inverse(g).Some? && Inverse(g).value[i][j] == Cofactor(g, j, i) / Det(g)
    {
      Inverse4Entry(g, i, j);
    }
  }

  /** A sum that is the divisor or zero, divided: one or zero. */
  lemma SumOverDeterminant(sum: real, d: real, same: bool)
    requires d != 0.0 && sum == if same then d else 0.0
    ensures sum / d == if same then 1.0 else 0.0
  {
  }

  /** One entry of g times its cofactor quotient is an entry of the identity. */
  lemma RightQuotientEntry(g: Grid, v: Grid, i: nat, j: nat)
    requires IsMatrix(g, 4, 4) && IsMatrix(v, 4, 4) && i < 4 && j < 4 && Det(g) != 0.0
    requires IsCofactorQuotient(g, v)
    ensures Mul(g, v)[i][j] == if i == j then 1.0 else 0.0
  {
    ExpandRowByCofactors(g, i, j);
    RowTimesQuotients(g, v, i, j, Det(g), i == j,
      Cofactor(g, j, 0), Cofactor(g, j, 1), Cofactor(g, j, 2), Cofactor(g, j, 3));
  }

  /** One entry of the cofactor quotient of g times g is an entry of the identity. */
  lemma LeftQuotientEntry(g: Grid, v: Grid, i: nat, j: nat)
    requires IsMatrix(g, 4, 4) && IsMatrix(v, 4, 4) && i < 4 && j < 4 && Det(g) != 0.0
    requires IsCofactorQuotient(g, v)
    ensures Mul(v, g)[i][j] == if i == j then 1.0 else 0.0
  {
    ExpandColumnByCofactors(g, i, j);
    QuotientsTimesColumn(v, g, i, j, Det(g), i == j,
      Cofactor(g, 0, i), Cofactor(g, 1, i), Cofactor(g, 2, i), Cofactor(g, 3, i));
  }

  /** The inverse of a 4x4 matrix exists exactly when its determinant is not 0, and is then
      a two-sided inverse. */
  lemma Inverse4Inverts(g: Grid)
    requires IsMatrix(g, 4, 4)
    ensures Inverse(g).Some? <==> Det(g) != 0.0
    ensures Inverse(g).Some? ==>
              Mul(g, Inverse(g).value) == Identity() && Mul(Inverse(g).value, g) == Identity()
  {
    CorrectionAgreesFromSize3(g);
    if Det(g) != 0.0 {
      InverseIsCofactorQuotient(g);
      var v := Inverse(g).value;
      forall i, j | 0 <= i < 4 && 0 <= j < 4
        ensures Mul(g, v)[i][j] == Identity()[i][j] && Mul(v, g)[i][j] == Identity()[i][j]
      {
        RightQuotientEntry(g, v, i, j);
        LeftQuotientEntry(g, v, i, j);
      }
      GridExtensionality(Mul(g, v), Identity(), 4, 4);
      GridExtensionality(Mul(v, g), Identity(), 4, 4);
    }
  }

  /** The regrouped form of entry (i, j) of `a * b * c`. */
  function Triple(a: Grid, b: Grid, c: Grid, i: nat, j: nat): real
    requires IsMatrix(a, 4, 4) && IsMatrix(b, 4, 4) && IsMatrix(c, 4, 4) && i < 4 && j < 4
  {
    a[i][0] * (b[0][0] * c[0][j] + b[0][1] * c[1][j] + b[0][2] * c[2][j] + b[0][3] * c[3][j])
    + a[i][1] * (b[1][0] * c[0][j] + b[1][1] * c[1][j] + b[1][2] * c[2][j] + b[1][3] * c[3][j])
    + a[i][2] * (b[2][0] * c[0][j] + b[2][1] * c[1][j] + b[2][2] * c[2][j] + b[2][3] * c[3][j])
    + a[i][3] * (b[3][0] * c[0][j] + b[3][1] * c[1][j] + b[3][2] * c[2][j] + b[3][3] * c[3][j])
  }

  /** Entry (i, j) of `(a * b) * c` in regrouped form. */
  lemma LeftProductEntry(a: Grid, b: Grid, c: Grid, i: nat, j: nat)
    requires IsMatrix(a, 4, 4) && IsMatrix(b, 4, 4) && IsMatrix(c, 4, 4) && i < 4 && j < 4
    ensures Mul(Mul(a, b), c)[i][j] == Triple(a, b, c, i, j)
  {
    var ab := Mul(a, b);
    Mul4Entry(ab, c, i, j);
    Mul4Entry(a, b, i, 0);
    Mul4Entry(a, b, i, 1);
    Mul4Entry(a, b, i, 2);
    Mul4Entry(a, b, i, 3);
    RowRegroupNamed(ab[i][0], ab[i][1], ab[i][2], ab[i][3], a[i][0], a[i][1], a[i][2], a[i][3],
                    b[0][0], b[0][1], b[0][2], b[0][3], b[1][0], b[1][1], b[1][2], b[1][3],
                    b[2][0], b[2][1], b[2][2], b[2][3], b[3][0], b[3][1], b[3][2], b[3][3],
                    c[0][j], c[1][j], c[2][j], c[3][j]);
  }

  /** Entry (i, j) of `a * (b * c)` in regrouped form. */
  lemma RightProductEntry(a: Grid, b: Grid, c: Grid, i: nat, j: nat)
    requires IsMatrix(a, 4, 4) && IsMatrix(b, 4, 4) && IsMatrix(c, 4, 4) && i < 4 && j < 4
    ensures Mul(a, Mul(b, c))[i][j] == Triple(a, b, c, i, j)
  {
    var bc := Mul(b, c);
    Mul4Entry(a, bc, i, j);
    Mul4Entry(b, c, 0, j);
    Mul4Entry(b, c, 1, j);
    Mul4Entry(b, c, 2, j);
    Mul4Entry(b, c, 3, j);
    SubstituteSums(bc[0][j], bc[1][j], bc[2][j], bc[3][j], a[i][0], a[i][1], a[i][2], a[i][3],
                   b[0][0] * c[0][j] + b[0][1] * c[1][j] + b[0][2] * c[2][j] + b[0][3] * c[3][j],
                   b[1][0] * c[0][j] + b[1][1] * c[1][j] + b[1][2] * c[2][j] + b[1][3] * c[3][j],
                   b[2][0] * c[0][j] + b[2][1] * c[1][j] + b[2][2] * c[2][j] + b[2][3] * c[3][j],
                   b[3][0] * c[0][j] + b[3][1] * c[1][j] + b[3][2] * c[2][j] + b[3][3] * c[3][j]);
  }

  /** The 4x4 product is associative. */
  lemma MulAssociative(a: Grid, b: Grid, c: Grid)
    requires IsMatrix(a, 4, 4) && IsMatrix(b, 4, 4) && IsMatrix(c, 4, 4)
    ensures Mul(Mul(a, b), c) == Mul(a, Mul(b, c))
  {
    forall i, j | 0 <= i < 4 && 0 <= j < 4 ensures Mul(Mul(a, b), c)[i][j] == Mul(a, Mul(b, c))[i][j] {
      LeftProductEntry(a, b, c, i, j);
      RightProductEntry(a, b, c, i, j);
    }
    GridExtensionality(Mul(Mul(a, b), c), Mul(a, Mul(b, c)), 4, 4);
  }

  /** Multiplying a product by the inverse of its right factor gives the left factor back,
      as the matrix tests check. */
  lemma MulByInverseCancels(a: Grid, b: Grid)
    requires IsMatrix(a, 4, 4) && IsMatrix(b, 4, 4) && Det(b) != 0.0
    ensures Inverse(b).Some? && Mul(Mul(a, b), Inverse(b).value) == a
  {
    Inverse4Inverts(b);
    MulAssociative(a, b, Inverse(b).value);
    MulIdentity(a);
  }

  /** A matrix with non-zero determinant has only one inverse: any `h` with `g * h` the
      identity is `inverse(g)`. */
  lemma InverseUnique(g: Grid, h: Grid)
    requires IsMatrix(g, 4, 4) && IsMatrix(h, 4, 4) && Det(g) != 0.0
    requires Mul(g, h) == Identity()
    ensures Inverse(g) == Some(h)
  {
    Inverse4Inverts(g);
    var v := Inverse(g).value;
    MulAssociative(v, g, h);
    MulIdentity(v);
    MulIdentity(h);
  }

  /** Mapping a tuple through a matrix and then through its inverse, in either order, gives
      the tuple back. */
  lemma InverseMapsBack(g: Grid, t: Tuple)
    requires IsMatrix(g, 4, 4) && Det(g) != 0.0
    ensures Inverse(g).Some?
    ensures MulTuple(Inverse(g).value, MulTuple(g, t)) == t
    ensures MulTuple(g, MulTuple(Inverse(g).value, t)) == t
  {
    Inverse4Inverts(g);
    MulTupleAssociates(Inverse(g).value, g, t);
    MulTupleAssociates(g, Inverse(g).value, t);
    MulTupleIdentity(t);
  }
}
