/** The 4x4 transform matrices the converter writes out (`Matrix4x4`), and
    the order in which their sixteen entries are serialised. The entry type is
    left abstract: the serialisation only moves entries around. */
module Matrices {

  /** A 4x4 matrix with entries M11 .. M44 (row, column). */
  datatype Matrix4x4<T> = Matrix4x4(
    m11: T, m12: T, m13: T, m14: T,
    m21: T, m22: T, m23: T, m24: T,
    m31: T, m32: T, m33: T, m34: T,
    m41: T, m42: T, m43: T, m44: T)

  /** Entry (row, col), both counted from 0. */
  function Entry<T>(m: Matrix4x4<T>, row: nat, col: nat): T
    requires row < 4 && col < 4
  {
    match (row, col)
    case (0, 0) => m.m11 case (0, 1) => m.m12 case (0, 2) => m.m13 case (0, 3) => m.m14
    case (1, 0) => m.m21 case (1, 1) => m.m22 case (1, 2) => m.m23 case (1, 3) => m.m24
    case (2, 0) => m.m31 case (2, 1) => m.m32 case (2, 2) => m.m33 case (2, 3) => m.m34
    case (3, 0) => m.m41 case (3, 1) => m.m42 case (3, 2) => m.m43 case (3, 3) => m.m44
  }

  /** `GenerateMatrixArray` (and the value list `GenerateMatrixString` joins):
      the entries column by column, i.e. M11 M21 M31 M41 M12 ... M44. */
  function GenerateMatrixArray<T>(m: Matrix4x4<T>): (r: seq<T>)
    ensures |r| == 16
    ensures forall row: nat, col: nat :: row < 4 && col < 4 ==> r[4 * col + row] == Entry(m, row, col)
  {
    [m.m11, m.m21, m.m31, m.m41,
     m.m12, m.m22, m.m32, m.m42,
     m.m13, m.m23, m.m33, m.m43,
     m.m14, m.m24, m.m34, m.m44]
  }

  /** Reads sixteen column-major values back into a matrix. */
  function FromColumnMajor<T>(s: seq<T>): (m: Matrix4x4<T>)
    requires |s| == 16
    ensures forall row: nat, col: nat :: row < 4 && col < 4 ==> Entry(m, row, col) == s[4 * col + row]
  {
    Matrix4x4(s[0], s[4], s[8], s[12],
              s[1], s[5], s[9], s[13],
              s[2], s[6], s[10], s[14],
              s[3], s[7], s[11], s[15])
  }

  /** The natural row-by-row reading of a matrix. */
  function RowMajor<T>(m: Matrix4x4<T>): (r: seq<T>)
    ensures |r| == 16
    ensures forall row: nat, col: nat :: row < 4 && col < 4 ==> r[4 * row + col] == Entry(m, row, col)
  {
    [m.m11, m.m12, m.m13, m.m14,
     m.m21, m.m22, m.m23, m.m24,
     m.m31, m.m32, m.m33, m.m34,
     m.m41, m.m42, m.m43, m.m44]
  }

  /** Two matrices with the same entries are equal. */
  lemma EntriesDetermine<T>(a: Matrix4x4<T>, b: Matrix4x4<T>)
    requires forall row: nat, col: nat :: row < 4 && col < 4 ==> Entry(a, row, col) == Entry(b, row, col)
    ensures a == b
  {
    assert Entry(a, 0, 0) == Entry(b, 0, 0) && Entry(a, 0, 1) == Entry(b, 0, 1);
    assert Entry(a, 0, 2) == Entry(b, 0, 2) && Entry(a, 0, 3) == Entry(b, 0, 3);
    assert Entry(a, 1, 0) == Entry(b, 1, 0) && Entry(a, 1, 1) == Entry(b, 1, 1);
    assert Entry(a, 1, 2) == Entry(b, 1, 2) && Entry(a, 1, 3) == Entry(b, 1, 3);
    assert Entry(a, 2, 0) == Entry(b, 2, 0) && Entry(a, 2, 1) == Entry(b, 2, 1);
    assert Entry(a, 2, 2) == Entry(b, 2, 2) && Entry(a, 2, 3) == Entry(b, 2, 3);
    assert Entry(a, 3, 0) == Entry(b, 3, 0) && Entry(a, 3, 1) == Entry(b, 3, 1);
    assert Entry(a, 3, 2) == Entry(b, 3, 2) && Entry(a, 3, 3) == Entry(b, 3, 3);
  }

  /** The serialised values determine the matrix: reading them back column by
      column gives the original matrix, so no entry is lost or duplicated. */
  lemma ColumnMajorRoundTrip<T>(m: Matrix4x4<T>)
    ensures FromColumnMajor(GenerateMatrixArray(m)) == m
  {
    var s := GenerateMatrixArray(m);
    EntriesDetermine(FromColumnMajor(s), m);
  }

  /** The transposed matrix. */
  function Transpose<T>(m: Matrix4x4<T>): (t: Matrix4x4<T>)
    ensures forall row: nat, col: nat :: row < 4 && col < 4 ==> Entry(t, row, col) == Entry(m, col, row)
  {
    Matrix4x4(m.m11, m.m21, m.m31, m.m41,
              m.m12, m.m22, m.m32, m.m42,
              m.m13, m.m23, m.m33, m.m43,
              m.m14, m.m24, m.m34, m.m44)
  }

  /** The serialisation is the transpose of the natural reading: the values
      written for the transposed matrix are the matrix read row by row. */
  lemma SerialisationOfTranspose<T>(m: Matrix4x4<T>)
    ensures GenerateMatrixArray(Transpose(m)) == RowMajor(m)
  {
    var a, b := GenerateMatrixArray(Transpose(m)), RowMajor(m);
    forall p | 0 <= p < 16 ensures a[p] == b[p] {
      var col, row := p / 4, p % 4;
      assert a[4 * col + row] == Entry(Transpose(m), row, col);
      assert b[4 * col + row] == Entry(m, col, row);
    }
  }

  /** `Matrix4x4.Identity`. */
  function Identity(): Matrix4x4<real>
  {
    Matrix4x4(1.0, 0.0, 0.0, 0.0,
              0.0, 1.0, 0.0, 0.0,
              0.0, 0.0, 1.0, 0.0,
              0.0, 0.0, 0.0, 1.0)
  }
}
