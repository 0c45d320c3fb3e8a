/** `MatrixUtil` and `VectorUtil` of src/config/util/math.ts, which build the
    Thrift `GenericMatrix` and `GenericVector` records of the configuration.
    TypeScript numbers are reals here. */
module ConfigMath {
  import opened Wrappers
  import NumpyMath

  datatype GenericMatrix = GenericMatrix(values: seq<seq<real>>, rows: int, cols: int)

  datatype GenericVector = GenericVector(values: seq<real>, size: int)

  /** Reading `.length` of `array[0]` on an empty array throws. */
  datatype Error = TypeError

  /** `createTransformationMatrix3D`: a 4×4 matrix whose top-left block is the
      TRANSPOSE of the rotation (`values[i][j] = rotation.values[j][i]`),
      whose column 3 holds the translation and whose bottom row is
      [0, 0, 0, 1]. Entries past the first three rows, columns and
      translation values are not read. */
  function CreateTransformationMatrix3D(rotation: GenericMatrix, translation: GenericVector): (r: GenericMatrix)
    requires |rotation.values| >= 3 && forall i :: 0 <= i < 3 ==> |rotation.values[i]| >= 3
    requires |translation.values| >= 3
    ensures r.rows == 4 && r.cols == 4 && NumpyMath.Shape(r.values, 4, 4)
    ensures forall i, j :: 0 <= i < 3 && 0 <= j < 3 ==> r.values[i][j] == rotation.values[j][i]
    ensures forall i :: 0 <= i < 3 ==> r.values[i][3] == translation.values[i]
    ensures r.values[3] == [0.0, 0.0, 0.0, 1.0]
  {
    var R := rotation.values;
    var t := translation.values;
    GenericMatrix(
      [[R[0][0], R[1][0], R[2][0], t[0]],
       [R[0][1], R[1][1], R[2][1], t[1]],
       [R[0][2], R[1][2], R[2][2], t[2]],
       [0.0, 0.0, 0.0, 1.0]],
      4, 4)
  }

  /** The transpose of the top-left 3×3 block. */
  function Transpose3(m: seq<seq<real>>): (r: NumpyMath.Matrix)
    requires |m| >= 3 && forall i :: 0 <= i < 3 ==> |m[i]| >= 3
    ensures NumpyMath.Shape(r, 3, 3)
    ensures forall i, j :: 0 <= i < 3 && 0 <= j < 3 ==> r[i][j] == m[j][i]
  {
    seq(3, i requires 0 <= i < 3 => seq(3, j requires 0 <= j < 3 => m[j][i]))
  }

  /** The TypeScript builder and numpy's `create_transformation_matrix` lay
      the matrix out alike, except that the TypeScript one transposes the
      rotation first. */
  lemma TransformationMatchesNumpy(rotation: GenericMatrix, translation: GenericVector)
    requires |rotation.values| >= 3 && forall i :: 0 <= i < 3 ==> |rotation.values[i]| >= 3
    requires |translation.values| >= 3
    ensures CreateTransformationMatrix3D(rotation, translation).values
         == NumpyMath.CreateTransformationMatrix(Transpose3(rotation.values), translation.values[..3])
  {
    var a := CreateTransformationMatrix3D(rotation, translation).values;
    var b := NumpyMath.CreateTransformationMatrix(Transpose3(rotation.values), translation.values[..3]);
    NumpyMath.TransformationLayout(Transpose3(rotation.values), translation.values[..3]);
    forall i | 0 <= i < 4
      ensures a[i] == b[i]
    {
      if i < 3 {
        assert |a[i]| == |b[i]| == 4;
        forall j | 0 <= j < 4
          ensures a[i][j] == b[i][j]
        {
        }
      }
    }
  }

  /** `buildMatrix`: the rows as given, `rows` their number and `cols` the
      length of the first; an empty array throws. */
  function BuildMatrix(arr: seq<seq<real>>): (r: Result<GenericMatrix, Error>)
    ensures r.Err? <==> arr == []
    ensures r.Ok? ==> r.value.values == arr && r.value.rows == |arr| && r.value.cols == |arr[0]|
  {
    if arr == [] then Err(TypeError)
    else Ok(GenericMatrix(arr, |arr|, |arr[0]|))
  }

  /** For a rectangular array the recorded dimensions are its true shape. */
  lemma BuildMatrixShape(arr: seq<seq<real>>)
    requires arr != [] && NumpyMath.Rect(arr)
    ensures var m := BuildMatrix(arr).value;
      m.rows >= 0 && m.cols >= 0 && NumpyMath.Shape(m.values, m.rows, m.cols)
  {
  }

  /** `buildMatrixFromDiagonal`: |d|×|d|, `d[i]` on the diagonal and 0
      elsewhere. */
  function BuildMatrixFromDiagonal(d: seq<real>): (r: GenericMatrix)
    ensures r.rows == |d| && r.cols == |d| && NumpyMath.Shape(r.values, |d|, |d|)
    ensures forall i, j :: 0 <= i < |d| && 0 <= j < |d| ==> r.values[i][j] == if i == j then d[i] else 0.0
  {
    var n := |d|;
    GenericMatrix(seq(n, i requires 0 <= i < n => seq(n, j requires 0 <= j < n => if i == j then d[i] else 0.0)), n, n)
  }

  /** The diagonal of a square matrix. */
  function Diagonal(m: seq<seq<real>>, n: nat): (r: seq<real>)
    requires NumpyMath.Shape(m, n, n)
    ensures |r| == n && forall i :: 0 <= i < n ==> r[i] == m[i][i]
  {
    seq(n, i requires 0 <= i < n => m[i][i])
  }

  /** The diagonal of the built matrix is the given one, and a diagonal of
      ones builds the identity. */
  lemma DiagonalRoundTrip(d: seq<real>)
    ensures Diagonal(BuildMatrixFromDiagonal(d).values, |d|) == d
    ensures (forall i :: 0 <= i < |d| ==> d[i] == 1.0) ==> BuildMatrixFromDiagonal(d).values == NumpyMath.Eye(|d|)
  {
    var m := BuildMatrixFromDiagonal(d).values;
    if forall i :: 0 <= i < |d| ==> d[i] == 1.0 {
      var e := NumpyMath.Eye(|d|);
      forall i | 0 <= i < |d|
        ensures m[i] == e[i]
      {
      }
    }
  }

  /** `VectorUtil.fromArray`: the array and its length. */
  function FromArray(arr: seq<real>): (r: GenericVector)
    ensures r.values == arr && r.size == |arr|
  {
    GenericVector(arr, |arr|)
  }
}
