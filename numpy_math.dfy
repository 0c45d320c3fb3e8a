/** The matrix helpers of src/blitz/common/util/math.py. A numpy 2-D array is
    a sequence of rows of reals; all rows of an array have the same length
    (`Rect`). numpy raises ValueError or IndexError where the helpers are
    given shapes they cannot handle: those are the `Err` side of a
    `Result`. */
module NumpyMath {
  import opened Wrappers

  datatype Error = ValueError | IndexError

  type Matrix = seq<seq<real>>

  /** The number of columns (zero for an array without rows). */
  function Cols(m: Matrix): nat
  {
    if |m| == 0 then 0 else |m[0]|
  }

  predicate Rect(m: Matrix)
  {
    forall i :: 0 <= i < |m| ==> |m[i]| == Cols(m)
  }

  predicate Shape(m: Matrix, rows: nat, cols: nat)
  {
    |m| == rows && forall i :: 0 <= i < rows ==> |m[i]| == cols
  }

  function Min(a: int, b: int): int
  {
    if a < b then a else b
  }

  function Max(a: int, b: int): int
  {
    if a < b then b else a
  }

  /** `np.eye(n)`. */
  function Eye(n: nat): (r: Matrix)
    ensures Shape(r, n, n)
    ensures forall i, j :: 0 <= i < n && 0 <= j < n ==> r[i][j] == if i == j then 1.0 else 0.0
  {
    seq(n, i requires 0 <= i < n => seq(n, j requires 0 <= j < n => if i == j then 1.0 else 0.0))
  }

  // ---- from_float_list ---------------------------------------------------------

  lemma RowArith(rows: nat, cols: nat)
    requires rows > 0
    ensures rows * cols - cols == (rows - 1) * cols
  {
  }

  /** `reshape(rows, cols)` of a flat list of `rows * cols` entries. */
  function Chunk(flat: seq<real>, rows: nat, cols: nat): (r: Matrix)
    requires |flat| == rows * cols
    ensures Shape(r, rows, cols)
  {
    if rows == 0 then []
    else
      RowArith(rows, cols);
      [flat[..cols]] + Chunk(flat[cols..], rows - 1, cols)
  }

  /** The rows laid end to end, numpy's row-major order. */
  function Flatten(m: Matrix): seq<real>
  {
    if m == [] then [] else m[0] + Flatten(m[1..])
  }

  /** Entry (i, j) of the reshaped list is entry `i * cols + j` of the list. */
  lemma {:induction false} ChunkEntry(flat: seq<real>, rows: nat, cols: nat, i: nat, j: nat)
    requires |flat| == rows * cols && i < rows && j < cols
    ensures i * cols + j < |flat|
    ensures Chunk(flat, rows, cols)[i][j] == flat[i * cols + j]
  {
    RowArith(rows, cols);
    assert Chunk(flat, rows, cols) == [flat[..cols]] + Chunk(flat[cols..], rows - 1, cols);
    if i == 0 {
      assert 0 <= (rows - 1) * cols;
      assert i * cols + j == j;
    } else {
      ChunkEntry(flat[cols..], rows - 1, cols, i - 1, j);
      RowArith(i, cols);
    }
  }

  /** Reshaping loses nothing: flattening gives the list back. */
  lemma {:induction false} FlattenChunk(flat: seq<real>, rows: nat, cols: nat)
    requires |flat| == rows * cols
    ensures Flatten(Chunk(flat, rows, cols)) == flat
  {
    if rows > 0 {
      RowArith(rows, cols);
      FlattenChunk(flat[cols..], rows - 1, cols);
      var c := Chunk(flat, rows, cols);
      assert c[1..] == Chunk(flat[cols..], rows - 1, cols);
      assert flat == flat[..cols] + flat[cols..];
    }
  }

  lemma ProductSigns(n: nat, rows: int, cols: int)
    requires n > 0 && n == rows * cols && rows >= 0
    ensures rows > 0 && cols > 0
  {
  }

  /** `from_float_list`: ValueError for an empty list or one whose length is
      not `rows * cols`; numpy's reshape raises ValueError too when the
      dimensions are negative. */
  function FromFloatList(flat: seq<real>, rows: int, cols: int): (r: Result<Matrix, Error>)
    ensures r.Ok? <==> |flat| > 0 && rows > 0 && cols > 0 && |flat| == rows * cols
    ensures r.Ok? ==> Shape(r.value, rows, cols)
  {
    if |flat| == 0 || |flat| != rows * cols then Err(ValueError)
    else if rows < 0 then Err(ValueError)
    else
      ProductSigns(|flat|, rows, cols);
      Ok(Chunk(flat, rows, cols))
  }

  /** A successful `from_float_list` has entry (i, j) = `flat[i * cols + j]`
      and flattens back to the list. */
  lemma FromFloatListEntries(flat: seq<real>, rows: int, cols: int)
    requires FromFloatList(flat, rows, cols).Ok?
    ensures forall i, j :: 0 <= i < rows && 0 <= j < cols ==>
      i * cols + j < |flat| && FromFloatList(flat, rows, cols).value[i][j] == flat[i * cols + j]
    ensures Flatten(FromFloatList(flat, rows, cols).value) == flat
  {
    forall i, j | 0 <= i < rows && 0 <= j < cols
      ensures i * cols + j < |flat| && FromFloatList(flat, rows, cols).value[i][j] == flat[i * cols + j]
    {
      ChunkEntry(flat, rows, cols, i, j);
    }
    FlattenChunk(flat, rows, cols);
  }

  // ---- Transformation matrices ---------------------------------------------------

  /** `create_transformation_matrix`: the identity with R written into the
      top-left 3×3 block and t into column 3 of rows 0-2. */
  function CreateTransformationMatrix(rotation: Matrix, translation: seq<real>): (r: Matrix)
    requires Shape(rotation, 3, 3) && |translation| == 3
    ensures Shape(r, 4, 4)
  {
    [rotation[0] + [translation[0]],
     rotation[1] + [translation[1]],
     rotation[2] + [translation[2]],
     [0.0, 0.0, 0.0, 1.0]]
  }

  /** The layout: R top-left, t in column 3, bottom row [0, 0, 0, 1]. */
  lemma TransformationLayout(rotation: Matrix, translation: seq<real>)
    requires Shape(rotation, 3, 3) && |translation| == 3
    ensures var m := CreateTransformationMatrix(rotation, translation);
      (forall i, j :: 0 <= i < 3 && 0 <= j < 3 ==> m[i][j] == rotation[i][j])
      && (forall i :: 0 <= i < 3 ==> m[i][3] == translation[i])
      && m[3] == [0.0, 0.0, 0.0, 1.0]
  {
    var m := CreateTransformationMatrix(rotation, translation);
    forall i, j | 0 <= i < 3 && 0 <= j < 3
      ensures m[i][j] == rotation[i][j]
    {
      assert m[i] == rotation[i] + [translation[i]];
    }
  }

  /** `get_translation_rotation_components`: column 3 of rows 0-2 and the
      top-left 3×3 block. Slices stop at the last row; a matrix of fewer
      than four columns has no column 3 (IndexError). */
  function GetTranslationRotation(m: Matrix): (r: Result<(seq<real>, Matrix), Error>)
    requires Rect(m)
    ensures r.Ok? <==> Cols(m) >= 4
    ensures r.Ok? ==> |r.value.0| == Min(3, |m|) && Shape(r.value.1, Min(3, |m|), 3)
    ensures r.Ok? ==> forall i :: 0 <= i < |r.value.0| ==> r.value.0[i] == m[i][3] && r.value.1[i] == m[i][..3]
  {
    if Cols(m) < 4 then Err(IndexError)
    else
      var n := Min(3, |m|);
      Ok((seq(n, i requires 0 <= i < n => m[i][3]), seq(n, i requires 0 <= i < n => m[i][..3])))
  }

  /** Taking a transformation matrix apart gives back what built it ... */
  lemma TransformationRoundTrip(rotation: Matrix, translation: seq<real>)
    requires Shape(rotation, 3, 3) && |translation| == 3
    ensures GetTranslationRotation(CreateTransformationMatrix(rotation, translation)) == Ok((translation, rotation))
  {
    var m := CreateTransformationMatrix(rotation, translation);
    var r := GetTranslationRotation(m).value;
    assert r.0 == translation;
    forall i | 0 <= i < 3
      ensures r.1[i] == rotation[i]
    {
      assert m[i] == rotation[i] + [translation[i]];
    }
    assert r.1 == rotation;
  }

  /** ... and a 4×4 matrix whose bottom row is [0, 0, 0, 1] is rebuilt from
      its parts. */
  lemma TransformationRebuild(m: Matrix)
    requires Shape(m, 4, 4) && m[3] == [0.0, 0.0, 0.0, 1.0]
    ensures GetTranslationRotation(m).Ok?
    ensures var parts := GetTranslationRotation(m).value;
      CreateTransformationMatrix(parts.1, parts.0) == m
  {
    var parts := GetTranslationRotation(m).value;
    var c := CreateTransformationMatrix(parts.1, parts.0);
    forall i | 0 <= i < 3
      ensures c[i] == m[i]
    {
      assert m[i] == m[i][..3] + [m[i][3]];
    }
  }

  // ---- swap_rotation_components ------------------------------------------------

  /** Where a Python slice `[:k]` of a length-n axis stops. */
  function SliceEnd(n: nat, k: int): (e: nat)
    ensures e <= n
  {
    if k >= 0 then Min(k, n) else Max(0, n + k)
  }

  /** `x` with its top-left p×q block taken from `y`. */
  function WithBlock(x: Matrix, y: Matrix, p: nat, q: nat): (r: Matrix)
    requires Rect(x) && Rect(y) && p <= |x| && p <= |y| && (p > 0 ==> q <= Cols(x) && q <= Cols(y))
    ensures |r| == |x| && Rect(r) && Cols(r) == Cols(x)
    ensures forall i, j :: 0 <= i < |x| && 0 <= j < Cols(x) ==>
      r[i][j] == if i < p && j < q then y[i][j] else x[i][j]
  {
    seq(|x|, i requires 0 <= i < |x| =>
      seq(|x[i]|, j requires 0 <= j < |x[i]| => if i < p && j < q then y[i][j] else x[i][j]))
  }

  /** `swap_rotation_components`: copies of both matrices with their top-left
      `k`×`k` blocks exchanged. When the two blocks differ in shape numpy
      cannot assign them (ValueError). */
  function SwapRotationComponents(one: Matrix, two: Matrix, k: int): (r: Result<(Matrix, Matrix), Error>)
    requires Rect(one) && Rect(two)
    ensures r.Ok? <==> SliceEnd(|one|, k) == SliceEnd(|two|, k) && SliceEnd(Cols(one), k) == SliceEnd(Cols(two), k)
  {
    var p := SliceEnd(|one|, k);
    var q := SliceEnd(Cols(one), k);
    if p != SliceEnd(|two|, k) || q != SliceEnd(Cols(two), k) then Err(ValueError)
    else Ok((WithBlock(one, two, p, q), WithBlock(two, one, p, q)))
  }

  /** The shapes are kept, the blocks trade places and every other entry
      stays where it was. */
  lemma SwapEntries(one: Matrix, two: Matrix, k: int)
    requires Rect(one) && Rect(two) && SwapRotationComponents(one, two, k).Ok?
    ensures var (a, b) := SwapRotationComponents(one, two, k).value;
      var p := SliceEnd(|one|, k);
      var q := SliceEnd(Cols(one), k);
      |a| == |one| && Rect(a) && Cols(a) == Cols(one) && |b| == |two| && Rect(b) && Cols(b) == Cols(two)
      && (forall i, j :: 0 <= i < |one| && 0 <= j < Cols(one) ==> a[i][j] == if i < p && j < q then two[i][j] else one[i][j])
      && (forall i, j :: 0 <= i < |two| && 0 <= j < Cols(two) ==> b[i][j] == if i < p && j < q then one[i][j] else two[i][j])
  {
  }

  /** Swapping twice gives both matrices back. */
  lemma SwapTwice(one: Matrix, two: Matrix, k: int)
    requires Rect(one) && Rect(two) && SwapRotationComponents(one, two, k).Ok?
    ensures var (a, b) := SwapRotationComponents(one, two, k).value;
      Rect(a) && Rect(b) && SwapRotationComponents(a, b, k) == Ok((one, two))
  {
    var (a, b) := SwapRotationComponents(one, two, k).value;
    var p := SliceEnd(|one|, k);
    var q := SliceEnd(Cols(one), k);
    assert SliceEnd(Cols(a), k) == q && SliceEnd(Cols(b), k) == q;
    var (c, d) := SwapRotationComponents(a, b, k).value;
    forall i | 0 <= i < |one|
      ensures c[i] == one[i]
    {
      assert |c[i]| == |one[i]|;
    }
    forall i | 0 <= i < |two|
      ensures d[i] == two[i]
    {
      assert |d[i]| == |two[i]|;
    }
    assert c == one && d == two;
  }

  // ---- Selecting rows and entries by flags ----------------------------------------

  /** The number of True flags. */
  function Count(flags: seq<bool>): nat
  {
    if flags == [] then 0 else Count(flags[..|flags| - 1]) + (if flags[|flags| - 1] then 1 else 0)
  }

  /** `[i for i, used in enumerate(flags) if used]`. */
  function Indices(flags: seq<bool>): (r: seq<nat>)
    ensures |r| == Count(flags)
    ensures forall k :: 0 <= k < |r| ==> r[k] < |flags| && flags[r[k]]
    ensures forall k, l :: 0 <= k < l < |r| ==> r[k] < r[l]
  {
    if flags == [] then []
    else
      var n := |flags| - 1;
      var rest := Indices(flags[..n]);
      if flags[n] then rest + [n] else rest
  }

  /** Every True flag's index is listed. */
  lemma {:induction false} IndicesComplete(flags: seq<bool>, i: nat)
    requires i < |flags| && flags[i]
    ensures i in Indices(flags)
  {
    var n := |flags| - 1;
    if i < n {
      IndicesComplete(flags[..n], i);
    }
  }

  /** `transform_matrix_to_size`: `matrix[indices, :]`, the rows whose flag is
      True, in order; an index past the last row is an IndexError. */
  function TransformMatrixToSize(flags: seq<bool>, m: Matrix): (r: Result<Matrix, Error>)
    ensures r.Ok? <==> forall i :: 0 <= i < |flags| && flags[i] ==> i < |m|
    ensures r.Ok? ==> (|r.value| == Count(flags)
                       && forall k :: 0 <= k < |r.value| ==> r.value[k] == m[Indices(flags)[k]])
  {
    var idx := Indices(flags);
    if exists k :: 0 <= k < |idx| && idx[k] >= |m| then
      Err(IndexError)
    else
      assert forall i :: 0 <= i < |flags| && flags[i] ==> i < |m| by {
        forall i | 0 <= i < |flags| && flags[i]
          ensures i < |m|
        {
          IndicesComplete(flags, i);
        }
      }
      Ok(seq(|idx|, k requires 0 <= k < |idx| => m[idx[k]]))
  }

  lemma {:induction false} CountAllTrue(flags: seq<bool>)
    requires forall i :: 0 <= i < |flags| ==> flags[i]
    ensures Count(flags) == |flags|
  {
    if flags != [] {
      CountAllTrue(flags[..|flags| - 1]);
    }
  }

  /** With every flag True and one flag per row, the whole matrix comes back. */
  lemma TransformMatrixAllTrue(flags: seq<bool>, m: Matrix)
    requires |flags| == |m| && forall i :: 0 <= i < |flags| ==> flags[i]
    ensures TransformMatrixToSize(flags, m) == Ok(m)
  {
    CountAllTrue(flags);
    var idx := Indices(flags);
    forall k | 0 <= k < |idx|
      ensures idx[k] == k
    {
      IndicesIdentity(idx, k);
    }
    var r := TransformMatrixToSize(flags, m);
    assert r.Ok?;
    assert r.value == m;
  }

  /** A strictly increasing list of n indices below n is 0, 1, ..., n - 1. */
  lemma {:induction false} IndicesIdentity(idx: seq<nat>, k: nat)
    requires forall l :: 0 <= l < |idx| ==> idx[l] < |idx|
    requires forall l, h :: 0 <= l < h < |idx| ==> idx[l] < idx[h]
    requires k < |idx|
    ensures idx[k] == k
  {
    AtLeastPosition(idx, k);
    AtMostPosition(idx, k);
  }

  lemma {:induction false} AtLeastPosition(idx: seq<nat>, k: nat)
    requires forall l, h :: 0 <= l < h < |idx| ==> idx[l] < idx[h]
    requires k < |idx|
    ensures idx[k] >= k
  {
    if k > 0 {
      AtLeastPosition(idx, k - 1);
    }
  }

  lemma {:induction false} AtMostPosition(idx: seq<nat>, k: nat)
    requires forall l :: 0 <= l < |idx| ==> idx[l] < |idx|
    requires forall l, h :: 0 <= l < h < |idx| ==> idx[l] < idx[h]
    requires k < |idx|
    ensures idx[k] <= k
    decreases |idx| - k
  {
    if k < |idx| - 1 {
      AtMostPosition(idx, k + 1);
    }
  }

  /** The entries of `v` whose flag is True, for equally long `v` and flags. */
  function Select(v: seq<real>, flags: seq<bool>): (r: seq<real>)
    requires |v| == |flags|
    ensures |r| == Count(flags)
  {
    if v == [] then []
    else
      var n := |v| - 1;
      Select(v[..n], flags[..n]) + (if flags[n] then [v[n]] else [])
  }

  lemma {:induction false} CountAppend(f: seq<bool>, g: seq<bool>)
    ensures Count(f + g) == Count(f) + Count(g)
  {
    if g != [] {
      var n := |g| - 1;
      assert (f + g)[..|f + g| - 1] == f + g[..n];
      CountAppend(f, g[..n]);
    } else {
      assert f + g == f;
    }
  }

  /** Selection works block by block. */
  lemma {:induction false} SelectAppend(v: seq<real>, f: seq<bool>, w: seq<real>, g: seq<bool>)
    requires |v| == |f| && |w| == |g|
    ensures Select(v + w, f + g) == Select(v, f) + Select(w, g)
  {
    if w == [] {
      assert v + w == v && f + g == f;
    } else {
      var n := |w| - 1;
      var last := if g[n] then [w[n]] else [];
      assert (v + w)[..|v + w| - 1] == v + w[..n];
      assert (f + g)[..|f + g| - 1] == f + g[..n];
      assert Select(v + w, f + g) == Select(v + w[..n], f + g[..n]) + last;
      SelectAppend(v, f, w[..n], g[..n]);
      assert Select(w, g) == Select(w[..n], g[..n]) + last;
    }
  }

  /** `transform_vector_to_size`: `zip` stops at the shorter of the two. */
  function TransformVectorToSize(v: seq<real>, flags: seq<bool>): (r: seq<real>)
    ensures |r| == Count(flags[..Min(|v|, |flags|)])
  {
    var n := Min(|v|, |flags|);
    Select(v[..n], flags[..n])
  }

  /** The kept entries are exactly those at the flagged indices, in order. */
  lemma {:induction false} SelectAtIndices(v: seq<real>, flags: seq<bool>)
    requires |v| == |flags|
    ensures forall k :: 0 <= k < Count(flags) ==> Select(v, flags)[k] == v[Indices(flags)[k]]
  {
    if v != [] {
      var n := |v| - 1;
      SelectAtIndices(v[..n], flags[..n]);
    }
  }

  /** For a vector at least as long as the flags, the vector selection keeps
      the entries at the indices the matrix selection keeps as rows. */
  lemma VectorMatchesMatrix(v: seq<real>, flags: seq<bool>)
    requires |v| >= |flags|
    ensures |TransformVectorToSize(v, flags)| == Count(flags)
    ensures forall k :: 0 <= k < Count(flags) ==> TransformVectorToSize(v, flags)[k] == v[Indices(flags)[k]]
  {
    assert flags[..|flags|] == flags;
    SelectAtIndices(v[..|flags|], flags);
  }
}
