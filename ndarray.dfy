/**
 * The part of numpy the converter relies on: an n-dimensional array is a
 * shape together with its elements laid out in row-major (C) order.
 */
module NdArrays {
  import opened Results

  /** Number of elements of an array of the given shape. */
  function Product(shape: seq<nat>): nat {
    if shape == [] then 1 else shape[0] * Product(shape[1..])
  }

  datatype Array = Array(shape: seq<nat>, flat: seq<int>)

  /** A numpy array: the buffer holds exactly one element per index. */
  type NdArray = a: Array | |a.flat| == Product(a.shape) witness Array([], [0])

  /** `s[::-1]` */
  function Reverse<T>(s: seq<T>): (r: seq<T>)
    ensures |r| == |s|
    ensures forall k :: 0 <= k < |s| ==> r[k] == s[|s| - 1 - k]
  {
    if s == [] then [] else Reverse(s[1..]) + [s[0]]
  }

  lemma {:induction false} ProductAppend(s: seq<nat>, n: nat)
    ensures Product(s + [n]) == Product(s) * n
  {
    if s != [] {
      calc {
        Product(s + [n]);
        { assert (s + [n])[1..] == s[1..] + [n]; }
        s[0] * Product(s[1..] + [n]);
        { ProductAppend(s[1..], n); }
        s[0] * (Product(s[1..]) * n);
      }
    }
  }

  lemma {:induction false} ProductReverse(s: seq<nat>)
    ensures Product(Reverse(s)) == Product(s)
  {
    if s != [] {
      ProductAppend(Reverse(s[1..]), s[0]);
      ProductReverse(s[1..]);
    }
  }

  /** `np.atleast_3d` as the converter applies it: a 2-D `(R, C)` array becomes `(R, C, 1)`. */
  function Promote(a: NdArray): (r: NdArray)
    ensures r.flat == a.flat
    ensures |a.shape| == 2 ==> r.shape == [a.shape[0], a.shape[1], 1]
    ensures |a.shape| != 2 ==> r == a
  {
    if |a.shape| == 2 then
      ProductAppend(a.shape, 1);
      Array(a.shape + [1], a.flat)
    else a
  }

  /** `a.reshape(extents)`: the same buffer read under new extents; fails when the counts differ. */
  function Reshape(a: NdArray, extents: seq<nat>): (r: Result<NdArray>)
    ensures r.Ok? <==> Product(extents) == |a.flat|
    ensures r.Ok? ==> r.value.shape == extents && r.value.flat == a.flat
    ensures r.Err? ==> r.error == ShapeMismatch(|a.flat|, extents)
  {
    if Product(extents) == |a.flat| then Ok(Array(extents, a.flat))
    else Err(ShapeMismatch(|a.flat|, extents))
  }

  predicate InBounds(shape: seq<nat>, idx: seq<nat>) {
    |idx| == |shape| && forall k :: 0 <= k < |idx| ==> idx[k] < shape[k]
  }

  /** Row-major position of a multi-index. */
  function Offset(shape: seq<nat>, idx: seq<nat>): nat
    requires |idx| == |shape|
  {
    if idx == [] then 0 else idx[0] * Product(shape[1..]) + Offset(shape[1..], idx[1..])
  }

  lemma {:induction false} OffsetBound(shape: seq<nat>, idx: seq<nat>)
    requires InBounds(shape, idx)
    ensures Offset(shape, idx) < Product(shape)
  {
    if idx != [] {
      var p := Product(shape[1..]);
      assert InBounds(shape[1..], idx[1..]);
      OffsetBound(shape[1..], idx[1..]);
      assert idx[0] * p + p <= shape[0] * p by {
        MulMonotone(idx[0] + 1, shape[0], p);
      }
    }
  }

  lemma MulMonotone(a: nat, b: nat, c: nat)
    requires a <= b
    ensures a * c <= b * c
  {}

  /** `a[idx]` for a full index. */
  function At(a: NdArray, idx: seq<nat>): int
    requires InBounds(a.shape, idx)
  {
    OffsetBound(a.shape, idx);
    a.flat[Offset(a.shape, idx)]
  }

  /** `a[i, :, :].flatten()`: the elements of sub-array `i`, in row-major order. */
  function SliceAt(a: NdArray, i: nat): (r: seq<int>)
    requires |a.shape| >= 3 && i < a.shape[0]
    ensures |r| == Product(a.shape[1..])
  {
    var p := Product(a.shape[1..]);
    MulMonotone(i + 1, a.shape[0], p);
    a.flat[i * p .. i * p + p]
  }

  /** Element `j` of sub-array `i` is flat element `i * Product(shape[1..]) + j`. */
  lemma SliceAtIndex(a: NdArray, i: nat, j: nat)
    requires |a.shape| >= 3 && i < a.shape[0] && j < Product(a.shape[1..])
    ensures i * Product(a.shape[1..]) + j < |a.flat|
    ensures SliceAt(a, i)[j] == a.flat[i * Product(a.shape[1..]) + j]
  {
    MulMonotone(i + 1, a.shape[0], Product(a.shape[1..]));
  }

  /** For three axes `(Z, Y, X)`: value `y * X + x` of sub-array `z` is voxel `[z][y][x]`. */
  lemma SliceAt3(a: NdArray, z: nat, y: nat, x: nat)
    requires |a.shape| == 3 && z < a.shape[0] && y < a.shape[1] && x < a.shape[2]
    ensures |SliceAt(a, z)| == a.shape[1] * a.shape[2]
    ensures y * a.shape[2] + x < |SliceAt(a, z)|
    ensures InBounds(a.shape, [z, y, x])
    ensures SliceAt(a, z)[y * a.shape[2] + x] == At(a, [z, y, x])
  {
    var s := a.shape;
    var t := [s[1], s[2]];
    assert s[1..] == t;
    assert Product([s[2]]) == s[2] by { assert [s[2]][1..] == []; }
    assert Product(t) == s[1] * s[2] by { assert t[1..] == [s[2]]; }
    assert [z, y, x] == [z] + [y, x];
    SliceAtElement(a, z, [y, x]);
    assert Offset([s[2]], [x]) == x by { assert [s[2]][1..] == [] && [x][1..] == []; }
    assert Offset(t, [y, x]) == y * s[2] + x by { assert t[1..] == [s[2]] && [y, x][1..] == [x]; }
  }

  /** `np.min`: the least element. */
  function Min(s: seq<int>): (m: int)
    requires s != []
    ensures m in s
    ensures forall k :: 0 <= k < |s| ==> m <= s[k]
  {
    if |s| == 1 then s[0]
    else
      var rest := Min(s[1..]);
      if s[0] <= rest then s[0] else rest
  }

  // ---------------------------------------------------------------------------
  // Properties of the operations above.

  /** The minimum of a constant array is that constant. */
  lemma MinOfConstant(s: seq<int>, c: int)
    requires s != [] && forall k :: 0 <= k < |s| ==> s[k] == c
    ensures Min(s) == c
  {}

  /** Reshaping keeps the buffer: element `idx` of the result is flat element `Offset(extents, idx)`. */
  lemma ReshapeReinterprets(a: NdArray, extents: seq<nat>, idx: seq<nat>)
    requires Reshape(a, extents).Ok? && InBounds(extents, idx)
    ensures Offset(extents, idx) < |a.flat|
    ensures At(Reshape(a, extents).value, idx) == a.flat[Offset(extents, idx)]
  {
    OffsetBound(extents, idx);
  }

  /** Promotion keeps every element: `atleast_3d(a)[i][j][0] == a[i][j]`. */
  lemma PromoteElement(a: NdArray, i: nat, j: nat)
    requires |a.shape| == 2 && i < a.shape[0] && j < a.shape[1]
    ensures InBounds(a.shape, [i, j]) && InBounds(Promote(a).shape, [i, j, 0])
    ensures At(Promote(a), [i, j, 0]) == At(a, [i, j])
  {
    var r, c := a.shape[0], a.shape[1];
    assert a.shape == [r, c];
    assert [c][1..] == [] && [j][1..] == [];
    assert Product([c]) == c * Product([]) == c;
    assert Offset([c], [j]) == j * Product([]) + Offset([], []) == j;
    assert a.shape[1..] == [c] && [i, j][1..] == [j];
    assert Offset(a.shape, [i, j]) == i * c + j;
    Offset3(i, j, 0, r, c, 1);
    assert Promote(a).shape == [r, c, 1];
  }

  /** Three-axis row-major layout: `[z][y][x]` sits at `(z * Y + y) * X + x`. */
  lemma {:induction false} Offset3(z: nat, y: nat, x: nat, nz: nat, ny: nat, nx: nat)
    ensures Offset([nz, ny, nx], [z, y, x]) == (z * ny + y) * nx + x
  {
    assert [nz, ny, nx][1..] == [ny, nx];
    assert [ny, nx][1..] == [nx];
    assert [nx][1..] == [];
    assert [z, y, x][1..] == [y, x];
    assert [y, x][1..] == [x];
    assert [x][1..] == [];
    assert Product([nx]) == nx;
    assert Product([ny, nx]) == ny * nx;
    assert Offset([nx], [x]) == x;
    assert Offset([ny, nx], [y, x]) == y * nx + x;
    assert Offset([nz, ny, nx], [z, y, x]) == z * (ny * nx) + (y * nx + x);
    assert z * (ny * nx) == (z * ny) * nx;
  }

  /** Element `rest` of sub-array `i` is element `[i] + rest` of the whole array. */
  lemma SliceAtElement(a: NdArray, i: nat, rest: seq<nat>)
    requires |a.shape| >= 3 && InBounds(a.shape, [i] + rest)
    ensures InBounds(a.shape[1..], rest)
    ensures Offset(a.shape[1..], rest) < |SliceAt(a, i)|
    ensures SliceAt(a, i)[Offset(a.shape[1..], rest)] == At(a, [i] + rest)
  {
    var idx := [i] + rest;
    var p := Product(a.shape[1..]);
    assert idx[1..] == rest;
    assert InBounds(a.shape[1..], rest) by {
      forall k | 0 <= k < |rest| ensures rest[k] < a.shape[1..][k] {
        assert rest[k] == idx[k + 1];
      }
    }
    OffsetBound(a.shape[1..], rest);
    var o := Offset(a.shape[1..], rest);
    assert Offset(a.shape, idx) == i * p + o;
    MulMonotone(i + 1, a.shape[0], p);
    assert SliceAt(a, i) == a.flat[i * p .. i * p + p];
    assert SliceAt(a, i)[o] == a.flat[i * p + o];
  }
}
