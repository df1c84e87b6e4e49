/**
 * Exact linear algebra over `real` for the permutation subsystem: dot products,
 * matrix products, transposes, one-hot encodings, permutation matrices and
 * block-diagonal composition, each also in a batched form (one matrix per
 * exercise, the leading tensor dimension).
 *
 * The repository's `block_diagonal` and `custom_matmul` helpers are not part of
 * this model; `BlockDiagonal` and `BatchMatMul` are the standard definitions.
 */
module Matrices {

  type Vector = seq<real>
  type Matrix = seq<seq<real>>
  /** A stack of matrices indexed by exercise: a tensor of rank 3. */
  type Tensor = seq<Matrix>

  // ---------------------------------------------------------------- shapes

  /** Every row of `m` has `cols` entries. */
  predicate Rect(m: Matrix, cols: nat)
  {
    forall i :: 0 <= i < |m| ==> |m[i]| == cols
  }

  predicate IsSquare(m: Matrix, n: nat)
  {
    |m| == n && Rect(m, n)
  }

  /** The number of columns of a rectangular matrix (0 for a matrix without rows). */
  function Width(m: Matrix): nat
  {
    if |m| == 0 then 0 else |m[0]|
  }

  predicate IsRect(m: Matrix)
  {
    Rect(m, Width(m))
  }

  lemma SquareWidth(m: Matrix, n: nat)
    requires IsSquare(m, n)
    ensures Width(m) == n && IsRect(m)
  {
  }

  // ---------------------------------------------------------------- products

  function Dot(u: Vector, v: Vector): real
    requires |u| == |v|
  {
    if |u| == 0 then 0.0 else u[0] * v[0] + Dot(u[1..], v[1..])
  }

  function Column(m: Matrix, j: nat): Vector
    requires forall i :: 0 <= i < |m| ==> j < |m[i]|
  {
    seq(|m|, i requires 0 <= i < |m| => m[i][j])
  }

  /** The matrix product `a · b`. */
  function MatMul(a: Matrix, b: Matrix): (c: Matrix)
    requires Rect(a, |b|) && IsRect(b)
    ensures |c| == |a| && Rect(c, Width(b))
  {
    seq(|a|, i requires 0 <= i < |a| =>
      seq(Width(b), j requires 0 <= j < Width(b) => Dot(a[i], Column(b, j))))
  }

  function Transpose(m: Matrix): (t: Matrix)
    requires IsRect(m)
    ensures |t| == Width(m) && Rect(t, |m|)
  {
    seq(Width(m), j requires 0 <= j < Width(m) => Column(m, j))
  }

  lemma TransposeSquare(m: Matrix, n: nat)
    requires IsSquare(m, n)
    ensures IsSquare(Transpose(m), n) && IsRect(Transpose(m))
    ensures forall i, j :: 0 <= i < n && 0 <= j < n ==> Transpose(m)[i][j] == m[j][i]
  {
  }

  // ---------------------------------------------------------------- one-hot rows and permutation matrices

  /** `v` is the unit vector with its single 1 at `j`: one 1, and 0 everywhere else. */
  predicate UnitAt(v: Vector, j: int)
  {
    0 <= j < |v| && v[j] == 1.0 && forall k :: 0 <= k < |v| && k != j ==> v[k] == 0.0
  }

  /**
   * `m` is an n×n permutation matrix: every row and every column holds exactly
   * one 1, and every other entry is 0.
   */
  ghost predicate IsPermMatrix(m: Matrix, n: nat)
  {
    && IsSquare(m, n)
    && (forall i :: 0 <= i < n ==> RowIsUnit(m, n, i))
    && (forall j :: 0 <= j < n ==> ColumnIsUnit(m, n, j))
  }

  /** Row `i` of the n×n matrix `m` is a unit vector. */
  ghost predicate RowIsUnit(m: Matrix, n: nat, i: nat)
    requires IsSquare(m, n) && i < n
  {
    exists j :: 0 <= j < n && UnitAt(m[i], j)
  }

  /** Column `j` of the n×n matrix `m` is a unit vector. */
  ghost predicate ColumnIsUnit(m: Matrix, n: nat, j: nat)
    requires IsSquare(m, n) && j < n
  {
    exists i :: 0 <= i < n && UnitAt(Column(m, j), i)
  }

  lemma {:induction false} DotZero(u: Vector, v: Vector)
    requires |u| == |v|
    requires forall k :: 0 <= k < |v| ==> v[k] == 0.0
    ensures Dot(u, v) == 0.0
  {
    if |u| > 0 {
      DotZero(u[1..], v[1..]);
    }
  }

  /** A dot product with a unit vector selects one coordinate. */
  lemma {:induction false} DotUnit(u: Vector, v: Vector, j: nat)
    requires |u| == |v| && UnitAt(v, j)
    ensures Dot(u, v) == u[j]
  {
    if j == 0 {
      DotZero(u[1..], v[1..]);
    } else {
      assert UnitAt(v[1..], j - 1);
      DotUnit(u[1..], v[1..], j - 1);
    }
  }

  /**
   * Multiplying by a permutation matrix and then by its transpose gives back
   * the original matrix: `(x · P) · Pᵀ == x`.
   */
  lemma PermuteThenTranspose(x: Matrix, p: Matrix, n: nat)
    requires IsPermMatrix(p, n) && Rect(x, n)
    ensures MatMul(MatMul(x, p), Transpose(p)) == x
  {
    SquareWidth(p, n);
    TransposeSquare(p, n);
    var t := Transpose(p);
    var y := MatMul(x, p);
    var z := MatMul(y, t);
    forall r | 0 <= r < |x|
      ensures z[r] == x[r]
    {
      forall i | 0 <= i < n
        ensures z[r][i] == x[r][i]
      {
        assert RowIsUnit(p, n, i);
        var j :| 0 <= j < n && UnitAt(p[i], j);
        assert Column(t, i) == p[i];
        DotUnit(y[r], p[i], j);
        assert ColumnIsUnit(p, n, j);
        var k :| 0 <= k < n && UnitAt(Column(p, j), k);
        DotUnit(x[r], Column(p, j), k);
        assert Column(p, j)[i] == 1.0;
      }
    }
  }

  /** The other direction: `(x · Pᵀ) · P == x`, so `Pᵀ` is the two-sided inverse of `P`. */
  lemma TransposeThenPermute(x: Matrix, p: Matrix, n: nat)
    requires IsPermMatrix(p, n) && Rect(x, n)
    ensures MatMul(MatMul(x, Transpose(p)), p) == x
  {
    SquareWidth(p, n);
    TransposeSquare(p, n);
    var t := Transpose(p);
    var y := MatMul(x, t);
    var z := MatMul(y, p);
    forall r | 0 <= r < |x|
      ensures z[r] == x[r]
    {
      forall j | 0 <= j < n
        ensures z[r][j] == x[r][j]
      {
        assert ColumnIsUnit(p, n, j);
        var k :| 0 <= k < n && UnitAt(Column(p, j), k);
        DotUnit(y[r], Column(p, j), k);
        assert Column(t, k) == p[k];
        assert RowIsUnit(p, n, k);
        var j' :| 0 <= j' < n && UnitAt(p[k], j');
        DotUnit(x[r], p[k], j');
        assert p[k][j] == 1.0;
      }
    }
  }

  // ---------------------------------------------------------------- permutations as index sequences

  /** `p` lists each of 0, 1, ..., n-1 exactly once (the output of shuffling `range(n)`). */
  predicate IsPermutation(p: seq<int>, n: nat)
  {
    && |p| == n
    && (forall i :: 0 <= i < n ==> 0 <= p[i] < n)
    && (forall i, k :: 0 <= i < k < n ==> p[i] != p[k])
  }

  function Interval(n: nat): (s: set<int>)
    ensures forall x :: x in s <==> 0 <= x < n
  {
    if n == 0 then {} else Interval(n - 1) + {n - 1}
  }

  function Image(p: seq<int>, m: nat): set<int>
    requires m <= |p|
  {
    set k | 0 <= k < m :: p[k]
  }

  lemma {:induction false} IntervalCard(n: nat)
    ensures |Interval(n)| == n
  {
    if n > 0 {
      IntervalCard(n - 1);
    }
  }

  lemma {:induction false} ImageCard(p: seq<int>, n: nat, m: nat)
    requires IsPermutation(p, n) && m <= n
    ensures |Image(p, m)| == m
  {
    if m > 0 {
      ImageCard(p, n, m - 1);
      assert Image(p, m) == Image(p, m - 1) + {p[m - 1]};
      assert p[m - 1] !in Image(p, m - 1);
    }
  }

  lemma SubsetOfEqualSize(a: set<int>, b: set<int>)
    requires a <= b && |a| == |b|
    ensures a == b
  {
    var d := b - a;
    assert a + d == b;
    assert a * d == {};
    assert |d| == 0;
    assert b == a + d;
  }

  /** A permutation takes every value of the interval: each j < n is p[k] for some k. */
  lemma PermutationOnto(p: seq<int>, n: nat, j: int)
    requires IsPermutation(p, n) && 0 <= j < n
    ensures exists k :: 0 <= k < n && p[k] == j
  {
    ImageCard(p, n, n);
    IntervalCard(n);
    SubsetOfEqualSize(Image(p, n), Interval(n));
    assert j in Interval(n);
    assert j in Image(p, n);
  }

  /**
   * `tf.one_hot(indices, depth)`: row i has its 1 at column `indices[i]`, and
   * is all zeros when that index lies outside `[0, depth)`.
   */
  function OneHot(indices: seq<int>, depth: nat): (m: Matrix)
    ensures |m| == |indices| && Rect(m, depth)
    ensures forall i :: 0 <= i < |indices| && 0 <= indices[i] < depth ==> UnitAt(m[i], indices[i])
    ensures forall i, j :: 0 <= i < |indices| && 0 <= j < depth && !(0 <= indices[i] < depth) ==> m[i][j] == 0.0
  {
    seq(|indices|, i requires 0 <= i < |indices| =>
      seq(depth, j requires 0 <= j < depth => if indices[i] == j then 1.0 else 0.0))
  }

  /** The one-hot encoding of a permutation is a permutation matrix. */
  lemma OneHotOfPermutation(p: seq<int>, n: nat)
    requires IsPermutation(p, n)
    ensures IsPermMatrix(OneHot(p, n), n)
  {
    var m := OneHot(p, n);
    forall i | 0 <= i < n
      ensures RowIsUnit(m, n, i)
    {
      assert UnitAt(m[i], p[i]);
    }
    forall j | 0 <= j < n
      ensures ColumnIsUnit(m, n, j)
    {
      PermutationOnto(p, n, j);
      var k :| 0 <= k < n && p[k] == j;
      assert UnitAt(Column(m, j), k);
    }
  }

  // ---------------------------------------------------------------- block-diagonal composition

  /** The square matrix with `a` in its upper-left block, `b` in its lower-right block and 0 elsewhere. */
  function BlockDiag2(a: Matrix, b: Matrix): (d: Matrix)
    requires IsSquare(a, |a|) && IsSquare(b, |b|)
    ensures IsSquare(d, |a| + |b|)
  {
    var n, s := |a|, |a| + |b|;
    seq(s, i requires 0 <= i < s =>
      seq(s, j requires 0 <= j < s =>
        if i < n && j < n then a[i][j]
        else if n <= i && n <= j then b[i - n][j - n]
        else 0.0))
  }

  function TotalSize(sizes: seq<nat>): nat
  {
    if |sizes| == 0 then 0 else sizes[0] + TotalSize(sizes[1..])
  }

  function Sizes(ms: seq<Matrix>): (sizes: seq<nat>)
    ensures |sizes| == |ms|
  {
    seq(|ms|, k requires 0 <= k < |ms| => |ms[k]|)
  }

  predicate AllSquare(ms: seq<Matrix>)
  {
    forall k :: 0 <= k < |ms| ==> IsSquare(ms[k], |ms[k]|)
  }

  /** `block_diagonal(ms)`: the blocks of `ms` along the diagonal, in order. */
  function BlockDiagonal(ms: seq<Matrix>): (d: Matrix)
    requires AllSquare(ms)
    ensures IsSquare(d, TotalSize(Sizes(ms)))
  {
    if |ms| == 0 then []
    else
      assert Sizes(ms)[1..] == Sizes(ms[1..]);
      BlockDiag2(ms[0], BlockDiagonal(ms[1..]))
  }

  lemma BlockDiag2OfPermMatrices(a: Matrix, b: Matrix, n: nat, m: nat)
    requires IsPermMatrix(a, n) && IsPermMatrix(b, m)
    ensures IsPermMatrix(BlockDiag2(a, b), n + m)
  {
    var d, s := BlockDiag2(a, b), n + m;
    forall i | 0 <= i < s
      ensures RowIsUnit(d, s, i)
    {
      if i < n {
        assert RowIsUnit(a, n, i);
        var j :| 0 <= j < n && UnitAt(a[i], j);
        assert UnitAt(d[i], j);
      } else {
        assert RowIsUnit(b, m, i - n);
        var j :| 0 <= j < m && UnitAt(b[i - n], j);
        assert UnitAt(d[i], n + j);
      }
    }
    forall j | 0 <= j < s
      ensures ColumnIsUnit(d, s, j)
    {
      var col := Column(d, j);
      if j < n {
        assert ColumnIsUnit(a, n, j);
        var i :| 0 <= i < n && UnitAt(Column(a, j), i);
        assert forall k :: 0 <= k < n ==> col[k] == Column(a, j)[k];
        assert forall k :: n <= k < n + m ==> col[k] == 0.0;
        assert UnitAt(col, i);
      } else {
        assert ColumnIsUnit(b, m, j - n);
        var i :| 0 <= i < m && UnitAt(Column(b, j - n), i);
        assert forall k :: 0 <= k < n ==> col[k] == 0.0;
        assert forall k :: n <= k < n + m ==> col[k] == Column(b, j - n)[k - n];
        assert UnitAt(col, n + i);
      }
    }
  }

  /** Composing permutation matrices block-diagonally gives a permutation matrix of the summed size. */
  lemma {:induction false} BlockDiagonalOfPermMatrices(ms: seq<Matrix>)
    requires forall k :: 0 <= k < |ms| ==> IsPermMatrix(ms[k], |ms[k]|)
    ensures AllSquare(ms) && IsPermMatrix(BlockDiagonal(ms), TotalSize(Sizes(ms)))
  {
    if |ms| > 0 {
      BlockDiagonalOfPermMatrices(ms[1..]);
      assert Sizes(ms)[1..] == Sizes(ms[1..]);
      BlockDiag2OfPermMatrices(ms[0], BlockDiagonal(ms[1..]), |ms[0]|, TotalSize(Sizes(ms[1..])));
    }
  }

  // ---------------------------------------------------------------- batched forms (one matrix per exercise)

  /** Every slice of `t` is a size×size permutation matrix, and there are `n` slices. */
  ghost predicate IsPermTensor(t: Tensor, n: nat, size: nat)
  {
    |t| == n && forall e :: 0 <= e < n ==> IsPermMatrix(t[e], size)
  }

  predicate SquareStack(p: Tensor)
  {
    forall e :: 0 <= e < |p| ==> IsSquare(p[e], |p[e]|)
  }

  /** `x` has one matrix per slice of `p`, with as many columns as that slice has rows. */
  predicate Conforms(x: Tensor, p: Tensor)
  {
    |x| == |p| && forall e :: 0 <= e < |x| ==> Rect(x[e], |p[e]|)
  }

  /** The batched product: slice `e` of the result is `x[e] · p[e]`. */
  function BatchMatMul(x: Tensor, p: Tensor): (y: Tensor)
    requires SquareStack(p) && Conforms(x, p)
    ensures Conforms(y, p)
  {
    seq(|x|, e requires 0 <= e < |x| => MatMul(x[e], p[e]))
  }

  /** `tf.matrix_transpose`: transposes every slice. */
  function BatchTranspose(p: Tensor): (t: Tensor)
    requires SquareStack(p)
    ensures SquareStack(t) && |t| == |p|
    ensures forall e :: 0 <= e < |p| ==> |t[e]| == |p[e]|
  {
    seq(|p|, e requires 0 <= e < |p| => TransposeSquare(p[e], |p[e]|); Transpose(p[e]))
  }

  lemma PermTensorIsSquare(p: Tensor, n: nat, size: nat)
    requires IsPermTensor(p, n, size)
    ensures SquareStack(p) && forall e :: 0 <= e < n ==> |p[e]| == size
  {
  }

  /** Every slice of `p` is a permutation matrix (slices may differ in size). */
  ghost predicate IsPermStack(p: Tensor)
  {
    forall e :: 0 <= e < |p| ==> IsPermMatrix(p[e], |p[e]|)
  }

  lemma PermTensorIsPermStack(p: Tensor, n: nat, size: nat)
    requires IsPermTensor(p, n, size)
    ensures IsPermStack(p) && SquareStack(p)
  {
  }

  /** The batched round trip: multiplying by `p` and then by its transpose restores `x`. */
  lemma BatchRoundTrip(x: Tensor, p: Tensor)
    requires IsPermStack(p) && Conforms(x, p)
    ensures SquareStack(p) && BatchMatMul(BatchMatMul(x, p), BatchTranspose(p)) == x
  {
    var z := BatchMatMul(BatchMatMul(x, p), BatchTranspose(p));
    forall e | 0 <= e < |x|
      ensures z[e] == x[e]
    {
      PermuteThenTranspose(x[e], p[e], |p[e]|);
    }
  }

  /** The batched reverse round trip: multiplying by the transpose of `p` and then by `p` restores `x`. */
  lemma BatchRoundTripReverse(x: Tensor, p: Tensor)
    requires IsPermStack(p) && Conforms(x, p)
    ensures SquareStack(p) && BatchMatMul(BatchMatMul(x, BatchTranspose(p)), p) == x
  {
    var z := BatchMatMul(BatchMatMul(x, BatchTranspose(p)), p);
    forall e | 0 <= e < |x|
      ensures z[e] == x[e]
    {
      TransposeThenPermute(x[e], p[e], |p[e]|);
    }
  }

  /** Slice `e` of every tensor in `ts`. */
  function Slices(ts: seq<Tensor>, e: nat): (ms: seq<Matrix>)
    requires forall k :: 0 <= k < |ts| ==> e < |ts[k]|
    ensures |ms| == |ts|
  {
    seq(|ts|, k requires 0 <= k < |ts| => ts[k][e])
  }

  lemma SlicesSquare(ts: seq<Tensor>, n: nat, e: nat)
    requires forall k :: 0 <= k < |ts| ==> |ts[k]| == n && SquareStack(ts[k])
    requires e < n
    ensures AllSquare(Slices(ts, e))
  {
    var ms := Slices(ts, e);
    forall k | 0 <= k < |ms|
      ensures IsSquare(ms[k], |ms[k]|)
    {
      assert ms[k] == ts[k][e];
      assert SquareStack(ts[k]);
    }
  }

  /** Batched `block_diagonal`: slice `e` of the result composes slice `e` of every tensor. */
  function BatchBlockDiagonal(ts: seq<Tensor>, n: nat): (d: Tensor)
    requires forall k :: 0 <= k < |ts| ==> |ts[k]| == n && SquareStack(ts[k])
    ensures |d| == n
    ensures forall e :: 0 <= e < n ==> IsSquare(d[e], TotalSize(Sizes(Slices(ts, e))))
  {
    seq(n, e requires 0 <= e < n => SlicesSquare(ts, n, e); BlockDiagonal(Slices(ts, e)))
  }

  /**
   * Block-diagonal composition of permutation tensors of sizes `sizes` is a
   * permutation tensor of size `TotalSize(sizes)`.
   */
  lemma BatchBlockDiagonalOfPermTensors(ts: seq<Tensor>, n: nat, sizes: seq<nat>)
    requires |sizes| == |ts|
    requires forall k :: 0 <= k < |ts| ==> IsPermTensor(ts[k], n, sizes[k])
    ensures forall k :: 0 <= k < |ts| ==> |ts[k]| == n && SquareStack(ts[k])
    ensures IsPermTensor(BatchBlockDiagonal(ts, n), n, TotalSize(sizes))
  {
    forall e | 0 <= e < n
      ensures IsPermMatrix(BatchBlockDiagonal(ts, n)[e], TotalSize(sizes))
    {
      var ms := Slices(ts, e);
      BlockDiagonalOfPermMatrices(ms);
      assert Sizes(ms) == sizes;
    }
  }
}
