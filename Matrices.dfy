/** Dense real matrices as sequences of rows. `real` is the exact idealisation of the
    float64 arrays that numpy works on: no rounding, no NaN, no infinity. */
module Matrices {

  type Matrix = seq<seq<real>>

  /** M has exactly `rows` rows of `cols` entries each. */
  predicate IsMatrix(M: Matrix, rows: nat, cols: nat) {
    |M| == rows && forall i :: 0 <= i < rows ==> |M[i]| == cols
  }

  /** Number of columns of a matrix, read off its first row. */
  function Cols(M: Matrix): nat {
    if |M| == 0 then 0 else |M[0]|
  }

  /** Every row has the same length. */
  predicate IsRect(M: Matrix) {
    forall i :: 0 <= i < |M| ==> |M[i]| == Cols(M)
  }

  function Min(a: nat, b: nat): nat {
    if a <= b then a else b
  }

  /** The indices 0, 1, ..., n-1 in order (Python's `range(n)`). */
  function Range(n: nat): (s: seq<int>)
    ensures |s| == n && forall k :: 0 <= k < n ==> s[k] == k
  {
    seq(n, k => k)
  }

  /** Sum of the entries, accumulated left to right. */
  function Sum(s: seq<real>): real {
    if |s| == 0 then 0.0 else Sum(s[..|s| - 1]) + s[|s| - 1]
  }

  /** Arithmetic mean (numpy's `np.mean` of one row). */
  function Mean(s: seq<real>): real
    requires |s| >= 1
  {
    Sum(s) / (|s| as real)
  }

  /** Inner product of two vectors of equal length. */
  function Dot(u: seq<real>, v: seq<real>): real
    requires |u| == |v|
  {
    if |u| == 0 then 0.0 else Dot(u[..|u| - 1], v[..|v| - 1]) + u[|u| - 1] * v[|v| - 1]
  }

  /** Column j of M. */
  function Column(M: Matrix, j: nat): (c: seq<real>)
    requires IsRect(M) && j < Cols(M)
    ensures |c| == |M| && forall i :: 0 <= i < |M| ==> c[i] == M[i][j]
  {
    seq(|M|, i requires 0 <= i < |M| => M[i][j])
  }

  /** `M.T` */
  function Transpose(M: Matrix): (r: Matrix)
    requires IsRect(M)
    ensures IsMatrix(r, Cols(M), |M|) && IsRect(r)
    ensures forall i, j :: 0 <= i < Cols(M) && 0 <= j < |M| ==> r[i][j] == M[j][i]
  {
    seq(Cols(M), i requires 0 <= i < Cols(M) => seq(|M|, j requires 0 <= j < |M| => M[j][i]))
  }

  /** Matrix product `A*B` of two `np.matrix` values. */
  function MatMul(A: Matrix, B: Matrix): (C: Matrix)
    requires IsRect(A) && IsRect(B) && Cols(A) == |B|
    ensures IsMatrix(C, |A|, Cols(B)) && IsRect(C)
  {
    seq(|A|, i requires 0 <= i < |A| =>
      seq(Cols(B), j requires 0 <= j < Cols(B) => Dot(A[i], Column(B, j))))
  }

  /** `np.diag(d)`: the square matrix with d on its diagonal and zeros elsewhere. */
  function Diag(d: seq<real>): (D: Matrix)
    ensures IsMatrix(D, |d|, |d|) && IsRect(D)
  {
    seq(|d|, i requires 0 <= i < |d| => seq(|d|, j requires 0 <= j < |d| => if i == j then d[i] else 0.0))
  }

  /** A unary numpy function applied entry by entry. */
  function Elementwise(f: real -> real, s: seq<real>): (r: seq<real>)
    ensures |r| == |s| && forall k :: 0 <= k < |s| ==> r[k] == f(s[k])
  {
    seq(|s|, k requires 0 <= k < |s| => f(s[k]))
  }

  /** The contents of a two-dimensional array, row by row. */
  function Values(a: array2<real>): (M: Matrix)
    reads a
    ensures IsMatrix(M, a.Length0, a.Length1) && IsRect(M)
    ensures forall i, j :: 0 <= i < a.Length0 && 0 <= j < a.Length1 ==> M[i][j] == a[i, j]
  {
    seq(a.Length0, i requires 0 <= i < a.Length0 reads a =>
      seq(a.Length1, j requires 0 <= j < a.Length1 reads a => a[i, j]))
  }

  /** Column t of a two-dimensional array (`Xhat[:,t]`). */
  function ColumnOf(a: array2<real>, t: nat): (c: seq<real>)
    reads a
    requires t < a.Length1
    ensures |c| == a.Length0 && forall i :: 0 <= i < a.Length0 ==> c[i] == a[i, t]
  {
    seq(a.Length0, i requires 0 <= i < a.Length0 reads a => a[i, t])
  }

  /** A vector that is zero everywhere except possibly at position j. */
  predicate ZeroExcept(v: seq<real>, j: nat) {
    forall k :: 0 <= k < |v| && k != j ==> v[k] == 0.0
  }

  /** The inner product with a vector that is zero except at position j picks out the j-th products. */
  lemma {:induction false} DotZeroExcept(u: seq<real>, v: seq<real>, j: nat)
    requires |u| == |v| && ZeroExcept(v, j)
    ensures Dot(u, v) == if j < |u| then u[j] * v[j] else 0.0
  {
    if |u| > 0 {
      var n := |u| - 1;
      DotZeroExcept(u[..n], v[..n], j);
    }
  }

  /** Multiplying by `np.diag(d)` on the right scales column j by d[j]. */
  lemma MulDiagScalesColumns(A: Matrix, d: seq<real>)
    requires IsRect(A) && Cols(A) == |d|
    ensures IsMatrix(MatMul(A, Diag(d)), |A|, |d|)
    ensures forall i, j :: 0 <= i < |A| && 0 <= j < |d| ==> MatMul(A, Diag(d))[i][j] == A[i][j] * d[j]
  {
    var D := Diag(d);
    forall i, j | 0 <= i < |A| && 0 <= j < |d|
      ensures MatMul(A, D)[i][j] == A[i][j] * d[j]
    {
      DotZeroExcept(A[i], Column(D, j), j);
    }
  }

  /** Subtracting c from every entry lowers the sum by |s|*c. */
  lemma {:induction false} SumShift(s: seq<real>, c: real)
    ensures Sum(seq(|s|, k requires 0 <= k < |s| => s[k] - c)) == Sum(s) - (|s| as real) * c
  {
    var shifted := seq(|s|, k requires 0 <= k < |s| => s[k] - c);
    if |s| > 0 {
      var n := |s| - 1;
      SumShift(s[..n], c);
      assert shifted[..n] == seq(n, k requires 0 <= k < n => s[..n][k] - c);
    }
  }

  /** Two matrices of the same shape with the same entries are equal. */
  lemma MatrixEquality(A: Matrix, B: Matrix, rows: nat, cols: nat)
    requires IsMatrix(A, rows, cols) && IsMatrix(B, rows, cols)
    requires forall i, j :: 0 <= i < rows && 0 <= j < cols ==> A[i][j] == B[i][j]
    ensures A == B
  {
    forall i | 0 <= i < rows
      ensures A[i] == B[i]
    {
    }
  }

  /** The product a*c, named so that the solver treats it as a single term. */
  function Scale(a: real, c: real): real {
    a * c
  }

  /** Entry (i, j) of `A*B*np.diag(f(s))` is row i of A against column j of B, times f(s[j]). */
  lemma ScaledProductEntry(C: Matrix, A: Matrix, B: Matrix, f: real -> real, s: seq<real>, i: nat, j: nat)
    requires IsRect(A) && IsRect(B) && Cols(A) == |B| && Cols(B) == |s|
    requires C == MatMul(MatMul(A, B), Diag(Elementwise(f, s)))
    requires i < |A| && j < |s|
    ensures C[i][j] == Scale(Dot(A[i], Column(B, j)), f(s[j]))
  {
    MulDiagScalesColumns(MatMul(A, B), Elementwise(f, s));
  }
}
