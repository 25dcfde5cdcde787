/** The reconstruction half of the `PODplot` class of helpers.py: a low-rank approximation of the
    data built from chosen modes, cut into one (nx, ny) grid per snapshot. */
module PodPlot {
  import opened Matrices
  import opened Pod

  datatype Result<T> = Success(value: T) | Failure(error: string)

  /** Every requested mode is an index of Sigma. */
  predicate InRange(modes: seq<int>, R: nat) {
    forall k :: 0 <= k < |modes| ==> 0 <= modes[k] < R
  }

  /** Row r of Phi and row t of Psi each hold one entry per singular value. */
  predicate HasEntry(d: Decomposition, r: nat, t: nat) {
    r < |d.Phi| && t < |d.Psi| && |d.Phi[r]| == |d.Sigma| && |d.Psi[t]| == |d.Sigma|
  }

  /** Entry (r, t) of the rank-one term `Phi[:,i]*Sigma[i]*Psi[:,i].T`. */
  function RankOneTerm(d: Decomposition, i: nat, r: nat, t: nat): real
    requires HasEntry(d, r, t) && i < |d.Sigma|
  {
    d.Phi[r][i] * d.Sigma[i] * d.Psi[t][i]
  }

  /** Entry (r, t) of the sum of the rank-one terms of `modes`, added in list order. */
  function ModeSum(d: Decomposition, modes: seq<int>, r: nat, t: nat): (sum: real)
    requires HasEntry(d, r, t) && InRange(modes, |d.Sigma|)
    ensures |modes| == 1 ==> sum == RankOneTerm(d, modes[0], r, t)
  {
    if modes == [] then 0.0
    else ModeSum(d, modes[..|modes| - 1], r, t) + RankOneTerm(d, modes[|modes| - 1], r, t)
  }

  /** The rank-one terms of modes 0, ..., n-1, each weighted by how often `mult` holds it. */
  function WeightedSum(d: Decomposition, mult: multiset<int>, n: nat, r: nat, t: nat): real
    requires HasEntry(d, r, t) && n <= |d.Sigma|
  {
    if n == 0 then 0.0
    else WeightedSum(d, mult, n - 1, r, t) + (mult[n - 1] as real) * RankOneTerm(d, n - 1, r, t)
  }

  /** Summing a list of modes in two pieces adds the two partial sums. */
  lemma {:induction false} ModeSumAppend(d: Decomposition, a: seq<int>, b: seq<int>, r: nat, t: nat)
    requires HasEntry(d, r, t) && InRange(a, |d.Sigma|) && InRange(b, |d.Sigma|)
    ensures InRange(a + b, |d.Sigma|)
    ensures ModeSum(d, a + b, r, t) == ModeSum(d, a, r, t) + ModeSum(d, b, r, t)
  {
    if b == [] {
      assert a + b == a;
    } else {
      var front := b[..|b| - 1];
      ModeSumAppend(d, a, front, r, t);
      assert (a + b)[..|a + b| - 1] == a + front;
    }
  }

  /** One more occurrence of mode j adds one more copy of its rank-one term. */
  lemma {:induction false} WeightedSumAdd(d: Decomposition, mult: multiset<int>, j: int, n: nat, r: nat, t: nat)
    requires HasEntry(d, r, t) && n <= |d.Sigma| && 0 <= j < |d.Sigma|
    ensures WeightedSum(d, mult + multiset{j}, n, r, t)
         == WeightedSum(d, mult, n, r, t) + (if j < n then RankOneTerm(d, j, r, t) else 0.0)
  {
    if n > 0 {
      WeightedSumAdd(d, mult, j, n - 1, r, t);
      var c := mult[n - 1] as real;
      var term := RankOneTerm(d, n - 1, r, t);
      if j == n - 1 {
        assert (mult + multiset{j})[n - 1] as real == c + 1.0;
        assert (c + 1.0) * term == c * term + term;
      } else {
        assert (mult + multiset{j})[n - 1] == mult[n - 1];
      }
    }
  }

  /** `reconstruct` sums each chosen mode as often as mode_idx lists it, whatever the order:
      the sum depends on mode_idx only through the number of times it holds each mode. */
  lemma {:induction false} ModeSumByMultiplicity(d: Decomposition, modes: seq<int>, r: nat, t: nat)
    requires HasEntry(d, r, t) && InRange(modes, |d.Sigma|)
    ensures ModeSum(d, modes, r, t) == WeightedSum(d, multiset(modes), |d.Sigma|, r, t)
  {
    if modes == [] {
      WeightedSumEmpty(d, |d.Sigma|, r, t);
    } else {
      var front := modes[..|modes| - 1];
      var j := modes[|modes| - 1];
      ModeSumByMultiplicity(d, front, r, t);
      WeightedSumAdd(d, multiset(front), j, |d.Sigma|, r, t);
      assert modes == front + [j];
      assert multiset(modes) == multiset(front) + multiset{j};
    }
  }

  lemma {:induction false} WeightedSumEmpty(d: Decomposition, n: nat, r: nat, t: nat)
    requires HasEntry(d, r, t) && n <= |d.Sigma|
    ensures WeightedSum(d, multiset{}, n, r, t) == 0.0
  {
    if n > 0 {
      WeightedSumEmpty(d, n - 1, r, t);
    }
  }

  /** Two mode lists that hold the same modes equally often give the same approximation. */
  lemma ModeSumPermutation(d: Decomposition, a: seq<int>, b: seq<int>, r: nat, t: nat)
    requires HasEntry(d, r, t) && InRange(a, |d.Sigma|) && InRange(b, |d.Sigma|)
    requires multiset(a) == multiset(b)
    ensures ModeSum(d, a, r, t) == ModeSum(d, b, r, t)
  {
    ModeSumByMultiplicity(d, a, r, t);
    ModeSumByMultiplicity(d, b, r, t);
  }

  /** A mode listed twice is counted twice. */
  lemma ModeSumRepeated(d: Decomposition, i: int, r: nat, t: nat)
    requires HasEntry(d, r, t) && 0 <= i < |d.Sigma|
    ensures ModeSum(d, [i, i], r, t) == 2.0 * RankOneTerm(d, i, r, t)
  {
    assert [i, i][..1] == [i];
  }

  /** Summing modes 0, ..., n-1 takes the inner product of the first n entries of row r of
      Phi*diag(Sigma) with the first n entries of row t of Psi. */
  lemma {:induction false} ModeSumPrefix(d: Decomposition, P: seq<real>, n: nat, r: nat, t: nat)
    requires HasEntry(d, r, t) && n <= |d.Sigma| && |P| == |d.Sigma|
    requires forall i :: 0 <= i < |P| ==> P[i] == d.Phi[r][i] * d.Sigma[i]
    ensures InRange(Range(n), |d.Sigma|)
    ensures ModeSum(d, Range(n), r, t) == Dot(P[..n], d.Psi[t][..n])
  {
    if n > 0 {
      ModeSumPrefix(d, P, n - 1, r, t);
      assert Range(n)[..n - 1] == Range(n - 1);
      assert P[..n][..n - 1] == P[..n - 1];
      assert d.Psi[t][..n][..n - 1] == d.Psi[t][..n - 1];
    }
  }

  /** Reconstructing from every mode gives the full product Phi*diag(Sigma)*Psi.T. */
  lemma ModeSumAllModes(d: Decomposition, S: nat, T: nat, r: nat, t: nat)
    requires Shaped(d, S, T) && |d.Sigma| >= 1 && r < S && t < T
    ensures HasEntry(d, r, t) && InRange(Range(|d.Sigma|), |d.Sigma|)
    ensures ModeSum(d, Range(|d.Sigma|), r, t) == MatMul(MatMul(d.Phi, Diag(d.Sigma)), Transpose(d.Psi))[r][t]
  {
    var R := |d.Sigma|;
    var P := MatMul(d.Phi, Diag(d.Sigma));
    MulDiagScalesColumns(d.Phi, d.Sigma);
    ModeSumPrefix(d, P[r], R, r, t);
    assert P[r][..R] == P[r] && d.Psi[t][..R] == d.Psi[t];
    calc {
      ModeSum(d, Range(R), r, t);
      Dot(P[r], d.Psi[t]);
      { assert Column(Transpose(d.Psi), t) == d.Psi[t]; }
      Dot(P[r], Column(Transpose(d.Psi), t));
    }
  }

  /** `np.zeros_like(X)` plus the rank-one terms of `modes`: the matrix Xhat before reshaping. */
  function Approximation(d: Decomposition, modes: seq<int>, S: nat, T: nat): (A: Matrix)
    requires Shaped(d, S, T) && InRange(modes, |d.Sigma|)
    ensures IsMatrix(A, S, T) && IsRect(A)
    ensures forall r, t :: 0 <= r < S && 0 <= t < T ==> A[r][t] == ModeSum(d, modes, r, t)
  {
    seq(S, r requires 0 <= r < S => seq(T, t requires 0 <= t < T => ModeSum(d, modes, r, t)))
  }

  /** `a*cols + b`, the C-order position of entry (a, b) of a rows x cols array. */
  function RowMajorIndex(a: nat, b: nat, rows: nat, cols: nat): (p: nat)
    requires a < rows && b < cols
    ensures p < rows * cols
  {
    MulLe(a + 1, rows, cols);
    a * cols + b
  }

  lemma {:induction false} MulLe(a: nat, b: nat, c: nat)
    requires a <= b
    ensures a * c <= b * c
  {
    if c > 0 {
      MulLe(a, b, c - 1);
      assert a * c == a * (c - 1) + a && b * c == b * (c - 1) + b;
    }
  }

  /** `np.reshape(v, (rows, cols))` in numpy's default C order. */
  function ReshapeRowMajor(v: seq<real>, rows: nat, cols: nat): (g: Matrix)
    requires |v| == rows * cols
    ensures IsMatrix(g, rows, cols) && IsRect(g)
  {
    seq(rows, a requires 0 <= a < rows =>
      seq(cols, b requires 0 <= b < cols => v[RowMajorIndex(a, b, rows, cols)]))
  }

  /** `np.transpose(grids, (0, 2, 1))`: every grid transposed, the list order kept. */
  function SwapLastAxes(grids: seq<Matrix>): (out: seq<Matrix>)
    requires forall s :: 0 <= s < |grids| ==> IsRect(grids[s])
    ensures |out| == |grids|
    ensures forall s :: 0 <= s < |grids| ==> out[s] == Transpose(grids[s])
  {
    seq(|grids|, s requires 0 <= s < |grids| => Transpose(grids[s]))
  }

  /** The reshape succeeds only when the grid has exactly one cell per spatial point. */
  predicate GridFits(S: nat, nx: int, ny: int) {
    nx >= 1 && ny >= 1 && ny * nx == S
  }

  /** The value `reconstruct` returns: snapshot t of Xhat reshaped to (ny, nx), then transposed to
      (nx, ny); or a reshape error when the grid does not fit. */
  function Reconstruction(d: Decomposition, modes: seq<int>, S: nat, T: nat, nx: int, ny: int): (out: Result<seq<Matrix>>)
    requires Shaped(d, S, T) && InRange(modes, |d.Sigma|) && S >= 1
    ensures out.Success? ==> |out.value| == T
  {
    if !GridFits(S, nx, ny) then Failure("cannot reshape array into shape (ny, nx)")
    else
      var A := Approximation(d, modes, S, T);
      Success(SwapLastAxes(seq(T, s requires 0 <= s < T => ReshapeRowMajor(Column(A, s), ny, nx))))
  }

  /** Reading a grid back in column-major order: cell (j, k) goes to position k*nx + j. */
  function Unravel(g: Matrix, nx: nat, ny: nat): (v: seq<real>)
    requires IsMatrix(g, nx, ny) && nx >= 1
    ensures |v| == nx * ny
  {
    seq(nx * ny, p requires 0 <= p < nx * ny => (DivBound(p, nx, ny); g[p % nx][p / nx]))
  }

  lemma DivBound(p: nat, nx: nat, ny: nat)
    requires nx >= 1 && p < nx * ny
    ensures p / nx < ny
  {
    if p / nx >= ny {
      MulLe(ny, p / nx, nx);
    }
  }

  /** The reshape fails exactly when the grid does not have one cell per spatial point; otherwise
      there is one grid per snapshot, nx wide and ny high after the axis swap. */
  lemma ReconstructionShape(d: Decomposition, modes: seq<int>, S: nat, T: nat, nx: int, ny: int)
    requires Shaped(d, S, T) && InRange(modes, |d.Sigma|) && S >= 1
    ensures Reconstruction(d, modes, S, T, nx, ny).Success? <==> GridFits(S, nx, ny)
    ensures GridFits(S, nx, ny) ==>
      && |Reconstruction(d, modes, S, T, nx, ny).value| == T
      && forall t :: 0 <= t < T ==> IsMatrix(Reconstruction(d, modes, S, T, nx, ny).value[t], nx, ny)
  {
    if GridFits(S, nx, ny) {
      var A := Approximation(d, modes, S, T);
      forall t | 0 <= t < T
        ensures IsMatrix(Reconstruction(d, modes, S, T, nx, ny).value[t], nx, ny)
      {
        var g := ReshapeRowMajor(Column(A, t), ny, nx);
        assert Reconstruction(d, modes, S, T, nx, ny).value[t] == Transpose(g);
      }
    }
  }

  /** Cell (j, k) of snapshot t holds entry k*nx + j of column t of Xhat: the C-order reshape to
      (ny, nx) puts that entry at (k, j), and the axis swap moves it to (j, k). */
  lemma ReconstructionCell(d: Decomposition, modes: seq<int>, S: nat, T: nat, nx: int, ny: int, t: nat, j: nat, k: nat)
    requires Shaped(d, S, T) && InRange(modes, |d.Sigma|) && S >= 1 && GridFits(S, nx, ny)
    requires t < T && j < nx && k < ny
    ensures HasEntry(d, RowMajorIndex(k, j, ny, nx), t)
    ensures |Reconstruction(d, modes, S, T, nx, ny).value| == T
    ensures IsMatrix(Reconstruction(d, modes, S, T, nx, ny).value[t], nx, ny)
    ensures Reconstruction(d, modes, S, T, nx, ny).value[t][j][k] == ModeSum(d, modes, RowMajorIndex(k, j, ny, nx), t)
  {
    ReconstructionShape(d, modes, S, T, nx, ny);
    var A := Approximation(d, modes, S, T);
    var g := ReshapeRowMajor(Column(A, t), ny, nx);
    var p := RowMajorIndex(k, j, ny, nx);
    assert Reconstruction(d, modes, S, T, nx, ny).value[t] == Transpose(g);
    assert g[k][j] == Column(A, t)[p];
  }

  /** Nothing is lost by the reshape: reading grid t back in column-major order gives column t of
      Xhat. */
  lemma ReconstructionRoundTrip(d: Decomposition, modes: seq<int>, S: nat, T: nat, nx: int, ny: int, t: nat)
    requires Shaped(d, S, T) && InRange(modes, |d.Sigma|) && S >= 1 && t < T
    requires GridFits(S, nx, ny)
    ensures IsMatrix(Reconstruction(d, modes, S, T, nx, ny).value[t], nx, ny)
    ensures Unravel(Reconstruction(d, modes, S, T, nx, ny).value[t], nx, ny)
         == Column(Approximation(d, modes, S, T), t)
  {
    ReconstructionShape(d, modes, S, T, nx, ny);
    var g := Reconstruction(d, modes, S, T, nx, ny).value[t];
    var v := Unravel(g, nx, ny);
    var c := Column(Approximation(d, modes, S, T), t);
    forall p | 0 <= p < nx * ny
      ensures v[p] == c[p]
    {
      UnravelPosition(d, modes, S, T, nx, ny, t, p);
    }
  }

  /** Position p of the column-major reading of grid t is row p of column t of Xhat. */
  lemma UnravelPosition(d: Decomposition, modes: seq<int>, S: nat, T: nat, nx: int, ny: int, t: nat, p: nat)
    requires Shaped(d, S, T) && InRange(modes, |d.Sigma|) && S >= 1 && t < T
    requires GridFits(S, nx, ny) && p < S
    ensures IsMatrix(Reconstruction(d, modes, S, T, nx, ny).value[t], nx, ny)
    ensures Unravel(Reconstruction(d, modes, S, T, nx, ny).value[t], nx, ny)[p]
         == Approximation(d, modes, S, T)[p][t]
  {
    var j, k := p % nx, p / nx;
    DivBound(p, nx, ny);
    ReconstructionCell(d, modes, S, T, nx, ny, t, j, k);
    assert RowMajorIndex(k, j, ny, nx) == p;
  }

  /** With no modes every cell is zero. */
  lemma ReconstructionNoModes(d: Decomposition, S: nat, T: nat, nx: int, ny: int, t: nat, j: nat, k: nat)
    requires Shaped(d, S, T) && S >= 1 && GridFits(S, nx, ny)
    requires t < T && j < nx && k < ny
    ensures |Reconstruction(d, [], S, T, nx, ny).value| == T
    ensures IsMatrix(Reconstruction(d, [], S, T, nx, ny).value[t], nx, ny)
    ensures Reconstruction(d, [], S, T, nx, ny).value[t][j][k] == 0.0
  {
    ReconstructionCell(d, [], S, T, nx, ny, t, j, k);
  }

  /** With every mode the grids lay out the full product Phi*diag(Sigma)*Psi.T. */
  lemma ReconstructionAllModes(d: Decomposition, S: nat, T: nat, nx: int, ny: int, t: nat, j: nat, k: nat)
    requires Shaped(d, S, T) && |d.Sigma| >= 1 && S >= 1 && GridFits(S, nx, ny)
    requires t < T && j < nx && k < ny
    ensures InRange(Range(|d.Sigma|), |d.Sigma|)
    ensures |Reconstruction(d, Range(|d.Sigma|), S, T, nx, ny).value| == T
    ensures IsMatrix(Reconstruction(d, Range(|d.Sigma|), S, T, nx, ny).value[t], nx, ny)
    ensures Reconstruction(d, Range(|d.Sigma|), S, T, nx, ny).value[t][j][k]
         == MatMul(MatMul(d.Phi, Diag(d.Sigma)), Transpose(d.Psi))[RowMajorIndex(k, j, ny, nx)][t]
  {
    ReconstructionCell(d, Range(|d.Sigma|), S, T, nx, ny, t, j, k);
    ModeSumAllModes(d, S, T, RowMajorIndex(k, j, ny, nx), t);
  }

  /** `Xhat += Phi[:,i]*Sigma[i]*Psi[:,i].T`, entry by entry, in place. */
  method AddRankOne(a: array2<real>, d: Decomposition, i: int)
    requires Shaped(d, a.Length0, a.Length1) && 0 <= i < |d.Sigma|
    modifies a
    ensures forall r, t :: 0 <= r < a.Length0 && 0 <= t < a.Length1 ==>
      a[r, t] == old(a[r, t]) + RankOneTerm(d, i, r, t)
  {
    var r := 0;
    while r < a.Length0
      invariant 0 <= r <= a.Length0
      invariant forall r', t :: 0 <= r' < r && 0 <= t < a.Length1 ==>
        a[r', t] == old(a[r', t]) + RankOneTerm(d, i, r', t)
      invariant forall r', t :: r <= r' < a.Length0 && 0 <= t < a.Length1 ==> a[r', t] == old(a[r', t])
    {
      var t := 0;
      while t < a.Length1
        invariant 0 <= t <= a.Length1
        invariant forall r', t' :: 0 <= r' < r && 0 <= t' < a.Length1 ==>
          a[r', t'] == old(a[r', t']) + RankOneTerm(d, i, r', t')
        invariant forall t' :: 0 <= t' < t ==> a[r, t'] == old(a[r, t']) + RankOneTerm(d, i, r, t')
        invariant forall r', t' :: r <= r' < a.Length0 && 0 <= t' < a.Length1 && (r' > r || t' >= t) ==>
          a[r', t'] == old(a[r', t'])
      {
        a[r, t] := a[r, t] + d.Phi[r][i] * d.Sigma[i] * d.Psi[t][i];
        t := t + 1;
      }
      r := r + 1;
    }
  }

  class PODplot {
    const pod: POD

    constructor (pod: POD)
      ensures this.pod == pod
    {
      this.pod := pod;
    }

    /** `PODplot.reconstruct`: accumulate the rank-one terms of mode_idx in a zero matrix shaped
        like X, reshape every column to (ny, nx) and swap the two grid axes. */
    method Reconstruct(modeIdx: seq<int>) returns (out: Result<seq<Matrix>>)
      requires pod.Valid() && InRange(modeIdx, |pod.Sigma|)
      ensures out == Reconstruction(pod.Decomp(), modeIdx, pod.X.Length0, pod.X.Length1, pod.nx, pod.ny)
    {
      var d := pod.Decomp();
      var S, T := pod.X.Length0, pod.X.Length1;
      var xhat := new real[S, T]((r, t) => 0.0);
      var n := 0;
      while n < |modeIdx|
        invariant 0 <= n <= |modeIdx|
        invariant forall r, t :: 0 <= r < S && 0 <= t < T ==> xhat[r, t] == ModeSum(d, modeIdx[..n], r, t)
      {
        AddRankOne(xhat, d, modeIdx[n]);
        assert modeIdx[..n + 1][..n] == modeIdx[..n];
        n := n + 1;
      }
      assert modeIdx[..n] == modeIdx;
      ghost var A := Approximation(d, modeIdx, S, T);
      var nx, ny := pod.nx, pod.ny;
      var grids: seq<Matrix> := [];
      var t := 0;
      while t < T
        invariant 0 <= t <= T && |grids| == t
        invariant GridFits(S, nx, ny) || t == 0
        invariant forall s :: 0 <= s < t ==> grids[s] == ReshapeRowMajor(Column(A, s), ny, nx)
      {
        if !(nx >= 1 && ny >= 1 && ny * nx == S) {
          return Failure("cannot reshape array into shape (ny, nx)");
        }
        var column := ColumnOf(xhat, t);
        assert column == Column(A, t);
        grids := grids + [ReshapeRowMajor(column, ny, nx)];
        t := t + 1;
      }
      out := Success(SwapLastAxes(grids));
      assert grids == seq(T, s requires 0 <= s < T => ReshapeRowMajor(Column(A, s), ny, nx));
    }
  }
}
