/** The layout of Psi after `POD.svd`. `np.linalg.svd` returns V transposed (R x T), and
    helpers.py:139 stores it as Psi unchanged, while `classic`, `snapshot` and `reconstruct` all
    treat Psi as T x R (column i of Psi is the time coefficient of mode i). The model keeps both:
    `SvdAsWritten` is the line as written, `SvdResult` stores the transpose and is what `POD.Svd`
    uses. */
module SvdLayout {
  import opened Matrices
  import opened EigenOrder
  import opened Pod
  import opened PodPlot

  /** Transposing twice gives the matrix back. */
  lemma TransposeTwice(M: Matrix)
    requires IsRect(M) && |M| >= 1 && Cols(M) >= 1
    ensures Transpose(Transpose(M)) == M
  {
    MatrixEquality(Transpose(Transpose(M)), M, |M|, Cols(M));
  }

  /** With Psi stored as the transpose of numpy's third factor, reconstructing from every mode
      gives back U*diag(s)*Vh, which is X whenever the factorisation is exact. */
  lemma SvdReconstructsAll(x: Matrix, lib: LinAlg, r: nat, t: nat)
    requires IsData(x) && Conforms(lib) && r < |x| && t < Cols(x)
    ensures var d := SvdResult(x, lib);
      HasEntry(d, r, t) && InRange(Range(|d.Sigma|), |d.Sigma|)
    ensures var f := lib.svd(x);
      ModeSum(SvdResult(x, lib), Range(|f.s|), r, t) == MatMul(MatMul(f.U, Diag(f.s)), f.Vh)[r][t]
    ensures var f := lib.svd(x);
      MatMul(MatMul(f.U, Diag(f.s)), f.Vh) == x ==> ModeSum(SvdResult(x, lib), Range(|f.s|), r, t) == x[r][t]
  {
    var f := lib.svd(x);
    ModeSumAllModes(SvdResult(x, lib), |x|, Cols(x), r, t);
    TransposeTwice(f.Vh);
  }

  /** The Psi that helpers.py:139 stores has the T x R layout the other algorithms give it only
      when there are at least as many spatial points as snapshots; otherwise `reconstruct`
      cannot broadcast `Psi[:,i].T` against Xhat. */
  lemma SvdAsWrittenShaped(x: Matrix, lib: LinAlg)
    requires IsData(x) && Conforms(lib)
    ensures Shaped(SvdAsWritten(x, lib), |x|, Cols(x)) <==> |x| >= Cols(x)
  {
    var d := SvdAsWritten(x, lib);
    if |x| < Cols(x) {
      assert |d.Psi| == |x| != Cols(x);
    }
  }

  lemma DotPair(u: seq<real>, v: seq<real>)
    requires |u| == 2 && |v| == 2
    ensures Dot(u, v) == u[0] * v[0] + u[1] * v[1]
  {
    assert Dot(u[..1], v[..1]) == Dot(u[..1][..0], v[..1][..0]) + u[0] * v[0];
    assert u[..1][..0] == [] && v[..1][..0] == [];
  }

  /** A 2 x 2 data matrix with singular values 2 and 1. */
  function ExampleData(): Matrix {
    [[0.0, 2.0], [-1.0, 0.0]]
  }

  /** An exact economy-size SVD of ExampleData: U = I, s = [2, 1], Vh = [[0, 1], [-1, 0]]. */
  function ExampleFactors(): SvdFactors {
    SvdFactors([[1.0, 0.0], [0.0, 1.0]], [2.0, 1.0], [[0.0, 1.0], [-1.0, 0.0]])
  }

  function Zeros(rows: nat, cols: nat): (Z: Matrix)
    ensures IsMatrix(Z, rows, cols) && IsRect(Z)
  {
    seq(rows, i => seq(cols, j => 0.0))
  }

  /** An svd that returns ExampleFactors for ExampleData and factors of the right shape for every
      other matrix. */
  function ExampleSvd(M: Matrix): SvdFactors {
    if M == ExampleData() then ExampleFactors()
    else
      var R := Min(|M|, Cols(M));
      SvdFactors(Zeros(|M|, R), seq(R, k => 0.0), Zeros(R, Cols(M)))
  }

  function ExampleLib(): LinAlg {
    LinAlg(K => EigenDecomposition(seq(|K|, k => 0.0), Zeros(|K|, |K|)), ExampleSvd, a => a, a => a)
  }

  lemma ExampleConforms()
    ensures Conforms(ExampleLib())
  {
    var lib := ExampleLib();
    forall M | IsRect(M)
      ensures SvdShaped(lib.svd(M), |M|, Cols(M))
    {
      if M == ExampleData() {
        assert lib.svd(M) == ExampleFactors();
      }
    }
  }

  /** ExampleFactors multiply back to ExampleData. */
  lemma ExampleExact()
    ensures var f := ExampleFactors();
      MatMul(MatMul(f.U, Diag(f.s)), f.Vh) == ExampleData()
  {
    var x, f := ExampleData(), ExampleFactors();
    var US := MatMul(f.U, Diag(f.s));
    MulDiagScalesColumns(f.U, f.s);
    MatrixEquality(US, [[2.0, 0.0], [0.0, 1.0]], 2, 2);
    var P := MatMul(US, f.Vh);
    forall i, j | 0 <= i < 2 && 0 <= j < 2
      ensures P[i][j] == x[i][j]
    {
      DotPair(US[i], Column(f.Vh, j));
    }
    MatrixEquality(P, x, 2, 2);
  }

  /** helpers.py:139 as written: for an exact SVD of ExampleData, reconstructing from both modes
      gives -2 at entry (0, 1), where the data holds 2; the corrected layout gives 2. */
  lemma SvdAsWrittenMisreconstructs()
    ensures Conforms(ExampleLib()) && IsData(ExampleData())
    ensures var f := ExampleLib().svd(ExampleData());
      MatMul(MatMul(f.U, Diag(f.s)), f.Vh) == ExampleData()
    ensures HasEntry(SvdAsWritten(ExampleData(), ExampleLib()), 0, 1)
    ensures ModeSum(SvdAsWritten(ExampleData(), ExampleLib()), [0, 1], 0, 1) == -2.0
    ensures ModeSum(SvdResult(ExampleData(), ExampleLib()), [0, 1], 0, 1) == 2.0
    ensures ExampleData()[0][1] == 2.0
  {
    var x, lib, f := ExampleData(), ExampleLib(), ExampleFactors();
    ExampleConforms();
    ExampleExact();
    assert lib.svd(x) == f;
    var d := SvdAsWritten(x, lib);
    assert d == Decomposition(f.U, f.s, f.Vh);
    assert [0, 1][..1] == [0];
    assert ModeSum(d, [0], 0, 1) == RankOneTerm(d, 0, 0, 1);
    var c := SvdResult(x, lib);
    assert c == Decomposition(f.U, f.s, Transpose(f.Vh));
    assert c.Psi[1] == [1.0, 0.0];
    assert ModeSum(c, [0], 0, 1) == RankOneTerm(c, 0, 0, 1);
  }
}
