/** The `POD` class of helpers.py: it selects one field of a flow dataset, optionally removes
    each row's temporal mean, and decomposes the result by one of three algorithms. */
module Pod {
  import opened Matrices
  import opened EigenOrder

  datatype Option<T> = None | Some(value: T)

  /** The three fields a dataset carries: streamwise velocity, transverse velocity, vorticity. */
  datatype Field = U | V | Vort

  function FieldName(f: Field): string {
    match f
    case U => "U"
    case V => "V"
    case Vort => "Vort"
  }

  /** The selector test of `POD.__init__`: a recognised name picks its own field, and every other
      string silently picks the vorticity field. */
  function SelectField(name: string): (f: Field)
    ensures name in {"U", "V", "Vort"} ==> FieldName(f) == name
    ensures name !in {"U", "V", "Vort"} ==> f == Vort
  {
    if name == "U" then U else if name == "V" then V else Vort
  }

  /** The dictionary a dataset loader supplies: three (S, T) snapshot matrices (rows are spatial
      points, columns are time samples) and four grid scalars as floats. */
  datatype Dataset = Dataset(u: Matrix, v: Matrix, vort: Matrix, m: real, n: real, nx: real, ny: real) {
    function Get(f: Field): Matrix {
      match f
      case U => u
      case V => v
      case Vort => vort
    }
  }

  /** Python's `int()` of a float: truncation toward zero. */
  function TruncateToInt(x: real): (k: int)
    ensures 0.0 <= x ==> k as real <= x < k as real + 1.0
    ensures x < 0.0 ==> k as real - 1.0 < x <= k as real
  {
    if x >= 0.0 then x.Floor else -((-x).Floor)
  }

  /** `np.mean(X, axis=1)`: the temporal mean of every row. */
  function RowMeans(M: Matrix): (means: seq<real>)
    requires IsRect(M) && Cols(M) >= 1
    ensures |means| == |M|
  {
    seq(|M|, r requires 0 <= r < |M| => Mean(M[r]))
  }

  /** `X - means` with the means broadcast along each row. */
  function Centered(M: Matrix, means: seq<real>): (C: Matrix)
    requires IsRect(M) && |means| == |M|
    ensures IsMatrix(C, |M|, Cols(M)) && IsRect(C)
    ensures forall r, t :: 0 <= r < |M| && 0 <= t < Cols(M) ==> C[r][t] == M[r][t] - means[r]
  {
    seq(|M|, r requires 0 <= r < |M| => seq(Cols(M), t requires 0 <= t < Cols(M) => M[r][t] - means[r]))
  }

  /** Removing each row's own mean leaves every row summing to zero. */
  lemma CenteredRowsSumToZero(M: Matrix)
    requires IsRect(M) && Cols(M) >= 1
    ensures forall r :: 0 <= r < |M| ==> Sum(Centered(M, RowMeans(M))[r]) == 0.0
  {
    var C := Centered(M, RowMeans(M));
    forall r | 0 <= r < |M|
      ensures Sum(C[r]) == 0.0
    {
      var c := Mean(M[r]);
      var T := |M[r]|;
      SumShift(M[r], c);
      assert C[r] == seq(T, k requires 0 <= k < T => M[r][k] - c);
      assert (T as real) * c == Sum(M[r]);
    }
  }

  /** A decomposition as the fields `Phi`, `Sigma` and `Psi` hold it. */
  datatype Decomposition = Decomposition(Phi: Matrix, Sigma: seq<real>, Psi: Matrix)

  /** Phi is S x R and Psi is T x R, where R = |Sigma|: column k of each belongs to Sigma[k]. */
  predicate Shaped(d: Decomposition, S: nat, T: nat) {
    && IsMatrix(d.Phi, S, |d.Sigma|) && IsRect(d.Phi)
    && IsMatrix(d.Psi, T, |d.Sigma|) && IsRect(d.Psi)
  }

  /** What `np.linalg.svd(X, full_matrices=False)` returns: U, the singular values, and V
      transposed (R x T). */
  datatype SvdFactors = SvdFactors(U: Matrix, s: seq<real>, Vh: Matrix)

  /** The numpy routines the decompositions call, taken as given functions:
      `np.linalg.eig`, `np.linalg.svd`, `np.sqrt` and `np.reciprocal`. */
  datatype LinAlg = LinAlg(
    eig: Matrix -> EigenDecomposition,
    svd: Matrix -> SvdFactors,
    sqrt: real -> real,
    reciprocal: real -> real)

  predicate EigShaped(e: EigenDecomposition, n: nat) {
    |e.Lambda| == n && IsMatrix(e.vectors, n, n) && IsRect(e.vectors)
  }

  predicate SvdShaped(f: SvdFactors, S: nat, T: nat) {
    var R := Min(S, T);
    && IsMatrix(f.U, S, R) && IsRect(f.U)
    && |f.s| == R
    && IsMatrix(f.Vh, R, T) && IsRect(f.Vh)
  }

  /** The shapes numpy's routines return: n eigenpairs of an n x n matrix, and an economy-size
      SVD with R = min(S, T). */
  ghost predicate Conforms(lib: LinAlg) {
    && (forall K {:trigger lib.eig(K)} :: IsMatrix(K, |K|, |K|) ==> EigShaped(lib.eig(K), |K|))
    && (forall M {:trigger lib.svd(M)} :: IsRect(M) ==> SvdShaped(lib.svd(M), |M|, Cols(M)))
  }

  /** A data matrix with at least one row and one column. */
  predicate IsData(x: Matrix) {
    IsRect(x) && |x| >= 1 && Cols(x) >= 1
  }

  /** `POD.classic`: eigendecomposition of the spatial covariance X*X.T, eigenpairs sorted by
      descending eigenvalue, Sigma = sqrt(Lambda), Psi = X.T*Phi*diag(1/Sigma). */
  function ClassicResult(x: Matrix, lib: LinAlg): (d: Decomposition)
    requires IsData(x) && Conforms(lib)
    ensures Shaped(d, |x|, Cols(x)) && |d.Sigma| == |x|
  {
    var K := MatMul(x, Transpose(x));
    var e := SortEigenpairs(lib.eig(K));
    var Sigma := Elementwise(lib.sqrt, e.Lambda);
    var Psi := MatMul(MatMul(Transpose(x), e.vectors), Diag(Elementwise(lib.reciprocal, Sigma)));
    Decomposition(e.vectors, Sigma, Psi)
  }

  /** `POD.snapshot`: eigendecomposition of the temporal covariance X.T*X, eigenpairs sorted by
      descending eigenvalue, Sigma = sqrt(Lambda), Phi = X*Psi*diag(1/Sigma). */
  function SnapshotResult(x: Matrix, lib: LinAlg): (d: Decomposition)
    requires IsData(x) && Conforms(lib)
    ensures Shaped(d, |x|, Cols(x)) && |d.Sigma| == Cols(x)
  {
    var K := MatMul(Transpose(x), x);
    var e := SortEigenpairs(lib.eig(K));
    var Sigma := Elementwise(lib.sqrt, e.Lambda);
    var Phi := MatMul(MatMul(x, e.vectors), Diag(Elementwise(lib.reciprocal, Sigma)));
    Decomposition(Phi, Sigma, e.vectors)
  }

  /** `POD.svd` as helpers.py:139 writes it: the third factor numpy returns is V transposed
      (R x T), and it is stored as Psi unchanged. */
  function SvdAsWritten(x: Matrix, lib: LinAlg): (d: Decomposition)
    requires IsData(x) && Conforms(lib)
    ensures IsMatrix(d.Psi, Min(|x|, Cols(x)), Cols(x))
  {
    var f := lib.svd(x);
    Decomposition(f.U, f.s, f.Vh)
  }

  /** `POD.svd` with Psi laid out as the other two algorithms lay it out (T x R): the transpose of
      the factor numpy returns. */
  function SvdResult(x: Matrix, lib: LinAlg): (d: Decomposition)
    requires IsData(x) && Conforms(lib)
    ensures Shaped(d, |x|, Cols(x)) && |d.Sigma| == Min(|x|, Cols(x))
  {
    var f := lib.svd(x);
    Decomposition(f.U, f.s, Transpose(f.Vh))
  }

  datatype Algorithm = ClassicMethod | SnapshotMethod | SvdMethod

  /** The branch `POD.fit` takes for a method name. */
  function Dispatch(name: string): (a: Algorithm)
    ensures a == SnapshotMethod <==> name == "snapshot"
    ensures a == SvdMethod <==> name == "svd"
    ensures a == ClassicMethod <==> name != "snapshot" && name != "svd"
  {
    if name == "snapshot" then SnapshotMethod
    else if name == "svd" then SvdMethod
    else ClassicMethod
  }

  function Decompose(a: Algorithm, x: Matrix, lib: LinAlg): (d: Decomposition)
    requires IsData(x) && Conforms(lib)
    ensures Shaped(d, |x|, Cols(x))
  {
    match a
    case ClassicMethod => ClassicResult(x, lib)
    case SnapshotMethod => SnapshotResult(x, lib)
    case SvdMethod => SvdResult(x, lib)
  }

  ghost predicate Monotone(f: real -> real) {
    forall a, b :: a <= b ==> f(a) <= f(b)
  }

  /** Classic: column k of Phi is the eigenvector of X*X.T that belongs to the k-th largest
      eigenvalue, Sigma[k] is that eigenvalue's square root, and every eigenpair numpy returned
      is used exactly once. */
  lemma ClassicSortsEigenpairs(x: Matrix, lib: LinAlg)
    requires IsData(x) && Conforms(lib)
    ensures var e := lib.eig(MatMul(x, Transpose(x)));
      var d := ClassicResult(x, lib);
      exists L: seq<real> ::
        && |L| == |d.Sigma|
        && NonIncreasing(L)
        && (forall k :: 0 <= k < |L| ==> d.Sigma[k] == lib.sqrt(L[k]))
        && multiset(Eigenpairs(EigenDecomposition(L, d.Phi))) == multiset(Eigenpairs(e))
  {
    var e := lib.eig(MatMul(x, Transpose(x)));
    var s := SortEigenpairs(e);
    SortEigenpairsCorrect(e);
    assert ClassicResult(x, lib).Phi == s.vectors;
  }

  /** Snapshot: column k of Psi is the eigenvector of X.T*X that belongs to the k-th largest
      eigenvalue, Sigma[k] is that eigenvalue's square root, and every eigenpair numpy returned
      is used exactly once. */
  lemma SnapshotSortsEigenpairs(x: Matrix, lib: LinAlg)
    requires IsData(x) && Conforms(lib)
    ensures var e := lib.eig(MatMul(Transpose(x), x));
      var d := SnapshotResult(x, lib);
      exists L: seq<real> ::
        && |L| == |d.Sigma|
        && NonIncreasing(L)
        && (forall k :: 0 <= k < |L| ==> d.Sigma[k] == lib.sqrt(L[k]))
        && multiset(Eigenpairs(EigenDecomposition(L, d.Psi))) == multiset(Eigenpairs(e))
  {
    var e := lib.eig(MatMul(Transpose(x), x));
    var s := SortEigenpairs(e);
    SortEigenpairsCorrect(e);
    assert SnapshotResult(x, lib).Psi == s.vectors;
  }

  /** Classic: the time coefficient Psi[t][k] is snapshot t projected on mode k, divided by
      Sigma[k] (through `np.reciprocal`). */
  lemma {:induction false} ClassicCoefficients(x: Matrix, lib: LinAlg, t: nat, k: nat)
    requires IsData(x) && Conforms(lib) && t < Cols(x) && k < |x|
    ensures var d := ClassicResult(x, lib);
      d.Psi[t][k] == Scale(Dot(Column(x, t), Column(d.Phi, k)), lib.reciprocal(d.Sigma[k]))
  {
    var d := ClassicResult(x, lib);
    var xt := Transpose(x);
    ScaledProductEntry(d.Psi, xt, d.Phi, lib.reciprocal, d.Sigma, t, k);
    assert xt[t] == Column(x, t);
  }

  /** Snapshot: the mode entry Phi[r][k] is row r of X projected on coefficient column k, divided
      by Sigma[k] (through `np.reciprocal`). */
  lemma {:induction false} SnapshotModes(x: Matrix, lib: LinAlg, r: nat, k: nat)
    requires IsData(x) && Conforms(lib) && r < |x| && k < Cols(x)
    ensures var d := SnapshotResult(x, lib);
      d.Phi[r][k] == Scale(Dot(x[r], Column(d.Psi, k)), lib.reciprocal(d.Sigma[k]))
  {
    var d := SnapshotResult(x, lib);
    ScaledProductEntry(d.Phi, x, d.Psi, lib.reciprocal, d.Sigma, r, k);
  }

  /** Sigma comes out non-increasing from every algorithm: for classic and snapshot because the
      eigenvalues are sorted and the square root is monotone, for svd because numpy returns the
      singular values in descending order. */
  lemma SigmaNonIncreasing(a: Algorithm, x: Matrix, lib: LinAlg)
    requires IsData(x) && Conforms(lib) && Monotone(lib.sqrt)
    requires a == SvdMethod ==> NonIncreasing(lib.svd(x).s)
    ensures NonIncreasing(Decompose(a, x, lib).Sigma)
  {
    match a
    case ClassicMethod => SortEigenpairsCorrect(lib.eig(MatMul(x, Transpose(x))));
    case SnapshotMethod => SortEigenpairsCorrect(lib.eig(MatMul(Transpose(x), x)));
    case SvdMethod =>
  }

  /** `X -= meanX` on an `np.matrix`: the mean of row r is subtracted from every entry of row r,
      in place. */
  method SubtractRowMeans(X: array2<real>, means: seq<real>)
    requires |means| == X.Length0
    modifies X
    ensures Values(X) == Centered(old(Values(X)), means)
  {
    ghost var raw := Values(X);
    var S, T := X.Length0, X.Length1;
    var r := 0;
    while r < S
      invariant 0 <= r <= S
      invariant forall i, j :: 0 <= i < r && 0 <= j < T ==> X[i, j] == raw[i][j] - means[i]
      invariant forall i, j :: r <= i < S && 0 <= j < T ==> X[i, j] == raw[i][j]
    {
      var t := 0;
      while t < T
        invariant 0 <= t <= T
        invariant forall i, j :: 0 <= i < r && 0 <= j < T ==> X[i, j] == raw[i][j] - means[i]
        invariant forall j :: 0 <= j < t ==> X[r, j] == raw[r][j] - means[r]
        invariant forall i, j :: r <= i < S && 0 <= j < T && (i > r || j >= t) ==> X[i, j] == raw[i][j]
      {
        X[r, t] := X[r, t] - means[r];
        t := t + 1;
      }
      r := r + 1;
    }
    MatrixEquality(Values(X), Centered(raw, means), S, T);
  }

  class POD {
    var X: array2<real>
    var meanX: Option<seq<real>>
    var m: int
    var n: int
    var nx: int
    var ny: int
    /** `self.method`; absent (None) until `fit` runs. */
    var methodName: Option<string>
    var Phi: Matrix
    var Sigma: seq<real>
    var Psi: Matrix

    /** The data matrix has at least one row and one column, and a stored mean has one entry
        per row. */
    ghost predicate DataValid()
      reads this
    {
      && X.Length0 >= 1 && X.Length1 >= 1
      && (meanX.Some? ==> |meanX.value| == X.Length0)
    }

    /** Phi is S x R, Sigma has R entries and Psi is T x R; R is 0 until a decomposition runs. */
    ghost predicate Valid()
      reads this
    {
      DataValid() && Shaped(Decomp(), X.Length0, X.Length1)
    }

    function Decomp(): Decomposition
      reads this
    {
      Decomposition(Phi, Sigma, Psi)
    }

    /** `POD.__init__`: copy the selected field into X; when centered, store the row means and
        subtract them from X in place; read the grid scalars as integers. By default the
        vorticity field is taken and centered. No decomposition has run yet: there are no modes,
        so Phi is S x 0 and Psi is T x 0. */
    constructor (data: Dataset, field: string := "Vort", centered: bool := true)
      requires IsData(data.Get(SelectField(field)))
      ensures Valid() && fresh(X) && methodName == None && Sigma == []
      ensures var raw := data.Get(SelectField(field));
        && Values(X) == (if centered then Centered(raw, RowMeans(raw)) else raw)
        && meanX == (if centered then Some(RowMeans(raw)) else None)
      ensures m == TruncateToInt(data.m) && n == TruncateToInt(data.n)
      ensures nx == TruncateToInt(data.nx) && ny == TruncateToInt(data.ny)
    {
      var raw := data.Get(SelectField(field));
      var S, T := |raw|, |raw[0]|;
      X := new real[S, T]((r, t) requires 0 <= r < S && 0 <= t < T => raw[r][t]);
      meanX := None;
      m := TruncateToInt(data.m);
      n := TruncateToInt(data.n);
      nx := TruncateToInt(data.nx);
      ny := TruncateToInt(data.ny);
      methodName := None;
      Phi, Sigma, Psi := seq(S, r => []), [], seq(T, t => []);
      new;
      MatrixEquality(Values(X), raw, S, T);
      if centered {
        var means := RowMeans(Values(X));
        meanX := Some(means);
        SubtractRowMeans(X, means);
      }
    }

    /** `POD.fit`: record the method name as given, then run snapshot for "snapshot", svd for
        "svd" and classic for every other name, "classic" being the default. */
    method Fit(lib: LinAlg, name: string := "classic")
      requires Valid() && Conforms(lib)
      modifies this`methodName, this`Phi, this`Sigma, this`Psi
      ensures Valid() && methodName == Some(name)
      ensures Decomp() == Decompose(Dispatch(name), Values(X), lib)
    {
      methodName := Some(name);
      if name == "snapshot" {
        Snapshot(lib);
        assert Dispatch(name) == SnapshotMethod;
      } else if name == "svd" {
        Svd(lib);
        assert Dispatch(name) == SvdMethod;
      } else {
        Classic(lib);
        assert Dispatch(name) == ClassicMethod;
      }
    }

    /** `POD.classic`, step by step. */
    method Classic(lib: LinAlg)
      requires DataValid() && Conforms(lib)
      modifies this`Phi, this`Sigma, this`Psi
      ensures Valid()
      ensures Decomp() == ClassicResult(Values(X), lib)
    {
      var x := Values(X);
      var K := MatMul(x, Transpose(x));
      var e := lib.eig(K);
      var Lambda := e.Lambda;
      Phi := e.vectors;
      var idx := ArgsortDescending(Lambda);
      Lambda := Permute(Lambda, idx);
      Phi := PermuteColumns(Phi, idx);
      assert SortEigenpairs(e) == EigenDecomposition(Lambda, Phi);
      Sigma := Elementwise(lib.sqrt, Lambda);
      Psi := MatMul(MatMul(Transpose(x), Phi), Diag(Elementwise(lib.reciprocal, Sigma)));
      assert Decomp() == ClassicResult(x, lib);
    }

    /** `POD.snapshot`, step by step. */
    method Snapshot(lib: LinAlg)
      requires DataValid() && Conforms(lib)
      modifies this`Phi, this`Sigma, this`Psi
      ensures Valid()
      ensures Decomp() == SnapshotResult(Values(X), lib)
    {
      var x := Values(X);
      var K := MatMul(Transpose(x), x);
      var e := lib.eig(K);
      var Lambda := e.Lambda;
      Psi := e.vectors;
      var idx := ArgsortDescending(Lambda);
      Lambda := Permute(Lambda, idx);
      Psi := PermuteColumns(Psi, idx);
      assert SortEigenpairs(e) == EigenDecomposition(Lambda, Psi);
      Sigma := Elementwise(lib.sqrt, Lambda);
      Phi := MatMul(MatMul(x, Psi), Diag(Elementwise(lib.reciprocal, Sigma)));
      assert Decomp() == SnapshotResult(x, lib);
    }

    /** `POD.svd`, storing Psi as T x R, the layout `classic`, `snapshot` and `reconstruct` use.
        helpers.py:139 stores numpy's third factor untransposed; that line as written is
        `SvdAsWritten`, and SvdLayout shows where the two differ. */
    method Svd(lib: LinAlg)
      requires DataValid() && Conforms(lib)
      modifies this`Phi, this`Sigma, this`Psi
      ensures Valid()
      ensures Decomp() == SvdResult(Values(X), lib)
    {
      var f := lib.svd(Values(X));
      Phi, Sigma, Psi := f.U, f.s, Transpose(f.Vh);
    }
  }
}
