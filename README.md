# POD of a flow field, in Dafny

This project models the proper orthogonal decomposition (POD) core of
`Example_project/helpers.py`. The `POD` class takes one field of a flow dataset as a
snapshot matrix X. X has S rows, one per spatial grid point, and T columns, one per time sample.
The class can subtract each row's temporal mean from X. It then decomposes X into spatial modes
Phi, singular values Sigma and time coefficients Psi, using one of three algorithms: classic
(eigenpairs of X*X.T), snapshot (eigenpairs of X.T*X) or svd.

`PODplot.reconstruct` rebuilds a low-rank approximation of X from a chosen list of modes. It then
cuts every snapshot into an (nx, ny) grid.

Modules:

- `Matrices`: dense real matrices as sequences of rows. It provides the numpy operations the
  class uses: `*` on `np.matrix`, `.T`, `np.diag`, element-wise functions, and inner products.
- `EigenOrder`: `Lambda.argsort()[::-1]` and the reordering of eigenvalues and eigenvector
  columns by one permutation.
- `Pod`: field selection, the dataset, and the class `POD` with its constructor and `Fit`,
  `Classic`, `Snapshot` and `Svd`. X is a two-dimensional array, because centering changes it in
  place. Phi, Sigma and Psi are values that the methods reassign.
- `PodPlot`: the rank-one sums of `reconstruct`, the C-order reshape and the axis swap, and the
  class `PODplot` with `Reconstruct`.
- `SvdLayout`: the layout of Psi after `svd` (see Findings).

The numpy routines `np.linalg.eig`, `np.linalg.svd`, `np.sqrt` and `np.reciprocal` are passed in
as the fields of a `LinAlg` value. Throughout, the only property assumed of them is that the eig
and svd results have the shapes numpy returns (`Pod.Conforms`). One lemma assumes more, and
states it as hypotheses. `Pod.SigmaNonIncreasing` also assumes that `np.sqrt` is monotone
(`Monotone(lib.sqrt)`). For svd it also assumes that numpy's singular values come out in
descending order (`NonIncreasing(lib.svd(x).s)`). Apart from the svd layout below, the model
follows the code's control and data flow around these routines.

Three behaviours of the code matter for the model:

- `classic` keeps all S eigenpairs of the S x S matrix X*X.T, and `snapshot` keeps all T
  eigenpairs of X.T*X. So R is S for classic and T for snapshot, and min(S, T) for svd.
- `svd` stores numpy's third factor, which is V transposed (R x T), as Psi. The other two
  algorithms and `reconstruct` use Psi as T x R, with the time coefficients of mode i in
  column i. This is a defect (see Findings), and here the model does not follow the code. `Pod.SvdAsWritten` is the line as written. The class `POD` stores the
  transpose, which is the layout that `classic`, `snapshot` and `reconstruct` use.
- numpy accepts a negative mode index and counts it from the end; the model requires
  0 <= i < R (see Left out).

## Model

| member | source | states |
|---|---|---|
| `Pod.SelectField` | Example_project/helpers.py:85-86 | 'U', 'V' and 'Vort' select their own field; every other name selects the vorticity field |
| `Pod.TruncateToInt` | Example_project/helpers.py:91-94 | `int()` of a float truncates toward zero: the result is within 1 of x, on the side of zero |
| `Pod.CenteredRowsSumToZero` | Example_project/helpers.py:88-90 | after the row means are subtracted, every row of X sums to zero |
| `Pod.SubtractRowMeans` | Example_project/helpers.py:90 | `X -= meanX` in place: the new X is the old X with mean r taken off every entry of row r |
| `Pod.RowMeans` | Example_project/helpers.py:89 | `np.mean(X, axis=1)` gives one mean per row of X; `CenteredRowsSumToZero` states what the means achieve |
| `Pod.Centered` | Example_project/helpers.py:90 | `X - meanX` keeps the S x T shape of X, and entry (r, t) is X[r][t] minus the mean of row r |
| `Pod.POD.constructor` | Example_project/helpers.py:82-94 | the defaults are field 'Vort' and centered. X is a fresh copy of the selected field. When centered, meanX holds the row means and X is centered; otherwise X is the raw field and no mean is stored. m, n, nx and ny are the truncated scalars. No method has run yet: there are no modes (R = 0), so `reconstruct` accepts only the empty mode list, as in the source, where every other list fails on the missing Phi |
| `Pod.Dispatch` | Example_project/helpers.py:99-104 | "snapshot" selects snapshot, "svd" selects svd, and any other name selects classic (each an if-and-only-if) |
| `Pod.POD.Fit` | Example_project/helpers.py:96-104 | the default method is 'classic'. The method name is recorded as given, and (Phi, Sigma, Psi) is the decomposition of X by the algorithm `Dispatch` selects, with consistent shapes |
| `EigenOrder.ArgsortDescending` | Example_project/helpers.py:113 | `argsort()[::-1]` is a permutation of the indices that orders the eigenvalues from largest to smallest |
| `EigenOrder.SortEigenpairs` | Example_project/helpers.py:112-114 | reordering by the descending argsort keeps the number of eigenvalues and the S x R shape of the eigenvector matrix; `SortEigenpairsCorrect` states the order and the pairing |
| `EigenOrder.SortEigenpairsCorrect` | Example_project/helpers.py:113-114 | after the reorder, the eigenvalues do not increase, and the (eigenvalue, eigenvector column) pairs are the pairs numpy returned, each used as often as before |
| `EigenOrder.PermuteDescendingMultiset` | Example_project/helpers.py:114 | reordering any list co-indexed with the eigenvalues by that index list keeps every entry as often as it occurs |
| `Pod.POD.Classic` | Example_project/helpers.py:106-120 | the object stays valid: Phi is S x R and Psi is T x R, and they hold the step-by-step result: eig of X*X.T, sorted, Sigma = sqrt(Lambda), Psi = X.T*Phi*diag(1/Sigma) |
| `Pod.ClassicResult` | Example_project/helpers.py:106-120 | classic gives Phi S x S, Sigma with S entries and Psi T x S; its content is stated by `ClassicSortsEigenpairs` and `ClassicCoefficients` |
| `Pod.ClassicSortsEigenpairs` | Example_project/helpers.py:107-117 | the columns of Phi are exactly the eigenvectors of X*X.T, each with its own eigenvalue, and the eigenvalues behind Sigma = sqrt(eigenvalue) do not increase |
| `Pod.ClassicCoefficients` | Example_project/helpers.py:120 | Psi[t][k] is snapshot t of X projected on mode k, times `np.reciprocal(Sigma[k])` |
| `Pod.POD.Snapshot` | Example_project/helpers.py:122-136 | the object stays valid: Phi is S x R and Psi is T x R, and they hold the step-by-step result: eig of X.T*X, sorted, Sigma = sqrt(Lambda), Phi = X*Psi*diag(1/Sigma) |
| `Pod.SnapshotResult` | Example_project/helpers.py:122-136 | snapshot gives Phi S x T, Sigma with T entries and Psi T x T; its content is stated by `SnapshotSortsEigenpairs` and `SnapshotModes` |
| `Pod.SnapshotSortsEigenpairs` | Example_project/helpers.py:123-133 | the columns of Psi are exactly the eigenvectors of X.T*X, each with its own eigenvalue, and the eigenvalues behind Sigma do not increase |
| `Pod.SnapshotModes` | Example_project/helpers.py:136 | Phi[r][k] is row r of X projected on coefficient column k, times `np.reciprocal(Sigma[k])` |
| `Pod.POD.Svd` | Example_project/helpers.py:138-139 | Phi = U and Sigma = s; Psi is numpy's third factor transposed to T x R, as the other two algorithms lay it out (corrected; see Findings) |
| `Pod.SvdResult` | Example_project/helpers.py:139 | the corrected svd result has Phi S x R, Sigma with R = min(S, T) entries and Psi T x R; `SvdLayout.SvdReconstructsAll` states what it reconstructs |
| `Pod.Decompose` | Example_project/helpers.py:99-104 | whichever algorithm `fit` dispatches to, the result has Phi S x R and Psi T x R, R being the number of singular values |
| `Pod.SigmaNonIncreasing` | Example_project/helpers.py:113-117 | for every algorithm, Sigma comes out non-increasing: classic and snapshot when the square root is monotone, svd when numpy's singular values are sorted |
| `PodPlot.ModeSum` | Example_project/helpers.py:152-153 | one mode contributes exactly its rank-one term Phi[r][i]*Sigma[i]*Psi[t][i]; the lemmas below state the sum for longer lists |
| `PodPlot.ModeSumAppend` | Example_project/helpers.py:152-153 | accumulating a list of modes in two pieces gives the sum of the two partial accumulations |
| `PodPlot.ModeSumByMultiplicity` | Example_project/helpers.py:152-153 | the accumulated sum adds each mode's rank-one term as many times as mode_idx lists it |
| `PodPlot.ModeSumPermutation` | Example_project/helpers.py:152-153 | two mode lists that hold the same modes equally often give the same approximation, whatever the order |
| `PodPlot.ModeSumRepeated` | Example_project/helpers.py:152-153 | a mode listed twice adds its rank-one term twice |
| `PodPlot.ModeSumAllModes` | Example_project/helpers.py:149-153 | accumulating every mode gives the full product Phi*diag(Sigma)*Psi.T |
| `PodPlot.Approximation` | Example_project/helpers.py:149-153 | Xhat is S x T, and entry (r, t) is the accumulated sum of the rank-one terms of mode_idx |
| `PodPlot.ReshapeRowMajor` | Example_project/helpers.py:158 | `np.reshape(column, (ny, nx))` gives a ny x nx grid; `ReconstructionCell` and `ReconstructionRoundTrip` state where each entry goes |
| `PodPlot.SwapLastAxes` | Example_project/helpers.py:160 | `np.transpose(grids, (0, 2, 1))` keeps one grid per snapshot, in order, and grid s of the result is grid s transposed |
| `PodPlot.Reconstruction` | Example_project/helpers.py:146-160 | when the reshape succeeds there is one grid per snapshot; the lemmas below state the grids' shape and cells |
| `PodPlot.AddRankOne` | Example_project/helpers.py:153 | `Xhat += Phi[:,i]*Sigma[i]*Psi[:,i].T` in place: entry (r, t) grows by Phi[r][i]*Sigma[i]*Psi[t][i] |
| `PodPlot.PODplot.constructor` | Example_project/helpers.py:143-144 | the plotter holds the POD object it was given |
| `PodPlot.PODplot.Reconstruct` | Example_project/helpers.py:146-160 | the result is the reconstruction of the decomposition the object holds (none before a decomposition runs): the rank-one sums of mode_idx, cut into grids (or a reshape error) |
| `PodPlot.ReconstructionShape` | Example_project/helpers.py:156-160 | the reshape succeeds exactly when nx and ny are positive and ny*nx == S. It then gives one grid per snapshot, each nx x ny after the axis swap |
| `PodPlot.UnravelPosition` | Example_project/helpers.py:156-160 | position p of grid t read back in column-major order is entry (p, t) of Xhat |
| `PodPlot.ReconstructionCell` | Example_project/helpers.py:156-160 | cell (j, k) of snapshot t holds entry k*nx + j of column t of Xhat, i.e. the C-order reshape to (ny, nx) followed by the swap of the last two axes |
| `PodPlot.ReconstructionRoundTrip` | Example_project/helpers.py:157-160 | reading grid t back in column-major order gives column t of Xhat: the reshape loses nothing |
| `PodPlot.ReconstructionNoModes` | Example_project/helpers.py:149 | with an empty mode list, every cell is the zero that `np.zeros_like` put there |
| `PodPlot.ReconstructionAllModes` | Example_project/helpers.py:146-160 | with every mode, the grids lay out the full product Phi*diag(Sigma)*Psi.T |
| `Pod.SvdAsWritten` | Example_project/helpers.py:139 | the line as written: Psi is numpy's third factor unchanged, R x T |
| `SvdLayout.SvdReconstructsAll` | Example_project/helpers.py:139 | with Psi stored transposed, accumulating every mode gives U*diag(s)*Vh, hence X whenever numpy's factorisation is exact |
| `SvdLayout.SvdAsWrittenShaped` | Example_project/helpers.py:139 | Psi as the line stores it has the T x R layout the class relies on if and only if S >= T, whatever signs the svd returns |
| `SvdLayout.SvdAsWrittenMisreconstructs` | Example_project/helpers.py:139 | for an exact SVD of a 2 x 2 matrix with U = I, the line as written reconstructs the wrong entry; the corrected layout reconstructs the right one |

## Left out

- Loading the dataset from disk and `CylinderPOD.py` are I/O and a driver script; they are not part of this model.
- `PODplot.energy`, `PODplot.modes` and `PODplot.tvc` only draw plots; they are not modelled.
- The numerics of `np.linalg.eig`, `np.linalg.svd`, `np.sqrt` and `np.reciprocal` are not modelled. They are given functions, and only the shapes of the eig and svd results are assumed. Nothing is claimed about eigenvalue accuracy, complex eigenvalues from round-off, or division by a zero singular value.
- Float64 rounding is not modelled: all arithmetic is exact over the reals. In particular, the order independence of `ModeSumPermutation` holds for exact sums only.
- EigenOrder.ArgsortDescending: ties among equal eigenvalues are broken in a fixed, stable way. numpy's default sort promises no tie order. The proved properties (a permutation that gives non-increasing values and keeps the eigenpairs together) hold for any tie order.
- Pod.POD.constructor: requires the selected field to be a non-empty rectangular matrix. On empty data, numpy produces NaN means or empty arrays instead.
- Pod.POD.Svd: stores Vh.T, the layout that classic, snapshot and reconstruct assume, where helpers.py:139 stores Vh itself. The line as written is `Pod.SvdAsWritten` (see Findings), so after an svd fit the class holds the corrected state and not the program's.
- Pod.POD.constructor: `self.meanX` is not set by the source when `centered` is false, so reading it raises an error; the model stores None. The source likewise sets `self.Phi`, `self.Sigma` and `self.Psi` only when a decomposition runs; the model starts them as the empty decomposition (R = 0: Phi S x 0, Sigma empty, Psi T x 0), so that `reconstruct([])` gives the all-zero grids the source gives. `self.method` is called `methodName`, because `method` is a Dafny keyword.
- PodPlot.PODplot.Reconstruct: requires mode indices 0 <= i < R. Before any decomposition R is 0, so only the empty mode list is accepted; it gives all-zero grids, as the source does, and the source raises an attribute error for every other list. numpy also accepts negative indices -R <= i < 0, counting from the end.
- PodPlot.PODplot.Reconstruct: only positive nx and ny with ny*nx == S reshape successfully. numpy also infers one negative dimension from S; the model reports that case as a reshape error.

## Findings

| source | as written | input that shows it | evidently intended | confidence | as-written member | corrected member |
|---|---|---|---|---|---|---|
| Example_project/helpers.py:139 | `svd` stores numpy's third factor Vh (V transposed, R x T) as Psi, while `classic`, `snapshot` and `reconstruct` use Psi as T x R (column i holds the time coefficients of mode i) | X = [[0, 2], [-1, 0]] with the exact SVD U = I, s = [2, 1], Vh = [[0, 1], [-1, 0]]: `reconstruct([0, 1])` gives -2 at (0, 1) where X holds 2. This witness assumes numpy returns U = I; other sign choices, such as U = diag(-1, 1) with a symmetric Vh, happen to reconstruct that entry correctly. Whatever the signs, with S < T (and R > 1) `Psi[:,i].T` has R entries instead of T, and the sum in `reconstruct` fails to broadcast (`SvdLayout.SvdAsWrittenShaped`) | Psi = Vh.T, so that reconstructing from every mode returns U*diag(s)*Vh = X | not executed | `SvdLayout.SvdAsWrittenMisreconstructs` | `SvdLayout.SvdReconstructsAll` |
