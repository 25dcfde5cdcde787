/** The ordering step shared by `POD.classic` and `POD.snapshot`:
    `idx = Lambda.argsort()[::-1]`, then `Lambda[idx]` and `vectors[:, idx]`. */
module EigenOrder {
  import opened Matrices

  /** What `np.linalg.eig` returns: eigenvalues and, column by column, their eigenvectors. */
  datatype EigenDecomposition = EigenDecomposition(Lambda: seq<real>, vectors: Matrix)

  /** One eigenvalue together with the eigenvector that belongs to it. */
  datatype Eigenpair = Eigenpair(value: real, vector: seq<real>)

  /** Every index in p is an index of lambda. */
  predicate IndicesOf(lambda: seq<real>, p: seq<int>) {
    forall k :: 0 <= k < |p| ==> 0 <= p[k] < |lambda|
  }

  /** `s[idx]`: the entries of s picked in the order idx lists them. */
  function Permute<T>(s: seq<T>, idx: seq<int>): (r: seq<T>)
    requires forall k :: 0 <= k < |idx| ==> 0 <= idx[k] < |s|
    ensures |r| == |idx| && forall k :: 0 <= k < |idx| ==> r[k] == s[idx[k]]
  {
    seq(|idx|, k requires 0 <= k < |idx| => s[idx[k]])
  }

  /** `M[:, idx]`: the columns of M picked in the order idx lists them. */
  function PermuteColumns(M: Matrix, idx: seq<int>): (r: Matrix)
    requires IsRect(M) && forall k :: 0 <= k < |idx| ==> 0 <= idx[k] < Cols(M)
    ensures IsMatrix(r, |M|, |idx|) && IsRect(r)
    ensures forall k :: 0 <= k < |idx| && |M| > 0 ==> Column(r, k) == Column(M, idx[k])
  {
    var r := seq(|M|, i requires 0 <= i < |M| => seq(|idx|, k requires 0 <= k < |idx| => M[i][idx[k]]));
    assert forall k :: 0 <= k < |idx| && |M| > 0 ==> Column(r, k) == Column(M, idx[k]);
    r
  }

  function Reversed<T>(s: seq<T>): (r: seq<T>)
    ensures |r| == |s| && forall k :: 0 <= k < |s| ==> r[k] == s[|s| - 1 - k]
  {
    seq(|s|, k requires 0 <= k < |s| => s[|s| - 1 - k])
  }

  /** The values picked by p do not decrease. */
  predicate AscendingBy(lambda: seq<real>, p: seq<int>) {
    IndicesOf(lambda, p) && forall a, b :: 0 <= a < b < |p| ==> lambda[p[a]] <= lambda[p[b]]
  }

  predicate NonIncreasing(s: seq<real>) {
    forall a, b :: 0 <= a < b < |s| ==> s[a] >= s[b]
  }

  /** Inserts index j into p after every index whose value is at most lambda[j]: one step of a
      stable ascending argsort. */
  function InsertAscending(lambda: seq<real>, p: seq<int>, j: nat): (r: seq<int>)
    requires j < |lambda| && IndicesOf(lambda, p)
    ensures |r| == |p| + 1 && IndicesOf(lambda, r)
    ensures multiset(r) == multiset(p) + multiset{j}
  {
    if p == [] then [j]
    else if lambda[j] < lambda[p[0]] then [j] + p
    else
      var rest := InsertAscending(lambda, p[1..], j);
      assert p == [p[0]] + p[1..];
      [p[0]] + rest
  }

  /** Inserting into an ascending index list keeps it ascending. */
  lemma {:induction false} InsertAscendingSorted(lambda: seq<real>, p: seq<int>, j: nat)
    requires j < |lambda| && AscendingBy(lambda, p)
    ensures AscendingBy(lambda, InsertAscending(lambda, p, j))
  {
    if p != [] && lambda[j] >= lambda[p[0]] {
      var rest := InsertAscending(lambda, p[1..], j);
      InsertAscendingSorted(lambda, p[1..], j);
      forall b | 0 <= b < |rest|
        ensures lambda[p[0]] <= lambda[rest[b]]
      {
        assert rest[b] in multiset(rest);
        if rest[b] != j {
          assert rest[b] in multiset(p[1..]);
          var m :| 0 <= m < |p[1..]| && p[1..][m] == rest[b];
          assert p[m + 1] == rest[b];
        }
      }
    }
  }

  /** `Lambda.argsort()` restricted to the first n indices (ties keep index order). */
  function ArgsortAscending(lambda: seq<real>, n: nat): (p: seq<int>)
    requires n <= |lambda|
    ensures multiset(p) == multiset(Range(n))
    ensures AscendingBy(lambda, p)
  {
    if n == 0 then []
    else
      var prev := ArgsortAscending(lambda, n - 1);
      InsertAscendingSorted(lambda, prev, n - 1);
      var p := InsertAscending(lambda, prev, n - 1);
      assert Range(n) == Range(n - 1) + [n - 1];
      p
  }

  /** `Lambda.argsort()[::-1]`: a permutation of the indices that lists the eigenvalues from
      largest to smallest. */
  function ArgsortDescending(lambda: seq<real>): (idx: seq<int>)
    ensures |idx| == |lambda| && IndicesOf(lambda, idx)
    ensures multiset(idx) == multiset(Range(|lambda|))
    ensures NonIncreasing(Permute(lambda, idx))
  {
    var asc := ArgsortAscending(lambda, |lambda|);
    assert |asc| == |multiset(asc)| == |lambda|;
    ReversedMultiset(asc);
    Reversed(asc)
  }

  lemma {:induction false} ReversedMultiset<T>(s: seq<T>)
    ensures multiset(Reversed(s)) == multiset(s)
  {
    if |s| > 0 {
      ReversedMultiset(s[1..]);
      assert Reversed(s) == Reversed(s[1..]) + [s[0]];
      assert s == [s[0]] + s[1..];
    }
  }

  /** Picking by a concatenation of index lists picks by each list in turn. */
  lemma PermuteConcat<T>(q: seq<T>, a: seq<int>, b: seq<int>)
    requires forall k :: 0 <= k < |a| ==> 0 <= a[k] < |q|
    requires forall k :: 0 <= k < |b| ==> 0 <= b[k] < |q|
    ensures Permute(q, a + b) == Permute(q, a) + Permute(q, b)
  {
  }

  /** Sorting one index list drags a co-indexed list of values along: inserting index j adds
      exactly q[j] to the picked values. */
  lemma {:induction false} PermuteInsertMultiset<T>(lambda: seq<real>, q: seq<T>, p: seq<int>, j: nat)
    requires |q| == |lambda| && j < |lambda| && IndicesOf(lambda, p)
    ensures multiset(Permute(q, InsertAscending(lambda, p, j))) == multiset(Permute(q, p)) + multiset{q[j]}
  {
    if p == [] {
      assert Permute(q, [j]) == [q[j]];
    } else if lambda[j] < lambda[p[0]] {
      PermuteConcat(q, [j], p);
      assert Permute(q, [j]) == [q[j]];
    } else {
      var rest := InsertAscending(lambda, p[1..], j);
      assert InsertAscending(lambda, p, j) == [p[0]] + rest;
      PermuteInsertMultiset(lambda, q, p[1..], j);
      PermuteConcat(q, [p[0]], rest);
      PermuteConcat(q, [p[0]], p[1..]);
      assert p == [p[0]] + p[1..];
      assert Permute(q, [p[0]]) == [q[p[0]]];
    }
  }

  lemma MultisetOfPrefix<T>(q: seq<T>, n: nat)
    requires 0 < n <= |q|
    ensures multiset(q[..n]) == multiset(q[..n - 1]) + multiset{q[n - 1]}
  {
    assert q[..n] == q[..n - 1] + [q[n - 1]];
  }

  lemma {:induction false} PermuteAscendingMultiset<T>(lambda: seq<real>, q: seq<T>, n: nat)
    requires |q| == |lambda| && n <= |lambda|
    ensures multiset(Permute(q, ArgsortAscending(lambda, n))) == multiset(q[..n])
  {
    if n > 0 {
      var prev := ArgsortAscending(lambda, n - 1);
      assert ArgsortAscending(lambda, n) == InsertAscending(lambda, prev, n - 1);
      PermuteAscendingMultiset(lambda, q, n - 1);
      PermuteInsertMultiset(lambda, q, prev, n - 1);
      MultisetOfPrefix(q, n);
    }
  }

  lemma PermuteReversed<T>(q: seq<T>, p: seq<int>)
    requires forall k :: 0 <= k < |p| ==> 0 <= p[k] < |q|
    ensures Permute(q, Reversed(p)) == Reversed(Permute(q, p))
  {
  }

  /** Reordering any list co-indexed with the eigenvalues by `argsort()[::-1]` keeps every entry,
      as often as it occurs: the result is a permutation of q. */
  lemma PermuteDescendingMultiset<T>(lambda: seq<real>, q: seq<T>)
    requires |q| == |lambda|
    ensures multiset(Permute(q, ArgsortDescending(lambda))) == multiset(q)
  {
    var asc := ArgsortAscending(lambda, |lambda|);
    assert ArgsortDescending(lambda) == Reversed(asc);
    PermuteAscendingMultiset(lambda, q, |lambda|);
    PermuteReversed(q, asc);
    ReversedMultiset(Permute(q, asc));
    assert q[..|q|] == q;
  }

  /** The eigenpairs of an eigendecomposition: value k with column k. */
  function Eigenpairs(e: EigenDecomposition): (ps: seq<Eigenpair>)
    requires IsRect(e.vectors) && Cols(e.vectors) == |e.Lambda|
    ensures |ps| == |e.Lambda|
  {
    seq(|e.Lambda|, k requires 0 <= k < |e.Lambda| => Eigenpair(e.Lambda[k], Column(e.vectors, k)))
  }

  /** Lines 112-114 and 128-130 of helpers.py: one index permutation reorders the eigenvalues and
      the eigenvector columns. */
  function SortEigenpairs(e: EigenDecomposition): (s: EigenDecomposition)
    requires IsRect(e.vectors) && Cols(e.vectors) == |e.Lambda|
    ensures |s.Lambda| == |e.Lambda| && IsMatrix(s.vectors, |e.vectors|, |e.Lambda|) && IsRect(s.vectors)
  {
    var idx := ArgsortDescending(e.Lambda);
    EigenDecomposition(Permute(e.Lambda, idx), PermuteColumns(e.vectors, idx))
  }

  /** After sorting, the eigenvalues are non-increasing and the
      (eigenvalue, eigenvector) pairs are exactly the pairs before sorting, with multiplicity:
      column k belongs to eigenvalue k. */
  lemma SortEigenpairsCorrect(e: EigenDecomposition)
    requires IsRect(e.vectors) && Cols(e.vectors) == |e.Lambda| && |e.vectors| > 0
    ensures NonIncreasing(SortEigenpairs(e).Lambda)
    ensures multiset(Eigenpairs(SortEigenpairs(e))) == multiset(Eigenpairs(e))
  {
    var idx := ArgsortDescending(e.Lambda);
    var s := SortEigenpairs(e);
    assert Eigenpairs(s) == Permute(Eigenpairs(e), idx);
    PermuteDescendingMultiset(e.Lambda, Eigenpairs(e));
  }
}
