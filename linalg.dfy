/** Real vectors and matrices, stored row by row, with the element-wise
    operations the clustering engine composes. */
module Linalg {

  type Vector = seq<real>
  type Matrix = seq<Vector>

  /** Every row of `m` has `cols` entries. */
  predicate HasCols(m: Matrix, cols: nat) {
    forall i :: 0 <= i < |m| ==> |m[i]| == cols
  }

  /** `m` is a `rows` x `cols` matrix. */
  predicate IsMatrix(m: Matrix, rows: nat, cols: nat) {
    |m| == rows && HasCols(m, cols)
  }

  function Zeros(n: nat): (v: Vector)
    ensures |v| == n && forall i :: 0 <= i < n ==> v[i] == 0.0
  {
    seq(n, _ => 0.0)
  }

  function ZeroMatrix(rows: nat, cols: nat): (m: Matrix)
    ensures IsMatrix(m, rows, cols)
    ensures forall i :: 0 <= i < rows ==> m[i] == Zeros(cols)
  {
    seq(rows, _ => Zeros(cols))
  }

  function VecAdd(u: Vector, v: Vector): (w: Vector)
    requires |u| == |v|
    ensures |w| == |u| && forall i :: 0 <= i < |w| ==> w[i] == u[i] + v[i]
  {
    seq(|u|, i requires 0 <= i < |u| => u[i] + v[i])
  }

  /** `a` and `b` have the same shape. */
  predicate SameShape(a: Matrix, b: Matrix) {
    |a| == |b| && forall i :: 0 <= i < |a| ==> |a[i]| == |b[i]|
  }

  function MatAdd(a: Matrix, b: Matrix): (c: Matrix)
    requires SameShape(a, b)
    ensures SameShape(c, a) && forall i :: 0 <= i < |c| ==> c[i] == VecAdd(a[i], b[i])
  {
    seq(|a|, i requires 0 <= i < |a| => VecAdd(a[i], b[i]))
  }

  /** Column-wise sum of the rows of `g` (numpy's `sum(axis = 0)`); the zero
      vector for no rows. */
  function ColumnSums(g: Matrix, cols: nat): (s: Vector)
    requires HasCols(g, cols)
    ensures |s| == cols
  {
    if |g| == 0 then Zeros(cols) else VecAdd(g[0], ColumnSums(g[1..], cols))
  }

  /** Sum of the entries of a real vector (`reduce_sum`). */
  function SumReals(v: Vector): real {
    if |v| == 0 then 0.0 else v[0] + SumReals(v[1..])
  }

  /** Sum of the entries of a vector of naturals. */
  function SumNats(v: seq<nat>): nat {
    if |v| == 0 then 0 else v[0] + SumNats(v[1..])
  }

  lemma {:induction false} VecAddComm(u: Vector, v: Vector)
    requires |u| == |v|
    ensures VecAdd(u, v) == VecAdd(v, u)
  {
  }

  lemma {:induction false} VecAddAssoc(u: Vector, v: Vector, w: Vector)
    requires |u| == |v| == |w|
    ensures VecAdd(VecAdd(u, v), w) == VecAdd(u, VecAdd(v, w))
  {
  }

  lemma {:induction false} VecAddZero(u: Vector)
    ensures VecAdd(u, Zeros(|u|)) == u && VecAdd(Zeros(|u|), u) == u
  {
  }

  lemma {:induction false} MatAddComm(a: Matrix, b: Matrix)
    requires SameShape(a, b)
    ensures MatAdd(a, b) == MatAdd(b, a)
  {
    forall i | 0 <= i < |a| ensures MatAdd(a, b)[i] == MatAdd(b, a)[i] {
      VecAddComm(a[i], b[i]);
    }
  }

  lemma {:induction false} MatAddAssoc(a: Matrix, b: Matrix, c: Matrix)
    requires SameShape(a, b) && SameShape(b, c)
    ensures MatAdd(MatAdd(a, b), c) == MatAdd(a, MatAdd(b, c))
  {
    forall i | 0 <= i < |a| ensures MatAdd(MatAdd(a, b), c)[i] == MatAdd(a, MatAdd(b, c))[i] {
      VecAddAssoc(a[i], b[i], c[i]);
    }
  }

  lemma {:induction false} MatAddZero(a: Matrix, cols: nat)
    requires IsMatrix(a, |a|, cols)
    ensures MatAdd(a, ZeroMatrix(|a|, cols)) == a
  {
    forall i | 0 <= i < |a| ensures MatAdd(a, ZeroMatrix(|a|, cols))[i] == a[i] {
      VecAddZero(a[i]);
    }
  }

  /** Summing the rows of two blocks separately and adding gives the sum of all rows. */
  lemma {:induction false} ColumnSumsConcat(g: Matrix, h: Matrix, cols: nat)
    requires HasCols(g, cols) && HasCols(h, cols)
    ensures HasCols(g + h, cols)
    ensures ColumnSums(g + h, cols) == VecAdd(ColumnSums(g, cols), ColumnSums(h, cols))
    decreases |g|
  {
    if |g| == 0 {
      assert g + h == h;
      VecAddZero(ColumnSums(h, cols));
    } else {
      assert (g + h)[1..] == g[1..] + h;
      ColumnSumsConcat(g[1..], h, cols);
      VecAddAssoc(g[0], ColumnSums(g[1..], cols), ColumnSums(h, cols));
    }
  }

  lemma {:induction false} SumRealsConcat(u: Vector, v: Vector)
    ensures SumReals(u + v) == SumReals(u) + SumReals(v)
    decreases |u|
  {
    if |u| == 0 {
      assert u + v == v;
    } else {
      assert (u + v)[1..] == u[1..] + v;
      SumRealsConcat(u[1..], v);
    }
  }

  /** Extending a prefix by one entry adds that entry to the sum. */
  lemma {:induction false} SumRealsPrefix(v: Vector, i: nat)
    requires i < |v|
    ensures SumReals(v[..i + 1]) == SumReals(v[..i]) + v[i]
  {
    assert v[..i + 1] == v[..i] + [v[i]];
    SumRealsConcat(v[..i], [v[i]]);
    assert SumReals([v[i]]) == v[i] + SumReals([]);
  }

  /** Rewrites both factors of a product at once, which keeps the solver
      away from nonlinear search. */
  lemma ProductCongruence(a: real, b: real, u: real, v: real, s: real)
    requires a == b && u == v && b * v == s
    ensures a * u == s
  {
  }
}
