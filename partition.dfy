/** The partitioner: the first `N mod P` rows of the observation matrix are
    dropped and the rest is split into P equal contiguous shards, one per
    compute unit. */
module Partitioner {
  import opened Linalg

  /** The shards' rows, in shard order. */
  function Concat(shards: seq<Matrix>): Matrix {
    if |shards| == 0 then [] else shards[0] + Concat(shards[1..])
  }

  /** `np.split(y, p)` for a `y` whose row count is `p * n`: p blocks of n rows. */
  function SplitEqual(y: Matrix, p: nat, n: nat): (shards: seq<Matrix>)
    requires |y| == p * n
    ensures |shards| == p && forall s :: 0 <= s < p ==> |shards[s]| == n
    ensures Concat(shards) == y
    decreases p
  {
    if p == 0 then []
    else
      assert p * n == (p - 1) * n + n;
      var rest := SplitEqual(y[n..], p - 1, n);
      var shards := [y[..n]] + rest;
      assert shards[1..] == rest;
      assert Concat(shards) == y[..n] + y[n..];
      assert y[..n] + y[n..] == y;
      shards
  }

  /** The source's `np.split(X[N % P:, :], P)`; P is the length of the
      validated GPU list, so it is at least 1. */
  function Partition(x: Matrix, p: nat): (shards: seq<Matrix>)
    requires p >= 1
    ensures |shards| == p
    ensures forall s :: 0 <= s < p ==> |shards[s]| == |x| / p
    ensures Concat(shards) == x[|x| % p..]
  {
    var dropped := |x| % p;
    assert |x[dropped..]| == p * (|x| / p);
    SplitEqual(x[dropped..], p, |x| / p)
  }

  lemma {:induction false} SplitEqualRow(y: Matrix, p: nat, n: nat, s: nat, i: nat)
    requires |y| == p * n && s < p && i < n
    ensures s * n + i < |y|
    ensures SplitEqual(y, p, n)[s][i] == y[s * n + i]
    decreases p
  {
    assert |y[n..]| == (p - 1) * n;
    if s > 0 {
      SplitEqualRow(y[n..], p - 1, n, s - 1, i);
      assert (s - 1) * n + i + n == s * n + i;
    }
  }

  /** Shard s holds exactly the rows `r + s*n .. r + (s+1)*n` of x, where
      r = N mod P rows were dropped and n = N div P. */
  lemma {:induction false} ShardRows(x: Matrix, p: nat, s: nat, i: nat)
    requires p >= 1 && s < p && i < |x| / p
    ensures |x| % p + s * (|x| / p) + i < |x|
    ensures Partition(x, p)[s][i] == x[|x| % p + s * (|x| / p) + i]
  {
    var dropped := |x| % p;
    assert |x[dropped..]| == p * (|x| / p);
    SplitEqualRow(x[dropped..], p, |x| / p, s, i);
  }

  /** Every shard row is a row of the data, so shards keep its width. */
  lemma {:induction false} ShardsHaveCols(x: Matrix, p: nat, m: nat)
    requires p >= 1 && HasCols(x, m)
    ensures forall s :: 0 <= s < p ==> HasCols(Partition(x, p)[s], m)
  {
    forall s, i | 0 <= s < p && 0 <= i < |Partition(x, p)[s]|
      ensures |Partition(x, p)[s][i]| == m
    {
      ShardRows(x, p, s, i);
    }
  }
}
