/** The hard (K-means) local aggregator: what one compute unit computes
    from its shard and the current centers in one round. Two versions exist
    in the source: `old_distribuited_k_means` (segment sums, with empty
    clusters' local means set to zero) and `distribuited_k_means`, the one
    `main` runs (a mean over the gathered rows of each cluster, without that
    substitution). */
module KMeans {
  import opened Linalg
  import opened Wrappers
  import opened Reducer

  /** Squared Euclidean distance; the square root is never taken, as only the
      nearest center matters. */
  function SqDist(x: Vector, c: Vector): (r: real)
    requires |x| == |c|
    ensures r >= 0.0
  {
    if |x| == 0 then 0.0 else (x[0] - c[0]) * (x[0] - c[0]) + SqDist(x[1..], c[1..])
  }

  /** `centers` is a K x M matrix with at least one center. */
  predicate CentersFor(centers: Matrix, m: nat) {
    |centers| >= 1 && IsMatrix(centers, |centers|, m)
  }

  /** `argmin` of the squared distances from x to the first n centers. The
      lowest index wins a tie: one of the choices TensorFlow's argmin may make. */
  function Nearest(x: Vector, centers: Matrix, n: nat): (k: nat)
    requires 1 <= n <= |centers| && HasCols(centers, |x|)
    ensures k < n
    ensures forall j :: 0 <= j < n ==> SqDist(x, centers[k]) <= SqDist(x, centers[j])
    ensures forall j :: 0 <= j < k ==> SqDist(x, centers[k]) < SqDist(x, centers[j])
    decreases n
  {
    if n == 1 then 0
    else
      var best := Nearest(x, centers, n - 1);
      if SqDist(x, centers[n - 1]) < SqDist(x, centers[best]) then n - 1 else best
  }

  /** Every label names one of k clusters. */
  predicate Labels(l: seq<nat>, k: nat) {
    forall i :: 0 <= i < |l| ==> l[i] < k
  }

  /** `best_centroids`: each row's nearest center. */
  function Assign(x: Matrix, centers: Matrix, m: nat): (l: seq<nat>)
    requires CentersFor(centers, m) && HasCols(x, m)
    ensures |l| == |x| && Labels(l, |centers|)
    ensures forall i, j :: 0 <= i < |x| && 0 <= j < |centers| ==>
      SqDist(x[i], centers[l[i]]) <= SqDist(x[i], centers[j])
  {
    seq(|x|, i requires 0 <= i < |x| => Nearest(x[i], centers, |centers|))
  }

  /** `unsorted_segment_sum(X, labels, K)`: row c is the sum of the rows labelled c. */
  function SegmentSum(x: Matrix, l: seq<nat>, k: nat, m: nat): (s: Matrix)
    requires |l| == |x| && HasCols(x, m) && Labels(l, k)
    ensures IsMatrix(s, k, m)
    decreases |x|
  {
    if |x| == 0 then ZeroMatrix(k, m)
    else
      var rest := SegmentSum(x[1..], l[1..], k, m);
      rest[l[0] := VecAdd(rest[l[0]], x[0])]
  }

  /** `bincount(labels, minlength = K, maxlength = K)`. */
  function BinCount(l: seq<nat>, k: nat): (counts: seq<nat>)
    requires Labels(l, k)
    ensures |counts| == k
  {
    if |l| == 0 then seq(k, _ => 0)
    else
      var rest := BinCount(l[1..], k);
      rest[l[0] := rest[l[0]] + 1]
  }

  /** `gather(X, where(equal(labels, c)))`: the rows labelled c, in order. */
  function Gather(x: Matrix, l: seq<nat>, c: nat, m: nat): (g: Matrix)
    requires |l| == |x| && HasCols(x, m)
    ensures |g| <= |x| && HasCols(g, m)
    ensures forall i :: 0 <= i < |g| ==> g[i] in x
  {
    if |x| == 0 then []
    else (if l[0] == c then [x[0]] else []) + Gather(x[1..], l[1..], c, m)
  }

  /** `reduce_mean` over rows: undefined (0/0) for no rows. */
  function ReduceMean(g: Matrix, m: nat): (r: Option<Vector>)
    requires HasCols(g, m)
    ensures r.Some? <==> |g| > 0
    ensures r.Some? ==> |r.value| == m
    ensures r.Some? ==> forall d :: 0 <= d < m ==> r.value[d] * (|g| as real) == ColumnSums(g, m)[d]
  {
    if |g| == 0 then None
    else
      var s := ColumnSums(g, m);
      Some(seq(m, d requires 0 <= d < m => s[d] / |g| as real))
  }

  lemma {:induction false} MeanTimesSize(g: Matrix, m: nat, d: nat)
    requires HasCols(g, m) && |g| > 0 && d < m
    ensures ReduceMean(g, m).value[d] * (|g| as real) == ColumnSums(g, m)[d]
  {
  }

  /** The mean of a single row is that row. */
  lemma {:induction false} ReduceMeanSingle(v: Vector, m: nat)
    requires |v| == m
    ensures ReduceMean([v], m) == Some(v)
  {
    assert [v][1..] == [];
    assert ColumnSums([v], m) == VecAdd(v, Zeros(m));
    var r := ReduceMean([v], m).value;
    forall d | 0 <= d < m ensures r[d] == v[d] {
      MeanTimesSize([v], m, d);
      assert r[d] * 1.0 == v[d] + 0.0;
    }
    assert r == v;
  }

  /** The old aggregator's local mean entry, `where(is_nan(s / n), 0, s / n)`:
      a cluster with no rows here has sum 0, and its 0/0 becomes 0. */
  function LocalMean(s: real, n: nat): real {
    if n == 0 then 0.0 else s / n as real
  }

  /** The counts as the float64 mass vector (`cast(bincount, float64)`). */
  function Mass(counts: seq<nat>): (v: Vector)
    ensures |v| == |counts| && forall c :: 0 <= c < |counts| ==> v[c] == counts[c] as real
  {
    seq(|counts|, c requires 0 <= c < |counts| => counts[c] as real)
  }

  /** `partial_mu = transpose(means) * counts`: each cluster's mean scaled by its count. */
  function ScaleByCounts(means: Matrix, counts: seq<nat>, m: nat): (w: Matrix)
    requires IsMatrix(means, |counts|, m)
    ensures IsMatrix(w, |counts|, m)
    ensures forall c, d :: 0 <= c < |counts| && 0 <= d < m ==> w[c][d] == means[c][d] * counts[c] as real
  {
    seq(|counts|, c requires 0 <= c < |counts| =>
      seq(m, d requires 0 <= d < m => means[c][d] * counts[c] as real))
  }

  /** The old aggregator's local means, with 0/0 replaced by 0. */
  function ZeroedMeans(sums: Matrix, counts: seq<nat>, m: nat): (means: Matrix)
    requires IsMatrix(sums, |counts|, m)
    ensures IsMatrix(means, |counts|, m)
    ensures forall c, d :: 0 <= c < |counts| && 0 <= d < m ==> means[c][d] == LocalMean(sums[c][d], counts[c])
  {
    seq(|counts|, c requires 0 <= c < |counts| =>
      seq(m, d requires 0 <= d < m => LocalMean(sums[c][d], counts[c])))
  }

  /** `old_distribuited_k_means`, one unit: the counts, and each cluster's
      local mean times its count. */
  function OldPartial(x: Matrix, centers: Matrix, m: nat): (p: Partial)
    requires CentersFor(centers, m) && HasCols(x, m)
    ensures WellFormed(p, |centers|, m)
  {
    var l := Assign(x, centers, m);
    var sums := SegmentSum(x, l, |centers|, m);
    var counts := BinCount(l, |centers|);
    Partial(Mass(counts), ScaleByCounts(ZeroedMeans(sums, counts, m), counts, m))
  }

  /** Whether every one of the k clusters received a row. */
  predicate NoEmptyCluster(counts: seq<nat>) {
    forall c :: 0 <= c < |counts| ==> counts[c] > 0
  }

  /** Some row is gathered for c exactly when some row is labelled c. */
  lemma {:induction false} GatherNonempty(x: Matrix, l: seq<nat>, m: nat)
    requires |l| == |x| && HasCols(x, m)
    ensures forall c :: |Gather(x, l, c, m)| > 0 <==> c in l
    decreases |x|
  {
    if |x| > 0 {
      GatherNonempty(x[1..], l[1..], m);
      assert l == [l[0]] + l[1..];
    }
  }

  /** Per-cluster `reduce_mean` of the gathered rows, in cluster order. */
  function ClusterMeans(x: Matrix, l: seq<nat>, k: nat, m: nat): (means: seq<Option<Vector>>)
    requires |l| == |x| && HasCols(x, m)
    ensures |means| == k
    ensures forall c :: 0 <= c < k ==> means[c] == ReduceMean(Gather(x, l, c, m), m)
    ensures forall c :: 0 <= c < k ==> (means[c].Some? <==> c in l)
  {
    GatherNonempty(x, l, m);
    seq(k, c requires 0 <= c < k => ReduceMean(Gather(x, l, c, m), m))
  }

  /** All per-cluster means are defined. */
  predicate AllDefined(means: seq<Option<Vector>>) {
    forall c :: 0 <= c < |means| ==> means[c].Some?
  }

  function Values(means: seq<Option<Vector>>, m: nat): (r: Matrix)
    requires AllDefined(means) && forall c :: 0 <= c < |means| ==> |means[c].value| == m
    ensures IsMatrix(r, |means|, m) && forall c :: 0 <= c < |means| ==> r[c] == means[c].value
  {
    seq(|means|, c requires 0 <= c < |means| => means[c].value)
  }

  /** `distribuited_k_means`, one unit: each cluster's `reduce_mean` over its
      gathered rows, times its count. A cluster with no rows in this shard
      has an undefined mean (0/0) that leaks into the partial: `None`. */
  function LivePartial(x: Matrix, centers: Matrix, m: nat): (r: Option<Partial>)
    requires CentersFor(centers, m) && HasCols(x, m)
    ensures r.Some? ==> WellFormed(r.value, |centers|, m)
    ensures r.Some? <==> forall c :: 0 <= c < |centers| ==> c in Assign(x, centers, m)
  {
    var l := Assign(x, centers, m);
    var counts := BinCount(l, |centers|);
    var means := ClusterMeans(x, l, |centers|, m);
    if AllDefined(means) then
      Some(Partial(Mass(counts), ScaleByCounts(Values(means, m), counts, m)))
    else
      None
  }

  // ---------------------------------------------------------------------
  // Facts about the per-cluster statistics

  lemma {:induction false} GatherCount(x: Matrix, l: seq<nat>, k: nat, c: nat, m: nat)
    requires |l| == |x| && HasCols(x, m) && Labels(l, k) && c < k
    ensures |Gather(x, l, c, m)| == BinCount(l, k)[c]
    decreases |x|
  {
    if |x| > 0 {
      GatherCount(x[1..], l[1..], k, c, m);
    }
  }

  /** The segment sum of cluster c is the column sum of the rows gathered for c. */
  lemma {:induction false} SegmentSumGathered(x: Matrix, l: seq<nat>, k: nat, m: nat, c: nat)
    requires |l| == |x| && HasCols(x, m) && Labels(l, k) && c < k
    ensures SegmentSum(x, l, k, m)[c] == ColumnSums(Gather(x, l, c, m), m)
    decreases |x|
  {
    if |x| > 0 {
      SegmentSumGathered(x[1..], l[1..], k, m, c);
      var g := Gather(x[1..], l[1..], c, m);
      if l[0] == c {
        assert Gather(x, l, c, m) == [x[0]] + g;
        assert ([x[0]] + g)[1..] == g;
        VecAddComm(ColumnSums(g, m), x[0]);
      } else {
        assert Gather(x, l, c, m) == g;
      }
    }
  }

  /** Both aggregators' views of a cluster agree: the gathered rows number
      the bin count and sum to the segment sum. */
  lemma {:induction false} ClusterStatistics(x: Matrix, l: seq<nat>, k: nat, m: nat)
    requires |l| == |x| && HasCols(x, m) && Labels(l, k)
    ensures forall c :: 0 <= c < k ==>
      |Gather(x, l, c, m)| == BinCount(l, k)[c] &&
      SegmentSum(x, l, k, m)[c] == ColumnSums(Gather(x, l, c, m), m)
  {
    forall c | 0 <= c < k
      ensures |Gather(x, l, c, m)| == BinCount(l, k)[c]
      ensures SegmentSum(x, l, k, m)[c] == ColumnSums(Gather(x, l, c, m), m)
    {
      GatherCount(x, l, k, c, m);
      SegmentSumGathered(x, l, k, m, c);
    }
  }

  /** Scaling the zero-substituted means back by the counts restores the
      sums, provided every empty cluster has a zero sum. */
  lemma {:induction false} ZeroedMeansRestoreSums(sums: Matrix, counts: seq<nat>, m: nat)
    requires IsMatrix(sums, |counts|, m)
    requires forall c :: 0 <= c < |counts| && counts[c] == 0 ==> sums[c] == Zeros(m)
    ensures ScaleByCounts(ZeroedMeans(sums, counts, m), counts, m) == sums
  {
    var w := ScaleByCounts(ZeroedMeans(sums, counts, m), counts, m);
    forall c | 0 <= c < |counts| ensures w[c] == sums[c] {
      forall d | 0 <= d < m ensures w[c][d] == sums[c][d] {
        if counts[c] == 0 {
          assert sums[c][d] == Zeros(m)[d] == 0.0;
        } else {
          var n := counts[c] as real;
          assert w[c][d] == (sums[c][d] / n) * n;
        }
      }
    }
  }

  /** Scaling means back by the counts restores the sums when every mean
      times its count is the sum. */
  lemma {:induction false} DefinedMeansRestoreSums(means: seq<Option<Vector>>, sums: Matrix, counts: seq<nat>, m: nat)
    requires |means| == |counts| && IsMatrix(sums, |counts|, m) && AllDefined(means)
    requires forall c :: 0 <= c < |means| ==> |means[c].value| == m
    requires forall c, d :: 0 <= c < |means| && 0 <= d < m ==>
      means[c].value[d] * counts[c] as real == sums[c][d]
    ensures ScaleByCounts(Values(means, m), counts, m) == sums
  {
    var w := ScaleByCounts(Values(means, m), counts, m);
    forall c | 0 <= c < |counts| ensures w[c] == sums[c] {
      forall d | 0 <= d < m ensures w[c][d] == sums[c][d] {
        assert w[c][d] == means[c].value[d] * counts[c] as real;
      }
    }
  }

  /** In the old aggregator, mean x count is the exact per-cluster row sum for
      every cluster, the empty ones included (their zero mean meets a zero
      sum), and the mass is the bin count. */
  lemma {:induction false} OldPartialIsExact(x: Matrix, centers: Matrix, m: nat)
    requires CentersFor(centers, m) && HasCols(x, m)
    ensures OldPartial(x, centers, m).weighted == SegmentSum(x, Assign(x, centers, m), |centers|, m)
    ensures OldPartial(x, centers, m).mass == Mass(BinCount(Assign(x, centers, m), |centers|))
  {
    var k := |centers|;
    var l := Assign(x, centers, m);
    var sums := SegmentSum(x, l, k, m);
    var counts := BinCount(l, k);
    ClusterStatistics(x, l, k, m);
    forall c | 0 <= c < k && counts[c] == 0 ensures sums[c] == Zeros(m) {
      assert |Gather(x, l, c, m)| == 0;
    }
    ZeroedMeansRestoreSums(sums, counts, m);
  }

  /** The live aggregator is defined exactly when no cluster is empty in the shard. */
  lemma {:induction false} LivePartialDefined(x: Matrix, centers: Matrix, m: nat)
    requires CentersFor(centers, m) && HasCols(x, m)
    ensures LivePartial(x, centers, m).Some? <==> NoEmptyCluster(BinCount(Assign(x, centers, m), |centers|))
  {
    var l := Assign(x, centers, m);
    ClusterStatistics(x, l, |centers|, m);
  }

  /** Defined cluster means, scaled by the counts, give back the segment
      sums. */
  lemma {:induction false} LiveMeansRestoreSums(x: Matrix, l: seq<nat>, k: nat, m: nat, means: seq<Option<Vector>>)
    requires |l| == |x| && HasCols(x, m) && Labels(l, k)
    requires means == ClusterMeans(x, l, k, m) && AllDefined(means)
    ensures forall c :: 0 <= c < k ==> |means[c].value| == m
    ensures ScaleByCounts(Values(means, m), BinCount(l, k), m) == SegmentSum(x, l, k, m)
  {
    var counts := BinCount(l, k);
    var sums := SegmentSum(x, l, k, m);
    ClusterStatistics(x, l, k, m);
    forall c, d | 0 <= c < k && 0 <= d < m
      ensures means[c].value[d] * counts[c] as real == sums[c][d]
    {
      var g := Gather(x, l, c, m);
      MeanTimesSize(g, m, d);
      ProductCongruence(means[c].value[d], ReduceMean(g, m).value[d], counts[c] as real, |g| as real, sums[c][d]);
    }
    DefinedMeansRestoreSums(means, sums, counts, m);
  }

  /** Where the live aggregator is defined it computes the old one's partial. */
  lemma {:induction false} LivePartialAgrees(x: Matrix, centers: Matrix, m: nat)
    requires CentersFor(centers, m) && HasCols(x, m)
    requires LivePartial(x, centers, m).Some?
    ensures LivePartial(x, centers, m).value == OldPartial(x, centers, m)
  {
    var k := |centers|;
    var l := Assign(x, centers, m);
    var means := ClusterMeans(x, l, k, m);
    assert AllDefined(means);
    LiveMeansRestoreSums(x, l, k, m, means);
    OldPartialIsExact(x, centers, m);
  }

  // ---------------------------------------------------------------------
  // Shard-level facts

  /** Comparing squared distances is comparing distances: if d[j] >= 0 is
      the distance to center j (d[j] * d[j] == SqDist), the argmin over the
      distances, lowest index first, is the assigned center, and a center
      minimizes the distance iff it minimizes the squared distance. */
  lemma {:induction false} NearestMinimizesDistance(x: Vector, centers: Matrix, dist: seq<real>)
    requires |centers| >= 1 && HasCols(centers, |x|) && |dist| == |centers|
    requires forall j :: 0 <= j < |dist| ==> dist[j] >= 0.0 && dist[j] * dist[j] == SqDist(x, centers[j])
    ensures forall j :: 0 <= j < |dist| ==> dist[Nearest(x, centers, |centers|)] <= dist[j]
    ensures forall j :: 0 <= j < Nearest(x, centers, |centers|) ==> dist[Nearest(x, centers, |centers|)] < dist[j]
    ensures forall j :: 0 <= j < |dist| ==>
      ((forall i :: 0 <= i < |dist| ==> dist[j] <= dist[i]) <==>
       (forall i :: 0 <= i < |dist| ==> SqDist(x, centers[j]) <= SqDist(x, centers[i])))
  {
    var k := Nearest(x, centers, |centers|);
    DistanceOrder(x, centers, dist);
    forall j | 0 <= j < |dist|
      ensures (forall i :: 0 <= i < |dist| ==> dist[j] <= dist[i]) <==>
              (forall i :: 0 <= i < |dist| ==> SqDist(x, centers[j]) <= SqDist(x, centers[i]))
    {
      if forall i :: 0 <= i < |dist| ==> dist[j] <= dist[i] {
        forall i | 0 <= i < |dist| ensures SqDist(x, centers[j]) <= SqDist(x, centers[i]) {
          assert dist[j] <= dist[i];
        }
      }
      if forall i :: 0 <= i < |dist| ==> SqDist(x, centers[j]) <= SqDist(x, centers[i]) {
        forall i | 0 <= i < |dist| ensures dist[j] <= dist[i] {
          assert SqDist(x, centers[j]) <= SqDist(x, centers[i]);
        }
      }
    }
  }

  /** Distances to the centers are ordered as the squared distances are. */
  lemma {:induction false} DistanceOrder(x: Vector, centers: Matrix, dist: seq<real>)
    requires HasCols(centers, |x|) && |dist| == |centers|
    requires forall j :: 0 <= j < |dist| ==> dist[j] >= 0.0 && dist[j] * dist[j] == SqDist(x, centers[j])
    ensures forall j, i :: 0 <= j < |dist| && 0 <= i < |dist| ==>
      (dist[j] <= dist[i] <==> SqDist(x, centers[j]) <= SqDist(x, centers[i]))
      && (dist[j] < dist[i] <==> SqDist(x, centers[j]) < SqDist(x, centers[i]))
  {
    forall j, i | 0 <= j < |dist| && 0 <= i < |dist|
      ensures (dist[j] <= dist[i] <==> SqDist(x, centers[j]) <= SqDist(x, centers[i]))
           && (dist[j] < dist[i] <==> SqDist(x, centers[j]) < SqDist(x, centers[i]))
    {
      SquareOrder(dist[j], dist[i], SqDist(x, centers[j]), SqDist(x, centers[i]));
    }
  }

  /** Non-negative reals are ordered as their squares are. */
  lemma {:induction false} SquareOrder(a: real, b: real, sa: real, sb: real)
    requires 0.0 <= a && 0.0 <= b && a * a == sa && b * b == sb
    ensures (a <= b <==> sa <= sb) && (a < b <==> sa < sb)
  {
    LargerSquare(a, b);
    LargerSquare(b, a);
  }

  lemma {:induction false} LargerSquare(a: real, b: real)
    requires 0.0 <= a && 0.0 <= b
    ensures b < a ==> b * b < a * a
  {
    if b < a {
      var u := a - b;
      assert a * a == b * b + u * (a + b);
      assert u * (a + b) > 0.0;
    }
  }

  lemma {:induction false} AssignConcat(a: Matrix, b: Matrix, centers: Matrix, m: nat)
    requires CentersFor(centers, m) && HasCols(a, m) && HasCols(b, m)
    ensures HasCols(a + b, m)
    ensures Assign(a + b, centers, m) == Assign(a, centers, m) + Assign(b, centers, m)
  {
  }

  lemma {:induction false} GatherConcat(a: Matrix, la: seq<nat>, b: Matrix, lb: seq<nat>, c: nat, m: nat)
    requires |la| == |a| && |lb| == |b| && HasCols(a, m) && HasCols(b, m)
    ensures HasCols(a + b, m)
    ensures Gather(a + b, la + lb, c, m) == Gather(a, la, c, m) + Gather(b, lb, c, m)
    decreases |a|
  {
    if |a| == 0 {
      assert a + b == b && la + lb == lb;
    } else {
      assert (a + b)[1..] == a[1..] + b && (la + lb)[1..] == la[1..] + lb;
      GatherConcat(a[1..], la[1..], b, lb, c, m);
      var head: Matrix := if la[0] == c then [a[0]] else [];
      var ga, gb := Gather(a[1..], la[1..], c, m), Gather(b, lb, c, m);
      assert Gather(a + b, la + lb, c, m) == head + (ga + gb);
      assert head + (ga + gb) == (head + ga) + gb;
    }
  }

  lemma {:induction false} SumNatsIncrement(v: seq<nat>, i: nat)
    requires i < |v|
    ensures SumNats(v[i := v[i] + 1]) == SumNats(v) + 1
    decreases |v|
  {
    if i > 0 {
      SumNatsIncrement(v[1..], i - 1);
      assert v[i := v[i] + 1][1..] == v[1..][i - 1 := v[i] + 1];
    }
  }

  lemma {:induction false} SumNatsZero(k: nat)
    ensures SumNats(seq(k, _ => 0)) == 0
  {
    if k > 0 {
      assert seq(k, _ => 0)[1..] == seq(k - 1, _ => 0);
      SumNatsZero(k - 1);
    }
  }

  /** `bincount` loses no row: the counts add up to the number of labels. */
  lemma {:induction false} BinCountTotal(l: seq<nat>, k: nat)
    requires Labels(l, k)
    ensures SumNats(BinCount(l, k)) == |l|
    decreases |l|
  {
    if |l| == 0 {
      SumNatsZero(k);
    } else {
      BinCountTotal(l[1..], k);
      SumNatsIncrement(BinCount(l[1..], k), l[0]);
    }
  }

  /** A unit's count vector has one entry per cluster, and the entries add up
      to the shard's row count. */
  lemma {:induction false} ShardCountsAddUp(x: Matrix, centers: Matrix, m: nat)
    requires CentersFor(centers, m) && HasCols(x, m)
    ensures |BinCount(Assign(x, centers, m), |centers|)| == |centers|
    ensures SumNats(BinCount(Assign(x, centers, m), |centers|)) == |x|
  {
    BinCountTotal(Assign(x, centers, m), |centers|);
  }

  /** The old aggregator is additive over a split of the shard's rows: its
      partial for rows `a + b` is the sum of its partials for `a` and `b`. */
  lemma {:induction false} OldPartialConcat(a: Matrix, b: Matrix, centers: Matrix, m: nat)
    requires CentersFor(centers, m) && HasCols(a, m) && HasCols(b, m)
    ensures HasCols(a + b, m)
    ensures OldPartial(a + b, centers, m) ==
      AddPartial(OldPartial(a, centers, m), OldPartial(b, centers, m), |centers|, m)
  {
    var k := |centers|;
    AssignConcat(a, b, centers, m);
    var la, lb := Assign(a, centers, m), Assign(b, centers, m);
    var l := la + lb;
    var pa, pb := OldPartial(a, centers, m), OldPartial(b, centers, m);
    var p := OldPartial(a + b, centers, m);
    var q := AddPartial(pa, pb, k, m);
    OldPartialIsExact(a, centers, m);
    OldPartialIsExact(b, centers, m);
    OldPartialIsExact(a + b, centers, m);
    ClusterStatistics(a, la, k, m);
    ClusterStatistics(b, lb, k, m);
    ClusterStatistics(a + b, l, k, m);
    forall c | 0 <= c < k ensures p.mass[c] == q.mass[c] && p.weighted[c] == q.weighted[c] {
      GatherConcat(a, la, b, lb, c, m);
      ColumnSumsConcat(Gather(a, la, c, m), Gather(b, lb, c, m), m);
    }
  }
}
