/** One round of the engine as a function of the shards and the current
    centers: every unit's local aggregate (fan-out), then the global
    reducer (fan-in); and the sequential Lloyd update it is meant to
    distribute. */
module Rounds {
  import opened Linalg
  import opened Wrappers
  import opened Reducer
  import opened Partitioner
  import opened KMeans

  /** Every shard has m columns. */
  predicate ShardsFit(shards: seq<Matrix>, m: nat) {
    forall s :: 0 <= s < |shards| ==> HasCols(shards[s], m)
  }

  /** The old driver's partial list, in shard order. */
  function OldPartials(shards: seq<Matrix>, centers: Matrix, m: nat): (ps: seq<Partial>)
    requires CentersFor(centers, m) && ShardsFit(shards, m)
    ensures |ps| == |shards| && AllWellFormed(ps, |centers|, m)
    ensures forall s :: 0 <= s < |shards| ==> ps[s] == OldPartial(shards[s], centers, m)
  {
    seq(|shards|, s requires 0 <= s < |shards| => OldPartial(shards[s], centers, m))
  }

  /** A round of `old_distribuited_k_means`. */
  function OldRound(shards: seq<Matrix>, centers: Matrix, m: nat): (r: Option<Matrix>)
    requires CentersFor(centers, m) && ShardsFit(shards, m)
    ensures r.Some? ==> IsMatrix(r.value, |centers|, m)
  {
    Reduce(OldPartials(shards, centers, m), |centers|, m)
  }

  /** The live driver's partials, in shard order; `None` where a shard's
      partial carries a not-a-number. */
  function LivePartials(shards: seq<Matrix>, centers: Matrix, m: nat): (ps: seq<Option<Partial>>)
    requires CentersFor(centers, m) && ShardsFit(shards, m)
    ensures |ps| == |shards|
    ensures forall s :: 0 <= s < |shards| ==> ps[s] == LivePartial(shards[s], centers, m)
  {
    seq(|shards|, s requires 0 <= s < |shards| => LivePartial(shards[s], centers, m))
  }

  predicate AllPartialsDefined(ps: seq<Option<Partial>>) {
    forall s :: 0 <= s < |ps| ==> ps[s].Some?
  }

  function DefinedPartials(ps: seq<Option<Partial>>, k: nat, m: nat): (qs: seq<Partial>)
    requires AllPartialsDefined(ps) && forall s :: 0 <= s < |ps| ==> WellFormed(ps[s].value, k, m)
    ensures |qs| == |ps| && AllWellFormed(qs, k, m)
    ensures forall s :: 0 <= s < |ps| ==> qs[s] == ps[s].value
  {
    seq(|ps|, s requires 0 <= s < |ps| => ps[s].value)
  }

  /** A round of `distribuited_k_means`: a not-a-number in any unit's partial
      reaches the merged centers. */
  function LiveRound(shards: seq<Matrix>, centers: Matrix, m: nat): (r: Option<Matrix>)
    requires CentersFor(centers, m) && ShardsFit(shards, m)
    ensures r.Some? ==> IsMatrix(r.value, |centers|, m)
  {
    var ps := LivePartials(shards, centers, m);
    if AllPartialsDefined(ps) then Reduce(DefinedPartials(ps, |centers|, m), |centers|, m) else None
  }

  /** The sequential reference: one Lloyd update of all of y, each new center
      the mean of the rows nearest to the old one; undefined when a center
      attracts no row. */
  function LloydStep(y: Matrix, centers: Matrix, m: nat): (r: Option<Matrix>)
    requires CentersFor(centers, m) && HasCols(y, m)
    ensures r.Some? ==> IsMatrix(r.value, |centers|, m)
  {
    var means := ClusterMeans(y, Assign(y, centers, m), |centers|, m);
    if AllDefined(means) then Some(Values(means, m)) else None
  }

  // ---------------------------------------------------------------------
  // The merge equals the single-shard computation

  lemma {:induction false} ConcatFits(shards: seq<Matrix>, m: nat)
    requires ShardsFit(shards, m)
    ensures HasCols(Concat(shards), m)
    decreases |shards|
  {
    if |shards| > 0 {
      ConcatFits(shards[1..], m);
    }
  }

  /** Summing the units' partials gives the partial of all their rows at once. */
  lemma {:induction false} MergeEqualsWhole(shards: seq<Matrix>, centers: Matrix, m: nat)
    requires CentersFor(centers, m) && ShardsFit(shards, m)
    ensures HasCols(Concat(shards), m)
    ensures Total(OldPartials(shards, centers, m), |centers|, m) == OldPartial(Concat(shards), centers, m)
    decreases |shards|
  {
    ConcatFits(shards, m);
    var k := |centers|;
    var ps := OldPartials(shards, centers, m);
    if |shards| == 0 {
      assert Concat(shards) == [];
      OldPartialIsExact([], centers, m);
      assert OldPartial([], centers, m) == ZeroPartial(k, m);
    } else {
      var rest := shards[1..];
      ConcatFits(rest, m);
      assert ps[1..] == OldPartials(rest, centers, m);
      MergeEqualsWhole(rest, centers, m);
      OldPartialConcat(shards[0], Concat(rest), centers, m);
    }
  }

  /** The old driver pops the shards off the end of the list, so unit i
      works on shard P-1-i; the merged centers do not depend on that order. */
  lemma {:induction false} OldRoundOrderFree(shards: seq<Matrix>, centers: Matrix, m: nat)
    requires CentersFor(centers, m) && ShardsFit(shards, m)
    ensures ShardsFit(Reversed(shards), m)
    ensures OldRound(Reversed(shards), centers, m) == OldRound(shards, centers, m)
  {
    var rev := Reversed(shards);
    assert ShardsFit(rev, m) by {
      forall s | 0 <= s < |rev| ensures HasCols(rev[s], m) {
        assert rev[s] == shards[|shards| - 1 - s];
      }
    }
    var ps := OldPartials(shards, centers, m);
    var qs := OldPartials(rev, centers, m);
    assert qs == Reversed(ps);
    ReversedMultiset(ps);
    ReduceOrderFree(ps, qs, |centers|, m);
  }

  /** The mass of the whole data's partial is nonzero exactly where the
      Lloyd mean is defined. */
  lemma {:induction false} WholeMassMatchesLloyd(y: Matrix, centers: Matrix, m: nat)
    requires CentersFor(centers, m) && HasCols(y, m)
    ensures var means := ClusterMeans(y, Assign(y, centers, m), |centers|, m);
      MassesNonzero(OldPartial(y, centers, m), |centers|) <==> AllDefined(means)
  {
    var k := |centers|;
    var l := Assign(y, centers, m);
    var means := ClusterMeans(y, l, k, m);
    var counts := BinCount(l, k);
    var p := OldPartial(y, centers, m);
    OldPartialIsExact(y, centers, m);
    ClusterStatistics(y, l, k, m);
    assert forall c :: 0 <= c < k ==> p.mass[c] == counts[c] as real;
    assert forall c :: 0 <= c < k ==> (means[c].Some? <==> counts[c] > 0);
  }

  /** The Lloyd mean of cluster c, the partial's mass and its weighted row
      are all statistics of the same gathered rows. */
  lemma {:induction false} LloydClusterFacts(y: Matrix, centers: Matrix, m: nat, l: seq<nat>,
                                             means: seq<Option<Vector>>, p: Partial, c: nat)
    requires CentersFor(centers, m) && HasCols(y, m) && c < |centers|
    requires l == Assign(y, centers, m) && means == ClusterMeans(y, l, |centers|, m)
    requires p == OldPartial(y, centers, m)
    ensures HasCols(Gather(y, l, c, m), m)
    ensures |p.mass| == |p.weighted| == |means| == |centers|
    ensures p.mass[c] == |Gather(y, l, c, m)| as real
    ensures p.weighted[c] == ColumnSums(Gather(y, l, c, m), m)
    ensures means[c] == ReduceMean(Gather(y, l, c, m), m)
  {
    var k := |centers|;
    OldPartialIsExact(y, centers, m);
    GatherCount(y, l, k, c, m);
    SegmentSumGathered(y, l, k, m, c);
  }

  /** Each Lloyd mean, scaled by the mass, is the partial's weighted sum. */
  lemma {:induction false} LloydMeanScalesToSum(g: Matrix, m: nat, mean: Option<Vector>, mass: real, row: Vector, d: nat)
    requires HasCols(g, m) && d < m
    requires mean == ReduceMean(g, m) && mean.Some?
    requires mass == |g| as real && row == ColumnSums(g, m)
    ensures mean.value[d] * mass == row[d]
  {
    MeanTimesSize(g, m, d);
    ProductCongruence(mean.value[d], ReduceMean(g, m).value[d], mass, |g| as real, row[d]);
  }

  /** Means whose every cluster is the mean of rows whose count and column
      sums are the partial's mass and weighted row solve that partial's
      division. */
  lemma {:induction false} MeansSolveDivide(gs: seq<Matrix>, means: seq<Option<Vector>>, p: Partial, v: Matrix, k: nat, m: nat)
    requires |gs| == |means| == k && WellFormed(p, k, m) && IsMatrix(v, k, m)
    requires forall c :: 0 <= c < k ==> HasCols(gs[c], m) && means[c] == ReduceMean(gs[c], m)
    requires forall c :: 0 <= c < k ==> p.mass[c] == |gs[c]| as real && p.weighted[c] == ColumnSums(gs[c], m)
    requires forall c :: 0 <= c < k ==> means[c].Some? && v[c] == means[c].value
    ensures forall c, d :: 0 <= c < k && 0 <= d < m ==> v[c][d] * p.mass[c] == p.weighted[c][d]
  {
    forall c, d | 0 <= c < k && 0 <= d < m ensures v[c][d] * p.mass[c] == p.weighted[c][d] {
      LloydMeanScalesToSum(gs[c], m, means[c], p.mass[c], p.weighted[c], d);
      ProductCongruence(v[c][d], means[c].value[d], p.mass[c], p.mass[c], p.weighted[c][d]);
    }
  }

  /** Dividing one partial holding all rows is one sequential Lloyd update. */
  lemma {:induction false} WholeDivideIsLloyd(y: Matrix, centers: Matrix, m: nat)
    requires CentersFor(centers, m) && HasCols(y, m)
    ensures Divide(OldPartial(y, centers, m), |centers|, m) == LloydStep(y, centers, m)
  {
    var k := |centers|;
    var l := Assign(y, centers, m);
    var means := ClusterMeans(y, l, k, m);
    var p := OldPartial(y, centers, m);
    WholeMassMatchesLloyd(y, centers, m);
    if AllDefined(means) {
      var v := Values(means, m);
      var gs := seq(k, c requires 0 <= c < k => Gather(y, l, c, m));
      forall c | 0 <= c < k
        ensures HasCols(gs[c], m) && means[c] == ReduceMean(gs[c], m)
        ensures p.mass[c] == |gs[c]| as real && p.weighted[c] == ColumnSums(gs[c], m)
      {
        LloydClusterFacts(y, centers, m, l, means, p, c);
      }
      MeansSolveDivide(gs, means, p, v, k, m);
      DivideSolves(p, v, k, m);
    }
  }

  /** A round over any shards divides the partial of all their rows. */
  lemma {:induction false} OldRoundIsWholeDivide(shards: seq<Matrix>, centers: Matrix, m: nat)
    requires CentersFor(centers, m) && ShardsFit(shards, m)
    ensures HasCols(Concat(shards), m)
    ensures OldRound(shards, centers, m) == Divide(OldPartial(Concat(shards), centers, m), |centers|, m)
  {
    MergeEqualsWhole(shards, centers, m);
  }

  /** The distributed round over the partition is one sequential Lloyd
      update of the rows the partitioner kept. */
  lemma {:induction false} DistributedRoundIsLloyd(x: Matrix, p: nat, centers: Matrix, m: nat)
    requires p >= 1 && CentersFor(centers, m) && HasCols(x, m)
    ensures ShardsFit(Partition(x, p), m)
    ensures OldRound(Partition(x, p), centers, m) == LloydStep(x[|x| % p..], centers, m)
  {
    var shards, y := Partition(x, p), x[|x| % p..];
    ShardsHaveCols(x, p, m);
    OldRoundIsWholeDivide(shards, centers, m);
    assert Concat(shards) == y;
    WholeDivideIsLloyd(y, centers, m);
  }

  /** With a single unit the round is one Lloyd update of the whole data set. */
  lemma {:induction false} SingleUnitIsLloyd(x: Matrix, centers: Matrix, m: nat)
    requires CentersFor(centers, m) && HasCols(x, m)
    ensures ShardsFit(Partition(x, 1), m)
    ensures OldRound(Partition(x, 1), centers, m) == LloydStep(x, centers, m)
  {
    DistributedRoundIsLloyd(x, 1, centers, m);
    assert x[|x| % 1..] == x;
  }

  // ---------------------------------------------------------------------
  // The live round against the old one

  /** Where the live round is defined it yields the old round's centers. */
  lemma {:induction false} LiveRoundAgrees(shards: seq<Matrix>, centers: Matrix, m: nat)
    requires CentersFor(centers, m) && ShardsFit(shards, m)
    requires LiveRound(shards, centers, m).Some?
    ensures LiveRound(shards, centers, m) == OldRound(shards, centers, m)
  {
    var k := |centers|;
    var ps := LivePartials(shards, centers, m);
    assert AllPartialsDefined(ps);
    var qs := DefinedPartials(ps, k, m);
    forall s | 0 <= s < |shards| ensures qs[s] == OldPartial(shards[s], centers, m) {
      LivePartialAgrees(shards[s], centers, m);
    }
    assert qs == OldPartials(shards, centers, m);
  }

  /** The live round is undefined as soon as one shard has a cluster with no
      rows, whatever the other shards hold. */
  lemma {:induction false} LiveRoundNeedsEveryCluster(shards: seq<Matrix>, centers: Matrix, m: nat, s: nat, c: nat)
    requires CentersFor(centers, m) && ShardsFit(shards, m)
    requires s < |shards| && c < |centers|
    requires BinCount(Assign(shards[s], centers, m), |centers|)[c] == 0
    ensures LiveRound(shards, centers, m).None?
  {
    LivePartialDefined(shards[s], centers, m);
    assert LivePartials(shards, centers, m)[s].None?;
  }

  /** The rows of cluster c in a block of rows are those of its two halves. */
  lemma {:induction false} ClusterCountConcat(a: Matrix, b: Matrix, centers: Matrix, m: nat, c: nat)
    requires CentersFor(centers, m) && HasCols(a, m) && HasCols(b, m) && c < |centers|
    ensures HasCols(a + b, m)
    ensures BinCount(Assign(a + b, centers, m), |centers|)[c]
      == BinCount(Assign(a, centers, m), |centers|)[c] + BinCount(Assign(b, centers, m), |centers|)[c]
  {
    var k := |centers|;
    var la, lb := Assign(a, centers, m), Assign(b, centers, m);
    AssignConcat(a, b, centers, m);
    GatherConcat(a, la, b, lb, c, m);
    GatherCount(a, la, k, c, m);
    GatherCount(b, lb, k, c, m);
    GatherCount(a + b, la + lb, k, c, m);
  }

  /** A cluster has at least as many rows in all the shards together as in
      any one of them. */
  lemma {:induction false} ShardClusterInWhole(shards: seq<Matrix>, centers: Matrix, m: nat, s: nat, c: nat)
    requires CentersFor(centers, m) && ShardsFit(shards, m) && s < |shards| && c < |centers|
    ensures HasCols(Concat(shards), m)
    ensures BinCount(Assign(Concat(shards), centers, m), |centers|)[c]
      >= BinCount(Assign(shards[s], centers, m), |centers|)[c]
    decreases |shards|
  {
    ConcatFits(shards, m);
    var rest := shards[1..];
    ConcatFits(rest, m);
    ClusterCountConcat(shards[0], Concat(rest), centers, m, c);
    if s > 0 {
      assert rest[s - 1] == shards[s];
      ShardClusterInWhole(rest, centers, m, s - 1, c);
    }
  }

  /** The live round is defined exactly when there is a shard and every
      shard has a row in every cluster. */
  lemma {:induction false} LiveRoundDefined(shards: seq<Matrix>, centers: Matrix, m: nat)
    requires CentersFor(centers, m) && ShardsFit(shards, m)
    ensures LiveRound(shards, centers, m).Some? <==>
      |shards| > 0 && forall s, c :: 0 <= s < |shards| && 0 <= c < |centers| ==>
        BinCount(Assign(shards[s], centers, m), |centers|)[c] > 0
  {
    var k := |centers|;
    var ps := LivePartials(shards, centers, m);
    if |shards| == 0 {
      var qs := DefinedPartials(ps, k, m);
      assert qs == [];
      assert Total(qs, k, m).mass[0] == 0.0;
    } else if exists s, c :: 0 <= s < |shards| && 0 <= c < k && BinCount(Assign(shards[s], centers, m), k)[c] == 0 {
      var s, c :| 0 <= s < |shards| && 0 <= c < k && BinCount(Assign(shards[s], centers, m), k)[c] == 0;
      LiveRoundNeedsEveryCluster(shards, centers, m, s, c);
    } else {
      forall s | 0 <= s < |shards| ensures ps[s].Some? && ps[s].value == OldPartial(shards[s], centers, m) {
        LivePartialDefined(shards[s], centers, m);
        LivePartialAgrees(shards[s], centers, m);
      }
      var qs := DefinedPartials(ps, k, m);
      assert qs == OldPartials(shards, centers, m);
      MergeEqualsWhole(shards, centers, m);
      OldPartialIsExact(Concat(shards), centers, m);
      forall c | 0 <= c < k ensures Total(qs, k, m).mass[c] != 0.0 {
        ShardClusterInWhole(shards, centers, m, 0, c);
      }
      assert LiveRound(shards, centers, m) == Reduce(qs, k, m);
    }
  }

  /** With a single unit the live round, too, is one Lloyd update of the
      whole data set, undefined exactly when some cluster attracts no row. */
  lemma {:induction false} LiveSingleUnitIsLloyd(x: Matrix, centers: Matrix, m: nat)
    requires CentersFor(centers, m) && HasCols(x, m)
    ensures ShardsFit(Partition(x, 1), m)
    ensures LiveRound(Partition(x, 1), centers, m) == LloydStep(x, centers, m)
  {
    var k := |centers|;
    var shards := Partition(x, 1);
    ShardsHaveCols(x, 1, m);
    assert Concat(shards) == shards[0] + Concat(shards[1..]);
    assert shards[0] == x;
    LiveRoundDefined(shards, centers, m);
    var l := Assign(x, centers, m);
    var means := ClusterMeans(x, l, k, m);
    ClusterStatistics(x, l, k, m);
    if LiveRound(shards, centers, m).Some? {
      LiveRoundAgrees(shards, centers, m);
      SingleUnitIsLloyd(x, centers, m);
    } else {
      var c :| 0 <= c < k && BinCount(l, k)[c] == 0;
      assert means[c].None?;
    }
  }
}
