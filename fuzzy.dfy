/** The fuzzy C-means driver's per-unit aggregate, given the unit's
    membership weights: the weight sums per cluster (`reduce_sum(MU, 1)`)
    and the weighted row sums (`matmul(MU, X)`). The weights themselves
    (distances raised to a fractional power) are not part of this model. */
module Fuzzy {
  import opened Linalg
  import opened Partitioner
  import opened Wrappers
  import opened Reducer
  import opened KMeans

  /** `mu` holds one weight vector of length k per row of x. */
  predicate WeightsFor(x: Matrix, mu: Matrix, k: nat) {
    |mu| == |x| && HasCols(mu, k)
  }

  /** w times the vector v. */
  function Scale(w: real, v: Vector): (r: Vector)
    ensures |r| == |v| && forall d :: 0 <= d < |v| ==> r[d] == w * v[d]
  {
    seq(|v|, d requires 0 <= d < |v| => w * v[d])
  }

  /** One row's contribution: its weights as mass, and the row scaled by
      each weight. */
  function RowPartial(v: Vector, w: Vector, m: nat): (p: Partial)
    requires |v| == m
    ensures WellFormed(p, |w|, m)
    ensures p.mass == w && forall c :: 0 <= c < |w| ==> p.weighted[c] == Scale(w[c], v)
  {
    Partial(w, seq(|w|, c requires 0 <= c < |w| => Scale(w[c], v)))
  }

  /** A unit's `(Mu_sum, Mu_X_sum)` pair. */
  function FuzzyPartial(x: Matrix, mu: Matrix, k: nat, m: nat): (p: Partial)
    requires HasCols(x, m) && WeightsFor(x, mu, k)
    ensures WellFormed(p, k, m)
    decreases |x|
  {
    if |x| == 0 then ZeroPartial(k, m)
    else AddPartial(RowPartial(x[0], mu[0], m), FuzzyPartial(x[1..], mu[1..], k, m), k, m)
  }

  /** The two sums, entry by entry: the mass of cluster c is the sum of the
      rows' weights for c, and its weighted row is the weight-scaled sum of
      the rows. */
  lemma {:induction false} FuzzyPartialEntries(x: Matrix, mu: Matrix, k: nat, m: nat, c: nat)
    requires HasCols(x, m) && WeightsFor(x, mu, k) && c < k
    ensures FuzzyPartial(x, mu, k, m).mass[c] == SumReals(Column(mu, c))
    ensures FuzzyPartial(x, mu, k, m).weighted[c] == ColumnSums(Scaled(x, Column(mu, c)), m)
    decreases |x|
  {
    if |x| > 0 {
      FuzzyPartialEntries(x[1..], mu[1..], k, m, c);
      assert Column(mu, c)[1..] == Column(mu[1..], c);
      assert Scaled(x, Column(mu, c))[1..] == Scaled(x[1..], Column(mu[1..], c));
    }
  }

  /** Entry c of every weight vector. */
  function Column(mu: Matrix, c: nat): (col: Vector)
    requires forall i :: 0 <= i < |mu| ==> c < |mu[i]|
    ensures |col| == |mu| && forall i :: 0 <= i < |mu| ==> col[i] == mu[i][c]
  {
    seq(|mu|, i requires 0 <= i < |mu| => mu[i][c])
  }

  /** Every row scaled by its own weight. */
  function Scaled(x: Matrix, w: Vector): (y: Matrix)
    requires |w| == |x|
    ensures |y| == |x| && forall i :: 0 <= i < |x| ==> y[i] == Scale(w[i], x[i])
  {
    seq(|x|, i requires 0 <= i < |x| => Scale(w[i], x[i]))
  }

  /** Splitting the rows between units and merging their partials gives
      the partial of all rows. */
  lemma {:induction false} FuzzyPartialConcat(a: Matrix, b: Matrix, mua: Matrix, mub: Matrix, k: nat, m: nat)
    requires HasCols(a, m) && HasCols(b, m) && WeightsFor(a, mua, k) && WeightsFor(b, mub, k)
    ensures HasCols(a + b, m) && WeightsFor(a + b, mua + mub, k)
    ensures FuzzyPartial(a + b, mua + mub, k, m)
      == AddPartial(FuzzyPartial(a, mua, k, m), FuzzyPartial(b, mub, k, m), k, m)
    decreases |a|
  {
    var fb := FuzzyPartial(b, mub, k, m);
    if |a| == 0 {
      assert a + b == b && mua + mub == mub;
      AddPartialZero(fb, k, m);
      AddPartialComm(fb, ZeroPartial(k, m), k, m);
    } else {
      assert (a + b)[1..] == a[1..] + b;
      assert (mua + mub)[1..] == mua[1..] + mub;
      FuzzyPartialConcat(a[1..], b, mua[1..], mub, k, m);
      AddPartialAssoc(RowPartial(a[0], mua[0], m), FuzzyPartial(a[1..], mua[1..], k, m), fb, k, m);
    }
  }

  /** The weight vector with 1 for cluster c and 0 elsewhere. */
  function OneHot(c: nat, k: nat): (w: Vector)
    requires c < k
    ensures |w| == k && forall j :: 0 <= j < k ==> w[j] == if j == c then 1.0 else 0.0
  {
    seq(k, j requires 0 <= j < k => if j == c then 1.0 else 0.0)
  }

  /** Crisp weights: each row fully in the cluster of its label. */
  function Crisp(l: seq<nat>, k: nat): (mu: Matrix)
    requires Labels(l, k)
    ensures |mu| == |l| && HasCols(mu, k)
    ensures forall i :: 0 <= i < |l| ==> mu[i] == OneHot(l[i], k)
  {
    seq(|l|, i requires 0 <= i < |l| => OneHot(l[i], k))
  }

  /** One crisp row adds 1 to its cluster's mass and itself to its
      cluster's row sum, and leaves the other clusters alone. */
  lemma {:induction false} CrispRowAdds(v: Vector, c: nat, k: nat, m: nat, rest: Partial)
    requires |v| == m && c < k && WellFormed(rest, k, m)
    ensures AddPartial(RowPartial(v, OneHot(c, k), m), rest, k, m)
      == Partial(rest.mass[c := rest.mass[c] + 1.0], rest.weighted[c := VecAdd(rest.weighted[c], v)])
  {
    var p := AddPartial(RowPartial(v, OneHot(c, k), m), rest, k, m);
    forall j | 0 <= j < k ensures p.weighted[j] == rest.weighted[c := VecAdd(rest.weighted[c], v)][j] {
      if j == c {
        assert Scale(1.0, v) == v;
        VecAddComm(v, rest.weighted[c]);
      } else {
        assert Scale(0.0, v) == Zeros(m);
        VecAddZero(rest.weighted[j]);
      }
    }
  }

  /** With crisp weights from the labels, the fuzzy partial is the hard
      partial: the counts as mass and the segment sums as weighted rows. */
  lemma {:induction false} CrispIsHard(x: Matrix, l: seq<nat>, k: nat, m: nat)
    requires HasCols(x, m) && |l| == |x| && Labels(l, k)
    ensures FuzzyPartial(x, Crisp(l, k), k, m) == Partial(Mass(BinCount(l, k)), SegmentSum(x, l, k, m))
    decreases |x|
  {
    if |x| == 0 {
      assert Mass(BinCount(l, k)) == Zeros(k);
    } else {
      assert Crisp(l, k)[1..] == Crisp(l[1..], k);
      CrispIsHard(x[1..], l[1..], k, m);
      var rest := FuzzyPartial(x[1..], Crisp(l[1..], k), k, m);
      CrispRowAdds(x[0], l[0], k, m, rest);
      var counts := BinCount(l[1..], k);
      assert Mass(BinCount(l, k)) == Mass(counts)[l[0] := Mass(counts)[l[0]] + 1.0];
    }
  }

  /** Hence the fuzzy driver with crisp weights from the nearest centers
      computes the old K-means driver's partial. */
  lemma {:induction false} CrispFuzzyIsOldKMeans(x: Matrix, centers: Matrix, m: nat)
    requires CentersFor(centers, m) && HasCols(x, m)
    ensures FuzzyPartial(x, Crisp(Assign(x, centers, m), |centers|), |centers|, m) == OldPartial(x, centers, m)
  {
    CrispIsHard(x, Assign(x, centers, m), |centers|, m);
    OldPartialIsExact(x, centers, m);
  }

  /** Every unit has a weight vector per row of its shard. */
  predicate UnitsFit(shards: seq<Matrix>, mus: seq<Matrix>, k: nat, m: nat) {
    |mus| == |shards| && forall s :: 0 <= s < |shards| ==> HasCols(shards[s], m) && WeightsFor(shards[s], mus[s], k)
  }

  /** The units' partials, in the order given. */
  function FuzzyPartials(shards: seq<Matrix>, mus: seq<Matrix>, k: nat, m: nat): (ps: seq<Partial>)
    requires UnitsFit(shards, mus, k, m)
    ensures |ps| == |shards| && AllWellFormed(ps, k, m)
    ensures forall s :: 0 <= s < |shards| ==> ps[s] == FuzzyPartial(shards[s], mus[s], k, m)
  {
    seq(|shards|, s requires 0 <= s < |shards| => FuzzyPartial(shards[s], mus[s], k, m))
  }

  /** A round of `distribuited_fuzzy_C_means`: `add_n` of the weight sums
      and of the weighted sums, then the per-cluster division. */
  function FuzzyRound(shards: seq<Matrix>, mus: seq<Matrix>, k: nat, m: nat): (r: Option<Matrix>)
    requires UnitsFit(shards, mus, k, m)
    ensures r.Some? ==> IsMatrix(r.value, k, m)
  {
    Reduce(FuzzyPartials(shards, mus, k, m), k, m)
  }

  /** Merging the units' partials gives the partial of all rows with all
      weights. */
  lemma {:induction false} FuzzyMergeEqualsWhole(shards: seq<Matrix>, mus: seq<Matrix>, k: nat, m: nat)
    requires UnitsFit(shards, mus, k, m)
    ensures HasCols(Concat(shards), m) && WeightsFor(Concat(shards), Concat(mus), k)
    ensures Total(FuzzyPartials(shards, mus, k, m), k, m) == FuzzyPartial(Concat(shards), Concat(mus), k, m)
    decreases |shards|
  {
    if |shards| > 0 {
      FuzzyMergeEqualsWhole(shards[1..], mus[1..], k, m);
      assert FuzzyPartials(shards, mus, k, m)[1..] == FuzzyPartials(shards[1..], mus[1..], k, m);
      FuzzyPartialConcat(shards[0], Concat(shards[1..]), mus[0], Concat(mus[1..]), k, m);
    }
  }
}
