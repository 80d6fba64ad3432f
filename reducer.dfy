/** The global reducer: the fan-in step that merges the compute units'
    partial aggregates and divides the merged weighted sums by the merged
    mass. K-means and fuzzy C-means produce partials of the same shape, so
    one reducer serves both. */
module Reducer {
  import opened Linalg
  import opened Wrappers

  /** One unit's partial aggregate for one round: a mass per cluster (a row
      count, or a total membership weight) and a weighted sum of rows per
      cluster (K x M). The source keeps the latter transposed (M x K); the
      model stores it row per cluster. */
  datatype Partial = Partial(mass: Vector, weighted: Matrix)

  predicate WellFormed(p: Partial, k: nat, m: nat) {
    |p.mass| == k && IsMatrix(p.weighted, k, m)
  }

  predicate AllWellFormed(ps: seq<Partial>, k: nat, m: nat) {
    forall i :: 0 <= i < |ps| ==> WellFormed(ps[i], k, m)
  }

  function ZeroPartial(k: nat, m: nat): (z: Partial)
    ensures WellFormed(z, k, m)
  {
    Partial(Zeros(k), ZeroMatrix(k, m))
  }

  /** Element-wise sum of two partials (one step of `add_n`). */
  function AddPartial(p: Partial, q: Partial, k: nat, m: nat): (r: Partial)
    requires WellFormed(p, k, m) && WellFormed(q, k, m)
    ensures WellFormed(r, k, m)
  {
    Partial(VecAdd(p.mass, q.mass), MatAdd(p.weighted, q.weighted))
  }

  /** `add_n` over the list of partials, for masses and weighted sums at once. */
  function Total(ps: seq<Partial>, k: nat, m: nat): (t: Partial)
    requires AllWellFormed(ps, k, m)
    ensures WellFormed(t, k, m)
  {
    if |ps| == 0 then ZeroPartial(k, m) else AddPartial(ps[0], Total(ps[1..], k, m), k, m)
  }

  /** Every cluster of `t` carries nonzero mass, so that dividing by it is defined. */
  predicate MassesNonzero(t: Partial, k: nat)
    requires |t.mass| == k
  {
    forall c :: 0 <= c < k ==> t.mass[c] != 0.0
  }

  /** Divides each cluster's weighted sum by its mass. A cluster of zero mass
      makes the division 0/0, which the source leaves as not-a-number: the
      new center matrix is then undefined. */
  function Divide(t: Partial, k: nat, m: nat): (r: Option<Matrix>)
    requires WellFormed(t, k, m)
    ensures r.Some? <==> MassesNonzero(t, k)
    ensures r.Some? ==> IsMatrix(r.value, k, m)
    ensures r.Some? ==> forall c, d :: 0 <= c < k && 0 <= d < m ==>
      r.value[c][d] * t.mass[c] == t.weighted[c][d]
  {
    if MassesNonzero(t, k) then
      Some(seq(k, c requires 0 <= c < k => seq(m, d requires 0 <= d < m => t.weighted[c][d] / t.mass[c])))
    else
      None
  }

  lemma {:induction false} CancelFactor(a: real, b: real, f: real)
    requires f != 0.0 && a * f == b * f
    ensures a == b
  {
    assert (a - b) * f == 0.0;
  }

  /** Divide yields the matrix v that, scaled by the masses, gives back the weighted sums. */
  lemma {:induction false} DivideSolves(t: Partial, v: Matrix, k: nat, m: nat)
    requires WellFormed(t, k, m) && MassesNonzero(t, k) && IsMatrix(v, k, m)
    requires forall c, d :: 0 <= c < k && 0 <= d < m ==> v[c][d] * t.mass[c] == t.weighted[c][d]
    ensures Divide(t, k, m) == Some(v)
  {
    var r := Divide(t, k, m).value;
    forall c | 0 <= c < k ensures r[c] == v[c] {
      forall d | 0 <= d < m ensures r[c][d] == v[c][d] {
        CancelFactor(r[c][d], v[c][d], t.mass[c]);
      }
    }
    assert r == v;
  }

  /** The whole reducer: sum the partials, then divide per cluster. */
  function Reduce(ps: seq<Partial>, k: nat, m: nat): (r: Option<Matrix>)
    requires AllWellFormed(ps, k, m)
    ensures r.Some? <==> MassesNonzero(Total(ps, k, m), k)
    ensures r.Some? ==> IsMatrix(r.value, k, m)
    ensures r.Some? ==> forall c, d :: 0 <= c < k && 0 <= d < m ==>
      r.value[c][d] * Total(ps, k, m).mass[c] == Total(ps, k, m).weighted[c][d]
  {
    var t := Total(ps, k, m);
    Divide(t, k, m)
  }

  lemma {:induction false} AddPartialComm(p: Partial, q: Partial, k: nat, m: nat)
    requires WellFormed(p, k, m) && WellFormed(q, k, m)
    ensures AddPartial(p, q, k, m) == AddPartial(q, p, k, m)
  {
    VecAddComm(p.mass, q.mass);
    MatAddComm(p.weighted, q.weighted);
  }

  lemma {:induction false} AddPartialAssoc(p: Partial, q: Partial, r: Partial, k: nat, m: nat)
    requires WellFormed(p, k, m) && WellFormed(q, k, m) && WellFormed(r, k, m)
    ensures AddPartial(AddPartial(p, q, k, m), r, k, m) == AddPartial(p, AddPartial(q, r, k, m), k, m)
  {
    VecAddAssoc(p.mass, q.mass, r.mass);
    MatAddAssoc(p.weighted, q.weighted, r.weighted);
  }

  lemma {:induction false} AddPartialZero(p: Partial, k: nat, m: nat)
    requires WellFormed(p, k, m)
    ensures AddPartial(p, ZeroPartial(k, m), k, m) == p
  {
    VecAddZero(p.mass);
    MatAddZero(p.weighted, m);
  }

  /** Merging the partial lists of two groups of units is merging their totals. */
  lemma {:induction false} TotalConcat(ps: seq<Partial>, qs: seq<Partial>, k: nat, m: nat)
    requires AllWellFormed(ps, k, m) && AllWellFormed(qs, k, m)
    ensures AllWellFormed(ps + qs, k, m)
    ensures Total(ps + qs, k, m) == AddPartial(Total(ps, k, m), Total(qs, k, m), k, m)
    decreases |ps|
  {
    if |ps| == 0 {
      assert ps + qs == qs;
      AddPartialComm(ZeroPartial(k, m), Total(qs, k, m), k, m);
      AddPartialZero(Total(qs, k, m), k, m);
    } else {
      assert (ps + qs)[1..] == ps[1..] + qs;
      TotalConcat(ps[1..], qs, k, m);
      AddPartialAssoc(ps[0], Total(ps[1..], k, m), Total(qs, k, m), k, m);
    }
  }

  /** Pulling the partial at index j to the front does not change the total. */
  lemma {:induction false} TotalRemove(qs: seq<Partial>, j: nat, k: nat, m: nat)
    requires AllWellFormed(qs, k, m) && j < |qs|
    ensures AllWellFormed(qs[..j] + qs[j + 1..], k, m)
    ensures Total(qs, k, m) == AddPartial(qs[j], Total(qs[..j] + qs[j + 1..], k, m), k, m)
    decreases j
  {
    var rest := qs[..j] + qs[j + 1..];
    if j == 0 {
      assert rest == qs[1..];
    } else {
      var tail := qs[1..];
      TotalRemove(tail, j - 1, k, m);
      var tailRest := tail[..j - 1] + tail[j..];
      assert rest == [qs[0]] + tailRest;
      assert rest[0] == qs[0] && rest[1..] == tailRest;
      calc {
        Total(qs, k, m);
        AddPartial(qs[0], Total(tail, k, m), k, m);
        AddPartial(qs[0], AddPartial(qs[j], Total(tailRest, k, m), k, m), k, m);
        { AddPartialAssoc(qs[0], qs[j], Total(tailRest, k, m), k, m);
          AddPartialComm(qs[0], qs[j], k, m);
          AddPartialAssoc(qs[j], qs[0], Total(tailRest, k, m), k, m); }
        AddPartial(qs[j], AddPartial(qs[0], Total(tailRest, k, m), k, m), k, m);
        AddPartial(qs[j], Total(rest, k, m), k, m);
      }
    }
  }

  /** The merge is order-free: any reordering of the units' partials (the
      source merges them in reverse shard order in two drivers and in shard
      order in the third) gives the same total. */
  lemma {:induction false} PermutationWellFormed(ps: seq<Partial>, qs: seq<Partial>, k: nat, m: nat)
    requires AllWellFormed(ps, k, m) && multiset(ps) == multiset(qs)
    ensures AllWellFormed(qs, k, m)
  {
    forall i | 0 <= i < |qs| ensures WellFormed(qs[i], k, m) {
      assert qs[i] in multiset(ps);
    }
  }

  /** Taking the same element out of two sequences with equal multisets
      leaves equal multisets. */
  lemma {:induction false} MultisetRemoveFront<T>(ps: seq<T>, qs: seq<T>, j: nat)
    requires multiset(ps) == multiset(qs) && |ps| > 0 && j < |qs| && qs[j] == ps[0]
    ensures multiset(ps[1..]) == multiset(qs[..j] + qs[j + 1..])
  {
    var x := ps[0];
    var rest := qs[..j] + qs[j + 1..];
    assert qs == qs[..j] + [x] + qs[j + 1..];
    assert ps == [x] + ps[1..];
    calc {
      multiset(ps[1..]);
      multiset(ps) - multiset{x};
      multiset(qs) - multiset{x};
      multiset(rest);
    }
  }

  lemma {:induction false} TotalPermutation(ps: seq<Partial>, qs: seq<Partial>, k: nat, m: nat)
    requires AllWellFormed(ps, k, m) && multiset(ps) == multiset(qs)
    ensures AllWellFormed(qs, k, m)
    ensures Total(ps, k, m) == Total(qs, k, m)
    decreases |ps|
  {
    PermutationWellFormed(ps, qs, k, m);
    if |ps| == 0 {
      assert |qs| == |multiset(qs)| == 0;
    } else {
      var x := ps[0];
      assert x in multiset(qs);
      var j :| 0 <= j < |qs| && qs[j] == x;
      var rest := qs[..j] + qs[j + 1..];
      MultisetRemoveFront(ps, qs, j);
      TotalPermutation(ps[1..], rest, k, m);
      TotalRemove(qs, j, k, m);
    }
  }

  /** The reducer's result does not depend on the order the partials arrive in. */
  lemma {:induction false} ReduceOrderFree(ps: seq<Partial>, qs: seq<Partial>, k: nat, m: nat)
    requires AllWellFormed(ps, k, m) && multiset(ps) == multiset(qs)
    ensures AllWellFormed(qs, k, m)
    ensures Reduce(ps, k, m) == Reduce(qs, k, m)
  {
    TotalPermutation(ps, qs, k, m);
  }

  /** The list read back to front, as `list.pop()` hands the shards out. */
  function Reversed<T>(s: seq<T>): (r: seq<T>)
    ensures |r| == |s| && forall i :: 0 <= i < |s| ==> r[i] == s[|s| - 1 - i]
  {
    if |s| == 0 then [] else Reversed(s[1..]) + [s[0]]
  }

  lemma {:induction false} ReversedMultiset<T>(s: seq<T>)
    ensures multiset(Reversed(s)) == multiset(s)
    decreases |s|
  {
    if |s| > 0 {
      ReversedMultiset(s[1..]);
      assert s == [s[0]] + s[1..];
    }
  }
}
