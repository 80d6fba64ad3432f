/** The iteration controller: the drivers build one graph whose single
    mutable variable, the center matrix, is overwritten by the merged round
    once per session run, `n_max_iters` times, while the per-run durations
    are summed into the computation time. */
module Controller {
  import opened Linalg
  import opened Wrappers
  import opened Reducer
  import opened Partitioner
  import opened KMeans
  import opened Rounds

  /** The hard K-means driver that built the graph:
      `old_distribuited_k_means` or `distribuited_k_means`. */
  datatype Variant = OldKMeans | LiveKMeans

  /** The wall clock, read as data: the setup and initialization durations
      and the duration of each session run. */
  datatype Clock = Clock(setup: real, initialization: real, rounds: seq<real>)

  /** The dictionary a driver returns. */
  datatype RunResult = RunResult(endCenter: Option<Matrix>, initCenter: Matrix, setupTime: real,
                                 initializationTime: real, computationTime: real, nIter: int)

  /** A driver either returns its result or raises an exception, known to
      `main` by its class name. */
  datatype Outcome = Completed(result: RunResult) | Raised(excName: string)

  /** The center state has k rows of m entries, unless a not-a-number has
      entered it (`None`). */
  predicate StateFor(centers: Option<Matrix>, k: nat, m: nat) {
    centers.Some? ==> IsMatrix(centers.value, k, m)
  }

  /** One session run's effect on the center variable. */
  function Round(v: Variant, shards: seq<Matrix>, centers: Option<Matrix>, k: nat, m: nat): (r: Option<Matrix>)
    requires k >= 1 && ShardsFit(shards, m) && StateFor(centers, k, m)
    ensures StateFor(r, k, m)
  {
    match centers
    case None => None
    case Some(c) => if v == OldKMeans then OldRound(shards, c, m) else LiveRound(shards, c, m)
  }

  /** The session run as a total update of the center variable; states of
      the wrong shape never arise in an engine and map to `None`. */
  function Update(v: Variant, shards: seq<Matrix>, k: nat, m: nat): Option<Matrix> -> Option<Matrix> {
    c => if k >= 1 && ShardsFit(shards, m) && StateFor(c, k, m) then Round(v, shards, c, k, m) else None
  }

  /** x after n applications of step. */
  function Power<T>(step: T -> T, x: T, n: nat): T
    decreases n
  {
    if n == 0 then x else step(Power(step, x, n - 1))
  }

  /** The center variable after n session runs; once a not-a-number has
      entered it, it never leaves. */
  function Iterate(v: Variant, shards: seq<Matrix>, centers: Option<Matrix>, k: nat, m: nat, n: nat): (r: Option<Matrix>)
    ensures centers.None? ==> r.None?
  {
    var step := Update(v, shards, k, m);
    PowerFixedPoint(step, None, n);
    Power(step, centers, n)
  }

  /** The sequential reference: one Lloyd update as a total map on states. */
  function LloydUpdate(y: Matrix, k: nat, m: nat): Option<Matrix> -> Option<Matrix> {
    c => if k >= 1 && HasCols(y, m) && StateFor(c, k, m) && c.Some? then LloydStep(y, c.value, m) else None
  }

  /** n Lloyd updates of all of y. */
  function LloydIterate(y: Matrix, centers: Option<Matrix>, k: nat, m: nat, n: nat): Option<Matrix> {
    Power(LloydUpdate(y, k, m), centers, n)
  }

  // ---------------------------------------------------------------------
  // Properties of repeated updates

  /** A state the update leaves unchanged stays unchanged. */
  lemma {:induction false} PowerFixedPoint<T>(step: T -> T, x: T, n: nat)
    requires step(x) == x
    ensures Power(step, x, n) == x
    decreases n
  {
    if n > 0 {
      PowerFixedPoint(step, x, n - 1);
    }
  }

  /** Two updates that agree on an invariant set the first keeps agree on
      every state reached from it. */
  lemma {:induction false} PowerAgree<T>(f: T -> T, g: T -> T, inv: T -> bool, x: T, n: nat)
    requires inv(x)
    requires forall y :: inv(y) ==> inv(f(y)) && f(y) == g(y)
    ensures inv(Power(f, x, n)) && Power(f, x, n) == Power(g, x, n)
    decreases n
  {
    if n > 0 {
      PowerAgree(f, g, inv, x, n - 1);
    }
  }

  /** The engine's state after n runs has the shape of the centers. */
  lemma {:induction false} IterateKeepsShape(v: Variant, shards: seq<Matrix>, centers: Option<Matrix>, k: nat, m: nat, n: nat)
    requires k >= 1 && ShardsFit(shards, m) && StateFor(centers, k, m)
    ensures StateFor(Iterate(v, shards, centers, k, m, n), k, m)
    ensures n > 0 ==> Iterate(v, shards, centers, k, m, n) == Round(v, shards, Iterate(v, shards, centers, k, m, n - 1), k, m)
    decreases n
  {
    if n > 0 {
      IterateKeepsShape(v, shards, centers, k, m, n - 1);
    }
  }

  /** Centers that one round leaves unchanged stay unchanged for any number
      of rounds. */
  lemma {:induction false} FixedPointStays(v: Variant, shards: seq<Matrix>, centers: Option<Matrix>, k: nat, m: nat, n: nat)
    requires k >= 1 && ShardsFit(shards, m) && StateFor(centers, k, m)
    requires Round(v, shards, centers, k, m) == centers
    ensures Iterate(v, shards, centers, k, m, n) == centers
  {
    PowerFixedPoint(Update(v, shards, k, m), centers, n);
  }

  /** n rounds of the old driver over the partition are n Lloyd updates of
      the rows the partitioner kept. */
  lemma {:induction false} OldIterateIsLloyd(x: Matrix, p: nat, centers: Matrix, m: nat, n: nat)
    requires p >= 1 && CentersFor(centers, m) && HasCols(x, m)
    ensures Iterate(OldKMeans, Partition(x, p), Some(centers), |centers|, m, n)
      == LloydIterate(x[|x| % p..], Some(centers), |centers|, m, n)
  {
    var k := |centers|;
    var shards := Partition(x, p);
    var y := x[|x| % p..];
    ShardsHaveCols(x, p, m);
    var f := Update(OldKMeans, shards, k, m);
    var g := LloydUpdate(y, k, m);
    var inv := (c: Option<Matrix>) => StateFor(c, k, m);
    forall c | inv(c) ensures inv(f(c)) && f(c) == g(c) {
      if c.Some? {
        DistributedRoundIsLloyd(x, p, c.value, m);
      }
    }
    PowerAgree(f, g, inv, Some(centers), n);
  }

  /** Where the live driver's centers are still defined they are the old
      driver's centers. */
  lemma {:induction false} LiveIterateAgrees(shards: seq<Matrix>, centers: Matrix, m: nat, n: nat)
    requires CentersFor(centers, m) && ShardsFit(shards, m)
    requires Iterate(LiveKMeans, shards, Some(centers), |centers|, m, n).Some?
    ensures Iterate(LiveKMeans, shards, Some(centers), |centers|, m, n)
      == Iterate(OldKMeans, shards, Some(centers), |centers|, m, n)
    decreases n
  {
    if n > 0 {
      var k := |centers|;
      IterateKeepsShape(LiveKMeans, shards, Some(centers), k, m, n);
      IterateKeepsShape(OldKMeans, shards, Some(centers), k, m, n);
      var prev := Iterate(LiveKMeans, shards, Some(centers), k, m, n - 1);
      assert prev.Some?;
      LiveIterateAgrees(shards, centers, m, n - 1);
      LiveRoundAgrees(shards, prev.value, m);
    }
  }

  // ---------------------------------------------------------------------
  // The fan-out loops

  /** The old driver's graph-building loop: each unit pops the last shard
      off the list and appends its partial, so unit i gets shard P-1-i. */
  method CollectOldPartials(shards: seq<Matrix>, centers: Matrix, m: nat) returns (ps: seq<Partial>)
    requires CentersFor(centers, m) && ShardsFit(shards, m)
    ensures |ps| == |shards|
    ensures forall i :: 0 <= i < |ps| ==> ps[i] == OldPartial(shards[|shards| - 1 - i], centers, m)
    ensures ShardsFit(Reversed(shards), m) && ps == OldPartials(Reversed(shards), centers, m)
  {
    var xs := shards;
    ps := [];
    while |xs| > 0
      invariant xs == shards[..|xs|]
      invariant |ps| == |shards| - |xs|
      invariant forall i :: 0 <= i < |ps| ==> ps[i] == OldPartial(shards[|shards| - 1 - i], centers, m)
    {
      var shard := xs[|xs| - 1];
      xs := xs[..|xs| - 1];
      ps := ps + [OldPartial(shard, centers, m)];
    }
    OldRoundOrderFree(shards, centers, m);
  }

  /** The live driver's graph-building loop: unit i reads shard i. */
  method CollectLivePartials(shards: seq<Matrix>, centers: Matrix, m: nat) returns (ps: seq<Option<Partial>>)
    requires CentersFor(centers, m) && ShardsFit(shards, m)
    ensures ps == LivePartials(shards, centers, m)
  {
    ps := [];
    for s := 0 to |shards|
      invariant |ps| == s
      invariant forall i :: 0 <= i < s ==> ps[i] == LivePartial(shards[i], centers, m)
    {
      ps := ps + [LivePartial(shards[s], centers, m)];
    }
  }

  /** The old driver's graph evaluated once: gather the partials in pop
      order and merge them. */
  method OldUpdate(shards: seq<Matrix>, centers: Matrix, m: nat) returns (next: Option<Matrix>)
    requires CentersFor(centers, m) && ShardsFit(shards, m)
    ensures next == OldRound(shards, centers, m)
  {
    var ps := CollectOldPartials(shards, centers, m);
    next := Reduce(ps, |centers|, m);
    OldRoundOrderFree(shards, centers, m);
  }

  /** The live driver's graph evaluated once; a not-a-number in any partial
      reaches the merged centers. */
  method LiveUpdate(shards: seq<Matrix>, centers: Matrix, m: nat) returns (next: Option<Matrix>)
    requires CentersFor(centers, m) && ShardsFit(shards, m)
    ensures next == LiveRound(shards, centers, m)
  {
    var ps := CollectLivePartials(shards, centers, m);
    if AllPartialsDefined(ps) {
      next := Reduce(DefinedPartials(ps, |centers|, m), |centers|, m);
    } else {
      next := None;
    }
  }

  /** One session run of either driver; a not-a-number in the centers
      stays. */
  method RoundUpdate(v: Variant, shards: seq<Matrix>, centers: Option<Matrix>, k: nat, m: nat)
    returns (next: Option<Matrix>)
    requires k >= 1 && ShardsFit(shards, m) && StateFor(centers, k, m)
    ensures next == Round(v, shards, centers, k, m)
  {
    next := None;
    if centers.Some? {
      if v == OldKMeans {
        next := OldUpdate(shards, centers.value, m);
      } else {
        next := LiveUpdate(shards, centers.value, m);
      }
    }
  }

  // ---------------------------------------------------------------------
  // The engine

  /** The graph a driver builds, and its one mutable variable. */
  class Engine {
    const variant: Variant
    const k: nat
    const dim: nat
    const shards: seq<Matrix>
    const initialCenters: Matrix
    var centers: Option<Matrix>
    /** How many session runs have updated the centers. */
    ghost var rounds: nat

    ghost predicate Valid()
      reads this
    {
      k >= 1 && IsMatrix(initialCenters, k, dim) && ShardsFit(shards, dim)
      && StateFor(centers, k, dim)
      && centers == Iterate(variant, shards, Some(initialCenters), k, dim, rounds)
    }

    /** Setup: split the data and initialize the center variable. */
    constructor (variant: Variant, x: Matrix, gpuCount: nat, initialCenters: Matrix, dim: nat)
      requires gpuCount >= 1 && HasCols(x, dim) && CentersFor(initialCenters, dim)
      ensures Valid()
      ensures this.variant == variant && this.k == |initialCenters| && this.dim == dim
      ensures shards == Partition(x, gpuCount) && this.initialCenters == initialCenters
      ensures centers == Some(initialCenters) && rounds == 0
    {
      ShardsHaveCols(x, gpuCount, dim);
      this.variant := variant;
      this.k := |initialCenters|;
      this.dim := dim;
      this.shards := Partition(x, gpuCount);
      this.initialCenters := initialCenters;
      this.centers := Some(initialCenters);
      this.rounds := 0;
    }

    /** One `sess.run` of the update: evaluate every unit's partial against
        the current centers, merge them and assign the result. */
    method Step()
      requires Valid()
      modifies this
      ensures Valid() && rounds == old(rounds) + 1
      ensures centers == Round(variant, shards, old(centers), k, dim)
    {
      centers := RoundUpdate(variant, shards, centers, k, dim);
      IterateKeepsShape(variant, shards, Some(initialCenters), k, dim, rounds + 1);
      rounds := rounds + 1;
    }

    /** The driver's `for i in range(n_max_iters)` loop and the result
        dictionary after it; with no iteration neither `result` nor `i` is
        bound, and reading `result` for `end_center` raises first. */
    method Run(nMaxIters: int, clock: Clock) returns (outcome: Outcome)
      requires Valid() && nMaxIters <= |clock.rounds|
      modifies this
      ensures Valid()
      ensures nMaxIters <= 0 ==> outcome == Raised("UnboundLocalError")
      ensures nMaxIters <= 0 ==> centers == old(centers) && rounds == old(rounds)
      ensures nMaxIters > 0 ==> rounds == old(rounds) + nMaxIters
      ensures nMaxIters > 0 ==> centers == Iterate(variant, shards, old(centers), k, dim, nMaxIters)
      ensures nMaxIters > 0 ==> outcome == Completed(RunResult(centers, initialCenters, clock.setup,
                                  clock.initialization, SumReals(clock.rounds[..nMaxIters]), nMaxIters))
    {
      ghost var start := centers;
      var computation := 0.0;
      var i := 0;
      var bound := false;
      var last := 0;
      while i < nMaxIters
        invariant Valid()
        invariant 0 <= i && (nMaxIters > 0 ==> i <= nMaxIters) && (nMaxIters <= 0 ==> i == 0)
        invariant rounds == old(rounds) + i
        invariant centers == Iterate(variant, shards, start, k, dim, i)
        invariant computation == SumReals(clock.rounds[..i])
        invariant bound <==> i > 0
        invariant bound ==> last == i - 1
        decreases nMaxIters - i
      {
        Step();
        IterateKeepsShape(variant, shards, start, k, dim, i + 1);
        SumRealsPrefix(clock.rounds, i);
        computation := computation + clock.rounds[i];
        bound := true;
        last := i;
        i := i + 1;
      }
      if !bound {
        outcome := Raised("UnboundLocalError");
      } else {
        outcome := Completed(RunResult(centers, initialCenters, clock.setup, clock.initialization, computation, last + 1));
      }
    }
  }

  /** A whole K-means driver call: build the engine over `gpuCount` shards,
      then run it. */
  method DistributedKMeans(variant: Variant, x: Matrix, gpuCount: nat, initialCenters: Matrix, dim: nat,
                           nMaxIters: int, clock: Clock) returns (outcome: Outcome)
    requires gpuCount >= 1 && HasCols(x, dim) && CentersFor(initialCenters, dim)
    requires nMaxIters <= |clock.rounds|
    ensures ShardsFit(Partition(x, gpuCount), dim)
    ensures nMaxIters <= 0 ==> outcome == Raised("UnboundLocalError")
    ensures nMaxIters > 0 ==> outcome == Completed(RunResult(
      Iterate(variant, Partition(x, gpuCount), Some(initialCenters), |initialCenters|, dim, nMaxIters),
      initialCenters, clock.setup, clock.initialization, SumReals(clock.rounds[..nMaxIters]), nMaxIters))
  {
    var engine := new Engine(variant, x, gpuCount, initialCenters, dim);
    outcome := engine.Run(nMaxIters, clock);
  }
}
