/** A concrete input on which the live driver's round loses every center
    while the old driver's round is well defined. */
module Findings {
  import opened Linalg
  import opened Wrappers
  import opened Partitioner
  import opened KMeans
  import opened Rounds

  /** The data of the counterexample: two one-dimensional rows, 0 and 10. */
  function Sample(): (x: Matrix)
    ensures CentersFor(x, 1) && |x| == 2
  {
    [[0.0], [10.0]]
  }

  /** Split over two units each unit sees one row, so with the centers on
      the rows each unit has an empty cluster, and the live round is
      undefined. */
  lemma {:induction false} LiveRoundLosesCenters()
    ensures ShardsFit(Partition(Sample(), 2), 1)
    ensures LiveRound(Partition(Sample(), 2), Sample(), 1) == None
  {
    var x := Sample();
    var shards := Partition(x, 2);
    ShardsHaveCols(x, 2, 1);
    assert |shards[0]| == 1;
    ShardRows(x, 2, 0, 0);
    assert shards[0] == [[0.0]];
    var l0 := Assign(shards[0], x, 1);
    assert SqDist([0.0], [10.0]) == 100.0;
    assert SqDist([0.0], [0.0]) == 0.0;
    assert l0 == [0];
    assert BinCount(l0, 2) == [1, 0];
    LiveRoundNeedsEveryCluster(shards, x, 1, 0, 1);
  }

  /** Each row of the sample is nearest to itself. */
  lemma {:induction false} SampleLabels()
    ensures Assign(Sample(), Sample(), 1) == [0, 1]
  {
    var x := Sample();
    assert SqDist([0.0], [10.0]) == 100.0;
    assert SqDist([10.0], [0.0]) == 100.0;
    assert SqDist([0.0], [0.0]) == 0.0;
    assert SqDist([10.0], [10.0]) == 0.0;
  }

  /** Labelled [0, 1], the sample gathers one row per cluster. */
  lemma {:induction false} SampleGathers()
    ensures Gather(Sample(), [0, 1], 0, 1) == [[0.0]]
    ensures Gather(Sample(), [0, 1], 1, 1) == [[10.0]]
  {
    var x := Sample();
    assert Gather(x[2..], [], 0, 1) == [] && Gather(x[2..], [], 1, 1) == [];
    assert Gather(x[1..], [1], 0, 1) == [];
    assert Gather(x[1..], [1], 1, 1) == [[10.0]];
  }

  /** A Lloyd update of the sample with centers on its rows keeps them. */
  lemma {:induction false} LloydKeepsSample()
    ensures LloydStep(Sample(), Sample(), 1) == Some(Sample())
  {
    var x := Sample();
    SampleLabels();
    SampleGathers();
    ReduceMeanSingle([0.0], 1);
    ReduceMeanSingle([10.0], 1);
    var means := ClusterMeans(x, [0, 1], 2, 1);
    assert means[0] == Some([0.0]) && means[1] == Some([10.0]);
    assert Values(means, 1) == x;
  }

  /** On the same input the old round, like the sequential Lloyd update,
      keeps both centers where they are. */
  lemma {:induction false} OldRoundKeepsCenters()
    ensures ShardsFit(Partition(Sample(), 2), 1)
    ensures OldRound(Partition(Sample(), 2), Sample(), 1) == Some(Sample())
  {
    var x := Sample();
    DistributedRoundIsLloyd(x, 2, x, 1);
    assert x[|x| % 2..] == x;
    LloydKeepsSample();
  }

  /** The live driver is undefined where the old one is not. */
  lemma {:induction false} EmptyClusterCounterexample()
    ensures ShardsFit(Partition(Sample(), 2), 1)
    ensures LiveRound(Partition(Sample(), 2), Sample(), 1) == None
    ensures OldRound(Partition(Sample(), 2), Sample(), 1).Some?
  {
    LiveRoundLosesCenters();
    OldRoundKeepsCenters();
  }
}
