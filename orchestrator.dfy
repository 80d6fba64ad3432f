/** The command-line layer around the engine: the argument validators, the
    initial centers, and `main`'s handling of the run's result, exit status
    and log row. */
module Orchestrator {
  import opened Wrappers
  import opened Linalg
  import opened Partitioner
  import opened KMeans
  import opened Controller

  const KMeansName: string := "distributedKMeans"
  const FuzzyName: string := "distributedFuzzyCMeans"

  // ---------------------------------------------------------------------
  // Validators

  /** `make_valid_method`: exactly the two driver names are accepted. */
  function MakeValidMethod(arg: string): (r: Result<string, string>)
    ensures r.Success? <==> arg == KMeansName || arg == FuzzyName
    ensures r.Success? ==> r.value == arg
    ensures r.Failure? ==> r.error == "Invalid Method Name"
  {
    if arg == KMeansName || arg == FuzzyName then Success(arg) else Failure("Invalid Method Name")
  }

  /** The count checks of `parse_valid_gpus_names`: more than available is
      reported first, then a count that is not positive. */
  function CheckGpuCount(requested: int, available: nat): (r: Result<int, string>)
    ensures r.Success? <==> 0 < requested <= available
    ensures r.Success? ==> r.value == requested
    ensures requested > available ==> r == Failure("Number of GPUs Given is More Then Available")
    ensures requested <= 0 ==> r == Failure("Number of GPUs Given is Non Positive")
  {
    if requested > available then Failure("Number of GPUs Given is More Then Available")
    else if requested <= 0 then Failure("Number of GPUs Given is Non Positive")
    else Success(requested)
  }

  // ---------------------------------------------------------------------
  // Initial centers

  /** Where Python's `stop` of a slice `[0:stop]` lands in a sequence of
      length n: negative stops count from the end, and both ends clamp. */
  function SliceStop(n: nat, stop: int): nat {
    if stop >= 0 then (if stop <= n then stop else n)
    else if n + stop >= 0 then n + stop else 0
  }

  /** `X[0:K, :]`. */
  function InitialCenters(x: Matrix, k: int): (c: Matrix)
    ensures |c| <= |x| && c == x[..|c|]
  {
    x[..SliceStop(|x|, k)]
  }

  /** With 1 <= K <= N the initial centers are the first K rows of the data,
      K rows of the data's width; a larger K yields only N of them. */
  lemma {:induction false} InitialCentersShape(x: Matrix, k: int, m: nat)
    requires HasCols(x, m)
    ensures 1 <= k <= |x| ==> InitialCenters(x, k) == x[..k] && CentersFor(InitialCenters(x, k), m)
    ensures k > |x| ==> InitialCenters(x, k) == x
    ensures k == 0 ==> InitialCenters(x, k) == []
    ensures k < 0 ==> |InitialCenters(x, k)| == if |x| + k >= 0 then |x| + k else 0
  {
  }

  // ---------------------------------------------------------------------
  // Decimal text of integers, as Python's `str` writes them

  predicate IsDigit(c: char) {
    '0' <= c <= '9'
  }

  predicate AllDigits(s: string) {
    forall i :: 0 <= i < |s| ==> IsDigit(s[i])
  }

  function DigitChar(d: nat): (c: char)
    requires d < 10
    ensures IsDigit(c) && c as int - '0' as int == d
  {
    (d + '0' as int) as char
  }

  /** The decimal digits of n, most significant first, without leading zeros. */
  function NatToString(n: nat): (s: string)
    ensures |s| >= 1 && AllDigits(s)
    ensures |s| > 1 ==> s[0] != '0'
    decreases n
  {
    if n < 10 then [DigitChar(n)] else NatToString(n / 10) + [DigitChar(n % 10)]
  }

  function IntToString(i: int): (s: string)
    ensures |s| >= 1 && ',' !in s
    ensures if s[0] == '-' then AllDigits(s[1..]) else AllDigits(s)
  {
    if i < 0 then "-" + NatToString(-i) else NatToString(i)
  }

  /** The value of a string of decimal digits. */
  function ParseNat(s: string): nat
    requires AllDigits(s)
    decreases |s|
  {
    if |s| == 0 then 0 else ParseNat(s[..|s| - 1]) * 10 + (s[|s| - 1] as int - '0' as int)
  }

  /** Python's `int` on the text `str` writes for an integer. */
  function ParseInt(s: string): int
    requires |s| >= 1 && (if s[0] == '-' then AllDigits(s[1..]) else AllDigits(s))
  {
    if s[0] == '-' then 0 - ParseNat(s[1..]) else ParseNat(s)
  }

  lemma {:induction false} NatRoundTrip(n: nat)
    ensures ParseNat(NatToString(n)) == n
    decreases n
  {
    if n >= 10 {
      NatRoundTrip(n / 10);
      var s := NatToString(n);
      assert s[..|s| - 1] == NatToString(n / 10);
    }
  }

  /** Reading back the decimal text of an integer gives the integer. */
  lemma {:induction false} IntRoundTrip(i: int)
    ensures ParseInt(IntToString(i)) == i
  {
    if i < 0 {
      NatRoundTrip(-i);
      assert IntToString(i)[1..] == NatToString(-i);
    } else {
      NatRoundTrip(i);
    }
  }

  // ---------------------------------------------------------------------
  // Comma-separated rows

  /** `sep.join(fields)`. */
  function Join(fields: seq<string>, sep: char): string
    decreases |fields|
  {
    if |fields| == 0 then ""
    else if |fields| == 1 then fields[0]
    else fields[0] + [sep] + Join(fields[1..], sep)
  }

  /** `s.split(sep)`: the pieces between separators; there is always one
      more piece than separators. */
  function Split(s: string, sep: char): (r: seq<string>)
    ensures |r| >= 1
    decreases |s|
  {
    if |s| == 0 then [""]
    else
      var rest := Split(s[1..], sep);
      if s[0] == sep then [""] + rest else [[s[0]] + rest[0]] + rest[1..]
  }

  /** Joining n >= 1 separator-free fields puts exactly n - 1 separators
      into the text. */
  lemma {:induction false} JoinSeparators(fields: seq<string>, sep: char)
    requires forall i :: 0 <= i < |fields| ==> sep !in fields[i]
    ensures multiset(Join(fields, sep))[sep] == if |fields| == 0 then 0 else |fields| - 1
    decreases |fields|
  {
    if |fields| > 1 {
      JoinSeparators(fields[1..], sep);
      assert multiset(fields[0])[sep] == 0;
      assert multiset(fields[0] + [sep] + Join(fields[1..], sep))
        == multiset(fields[0]) + multiset([sep]) + multiset(Join(fields[1..], sep));
    } else if |fields| == 1 {
      assert multiset(fields[0])[sep] == 0;
    }
  }

  /** A field with no separator in it is one piece. */
  lemma {:induction false} SplitField(a: string, sep: char)
    requires sep !in a
    ensures Split(a, sep) == [a]
    decreases |a|
  {
    if |a| > 0 {
      SplitField(a[1..], sep);
      assert [a[0]] + a[1..] == a;
    }
  }

  /** Splitting stops at the first separator. */
  lemma {:induction false} SplitFirst(a: string, b: string, sep: char)
    requires sep !in a
    ensures Split(a + [sep] + b, sep) == [a] + Split(b, sep)
    decreases |a|
  {
    var s := a + [sep] + b;
    if |a| == 0 {
      assert s[1..] == b;
    } else {
      assert s[1..] == a[1..] + [sep] + b;
      SplitFirst(a[1..], b, sep);
      assert [a[0]] + a[1..] == a;
    }
  }

  /** Splitting a row joined from separator-free fields gives the fields back. */
  lemma {:induction false} SplitJoin(fields: seq<string>, sep: char)
    requires |fields| >= 1
    requires forall i :: 0 <= i < |fields| ==> sep !in fields[i]
    ensures Split(Join(fields, sep), sep) == fields
    decreases |fields|
  {
    if |fields| == 1 {
      SplitField(fields[0], sep);
    } else {
      SplitJoin(fields[1..], sep);
      SplitFirst(fields[0], Join(fields[1..], sep), sep);
      assert [fields[0]] + fields[1..] == fields;
    }
  }

  /** The header written to a new log file, in column order. */
  const Header: seq<string> := ["method_name", "seed", "num_GPUs", "K", "n_obs", "n_dim",
                                "setup_time", "initialization_time", "computation_time", "n_iter"]

  function HeaderLine(): string {
    Join(Header, ',') + "\n"
  }

  lemma {:induction false} HeaderCommaFree()
    ensures forall i :: 0 <= i < |Header| ==> ',' !in Header[i]
  {
  }

  /** The header line splits into its ten column names. */
  lemma {:induction false} HeaderColumns()
    ensures |Header| == 10
    ensures HeaderLine()[|HeaderLine()| - 1] == '\n'
    ensures Split(HeaderLine()[..|HeaderLine()| - 1], ',') == Header
  {
    HeaderCommaFree();
    SplitJoin(Header, ',');
    assert HeaderLine()[..|HeaderLine()| - 1] == Join(Header, ',');
  }

  // ---------------------------------------------------------------------
  // `main`

  /** The command-line arguments `main` receives, after validation. */
  datatype Args = Args(nObs: int, nDim: int, k: int, numGpus: nat, nMaxIters: int, seed: int, methodName: string)

  /** A `run_result` entry: the value the driver returned, or the name of the
      exception it raised. */
  datatype Field<T> = Value(value: T) | ExcName(name: string)

  /** `run_result` after the `try`/`except`. */
  datatype Settled = Settled(endCenter: Field<Option<Matrix>>, initCenter: Field<Matrix>, setupTime: Field<real>,
                             initializationTime: Field<real>, computationTime: Field<real>, nIter: int)

  /** What `main` does: append a row and return a status, or let an exception
      escape from its `finally` block. */
  datatype MainEffect = Logged(runResult: Settled, status: int, row: string) | Escaped(excName: string)

  /** The `except` clause: every entry becomes the exception's name, except
      the iteration count, which becomes `n_max_iters`. */
  function Settle(outcome: Outcome, nMaxIters: int): (s: Settled)
    ensures s.nIter == if outcome.Raised? then nMaxIters else outcome.result.nIter
    ensures outcome.Raised? <==> (s.endCenter.ExcName? && s.initCenter.ExcName? && s.setupTime.ExcName?
                                  && s.initializationTime.ExcName? && s.computationTime.ExcName?)
    ensures outcome.Raised? ==> s.setupTime.name == s.initializationTime.name == s.computationTime.name == outcome.excName
    ensures outcome.Completed? ==> s.computationTime == Value(outcome.result.computationTime)
    ensures outcome.Raised? ==> s.endCenter == ExcName(outcome.excName) && s.initCenter == ExcName(outcome.excName)
    ensures outcome.Completed? ==>
      s.endCenter == Value(outcome.result.endCenter) && s.initCenter == Value(outcome.result.initCenter)
      && s.setupTime == Value(outcome.result.setupTime)
      && s.initializationTime == Value(outcome.result.initializationTime)
  {
    match outcome
    case Completed(r) =>
      Settled(Value(r.endCenter), Value(r.initCenter), Value(r.setupTime), Value(r.initializationTime),
              Value(r.computationTime), r.nIter)
    case Raised(e) =>
      Settled(ExcName(e), ExcName(e), ExcName(e), ExcName(e), ExcName(e), nMaxIters)
  }

  /** `return_status`: 1 exactly when the run raised `ValueError`. */
  function ExitStatus(outcome: Outcome): (status: int)
    ensures status == 0 || status == 1
    ensures status == 1 <==> outcome == Raised("ValueError")
  {
    if outcome.Raised? && outcome.excName == "ValueError" then 1 else 0
  }

  /** `str` of a time entry; the text of a float is the caller's `render`. */
  function TimeText(f: Field<real>, render: real -> string): string {
    match f
    case Value(t) => render(t)
    case ExcName(e) => e
  }

  /** The ten logged values, in header order. */
  function LogFields(args: Args, s: Settled, render: real -> string): (fields: seq<string>)
    ensures |fields| == |Header|
  {
    [args.methodName, IntToString(args.seed), IntToString(args.numGpus), IntToString(args.k),
     IntToString(args.nObs), IntToString(args.nDim), TimeText(s.setupTime, render),
     TimeText(s.initializationTime, render), TimeText(s.computationTime, render), IntToString(s.nIter)]
  }

  /** `main` after the driver has returned or raised: a method name that
      selects no driver leaves `run_result` unbound in the `finally` block. */
  function MainPolicy(args: Args, outcome: Outcome, render: real -> string): (e: MainEffect)
    ensures e.Logged? <==> MakeValidMethod(args.methodName).Success?
    ensures e.Escaped? ==> e.excName == "UnboundLocalError"
    ensures e.Logged? ==> e.runResult == Settle(outcome, args.nMaxIters) && e.status == ExitStatus(outcome)
    ensures e.Logged? ==> |e.row| >= 1 && e.row[|e.row| - 1] == '\n'
  {
    if args.methodName != KMeansName && args.methodName != FuzzyName then Escaped("UnboundLocalError")
    else
      var s := Settle(outcome, args.nMaxIters);
      Logged(s, ExitStatus(outcome), Join(LogFields(args, s, render), ',') + "\n")
  }

  /** A line joined from comma-free fields ends in a newline and splits back
      into those fields. */
  lemma {:induction false} RowOfFields(fields: seq<string>, row: string)
    requires |fields| >= 1 && forall i :: 0 <= i < |fields| ==> ',' !in fields[i]
    requires row == Join(fields, ',') + "\n"
    ensures |row| >= 1 && row[|row| - 1] == '\n' && Split(row[..|row| - 1], ',') == fields
  {
    SplitJoin(fields, ',');
    assert row[..|row| - 1] == Join(fields, ',');
  }

  /** The row always splits into the header's ten columns, provided no
      field text contains a comma. */
  lemma {:induction false} RowMatchesHeader(args: Args, outcome: Outcome, render: real -> string)
    requires args.methodName == KMeansName || args.methodName == FuzzyName
    requires forall t :: ',' !in render(t)
    requires outcome.Raised? ==> ',' !in outcome.excName
    ensures MainPolicy(args, outcome, render).Logged?
    ensures var row := MainPolicy(args, outcome, render).row;
      |row| >= 1 && row[|row| - 1] == '\n'
      && Split(row[..|row| - 1], ',') == LogFields(args, Settle(outcome, args.nMaxIters), render)
      && |Split(row[..|row| - 1], ',')| == |Header|
  {
    var s := Settle(outcome, args.nMaxIters);
    var fields := LogFields(args, s, render);
    forall i | 0 <= i < |fields| ensures ',' !in fields[i] {
    }
    var row := MainPolicy(args, outcome, render).row;
    assert row == Join(fields, ',') + "\n";
    RowOfFields(fields, row);
  }

  /** A failed run's row carries the exception name in the three time
      columns and the text of `n_max_iters` in the last (which reads back as
      that number, by `IntRoundTrip`). */
  lemma {:induction false} FailureRow(args: Args, e: string, render: real -> string)
    requires args.methodName == KMeansName || args.methodName == FuzzyName
    requires forall t :: ',' !in render(t)
    requires ',' !in e
    ensures MainPolicy(args, Raised(e), render).Logged?
    ensures var cols := Split(MainPolicy(args, Raised(e), render).row[..|MainPolicy(args, Raised(e), render).row| - 1], ',');
      |cols| == 10 && cols[6] == e && cols[7] == e && cols[8] == e
      && cols[9] == IntToString(args.nMaxIters)
    ensures MainPolicy(args, Raised(e), render).status == (if e == "ValueError" then 1 else 0)
  {
    RowMatchesHeader(args, Raised(e), render);
    var fields := LogFields(args, Settle(Raised(e), args.nMaxIters), render);
    assert fields[6] == e && fields[7] == e && fields[8] == e;
    assert fields[9] == IntToString(args.nMaxIters);
  }

  /** `main` with the K-means method: the initial centers are the first K
      rows, and the live driver runs over `numGpus` shards. The fuzzy
      driver's outcome is taken as given. */
  method RunMain(args: Args, x: Matrix, dim: nat, clock: Clock, fuzzyOutcome: Outcome, render: real -> string)
    returns (effect: MainEffect)
    requires args.methodName == KMeansName || args.methodName == FuzzyName
    requires args.numGpus >= 1 && HasCols(x, dim) && 1 <= args.k <= |x|
    requires args.nMaxIters <= |clock.rounds|
    ensures args.methodName == FuzzyName ==> effect == MainPolicy(args, fuzzyOutcome, render)
    ensures args.methodName == KMeansName ==> effect.Logged? && effect.status == 0
    ensures args.methodName == KMeansName && args.nMaxIters > 0 ==>
      effect == MainPolicy(args, Completed(RunResult(
        Iterate(LiveKMeans, Partition(x, args.numGpus), Some(x[..args.k]), args.k, dim, args.nMaxIters),
        x[..args.k], clock.setup, clock.initialization, SumReals(clock.rounds[..args.nMaxIters]), args.nMaxIters)), render)
    ensures args.methodName == KMeansName && args.nMaxIters <= 0 ==>
      effect == MainPolicy(args, Raised("UnboundLocalError"), render)
  {
    var outcome: Outcome;
    if args.methodName == KMeansName {
      var centers := InitialCenters(x, args.k);
      InitialCentersShape(x, args.k, dim);
      outcome := DistributedKMeans(LiveKMeans, x, args.numGpus, centers, dim, args.nMaxIters, clock);
    } else {
      outcome := fuzzyOutcome;
    }
    effect := MainPolicy(args, outcome, render);
  }
}
