/** Walk-forward evaluation: folds of unseen bars, each evaluated with parameters found on everything before it. */
module WalkForward {
  import opened Numeric
  import opened Market
  import opened Strategy
  import opened StrategyParams
  import opened WarmupBound
  import DumpTree
  import opened Optimizer
  import MC = MonteCarlo

  /** `best` is absent when the fold's search found nothing viable. */
  datatype Fold = Fold(index: int, trainBars: int, testStart: int, testEnd: int, best: Option<Values>,
    test: Option<Run>)

  datatype Report = Report(folds: seq<Fold>, meanTestObjective: Option<real>, totalTestTrades: int,
    monteCarlo: Option<MC.Summary>)

  // Window arithmetic.

  function TestLength(total: nat, folds: int): int
    requires folds >= 2
  {
    (total - total / 2) / folds
  }

  function TestStart(total: nat, folds: int, k: int): int
    requires folds >= 2
  {
    total / 2 + k * TestLength(total, folds)
  }

  function TestEnd(total: nat, folds: int, k: int): int
    requires folds >= 2
  {
    if k == folds - 1 then total else TestStart(total, folds, k) + TestLength(total, folds)
  }

  /** The check that refuses short histories. */
  predicate LongEnough(total: nat, folds: int, warmup: int)
    requires folds >= 2
  {
    TestLength(total, folds) >= warmup / 2 + MIN_TEST_TRADE_BARS
  }

  lemma DivisionFits(n: nat, d: int)
    requires d >= 1
    ensures 0 <= d * (n / d) <= n
  {
  }

  lemma FewerTimes(k: int, m: int, length: int)
    requires k <= m && length >= 0
    ensures k * length <= m * length
  {
    assert (m - k) * length >= 0;
  }

  lemma NextStart(total: nat, folds: int, k: int)
    requires folds >= 2
    ensures TestStart(total, folds, k + 1) == TestStart(total, folds, k) + TestLength(total, folds)
  {
  }

  /**
   * The folds tile the second half of the history: the first starts at the midpoint, each starts where the one
   * before ends, the last ends with the history, and none is shorter than the common length.
   */
  lemma FoldsTile(total: nat, folds: int, k: int)
    requires folds >= 2 && 0 <= k < folds
    ensures TestStart(total, folds, 0) == total / 2
    ensures k < folds - 1 ==> TestEnd(total, folds, k) == TestStart(total, folds, k + 1)
    ensures k == folds - 1 ==> TestEnd(total, folds, k) == total
    ensures total / 2 <= TestStart(total, folds, k)
    ensures TestEnd(total, folds, k) - TestStart(total, folds, k) >= TestLength(total, folds) >= 0
    ensures TestEnd(total, folds, k) <= total
  {
    var length := TestLength(total, folds);
    DivisionFits(total - total / 2, folds);
    NextStart(total, folds, k);
    FewerTimes(0, k, length);
    FewerTimes(k + 1, folds, length);
  }

  /**
   * The guard suffices for every fold: its training slice has at least the warm-up plus ten bars, the warm-up
   * prefix never reaches before the first bar, and the prefixed window suits any strategy within the bound.
   */
  lemma GuardSuffices(total: nat, folds: int, warmup: int, k: int)
    requires folds >= 2 && warmup >= 1 && 0 <= k < folds && LongEnough(total, folds, warmup)
    ensures TestStart(total, folds, k) >= warmup + MIN_TEST_TRADE_BARS
    ensures TestStart(total, folds, k) - warmup >= 0
    ensures TestEnd(total, folds, k) - (TestStart(total, folds, k) - warmup) >= warmup + MIN_TEST_TRADE_BARS
  {
    FoldsTile(total, folds, k);
    DivisionFits(total - total / 2, folds);
    FewerTimes(2, folds, TestLength(total, folds));
  }

  /** The test windows in order, joined. */
  function Joined(bars: seq<Bar>, folds: int, k: nat): seq<Bar>
    requires folds >= 2 && k <= folds
  {
    if k == 0 then []
    else
      FoldsTile(|bars|, folds, k - 1);
      Joined(bars, folds, k - 1) + Slice(bars, TestStart(|bars|, folds, k - 1), TestEnd(|bars|, folds, k - 1))
  }

  lemma Abutting(bars: seq<Bar>, a: int, b: int, c: int)
    requires 0 <= a <= b <= c <= |bars|
    ensures bars[a..b] + Slice(bars, b, c) == bars[a..c]
  {
  }

  lemma {:induction false} JoinedPrefix(bars: seq<Bar>, folds: int, k: nat)
    requires folds >= 2 && k <= folds
    ensures TestStart(|bars|, folds, 0) <= (if k == folds then |bars| else TestStart(|bars|, folds, k)) <= |bars|
    ensures Joined(bars, folds, k) == bars[|bars| / 2..if k == folds then |bars| else TestStart(|bars|, folds, k)]
  {
    hide TestStart, TestEnd, TestLength, Slice;
    if k == 0 {
      FoldsTile(|bars|, folds, 0);
    } else {
      JoinedPrefix(bars, folds, k - 1);
      FoldsTile(|bars|, folds, k - 1);
      if k < folds {
        FoldsTile(|bars|, folds, k);
      }
      Abutting(bars, |bars| / 2, TestStart(|bars|, folds, k - 1), TestEnd(|bars|, folds, k - 1));
    }
  }

  /** No bar of the second half is evaluated twice or left out. */
  lemma WindowsCoverTheSecondHalf(bars: seq<Bar>, folds: int)
    requires folds >= 2
    ensures Joined(bars, folds, folds) == bars[|bars| / 2..]
  {
    JoinedPrefix(bars, folds, folds);
  }

  // The run.

  predicate TestedOn(spec: Spec, window: seq<Bar>, engine: Engine, best: Values, test: Option<Run>) {
    var tuned := Apply(spec.strategy, spec.parameters, best);
    tuned.Ok? && test == Some(engine(tuned.value, window))
  }

  /** A fold's winner is chosen on the bars before its window alone, and evaluated on exactly its window behind the
   * prefix.
   */
  ghost predicate FoldOn(spec: Spec, bars: seq<Bar>, start: int, end: int, warmup: int, minTrades: int, engine: Engine,
                         draws: seq<Values>, f: Fold)
  {
    && 0 <= start - warmup <= start < end <= |bars|
    && f.trainBars == start
    && f.testStart == bars[start].timestamp && f.testEnd == bars[end - 1].timestamp
    && NoneTooShort(spec, Slice(bars, 0, start), draws)
    && (f.best.None? ==> f.test.None? && NoneViable(spec, Slice(bars, 0, start), minTrades, engine, draws))
    && (f.best.Some? ==>
          && Wins(spec, Slice(bars, 0, start), minTrades, engine, draws, f.best.value)
          && TestedOn(spec, Slice(bars, start - warmup, end), engine, f.best.value, f.test))
  }

  ghost predicate FoldDone(spec: Spec, bars: seq<Bar>, folds: int, warmup: int, minTrades: int, engine: Engine,
                           draws: seq<Values>, k: int, f: Fold)
    requires folds >= 2 && 0 <= k < folds
  {
    f.index == k && FoldOn(spec, bars, TestStart(|bars|, folds, k), TestEnd(|bars|, folds, k), warmup, minTrades,
      engine, draws, f)
  }

  function Objectives(folds: seq<Fold>): seq<real> {
    if folds == [] then []
    else
      var last := folds[|folds| - 1];
      Objectives(folds[..|folds| - 1]) + if last.test.Some?
        && last.test.value.objective.Some? then [last.test.value.objective.value] else []
  }

  function Mean(xs: seq<real>): Option<real> {
    if xs == [] then None else Some(Sum(xs) / |xs| as real)
  }

  /** The returns of every trade made in a test window, fold after fold. */
  function TestReturns(folds: seq<Fold>): seq<real> {
    if folds == [] then []
    else
      var last := folds[|folds| - 1];
      TestReturns(folds[..|folds| - 1]) + if last.test.Some? then last.test.value.tradeReturns else []
  }

  predicate HasObjective(f: Fold) { f.test.Some? && f.test.value.objective.Some? }

  /** The folds whose evaluation has an objective. */
  function ScoredAt(folds: seq<Fold>): set<int> { set k | 0 <= k < |folds| && HasObjective(folds[k]) }

  function ObjectiveSum(folds: seq<Fold>): real {
    if folds == [] then 0.0
    else (if HasObjective(folds[0]) then folds[0].test.value.objective.value else 0.0) + ObjectiveSum(folds[1..])
  }

  function TradeCount(folds: seq<Fold>): nat {
    if folds == [] then 0
    else (if folds[0].test.Some? then |folds[0].test.value.tradeReturns| else 0) + TradeCount(folds[1..])
  }

  lemma {:induction false} SumSnoc(xs: seq<real>, x: real)
    ensures Sum(xs + [x]) == Sum(xs) + x
  {
    if xs == [] {
      assert [x][1..] == [];
      assert xs + [x] == [x];
    } else {
      assert (xs + [x])[1..] == xs[1..] + [x];
      SumSnoc(xs[1..], x);
    }
  }

  lemma {:induction false} CountsSnoc(front: seq<Fold>, f: Fold)
    ensures ObjectiveSum(front + [f]) ==
            ObjectiveSum(front) + if HasObjective(f) then f.test.value.objective.value else 0.0
    ensures TradeCount(front + [f]) == TradeCount(front) + if f.test.Some? then |f.test.value.tradeReturns| else 0
  {
    if front == [] {
      assert [f][1..] == [];
      assert front + [f] == [f];
    } else {
      assert (front + [f])[1..] == front[1..] + [f];
      CountsSnoc(front[1..], f);
    }
  }

  lemma ScoredSnoc(front: seq<Fold>, f: Fold)
    ensures |ScoredAt(front + [f])| == |ScoredAt(front)| + if HasObjective(f) then 1 else 0
  {
    hide HasObjective;
    assert forall k | 0 <= k < |front| :: (front + [f])[k] == front[k];
    assert ScoredAt(front + [f]) == ScoredAt(front) + if HasObjective(f) then {|front|} else {};
  }

  /** The report's tallies are over the evaluated folds: a mean over those with an objective, and every trade once. */
  lemma {:induction false} TalliesCountFolds(folds: seq<Fold>)
    ensures |Objectives(folds)| == |ScoredAt(folds)| && Sum(Objectives(folds)) == ObjectiveSum(folds)
    ensures |TestReturns(folds)| == TradeCount(folds)
  {
    hide Sum, ScoredAt, ObjectiveSum, TradeCount;
    if folds == [] {
      NothingTallied();
    } else {
      var front, f := folds[..|folds| - 1], folds[|folds| - 1];
      assert folds == front + [f];
      TalliesCountFolds(front);
      CountsSnoc(front, f);
      ScoredSnoc(front, f);
      if HasObjective(f) {
        SumSnoc(Objectives(front), f.test.value.objective.value);
      } else {
        assert Objectives(front) + [] == Objectives(front);
      }
    }
  }

  lemma NothingTallied()
    ensures |ScoredAt([])| == 0 && ObjectiveSum([]) == Sum([]) && TradeCount([]) == 0
  {
  }

  lemma Restored(sum: real, n: nat)
    requires n > 0
    ensures sum / n as real * n as real == sum
  {
  }

  /** The mean objective times the number of scored folds is their sum; without any scored fold there is none. */
  lemma MeanIsOverScoredFolds(folds: seq<Fold>)
    ensures var mean := Mean(Objectives(folds));
            && (mean.None? <==> ScoredAt(folds) == {})
            && (mean.Some? ==> mean.value * |ScoredAt(folds)| as real == ObjectiveSum(folds))
  {
    hide Sum, ObjectiveSum, Objectives, ScoredAt;
    TalliesCountFolds(folds);
    if Objectives(folds) != [] {
      Restored(Sum(Objectives(folds)), |Objectives(folds)|);
    }
  }

  lemma TrialWithinBound(spec: Spec, values: Values, warmup: int)
    requires UniqueNames(spec.parameters) && Sampled(spec.parameters, values)
    requires MaxWarmup(spec) == Ok(warmup) && Apply(spec.strategy, spec.parameters, values).Ok?
    ensures MinHistory(Apply(spec.strategy, spec.parameters, values).value) <= warmup + MIN_TEST_TRADE_BARS
  {
    hide Apply, Warmup, MaxWarmup, UniqueNames, Sampled;
    MaxWarmupBoundsEveryTrial(spec, values);
  }

  lemma BestWithinBound(spec: Spec, draws: seq<Values>, values: Values, warmup: int)
    requires UniqueNames(spec.parameters) && GoodDraws(spec, draws) && values in draws
    requires MaxWarmup(spec) == Ok(warmup) && Apply(spec.strategy, spec.parameters, values).Ok?
    ensures MinHistory(Apply(spec.strategy, spec.parameters, values).value) <= warmup + MIN_TEST_TRADE_BARS
  {
    hide Apply, MinHistory, MaxWarmup, UniqueNames, Sampled;
    TrialWithinBound(spec, values, warmup);
  }

  /** One fold: search everything before the test window, then run the winner on it once. */
  method RunFold(spec: Spec, bars: seq<Bar>, folds: int, warmup: int, minTrades: int, engine: Engine,
    draws: seq<Values>, k: int)
      returns (result: Result<Fold>)
    requires folds >= 2 && 0 <= k < folds && warmup >= 1
    requires UniqueNames(spec.parameters) && GoodDraws(spec, draws)
    requires MaxWarmup(spec) == Ok(warmup) && LongEnough(|bars|, folds, warmup)
    ensures result.Success? <==> AllApply(spec, draws)
    ensures result.Success? ==> FoldDone(spec, bars, folds, warmup, minTrades, engine, draws, k, result.value)
    ensures result.Failure? ==> result.error.BadBinding?
  {
    hide Apply, Warmup, MaxWarmup, Viable, Worth, ViableAt, TestStart, TestEnd, GoodDraws, UniqueNames, NoneTooShort,
      LongEnough,
      MinHistory, AllApply, NoneViable;
    FoldsTile(|bars|, folds, k);
    GuardSuffices(|bars|, folds, warmup, k);
    var start, end := TestStart(|bars|, folds, k), TestEnd(|bars|, folds, k);
    WindowNotEmpty(|bars|, folds, warmup, k);
    var train := Slice(bars, 0, start);
    NoDrawIsTooShort(spec, train, draws);
    var found := Search(spec, train, minTrades, engine, draws);
    if found.SearchAborted? {
      return Failure(BadBinding(found.refusal));
    }
    if found.NoViableTrial? {
      return Success(Fold(k, start, bars[start].timestamp, bars[end - 1].timestamp, None, None));
    }
    ViableApplies(spec, train, minTrades, engine, found.values);
    var tuned := DumpTree.ApplyParameters(spec.strategy, spec.parameters, found.values);
    BestWithinBound(spec, draws, found.values, warmup);
    var test := EvaluateWindow(tuned.value, bars, start - warmup, end, engine);
    result := Success(Fold(k, start, bars[start].timestamp, bars[end - 1].timestamp, Some(found.values), test));
  }

  lemma WindowNotEmpty(total: nat, folds: int, warmup: int, k: int)
    requires folds >= 2 && warmup >= 1 && 0 <= k < folds && LongEnough(total, folds, warmup)
    ensures TestStart(total, folds, k) < TestEnd(total, folds, k)
  {
    FoldsTile(total, folds, k);
  }

  ghost predicate AllDone(spec: Spec, bars: seq<Bar>, folds: int, warmup: int, minTrades: int, engine: Engine,
                          draws: seq<seq<Values>>, done: seq<Fold>)
    requires folds >= 2
  {
    |done| <= folds == |draws| && forall k | 0 <= k < |done| ::
      FoldDone(spec, bars, folds, warmup, minTrades, engine, draws[k], k, done[k])
  }

  lemma DoneSnoc(spec: Spec, bars: seq<Bar>, folds: int, warmup: int, minTrades: int, engine: Engine,
                 draws: seq<seq<Values>>, done: seq<Fold>, f: Fold)
    requires folds >= 2 && |done| < folds && AllDone(spec, bars, folds, warmup, minTrades, engine, draws, done)
    requires FoldDone(spec, bars, folds, warmup, minTrades, engine, draws[|done|], |done|, f)
    ensures AllDone(spec, bars, folds, warmup, minTrades, engine, draws, done + [f])
  {
    hide FoldDone;
    var more := done + [f];
    forall k | 0 <= k < |more|
      ensures FoldDone(spec, bars, folds, warmup, minTrades, engine, draws[k], k, more[k])
    {
      assert more[k] == if k < |done| then done[k] else f;
    }
  }

  lemma TalliesSnoc(done: seq<Fold>, f: Fold)
    ensures Objectives(done + [f]) ==
            Objectives(done) + if f.test.Some? && f.test.value.objective.Some? then [f.test.value.objective.value]
              else []
    ensures TestReturns(done + [f]) == TestReturns(done) + if f.test.Some? then f.test.value.tradeReturns else []
  {
    assert (done + [f])[..|done|] == done;
  }

  /** The fold loop, past the guard. */
  method RunFolds(spec: Spec, bars: seq<Bar>, folds: int, warmup: int, minTrades: int, engine: Engine,
                  rng: Resampler, draws: seq<seq<Values>>)
      returns (result: Result<Report>)
    requires folds >= 2 && warmup >= 1 && |draws| == folds && UniqueNames(spec.parameters) && DrawsFromTrades(rng)
    requires MaxWarmup(spec) == Ok(warmup) && LongEnough(|bars|, folds, warmup)
    requires forall d | d in draws :: GoodDraws(spec, d)
    ensures result.Success? <==> forall d | d in draws :: AllApply(spec, d)
    ensures result.Failure? ==> result.error.BadBinding?
    ensures result.Success? ==>
              && |result.value.folds| == folds
              && AllDone(spec, bars, folds, warmup, minTrades, engine, draws, result.value.folds)
              && result.value.totalTestTrades == |TestReturns(result.value.folds)|
              && result.value.monteCarlo == Resampled(rng, TestReturns(result.value.folds))
              && result.value.meanTestObjective == Mean(Objectives(result.value.folds))
  {
    hide Apply, MaxWarmup, UniqueNames, GoodDraws, FoldDone, LongEnough, Mean, AllApply, AllDone, Objectives,
      TestReturns;
    var done: seq<Fold>, objectives: seq<real>, pooled: seq<real> := [], [], [];
    NothingDone(spec, bars, folds, warmup, minTrades, engine, draws);
    for k := 0 to folds
      invariant forall i | 0 <= i < k :: AllApply(spec, draws[i])
      invariant |done| == k && AllDone(spec, bars, folds, warmup, minTrades, engine, draws, done)
      invariant objectives == Objectives(done) && pooled == TestReturns(done)
    {
      assert draws[k] in draws;
      var fold := RunFold(spec, bars, folds, warmup, minTrades, engine, draws[k], k);
      if fold.Failure? {
        return Failure(fold.error);
      }
      DoneSnoc(spec, bars, folds, warmup, minTrades, engine, draws, done, fold.value);
      TalliesSnoc(done, fold.value);
      var test := fold.value.test;
      if test.Some? && test.value.objective.Some? {
        objectives := objectives + [test.value.objective.value];
      }
      if test.Some? {
        pooled := pooled + test.value.tradeReturns;
      }
      done := done + [fold.value];
    }
    var monteCarlo := ResampleTrades(rng, pooled);
    result := Success(Report(done, Mean(objectives), |pooled|, monteCarlo));
  }

  lemma NothingDone(spec: Spec, bars: seq<Bar>, folds: int, warmup: int, minTrades: int, engine: Engine,
    draws: seq<seq<Values>>)
    requires folds >= 2 && |draws| == folds
    ensures AllDone(spec, bars, folds, warmup, minTrades, engine, draws, [])
    ensures Objectives([]) == [] && TestReturns([]) == []
  {
  }

  /** The mean and the trade total, over the folds themselves. */
  predicate Tallied(r: Report) {
    && r.totalTestTrades == TradeCount(r.folds)
    && (r.meanTestObjective.None? <==> ScoredAt(r.folds) == {})
    && (r.meanTestObjective.Some? ==>
          r.meanTestObjective.value * |ScoredAt(r.folds)| as real == ObjectiveSum(r.folds))
  }

  lemma GuardSpelledOut(total: nat, folds: int, warmup: int)
    requires folds >= 2
    ensures LongEnough(total, folds, warmup) <==> (total - total / 2) / folds >= warmup / 2 + 10
  {
  }

  /**
   * Walk-forward never skips an evaluation it could have made: past the guard, every fold whose search found anything
   * is evaluated, on exactly its own window behind a whole warm-up prefix, and no trial is refused for short history.
   */
  method Evaluate(spec: Spec, bars: seq<Bar>, folds: int, minTrades: int, engine: Engine, rng: Resampler,
    draws: seq<seq<Values>>)
      returns (result: Result<Report>)
    requires ValidSpec(spec) && (folds < 2 || |draws| == folds) && DrawsFromTrades(rng)
    requires forall d | d in draws :: GoodDraws(spec, d)
    ensures folds < 2 <==> result == Failure(TooFewFolds)
    ensures result.Failure? && result.error.TooShort? <==>
            folds >= 2 && MaxWarmup(spec).Ok? && !LongEnough(|bars|, folds, MaxWarmup(spec).value)
    ensures result.Success? <==>
              && folds >= 2 && MaxWarmup(spec).Ok? && LongEnough(|bars|, folds, MaxWarmup(spec).value)
              && forall d | d in draws :: AllApply(spec, d)
    ensures result.Success? ==>
              && |result.value.folds| == folds
              && AllDone(spec, bars, folds, MaxWarmup(spec).value, minTrades, engine, draws, result.value.folds)
              && result.value.totalTestTrades == |TestReturns(result.value.folds)|
              && result.value.monteCarlo == Resampled(rng, TestReturns(result.value.folds))
              && result.value.meanTestObjective == Mean(Objectives(result.value.folds))
    ensures result.Failure? && result.error.TooShort? ==>
              && result.error.have == (|bars| - |bars| / 2) / folds
              && result.error.have < result.error.need == MaxWarmup(spec).value / 2 + 10
    ensures result.Success? ==> (|bars| - |bars| / 2) / folds >= MaxWarmup(spec).value / 2 + 10
    ensures result.Success? ==> Tallied(result.value)
  {
    hide Apply, ValidDefinition, MaxWarmup, UniqueNames, GoodDraws, LongEnough, ScoredAt, ObjectiveSum, TradeCount,
      Mean, AllApply, AllDone, Objectives,
      TestReturns;
    if folds < 2 {
      return Failure(TooFewFolds);
    }
    var bound := MaxWarmup(spec);
    if bound.Err? {
      return Failure(BadBinding(bound.refusal));
    }
    var warmup := bound.value;
    MaxWarmupPositive(spec);
    GuardSpelledOut(|bars|, folds, warmup);
    if !LongEnough(|bars|, folds, warmup) {
      return Failure(TooShort(TestLength(|bars|, folds), warmup / 2 + MIN_TEST_TRADE_BARS));
    }
    result := RunFolds(spec, bars, folds, warmup, minTrades, engine, rng, draws);
    if result.Success? {
      MeanIsOverScoredFolds(result.value.folds);
      TalliesCountFolds(result.value.folds);
    }
  }
}
