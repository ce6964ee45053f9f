/**
 * Searching and evaluating a strategy: the in-sample guard, the hold-out window and the walk-forward folds.
 * The sampler is any sequence of in-range draws; the engine refuses only histories shorter than a strategy needs.
 */
module Optimizer {
  import opened Numeric
  import opened Market
  import opened Strategy
  import opened StrategyParams
  import opened WarmupBound
  import DumpTree
  import MC = MonteCarlo

  const MIN_TEST_TRADE_BARS := 10

  datatype Run = Run(trades: int, objective: Option<real>, tradeReturns: seq<real>)

  /** What the backtest yields on a history long enough for the strategy. */
  type Engine = (Definition, seq<Bar>) -> Run

  function Backtest(engine: Engine, s: Definition, bars: seq<Bar>): Option<Run> {
    if |bars| < MinHistory(s) then None else Some(engine(s, bars))
  }

  /** The generator's draws for a list of trade returns, one sequence per simulation. */
  type Resampler = seq<real> -> seq<seq<real>>

  const SIMULATIONS := 1_000

  ghost predicate DrawsFromTrades(rng: Resampler) {
    forall trades: seq<real> :: MC.ValidDraws(trades, SIMULATIONS, rng(trades))
  }

  /** The bootstrap of a list of trade returns; too few trades have none. */
  function Resampled(rng: Resampler, tradeReturns: seq<real>): Option<MC.Summary>
    requires MC.ValidDraws(tradeReturns, SIMULATIONS, rng(tradeReturns))
  {
    var outcome := MC.Bootstrap(tradeReturns, SIMULATIONS, rng(tradeReturns));
    if outcome.Summarized? then Some(outcome.summary) else None
  }

  method ResampleTrades(rng: Resampler, tradeReturns: seq<real>) returns (summary: Option<MC.Summary>)
    requires DrawsFromTrades(rng)
    ensures summary == Resampled(rng, tradeReturns)
  {
    var outcome := MC.MonteCarloTrades(tradeReturns, SIMULATIONS, rng(tradeReturns));
    summary := if outcome.Summarized? then Some(outcome.summary) else None;
  }

  // One search.

  datatype Trial = Complete(value: real) | HistoryTooShort | TooFewTrades | ObjectiveUndefined
    | Refused(refusal: Refusal)

  datatype Searched = Best(values: Values, completed: nat) | NoViableTrial | SearchAborted(refusal: Refusal)

  function TrialOf(spec: Spec, bars: seq<Bar>, minTrades: int, engine: Engine, values: Values): Trial {
    match Apply(spec.strategy, spec.parameters, values)
    case Err(refusal) => Refused(refusal)
    case Ok(tuned) =>
      (match Backtest(engine, tuned, bars)
       case None => HistoryTooShort
       case Some(run) =>
         if run.trades < minTrades then TooFewTrades
         else if run.objective.None? then ObjectiveUndefined
         else Complete(run.objective.value))
  }

  /** A draw that can be scored on these bars: it applies, they are long enough, and the run traded and has a value. */
  predicate Viable(spec: Spec, bars: seq<Bar>, minTrades: int, engine: Engine, values: Values) {
    var tuned := Apply(spec.strategy, spec.parameters, values);
    && tuned.Ok? && |bars| >= MinHistory(tuned.value)
    && engine(tuned.value, bars).trades >= minTrades
    && engine(tuned.value, bars).objective.Some?
  }

  /** What the engine says the draw is worth on these bars. */
  function Worth(spec: Spec, bars: seq<Bar>, minTrades: int, engine: Engine, values: Values): real
    requires Viable(spec, bars, minTrades, engine, values)
  {
    engine(Apply(spec.strategy, spec.parameters, values).value, bars).objective.value
  }

  /** The draws that can be scored, counted with repetition. */
  function ViableAt(spec: Spec, bars: seq<Bar>, minTrades: int, engine: Engine, draws: seq<Values>): set<int> {
    set k | 0 <= k < |draws| && Viable(spec, bars, minTrades, engine, draws[k])
  }

  /** A draw the search may pick: viable on these bars, and no viable draw is worth more on them. */
  predicate Wins(spec: Spec, bars: seq<Bar>, minTrades: int, engine: Engine, draws: seq<Values>, values: Values) {
    && values in draws && Viable(spec, bars, minTrades, engine, values)
    && forall v | v in draws && Viable(spec, bars, minTrades, engine, v) ::
      Worth(spec, bars, minTrades, engine, v) <= Worth(spec, bars, minTrades, engine, values)
  }

  predicate NoneViable(spec: Spec, bars: seq<Bar>, minTrades: int, engine: Engine, draws: seq<Values>) {
    forall v | v in draws :: !Viable(spec, bars, minTrades, engine, v)
  }

  /** Every draw can be applied, whatever it is then run on. */
  predicate AllApply(spec: Spec, draws: seq<Values>) {
    forall v | v in draws :: Apply(spec.strategy, spec.parameters, v).Ok?
  }

  /** If the draw applies, these bars are enough for the strategy it gives. */
  predicate FitsHistory(spec: Spec, bars: seq<Bar>, values: Values) {
    var tuned := Apply(spec.strategy, spec.parameters, values);
    tuned.Ok? ==> |bars| >= MinHistory(tuned.value)
  }

  /**
   * A trial is refused exactly when its draw does not apply, is short of history exactly when the applied draw is, and
   * completes, at its worth, exactly when the draw is viable.
   */
  lemma TrialExactly(spec: Spec, bars: seq<Bar>, minTrades: int, engine: Engine, values: Values)
    ensures var trial := TrialOf(spec, bars, minTrades, engine, values);
            && (trial.Refused? <==> Apply(spec.strategy, spec.parameters, values).Err?)
            && (trial.HistoryTooShort? <==> !FitsHistory(spec, bars, values))
            && (trial.Complete? <==> Viable(spec, bars, minTrades, engine, values))
            && (trial.Complete? ==> trial.value == Worth(spec, bars, minTrades, engine, values))
  {
    hide Apply, Warmup;
  }

  lemma ViableSnoc(spec: Spec, bars: seq<Bar>, minTrades: int, engine: Engine, draws: seq<Values>, i: nat)
    requires i < |draws|
    ensures |ViableAt(spec, bars, minTrades, engine, draws[..i + 1])| ==
            |ViableAt(spec, bars, minTrades, engine, draws[..i])|
            + if Viable(spec, bars, minTrades, engine, draws[i]) then 1 else 0
  {
    hide Viable;
    var before, after := draws[..i], draws[..i + 1];
    assert forall k | 0 <= k < i :: before[k] == after[k];
    assert ViableAt(spec, bars, minTrades, engine, after) ==
      ViableAt(spec, bars, minTrades, engine, before)
      + if Viable(spec, bars, minTrades, engine, draws[i]) then {i} else {};
  }

  method Search(spec: Spec, bars: seq<Bar>, minTrades: int, engine: Engine, draws: seq<Values>)
    returns (found: Searched)
    ensures found.SearchAborted? <==> !AllApply(spec, draws)
    ensures found.NoViableTrial? <==> AllApply(spec, draws) && NoneViable(spec, bars, minTrades, engine, draws)
    ensures found.Best? ==>
              && Wins(spec, bars, minTrades, engine, draws, found.values)
              && found.completed == |ViableAt(spec, bars, minTrades, engine, draws)|
  {
    hide TrialOf, Apply, Viable, Worth, ViableAt;
    var completed: nat, best: nat, bestValue := 0, 0, 0.0;
    assert |ViableAt(spec, bars, minTrades, engine, draws[..0])| == 0 by {
      NoneAmongNone(spec, bars, minTrades, engine);
    }
    for i := 0 to |draws|
      invariant completed == |ViableAt(spec, bars, minTrades, engine, draws[..i])|
      invariant forall k | 0 <= k < i :: Apply(spec.strategy, spec.parameters, draws[k]).Ok?
      invariant completed == 0 ==> forall k | 0 <= k < i :: !Viable(spec, bars, minTrades, engine, draws[k])
      invariant completed > 0 ==>
                && best < i && Viable(spec, bars, minTrades, engine, draws[best])
                && Worth(spec, bars, minTrades, engine, draws[best]) == bestValue
      invariant completed > 0 ==>
                forall k | 0 <= k < i && Viable(spec, bars, minTrades, engine, draws[k]) ::
                  Worth(spec, bars, minTrades, engine, draws[k]) <= bestValue
    {
      ViableSnoc(spec, bars, minTrades, engine, draws, i);
      var trial := TrialOf(spec, bars, minTrades, engine, draws[i]);
      TrialExactly(spec, bars, minTrades, engine, draws[i]);
      if trial.Refused? {
        assert draws[i] in draws;
        return SearchAborted(trial.refusal);
      }
      if trial.Complete? {
        if completed == 0 || trial.value > bestValue {
          best, bestValue := i, trial.value;
        }
        completed := completed + 1;
      }
    }
    assert draws[..|draws|] == draws;
    if completed == 0 {
      return NoViableTrial;
    }
    assert draws[best] in draws;
    found := Best(draws[best], completed);
  }

  lemma NoneAmongNone(spec: Spec, bars: seq<Bar>, minTrades: int, engine: Engine)
    ensures ViableAt(spec, bars, minTrades, engine, []) == {}
  {
  }

  // Windows.

  function Slice(bars: seq<Bar>, start: int, end: int): seq<Bar>
    requires 0 <= start <= end <= |bars|
  {
    bars[start..end]
  }

  method EvaluateWindow(s: Definition, bars: seq<Bar>, start: int, end: int, engine: Engine) returns (run: Option<Run>)
    requires start <= end && 0 <= end <= |bars|
    ensures run == Backtest(engine, s, Slice(bars, if start < 0 then 0 else start, end))
  {
    var window := Slice(bars, if start < 0 then 0 else start, end);
    var warmup := WarmupBars(s);
    if |window| < warmup + 10 {
      return None;
    }
    run := Some(engine(s, window));
  }

  function SplitAt(total: nat, holdout: real): int { Truncate(total as real * (1.0 - holdout)) }

  datatype OptimizeError = BadHoldout | TooShort(have: int, need: int) | BadBinding(refusal: Refusal) | NothingViable
    | LostObjective | TooFewFolds

  datatype Optimized = Optimized(best: Values, strategy: Definition, completed: nat,
                                 inSample: Run, outOfSample: Option<Run>, monteCarlo: Option<MC.Summary>)

  datatype Result<T> = Success(value: T) | Failure(error: OptimizeError)

  predicate GoodDraws(spec: Spec, draws: seq<Values>) { forall v | v in draws :: Sampled(spec.parameters, v) }

  lemma SplitInRange(total: nat, holdout: real)
    requires 0.0 < holdout < 0.9
    ensures 0 <= SplitAt(total, holdout) <= total
    ensures SplitAt(total, holdout) as real <= total as real * (1.0 - holdout) < SplitAt(total, holdout) as real + 1.0
  {
    var n := total as real;
    assert n * (1.0 - holdout) == n - n * holdout;
    assert n * holdout >= 0.0;
    assert n * (1.0 - holdout) >= 0.0;
    TruncateMonotone(0.0, n * (1.0 - holdout));
    TruncateMonotone(n * (1.0 - holdout), n);
    assert Truncate(n) == total && Truncate(0.0) == 0;
  }

  /** A history at least ten bars past the bound is long enough for every accepted draw. */
  lemma NoTrialIsTooShort(spec: Spec, bars: seq<Bar>, values: Values)
    requires UniqueNames(spec.parameters) && Sampled(spec.parameters, values)
    requires MaxWarmup(spec).Ok? && |bars| >= MaxWarmup(spec).value + MIN_TEST_TRADE_BARS
    ensures FitsHistory(spec, bars, values)
  {
    hide Apply, Warmup, MaxWarmup, UniqueNames, Sampled;
    if Apply(spec.strategy, spec.parameters, values).Ok? {
      MaxWarmupBoundsEveryTrial(spec, values);
    }
  }

  /** No draw is refused for want of history on these bars. */
  predicate NoneTooShort(spec: Spec, bars: seq<Bar>, draws: seq<Values>) {
    forall v | v in draws :: FitsHistory(spec, bars, v)
  }

  lemma NoDrawIsTooShort(spec: Spec, bars: seq<Bar>, draws: seq<Values>)
    requires UniqueNames(spec.parameters) && GoodDraws(spec, draws)
    requires MaxWarmup(spec).Ok? && |bars| >= MaxWarmup(spec).value + MIN_TEST_TRADE_BARS
    ensures NoneTooShort(spec, bars, draws)
  {
    hide MaxWarmup, Sampled, UniqueNames, FitsHistory;
    forall v | v in draws
      ensures FitsHistory(spec, bars, v)
    {
      NoTrialIsTooShort(spec, bars, v);
    }
  }

  lemma ViableApplies(spec: Spec, bars: seq<Bar>, minTrades: int, engine: Engine, values: Values)
    requires Viable(spec, bars, minTrades, engine, values)
    ensures var tuned := Apply(spec.strategy, spec.parameters, values);
            && tuned.Ok? && engine(tuned.value, bars).trades >= minTrades
            && engine(tuned.value, bars).objective == Some(Worth(spec, bars, minTrades, engine, values))
  {
    hide Apply, Warmup;
  }

  /**
   * The draw that won on the in-sample bars alone, run once on them and once out of sample,
   * behind a full warm-up prefix.
   */
  ghost predicate Evaluated(spec: Spec, bars: seq<Bar>, split: int, warmup: int, minTrades: int, engine: Engine,
                            rng: Resampler, draws: seq<Values>, o: Optimized)
    requires DrawsFromTrades(rng)
  {
    && 0 <= split - warmup <= split <= |bars|
    && Wins(spec, Slice(bars, 0, split), minTrades, engine, draws, o.best)
    && o.completed == |ViableAt(spec, Slice(bars, 0, split), minTrades, engine, draws)|
    && Apply(spec.strategy, spec.parameters, o.best) == Ok(o.strategy)
    && o.inSample == engine(o.strategy, Slice(bars, 0, split))
    && o.inSample.trades >= minTrades
    && o.inSample.objective == Some(Worth(spec, Slice(bars, 0, split), minTrades, engine, o.best))
    && o.outOfSample == Backtest(engine, o.strategy, Slice(bars, split - warmup, |bars|))
    && o.monteCarlo == (if o.outOfSample.None? then None else Resampled(rng, o.outOfSample.value.tradeReturns))
  }

  method SearchAndEvaluate(spec: Spec, bars: seq<Bar>, split: int, warmup: int, minTrades: int, engine: Engine,
                           rng: Resampler, draws: seq<Values>)
      returns (result: Result<Optimized>)
    requires 0 <= warmup <= split <= |bars| && DrawsFromTrades(rng)
    ensures result.Success? ==> Evaluated(spec, bars, split, warmup, minTrades, engine, rng, draws, result.value)
    ensures result.Failure? ==> result.error.BadBinding? || result.error.NothingViable?
    ensures result.Failure? && result.error.BadBinding? <==> !AllApply(spec, draws)
    ensures result.Failure? && result.error.NothingViable? <==>
            AllApply(spec, draws) && NoneViable(spec, Slice(bars, 0, split), minTrades, engine, draws)
  {
    hide Apply, Warmup, AllApply, NoneViable, Viable, Worth, ViableAt;
    var inSample := Slice(bars, 0, split);
    var found := Search(spec, inSample, minTrades, engine, draws);
    if found.SearchAborted? {
      return Failure(BadBinding(found.refusal));
    }
    if found.NoViableTrial? {
      return Failure(NothingViable);
    }
    ViableApplies(spec, inSample, minTrades, engine, found.values);
    var tuned := DumpTree.ApplyParameters(spec.strategy, spec.parameters, found.values);
    var run := engine(tuned.value, inSample);
    if run.objective.None? {
      return Failure(LostObjective);
    }
    var out := EvaluateWindow(tuned.value, bars, split - warmup, |bars|, engine);
    var monteCarlo := None;
    if out.Some? {
      monteCarlo := ResampleTrades(rng, out.value.tradeReturns);
    }
    result := Success(Optimized(found.values, tuned.value, found.completed, run, out, monteCarlo));
  }

  /** Everything `optimize` promises about a finished result. */
  ghost predicate OptimizedSoundly(spec: Spec, bars: seq<Bar>, holdout: real, minTrades: int, engine: Engine,
                                   rng: Resampler, draws: seq<Values>, o: Optimized)
    requires MaxWarmup(spec).Ok? && DrawsFromTrades(rng)
  {
    && 0 <= SplitAt(|bars|, holdout) <= |bars|
    && Evaluated(spec, bars, SplitAt(|bars|, holdout), MaxWarmup(spec).value, minTrades, engine, rng, draws, o)
    && NoneTooShort(spec, Slice(bars, 0, SplitAt(|bars|, holdout)), draws)
  }

  /** The in-sample guard. */
  predicate GuardHolds(total: nat, holdout: real, warmup: int) {
    SplitAt(total, holdout) >= warmup + MIN_TEST_TRADE_BARS
  }

  /**
   * Optimising succeeds exactly when the inputs pass the guards, every draw applies and some trial completes; each
   * failure has its own cause. Past the guard no trial is refused for short history, the hold-out plays no part in the
   * choice, its warm-up prefix is whole, and the winner never loses its objective on re-evaluation.
   */
  method Optimize(spec: Spec, bars: seq<Bar>, holdout: real, minTrades: int, engine: Engine, rng: Resampler,
    draws: seq<Values>)
      returns (result: Result<Optimized>)
    requires ValidSpec(spec) && GoodDraws(spec, draws) && DrawsFromTrades(rng)
    ensures result == Failure(BadHoldout) <==> !(0.0 < holdout < 0.9)
    ensures result.Failure? && result.error.TooShort? <==>
            0.0 < holdout < 0.9 && MaxWarmup(spec).Ok? && !GuardHolds(|bars|, holdout, MaxWarmup(spec).value)
    ensures result.Failure? && result.error.TooShort? ==>
              && result.error.have as real <= |bars| as real * (1.0 - holdout) < result.error.have as real + 1.0
              && result.error.have < result.error.need == MaxWarmup(spec).value + 10
    ensures result.Failure? && result.error.BadBinding? ==> MaxWarmup(spec).Err? || !AllApply(spec, draws)
    ensures result.Failure? && result.error.NothingViable? ==>
              && AllApply(spec, draws)
              && NoneViable(spec, Slice(bars, 0, Within(SplitAt(|bars|, holdout), |bars|)), minTrades, engine, draws)
    ensures result.Failure? ==> !result.error.LostObjective? && !result.error.TooFewFolds?
    ensures result.Success? ==>
              && 0.0 < holdout < 0.9 && MaxWarmup(spec).Ok? && GuardHolds(|bars|, holdout, MaxWarmup(spec).value)
              && OptimizedSoundly(spec, bars, holdout, minTrades, engine, rng, draws, result.value)
              && MaxWarmup(spec).value + 10 <= SplitAt(|bars|, holdout)
  {
    hide Apply, Sampled, ValidDefinition, Warmup, SplitAt, Evaluated, NoneTooShort, UniqueNames, MaxWarmup, GoodDraws,
      AllApply, NoneViable;
    if !(0.0 < holdout < 0.9) {
      return Failure(BadHoldout);
    }
    var bound := MaxWarmup(spec);
    if bound.Err? {
      return Failure(BadBinding(bound.refusal));
    }
    var warmup, split := bound.value, SplitAt(|bars|, holdout);
    SplitInRange(|bars|, holdout);
    MaxWarmupPositive(spec);
    if split < warmup + MIN_TEST_TRADE_BARS {
      return Failure(TooShort(split, warmup + MIN_TEST_TRADE_BARS));
    }
    NoDrawIsTooShort(spec, Slice(bars, 0, split), draws);
    result := SearchAndEvaluate(spec, bars, split, warmup, minTrades, engine, rng, draws);
  }

  function Within(x: int, total: nat): nat { if x < 0 then 0 else if x > total then total else x }

  /** The hold-out is evaluated exactly when, with its prefix, it is long enough for the chosen strategy. */
  lemma HoldoutEvaluatedExactly(spec: Spec, bars: seq<Bar>, split: int, warmup: int, minTrades: int, engine: Engine,
                                rng: Resampler, draws: seq<Values>, o: Optimized)
    requires DrawsFromTrades(rng) && Evaluated(spec, bars, split, warmup, minTrades, engine, rng, draws, o)
             && Warmup(o.strategy) <= warmup
    ensures o.outOfSample.Some? <==> |bars| - split >= MIN_TEST_TRADE_BARS - (warmup - Warmup(o.strategy))
    ensures |bars| - split >= MIN_TEST_TRADE_BARS ==> o.outOfSample.Some?
  {
    hide Apply, Warmup;
  }
}
