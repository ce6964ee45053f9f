# A verified model of the trading platform's deterministic core

The platform lets language-model agents and an external bot propose trades, and
lets plain code decide: it counts votes, sizes and gates orders, books fills,
resamples bars, reads chart shapes, bootstraps trade returns, tunes strategies,
ranks opportunities, caches news and limits requests. This project models that
plain code and proves what it is relied on for, over every input, every run or
every interleaving.

| part | modules |
|---|---|
| portfolio, sizing, risk gate, broker, audit trail | Trading, PortfolioUpdates, RiskEngine, Sizing, Pipeline, PipelineRuns, Accounts |
| bars and resampling | Market, Resampling, FetchWindow, CandleReadings |
| chart geometry | Signals, Swings, Levels, LevelOrder, LevelReadings, Patterns, ScanFacts, ScaleLaws, ScaleFree, Readings, Triangles, ScanReports |
| bootstrap | MonteCarlo, OrderStatistics |
| strategies and their search | Strategy, StrategyJson, StrategyParams, DumpTree, Tuning, WarmupBound, Optimizer, WalkForward |
| agents, votes, leaderboard | Supervisor, Voting, Leaderboard, Screening |
| protocols over time | NewsCache, RateLimiter |
| shared | Numeric, Sorting, Text |

## How it is modelled

Frozen value objects are datatypes and their computations are functions. Loops,
list and dictionary filling, and the objects that change their own fields (the
stored desk, the news loader, the limiter, the mutable dump) are methods and
classes, each proved to compute a specification function; the laws are proved
about those functions. What a result says is stated over the inputs, without
those functions: percentages cross-multiplied, a rounded number by how near it
is, a chart shape by the swings it stands on. An outside choice is a parameter that
every theorem quantifies over: random draws, the sampler's values, the model's
ordering, each agent's success or failure, the order in which updates merge,
market quotes, clocks and the interleaving of callers. An exception is an `Err`
or a refusal; the names under which the risk gate files its numbers are an
enumeration. Amounts are exact: `Decimal` and `float` are `real`, timestamps are
microseconds. `sorted` is a stable sort, `//` is floor division, `int(x)`
truncates and `round` goes to the even neighbour.

Some results say where the code does less than it might seem to, each with the
exact condition:

- Positions are found by the normalised symbol and replaced by the raw one.
  Under a raw symbol a buy that averages in spends the cash and books no
  shares, and a sell credits the cash and removes none, as often as it is
  repeated. Exactly the fills under a normalised symbol and the buys of a
  symbol not held conserve money (PortfolioUpdates.FillConservesExactly).
  Orders arrive normalised, so no run reaches the bad cases.
- `execute_trade.py` (line 8) says rejections land in the audit trail; the code
  returns before appending, and the model follows the code. A record is written
  exactly when the request is approved and the order goes out
  (PipelineRuns.TrailRecordsSubmissions).
- `resampling.py` (line 42) says the widened fetch completes the first bucket.
  It completes the bucket holding `start`; an earlier candle is emitted as well,
  and can be partial exactly when `start` is not a bucket boundary
  (FetchWindow.WholeExactlyWhenAligned).
- `check_trade_risk.py` (lines 61-63) says the suggested size is approvable.
  The sizer does not see an existing holding. The suggestion clears the cash,
  risk and concentration rules exactly when at least one share fits and the
  value already held plus the order is within the concentration limit
  (Sizing.AutomaticSizeIsApprovableOrExplained); Sizing.SuggestionApprovedExactly
  adds the rules the sizer does not look at.
- The bootstrap summary is coherent on every draw exactly when no trade loses
  more than everything (MonteCarlo.CoherentExactlyWhenBounded).
- A zero vote threshold makes a dead-even score a buy, in both directions.
- `voting.py` (lines 11-13) reads a score of +1 as certainty; it means
  unanimity, at any confidence above zero, so one hesitant bull scores +1.
- `realized_pnl_today` is never reset in the modelled code: it is the profit of
  the whole trail, and so is what the daily-loss halt looks at
  (Accounts.LossHaltLooksAtWholeTrail).
- A fixed window of `limit` requests admits up to `2 * limit - 1` within one
  minute, and for every limit some trace reaches that bound, so `limit` itself
  bounds every minute exactly when it is 1
  (RateLimiter.HoldsInAnyMinuteExactlyAtOne).

## Model

| member | source | states |
|---|---|---|
| PipelineRuns.EveryRunIsSound | src/atp/application/use_cases/execute_trade.py:53-95 | After any sequence of trades, risk checks and portfolio reads: the stored portfolio loads, is sound (cash >= 0, positive quantities and prices, distinct normalised symbols, at most `max_positions` holdings, at or below its peak), cash plus cost basis minus realized profit is the starting cash, replaying the audit trail gives the stored ledger, and every record carries an approved decision |
| Accounts.TrailAccountsForEverything | src/atp/application/use_cases/execute_trade.py:71-95 | After any run the shares held of any symbol are exactly those the accepted records bought less those they sold, the cash is the starting cash less what they cost, and the realized profit is the sum of every accepted sale's gain over its average entry |
| Accounts.LossHaltLooksAtWholeTrail | src/atp/domain/services/risk_engine.py:91-125 | After any run the daily-loss halt stops a buy exactly when the losses of the whole trail's sales reach the limit: no day ever starts afresh |
| Accounts.FillMovesShares | src/atp/domain/services/portfolio_updates.py:17-84 | A fill moves exactly its quantity of its own symbol and no other, at exactly its price, and only a sell books profit |
| Accounts.FilledTradeBooks | src/atp/application/use_cases/execute_trade.py:71-94 | A filled trade leaves the refreshed portfolio with exactly this order booked: cash, the traded holding at the fill price, every other holding as it was, and the peak raised to the new equity when that is higher |
| Accounts.FillAcceptedExactly | src/atp/domain/services/portfolio_updates.py:17-75 | A fill is accepted exactly when it was filled, the cash covers a buy, and the shares are there for a sell |
| Accounts.FillShapesHolding | src/atp/domain/services/portfolio_updates.py:26-84 | A buy adds shares and their cost to the holding, a sell takes shares away at an unchanged entry price and removes the holding at zero, both show the fill price, and no other holding changes |
| PipelineRuns.RunAdvances | src/atp/application/use_cases/get_portfolio.py:33-41 | From any moment of a run to any later one the equity peak never falls and the audit trail only grows |
| PipelineRuns.ExitEndsFlat | src/atp/application/use_cases/execute_trade.py:62-81 | From any state of a run, whatever halts are in force, selling each holding in full, at any quotes whose slipped price is positive, ends flat with cash = starting cash + realized profit |
| PipelineRuns.FullSellExecutes | src/atp/domain/services/risk_engine.py:40-53 | A full sell of a holding is approved despite any halt, filled, applied, and removes exactly that holding |
| PipelineRuns.ApprovedFillApplies | src/atp/application/use_cases/execute_trade.py:71-81 | Approval and filling come apart only through slippage: an approved sell always applies, an approved buy exactly when its slipped cost is covered |
| PipelineRuns.TrailRecordsSubmissions | src/atp/application/use_cases/execute_trade.py:62-95 | The trail grows, by exactly the submitted order with its decision, if and only if the request is approved and the order goes out, which is known before the call; everything else leaves it unchanged |
| PipelineRuns.OrdersFillAgainstTrader | src/atp/infrastructure/brokers/paper.py:42-79 | Every order a trade hands back or records carries the approved proposal's symbol, side, size and brackets; with a quote it is filled at the quote plus (buy) or minus (sell) its slippage, rounded to the nearest ten-thousandth, and without one it is rejected |
| PipelineRuns.SlippageNeverFavours | src/atp/infrastructure/brokers/paper.py:60-70 | Such a fill is a whole number of ten-thousandths within half of one of the slipped quote, so no buy fills below the rounded quote and no sell above it |
| PipelineRuns.SubmitsExactly | src/atp/application/use_cases/execute_trade.py:62-71 | An approved request goes out exactly when there is no price, or a price whose slipped value does not round to zero |
| PipelineRuns.ProposalIsAsRequested | src/atp/application/use_cases/check_trade_risk.py:42-86 | The proposal judged has the request's normalised symbol, side, brackets and the latest price, and the size asked for, the whole holding, the computed size or one share, as the use case's branches say |
| PipelineRuns.RefusalLeavesNoRecord | src/atp/application/use_cases/execute_trade.py:62-69 | A concrete request the gate refuses, for whose refusal the trail has no record |
| PipelineRuns.StepKeeps | src/atp/application/use_cases/execute_trade.py:53-95 | Every single use-case call keeps the invariant and never lowers the peak or shortens the trail |
| PipelineRuns.SettleKeeps | src/atp/application/use_cases/execute_trade.py:73-94 | Settling a broker answer keeps the invariant and appends exactly its own record, applied or refused |
| PipelineRuns.FillSound | src/atp/domain/services/portfolio_updates.py:17-84 | An approved and applied fill keeps the portfolio sound although `model_copy` validates nothing |
| PipelineRuns.RefreshSound | src/atp/domain/models/trading.py:107-118 | Repricing and peak updates keep soundness and leave the ledger alone |
| PipelineRuns.ReplayExtends | src/atp/application/use_cases/execute_trade.py:73-94 | Appending one record advances the replayed ledger by exactly that fill, or not at all when it is refused |
| PipelineRuns.ApprovedBuyHasRoom | src/atp/domain/services/risk_engine.py:222-240 | A buy of a new symbol is approved only below the position limit |
| PipelineRuns.SubmittedOrder | src/atp/infrastructure/brokers/paper.py:42-79 | A submitted order keeps the approved proposal's symbol, side and size, and is filled exactly when it has a price |
| Pipeline.TradingDesk.GetPortfolio | src/atp/application/use_cases/get_portfolio.py:33-41 | Refresh, raise the peak, save: position by position the answer shows the quote where there is one and the stored price otherwise, its equity is cash plus quantity times those prices, and its peak is the larger of the old peak and that equity |
| Pipeline.RefreshShowsQuotes | src/atp/domain/models/trading.py:107-118 | Repricing and raising the peak give exactly that portfolio, for every portfolio and every set of quotes |
| Pipeline.TradingDesk.LatestPrices | src/atp/application/use_cases/get_portfolio.py:43-52 | The prices found are exactly the quoted ones among the symbols asked for |
| Pipeline.TradingDesk.CheckTradeRisk | src/atp/application/use_cases/check_trade_risk.py:42-95 | Reads and saves the portfolio, chooses the quantity along the same branches, and decides; the new state and decision are those of the step function |
| Pipeline.TradingDesk.ExecuteTrade | src/atp/application/use_cases/execute_trade.py:43-95 | One whole trade on the stored state: gate, broker, fill, save, append, in that order, with the early returns; the order handed back and the record appended are filled against the trader as quoted |
| PortfolioUpdates.FillConservesExactly | src/atp/domain/services/portfolio_updates.py:17-84 | Of all fills that apply, those that leave cash + cost basis - realized profit unchanged are exactly the fills under a normalised symbol and the buys of a symbol not held |
| PortfolioUpdates.RawSymbolBuyLosesCost | src/atp/domain/services/portfolio_updates.py:26-57 | Averaging in under a raw, not normalised symbol spends the cash and books no shares |
| PortfolioUpdates.RawSymbolSellCreatesMoney | src/atp/domain/services/portfolio_updates.py:60-84 | A sell under a raw symbol credits the cash and removes no shares, so the cost basis sold is counted twice |
| PortfolioUpdates.PaddedSellCreatesMoney | src/atp/domain/services/portfolio_updates.py:60-84 | A concrete sell of " A" that leaves the holding of "A" as it was and 50 more on the books |
| PortfolioUpdates.FillDependsOnLedgerOnly | src/atp/domain/services/portfolio_updates.py:17-84 | Prices and peak never influence which fills are accepted or what they book |
| PortfolioUpdates.BuyKeepsValid | src/atp/domain/services/portfolio_updates.py:26-57 | An accepted buy keeps every portfolio rule and touches only its own symbol |
| PortfolioUpdates.SellKeepsValid | src/atp/domain/services/portfolio_updates.py:60-84 | An accepted sell keeps every portfolio rule, touches only its own symbol and leaves cash positive |
| RiskEngine.ReportsEveryBrokenRule | src/atp/domain/services/risk_engine.py:28-53 | The gate reports a rule if and only if it is broken, for every rule at once rather than the first |
| RiskEngine.ApprovedExactlyWhenNothingBroken | src/atp/domain/services/risk_engine.py:56-68 | Approved exactly when no rule is broken |
| RiskEngine.NumbersExplainVerdict | src/atp/domain/services/risk_engine.py:28-68 | Every verdict carries equity and cash; a judged buy also the exact percentage behind each rule, the risk numbers exactly when there is a stop below entry; anything else nothing more |
| RiskEngine.EvaluateTrade | src/atp/domain/services/risk_engine.py:28-68 | The list-appending gate computes the decision function, violations and metrics included |
| RiskEngine.CheckSell | src/atp/domain/services/risk_engine.py:71-88 | Appends exactly the sell rules' violations |
| RiskEngine.CheckHalts | src/atp/domain/services/risk_engine.py:91-125 | Appends exactly the halt violations and writes exactly the halt metrics |
| RiskEngine.CheckStopAndRisk | src/atp/domain/services/risk_engine.py:145-182 | Appends exactly the stop and per-trade risk violations and their metrics |
| RiskEngine.CheckConcentration | src/atp/domain/services/risk_engine.py:185-219 | Appends exactly the concentration and exposure violations and their metrics |
| RiskEngine.CheckEntry | src/atp/domain/services/risk_engine.py:28-53 | A buy passes through every entry check in order, all of them writing to one list and one dictionary |
| RiskEngine.DailyLossMeaning | src/atp/domain/services/risk_engine.py:91-125 | The daily-loss percentage reaches the limit exactly when the realized loss reaches that share of equity |
| Sizing.SizesThatClear | src/atp/application/use_cases/check_trade_risk.py:56-76 | Whether or not the symbol is held, a whole-share size raises no cash, per-trade risk or concentration violation exactly when it is at most the computed size and, with the value already held, within the concentration limit |
| Sizing.SuggestionApprovedExactly | src/atp/application/use_cases/check_trade_risk.py:56-95 | The gate approves the suggested size exactly when at least one share fits, the holding leaves room for it, and no halt, exposure or position-count rule is broken |
| Sizing.ComputedSizeIsLargest | src/atp/application/use_cases/check_trade_risk.py:60-73 | For a symbol not held the clearing whole-share sizes are exactly those up to the computed minimum |
| Sizing.AffordableWithinExposure | src/atp/domain/services/risk_engine.py:205-219 | With an exposure limit of 100 percent or more, an affordable buy never breaks total exposure |
| Sizing.AutomaticSizeIsApprovableOrExplained | src/atp/application/use_cases/check_trade_risk.py:56-76 | Held or not: the suggestion is the computed size, or one share when none fits, and it clears the three limits exactly when at least one share fits and the value held plus the order is within concentration |
| Sizing.HoldingBreaksSuggestion | src/atp/application/use_cases/check_trade_risk.py:61-73 | A concrete account whose existing holding makes the gate refuse the suggested size |
| Sizing.RiskSizeMeaning | src/atp/domain/services/position_sizing.py:12-30 | A whole number of shares is at most the risk size exactly when its risk stays within budget |
| Sizing.FractionSizeMeaning | src/atp/domain/services/position_sizing.py:33-39 | A whole number of shares is at most the fraction size exactly when its value stays within the fraction |
| Sizing.AffordableMeaning | src/atp/domain/services/position_sizing.py:42-47 | A whole number of shares is at most the affordable size exactly when cash covers it |
| Resampling.AggregateComposes | src/atp/domain/services/resample.py:60-75 | Grouping by a fine key and then by a coarser one equals grouping by the coarse one, bar for bar |
| Resampling.ResampleComposes | src/atp/domain/services/resample.py:40-76 | Resampling to a middle interval and then to the target equals resampling directly, for every pair of higher intervals |
| CandleReadings.ResampleReads | src/atp/domain/services/resample.py:40-76 | The result keeps the symbol, has the target interval, and lists in time order one candle per span that holds a bar: on a multiple of the width, with the span's first open, highest high, lowest low, last close and whole volume |
| Resampling.AggregateIsCandles | src/atp/domain/services/resample.py:60-75 | The result is one candle per non-empty bucket, in time order, each summarising exactly its bucket |
| Resampling.CandlesUnique | src/atp/domain/services/resample.py:64-75 | That description determines the series |
| Resampling.ResampleValid | src/atp/domain/services/resample.py:64-76 | Every result satisfies the bar and history rules, and no volume is lost |
| Resampling.VolumeConserved | src/atp/domain/services/resample.py:64-75 | Total volume is preserved |
| Resampling.RefusedExactlyDownward | src/atp/domain/services/resample.py:47-58 | Resampling succeeds exactly towards a higher interval; the multiple check never fires |
| Resampling.GroupBars | src/atp/domain/services/resample.py:60-62 | The dictionary holds, per bucket met, exactly that bucket's bars in order |
| Resampling.ResampleBars | src/atp/domain/services/resample.py:60-75 | The grouping loop and the comprehension compute the bar-by-bar aggregation |
| Resampling.BucketsCoarsen | src/atp/domain/services/resample.py:35-37 | Flooring to a multiple after flooring to a divisor is flooring to the multiple |
| FetchWindow.WidenedFetchIsComplete | src/atp/infrastructure/market_data/resampling.py:38-54 | For a source that serves exactly the bars in range, every bucket lying wholly inside the widened request is as in the resampled entire series, in both directions |
| FetchWindow.BucketsFromStartAreWhole | src/atp/infrastructure/market_data/resampling.py:38-54 | From the bucket holding `start` on, every candle that ends within the request is as in the resampled entire series, in both directions |
| FetchWindow.WholeExactlyWhenAligned | src/atp/infrastructure/market_data/resampling.py:42-54 | For a request without end, every candle returned is a candle of the entire series, whatever that series is, if and only if `start` is a bucket boundary |
| FetchWindow.AlignedStartIsWhole | src/atp/infrastructure/market_data/resampling.py:42-54 | From a bucket boundary on nothing is cut at the front, for every provider that serves exactly the bars in range |
| FetchWindow.UnalignedStartCuts | src/atp/infrastructure/market_data/resampling.py:42-54 | For every start that is not a boundary, a valid series whose first returned candle misses one of its two bars |
| FetchWindow.WhichBucketsAreInside | src/atp/infrastructure/market_data/resampling.py:43-45 | The bucket holding `start` always lies inside; the one before it does exactly when `start` is a boundary |
| CandleReadings.FetchAsks | src/atp/infrastructure/market_data/resampling.py:38-54 | Only four-hour bars are resampled, from hourly bars reaching four hours further back; every other request is passed on as it is |
| CandleReadings.WidthsNest | src/atp/domain/models/market.py:37-50 | The seven intervals' widths, each a whole multiple of the one before |
| Swings.FindSwings | src/atp/domain/services/chart_patterns.py:79-108 | The loop reports the swing points of the specification |
| Swings.SwingsExact | src/atp/domain/services/chart_patterns.py:87-107 | Exactly the bars that dominate every neighbour are reported, once each, in time order; a bar that is both counts as a high |
| Swings.SameKindApart | src/atp/domain/services/chart_patterns.py:87-107 | Two swings of one kind are more than a window apart |
| Levels.ClustersAreComponents | src/atp/domain/services/chart_patterns.py:126-131 | Two swings share a cluster exactly when a chain of swings within tolerance connects them, whatever their order |
| LevelOrder.LevelsIgnoreSwingOrder | src/atp/domain/services/chart_patterns.py:126-147 | The reported levels, order included, do not depend on the order in which the swings are given, for positive prices |
| Levels.ClustersPartition | src/atp/domain/services/chart_patterns.py:126-131 | Every swing lands in the clusters exactly as often as it was given |
| Levels.LevelsComeFromClusters | src/atp/domain/services/chart_patterns.py:133-147 | Every reported level has at least two touches and lies between its cluster's minimum and maximum |
| Levels.NearestLevelsKept | src/atp/domain/services/chart_patterns.py:145-147 | A cluster left out of the report is no nearer than any level in it |
| Levels.LevelPricesDistinct | src/atp/domain/services/chart_patterns.py:133-144 | Levels of different clusters differ in price, before rounding |
| Levels.GroupSwings | src/atp/domain/services/chart_patterns.py:126-131 | The greedy loop computes the clusters of the specification |
| Levels.FindLevels | src/atp/domain/services/chart_patterns.py:111-147 | Sorting, clustering and keeping the nearest computes the levels of the specification, each price printed to the nearest ten-thousandth and everything else as it is |
| LevelReadings.LevelsReadExactly | src/atp/domain/services/chart_patterns.py:133-147 | The report lists levels of clusters with two touches or more, nearest to the close first, at most the number asked for; a missing one is no nearer than any listed, and none is missing while there is room |
| LevelReadings.LevelOfReads | src/atp/domain/services/chart_patterns.py:133-144 | A level is the mean of its cluster, resistance exactly when above the close, with its number of touches, its latest one, and its distance in percent of the close to two decimals |
| LevelReadings.NearMeans | src/atp/domain/services/chart_patterns.py:60-63 | Nearness of positive prices, without dividing: the difference is at most the tolerance's percentage of the average |
| Levels.PctDiffWidens | src/atp/domain/services/chart_patterns.py:60-63 | For positive prices, widening an interval only widens the percentage difference |
| Patterns.QualityInUnit | src/atp/domain/services/chart_patterns.py:150-168 | Every detected pattern's quality lies in [0, 1] |
| ScanReports.ScanReportsExactly | src/atp/domain/services/chart_patterns.py:150-479 | A pattern is reported if and only if the bars and their swings read so: for each of the eleven kinds the exact shape, direction, confirmation, span, named prices and quality |
| ScanReports.ScanMeans | src/atp/domain/services/chart_patterns.py:501-516 | A scan needs sixty bars and reports the swings of three bars on either side, the six nearest levels to the last close, and exactly the patterns that read so |
| ScanReports.RangeBreaksExactly | src/atp/domain/services/chart_patterns.py:446-479 | A bullish confirmed breakout is reported exactly when the last close exceeds every high of the forty bars before, a bearish confirmed breakdown exactly when it is under every low |
| ScanReports.ReportedInOrder | src/atp/domain/services/chart_patterns.py:159-168 | Patterns come in the order of the detectors, at most one from each |
| Readings.DoubleTopRead | src/atp/domain/services/chart_patterns.py:171-212 | Detected exactly for the last two highs within three percent of each other with a lowest low between them three percent under a peak; bearish, confirmed by a close under that low |
| Readings.DoubleBottomRead | src/atp/domain/services/chart_patterns.py:215-256 | The mirror image, exactly; bullish, confirmed by a close over the highest high between |
| Readings.ShouldersRead | src/atp/domain/services/chart_patterns.py:259-295 | Detected exactly for the last three highs, the middle one highest and the outer two within three percent, over the mean of two lows or more between; bearish, confirmed under that mean |
| Readings.InverseRead | src/atp/domain/services/chart_patterns.py:298-334 | The mirror image, exactly; bullish, confirmed over the mean of the highs between |
| Readings.StructureRead | src/atp/domain/services/chart_patterns.py:337-383 | Up exactly for a higher high with a higher low, down exactly for a lower high with a lower low; always confirmed |
| Triangles.TriangleRead | src/atp/domain/services/chart_patterns.py:386-443 | Detected exactly when the least-squares slopes through the last three highs and lows, in percent of the close per bar, converge in one of three ways, each with its direction; never confirmed |
| Triangles.FittedLineIsBest | src/atp/domain/services/chart_patterns.py:66-76 | No line misses the three points by less, in squares, than the one with the fitted slope |
| ScanReports.BreakRead | src/atp/domain/services/chart_patterns.py:446-479 | Detected exactly for a close outside the range of the forty bars before it, with that range's high and low and a quality from its width |
| Patterns.NetDirectionFollowsEvidence | src/atp/domain/services/chart_patterns.py:482-498 | The net direction leans a way exactly when confirmed quality plus half the unconfirmed, for less against, passes a quarter that way |
| ScanFacts.ReportedDoublesExclude | src/atp/domain/services/chart_patterns.py:150-256 | A scan never reports a confirmed double top together with a confirmed double bottom |
| ScanFacts.ReportedShouldersExcludeTrend | src/atp/domain/services/chart_patterns.py:150-383 | A scan that reports head and shoulders reports no uptrend structure, and one that reports the inverse no downtrend structure |
| ScanFacts.ReportedTopStandsAboveNeckline | src/atp/domain/services/chart_patterns.py:150-212 | Both peaks of every reported double top stand above its neckline, and below it the close when confirmed |
| Patterns.WeighPatterns | src/atp/domain/services/chart_patterns.py:482-498 | The loop over patterns computes that direction |
| ScaleFree.ScanIsScaleFree | src/atp/domain/services/chart_patterns.py:501-516 | Multiplying every price by any k > 0 keeps swing indices, clusters, level kinds, patterns, confirmation and quality; only prices carry the factor |
| ScaleFree.NetDirectionIsScaleFree | src/atp/domain/services/chart_patterns.py:482-498 | And the net direction |
| ScaleFree.LevelsScale | src/atp/domain/services/chart_patterns.py:111-147 | Levels scale with the prices, in kind, touches, distance and order unchanged |
| ScaleFree.SwingsScale | src/atp/domain/services/chart_patterns.py:79-108 | Swings scale with the prices and keep their places |
| ScaleFree.DetectScale | src/atp/domain/services/chart_patterns.py:150-168 | The detectors find the same shapes, scaled, on scaled prices |
| MonteCarlo.SummaryIsCoherent | src/atp/domain/services/monte_carlo.py:29-60 | Whatever is drawn, when no trade loses more than everything: tail returns are at least tail drawdowns, drawdowns lie in [-100, 0], percentiles are ordered, and a losing median forces a loss probability of at least one half |
| MonteCarlo.CoherentExactlyWhenBounded | src/atp/domain/services/monte_carlo.py:29-60 | The summary is coherent on every draw if and only if no trade loses more than everything |
| MonteCarlo.DominantExactlyWhenBounded | src/atp/domain/services/monte_carlo.py:29-60 | Given some winning trade, tail returns are at least tail drawdowns on every draw if and only if no trade loses more than everything |
| MonteCarlo.UnboundedLossEscapes | src/atp/domain/services/monte_carlo.py:29-60 | For any trades with one below -100 percent, a draw whose drawdown tail is below -100 |
| OrderStatistics.SummaryMeansShares | src/atp/domain/services/monte_carlo.py:43-60 | Each return percentile is the compounded return of some simulation and sits at its quantile among all of them, each drawdown percentile likewise among the deepest falls, and the loss probability is the share that lost |
| MonteCarlo.MonteCarloTrades | src/atp/domain/services/monte_carlo.py:19-55 | The nested loops, in-place sorts and counts compute the bootstrap specification; too few means fewer than three trades |
| MonteCarlo.Simulate | src/atp/domain/services/monte_carlo.py:33-39 | The inner loop ends with the product of 1 + r / 100 over the drawn returns, and with the deepest fall of any equity below the highest before it |
| MonteCarlo.TotalIgnoresOrder | src/atp/domain/services/monte_carlo.py:33-40 | The terminal return depends on which returns were drawn and not on their order |
| MonteCarlo.WorstIsDeepest | src/atp/domain/services/monte_carlo.py:36-39 | Whatever was drawn, the running minimum is the deepest of all falls below the peak so far |
| MonteCarlo.WorstBoundsEveryFall | src/atp/domain/services/monte_carlo.py:37-39 | The running minimum is at most every relative fall from an earlier equity to a later one |
| MonteCarlo.WorstIsSomeFall | src/atp/domain/services/monte_carlo.py:37-39 | And it is one of those falls |
| MonteCarlo.PeakIsHighest | src/atp/domain/services/monte_carlo.py:37-38 | The peak is the highest equity of the path, start included |
| StrategyParams.SetPathChangesOnlyTheLeaf | src/atp/domain/services/strategy_params.py:36-67 | A write changes the addressed leaf; everything whose address parts ways with it is untouched, and containers on the way keep their fields or length |
| StrategyParams.SetPathResolves | src/atp/domain/services/strategy_params.py:36-67 | A write fails exactly when, and exactly as, the path does not resolve; afterwards the address reads the value |
| StrategyParams.NumberSelects | src/atp/domain/services/strategy_params.py:54-67 | In a list of k items the numbers from -k to k - 1 in decimal select an item, negative ones counted from the end, and every other number is out of range |
| StrategyParams.ShownIsParsed | src/atp/domain/services/strategy_params.py:44-49 | Every whole number in decimal is read back as itself |
| StrategyParams.SplitJoins | src/atp/domain/services/strategy_params.py:37 | Splitting a path at its dots loses nothing and leaves no dot |
| Tuning.TunedIsWhatWasWritten | src/atp/domain/services/strategy_params.py:19-33 | The tuned strategy's own dump is the base strategy's dump with the writes made: nothing that was not addressed differs |
| DumpTree.SetInPlace | src/atp/domain/services/strategy_params.py:36-51 | The loop that reassigns the node and overwrites one slot turns a tree showing a document into one showing the specified document, or refuses and leaves it alone |
| DumpTree.Walk | src/atp/domain/services/strategy_params.py:39-41 | Stepping through the containers arrives where the path leads, or refuses as the specification does |
| DumpTree.WriteParameters | src/atp/domain/services/strategy_params.py:28-32 | All parameters at all their paths, written in place one after another, give the specified document or the first refusal |
| DumpTree.ApplyParameters | src/atp/domain/services/strategy_params.py:19-33 | Dump, write in place, re-validate: the outcome of the specification |
| DumpTree.PathWritten | src/atp/domain/services/strategy_params.py:36-51 | Overwriting one slot at the end of a path changes the value of the whole tree exactly as the path says |
| StrategyJson.StrategyRoundTrips | src/atp/domain/services/strategy_params.py:27-33 | Dumping a valid strategy and validating the dump gives the same strategy back |
| StrategyJson.ReadIsValid | src/atp/domain/models/strategy.py:71-86 | Whatever validates meets every operand and strategy rule |
| StrategyJson.AbsentFieldsDefault | src/atp/domain/models/strategy.py:107-117 | Brackets, description and ATR period may be left out, the last meaning 14; name and rules may not |
| Strategy.RulesExactly | src/atp/domain/models/strategy.py:62-117 | The validators accept exactly the strategies whose every operand and whole obey the rules spelled out |
| Strategy.WarmupInRange | src/atp/domain/models/strategy.py:120-136 | A valid strategy needs between 1 and 500 bars of warm-up |
| Strategy.WarmupBars | src/atp/domain/models/strategy.py:120-136 | The list-building property computes the warm-up of the specification |
| Strategy.WarmupIsLargestNeed | src/atp/domain/models/strategy.py:120-136 | The warm-up is the largest need of any operand, MACD or bracket, 1 if there is none, and is the only such number |
| WarmupBound.MaxWarmupBoundsEveryTrial | src/atp/infrastructure/optimization/optuna_optimizer.py:283-290 | When the widest assignment is accepted, no accepted draw within the bounds needs a longer warm-up than the bound |
| WarmupBound.MaxWarmupIsNeeded | src/atp/infrastructure/optimization/optuna_optimizer.py:283-290 | The bound is no larger than it has to be: the base strategy or the one with every parameter at its highest needs exactly that many bars |
| WarmupBound.PathsAlwaysResolve | src/atp/domain/models/optimization.py:84-103 | A specification accepted at its midpoints never fails on a path later: any other assignment is applied or fails validation |
| WarmupBound.WriteAllKeepsBelow | src/atp/domain/services/strategy_params.py:28-32 | Smaller values succeed or fail alike and give the same document with no larger number anywhere |
| WarmupBound.LighterWarmsUpSooner | src/atp/domain/models/strategy.py:120-136 | The same indicators with no longer a period need no longer a warm-up |
| Optimizer.Optimize | src/atp/infrastructure/optimization/optuna_optimizer.py:59-115 | Each refusal has its own cause; a result has the largest objective of all viable draws on the in-sample bars alone, no trial was refused for short history, the hold-out prefix starts at least ten bars in and is never clipped, the winner never loses its objective, and the reported bootstrap is that of the hold-out's trades |
| Optimizer.Search | src/atp/infrastructure/optimization/optuna_optimizer.py:223-262 | The winner applies, its run on the given bars has enough trades and an objective, and no other such draw's objective is larger; the completed trials are exactly the draws of that kind, nothing viable means there is none, and the search aborts exactly when a draw cannot be applied |
| Optimizer.TrialExactly | src/atp/infrastructure/optimization/optuna_optimizer.py:223-246 | A trial is refused, too short or completed exactly as its draw fails to apply, lacks history, or yields a run with enough trades and an objective, and completes at that objective |
| Optimizer.NoTrialIsTooShort | src/atp/infrastructure/optimization/optuna_optimizer.py:63-71 | Ten bars past the bound suffice for every accepted draw |
| Optimizer.HoldoutEvaluatedExactly | src/atp/infrastructure/optimization/optuna_optimizer.py:86-88 | The hold-out is evaluated exactly when its prefixed window is long enough for the chosen strategy |
| Optimizer.EvaluateWindow | src/atp/infrastructure/optimization/optuna_optimizer.py:264-281 | Runs exactly the clipped slice, or nothing when it is too short |
| WalkForward.Evaluate | src/atp/infrastructure/optimization/optuna_optimizer.py:128-202 | Succeeds exactly past the guards with applicable draws; then every fold whose search found anything is evaluated, on exactly its window behind a whole warm-up prefix, with the parameters of the largest objective on earlier bars alone, and the bootstrap is that of the pooled test returns |
| WalkForward.RunFold | src/atp/infrastructure/optimization/optuna_optimizer.py:148-191 | One fold chooses its winner on everything before its window, refuses no trial for short history and evaluates the winner once |
| WalkForward.RunFolds | src/atp/infrastructure/optimization/optuna_optimizer.py:143-202 | The loop appends one fold per window; the mean, the trade total and the pooled returns are over the evaluated folds |
| WalkForward.MeanIsOverScoredFolds | src/atp/infrastructure/optimization/optuna_optimizer.py:173-200 | The mean objective times the number of folds that have one is their sum, and there is no mean exactly when there is no such fold |
| WalkForward.TalliesCountFolds | src/atp/infrastructure/optimization/optuna_optimizer.py:173-200 | The pooled returns hold every test trade once and the objectives one value per scored fold |
| WalkForward.FoldsTile | src/atp/infrastructure/optimization/optuna_optimizer.py:134-150 | Folds start at the midpoint, each where the one before ends, and end with the history |
| WalkForward.WindowsCoverTheSecondHalf | src/atp/infrastructure/optimization/optuna_optimizer.py:147-150 | The test windows joined are exactly the second half of the bars |
| WalkForward.GuardSuffices | src/atp/infrastructure/optimization/optuna_optimizer.py:136-141 | The one length check gives every fold its training bars, an unclipped prefix and a long enough test window |
| Supervisor.RunsAreExact | src/atp/application/orchestration/graph.py:198-224 | For every selection, every pattern of successes and failures and every merge order: at most two supersteps, each selected analysis agent dispatched once and settled with one report or one failure, learning if and only if selected and some analysis reported, and last; the recorded steps say of each completed agent whether it is feedback and whether it succeeded |
| Supervisor.RunsAreConfluent | src/atp/application/orchestration/state.py:80-86 | Runs merged differently end with the same reports, votes and verdict and rearranged completions, failures and steps |
| Supervisor.FailedAgentsDoNotVote | src/atp/application/orchestration/consensus.py:243-269 | The voters are exactly the agents whose directional report succeeded, once each |
| Supervisor.AtMostTwoSupersteps | src/atp/application/orchestration/graph.py:198-214 | After two supersteps the router ends the run |
| Supervisor.ResolveIsExact | src/atp/application/orchestration/graph.py:102-114 | A selection is refused exactly for names no agent has; otherwise it is the named agents in canonical order, once each, or all of them |
| Supervisor.Run | src/atp/application/orchestration/graph.py:137-166 | Superstep by superstep with updates arriving in any order, the graph reaches a finished legal run |
| Supervisor.Superstep | src/atp/application/orchestration/graph.py:276-319 | Every agent of a superstep is dispatched once, in some order, and its update merged |
| Supervisor.AgentVotes | src/atp/application/orchestration/consensus.py:243-269 | The loop over artifacts collects, in canonical order, one vote per analysis agent with a directional report, under the agent's name with the report's direction and confidence |
| Voting.ScoreInUnit | src/atp/domain/services/voting.py:53-59 | The exact score lies in [-1, 1] |
| Voting.VerdictIgnoresOrder | src/atp/domain/services/voting.py:34-106 | Score, counts and action do not depend on the order of the votes |
| Voting.UpgradeNeverLowers | src/atp/domain/services/voting.py:62-106 | Moving any voters' directions up at fixed confidence never moves the action down SELL < HOLD < BUY |
| Voting.ReversalSwaps | src/atp/domain/services/voting.py:97-100 | Reversing every vote swaps buy and sell if and only if not (threshold 0, score 0, gates open) |
| Voting.EvenScoreBuys | src/atp/domain/services/voting.py:97-100 | A concrete vote for which both the vote and its reversal buy |
| Voting.NeutralDilutes | src/atp/domain/models/voting.py:86-96 | A further neutral vote never increases the absolute score, and strictly lowers it when both weigh something |
| Voting.FullScoreMeansUnanimous | src/atp/domain/services/voting.py:53-59 | A score of 1 means every voter with any confidence is bullish, however unsure |
| Voting.HesitantBullScoresOne | src/atp/domain/services/voting.py:53-59 | A single bull scores +1 at any confidence above zero |
| Voting.ActionHasBacker | src/atp/domain/models/voting.py:163-178 | Agreement lies in [0, 1], and no buy or sell at a non-zero score is without a voter who wanted it |
| Voting.Tally | src/atp/domain/services/voting.py:34-50 | Buys exactly when the gates are open and the exact score reaches the threshold, sells exactly when it does not but reaches it downwards; the published score is the exact one to four decimals and never refused by its own bounds |
| Voting.ScoreSharesOut | src/atp/domain/services/voting.py:53-59 | The score is the only number that, times all confidence, gives the bullish confidence less the bearish, and zero when nobody committed any |
| Voting.Verdict | src/atp/domain/services/voting.py:62-106 | The branches give the action of the specification and a reason that matches the gate that stopped it |
| Voting.CountVotes | src/atp/domain/services/voting.py:109-113 | The counting loop gives the head-count per direction, and they sum to the votes |
| Leaderboard.LeaderboardIsExact | src/atp/application/agents/opportunity_ranking.py:108-140 | For distinct symbols, which screening guarantees, and whatever ordering the model returns, or none: the untruncated rows are a permutation of the candidates ranked 1..n, written-up ones first in first-mention order, the rest by falling composite and, at equal composite, by symbol |
| Leaderboard.MergeIsPermutationExactly | src/atp/application/agents/opportunity_ranking.py:215-231 | Merging loses and invents nothing if and only if no two candidates share a ranked symbol |
| Leaderboard.ValidationIsExact | src/atp/application/agents/opportunity_ranking.py:191-212 | Kept verdicts are exactly the first mentions of known symbols, normalised, in the model's order |
| Leaderboard.LeaderboardIgnoresInputOrder | src/atp/application/agents/opportunity_ranking.py:143-149 | The leaderboard does not depend on the order the candidates were given in, unless two different ones share symbol and composite |
| Leaderboard.TruncationKeepsPrefix | src/atp/application/agents/opportunity_ranking.py:251-254 | Truncation keeps a prefix, still numbered from 1 without gaps |
| Leaderboard.Validate | src/atp/application/agents/opportunity_ranking.py:191-212 | The loop over seen and kept computes the first mentions |
| Leaderboard.Merge | src/atp/application/agents/opportunity_ranking.py:215-231 | Extending the rows computes the merged board |
| Leaderboard.Rank | src/atp/application/agents/opportunity_ranking.py:99-140 | Ranks with the model's answer or falls back to the composite order, and never fails |
| Screening.EverySymbolIsAccountedFor | src/atp/application/orchestration/screening.py:103-147 | Each requested symbol is exactly one of an outcome or a failure, and the board holds each outcome's symbol once and no other |
| Screening.PartitionIsExact | src/atp/application/orchestration/screening.py:132-141 | Outcomes and failures partition the requested symbols; each candidate carries its own symbol's composite and detail, each failure its own error, and no symbol occurs twice |
| Screening.UniqueIsExact | src/atp/application/orchestration/screening.py:167-180 | Each non-blank symbol once, normalised, in order of first appearance |
| Screening.UniqueIsIdempotent | src/atp/application/orchestration/screening.py:167-180 | De-duplicating twice is de-duplicating once |
| Screening.Execute | src/atp/application/orchestration/screening.py:103-164 | The use case computes the partition and the truncated board |
| Screening.Collect | src/atp/application/orchestration/screening.py:132-141 | The result loop fills outcomes, failures and candidates as specified |
| Screening.Unique | src/atp/application/orchestration/screening.py:167-180 | The loop over seen and kept computes the unique symbols |
| NewsCache.EveryInterleavingIsSafe | src/atp/application/use_cases/load_news.py:53-94 | Over every interleaving of any number of callers, with failing fetches: at most one fetch outstanding, no fetch within the TTL of a completed one for its key, every fetch asking for its key's own symbol, count and days, every served value fetched for exactly its key, either just now by its caller or less than the TTL before its check |
| NewsCache.MoveKeeps | src/atp/application/use_cases/load_news.py:65-85 | Every piece of a call between awaits keeps the protocol's invariant |
| NewsCache.WaitersShareOneFetch | src/atp/application/use_cases/load_news.py:69-74 | A caller that waited behind a fetch for its key is answered from it, without the provider, exactly when it checks within the TTL |
| NewsCache.NewsLoader.CheckFresh | src/atp/application/use_cases/load_news.py:87-94 | A cached entry is returned exactly while younger than the TTL |
| NewsCache.NewsLoader.EnterLock | src/atp/application/use_cases/load_news.py:69-77 | Takes the lock, checks again, and either answers and releases or asks the provider for the key's symbol and count, from the key's days before the clock |
| NewsCache.NewsLoader.StoreAndRelease | src/atp/application/use_cases/load_news.py:78-85 | Stores the answer under its key with the time and releases the lock |
| NewsCache.NewsLoader.ReleaseAfterError | src/atp/application/use_cases/load_news.py:69-77 | A failed fetch releases the lock and caches nothing |
| RateLimiter.AnyMinuteIsBounded | src/atp/interfaces/api/rate_limit.py:54-66 | Any minute, wherever placed, holds at most 2 * limit - 1 allowed requests of a caller, and the fixed window in force at most limit |
| RateLimiter.BurstReachesBound | src/atp/interfaces/api/rate_limit.py:54-66 | For every limit, a trace in time order and a minute in which 2 * limit - 1 requests are allowed |
| RateLimiter.HoldsInAnyMinuteExactlyAtOne | src/atp/interfaces/api/rate_limit.py:54-66 | At most `limit` allowed requests in any minute is guaranteed if and only if the limit is 1 |
| RateLimiter.NoLimitAllowsAll | src/atp/interfaces/api/rate_limit.py:50-57 | Without a limit every request is allowed and none is counted |
| RateLimiter.CallersIndependent | src/atp/interfaces/api/rate_limit.py:59-66 | A caller gets the answers it would get alone |
| RateLimiter.AlwaysAccounted | src/atp/interfaces/api/rate_limit.py:59-66 | The table's count and start describe the caller's requests since its window opened, at every point of every trace |
| RateLimiter.AnswersCountWindow | src/atp/interfaces/api/rate_limit.py:54-66 | A request is allowed exactly when it is among the first `limit` since its window opened, with one of its caller's own requests less than a minute ago, and it is told how many more that window will take |
| RateLimiter.Limiter.CheckRequest | src/atp/interfaces/api/rate_limit.py:54-66 | One check on the stored windows: the new table and the answer are those of the specification |
| Text.NormalizeIdempotent | src/atp/domain/models/trading.py:34-37 | Normalising a normalised symbol changes nothing |
| Sorting.SortDominates | src/atp/domain/services/monte_carlo.py:43-44 | Sorting two lists keeps pointwise dominance |
| Sorting.SortedArrangementUnique | src/atp/application/agents/opportunity_ranking.py:143-149 | Without ties between distinct members the sorted order is unique |

## Left out

- Language-model clients, prompts and narratives: an agent is an arbitrary success or failure, an ordering an arbitrary sequence.
- Routes, middleware, security, settings, command line and console.
- Market data vendors, databases, files and JSON text: repositories hold abstract values and append-only sequences.
- Indicators, the backtest event loop and the sampler: the engine is any function that refuses only short histories, a draw any value in range.
- Concurrent trades and crashes between save and append: use-case calls are atomic steps in sequence.
- Floating point and Decimal precision: arithmetic is exact, so a hold-out split or a percentile index may differ by one where a float product rounds across an integer.
- Order identifiers, times of orders, strategy names, free-text details, logging and timings.
- Exceptions outside the domain errors: an agent or broker raising anything else aborts the call.
- The division by zero when averaging in quantities that cancel is an `Err` of the model; order sizes are positive, so no run reaches it.
- `fundamental_rules`, regime and sentiment bands, `vendor_symbols`, the universe catalogue and the composite weights: table facts.
- `kelly_fraction`, `sort_timeframes` and the position P&L percentages: single expressions.
- Text.NormalizeIdempotent: ASCII text only; stripping and upper-casing of other Unicode text is not modelled.
- StrategyParams.ParseInt: ASCII digits only.
- StrategyJson.Read: a numeric field given as text is refused, where the validator would coerce it; no dump or write produces one.
- Patterns.Slope: for exactly three points, as the triangle detector calls it.
- Levels.PriceLevels: prices are exact means; Levels.FindLevels prints them to four decimals. Distances are rounded to two decimals and sorted by, as in the code.
- ScaleFree.ScanIsScaleFree: holds for exact prices; printing them to four decimals can lose the factor.
- Patterns.DetectPatterns: key prices and slopes are not printed to four decimals, so two that differ by less stay apart.
- LevelOrder.LevelsIgnoreSwingOrder: for positive prices, which the bar rules guarantee.
- Levels.LevelPricesDistinct: before rounding only; two close levels can print alike.
- Optimizer.Search: which of several equally good trials the study reports is not fixed; the model reports the first.
- DumpTree.ApplyParameters: the trees that dumping builds and validation reads are modelled node by node; which order a dictionary lists its fields in is not.
- NewsCache.EveryInterleavingIsSafe: which waiting caller gets the lock next, and when, is left open, so fairness is not stated.
