# btc-dashboard rebalancing engine in Dafny

This project models the decision core of the btc-dashboard: a bitcoin rebalancing strategy driven by the
position of the price inside a long-term channel (the "ratio", 0–100 %).

- **Ladder** (`sell_weight`): once the ratio passes the sell start, the target bitcoin weight falls from 1 to 0
  along one of three shapes. `g0` is soft (1 − x²), `g2` is aggressive ((1 − x)²), and any other name is
  linear (1 − x).
- **Hysteresis and re-entry** (`target_weight`, `step_weight`): in the sell regime the weight can only fall.
  Below the sell start, one of three re-entry rules applies:
  - `instant` goes back to 100 %;
  - `wait` goes back to 100 % only at or below the buy threshold;
  - `gradual` (and any unknown mode) eases the weight up.

  Each step is classified HOLD, BUY or SELL with a tolerance of 1e-12.
- **Weight series** (`compute_weight_series`): the day-by-day replay of the steps from a start index,
  remembering the last trade.
- **Backtest** (`run_backtest`): the replay of the weights against prices into a buy-and-hold curve and a
  strategy curve (partly in bitcoin, the rest in cash). It stops at the first bad price, then reports final
  returns and maximum drawdowns. `get_next_triggers` projects the next sell and buy ratios to prices.
- **Utilities**: `clamp`, `max_drawdown`, the Welford one-pass `mean_std`, and `price_for_ratio_pct`.
- **Records**: the `last_*` accessors of the channel data, `performance_delta`, and the `StrategyParams`
  defaults.

Modules and files:

| file | module | models |
|---|---|---|
| `floats.dfy` | `Floats` | `Num`: a float that is either a finite `real` or non-finite (NaN or ±inf, as `np.isfinite` sees it). `Option` stands for Python's `None`. |
| `utils.dfy` | `Utils` | core/utils.py |
| `models.dfy` | `Models` | core/models.py |
| `strategy.dfy` | `Strategy` | core/strategy.py |
| `backtest.dfy` | `Backtest` | core/backtest.py |

How the model is built:

- **Loops stay loops.** The source's imperative loops are methods with loop invariants: `max_drawdown`,
  `mean_std`, `compute_weight_series`, and the equity replay of `run_backtest`. Each fills a local array or
  accumulators and is proved against a specification function. For example, `WeightBefore` is the weight
  after k steps, and `HodlCurve`/`StrategyCurve` are the two equity curves.
- **Pure code stays pure.** The pure branching code is made of functions whose contracts state the
  source's promises.
- **Python semantics kept.** Python's negative indexing and its `IndexError` are kept explicitly, through
  `Models.PyIndex` and `Models.Fallible`.
- **Strings stay strings.** The ladder and re-entry-mode strings are kept as the user gave them.
  `LadderOf` and `ReentryOf` apply the source's fallbacks: an unknown ladder is linear, and an unknown mode
  is gradual.
- **One inconsistency in the source.** `get_next_triggers` dispatches on the mode string by itself. For an
  unknown mode it therefore shows the instant-re-entry texts, although `target_weight` treats that mode as
  gradual. `Backtest.NextTriggers` follows the code.
- **The seven-day scenario.** The model follows the code, which gives the following for the ratios
  30, 40, 46, 60, 80, 46, 30 (sell start 46, linear ladder, instant re-entry):
  - The fourth day's weight is 40/54 (≈ 0.741), and it then falls to 20/54 (≈ 0.370).
  - The sixth day (ratio 46 again) still counts as the sell regime, because the test is `>=`, so the
    weight is held.
  - The only buy is on the seventh day.

  `Strategy.InstantScenario` and `Strategy.WaitScenario` state these values.

## Model

| member | source | states |
|---|---|---|
| Utils.Clamp | core/utils.py:6-8 | The result is at least lo, and at most hi when lo ≤ hi. It is v when v already lies in [lo, hi], lo at or below lo, and hi at or above hi. |
| Utils.MaxDrawdown | core/utils.py:11-33 | The running-peak loop returns the maximum drawdown. None/non-finite entries are skipped, and the drawdown is 0 while the peak is ≤ 0. The result is ≤ 0, no worse than any day's drawdown, and equal to 0 or to some day's drawdown. |
| Utils.ReadEntry | core/utils.py:27-29 | Reading a finite entry raises the peak to it when the peak is unset (the source's −inf) or lower, and otherwise keeps it. The entry's drawdown is taken against the new peak, and it is 0 when that peak is ≤ 0. |
| Utils.MaxDrawdownUnique | core/utils.py:11-33 | That characterisation has at most one solution, so it pins down the result. |
| Utils.RisingCurveHasNoDrawdown | core/utils.py:21-33 | A positive non-decreasing curve has maximum drawdown 0. |
| Utils.PeakIsRunningMax | core/utils.py:21-28 | The running peak is unset exactly while every entry read has been non-finite (the source's −inf). Otherwise it is the largest finite entry read so far, and it is one of them. |
| Utils.PeakOfRising | core/utils.py:24-28 | On a finite non-decreasing curve, the running peak is the current value. |
| Utils.DrawdownHalfway | tests/test_strategy.py:22-24 | [1, 2, 1] has maximum drawdown exactly −0.5. |
| Utils.DrawdownWorstOfSeveral | tests/test_strategy.py:26-29 | [1, 1.5, 1.2, 1.8, 0.9] has maximum drawdown exactly 0.9/1.8 − 1, the worst of its two drawdowns. |
| Utils.MeanStd | core/utils.py:36-62 | Welford's loop returns the count of finite values and their arithmetic mean. The variance is M2/(n − 1), the sum of squared deviations from the mean over n − 1, and it is 0 when n < 2. |
| Utils.WelfordAdd | core/utils.py:54-57 | One loop step over a finite value v counts it, and from the mean and M2 of the values read so far it yields the mean and M2 of those values followed by v. |
| Utils.WelfordUpdate | core/utils.py:54-57 | One Welford update keeps its invariant: after adding v, the mean is the mean of the extended list and M2 is its sum of squared deviations from the new mean. |
| Utils.SampleVariance | core/utils.py:59-60 | The sample variance is never negative, so `max(variance, 0)` never changes it. |
| Utils.SqDevNonNegative | core/utils.py:57 | M2, a sum of squared deviations, is never negative. |
| Utils.SqDevExpand | core/utils.py:55-57 | The sum of squared deviations from m equals Σx² − 2mΣx + n·m², the identity that Welford's invariant rests on. |
| Utils.FinitesSkipNonFinite | core/utils.py:52-53 | A non-finite value inserted anywhere does not change the values the statistics see. |
| Utils.FinitesOfAllFinite | core/utils.py:50-53 | On an all-finite list, the values the statistics see are the list itself. |
| Utils.MeanStdOfOneToFive | tests/test_strategy.py:32-38 | [1, 2, 3, 4, 5] gives n = 5, mean 3 and sample variance 2.5 (std √2.5). |
| Utils.ConstantSums | core/utils.py:54-57 | A list whose entries all equal c sums to n·c and has no squared deviation from c. |
| Utils.MeanStdOfConstant | core/utils.py:46-60 | Any non-empty list whose entries all equal one finite value c has n equal to its length, mean c and sample variance 0. |
| Utils.PriceForRatio | core/utils.py:65-84 | The result is None iff the width peak − trough is non-finite or ≤ 0. Otherwise the price sits at exactly ratio % of the way from trough to peak. |
| Utils.PriceAtChannelEdges | core/utils.py:81-84 | Ratio 0 projects to the trough and ratio 100 to the peak. |
| Utils.PriceForRatioIncreasing | core/utils.py:81-84 | For a valid channel, the projected price is strictly increasing in the ratio. |
| Utils.PriceForRatioExample | core/utils.py:81-84 | Ratio 46 in a 20000–70000 channel projects to 43000. |
| Models.PyIndex | core/models.py:43 | Python indexing: defined exactly for −len ≤ i < len, and it is the element itself for a non-negative index. |
| Models.LastClose | core/models.py:40-43 | The last price, as Python's `[-1]` gives it, or 0.0 for an empty series. |
| Models.LastRatio | core/models.py:45-48 | The last ratio, or 0.0 for an empty series. |
| Models.LastDate | core/models.py:50-53 | The last date, or "" for an empty series. |
| Models.LineAtLastDay | core/models.py:55-69 | For a line value on the last observed day, the index is len(price) − 1 when that index is below the line's length, and the result is 0.0 otherwise. An empty price series gives index −1, which reads the line's last entry. It raises IndexError exactly when both lists are empty. |
| Models.LastTrough | core/models.py:55-61 | `last_trough`: the same four cases over the trough line, including the read of its last entry when the price series is empty. |
| Models.LastPeak | core/models.py:63-69 | `last_peak`: the same four cases over the peak line. |
| Models.LadderOf | core/strategy.py:39-48 | The ladder name "g0" is the soft ladder and "g2" the aggressive one. Every other name, unknown ones included, is the linear ladder. |
| Models.ReentryOf | core/strategy.py:79-89 | The mode "instant" re-enters at once and "wait" waits for the buy threshold. Every other mode, unknown ones included, is gradual. |
| Models.DefaultParams | core/models.py:72-80 | The defaults are a linear ladder with instant re-entry, a starting weight in [0, 1], and 0 < buy threshold (14) < sell start (46) < 100. |
| Models.PerformanceDelta | core/models.py:104-107 | The delta is positive iff the strategy beat holding and zero iff they tied. Added to the holding return, it gives the strategy return. |
| Strategy.SellWeight | core/strategy.py:13-48 | The result is always in [0, 1]. It is 1 for a non-finite ratio or one at or below the sell start, 0 past the sell start at or above 100, and strictly between 0 and 1 strictly inside the sell range, for every ladder. |
| Strategy.SellWeightNonIncreasing | core/strategy.py:25-48 | For every ladder and sell start, the ladder weight never rises as the ratio rises. |
| Strategy.Shape | core/strategy.py:39-48 | For any position x, each ladder shape gives a weight in [0, 1]: 1 at x = 0, and 0 at or beyond x = 1. |
| Strategy.ShapeRange | core/strategy.py:39-48 | Each ladder shape maps [0, 1] into [0, 1] and the open interval into the open interval. |
| Strategy.ShapeNonIncreasing | core/strategy.py:39-48 | Each ladder shape is non-increasing on [0, 1]. |
| Strategy.SellWeightExamples | tests/test_strategy.py:52-83 | At sell start 46 and ratio 73, the weight is 0.75 for g0, 0.5 for g1 and 0.25 for g2. At ratio 90, g1 gives 10/54. |
| Strategy.Easing | core/strategy.py:86-88 | The gradual easing factor f² lies in [0, 1]. |
| Strategy.TargetWeight | core/strategy.py:51-89 | The cases are: (1) a non-finite ratio keeps the previous weight; (2) in the sell regime the result is the previous weight or the ladder weight, whichever is lower, so it never exceeds either; (3) below the sell start, instant gives 1, wait gives 1 at or below the buy threshold and the previous weight above it, and gradual stays in [0, 1] and never below a previous weight in [0, 1]. A previous weight in [0, 1] always gives a target in [0, 1]. |
| Strategy.GradualFullAtZero | core/strategy.py:84-89 | Under gradual re-entry with a sell start of at least 1e-9 (the floor on the denominator), ratio 0 gives weight 1. |
| Strategy.TargetWeightExamples | tests/test_strategy.py:86-146 | These are the unit-test values: (1) instant re-entry gives 1 at ratio 30; (2) the ladder gives 0.5 at 73; (3) wait holds 0.5 at ratio 30 and gives 1 at ratio 10; (4) prev 0.4 stays 0.4 at ratio 70 and drops below 0.4 at ratio 90. |
| Strategy.StepWeight | core/strategy.py:92-120 | HOLD happens iff the target is within 1e-12 of the previous weight, and then the previous weight is returned unchanged. Otherwise the target is returned, BUY iff it exceeds the previous weight by more than 1e-12 and SELL iff it falls short by more. The action is not HOLD iff the weight moves by more than 1e-12, and a non-finite ratio always holds. |
| Strategy.LastTradeDayIsLast | core/strategy.py:145-157 | The last trading day is None iff every step holds. Otherwise it is a day whose step trades, and every later step holds. |
| Strategy.LastTradeNext | core/strategy.py:149-157 | One more day makes that day's trade the last trade exactly when its step moves the weight by more than 1e-12, and keeps the previous last trade otherwise. |
| Strategy.ReplayDay | core/strategy.py:146-159 | One iteration of the loop takes the weight before day i to the weight after it, and the last trade up to day i to the last trade up to day i + 1. |
| Strategy.ComputeWeightSeries | core/strategy.py:123-162 | The list has one entry per ratio, None before the start and, from the start on, the weight after that day's step. The last trade is that of the last day whose step trades, or None. |
| Strategy.WeightsInUnitInterval | core/strategy.py:141-160 | With a starting weight in [0, 1], every weight of the series lies in [0, 1]. |
| Strategy.SellRegimeNeverBuys | core/strategy.py:71-76 | Over days in the sell regime (or with non-finite ratios), the weight never rises. |
| Strategy.WaitFreezesBetweenThresholds | core/strategy.py:81-83 | Under wait re-entry, days strictly between the buy threshold and the sell start leave the weight unchanged. |
| Strategy.GradualNeverSells | core/strategy.py:84-89 | Under gradual re-entry, days below the sell start never lower the weight. |
| Strategy.InstantReentryGoesAllIn | core/strategy.py:79-80 | Under instant re-entry, a day below the sell start ends within 1e-12 of full exposure. |
| Strategy.InstantScenario | core/strategy.py:123-162 | For the ratios 30, 40, 46, 60, 80, 46, 30 with the default parameters, the weights are 1, 1, 1, 40/54, 20/54, 20/54, 1, and the last trade is the buy on the seventh day. |
| Strategy.WaitScenario | core/strategy.py:123-162 | In the same series under wait re-entry with a buy threshold of 20, the weight stays at 20/54 and the last trade is the sell on the fifth day. |
| Strategy.GetLadderHints | core/strategy.py:165-184 | The hints are percentages with 0 ≤ w90 ≤ w70 ≤ w50 ≤ 100, and w50, w70 and w90 are the ladder weights at ratios 50, 70 and 90 times 100. |
| Strategy.LadderHintsExample | tests/test_strategy.py:149-159 | For the linear ladder from 46, w50 > 90 and 15 < w90 < 20. |
| Backtest.OrOne | core/backtest.py:62-67 | Python's `x or 1.0` on an equity entry: a set non-zero entry is itself, and an unset or zero entry is 1. |
| Backtest.Stop | core/backtest.py:52-57 | Every step before the stop day can be taken, and the stop is the last day or a day whose step cannot be taken. |
| Backtest.HodlAt | core/backtest.py:59-63 | Hold equity on a day whose own step can be taken, every earlier step being taken too, is positive, so `or 1.0` never replaces a value the replay reads. |
| Backtest.StrategyAt | core/backtest.py:65-67 | With every set weight in [0, 1], strategy equity is positive on the same days. |
| Backtest.HodlCurve | core/backtest.py:46-67 | The hold curve has one entry per day of the window and starts at 1. Its set entries are exactly the days up to the stop, a contiguous prefix, and None follows. |
| Backtest.StrategyCurve | core/backtest.py:46-67 | The same for the strategy curve. |
| Backtest.StepForward | core/backtest.py:53-67 | A step that can be taken satisfies the recurrences hold[i+1] = (hold[i] or 1)·p1/p0 and strategy[i+1] = (strategy[i] or 1)·(wᵢ·p1/p0 + (1 − wᵢ)), and it does not move the stop. |
| Backtest.EquityDay | core/backtest.py:59-67 | One pass of the loop body: hold equity is the previous one (or 1) times p1/p0, and strategy equity is the previous one (or 1) times w·p1/p0 + (1 − w). |
| Backtest.ReplayEquity | core/backtest.py:46-67 | The in-place replay loop with its early break fills exactly the hold and strategy curves. |
| Backtest.RunBacktest | core/backtest.py:14-93 | The result carries the following: (1) the dates and weights of the window, the weights being the series' weights from the start; (2) the two equity curves of the replay; (3) returns equal to the last entry less 1 (0 if unset); (4) maximum drawdowns of the set entries only; (5) the series' last trade. |
| Backtest.FinalReturn | core/backtest.py:70-74 | The return is the last entry less 1, or 0 when the last entry is unset. |
| Backtest.WindowWeightsPresent | core/backtest.py:41-57 | Within the window every day has a weight, in [0, 1] for a well-formed start weight, so the replay never stops for want of one. |
| Backtest.HodlIsPriceRatio | core/backtest.py:59-63 | Hold equity telescopes to the day's price over the first day's. |
| Backtest.FullyInvestedIsHodl | core/backtest.py:62-67 | With every weight 1, the strategy equity equals the hold equity day by day. |
| Backtest.FullyInvestedCurves | core/backtest.py:46-67 | With every weight 1, the two curves are the same list. |
| Backtest.AllCashIsFlat | core/backtest.py:65-67 | With every weight 0, the strategy equity stays at 1. |
| Backtest.StoppedEarlyReturnsZero | core/backtest.py:70-74 | A replay that stopped before the last day reports return 0 for both curves. |
| Backtest.Present | core/backtest.py:77-78 | The entries kept are all finite and no more than the curve's. A value is kept iff the curve holds it as a set entry. |
| Backtest.DrawdownsNonPositive | core/backtest.py:77-81 | Both reported maximum drawdowns are ≤ 0. |
| Backtest.NextTriggers | core/backtest.py:96-170 | Below the sell start, the next sell ratio is the sell start. In the sell regime it is one point higher, capped at 100. In both cases its price is `price_for_ratio_pct` of that ratio. A buy ratio exists iff the mode is "wait", and it is then the buy threshold. Its price is `price_for_ratio_pct` of the threshold, which is None on an invalid channel. Any other mode has no buy price. The gradual texts appear iff the mode is "gradual". |
| Backtest.WaitTriggersOrdered | core/backtest.py:129-164 | Under wait re-entry in a valid channel, a buy threshold below the next sell ratio projects to a strictly lower price. |

## Left out

- Floating point: floats are exact `real`s.
  - NaN and ±inf are collapsed into one non-finite value, since the source only ever asks `np.isfinite`.
  - Rounding, and the 1e-12 tolerance's interaction with it, are not modelled.
- Utils.MeanStd: returns the sample variance rather than its square root, as there is no square root over
  `real` here. `max(variance, 0)` is the identity on it, by `Utils.SampleVariance`.
- Utils.MaxDrawdown: the input list is of `Num`. The source's `None` entries are modelled as non-finite,
  which the loop skips the same way.
- Backtest.NextTriggers:
  - The texts are modelled as constructors carrying the number they show. Python's `.1f` formatting is
    not modelled.
  - A non-finite current ratio is taken as finite.
- Backtest.RunBacktest:
  - It requires `start < len(dates)`, `len(ratios) == len(dates)` and `len(prices) >= len(dates)`. The
    source raises IndexError (or reads past the window) otherwise.
  - It does not model a negative `start_idx`, since the start is a `nat`.
- Strategy.ComputeWeightSeries: requires `len(dates) >= len(ratios)`. The source raises IndexError only
  when a trade falls on a day with no date.
- The source's unreachable branches are not modelled as reachable paths:
  - `width <= 0` in `sell_weight`: the ratio is then both above the sell start and below 100.
  - `wi is None` inside the backtest window: every day from the start has a weight, by
    `Backtest.WindowWeightsPresent`.

  Both branches are kept in the code with their source values.
- Not part of this model: channel fitting, HTTP and file I/O (core/data_store.py), the price WebSocket
  feed (core/price_feed.py), the Flask endpoint (api_server.py), the Streamlit/Plotly pages and components,
  and `format_number`/`format_usd`/`format_pct`. These are I/O, concurrency, or rendering over libraries
  outside the core.
- The ±1σ band clamp of the UI is not modelled. It is a rendering detail built from `mean_std` and
  `clamp`, which are modelled.
