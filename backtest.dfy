/** The backtest of core/backtest.py: the replay of the weight series against prices into a
    buy-and-hold equity curve and a strategy equity curve, their returns and drawdowns, and
    the projection of the next sell and buy triggers to prices. */
module Backtest {
  import opened Floats
  import opened Utils
  import opened Models
  import opened Strategy

  // ---------------------------------------------------------------------------------------
  // The equity replay, as functions of the window
  // ---------------------------------------------------------------------------------------

  /** Python's `x or 1.0` on an equity entry: None and 0.0 are falsy. */
  function OrOne(x: Option<real>): (r: real)
    ensures x.Some? && x.value != 0.0 ==> r == x.value
    ensures x.None? || x.value == 0.0 ==> r == 1.0
  {
    if x.Some? && x.value != 0.0 then x.value else 1.0
  }

  /** Whether the replay can take step i (from day i to day i + 1 of the window): both prices
      finite, the first one positive, and a weight decided for day i. */
  predicate StepOk(prices: seq<Num>, weights: seq<Option<real>>, i: nat)
    requires i + 1 < |prices| && i < |weights|
  {
    prices[i].Finite? && prices[i + 1].Finite? && prices[i].value > 0.0 && weights[i].Some?
  }

  /** Steps 0 .. k - 1 can all be taken. */
  predicate OkUpTo(prices: seq<Num>, weights: seq<Option<real>>, k: nat)
    requires k < |prices| && k <= |weights|
  {
    forall i :: 0 <= i < k ==> StepOk(prices, weights, i)
  }

  /** The day the replay of an n-day window stops on, looking from day i: the first day whose
      step cannot be taken, or the last day. */
  function StopFrom(prices: seq<Num>, weights: seq<Option<real>>, n: nat, i: nat): (c: nat)
    requires n <= |prices| && n <= |weights| && i < n && OkUpTo(prices, weights, i)
    ensures i <= c < n && OkUpTo(prices, weights, c)
    ensures c < n - 1 ==> !StepOk(prices, weights, c)
    decreases n - i
  {
    if i == n - 1 || !StepOk(prices, weights, i) then i
    else StopFrom(prices, weights, n, i + 1)
  }

  /** The day the replay stops on: every step before it is taken, and either it is the last
      day or its own step cannot be taken. */
  function Stop(prices: seq<Num>, weights: seq<Option<real>>, n: nat): (c: nat)
    requires 0 < n <= |prices| && n <= |weights|
    ensures c < n && OkUpTo(prices, weights, c)
    ensures c < n - 1 ==> !StepOk(prices, weights, c)
  {
    StopFrom(prices, weights, n, 0)
  }

  /** The price ratio of step i. */
  function BtcReturn(prices: seq<Num>, i: nat): real
    requires i + 1 < |prices| && prices[i].Finite? && prices[i + 1].Finite? && prices[i].value > 0.0
  {
    prices[i + 1].value / prices[i].value
  }

  /** The return of a portfolio holding a fraction w in bitcoin and the rest in cash. */
  function PortfolioReturn(w: real, btcReturn: real): real
  {
    w * btcReturn + (1.0 - w) * 1.0
  }

  /** Buy-and-hold equity on day k: 1 on day 0, then multiplied by each day's price ratio.
      Past a step that cannot be taken the value is carried over; the curves use it only up
      to the stop.  On a day whose own step can be taken it is positive, so Python's
      `or 1.0` never replaces a value the replay reads. */
  function HodlAt(prices: seq<Num>, weights: seq<Option<real>>, k: nat): (h: real)
    requires k < |prices| && k <= |weights|
    ensures k + 1 < |prices| && k < |weights| && OkUpTo(prices, weights, k + 1) ==> 0.0 < h
  {
    if k == 0 then 1.0
    else if !StepOk(prices, weights, k - 1) then HodlAt(prices, weights, k - 1)
    else
      var prev := HodlAt(prices, weights, k - 1);
      var ret := BtcReturn(prices, k - 1);
      GrowthPositive(prices, weights, k, prev, ret);
      Times(OrOne(Some(prev)), ret)
  }

  /** A positive equity grown by a positive return stays positive: the step from day k - 1
      to day k when the step after it can be taken too. */
  lemma GrowthPositive(prices: seq<Num>, weights: seq<Option<real>>, k: nat, prev: real, ret: real)
    requires 0 < k < |prices| && k <= |weights| && StepOk(prices, weights, k - 1)
    requires ret == BtcReturn(prices, k - 1)
    requires OkUpTo(prices, weights, k) ==> 0.0 < prev
    ensures k + 1 < |prices| && k < |weights| && OkUpTo(prices, weights, k + 1) ==>
              0.0 < Times(OrOne(Some(prev)), ret)
  {
    if k + 1 < |prices| && k < |weights| && OkUpTo(prices, weights, k + 1) {
      assert OkUpTo(prices, weights, k);
      assert StepOk(prices, weights, k);
      DivPos(prices[k].value, prices[k - 1].value);
      MulPositive(prev, ret);
    }
  }

  /** Strategy equity on day k: 1 on day 0, then a fraction w of it follows the price and the
      rest stays in cash, w being the weight decided for the previous day.  With fractional
      weights it is positive on every day whose own step can be taken. */
  function StrategyAt(prices: seq<Num>, weights: seq<Option<real>>, k: nat): (s: real)
    requires k < |prices| && k <= |weights|
    ensures k + 1 < |prices| && k < |weights| && OkUpTo(prices, weights, k + 1) && Fractional(weights) ==>
              0.0 < s
  {
    if k == 0 then 1.0
    else if !StepOk(prices, weights, k - 1) then StrategyAt(prices, weights, k - 1)
    else
      var prev := StrategyAt(prices, weights, k - 1);
      var ret := PortfolioReturn(weights[k - 1].value, BtcReturn(prices, k - 1));
      PortfolioGrowthPositive(prices, weights, k, prev, ret);
      Times(OrOne(Some(prev)), ret)
  }

  /** Every weight that is set is a fraction of the portfolio. */
  predicate Fractional(weights: seq<Option<real>>)
  {
    forall j :: 0 <= j < |weights| && weights[j].Some? ==> 0.0 <= weights[j].value <= 1.0
  }

  /** The strategy's step from day k - 1 to day k keeps a positive equity positive when the
      weight is a fraction and the step after it can be taken too. */
  lemma PortfolioGrowthPositive(prices: seq<Num>, weights: seq<Option<real>>, k: nat, prev: real, ret: real)
    requires 0 < k < |prices| && k <= |weights| && StepOk(prices, weights, k - 1)
    requires ret == PortfolioReturn(weights[k - 1].value, BtcReturn(prices, k - 1))
    requires OkUpTo(prices, weights, k) && Fractional(weights) ==> 0.0 < prev
    ensures k + 1 < |prices| && k < |weights| && OkUpTo(prices, weights, k + 1) && Fractional(weights) ==>
              0.0 < Times(OrOne(Some(prev)), ret)
  {
    if k + 1 < |prices| && k < |weights| && OkUpTo(prices, weights, k + 1) && Fractional(weights) {
      assert OkUpTo(prices, weights, k);
      assert StepOk(prices, weights, k);
      DivPos(prices[k].value, prices[k - 1].value);
      PortfolioReturnPositive(weights[k - 1].value, BtcReturn(prices, k - 1));
      MulPositive(prev, ret);
    }
  }

  /** The hold curve as the replay has filled it after i steps: set on days 0 .. i, None after. */
  function HodlUpTo(prices: seq<Num>, weights: seq<Option<real>>, n: nat, i: nat): (curve: seq<Option<real>>)
    requires i < n <= |prices| && n <= |weights|
    ensures |curve| == n && curve[0] == Some(1.0)
    ensures forall j :: 0 <= j < n ==> (curve[j].Some? <==> j <= i)
  {
    seq(n, j requires 0 <= j < n => if j <= i then Some(HodlAt(prices, weights, j)) else None)
  }

  /** The strategy curve as the replay has filled it after i steps. */
  function StrategyUpTo(prices: seq<Num>, weights: seq<Option<real>>, n: nat, i: nat): (curve: seq<Option<real>>)
    requires i < n <= |prices| && n <= |weights|
    ensures |curve| == n && curve[0] == Some(1.0)
    ensures forall j :: 0 <= j < n ==> (curve[j].Some? <==> j <= i)
  {
    seq(n, j requires 0 <= j < n => if j <= i then Some(StrategyAt(prices, weights, j)) else None)
  }

  /** The hold curve of an n-day window: one entry per day, starting at 1, set exactly on the
      days up to the stop. */
  function HodlCurve(prices: seq<Num>, weights: seq<Option<real>>, n: nat): (curve: seq<Option<real>>)
    requires 0 < n <= |prices| && n <= |weights|
    ensures |curve| == n && curve[0] == Some(1.0)
    ensures forall j :: 0 <= j < n ==> (curve[j].Some? <==> j <= Stop(prices, weights, n))
  {
    HodlUpTo(prices, weights, n, Stop(prices, weights, n))
  }

  /** The strategy curve of an n-day window. */
  function StrategyCurve(prices: seq<Num>, weights: seq<Option<real>>, n: nat): (curve: seq<Option<real>>)
    requires 0 < n <= |prices| && n <= |weights|
    ensures |curve| == n && curve[0] == Some(1.0)
    ensures forall j :: 0 <= j < n ==> (curve[j].Some? <==> j <= Stop(prices, weights, n))
  {
    StrategyUpTo(prices, weights, n, Stop(prices, weights, n))
  }

  /** The total return reported for a curve: its last entry less 1, where an unset last entry
      (a replay that stopped early) counts as 1. */
  function FinalReturn(curve: seq<Option<real>>): (r: real)
    requires |curve| > 0
    ensures curve[|curve| - 1].None? ==> r == 0.0
    ensures curve[|curve| - 1].Some? ==> r + 1.0 == curve[|curve| - 1].value
  {
    var last := curve[|curve| - 1];
    (if last.Some? then last.value else 1.0) - 1.0
  }

  /** `[v for v in curve if v is not None]`, as the input of `max_drawdown`. */
  function Present(curve: seq<Option<real>>): (vs: seq<Num>)
    ensures |vs| <= |curve|
    ensures forall i :: 0 <= i < |vs| ==> vs[i].Finite?
    ensures forall v :: Finite(v) in vs <==> Some(v) in curve
  {
    if curve == [] then []
    else
      var init := Present(curve[..|curve| - 1]);
      match curve[|curve| - 1]
      case None => init
      case Some(v) => init + [Finite(v)]
  }

  // ---------------------------------------------------------------------------------------
  // run_backtest
  // ---------------------------------------------------------------------------------------

  /** Taking step i moves the replay one day on without changing where it stops, and the
      next equities are the ones the loop body computes. */
  lemma StepForward(prices: seq<Num>, weights: seq<Option<real>>, n: nat, i: nat)
    requires n <= |prices| && n <= |weights| && i + 1 < n
    requires OkUpTo(prices, weights, i) && StepOk(prices, weights, i)
    ensures OkUpTo(prices, weights, i + 1)
    ensures StopFrom(prices, weights, n, i + 1) == StopFrom(prices, weights, n, i)
    ensures HodlAt(prices, weights, i + 1)
            == Times(OrOne(Some(HodlAt(prices, weights, i))), prices[i + 1].value / prices[i].value)
    ensures StrategyAt(prices, weights, i + 1)
            == Times(OrOne(Some(StrategyAt(prices, weights, i))),
                     PortfolioReturn(weights[i].value, prices[i + 1].value / prices[i].value))
  {
  }

  /** Filling day i + 1 extends the filled prefix of each curve by one day. */
  lemma FillNext(prices: seq<Num>, weights: seq<Option<real>>, n: nat, i: nat)
    requires i + 1 < n <= |prices| && n <= |weights|
    ensures HodlUpTo(prices, weights, n, i)[i + 1 := Some(HodlAt(prices, weights, i + 1))]
            == HodlUpTo(prices, weights, n, i + 1)
    ensures StrategyUpTo(prices, weights, n, i)[i + 1 := Some(StrategyAt(prices, weights, i + 1))]
            == StrategyUpTo(prices, weights, n, i + 1)
  {
  }

  /** Before the loop only day 0 is set. */
  lemma FillFirst(prices: seq<Num>, weights: seq<Option<real>>, n: nat)
    requires 0 < n <= |prices| && n <= |weights|
    ensures HodlUpTo(prices, weights, n, 0) == seq(n, j requires 0 <= j < n => if j == 0 then Some(1.0) else None)
    ensures StrategyUpTo(prices, weights, n, 0) == seq(n, j requires 0 <= j < n => if j == 0 then Some(1.0) else None)
  {
  }

  /** One day of the replay: both equities grow by their day's return, a missing or zero
      previous equity counting as 1. */
  method EquityDay(hodlPrev: Option<real>, stratPrev: Option<real>, p0: real, p1: real, wi: real)
    returns (h: real, s: real)
    requires p0 > 0.0
    ensures h == Times(OrOne(hodlPrev), p1 / p0)
    ensures s == Times(OrOne(stratPrev), PortfolioReturn(wi, p1 / p0))
  {
    var btcReturn := p1 / p0;
    h := OrOne(hodlPrev) * btcReturn;
    var portfolioReturn := wi * btcReturn + (1.0 - wi) * 1.0;
    s := OrOne(stratPrev) * portfolioReturn;
  }

  /** The replay loop of `run_backtest` over an n-day window: both curves start at 1 and are
      filled day by day until the first step that cannot be taken. */
  method ReplayEquity(prices: seq<Num>, weights: seq<Option<real>>, n: nat)
    returns (hodlEquity: seq<Option<real>>, strategyEquity: seq<Option<real>>)
    requires 0 < n <= |prices| && n <= |weights|
    ensures hodlEquity == HodlCurve(prices, weights, n)
    ensures strategyEquity == StrategyCurve(prices, weights, n)
  {
    var hodl := new Option<real>[n](_ => None);
    var strat := new Option<real>[n](_ => None);
    hodl[0] := Some(1.0);
    strat[0] := Some(1.0);
    FillFirst(prices, weights, n);
    assert hodl[..] == HodlUpTo(prices, weights, n, 0);
    assert strat[..] == StrategyUpTo(prices, weights, n, 0);
    ghost var c := Stop(prices, weights, n);
    var i := 0;
    while i < n - 1
      invariant 0 <= i < n && OkUpTo(prices, weights, i)
      invariant StopFrom(prices, weights, n, i) == c
      invariant hodl[..] == HodlUpTo(prices, weights, n, i)
      invariant strat[..] == StrategyUpTo(prices, weights, n, i)
    {
      var p0, p1 := prices[i], prices[i + 1];
      var wi := weights[i];
      if !p0.Finite? || !p1.Finite? || p0.value <= 0.0 || wi.None? {
        break;
      }
      StepForward(prices, weights, n, i);
      FillNext(prices, weights, n, i);
      assert hodl[i] == Some(HodlAt(prices, weights, i)) && strat[i] == Some(StrategyAt(prices, weights, i));
      var h, s := EquityDay(hodl[i], strat[i], p0.value, p1.value, wi.value);
      ghost var hs, ss := hodl[..], strat[..];
      hodl[i + 1] := Some(h);
      assert hodl[..] == hs[i + 1 := Some(h)];
      strat[i + 1] := Some(s);
      assert strat[..] == ss[i + 1 := Some(s)];
      i := i + 1;
    }
    hodlEquity, strategyEquity := hodl[..], strat[..];
  }

  /** `run_backtest`: replays the weight series of `ratios` from `start` over the prices from
      `start`, stopping at the first bad step; reports both curves, their returns, their
      maximum drawdowns over the days that were reached, and the last trade. */
  method RunBacktest(dates: seq<string>, prices: seq<Num>, ratios: seq<Num>, p: StrategyParams, start: nat)
    returns (r: BacktestResult)
    requires start < |dates| && |ratios| == |dates| && |dates| <= |prices|
    ensures r.dates == dates[start..]
    ensures |r.weights| == |dates| - start
    ensures forall i :: 0 <= i < |r.weights| ==>
              r.weights[i] == Some(WeightBefore(ratios, p, start, start + i + 1))
    ensures r.hodlEquity == HodlCurve(prices[start..], r.weights, |dates| - start)
    ensures r.strategyEquity == StrategyCurve(prices[start..], r.weights, |dates| - start)
    ensures r.hodlReturn == FinalReturn(r.hodlEquity)
    ensures r.strategyReturn == FinalReturn(r.strategyEquity)
    ensures IsMaxDrawdown(Present(r.hodlEquity), r.hodlMaxDrawdown)
    ensures IsMaxDrawdown(Present(r.strategyEquity), r.strategyMaxDrawdown)
    ensures r.lastTrade == LastTrade(ratios, dates, p, start, |ratios|)
  {
    var weights, lastTrade := ComputeWeightSeries(ratios, dates, p, start);
    var datesSlice := dates[start..];
    var pricesSlice := prices[start..];
    var weightsSlice := weights[start..];
    var n := |datesSlice|;
    var hodlEquity, strategyEquity := ReplayEquity(pricesSlice, weightsSlice, n);
    var hodlReturn := FinalReturn(hodlEquity);
    var strategyReturn := FinalReturn(strategyEquity);
    var hodlDd := MaxDrawdown(Present(hodlEquity));
    var strategyDd := MaxDrawdown(Present(strategyEquity));
    r := BacktestResult(datesSlice, weightsSlice, strategyEquity, hodlEquity, strategyReturn, hodlReturn,
                        strategyDd, hodlDd, lastTrade);
  }

  // ---------------------------------------------------------------------------------------
  // Properties of the replay
  // ---------------------------------------------------------------------------------------

  /** Within a window, the weight series of the replay always has a weight, so a replay never
      stops for want of one. */
  lemma WindowWeightsPresent(ratios: seq<Num>, p: StrategyParams, start: nat, weights: seq<Option<real>>, i: nat)
    requires start <= |ratios| && |weights| == |ratios| - start
    requires forall j :: 0 <= j < |weights| ==> weights[j] == Some(WeightBefore(ratios, p, start, start + j + 1))
    requires i < |weights|
    ensures weights[i].Some?
    ensures WellFormed(p) ==> 0.0 <= weights[i].value <= 1.0
  {
    if WellFormed(p) {
      WeightsInUnitInterval(ratios, p, start, start + i + 1);
    }
  }

  lemma DivChain(a: real, b: real, c: real)
    requires 0.0 < a && 0.0 < b
    ensures (b / a) * (c / b) == c / a
  {
    DivMul(b, a);
    DivMul(c, b);
    DivMul(c, a);
    assert ((b / a) * (c / b)) * a == (b / a * a) * (c / b);
    assert (b / a * a) * (c / b) == b * (c / b);
    ScaledEq((b / a) * (c / b), c / a, a);
  }

  /** Buy-and-hold equity telescopes: on every day the replay reached it is the day's price
      over the first day's. */
  lemma {:induction false} HodlIsPriceRatio(prices: seq<Num>, weights: seq<Option<real>>, k: nat)
    requires k < |prices| && k <= |weights| && OkUpTo(prices, weights, k)
    requires prices[k].Finite? && prices[0].Finite? && prices[0].value > 0.0
    ensures HodlAt(prices, weights, k) == prices[k].value / prices[0].value
  {
    if k == 0 {
      DivMul(prices[0].value, prices[0].value);
      ScaledEq(prices[0].value / prices[0].value, 1.0, prices[0].value);
    } else {
      assert StepOk(prices, weights, k - 1);
      assert OkUpTo(prices, weights, k - 1);
      HodlIsPriceRatio(prices, weights, k - 1);
      var h := HodlAt(prices, weights, k - 1);
      var a, b, c := prices[0].value, prices[k - 1].value, prices[k].value;
      assert 0.0 < b;
      DivPos(b, a);
      assert OrOne(Some(h)) == h;
      DivChain(a, b, c);
    }
  }

  lemma DivPos(b: real, a: real)
    requires 0.0 < a && 0.0 < b
    ensures 0.0 < b / a
  {
    DivMul(b, a);
  }

  /** Fully invested every day, the strategy is buy-and-hold. */
  lemma {:induction false} FullyInvestedIsHodl(prices: seq<Num>, weights: seq<Option<real>>, k: nat)
    requires k < |prices| && k <= |weights| && OkUpTo(prices, weights, k)
    requires forall j :: 0 <= j < k ==> weights[j] == Some(1.0)
    ensures StrategyAt(prices, weights, k) == HodlAt(prices, weights, k)
  {
    if k > 0 {
      FullyInvestedIsHodl(prices, weights, k - 1);
    }
  }

  /** Fully in cash every day, the strategy stays flat at 1. */
  lemma {:induction false} AllCashIsFlat(prices: seq<Num>, weights: seq<Option<real>>, k: nat)
    requires k < |prices| && k <= |weights| && OkUpTo(prices, weights, k)
    requires forall j :: 0 <= j < k ==> weights[j] == Some(0.0)
    ensures StrategyAt(prices, weights, k) == 1.0
  {
    if k > 0 {
      AllCashIsFlat(prices, weights, k - 1);
    }
  }

  /** Fully invested every day, both curves are the same list. */
  lemma FullyInvestedCurves(prices: seq<Num>, weights: seq<Option<real>>, n: nat)
    requires 0 < n <= |prices| && n <= |weights|
    requires forall j :: 0 <= j < n ==> weights[j] == Some(1.0)
    ensures StrategyCurve(prices, weights, n) == HodlCurve(prices, weights, n)
  {
    var c := Stop(prices, weights, n);
    forall j | 0 <= j <= c
      ensures StrategyAt(prices, weights, j) == HodlAt(prices, weights, j)
    {
      FullyInvestedIsHodl(prices, weights, j);
    }
  }

  lemma PortfolioReturnPositive(w: real, ret: real)
    requires 0.0 <= w <= 1.0 && 0.0 < ret
    ensures 0.0 < PortfolioReturn(w, ret)
  {
    if w == 1.0 {
      assert w * ret == ret;
    } else {
      assert 0.0 <= w * ret;
    }
  }

  lemma MulPositive(a: real, b: real)
    requires 0.0 < a && 0.0 < b
    ensures 0.0 < a * b
  {
  }

  /** A replay that stopped before the last day reports zero returns for both curves. */
  lemma StoppedEarlyReturnsZero(prices: seq<Num>, weights: seq<Option<real>>, n: nat)
    requires 0 < n <= |prices| && n <= |weights|
    requires Stop(prices, weights, n) < n - 1
    ensures FinalReturn(HodlCurve(prices, weights, n)) == 0.0
    ensures FinalReturn(StrategyCurve(prices, weights, n)) == 0.0
  {
  }

  /** Both reported drawdowns are at most 0. */
  lemma DrawdownsNonPositive(r: BacktestResult)
    requires IsMaxDrawdown(Present(r.hodlEquity), r.hodlMaxDrawdown)
    requires IsMaxDrawdown(Present(r.strategyEquity), r.strategyMaxDrawdown)
    ensures r.hodlMaxDrawdown <= 0.0 && r.strategyMaxDrawdown <= 0.0
  {
  }

  // ---------------------------------------------------------------------------------------
  // Next triggers
  // ---------------------------------------------------------------------------------------

  /** The sell text: "SELL begins @ Ratio x%" below the sell start, "DOWN: lower BTC % @ Ratio
      x%" in the sell regime. */
  datatype SellText = SellBegins(ratio: real) | LowerAt(ratio: real)

  /** The buy text, one constructor per message of the source, carrying the number shown. */
  datatype BuyText =
    | ReentryAt(threshold: real)          // wait, below the sell start
    | ReentryOnlyAt(threshold: real)      // wait, in the sell regime
    | UpAsRatioFalls                      // gradual, below the sell start
    | UpGradually(sellStart: real)        // gradual, in the sell regime
    | BuyBelowStart                       // any other mode, below the sell start
    | BuyInstantly(sellStart: real)       // any other mode, in the sell regime

  datatype Triggers = Triggers(
    nextSellRatio: real, nextSellPrice: Option<real>,
    nextBuyRatio: Option<real>, nextBuyPrice: Option<real>,
    sellText: SellText, buyText: BuyText)

  /** `get_next_triggers`: below the sell start the next sell is at the sell start; in the
      sell regime it is one point higher, capped at 100.  Each ratio comes with its price in
      the channel.  Only wait re-entry has a buy ratio, the buy threshold, whose price is None on
      an invalid channel. */
  function NextTriggers(currentRatio: real, sellStart: real, buyThreshold: real, reentryMode: string,
                        lastTrough: Num, lastPeak: Num): (t: Triggers)
    ensures currentRatio < sellStart ==> t.nextSellRatio == sellStart && t.sellText == SellBegins(sellStart)
    ensures currentRatio >= sellStart ==>
              t.nextSellRatio <= 100.0 && t.nextSellRatio <= currentRatio + 1.0 &&
              (t.nextSellRatio == currentRatio + 1.0 || t.nextSellRatio == 100.0) &&
              t.sellText == LowerAt(t.nextSellRatio)
    ensures t.nextSellPrice == PriceForRatio(t.nextSellRatio, lastTrough, lastPeak)
    ensures t.nextBuyRatio.Some? <==> reentryMode == "wait"
    ensures reentryMode == "wait" ==>
              t.nextBuyRatio == Some(buyThreshold) &&
              t.nextBuyPrice == PriceForRatio(buyThreshold, lastTrough, lastPeak)
    ensures reentryMode != "wait" ==> t.nextBuyPrice == None
    ensures t.buyText.UpAsRatioFalls? || t.buyText.UpGradually? <==> reentryMode == "gradual"
  {
    if currentRatio < sellStart then
      var sellPrice := PriceForRatio(sellStart, lastTrough, lastPeak);
      if reentryMode == "wait" then
        Triggers(sellStart, sellPrice, Some(buyThreshold), PriceForRatio(buyThreshold, lastTrough, lastPeak),
                 SellBegins(sellStart), ReentryAt(buyThreshold))
      else if reentryMode == "gradual" then
        Triggers(sellStart, sellPrice, None, None, SellBegins(sellStart), UpAsRatioFalls)
      else
        Triggers(sellStart, sellPrice, None, None, SellBegins(sellStart), BuyBelowStart)
    else
      var nextRatio := if 100.0 < currentRatio + 1.0 then 100.0 else currentRatio + 1.0;
      var sellPrice := PriceForRatio(nextRatio, lastTrough, lastPeak);
      if reentryMode == "wait" then
        Triggers(nextRatio, sellPrice, Some(buyThreshold), PriceForRatio(buyThreshold, lastTrough, lastPeak),
                 LowerAt(nextRatio), ReentryOnlyAt(buyThreshold))
      else if reentryMode == "gradual" then
        Triggers(nextRatio, sellPrice, None, None, LowerAt(nextRatio), UpGradually(sellStart))
      else
        Triggers(nextRatio, sellPrice, None, None, LowerAt(nextRatio), BuyInstantly(sellStart))
  }

  /** Under wait re-entry with a buy threshold below the next sell ratio and a valid channel,
      the buy price lies strictly below the sell price. */
  lemma WaitTriggersOrdered(currentRatio: real, sellStart: real, buyThreshold: real, trough: real, peak: real)
    requires trough < peak
    requires buyThreshold < NextTriggers(currentRatio, sellStart, buyThreshold, "wait", Finite(trough), Finite(peak)).nextSellRatio
    ensures var t := NextTriggers(currentRatio, sellStart, buyThreshold, "wait", Finite(trough), Finite(peak));
            t.nextBuyPrice.Some? && t.nextSellPrice.Some? && t.nextBuyPrice.value < t.nextSellPrice.value
  {
    var t := NextTriggers(currentRatio, sellStart, buyThreshold, "wait", Finite(trough), Finite(peak));
    PriceForRatioIncreasing(buyThreshold, t.nextSellRatio, trough, peak);
  }
}
