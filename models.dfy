/** The records of core/models.py: channel data with its `last_*` accessors, the strategy
    parameters with their defaults, a strategy step, a trade and a backtest result. */
module Models {
  import opened Floats

  /** A list lookup that may raise Python's IndexError. */
  datatype Fallible<T> = Ok(value: T) | IndexError

  /** Python's `xs[i]` for an integer index: a negative index counts from the end, and an
      index outside -len..len-1 raises IndexError. */
  function PyIndex<T>(xs: seq<T>, i: int): (r: Fallible<T>)
    ensures r.Ok? <==> -|xs| <= i < |xs|
    ensures 0 <= i < |xs| ==> r == Ok(xs[i])
  {
    if 0 <= i < |xs| then Ok(xs[i])
    else if -|xs| <= i < 0 then Ok(xs[|xs| + i])
    else IndexError
  }

  datatype ChannelMeta = ChannelMeta(start: string, end: string, updatedUtc: string)

  /** Historical series, one entry per day; a float may be NaN or infinite. */
  datatype ChannelSeries = ChannelSeries(
    date: seq<string>, price: seq<Num>, fair: seq<Num>, log10R: seq<Num>, ratio: seq<Num>)

  /** Channel lines, which extend past the last observed day. */
  datatype ExtendedChannelData = ExtendedChannelData(
    date: seq<string>, fair: seq<Num>, peakLinePrice: seq<Num>, troughLinePrice: seq<Num>,
    peakLineLog10: seq<Num>, troughLineLog10: seq<Num>)

  datatype ChannelData = ChannelData(
    meta: ChannelMeta, series: ChannelSeries, extended: ExtendedChannelData)

  /** `last_close`: the last price, or 0.0 for an empty series. */
  function LastClose(c: ChannelData): (r: Num)
    ensures c.series.price == [] ==> r == Finite(0.0)
    ensures c.series.price != [] ==> Ok(r) == PyIndex(c.series.price, -1)
  {
    if c.series.price != [] then c.series.price[|c.series.price| - 1] else Finite(0.0)
  }

  /** `last_ratio`: the last ratio, or 0.0 for an empty series. */
  function LastRatio(c: ChannelData): (r: Num)
    ensures c.series.ratio == [] ==> r == Finite(0.0)
    ensures c.series.ratio != [] ==> Ok(r) == PyIndex(c.series.ratio, -1)
  {
    if c.series.ratio != [] then c.series.ratio[|c.series.ratio| - 1] else Finite(0.0)
  }

  /** `last_date`: the last date, or "" for an empty series. */
  function LastDate(c: ChannelData): (r: string)
    ensures c.series.date == [] ==> r == ""
    ensures c.series.date != [] ==> Ok(r) == PyIndex(c.series.date, -1)
  {
    if c.series.date != [] then c.series.date[|c.series.date| - 1] else ""
  }

  /** The line value on the last observed day: index len(price) - 1 into the line when that
      index is below the line's length, 0.0 otherwise.  An empty price series gives index -1,
      which Python reads as the line's last entry, and raises IndexError if the line is empty
      too.  Shared by `last_trough` and `last_peak`. */
  function LineAtLastDay(price: seq<Num>, line: seq<Num>): (r: Fallible<Num>)
    ensures r.IndexError? <==> price == [] && line == []
    ensures 0 < |price| <= |line| ==> r == Ok(line[|price| - 1])
    ensures |price| > |line| ==> r == Ok(Finite(0.0))
    ensures price == [] && line != [] ==> r == Ok(line[|line| - 1])
  {
    var idx := |price| - 1;
    if idx < |line| then PyIndex(line, idx) else Ok(Finite(0.0))
  }

  /** `last_trough`. */
  function LastTrough(c: ChannelData): (r: Fallible<Num>)
    ensures r.IndexError? <==> c.series.price == [] && c.extended.troughLinePrice == []
    ensures 0 < |c.series.price| <= |c.extended.troughLinePrice| ==>
              r == Ok(c.extended.troughLinePrice[|c.series.price| - 1])
    ensures |c.series.price| > |c.extended.troughLinePrice| ==> r == Ok(Finite(0.0))
    ensures c.series.price == [] && c.extended.troughLinePrice != [] ==>
              r == Ok(c.extended.troughLinePrice[|c.extended.troughLinePrice| - 1])
  {
    LineAtLastDay(c.series.price, c.extended.troughLinePrice)
  }

  /** `last_peak`. */
  function LastPeak(c: ChannelData): (r: Fallible<Num>)
    ensures r.IndexError? <==> c.series.price == [] && c.extended.peakLinePrice == []
    ensures 0 < |c.series.price| <= |c.extended.peakLinePrice| ==>
              r == Ok(c.extended.peakLinePrice[|c.series.price| - 1])
    ensures |c.series.price| > |c.extended.peakLinePrice| ==> r == Ok(Finite(0.0))
    ensures c.series.price == [] && c.extended.peakLinePrice != [] ==>
              r == Ok(c.extended.peakLinePrice[|c.extended.peakLinePrice| - 1])
  {
    LineAtLastDay(c.series.price, c.extended.peakLinePrice)
  }

  /** The sell ladders: g0 is soft (1 - x^2), g2 aggressive ((1 - x)^2), g1 linear (1 - x). */
  datatype Ladder = Soft | Linear | Aggressive

  /** How core/strategy.py reads a ladder name: any name other than g0 and g2 is linear. */
  function LadderOf(name: string): (l: Ladder)
    ensures l == Soft <==> name == "g0"
    ensures l == Aggressive <==> name == "g2"
    ensures l == Linear <==> name != "g0" && name != "g2"
  {
    if name == "g0" then Soft else if name == "g2" then Aggressive else Linear
  }

  /** Re-entry below the sell start: all at once, only below the buy threshold, or eased. */
  datatype Reentry = Instant | Wait | Gradual

  /** How core/strategy.py reads a re-entry mode: any mode other than instant and wait is
      gradual. */
  function ReentryOf(mode: string): (m: Reentry)
    ensures m == Instant <==> mode == "instant"
    ensures m == Wait <==> mode == "wait"
    ensures m == Gradual <==> mode != "instant" && mode != "wait"
  {
    if mode == "instant" then Instant else if mode == "wait" then Wait else Gradual
  }

  /** Strategy configuration.  The ladder and re-entry mode stay the strings the user
      picked; core/strategy.py interprets them, with fallbacks for unknown names. */
  datatype StrategyParams = StrategyParams(
    ladder: string, sellStart: real, buyThreshold: real, reentryMode: string,
    startWeight: real, startDate: string)

  /** A configuration whose starting weight is a fraction of the portfolio.  Nothing in the
      source checks this; it is the hypothesis of the range lemmas. */
  predicate WellFormed(p: StrategyParams)
  {
    0.0 <= p.startWeight <= 1.0
  }

  /** `StrategyParams()` with every field defaulted: the linear ladder from a sell start of
      46%, re-entry below 14%, fully invested from 2018-01-01. */
  function DefaultParams(): (p: StrategyParams)
    ensures WellFormed(p)
    ensures 0.0 < p.buyThreshold < p.sellStart < 100.0
    ensures LadderOf(p.ladder) == Linear && ReentryOf(p.reentryMode) == Instant
  {
    StrategyParams("g1", 46.0, 14.0, "instant", 1.0, "2018-01-01")
  }

  /** The three outcomes of a step, with the action text and tag the source attaches. */
  datatype Action = Hold | Buy | Sell
  {
    function Label(): string
    {
      match this
      case Hold => "HOLD"
      case Buy => "BUY / REBALANCE UP"
      case Sell => "SELL / REBALANCE DOWN"
    }

    function Tag(): string
    {
      match this
      case Hold => "hold"
      case Buy => "buy"
      case Sell => "sell"
    }
  }

  datatype StrategyStep = StrategyStep(weight: real, action: Action)

  /** The `last_trade` record of a weight series. */
  datatype Trade = Trade(date: string, action: Action, ratio: Num, weight: real)

  /** A backtest outcome.  An equity entry is None past the day the replay stopped. */
  datatype BacktestResult = BacktestResult(
    dates: seq<string>, weights: seq<Option<real>>,
    strategyEquity: seq<Option<real>>, hodlEquity: seq<Option<real>>,
    strategyReturn: real, hodlReturn: real,
    strategyMaxDrawdown: real, hodlMaxDrawdown: real,
    lastTrade: Option<Trade>)

  /** `performance_delta`: positive exactly when the strategy beat holding, and adding it to
      the holding return gives the strategy return. */
  function PerformanceDelta(r: BacktestResult): (d: real)
    ensures d > 0.0 <==> r.strategyReturn > r.hodlReturn
    ensures d == 0.0 <==> r.strategyReturn == r.hodlReturn
    ensures r.hodlReturn + d == r.strategyReturn
  {
    r.strategyReturn - r.hodlReturn
  }
}
