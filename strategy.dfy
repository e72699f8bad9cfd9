/** The rebalancing rules of core/strategy.py: the sell ladder, the sell-only hysteresis with
    its three re-entry rules, the classification of a step, the replay of a whole ratio series
    and the ladder hints. */
module Strategy {
  import opened Floats
  import opened Utils
  import opened Models

  /** The tolerance below which a weight change counts as none (1e-12). */
  const Eps: real := 0.000000000001

  /** The floor on the gradual easing's denominator (1e-9). */
  const MinDenom: real := 0.000000001

  // ---------------------------------------------------------------------------------------
  // The sell ladder
  // ---------------------------------------------------------------------------------------

  /** Multiplication, kept behind a function so that a square is a term of its own. */
  function Times(a: real, b: real): real
  {
    a * b
  }

  function Sq(x: real): real
  {
    Times(x, x)
  }

  /** The ladder's shape at position x of the sell range. */
  function Shape(ladder: Ladder, x: real): (w: real)
    ensures 0.0 <= w <= 1.0
    ensures x == 0.0 ==> w == 1.0
    ensures x >= 1.0 ==> w == 0.0
  {
    match ladder
    case Soft => Clamp(1.0 - Sq(x), 0.0, 1.0)
    case Linear => Clamp(1.0 - x, 0.0, 1.0)
    case Aggressive =>
      var base := Clamp(1.0 - x, 0.0, 1.0);
      SquareBelow(base);
      Sq(base)
  }

  lemma TimesPos(a: real, b: real)
    requires 0.0 < a && 0.0 < b
    ensures 0.0 < Times(a, b)
  {
  }

  lemma TimesLe(a: real, b: real, c: real)
    requires 0.0 <= a && b <= c
    ensures Times(a, b) <= Times(a, c)
  {
    assert a * c - a * b == a * (c - b);
  }

  lemma TimesComm(a: real, b: real)
    ensures Times(a, b) == Times(b, a)
  {
  }

  /** On [0, 1] the square lies below the value, and strictly inside it stays positive. */
  lemma SquareBelow(x: real)
    requires 0.0 <= x <= 1.0
    ensures 0.0 <= Sq(x) <= x
    ensures 0.0 < x ==> 0.0 < Sq(x)
  {
    TimesLe(x, x, 1.0);
    TimesLe(x, 0.0, x);
    assert Times(x, 1.0) == x && Times(x, 0.0) == 0.0;
    if 0.0 < x {
      TimesPos(x, x);
    }
  }

  /** Squaring keeps the order of non-negative values. */
  lemma SqMonotone(a: real, b: real)
    requires 0.0 <= a <= b
    ensures Sq(a) <= Sq(b)
  {
    TimesLe(a, a, b);
    TimesLe(b, a, b);
    TimesComm(a, b);
  }

  lemma ShapeRange(ladder: Ladder, x: real)
    requires 0.0 <= x <= 1.0
    ensures 0.0 <= Shape(ladder, x) <= 1.0
    ensures 0.0 < x < 1.0 ==> 0.0 < Shape(ladder, x) < 1.0
  {
    match ladder
    case Soft =>
      SquareBelow(x);
      assert Shape(ladder, x) == 1.0 - Sq(x);
    case Linear =>
    case Aggressive =>
      SquareBelow(1.0 - x);
      assert Shape(ladder, x) == Sq(1.0 - x);
  }

  /** Every ladder falls as x moves right across the sell range. */
  lemma ShapeNonIncreasing(ladder: Ladder, x1: real, x2: real)
    requires 0.0 <= x1 <= x2 <= 1.0
    ensures Shape(ladder, x2) <= Shape(ladder, x1)
  {
    match ladder
    case Soft =>
      SquareBelow(x1);
      SquareBelow(x2);
      SqMonotone(x1, x2);
      assert Shape(ladder, x1) == 1.0 - Sq(x1);
      assert Shape(ladder, x2) == 1.0 - Sq(x2);
    case Linear =>
    case Aggressive =>
      SqMonotone(1.0 - x2, 1.0 - x1);
      assert Shape(ladder, x1) == Sq(1.0 - x1);
      assert Shape(ladder, x2) == Sq(1.0 - x2);
  }

  lemma UnitFraction(a: real, b: real)
    requires 0.0 < a < b
    ensures 0.0 < a / b < 1.0
  {
    DivMul(a, b);
    if a / b >= 1.0 { TimesLe(b, 1.0, a / b); }
  }

  lemma DivMonotone(a1: real, a2: real, b: real)
    requires a1 <= a2 && 0.0 < b
    ensures a1 / b <= a2 / b
  {
    DivMul(a1, b);
    DivMul(a2, b);
  }

  /** `sell_weight`: the target weight the ladder gives at a ratio.  Full exposure at or below
      the sell start and for a non-finite ratio, none at or above 100, and strictly between
      the two inside the sell range. */
  function SellWeight(ratio: Num, sellStart: real, ladder: string): (w: real)
    ensures 0.0 <= w <= 1.0
    ensures ratio.NonFinite? ==> w == 1.0
    ensures ratio.Finite? && ratio.value <= sellStart ==> w == 1.0
    ensures ratio.Finite? && sellStart < ratio.value && 100.0 <= ratio.value ==> w == 0.0
    ensures ratio.Finite? && sellStart < ratio.value < 100.0 ==> 0.0 < w < 1.0
  {
    if ratio.NonFinite? then 1.0
    else if ratio.value <= sellStart then 1.0
    else if ratio.value >= 100.0 then 0.0
    else
      var width := 100.0 - sellStart;
      if width <= 0.0 then 0.0
      else
        UnitFraction(ratio.value - sellStart, width);
        var x := Clamp((ratio.value - sellStart) / width, 0.0, 1.0);
        ShapeRange(LadderOf(ladder), x);
        Shape(LadderOf(ladder), x)
  }

  /** For a fixed sell start and ladder, a higher ratio never asks for more exposure. */
  lemma SellWeightNonIncreasing(r1: real, r2: real, sellStart: real, ladder: string)
    requires r1 <= r2
    ensures SellWeight(Finite(r2), sellStart, ladder) <= SellWeight(Finite(r1), sellStart, ladder)
  {
    if sellStart < r1 && r2 < 100.0 {
      var width := 100.0 - sellStart;
      DivMonotone(r1 - sellStart, r2 - sellStart, width);
      UnitFraction(r1 - sellStart, width);
      UnitFraction(r2 - sellStart, width);
      ShapeNonIncreasing(LadderOf(ladder), (r1 - sellStart) / width, (r2 - sellStart) / width);
    }
  }

  /** Halfway through the sell range from 46 (ratio 73) the three ladders give 0.75, 0.5 and
      0.25; at ratio 90 the linear ladder gives 10/54. */
  lemma SellWeightExamples()
    ensures SellWeight(Finite(73.0), 46.0, "g0") == 0.75
    ensures SellWeight(Finite(73.0), 46.0, "g1") == 0.5
    ensures SellWeight(Finite(73.0), 46.0, "g2") == 0.25
    ensures SellWeight(Finite(90.0), 46.0, "g1") == 10.0 / 54.0
  {
    assert (73.0 - 46.0) / (100.0 - 46.0) == 0.5;
    assert (90.0 - 46.0) / (100.0 - 46.0) == 44.0 / 54.0;
  }

  // ---------------------------------------------------------------------------------------
  // One step: hysteresis and re-entry
  // ---------------------------------------------------------------------------------------

  /** The eased re-entry factor of the gradual mode: the squared fraction of the way from the
      sell start down to 0. */
  function Easing(ratio: real, sellStart: real): (e: real)
    ensures 0.0 <= e <= 1.0
  {
    var denom := if sellStart > MinDenom then sellStart else MinDenom;
    var f := Clamp((sellStart - ratio) / denom, 0.0, 1.0);
    SquareBelow(f);
    Sq(f)
  }

  /** Moving a fraction e of the way from prev up to 1 stays within [prev, 1]. */
  lemma EaseWithin(prev: real, e: real)
    requires 0.0 <= e <= 1.0
    ensures 0.0 <= prev <= 1.0 ==> prev <= prev + (1.0 - prev) * e <= 1.0
  {
    if 0.0 <= prev <= 1.0 {
      TimesLe(1.0 - prev, 0.0, e);
      TimesLe(1.0 - prev, e, 1.0);
    }
  }

  /** `target_weight`: the weight the rules ask for, given the weight held and today's ratio.
      A non-finite ratio keeps the weight.  In the sell regime the target is the smaller of
      the weight held and the ladder's, so it never rises.  Below the sell start, instant
      re-entry goes all in, wait goes all in only at or below the buy threshold and otherwise
      keeps the weight, and gradual moves up toward 1 without passing it. */
  function TargetWeight(prev: real, ratio: Num, p: StrategyParams): (t: real)
    ensures ratio.NonFinite? ==> t == prev
    ensures ratio.Finite? && ratio.value >= p.sellStart ==>
              t <= prev && t <= SellWeight(ratio, p.sellStart, p.ladder) &&
              (t == prev || t == SellWeight(ratio, p.sellStart, p.ladder))
    ensures ratio.Finite? && ratio.value < p.sellStart && ReentryOf(p.reentryMode) == Instant ==>
              t == 1.0
    ensures ratio.Finite? && ratio.value < p.sellStart && ReentryOf(p.reentryMode) == Wait ==>
              (ratio.value <= p.buyThreshold ==> t == 1.0) && (ratio.value > p.buyThreshold ==> t == prev)
    ensures ratio.Finite? && ratio.value < p.sellStart && ReentryOf(p.reentryMode) == Gradual ==>
              0.0 <= t <= 1.0 && (0.0 <= prev <= 1.0 ==> prev <= t)
    ensures 0.0 <= prev <= 1.0 ==> 0.0 <= t <= 1.0
  {
    if ratio.NonFinite? then prev
    else if ratio.value >= p.sellStart then
      var ladderWeight := SellWeight(ratio, p.sellStart, p.ladder);
      if prev < ladderWeight then prev else ladderWeight
    else
      match ReentryOf(p.reentryMode)
      case Instant => 1.0
      case Wait => if ratio.value <= p.buyThreshold then 1.0 else prev
      case Gradual =>
        var eased := Easing(ratio.value, p.sellStart);
        EaseWithin(prev, eased);
        Clamp(prev + (1.0 - prev) * eased, 0.0, 1.0)
  }

  /** Gradual re-entry reaches full exposure when the ratio falls to 0, as long as the sell
      start is at least the denominator floor. */
  lemma GradualFullAtZero(prev: real, p: StrategyParams)
    requires ReentryOf(p.reentryMode) == Gradual && p.sellStart >= MinDenom
    ensures TargetWeight(prev, Finite(0.0), p) == 1.0
  {
    DivMul(p.sellStart, p.sellStart);
    assert p.sellStart / p.sellStart == 1.0;
    assert Easing(0.0, p.sellStart) == 1.0;
  }

  /** The unit-test values: with the default thresholds and the linear ladder, instant
      re-entry at ratio 30 from 0.5 gives 1; wait re-entry at 30 keeps 0.5 and at 10 gives 1;
      at 73 from full exposure both give the ladder's 0.5; from 0.4 the weight stays at 0.4
      at ratio 70 (the ladder's 30/54 is higher) and drops below it at 90. */
  lemma TargetWeightExamples()
    ensures TargetWeight(0.5, Finite(30.0), DefaultParams()) == 1.0
    ensures TargetWeight(1.0, Finite(73.0), DefaultParams()) == 0.5
    ensures TargetWeight(0.5, Finite(30.0), DefaultParams().(reentryMode := "wait")) == 0.5
    ensures TargetWeight(0.5, Finite(10.0), DefaultParams().(reentryMode := "wait")) == 1.0
    ensures TargetWeight(1.0, Finite(73.0), DefaultParams().(reentryMode := "wait")) == 0.5
    ensures TargetWeight(0.4, Finite(70.0), DefaultParams()) == 0.4
    ensures TargetWeight(0.4, Finite(90.0), DefaultParams()) < 0.4
  {
    SellWeightExamples();
    assert (70.0 - 46.0) / (100.0 - 46.0) == 24.0 / 54.0;
  }

  /** `step_weight`: a change of at most Eps is a HOLD and keeps the weight held; otherwise
      the step moves to the target and is a BUY when the target is higher and a SELL when it
      is lower.  So the step trades exactly when its weight differs from the one held by more
      than Eps. */
  function StepWeight(prev: real, ratio: Num, p: StrategyParams): (s: StrategyStep)
    ensures s.action == Hold <==> Abs(TargetWeight(prev, ratio, p) - prev) <= Eps
    ensures s.action == Hold ==> s.weight == prev
    ensures s.action != Hold ==> s.weight == TargetWeight(prev, ratio, p)
    ensures s.action == Buy <==> TargetWeight(prev, ratio, p) > prev + Eps
    ensures s.action == Sell <==> TargetWeight(prev, ratio, p) < prev - Eps
    ensures s.action != Hold <==> Abs(s.weight - prev) > Eps
    ensures ratio.NonFinite? ==> s == StrategyStep(prev, Hold)
  {
    var target := TargetWeight(prev, ratio, p);
    var delta := target - prev;
    if Abs(delta) <= Eps then StrategyStep(prev, Hold)
    else if delta > 0.0 then StrategyStep(target, Buy)
    else StrategyStep(target, Sell)
  }

  // ---------------------------------------------------------------------------------------
  // The weight series
  // ---------------------------------------------------------------------------------------

  /** The weight held on entering day k of a replay that begins on day `start` with the start
      weight and applies one step per day. */
  function WeightBefore(ratios: seq<Num>, p: StrategyParams, start: nat, k: nat): real
    requires start <= k <= |ratios|
    decreases k
  {
    if k == start then p.startWeight
    else StepWeight(WeightBefore(ratios, p, start, k - 1), ratios[k - 1], p).weight
  }

  /** The step taken on day k of the replay. */
  function StepAt(ratios: seq<Num>, p: StrategyParams, start: nat, k: nat): StrategyStep
    requires start <= k < |ratios|
  {
    StepWeight(WeightBefore(ratios, p, start, k), ratios[k], p)
  }

  /** The last day before `i` on which the replay traded: None when every day from `start`
      held, otherwise a trading day after which every day up to `i` held. */
  function LastTradeDay(ratios: seq<Num>, p: StrategyParams, start: nat, i: nat): (d: Option<nat>)
    requires start <= i <= |ratios|
    ensures d.Some? ==> start <= d.value < i
    decreases i
  {
    if i == start then None
    else if StepAt(ratios, p, start, i - 1).action != Hold then Some(i - 1)
    else LastTradeDay(ratios, p, start, i - 1)
  }

  /** The last trading day is what its name says: None exactly when every day from `start`
      held, otherwise a day whose step traded and after which every day held. */
  lemma {:induction false} LastTradeDayIsLast(ratios: seq<Num>, p: StrategyParams, start: nat, i: nat)
    requires start <= i <= |ratios|
    ensures var d := LastTradeDay(ratios, p, start, i);
            (d.None? <==> forall k :: start <= k < i ==> StepAt(ratios, p, start, k).action == Hold) &&
            (d.Some? ==> StepAt(ratios, p, start, d.value).action != Hold &&
                         forall k :: d.value < k < i ==> StepAt(ratios, p, start, k).action == Hold)
    decreases i
  {
    if i > start && StepAt(ratios, p, start, i - 1).action == Hold {
      LastTradeDayIsLast(ratios, p, start, i - 1);
      var d := LastTradeDay(ratios, p, start, i - 1);
      assert LastTradeDay(ratios, p, start, i) == d;
      forall k | start <= k < i && (d.None? || d.value < k)
        ensures StepAt(ratios, p, start, k).action == Hold
      {
        if k < i - 1 {
          assert start <= k < i - 1 && (d.None? || d.value < k);
        }
      }
    }
  }

  /** The trade record of day k. */
  function TradeAt(ratios: seq<Num>, dates: seq<string>, p: StrategyParams, start: nat, k: nat): Trade
    requires start <= k < |ratios| <= |dates|
  {
    var step := StepAt(ratios, p, start, k);
    Trade(dates[k], step.action, ratios[k], step.weight)
  }

  /** The `last_trade` of a replay up to day i. */
  function LastTrade(ratios: seq<Num>, dates: seq<string>, p: StrategyParams, start: nat, i: nat): Option<Trade>
    requires start <= i <= |ratios| <= |dates|
  {
    match LastTradeDay(ratios, p, start, i)
    case None => None
    case Some(k) => Some(TradeAt(ratios, dates, p, start, k))
  }

  /** The weight list of `compute_weight_series` once days `start` .. i - 1 are filled. */
  function SeriesUpTo(ratios: seq<Num>, p: StrategyParams, start: nat, i: nat): (ws: seq<Option<real>>)
    requires start <= i <= |ratios|
    ensures |ws| == |ratios|
    ensures forall j :: 0 <= j < |ratios| ==> (ws[j].Some? <==> start <= j < i)
  {
    seq(|ratios|, j requires 0 <= j < |ratios| =>
      if start <= j < i then Some(WeightBefore(ratios, p, start, j + 1)) else None)
  }

  /** Before the first day of the replay no weight is set. */
  lemma SeriesFirst(ratios: seq<Num>, p: StrategyParams, start: nat)
    requires start <= |ratios|
    ensures SeriesUpTo(ratios, p, start, start) == seq(|ratios|, j requires 0 <= j < |ratios| => None)
  {
  }

  /** Filling day i extends the filled days by one. */
  lemma SeriesNext(ratios: seq<Num>, p: StrategyParams, start: nat, i: nat)
    requires start <= i < |ratios|
    ensures SeriesUpTo(ratios, p, start, i)[i := Some(WeightBefore(ratios, p, start, i + 1))]
            == SeriesUpTo(ratios, p, start, i + 1)
  {
  }

  /** Once every day is filled, the list holds each day's weight from `start` on and None before. */
  lemma SeriesComplete(ratios: seq<Num>, p: StrategyParams, start: nat)
    requires start <= |ratios|
    ensures forall i :: 0 <= i < |ratios| && i < start ==> SeriesUpTo(ratios, p, start, |ratios|)[i] == None
    ensures forall i :: start <= i < |ratios| ==>
              SeriesUpTo(ratios, p, start, |ratios|)[i] == Some(WeightBefore(ratios, p, start, i + 1))
  {
  }

  /** One more day of the replay: the last trade becomes that day's trade exactly when the
      day's step moves the weight by more than Eps. */
  lemma LastTradeNext(ratios: seq<Num>, dates: seq<string>, p: StrategyParams, start: nat, i: nat)
    requires start <= i < |ratios| <= |dates|
    ensures var step := StepAt(ratios, p, start, i);
            LastTrade(ratios, dates, p, start, i + 1)
            == if Abs(step.weight - WeightBefore(ratios, p, start, i)) > Eps
               then Some(Trade(dates[i], step.action, ratios[i], step.weight))
               else LastTrade(ratios, dates, p, start, i)
  {
  }

  /** One day of `compute_weight_series`: take the day's step and, if it moved the weight by
      more than Eps, record it as the last trade. */
  method ReplayDay(ratios: seq<Num>, dates: seq<string>, p: StrategyParams, start: nat, i: nat,
                   weight: real, lastTrade: Option<Trade>)
    returns (weight': real, lastTrade': Option<Trade>)
    requires start <= i < |ratios| <= |dates|
    requires weight == WeightBefore(ratios, p, start, i)
    requires lastTrade == LastTrade(ratios, dates, p, start, i)
    ensures weight' == WeightBefore(ratios, p, start, i + 1)
    ensures lastTrade' == LastTrade(ratios, dates, p, start, i + 1)
  {
    var ratio := ratios[i];
    var step := StepWeight(weight, ratio, p);
    assert step == StepAt(ratios, p, start, i);
    LastTradeNext(ratios, dates, p, start, i);
    var changed := Abs(step.weight - weight) > Eps;
    lastTrade' := lastTrade;
    if changed {
      lastTrade' := Some(Trade(dates[i], step.action, ratio, step.weight));
    }
    weight' := step.weight;
  }

  /** `compute_weight_series`: days before `start` get no weight; from `start` on, each day
      gets the weight after that day's step, and `lastTrade` records the last day whose step
      moved the weight by more than Eps. */
  method ComputeWeightSeries(ratios: seq<Num>, dates: seq<string>, p: StrategyParams, start: nat)
    returns (weights: seq<Option<real>>, lastTrade: Option<Trade>)
    requires |ratios| <= |dates|
    ensures |weights| == |ratios|
    ensures forall i :: 0 <= i < |ratios| && i < start ==> weights[i] == None
    ensures forall i :: start <= i < |ratios| ==> weights[i] == Some(WeightBefore(ratios, p, start, i + 1))
    ensures start <= |ratios| ==> lastTrade == LastTrade(ratios, dates, p, start, |ratios|)
    ensures start > |ratios| ==> lastTrade == None
  {
    var ws := new Option<real>[|ratios|](_ => None);
    var weight := p.startWeight;
    lastTrade := None;
    if start <= |ratios| {
      SeriesFirst(ratios, p, start);
      assert ws[..] == SeriesUpTo(ratios, p, start, start);
      for i := start to |ratios|
        invariant weight == WeightBefore(ratios, p, start, i)
        invariant ws[..] == SeriesUpTo(ratios, p, start, i)
        invariant lastTrade == LastTrade(ratios, dates, p, start, i)
      {
        SeriesNext(ratios, p, start, i);
        weight, lastTrade := ReplayDay(ratios, dates, p, start, i, weight, lastTrade);
        ghost var before := ws[..];
        ws[i] := Some(weight);
        assert ws[..] == before[i := Some(weight)];
      }
      SeriesComplete(ratios, p, start);
    }
    weights := ws[..];
  }

  // ---------------------------------------------------------------------------------------
  // Properties of the replay
  // ---------------------------------------------------------------------------------------

  /** Starting from a fraction of the portfolio, every weight of the replay is one. */
  lemma {:induction false} WeightsInUnitInterval(ratios: seq<Num>, p: StrategyParams, start: nat, k: nat)
    requires WellFormed(p) && start <= k <= |ratios|
    ensures 0.0 <= WeightBefore(ratios, p, start, k) <= 1.0
    decreases k
  {
    if k > start {
      WeightsInUnitInterval(ratios, p, start, k - 1);
    }
  }

  /** While the ratio stays in the sell regime (or is not finite) the weight never rises. */
  lemma {:induction false} SellRegimeNeverBuys(ratios: seq<Num>, p: StrategyParams, start: nat, a: nat, b: nat)
    requires start <= a <= b <= |ratios|
    requires forall k :: a <= k < b ==> ratios[k].NonFinite? || ratios[k].value >= p.sellStart
    ensures WeightBefore(ratios, p, start, b) <= WeightBefore(ratios, p, start, a)
    decreases b
  {
    if a < b {
      SellRegimeNeverBuys(ratios, p, start, a, b - 1);
      var w := WeightBefore(ratios, p, start, b - 1);
      var s := StepWeight(w, ratios[b - 1], p);
      assert TargetWeight(w, ratios[b - 1], p) <= w;
      assert s.weight <= w;
      assert WeightBefore(ratios, p, start, b) == s.weight;
    }
  }

  /** Under wait re-entry, while the ratio stays strictly between the buy threshold and the
      sell start (or is not finite) the weight is frozen. */
  lemma {:induction false} WaitFreezesBetweenThresholds(ratios: seq<Num>, p: StrategyParams, start: nat, a: nat, b: nat)
    requires ReentryOf(p.reentryMode) == Wait
    requires start <= a <= b <= |ratios|
    requires forall k :: a <= k < b ==>
               ratios[k].NonFinite? || p.buyThreshold < ratios[k].value < p.sellStart
    ensures WeightBefore(ratios, p, start, b) == WeightBefore(ratios, p, start, a)
    decreases b
  {
    if a < b {
      WaitFreezesBetweenThresholds(ratios, p, start, a, b - 1);
    }
  }

  /** Under gradual re-entry, while the ratio stays below the sell start (or is not finite)
      the weight never falls. */
  lemma {:induction false} GradualNeverSells(ratios: seq<Num>, p: StrategyParams, start: nat, a: nat, b: nat)
    requires ReentryOf(p.reentryMode) == Gradual && WellFormed(p)
    requires start <= a <= b <= |ratios|
    requires forall k :: a <= k < b ==> ratios[k].NonFinite? || ratios[k].value < p.sellStart
    ensures WeightBefore(ratios, p, start, a) <= WeightBefore(ratios, p, start, b)
    decreases b
  {
    if a < b {
      GradualNeverSells(ratios, p, start, a, b - 1);
      WeightsInUnitInterval(ratios, p, start, b - 1);
      var w := WeightBefore(ratios, p, start, b - 1);
      var s := StepWeight(w, ratios[b - 1], p);
      assert w <= TargetWeight(w, ratios[b - 1], p);
      assert w <= s.weight;
      assert WeightBefore(ratios, p, start, b) == s.weight;
    }
  }

  /** Under instant re-entry, a day below the sell start ends within Eps of full exposure
      (a step of at most Eps is a hold and keeps the old weight). */
  lemma InstantReentryGoesAllIn(ratios: seq<Num>, p: StrategyParams, start: nat, k: nat)
    requires ReentryOf(p.reentryMode) == Instant
    requires start <= k < |ratios| && ratios[k].Finite? && ratios[k].value < p.sellStart
    ensures Abs(WeightBefore(ratios, p, start, k + 1) - 1.0) <= Eps
  {
  }

  /** Ratios 30, 40, 46, 60, 80, 46, 30 under the defaults (linear ladder from 46, instant
      re-entry, full start).  Ratio 46 is in the sell regime, so the weight only falls through
      day 5 and returns to 1 on day 6, which is the last trade: a buy. */
  lemma InstantScenario()
    ensures var r := [Finite(30.0), Finite(40.0), Finite(46.0), Finite(60.0), Finite(80.0), Finite(46.0), Finite(30.0)];
            var p := DefaultParams();
            WeightBefore(r, p, 0, 1) == 1.0 && WeightBefore(r, p, 0, 2) == 1.0 &&
            WeightBefore(r, p, 0, 3) == 1.0 && WeightBefore(r, p, 0, 4) == 40.0 / 54.0 &&
            WeightBefore(r, p, 0, 5) == 20.0 / 54.0 && WeightBefore(r, p, 0, 6) == 20.0 / 54.0 &&
            WeightBefore(r, p, 0, 7) == 1.0 &&
            LastTradeDay(r, p, 0, 7) == Some(6) && StepAt(r, p, 0, 6).action == Buy
  {
    var r := [Finite(30.0), Finite(40.0), Finite(46.0), Finite(60.0), Finite(80.0), Finite(46.0), Finite(30.0)];
    var p := DefaultParams();
    assert WeightBefore(r, p, 0, 3) == 1.0;
    assert (60.0 - 46.0) / (100.0 - 46.0) == 14.0 / 54.0;
    assert WeightBefore(r, p, 0, 4) == 40.0 / 54.0;
    assert (80.0 - 46.0) / (100.0 - 46.0) == 34.0 / 54.0;
    assert WeightBefore(r, p, 0, 5) == 20.0 / 54.0;
    assert WeightBefore(r, p, 0, 6) == 20.0 / 54.0;
  }

  /** The same ratios under wait re-entry with buy threshold 20: the ratio never falls to 20,
      so the weight stays at 20/54 after day 4, the last trade (a sell). */
  lemma WaitScenario()
    ensures var r := [Finite(30.0), Finite(40.0), Finite(46.0), Finite(60.0), Finite(80.0), Finite(46.0), Finite(30.0)];
            var p := DefaultParams().(reentryMode := "wait", buyThreshold := 20.0);
            WeightBefore(r, p, 0, 5) == 20.0 / 54.0 && WeightBefore(r, p, 0, 6) == 20.0 / 54.0 &&
            WeightBefore(r, p, 0, 7) == 20.0 / 54.0 &&
            LastTradeDay(r, p, 0, 7) == Some(4) && StepAt(r, p, 0, 4).action == Sell
  {
    var r := [Finite(30.0), Finite(40.0), Finite(46.0), Finite(60.0), Finite(80.0), Finite(46.0), Finite(30.0)];
    var p := DefaultParams().(reentryMode := "wait", buyThreshold := 20.0);
    assert WeightBefore(r, p, 0, 3) == 1.0;
    assert (60.0 - 46.0) / (100.0 - 46.0) == 14.0 / 54.0;
    assert WeightBefore(r, p, 0, 4) == 40.0 / 54.0;
    assert (80.0 - 46.0) / (100.0 - 46.0) == 34.0 / 54.0;
    assert WeightBefore(r, p, 0, 5) == 20.0 / 54.0;
    assert WeightBefore(r, p, 0, 6) == 20.0 / 54.0;
  }

  // ---------------------------------------------------------------------------------------
  // Ladder hints
  // ---------------------------------------------------------------------------------------

  /** The ladder's weights, in percent, at ratios 50, 70 and 90. */
  datatype LadderHints = LadderHints(w50: real, w70: real, w90: real)

  /** `get_ladder_hints`: percentages in [0, 100] that fall from 50 to 70 to 90. */
  function GetLadderHints(sellStart: real, ladder: string): (h: LadderHints)
    ensures 0.0 <= h.w90 <= h.w70 <= h.w50 <= 100.0
    ensures h.w50 == SellWeight(Finite(50.0), sellStart, ladder) * 100.0
    ensures h.w70 == SellWeight(Finite(70.0), sellStart, ladder) * 100.0
    ensures h.w90 == SellWeight(Finite(90.0), sellStart, ladder) * 100.0
  {
    var w50 := SellWeight(Finite(50.0), sellStart, ladder);
    var w70 := SellWeight(Finite(70.0), sellStart, ladder);
    var w90 := SellWeight(Finite(90.0), sellStart, ladder);
    SellWeightNonIncreasing(50.0, 70.0, sellStart, ladder);
    SellWeightNonIncreasing(70.0, 90.0, sellStart, ladder);
    LadderHints(w50 * 100.0, w70 * 100.0, w90 * 100.0)
  }

  /** With the linear ladder from 46 the hint at 50 is above 90% and the one at 90 is
      between 15% and 20%. */
  lemma LadderHintsExample()
    ensures GetLadderHints(46.0, "g1").w50 > 90.0
    ensures 15.0 < GetLadderHints(46.0, "g1").w90 < 20.0
  {
    assert (50.0 - 46.0) / (100.0 - 46.0) == 4.0 / 54.0;
    SellWeightExamples();
  }
}
