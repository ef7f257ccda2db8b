/** Trend classification: four sub-scores on a 0–100 scale, their weighted
    composite, and a three-way label decided on the unrounded composite. */
module Trend {
  import opened Wrappers
  import opened Indicators
  import Rounding

  datatype Label = Uptrend | Downtrend | Sideways

  /** The label as stored in an indicator row. */
  function LabelName(l: Label): string {
    match l
    case Uptrend => "Uptrend"
    case Downtrend => "Downtrend"
    case Sideways => "Sideways"
  }

  /** Default thresholds and spike multiplier. */
  const UptrendMin: real := 62.0
  const DowntrendMax: real := 38.0
  const DefaultVolumeAnomalyMultiplier: real := 2.0

  /** `TrendResult`: the label, the rounded strength, the indicators and the
      unrounded composite the label was decided on. */
  datatype TrendResult = TrendResult(
    trend: Label,
    strength: real,
    ma20: Option<real>,
    ma50: Option<real>,
    rsi14: Option<real>,
    return1d: Option<real>,
    return5d: Option<real>,
    return20d: Option<real>,
    volatility20d: Option<real>,
    volumeAnomaly: bool,
    composite: real)

  /** `max(0.0, min(100.0, x))`. */
  function Clamp100(x: real): (r: real)
    ensures 0.0 <= r <= 100.0
    ensures 0.0 <= x <= 100.0 ==> r == x
  {
    if x < 0.0 then 0.0 else if x > 100.0 then 100.0 else x
  }

  // ── Sub-scores ─────────────────────────────────────────────────────────

  /** MA alignment. Neither MA: neutral 50. One MA: 70 above it, 30 otherwise.
      Both: the bullish stack 90, the bearish stack 10, transitional 60 / 40,
      and 50 exactly when the price sits on ma20. */
  function MaScore(price: real, ma20: Option<real>, ma50: Option<real>): (r: real)
    ensures ma20.None? && ma50.None? ==> r == 50.0
    ensures ma20.Some? && ma50.None? ==> r == if price > ma20.value then 70.0 else 30.0
    ensures ma20.None? && ma50.Some? ==> r == if price > ma50.value then 70.0 else 30.0
    ensures ma20.Some? && ma50.Some? ==>
              && (price > ma20.value ==> r == if ma20.value > ma50.value then 90.0 else 60.0)
              && (price < ma20.value ==> r == if ma20.value < ma50.value then 10.0 else 40.0)
              && (r == 50.0 <==> price == ma20.value)
    ensures 10.0 <= r <= 90.0
  {
    if ma20.None? && ma50.None? then 50.0
    else if ma20.None? || ma50.None? then
      var ma := if ma20.Some? then ma20.value else ma50.value;
      if price > ma then 70.0 else 30.0
    else if price > ma20.value && ma20.value > ma50.value then 90.0
    else if price < ma20.value && ma20.value < ma50.value then 10.0
    else if price > ma20.value && ma20.value <= ma50.value then 60.0
    else if price < ma20.value && ma20.value >= ma50.value then 40.0
    else 50.0
  }

  /** With the averages fixed, a higher price never lowers the MA score. */
  lemma MaScoreMonotoneInPrice(p: real, q: real, ma20: Option<real>, ma50: Option<real>)
    requires p <= q
    ensures MaScore(p, ma20, ma50) <= MaScore(q, ma20, ma50)
  {
  }

  /** 20-day return mapped linearly (50 + 350 r) and clamped; neutral 50 when
      unavailable. Saturates at 100 from r = 1/7 and at 0 from r = -1/7. */
  function MomentumScore(return20d: Option<real>): (r: real)
    ensures 0.0 <= r <= 100.0
    ensures return20d.None? ==> r == 50.0
    ensures return20d.Some? && return20d.value >= 1.0 / 7.0 ==> r == 100.0
    ensures return20d.Some? && return20d.value <= -1.0 / 7.0 ==> r == 0.0
    ensures return20d.Some? && -1.0 / 7.0 <= return20d.value <= 1.0 / 7.0 ==>
              r == 50.0 + 350.0 * return20d.value
  {
    if return20d.None? then 50.0
    else
      var raw := 50.0 + return20d.value * 350.0;
      Clamp100(raw)
  }

  /** A larger 20-day return never lowers the momentum score. */
  lemma MomentumScoreMonotone(x: real, y: real)
    requires x <= y
    ensures MomentumScore(Some(x)) <= MomentumScore(Some(y))
  {
  }

  /** Volatility buckets, exclusive upper bounds checked in ascending order:
      below 0.15 scores 70, below 0.25 55, below 0.40 40, else 25; neutral 50
      when unavailable. */
  function VolatilityScore(vol: Option<real>): (r: real)
    ensures vol.None? ==> r == 50.0
    ensures vol.Some? ==>
              && (r == 70.0 <==> vol.value < 0.15)
              && (r == 55.0 <==> 0.15 <= vol.value < 0.25)
              && (r == 40.0 <==> 0.25 <= vol.value < 0.40)
              && (r == 25.0 <==> 0.40 <= vol.value)
    ensures 25.0 <= r <= 70.0
  {
    if vol.None? then 50.0
    else if vol.value < 0.15 then 70.0
    else if vol.value < 0.25 then 55.0
    else if vol.value < 0.40 then 40.0
    else 25.0
  }

  /** Lower volatility never scores lower. */
  lemma VolatilityScoreAntitone(x: real, y: real)
    requires x <= y
    ensures VolatilityScore(Some(y)) <= VolatilityScore(Some(x))
  {
  }

  /** `rsi14 if rsi14 is not None else 50.0`. */
  function RsiScore(rsi14: Option<real>): real {
    rsi14.GetOr(50.0)
  }

  // ── Composite and label ────────────────────────────────────────────────

  /** The weighted blend before clamping; the weights sum to 1. */
  function WeightedSum(maS: real, rsiS: real, momS: real, volS: real): real {
    0.30 * maS + 0.25 * rsiS + 0.30 * momS + 0.15 * volS
  }

  /** The composite: the weighted blend clamped to [0, 100]. When every
      sub-score is in [0, 100] the clamp leaves the blend unchanged. */
  function Composite(maS: real, rsiS: real, momS: real, volS: real): (c: real)
    ensures 0.0 <= c <= 100.0
    ensures (&& 0.0 <= maS <= 100.0 && 0.0 <= rsiS <= 100.0
             && 0.0 <= momS <= 100.0 && 0.0 <= volS <= 100.0) ==> c == WeightedSum(maS, rsiS, momS, volS)
  {
    Clamp100(WeightedSum(maS, rsiS, momS, volS))
  }

  /** Four equal sub-scores in [0, 100] give that score: the weights sum to 1. */
  lemma CompositeOfEqualScores(s: real)
    requires 0.0 <= s <= 100.0
    ensures Composite(s, s, s, s) == s
  {
  }

  /** The label: Uptrend from `uptrendMin` up; otherwise Downtrend up to
      `downtrendMax`; otherwise Sideways. Uptrend wins if the bands overlap. */
  function LabelFor(composite: real, uptrendMin: real, downtrendMax: real): (l: Label)
    ensures l == Uptrend <==> composite >= uptrendMin
    ensures l == Downtrend <==> composite < uptrendMin && composite <= downtrendMax
    ensures l == Sideways <==> downtrendMax < composite < uptrendMin
  {
    if composite >= uptrendMin then Uptrend
    else if composite <= downtrendMax then Downtrend
    else Sideways
  }

  /** Rank of a label from bearish to bullish. */
  function Rank(l: Label): nat {
    match l
    case Downtrend => 0
    case Sideways => 1
    case Uptrend => 2
  }

  /** A higher composite never gives a more bearish label, whatever the thresholds. */
  lemma LabelMonotone(c: real, d: real, uptrendMin: real, downtrendMax: real)
    requires c <= d
    ensures Rank(LabelFor(c, uptrendMin, downtrendMax)) <= Rank(LabelFor(d, uptrendMin, downtrendMax))
  {
  }

  /** The label follows the unrounded composite: 61.96 rounds to a strength
      of 62.0 yet stays Sideways under the default thresholds. */
  lemma LabelUsesUnroundedComposite()
    ensures Rounding.Round(61.96, 1) == 62.0
    ensures LabelFor(61.96, UptrendMin, DowntrendMax) == Sideways
    ensures LabelFor(62.0, UptrendMin, DowntrendMax) == Uptrend
  {
    assert Rounding.Up(61.96, 1) == 619.6;
    assert Rounding.RoundHalfEven(619.6) == 620;
  }

  // ── classify ───────────────────────────────────────────────────────────

  /** The last price, 0.0 for an empty series. */
  function LastPrice(prices: seq<real>): real {
    if |prices| > 0 then prices[|prices| - 1] else 0.0
  }

  /** `classify`: every indicator once, the four sub-scores, the composite,
      the label on the unrounded composite, strength rounded to 1 decimal.
      `sqrt` stands for `math.sqrt`; the divisions inside the 20-day
      volatility must not divide by a zero price. */
  function Classify(prices: seq<real>, volumes: seq<int>, uptrendMin: real := UptrendMin,
                    downtrendMax: real := DowntrendMax,
                    volumeAnomalyMultiplier: real := DefaultVolumeAnomalyMultiplier,
                    sqrt: real -> real): (t: TrendResult)
    requires NonzeroBases(prices, 20)
    ensures 0.0 <= t.composite <= 100.0
    ensures t.strength == Rounding.Round(t.composite, 1)
    ensures t.trend == LabelFor(t.composite, uptrendMin, downtrendMax)
  {
    var price := LastPrice(prices);
    var ma20 := MovingAverage(prices, 20);
    var ma50 := MovingAverage(prices, 50);
    var rsi14 := WilderRsi(prices, 14);
    var ret1d := PeriodReturn(prices, 1);
    var ret5d := PeriodReturn(prices, 5);
    var ret20d := PeriodReturn(prices, 20);
    var vol20d := Volatility(prices, 20, sqrt);
    var volAnom := VolumeAnomaly(volumes, volumeAnomalyMultiplier);
    var composite := Composite(MaScore(price, ma20, ma50), RsiScore(rsi14), MomentumScore(ret20d), VolatilityScore(vol20d));
    TrendResult(
      LabelFor(composite, uptrendMin, downtrendMax),
      Rounding.Round(composite, 1),
      ma20, ma50, rsi14, ret1d, ret5d, ret20d, vol20d, volAnom,
      composite)
  }

  /** Unfolds `Classify` down to its composite: the blend of the sub-scores
      of the series' own indicators. A proof step for the lemmas below. */
  lemma ClassifyComposite(prices: seq<real>, volumes: seq<int>, uptrendMin: real, downtrendMax: real,
                          multiplier: real, sqrt: real -> real)
    requires NonzeroBases(prices, 20)
    ensures var t := Classify(prices, volumes, uptrendMin, downtrendMax, multiplier, sqrt);
            t.composite == Composite(MaScore(LastPrice(prices), MovingAverage(prices, 20), MovingAverage(prices, 50)),
                                     RsiScore(WilderRsi(prices, 14)), MomentumScore(PeriodReturn(prices, 20)),
                                     VolatilityScore(Volatility(prices, 20, sqrt)))
  {
  }

  /** The composite is the weighted blend itself: no sub-score leaves
      [0, 100], so the clamp never changes it. */
  lemma ClassifyCompositeIsBlend(prices: seq<real>, volumes: seq<int>, uptrendMin: real, downtrendMax: real,
                                 multiplier: real, sqrt: real -> real)
    requires NonzeroBases(prices, 20)
    ensures var t := Classify(prices, volumes, uptrendMin, downtrendMax, multiplier, sqrt);
            t.composite == WeightedSum(MaScore(LastPrice(prices), t.ma20, t.ma50), RsiScore(t.rsi14),
                                       MomentumScore(t.return20d), VolatilityScore(t.volatility20d))
  {
    ClassifyComposite(prices, volumes, uptrendMin, downtrendMax, multiplier, sqrt);
    var maS := MaScore(LastPrice(prices), MovingAverage(prices, 20), MovingAverage(prices, 50));
    var rsiS, momS := RsiScore(WilderRsi(prices, 14)), MomentumScore(PeriodReturn(prices, 20));
    var volS := VolatilityScore(Volatility(prices, 20, sqrt));
    assert 0.0 <= rsiS <= 100.0 by {
      RsiWithin(prices, 14);
    }
    CompositeOfScores(maS, rsiS, momS, volS);
  }

  /** Composite's second ensures, by itself, as a small proof step. */
  lemma CompositeOfScores(maS: real, rsiS: real, momS: real, volS: real)
    requires 0.0 <= maS <= 100.0 && 0.0 <= rsiS <= 100.0 && 0.0 <= momS <= 100.0 && 0.0 <= volS <= 100.0
    ensures Composite(maS, rsiS, momS, volS) == WeightedSum(maS, rsiS, momS, volS)
  {
  }

  /** The reported strength lies in [0, 100]. */
  lemma ClassifyStrengthWithin(prices: seq<real>, volumes: seq<int>, uptrendMin: real, downtrendMax: real,
                               multiplier: real, sqrt: real -> real)
    requires NonzeroBases(prices, 20)
    ensures 0.0 <= Classify(prices, volumes, uptrendMin, downtrendMax, multiplier, sqrt).strength <= 100.0
  {
    var t := Classify(prices, volumes, uptrendMin, downtrendMax, multiplier, sqrt);
    Rounding.RoundWithin(t.composite, 0, 100, 1);
  }

  /** Fewer than 15 prices: every indicator that feeds the composite is
      unavailable, so every sub-score is neutral and the composite is exactly
      50, which is Sideways under the default thresholds. An empty series is
      no error: its price is 0.0 and it is classified the same way. */
  lemma ClassifyShortHistory(prices: seq<real>, volumes: seq<int>, multiplier: real, sqrt: real -> real)
    requires |prices| < 15
    ensures NonzeroBases(prices, 20)
    ensures var t := Classify(prices, volumes, UptrendMin, DowntrendMax, multiplier, sqrt);
            && t.ma20.None? && t.ma50.None? && t.rsi14.None? && t.return20d.None? && t.volatility20d.None?
            && t.composite == 50.0 && t.strength == 50.0 && t.trend == Sideways
  {
    var t := Classify(prices, volumes, UptrendMin, DowntrendMax, multiplier, sqrt);
    assert t.ma20.None? && t.ma50.None? && t.rsi14.None? && t.return20d.None? && t.volatility20d.None?;
    assert t.composite == Composite(50.0, 50.0, 50.0, 50.0);
    CompositeOfEqualScores(50.0);
    Rounding.RoundInteger(50, 1);
  }

  /** With 30 prices ma50 is unavailable while ma20, RSI, the returns and
      the volatility are available, and a label and strength are produced. */
  lemma ClassifyThirtyPrices(prices: seq<real>, volumes: seq<int>, uptrendMin: real, downtrendMax: real,
                             multiplier: real, sqrt: real -> real)
    requires |prices| == 30 && NonzeroBases(prices, 20)
    ensures var t := Classify(prices, volumes, uptrendMin, downtrendMax, multiplier, sqrt);
            && t.ma50.None? && t.ma20.Some? && t.rsi14.Some?
            && t.return1d.Some? && t.return5d.Some? && t.return20d.Some? && t.volatility20d.Some?
  {
  }

  /** With at least 50 prices every indicator is available: the bases of the
      1-, 5- and 20-day returns lie in the window the volatility requires to
      be nonzero. */
  lemma ClassifyFullHistory(prices: seq<real>, volumes: seq<int>, uptrendMin: real, downtrendMax: real,
                            multiplier: real, sqrt: real -> real)
    requires |prices| >= 50 && NonzeroBases(prices, 20)
    ensures var t := Classify(prices, volumes, uptrendMin, downtrendMax, multiplier, sqrt);
            && t.ma20.Some? && t.ma50.Some? && t.rsi14.Some?
            && t.return1d.Some? && t.return5d.Some? && t.return20d.Some? && t.volatility20d.Some?
  {
  }
  /** The indicators of a flat series of at least 50 nonzero prices: both
      averages equal the price, RSI is 100 (no losses), the 20-day return and
      the volatility are 0. */
  lemma FlatSeriesIndicators(prices: seq<real>, c: real, sqrt: real -> real)
    requires |prices| >= 50 && c != 0.0 && IsSqrt(sqrt)
    requires forall i :: 0 <= i < |prices| ==> prices[i] == c
    ensures NonzeroBases(prices, 20)
    ensures MovingAverage(prices, 20) == Some(c) && MovingAverage(prices, 50) == Some(c)
    ensures WilderRsi(prices, 14) == Some(100.0)
    ensures PeriodReturn(prices, 20) == Some(0.0)
    ensures Volatility(prices, 20, sqrt) == Some(0.0)
  {
    MovingAverageOfConstant(prices, 20, c);
    MovingAverageOfConstant(prices, 50, c);
    FlatSeriesRsi(prices, c);
    PeriodReturnUnchanged(prices, 20);
    FlatSeriesVolatility(prices, c, sqrt);
  }

  lemma FlatSeriesRsi(prices: seq<real>, c: real)
    requires |prices| >= 15
    requires forall i :: 0 <= i < |prices| ==> prices[i] == c
    ensures WilderRsi(prices, 14) == Some(100.0)
  {
    forall i | 0 < i < |prices|
      ensures NoLossAt(prices, i)
    {
      assert prices[i - 1] == c && prices[i] == c;
    }
    RsiWithoutLosses(prices, 14);
  }

  lemma FlatSeriesVolatility(prices: seq<real>, c: real, sqrt: real -> real)
    requires |prices| >= 21 && c != 0.0 && IsSqrt(sqrt)
    requires forall i :: 0 <= i < |prices| ==> prices[i] == c
    ensures NonzeroBases(prices, 20)
    ensures Volatility(prices, 20, sqrt) == Some(0.0)
  {
    var n := |prices|;
    forall i | n - 20 <= i < n
      ensures RatioAt(prices, 1.0, i)
    {
      assert prices[i] == c && prices[i - 1] == c;
    }
    VolatilityOfConstantRatio(prices, 20, 1.0, sqrt);
  }

  /** A flat series of at least 50 nonzero prices scores as an Uptrend under
      the default thresholds: the price sits on both averages (MA score 50),
      there are no losses (RSI 100), the 20-day return is 0 (momentum 50) and
      the volatility is 0 (score 70), so the composite is exactly 65.5. */
  lemma ClassifyFlatSeries(prices: seq<real>, volumes: seq<int>, c: real, multiplier: real, sqrt: real -> real)
    requires |prices| >= 50 && c != 0.0 && IsSqrt(sqrt)
    requires forall i :: 0 <= i < |prices| ==> prices[i] == c
    ensures NonzeroBases(prices, 20)
    ensures var t := Classify(prices, volumes, UptrendMin, DowntrendMax, multiplier, sqrt);
            t.composite == 65.5 && t.strength == 65.5 && t.trend == Uptrend
  {
    FlatSeriesIndicators(prices, c, sqrt);
    var t := Classify(prices, volumes, UptrendMin, DowntrendMax, multiplier, sqrt);
    assert LastPrice(prices) == c;
    assert t.composite == Composite(MaScore(c, Some(c), Some(c)), RsiScore(Some(100.0)),
                                    MomentumScore(Some(0.0)), VolatilityScore(Some(0.0)));
    FlatSeriesScores(c);
  }

  /** The sub-scores of a flat series: MA 50 (price on both averages), RSI
      100, momentum 50, volatility 70; their blend is 65.5, already a whole
      number of tenths. */
  lemma FlatSeriesScores(c: real)
    ensures Composite(MaScore(c, Some(c), Some(c)), RsiScore(Some(100.0)),
                      MomentumScore(Some(0.0)), VolatilityScore(Some(0.0))) == 65.5
    ensures Rounding.Round(65.5, 1) == 65.5
  {
    assert MaScore(c, Some(c), Some(c)) == 50.0;
    assert Composite(50.0, 100.0, 50.0, 70.0) == 65.5;
    assert Rounding.Up(65.5, 1) == 655.0;
    assert Rounding.RoundHalfEven(655.0) == 655;
  }

  // ── Constant-ratio series ──────────────────────────────────────────────

  /** With the averages stacked bullishly the MA score is 90, and with them
      stacked bearishly it is 10. */
  lemma RisingMaScore(prices: seq<real>)
    requires |prices| >= 50 && Rising(prices)
    ensures MaScore(LastPrice(prices), MovingAverage(prices, 20), MovingAverage(prices, 50)) == 90.0
  {
    RisingAverages(prices);
  }

  lemma FallingMaScore(prices: seq<real>)
    requires |prices| >= 50 && Falling(prices)
    ensures MaScore(LastPrice(prices), MovingAverage(prices, 20), MovingAverage(prices, 50)) == 10.0
  {
    FallingAverages(prices);
  }

  /** A series rising by a constant ratio k >= 1.005 from a positive price
      (such as 100 * 1.005^i) over at least 50 prices: MA score 90, RSI 100,
      volatility 0 and a 20-day return of at least 0.1. */
  lemma RisingConstantRatioIndicators(prices: seq<real>, k: real, sqrt: real -> real)
    requires |prices| >= 50 && 0.0 < prices[0] && 1.005 <= k && IsSqrt(sqrt)
    requires ConstantRatio(prices, k)
    ensures NonzeroBases(prices, 20)
    ensures MaScore(LastPrice(prices), MovingAverage(prices, 20), MovingAverage(prices, 50)) == 90.0
    ensures WilderRsi(prices, 14) == Some(100.0)
    ensures Volatility(prices, 20, sqrt) == Some(0.0)
    ensures PeriodReturn(prices, 20).Some? && 0.1 <= PeriodReturn(prices, 20).value
  {
    var n := |prices|;
    forall i | 0 <= i < n
      ensures 0.0 < prices[i]
    {
      ConstantRatioPositive(prices, k, i);
    }
    ConstantRatioRising(prices, k);
    RisingMaScore(prices);
    forall i | 0 < i < n
      ensures NoLossAt(prices, i)
    {
      assert GainAt(prices, i);
    }
    RsiWithoutLosses(prices, 14);
    VolatilityOfConstantRatio(prices, 20, k, sqrt);
    RisingConstantRatioReturn(prices, k);
  }

  /** A series falling by a constant ratio 0 < k <= 0.995 from a positive
      price (such as 200 * 0.995^i) over at least 50 prices: MA score 10,
      RSI 0, volatility 0 and a 20-day return of at most -20/219. */
  lemma FallingConstantRatioIndicators(prices: seq<real>, k: real, sqrt: real -> real)
    requires |prices| >= 50 && 0.0 < prices[0] && 0.0 < k <= 0.995 && IsSqrt(sqrt)
    requires ConstantRatio(prices, k)
    ensures NonzeroBases(prices, 20)
    ensures MaScore(LastPrice(prices), MovingAverage(prices, 20), MovingAverage(prices, 50)) == 10.0
    ensures WilderRsi(prices, 14) == Some(0.0)
    ensures Volatility(prices, 20, sqrt) == Some(0.0)
    ensures PeriodReturn(prices, 20).Some? && PeriodReturn(prices, 20).value <= -20.0 / 219.0
  {
    var n := |prices|;
    forall i | 0 <= i < n
      ensures 0.0 < prices[i]
    {
      ConstantRatioPositive(prices, k, i);
    }
    ConstantRatioFalling(prices, k);
    FallingMaScore(prices);
    RsiAllLosses(prices, 14);
    VolatilityOfConstantRatio(prices, 20, k, sqrt);
    FallingConstantRatioReturn(prices, k);
  }

  /** A steadily rising series of at least 50 prices (ratio k >= 1.005) is
      an Uptrend under the default thresholds, with composite and strength
      of at least 88, so above 80. */
  lemma ClassifyRisingConstantRatio(prices: seq<real>, volumes: seq<int>, k: real, multiplier: real,
                                    sqrt: real -> real)
    requires |prices| >= 50 && 0.0 < prices[0] && 1.005 <= k && IsSqrt(sqrt)
    requires ConstantRatio(prices, k)
    ensures NonzeroBases(prices, 20)
    ensures var t := Classify(prices, volumes, UptrendMin, DowntrendMax, multiplier, sqrt);
            && t.trend == Uptrend && 88.0 <= t.composite && 88.0 <= t.strength
  {
    RisingConstantRatioIndicators(prices, k, sqrt);
    ClassifyBullishIndicators(prices, volumes, multiplier, sqrt);
  }

  /** Bullishly stacked averages, RSI 100, volatility 0 and a 20-day return
      of at least 0.1 make an Uptrend of composite and strength at least 88. */
  lemma ClassifyBullishIndicators(prices: seq<real>, volumes: seq<int>, multiplier: real, sqrt: real -> real)
    requires NonzeroBases(prices, 20)
    requires MaScore(LastPrice(prices), MovingAverage(prices, 20), MovingAverage(prices, 50)) == 90.0
    requires WilderRsi(prices, 14) == Some(100.0) && Volatility(prices, 20, sqrt) == Some(0.0)
    requires PeriodReturn(prices, 20).Some? && 0.1 <= PeriodReturn(prices, 20).value
    ensures var t := Classify(prices, volumes, UptrendMin, DowntrendMax, multiplier, sqrt);
            && t.trend == Uptrend && 88.0 <= t.composite && 88.0 <= t.strength
  {
    ClassifyComposite(prices, volumes, UptrendMin, DowntrendMax, multiplier, sqrt);
    var r := PeriodReturn(prices, 20).value;
    assert PeriodReturn(prices, 20) == Some(r);
    assert RsiScore(Some(100.0)) == 100.0 && VolatilityScore(Some(0.0)) == 70.0;
    RisingScores(r);
  }

  /** The blend of MA 90, RSI 100, volatility 70 and the momentum of a
      20-day return of at least 0.1 is at least 88, and so is its rounding. */
  lemma RisingScores(r: real)
    requires 0.1 <= r
    ensures var c := Composite(90.0, 100.0, MomentumScore(Some(r)), 70.0);
            88.0 <= c && 88.0 <= Rounding.Round(c, 1)
  {
    var c := Composite(90.0, 100.0, MomentumScore(Some(r)), 70.0);
    MomentumScoreMonotone(0.1, r);
    assert MomentumScore(Some(0.1)) == 85.0;
    Rounding.RoundMonotone(88.0, c, 1);
    Rounding.RoundInteger(88, 1);
  }

  /** A steadily falling series of at least 50 prices (ratio k <= 0.995) is
      a Downtrend under the default thresholds, with composite and strength
      of at most 19, so below 20. */
  lemma ClassifyFallingConstantRatio(prices: seq<real>, volumes: seq<int>, k: real, multiplier: real,
                                     sqrt: real -> real)
    requires |prices| >= 50 && 0.0 < prices[0] && 0.0 < k <= 0.995 && IsSqrt(sqrt)
    requires ConstantRatio(prices, k)
    ensures NonzeroBases(prices, 20)
    ensures var t := Classify(prices, volumes, UptrendMin, DowntrendMax, multiplier, sqrt);
            && t.trend == Downtrend && t.composite <= 19.0 && t.strength <= 19.0
  {
    FallingConstantRatioIndicators(prices, k, sqrt);
    ClassifyBearishIndicators(prices, volumes, multiplier, sqrt);
  }

  /** Bearishly stacked averages, RSI 0, volatility 0 and a 20-day return of
      at most -20/219 make a Downtrend of composite and strength at most 19. */
  lemma ClassifyBearishIndicators(prices: seq<real>, volumes: seq<int>, multiplier: real, sqrt: real -> real)
    requires NonzeroBases(prices, 20)
    requires MaScore(LastPrice(prices), MovingAverage(prices, 20), MovingAverage(prices, 50)) == 10.0
    requires WilderRsi(prices, 14) == Some(0.0) && Volatility(prices, 20, sqrt) == Some(0.0)
    requires PeriodReturn(prices, 20).Some? && PeriodReturn(prices, 20).value <= -20.0 / 219.0
    ensures var t := Classify(prices, volumes, UptrendMin, DowntrendMax, multiplier, sqrt);
            && t.trend == Downtrend && t.composite <= 19.0 && t.strength <= 19.0
  {
    ClassifyComposite(prices, volumes, UptrendMin, DowntrendMax, multiplier, sqrt);
    var r := PeriodReturn(prices, 20).value;
    assert PeriodReturn(prices, 20) == Some(r);
    assert RsiScore(Some(0.0)) == 0.0 && VolatilityScore(Some(0.0)) == 70.0;
    FallingScores(r);
  }

  /** The blend of MA 10, RSI 0, volatility 70 and the momentum of a 20-day
      return of at most -20/219 is at most 19, and so is its rounding. */
  lemma FallingScores(r: real)
    requires r <= -20.0 / 219.0
    ensures var c := Composite(10.0, 0.0, MomentumScore(Some(r)), 70.0);
            c <= 19.0 && Rounding.Round(c, 1) <= 19.0
  {
    var c := Composite(10.0, 0.0, MomentumScore(Some(r)), 70.0);
    MomentumScoreMonotone(r, -20.0 / 219.0);
    assert MomentumScore(Some(-20.0 / 219.0)) == 3950.0 / 219.0;
    Rounding.RoundMonotone(c, 19.0, 1);
    Rounding.RoundInteger(19, 1);
  }
}
