/** The indicator library: moving average, Wilder RSI, n-day return,
    annualised volatility and the volume-spike flag, over an oldest-first
    series. Each numeric indicator is `None` when the history is too short. */
module Indicators {
  import opened Wrappers
  import opened Series
  import Rounding

  /** `_validate`: the series holds at least `minLen` values. A series of
      reals holds no NaN, so the NaN half of the test is always passed. */
  predicate Validate(series: seq<real>, minLen: int) {
    |series| >= minLen
  }

  // ── Moving average ─────────────────────────────────────────────────────

  /** Simple moving average of the last `window` prices. */
  function MovingAverage(prices: seq<real>, window: nat): (r: Option<real>)
    requires window > 0
    ensures r.None? <==> |prices| < window
  {
    if !Validate(prices, window) then None
    else Some(Sum(prices[|prices| - window..]) / window as real)
  }

  /** Prices older than the last `window` ones play no part. */
  lemma MovingAverageIgnoresOlderHistory(older: seq<real>, prices: seq<real>, window: nat)
    requires window > 0 && |prices| >= window
    ensures MovingAverage(older + prices, window) == MovingAverage(prices, window)
  {
    var all := older + prices;
    assert all[|all| - window..] == prices[|prices| - window..];
  }

  /** When the last `window` prices lie in [lo, hi], so does their average. */
  lemma MovingAverageWithin(prices: seq<real>, window: nat, lo: real, hi: real)
    requires window > 0 && |prices| >= window
    requires forall i :: |prices| - window <= i < |prices| ==> lo <= prices[i] <= hi
    ensures MovingAverage(prices, window).Some?
    ensures lo <= MovingAverage(prices, window).value <= hi
  {
    var tail := prices[|prices| - window..];
    assert forall i :: 0 <= i < |tail| ==> tail[i] == prices[|prices| - window + i];
    MeanBounds(tail, lo, hi);
  }

  /** The average of `window` equal prices is that price, e.g. a flat series. */
  lemma MovingAverageOfConstant(prices: seq<real>, window: nat, c: real)
    requires window > 0 && |prices| >= window
    requires forall i :: |prices| - window <= i < |prices| ==> prices[i] == c
    ensures MovingAverage(prices, window) == Some(c)
  {
    MovingAverageWithin(prices, window, c, c);
  }

  // ── RSI (Wilder smoothing) ─────────────────────────────────────────────

  /** Day-over-day changes: `prices[i] - prices[i-1]` for i in 1..len-1. */
  function Deltas(prices: seq<real>): (d: seq<real>)
    ensures |d| == if |prices| == 0 then 0 else |prices| - 1
  {
    if |prices| == 0 then []
    else seq(|prices| - 1, i requires 0 <= i < |prices| - 1 => prices[i + 1] - prices[i])
  }

  /** `max(d, 0.0)`. */
  function Gain(d: real): real {
    if d > 0.0 then d else 0.0
  }

  /** `abs(min(d, 0.0))`. */
  function Loss(d: real): real {
    if d < 0.0 then -d else 0.0
  }

  /** Day i brings no loss: its price is not below the day before's. */
  predicate NoLossAt(prices: seq<real>, i: int)
    requires 0 < i < |prices|
  {
    prices[i - 1] <= prices[i]
  }

  /** Day i brings no gain: its price is not above the day before's. */
  predicate NoGainAt(prices: seq<real>, i: int)
    requires 0 < i < |prices|
  {
    prices[i] <= prices[i - 1]
  }

  /** Day i brings a loss: its price is below the day before's. */
  predicate LossAt(prices: seq<real>, i: int)
    requires 0 < i < |prices|
  {
    prices[i] < prices[i - 1]
  }

  function Gains(ds: seq<real>): (g: seq<real>)
    ensures |g| == |ds|
  {
    seq(|ds|, i requires 0 <= i < |ds| => Gain(ds[i]))
  }

  function Losses(ds: seq<real>): (l: seq<real>)
    ensures |l| == |ds|
  {
    seq(|ds|, i requires 0 <= i < |ds| => Loss(ds[i]))
  }

  /** The seed: `sum(xs) / period` over the first `period` gains or losses. */
  function SeedAverage(xs: seq<real>, period: nat): real
    requires period > 0
  {
    Sum(xs) / period as real
  }

  /** One Wilder update: weight 1/period on the new value. */
  function WilderStep(avg: real, x: real, period: nat): real
    requires period > 0
  {
    (avg * (period - 1) as real + x) / period as real
  }

  /** The average after applying a Wilder update for each of `xs`, in order. */
  function Smooth(seed: real, xs: seq<real>, period: nat): real
    requires period > 0
  {
    if |xs| == 0 then seed
    else WilderStep(Smooth(seed, xs[..|xs| - 1], period), xs[|xs| - 1], period)
  }

  /** RSI before rounding, for a positive average loss. */
  function RawRsi(avgGain: real, avgLoss: real): real
    requires 0.0 <= avgGain && 0.0 < avgLoss
  {
    100.0 - 100.0 / (1.0 + avgGain / avgLoss)
  }

  /** Final step of `rsi`: 100 when there is no average loss, else the
      rounded `100 - 100 / (1 + rs)`. */
  function RsiFromAverages(avgGain: real, avgLoss: real): real
    requires 0.0 <= avgGain && 0.0 <= avgLoss
  {
    if avgLoss == 0.0 then 100.0 else Rounding.Round(RawRsi(avgGain, avgLoss), 4)
  }

  /** Average gain after the seed on the first `period` deltas and Wilder
      smoothing over the rest. */
  function AverageGain(prices: seq<real>, period: nat): (g: real)
    requires 0 < period < |prices|
    ensures 0.0 <= g
  {
    var deltas := Deltas(prices);
    SeedNonnegative(Gains(deltas[..period]), period);
    SmoothNonnegative(SeedAverage(Gains(deltas[..period]), period), Gains(deltas[period..]), period);
    Smooth(SeedAverage(Gains(deltas[..period]), period), Gains(deltas[period..]), period)
  }

  /** Average loss, computed the same way from the losses. */
  function AverageLoss(prices: seq<real>, period: nat): (l: real)
    requires 0 < period < |prices|
    ensures 0.0 <= l
  {
    var deltas := Deltas(prices);
    SeedNonnegative(Losses(deltas[..period]), period);
    SmoothNonnegative(SeedAverage(Losses(deltas[..period]), period), Losses(deltas[period..]), period);
    Smooth(SeedAverage(Losses(deltas[..period]), period), Losses(deltas[period..]), period)
  }

  /** Reference definition of `rsi`. */
  function WilderRsi(prices: seq<real>, period: nat := 14): (r: Option<real>)
    requires period > 0
    ensures r.None? <==> |prices| < period + 1
  {
    if !Validate(prices, period + 1) then None
    else Some(RsiFromAverages(AverageGain(prices, period), AverageLoss(prices, period)))
  }

  /** `rsi`: the seed averages, then the smoothing loop over the remaining deltas. */
  method Rsi(prices: seq<real>, period: nat := 14) returns (r: Option<real>)
    requires period > 0
    ensures r == WilderRsi(prices, period)
    ensures r.None? <==> |prices| < period + 1
    ensures r.Some? ==> 0.0 <= r.value <= 100.0
  {
    if !Validate(prices, period + 1) {
      return None;
    }
    var deltas := Deltas(prices);
    var seedGain := SeedAverage(Gains(deltas[..period]), period);
    var seedLoss := SeedAverage(Losses(deltas[..period]), period);
    SeedNonnegative(Gains(deltas[..period]), period);
    SeedNonnegative(Losses(deltas[..period]), period);
    var avgGain, avgLoss := seedGain, seedLoss;
    var i := period;
    while i < |deltas|
      invariant period <= i <= |deltas|
      invariant avgGain == Smooth(seedGain, Gains(deltas[period..i]), period)
      invariant avgLoss == Smooth(seedLoss, Losses(deltas[period..i]), period)
      invariant 0.0 <= avgGain && 0.0 <= avgLoss
    {
      var delta := deltas[i];
      var gain := Gain(delta);
      var loss := Loss(delta);
      SmoothGainsExtend(seedGain, deltas, period, i);
      SmoothLossesExtend(seedLoss, deltas, period, i);
      StepNonnegative(avgGain, gain, period);
      StepNonnegative(avgLoss, loss, period);
      // avg := (avg * (period - 1) + x) / period
      avgGain := WilderStep(avgGain, gain, period);
      avgLoss := WilderStep(avgLoss, loss, period);
      i := i + 1;
    }
    assert deltas[period..i] == deltas[period..];
    RsiFromAveragesWithin(avgGain, avgLoss);
    r := Some(RsiFromAverages(avgGain, avgLoss));
  }

  /** Gains and losses are never negative, so neither is their seed average;
      it is positive when every value is. */
  lemma SeedNonnegative(xs: seq<real>, period: nat)
    requires period > 0
    requires forall i :: 0 <= i < |xs| ==> 0.0 <= xs[i]
    ensures 0.0 <= SeedAverage(xs, period)
    ensures (0 < |xs| && forall i :: 0 <= i < |xs| ==> 0.0 < xs[i]) ==> 0.0 < SeedAverage(xs, period)
  {
    SumNonnegative(xs);
  }

  /** One more smoothing step takes in the gain of delta i. */
  lemma SmoothGainsExtend(seed: real, deltas: seq<real>, period: nat, i: nat)
    requires 0 < period <= i < |deltas|
    ensures Smooth(seed, Gains(deltas[period..i + 1]), period)
         == WilderStep(Smooth(seed, Gains(deltas[period..i]), period), Gain(deltas[i]), period)
  {
    var xs := Gains(deltas[period..i + 1]);
    assert xs[..|xs| - 1] == Gains(deltas[period..i]);
  }

  /** One more smoothing step takes in the loss of delta i. */
  lemma SmoothLossesExtend(seed: real, deltas: seq<real>, period: nat, i: nat)
    requires 0 < period <= i < |deltas|
    ensures Smooth(seed, Losses(deltas[period..i + 1]), period)
         == WilderStep(Smooth(seed, Losses(deltas[period..i]), period), Loss(deltas[i]), period)
  {
    var xs := Losses(deltas[period..i + 1]);
    assert xs[..|xs| - 1] == Losses(deltas[period..i]);
  }

  /** Wilder smoothing of non-negative values from a non-negative seed stays
      non-negative, and of positive values from a positive seed positive. */
  lemma {:induction false} SmoothNonnegative(seed: real, xs: seq<real>, period: nat)
    requires period > 0 && 0.0 <= seed
    requires forall i :: 0 <= i < |xs| ==> 0.0 <= xs[i]
    ensures 0.0 <= Smooth(seed, xs, period)
    ensures (0.0 < seed && forall i :: 0 <= i < |xs| ==> 0.0 < xs[i]) ==> 0.0 < Smooth(seed, xs, period)
  {
    if |xs| > 0 {
      SmoothNonnegative(seed, xs[..|xs| - 1], period);
      StepNonnegative(Smooth(seed, xs[..|xs| - 1], period), xs[|xs| - 1], period);
    }
  }

  lemma StepNonnegative(avg: real, x: real, period: nat)
    requires period > 0 && 0.0 <= avg && 0.0 <= x
    ensures 0.0 <= WilderStep(avg, x, period)
    ensures 0.0 < avg && 0.0 < x ==> 0.0 < WilderStep(avg, x, period)
  {
    var p := period as real;
    assert 0.0 <= avg * (p - 1.0);
  }

  /** Wilder smoothing of zeros from a zero seed stays exactly zero. */
  lemma {:induction false} SmoothOfZeros(xs: seq<real>, period: nat)
    requires period > 0
    requires forall i :: 0 <= i < |xs| ==> xs[i] == 0.0
    ensures Smooth(0.0, xs, period) == 0.0
  {
    if |xs| > 0 {
      SmoothOfZeros(xs[..|xs| - 1], period);
    }
  }

  /** With rs = gain/loss >= 0, `100 - 100 / (1 + rs)` lies in [0, 100). */
  lemma RawRsiWithin(avgGain: real, avgLoss: real)
    requires 0.0 <= avgGain && 0.0 < avgLoss
    ensures 0.0 <= RawRsi(avgGain, avgLoss) < 100.0
  {
    var rs := avgGain / avgLoss;
    assert 0.0 <= rs;
    assert 0.0 < 100.0 / (1.0 + rs) <= 100.0;
  }

  lemma RsiFromAveragesWithin(avgGain: real, avgLoss: real)
    requires 0.0 <= avgGain && 0.0 <= avgLoss
    ensures 0.0 <= RsiFromAverages(avgGain, avgLoss) <= 100.0
  {
    if avgLoss != 0.0 {
      RawRsiWithin(avgGain, avgLoss);
      Rounding.RoundWithin(RawRsi(avgGain, avgLoss), 0, 100, 4);
    }
  }

  /** RSI, when available, lies in [0, 100]. */
  lemma RsiWithin(prices: seq<real>, period: nat)
    requires period > 0
    ensures WilderRsi(prices, period).Some? ==> 0.0 <= WilderRsi(prices, period).value <= 100.0
  {
    if |prices| >= period + 1 {
      RsiFromAveragesWithin(AverageGain(prices, period), AverageLoss(prices, period));
    }
  }

  /** The deltas of a series where no price falls have no losses, so the
      average loss is exactly zero. */
  lemma AverageLossWithoutLosses(prices: seq<real>, period: nat)
    requires 0 < period < |prices|
    requires forall i :: 0 < i < |prices| ==> NoLossAt(prices, i)
    ensures AverageLoss(prices, period) == 0.0
  {
    var deltas := Deltas(prices);
    var seed := Losses(deltas[..period]);
    forall i | 0 <= i < |seed| ensures seed[i] == 0.0 {
      assert NoLossAt(prices, i + 1);
    }
    SumConstant(seed, 0.0);
    var rest := Losses(deltas[period..]);
    forall i | 0 <= i < |rest| ensures rest[i] == 0.0 {
      assert NoLossAt(prices, period + i + 1);
    }
    SmoothOfZeros(rest, period);
  }

  /** Dually, a series where no price rises has average gain exactly zero. */
  lemma AverageGainWithoutGains(prices: seq<real>, period: nat)
    requires 0 < period < |prices|
    requires forall i :: 0 < i < |prices| ==> NoGainAt(prices, i)
    ensures AverageGain(prices, period) == 0.0
  {
    var deltas := Deltas(prices);
    var seed := Gains(deltas[..period]);
    forall i | 0 <= i < |seed| ensures seed[i] == 0.0 {
      assert NoGainAt(prices, i + 1);
    }
    SumConstant(seed, 0.0);
    var rest := Gains(deltas[period..]);
    forall i | 0 <= i < |rest| ensures rest[i] == 0.0 {
      assert NoGainAt(prices, period + i + 1);
    }
    SmoothOfZeros(rest, period);
  }

  /** When every price falls, the average loss is positive. */
  lemma AverageLossAllLosses(prices: seq<real>, period: nat)
    requires 0 < period < |prices|
    requires forall i :: 0 < i < |prices| ==> LossAt(prices, i)
    ensures 0.0 < AverageLoss(prices, period)
  {
    var deltas := Deltas(prices);
    var seed := Losses(deltas[..period]);
    forall i | 0 <= i < |seed| ensures 0.0 < seed[i] {
      assert LossAt(prices, i + 1);
    }
    SeedNonnegative(seed, period);
    var rest := Losses(deltas[period..]);
    forall i | 0 <= i < |rest| ensures 0.0 < rest[i] {
      assert LossAt(prices, period + i + 1);
    }
    SmoothNonnegative(SeedAverage(seed, period), rest, period);
  }

  /** No price ever falls (e.g. a strictly increasing series): RSI is exactly 100. */
  lemma RsiWithoutLosses(prices: seq<real>, period: nat)
    requires period > 0 && |prices| >= period + 1
    requires forall i :: 0 < i < |prices| ==> NoLossAt(prices, i)
    ensures WilderRsi(prices, period) == Some(100.0)
  {
    AverageLossWithoutLosses(prices, period);
  }

  /** Every price falls (a strictly decreasing series): RSI is exactly 0. */
  lemma RsiAllLosses(prices: seq<real>, period: nat)
    requires period > 0 && |prices| >= period + 1
    requires forall i :: 0 < i < |prices| ==> LossAt(prices, i)
    ensures WilderRsi(prices, period) == Some(0.0)
  {
    forall i | 0 < i < |prices| ensures NoGainAt(prices, i) {
      assert LossAt(prices, i);
    }
    AverageGainWithoutGains(prices, period);
    AverageLossAllLosses(prices, period);
    assert RawRsi(0.0, AverageLoss(prices, period)) == 0.0;
    Rounding.RoundInteger(0, 4);
  }

  // ── Returns ────────────────────────────────────────────────────────────

  /** n-day return `prices[-1] / prices[-(n+1)] - 1`; `None` when the history
      is too short or the base price is zero. */
  function PeriodReturn(prices: seq<real>, n: nat): (r: Option<real>)
    ensures r.None? <==> |prices| < n + 1 || prices[|prices| - (n + 1)] == 0.0
    ensures r.Some? ==> prices[|prices| - 1] == prices[|prices| - (n + 1)] * (1.0 + r.value)
  {
    if !Validate(prices, n + 1) then None
    else
      var pNow := prices[|prices| - 1];
      var pPrev := prices[|prices| - (n + 1)];
      if pPrev == 0.0 then None
      else Some(pNow / pPrev - 1.0)
  }

  /** Equal current and base prices give a return of exactly 0. */
  lemma PeriodReturnUnchanged(prices: seq<real>, n: nat)
    requires |prices| >= n + 1
    requires prices[|prices| - (n + 1)] != 0.0 && prices[|prices| - 1] == prices[|prices| - (n + 1)]
    ensures PeriodReturn(prices, n) == Some(0.0)
  {
    RatioOfMultiple(prices[|prices| - 1], prices[|prices| - (n + 1)], 1.0);
  }

  // ── Volatility ─────────────────────────────────────────────────────────

  /** The divisors `tail[i-1]` of the daily returns over the last
      `period + 1` prices are all nonzero. */
  predicate NonzeroBases(prices: seq<real>, period: nat) {
    |prices| >= period + 1 ==>
      forall i :: |prices| - (period + 1) <= i < |prices| - 1 ==> prices[i] != 0.0
  }

  /** `tail[i] / tail[i-1] - 1` for i in 1..len-1. */
  function DailyReturns(tail: seq<real>): (d: seq<real>)
    requires forall i :: 0 <= i < |tail| - 1 ==> tail[i] != 0.0
    ensures |d| == if |tail| == 0 then 0 else |tail| - 1
  {
    if |tail| == 0 then []
    else seq(|tail| - 1, i requires 0 <= i < |tail| - 1 => tail[i + 1] / tail[i] - 1.0)
  }

  function SquaredDeviations(xs: seq<real>, mean: real): (d: seq<real>)
    ensures |d| == |xs|
  {
    seq(|xs|, i requires 0 <= i < |xs| => (xs[i] - mean) * (xs[i] - mean))
  }

  /** Population variance (divide by n). */
  function Variance(xs: seq<real>): real
    requires |xs| > 0
  {
    Sum(SquaredDeviations(xs, Mean(xs))) / |xs| as real
  }

  /** `sqrt(variance) * sqrt(252)`. */
  function Annualise(variance: real, sqrt: real -> real): real {
    sqrt(variance) * sqrt(252.0)
  }

  /** Annualised volatility of the daily returns over the last `period` days,
      rounded to 6 decimals; `sqrt` stands for `math.sqrt`. */
  function Volatility(prices: seq<real>, period: nat := 20, sqrt: real -> real): (r: Option<real>)
    requires period > 0
    requires NonzeroBases(prices, period)
    ensures r.None? <==> |prices| < period + 1
  {
    if !Validate(prices, period + 1) then None
    else
      var tail := prices[|prices| - (period + 1)..];
      Some(Rounding.Round(Annualise(Variance(DailyReturns(tail)), sqrt), 6))
  }

  /** What the model takes of `math.sqrt`: the non-negative square root
      (its value at 0 is spelled out rather than derived). */
  ghost predicate IsSqrt(sqrt: real -> real) {
    && sqrt(0.0) == 0.0
    && forall x :: 0.0 <= x ==> 0.0 <= sqrt(x) && sqrt(x) * sqrt(x) == x
  }

  /** A variance is never negative. */
  lemma VarianceNonnegative(xs: seq<real>)
    requires |xs| > 0
    ensures 0.0 <= Variance(xs)
  {
    var d := SquaredDeviations(xs, Mean(xs));
    forall i | 0 <= i < |d| ensures 0.0 <= d[i] {
      SquareNonnegative(xs[i] - Mean(xs));
    }
    SumNonnegative(d);
    QuotientNonnegative(Sum(d), |xs| as real);
  }

  lemma SquareNonnegative(e: real)
    ensures 0.0 <= e * e
  {
    if e < 0.0 {
      assert e * e == (-e) * (-e);
    }
  }

  lemma QuotientNonnegative(a: real, b: real)
    requires 0.0 <= a && 0.0 < b
    ensures 0.0 <= a / b
  {
    Rounding.DivideMonotone(0.0, a, b);
  }

  lemma ProductNonnegative(a: real, b: real)
    requires 0.0 <= a && 0.0 <= b
    ensures 0.0 <= a * b
  {
  }

  /** Equal values have zero variance. */
  lemma VarianceOfConstant(xs: seq<real>, c: real)
    requires |xs| > 0
    requires forall i :: 0 <= i < |xs| ==> xs[i] == c
    ensures Variance(xs) == 0.0
  {
    MeanConstant(xs, c);
    var d := SquaredDeviations(xs, Mean(xs));
    assert forall i :: 0 <= i < |d| ==> d[i] == 0.0;
    SumConstant(d, 0.0);
  }

  /** Volatility, when available, is never negative. */
  lemma VolatilityNonnegative(prices: seq<real>, period: nat, sqrt: real -> real)
    requires period > 0 && NonzeroBases(prices, period) && IsSqrt(sqrt)
    ensures Volatility(prices, period, sqrt).Some? ==> 0.0 <= Volatility(prices, period, sqrt).value
  {
    if |prices| >= period + 1 {
      var tail := prices[|prices| - (period + 1)..];
      var v := Variance(DailyReturns(tail));
      VarianceNonnegative(DailyReturns(tail));
      assert 0.0 <= sqrt(v) && 0.0 <= sqrt(252.0);
      ProductNonnegative(sqrt(v), sqrt(252.0));
      var a := Annualise(v, sqrt);
      Rounding.RoundMonotone(0.0, a, 6);
      Rounding.RoundInteger(0, 6);
      assert Volatility(prices, period, sqrt) == Some(Rounding.Round(a, 6));
    }
  }

  /** Every daily return in the window is the same ratio k - 1 (a flat series
      for k = 1, a constant-percentage one otherwise): volatility is exactly 0. */
  lemma VolatilityOfConstantRatio(prices: seq<real>, period: nat, k: real, sqrt: real -> real)
    requires period > 0 && NonzeroBases(prices, period) && IsSqrt(sqrt)
    requires |prices| >= period + 1
    requires forall i :: |prices| - period <= i < |prices| ==> RatioAt(prices, k, i)
    ensures Volatility(prices, period, sqrt) == Some(0.0)
  {
    var tail := prices[|prices| - (period + 1)..];
    var rets := DailyReturns(tail);
    forall i | 0 <= i < |rets| ensures rets[i] == k - 1.0 {
      var j := |prices| - (period + 1) + i;
      assert tail[i] == prices[j] && tail[i + 1] == prices[j + 1];
      assert RatioAt(prices, k, j + 1);
      RatioOfMultiple(prices[j + 1], prices[j], k);
    }
    VarianceOfConstant(rets, k - 1.0);
    assert Annualise(0.0, sqrt) == 0.0;
    Rounding.RoundInteger(0, 6);
  }

  lemma RatioOfMultiple(a: real, b: real, k: real)
    requires b != 0.0 && a == k * b
    ensures a / b == k
  {
  }

  // ── Volume anomaly ─────────────────────────────────────────────────────

  /** Average of the `window` volumes before today (today excluded). */
  function PriorAverage(volumes: seq<int>, window: nat): real
    requires 0 < window < |volumes|
  {
    IntSum(volumes[|volumes| - (window + 1)..|volumes| - 1]) as real / window as real
  }

  /** `volume_anomaly`: today's volume is at least `multiplier` times the
      prior average; false on short history or a zero average. */
  function VolumeAnomaly(volumes: seq<int>, multiplier: real := 2.0, window: nat := 20): (r: bool)
    requires window > 0
    ensures r <==> |volumes| >= window + 1 && PriorAverage(volumes, window) != 0.0
                   && volumes[|volumes| - 1] as real >= multiplier * PriorAverage(volumes, window)
  {
    if |volumes| < window + 1 then false
    else
      var avgVol := PriorAverage(volumes, window);
      if avgVol == 0.0 then false
      else volumes[|volumes| - 1] as real >= multiplier * avgVol
  }

  /** Raising today's volume keeps a spike a spike: the threshold depends on
      the prior window only. */
  lemma VolumeAnomalyMonotoneInToday(volumes: seq<int>, today: int, multiplier: real, window: nat)
    requires window > 0 && |volumes| >= window + 1
    requires volumes[|volumes| - 1] <= today
    ensures VolumeAnomaly(volumes, multiplier, window) ==>
              VolumeAnomaly(volumes[..|volumes| - 1] + [today], multiplier, window)
  {
    var raised := volumes[..|volumes| - 1] + [today];
    assert raised[|raised| - (window + 1)..|raised| - 1] == volumes[|volumes| - (window + 1)..|volumes| - 1];
  }

  /** A prior window of equal volumes c != 0: a spike iff today >= multiplier * c. */
  lemma VolumeAnomalyConstantPrior(volumes: seq<int>, c: int, multiplier: real, window: nat)
    requires window > 0 && |volumes| >= window + 1 && c != 0
    requires forall i :: |volumes| - (window + 1) <= i < |volumes| - 1 ==> volumes[i] == c
    ensures VolumeAnomaly(volumes, multiplier, window) <==> volumes[|volumes| - 1] as real >= multiplier * c as real
  {
    var prior := volumes[|volumes| - (window + 1)..|volumes| - 1];
    assert forall i :: 0 <= i < |prior| ==> prior[i] == volumes[|volumes| - (window + 1) + i];
    IntSumConstant(prior, c);
    assert PriorAverage(volumes, window) == (window * c) as real / window as real;
  }

  /** An all-zero prior window never flags a spike. */
  lemma VolumeAnomalyZeroPrior(volumes: seq<int>, multiplier: real, window: nat)
    requires window > 0 && |volumes| >= window + 1
    requires forall i :: |volumes| - (window + 1) <= i < |volumes| - 1 ==> volumes[i] == 0
    ensures !VolumeAnomaly(volumes, multiplier, window)
  {
    var prior := volumes[|volumes| - (window + 1)..|volumes| - 1];
    assert forall i :: 0 <= i < |prior| ==> prior[i] == volumes[|volumes| - (window + 1) + i];
    IntSumConstant(prior, 0);
  }

  // ── Monotone and constant-ratio series ─────────────────────────────────

  /** Day i brings a gain: its price is above the day before's. */
  predicate GainAt(prices: seq<real>, i: int)
    requires 0 < i < |prices|
  {
    prices[i - 1] < prices[i]
  }

  /** Every price is above the one before it. */
  predicate Rising(prices: seq<real>) {
    forall i :: 0 < i < |prices| ==> GainAt(prices, i)
  }

  /** Every price is below the one before it. */
  predicate Falling(prices: seq<real>) {
    forall i :: 0 < i < |prices| ==> LossAt(prices, i)
  }

  /** Day i's price is `k` times the day before's. */
  predicate RatioAt(prices: seq<real>, k: real, i: int)
    requires 0 < i < |prices|
  {
    prices[i] == k * prices[i - 1]
  }

  /** Every price is `k` times the one before it, e.g. `c * k^i`. */
  predicate ConstantRatio(prices: seq<real>, k: real) {
    forall i :: 0 < i < |prices| ==> RatioAt(prices, k, i)
  }

  lemma {:induction false} RisingOrder(prices: seq<real>, i: int, j: int)
    requires Rising(prices) && 0 <= i < j < |prices|
    ensures prices[i] < prices[j]
    decreases j - i
  {
    assert GainAt(prices, j);
    if i + 1 < j {
      RisingOrder(prices, i, j - 1);
    }
  }

  lemma {:induction false} FallingOrder(prices: seq<real>, i: int, j: int)
    requires Falling(prices) && 0 <= i < j < |prices|
    ensures prices[j] < prices[i]
    decreases j - i
  {
    assert LossAt(prices, j);
    if i + 1 < j {
      FallingOrder(prices, i, j - 1);
    }
  }

  /** On a rising series the last price is above the 20-day average: the 19
      prices before it are all below it. */
  lemma RisingPriceAboveMa20(prices: seq<real>)
    requires |prices| >= 20 && Rising(prices)
    ensures MovingAverage(prices, 20).Some?
    ensures prices[|prices| - 20] <= MovingAverage(prices, 20).value < prices[|prices| - 1]
  {
    var n := |prices|;
    var first := prices[n - 20..n - 1];
    forall i | 0 <= i < |first|
      ensures prices[n - 20] <= first[i] <= prices[n - 2]
    {
      assert first[i] == prices[n - 20 + i];
      if 0 < i {
        RisingOrder(prices, n - 20, n - 20 + i);
      }
      if i < 18 {
        RisingOrder(prices, n - 20 + i, n - 2);
      }
    }
    SumBounds(first, prices[n - 20], prices[n - 2]);
    RisingOrder(prices, n - 2, n - 1);
    assert prices[n - 20..] == first + [prices[n - 1]];
    SumAppend(first, [prices[n - 1]]);
    assert Sum([prices[n - 1]]) == prices[n - 1];
  }

  /** On a falling series the last price is below the 20-day average. */
  lemma FallingPriceBelowMa20(prices: seq<real>)
    requires |prices| >= 20 && Falling(prices)
    ensures MovingAverage(prices, 20).Some?
    ensures prices[|prices| - 1] < MovingAverage(prices, 20).value <= prices[|prices| - 20]
  {
    var n := |prices|;
    var first := prices[n - 20..n - 1];
    forall i | 0 <= i < |first|
      ensures prices[n - 2] <= first[i] <= prices[n - 20]
    {
      assert first[i] == prices[n - 20 + i];
      if 0 < i {
        FallingOrder(prices, n - 20, n - 20 + i);
      }
      if i < 18 {
        FallingOrder(prices, n - 20 + i, n - 2);
      }
    }
    SumBounds(first, prices[n - 2], prices[n - 20]);
    FallingOrder(prices, n - 2, n - 1);
    assert prices[n - 20..] == first + [prices[n - 1]];
    SumAppend(first, [prices[n - 1]]);
    assert Sum([prices[n - 1]]) == prices[n - 1];
  }

  /** The 50-day average splits into the 30 older prices and the 20-day window. */
  lemma Ma50Split(prices: seq<real>)
    requires |prices| >= 50
    ensures MovingAverage(prices, 50).Some? && MovingAverage(prices, 20).Some?
    ensures MovingAverage(prices, 50).value
            == (Sum(prices[|prices| - 50..|prices| - 20]) + 20.0 * MovingAverage(prices, 20).value) / 50.0
  {
    var n := |prices|;
    assert prices[n - 50..] == prices[n - 50..n - 20] + prices[n - 20..];
    SumAppend(prices[n - 50..n - 20], prices[n - 20..]);
  }

  /** On a rising series of at least 50 prices the averages stack bullishly:
      the last price is above ma20 and ma20 is above ma50. */
  lemma RisingAverages(prices: seq<real>)
    requires |prices| >= 50 && Rising(prices)
    ensures MovingAverage(prices, 20).Some? && MovingAverage(prices, 50).Some?
    ensures prices[|prices| - 1] > MovingAverage(prices, 20).value > MovingAverage(prices, 50).value
  {
    var n := |prices|;
    RisingPriceAboveMa20(prices);
    Ma50Split(prices);
    var older := prices[n - 50..n - 20];
    forall i | 0 <= i < |older|
      ensures prices[n - 50] <= older[i] <= prices[n - 21]
    {
      assert older[i] == prices[n - 50 + i];
      if 0 < i {
        RisingOrder(prices, n - 50, n - 50 + i);
      }
      if i < 29 {
        RisingOrder(prices, n - 50 + i, n - 21);
      }
    }
    SumBounds(older, prices[n - 50], prices[n - 21]);
    RisingOrder(prices, n - 21, n - 20);
  }

  /** On a falling series of at least 50 prices the averages stack bearishly:
      the last price is below ma20 and ma20 is below ma50. */
  lemma FallingAverages(prices: seq<real>)
    requires |prices| >= 50 && Falling(prices)
    ensures MovingAverage(prices, 20).Some? && MovingAverage(prices, 50).Some?
    ensures prices[|prices| - 1] < MovingAverage(prices, 20).value < MovingAverage(prices, 50).value
  {
    var n := |prices|;
    FallingPriceBelowMa20(prices);
    Ma50Split(prices);
    var older := prices[n - 50..n - 20];
    forall i | 0 <= i < |older|
      ensures prices[n - 21] <= older[i] <= prices[n - 50]
    {
      assert older[i] == prices[n - 50 + i];
      if 0 < i {
        FallingOrder(prices, n - 50, n - 50 + i);
      }
      if i < 29 {
        FallingOrder(prices, n - 50 + i, n - 21);
      }
    }
    SumBounds(older, prices[n - 21], prices[n - 50]);
    FallingOrder(prices, n - 21, n - 20);
  }

  /** A constant positive ratio keeps a positive first price positive. */
  lemma {:induction false} ConstantRatioPositive(prices: seq<real>, k: real, i: int)
    requires ConstantRatio(prices, k) && 0.0 < k && 0 <= i < |prices| && 0.0 < prices[0]
    ensures 0.0 < prices[i]
  {
    if 0 < i {
      ConstantRatioPositive(prices, k, i - 1);
      assert RatioAt(prices, k, i);
    }
  }

  /** Bernoulli's lower bound 1 + m(q - 1) on q^m. */
  function Bernoulli(q: real, m: nat): real {
    1.0 + m as real * (q - 1.0)
  }

  /** One step of Bernoulli's inequality: for q >= 1 and x >= 0,
      q (1 + (m-1)(q-1)) x >= (1 + m(q-1)) x. */
  lemma BernoulliStep(q: real, m: nat, x: real)
    requires 1.0 <= q && 1 <= m && 0.0 <= x
    ensures q * (Bernoulli(q, m - 1) * x) >= Bernoulli(q, m) * x
  {
    var e := q - 1.0;
    var a := Bernoulli(q, m - 1);
    ProductNonnegative((m - 1) as real * e, e);
    assert q * a == a + e + (m - 1) as real * e * e;
    assert q * a >= Bernoulli(q, m);
    assert q * (a * x) == (q * a) * x;
    MultiplyMonotone(x, Bernoulli(q, m), q * a);
    assert (q * a) * x == x * (q * a);
  }

  lemma MultiplyMonotone(c: real, a: real, b: real)
    requires 0.0 <= c && a <= b
    ensures c * a <= c * b
  {
    ProductNonnegative(b - a, c);
    assert c * b - c * a == (b - a) * c;
  }

  /** Bernoulli's inequality along a run of equal ratios q >= 1: m steps
      forward from a positive price multiply it by at least 1 + m(q-1). */
  lemma {:induction false} GrowthAtLeast(prices: seq<real>, q: real, j: nat, m: nat)
    requires j + m < |prices| && 1.0 <= q && 0.0 < prices[j]
    requires forall i :: j < i <= j + m ==> RatioAt(prices, q, i)
    ensures prices[j + m] >= Bernoulli(q, m) * prices[j]
  {
    if 0 < m {
      GrowthAtLeast(prices, q, j, m - 1);
      var lower := Bernoulli(q, m - 1) * prices[j];
      MultiplyMonotone(q, lower, prices[j + m - 1]);
      BernoulliStep(q, m, prices[j]);
      assert RatioAt(prices, q, j + m);
    }
  }

  /** The same read backwards: along a run of equal ratios 0 < k <= 1 the
      price m steps back is at least 1 + m(1/k - 1) times a positive price. */
  lemma {:induction false} DecayAtLeast(prices: seq<real>, k: real, j: nat, m: nat)
    requires j + m < |prices| && 0.0 < k <= 1.0 && 0.0 < prices[j + m]
    requires forall i :: j < i <= j + m ==> RatioAt(prices, k, i)
    ensures prices[j] >= Bernoulli(1.0 / k, m) * prices[j + m]
    decreases m
  {
    if 0 < m {
      var q := 1.0 / k;
      ReciprocalAntitone(k, 1.0);
      DecayAtLeast(prices, k, j + 1, m - 1);
      var lower := Bernoulli(q, m - 1) * prices[j + m];
      MultiplyMonotone(q, lower, prices[j + 1]);
      BernoulliStep(q, m, prices[j + m]);
      assert RatioAt(prices, k, j + 1);
      assert q * prices[j + 1] == (q * k) * prices[j];
    }
  }

  /** A ratio above 1 from a positive first price makes the series rising. */
  lemma ConstantRatioRising(prices: seq<real>, k: real)
    requires ConstantRatio(prices, k) && 1.0 < k && 0 < |prices| && 0.0 < prices[0]
    ensures Rising(prices)
  {
    forall i | 0 < i < |prices|
      ensures GainAt(prices, i)
    {
      ConstantRatioPositive(prices, k, i - 1);
      assert RatioAt(prices, k, i);
      assert prices[i] - prices[i - 1] == (k - 1.0) * prices[i - 1];
      assert 0.0 < (k - 1.0) * prices[i - 1];
    }
  }

  /** A ratio in (0, 1) from a positive first price makes the series falling. */
  lemma ConstantRatioFalling(prices: seq<real>, k: real)
    requires ConstantRatio(prices, k) && 0.0 < k < 1.0 && 0 < |prices| && 0.0 < prices[0]
    ensures Falling(prices)
  {
    forall i | 0 < i < |prices|
      ensures LossAt(prices, i)
    {
      ConstantRatioPositive(prices, k, i - 1);
      assert RatioAt(prices, k, i);
      assert prices[i - 1] - prices[i] == (1.0 - k) * prices[i - 1];
      assert 0.0 < (1.0 - k) * prices[i - 1];
    }
  }

  /** A ratio of at least 1.005 gives a 20-day return of at least 0.1:
      the 20 steps multiply the price by at least 1 + 20 * 0.005. */
  lemma RisingConstantRatioReturn(prices: seq<real>, k: real)
    requires |prices| >= 21 && ConstantRatio(prices, k) && 1.005 <= k && 0.0 < prices[0]
    ensures PeriodReturn(prices, 20).Some? && 0.1 <= PeriodReturn(prices, 20).value
  {
    var n := |prices|;
    var base := prices[n - 21];
    ConstantRatioPositive(prices, k, n - 21);
    GrowthAtLeast(prices, k, n - 21, 20);
    MultiplyMonotone(base, 1.1, Bernoulli(k, 20));
    assert 1.1 * base <= prices[n - 1];
    Rounding.DivideMonotone(1.1 * base, prices[n - 1], base);
    assert (1.1 * base) / base == 1.1;
  }

  /** A ratio of at most 0.995 gives a 20-day return of at most -20/219:
      read backwards each step multiplies by 1/k >= 200/199, so the base is
      at least 1 + 20/199 times the current price. */
  lemma FallingConstantRatioReturn(prices: seq<real>, k: real)
    requires |prices| >= 21 && ConstantRatio(prices, k) && 0.0 < k <= 0.995 && 0.0 < prices[0]
    ensures PeriodReturn(prices, 20).Some? && PeriodReturn(prices, 20).value <= -20.0 / 219.0
  {
    var n := |prices|;
    ReciprocalAntitone(k, 0.995);
    ConstantRatioPositive(prices, k, n - 1);
    ConstantRatioPositive(prices, k, n - 21);
    DecayAtLeast(prices, k, n - 21, 20);
    var now, base := prices[n - 1], prices[n - 21];
    MultiplyMonotone(now, 219.0 / 199.0, Bernoulli(1.0 / k, 20));
    assert now <= (199.0 / 219.0) * base;
    Rounding.DivideMonotone(now, (199.0 / 219.0) * base, base);
    assert ((199.0 / 219.0) * base) / base == 199.0 / 219.0;
  }

  lemma ReciprocalAntitone(a: real, b: real)
    requires 0.0 < a <= b
    ensures 1.0 / b <= 1.0 / a
  {
    assert 1.0 / a - 1.0 / b == (b - a) / (a * b);
    QuotientNonnegative(b - a, a * b);
  }
}
