# stockwatch trend engine and digest, in Dafny

stockwatch computes technical indicators over each watched ticker's
oldest-first price and volume history, turns them into a 0–100 trend score with
an Uptrend / Downtrend / Sideways label, and builds a daily digest that counts
the labels, averages the strength and ranks the tickers into top-N lists.

This project models three parts of it and proves properties about each part:

- **The indicators** (`Indicators`):
  - a simple moving average;
  - Wilder-smoothed RSI, both as the loop the program runs (`Rsi`) and as a reference fold (`WilderRsi`), proved equal;
  - the n-day return;
  - annualised volatility;
  - the volume-spike flag.

  Each numeric indicator is `None` when the history is too short.
- **The trend classifier** (`Trend`):
  - the three sub-score tables: moving-average alignment, momentum clamp and volatility buckets;
  - the weighted composite, clamped to [0, 100];
  - the label, decided on the unrounded composite against the caller's thresholds;
  - `Classify`, which builds the whole `TrendResult`.
- **The digest** (`Digest`):
  - `DigestData`, a class whose `Build` method fills the counts, the average strength and the five lists in place;
  - `top_movers_dict`;
  - the hard length cut applied to the rendered tweet.

Supporting modules:

- `Wrappers` holds the `Option` type.
- `Series` defines `sum` and the mean.
- `Rounding` defines Python's `round(x, k)` on exact reals.
- `Ranking` covers `sorted(..., key, reverse)` as a stable insertion sort, and the prefix slice `xs[:n]`.

Modelling choices:

- **Exact arithmetic.** Prices and scores are exact `real`s.
- **Rounding.** `round(x, k)` is round-half-to-even of the exact value.
- **Square root.** `math.sqrt` is a parameter `sqrt: real -> real`. Lemmas that need its meaning assume `IsSqrt(sqrt)`: a non-negative square root.
- **Defaults.** The program's default arguments are Dafny default parameter values: RSI period 14, volatility period 20, volume-spike multiplier 2.0 and window 20, the thresholds 62.0 and 38.0 and multiplier 2.0 of `classify`, `top_n` 5 of `build` and `max_chars` 280 of `render_tweet`.
- **Stored rows.** An indicator row keeps its label as the stored string. Its volume-anomaly flag is the stored integer, truthy when nonzero.

## Model

| member | source | states |
|---|---|---|
| Indicators.MovingAverage | stockwatch/indicators.py:19-24 | `None` exactly when fewer than `window` prices are given |
| Indicators.MovingAverageIgnoresOlderHistory | stockwatch/indicators.py:23-24 | prepending any older history leaves the average unchanged once `window` prices are present |
| Indicators.MovingAverageWithin | stockwatch/indicators.py:23-24 | if the last `window` prices lie in [lo, hi], the average exists and lies in [lo, hi] |
| Indicators.MovingAverageOfConstant | stockwatch/indicators.py:23-24 | `window` equal prices average to that price |
| Indicators.Deltas | stockwatch/indicators.py:38 | one day-over-day change per consecutive pair of prices |
| Indicators.AverageGain | stockwatch/indicators.py:41-50 | the seeded and Wilder-smoothed average gain is never negative |
| Indicators.AverageLoss | stockwatch/indicators.py:42-51 | the seeded and Wilder-smoothed average loss is never negative |
| Indicators.WilderRsi | stockwatch/indicators.py:29-56 | the reference RSI is `None` exactly when fewer than `period + 1` prices are given |
| Indicators.Rsi | stockwatch/indicators.py:29-56 | the loop computes exactly `WilderRsi`: `None` iff fewer than `period + 1` prices, otherwise a value in [0, 100]; the loop invariant keeps both averages at the fold of the deltas so far and non-negative |
| Indicators.SeedNonnegative | stockwatch/indicators.py:41-44 | the seed average of non-negative gains or losses is non-negative, and positive when all of them are positive |
| Indicators.SmoothGainsExtend | stockwatch/indicators.py:47-50 | one more loop step folds in the gain of the next delta |
| Indicators.SmoothLossesExtend | stockwatch/indicators.py:47-51 | one more loop step folds in the loss of the next delta |
| Indicators.SmoothNonnegative | stockwatch/indicators.py:47-51 | Wilder smoothing keeps a non-negative average non-negative, and a positive one positive on positive inputs |
| Indicators.StepNonnegative | stockwatch/indicators.py:50-51 | one Wilder update of non-negative values is non-negative, and positive on positive values |
| Indicators.SmoothOfZeros | stockwatch/indicators.py:47-51 | smoothing zeros from a zero seed stays exactly zero |
| Indicators.RawRsiWithin | stockwatch/indicators.py:55-56 | with rs >= 0, `100 - 100 / (1 + rs)` lies in [0, 100) |
| Indicators.RsiFromAveragesWithin | stockwatch/indicators.py:53-56 | the final step (100 on zero loss, else the rounded value) lies in [0, 100] |
| Indicators.RsiWithin | stockwatch/indicators.py:29-56 | an available RSI lies in [0, 100] |
| Indicators.AverageLossWithoutLosses | stockwatch/indicators.py:41-51 | a series in which no price falls has average loss exactly 0 |
| Indicators.AverageGainWithoutGains | stockwatch/indicators.py:41-50 | a series in which no price rises has average gain exactly 0 |
| Indicators.AverageLossAllLosses | stockwatch/indicators.py:41-51 | a series in which every price falls has a positive average loss |
| Indicators.RsiWithoutLosses | stockwatch/indicators.py:53-54 | no falling price (e.g. strictly increasing): RSI is exactly 100 |
| Indicators.RsiAllLosses | stockwatch/indicators.py:53-56 | every price falling: RSI is exactly 0 |
| Indicators.PeriodReturn | stockwatch/indicators.py:61-72 | `None` iff fewer than `n + 1` prices or a zero base price; otherwise `prices[-1] == prices[-(n+1)] * (1 + r)` |
| Indicators.PeriodReturnUnchanged | stockwatch/indicators.py:68-72 | equal current and base prices give a return of exactly 0 |
| Indicators.DailyReturns | stockwatch/indicators.py:86 | one daily return per consecutive pair of the tail |
| Indicators.Volatility | stockwatch/indicators.py:77-91 | `None` exactly when fewer than `period + 1` prices are given |
| Indicators.VarianceNonnegative | stockwatch/indicators.py:88-89 | the population variance is never negative |
| Indicators.VarianceOfConstant | stockwatch/indicators.py:88-89 | equal daily returns have variance exactly 0 |
| Indicators.VolatilityNonnegative | stockwatch/indicators.py:83-91 | an available volatility is never negative |
| Indicators.VolatilityOfConstantRatio | stockwatch/indicators.py:77-91 | when every daily return in the window is the same ratio (flat and constant-percentage series), volatility is exactly 0 |
| Indicators.VolumeAnomaly | stockwatch/indicators.py:96-106 | true iff there are `window + 1` volumes, the prior average (today excluded) is nonzero and today's volume is at least `multiplier` times it |
| Indicators.VolumeAnomalyMonotoneInToday | stockwatch/indicators.py:103-106 | raising today's volume never removes a spike |
| Indicators.VolumeAnomalyConstantPrior | stockwatch/indicators.py:103-106 | a prior window of equal nonzero volumes c flags a spike iff today >= multiplier * c |
| Indicators.VolumeAnomalyZeroPrior | stockwatch/indicators.py:104-105 | an all-zero prior window never flags a spike |
| Indicators.RisingOrder | tests/unit/test_trend.py:99-105 | in a strictly rising series every earlier price is below every later one |
| Indicators.FallingOrder | tests/unit/test_trend.py:107-112 | in a strictly falling series every earlier price is above every later one |
| Indicators.RisingPriceAboveMa20 | stockwatch/indicators.py:19-24 | in a rising series of at least 20 prices, ma20 lies between the oldest price of the window and strictly below the latest |
| Indicators.FallingPriceBelowMa20 | stockwatch/indicators.py:19-24 | in a falling series of at least 20 prices, ma20 lies strictly above the latest price and at most the oldest of the window |
| Indicators.Ma50Split | stockwatch/indicators.py:19-24 | ma50 is the 30 older prices' sum plus 20 times ma20, over 50 |
| Indicators.RisingAverages | tests/unit/test_trend.py:99-105 | a rising series of at least 50 prices stacks price > ma20 > ma50 |
| Indicators.FallingAverages | tests/unit/test_trend.py:107-112 | a falling series of at least 50 prices stacks price < ma20 < ma50 |
| Indicators.ConstantRatioPositive | tests/unit/test_trend.py:10-17 | a series of constant positive ratio from a positive first price stays positive |
| Indicators.BernoulliStep | tests/unit/test_trend.py:10-12 | one more step of growth ratio q >= 1 multiplies the Bernoulli bound 1 + m(q - 1) at least as far as the next bound |
| Indicators.GrowthAtLeast | tests/unit/test_trend.py:10-12 | along m equal ratios q >= 1 the price grows by at least the factor 1 + m(q - 1) |
| Indicators.DecayAtLeast | tests/unit/test_trend.py:15-17 | along m equal ratios 0 < k <= 1 the price m steps back is at least 1 + m(1/k - 1) times the later one |
| Indicators.ConstantRatioRising | tests/unit/test_trend.py:10-12 | a ratio above 1 from a positive price, such as 100 * 1.005^i, makes the series strictly rising |
| Indicators.ConstantRatioFalling | tests/unit/test_trend.py:15-17 | a ratio in (0, 1) from a positive price, such as 200 * 0.995^i, makes the series strictly falling |
| Indicators.RisingConstantRatioReturn | stockwatch/indicators.py:61-72 | a ratio of at least 1.005 gives a 20-day return of at least 0.1 |
| Indicators.FallingConstantRatioReturn | stockwatch/indicators.py:61-72 | a ratio in (0, 0.995] gives a 20-day return of at most -20/219 |
| Trend.Clamp100 | stockwatch/trend.py:113 | the clamp lands in [0, 100] and leaves values already inside unchanged |
| Trend.MaScore | stockwatch/trend.py:39-56 | 50 with no MA; 70 / 30 against a single MA (ties give 30); with both, 90 / 60 above ma20, 10 / 40 below it, and 50 iff the price equals ma20; always in [10, 90] |
| Trend.MaScoreMonotoneInPrice | stockwatch/trend.py:39-56 | with the averages fixed, a higher price never lowers the score |
| Trend.MomentumScore | stockwatch/trend.py:59-64 | 50 for `None`; otherwise in [0, 100], equal to `50 + 350 r` between r = -1/7 and 1/7, 100 from 1/7 and 0 from -1/7 |
| Trend.MomentumScoreMonotone | stockwatch/trend.py:59-64 | a larger return never lowers the momentum score |
| Trend.VolatilityScore | stockwatch/trend.py:67-77 | 50 for `None`; otherwise 70 / 55 / 40 / 25 exactly on the buckets [.., 0.15), [0.15, 0.25), [0.25, 0.40), [0.40, ..); always in [25, 70] |
| Trend.VolatilityScoreAntitone | stockwatch/trend.py:67-77 | a higher volatility never scores higher |
| Trend.Composite | stockwatch/trend.py:112-113 | the composite lies in [0, 100] and equals the unclamped weighted sum when all four sub-scores lie in [0, 100] (`CompositeOfScores` repeats this clause as a separate proof step) |
| Trend.CompositeOfEqualScores | stockwatch/trend.py:112-113 | four equal in-range sub-scores give that score (the weights sum to 1) |
| Trend.LabelFor | stockwatch/trend.py:115-120 | Uptrend iff composite >= uptrend_min; Downtrend iff below it and <= downtrend_max; Sideways iff strictly between them; Uptrend wins on overlapping thresholds |
| Trend.LabelMonotone | stockwatch/trend.py:115-120 | a higher composite never gives a more bearish label |
| Trend.LabelUsesUnroundedComposite | stockwatch/trend.py:115-124 | a composite of 61.96 reports strength 62.0 yet is Sideways, while 62.0 is Uptrend |
| Trend.Classify | stockwatch/trend.py:80-134 | composite in [0, 100], strength is it rounded to one decimal, label decided on the unrounded composite |
| Trend.ClassifyCompositeIsBlend | stockwatch/trend.py:107-113 | the clamp never changes the blend: the composite is the weighted sum of the four sub-scores |
| Trend.ClassifyStrengthWithin | stockwatch/trend.py:124 | the reported strength lies in [0, 100] |
| Trend.ClassifyShortHistory | stockwatch/trend.py:96-113 | fewer than 15 prices (including none): every scored indicator is `None`, composite and strength are 50, label Sideways under the defaults |
| Trend.ClassifyThirtyPrices | stockwatch/trend.py:98-104 | with 30 prices ma50 is `None` while the other indicators are present |
| Trend.ClassifyFullHistory | stockwatch/trend.py:98-104 | with at least 50 prices every indicator is present |
| Trend.FlatSeriesIndicators | stockwatch/trend.py:98-104 | a flat nonzero series of 50 prices: both averages equal the price, RSI 100, 20-day return 0, volatility 0 |
| Trend.FlatSeriesRsi | stockwatch/indicators.py:53-54 | a flat series has RSI exactly 100 |
| Trend.FlatSeriesVolatility | stockwatch/indicators.py:77-91 | a flat nonzero series has volatility exactly 0 |
| Trend.FlatSeriesScores | stockwatch/trend.py:107-113 | the flat series' sub-scores 50 / 100 / 50 / 70 blend to 65.5 |
| Trend.ClassifyFlatSeries | stockwatch/trend.py:80-134 | a flat nonzero series of at least 50 prices has composite and strength 65.5 and is labelled Uptrend under the defaults |
| Trend.RisingMaScore | stockwatch/trend.py:48-49 | a rising series of at least 50 prices has MA score 90 |
| Trend.FallingMaScore | stockwatch/trend.py:50-51 | a falling series of at least 50 prices has MA score 10 |
| Trend.RisingConstantRatioIndicators | tests/unit/test_trend.py:42-45 | a series of ratio k >= 1.005 from a positive price: MA score 90, RSI 100, volatility 0, 20-day return at least 0.1 |
| Trend.FallingConstantRatioIndicators | tests/unit/test_trend.py:47-55 | a series of ratio 0 < k <= 0.995 from a positive price: MA score 10, RSI 0, volatility 0, 20-day return at most -20/219 |
| Trend.RisingScores | stockwatch/trend.py:107-124 | sub-scores 90 / 100 / 70 with momentum from a return of at least 0.1 blend, and round, to at least 88 |
| Trend.FallingScores | stockwatch/trend.py:107-124 | sub-scores 10 / 0 / 70 with momentum from a return of at most -20/219 blend, and round, to at most 19 |
| Trend.ClassifyBullishIndicators | stockwatch/trend.py:80-134 | those bullish indicators make an Uptrend with composite and strength at least 88 under the defaults |
| Trend.ClassifyBearishIndicators | stockwatch/trend.py:80-134 | those bearish indicators make a Downtrend with composite and strength at most 19 under the defaults |
| Trend.ClassifyRisingConstantRatio | tests/unit/test_trend.py:35-45 | a series such as 100 * 1.005^i of at least 50 prices is an Uptrend with strength at least 88, so above 80 |
| Trend.ClassifyFallingConstantRatio | tests/unit/test_trend.py:47-55 | a series such as 200 * 0.995^i of at least 50 prices is a Downtrend with strength at most 19, so below 20 |
| Rounding.RoundHalfEven | stockwatch/trend.py:124 | the nearest integer, ties to the even one |
| Rounding.RoundNearest | stockwatch/trend.py:124 | `round(x, k)` is within half a unit of the k-th decimal of x |
| Rounding.RoundMonotone | stockwatch/trend.py:124 | rounding never reverses an order |
| Rounding.RoundInteger | stockwatch/trend.py:124 | whole numbers round to themselves |
| Rounding.RoundWithin | stockwatch/trend.py:124 | a value between whole bounds rounds to a value between them |
| Series.MeanBounds | stockwatch/digest.py:60 | a mean of values in [lo, hi] lies in [lo, hi] |
| Series.MeanConstant | stockwatch/digest.py:60 | a mean of equal values is that value |
| Ranking.Prefix | stockwatch/digest.py:71 | `xs[:n]`: min(n, len) elements for n >= 0, max(0, len + n) for negative n, always a prefix |
| Ranking.InsertPermutation | stockwatch/digest.py:67-71 | one insertion adds exactly the inserted element |
| Ranking.InsertOrdered | stockwatch/digest.py:67-71 | inserting into an ordered list keeps it ordered |
| Ranking.InsertNotPreceding | stockwatch/digest.py:67-71 | an insertion does not create an element strictly ahead of a bound none of its parts exceeded |
| Ranking.InsertWithKey | stockwatch/digest.py:67-71 | an insertion places the element after every element with an equal key |
| Ranking.NoneWithKey | stockwatch/digest.py:67-71 | an ordered list headed by a strictly later key holds no element with the earlier key |
| Ranking.WithKeyAppend | stockwatch/digest.py:67-71 | selecting one key value distributes over concatenation |
| Ranking.SortByPermutation | stockwatch/digest.py:67-71 | `sorted` is a permutation of its input |
| Ranking.SortByOrdered | stockwatch/digest.py:67-71 | `sorted` is ordered by the key in the requested direction |
| Ranking.SortByStable | stockwatch/digest.py:67-71 | `sorted` is stable: elements with one key value keep their input order |
| Ranking.TopNProperties | stockwatch/digest.py:67-71 | the first n of the sort: min(n, len) elements (max(0, len + n) for negative n), ordered, together with the rest a permutation of the input, and no left-over element strictly ahead of one taken |
| Digest.FilterMembers | stockwatch/digest.py:50-52 | a filter keeps exactly the input rows meeting its condition |
| Digest.Filter | stockwatch/digest.py:50-52 | a filter never keeps more rows than it is given |
| Digest.FilterAppend | stockwatch/digest.py:80 | filtering distributes over concatenation, so the anomaly and label lists keep input order |
| Digest.FilterSingleton | stockwatch/digest.py:80 | a single row is kept iff it meets the condition |
| Digest.AverageStrengthWithin | stockwatch/digest.py:58-61 | strengths in [0, 100] average, after rounding, to a value in [0, 100] |
| Digest.AverageStrengthOfEqualRows | stockwatch/digest.py:58-61 | rows of equal whole strength average exactly to it |
| Digest.CountsPartition | stockwatch/digest.py:50-56 | when every row carries one of the three labels, the three counts sum to the number of rows |
| Digest.DigestData.constructor | stockwatch/digest.py:26-43 | a fresh record holds the run date and rows, zero counts, average 0.0 and empty lists |
| Digest.DigestData.Build | stockwatch/digest.py:45-81 | fills every derived field from the rows (total, three label counts, the four sorted top-N lists, the anomalies), assigns the average only when there are rows, and returns the record itself |
| Digest.DigestData.TopMovers | stockwatch/digest.py:83-90 | a map with exactly the five list names, each bound to its list |
| Digest.TopNDrawnFrom | stockwatch/digest.py:67-79 | every row of a top-N list is one of its candidates |
| Digest.DerivedListsDrawnFromRows | stockwatch/digest.py:67-80 | every list of a built record holds only input rows, each with the condition its list filters on |
| Digest.DerivedFromNoRows | stockwatch/digest.py:47-80 | an empty watchlist builds zero counts and empty lists |
| Digest.TopByKey | stockwatch/digest.py:67-79 | a filtered top-N list: min(n, #candidates) rows (max(0, #candidates + n) for negative n) meeting the filter, ordered, no candidate left out strictly ahead of one taken |
| Digest.TopSplit | stockwatch/digest.py:67-79 | for any n, the slice is ordered, has the slice length, and a candidate not taken is never strictly ahead of one taken |
| Digest.TopGainers | stockwatch/digest.py:67-71 | min(top_n, #rows with a 1-day return) rows (max(0, # + top_n) for negative top_n), each with a 1-day return, descending by it, none left out with a larger return |
| Digest.TopLosers | stockwatch/digest.py:73-76 | the same candidates and length, ascending by the 1-day return, none left out with a smaller return |
| Digest.StrongestByLabel | stockwatch/digest.py:78-79 | the rows with the label, descending by strength, min(top_n, #labelled) of them (max(0, # + top_n) for negative top_n), none left out stronger |
| Digest.GainersAndLosersSameRows | stockwatch/digest.py:67-76 | once top_n covers every candidate, gainers and losers hold the same rows as the candidates |
| Digest.GainersKeepTieOrder | stockwatch/digest.py:67-71 | for any top_n, the gainers tied on one return are the first of those candidates in input order, and all of them once top_n covers every candidate |
| Digest.TruncateTweetFits | stockwatch/digest.py:126-129 | with a positive limit the text never exceeds it; a cut text is exactly `max_chars` long, keeps its first `max_chars - 1` characters and ends in the ellipsis |
| Digest.TruncateTweetKeepsShortText | stockwatch/digest.py:127 | a text within the limit is returned unchanged |
| Digest.TruncateTweetNonpositiveLimit | stockwatch/digest.py:127-128 | with a limit of zero or less, the negative slice counts from the end and the result is longer than the limit |

## Left out

- NaN: a series of reals holds no NaN, so `Validate` keeps only the length half of `_validate`.
- Floating point: every computation is on exact reals. Results that depend on binary rounding are not modelled. Examples are a sum of twenty equal floats that is not exactly twenty times the value, and a decimal tie that a binary float cannot hold.
- `math.sqrt` and `math.sqrt(252)` are the parameter `sqrt`. `IsSqrt` gives only what the proofs need: a non-negative root, with `sqrt(0) == 0`.
- Indicators.MovingAverage, Indicators.WilderRsi, Indicators.Rsi, Indicators.Volatility, Indicators.VolumeAnomaly: require a positive window or period. The program would divide by zero there, and a negative window is not modelled.
- Indicators.PeriodReturn: `n` is a `nat`. Python's negative `n`, which would index from the front, is not modelled; `classify` only passes 1, 5 and 20.
- Indicators.Volatility, Trend.Classify: require the divisors of the daily returns to be nonzero (`NonzeroBases`). The program divides by them unguarded.
- Trend.TrendResult: the label field is named `trend` because `label` is reserved in Dafny. The label is the enumeration `Label`, whose strings `LabelName` gives.
- Digest.IndicatorRow: a stored row is a fixed record rather than a dictionary. A missing 1-day return is `None`, and the volume-anomaly flag is the stored integer.
- Digest.Return1dKey reads a missing return as 0.0. The 1-day lists filter such rows out first, so the default never takes effect.
- `_sortable` (stockwatch/digest.py:63-65) is defined and never called, so it is not modelled.
- Digest.DigestData: the run date and the rows are `const`, because `build` only reads them. The run date is kept as a string.
- Digest.DigestData.Build: on an empty input the average strength keeps its previous value, which is 0.0 for a fresh record.
- Rendering: the Jinja templates (e-mail HTML and text, Markdown, the tweet body) and `to_json` are text and JSON formatting. Only the length cut at the end of `render_tweet` is modelled.
- Storage, data providers, delivery, scheduling, configuration and the command line are SQL, network, file and process I/O, and are not part of this model.
