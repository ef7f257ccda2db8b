/** The digest: counts per trend label, the average strength, and the ranked
    top-N lists built from one run's indicator rows; plus the hard length
    cut applied to the rendered tweet. */
module Digest {
  import opened Wrappers
  import Series
  import Rounding
  import Ranking
  import Trend

  /** One stored indicator row. The trend label is free text as stored;
      `volumeAnomaly` is the stored integer flag, truthy when nonzero. */
  datatype IndicatorRow = IndicatorRow(
    ticker: string,
    date: string,
    ma20: Option<real>,
    ma50: Option<real>,
    rsi14: Option<real>,
    return1d: Option<real>,
    return5d: Option<real>,
    return20d: Option<real>,
    volatility20d: Option<real>,
    volumeAnomaly: int,
    trend: string,
    trendStrength: real)

  /** The row conditions the digest filters on. */
  datatype RowFilter = HasReturn1d | HasTrend(wanted: string) | HasVolumeAnomaly

  predicate Keeps(f: RowFilter, r: IndicatorRow) {
    match f
    case HasReturn1d => r.return1d.Some?
    case HasTrend(wanted) => r.trend == wanted
    case HasVolumeAnomaly => r.volumeAnomaly != 0
  }

  /** `[r for r in rows if <condition>]`, at most as many rows as given. */
  function Filter(rows: seq<IndicatorRow>, f: RowFilter): (kept: seq<IndicatorRow>)
    ensures |kept| <= |rows|
  {
    if |rows| == 0 then []
    else (if Keeps(f, rows[0]) then [rows[0]] else []) + Filter(rows[1..], f)
  }

  /** A filter keeps exactly the rows meeting its condition. */
  lemma {:induction false} FilterMembers(rows: seq<IndicatorRow>, f: RowFilter)
    ensures forall r :: r in Filter(rows, f) <==> r in rows && Keeps(f, r)
  {
    if |rows| > 0 {
      FilterMembers(rows[1..], f);
      assert rows == [rows[0]] + rows[1..];
    }
  }

  /** Filtering keeps input order: it distributes over concatenation. */
  lemma {:induction false} FilterAppend(a: seq<IndicatorRow>, b: seq<IndicatorRow>, f: RowFilter)
    ensures Filter(a + b, f) == Filter(a, f) + Filter(b, f)
  {
    if |a| == 0 {
      assert a + b == b;
    } else {
      var head := if Keeps(f, a[0]) then [a[0]] else [];
      var tail := a[1..];
      assert (a + b)[0] == a[0] && (a + b)[1..] == tail + b;
      FilterAppend(tail, b, f);
      var ft, fb := Filter(tail, f), Filter(b, f);
      assert Filter(a + b, f) == head + (ft + fb);
      assert head + (ft + fb) == (head + ft) + fb;
    }
  }

  /** A row meeting the condition is kept; one failing it is dropped. */
  lemma FilterSingleton(r: IndicatorRow, f: RowFilter)
    ensures Filter([r], f) == if Keeps(f, r) then [r] else []
  {
    assert [r][1..] == [];
  }

  /** The keys the lists are sorted on. */
  function Return1dKey(r: IndicatorRow): real {
    r.return1d.GetOr(0.0)
  }

  function StrengthKey(r: IndicatorRow): real {
    r.trendStrength
  }

  /** `sorted(rows, key=key, reverse=descending)[:n]`. */
  function TopN(rows: seq<IndicatorRow>, key: IndicatorRow -> real, descending: bool, n: int): seq<IndicatorRow> {
    Ranking.Prefix(Ranking.SortBy(rows, key, descending), n)
  }

  const UptrendLabel: string := Trend.LabelName(Trend.Uptrend)
  const DowntrendLabel: string := Trend.LabelName(Trend.Downtrend)
  const SidewaysLabel: string := Trend.LabelName(Trend.Sideways)

  /** The rows' strengths, in order: the terms that `avg_strength` averages. */
  function Strengths(rows: seq<IndicatorRow>): (s: seq<real>)
    ensures |s| == |rows|
    ensures forall i :: 0 <= i < |rows| ==> s[i] == rows[i].trendStrength
  {
    seq(|rows|, i requires 0 <= i < |rows| => rows[i].trendStrength)
  }

  /** The average strength, rounded to one decimal. */
  function AverageStrength(rows: seq<IndicatorRow>): real
    requires |rows| > 0
  {
    Rounding.Round(Series.Mean(Strengths(rows)), 1)
  }

  /** Strengths in [0, 100] average, after rounding, to a value in [0, 100]. */
  lemma AverageStrengthWithin(rows: seq<IndicatorRow>)
    requires |rows| > 0
    requires forall i :: 0 <= i < |rows| ==> 0.0 <= rows[i].trendStrength <= 100.0
    ensures 0.0 <= AverageStrength(rows) <= 100.0
  {
    Series.MeanBounds(Strengths(rows), 0.0, 100.0);
    Rounding.RoundWithin(Series.Mean(Strengths(rows)), 0, 100, 1);
  }

  /** Rows that all carry the same whole strength average to it exactly. */
  lemma AverageStrengthOfEqualRows(rows: seq<IndicatorRow>, k: int)
    requires |rows| > 0
    requires forall i :: 0 <= i < |rows| ==> rows[i].trendStrength == k as real
    ensures AverageStrength(rows) == k as real
  {
    Series.MeanConstant(Strengths(rows), k as real);
    Rounding.RoundInteger(k, 1);
  }

  predicate KnownLabel(r: IndicatorRow) {
    r.trend == UptrendLabel || r.trend == DowntrendLabel || r.trend == SidewaysLabel
  }

  /** When every row carries one of the three labels, the three per-label
      counts add up to the number of rows. */
  lemma {:induction false} CountsPartition(rows: seq<IndicatorRow>)
    requires forall i :: 0 <= i < |rows| ==> KnownLabel(rows[i])
    ensures |Filter(rows, HasTrend(UptrendLabel))| + |Filter(rows, HasTrend(DowntrendLabel))|
            + |Filter(rows, HasTrend(SidewaysLabel))| == |rows|
  {
    if |rows| > 0 {
      assert KnownLabel(rows[0]);
      CountsPartition(rows[1..]);
    }
  }

  /** The mutable digest record: the run date and the raw rows, set once at
      construction and only read afterwards, and the fields `Build` derives
      from them. */
  class DigestData {
    const runDate: string
    const indicators: seq<IndicatorRow>
    var total: int
    var uptrendCount: int
    var downtrendCount: int
    var sidewaysCount: int
    var avgStrength: real
    var topGainers: seq<IndicatorRow>
    var topLosers: seq<IndicatorRow>
    var strongestUp: seq<IndicatorRow>
    var strongestDown: seq<IndicatorRow>
    var volumeAnomalies: seq<IndicatorRow>

    /** A fresh record: every derived field at its default. */
    constructor (runDate: string, indicators: seq<IndicatorRow>)
      ensures this.runDate == runDate && this.indicators == indicators
      ensures total == 0 && uptrendCount == 0 && downtrendCount == 0 && sidewaysCount == 0
      ensures avgStrength == 0.0
      ensures topGainers == [] && topLosers == [] && strongestUp == [] && strongestDown == []
      ensures volumeAnomalies == []
    {
      this.runDate := runDate;
      this.indicators := indicators;
      total := 0;
      uptrendCount := 0;
      downtrendCount := 0;
      sidewaysCount := 0;
      avgStrength := 0.0;
      topGainers := [];
      topLosers := [];
      strongestUp := [];
      strongestDown := [];
      volumeAnomalies := [];
    }

    /** Every field `Build` derives, except the average strength, as a
        function of the rows and `topN`. */
    ghost predicate Derived(topN: int)
      reads this
    {
      && total == |indicators|
      && uptrendCount == |Filter(indicators, HasTrend(UptrendLabel))|
      && downtrendCount == |Filter(indicators, HasTrend(DowntrendLabel))|
      && sidewaysCount == |Filter(indicators, HasTrend(SidewaysLabel))|
      && topGainers == TopN(Filter(indicators, HasReturn1d), Return1dKey, true, topN)
      && topLosers == TopN(Filter(indicators, HasReturn1d), Return1dKey, false, topN)
      && strongestUp == TopN(Filter(indicators, HasTrend(UptrendLabel)), StrengthKey, true, topN)
      && strongestDown == TopN(Filter(indicators, HasTrend(DowntrendLabel)), StrengthKey, true, topN)
      && volumeAnomalies == Filter(indicators, HasVolumeAnomaly)
    }

    /** `build`: derives every field from the rows in place and returns the
        record itself. The average strength is assigned only when there are
        rows; on an empty input it keeps its previous value. */
    method Build(topN: int := 5) returns (self: DigestData)
      modifies this
      ensures self == this
      ensures Derived(topN)
      ensures avgStrength == if |indicators| > 0 then AverageStrength(indicators) else old(avgStrength)
    {
      var rows := indicators;
      var up := Filter(rows, HasTrend(UptrendLabel));
      var dn := Filter(rows, HasTrend(DowntrendLabel));
      var sw := Filter(rows, HasTrend(SidewaysLabel));
      var avg := avgStrength;  // kept when there are no rows
      if |rows| != 0 {
        avg := AverageStrength(rows);
      }
      var withReturn := Filter(rows, HasReturn1d);

      total, uptrendCount, downtrendCount, sidewaysCount := |rows|, |up|, |dn|, |sw|;
      avgStrength := avg;
      topGainers, topLosers := TopN(withReturn, Return1dKey, true, topN), TopN(withReturn, Return1dKey, false, topN);
      strongestUp, strongestDown := TopN(up, StrengthKey, true, topN), TopN(dn, StrengthKey, true, topN);
      volumeAnomalies := Filter(rows, HasVolumeAnomaly);
      self := this;
    }

    /** `top_movers_dict`: the five derived lists, each under its own name. */
    function TopMovers(): (m: map<string, seq<IndicatorRow>>)
      reads this
      ensures m.Keys == {"top_gainers", "top_losers", "strongest_up", "strongest_down", "volume_anomalies"}
      ensures && m["top_gainers"] == topGainers && m["top_losers"] == topLosers
              && m["strongest_up"] == strongestUp && m["strongest_down"] == strongestDown
              && m["volume_anomalies"] == volumeAnomalies
    {
      map["top_gainers" := topGainers,
          "top_losers" := topLosers,
          "strongest_up" := strongestUp,
          "strongest_down" := strongestDown,
          "volume_anomalies" := volumeAnomalies]
    }
  }

  /** Every row of a sorted top-N list is a row of its candidates. */
  lemma TopNDrawnFrom(rows: seq<IndicatorRow>, key: IndicatorRow -> real, descending: bool, n: int)
    ensures forall r :: r in TopN(rows, key, descending, n) ==> r in rows
  {
    var sorted := Ranking.SortBy(rows, key, descending);
    Ranking.SortByPermutation(rows, key, descending);
    forall r | r in TopN(rows, key, descending, n)
      ensures r in rows
    {
      assert r in sorted;
      assert r in multiset(sorted);
    }
  }

  /** No list of a built record holds a row that is not an input row. */
  lemma DerivedListsDrawnFromRows(d: DigestData, topN: int)
    requires d.Derived(topN)
    ensures forall r :: r in d.topGainers ==> r in d.indicators && r.return1d.Some?
    ensures forall r :: r in d.topLosers ==> r in d.indicators && r.return1d.Some?
    ensures forall r :: r in d.strongestUp ==> r in d.indicators && r.trend == UptrendLabel
    ensures forall r :: r in d.strongestDown ==> r in d.indicators && r.trend == DowntrendLabel
    ensures forall r :: r in d.volumeAnomalies ==> r in d.indicators && r.volumeAnomaly != 0
  {
    FilterMembers(d.indicators, HasReturn1d);
    FilterMembers(d.indicators, HasTrend(UptrendLabel));
    FilterMembers(d.indicators, HasTrend(DowntrendLabel));
    FilterMembers(d.indicators, HasVolumeAnomaly);
    var withReturn := Filter(d.indicators, HasReturn1d);
    TopNDrawnFrom(withReturn, Return1dKey, true, topN);
    TopNDrawnFrom(withReturn, Return1dKey, false, topN);
    TopNDrawnFrom(Filter(d.indicators, HasTrend(UptrendLabel)), StrengthKey, true, topN);
    TopNDrawnFrom(Filter(d.indicators, HasTrend(DowntrendLabel)), StrengthKey, true, topN);
  }

  /** An empty watchlist: a built record counts nothing and every list is empty. */
  lemma DerivedFromNoRows(d: DigestData, topN: int)
    requires d.Derived(topN) && |d.indicators| == 0
    ensures d.total == 0 && d.uptrendCount == 0 && d.downtrendCount == 0 && d.sidewaysCount == 0
    ensures d.topGainers == [] && d.topLosers == [] && d.strongestUp == [] && d.strongestDown == []
    ensures d.volumeAnomalies == []
  {
  }

  /** The top gainers: `min(topN, #rows with a 1-day return)` input rows
      (for a negative topN, all but the last -topN of them),
      each with a 1-day return (for these rows `Return1dKey` is that return),
      in descending order of it, and no row left out has a larger return than
      any row taken. */
  lemma TopGainers(rows: seq<IndicatorRow>, topN: int)
    ensures var candidates := Filter(rows, HasReturn1d);
            var gainers := TopN(candidates, Return1dKey, true, topN);
            && |gainers| == (if topN >= 0 then Ranking.Min(topN, |candidates|) else Ranking.Max(0, |candidates| + topN))
            && (forall r :: r in gainers ==> r in rows && r.return1d.Some?)
            && (forall i, j :: 0 <= i < j < |gainers| ==> Return1dKey(gainers[i]) >= Return1dKey(gainers[j]))
            && (forall r, g :: r in candidates && r !in gainers && g in gainers ==> Return1dKey(r) <= Return1dKey(g))
  {
    TopByKey(rows, HasReturn1d, Return1dKey, true, topN);
    var candidates := Filter(rows, HasReturn1d);
    var gainers := TopN(candidates, Return1dKey, true, topN);
    assert forall r :: r in gainers ==> r.return1d.Some? by {
      FilterMembers(rows, HasReturn1d);
    }
    forall i, j | 0 <= i < j < |gainers|
      ensures Return1dKey(gainers[i]) >= Return1dKey(gainers[j])
    {
      assert !Ranking.Precedes(gainers[j], gainers[i], Return1dKey, true);
    }
    forall r, g | r in candidates && r !in gainers && g in gainers
      ensures Return1dKey(r) <= Return1dKey(g)
    {
      assert !Ranking.Precedes(r, g, Return1dKey, true);
    }
  }

  /** The top losers: the same rows as the gainers' candidates, in ascending
      order of the 1-day return, and no row left out has a smaller return than
      any row taken. */
  lemma TopLosers(rows: seq<IndicatorRow>, topN: int)
    ensures var candidates := Filter(rows, HasReturn1d);
            var losers := TopN(candidates, Return1dKey, false, topN);
            && |losers| == (if topN >= 0 then Ranking.Min(topN, |candidates|) else Ranking.Max(0, |candidates| + topN))
            && (forall r :: r in losers ==> r in rows && r.return1d.Some?)
            && (forall i, j :: 0 <= i < j < |losers| ==> Return1dKey(losers[i]) <= Return1dKey(losers[j]))
            && (forall r, l :: r in candidates && r !in losers && l in losers ==> Return1dKey(r) >= Return1dKey(l))
  {
    TopByKey(rows, HasReturn1d, Return1dKey, false, topN);
    var candidates := Filter(rows, HasReturn1d);
    var losers := TopN(candidates, Return1dKey, false, topN);
    assert forall r :: r in losers ==> r.return1d.Some? by {
      FilterMembers(rows, HasReturn1d);
    }
    forall i, j | 0 <= i < j < |losers|
      ensures Return1dKey(losers[i]) <= Return1dKey(losers[j])
    {
      assert !Ranking.Precedes(losers[j], losers[i], Return1dKey, false);
    }
    forall r, l | r in candidates && r !in losers && l in losers
      ensures Return1dKey(r) >= Return1dKey(l)
    {
      assert !Ranking.Precedes(r, l, Return1dKey, false);
    }
  }

  /** A filtered, sorted top-N list: `min(n, #candidates)` input rows (all
      but the last -n for a negative n), each
      meeting the filter, ordered by the key, none left out strictly ahead of
      any taken. */
  lemma TopByKey(rows: seq<IndicatorRow>, f: RowFilter, key: IndicatorRow -> real, descending: bool, n: int)
    ensures var candidates := Filter(rows, f);
            var top := TopN(candidates, key, descending, n);
            && |top| == (if n >= 0 then Ranking.Min(n, |candidates|) else Ranking.Max(0, |candidates| + n))
            && (forall r :: r in top ==> r in rows && Keeps(f, r))
            && Ranking.Ordered(top, key, descending)
            && (forall r, t :: r in candidates && r !in top && t in top ==> !Ranking.Precedes(r, t, key, descending))
  {
    var candidates := Filter(rows, f);
    var top := TopN(candidates, key, descending, n);
    assert forall r :: r in top ==> r in rows && Keeps(f, r) by {
      FilterMembers(rows, f);
      TopNDrawnFrom(candidates, key, descending, n);
    }
    TopSplit(candidates, key, descending, n);
  }

  /** The strongest up and down lists: `min(topN, #rows with the label)`
      (all but the last -topN for a negative topN)
      input rows with that label, by descending strength, and no row with the
      label left out is stronger than any row taken. */
  lemma StrongestByLabel(rows: seq<IndicatorRow>, wanted: string, topN: int)
    ensures var candidates := Filter(rows, HasTrend(wanted));
            var strongest := TopN(candidates, StrengthKey, true, topN);
            && |strongest| == (if topN >= 0 then Ranking.Min(topN, |candidates|) else Ranking.Max(0, |candidates| + topN))
            && (forall r :: r in strongest ==> r in rows && r.trend == wanted)
            && (forall i, j :: 0 <= i < j < |strongest| ==> strongest[i].trendStrength >= strongest[j].trendStrength)
            && (forall r, s :: r in candidates && r !in strongest && s in strongest ==> r.trendStrength <= s.trendStrength)
  {
    TopByKey(rows, HasTrend(wanted), StrengthKey, true, topN);
  }

  /** A candidate not taken into a top-N list is never strictly ahead of
      one that was. */
  lemma TopSplit(rows: seq<IndicatorRow>, key: IndicatorRow -> real, descending: bool, n: int)
    ensures var top := TopN(rows, key, descending, n);
            && |top| == (if n >= 0 then Ranking.Min(n, |rows|) else Ranking.Max(0, |rows| + n))
            && Ranking.Ordered(top, key, descending)
            && (forall r, t :: r in rows && t in top && r !in top ==> !Ranking.Precedes(r, t, key, descending))
  {
    Ranking.TopNProperties(rows, key, descending, n);
    var sorted := Ranking.SortBy(rows, key, descending);
    var top := Ranking.Prefix(sorted, n);
    var rest := sorted[|top|..];
    forall r, t | r in rows && t in top && r !in top
      ensures !Ranking.Precedes(r, t, key, descending)
    {
      assert r in multiset(rows);
      assert r in multiset(rest);
      var j :| 0 <= j < |rest| && rest[j] == r;
      var i :| 0 <= i < |top| && top[i] == t;
    }
  }

  /** Once topN covers every candidate, the gainers and the losers hold the
      same rows: all rows with a 1-day return, each as often as in the input. */
  lemma GainersAndLosersSameRows(rows: seq<IndicatorRow>, topN: int)
    requires topN >= |Filter(rows, HasReturn1d)|
    ensures var candidates := Filter(rows, HasReturn1d);
            && multiset(TopN(candidates, Return1dKey, true, topN)) == multiset(candidates)
            && multiset(TopN(candidates, Return1dKey, false, topN)) == multiset(candidates)
  {
    var candidates := Filter(rows, HasReturn1d);
    Ranking.TopNProperties(candidates, Return1dKey, true, topN);
    Ranking.TopNProperties(candidates, Return1dKey, false, topN);
  }

  /** Ranking is stable: the gainers tied on one 1-day return are the
      first of those candidates in input order, and all of them once every
      candidate is taken. */
  lemma GainersKeepTieOrder(rows: seq<IndicatorRow>, topN: int, v: real)
    ensures var candidates := Filter(rows, HasReturn1d);
            var tied := Ranking.WithKey(TopN(candidates, Return1dKey, true, topN), Return1dKey, v);
            && tied <= Ranking.WithKey(candidates, Return1dKey, v)
            && (topN >= |candidates| ==> tied == Ranking.WithKey(candidates, Return1dKey, v))
  {
    var candidates := Filter(rows, HasReturn1d);
    Ranking.SortByStable(candidates, Return1dKey, true, v);
    Ranking.TopNProperties(candidates, Return1dKey, true, topN);
    var sorted := Ranking.SortBy(candidates, Return1dKey, true);
    var top := Ranking.Prefix(sorted, topN);
    assert sorted == top + sorted[|top|..];
    Ranking.WithKeyAppend(top, sorted[|top|..], Return1dKey, v);
    if topN >= |candidates| {
      Ranking.SortByPermutation(candidates, Return1dKey, true);
      assert |sorted| == |multiset(sorted)| == |multiset(candidates)| == |candidates|;
      assert top == sorted;
    }
  }

  // ── Tweet safety net ───────────────────────────────────────────────────

  const Ellipsis: char := '\U{2026}'

  /** The length cut at the end of `render_tweet`: a text longer than
      `maxChars` becomes `text[:maxChars-1]` followed by an ellipsis;
      anything else is returned unchanged. */
  function TruncateTweet(text: string, maxChars: int := 280): string {
    if |text| > maxChars then Ranking.Prefix(text, maxChars - 1) + [Ellipsis] else text
  }

  /** With a positive limit the result never exceeds it: a cut text is exactly
      `maxChars` long, its first `maxChars - 1` characters are the text's, and
      it ends in the ellipsis. */
  lemma TruncateTweetFits(text: string, maxChars: int)
    requires maxChars >= 1
    ensures |TruncateTweet(text, maxChars)| <= maxChars
    ensures |text| > maxChars ==>
              && |TruncateTweet(text, maxChars)| == maxChars
              && TruncateTweet(text, maxChars)[..maxChars - 1] == text[..maxChars - 1]
              && TruncateTweet(text, maxChars)[maxChars - 1] == Ellipsis
  {
  }

  /** A text within the limit is returned unchanged. */
  lemma TruncateTweetKeepsShortText(text: string, maxChars: int)
    requires |text| <= maxChars
    ensures TruncateTweet(text, maxChars) == text
  {
  }

  /** With a limit of zero or less the cut still appends the ellipsis to
      `text[:maxChars-1]`, which counts from the end, so the result is longer
      than the limit: the safety net only holds for positive limits. */
  lemma TruncateTweetNonpositiveLimit(text: string, maxChars: int)
    requires maxChars <= 0 && |text| > maxChars
    ensures |TruncateTweet(text, maxChars)| == Ranking.Max(0, |text| + maxChars - 1) + 1
    ensures |TruncateTweet(text, maxChars)| > maxChars
    ensures TruncateTweet(text, maxChars)[|TruncateTweet(text, maxChars)| - 1] == Ellipsis
  {
  }
}
