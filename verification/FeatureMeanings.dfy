/** What every feature is in terms of the bars themselves, with no division: which prices it
    relates, over which days, and when the volume features are missing. */
module FeatureMeanings {
  import opened Outcomes
  import opened RealSums
  import opened StableSort
  import opened TechnicalFeatures
  import opened FeatureInvariance

  /** The feature is a number by which the first price grows to become the second. */
  ghost predicate Leads(bars: seq<Bar>, feature: Feature, from: real, to: real)
    requires |bars| == REQUIRED
  {
    && PriceValue(bars, feature).Number?
    && Mul(1.0 + PriceValue(bars, feature).value, from) == to
  }

  lemma ChangeLeads(bars: seq<Bar>, feature: Feature, from: real, to: real)
    requires |bars| == REQUIRED && from > 0.0 && PriceValue(bars, feature) == Number(Change(from, to))
    ensures Leads(bars, feature, from, to)
  {
    hide PriceValue, Change;
    ChangeTimes(from, to);
  }

  /** The returns: over one, five and twenty days, overnight and within the day. */
  lemma ReturnsMean(bars: seq<Bar>)
    requires |bars| == REQUIRED
    ensures Leads(bars, OneDayReturn, bars[19].close, bars[20].close)
    ensures Leads(bars, FiveDayReturn, bars[15].close, bars[20].close)
    ensures Leads(bars, TwentyDayReturn, bars[0].close, bars[20].close)
    ensures Leads(bars, LatestGapReturn, bars[19].close, bars[20].open)
    ensures Leads(bars, LatestIntradayReturn, bars[20].open, bars[20].close)
  {
    ReturnValues(bars);
    hide PriceValue, Change, Leads;
    ChangeLeads(bars, OneDayReturn, bars[19].close, bars[20].close);
    ChangeLeads(bars, FiveDayReturn, bars[15].close, bars[20].close);
    ChangeLeads(bars, TwentyDayReturn, bars[0].close, bars[20].close);
    ChangeLeads(bars, LatestGapReturn, bars[19].close, bars[20].open);
    ChangeLeads(bars, LatestIntradayReturn, bars[20].open, bars[20].close);
  }

  /** The last close, the range of the day against the close before, and the two constants. */
  lemma LatestDayMeans(bars: seq<Bar>) returns (rate: real)
    requires |bars| == REQUIRED
    ensures PriceValue(bars, LastClose) == Number(bars[20].close)
    ensures PriceValue(bars, LatestRangeRate) == Number(rate)
    ensures Mul(rate, bars[19].close) == bars[20].high - bars[20].low
    ensures PriceValue(bars, AdjustmentBasis) == Basis && PriceValue(bars, CompletedBarCount) == Count(21)
  {
    var x := InputsOf(bars);
    LatestDayInputs(bars);
    hide InputsOf, Mul, Change, Average, AverageClose;
    rate := RangeValue(x);
  }

  lemma RangeValue(x: PriceInputs) returns (rate: real)
    requires Usable(x)
    ensures ValueOf(x, LatestRangeRate) == Number(rate) && Mul(rate, x.close[19]) == x.high - x.low
    ensures ValueOf(x, LastClose) == Number(x.close[20])
    ensures ValueOf(x, AdjustmentBasis) == Basis && ValueOf(x, CompletedBarCount) == Count(21)
  {
    var span, before := x.high - x.low, x.close[19];
    hide Mul;
    QuotientMul(span, before);
    rate := span / before;
  }

  lemma LatestDayInputs(bars: seq<Bar>)
    requires |bars| == REQUIRED
    ensures var x := InputsOf(bars);
            && Usable(x) && x.high == bars[20].high && x.low == bars[20].low && |x.close| == 21
            && x.close[19] == bars[19].close > 0.0 && x.close[20] == bars[20].close
  {
  }

  lemma QuotientMul(x: real, n: real)
    requires n > 0.0
    ensures Mul(x / n, n) == x
  {
  }

  lemma AgainstAverage(window: seq<real>, last: real)
    requires window != [] && AllPositive(window)
    ensures Mul(1.0 + Change(AverageClose(window), last), Sum(window)) == (|window| as real) * last
  {
    var average, n := AverageClose(window), |window| as real;
    ChangeTimes(average, last);
    QuotientTimes(Sum(window), n);
    var grown := 1.0 + Change(average, last);
    assert Mul(grown, average) * n == grown * (average * n);
  }

  lemma SmaMean(bars: seq<Bar>, feature: Feature, n: nat)
    requires |bars| == REQUIRED && feature in {CloseVsSma5, CloseVsSma10, CloseVsSma20} && n == SmaWindow(feature)
    ensures 0 < n < 21 && Leads(bars, feature, Sum(Closes(bars)[21 - n..]), (n as real) * bars[20].close)
  {
    hide PriceValue, Mul, Change, Sum, AverageClose, Leads;
    var distance := SmaValue(bars, feature);
    var window := Closes(bars)[21 - n..];
    AgainstAverage(window, bars[20].close);
    NumberLeads(bars, feature, distance, Sum(window), (n as real) * bars[20].close);
  }

  lemma NumberLeads(bars: seq<Bar>, feature: Feature, rate: real, from: real, to: real)
    requires |bars| == REQUIRED && PriceValue(bars, feature) == Number(rate) && Mul(1.0 + rate, from) == to
    ensures Leads(bars, feature, from, to)
  {
    hide PriceValue, Mul;
  }

  /** The distances from the moving averages: five, ten and twenty times the last close,
      against the sum of as many latest closes. */
  lemma SmaMeans(bars: seq<Bar>)
    requires |bars| == REQUIRED
    ensures Leads(bars, CloseVsSma5, Sum(Closes(bars)[16..]), 5.0 * bars[20].close)
    ensures Leads(bars, CloseVsSma10, Sum(Closes(bars)[11..]), 10.0 * bars[20].close)
    ensures Leads(bars, CloseVsSma20, Sum(Closes(bars)[1..]), 20.0 * bars[20].close)
  {
    hide Leads, Sum, Closes;
    SmaMean(bars, CloseVsSma5, 5);
    SmaMean(bars, CloseVsSma10, 10);
    SmaMean(bars, CloseVsSma20, 20);
  }

  /** The volatility: the root of the variance of the twenty daily returns, each of which leads
      from one close to the next. */
  lemma VolatilityMeans(bars: seq<Bar>) returns (daily: seq<real>, variance: real)
    requires |bars| == REQUIRED
    ensures |daily| == 20
    ensures forall i :: 0 <= i < 20 ==> Mul(1.0 + daily[i], bars[i].close) == bars[i + 1].close
    ensures PriceValue(bars, RealizedVolatility) == Root(variance) && variance >= 0.0
    ensures Mul(400.0, variance) == Mul(20.0, Sum(Times(daily, daily))) - Mul(Sum(daily), Sum(daily))
  {
    hide Mul, PriceValue, Sum;
    daily := DailyReturns(bars);
    variance := VolatilityIsVariance(bars);
    forall i | 0 <= i < 20
      ensures Mul(1.0 + daily[i], bars[i].close) == bars[i + 1].close
    {
      DailyReturnsLead(bars, i);
    }
    hide DailyReturns;
    assert Average(daily) == Sum(daily) / 20.0 && Average(Times(daily, daily)) == Sum(Times(daily, daily)) / 20.0;
    TwentyTimes(Sum(Times(daily, daily)), Sum(daily));
  }

  lemma TwentyTimes(squares: real, sum: real)
    ensures Mul(400.0, squares / 20.0 - Mul(sum / 20.0, sum / 20.0)) == Mul(20.0, squares) - Mul(sum, sum)
  {
    var mean := sum / 20.0;
    assert sum == 20.0 * mean;
  }

  /** The distances from the highest high and the lowest low of the twenty days before. */
  lemma ExtremesMean(bars: seq<Bar>) returns (high: real, low: real)
    requires |bars| == REQUIRED
    ensures (forall b :: b in bars[..20] ==> b.high <= high) && exists b :: b in bars[..20] && b.high == high
    ensures (forall b :: b in bars[..20] ==> low <= b.low) && exists b :: b in bars[..20] && b.low == low
    ensures Leads(bars, DistanceFromHigh, high, bars[20].close)
    ensures Leads(bars, DistanceFromLow, low, bars[20].close)
  {
    high, low := Highest(bars[..20]), Lowest(bars[..20]);
    ExtremeValues(bars);
    hide PriceValue, Change, Highest, Lowest, Leads;
    ChangeLeads(bars, DistanceFromHigh, high, bars[20].close);
    ChangeLeads(bars, DistanceFromLow, low, bars[20].close);
  }

  lemma ExtremeValues(bars: seq<Bar>)
    requires |bars| == REQUIRED
    ensures PriceValue(bars, DistanceFromHigh) == Number(Change(Highest(bars[..20]), bars[20].close))
    ensures PriceValue(bars, DistanceFromLow) == Number(Change(Lowest(bars[..20]), bars[20].close))
  {
    hide Change, Highest, Lowest, TrueRanges;
  }

  // ---------------------------------------------------------------------------
  // Volume
  // ---------------------------------------------------------------------------

  lemma AverageIs(s: seq<real>, n: real)
    requires s != [] && n == |s| as real
    ensures n > 0.0 && Mul(Average(s), n) == Sum(s)
    ensures Sum(s) > 0.0 ==> Average(s) > 0.0
  {
    QuotientMul(Sum(s), n);
    if Sum(s) > 0.0 {
      QuotientSign(Sum(s), n);
    }
  }

  lemma RatioTimes(a: real, b: real, m: real, n: real, part: real, whole: real)
    requires b > 0.0 && part == Mul(a, m) && whole == Mul(b, n)
    ensures Mul(a / b, Mul(m, whole)) == Mul(n, part)
  {
    assert a / b * b == a;
    assert Mul(a / b, Mul(m, whole)) == a / b * b * (m * n);
  }

  lemma AverageRatio(part: seq<real>, whole: seq<real>, m: real, n: real)
    requires part != [] && whole != [] && Sum(whole) > 0.0
    requires m == |part| as real && n == |whole| as real
    ensures Average(whole) > 0.0
    ensures Mul(Average(part) / Average(whole), Mul(m, Sum(whole))) == Mul(n, Sum(part))
  {
    hide Average, Mul, Sum;
    AverageIs(part, m);
    AverageIs(whole, n);
    RatioTimes(Average(part), Average(whole), m, n, Sum(part), Sum(whole));
  }

  ghost predicate Known(bars: seq<Bar>) {
    forall b :: b in bars ==> b.volume.Some?
  }

  /** Every volume is known and the latest twenty are not all zero. */
  ghost predicate Traded(bars: seq<Bar>)
    requires |bars| == REQUIRED
  {
    Known(bars) && exists b :: b in bars[1..] && b.volume != Some(0)
  }

  /** The volume features are missing, with the reason why, exactly when some volume is unknown
      or the latest twenty are all zero. */
  lemma VolumesMissing(bars: seq<Bar>)
    requires |bars| == REQUIRED
    ensures var (values, quality, reasons) := VolumeValues(bars);
            && values.Keys == VOLUME_FEATURES
            && (Traded(bars) ==> quality == READY && reasons == [] && forall f :: f in values ==> values[f].Number?)
            && (!Traded(bars) ==> quality == DEGRADED && forall f :: f in values ==> values[f] == Missing)
            && (!Known(bars) ==> reasons == ["VOLUME_DATA_INCOMPLETE"])
            && (Known(bars) && !Traded(bars) ==> reasons == ["VOLUME_DATA_UNUSABLE"])
  {
    hide Sum, Times, Closes;
    if Known(bars) {
      SumOfTwenty(bars);
      QuotientSign(Sum(Volumes(bars)[1..]), 20.0);
    }
  }

  /** Where they exist they compare the latest five volumes, and the latest one, with the
      twenty, and average what was traded in dollars. */
  lemma VolumesMean(bars: seq<Bar>) returns (volumes: seq<real>)
    requires |bars| == REQUIRED && Traded(bars)
    ensures |volumes| == 21 && forall i :: 0 <= i < 21 ==> volumes[i] == bars[i].volume.value as real
    ensures var values := VolumeValues(bars).0;
            && values.Keys == VOLUME_FEATURES && (forall f :: f in values ==> values[f].Number?)
            && Mul(values[VolumeRatio5To20].value, Mul(5.0, Sum(volumes[1..]))) == Mul(20.0, Sum(volumes[16..]))
            && Mul(values[LatestVolumeToAverage20].value, Sum(volumes[1..])) == Mul(20.0, volumes[20])
            && Mul(values[AverageDollarVolume20].value, 20.0) == Sum(Times(Closes(bars)[1..], volumes[1..]))
  {
    volumes := Volumes(bars);
    VolumesMissing(bars);
    SumOfTwenty(bars);
    VolumeQuotients(bars);
    hide VolumeValues, Sum, Times, Closes, Mul, Volumes, Average;
    AverageRatio(volumes[16..], volumes[1..], 5.0, 20.0);
    LatestRatio(volumes[20], volumes[1..]);
    AverageIs(Times(Closes(bars)[1..], volumes[1..]), 20.0);
  }

  lemma LatestRatio(latest: real, whole: seq<real>)
    requires |whole| == 20 && Sum(whole) > 0.0
    ensures Mul(latest / Average(whole), Sum(whole)) == Mul(20.0, latest)
  {
    hide Average, Sum;
    AverageIs(whole, 20.0);
    RatioTimes(latest, Average(whole), 1.0, 20.0, latest, Sum(whole));
  }

  lemma SumOfTwenty(bars: seq<Bar>)
    requires |bars| == REQUIRED && VolumesKnown(bars)
    ensures Sum(Volumes(bars)[1..]) >= 0.0
    ensures Sum(Volumes(bars)[1..]) == 0.0 <==> forall b :: b in bars[1..] ==> b.volume == Some(0)
  {
    var tail := Volumes(bars)[1..];
    SumNonNegative(tail);
    hide Sum;
    if forall x :: x in tail ==> x == 0.0 {
      forall b | b in bars[1..]
        ensures b.volume == Some(0)
      {
        var i :| 0 <= i < 20 && bars[1..][i] == b;
        assert tail[i] in tail;
      }
    } else {
      var x :| x in tail && x != 0.0;
      var i :| 0 <= i < 20 && tail[i] == x;
      assert bars[1..][i] in bars[1..];
    }
  }

  // ---------------------------------------------------------------------------
  // Builds
  // ---------------------------------------------------------------------------

  /** Every bar is the source's split-adjusted dollar bar of the symbol and was available, and
      no two are of one session. */
  ghost predicate Acceptable(symbol: string, source: string, asOf: int, bars: seq<Bar>) {
    && (forall b :: b in bars ==>
          b.symbol == symbol && b.source == source && b.currency == "USD" && b.splitAdjusted
          && b.availableAt <= asOf)
    && forall i, j :: 0 <= i < j < |bars| ==> bars[i].date != bars[j].date
  }

  lemma NoProblemIff(symbol: string, source: string, asOf: int, bars: seq<Bar>)
    ensures BarProblem(symbol, source, asOf, bars) == None
            <==> forall b :: b in bars ==>
                   b.symbol == symbol && b.source == source && b.currency == "USD" && b.splitAdjusted
                   && b.availableAt <= asOf
  {
  }

  lemma OrderedIff(symbol: string, source: string, asOf: int, bars: seq<Bar>)
    ensures var r := OrderedBars(symbol, source, asOf, bars);
            && (r.Ok? <==> Acceptable(symbol, source, asOf, bars))
            && (r.Ok? ==> |r.value| == |bars|)
  {
    NoProblemIff(symbol, source, asOf, bars);
    hide BarProblem, Sort, DatesOf;
    SortKeeps(bars, Earlier);
    SameMembers(Sort(bars, Earlier), bars);
    CountMeansDistinct(bars);
  }

  /** What is wrong with rejected bars. */
  lemma RejectedBecause(symbol: string, source: string, asOf: int, bars: seq<Bar>)
    requires OrderedBars(symbol, source, asOf, bars).Err?
    ensures match OrderedBars(symbol, source, asOf, bars).error
            case MixedSymbols => exists b :: b in bars && b.symbol != symbol
            case MixedSources => exists b :: b in bars && b.source != source
            case NotUsd => exists b :: b in bars && b.currency != "USD"
            case NotSplitAdjusted => exists b :: b in bars && !b.splitAdjusted
            case FutureBar => exists b :: b in bars && b.availableAt > asOf
            case DuplicateSession => exists i, j :: 0 <= i < j < |bars| && bars[i].date == bars[j].date
  {
    hide Sort, DatesOf, BarProblem;
    SortKeeps(bars, Earlier);
    SameMembers(Sort(bars, Earlier), bars);
    CountMeansDistinct(bars);
    ProblemMeans(symbol, source, asOf, bars);
  }

  lemma ProblemMeans(symbol: string, source: string, asOf: int, bars: seq<Bar>)
    ensures match BarProblem(symbol, source, asOf, bars)
            case None => true
            case Some(MixedSymbols) => exists b :: b in bars && b.symbol != symbol
            case Some(MixedSources) => exists b :: b in bars && b.source != source
            case Some(NotUsd) => exists b :: b in bars && b.currency != "USD"
            case Some(NotSplitAdjusted) => exists b :: b in bars && !b.splitAdjusted
            case Some(FutureBar) => exists b :: b in bars && b.availableAt > asOf
            case Some(DuplicateSession) => false
  {
  }

  /** A whole build of v1, by what it is given: rejected, too little data, or a snapshot of
      exactly the newest twenty-one sessions, whose digests are its provenance. */
  lemma BuildMeans(symbol: string, source: string, asOf: int, bars: seq<Bar>) returns (selected: seq<Bar>)
    ensures BuildV1(symbol, source, asOf, bars).Ok? <==> Acceptable(symbol, source, asOf, bars)
    ensures BuildV2(symbol, source, asOf, bars).Ok? <==> Acceptable(symbol, source, asOf, bars)
    ensures Acceptable(symbol, source, asOf, bars) && |bars| < 21 ==>
              BuildV1(symbol, source, asOf, bars) == BuildV2(symbol, source, asOf, bars) == Ok(DataInsufficient)
    ensures Acceptable(symbol, source, asOf, bars) && |bars| >= 21 ==>
              && NewestOf(selected, bars)
              && var v1, v2 := BuildV1(symbol, source, asOf, bars).value, BuildV2(symbol, source, asOf, bars).value;
              && v1.SnapshotReady? && v2.SnapshotReady?
              && v1.provenance == v2.provenance && |v1.provenance| == 21
              && (forall i :: 0 <= i < 21 ==> v1.provenance[i] == selected[i].digest)
              && v1.values == PriceValues(selected) + VolumeValues(selected).0 && v2.values == PriceValues(selected)
              && v1.quality == VolumeValues(selected).1 && v2.quality == READY
              && v1.reasons == VolumeValues(selected).2 && v2.reasons == []
  {
    hide OrderedBars, Acceptable, PriceValues, VolumeValues, PRICE_FEATURES, NewestOf, BuildV2;
    selected := [];
    OrderedIff(symbol, source, asOf, bars);
    ShapeOfV2(symbol, source, asOf, bars);
    if Acceptable(symbol, source, asOf, bars) && |bars| >= 21 {
      TailIsNewest(symbol, source, asOf, bars);
      selected := Newest(OrderedBars(symbol, source, asOf, bars).value);
      SelectedPrices(symbol, source, asOf, bars, selected);
    }
  }

  lemma ShapeOfV2(symbol: string, source: string, asOf: int, bars: seq<Bar>)
    ensures BuildV2(symbol, source, asOf, bars).Ok? <==> BuildV1(symbol, source, asOf, bars).Ok?
    ensures BuildV1(symbol, source, asOf, bars) == Ok(DataInsufficient) ==>
              BuildV2(symbol, source, asOf, bars) == Ok(DataInsufficient)
  {
    hide BuildV1, PRICE_FEATURES;
  }
}
