/** The daily technical feature sets: v1 with volume features, v2 without them. */
module TechnicalFeatures {
  import opened Outcomes
  import opened RealSums
  import opened StableSort

  const REQUIRED: nat := 21

  datatype RawBar = RawBar(
    date: int, symbol: string, source: string, currency: string, splitAdjusted: bool, availableAt: int,
    open: real, high: real, low: real, close: real, volume: Option<nat>, digest: nat)

  predicate ValidBar(b: RawBar) {
    && 0.0 < b.low
    && b.low <= b.open <= b.high
    && b.low <= b.close <= b.high
  }

  type Bar = b: RawBar | ValidBar(b)
    witness RawBar(0, "", "", "", true, 0, 1.0, 1.0, 1.0, 1.0, None, 0)

  datatype BuildError =
    | MixedSymbols
    | MixedSources
    | NotUsd
    | NotSplitAdjusted
    | FutureBar
    | DuplicateSession

  datatype Feature =
    | LastClose
    | OneDayReturn
    | FiveDayReturn
    | TwentyDayReturn
    | LatestGapReturn
    | LatestIntradayReturn
    | LatestRangeRate
    | CloseVsSma5
    | CloseVsSma10
    | CloseVsSma20
    | RealizedVolatility
    | Atr14Rate
    | DistanceFromHigh
    | DistanceFromLow
    | AdjustmentBasis
    | CompletedBarCount
    | VolumeRatio5To20
    | LatestVolumeToAverage20
    | AverageDollarVolume20

  /** `Root` is the square root of its argument. */
  datatype Value = Number(value: real) | Root(square: real) | Count(count: nat) | Basis | Missing

  datatype Quality = READY | DEGRADED

  datatype Built =
    | DataInsufficient
    | SnapshotReady(values: map<Feature, Value>, quality: Quality, reasons: seq<string>, provenance: seq<nat>)

  // ---------------------------------------------------------------------------
  // Validation and order
  // ---------------------------------------------------------------------------

  predicate Earlier(a: Bar, b: Bar) {
    a.date <= b.date
  }

  function DatesOf(bars: seq<Bar>): set<int> {
    set b | b in bars :: b.date
  }

  /** The first check that some bar fails. */
  function BarProblem(symbol: string, source: string, asOf: int, bars: seq<Bar>): Option<BuildError> {
    if exists b | b in bars :: b.symbol != symbol then Some(MixedSymbols)
    else if exists b | b in bars :: b.source != source then Some(MixedSources)
    else if exists b | b in bars :: b.currency != "USD" then Some(NotUsd)
    else if exists b | b in bars :: !b.splitAdjusted then Some(NotSplitAdjusted)
    else if exists b | b in bars :: b.availableAt > asOf then Some(FutureBar)
    else None
  }

  function OrderedBars(symbol: string, source: string, asOf: int, bars: seq<Bar>): Result<seq<Bar>, BuildError> {
    match BarProblem(symbol, source, asOf, bars)
    case Some(error) => Err(error)
    case None =>
      var ordered := Sort(bars, Earlier);
      if |ordered| != |DatesOf(ordered)| then Err(DuplicateSession) else Ok(ordered)
  }

  // ---------------------------------------------------------------------------
  // Calculation
  // ---------------------------------------------------------------------------

  predicate AllPositive(s: seq<real>) {
    forall i :: 0 <= i < |s| ==> s[i] > 0.0
  }

  function Closes(bars: seq<Bar>): (s: seq<real>)
    ensures |s| == |bars| && AllPositive(s) && forall i :: 0 <= i < |s| ==> s[i] == bars[i].close
  {
    seq(|bars|, i requires 0 <= i < |bars| => bars[i].close)
  }

  function Change(from: real, to: real): real
    requires from > 0.0
  {
    to / from - 1.0
  }

  function Returns(close: seq<real>): (r: seq<real>)
    requires AllPositive(close) && close != []
    ensures |r| == |close| - 1
  {
    seq(|close| - 1, i requires 0 <= i < |close| - 1 => Change(close[i], close[i + 1]))
  }

  function Max(a: real, b: real): real {
    if a < b then b else a
  }

  function Min(a: real, b: real): real {
    if a < b then a else b
  }

  function Abs(x: real): real {
    if x < 0.0 then -x else x
  }

  function TrueRange(b: Bar, previousClose: real): real {
    Max(Max(b.high - b.low, Abs(b.high - previousClose)), Abs(b.low - previousClose))
  }

  function TrueRanges(bars: seq<Bar>): (r: seq<real>)
    requires bars != []
    ensures |r| == |bars| - 1
  {
    seq(|bars| - 1, i requires 0 <= i < |bars| - 1 => TrueRange(bars[i + 1], bars[i].close))
  }

  function Highest(bars: seq<Bar>): (h: real)
    requires bars != []
    ensures h > 0.0 && (forall b :: b in bars ==> b.high <= h) && exists b :: b in bars && b.high == h
  {
    var n := |bars| - 1;
    assert bars[n] in bars && forall b :: b in bars[..n] ==> b in bars;
    assert forall b :: b in bars ==> b in bars[..n] || b == bars[n];
    if n == 0 then bars[0].high else Max(Highest(bars[..n]), bars[n].high)
  }

  function Lowest(bars: seq<Bar>): (l: real)
    requires bars != []
    ensures l > 0.0 && (forall b :: b in bars ==> l <= b.low) && exists b :: b in bars && b.low == l
  {
    var n := |bars| - 1;
    assert bars[n] in bars && forall b :: b in bars[..n] ==> b in bars;
    assert forall b :: b in bars ==> b in bars[..n] || b == bars[n];
    if n == 0 then bars[0].low else Min(Lowest(bars[..n]), bars[n].low)
  }

  lemma AveragePositive(s: seq<real>)
    requires s != [] && AllPositive(s)
    ensures Average(s) > 0.0
  {
    SumNonNegative(s);
    assert s[0] in s;
    QuotientSign(Sum(s), |s| as real);
  }

  function AverageClose(close: seq<real>): (a: real)
    requires close != [] && AllPositive(close)
    ensures a > 0.0 && a == Average(close)
  {
    AveragePositive(close);
    Average(close)
  }

  function DailyReturns(bars: seq<Bar>): (r: seq<real>)
    requires bars != []
    ensures |r| == |bars| - 1
  {
    Returns(Closes(bars))
  }

  /** All that the price features are computed from. */
  datatype PriceInputs = PriceInputs(
    close: seq<real>, open: real, high: real, low: real, ranges: seq<real>, highest: real, lowest: real)

  predicate Usable(x: PriceInputs) {
    |x.close| == REQUIRED && AllPositive(x.close) && |x.ranges| == 14
    && x.open > 0.0 && x.highest > 0.0 && x.lowest > 0.0
  }

  function InputsOf(bars: seq<Bar>): (x: PriceInputs)
    requires |bars| == REQUIRED
    ensures Usable(x) && x.close == Closes(bars)
  {
    PriceInputs(Closes(bars), bars[20].open, bars[20].high, bars[20].low, TrueRanges(bars[6..]),
                Highest(bars[..20]), Lowest(bars[..20]))
  }

  function ValueOf(x: PriceInputs, feature: Feature): Value
    requires Usable(x)
  {
    match feature
    case LastClose => Number(x.close[20])
    case OneDayReturn => Number(Change(x.close[19], x.close[20]))
    case FiveDayReturn => Number(Change(x.close[15], x.close[20]))
    case TwentyDayReturn => Number(Change(x.close[0], x.close[20]))
    case LatestGapReturn => Number(Change(x.close[19], x.open))
    case LatestIntradayReturn => Number(Change(x.open, x.close[20]))
    case LatestRangeRate => Number((x.high - x.low) / x.close[19])
    case CloseVsSma5 => Number(Change(AverageClose(x.close[16..]), x.close[20]))
    case CloseVsSma10 => Number(Change(AverageClose(x.close[11..]), x.close[20]))
    case CloseVsSma20 => Number(Change(AverageClose(x.close[1..]), x.close[20]))
    case RealizedVolatility => Root(Average(Deviations(Returns(x.close), Average(Returns(x.close)))))
    case Atr14Rate => Number(Average(x.ranges) / x.close[20])
    case DistanceFromHigh => Number(Change(x.highest, x.close[20]))
    case DistanceFromLow => Number(Change(x.lowest, x.close[20]))
    case AdjustmentBasis => Basis
    case CompletedBarCount => Count(21)
    case _ => Missing
  }

  /** The value of one price feature; the volume features are no concern of this function. */
  function PriceValue(bars: seq<Bar>, feature: Feature): Value
    requires |bars| == REQUIRED
  {
    ValueOf(InputsOf(bars), feature)
  }

  const VOLUME_FEATURES: set<Feature> := {VolumeRatio5To20, LatestVolumeToAverage20, AverageDollarVolume20}

  /** The keys v2 copies from the v1 result. */
  const PRICE_FEATURES: set<Feature> := {
    LastClose, OneDayReturn, FiveDayReturn, TwentyDayReturn, LatestGapReturn, LatestIntradayReturn,
    LatestRangeRate, CloseVsSma5, CloseVsSma10, CloseVsSma20, RealizedVolatility, Atr14Rate,
    DistanceFromHigh, DistanceFromLow, AdjustmentBasis, CompletedBarCount
  }

  function PriceValues(bars: seq<Bar>): map<Feature, Value>
    requires |bars| == REQUIRED
  {
    map feature | feature in PRICE_FEATURES :: PriceValue(bars, feature)
  }

  predicate VolumesKnown(bars: seq<Bar>) {
    forall b | b in bars :: b.volume.Some?
  }

  function Volumes(bars: seq<Bar>): (s: seq<real>)
    requires VolumesKnown(bars)
    ensures |s| == |bars| && forall x :: x in s ==> x >= 0.0
  {
    seq(|bars|, i requires 0 <= i < |bars| => bars[i].volume.value as real)
  }

  /** The three volume features, in the state the in-place update leaves them. */
  function VolumeValues(bars: seq<Bar>): (map<Feature, Value>, Quality, seq<string>)
    requires |bars| == REQUIRED
  {
    var missing := map[
      VolumeRatio5To20 := Missing, LatestVolumeToAverage20 := Missing, AverageDollarVolume20 := Missing
    ];
    if !VolumesKnown(bars) then (missing, DEGRADED, ["VOLUME_DATA_INCOMPLETE"])
    else
      var exact := Volumes(bars);
      var average := Average(exact[1..]);
      if average == 0.0 then (missing, DEGRADED, ["VOLUME_DATA_UNUSABLE"])
      else
        (map[
           VolumeRatio5To20 := Number(Average(exact[16..]) / average),
           LatestVolumeToAverage20 := Number(exact[20] / average),
           AverageDollarVolume20 := Number(Average(Times(Closes(bars)[1..], exact[1..])))
         ], READY, [])
  }

  /** The dictionary that the calculation fills in place. */
  class FeatureValues {
    var values: map<Feature, Value>

    constructor (values: map<Feature, Value>)
      ensures this.values == values
    {
      this.values := values;
    }

    method AddVolumeFeatures(bars: seq<Bar>) returns (quality: Quality, reasons: seq<string>)
      requires |bars| == REQUIRED
      modifies this
      ensures var (added, expected, why) := VolumeValues(bars);
              values == old(values) + added && quality == expected && reasons == why
    {
      hide Average, Closes;
      values := values
        [VolumeRatio5To20 := Missing][LatestVolumeToAverage20 := Missing][AverageDollarVolume20 := Missing];
      if !VolumesKnown(bars) {
        return DEGRADED, ["VOLUME_DATA_INCOMPLETE"];
      }
      var exact := Volumes(bars);
      var average := Average(exact[1..]);
      if average == 0.0 {
        return DEGRADED, ["VOLUME_DATA_UNUSABLE"];
      }
      values := values[VolumeRatio5To20 := Number(Average(exact[16..]) / average)];
      values := values[LatestVolumeToAverage20 := Number(exact[20] / average)];
      values := values[AverageDollarVolume20 := Number(Average(Times(Closes(bars)[1..], exact[1..])))];
      return READY, [];
    }
  }

  method Calculate(bars: seq<Bar>)
    returns (values: map<Feature, Value>, quality: Quality, reasons: seq<string>)
    requires |bars| == REQUIRED
    ensures var (added, expected, why) := VolumeValues(bars);
            values == PriceValues(bars) + added && quality == expected && reasons == why
  {
    var dictionary := new FeatureValues(PriceValues(bars));
    quality, reasons := dictionary.AddVolumeFeatures(bars);
    values := dictionary.values;
  }

  // ---------------------------------------------------------------------------
  // Builders
  // ---------------------------------------------------------------------------

  function Newest(ordered: seq<Bar>): seq<Bar>
    requires |ordered| >= REQUIRED
  {
    ordered[|ordered| - REQUIRED..]
  }

  function Digests(bars: seq<Bar>): seq<nat> {
    seq(|bars|, i requires 0 <= i < |bars| => bars[i].digest)
  }

  function BuildV1(symbol: string, source: string, asOf: int, bars: seq<Bar>): Result<Built, BuildError> {
    match OrderedBars(symbol, source, asOf, bars)
    case Err(error) => Err(error)
    case Ok(ordered) =>
      if |ordered| < REQUIRED then Ok(DataInsufficient)
      else
        var selected := Newest(ordered);
        var (added, quality, reasons) := VolumeValues(selected);
        Ok(SnapshotReady(PriceValues(selected) + added, quality, reasons, Digests(selected)))
  }

  function BuildV2(symbol: string, source: string, asOf: int, bars: seq<Bar>): Result<Built, BuildError> {
    match BuildV1(symbol, source, asOf, bars)
    case Err(error) => Err(error)
    case Ok(DataInsufficient) => Ok(DataInsufficient)
    case Ok(SnapshotReady(values, _, _, provenance)) =>
      Ok(SnapshotReady(map name | name in PRICE_FEATURES && name in values :: values[name], READY, [], provenance))
  }

  // ---------------------------------------------------------------------------
  // Identities of the price features
  // ---------------------------------------------------------------------------

  /** What a list of rates compounds to. */
  function Compound(rates: seq<real>): real {
    if rates == [] then 1.0
    else Mul(Compound(rates[..|rates| - 1]), 1.0 + rates[|rates| - 1])
  }

  lemma RatioChain(a: real, b: real, c: real)
    requires a > 0.0 && b > 0.0
    ensures Mul(1.0 + Change(a, b), 1.0 + Change(b, c)) == 1.0 + Change(a, c)
  {
    QuotientTimes(b, a);
    QuotientTimes(c, b);
    QuotientTimes(c, a);
    var x := (b / a) * (c / b);
    assert x * a == (c / b) * ((b / a) * a);
    CancelFactor(x, c / a, a);
    CancelFactor(c / a, x, a);
  }

  /** A change is what the first price grows by to become the second. */
  lemma ChangeTimes(from: real, to: real)
    requires from > 0.0
    ensures Mul(1.0 + Change(from, to), from) == to
  {
    QuotientTimes(to, from);
  }

  /** Each daily return leads from one close to the next. */
  lemma DailyReturnsLead(bars: seq<Bar>, i: nat)
    requires |bars| == REQUIRED && i < 20
    ensures Mul(1.0 + DailyReturns(bars)[i], bars[i].close) == bars[i + 1].close
  {
    ChangeTimes(bars[i].close, bars[i + 1].close);
    hide Change, Mul;
  }

  /** Daily returns compound to the return over the whole stretch. */
  lemma {:induction false} ReturnsTelescope(close: seq<real>)
    requires AllPositive(close) && close != []
    ensures Compound(Returns(close)) == 1.0 + Change(close[0], close[|close| - 1])
  {
    var n := |close| - 1;
    hide Mul, Change;
    if n == 0 {
      NoChange(close[0]);
    } else {
      ReturnsTelescope(close[..n]);
      assert Returns(close)[..n - 1] == Returns(close[..n]);
      assert Returns(close)[n - 1] == Change(close[n - 1], close[n]);
      RatioChain(close[0], close[n - 1], close[n]);
    }
  }

  lemma NoChange(x: real)
    requires x > 0.0
    ensures 1.0 + Change(x, x) == 1.0
  {
  }

  /** The one-, five- and twenty-day returns are compounds of the same daily returns. */
  lemma HorizonReturns(bars: seq<Bar>)
    requires |bars| == REQUIRED
    ensures PriceValue(bars, TwentyDayReturn) == Number(Compound(DailyReturns(bars)) - 1.0)
    ensures PriceValue(bars, FiveDayReturn) == Number(Compound(DailyReturns(bars)[15..]) - 1.0)
    ensures PriceValue(bars, OneDayReturn) == Number(Compound(DailyReturns(bars)[19..]) - 1.0)
  {
    hide Compound, Change, Returns;
    var close := Closes(bars);
    TailReturns(close, 15);
    TailReturns(close, 19);
    ReturnsTelescope(close);
    ReturnsTelescope(close[15..]);
    ReturnsTelescope(close[19..]);
  }

  lemma TailReturns(close: seq<real>, k: nat)
    requires AllPositive(close) && k < |close|
    ensures AllPositive(close[k..]) && Returns(close)[k..] == Returns(close[k..])
  {
  }

  lemma ReturnValues(bars: seq<Bar>)
    requires |bars| == REQUIRED
    ensures PriceValue(bars, OneDayReturn) == Number(Change(bars[19].close, bars[20].close))
    ensures PriceValue(bars, FiveDayReturn) == Number(Change(bars[15].close, bars[20].close))
    ensures PriceValue(bars, TwentyDayReturn) == Number(Change(bars[0].close, bars[20].close))
    ensures PriceValue(bars, LatestGapReturn) == Number(Change(bars[19].close, bars[20].open))
    ensures PriceValue(bars, LatestIntradayReturn) == Number(Change(bars[20].open, bars[20].close))
  {
    hide Change, Highest, Lowest, TrueRanges;
  }

  /** The overnight gap and the move within the day compound to the one-day return. */
  lemma GapAndIntraday(bars: seq<Bar>) returns (gap: real, intraday: real, day: real)
    requires |bars| == REQUIRED
    ensures PriceValue(bars, LatestGapReturn) == Number(gap)
    ensures PriceValue(bars, LatestIntradayReturn) == Number(intraday)
    ensures PriceValue(bars, OneDayReturn) == Number(day)
    ensures Mul(1.0 + gap, 1.0 + intraday) == 1.0 + day
    ensures Mul(1.0 + gap, bars[19].close) == bars[20].open
    ensures Mul(1.0 + intraday, bars[20].open) == bars[20].close
    ensures Mul(1.0 + day, bars[19].close) == bars[20].close
  {
    ReturnValues(bars);
    hide PriceValue, Mul, Change;
    var before, open, close := bars[19].close, bars[20].open, bars[20].close;
    RatioChain(before, open, close);
    ChangeTimes(before, open);
    ChangeTimes(open, close);
    ChangeTimes(before, close);
    gap, intraday, day := Change(before, open), Change(open, close), Change(before, close);
  }

  lemma ChangeAntitone(to: real, a: real, b: real)
    requires to > 0.0 && 0.0 < a <= b
    ensures Change(b, to) <= Change(a, to)
    ensures a < b ==> Change(b, to) < Change(a, to)
  {
  }

  function SmaWindow(feature: Feature): nat
    requires feature in {CloseVsSma5, CloseVsSma10, CloseVsSma20}
  {
    if feature == CloseVsSma5 then 5 else if feature == CloseVsSma10 then 10 else 20
  }

  /** A moving average is bracketed by the closes of its own window, and so is the distance
      of the last close from it. */
  lemma SmaBrackets(bars: seq<Bar>, feature: Feature, low: real, high: real)
    returns (distance: real)
    requires |bars| == REQUIRED && feature in {CloseVsSma5, CloseVsSma10, CloseVsSma20}
    requires 0.0 < low && forall i :: 21 - SmaWindow(feature) <= i <= 20 ==> low <= bars[i].close <= high
    ensures PriceValue(bars, feature) == Number(distance)
    ensures Change(high, bars[20].close) <= distance <= Change(low, bars[20].close)
  {
    hide Change, Average, PriceValue;
    var close, n := Closes(bars), SmaWindow(feature);
    var window := close[21 - n..];
    distance := SmaValue(bars, feature);
    forall x | x in window
      ensures low <= x <= high
    {
      var i :| 0 <= i < |window| && window[i] == x;
      assert window[i] == close[21 - n + i];
    }
    AverageBetween(window, low, high);
    hide Closes;
    ChangeAntitone(bars[20].close, low, AverageClose(window));
    ChangeAntitone(bars[20].close, AverageClose(window), high);
  }

  lemma SmaValue(bars: seq<Bar>, feature: Feature) returns (distance: real)
    requires |bars| == REQUIRED && feature in {CloseVsSma5, CloseVsSma10, CloseVsSma20}
    ensures PriceValue(bars, feature) == Number(distance)
    ensures distance == Change(AverageClose(Closes(bars)[21 - SmaWindow(feature)..]), bars[20].close)
  {
    hide Change;
    distance := Change(AverageClose(Closes(bars)[21 - SmaWindow(feature)..]), bars[20].close);
  }

  /** The distances from the prior extremes tell breakouts: positive above exactly when the
      last close exceeds every prior high, negative below exactly when it undercuts every
      prior low. */
  lemma Breakouts(bars: seq<Bar>) returns (above: real, below: real)
    requires |bars| == REQUIRED
    ensures PriceValue(bars, DistanceFromHigh) == Number(above)
    ensures PriceValue(bars, DistanceFromLow) == Number(below)
    ensures above > 0.0 <==> forall b :: b in bars[..20] ==> b.high < bars[20].close
    ensures below < 0.0 <==> forall b :: b in bars[..20] ==> bars[20].close < b.low
  {
    var high, low, last := Highest(bars[..20]), Lowest(bars[..20]), bars[20].close;
    above, below := Change(high, last), Change(low, last);
    ChangeSign(high, last);
    ChangeSign(low, last);
  }

  lemma ChangeSign(from: real, to: real)
    requires from > 0.0 && to > 0.0
    ensures Change(from, to) > 0.0 <==> from < to
    ensures Change(from, to) < 0.0 <==> to < from
  {
    QuotientTimes(from, from);
    QuotientTimes(to, from);
    ProductMonotone(1.0, to / from, from);
    ProductMonotone(to / from, 1.0, from);
  }

  /** The volatility is the root of a number that is never negative: the mean of the squared
      daily returns less the square of their mean, zero exactly when all are equal. */
  lemma VolatilityIsVariance(bars: seq<Bar>) returns (variance: real)
    requires |bars| == REQUIRED
    ensures PriceValue(bars, RealizedVolatility) == Root(variance)
    ensures var daily := DailyReturns(bars);
            && variance == Average(Times(daily, daily)) - Mul(Average(daily), Average(daily))
            && variance >= 0.0
            && (variance == 0.0 <==> forall r :: r in daily ==> r == Average(daily))
  {
    variance := VolatilitySquare(bars);
    hide Average, Mul, DailyReturns, PriceValue;
    VarianceIdentity(DailyReturns(bars));
  }

  lemma VolatilitySquare(bars: seq<Bar>) returns (square: real)
    requires |bars| == REQUIRED
    ensures PriceValue(bars, RealizedVolatility) == Root(square)
    ensures square == Average(Deviations(DailyReturns(bars), Average(DailyReturns(bars))))
  {
    hide Average, Returns, Change;
    square := Average(Deviations(DailyReturns(bars), Average(DailyReturns(bars))));
  }

  /** The true range is the span of the day widened by the previous close. */
  lemma TrueRangeIsSpan(b: Bar, previousClose: real)
    ensures TrueRange(b, previousClose) == Max(b.high, previousClose) - Min(b.low, previousClose)
    ensures TrueRange(b, previousClose) >= b.high - b.low
  {
  }

  lemma RangeOfDay(bars: seq<Bar>, k: nat)
    requires |bars| == REQUIRED && k < 14
    ensures TrueRanges(bars[6..])[k]
            == Max(bars[7 + k].high, bars[6 + k].close) - Min(bars[7 + k].low, bars[6 + k].close)
  {
    TrueRangeIsSpan(bars[7 + k], bars[6 + k].close);
    hide TrueRange;
    assert TrueRanges(bars[6..])[k] == TrueRange(bars[6..][k + 1], bars[6..][k].close);
  }

  lemma RateOfAverage(sum: real, n: real, last: real)
    requires n > 0.0 && last > 0.0
    ensures Mul(sum / n / last, n * last) == sum
  {
    var average := sum / n;
    assert average * n == sum;
    assert average / last * last == average;
    assert average / last * (n * last) == average / last * last * n;
  }

  /** The average true range is taken over the fourteen latest days, each day's range being
      its span widened by the close of the day before, and is relative to the last close. */
  lemma AtrOverFourteenDays(bars: seq<Bar>) returns (ranges: seq<real>, rate: real)
    requires |bars| == REQUIRED
    ensures |ranges| == 14
    ensures forall k :: 0 <= k < 14 ==>
              ranges[k] == Max(bars[7 + k].high, bars[6 + k].close) - Min(bars[7 + k].low, bars[6 + k].close)
    ensures PriceValue(bars, Atr14Rate) == Number(rate)
    ensures Mul(rate, 14.0 * bars[20].close) == Sum(ranges)
  {
    ranges := TrueRanges(bars[6..]);
    forall k | 0 <= k < 14
      ensures ranges[k] == Max(bars[7 + k].high, bars[6 + k].close) - Min(bars[7 + k].low, bars[6 + k].close)
    {
      RangeOfDay(bars, k);
    }
    hide TrueRange, TrueRanges, Sum, Max, Min;
    rate := Sum(ranges) / 14.0 / bars[20].close;
    RateOfAverage(Sum(ranges), 14.0, bars[20].close);
  }

  // ---------------------------------------------------------------------------
  // Bounds of the volume features
  // ---------------------------------------------------------------------------

  lemma VolumeQuotients(bars: seq<Bar>)
    requires |bars| == REQUIRED && VolumesKnown(bars) && Average(Volumes(bars)[1..]) != 0.0
    ensures var values, v := VolumeValues(bars).0, Volumes(bars);
            && values.Keys == VOLUME_FEATURES
            && values[VolumeRatio5To20] == Number(Average(v[16..]) / Average(v[1..]))
            && values[LatestVolumeToAverage20] == Number(v[20] / Average(v[1..]))
            && |Times(Closes(bars)[1..], v[1..])| == 20
            && values[AverageDollarVolume20] == Number(Average(Times(Closes(bars)[1..], v[1..])))
  {
    hide Average, Mul;
  }

  /** The volume features exist exactly when every volume is known and the last twenty are
      not all zero; then each is within its bounds, and the bounds are reached exactly when
      all of the volume is in the last five bars, or in the last one. */
  lemma VolumeBounds(bars: seq<Bar>)
    requires |bars| == REQUIRED && VolumesKnown(bars) && Average(Volumes(bars)[1..]) != 0.0
    ensures var (values, quality, reasons), exact := VolumeValues(bars), Volumes(bars);
            && quality == READY && reasons == [] && values.Keys == VOLUME_FEATURES
            && values[VolumeRatio5To20].Number? && values[LatestVolumeToAverage20].Number?
            && 0.0 <= values[VolumeRatio5To20].value <= 4.0
            && (values[VolumeRatio5To20].value == 4.0 <==> forall x :: x in exact[1..16] ==> x == 0.0)
            && 0.0 <= values[LatestVolumeToAverage20].value <= 20.0
            && (values[LatestVolumeToAverage20].value == 20.0 <==> forall x :: x in exact[1..20] ==> x == 0.0)
  {
    var exact := Volumes(bars);
    VolumeQuotients(bars);
    VolumesReady(bars);
    hide Average, Volumes, VolumeValues, Times, Closes;
    ShareOfVolume(exact, 16);
    ShareOfVolume(exact, 20);
    LatestIsItsOwnAverage(exact[20]);
    assert exact[20..] == [exact[20]];
  }

  lemma VolumesReady(bars: seq<Bar>)
    requires |bars| == REQUIRED && VolumesKnown(bars) && Average(Volumes(bars)[1..]) != 0.0
    ensures VolumeValues(bars).1 == READY && VolumeValues(bars).2 == []
  {
    hide Average;
  }

  lemma LatestIsItsOwnAverage(x: real)
    ensures Average([x]) == x
  {
    assert Sum([x]) == Sum([x][..0]) + x;
  }

  /** The average from bar k on, relative to the average of all twenty. */
  lemma ShareOfVolume(exact: seq<real>, k: nat)
    requires |exact| == REQUIRED && 1 <= k <= 20
    requires (forall x :: x in exact ==> x >= 0.0) && Average(exact[1..]) != 0.0
    ensures var share := Average(exact[k..]) / Average(exact[1..]);
            var top := 20.0 / ((21 - k) as real);
            && 0.0 <= share <= top
            && (share == top <==> forall x :: x in exact[1..k] ==> x == 0.0)
  {
    var before, part, whole := exact[1..k], exact[k..], exact[1..];
    assert whole == before + part;
    SumAppend(before, part);
    assert forall x :: x in before || x in part || x in whole ==> x in exact;
    SumNonNegative(before);
    SumNonNegative(part);
    SumNonNegative(whole);
    QuotientSign(Sum(whole), 20.0);
    RatioBound(Sum(part), Sum(whole), (21 - k) as real, 20.0, Average(part) / Average(whole));
  }

  /** The average dollar volume lies between the extreme closes times the average volume. */
  lemma DollarVolumeBounds(bars: seq<Bar>, low: real, high: real)
    requires |bars| == REQUIRED && VolumesKnown(bars) && Average(Volumes(bars)[1..]) != 0.0
    requires forall b :: b in bars[1..] ==> low <= b.close <= high
    ensures var (values, _, _), average := VolumeValues(bars), Average(Volumes(bars)[1..]);
            && values[AverageDollarVolume20].Number?
            && Mul(low, average) <= values[AverageDollarVolume20].value <= Mul(high, average)
  {
    var closes, volumes := Closes(bars)[1..], Volumes(bars)[1..];
    forall i | 0 <= i < 20
      ensures low <= closes[i] <= high && 0.0 <= volumes[i]
    {
      assert bars[1..][i] in bars[1..];
    }
    WeightedSumBounds(closes, volumes, low, high);
    AverageScales(Sum(volumes), low, Sum(Times(closes, volumes)), 20.0);
    AverageScales(Sum(volumes), high, Sum(Times(closes, volumes)), 20.0);
  }

  lemma AverageScales(sum: real, factor: real, other: real, n: real)
    requires n > 0.0
    ensures Mul(factor, sum) <= other ==> Mul(factor, sum / n) <= other / n
    ensures other <= Mul(factor, sum) ==> other / n <= Mul(factor, sum / n)
  {
  }
}
