/** What the feature builders do not depend on: input order, older bars, and, for v2, volume. */
module FeatureInvariance {
  import opened Outcomes
  import opened StableSort
  import opened TechnicalFeatures

  lemma EarlierIsPreorder()
    ensures Preorder(Earlier)
  {
  }

  lemma SameMembers(a: seq<Bar>, b: seq<Bar>)
    requires multiset(a) == multiset(b)
    ensures |a| == |b| && (forall x :: x in a <==> x in b) && DatesOf(a) == DatesOf(b)
  {
    assert |multiset(a)| == |a| && |multiset(b)| == |b|;
    forall x
      ensures x in a <==> x in b
    {
      assert x in a <==> x in multiset(a);
      assert x in b <==> x in multiset(b);
    }
  }

  lemma LastDate(s: seq<Bar>)
    requires s != []
    ensures DatesOf(s) == DatesOf(s[..|s| - 1]) + {s[|s| - 1].date}
  {
  }

  lemma {:induction false} AtMostOneDateEach(s: seq<Bar>)
    ensures |DatesOf(s)| <= |s|
  {
    if s != [] {
      LastDate(s);
      AtMostOneDateEach(s[..|s| - 1]);
    } else {
      assert DatesOf(s) == {};
    }
  }

  ghost predicate DistinctDates(s: seq<Bar>) {
    forall i, j :: 0 <= i < j < |s| ==> s[i].date != s[j].date
  }

  /** As many dates as bars means that no two bars share a date. */
  lemma {:induction false} CountMeansDistinct(s: seq<Bar>)
    ensures |DatesOf(s)| == |s| <==> DistinctDates(s)
  {
    if s == [] {
      assert DatesOf(s) == {};
    } else {
      var front, last := s[..|s| - 1], s[|s| - 1].date;
      LastDate(s);
      AtMostOneDateEach(front);
      CountMeansDistinct(front);
      LastIsDistinct(s);
      hide DatesOf, DistinctDates;
      if last in DatesOf(front) {
        assert DatesOf(front) + {last} == DatesOf(front);
      }
    }
  }

  lemma LastIsDistinct(s: seq<Bar>)
    requires s != []
    ensures DistinctDates(s) <==> DistinctDates(s[..|s| - 1]) && s[|s| - 1].date !in DatesOf(s[..|s| - 1])
  {
  }

  lemma DistinctSeparates(s: seq<Bar>)
    requires DistinctDates(s)
    ensures Separates(s, Earlier)
  {
  }

  lemma ProblemOfMembers(symbol: string, source: string, asOf: int, a: seq<Bar>, b: seq<Bar>)
    requires forall x :: x in a <==> x in b
    ensures BarProblem(symbol, source, asOf, a) == BarProblem(symbol, source, asOf, b)
  {
  }

  lemma NoProblemInPart(symbol: string, source: string, asOf: int, all: seq<Bar>, part: seq<Bar>)
    requires BarProblem(symbol, source, asOf, all) == None && forall x :: x in part ==> x in all
    ensures BarProblem(symbol, source, asOf, part) == None
  {
  }

  lemma OrderedBarsForget(symbol: string, source: string, asOf: int, a: seq<Bar>, b: seq<Bar>)
    requires multiset(a) == multiset(b)
    ensures OrderedBars(symbol, source, asOf, a) == OrderedBars(symbol, source, asOf, b)
  {
    SameMembers(a, b);
    ProblemOfMembers(symbol, source, asOf, a, b);
    SortKeeps(a, Earlier);
    SortKeeps(b, Earlier);
    SameMembers(Sort(a, Earlier), a);
    SameMembers(Sort(b, Earlier), b);
    hide BarProblem, Sort, DatesOf;
    if |DatesOf(a)| == |a| {
      CountMeansDistinct(a);
      DistinctSeparates(a);
      EarlierIsPreorder();
      SortForgets(a, b, Earlier);
    }
  }

  /** The order in which bars are handed over makes no difference, not even to which
      error is reported. */
  lemma OrderDoesNotMatter(symbol: string, source: string, asOf: int, a: seq<Bar>, b: seq<Bar>)
    requires multiset(a) == multiset(b)
    ensures BuildV1(symbol, source, asOf, a) == BuildV1(symbol, source, asOf, b)
    ensures BuildV2(symbol, source, asOf, a) == BuildV2(symbol, source, asOf, b)
  {
    hide PriceValues, VolumeValues, PRICE_FEATURES, OrderedBars;
    OrderedBarsForget(symbol, source, asOf, a, b);
  }

  lemma OrderedSuffix(symbol: string, source: string, asOf: int, bars: seq<Bar>, k: nat)
    requires OrderedBars(symbol, source, asOf, bars).Ok? && k <= |bars|
    ensures var ordered := OrderedBars(symbol, source, asOf, bars).value;
            |ordered| == |bars| && OrderedBars(symbol, source, asOf, ordered[k..]) == Ok(ordered[k..])
  {
    var ordered := Sort(bars, Earlier);
    SortKeeps(bars, Earlier);
    SameMembers(ordered, bars);
    SortSuffix(bars, k);
    NoProblemInPart(symbol, source, asOf, bars, ordered[k..]);
    CountMeansDistinct(ordered);
    CountMeansDistinct(ordered[k..]);
    hide BarProblem, Sort, DatesOf;
  }

  lemma SortSuffix(bars: seq<Bar>, k: nat)
    requires k <= |bars|
    ensures |Sort(bars, Earlier)| == |bars|
    ensures Sort(Sort(bars, Earlier)[k..], Earlier) == Sort(bars, Earlier)[k..]
  {
    SortKeeps(bars, Earlier);
    EarlierIsPreorder();
    SortAscends(bars, Earlier);
    hide Sort, Preorder;
    var ordered := Sort(bars, Earlier);
    SortedStays(ordered[k..], Earlier);
  }

  /** The newest twenty-one of these bars, in the order of their sessions: every other bar is
      older than each of them. */
  ghost predicate NewestOf(selected: seq<Bar>, bars: seq<Bar>) {
    && |selected| == 21
    && (forall i, j :: 0 <= i < j < |selected| ==> selected[i].date < selected[j].date)
    && (forall b :: b in selected ==> b in bars)
    && forall other, b :: other in bars && other !in selected && b in selected ==> other.date < b.date
  }

  lemma TailIsNewest(symbol: string, source: string, asOf: int, bars: seq<Bar>)
    requires OrderedBars(symbol, source, asOf, bars).Ok? && |bars| >= REQUIRED
    ensures |OrderedBars(symbol, source, asOf, bars).value| == |bars|
    ensures NewestOf(Newest(OrderedBars(symbol, source, asOf, bars).value), bars)
  {
    var ordered := Sort(bars, Earlier);
    SortKeeps(bars, Earlier);
    EarlierIsPreorder();
    SortAscends(bars, Earlier);
    SameMembers(ordered, bars);
    CountMeansDistinct(ordered);
    hide Sort, DatesOf, Preorder;
    AscendingTail(ordered, bars);
  }

  lemma AscendingTail(ordered: seq<Bar>, bars: seq<Bar>)
    requires |ordered| >= REQUIRED && Ascending(ordered, Earlier) && DistinctDates(ordered)
    requires forall b :: b in ordered <==> b in bars
    ensures NewestOf(Newest(ordered), bars)
  {
    var k := |ordered| - REQUIRED;
    var selected := Newest(ordered);
    assert forall i :: 0 <= i < 21 ==> selected[i] == ordered[k + i];
    forall i, j | 0 <= i < j < |ordered|
      ensures ordered[i].date < ordered[j].date
    {
      assert Earlier(ordered[i], ordered[j]);
    }
    assert forall i :: k <= i < |ordered| ==> ordered[i] == selected[i - k];
    forall other, b | other in bars && other !in selected && b in selected
      ensures other.date < b.date
    {
      var i :| 0 <= i < |ordered| && ordered[i] == other;
      var j :| 0 <= j < 21 && selected[j] == b;
      assert i < k;
    }
  }

  /** Only the newest twenty-one sessions count: the bars of any older session may be left out. */
  lemma OlderBarsDoNotMatter(symbol: string, source: string, asOf: int, bars: seq<Bar>)
    requires OrderedBars(symbol, source, asOf, bars).Ok? && |bars| >= REQUIRED
    ensures var ordered := OrderedBars(symbol, source, asOf, bars).value;
            && |ordered| == |bars|
            && NewestOf(Newest(ordered), bars)
            && BuildV1(symbol, source, asOf, Newest(ordered)) == BuildV1(symbol, source, asOf, bars)
            && BuildV2(symbol, source, asOf, Newest(ordered)) == BuildV2(symbol, source, asOf, bars)
  {
    hide PriceValues, VolumeValues, PRICE_FEATURES, OrderedBars, NewestOf;
    TailIsNewest(symbol, source, asOf, bars);
    OrderedSuffix(symbol, source, asOf, bars, |bars| - REQUIRED);
    var newest := Newest(OrderedBars(symbol, source, asOf, bars).value);
    assert Newest(newest) == newest;
  }

  // ---------------------------------------------------------------------------
  // Volume
  // ---------------------------------------------------------------------------

  /** The bar without its volume and without the digest that covers it. */
  function WithoutVolume(b: Bar): Bar {
    b.(volume := None, digest := 0)
  }

  function Strip(bars: seq<Bar>): (r: seq<Bar>)
    ensures |r| == |bars| && forall i :: 0 <= i < |r| ==> r[i] == WithoutVolume(bars[i])
  {
    seq(|bars|, i requires 0 <= i < |bars| => WithoutVolume(bars[i]))
  }

  lemma StripSplits(bars: seq<Bar>, i: nat, j: nat)
    requires i <= j <= |bars|
    ensures Strip(bars)[i..j] == Strip(bars[i..j])
  {
  }

  lemma {:induction false} StripPlace(sorted: seq<Bar>, x: Bar)
    ensures Strip(Place(sorted, x, Earlier)) == Place(Strip(sorted), WithoutVolume(x), Earlier)
  {
    if sorted == [] || Earlier(sorted[|sorted| - 1], x) {
      assert Strip(sorted + [x]) == Strip(sorted) + [WithoutVolume(x)];
    } else {
      var n := |sorted| - 1;
      StripPlace(sorted[..n], x);
      StripSplits(sorted, 0, n);
      var placed := Place(sorted[..n], x, Earlier);
      assert Strip(placed + [sorted[n]]) == Strip(placed) + [WithoutVolume(sorted[n])];
    }
  }

  lemma {:induction false} StripSort(bars: seq<Bar>)
    ensures Strip(Sort(bars, Earlier)) == Sort(Strip(bars), Earlier)
  {
    if bars != [] {
      var n := |bars| - 1;
      StripSort(bars[..n]);
      StripSplits(bars, 0, n);
      StripPlace(Sort(bars[..n], Earlier), bars[n]);
    }
  }

  lemma {:induction false} StripExtremes(bars: seq<Bar>)
    requires bars != []
    ensures Highest(Strip(bars)) == Highest(bars) && Lowest(Strip(bars)) == Lowest(bars)
  {
    var n := |bars| - 1;
    StripSplits(bars, 0, n);
    if n > 0 {
      StripExtremes(bars[..n]);
    }
  }

  lemma StripCloses(bars: seq<Bar>)
    ensures Closes(Strip(bars)) == Closes(bars)
    ensures bars != [] ==> DailyReturns(Strip(bars)) == DailyReturns(bars)
  {
  }

  lemma PriceIgnoresVolume(bars: seq<Bar>, feature: Feature)
    requires |bars| == REQUIRED
    ensures PriceValue(Strip(bars), feature) == PriceValue(bars, feature)
  {
    StripCloses(bars);
    StripExtremeTail(bars);
    StripRangeTail(bars);
    hide ValueOf, Closes, TrueRanges, Highest, Lowest, AllPositive;
    assert InputsOf(Strip(bars)) == InputsOf(bars);
  }

  lemma StripExtremeTail(bars: seq<Bar>)
    requires |bars| == REQUIRED
    ensures Highest(Strip(bars)[..20]) == Highest(bars[..20])
    ensures Lowest(Strip(bars)[..20]) == Lowest(bars[..20])
  {
    hide Highest, Lowest;
    StripSplits(bars, 0, 20);
    StripExtremes(bars[..20]);
  }

  lemma StripRangeTail(bars: seq<Bar>)
    requires |bars| == REQUIRED
    ensures TrueRanges(Strip(bars)[6..]) == TrueRanges(bars[6..])
  {
  }

  lemma StripDrop(bars: seq<Bar>, k: nat)
    requires k <= |bars|
    ensures Strip(bars)[k..] == Strip(bars[k..])
  {
  }

  /** A v2 result without its provenance digests. */
  function Content(r: Result<Built, BuildError>): Result<Built, BuildError> {
    match r
    case Ok(SnapshotReady(values, quality, reasons, _)) => Ok(SnapshotReady(values, quality, reasons, []))
    case _ => r
  }

  lemma StripOrdered(symbol: string, source: string, asOf: int, bars: seq<Bar>)
    ensures OrderedBars(symbol, source, asOf, Strip(bars))
            == match OrderedBars(symbol, source, asOf, bars)
               case Ok(ordered) => Ok(Strip(ordered))
               case Err(error) => Err(error)
  {
    StripSort(bars);
    hide Sort;
    StripMembers(bars);
    StripDates(Sort(bars, Earlier));
  }

  lemma StripMembers(bars: seq<Bar>)
    ensures forall x :: x in bars ==> WithoutVolume(x) in Strip(bars)
    ensures forall y :: y in Strip(bars) ==> exists x :: x in bars && y == WithoutVolume(x)
  {
  }

  lemma StripDates(bars: seq<Bar>)
    ensures DatesOf(Strip(bars)) == DatesOf(bars)
  {
  }

  /** Non-interference: no volume influences any v2 value, status or reason. */
  lemma VolumeDoesNotMatter(symbol: string, source: string, asOf: int, a: seq<Bar>, b: seq<Bar>)
    requires Strip(a) == Strip(b)
    ensures Content(BuildV2(symbol, source, asOf, a)) == Content(BuildV2(symbol, source, asOf, b))
  {
    ContentIgnoresVolume(symbol, source, asOf, a);
    ContentIgnoresVolume(symbol, source, asOf, b);
  }

  lemma ContentIgnoresVolume(symbol: string, source: string, asOf: int, bars: seq<Bar>)
    ensures Content(BuildV2(symbol, source, asOf, bars)) == Content(BuildV2(symbol, source, asOf, Strip(bars)))
  {
    StripOrdered(symbol, source, asOf, bars);
    hide OrderedBars, PriceValues, VolumeValues, PRICE_FEATURES;
    var ordered := OrderedBars(symbol, source, asOf, bars);
    if ordered.Ok? && |ordered.value| >= REQUIRED {
      var selected := Newest(ordered.value);
      StripDrop(ordered.value, |ordered.value| - REQUIRED);
      SelectedPrices(symbol, source, asOf, bars, selected);
      SelectedPrices(symbol, source, asOf, Strip(bars), Strip(selected));
      PricesIgnoreVolume(selected);
    }
  }

  lemma PricesIgnoreVolume(bars: seq<Bar>)
    requires |bars| == REQUIRED
    ensures PriceValues(Strip(bars)) == PriceValues(bars)
  {
    hide PriceValue, PRICE_FEATURES, Strip;
    forall f | f in PRICE_FEATURES
      ensures PriceValue(Strip(bars), f) == PriceValue(bars, f)
    {
      PriceIgnoresVolume(bars, f);
    }
  }

  /** v2 is the price half of v1, and always READY once there are enough bars. */
  lemma SelectedPrices(symbol: string, source: string, asOf: int, bars: seq<Bar>, selected: seq<Bar>)
    requires OrderedBars(symbol, source, asOf, bars).Ok?
    requires var ordered := OrderedBars(symbol, source, asOf, bars).value;
             |ordered| >= REQUIRED && selected == Newest(ordered)
    ensures var built := BuildV2(symbol, source, asOf, bars);
            && built == Ok(SnapshotReady(PriceValues(selected), READY, [], Digests(selected)))
            && built.value.values.Keys == PRICE_FEATURES
  {
    hide PriceValue, OrderedBars;
    var (added, quality, reasons) := VolumeValues(selected);
    VolumeKeys(selected);
    hide VolumeValues;
    var all := PriceValues(selected) + added;
    assert PRICE_FEATURES !! VOLUME_FEATURES;
    hide PRICE_FEATURES, VOLUME_FEATURES;
    assert (map name | name in PRICE_FEATURES && name in all :: all[name]) == PriceValues(selected);
  }

  lemma VolumeKeys(bars: seq<Bar>)
    requires |bars| == REQUIRED
    ensures VolumeValues(bars).0.Keys == VOLUME_FEATURES
  {
  }
}
