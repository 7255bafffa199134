/** Calibration datasets: validated, canonically ordered sources and their header. */
module CalibrationDataset {
  import opened Outcomes
  import opened StableSort

  /** `contract` stands for the fixed policy codes, formats and types; identifiers and texts
      stand for their places in the order of their serialised forms. */
  datatype Source = Source(
    outcomeId: int, scoringRunId: int, scoringItemId: int, symbol: int, mic: int, horizon: nat,
    sessionDate: int, terminalDate: int, prospective: bool, ready: bool, rank: int, contract: bool,
    forwardReturn: real, scoringGenerated: int, scoringRecorded: int, outcomeAvailable: int,
    outcomeRecorded: int)

  datatype Identity = Identity(horizon: nat, cutoff: int)

  datatype DatasetError = ContractInvalid | RevisionDuplicate | LabelCountMismatch | LabelSourceMismatch

  // ---------------------------------------------------------------------------
  // Validation and order
  // ---------------------------------------------------------------------------

  predicate SourceValid(s: Source, identity: Identity) {
    && s.contract
    && s.horizon == identity.horizon
    && s.ready
    && 1 <= s.rank <= 100
    && s.sessionDate < s.terminalDate
    && s.scoringGenerated <= s.scoringRecorded
    && s.outcomeAvailable <= s.outcomeRecorded
    && s.scoringGenerated <= identity.cutoff
    && s.scoringRecorded <= identity.cutoff
    && s.outcomeAvailable <= identity.cutoff
    && s.outcomeRecorded <= identity.cutoff
  }

  function OrderKey(s: Source): seq<int> {
    [s.sessionDate, s.scoringRunId, s.rank, s.mic, s.symbol, s.outcomeId]
  }

  /** Tuple comparison. */
  predicate Lex(a: seq<int>, b: seq<int>) {
    a == [] || (b != [] && (a[0] < b[0] || (a[0] == b[0] && Lex(a[1..], b[1..]))))
  }

  predicate NotAfter(a: Source, b: Source) {
    Lex(OrderKey(a), OrderKey(b))
  }

  function ItemIds(sources: seq<Source>): set<int> {
    set s | s in sources :: s.scoringItemId
  }

  function ValidateAndOrder(sources: seq<Source>, identity: Identity): Result<seq<Source>, DatasetError> {
    if exists s | s in sources :: !SourceValid(s, identity) then Err(ContractInvalid)
    else
      var ordered := Sort(sources, NotAfter);
      if |ordered| != |ItemIds(ordered)| then Err(RevisionDuplicate) else Ok(ordered)
  }

  lemma {:induction false} LexTotal(a: seq<int>, b: seq<int>)
    ensures Lex(a, b) || Lex(b, a)
    ensures Lex(a, b) && Lex(b, a) ==> a == b
  {
    if a != [] && b != [] {
      LexTotal(a[1..], b[1..]);
      assert a == [a[0]] + a[1..] && b == [b[0]] + b[1..];
    }
  }

  lemma {:induction false} LexTransitive(a: seq<int>, b: seq<int>, c: seq<int>)
    requires Lex(a, b) && Lex(b, c)
    ensures Lex(a, c)
  {
    if a != [] && a[0] == b[0] == c[0] {
      LexTransitive(a[1..], b[1..], c[1..]);
    }
  }

  lemma KeysArePreorder()
    ensures Preorder(NotAfter)
  {
    hide Lex, OrderKey;
    forall a, b
      ensures NotAfter(a, b) || NotAfter(b, a)
    {
      LexTotal(OrderKey(a), OrderKey(b));
    }
    forall a, b, c | NotAfter(a, b) && NotAfter(b, c)
      ensures NotAfter(a, c)
    {
      LexTransitive(OrderKey(a), OrderKey(b), OrderKey(c));
    }
  }

  ghost predicate DistinctOutcomes(sources: seq<Source>) {
    forall a, b :: a in sources && b in sources && a.outcomeId == b.outcomeId ==> a == b
  }

  /** With distinct outcomes the order key tells all sources apart. */
  lemma KeysSeparate(sources: seq<Source>)
    requires DistinctOutcomes(sources)
    ensures Separates(sources, NotAfter)
  {
    hide Lex;
    forall a, b | a in sources && b in sources && NotAfter(a, b) && NotAfter(b, a)
      ensures a == b
    {
      LexTotal(OrderKey(a), OrderKey(b));
      assert OrderKey(a)[5] == OrderKey(b)[5];
    }
  }

  lemma SameMembers(a: seq<Source>, b: seq<Source>)
    requires multiset(a) == multiset(b)
    ensures |a| == |b| && (forall x :: x in a <==> x in b) && ItemIds(a) == ItemIds(b)
  {
    assert |multiset(a)| == |a| && |multiset(b)| == |b|;
    forall x
      ensures x in a <==> x in b
    {
      assert x in a <==> x in multiset(a);
      assert x in b <==> x in multiset(b);
    }
  }

  /** Canonicalisation: every arrangement of the same sources is ordered the same way, or
      rejected for the same reason. */
  lemma ArrangementDoesNotMatter(a: seq<Source>, b: seq<Source>, identity: Identity)
    requires multiset(a) == multiset(b) && DistinctOutcomes(a)
    ensures ValidateAndOrder(a, identity) == ValidateAndOrder(b, identity)
  {
    SameMembers(a, b);
    KeysArePreorder();
    KeysSeparate(a);
    SortForgets(a, b, NotAfter);
    hide Sort, NotAfter, SourceValid;
  }

  /** What an accepted list of sources is: the same sources, in ascending key order, one per
      scoring item, all of whose timestamps respect the cutoff. */
  lemma AcceptedSources(sources: seq<Source>, identity: Identity)
    requires ValidateAndOrder(sources, identity).Ok?
    ensures var ordered := ValidateAndOrder(sources, identity).value;
            && multiset(ordered) == multiset(sources)
            && Ascending(ordered, NotAfter)
            && (forall i, j :: 0 <= i < j < |ordered| ==> ordered[i].scoringItemId != ordered[j].scoringItemId)
            && forall s :: s in ordered ==> SourceValid(s, identity)
  {
    var ordered := Sort(sources, NotAfter);
    SortKeeps(sources, NotAfter);
    KeysArePreorder();
    SortAscends(sources, NotAfter);
    SameMembers(ordered, sources);
    CountMeansDistinct(ordered);
    hide Sort, NotAfter, SourceValid, Preorder;
  }

  lemma {:induction false} CountMeansDistinct(s: seq<Source>)
    ensures |ItemIds(s)| <= |s|
    ensures |ItemIds(s)| == |s| ==>
              forall i, j :: 0 <= i < j < |s| ==> s[i].scoringItemId != s[j].scoringItemId
  {
    if s == [] {
      assert ItemIds(s) == {};
    } else {
      var n := |s| - 1;
      CountMeansDistinct(s[..n]);
      assert forall x :: x in s <==> x in s[..n] || x == s[n];
      assert ItemIds(s) == ItemIds(s[..n]) + {s[n].scoringItemId};
      if s[n].scoringItemId in ItemIds(s[..n]) {
        assert ItemIds(s) == ItemIds(s[..n]);
      } else {
        forall i | 0 <= i < n
          ensures s[i].scoringItemId != s[n].scoringItemId
        {
          assert s[i] in s[..n];
        }
      }
    }
  }

  /** Ready, of the dataset's horizon, ranked, and known in every respect by the cutoff. */
  predicate Usable(s: Source, horizon: nat, cutoff: int) {
    && s.contract && s.ready && s.horizon == horizon && 1 <= s.rank <= 100
    && s.sessionDate < s.terminalDate
    && s.scoringGenerated <= s.scoringRecorded <= cutoff
    && s.outcomeAvailable <= s.outcomeRecorded <= cutoff
  }

  /** Session by session; within a session run by run, and in a run by rank; then by market,
      symbol and outcome. */
  predicate Precedes(a: Source, b: Source) {
    if a.sessionDate != b.sessionDate then a.sessionDate < b.sessionDate
    else if a.scoringRunId != b.scoringRunId then a.scoringRunId < b.scoringRunId
    else if a.rank != b.rank then a.rank < b.rank
    else if a.mic != b.mic then a.mic < b.mic
    else if a.symbol != b.symbol then a.symbol < b.symbol
    else a.outcomeId <= b.outcomeId
  }

  lemma LexStep(a: seq<int>, b: seq<int>, k: nat)
    requires |a| == |b| && k < |a|
    ensures Lex(a[k..], b[k..]) <==> a[k] < b[k] || (a[k] == b[k] && Lex(a[k + 1..], b[k + 1..]))
  {
    assert a[k..][1..] == a[k + 1..] && b[k..][1..] == b[k + 1..];
  }

  lemma OrderMeans(a: Source, b: Source)
    ensures NotAfter(a, b) <==> Precedes(a, b)
  {
    var x, y := OrderKey(a), OrderKey(b);
    LexStep(x, y, 0);
    LexStep(x, y, 1);
    LexStep(x, y, 2);
    LexStep(x, y, 3);
    LexStep(x, y, 4);
    LexStep(x, y, 5);
    assert x[0..] == x && y[0..] == y;
    assert Lex(x[6..], y[6..]);
    hide Lex;
  }

  ghost predicate DistinctItems(sources: seq<Source>) {
    forall i, j :: 0 <= i < j < |sources| ==> sources[i].scoringItemId != sources[j].scoringItemId
  }

  /** What is accepted, why not otherwise, and in which order, spelled out. */
  lemma AcceptedIff(sources: seq<Source>, identity: Identity)
    ensures var r := ValidateAndOrder(sources, identity);
            var usable := forall s :: s in sources ==> Usable(s, identity.horizon, identity.cutoff);
            && (r == Err(ContractInvalid) <==> !usable)
            && (r == Err(RevisionDuplicate) <==> usable && !DistinctItems(sources))
            && (r.Ok? <==> usable && DistinctItems(sources))
            && (r.Ok? ==> forall i, j :: 0 <= i < j < |r.value| ==> Precedes(r.value[i], r.value[j]))
  {
    var ordered := Sort(sources, NotAfter);
    SortKeeps(sources, NotAfter);
    KeysArePreorder();
    SortAscends(sources, NotAfter);
    SameMembers(ordered, sources);
    DistinctIffCount(sources);
    assert forall s :: SourceValid(s, identity) <==> Usable(s, identity.horizon, identity.cutoff);
    hide Sort, NotAfter, SourceValid, Usable, Precedes, Preorder;
    forall i, j | 0 <= i < j < |ordered|
      ensures Precedes(ordered[i], ordered[j])
    {
      OrderMeans(ordered[i], ordered[j]);
    }
  }

  lemma {:induction false} DistinctIffCount(s: seq<Source>)
    ensures |ItemIds(s)| == |s| <==> DistinctItems(s)
  {
    CountMeansDistinct(s);
    if DistinctItems(s) {
      if s == [] {
        assert ItemIds(s) == {};
      } else {
        var n := |s| - 1;
        DistinctIffCount(s[..n]);
        assert forall x :: x in s <==> x in s[..n] || x == s[n];
        assert ItemIds(s) == ItemIds(s[..n]) + {s[n].scoringItemId};
        assert s[n].scoringItemId !in ItemIds(s[..n]);
      }
    }
  }

  // ---------------------------------------------------------------------------
  // Items and header
  // ---------------------------------------------------------------------------

  datatype Label = Label(
    outcomeId: int, scoringRunId: int, scoringItemId: int, symbol: int, mic: int, horizon: nat,
    sessionDate: int, terminalDate: int, prospective: bool, outcomeAvailable: int, positive: bool)

  predicate Matches(l: Label, source: Source) {
    && l.outcomeId == source.outcomeId
    && l.scoringRunId == source.scoringRunId
    && l.scoringItemId == source.scoringItemId
    && l.symbol == source.symbol
    && l.mic == source.mic
    && l.horizon == source.horizon
    && l.sessionDate == source.sessionDate
    && l.terminalDate == source.terminalDate
    && l.prospective == source.prospective
    && l.outcomeAvailable == source.outcomeAvailable
    && l.positive == (source.forwardReturn > 0.0)
  }

  datatype DatasetItem = DatasetItem(ordinal: nat, source: Source, positive: bool, generatedAt: int)

  datatype Status = READY | EMPTY

  datatype Header = Header(
    status: Status, total: nat, positive: nat, notPositive: int, prospective: nat, retrospective: int,
    sessions: nat, earliest: Option<int>, latest: Option<int>)

  datatype Dataset = Dataset(header: Header, items: seq<DatasetItem>)

  function CountPositive(labels: seq<Label>): nat {
    if labels == [] then 0
    else CountPositive(labels[..|labels| - 1]) + (if labels[|labels| - 1].positive then 1 else 0)
  }

  function CountProspective(sources: seq<Source>): nat {
    if sources == [] then 0
    else CountProspective(sources[..|sources| - 1]) + (if sources[|sources| - 1].prospective then 1 else 0)
  }

  /** A date added to ascending dates, once. */
  function AddDate(dates: seq<int>, d: int): (r: seq<int>)
    requires forall i, j :: 0 <= i < j < |dates| ==> dates[i] < dates[j]
    ensures forall i, j :: 0 <= i < j < |r| ==> r[i] < r[j]
    ensures forall x :: x in r <==> x in dates || x == d
  {
    if dates == [] || dates[|dates| - 1] < d then
      assert forall i :: 0 <= i < |dates| ==> dates[i] in dates;
      dates + [d]
    else if dates[|dates| - 1] == d then dates
    else
      var n := |dates| - 1;
      var r := AddDate(dates[..n], d);
      assert forall x :: x in dates <==> x in dates[..n] || x == dates[n];
      assert forall i :: 0 <= i < |r| ==> r[i] in r;
      assert forall i :: 0 <= i < n ==> dates[..n][i] in dates[..n];
      r + [dates[n]]
  }

  /** The distinct session dates in ascending order. */
  function SessionDates(sources: seq<Source>): (r: seq<int>)
    ensures forall i, j :: 0 <= i < j < |r| ==> r[i] < r[j]
  {
    if sources == [] then []
    else AddDate(SessionDates(sources[..|sources| - 1]), sources[|sources| - 1].sessionDate)
  }

  lemma {:induction false} DatesAreSessions(sources: seq<Source>)
    ensures forall s :: s in sources ==> s.sessionDate in SessionDates(sources)
    ensures forall d :: d in SessionDates(sources) ==> exists s :: s in sources && s.sessionDate == d
  {
    if sources != [] {
      var n := |sources| - 1;
      DatesAreSessions(sources[..n]);
      assert forall s :: s in sources <==> s in sources[..n] || s == sources[n];
    }
  }

  function Items(sources: seq<Source>, labels: seq<Label>, generatedAt: int): seq<DatasetItem>
    requires |sources| == |labels|
  {
    seq(|sources|, i requires 0 <= i < |sources| =>
      DatasetItem(i + 1, sources[i], labels[i].positive, generatedAt))
  }

  function HeaderOf(sources: seq<Source>, labels: seq<Label>): Header
    requires |sources| == |labels|
  {
    var sessions := SessionDates(sources);
    Header(if sources == [] then EMPTY else READY, |sources|, CountPositive(labels),
           |sources| - CountPositive(labels), CountProspective(sources),
           |sources| - CountProspective(sources), |sessions|,
           if sessions == [] then None else Some(sessions[0]),
           if sessions == [] then None else Some(sessions[|sessions| - 1]))
  }

  function Build(sources: seq<Source>, labels: seq<Label>, generatedAt: int): Result<Dataset, DatasetError> {
    if |sources| != |labels| then Err(LabelCountMismatch)
    else if exists i :: 0 <= i < |sources| && !Matches(labels[i], sources[i]) then Err(LabelSourceMismatch)
    else Ok(Dataset(HeaderOf(sources, labels), Items(sources, labels, generatedAt)))
  }

  /** The checks of the dataset table. */
  predicate HeaderFits(h: Header) {
    && h.notPositive >= 0 && h.retrospective >= 0
    && h.total == h.positive + h.notPositive
    && h.total == h.prospective + h.retrospective
    && if h.status == EMPTY then
         h.total == 0 && h.sessions == 0 && h.earliest == None && h.latest == None
       else
         h.total > 0 && h.sessions > 0 && h.earliest.Some? && h.latest.Some?
         && h.earliest.value <= h.latest.value
  }

  lemma {:induction false} CountsBounded(sources: seq<Source>, labels: seq<Label>)
    requires |sources| == |labels|
    ensures CountPositive(labels) <= |labels| && CountProspective(sources) <= |sources|
  {
    if sources != [] {
      CountsBounded(sources[..|sources| - 1], labels[..|labels| - 1]);
    }
  }

  function CountRising(sources: seq<Source>): nat {
    if sources == [] then 0
    else CountRising(sources[..|sources| - 1]) + (if sources[|sources| - 1].forwardReturn > 0.0 then 1 else 0)
  }

  lemma {:induction false} LabelsCountRises(sources: seq<Source>, labels: seq<Label>)
    requires |sources| == |labels| && forall i :: 0 <= i < |sources| ==> Matches(labels[i], sources[i])
    ensures CountPositive(labels) == CountRising(sources)
  {
    if sources != [] {
      var n := |sources| - 1;
      forall i | 0 <= i < n
        ensures Matches(labels[..n][i], sources[..n][i])
      {
        assert Matches(labels[i], sources[i]);
      }
      LabelsCountRises(sources[..n], labels[..n]);
    }
  }

  lemma Bracketed(dates: seq<int>, d: int)
    requires (forall i, j :: 0 <= i < j < |dates| ==> dates[i] < dates[j]) && d in dates
    ensures dates != [] && dates[0] <= d <= dates[|dates| - 1]
  {
  }

  /** The distinct dates run from the earliest to the latest session of the sources. */
  lemma ExtremeDates(sources: seq<Source>)
    requires sources != []
    ensures SessionDates(sources) != []
    ensures var dates := SessionDates(sources);
            forall s :: s in sources ==> dates[0] <= s.sessionDate <= dates[|dates| - 1]
  {
    DatesAreSessions(sources);
    assert sources[0] in sources;
    hide SessionDates;
    forall s | s in sources
      ensures SessionDates(sources)[0] <= s.sessionDate <= SessionDates(sources)[|SessionDates(sources)| - 1]
    {
      Bracketed(SessionDates(sources), s.sessionDate);
    }
  }

  /** A header fits its table, whatever the sources and labels. */
  lemma HeaderFitsTable(sources: seq<Source>, labels: seq<Label>)
    requires |sources| == |labels|
    ensures HeaderFits(HeaderOf(sources, labels))
  {
    CountsBounded(sources, labels);
    SomeSession(sources);
    hide SessionDates, CountPositive, CountProspective;
  }

  /** With matching labels the positive count is the number of sources that rose. */
  lemma PositiveMeansRising(sources: seq<Source>, labels: seq<Label>, generatedAt: int)
    requires Build(sources, labels, generatedAt).Ok?
    ensures Build(sources, labels, generatedAt).value.header.positive == CountRising(sources)
  {
    hide Matches, SessionDates;
    LabelsCountRises(sources, labels);
  }

  lemma SomeSession(sources: seq<Source>)
    ensures SessionDates(sources) == [] <==> sources == []
    ensures SessionDates(sources) != [] ==>
              SessionDates(sources)[0] <= SessionDates(sources)[|SessionDates(sources)| - 1]
  {
  }

  ghost predicate Held(sources: seq<Source>, d: int) {
    exists s :: s in sources && s.sessionDate == d
  }

  /** As many dates as ascending entries. */
  lemma {:induction false} DistinctCount(dates: seq<int>)
    requires forall i, j :: 0 <= i < j < |dates| ==> dates[i] < dates[j]
    ensures |set d | d in dates| == |dates|
  {
    if dates != [] {
      var n := |dates| - 1;
      DistinctCount(dates[..n]);
      var before := set d | d in dates[..n];
      assert dates[n] !in before;
      assert (set d | d in dates) == before + {dates[n]};
    } else {
      assert (set d | d in dates) == {};
    }
  }

  /** The header's dates are those of the earliest and the latest session, and its session
      count is the number of different dates. */
  lemma HeaderDates(sources: seq<Source>, labels: seq<Label>, s: Source)
    requires |sources| == |labels| && s in sources
    ensures var header := HeaderOf(sources, labels);
            && header.earliest.Some? && header.latest.Some?
            && header.earliest.value <= s.sessionDate <= header.latest.value
            && Held(sources, header.earliest.value) && Held(sources, header.latest.value)
            && header.sessions == |set x | x in sources :: x.sessionDate|
  {
    ExtremeDates(sources);
    DatesAreSessions(sources);
    var dates := SessionDates(sources);
    DistinctCount(dates);
    hide SessionDates, CountPositive, CountProspective;
    assert dates[0] in dates && dates[|dates| - 1] in dates;
    assert (set d | d in dates) == set x | x in sources :: x.sessionDate;
  }

  /** The places of the prospective sources. */
  function Prospective(sources: seq<Source>): set<int> {
    set i | 0 <= i < |sources| && sources[i].prospective
  }

  /** The places of the sources with a positive return. */
  function Rising(sources: seq<Source>): set<int> {
    set i | 0 <= i < |sources| && sources[i].forwardReturn > 0.0
  }

  lemma LastProspective(sources: seq<Source>)
    requires sources != []
    ensures var n := |sources| - 1;
            Prospective(sources)
            == if sources[n].prospective then Prospective(sources[..n]) + {n} else Prospective(sources[..n])
  {
  }

  lemma {:induction false} ProspectiveIsSize(sources: seq<Source>)
    ensures CountProspective(sources) == |Prospective(sources)|
  {
    if sources == [] {
      assert Prospective(sources) == {};
    } else {
      ProspectiveIsSize(sources[..|sources| - 1]);
      LastProspective(sources);
      NotInFront(sources);
      hide Prospective;
    }
  }

  lemma LastRising(sources: seq<Source>)
    requires sources != []
    ensures var n := |sources| - 1;
            Rising(sources)
            == if sources[n].forwardReturn > 0.0 then Rising(sources[..n]) + {n} else Rising(sources[..n])
  {
  }

  lemma NotInFront(sources: seq<Source>)
    requires sources != []
    ensures |sources| - 1 !in Prospective(sources[..|sources| - 1])
    ensures |sources| - 1 !in Rising(sources[..|sources| - 1])
  {
  }

  lemma {:induction false} RisingIsSize(sources: seq<Source>)
    ensures CountRising(sources) == |Rising(sources)|
  {
    if sources == [] {
      assert Rising(sources) == {};
    } else {
      RisingIsSize(sources[..|sources| - 1]);
      LastRising(sources);
      NotInFront(sources);
      hide Rising;
    }
  }

  /** The label is that of the source, and says whether its return was positive. */
  predicate LabelOf(l: Label, s: Source) {
    && (l.outcomeId, l.scoringRunId, l.scoringItemId, l.symbol, l.mic)
       == (s.outcomeId, s.scoringRunId, s.scoringItemId, s.symbol, s.mic)
    && (l.horizon, l.sessionDate, l.terminalDate) == (s.horizon, s.sessionDate, s.terminalDate)
    && (l.prospective <==> s.prospective) && l.outcomeAvailable == s.outcomeAvailable
    && (l.positive <==> s.forwardReturn > 0.0)
  }

  /** When labels and sources make a dataset, and what its header counts. */
  lemma BuiltIff(sources: seq<Source>, labels: seq<Label>, generatedAt: int)
    ensures var r := Build(sources, labels, generatedAt);
            && (r == Err(LabelCountMismatch) <==> |sources| != |labels|)
            && (r.Ok? <==> |sources| == |labels| && forall i :: 0 <= i < |sources| ==> LabelOf(labels[i], sources[i]))
            && (r.Ok? ==>
                  && |r.value.items| == |sources|
                  && (forall i :: 0 <= i < |sources| ==>
                        r.value.items[i]
                        == DatasetItem(i + 1, sources[i], sources[i].forwardReturn > 0.0, generatedAt))
                  && var h := r.value.header;
                  && (h.status == EMPTY <==> sources == [])
                  && h.total == |sources|
                  && h.positive == |Rising(sources)|
                  && h.notPositive == h.total - h.positive
                  && h.prospective == |Prospective(sources)|
                  && h.retrospective == h.total - h.prospective)
  {
    ProspectiveIsSize(sources);
    RisingIsSize(sources);
    if |sources| == |labels| {
      forall i | 0 <= i < |sources|
        ensures Matches(labels[i], sources[i]) <==> LabelOf(labels[i], sources[i])
      {
      }
      if Build(sources, labels, generatedAt).Ok? {
        PositiveMeansRising(sources, labels, generatedAt);
      }
    }
    hide SessionDates, CountPositive, CountProspective, CountRising;
  }

  /** From request to dataset: one numbered item per accepted source, no scoring item twice, and
      no item newer than the cutoff. */
  lemma DatasetRespectsCutoff(
    sources: seq<Source>, labels: seq<Label>, identity: Identity, generatedAt: int, i: nat, j: nat)
    requires ValidateAndOrder(sources, identity).Ok?
    requires var ordered := ValidateAndOrder(sources, identity).value;
             && Build(ordered, labels, generatedAt).Ok?
             && i < j < |Build(ordered, labels, generatedAt).value.items|
    requires identity.cutoff <= generatedAt
    ensures var items := Build(ValidateAndOrder(sources, identity).value, labels, generatedAt).value.items;
            && |items| == |sources|
            && items[i].ordinal == i + 1 && items[j].ordinal == j + 1
            && items[i].positive == (items[i].source.forwardReturn > 0.0)
            && items[i].source.scoringItemId != items[j].source.scoringItemId
            && items[i].source.sessionDate <= items[j].source.sessionDate
            && items[i].source.outcomeAvailable <= items[i].generatedAt
            && items[i].source.outcomeRecorded <= items[i].generatedAt
  {
    AcceptedSources(sources, identity);
    hide ValidateAndOrder;
    var ordered := ValidateAndOrder(sources, identity).value;
    assert |multiset(ordered)| == |ordered| && |multiset(sources)| == |sources|;
    assert ordered[i] in ordered && NotAfter(ordered[i], ordered[j]);
  }
}
