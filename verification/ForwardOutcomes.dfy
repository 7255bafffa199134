/** When a forward outcome has matured, and why an observation can never look ahead. */
module ForwardOutcomes {
  import opened Outcomes
  import opened MarketCalendar

  datatype ItemOutcome =
    | OUTCOME_CREATED
    | OUTCOME_ALREADY_EXISTS
    | NOT_MATURED
    | FUTURE_BARS_INCOMPLETE
    | FUTURE_BAR_CONTRACT_INVALID
    | CALENDAR_OUT_OF_COVERAGE
    | SOURCE_ITEM_NOT_ELIGIBLE
    | SOURCE_CHAIN_INVALID

  type Rate = real

  /** A stored daily bar: the low is the least and the high the greatest of its prices. */
  datatype RawBar = RawBar(
    date: Day, fromProvider: bool, symbol: string, adjusted: bool, currency: string,
    availableAt: Instant, observedAt: Instant, high: real, low: real, close: real)

  predicate ValidBar(b: RawBar) {
    0.0 < b.low <= b.close <= b.high
  }

  type Bar = b: RawBar | ValidBar(b)
    witness RawBar(0, false, "", false, "", 0, 0, 1.0, 1.0, 1.0)

  /** The validated source of one scoring item. */
  datatype Source = Source(completedDate: Day, horizon: nat, referenceClose: real, symbol: string)

  datatype Calculated = Calculated(
    terminalClose: real, forward: Rate, favorable: Rate, adverse: Rate, terminalDate: Day,
    latestAvailable: Instant)

  datatype Prepared = Prepared(outcome: ItemOutcome, calculated: Option<Calculated>, terminal: Option<Day>)

  // ---------------------------------------------------------------------------
  // Future sessions
  // ---------------------------------------------------------------------------

  /** Position of the first session on the date. */
  function IndexOf(sessions: seq<Session>, date: Day): (r: Option<nat>)
    ensures r.Some? ==> r.value < |sessions|
  {
    if sessions == [] then None
    else if sessions[0].date == date then Some(0)
    else
      match IndexOf(sessions[1..], date)
      case None => None
      case Some(i) => Some(i + 1)
  }

  /** None when the date has no session; empty when the calendar ends too early. */
  function FutureSessions(sessions: seq<Session>, date: Day, horizon: nat): Option<seq<Session>> {
    match IndexOf(sessions, date)
    case None => None
    case Some(i) =>
      var end := if i + 1 + horizon < |sessions| then i + 1 + horizon else |sessions|;
      var selected := sessions[i + 1..end];
      Some(if |selected| == horizon then selected else [])
  }

  lemma {:induction false} IndexOfFirst(sessions: seq<Session>, date: Day)
    ensures IndexOf(sessions, date).Some? ==>
              var i := IndexOf(sessions, date).value; i < |sessions| && sessions[i].date == date
    ensures IndexOf(sessions, date).None? ==> forall s :: s in sessions ==> s.date != date
  {
    if sessions != [] {
      IndexOfFirst(sessions[1..], date);
      assert forall s :: s in sessions ==> s == sessions[0] || s in sessions[1..];
    }
  }

  /** In an ordered calendar the future sessions are exactly the next contiguous ones. */
  lemma NextSessions(sessions: seq<Session>, i: nat, horizon: nat)
    requires Ordered(sessions) && i < |sessions|
    ensures FutureSessions(sessions, sessions[i].date, horizon)
            == Some(if i + horizon < |sessions| then sessions[i + 1..i + 1 + horizon] else [])
  {
    IndexOfFirst(sessions, sessions[i].date);
    assert sessions[i] in sessions;
    assert IndexOf(sessions, sessions[i].date) == Some(i);
  }

  // ---------------------------------------------------------------------------
  // Maturity
  // ---------------------------------------------------------------------------

  /** The decisions before the bar read: Ok names the sessions whose bars will be read.
      A missing `sessions` stands for a market the calendar does not support. */
  function Maturity(
    eligible: bool, source: Option<Source>, sessions: Option<seq<Session>>, asOf: Instant, grace: nat)
    : Result<seq<Session>, Prepared>
  {
    if !eligible then Err(Prepared(SOURCE_ITEM_NOT_ELIGIBLE, None, None))
    else if source.None? then Err(Prepared(SOURCE_CHAIN_INVALID, None, None))
    else if sessions.None? then Err(Prepared(SOURCE_CHAIN_INVALID, None, None))
    else
      match FutureSessions(sessions.value, source.value.completedDate, source.value.horizon)
      case None => Err(Prepared(SOURCE_CHAIN_INVALID, None, None))
      case Some(selected) =>
        if selected == [] then Err(Prepared(CALENDAR_OUT_OF_COVERAGE, None, None))
        else
          var last := selected[|selected| - 1];
          if asOf < last.closeAt + grace then Err(Prepared(NOT_MATURED, None, Some(last.date)))
          else Ok(selected)
  }

  /** No lookahead.  If the resolver pinned session i for a run at `asOf`, then no
      observation made no later, with no less grace, gets as far as reading a future bar. */
  lemma NoLookahead(
    sessions: seq<Session>, i: int, asOf: Instant, grace: nat, observedAsOf: Instant, granted: nat,
    eligible: bool, source: Source)
    requires Ordered(sessions) && Newest(sessions, asOf, grace, i)
    requires source.completedDate == sessions[i].date && source.horizon >= 1
    requires observedAsOf <= asOf && granted >= grace
    ensures Maturity(eligible, Some(source), Some(sessions), observedAsOf, granted).Err?
    ensures eligible ==>
              var outcome := Maturity(eligible, Some(source), Some(sessions), observedAsOf, granted).error.outcome;
              outcome == if i + source.horizon < |sessions| then NOT_MATURED else CALENDAR_OUT_OF_COVERAGE
  {
    NextSessions(sessions, i, source.horizon);
    hide FutureSessions, Ordered;
    if i + source.horizon < |sessions| {
      var selected := sessions[i + 1..i + 1 + source.horizon];
      assert selected[|selected| - 1] == sessions[i + source.horizon];
      assert !Eligible(sessions[i + source.horizon], asOf, grace);
    }
  }

  /** Conversely, bars are read exactly when the calendar still covers the horizon and the
      terminal session has completed; and then for the next `horizon` sessions. */
  lemma ReadIff(
    sessions: seq<Session>, i: nat, asOf: Instant, grace: nat, eligible: bool, source: Source)
    requires Ordered(sessions) && i < |sessions|
    requires source.completedDate == sessions[i].date && source.horizon >= 1
    ensures var maturity := Maturity(eligible, Some(source), Some(sessions), asOf, grace);
            && (maturity.Ok? <==> eligible && i + source.horizon < |sessions|
                                  && Eligible(sessions[i + source.horizon], asOf, grace))
            && (maturity.Ok? ==> maturity.value == sessions[i + 1..i + 1 + source.horizon])
  {
    NextSessions(sessions, i, source.horizon);
    hide FutureSessions, Ordered;
    if i + source.horizon < |sessions| {
      var selected := sessions[i + 1..i + 1 + source.horizon];
      assert selected[|selected| - 1] == sessions[i + source.horizon];
    }
  }

  /** Together: a resolved run matures at `observedAsOf` exactly when its terminal session
      is itself among the completed sessions of that instant. */
  lemma MaturesWhenResolvedLater(
    sessions: seq<Session>, i: nat, later: int, asOf: Instant, grace: nat, source: Source)
    requires Ordered(sessions) && i < |sessions|
    requires source.completedDate == sessions[i].date && source.horizon >= 1
    requires Newest(sessions, asOf, grace, later)
    ensures Maturity(true, Some(source), Some(sessions), asOf, grace).Ok? <==> i + source.horizon <= later
  {
    ReadIff(sessions, i, asOf, grace, true, source);
  }

  // ---------------------------------------------------------------------------
  // The forward path
  // ---------------------------------------------------------------------------

  predicate ContractHolds(b: Bar, symbol: string, asOf: Instant) {
    b.fromProvider && b.symbol == symbol && b.adjusted && b.currency == "USD"
    && b.observedAt <= b.availableAt <= asOf
  }

  function Dates(bars: seq<Bar>): seq<Day> {
    seq(|bars|, i requires 0 <= i < |bars| => bars[i].date)
  }

  function MaxHigh(bars: seq<Bar>): (r: real)
    requires bars != []
    ensures forall b :: b in bars ==> b.high <= r
    ensures exists b :: b in bars && b.high == r
  {
    var n := |bars| - 1;
    if n == 0 then
      assert bars[0] in bars;
      bars[0].high
    else
      var before := MaxHigh(bars[..n]);
      assert forall b :: b in bars ==> b in bars[..n] || b == bars[n];
      assert bars[n] in bars && forall b :: b in bars[..n] ==> b in bars;
      if before < bars[n].high then bars[n].high else before
  }

  function MinLow(bars: seq<Bar>): (r: real)
    requires bars != []
    ensures forall b :: b in bars ==> r <= b.low
    ensures exists b :: b in bars && b.low == r
  {
    var n := |bars| - 1;
    if n == 0 then
      assert bars[0] in bars;
      bars[0].low
    else
      var before := MinLow(bars[..n]);
      assert forall b :: b in bars ==> b in bars[..n] || b == bars[n];
      assert bars[n] in bars && forall b :: b in bars[..n] ==> b in bars;
      if bars[n].low < before then bars[n].low else before
  }

  function LatestAvailable(bars: seq<Bar>): (r: Instant)
    requires bars != []
    ensures forall b :: b in bars ==> b.availableAt <= r
    ensures exists b :: b in bars && b.availableAt == r
  {
    var n := |bars| - 1;
    if n == 0 then
      assert bars[0] in bars;
      bars[0].availableAt
    else
      var before := LatestAvailable(bars[..n]);
      assert forall b :: b in bars ==> b in bars[..n] || b == bars[n];
      assert bars[n] in bars && forall b :: b in bars[..n] ==> b in bars;
      if before < bars[n].availableAt then bars[n].availableAt else before
  }

  datatype PathError =
    | HorizonInvalid
    | BarsIncomplete
    | ContractInvalid
    | RateRelationInvalid

  /** `calculate_forward_outcome`, with exact rates. */
  function Calculate(reference: real, bars: seq<Bar>, expected: seq<Day>, symbol: string, asOf: Instant)
    : Result<Calculated, PathError>
    requires reference > 0.0
  {
    if !(1 <= |expected| <= 5) then Err(HorizonInvalid)
    else if Dates(bars) != expected
            || exists i, j :: 0 <= i < j < |bars| && Dates(bars)[i] == Dates(bars)[j]
    then Err(BarsIncomplete)
    else if exists b :: b in bars && !ContractHolds(b, symbol, asOf) then Err(ContractInvalid)
    else
      assert |Dates(bars)| == |bars|;
      var terminal := bars[|bars| - 1].close;
      var c := Calculated(
        terminal, terminal / reference - 1.0, MaxHigh(bars) / reference - 1.0,
        MinLow(bars) / reference - 1.0, expected[|expected| - 1], LatestAvailable(bars));
      if c.adverse <= c.forward <= c.favorable then Ok(c) else Err(RateRelationInvalid)
  }

  function PrepareItem(
    eligible: bool, source: Option<Source>, sessions: Option<seq<Session>>, bars: seq<Bar>,
    asOf: Instant, grace: nat)
    : Prepared
    requires source.Some? ==> source.value.referenceClose > 0.0
  {
    match Maturity(eligible, source, sessions, asOf, grace)
    case Err(prepared) => prepared
    case Ok(selected) =>
      var expected := seq(|selected|, i requires 0 <= i < |selected| => selected[i].date);
      var terminal := Some(selected[|selected| - 1].date);
      match Calculate(source.value.referenceClose, bars, expected, source.value.symbol, asOf)
      case Err(BarsIncomplete) => Prepared(FUTURE_BARS_INCOMPLETE, None, terminal)
      case Err(_) => Prepared(FUTURE_BAR_CONTRACT_INVALID, None, terminal)
      case Ok(calculated) => Prepared(OUTCOME_CREATED, Some(calculated), terminal)
  }

  lemma DivideMonotone(a: real, b: real, d: real)
    requires a <= b && d > 0.0
    ensures a / d <= b / d
  {
  }

  /** The check on the three rates never fires: bars bound their own closes. */
  lemma RatesAreOrdered(reference: real, bars: seq<Bar>, expected: seq<Day>, symbol: string, asOf: Instant)
    requires reference > 0.0
    ensures Calculate(reference, bars, expected, symbol, asOf) != Err(RateRelationInvalid)
  {
    if bars != [] {
      var last := bars[|bars| - 1];
      assert last in bars;
      DivideMonotone(MinLow(bars), last.close, reference);
      DivideMonotone(last.close, MaxHigh(bars), reference);
    }
  }

  /** The price that this rate reaches from the reference. */
  function Reached(reference: real, rate: Rate): real {
    (1.0 + rate) * reference
  }

  lemma RateReaches(price: real, reference: real)
    requires reference > 0.0
    ensures Reached(reference, price / reference - 1.0) == price
  {
    assert price / reference * reference == price;
  }

  /** The five numbers of an outcome, from the bars they were made from: the return to the last
      close, the excursions to the highest high and the lowest low, and the latest input. */
  ghost predicate Measures(made: Calculated, bars: seq<Bar>, reference: real) {
    && bars != []
    && made.terminalClose == bars[|bars| - 1].close
    && made.terminalDate == bars[|bars| - 1].date
    && Reached(reference, made.forward) == bars[|bars| - 1].close
    && (forall b :: b in bars ==> b.high <= Reached(reference, made.favorable))
    && (exists b :: b in bars && b.high == Reached(reference, made.favorable))
    && (forall b :: b in bars ==> Reached(reference, made.adverse) <= b.low)
    && (exists b :: b in bars && b.low == Reached(reference, made.adverse))
    && (forall b :: b in bars ==> b.availableAt <= made.latestAvailable)
    && (exists b :: b in bars && b.availableAt == made.latestAvailable)
  }

  /** Every bar is the provider's split-adjusted dollar bar of the symbol, observed before it
      was available, and available by this instant. */
  ghost predicate Usable(bars: seq<Bar>, symbol: string, asOf: Instant) {
    forall b :: b in bars ==>
      && b.fromProvider && b.symbol == symbol && b.adjusted && b.currency == "USD"
      && b.observedAt <= b.availableAt && b.availableAt <= asOf
  }

  /** The bars are one for each of these days, in order. */
  ghost predicate Covers(bars: seq<Bar>, expected: seq<Day>) {
    |bars| == |expected| && forall k :: 0 <= k < |bars| ==> bars[k].date == expected[k]
  }

  lemma VerdictIff(reference: real, bars: seq<Bar>, expected: seq<Day>, symbol: string, asOf: Instant)
    requires reference > 0.0
    requires forall i, j :: 0 <= i < j < |expected| ==> expected[i] != expected[j]
    requires Calculate(reference, bars, expected, symbol, asOf) != Err(RateRelationInvalid)
    requires Dates(bars) == expected <==> Covers(bars, expected)
    ensures var r, some := Calculate(reference, bars, expected, symbol, asOf), 1 <= |expected| <= 5;
            && (r.Ok? <==> some && Covers(bars, expected) && Usable(bars, symbol, asOf))
            && (r == Err(BarsIncomplete) <==> some && !Covers(bars, expected))
            && (r == Err(ContractInvalid) <==> some && Covers(bars, expected) && !Usable(bars, symbol, asOf))
  {
    hide MaxHigh, MinLow, LatestAvailable, Covers;
  }

  lemma MeasuredPath(reference: real, bars: seq<Bar>, expected: seq<Day>, symbol: string, asOf: Instant)
    requires reference > 0.0 && Calculate(reference, bars, expected, symbol, asOf).Ok?
    ensures Measures(Calculate(reference, bars, expected, symbol, asOf).value, bars, reference)
  {
    var c := Calculate(reference, bars, expected, symbol, asOf).value;
    assert bars != [] && Dates(bars)[|bars| - 1] == bars[|bars| - 1].date;
    RateReaches(bars[|bars| - 1].close, reference);
    RateReaches(MaxHigh(bars), reference);
    RateReaches(MinLow(bars), reference);
    hide Reached, MaxHigh, MinLow, LatestAvailable, ContractHolds;
  }

  /** When a path is measured, why it is not otherwise, and what the measurement is. */
  lemma CalculatedIff(reference: real, bars: seq<Bar>, expected: seq<Day>, symbol: string, asOf: Instant)
    requires reference > 0.0
    requires forall i, j :: 0 <= i < j < |expected| ==> expected[i] != expected[j]
    ensures var r, some := Calculate(reference, bars, expected, symbol, asOf), 1 <= |expected| <= 5;
            && (r.Ok? <==> some && Covers(bars, expected) && Usable(bars, symbol, asOf))
            && (r == Err(BarsIncomplete) <==> some && !Covers(bars, expected))
            && (r == Err(ContractInvalid) <==> some && Covers(bars, expected) && !Usable(bars, symbol, asOf))
            && (r.Ok? ==> Measures(r.value, bars, reference))
  {
    hide Calculate, Measures, Usable, Covers;
    RatesAreOrdered(reference, bars, expected, symbol, asOf);
    SameDates(bars, expected);
    VerdictIff(reference, bars, expected, symbol, asOf);
    if Calculate(reference, bars, expected, symbol, asOf).Ok? {
      MeasuredPath(reference, bars, expected, symbol, asOf);
    }
  }

  lemma SameDates(bars: seq<Bar>, expected: seq<Day>)
    ensures Dates(bars) == expected <==> Covers(bars, expected)
  {
  }

  /** A fact about the past of its own instant: the terminal session had closed, every bar
      was usable by then, its dates are the next sessions, and its numbers measure them. */
  ghost predicate Hindsight(
    sessions: seq<Session>, i: nat, bars: seq<Bar>, asOf: Instant, grace: nat, source: Source,
    made: Calculated)
  {
    && i + source.horizon < |sessions|
    && |bars| == source.horizon <= 5
    && (forall k :: 0 <= k < |bars| ==> bars[k].date == sessions[i + 1 + k].date)
    && Usable(bars, source.symbol, asOf)
    && sessions[i + source.horizon].closeAt + grace <= asOf
    && Measures(made, bars, source.referenceClose)
    && made.adverse <= made.forward <= made.favorable
  }

  /** An outcome is created only from a path that had matured and passed every check. */
  lemma CreatedNeeds(
    sessions: seq<Session>, bars: seq<Bar>, asOf: Instant, grace: nat, eligible: bool, source: Source)
    returns (expected: seq<Day>)
    requires source.referenceClose > 0.0
    requires PrepareItem(eligible, Some(source), Some(sessions), bars, asOf, grace).outcome == OUTCOME_CREATED
    ensures var maturity := Maturity(eligible, Some(source), Some(sessions), asOf, grace);
            && maturity.Ok?
            && |expected| == |maturity.value|
            && forall k :: 0 <= k < |expected| ==> expected[k] == maturity.value[k].date
    ensures var calculated := Calculate(source.referenceClose, bars, expected, source.symbol, asOf);
            && calculated.Ok?
            && PrepareItem(eligible, Some(source), Some(sessions), bars, asOf, grace).calculated
               == Some(calculated.value)
  {
    hide Calculate;
    var maturity := Maturity(eligible, Some(source), Some(sessions), asOf, grace);
    assert maturity.Ok? by { MaturityOutcomes(eligible, source, sessions, asOf, grace); }
    var selected := maturity.value;
    expected := seq(|selected|, k requires 0 <= k < |selected| => selected[k].date);
  }

  lemma MaturityOutcomes(
    eligible: bool, source: Source, sessions: seq<Session>, asOf: Instant, grace: nat)
    ensures var maturity := Maturity(eligible, Some(source), Some(sessions), asOf, grace);
            maturity.Err? ==> maturity.error.outcome != OUTCOME_CREATED
  {
  }

  lemma CreatedIsHindsight(
    sessions: seq<Session>, i: nat, bars: seq<Bar>, asOf: Instant, grace: nat, eligible: bool,
    source: Source)
    requires Ordered(sessions) && i < |sessions| && source.referenceClose > 0.0
    requires source.completedDate == sessions[i].date && source.horizon >= 1
    requires PrepareItem(eligible, Some(source), Some(sessions), bars, asOf, grace).outcome == OUTCOME_CREATED
    ensures PrepareItem(eligible, Some(source), Some(sessions), bars, asOf, grace).calculated.Some?
    ensures Hindsight(sessions, i, bars, asOf, grace, source,
                      PrepareItem(eligible, Some(source), Some(sessions), bars, asOf, grace).calculated.value)
  {
    hide Calculate, Maturity, PrepareItem, Usable, Measures;
    var expected := CreatedNeeds(sessions, bars, asOf, grace, eligible, source);
    ReadIff(sessions, i, asOf, grace, eligible, source);
    CalculatedIff(source.referenceClose, bars, expected, source.symbol, asOf);
    RatesOrdered(source.referenceClose, bars, expected, source.symbol, asOf);
  }

  lemma RatesOrdered(reference: real, bars: seq<Bar>, expected: seq<Day>, symbol: string, asOf: Instant)
    requires reference > 0.0 && Calculate(reference, bars, expected, symbol, asOf).Ok?
    ensures var c := Calculate(reference, bars, expected, symbol, asOf).value;
            c.adverse <= c.forward <= c.favorable
  {
  }

  /** The bars are those of the sessions after session i, one each, in order. */
  ghost predicate OfNextSessions(sessions: seq<Session>, i: nat, horizon: nat, bars: seq<Bar>) {
    && i + horizon < |sessions|
    && |bars| == horizon
    && forall k :: 0 <= k < |bars| ==> bars[k].date == sessions[i + 1 + k].date
  }

  lemma PreparedFrom(
    sessions: seq<Session>, i: nat, bars: seq<Bar>, asOf: Instant, grace: nat, source: Source)
    returns (expected: seq<Day>)
    requires source.referenceClose > 0.0 && i + source.horizon < |sessions| && source.horizon >= 1
    requires Maturity(true, Some(source), Some(sessions), asOf, grace)
             == Ok(sessions[i + 1..i + 1 + source.horizon])
    ensures |expected| == source.horizon
    ensures forall k :: 0 <= k < |expected| ==> expected[k] == sessions[i + 1 + k].date
    ensures var made := PrepareItem(true, Some(source), Some(sessions), bars, asOf, grace);
            && made.terminal == Some(sessions[i + source.horizon].date)
            && made.outcome == match Calculate(source.referenceClose, bars, expected, source.symbol, asOf)
                               case Err(BarsIncomplete) => FUTURE_BARS_INCOMPLETE
                               case Err(_) => FUTURE_BAR_CONTRACT_INVALID
                               case Ok(_) => OUTCOME_CREATED
  {
    hide Calculate, Maturity;
    var selected := sessions[i + 1..i + 1 + source.horizon];
    expected := seq(|selected|, k requires 0 <= k < |selected| => selected[k].date);
    assert selected[|selected| - 1] == sessions[i + source.horizon];
  }

  /** Every outcome of a scoring item whose source is session i of the calendar: the first
      thing that is in the way decides, and nothing else is. */
  lemma ItemOutcomes(
    sessions: seq<Session>, i: nat, bars: seq<Bar>, asOf: Instant, grace: nat, eligible: bool,
    source: Source)
    requires Ordered(sessions) && i < |sessions| && source.referenceClose > 0.0
    requires source.completedDate == sessions[i].date && 1 <= source.horizon <= 5
    ensures var made := PrepareItem(eligible, Some(source), Some(sessions), bars, asOf, grace);
            && (eligible && i + source.horizon < |sessions| ==>
                  made.terminal == Some(sessions[i + source.horizon].date))
            && made.outcome
               == if !eligible then SOURCE_ITEM_NOT_ELIGIBLE
                  else if i + source.horizon >= |sessions| then CALENDAR_OUT_OF_COVERAGE
                  else if asOf < sessions[i + source.horizon].closeAt + grace then NOT_MATURED
                  else if !OfNextSessions(sessions, i, source.horizon, bars) then FUTURE_BARS_INCOMPLETE
                  else if !Usable(bars, source.symbol, asOf) then FUTURE_BAR_CONTRACT_INVALID
                  else OUTCOME_CREATED
  {
    hide Calculate, Usable, Measures, FutureSessions;
    NextSessions(sessions, i, source.horizon);
    ReadIff(sessions, i, asOf, grace, eligible, source);
    if i + source.horizon < |sessions| {
      assert sessions[i + 1..i + 1 + source.horizon][source.horizon - 1] == sessions[i + source.horizon];
      if eligible && Eligible(sessions[i + source.horizon], asOf, grace) {
        var expected := PreparedFrom(sessions, i, bars, asOf, grace, source);
        hide PrepareItem, Maturity;
        CalculatedIff(source.referenceClose, bars, expected, source.symbol, asOf);
      }
    }
  }

  /** Without a valid source chain, a supported market, or a session on the source's date. */
  lemma ChainInvalid(
    source: Option<Source>, sessions: Option<seq<Session>>, bars: seq<Bar>, asOf: Instant, grace: nat)
    requires source.Some? ==> source.value.referenceClose > 0.0
    requires source.None? || sessions.None?
             || forall s :: s in sessions.value ==> s.date != source.value.completedDate
    ensures PrepareItem(true, source, sessions, bars, asOf, grace).outcome == SOURCE_CHAIN_INVALID
    ensures PrepareItem(false, source, sessions, bars, asOf, grace).outcome == SOURCE_ITEM_NOT_ELIGIBLE
  {
    if source.Some? && sessions.Some? {
      IndexOfFirst(sessions.value, source.value.completedDate);
    }
  }

  /** A prepared item is a candidate outcome with its terminal date, or neither. */
  lemma PreparedShape(
    eligible: bool, source: Option<Source>, sessions: Option<seq<Session>>, bars: seq<Bar>,
    asOf: Instant, grace: nat)
    requires source.Some? ==> source.value.referenceClose > 0.0
    ensures var made := PrepareItem(eligible, source, sessions, bars, asOf, grace);
            && made.outcome != OUTCOME_ALREADY_EXISTS
            && (made.outcome == OUTCOME_CREATED <==> made.calculated.Some?)
            && (made.outcome == OUTCOME_CREATED ==> made.terminal.Some?)
  {
  }
}
