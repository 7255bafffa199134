/** Validation of provider bars against the calendar: one pass, first failure reported. */
module BarCalendar {
  import opened Outcomes
  import opened MarketCalendar

  datatype Observation = Observation(day: Day, symbol: string, source: string)

  datatype Category =
    | UnsupportedMarket
    | OutOfCalendarCoverage
    | AfterCompletedCutoff
    | DuplicateSession
    | OnNonTradingDay
    | SequenceInconsistent

  predicate Covered(day: Day) {
    START <= day <= END
  }

  /** What is wrong with bar i, given the bars before it. */
  function Problem(sessions: seq<Session>, cutoff: Day, bars: seq<Observation>, i: nat): Option<Category>
    requires i < |bars|
  {
    var bar := bars[i];
    if !Covered(bar.day) then Some(OutOfCalendarCoverage)
    else if bar.day > cutoff then Some(AfterCompletedCutoff)
    else if exists j :: 0 <= j < i && bars[j].day == bar.day then Some(DuplicateSession)
    else if SessionOn(sessions, bar.day).None? then Some(OnNonTradingDay)
    else if (bar.symbol, bar.source) != (bars[0].symbol, bars[0].source) then Some(SequenceInconsistent)
    else if i > 0 && bar.day < bars[i - 1].day then Some(SequenceInconsistent)
    else None
  }

  /** The verdict is that of the first bar with a problem. */
  ghost predicate FirstFailure(
    sessions: seq<Session>, cutoff: Day, bars: seq<Observation>, i: nat, category: Category)
  {
    && i < |bars|
    && Problem(sessions, cutoff, bars, i) == Some(category)
    && forall j :: 0 <= j < i ==> Problem(sessions, cutoff, bars, j) == None
  }

  method Validate(
    sessions: seq<Session>, supported: bool, sameCalendar: bool, cutoff: Day, bars: seq<Observation>)
    returns (r: Result<seq<Observation>, Category>, ghost failed: nat)
    ensures r == Err(UnsupportedMarket) <==> !supported
    ensures supported && (!sameCalendar || !Covered(cutoff)) ==> r == Err(OutOfCalendarCoverage)
    ensures supported && sameCalendar && Covered(cutoff) ==>
              match r
              case Ok(values) =>
                values == bars && forall i :: 0 <= i < |bars| ==> Problem(sessions, cutoff, bars, i) == None
              case Err(category) => FirstFailure(sessions, cutoff, bars, failed, category)
  {
    failed := 0;
    if !supported {
      return Err(UnsupportedMarket), failed;
    }
    if !sameCalendar || !Covered(cutoff) {
      return Err(OutOfCalendarCoverage), failed;
    }
    var firstIdentity: Option<(string, string)> := None;
    var previousDate: Option<Day> := None;
    var seenDates: set<Day> := {};
    var i := 0;
    while i < |bars|
      invariant 0 <= i <= |bars|
      invariant firstIdentity == if i == 0 then None else Some((bars[0].symbol, bars[0].source))
      invariant previousDate == if i == 0 then None else Some(bars[i - 1].day)
      invariant seenDates == set j | 0 <= j < i :: bars[j].day
      invariant forall j :: 0 <= j < i ==> Problem(sessions, cutoff, bars, j) == None
    {
      failed := i;
      var bar := bars[i];
      if !Covered(bar.day) {
        return Err(OutOfCalendarCoverage), failed;
      }
      if bar.day > cutoff {
        return Err(AfterCompletedCutoff), failed;
      }
      if bar.day in seenDates {
        return Err(DuplicateSession), failed;
      }
      if SessionOn(sessions, bar.day).None? {
        return Err(OnNonTradingDay), failed;
      }
      var identity := (bar.symbol, bar.source);
      if firstIdentity.None? {
        firstIdentity := Some(identity);
      } else if identity != firstIdentity.value {
        return Err(SequenceInconsistent), failed;
      }
      if previousDate.Some? && bar.day < previousDate.value {
        return Err(SequenceInconsistent), failed;
      }
      previousDate := Some(bar.day);
      seenDates := seenDates + {bar.day};
      i := i + 1;
    }
    return Ok(bars), failed;
  }

  /** The declarative meaning of a pass without problems. */
  ghost predicate WellFormed(sessions: seq<Session>, cutoff: Day, bars: seq<Observation>) {
    && (forall i :: 0 <= i < |bars| ==>
          && Covered(bars[i].day) && bars[i].day <= cutoff && SessionOn(sessions, bars[i].day).Some?
          && bars[i].symbol == bars[0].symbol && bars[i].source == bars[0].source)
    && forall i, j :: 0 <= i < j < |bars| ==> bars[i].day < bars[j].day
  }

  /** Bars pass one after the other exactly when they are covered, completed, on sessions,
      of one instrument and source, and strictly ascending. */
  lemma PassesIffWellFormed(sessions: seq<Session>, cutoff: Day, bars: seq<Observation>)
    ensures (forall i :: 0 <= i < |bars| ==> Problem(sessions, cutoff, bars, i) == None)
            <==> WellFormed(sessions, cutoff, bars)
  {
    if forall i :: 0 <= i < |bars| ==> Problem(sessions, cutoff, bars, i) == None {
      forall i | 0 <= i < |bars|
        ensures Covered(bars[i].day) && bars[i].day <= cutoff && SessionOn(sessions, bars[i].day).Some?
        ensures bars[i].symbol == bars[0].symbol && bars[i].source == bars[0].source
      {
        assert Problem(sessions, cutoff, bars, i) == None;
      }
      forall i, j | 0 <= i < j < |bars|
        ensures bars[i].day < bars[j].day
      {
        Ascends(sessions, cutoff, bars, i, j);
      }
    }
  }

  lemma {:induction false} Ascends(
    sessions: seq<Session>, cutoff: Day, bars: seq<Observation>, i: nat, j: nat)
    requires i < j < |bars| && forall k :: 0 <= k < |bars| ==> Problem(sessions, cutoff, bars, k) == None
    ensures bars[i].day < bars[j].day
  {
    assert Problem(sessions, cutoff, bars, j) == None;
    if i < j - 1 {
      Ascends(sessions, cutoff, bars, i, j - 1);
    }
  }

  /** What each rejection says about the bar it names, over the schedule of the year; the bars
      before it were well formed. */
  lemma RejectionMeans(offset: Day -> int, cutoff: Day, bars: seq<Observation>, i: nat, category: Category)
    requires FirstFailure(Sessions(offset), cutoff, bars, i, category)
    ensures WellFormed(Sessions(offset), cutoff, bars[..i])
    ensures var bar := bars[i];
            match category
            case UnsupportedMarket => false
            case OutOfCalendarCoverage => bar.day < START || bar.day > END
            case AfterCompletedCutoff => bar.day > cutoff
            case DuplicateSession => exists j :: 0 <= j < i && bars[j].day == bar.day
            case OnNonTradingDay => !TradingDay(bar.day)
            case SequenceInconsistent =>
              i > 0 && (bar.symbol != bars[0].symbol || bar.source != bars[0].source
                        || bar.day < bars[i - 1].day)
  {
    hide Sessions, SessionOn, TradingDay, SessionAt;
    SessionOnTradingDays(offset, bars[i].day);
    var front := bars[..i];
    forall j | 0 <= j < i
      ensures Problem(Sessions(offset), cutoff, front, j) == None
    {
      assert Problem(Sessions(offset), cutoff, bars, j) == None;
    }
    PassesIffWellFormed(Sessions(offset), cutoff, front);
  }
}
