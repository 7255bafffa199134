/** The static 2026 US-equity schedule and the completed-session resolver.

    Days are counted from 1 January 2026 (day 0, a Thursday); instants are minutes of
    universal time.  The offset of New York from universal time is a parameter. */
module MarketCalendar {
  import opened Outcomes

  type Day = int
  type Instant = int

  const START: Day := 0
  const END: Day := 364
  const MINUTES_PER_DAY := 1440

  /** The ten full closures: every one falls on a weekday. */
  const CLOSURES: set<Day> := {0, 18, 46, 92, 144, 169, 183, 249, 329, 358}
  const EARLY_CLOSES: set<Day> := {330, 357}

  function Weekday(day: Day): int {
    (day + 3) % 7
  }

  predicate TradingDay(day: Day) {
    START <= day <= END && Weekday(day) < 5 && day !in CLOSURES
  }

  datatype Session = Session(date: Day, openAt: Instant, closeAt: Instant)

  // ---------------------------------------------------------------------------
  // Session dates
  // ---------------------------------------------------------------------------

  /** The trading days before `end`, in order. */
  function TradingDaysBefore(end: nat): (days: seq<Day>)
    requires end <= END + 1
    ensures forall d :: d in days <==> TradingDay(d) && d < end
    ensures forall i, j :: 0 <= i < j < |days| ==> days[i] < days[j]
  {
    if end == 0 then []
    else
      var before := TradingDaysBefore(end - 1);
      assert forall i :: 0 <= i < |before| ==> before[i] in before;
      before + (if TradingDay(end - 1) then [end - 1] else [])
  }

  /** The loop that precomputes the schedule; None stands for its failed count check. */
  method SessionDates() returns (days: Option<seq<Day>>)
    ensures days == Some(TradingDaysBefore(END + 1))
  {
    var current := START;
    var values: seq<Day> := [];
    while current <= END
      invariant START <= current <= END + 1
      invariant values == TradingDaysBefore(current)
    {
      if Weekday(current) < 5 && current !in CLOSURES {
        values := values + [current];
      }
      current := current + 1;
    }
    YearHas251Sessions();
    if |values| != 251 {
      return None;
    }
    return Some(values);
  }

  function WeekdaysBefore(end: nat): nat {
    if end == 0 then 0 else WeekdaysBefore(end - 1) + (if Weekday(end - 1) < 5 then 1 else 0)
  }

  lemma NextDay(day: nat, k: nat)
    requires k < 7
    ensures WeekdaysBefore(day + k + 1)
            == WeekdaysBefore(day + k) + (if Weekday(day) + k < 5 || Weekday(day) + k >= 7 then 1 else 0)
               - (if Weekday(day) + k >= 12 then 1 else 0)
  {
  }

  lemma OneWeek(day: nat)
    ensures WeekdaysBefore(day + 7) == WeekdaysBefore(day) + 5
  {
    hide WeekdaysBefore;
    NextDay(day, 0);
    NextDay(day, 1);
    NextDay(day, 2);
    NextDay(day, 3);
    NextDay(day, 4);
    NextDay(day, 5);
    NextDay(day, 6);
    hide Weekday;
  }

  /** Every week adds five weekdays. */
  lemma {:induction false} WeeksAddFive(end: nat, weeks: nat)
    ensures WeekdaysBefore(end + 7 * weeks) == WeekdaysBefore(end) + 5 * weeks
  {
    hide WeekdaysBefore;
    if weeks > 0 {
      WeeksAddFive(end, weeks - 1);
      OneWeek(end + 7 * (weeks - 1));
    }
  }

  function ClosuresBefore(end: nat): set<Day> {
    set d | d in CLOSURES && d < end
  }

  lemma ClosuresAreWeekdays()
    ensures forall d :: d in CLOSURES ==> START <= d <= END && Weekday(d) < 5
  {
  }

  lemma {:induction false} TradingDaysAndClosures(end: nat)
    requires end <= END + 1
    ensures |TradingDaysBefore(end)| + |ClosuresBefore(end)| == WeekdaysBefore(end)
  {
    ClosuresAreWeekdays();
    hide CLOSURES, Weekday;
    if end == 0 {
      assert ClosuresBefore(0) == {};
    } else {
      TradingDaysAndClosures(end - 1);
      if end - 1 in CLOSURES {
        assert ClosuresBefore(end) == ClosuresBefore(end - 1) + {end - 1};
      } else {
        assert ClosuresBefore(end) == ClosuresBefore(end - 1);
      }
    }
  }

  lemma {:induction false} YearHas251Sessions()
    ensures |TradingDaysBefore(END + 1)| == 251
  {
    hide TradingDaysBefore, WeekdaysBefore, CLOSURES;
    TradingDaysAndClosures(END + 1);
    WeeksAddFive(1, 52);
    FirstDayIsWeekday();
    TenClosures();
    ClosuresAreWeekdays();
    assert ClosuresBefore(END + 1) == CLOSURES;
  }

  lemma FirstDayIsWeekday()
    ensures WeekdaysBefore(1) == 1
  {
  }

  lemma TenClosures()
    ensures |CLOSURES| == 10
  {
  }

  // ---------------------------------------------------------------------------
  // Sessions
  // ---------------------------------------------------------------------------

  /** New York is four or five hours behind universal time. */
  ghost predicate NewYork(offset: Day -> int) {
    forall d :: 240 <= offset(d) <= 300
  }

  function SessionAt(day: Day, offset: Day -> int): Session {
    Session(day,
            day * MINUTES_PER_DAY + 9 * 60 + 30 + offset(day),
            day * MINUTES_PER_DAY + (if day in EARLY_CLOSES then 13 else 16) * 60 + offset(day))
  }

  /** The schedule, which is the same for every supported market. */
  function Sessions(offset: Day -> int): seq<Session> {
    var days := TradingDaysBefore(END + 1);
    seq(|days|, i requires 0 <= i < |days| => SessionAt(days[i], offset))
  }

  /** Dates rise strictly and no session opens before the previous one closed. */
  ghost predicate Ordered(sessions: seq<Session>) {
    && (forall i :: 0 <= i < |sessions| ==> sessions[i].openAt < sessions[i].closeAt)
    && forall i, j :: 0 <= i < j < |sessions| ==>
         && sessions[i].date < sessions[j].date
         && sessions[i].closeAt < sessions[j].openAt
         && sessions[i].closeAt < sessions[j].closeAt
  }

  lemma ScheduleIsOrdered(offset: Day -> int)
    requires NewYork(offset)
    ensures Ordered(Sessions(offset)) && |Sessions(offset)| == 251
  {
    hide TradingDaysBefore, SessionAt;
    YearHas251Sessions();
    var days := TradingDaysBefore(END + 1);
    forall i | 0 <= i < |days|
      ensures Sessions(offset)[i].date == days[i] && Sessions(offset)[i].openAt < Sessions(offset)[i].closeAt
    {
      OpensThenCloses(days[i], offset);
    }
    forall i, j | 0 <= i < j < |days|
      ensures Sessions(offset)[i].closeAt < Sessions(offset)[j].openAt
    {
      ClosesBeforeNext(days[i], days[j], offset);
    }
  }

  lemma OpensThenCloses(day: Day, offset: Day -> int)
    ensures SessionAt(day, offset).date == day
    ensures SessionAt(day, offset).openAt < SessionAt(day, offset).closeAt
  {
  }

  lemma ClosesBeforeNext(day: Day, later: Day, offset: Day -> int)
    requires NewYork(offset) && day < later
    ensures SessionAt(day, offset).closeAt < SessionAt(later, offset).openAt
  {
  }

  function SessionOn(sessions: seq<Session>, day: Day): Option<Session> {
    if sessions == [] then None
    else if sessions[|sessions| - 1].date == day then Some(sessions[|sessions| - 1])
    else SessionOn(sessions[..|sessions| - 1], day)
  }

  /** A date has a session exactly when it is a trading day of the year. */
  lemma SessionOnTradingDays(offset: Day -> int, day: Day)
    ensures SessionOn(Sessions(offset), day)
            == if TradingDay(day) then Some(SessionAt(day, offset)) else None
  {
    var days, sessions := TradingDaysBefore(END + 1), Sessions(offset);
    OnlyDatesAreFound(sessions, day);
    if TradingDay(day) {
      var i :| 0 <= i < |days| && days[i] == day;
      assert sessions[i].date == day;
    }
  }

  lemma {:induction false} OnlyDatesAreFound(sessions: seq<Session>, day: Day)
    ensures SessionOn(sessions, day).Some? ==>
              SessionOn(sessions, day).value in sessions && SessionOn(sessions, day).value.date == day
    ensures SessionOn(sessions, day).None? ==> forall s :: s in sessions ==> s.date != day
  {
    if sessions != [] {
      OnlyDatesAreFound(sessions[..|sessions| - 1], day);
      assert forall s :: s in sessions ==> s in sessions[..|sessions| - 1] || s == sessions[|sessions| - 1];
    }
  }

  // ---------------------------------------------------------------------------
  // Closures and hours by the rules behind them
  // ---------------------------------------------------------------------------

  const MONDAY := 0
  const THURSDAY := 3
  const FRIDAY := 4
  const SATURDAY := 5
  const SUNDAY := 6

  function MonthLength(month: int): int {
    if month == 2 then 28 else if month in {4, 6, 9, 11} then 30 else 31
  }

  /** The day of the year of a date, from one on for both. */
  function Date(month: nat, dayOfMonth: int): Day
    requires month >= 1
  {
    if month == 1 then dayOfMonth - 1 else Date(month - 1, dayOfMonth + MonthLength(month - 1))
  }

  /** The n-th such weekday of a month. */
  function NthWeekday(month: nat, weekday: int, n: int): Day
    requires month >= 1
  {
    var first := Date(month, 1);
    first + (weekday - Weekday(first)) % 7 + 7 * (n - 1)
  }

  /** The last such weekday of a month. */
  function LastWeekday(month: nat, weekday: int): Day
    requires month >= 1
  {
    var last := Date(month, MonthLength(month));
    last - (Weekday(last) - weekday) % 7
  }

  /** A holiday on a weekend is observed on the nearest weekday. */
  function Observed(day: Day): Day {
    if Weekday(day) == SATURDAY then day - 1 else if Weekday(day) == SUNDAY then day + 1 else day
  }

  lemma MonthStarts()
    ensures Date(1, 1) == 0 && Date(2, 1) == 31 && Date(5, 31) == 150 && Date(9, 1) == 243 && Date(11, 1) == 304
    ensures Date(4, 3) == 92 && Date(6, 19) == 169 && Date(7, 4) == 184 && Date(12, 25) == 358
    ensures Date(12, 24) == 357
  {
    assert Date(3, 1) == Date(2, 29);
    assert Date(4, 3) == Date(3, 34) == Date(2, 62) == Date(1, 93);
    assert Date(5, 31) == Date(4, 61) == Date(3, 92) == Date(2, 120) == Date(1, 151);
    assert Date(6, 19) == Date(5, 50) == Date(4, 80) == Date(3, 111) == Date(2, 139) == Date(1, 170);
    assert Date(7, 4) == Date(6, 34) == Date(5, 65) == Date(4, 95) == Date(3, 126) == Date(2, 154) == Date(1, 185);
    assert Date(9, 1) == Date(8, 32) == Date(7, 63) == Date(6, 93) == Date(5, 124);
    assert Date(5, 124) == Date(4, 154) == Date(3, 185) == Date(2, 213) == Date(1, 244);
    assert Date(11, 1) == Date(10, 32) == Date(9, 62) == Date(8, 93) == Date(7, 124) == Date(6, 154);
    assert Date(6, 154) == Date(5, 185) == Date(4, 215) == Date(3, 246) == Date(2, 274) == Date(1, 305);
    assert Date(12, 25) == Date(11, 55) == Date(10, 86) == Date(9, 116) == Date(8, 147) == Date(7, 178);
    assert Date(7, 178) == Date(6, 208) == Date(5, 239) == Date(4, 269) == Date(3, 300) == Date(2, 328);
    assert Date(2, 328) == Date(1, 359);
    assert Date(12, 24) == Date(11, 54) == Date(10, 85) == Date(9, 115) == Date(8, 146) == Date(7, 177);
    assert Date(7, 177) == Date(6, 207) == Date(5, 238) == Date(4, 268) == Date(3, 299) == Date(2, 327);
    assert Date(2, 327) == Date(1, 358);
  }

  /** The closures are the ten exchange holidays of 2026 by their rules; Good Friday is the
      one given by its date.  The exchange closes early on the days after Thanksgiving and
      before Christmas. */
  lemma HolidayRules()
    ensures CLOSURES == {
              Observed(Date(1, 1)), NthWeekday(1, MONDAY, 3), NthWeekday(2, MONDAY, 3), Date(4, 3),
              LastWeekday(5, MONDAY), Observed(Date(6, 19)), Observed(Date(7, 4)), NthWeekday(9, MONDAY, 1),
              NthWeekday(11, THURSDAY, 4), Observed(Date(12, 25))}
    ensures Weekday(Date(4, 3)) == FRIDAY && Weekday(Date(1, 1)) == THURSDAY
    ensures EARLY_CLOSES == {NthWeekday(11, THURSDAY, 4) + 1, Date(12, 24)}
    ensures forall d :: d in EARLY_CLOSES ==> TradingDay(d)
  {
    MonthStarts();
    hide Date;
  }

  /** The hours of a trading day, in New York time: from half past nine for six and a half
      hours, or for three and a half before a long weekend and Christmas. */
  lemma SessionHours(offset: Day -> int, day: Day)
    requires TradingDay(day)
    ensures SessionOn(Sessions(offset), day).Some?
    ensures var s := SessionOn(Sessions(offset), day).value;
            && s.date == day
            && s.openAt - offset(day) == day * 24 * 60 + 570
            && s.closeAt - s.openAt
               == if day == NthWeekday(11, THURSDAY, 4) + 1 || day == Date(12, 24) then 210 else 390
  {
    SessionOnTradingDays(offset, day);
    HolidayRules();
    hide Sessions, SessionOn, CLOSURES, Date, NthWeekday;
  }

  /** The reverse scan: the last session that is not after the day. */
  method LatestOnOrBefore(sessions: seq<Session>, day: Day) returns (found: Option<Session>)
    requires Ordered(sessions)
    ensures found.None? <==> forall s :: s in sessions ==> s.date > day
    ensures found.Some? ==> found.value in sessions && found.value.date <= day
    ensures found.Some? ==> forall s :: s in sessions && s.date <= day ==> s.date <= found.value.date
  {
    var i := |sessions|;
    while i > 0
      invariant 0 <= i <= |sessions|
      invariant forall k :: i <= k < |sessions| ==> sessions[k].date > day
    {
      i := i - 1;
      if sessions[i].date <= day {
        return Some(sessions[i]);
      }
    }
    return None;
  }

  // ---------------------------------------------------------------------------
  // Completed sessions
  // ---------------------------------------------------------------------------

  datatype Resolution =
    | UnsupportedMic
    | OutOfCoverage
    | NoCompletedSession
    | Resolved(session: Session, eligibleAt: Instant, previous: Option<Day>)

  /** A session counts as completed once its close plus the grace has been reached. */
  predicate Eligible(s: Session, asOf: Instant, grace: nat) {
    s.closeAt + grace <= asOf
  }

  /** The session at index i is the newest completed one. */
  ghost predicate Newest(sessions: seq<Session>, asOf: Instant, grace: nat, i: int) {
    && 0 <= i < |sessions|
    && forall j :: 0 <= j < |sessions| ==> (Eligible(sessions[j], asOf, grace) <==> j <= i)
  }

  /** The countdown of the resolver.  `exchangeDay` is the New York date of `asOf`. */
  method Resolve(
    sessions: seq<Session>, supported: bool, exchangeDay: Day, asOf: Instant, grace: nat)
    returns (r: Resolution, ghost index: int)
    requires Ordered(sessions)
    ensures r == UnsupportedMic <==> !supported
    ensures r == OutOfCoverage <==> supported && !(START <= exchangeDay <= END)
    ensures r == NoCompletedSession <==>
              supported && START <= exchangeDay <= END
              && forall j :: 0 <= j < |sessions| ==> !Eligible(sessions[j], asOf, grace)
    ensures r.Resolved? ==>
              && Newest(sessions, asOf, grace, index)
              && r == Resolved(sessions[index], sessions[index].closeAt + grace,
                               if index == 0 then None else Some(sessions[index - 1].date))
  {
    index := -1;
    if !supported {
      return UnsupportedMic, index;
    }
    if !(START <= exchangeDay <= END) {
      return OutOfCoverage, index;
    }
    var i := |sessions|;
    while i > 0
      invariant 0 <= i <= |sessions|
      invariant forall k :: i <= k < |sessions| ==> !Eligible(sessions[k], asOf, grace)
    {
      i := i - 1;
      var eligibleAt := sessions[i].closeAt + grace;
      if asOf >= eligibleAt {
        var previous := if i == 0 then None else Some(sessions[i - 1].date);
        return Resolved(sessions[i], eligibleAt, previous), i;
      }
    }
    return NoCompletedSession, index;
  }

  /** Waiting longer, or granting less grace, never resolves an older session. */
  lemma ResolutionIsMonotone(
    sessions: seq<Session>, asOf: Instant, grace: nat, i: int, asOf': Instant, grace': nat, j: int)
    requires Newest(sessions, asOf, grace, i) && Newest(sessions, asOf', grace', j)
    requires asOf <= asOf' && grace' <= grace
    ensures i <= j
  {
    assert Eligible(sessions[i], asOf', grace');
  }
}
