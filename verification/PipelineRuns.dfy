/** One pipeline run: the preflight cascade, the executor and the run's totals. */
module PipelineRuns {
  import opened Outcomes
  import opened PipelineExecutor

  /** What the calendar said about a member when its request was prepared. */
  datatype CalendarOutcome = RequestCreated | NoCompletedSession | OutOfCoverage | OtherCalendarProblem

  datatype Stored = Stored(status: RunStatus, items: seq<Item>, estimated: Option<nat>, consumed: Option<int>)

  /** Why a run is blocked before anything is asked of the provider. */
  datatype Block = Block(status: RunStatus, outcome: Outcome, reason: string, estimated: Option<nat>)

  function Preflight(
    calendar: seq<CalendarOutcome>, providerReason: Option<string>, estimated: Option<nat>,
    daily: Option<int>)
    : Option<Block>
  {
    if forall c | c in calendar :: c == NoCompletedSession then
      Some(Block(NO_COMPLETED_SESSION, NOT_ATTEMPTED_ABORTED, "NO_COMPLETED_SESSION", None))
    else if OutOfCoverage in calendar then
      Some(Block(ABORTED_PROVIDER_FATAL, NOT_ATTEMPTED_ABORTED, "CALENDAR_OUT_OF_COVERAGE", None))
    else if providerReason.Some? then
      Some(Block(ABORTED_PROVIDER_FATAL, NOT_ATTEMPTED_ABORTED, providerReason.value, None))
    else if estimated.None? || daily.None? || estimated.value > daily.value then
      Some(Block(BUDGET_BLOCKED, NOT_ATTEMPTED_BUDGET, "PROVIDER_DAILY_BUDGET_BLOCKED", estimated))
    else None
  }

  /** The run can start: some member has or may get a session, the calendar covers them, the
      provider is usable, and what the run may cost is known and within the daily budget. */
  predicate MayStart(
    calendar: seq<CalendarOutcome>, providerReason: Option<string>, estimated: Option<nat>,
    daily: Option<int>)
  {
    && (exists c :: c in calendar && c != NoCompletedSession)
    && OutOfCoverage !in calendar
    && providerReason.None?
    && estimated.Some? && daily.Some? && estimated.value <= daily.value
  }

  /** When a run is blocked, and how: the first obstacle in this order decides. */
  lemma BlockedWhen(
    calendar: seq<CalendarOutcome>, providerReason: Option<string>, estimated: Option<nat>,
    daily: Option<int>)
    ensures var block := Preflight(calendar, providerReason, estimated, daily);
            var someSession := exists c :: c in calendar && c != NoCompletedSession;
            && (block.None? <==> MayStart(calendar, providerReason, estimated, daily))
            && (block.Some? && block.value.status == NO_COMPLETED_SESSION <==> !someSession)
            && (block.Some? && block.value.status == ABORTED_PROVIDER_FATAL
                <==> someSession && (OutOfCoverage in calendar || providerReason.Some?))
            && (block.Some? && block.value.status == BUDGET_BLOCKED
                <==> && someSession && OutOfCoverage !in calendar && providerReason.None?
                     && !(estimated.Some? && daily.Some? && estimated.value <= daily.value))
            && (block.Some? ==>
                  && (block.value.outcome == NOT_ATTEMPTED_BUDGET <==> block.value.status == BUDGET_BLOCKED)
                  && (block.value.outcome == NOT_ATTEMPTED_ABORTED <==> block.value.status != BUDGET_BLOCKED))
            && (block.Some? ==>
                  block.value.reason == if !someSession then "NO_COMPLETED_SESSION"
                                        else if OutOfCoverage in calendar then "CALENDAR_OUT_OF_COVERAGE"
                                        else if providerReason.Some? then providerReason.value
                                        else "PROVIDER_DAILY_BUDGET_BLOCKED")
            && (block.Some? ==>
                  block.value.estimated == if block.value.status == BUDGET_BLOCKED then estimated else None)
  {
  }

  function NotAttempted(members: seq<Member>, outcome: Outcome, reason: string): seq<Item> {
    seq(|members|, i requires 0 <= i < |members| => PlainItem(members[i], i + 1, outcome, Some(reason)))
  }

  /** What is stored about a run that stopped at `stop`, or was blocked. */
  ghost predicate Recorded(
    stored: Stored, members: seq<Member>, block: Option<Block>, limit: int, stop: nat,
    estimated: Option<nat>, consumed: Option<int>)
  {
    && |stored.items| == |members|
    && match block
       case Some(b) =>
         stored == Stored(b.status, NotAttempted(members, b.outcome, b.reason), b.estimated, Some(0))
       case None =>
         && StopsFirst(members, limit, stop)
         && ItemsRight(members, stop, stored.items)
         && stored.status == StatusOf(stored.items, stop < |members| && Judge(members[stop]) == Fatal)
         && stored.estimated == estimated && stored.consumed == consumed
  }

  /** The item of a member that a blocked run never came to. */
  predicate Untouched(m: Member, item: Item, ordinal: nat, budget: bool) {
    && item.ordinal == ordinal && item.symbol == m.symbol
    && item.session == (if HasSession(m) then m.request.session else None)
    && item.outcome == (if budget then NOT_ATTEMPTED_BUDGET else NOT_ATTEMPTED_ABORTED)
    && item.requests == item.created == item.existing == 0
    && item.snapshot == None && item.ready == None && item.credits == None && item.reason.Some?
  }

  method Run(
    provider: Provider, members: seq<Member>, calendar: seq<CalendarOutcome>,
    providerReason: Option<string>, estimated: Option<nat>, daily: Option<int>,
    consumedBefore: Option<int>, consumedAfter: Option<int>, limit: int)
    returns (stored: Stored, ghost stop: nat)
    modifies provider
    ensures var block := Preflight(calendar, providerReason, estimated, daily);
            && Recorded(stored, members, block, limit, stop, estimated, CreditDelta(consumedBefore, consumedAfter))
            && (block.Some? ==> provider.asked == old(provider.asked))
            && (block.None? ==>
                  provider.asked == old(provider.asked) + Asked(members, Reached(members, stop)))
    ensures provider.asked != old(provider.asked) ==> MayStart(calendar, providerReason, estimated, daily)
    ensures !MayStart(calendar, providerReason, estimated, daily) ==>
              && provider.asked == old(provider.asked) && stored.consumed == Some(0)
              && |stored.items| == |members|
              && forall i :: 0 <= i < |members| ==>
                               Untouched(members[i], stored.items[i], i + 1, stored.status == BUDGET_BLOCKED)
  {
    hide StopsFirst, ItemsRight, Judge;
    stop := 0;
    var block := Preflight(calendar, providerReason, estimated, daily);
    BlockedWhen(calendar, providerReason, estimated, daily);
    if block.Some? {
      var b := block.value;
      return Stored(b.status, NotAttempted(members, b.outcome, b.reason), b.estimated, Some(0)), stop;
    }
    var items, fatal, stopped := Execute(provider, members, limit);
    stop := stopped;
    stored := Stored(if fatal then ABORTED_PROVIDER_FATAL else CompletedStatus(items), items, estimated,
                     CreditDelta(consumedBefore, consumedAfter));
  }

  /** How many members have a snapshot, and for how many there was not enough data. */
  function WithSnapshot(items: seq<Item>): nat {
    Count(items, READY) + Count(items, DEGRADED)
  }

  function WithoutData(items: seq<Item>): nat {
    Count(items, DATA_INSUFFICIENT) + Count(items, NO_DATA)
  }

  lemma {:induction false} CountsTell(items: seq<Item>)
    ensures WithSnapshot(items) + WithoutData(items) <= |items|
    ensures WithSnapshot(items) == |items| <==> forall x :: x in items ==> x.outcome in {READY, DEGRADED}
    ensures WithSnapshot(items) + WithoutData(items) == |items|
            <==> forall x :: x in items ==> x.outcome in {READY, DEGRADED, DATA_INSUFFICIENT, NO_DATA}
    ensures WithoutData(items) > 0 <==> exists x :: x in items && x.outcome in {DATA_INSUFFICIENT, NO_DATA}
  {
    if items != [] {
      var n := |items| - 1;
      CountsTell(items[..n]);
      assert forall x :: x in items <==> x in items[..n] || x == items[n];
    }
  }

  /** What the status of a stored run says: about the preparation of the run, about the member
      that stopped it, or, by their counts, about the items. */
  lemma StatusTells(
    stored: Stored, members: seq<Member>, calendar: seq<CalendarOutcome>, providerReason: Option<string>,
    estimated: Option<nat>, daily: Option<int>, limit: int, stop: nat, consumed: Option<int>)
    requires Recorded(stored, members, Preflight(calendar, providerReason, estimated, daily), limit, stop, estimated,
                      consumed)
    ensures var someSession := exists c :: c in calendar && c != NoCompletedSession;
            var served := OutOfCoverage !in calendar && providerReason.None?;
            var affordable := estimated.Some? && daily.Some? && estimated.value <= daily.value;
            var started := someSession && served && affordable;
            var broken := stop < |members| && (Broke(members[stop]) || RefusedForGood(members[stop]));
            && (stored.status == NO_COMPLETED_SESSION <==> !someSession)
            && (stored.status == BUDGET_BLOCKED <==> someSession && served && !affordable)
            && (stored.status == ABORTED_PROVIDER_FATAL <==> someSession && (!served || (affordable && broken)))
            && var built, lacking := WithSnapshot(stored.items), WithoutData(stored.items);
            && (stored.status == COMPLETED <==> started && !broken && built == |members|)
            && (stored.status == COMPLETED_WITH_WARNINGS
                <==> started && !broken && built + lacking == |members| && lacking > 0)
            && (stored.status == COMPLETED_WITH_PARTIAL_FAILURES
                <==> started && !broken && built + lacking < |members|)
  {
    hide StopsFirst, ItemsRight, Judge, NotAttempted, Preflight, CompletedStatus, Broke, RefusedForGood;
    BlockedWhen(calendar, providerReason, estimated, daily);
    StatusMeans(stored.items);
    CountsTell(stored.items);
    hide WithSnapshot, WithoutData;
    if stop < |members| {
      JudgeMeans(members[stop]);
    }
  }

  /** When the counter is metered, the consumed credits of a stored run are explained by its
      items but for one member at most. */
  lemma CreditsExplained(
    stored: Stored, members: seq<Member>, block: Option<Block>, limit: int, stop: nat,
    estimated: Option<nat>, start: int, spend: seq<nat>)
    requires Recorded(stored, members, block, limit, stop, estimated,
                      CreditDelta(Some(start), Some(start + SumTo(spend, |spend|))))
    requires block.None? ==> Metered(members, Reached(members, stop), start, spend)
    ensures stored.consumed.Some?
    ensures stored.consumed.value
            == CreditsOf(stored.items) + (if block.None? then Unrecorded(members, stop, spend) else 0)
  {
    hide StopsFirst, ItemsRight, Metered, Judge, Unrecorded, CreditsOf, SumTo, CompletedStatus, Reached;
    if block.None? {
      CreditsTelescope(members, limit, stop, stored.items, start, spend);
    } else {
      NoCredits(stored.items);
    }
  }

  /** Where they are not explained, the run was aborted: the one member that cost more than its
      item says raised a persistence error during ingestion, and nobody after it was asked. */
  lemma UnexplainedMeansAborted(
    stored: Stored, members: seq<Member>, block: Option<Block>, limit: int, stop: nat,
    estimated: Option<nat>, start: int, spend: seq<nat>, i: nat)
    requires Recorded(stored, members, block, limit, stop, estimated,
                      CreditDelta(Some(start), Some(start + SumTo(spend, |spend|))))
    requires block.None? ==> Metered(members, Reached(members, stop), start, spend)
    requires stored.consumed != Some(CreditsOf(stored.items))
    ensures block.None? && stored.status == ABORTED_PROVIDER_FATAL && stop < |stored.items|
    ensures stored.items[stop].credits == None && stored.items[stop].requests == 1
    ensures stored.items[stop].reason == Some(PERSISTENCE_UNAVAILABLE)
    ensures stop < i < |stored.items| ==>
              stored.items[i].requests == 0 && stored.items[i].outcome == NOT_ATTEMPTED_ABORTED
  {
    hide StopsFirst, ItemsRight, Metered, Judge, Unrecorded, CreditsOf, SumTo, CompletedStatus, Reached;
    CreditsExplained(stored, members, block, limit, stop, estimated, start, spend);
    UnrecordedItem(members, stop, stored.items, spend, i);
  }

  /** The stored aggregate satisfies the table's checks: no negative credits, and counts that
      add up to the members. */
  lemma TotalsAdd(
    stored: Stored, members: seq<Member>, block: Option<Block>, limit: int, stop: nat,
    estimated: Option<nat>, start: int, spend: seq<nat>)
    requires Recorded(stored, members, block, limit, stop, estimated,
                      CreditDelta(Some(start), Some(start + SumTo(spend, |spend|))))
    requires block.None? ==> Metered(members, Reached(members, stop), start, spend)
    ensures stored.consumed.Some? && stored.consumed.value >= 0
    ensures stored.consumed.value
            == CreditsOf(stored.items) + (if block.None? then Unrecorded(members, stop, spend) else 0)
    ensures Count(stored.items, READY) + Count(stored.items, DEGRADED)
            + Count(stored.items, DATA_INSUFFICIENT) + Count(stored.items, NO_DATA)
            + Count(stored.items, PROVIDER_ERROR) + Count(stored.items, CALENDAR_ERROR)
            + (Count(stored.items, NOT_ATTEMPTED_BUDGET) + Count(stored.items, NOT_ATTEMPTED_ABORTED))
            == |members|
  {
    hide StopsFirst, ItemsRight, Metered, Judge, Unrecorded, CreditsOf, SumTo, CompletedStatus, Reached, Count;
    CountsPartition(stored.items);
    CreditsExplained(stored, members, block, limit, stop, estimated, start, spend);
  }

  lemma {:induction false} NoCredits(items: seq<Item>)
    requires forall i :: 0 <= i < |items| ==> items[i].credits == None
    ensures CreditsOf(items) == 0
  {
    if items != [] {
      NoCredits(items[..|items| - 1]);
    }
  }
}
