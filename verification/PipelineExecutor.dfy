/** The sequential symbol executor: one loop with a transient-failure circuit, a fatal
    abort, a budget abort and credit accounting, against a declarative specification. */
module PipelineExecutor {
  import opened Outcomes

  datatype Outcome =
    | READY
    | DEGRADED
    | DATA_INSUFFICIENT
    | NO_DATA
    | PROVIDER_ERROR
    | CALENDAR_ERROR
    | NOT_ATTEMPTED_BUDGET
    | NOT_ATTEMPTED_ABORTED

  const PERSISTENCE_UNAVAILABLE: string := "PERSISTENCE_INFRASTRUCTURE_UNAVAILABLE"
  const CIRCUIT_OPEN: string := "TRANSIENT_FAILURE_CIRCUIT_OPEN"
  const BUDGET_EXHAUSTED: string := "TWELVE_DATA_DAILY_CREDIT_BUDGET_EXHAUSTED"

  const FATAL: set<string> := {
    "TWELVE_DATA_PROVIDER_DISABLED", "TWELVE_DATA_CONFIGURATION_MISSING",
    "TWELVE_DATA_CONFIGURATION_INVALID", "TWELVE_DATA_AUTHENTICATION_REJECTED",
    "TWELVE_DATA_ACCESS_FORBIDDEN", "TWELVE_DATA_RESPONSE_SCHEMA_INVALID"
  }
  const TRANSIENT: set<string> := {
    "TWELVE_DATA_HTTP_TIMEOUT", "TWELVE_DATA_HTTP_TRANSIENT_FAILURE", "TWELVE_DATA_MINUTE_CREDIT_LIMIT"
  }

  datatype IngestionOutcome =
    | Completed
    | CompletedWithExisting
    | NoData
    | ProviderDisabled
    | ProviderConfigurationMissing
    | CreditBudgetExhausted
    | ProviderError
    | IngestionConflict

  /** What the calendar prepared for a member. */
  datatype Request = NoRequest(safeReason: Option<string>) | Request(session: Option<int>)

  /** How the collaborators answer if they are asked about a member. */
  datatype Ingested =
    | IngestionUnavailable
    | Ingested(outcome: IngestionOutcome, category: Option<string>, created: nat, existing: nat)
  datatype Built = BuildUnavailable | Insufficient(reasons: seq<string>) | Snapshot(id: nat, ready: bool)

  datatype Member = Member(
    symbol: string, request: Request, creditsBefore: Option<int>, ingested: Ingested,
    creditsAfter: Option<int>, built: Built)

  datatype Item = Item(
    ordinal: nat, symbol: string, session: Option<int>, outcome: Outcome, created: nat, existing: nat,
    snapshot: Option<nat>, ready: Option<bool>, reason: Option<string>, requests: nat,
    credits: Option<int>)

  /** None when either reading is missing or the counter went backwards. */
  function CreditDelta(before: Option<int>, after: Option<int>): Option<int> {
    if before.None? || after.None? || after.value < before.value then None
    else Some(after.value - before.value)
  }

  datatype Classified = Classified(outcome: Option<Outcome>, reason: string, fatal: bool, transient: bool)

  function OrElse(value: Option<string>, default': string): string {
    if value.None? || value.value == "" then default' else value.value
  }

  function Classify(outcome: IngestionOutcome, category: Option<string>): Classified {
    match outcome
    case Completed | CompletedWithExisting => Classified(None, "", false, false)
    case NoData => Classified(Some(NO_DATA), "NO_DATA", false, false)
    case CreditBudgetExhausted => Classified(Some(NOT_ATTEMPTED_BUDGET), BUDGET_EXHAUSTED, false, false)
    case _ =>
      var safe := OrElse(category, "PROVIDER_ERROR");
      Classified(Some(PROVIDER_ERROR), safe,
                 outcome == ProviderDisabled || outcome == ProviderConfigurationMissing || safe in FATAL,
                 safe in TRANSIENT)
  }

  function SessionOf(m: Member): Option<int> {
    if m.request.NoRequest? then None else m.request.session
  }

  function PlainItem(m: Member, ordinal: nat, outcome: Outcome, reason: Option<string>): Item {
    Item(ordinal, m.symbol, SessionOf(m), outcome, 0, 0, None, None, reason, 0, None)
  }

  function IngestedItem(m: Member, ordinal: nat, outcome: Outcome, reason: Option<string>): Item
    requires m.ingested.Ingested?
  {
    Item(ordinal, m.symbol, SessionOf(m), outcome, m.ingested.created, m.ingested.existing, None, None,
         reason, 1, CreditDelta(m.creditsBefore, m.creditsAfter))
  }

  /** The item of a member whose bars were ingested. */
  function BuiltItem(m: Member, ordinal: nat): Item
    requires m.ingested.Ingested?
  {
    match m.built
    case BuildUnavailable => IngestedItem(m, ordinal, PROVIDER_ERROR, Some(PERSISTENCE_UNAVAILABLE))
    case Insufficient(reasons) =>
      IngestedItem(m, ordinal, DATA_INSUFFICIENT,
                   Some(if reasons == [] then "DATA_INSUFFICIENT" else reasons[0]))
    case Snapshot(id, ready) =>
      IngestedItem(m, ordinal, if ready then READY else DEGRADED, None)
        .(snapshot := Some(id), ready := Some(ready))
  }

  // ---------------------------------------------------------------------------
  // Declarative specification
  // ---------------------------------------------------------------------------

  /** How one member ends if the run gets to it. */
  datatype Verdict = Skipped | Fatal | OverBudget | Transient | Rejected | Passed

  function Judge(m: Member): Verdict {
    if SessionOf(m).None? then Skipped
    else if m.ingested.IngestionUnavailable? then Fatal
    else
      var c := Classify(m.ingested.outcome, m.ingested.category);
      if c.outcome.None? then (if m.built.BuildUnavailable? then Fatal else Passed)
      else if c.outcome.value == NOT_ATTEMPTED_BUDGET then OverBudget
      else if c.fatal then Fatal
      else if c.transient then Transient
      else Rejected
  }

  predicate Attempted(m: Member) {
    Judge(m) != Skipped
  }

  /** The transient failures up to member i that no later attempted member has cleared. */
  function Uncleared(members: seq<Member>, i: int): set<int>
    requires i < |members|
  {
    set j | 0 <= j <= i && Judge(members[j]) == Transient
            && forall k :: j < k <= i ==> Judge(members[k]) == Transient || Judge(members[k]) == Skipped
  }

  /** The run stops after member i. */
  predicate Stops(members: seq<Member>, limit: int, i: nat)
    requires i < |members|
  {
    match Judge(members[i])
    case Skipped | Passed => false
    case Fatal | OverBudget => true
    case Transient | Rejected => |Uncleared(members, i)| >= limit
  }

  /** The first member after which the run stops, or the number of members. */
  predicate StopsFirst(members: seq<Member>, limit: int, a: nat) {
    && a <= |members|
    && (forall j :: 0 <= j < a ==> !Stops(members, limit, j))
    && (a < |members| ==> Stops(members, limit, a))
  }

  /** The item of a member the run got to. */
  function ReachedItem(m: Member, ordinal: nat): Item {
    if m.request.NoRequest? then
      PlainItem(m, ordinal, CALENDAR_ERROR, Some(OrElse(m.request.safeReason, "CALENDAR_ERROR")))
    else if m.request.session.None? then
      PlainItem(m, ordinal, CALENDAR_ERROR, Some("CALENDAR_SESSION_MISSING"))
    else if m.ingested.IngestionUnavailable? then
      PlainItem(m, ordinal, PROVIDER_ERROR, Some(PERSISTENCE_UNAVAILABLE)).(requests := 1)
    else
      var c := Classify(m.ingested.outcome, m.ingested.category);
      if c.outcome.Some? then IngestedItem(m, ordinal, c.outcome.value, Some(c.reason))
      else BuiltItem(m, ordinal)
  }

  /** What later items say about the member that stopped the run. */
  function StopReason(m: Member): string
    requires Attempted(m)
  {
    if Judge(m) == Transient || Judge(m) == Rejected then CIRCUIT_OPEN
    else OrElse(ReachedItem(m, 0).reason, "")
  }

  function UnreachedItem(m: Member, ordinal: nat, stopper: Member): Item
    requires Attempted(stopper)
  {
    PlainItem(m, ordinal,
              if Judge(stopper) == OverBudget then NOT_ATTEMPTED_BUDGET else NOT_ATTEMPTED_ABORTED,
              Some(StopReason(stopper)))
  }

  function ItemAt(members: seq<Member>, a: nat, i: nat): Item
    requires i < |members| && (a < |members| ==> Attempted(members[a]))
  {
    if i <= a then ReachedItem(members[i], i + 1) else UnreachedItem(members[i], i + 1, members[a])
  }

  /** The ordinals of the members whose provider was asked, when the first n were reached. */
  function Asked(members: seq<Member>, n: nat): seq<nat>
    requires n <= |members|
  {
    if n == 0 then []
    else Asked(members, n - 1) + (if Attempted(members[n - 1]) then [n] else [])
  }

  function Reached(members: seq<Member>, a: nat): nat {
    if a < |members| then a + 1 else |members|
  }

  /** One more member changes the uncleared failures as the counter does. */
  lemma UnclearedStep(members: seq<Member>, i: nat)
    requires i < |members|
    ensures |Uncleared(members, i)|
            == match Judge(members[i])
               case Transient => |Uncleared(members, i - 1)| + 1
               case Skipped => |Uncleared(members, i - 1)|
               case _ => 0
  {
    hide Judge;
    var before, after := Uncleared(members, i - 1), Uncleared(members, i);
    match Judge(members[i]) {
      case Transient => assert after == before + {i};
      case Skipped => assert after == before;
      case _ => assert after == {};
    }
  }

  // ---------------------------------------------------------------------------
  // Branches of the loop body
  // ---------------------------------------------------------------------------

  lemma CalendarBranch(m: Member, ordinal: nat)
    requires SessionOf(m).None?
    ensures Judge(m) == Skipped
    ensures ReachedItem(m, ordinal)
            == PlainItem(m, ordinal, CALENDAR_ERROR,
                         Some(if m.request.NoRequest? then OrElse(m.request.safeReason, "CALENDAR_ERROR")
                              else "CALENDAR_SESSION_MISSING"))
  {
  }

  lemma UnavailableBranch(m: Member, ordinal: nat)
    requires SessionOf(m).Some? && m.ingested.IngestionUnavailable?
    ensures Judge(m) == Fatal && StopReason(m) == PERSISTENCE_UNAVAILABLE
    ensures ReachedItem(m, ordinal)
            == PlainItem(m, ordinal, PROVIDER_ERROR, Some(PERSISTENCE_UNAVAILABLE)).(requests := 1)
  {
  }

  lemma RejectedBranch(m: Member, ordinal: nat, c: Classified)
    requires SessionOf(m).Some? && m.ingested.Ingested?
    requires c == Classify(m.ingested.outcome, m.ingested.category) && c.outcome.Some?
    ensures ReachedItem(m, ordinal) == IngestedItem(m, ordinal, c.outcome.value, Some(c.reason))
    ensures Judge(m) == if c.outcome.value == NOT_ATTEMPTED_BUDGET then OverBudget
                        else if c.fatal then Fatal
                        else if c.transient then Transient
                        else Rejected
    ensures c.outcome.value == NOT_ATTEMPTED_BUDGET || c.fatal ==> StopReason(m) == c.reason
    ensures Judge(m) == Transient || Judge(m) == Rejected ==> StopReason(m) == CIRCUIT_OPEN
  {
  }

  lemma BuiltBranch(m: Member, ordinal: nat)
    requires SessionOf(m).Some? && m.ingested.Ingested?
    requires Classify(m.ingested.outcome, m.ingested.category).outcome.None?
    ensures Judge(m) == if m.built.BuildUnavailable? then Fatal else Passed
    ensures m.built.BuildUnavailable? ==> StopReason(m) == PERSISTENCE_UNAVAILABLE
    ensures ReachedItem(m, ordinal) == BuiltItem(m, ordinal)
  {
  }

  // ---------------------------------------------------------------------------
  // What the collaborators' answers mean
  // ---------------------------------------------------------------------------

  predicate HasSession(m: Member) {
    m.request.Request? && m.request.session.Some?
  }

  /** The bars of the member are in the store. */
  predicate Delivered(m: Member) {
    HasSession(m) && m.ingested.Ingested? && m.ingested.outcome in {Completed, CompletedWithExisting}
  }

  /** The database failed while bars were stored or features were built. */
  predicate Broke(m: Member) {
    HasSession(m) && (m.ingested.IngestionUnavailable? || (Delivered(m) && m.built.BuildUnavailable?))
  }

  predicate Exhausted(m: Member) {
    HasSession(m) && m.ingested.Ingested? && m.ingested.outcome == CreditBudgetExhausted
  }

  predicate Failed(m: Member) {
    && HasSession(m) && m.ingested.Ingested?
    && m.ingested.outcome !in {Completed, CompletedWithExisting, NoData, CreditBudgetExhausted}
  }

  /** The provider is switched off, not configured, or will not serve this client at all. */
  predicate RefusedForGood(m: Member) {
    && Failed(m)
    && (m.ingested.outcome in {ProviderDisabled, ProviderConfigurationMissing}
        || m.ingested.category in
           {Some("TWELVE_DATA_PROVIDER_DISABLED"), Some("TWELVE_DATA_CONFIGURATION_MISSING"),
            Some("TWELVE_DATA_CONFIGURATION_INVALID"), Some("TWELVE_DATA_AUTHENTICATION_REJECTED"),
            Some("TWELVE_DATA_ACCESS_FORBIDDEN"), Some("TWELVE_DATA_RESPONSE_SCHEMA_INVALID")})
  }

  /** The provider may well answer later. */
  predicate FailedForNow(m: Member) {
    && Failed(m) && !RefusedForGood(m)
    && m.ingested.category in
       {Some("TWELVE_DATA_HTTP_TIMEOUT"), Some("TWELVE_DATA_HTTP_TRANSIENT_FAILURE"),
        Some("TWELVE_DATA_MINUTE_CREDIT_LIMIT")}
  }

  lemma JudgedFailed(m: Member)
    requires Failed(m)
    ensures Judge(m) == if RefusedForGood(m) then Fatal else if FailedForNow(m) then Transient else Rejected
  {
  }

  lemma JudgeMeans(m: Member)
    ensures Judge(m) == Skipped <==> !HasSession(m)
    ensures Judge(m) == Fatal <==> Broke(m) || RefusedForGood(m)
    ensures Judge(m) == OverBudget <==> Exhausted(m)
    ensures Judge(m) == Transient <==> FailedForNow(m)
    ensures Judge(m) == Passed <==> Delivered(m) && !m.built.BuildUnavailable?
  {
    if Failed(m) {
      JudgedFailed(m);
      hide Judge;
    }
  }

  // ---------------------------------------------------------------------------
  // The loop
  // ---------------------------------------------------------------------------

  /** The ingestion port; it remembers whom it was asked about. */
  class Provider {
    var asked: seq<nat>

    constructor ()
      ensures asked == []
    {
      asked := [];
    }

    method Ingest(m: Member, ordinal: nat) returns (answer: Ingested)
      modifies this
      ensures answer == m.ingested && asked == old(asked) + [ordinal]
    {
      asked := asked + [ordinal];
      answer := m.ingested;
    }
  }

  /** What the counter and the flags mean before anything stopped the run. */
  ghost predicate Going(members: seq<Member>, limit: int, n: nat, transientFailures: int)
    requires n <= |members|
  {
    && transientFailures == |Uncleared(members, n - 1)|
    && forall j :: 0 <= j < n ==> !Stops(members, limit, j)
  }

  /** What they mean after member `stop` did. */
  ghost predicate Halted(
    members: seq<Member>, limit: int, stop: nat, reason: string, budgetExhausted: bool, fatal: bool)
    requires stop < |members|
  {
    && StopsFirst(members, limit, stop)
    && reason == StopReason(members[stop])
    && (budgetExhausted <==> Judge(members[stop]) == OverBudget)
    && (fatal <==> Judge(members[stop]) == Fatal)
  }

  lemma Stopped(members: seq<Member>, limit: int, n: nat, before: int, after: int)
    requires n < |members| && Going(members, limit, n, before)
    requires Judge(members[n]) == Transient ==> after == before + 1
    requires Judge(members[n]) == Skipped ==> after == before
    requires Judge(members[n]) != Transient && Judge(members[n]) != Skipped ==> after == 0
    ensures Stops(members, limit, n) <==>
              Judge(members[n]) == Fatal || Judge(members[n]) == OverBudget
              || ((Judge(members[n]) == Transient || Judge(members[n]) == Rejected) && after >= limit)
    ensures Stops(members, limit, n) ==> StopsFirst(members, limit, n)
    ensures !Stops(members, limit, n) ==> Going(members, limit, n + 1, after)
  {
    hide Judge;
    UnclearedStep(members, n);
  }

  ghost predicate ItemsRight(members: seq<Member>, stop: nat, items: seq<Item>) {
    && |items| <= |members|
    && (stop < |members| ==> Attempted(members[stop]))
    && forall i :: 0 <= i < |items| ==> items[i] == ItemAt(members, stop, i)
  }

  /** Reaching member n, whether or not the run goes on after it. */
  lemma ReachedNext(members: seq<Member>, items: seq<Item>, item: Item, stop: nat)
    requires |items| < |members| && ItemsRight(members, |members|, items)
    requires item == ReachedItem(members[|items|], |items| + 1)
    requires stop == |members| || (stop == |items| && Attempted(members[stop]))
    ensures ItemsRight(members, stop, items + [item])
  {
  }

  lemma UnreachedNext(members: seq<Member>, items: seq<Item>, item: Item, stop: nat)
    requires stop < |items| < |members| && ItemsRight(members, stop, items)
    requires item == UnreachedItem(members[|items|], |items| + 1, members[stop])
    ensures ItemsRight(members, stop, items + [item])
  {
  }

  lemma StartsGoing(members: seq<Member>, limit: int)
    ensures Going(members, limit, 0, 0) && ItemsRight(members, |members|, [])
  {
  }

  lemma NeverStopped(members: seq<Member>, limit: int, transientFailures: int)
    requires Going(members, limit, |members|, transientFailures)
    ensures StopsFirst(members, limit, |members|)
  {
  }

  method Execute(provider: Provider, members: seq<Member>, limit: int)
    returns (items: seq<Item>, fatal: bool, ghost stop: nat)
    modifies provider
    ensures StopsFirst(members, limit, stop)
    ensures |items| == |members| && ItemsRight(members, stop, items)
    ensures fatal <==> stop < |members| && Judge(members[stop]) == Fatal
    ensures fatal <==> stop < |members| && (Broke(members[stop]) || RefusedForGood(members[stop]))
    ensures provider.asked == old(provider.asked) + Asked(members, Reached(members, stop))
  {
    hide Judge, Classify, ReachedItem, StopReason, StopsFirst, Stops, Uncleared, ItemAt, PlainItem,
         IngestedItem, BuiltItem, Going, ItemsRight, Broke, RefusedForGood;
    items := [];
    var transientFailures := 0;
    var abortReason: Option<string> := None;
    var budgetExhausted := false;
    fatal := false;
    stop := |members|;
    var n := 0;
    StartsGoing(members, limit);
    while n < |members|
      invariant n == |items| <= |members|
      invariant abortReason.None? ==>
                  && stop == |members| && !fatal && !budgetExhausted
                  && Going(members, limit, n, transientFailures)
      invariant abortReason.Some? ==>
                  stop < n && Halted(members, limit, stop, abortReason.value, budgetExhausted, fatal)
      invariant ItemsRight(members, stop, items)
      invariant provider.asked
                == old(provider.asked) + Asked(members, if stop < n then stop + 1 else n)
    {
      var m, ordinal := members[n], n + 1;
      n := n + 1;
      if abortReason.Some? {
        var outcome := if budgetExhausted then NOT_ATTEMPTED_BUDGET else NOT_ATTEMPTED_ABORTED;
        var item := PlainItem(m, ordinal, outcome, abortReason);
        UnreachedNext(members, items, item, stop);
        items := items + [item];
        continue;
      }
      if m.request.NoRequest? {
        CalendarBranch(m, ordinal);
        Stopped(members, limit, n - 1, transientFailures, transientFailures);
        var item := PlainItem(m, ordinal, CALENDAR_ERROR,
                              Some(OrElse(m.request.safeReason, "CALENDAR_ERROR")));
        ReachedNext(members, items, item, stop);
        items := items + [item];
        continue;
      }
      if m.request.session.None? {
        CalendarBranch(m, ordinal);
        Stopped(members, limit, n - 1, transientFailures, transientFailures);
        var item := PlainItem(m, ordinal, CALENDAR_ERROR, Some("CALENDAR_SESSION_MISSING"));
        ReachedNext(members, items, item, stop);
        items := items + [item];
        continue;
      }
      var ingested := provider.Ingest(m, ordinal);
      if ingested.IngestionUnavailable? {
        UnavailableBranch(m, ordinal);
        Stopped(members, limit, n - 1, transientFailures, 0);
        fatal, stop := true, ordinal - 1;
        abortReason := Some(PERSISTENCE_UNAVAILABLE);
        var item := PlainItem(m, ordinal, PROVIDER_ERROR, abortReason).(requests := 1);
        ReachedNext(members, items, item, stop);
        items := items + [item];
        continue;
      }
      var c := Classify(ingested.outcome, ingested.category);
      if c.outcome.Some? {
        RejectedBranch(m, ordinal, c);
        ghost var before := transientFailures;
        transientFailures := if c.transient then transientFailures + 1 else 0;
        if c.outcome.value == NOT_ATTEMPTED_BUDGET {
          Stopped(members, limit, n - 1, before, 0);
          budgetExhausted, stop := true, ordinal - 1;
          abortReason := Some(c.reason);
        } else if c.fatal {
          Stopped(members, limit, n - 1, before, 0);
          fatal, stop := true, ordinal - 1;
          abortReason := Some(c.reason);
        } else if transientFailures >= limit {
          Stopped(members, limit, n - 1, before, transientFailures);
          stop := ordinal - 1;
          abortReason := Some(CIRCUIT_OPEN);
        } else {
          Stopped(members, limit, n - 1, before, transientFailures);
        }
        var item := IngestedItem(m, ordinal, c.outcome.value, Some(c.reason));
        ReachedNext(members, items, item, stop);
        items := items + [item];
        continue;
      }
      BuiltBranch(m, ordinal);
      Stopped(members, limit, n - 1, transientFailures, 0);
      transientFailures := 0;
      if m.built.BuildUnavailable? {
        fatal, stop := true, ordinal - 1;
        abortReason := Some(PERSISTENCE_UNAVAILABLE);
      }
      var item := BuiltItem(m, ordinal);
      ReachedNext(members, items, item, stop);
      items := items + [item];
    }
    if abortReason.None? {
      NeverStopped(members, limit, transientFailures);
    } else {
      JudgeMeans(members[stop]);
    }
  }

  // ---------------------------------------------------------------------------
  // What the specification says about a whole run
  // ---------------------------------------------------------------------------

  /** The members among the first n whose provider failed for the moment, from index a on. */
  function ForNow(members: seq<Member>, a: int, n: nat): set<int>
    requires n <= |members|
  {
    set j | a <= j < n && 0 <= j && FailedForNow(members[j])
  }

  lemma UnclearedAreForNow(members: seq<Member>, i: nat)
    requires i < |members|
    ensures Uncleared(members, i) <= ForNow(members, 0, |members|)
    ensures |Uncleared(members, i)| <= |ForNow(members, 0, |members|)|
  {
    forall j | j in Uncleared(members, i)
      ensures j in ForNow(members, 0, |members|)
    {
      JudgeMeans(members[j]);
    }
    hide Uncleared, ForNow;
    FewerMembers(Uncleared(members, i), ForNow(members, 0, |members|));
  }

  lemma {:induction false} FewerMembers<T>(a: set<T>, b: set<T>)
    requires a <= b
    ensures |a| <= |b|
    decreases |a|
  {
    if a != {} {
      var x :| x in a;
      FewerMembers(a - {x}, b - {x});
    }
  }

  /** Nothing stops a run whose database works, whose provider serves it within its budget, and
      fails for the moment fewer times than the limit: every member with a session is asked. */
  lemma FewFailuresAskAll(members: seq<Member>, limit: int, stop: nat)
    requires StopsFirst(members, limit, stop)
    requires forall m :: m in members ==> !Broke(m) && !RefusedForGood(m) && !Exhausted(m)
    requires |ForNow(members, 0, |members|)| < limit
    ensures stop == |members|
    ensures forall i :: 0 <= i < |members| ==>
              (i + 1 in Asked(members, Reached(members, stop)) <==> HasSession(members[i]))
  {
    hide Judge, Broke, RefusedForGood, Exhausted, FailedForNow, Uncleared, ForNow, Asked;
    if stop < |members| {
      assert members[stop] in members;
      JudgeMeans(members[stop]);
      UnclearedAreForNow(members, stop);
    }
    forall i | 0 <= i < |members|
      ensures i + 1 in Asked(members, |members|) <==> HasSession(members[i])
    {
      AskedOnlyReached(members, |members|, i + 1);
      JudgeMeans(members[i]);
    }
  }

  /** And a stretch in which the provider fails for the moment as often as the limit, with
      nothing in between but members without a session, ends the run there at the latest. */
  lemma EnoughFailuresStop(members: seq<Member>, limit: int, stop: nat, a: nat, i: nat)
    requires StopsFirst(members, limit, stop) && a <= i < |members| && FailedForNow(members[i])
    requires forall k :: a <= k <= i ==> FailedForNow(members[k]) || !HasSession(members[k])
    requires |ForNow(members, a, i + 1)| >= limit
    ensures stop <= i
  {
    forall k | a <= k <= i
      ensures Judge(members[k]) == Transient <==> FailedForNow(members[k])
      ensures Judge(members[k]) == Transient || Judge(members[k]) == Skipped
    {
      JudgeMeans(members[k]);
    }
    hide Judge, FailedForNow;
    assert ForNow(members, a, i + 1) <= Uncleared(members, i);
    FewerMembers(ForNow(members, a, i + 1), Uncleared(members, i));
    assert Stops(members, limit, i);
  }

  /** What the item of a member says that the run got to, from the collaborators' answers. */
  ghost predicate Tells(m: Member, item: Item) {
    && item.session == (if HasSession(m) then m.request.session else None)
    && (item.created, item.existing)
       == (if HasSession(m) && m.ingested.Ingested? then (m.ingested.created, m.ingested.existing) else (0, 0))
    && if !HasSession(m) then
         item.outcome == CALENDAR_ERROR && item.snapshot == None && item.reason.Some?
       else if m.ingested.IngestionUnavailable? then
         item.outcome == PROVIDER_ERROR && item.snapshot == None
         && item.reason == Some("PERSISTENCE_INFRASTRUCTURE_UNAVAILABLE")
       else
         match m.ingested.outcome
         case NoData => item.outcome == NO_DATA && item.snapshot == None && item.reason == Some("NO_DATA")
         case CreditBudgetExhausted =>
           item.outcome == NOT_ATTEMPTED_BUDGET && item.snapshot == None
           && item.reason == Some("TWELVE_DATA_DAILY_CREDIT_BUDGET_EXHAUSTED")
         case Completed | CompletedWithExisting =>
           (match m.built
            case BuildUnavailable =>
              item.outcome == PROVIDER_ERROR && item.snapshot == None
              && item.reason == Some("PERSISTENCE_INFRASTRUCTURE_UNAVAILABLE")
            case Insufficient(reasons) =>
              item.outcome == DATA_INSUFFICIENT && item.snapshot == None
              && item.reason == Some(if reasons == [] then "DATA_INSUFFICIENT" else reasons[0])
            case Snapshot(id, ready) =>
              item.outcome == (if ready then READY else DEGRADED)
              && item.snapshot == Some(id) && item.ready == Some(ready) && item.reason == None)
         case _ =>
           item.outcome == PROVIDER_ERROR && item.snapshot == None
           && item.reason == (if m.ingested.category in {None, Some("")} then Some("PROVIDER_ERROR")
                              else m.ingested.category)
  }

  lemma ReachedTells(m: Member, ordinal: nat)
    ensures Tells(m, ReachedItem(m, ordinal))
  {
  }

  /** Every item of a run, from the collaborators' answers: those up to the member that stopped
      the run tell what its collaborators said, and those after it were not attempted, for want
      of budget exactly when that member exhausted it. */
  lemma ItemsTell(members: seq<Member>, limit: int, stop: nat, items: seq<Item>, i: nat)
    requires StopsFirst(members, limit, stop)
    requires ItemsRight(members, stop, items) && |items| == |members| && i < |items|
    ensures i <= stop ==> Tells(members[i], items[i])
    ensures i > stop ==>
              && items[i].outcome == (if Exhausted(members[stop]) then NOT_ATTEMPTED_BUDGET
                                      else NOT_ATTEMPTED_ABORTED)
              && items[i].session == (if HasSession(members[i]) then members[i].request.session else None)
              && items[i].snapshot == None && items[i].created == 0 && items[i].existing == 0
              && items[i].reason == (if Broke(members[stop]) || RefusedForGood(members[stop])
                                        || Exhausted(members[stop])
                                     then Some(OrElse(items[stop].reason, ""))
                                     else Some("TRANSIENT_FAILURE_CIRCUIT_OPEN"))
  {
    hide Judge, ReachedItem, Tells, Broke, RefusedForGood, Exhausted, Uncleared;
    ReachedTells(members[i], i + 1);
    if i > stop {
      assert Stops(members, limit, stop);
      JudgeMeans(members[stop]);
      assert items[stop] == ItemAt(members, stop, stop);
      SameReason(members[stop], 0, stop + 1);
    }
  }

  lemma SameReason(m: Member, a: nat, b: nat)
    ensures ReachedItem(m, a).reason == ReachedItem(m, b).reason
  {
  }

  /** One item per member, in order, and the provider is asked about nobody after the stop. */
  lemma {:induction false} AskedOnlyReached(members: seq<Member>, n: nat, ordinal: nat)
    requires n <= |members|
    ensures ordinal in Asked(members, n) <==> 1 <= ordinal <= n && Attempted(members[ordinal - 1])
  {
    hide Judge;
    if n > 0 {
      AskedOnlyReached(members, n - 1, ordinal);
    }
  }

  /** Each item says by itself whether the provider was asked about its member. */
  lemma RequestsAreRecorded(members: seq<Member>, stop: nat, items: seq<Item>, i: nat)
    requires ItemsRight(members, stop, items) && |items| == |members| && i < |items|
    ensures items[i].ordinal == i + 1 && items[i].symbol == members[i].symbol
    ensures items[i].requests == if i + 1 in Asked(members, Reached(members, stop)) then 1 else 0
    ensures i > stop ==>
              && items[i].requests == 0 && items[i].credits == None
              && items[i].reason == Some(StopReason(members[stop]))
              && items[i].outcome == if Judge(members[stop]) == OverBudget then NOT_ATTEMPTED_BUDGET
                                     else NOT_ATTEMPTED_ABORTED
  {
    hide StopReason, Judge, ReachedItem, Asked;
    AskedOnlyReached(members, Reached(members, stop), i + 1);
    ReachedRecords(members[i], i + 1);
  }

  /** What an item records of the provider call for its member. */
  lemma ReachedRecords(m: Member, ordinal: nat)
    ensures var item := ReachedItem(m, ordinal);
            && item.ordinal == ordinal && item.symbol == m.symbol
            && item.requests == (if Attempted(m) then 1 else 0)
            && item.credits == (if !Attempted(m) || m.ingested.IngestionUnavailable? then None
                                else CreditDelta(m.creditsBefore, m.creditsAfter))
  {
  }

  // ---------------------------------------------------------------------------
  // Credits
  // ---------------------------------------------------------------------------

  function SumTo(spend: seq<nat>, n: nat): nat
    requires n <= |spend|
  {
    if n == 0 then 0 else SumTo(spend, n - 1) + spend[n - 1]
  }

  /** The consumed counter starts at `start`, is always known, and only ingestion moves it. */
  ghost predicate Metered(members: seq<Member>, reached: nat, start: int, spend: seq<nat>)
    requires reached <= |members|
  {
    && |spend| == reached
    && forall i :: 0 <= i < reached ==>
         if Attempted(members[i]) then
           && members[i].creditsBefore == Some(start + SumTo(spend, i))
           && members[i].creditsAfter == Some(start + SumTo(spend, i + 1))
         else spend[i] == 0
  }

  function CreditsOf(items: seq<Item>): int {
    if items == [] then 0
    else
      var last := items[|items| - 1].credits;
      CreditsOf(items[..|items| - 1]) + (if last.Some? then last.value else 0)
  }

  /** What a run spent without an item to record it. */
  function Unrecorded(members: seq<Member>, stop: nat, spend: seq<nat>): nat {
    if stop < |members| && stop < |spend| && Attempted(members[stop])
       && members[stop].ingested.IngestionUnavailable?
    then spend[stop] else 0
  }

  lemma ItemCredits(members: seq<Member>, stop: nat, start: int, spend: seq<nat>, i: nat)
    requires stop <= |members| && Metered(members, Reached(members, stop), start, spend)
    requires stop < |members| ==> Attempted(members[stop])
    requires forall j :: 0 <= j < stop ==> Judge(members[j]) != Fatal
    requires i < |members|
    ensures var credits := ItemAt(members, stop, i).credits;
            (if credits.Some? then credits.value else 0)
            == (if i >= |spend| then 0
                else if i == stop && members[i].ingested.IngestionUnavailable? then 0 else spend[i])
  {
    assert i < stop && Attempted(members[i]) ==> !members[i].ingested.IngestionUnavailable?;
    hide StopReason, Judge, ReachedItem;
    ReachedRecords(members[i], i + 1);
    if i < |spend| {
      assert SumTo(spend, i + 1) == SumTo(spend, i) + spend[i];
    }
  }

  lemma OneMoreItem(items: seq<Item>, n: nat)
    requires 0 < n <= |items|
    ensures var last := items[n - 1].credits;
            CreditsOf(items[..n]) == CreditsOf(items[..n - 1]) + (if last.Some? then last.value else 0)
  {
    assert items[..n][..n - 1] == items[..n - 1];
  }

  lemma NoItemsYet(items: seq<Item>)
    ensures CreditsOf(items[..0]) == 0
  {
  }

  /** What item i and, at the stop, the unrecorded spend add up to. */
  lemma NextCredit(members: seq<Member>, stop: nat, start: int, spend: seq<nat>, items: seq<Item>, i: nat)
    requires stop <= |members| && Metered(members, Reached(members, stop), start, spend)
    requires stop < |members| ==> Attempted(members[stop])
    requires forall j :: 0 <= j < stop ==> Judge(members[j]) != Fatal
    requires ItemsRight(members, stop, items) && i < |items| == |members|
    ensures var last := items[i].credits;
            (if last.Some? then last.value else 0) + (if i == stop then Unrecorded(members, stop, spend) else 0)
            == if i < |spend| then spend[i] else 0
  {
    hide Metered, Judge, ItemAt, Reached;
    ItemCredits(members, stop, start, spend, i);
  }

  lemma SumNext(spend: seq<nat>, i: nat)
    ensures SumTo(spend, if i + 1 < |spend| then i + 1 else |spend|)
            == SumTo(spend, if i < |spend| then i else |spend|) + (if i < |spend| then spend[i] else 0)
  {
  }

  lemma {:induction false} CreditsUpTo(
    members: seq<Member>, stop: nat, start: int, spend: seq<nat>, items: seq<Item>, n: nat)
    requires stop <= |members| && Metered(members, Reached(members, stop), start, spend)
    requires stop < |members| ==> Attempted(members[stop])
    requires forall j :: 0 <= j < stop ==> Judge(members[j]) != Fatal
    requires ItemsRight(members, stop, items) && |items| == |members| && n <= |items|
    ensures CreditsOf(items[..n]) + (if stop < n then Unrecorded(members, stop, spend) else 0)
            == SumTo(spend, if n < |spend| then n else |spend|)
  {
    hide Judge, ItemAt, CreditsOf, Metered, ItemsRight, Reached, Attempted, Unrecorded, SumTo;
    if n > 0 {
      CreditsUpTo(members, stop, start, spend, items, n - 1);
      OneMoreItem(items, n);
      NextCredit(members, stop, start, spend, items, n - 1);
      SumNext(spend, n - 1);
    } else {
      NoItemsYet(items);
      NoSpendYet(spend);
    }
  }

  lemma NoSpendYet(spend: seq<nat>)
    ensures SumTo(spend, 0) == 0
  {
  }

  /** Telescoping: the run's credit delta is the sum of the recorded item credits plus the
      spend of at most one member. */
  lemma CreditsTelescope(
    members: seq<Member>, limit: int, stop: nat, items: seq<Item>, start: int, spend: seq<nat>)
    requires StopsFirst(members, limit, stop) && ItemsRight(members, stop, items) && |items| == |members|
    requires Metered(members, Reached(members, stop), start, spend)
    ensures CreditDelta(Some(start), Some(start + SumTo(spend, |spend|)))
            == Some(CreditsOf(items) + Unrecorded(members, stop, spend))
  {
    hide Judge, Uncleared, Stops, ItemAt, Unrecorded, CreditsOf, SumTo;
    forall j | 0 <= j < stop
      ensures Judge(members[j]) != Fatal
    {
      FatalStops(members, limit, j);
    }
    CreditsUpTo(members, stop, start, spend, items, |items|);
    assert items[..|items|] == items;
    if stop == |members| {
      assert Unrecorded(members, stop, spend) == 0 by { NothingUnrecorded(members, stop, spend); }
    }
  }

  lemma NothingUnrecorded(members: seq<Member>, stop: nat, spend: seq<nat>)
    requires stop >= |members|
    ensures Unrecorded(members, stop, spend) == 0
  {
  }

  /** That one member ended the run: its ingestion raised a persistence error, its item shows
      the request and leaves the cost open, and nobody after it was asked. */
  lemma UnrecordedItem(members: seq<Member>, stop: nat, items: seq<Item>, spend: seq<nat>, i: nat)
    requires ItemsRight(members, stop, items) && |items| == |members|
    requires Unrecorded(members, stop, spend) != 0
    ensures stop < |items| && Judge(members[stop]) == Fatal
    ensures items[stop].credits == None && items[stop].requests == 1
    ensures items[stop].reason == Some(PERSISTENCE_UNAVAILABLE)
    ensures stop < i < |items| ==>
              items[i].requests == 0 && items[i].credits == None && items[i].outcome == NOT_ATTEMPTED_ABORTED
              && items[i].reason == Some(PERSISTENCE_UNAVAILABLE)
  {
    var stopper := members[stop];
    assert SessionOf(stopper).Some? && stopper.ingested.IngestionUnavailable?;
    UnavailableBranch(stopper, stop + 1);
    hide Judge, ReachedItem, StopReason, Unrecorded;
    assert items[stop] == ItemAt(members, stop, stop);
    if stop < i < |items| {
      assert items[i] == ItemAt(members, stop, i);
    }
  }

  lemma FatalStops(members: seq<Member>, limit: int, j: nat)
    requires j < |members| && !Stops(members, limit, j)
    ensures Judge(members[j]) != Fatal
  {
  }

  // ---------------------------------------------------------------------------
  // Counts and status
  // ---------------------------------------------------------------------------

  datatype RunStatus =
    | COMPLETED
    | COMPLETED_WITH_WARNINGS
    | COMPLETED_WITH_PARTIAL_FAILURES
    | NO_COMPLETED_SESSION
    | BUDGET_BLOCKED
    | ABORTED_PROVIDER_FATAL

  function CompletedStatus(items: seq<Item>): RunStatus {
    if exists i | i in items ::
         i.outcome in {PROVIDER_ERROR, CALENDAR_ERROR, NOT_ATTEMPTED_BUDGET, NOT_ATTEMPTED_ABORTED}
    then COMPLETED_WITH_PARTIAL_FAILURES
    else if exists i | i in items :: i.outcome in {DATA_INSUFFICIENT, NO_DATA}
    then COMPLETED_WITH_WARNINGS
    else COMPLETED
  }

  lemma OutcomeKinds(o: Outcome)
    ensures o !in {READY, DEGRADED, DATA_INSUFFICIENT, NO_DATA}
            <==> o in {PROVIDER_ERROR, CALENDAR_ERROR, NOT_ATTEMPTED_BUDGET, NOT_ATTEMPTED_ABORTED}
  {
    match o {
      case READY =>
      case DEGRADED =>
      case DATA_INSUFFICIENT =>
      case NO_DATA =>
      case _ =>
    }
  }

  /** The status of a run that was not aborted, from the outcomes of its items. */
  lemma StatusMeans(items: seq<Item>)
    ensures CompletedStatus(items) == COMPLETED <==> forall i :: i in items ==> i.outcome in {READY, DEGRADED}
    ensures CompletedStatus(items) == COMPLETED_WITH_WARNINGS
            <==> && (forall i :: i in items ==> i.outcome in {READY, DEGRADED, DATA_INSUFFICIENT, NO_DATA})
                 && exists i :: i in items && i.outcome in {DATA_INSUFFICIENT, NO_DATA}
    ensures CompletedStatus(items) == COMPLETED_WITH_PARTIAL_FAILURES
            <==> exists i :: i in items && i.outcome !in {READY, DEGRADED, DATA_INSUFFICIENT, NO_DATA}
  {
    forall i | i in items
      ensures i.outcome !in {READY, DEGRADED, DATA_INSUFFICIENT, NO_DATA}
              <==> i.outcome in {PROVIDER_ERROR, CALENDAR_ERROR, NOT_ATTEMPTED_BUDGET, NOT_ATTEMPTED_ABORTED}
    {
      OutcomeKinds(i.outcome);
    }
    if forall i :: i in items ==> i.outcome in {READY, DEGRADED, DATA_INSUFFICIENT, NO_DATA} {
      assert CompletedStatus(items) != COMPLETED_WITH_PARTIAL_FAILURES;
    }
  }

  function StatusOf(items: seq<Item>, fatal: bool): RunStatus {
    if fatal then ABORTED_PROVIDER_FATAL else CompletedStatus(items)
  }

  function Count(items: seq<Item>, outcome: Outcome): nat {
    if items == [] then 0
    else Count(items[..|items| - 1], outcome) + (if items[|items| - 1].outcome == outcome then 1 else 0)
  }

  /** The seven stored counts add up to the number of items. */
  lemma {:induction false} CountsPartition(items: seq<Item>)
    ensures Count(items, READY) + Count(items, DEGRADED) + Count(items, DATA_INSUFFICIENT)
            + Count(items, NO_DATA) + Count(items, PROVIDER_ERROR) + Count(items, CALENDAR_ERROR)
            + (Count(items, NOT_ATTEMPTED_BUDGET) + Count(items, NOT_ATTEMPTED_ABORTED))
            == |items|
  {
    if items != [] {
      CountsPartition(items[..|items| - 1]);
    }
  }

  /** With a limit of at least one, a clean status means that nothing stopped the run and
      every member got its features or had too little data. */
  lemma CleanMeansComplete(members: seq<Member>, limit: int, stop: nat, items: seq<Item>)
    requires limit >= 1
    requires StopsFirst(members, limit, stop) && ItemsRight(members, stop, items) && |items| == |members|
    requires var status := StatusOf(items, stop < |members| && Judge(members[stop]) == Fatal);
             status == COMPLETED || status == COMPLETED_WITH_WARNINGS
    ensures stop == |members|
    ensures forall i :: 0 <= i < |members| ==> Judge(members[i]) == Passed || Judge(members[i]) == Rejected
  {
    hide Judge, Stops, ReachedItem;
    if stop < |members| {
      StopNeedsTrouble(members, limit, stop);
      BadJudgementShows(members[stop], stop + 1);
      assert items[stop] in items;
    }
    forall i | 0 <= i < |members|
      ensures Judge(members[i]) == Passed || Judge(members[i]) == Rejected
    {
      assert items[i] in items;
      if Judge(members[i]) != Passed && Judge(members[i]) != Rejected {
        BadJudgementShows(members[i], i + 1);
      }
    }
  }

  lemma StopNeedsTrouble(members: seq<Member>, limit: int, i: nat)
    requires limit >= 1 && i < |members| && Stops(members, limit, i)
    ensures Judge(members[i]) == Fatal || Judge(members[i]) == OverBudget || Judge(members[i]) == Transient
  {
  }

  lemma BadJudgementShows(m: Member, ordinal: nat)
    requires Judge(m) != Passed && Judge(m) != Rejected
    ensures ReachedItem(m, ordinal).outcome in {PROVIDER_ERROR, CALENDAR_ERROR, NOT_ATTEMPTED_BUDGET}
  {
  }

  /** A run that ended with a clean status. */
  ghost predicate EndedClean(members: seq<Member>, limit: int, stop: nat, items: seq<Item>) {
    && StopsFirst(members, limit, stop) && ItemsRight(members, stop, items) && |items| == |members|
    && var status := StatusOf(items, stop < |members| && Judge(members[stop]) == Fatal);
       status == COMPLETED || status == COMPLETED_WITH_WARNINGS
  }

  /** With any other limit there is a run that stopped and still ends without a failure
      status: the circuit opens on a last member that merely had no data. */
  lemma CleanMayHaveStopped(limit: int, m: Member)
    requires limit <= 0 && SessionOf(m).Some?
    requires m.ingested == Ingested(NoData, None, 0, 0)
    ensures StopsFirst([m], limit, 0)
    ensures CompletedStatus([ReachedItem(m, 1)]) == COMPLETED_WITH_WARNINGS
    ensures EndedClean([m], limit, 0, [ReachedItem(m, 1)])
  {
  }

  /** So a clean status means that nothing stopped the run exactly for limits of at least one. */
  lemma CleanMeansCompleteIff(limit: int)
    ensures limit >= 1 <==>
            forall members, stop, items :: EndedClean(members, limit, stop, items) ==> stop == |members|
  {
    hide StopsFirst, ItemsRight, Judge;
    if limit >= 1 {
      forall members, stop, items | EndedClean(members, limit, stop, items)
        ensures stop == |members|
      {
        CleanMeansComplete(members, limit, stop, items);
      }
    } else {
      var m := Member("ACME", Request(Some(0)), None, Ingested(NoData, None, 0, 0), None, BuildUnavailable);
      CleanMayHaveStopped(limit, m);
      assert EndedClean([m], limit, 0, [ReachedItem(m, 1)]);
    }
  }
}
