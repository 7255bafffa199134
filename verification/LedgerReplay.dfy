/** Positions as replays of their events, and fills projected at most once, over every run. */
module LedgerReplay {
  import opened Outcomes
  import opened Transactions
  import opened LedgerTables
  import opened AverageCost
  import opened PaperFills
  import opened LedgerInvariant
  import opened LedgerSteps
  import opened LedgerRuns
  import TI = TradeIntents
  import PO = PaperOrders
  import PP = PositionProjection

  // ---------------------------------------------------------------------------
  // Replay refinement
  // ---------------------------------------------------------------------------

  function Deltas(events: seq<Event>): seq<nat> {
    seq(|events|, i requires 0 <= i < |events| => events[i].quantityDelta)
  }

  /** A stored position is exactly what folding its events' fills rebuilds. */
  ghost predicate Rebuilt(db: Ledger, p: PositionId)
    requires p in db.positions
  {
    var row, events := db.positions[p], EventsOf(db.events, p);
    var lots := LotsOf(db.fills, events);
    && row.status == OPEN
    && |events| == row.version == |lots| > 0
    && (forall k :: 0 <= k < |events| ==>
          && events[k].sequence == k + 1
          && events[k].fillId == lots[k].id
          && events[k].quantityDelta == lots[k].quantity
          && events[k].occurredAt == lots[k].executedAt
          && events[k].quantityAfter == Sum(Deltas(events)[..k + 1]))
    && (forall j, k :: 0 <= j < k < |events| ==> events[j].occurredAt <= events[k].occurredAt)
    && Replay(lots) == Some(Holding(row.quantity, row.averageCost))
    && row.realizedPnl == Money(0, row.key.currency)
    && row.openedAt == events[0].occurredAt
    && row.updatedAt == events[|events| - 1].occurredAt
  }

  ghost predicate AllEventsOk(db: Ledger, key: PositionKey, events: seq<Event>) {
    forall k :: 0 <= k < |events| ==> EventOk(db, key, events, k)
  }

  lemma {:induction false} LotsMatch(db: Ledger, key: PositionKey, events: seq<Event>)
    requires AllEventsOk(db, key, events)
    ensures var lots := LotsOf(db.fills, events);
            && |lots| == |events|
            && forall k :: 0 <= k < |events| ==>
                 && events[k].fillId == lots[k].id
                 && events[k].quantityDelta == lots[k].quantity
                 && events[k].occurredAt == lots[k].executedAt
  {
    hide Belongs, Replay;
    if events != [] {
      var n := |events| - 1;
      var front := events[..n];
      FrontOk(db, key, events, n);
      LotsMatch(db, key, front);
      assert EventOk(db, key, events, n);
      FillFound(db.fills, events[n].fillId);
    }
  }

  lemma FrontOk(db: Ledger, key: PositionKey, events: seq<Event>, n: nat)
    requires AllEventsOk(db, key, events) && n <= |events|
    ensures AllEventsOk(db, key, events[..n])
  {
    hide Belongs, Replay;
    forall k | 0 <= k < n
      ensures EventOk(db, key, events[..n], k)
    {
      assert EventOk(db, key, events, k);
      assert events[..n][..k + 1] == events[..k + 1];
    }
  }

  lemma {:induction false} TimesRise(db: Ledger, key: PositionKey, events: seq<Event>, j: nat, k: nat)
    requires AllEventsOk(db, key, events) && j <= k < |events|
    ensures events[j].occurredAt <= events[k].occurredAt
  {
    hide Belongs, Replay;
    if j < k {
      TimesRise(db, key, events, j, k - 1);
      assert EventOk(db, key, events, k);
    }
  }

  /** The replayed quantity of a prefix is the sum of its lots. */
  lemma {:induction false} ReplaySums(lots: seq<Fill>)
    requires Replay(lots).Some?
    ensures Replay(lots).value.quantity == Sum(Quantities(lots))
  {
    var n := |lots| - 1;
    assert Quantities(lots)[..n] == Quantities(lots[..n]);
    if n > 0 {
      ReplaySums(lots[..n]);
    } else {
      assert Quantities(lots[..n]) == [];
    }
  }

  lemma QuantityAfterIsSum(db: Ledger, key: PositionKey, events: seq<Event>, k: nat)
    requires AllEventsOk(db, key, events) && k < |events|
    ensures events[k].quantityAfter == Sum(Deltas(events)[..k + 1])
  {
    hide Belongs, Replay;
    var front := events[..k + 1];
    FrontOk(db, key, events, k + 1);
    LotsMatch(db, key, front);
    assert EventOk(db, key, events, k);
    ReplaySums(LotsOf(db.fills, front));
    assert Quantities(LotsOf(db.fills, front)) == Deltas(front) == Deltas(events)[..k + 1];
  }

  lemma PositionIsRebuilt(db: Ledger, p: PositionId)
    requires p in db.positions && PositionOk(db, p)
    ensures Rebuilt(db, p)
  {
    var row, events := db.positions[p], EventsOf(db.events, p);
    assert AllEventsOk(db, row.key, events);
    LotsMatch(db, row.key, events);
    forall k | 0 <= k < |events|
      ensures events[k].sequence == k + 1 && events[k].quantityAfter == Sum(Deltas(events)[..k + 1])
    {
      assert EventOk(db, row.key, events, k);
      QuantityAfterIsSum(db, row.key, events, k);
    }
    forall j, k | 0 <= j < k < |events|
      ensures events[j].occurredAt <= events[k].occurredAt
    {
      TimesRise(db, row.key, events, j, k);
    }
    assert EventOk(db, row.key, events, |events| - 1);
    assert events[..|events|] == events;
  }

  /** Replay refinement over every interleaving. */
  lemma PositionsReplay(calls: seq<Request>, run: Run, i: nat, p: PositionId)
    requires Behaves(calls, run) && i <= |calls| && p in run.history[i].positions
    ensures Rebuilt(run.history[i], p)
  {
    RunsAreSound(calls, run);
    PositionIsRebuilt(run.history[i], p);
  }

  /** The average cost stays between the cheapest and the dearest lot bought. */
  lemma AverageIsBetween(calls: seq<Request>, run: Run, i: nat, p: PositionId, low: Price, high: Price)
    requires Behaves(calls, run) && i <= |calls| && p in run.history[i].positions
    requires var db := run.history[i];
             forall f :: f in LotsOf(db.fills, EventsOf(db.events, p)) ==> low <= f.price <= high
    ensures low <= run.history[i].positions[p].averageCost <= high
  {
    var db := run.history[i];
    PositionsReplay(calls, run, i, p);
    ReplayIsAverage(LotsOf(db.fills, EventsOf(db.events, p)), low, high);
  }

  /** And it is off the true average of those lots by at most half a unit a purchase. */
  lemma AverageIsAccurate(calls: seq<Request>, run: Run, i: nat, p: PositionId)
    requires Behaves(calls, run) && i <= |calls| && p in run.history[i].positions
    ensures var db := run.history[i];
            var row, cost := db.positions[p], Cost(LotsOf(db.fills, EventsOf(db.events, p)));
            -((row.version - 1) * row.quantity) <= 2 * (row.averageCost * row.quantity - cost)
                                                <= (row.version - 1) * row.quantity
  {
    PositionsReplay(calls, run, i, p);
    var db := run.history[i];
    hide Behaves;
    ReplayDrift(LotsOf(db.fills, EventsOf(db.events, p)));
  }

  /** At most one OPEN position per strategy, symbol and currency. */
  lemma OneOpenPerKey(calls: seq<Request>, run: Run, i: nat, key: PositionKey)
    requires Behaves(calls, run) && i <= |calls|
    ensures |OpenIds(run.history[i], key)| <= 1
  {
    RunsAreSound(calls, run);
    var db := run.history[i];
    var ids := OpenIds(db, key);
    if ids != {} {
      var id :| id in ids;
      assert ids == {id};
    }
  }

  // ---------------------------------------------------------------------------
  // Exactly once
  // ---------------------------------------------------------------------------

  predicate Success(response: Response, fillId: FillId) {
    response.ProjectDone? && response.fillId == fillId
    && (response.attempt.Applied? || response.attempt.AlreadyApplied?)
  }

  predicate AppliedFor(response: Response, fillId: FillId) {
    response.ProjectDone? && response.fillId == fillId && response.attempt.Applied?
  }

  /** What a response says went wrong or was not done. */
  predicate Refused(response: Response) {
    match response
    case StoreDone => false
    case IntentsDone(outcome) => outcome.NotCreated? || outcome.ids == []
    case SubmitDone(outcome) => outcome.NotSubmitted?
    case FillDone(outcome) => outcome.FillFailed?
    case ProjectDone(_, attempt) => !attempt.Applied?
    case NothingToReread => true
  }

  lemma {:induction false} AddAllTouchesIntents(
    db: Ledger, rows: seq<Intent>, ids: seq<IntentId>, pick: nat, n: nat)
    requires n <= |rows| && TI.AddAll(db, rows, ids, pick, n).Ok?
    ensures var after := TI.AddAll(db, rows, ids, pick, n).value; after == db.(intents := after.intents)
  {
    if n > 0 {
      AddAllTouchesIntents(db, rows, ids, pick, n - 1);
    }
  }

  lemma CreateAllTouches(
    view: Ledger, db: Ledger, candidateId: CandidateId, strategies: seq<TI.Strategy>,
    policy: TI.RiskPolicy, now: Time, ids: seq<IntentId>, pick: nat)
    ensures var after := TI.CreateAllResult(view, db, candidateId, strategies, policy, now, ids, pick).0;
            after == db.(intents := after.intents)
  {
    hide TI.PlanIntents;
    var planned := TI.PlanIntents(view, candidateId, strategies, policy, now);
    if planned.Ok? && TI.AddAll(db, planned.value, ids, pick, |planned.value|).Ok? {
      AddAllTouchesIntents(db, planned.value, ids, pick, |planned.value|);
    }
  }

  lemma SubmitTouches(
    view: Ledger, db: Ledger, intentId: IntentId, brokerCode: string, submittedAt: Time,
    answer: PO.BrokerAnswer, orderId: OrderId, pick: nat)
    ensures var after := PO.SubmitResult(view, db, intentId, brokerCode, submittedAt, answer, orderId, pick).0;
            after == db.(orders := after.orders)
  {
    hide PO.PlanOrder;
  }

  lemma ExecuteTouches(
    first: Ledger, later: Ledger, db: Ledger, o: OrderId, now: Time, fillId: FillId, pick: nat)
    ensures var after := ExecuteNextResult(first, later, db, o, now, fillId, pick).0;
            after == db.(orders := after.orders, fills := after.fills)
  {
    hide PlanFill;
  }

  /** No service but the projector writes an event or a position. */
  lemma OthersKeepPositions(run: Run, call: Call)
    requires run.history != [] && !call.Project?
    ensures var (after, response) := Complete(run, call);
            && after.events == Last(run).events && after.positions == Last(run).positions
            && !(response.ProjectDone? && response.attempt.Applied?)
  {
    hide TI.CreateAllResult, PO.SubmitResult, ExecuteNextResult, FindEventByFill;
    var db := Last(run);
    match call {
      case Store(row) => ReferenceTouches(db, row);
      case CreateIntents(view, candidateId, strategies, policy, now, ids, pick) =>
        CreateAllTouches(At(run, view), db, candidateId, strategies, policy, now, ids, pick);
      case SubmitOrder(view, intentId, brokerCode, submittedAt, answer, orderId, pick) =>
        SubmitTouches(At(run, view), db, intentId, brokerCode, submittedAt, answer, orderId, pick);
      case ExecuteFill(first, later, orderId, now, fillId, pick) =>
        ExecuteTouches(At(run, first), At(run, later), db, orderId, now, fillId, pick);
      case Reread(_) =>
    }
  }

  /** What an applied attempt writes. */
  ghost predicate Wrote(db: Ledger, after: Ledger, fillId: FillId, attempt: PP.Attempt, e: Event) {
    && after.events == db.events + [e]
    && e.fillId == fillId
    && attempt == PP.Applied(PP.ResultOf(e))
    && FindEventByFill(db.events, fillId).None?
  }

  lemma ApplyWrites(db: Ledger, write: PP.ProjectionWrite, pick: nat)
    requires PP.ApplyProjection(db, write, pick).1.Applied?
    ensures var (after, attempt) := PP.ApplyProjection(db, write, pick);
            Wrote(db, after, write.event.fillId, attempt, write.event)
  {
    EventFound(db.events, write.event.fillId);
  }

  lemma ProjectWrites(
    eventView: Ledger, sourceView: Ledger, positionView: Ledger, db: Ledger, fillId: FillId,
    positionId: PositionId, eventId: EventId, pick: nat)
    returns (e: Event)
    requires PP.ProjectOnceResult(eventView, sourceView, positionView, db, fillId, positionId, eventId,
                                  pick).1.Applied?
    ensures var (after, attempt) :=
              PP.ProjectOnceResult(eventView, sourceView, positionView, db, fillId, positionId, eventId, pick);
            Wrote(db, after, fillId, attempt, e)
  {
    hide PP.ApplyProjection, BuyPosition;
    var source := PP.LoadSource(sourceView, fillId).value;
    var write := PP.PlanProjection(positionView, source, positionId, eventId).value;
    FillFound(sourceView.fills, fillId);
    ApplyWrites(db, write, pick);
    e := write.event;
  }

  lemma RefusedProjection(
    eventView: Ledger, sourceView: Ledger, positionView: Ledger, db: Ledger, fillId: FillId,
    positionId: PositionId, eventId: EventId, pick: nat)
    requires !PP.ProjectOnceResult(eventView, sourceView, positionView, db, fillId, positionId, eventId,
                                   pick).1.Applied?
    ensures PP.ProjectOnceResult(eventView, sourceView, positionView, db, fillId, positionId, eventId,
                                 pick).0 == db
  {
  }

  lemma RefusedService(run: Run, call: Call)
    requires run.history != [] && !call.Project? && Refused(Complete(run, call).1)
    ensures Complete(run, call).0 == Last(run)
  {
  }

  lemma RefusedComplete(run: Run, call: Call)
    requires run.history != [] && Refused(Complete(run, call).1)
    ensures Complete(run, call).0 == Last(run)
  {
    if call.Project? {
      hide PP.ProjectOnceResult;
      RefusedProjection(At(run, call.eventView), At(run, call.sourceView), At(run, call.positionView),
                        Last(run), call.fillId, call.positionId, call.eventId, call.pick);
    } else {
      hide Complete;
      RefusedService(run, call);
    }
  }

  // ---------------------------------------------------------------------------
  // How calls end
  // ---------------------------------------------------------------------------

  /** What call number i does when no fault meets it. */
  ghost function Outcome(calls: seq<Request>, run: Run, i: nat): (Ledger, Response)
    requires i < |calls| == |run.log| && |run.history| == |calls| + 1
  {
    Complete(Before(run, i), calls[i].call)
  }

  /** Call number i did all of its work and failed afterwards, with a persistence error. */
  ghost predicate Silent(calls: seq<Request>, run: Run, i: nat)
    requires i < |calls| == |run.log| && |run.history| == |calls| + 1
  {
    calls[i].ending.Unreported? && !Refused(Outcome(calls, run, i).1)
  }

  lemma HowItEnded(calls: seq<Request>, run: Run, i: nat)
    requires Behaves(calls, run) && i < |calls|
    ensures (run.history[i + 1], run.log[i])
            == Ended(calls[i].ending, run.history[i], Outcome(calls, run, i),
                     FaultAnswer(Before(run, i), calls[i].call))
  {
    hide Complete, FaultAnswer;
    assert Served(calls, run, i);
  }

  lemma FaultsAreRefused(run: Run, call: Call)
    ensures !call.Store? ==> Refused(FaultAnswer(run, call))
    ensures var answer := FaultAnswer(run, call);
            && (answer.ProjectDone? ==> answer.attempt == PP.Failed(PP.PersistenceFailed))
            && (answer.FillDone? ==> answer.fill.FillFailed?)
            && (call.Project? ==> answer == ProjectDone(call.fillId, PP.Failed(PP.PersistenceFailed)))
  {
  }

  lemma {:induction false} AddAllAdds(db: Ledger, rows: seq<Intent>, ids: seq<IntentId>, pick: nat, n: nat)
    requires n <= |rows| && TI.AddAll(db, rows, ids, pick, n).Ok?
    ensures |TI.AddAll(db, rows, ids, pick, n).value.intents| == |db.intents| + n
  {
    if n > 0 {
      AddAllAdds(db, rows, ids, pick, n - 1);
    }
  }

  lemma CreatedChanges(
    view: Ledger, db: Ledger, candidateId: CandidateId, strategies: seq<TI.Strategy>,
    policy: TI.RiskPolicy, now: Time, ids: seq<IntentId>, pick: nat)
    ensures var (after, outcome) := TI.CreateAllResult(view, db, candidateId, strategies, policy, now, ids, pick);
            outcome.Created? && outcome.ids != [] ==> after != db
  {
    hide TI.PlanIntents, TI.AddAll;
    var planned := TI.PlanIntents(view, candidateId, strategies, policy, now);
    if planned.Ok? && TI.AddAll(db, planned.value, ids, pick, |planned.value|).Ok? {
      AddAllAdds(db, planned.value, ids, pick, |planned.value|);
    }
  }

  lemma SubmittedChanges(
    view: Ledger, db: Ledger, intentId: IntentId, brokerCode: string, submittedAt: Time,
    answer: PO.BrokerAnswer, orderId: OrderId, pick: nat)
    ensures var (after, outcome) :=
              PO.SubmitResult(view, db, intentId, brokerCode, submittedAt, answer, orderId, pick);
            outcome.Submitted? ==> after != db
  {
    hide PO.PlanOrder, PO.SubmitResult;
    var (after, outcome) := PO.SubmitResult(view, db, intentId, brokerCode, submittedAt, answer, orderId, pick);
    if outcome.Submitted? {
      SubmittedRow(view, db, intentId, brokerCode, submittedAt, answer, orderId, pick);
      assert orderId in after.orders;
    }
  }

  lemma FilledChanges(db: Ledger, write: FillWrite, pick: nat)
    ensures ApplyFill(db, write, pick).1.Filled? ==> |ApplyFill(db, write, pick).0.fills| == |db.fills| + 1
  {
  }

  /** A service that reports success has changed the ledger. */
  lemma SuccessChanges(run: Run, call: Call)
    requires run.history != [] && !call.Store? && !Refused(Complete(run, call).1)
    ensures Complete(run, call).0 != Last(run)
  {
    hide TI.CreateAllResult, PO.SubmitResult, PlanFill, ApplyFill, PP.ProjectOnceResult;
    var db := Last(run);
    match call {
      case CreateIntents(view, candidateId, strategies, policy, now, ids, pick) =>
        CreatedChanges(At(run, view), db, candidateId, strategies, policy, now, ids, pick);
      case SubmitOrder(view, intentId, brokerCode, submittedAt, answer, orderId, pick) =>
        SubmittedChanges(At(run, view), db, intentId, brokerCode, submittedAt, answer, orderId, pick);
      case ExecuteFill(first, later, orderId, now, fillId, pick) =>
        FilledChanges(db, PlanFill(At(run, first), At(run, later), orderId, now, fillId).value, pick);
      case Project(eventView, sourceView, positionView, fillId, positionId, eventId, pick) =>
        var e := ProjectWrites(At(run, eventView), At(run, sourceView), At(run, positionView), db, fillId,
                               positionId, eventId, pick);
        assert |Complete(run, call).0.events| == |db.events| + 1;
      case Reread(_) =>
    }
  }

  /** A call that does not report success leaves the database exactly as it was, unless its
      work was complete and only its way out failed: then all of that work is there. */
  lemma RefusedLeavesLedger(calls: seq<Request>, run: Run, i: nat)
    requires Behaves(calls, run) && i < |calls| && Refused(run.log[i])
    ensures run.history[i + 1]
            == if Silent(calls, run, i) then Outcome(calls, run, i).0 else run.history[i]
    ensures run.history[i + 1] != run.history[i] <==> Silent(calls, run, i)
  {
    hide Complete, FaultAnswer;
    HowItEnded(calls, run, i);
    var before, call := Before(run, i), calls[i].call;
    if Refused(Outcome(calls, run, i).1) {
      RefusedComplete(before, call);
    } else if calls[i].ending.Unreported? {
      if call.Store? {
        StoreIsDone(before, call);
      } else {
        SuccessChanges(before, call);
      }
    }
  }

  lemma StoreIsDone(run: Run, call: Call)
    requires run.history != [] && call.Store?
    ensures Complete(run, call).1 == FaultAnswer(run, call) == StoreDone
  {
  }

  /** Call number i put the fill into a position, whether or not it lived to report it. */
  ghost predicate AppliedBy(calls: seq<Request>, run: Run, i: nat, fillId: FillId)
    requires i < |calls| == |run.log| && |run.history| == |calls| + 1
  {
    !calls[i].ending.Unwritten? && AppliedFor(Outcome(calls, run, i).1, fillId)
  }

  /** Being told so means having done so and having ended well. */
  lemma ToldApplied(calls: seq<Request>, run: Run, i: nat, fillId: FillId)
    requires Behaves(calls, run) && i < |calls|
    ensures AppliedFor(run.log[i], fillId) <==> AppliedBy(calls, run, i, fillId) && calls[i].ending.Reported?
    ensures AppliedFor(run.log[i], fillId) ==> run.log[i] == Outcome(calls, run, i).1
  {
    hide Complete, FaultAnswer;
    HowItEnded(calls, run, i);
    FaultsAreRefused(Before(run, i), calls[i].call);
  }

  /** The event such a call wrote, seen from its place in the run. */
  lemma AppliedWrites(calls: seq<Request>, run: Run, i: nat, fillId: FillId) returns (e: Event)
    requires Behaves(calls, run) && i < |calls| && AppliedBy(calls, run, i, fillId)
    ensures Wrote(run.history[i], run.history[i + 1], fillId, Outcome(calls, run, i).1.attempt, e)
  {
    hide PP.ProjectOnceResult;
    HowItEnded(calls, run, i);
    var before, c := Before(run, i), calls[i].call;
    if !c.Project? {
      OthersKeepPositions(before, c);
    }
    e := ProjectWrites(At(before, c.eventView), At(before, c.sourceView), At(before, c.positionView),
                       Last(before), c.fillId, c.positionId, c.eventId, c.pick);
  }

  /** Events are only appended. */
  lemma EventsGrow(calls: seq<Request>, run: Run, i: nat, j: nat)
    requires Behaves(calls, run) && i <= j <= |calls|
    ensures run.history[i].events <= run.history[j].events
    ensures EventsOk(run.history[j])
  {
    RunsAreSound(calls, run);
    assert Extends(run.history[i], run.history[j]);
  }

  /** At most one call ever puts a given fill into a position, and so at most one is told. */
  lemma AppliedAtMostOnce(calls: seq<Request>, run: Run, i: nat, j: nat, fillId: FillId)
    requires Behaves(calls, run) && i < j < |calls|
    requires AppliedBy(calls, run, i, fillId) || AppliedFor(run.log[i], fillId)
    ensures !AppliedBy(calls, run, j, fillId) && !AppliedFor(run.log[j], fillId)
  {
    hide EventsOk, Behaves, AppliedBy;
    Lengths(calls, run);
    ToldApplied(calls, run, i, fillId);
    ToldApplied(calls, run, j, fillId);
    if AppliedBy(calls, run, j, fillId) {
      var e := AppliedWrites(calls, run, i, fillId);
      var f := AppliedWrites(calls, run, j, fillId);
      EventsGrow(calls, run, i + 1, j);
      var h := run.history;
      assert h[i + 1].events[|h[i].events|] == e;
      assert e in h[j].events;
      EventFound(h[j].events, fillId);
    }
  }

  lemma Lengths(calls: seq<Request>, run: Run)
    requires Behaves(calls, run)
    ensures |run.history| == |calls| + 1 && |run.log| == |calls|
  {
  }

  /** What the call that wrote an event answered. */
  ghost predicate Accounts(calls: seq<Request>, run: Run, n: nat, e: Event)
    requires n < |calls| == |run.log| && |run.history| == |calls| + 1
  {
    && AppliedBy(calls, run, n, e.fillId)
    && run.log[n] == ProjectDone(e.fillId, if calls[n].ending.Reported? then PP.Applied(PP.ResultOf(e))
                                           else PP.Failed(PP.PersistenceFailed))
  }

  /** Every event was written by a call that reported it as applied, or that failed on its way
      out with a persistence error. */
  lemma {:induction false} EventHasItsCall(calls: seq<Request>, run: Run, i: nat, e: Event) returns (n: nat)
    requires Behaves(calls, run) && i <= |calls| && e in run.history[i].events
    ensures n < i && Accounts(calls, run, n, e)
  {
    hide Complete, AppliedBy, FaultAnswer;
    if e in run.history[i - 1].events {
      n := EventHasItsCall(calls, run, i - 1, e);
    } else {
      n := i - 1;
      WritesEvent(calls, run, n, e);
    }
  }

  lemma WritesEvent(calls: seq<Request>, run: Run, n: nat, e: Event)
    requires Behaves(calls, run) && n < |calls|
    requires e in run.history[n + 1].events && e !in run.history[n].events
    ensures Accounts(calls, run, n, e)
  {
    hide Complete, FaultAnswer;
    var before, call := Before(run, n), calls[n].call;
    HowItEnded(calls, run, n);
    if !call.Project? {
      OthersKeepPositions(before, call);
    } else if Refused(Outcome(calls, run, n).1) {
      RefusedComplete(before, call);
    }
    ProjectAnswers(before, call);
    FaultsAreRefused(before, call);
    var fillId := call.fillId;
    var written := AppliedWrites(calls, run, n, fillId);
  }

  lemma ProjectAnswers(run: Run, call: Call)
    requires run.history != [] && call.Project?
    ensures Complete(run, call).1.ProjectDone? && Complete(run, call).1.fillId == call.fillId
  {
  }

  /** Every success for a fill reports the one event the final ledger holds for it. */
  lemma SuccessReportsTheEvent(calls: seq<Request>, run: Run, i: nat, fillId: FillId)
    requires Behaves(calls, run) && i < |calls| && Success(run.log[i], fillId)
    ensures var event := FindEventByFill(Last(run).events, fillId);
            event.Some? && run.log[i].attempt.result == PP.ResultOf(event.value)
  {
    hide EventsOk, Complete, AppliedBy;
    var h, response := run.history, run.log[i];
    if response.attempt.Applied? {
      ToldApplied(calls, run, i, fillId);
      var e := AppliedWrites(calls, run, i, fillId);
      EventsGrow(calls, run, i + 1, |calls|);
      FoundStays(h[i + 1].events, e, h[|calls|]);
    } else {
      var v := FoundAt(calls, run, i, fillId);
      EventsGrow(calls, run, v, |calls|);
      EventFound(h[v].events, fillId);
      FoundStays(h[v].events, FindEventByFill(h[v].events, fillId).value, h[|calls|]);
    }
  }

  lemma FoundStays(earlier: seq<Event>, e: Event, db: Ledger)
    requires earlier <= db.events && EventsOk(db) && e in earlier
    ensures FindEventByFill(db.events, e.fillId) == Some(e)
  {
    EventLookup(db.events, e);
  }

  /** An "already applied" answer repeats an event found in some earlier ledger. */
  lemma FoundAt(calls: seq<Request>, run: Run, i: nat, fillId: FillId) returns (v: nat)
    requires Behaves(calls, run) && i < |calls|
    requires Success(run.log[i], fillId) && run.log[i].attempt.AlreadyApplied?
    ensures v <= i
    ensures var event := FindEventByFill(run.history[v].events, fillId);
            event.Some? && run.log[i].attempt == PP.AlreadyApplied(PP.ResultOf(event.value))
  {
    hide PP.LoadSource, PP.PlanProjection;
    HowItEnded(calls, run, i);
    FaultsAreRefused(Before(run, i), calls[i].call);
    var c := calls[i].call;
    v := if c.Project? && c.eventView <= i then c.eventView else i;
  }

  /** All successful calls for one fill return identical fields.  Exactly one of all calls put
      the fill into a position; it was told so exactly when it ended well, and nobody else was. */
  lemma SuccessesAgree(calls: seq<Request>, run: Run, i: nat, j: nat, fillId: FillId) returns (n: nat)
    requires Behaves(calls, run) && i < |calls| && j < |calls|
    requires Success(run.log[i], fillId) && Success(run.log[j], fillId)
    ensures run.log[i].attempt.result == run.log[j].attempt.result
    ensures n < |calls| && AppliedBy(calls, run, n, fillId)
    ensures forall m :: 0 <= m < |calls| && AppliedBy(calls, run, m, fillId) ==> m == n
    ensures forall m :: 0 <= m < |calls| ==>
                          (AppliedFor(run.log[m], fillId) <==> m == n && calls[n].ending.Reported?)
  {
    SuccessReportsTheEvent(calls, run, i, fillId);
    SuccessReportsTheEvent(calls, run, j, fillId);
    var e := FindEventByFill(Last(run).events, fillId).value;
    EventFound(Last(run).events, fillId);
    n := EventHasItsCall(calls, run, |calls|, e);
    hide AppliedBy;
    forall m | 0 <= m < |calls|
      ensures AppliedBy(calls, run, m, fillId) ==> m == n
      ensures AppliedFor(run.log[m], fillId) <==> m == n && calls[n].ending.Reported?
    {
      ToldApplied(calls, run, m, fillId);
      if m < n && AppliedBy(calls, run, m, fillId) {
        AppliedAtMostOnce(calls, run, m, n, fillId);
      } else if n < m {
        AppliedAtMostOnce(calls, run, n, m, fillId);
      }
    }
  }

  /** What a success reports, in terms of the fills behind it: the quantity and average cost
      of the position right after this fill, as the replay of its first events gives them. */
  lemma SuccessIsReplay(calls: seq<Request>, run: Run, i: nat, fillId: FillId)
    requires Behaves(calls, run) && i < |calls| && Success(run.log[i], fillId)
    ensures var db, result := Last(run), run.log[i].attempt.result;
            var events := EventsOf(db.events, result.positionId);
            && result.fillId == fillId && result.positionId in db.positions
            && 0 < result.version <= |events|
            && events[result.version - 1].fillId == fillId
            && (result.kind == OPENED <==> result.version == 1)
            && result.quantity == Sum(Deltas(events)[..result.version])
            && Replay(LotsOf(db.fills, events[..result.version]))
               == Some(Holding(result.quantity, result.averageCost))
  {
    SuccessReportsTheEvent(calls, run, i, fillId);
    RunsAreSound(calls, run);
    var db := Last(run);
    hide Behaves, Sound;
    var e := FindEventByFill(db.events, fillId).value;
    EventFound(db.events, fillId);
    EventIsReplay(db, e);
  }

  lemma EventIsReplay(db: Ledger, e: Event)
    requires Inv(db) && e in db.events
    ensures var events := EventsOf(db.events, e.positionId);
            && e.positionId in db.positions
            && 0 < e.sequence <= |events| && events[e.sequence - 1] == e
            && (e.kind == OPENED <==> e.sequence == 1)
            && e.quantityAfter == Sum(Deltas(events)[..e.sequence])
            && Replay(LotsOf(db.fills, events[..e.sequence])) == Some(Holding(e.quantityAfter, e.averageAfter))
  {
    var p := e.positionId;
    assert PositionOk(db, p);
    hide Inv, PositionOk, Belongs;
    var key, events := db.positions[p].key, EventsOf(db.events, p);
    EventsOfAreRows(db.events, p);
    var k :| 0 <= k < |events| && events[k] == e;
    assert EventOk(db, key, events, k);
    QuantityAfterIsSum(db, key, events, k);
  }
}
