/** Which rows the services need before they act, over arbitrary ledgers: when a source chain is
    accepted, and what each refusal says is missing or wrong. */
module SourceChains {
  import opened Outcomes
  import opened LedgerTables
  import PF = PaperFills
  import PP = PositionProjection
  import opened PositionExits

  predicate HasDecision(db: Ledger, id: IntentId) {
    id in db.intents && db.intents[id].decisionId in db.decisions
  }

  predicate HasCandidate(db: Ledger, id: IntentId) {
    HasDecision(db, id) && db.decisions[db.intents[id].decisionId].candidateId in db.candidates
  }

  predicate HasSnapshot(db: Ledger, id: IntentId) {
    && HasCandidate(db, id)
    && db.candidates[db.decisions[db.intents[id].decisionId].candidateId].snapshotId in db.snapshots
  }

  /** The snapshot at whose price the intent is filled. */
  function SnapshotOf(db: Ledger, id: IntentId): Snapshot
    requires HasSnapshot(db, id)
  {
    db.snapshots[db.candidates[db.decisions[db.intents[id].decisionId].candidateId].snapshotId]
  }

  /** A whole number of at least one, bought at the market for the day, in dollars. */
  predicate MarketBuy(intent: Intent) {
    && intent.currency == USD && intent.side == BUY && intent.orderType == MARKET
    && intent.limitPrice == None && intent.timeInForce == DAY && intent.quantity > 0
  }

  /** Nothing is filled yet, or the first of two planned chunks. */
  ghost predicate Begun(order: Order, o: OrderId, intent: Intent, price: Price, fills: seq<Fill>)
    requires order.acceptedAt.Some? && intent.quantity > 0
  {
    if order.status == ACCEPTED then fills == []
    else
      && order.status == PARTIALLY_FILLED && |fills| == 1 && intent.quantity > 1
      && PF.PlannedEntry(o, order.acceptedAt.value, PF.SplitPlan(intent.quantity), price, intent.currency, 0, fills[0])
  }

  /** What a refused fill lacks: the answer names the first thing that is missing. */
  ghost predicate FillLacks(first: Ledger, later: Ledger, o: OrderId, r: Result<PF.FillWrite, PF.FillFailure>)
    requires o in first.orders
  {
    var order := first.orders[o];
    var served := order.brokerCode == INTERNAL_PAPER && order.status in {ACCEPTED, PARTIALLY_FILLED};
    && (r == Err(PF.UnsupportedBroker) <==> order.brokerCode != INTERNAL_PAPER)
    && (r == Err(PF.NotFillable) <==> order.brokerCode == INTERNAL_PAPER && !served)
    && (r == Err(PF.SourceInvalid("trade_intent_missing")) <==> served && order.intentId !in later.intents)
    && (r == Err(PF.SourceInvalid("strategy_decision_missing"))
        <==> served && order.intentId in later.intents && !HasDecision(later, order.intentId))
    && (r == Err(PF.SourceInvalid("candidate_missing"))
        <==> served && HasDecision(later, order.intentId) && !HasCandidate(later, order.intentId))
    && (r == Err(PF.SourceInvalid("market_snapshot_missing"))
        <==> served && HasCandidate(later, order.intentId) && !HasSnapshot(later, order.intentId))
    && (served && HasSnapshot(later, order.intentId) ==>
          var intent, snapshot := later.intents[order.intentId], SnapshotOf(later, order.intentId);
          && (r == Err(PF.SourceInvalid("symbol_mismatch")) <==> intent.symbol != snapshot.symbol)
          && (r == Err(PF.SourceInvalid("accepted_request_shape_mismatch"))
              <==> intent.symbol == snapshot.symbol && !MarketBuy(intent)))
  }

  lemma FillRefusals(first: Ledger, later: Ledger, o: OrderId, now: Time, fillId: FillId)
    requires o in first.orders
    ensures FillLacks(first, later, o, PF.PlanFill(first, later, o, now, fillId))
  {
    hide PF.HistoryVerdict, PF.SplitPlan;
  }

  /** When the next fill of an order is planned, from whatever rows there are, and what a
      refusal says. */
  lemma FillPlannedIff(first: Ledger, later: Ledger, o: OrderId, now: Time, fillId: FillId)
    requires o in first.orders
    ensures var order := first.orders[o];
            PF.PlanFill(first, later, o, now, fillId).Ok?
            <==> && order.brokerCode == INTERNAL_PAPER && HasSnapshot(later, order.intentId)
                 && var intent, snapshot := later.intents[order.intentId], SnapshotOf(later, order.intentId);
                 && intent.symbol == snapshot.symbol && MarketBuy(intent) && order.acceptedAt.Some?
                 && Begun(order, o, intent, snapshot.lastPrice, FillsOf(later.fills, o))
                 && order.updatedAt <= now
    ensures FillLacks(first, later, o, PF.PlanFill(first, later, o, now, fillId))
  {
    FillRefusals(first, later, o, now, fillId);
    hide FillLacks;
    var order, fills := first.orders[o], FillsOf(later.fills, o);
    if HasSnapshot(later, order.intentId) && MarketBuy(later.intents[order.intentId]) && order.acceptedAt.Some? {
      var intent, snapshot := later.intents[order.intentId], SnapshotOf(later, order.intentId);
      PF.HistoryAcceptedIff(o, order.status, order.acceptedAt.value, intent.quantity, snapshot.lastPrice,
                            intent.currency, fills);
      hide PF.HistoryVerdict, PF.PlannedEntry;
      var verdict := PF.HistoryVerdict(o, order.status, order.acceptedAt.value, PF.SplitPlan(intent.quantity),
                                       snapshot.lastPrice, intent.currency, fills);
      if verdict.Ok? {
        PF.AcceptedHistoryLeavesWork(o, order.status, order.acceptedAt.value, intent.quantity,
                                     snapshot.lastPrice, intent.currency, fills);
      }
    }
  }

  /** No two fills have one identifier, and no two events of a position one number. */
  ghost predicate Keyed(db: Ledger) {
    && (forall f, g :: f in db.fills && g in db.fills && f.id == g.id ==> f == g)
    && forall d, e :: d in db.events && e in db.events && d.positionId == e.positionId && d.sequence == e.sequence ==>
                        d == e
  }

  /** The fill has its order and the whole chain behind it. */
  predicate Chained(db: Ledger, f: Fill) {
    f.orderId in db.orders && HasSnapshot(db, db.orders[f.orderId].intentId)
  }

  /** When a stored fill is accepted for projection, and with which rows. */
  lemma ProjectedFrom(db: Ledger, f: Fill)
    requires Keyed(db) && f in db.fills
    ensures var r := PP.LoadSource(db, f.id);
            && (r.Ok? <==>
                  && Chained(db, f) && f.quantity > 0
                  && var order := db.orders[f.orderId];
                  && var intent, snapshot := db.intents[order.intentId], SnapshotOf(db, order.intentId);
                  && order.brokerCode == INTERNAL_PAPER && order.status in {PARTIALLY_FILLED, FILLED}
                  && order.acceptedAt.Some? && order.acceptedAt.value <= f.executedAt
                  && intent.side == BUY && intent.symbol == snapshot.symbol
                  && db.decisions[intent.decisionId].action == ENTER_LONG
                  && f.price == snapshot.lastPrice && f.fee == Money(0, intent.currency))
            && (r.Ok? ==>
                  && r.value.fill == f && r.value.order == db.orders[f.orderId]
                  && r.value.intent == db.intents[r.value.order.intentId]
                  && r.value.decision == db.decisions[r.value.intent.decisionId]
                  && r.value.snapshot == SnapshotOf(db, r.value.order.intentId))
  {
    FillFound(db.fills, f.id);
  }

  /** What a fill that is refused for projection lacks. */
  lemma ProjectionLacks(db: Ledger, f: Fill)
    requires Keyed(db) && f in db.fills
    ensures var r, known := PP.LoadSource(db, f.id), f.orderId in db.orders;
            && (r == Err(PP.SourceInvalid("paper_order_missing")) <==> !known)
            && (known ==>
                  var id := db.orders[f.orderId].intentId;
                  && (r == Err(PP.SourceInvalid("trade_intent_missing")) <==> id !in db.intents)
                  && (r == Err(PP.SourceInvalid("strategy_decision_missing"))
                      <==> id in db.intents && !HasDecision(db, id))
                  && (r == Err(PP.SourceInvalid("candidate_missing")) <==> HasDecision(db, id) && !HasCandidate(db, id))
                  && (r == Err(PP.SourceInvalid("market_snapshot_missing"))
                      <==> HasCandidate(db, id) && !HasSnapshot(db, id)))
            && (Chained(db, f) ==>
                  var order := db.orders[f.orderId];
                  var buy := db.intents[order.intentId].side == BUY;
                  var filled := order.brokerCode == INTERNAL_PAPER && order.status in {PARTIALLY_FILLED, FILLED}
                                && order.acceptedAt.Some?;
                  && (r == Err(PP.UnsupportedSide) <==> !buy)
                  && (r == Err(PP.InvalidFill("nonpositive_fill")) <==> buy && f.quantity == 0)
                  && (r == Err(PP.SourceInvalid("order_state_mismatch")) <==> buy && f.quantity > 0 && !filled)
                  && (r == Err(PP.SourceInvalid("source_value_mismatch"))
                      <==> buy && f.quantity > 0 && filled && r.Err?))
  {
    FillFound(db.fills, f.id);
  }

  /** The position is open and is what its event, the fill of that event, and the decision
      behind it left. */
  predicate Consistent(p: PositionId, row: Position, event: Event, fill: Fill, intent: Intent, decision: Decision) {
    && row.status == OPEN && row.quantity > 0 && row.closedAt == None && row.version > 0
    && event.positionId == p && event.sequence == row.version
    && (event.quantityAfter, event.averageAfter, event.pnlAfter) == (row.quantity, row.averageCost, row.realizedPnl)
    && event.occurredAt <= row.updatedAt && event.kind in {OPENED, INCREASED}
    && event.fillId == fill.id && event.occurredAt == fill.executedAt
    && decision.action == ENTER_LONG && decision.strategyId == row.key.strategyId
    && intent.symbol == row.key.symbol && intent.currency == row.key.currency
  }

  /** The event is the one that left the position as it was read, and the fill is the event's. */
  predicate LeftBy(db: Ledger, p: PositionId, row: Position, event: Event, fill: Fill) {
    && event in db.events && event.positionId == p && event.sequence == row.version
    && fill in db.fills && fill.id == event.fillId
  }

  lemma LeftByIsFound(db: Ledger, p: PositionId, row: Position, event: Event, fill: Fill)
    requires Keyed(db) && LeftBy(db, p, row, event, fill)
    ensures FindEventAt(db.events, p, row.version) == Some(event)
    ensures FindFill(db.fills, event.fillId) == Some(fill)
  {
    EventAtFound(db.events, p, row.version);
    FillFound(db.fills, event.fillId);
  }

  /** When the exit of a position can be evaluated, from whatever rows there are. */
  lemma ExitSourceIff(
    first: Ledger, later: Ledger, p: PositionId, quote: Quote, policy: ExitPolicy, now: Time, event: Event,
    fill: Fill)
    requires Keyed(later) && p in first.positions && LeftBy(later, p, first.positions[p], event, fill)
    requires fill.orderId in later.orders && HasDecision(later, later.orders[fill.orderId].intentId)
    ensures var row, intent := first.positions[p], later.intents[later.orders[fill.orderId].intentId];
            var decision := later.decisions[intent.decisionId];
            LoadExitSource(first, later, p, Some(quote), policy, now).Ok?
            <==> && (decision.strategyId, decision.strategyVersion) in policy.supported
                 && Consistent(p, row, event, fill, intent, decision)
                 && row.key.currency == policy.currency && UsableQuote(row, quote, policy, now)
  {
    LeftByIsFound(later, p, first.positions[p], event, fill);
  }

  /** The failure says that a row is missing. */
  predicate SaysMissing(failure: ExitFailure) {
    || failure.PositionMissing?
    || failure.SnapshotMissing?
    || failure in {BadSource("position_event_missing"), BadSource("paper_fill_missing"),
                   BadSource("paper_order_missing"), BadSource("trade_intent_missing"),
                   BadSource("entry_decision_missing")}
  }

  lemma ProblemIsNoMissingRow(p: PositionId, source: ExitSource, policy: ExitPolicy, now: Time)
    ensures var problem := ExitProblem(p, source, policy, now);
            problem.Some? ==> !SaysMissing(problem.value)
  {
  }

  /** Which row an evaluation lacks, in the order of the reads. */
  lemma ExitLacks(
    first: Ledger, later: Ledger, p: PositionId, quote: Option<Quote>, policy: ExitPolicy, now: Time)
    requires Keyed(later)
    ensures var r := LoadExitSource(first, later, p, quote, policy, now);
            && (r == Err(PositionMissing) <==> p !in first.positions)
            && (r == Err(SnapshotMissing) <==> p in first.positions && quote == None)
            && (p in first.positions && quote.Some? ==>
                  var row := first.positions[p];
                  && (r == Err(BadSource("position_event_missing"))
                      <==> forall e :: e in later.events ==> e.positionId != p || e.sequence != row.version)
                  && (forall e :: e in later.events && e.positionId == p && e.sequence == row.version ==>
                        (r == Err(BadSource("paper_fill_missing"))
                         <==> forall f :: f in later.fills ==> f.id != e.fillId))
                  && forall e, f :: LeftBy(later, p, row, e, f) ==>
                       && (r == Err(BadSource("paper_order_missing")) <==> f.orderId !in later.orders)
                       && (f.orderId in later.orders ==>
                             var id := later.orders[f.orderId].intentId;
                             && (r == Err(BadSource("trade_intent_missing")) <==> id !in later.intents)
                             && (r == Err(BadSource("entry_decision_missing"))
                                 <==> id in later.intents && !HasDecision(later, id))))
  {
    hide ExitProblem;
    forall source {
      ProblemIsNoMissingRow(p, source, policy, now);
    }
    if p in first.positions && quote.Some? {
      var row := first.positions[p];
      EventAtFound(later.events, p, row.version);
      var found := FindEventAt(later.events, p, row.version);
      if found.Some? {
        FillFound(later.fills, found.value.fillId);
      }
      forall e, f | LeftBy(later, p, row, e, f)
        ensures FindEventAt(later.events, p, row.version) == Some(e) && FindFill(later.fills, e.fillId) == Some(f)
      {
        LeftByIsFound(later, p, row, e, f);
      }
    }
  }
}
