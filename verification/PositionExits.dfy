/** What an exit evaluation reads about an open position, and why those checks never fail. */
module PositionExits {
  import opened Outcomes
  import opened LedgerTables
  import opened LedgerInvariant
  import opened LedgerSteps
  import opened LedgerRuns

  datatype ExitFailure = PositionMissing | SnapshotMissing | BadSource(reason: string) | UnsupportedCurrency

  /** The market snapshot an exit is evaluated against. */
  datatype Quote = Quote(symbol: string, observedAt: Time)

  /** The strategy versions with an exit policy, and the parts of that policy used here. */
  datatype ExitPolicy = ExitPolicy(
    supported: set<(nat, string)>, currency: string, maximumAge: nat, clockTolerance: nat)

  datatype ExitSource = ExitSource(
    position: Position, event: Event, fill: Fill, intent: Intent, decision: Decision, quote: Quote)

  /** The position row is read first; every other row may be read later. */
  function LoadExitSource(
    first: Ledger, later: Ledger, p: PositionId, quote: Option<Quote>, policy: ExitPolicy, now: Time)
    : Result<ExitSource, ExitFailure>
  {
    if p !in first.positions then Err(PositionMissing)
    else if quote.None? then Err(SnapshotMissing)
    else
      var position := first.positions[p];
      match FindEventAt(later.events, p, position.version)
      case None => Err(BadSource("position_event_missing"))
      case Some(event) =>
        match FindFill(later.fills, event.fillId)
        case None => Err(BadSource("paper_fill_missing"))
        case Some(fill) =>
          if fill.orderId !in later.orders then Err(BadSource("paper_order_missing"))
          else if later.orders[fill.orderId].intentId !in later.intents
          then Err(BadSource("trade_intent_missing"))
          else
            var intent := later.intents[later.orders[fill.orderId].intentId];
            if intent.decisionId !in later.decisions then Err(BadSource("entry_decision_missing"))
            else
              var decision := later.decisions[intent.decisionId];
              var source := ExitSource(position, event, fill, intent, decision, quote.value);
              if (decision.strategyId, decision.strategyVersion) !in policy.supported
              then Err(BadSource("unsupported_strategy_version"))
              else
                match ExitProblem(p, source, policy, now)
                case Some(failure) => Err(failure)
                case None => Ok(source)
  }

  function ExitProblem(p: PositionId, s: ExitSource, policy: ExitPolicy, now: Time): Option<ExitFailure> {
    if s.position.status != OPEN || s.position.quantity <= 0 || s.position.closedAt != None
       || s.position.version <= 0
    then Some(BadSource("position_not_open"))
    else if s.event.positionId != p || s.event.sequence != s.position.version
            || s.event.quantityAfter != s.position.quantity
            || s.event.averageAfter != s.position.averageCost
            || s.event.pnlAfter != s.position.realizedPnl
            || s.event.occurredAt > s.position.updatedAt
            || (s.event.kind != OPENED && s.event.kind != INCREASED)
    then Some(BadSource("position_event_mismatch"))
    else if s.event.fillId != s.fill.id || s.event.occurredAt != s.fill.executedAt
    then Some(BadSource("source_identity_mismatch"))
    else if s.decision.action != ENTER_LONG
            || s.decision.strategyId != s.position.key.strategyId
            || s.intent.symbol != s.position.key.symbol
            || s.intent.currency != s.position.key.currency
    then Some(BadSource("strategy_source_mismatch"))
    else QuoteProblem(s.position, s.event, s.quote, policy, now)
  }

  /** The checks that concern the quote and the policy rather than the ledger. */
  function QuoteProblem(position: Position, event: Event, quote: Quote, policy: ExitPolicy, now: Time)
    : Option<ExitFailure>
  {
    if position.key.currency != policy.currency then Some(UnsupportedCurrency)
    else if quote.symbol != position.key.symbol then Some(BadSource("symbol_mismatch"))
    else if quote.observedAt < position.updatedAt || quote.observedAt < event.occurredAt
    then Some(BadSource("snapshot_precedes_position"))
    else if quote.observedAt > now + policy.clockTolerance then Some(BadSource("snapshot_too_far_in_future"))
    else if now - quote.observedAt > policy.maximumAge then Some(BadSource("snapshot_stale"))
    else None
  }

  // ---------------------------------------------------------------------------

  lemma {:induction false} EventAtFound(events: seq<Event>, p: PositionId, s: nat)
    ensures FindEventAt(events, p, s).Some? ==>
              && FindEventAt(events, p, s).value in events
              && FindEventAt(events, p, s).value.positionId == p
              && FindEventAt(events, p, s).value.sequence == s
    ensures FindEventAt(events, p, s).None? ==>
              forall e :: e in events ==> !(e.positionId == p && e.sequence == s)
  {
    if events != [] {
      EventAtFound(events[..|events| - 1], p, s);
      assert forall e :: e in events ==> e in events[..|events| - 1] || e == events[|events| - 1];
    }
  }

  /** A position has one event per sequence number. */
  lemma SequenceIsUnique(db: Ledger, p: PositionId, e: Event, f: Event)
    requires Inv(db) && e in db.events && f in db.events
    requires e.positionId == p && f.positionId == p && e.sequence == f.sequence
    ensures e == f
  {
    EventsOfAreRows(db.events, p);
    var events := EventsOf(db.events, p);
    assert p in db.positions && PositionOk(db, p);
    hide Inv, PositionOk;
    var i :| 0 <= i < |events| && events[i] == e;
    var j :| 0 <= j < |events| && events[j] == f;
    assert EventOk(db, db.positions[p].key, events, i) && EventOk(db, db.positions[p].key, events, j);
  }

  /** The newest event of a position, with everything its row says about it. */
  lemma NewestEvent(db: Ledger, p: PositionId) returns (e: Event)
    requires Inv(db) && p in db.positions
    ensures e in db.events && e.positionId == p
    ensures var row := db.positions[p];
            && row.status == OPEN && row.closedAt == None
            && row.version > 0 && row.quantity > 0
            && e.sequence == row.version
            && e.quantityAfter == row.quantity && e.averageAfter == row.averageCost
            && e.pnlAfter == row.realizedPnl && e.occurredAt == row.updatedAt
            && FindFill(db.fills, e.fillId).Some?
            && FindFill(db.fills, e.fillId).value.executedAt == e.occurredAt
            && Belongs(db, FindFill(db.fills, e.fillId).value, row.key)
  {
    EventsOfAreRows(db.events, p);
    assert PositionOk(db, p);
    var events := EventsOf(db.events, p);
    e := events[|events| - 1];
    assert EventOk(db, db.positions[p].key, events, |events| - 1);
    assert e in events;
    PositiveQuantity(LotsOf(db.fills, events[..|events|]));
  }

  lemma PositiveQuantity(lots: seq<Fill>)
    requires Replay(lots).Some?
    ensures Replay(lots).value.quantity > 0
  {
  }

  lemma EntryDecision(db: Ledger, f: Fill, key: PositionKey)
    requires Inv(db) && Belongs(db, f, key)
    ensures var intent := db.intents[db.orders[f.orderId].intentId];
            db.decisions[intent.decisionId].action == ENTER_LONG
  {
  }

  /** Rely/guarantee: for every position read in any run, however much later the other rows
      are read, only the exit policy and the quote decide whether the evaluation goes on. */
  lemma OnlyTheQuoteDecides(
    calls: seq<Request>, run: Run, i: nat, j: nat, p: PositionId, quote: Quote, policy: ExitPolicy, now: Time)
    returns (event: Event, decision: Decision)
    requires Behaves(calls, run) && i <= j <= |calls| && p in run.history[i].positions
    ensures event in run.history[i].events && event.positionId == p
    ensures event.occurredAt == run.history[i].positions[p].updatedAt
    ensures decision.strategyId == run.history[i].positions[p].key.strategyId
    ensures var verdict := LoadExitSource(run.history[i], run.history[j], p, Some(quote), policy, now);
            var row := run.history[i].positions[p];
            && event.sequence == row.version
            && if (decision.strategyId, decision.strategyVersion) !in policy.supported
               then verdict == Err(BadSource("unsupported_strategy_version"))
               else match QuoteProblem(row, event, quote, policy, now)
                    case Some(failure) => verdict == Err(failure)
                    case None => verdict.Ok? && verdict.value.position == row && verdict.value.event == event
                                 && verdict.value.decision == decision && verdict.value.quote == quote
  {
    hide Inv;
    RunsAreSound(calls, run);
    var a, b := run.history[i], run.history[j];
    assert Extends(a, b);
    event := NewestEvent(a, p);
    decision := ExitReads(a, b, p, event);
  }

  lemma ExitReads(a: Ledger, b: Ledger, p: PositionId, event: Event) returns (decision: Decision)
    requires Inv(b) && Extends(a, b) && p in a.positions
    requires event in a.events && event.positionId == p && event.sequence == a.positions[p].version
    requires FindFill(a.fills, event.fillId).Some?
    requires Belongs(a, FindFill(a.fills, event.fillId).value, a.positions[p].key)
    ensures FindEventAt(b.events, p, a.positions[p].version) == Some(event)
    ensures FindFill(b.fills, event.fillId) == FindFill(a.fills, event.fillId)
    ensures FindFill(b.fills, event.fillId).value.id == event.fillId
    ensures var f := FindFill(b.fills, event.fillId).value;
            && Belongs(b, f, a.positions[p].key)
            && decision == b.decisions[b.intents[b.orders[f.orderId].intentId].decisionId]
            && decision.action == ENTER_LONG
  {
    EventAtFound(b.events, p, event.sequence);
    assert event in b.events;
    SequenceIsUnique(b, p, event, FindEventAt(b.events, p, event.sequence).value);
    FillStays(a, b, event.fillId);
    FillFound(a.fills, event.fillId);
    var f := FindFill(b.fills, event.fillId).value;
    BelongsStays(a, b, f, a.positions[p].key);
    EntryDecision(b, f, a.positions[p].key);
    decision := b.decisions[b.intents[b.orders[f.orderId].intentId].decisionId];
  }

  /** The quote is of the position's symbol, not older than the position or than the policy
      allows, and not further ahead of the clock than the policy tolerates. */
  predicate UsableQuote(row: Position, quote: Quote, policy: ExitPolicy, now: Time) {
    && quote.symbol == row.key.symbol
    && row.updatedAt <= quote.observedAt
    && now - policy.maximumAge <= quote.observedAt <= now + policy.clockTolerance
  }

  /** Over any run an open position can be evaluated exactly when its strategy version has an
      exit policy in its currency and the quote is usable; and a refusal says which of these
      is missing. */
  lemma EvaluatedIff(
    calls: seq<Request>, run: Run, i: nat, j: nat, p: PositionId, quote: Quote, policy: ExitPolicy, now: Time)
    returns (decision: Decision)
    requires Behaves(calls, run) && i <= j <= |calls| && p in run.history[i].positions
    ensures decision.strategyId == run.history[i].positions[p].key.strategyId
    ensures var verdict := LoadExitSource(run.history[i], run.history[j], p, Some(quote), policy, now);
            var row := run.history[i].positions[p];
            var served := (decision.strategyId, decision.strategyVersion) in policy.supported;
            && (verdict.Ok? <==>
                  served && row.key.currency == policy.currency && UsableQuote(row, quote, policy, now))
            && (verdict.Ok? ==>
                  && verdict.value.position == row && verdict.value.quote == quote
                  && verdict.value.decision == decision)
            && (verdict == Err(BadSource("unsupported_strategy_version")) <==> !served)
            && (verdict == Err(UnsupportedCurrency) <==> served && row.key.currency != policy.currency)
            && (verdict == Err(BadSource("symbol_mismatch")) ==> quote.symbol != row.key.symbol)
            && (verdict == Err(BadSource("snapshot_precedes_position")) ==> quote.observedAt < row.updatedAt)
            && (verdict == Err(BadSource("snapshot_too_far_in_future")) ==>
                  quote.observedAt > now + policy.clockTolerance)
            && (verdict == Err(BadSource("snapshot_stale")) ==> quote.observedAt < now - policy.maximumAge)
  {
    hide LoadExitSource, Behaves;
    var event;
    event, decision := OnlyTheQuoteDecides(calls, run, i, j, p, quote, policy, now);
  }
}
