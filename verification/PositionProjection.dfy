/** Projection of one canonical BUY fill into position state. */
module PositionProjection {
  import opened Outcomes
  import opened LedgerTables
  import opened AverageCost
  import opened UnitsOfWork
  import opened Transactions

  datatype ProjectionFailure =
    | FillNotFound
    | SourceInvalid(reason: string)
    | UnsupportedSide
    | InvalidFill(reason: string)
    | Concurrency
    | PositionNotFound
    | PersistenceFailed

  datatype ProjectionResult = ProjectionResult(
    fillId: FillId, positionId: PositionId, eventId: EventId, kind: EventKind, quantity: nat,
    averageCost: Price, version: nat)

  /** `Raced` is a duplicate whose meaning is decided by a later re-read. */
  datatype Attempt =
    | Applied(result: ProjectionResult)
    | AlreadyApplied(result: ProjectionResult)
    | Raced(constraint: Constraint)
    | Failed(failure: ProjectionFailure)

  datatype Source = Source(
    fill: Fill, order: Order, intent: Intent, decision: Decision, snapshot: Snapshot)

  datatype ProjectionWrite =
    | OpenPosition(positionId: PositionId, position: Position, event: Event)
    | IncreasePosition(event: Event, transition: BuyTransition)

  function ResultOf(event: Event): ProjectionResult {
    ProjectionResult(event.fillId, event.positionId, event.id, event.kind, event.quantityAfter,
                     event.averageAfter, event.sequence)
  }

  // ---------------------------------------------------------------------------
  // Reading
  // ---------------------------------------------------------------------------

  function LoadSource(db: Ledger, fillId: FillId): Result<Source, ProjectionFailure> {
    match FindFill(db.fills, fillId)
    case None => Err(FillNotFound)
    case Some(fill) =>
      if fill.orderId !in db.orders then Err(SourceInvalid("paper_order_missing"))
      else
        var order := db.orders[fill.orderId];
        if order.intentId !in db.intents then Err(SourceInvalid("trade_intent_missing"))
        else
          var intent := db.intents[order.intentId];
          if intent.decisionId !in db.decisions then Err(SourceInvalid("strategy_decision_missing"))
          else
            var decision := db.decisions[intent.decisionId];
            if decision.candidateId !in db.candidates then Err(SourceInvalid("candidate_missing"))
            else
              var snapshotId := db.candidates[decision.candidateId].snapshotId;
              if snapshotId !in db.snapshots then Err(SourceInvalid("market_snapshot_missing"))
              else
                var source := Source(fill, order, intent, decision, db.snapshots[snapshotId]);
                match SourceProblem(source)
                case Some(failure) => Err(failure)
                case None => Ok(source)
  }

  /** `validate_projection_source`; its identity checks hold because rows are fetched by key. */
  function SourceProblem(s: Source): Option<ProjectionFailure> {
    if s.intent.side != BUY then Some(UnsupportedSide)
    else if s.fill.quantity <= 0 then Some(InvalidFill("nonpositive_fill"))
    else if s.order.brokerCode != INTERNAL_PAPER
            || (s.order.status != PARTIALLY_FILLED && s.order.status != FILLED)
            || s.order.acceptedAt == None
    then Some(SourceInvalid("order_state_mismatch"))
    else if s.intent.symbol != s.snapshot.symbol
            || s.fill.price != s.snapshot.lastPrice
            || s.fill.fee.currency != s.intent.currency
            || s.fill.fee.amount != 0
            || s.decision.action != ENTER_LONG
            || s.fill.executedAt < s.order.acceptedAt.value
    then Some(SourceInvalid("source_value_mismatch"))
    else None
  }

  function KeyOf(s: Source): PositionKey {
    PositionKey(s.decision.strategyId, s.intent.symbol, s.intent.currency)
  }

  function NewEvent(
    s: Source, eventId: EventId, positionId: PositionId, kind: EventKind, sequence: nat,
    after: Holding, pnlAfter: Money)
    : Event
  {
    Event(eventId, positionId, s.fill.id, sequence, kind, s.fill.quantity, after.quantity,
          after.averageCost, Money(0, s.intent.currency), pnlAfter, s.fill.executedAt)
  }

  function PlanProjection(db: Ledger, s: Source, positionId: PositionId, eventId: EventId)
    : Result<ProjectionWrite, ProjectionFailure>
    requires s.fill.quantity > 0
  {
    match FindOpen(db, KeyOf(s))
    case None =>
      (match BuyPosition(None, s.fill.quantity, s.fill.price)
       case None => Err(InvalidFill("calculation_failed"))
       case Some(held) =>
         var zero := Money(0, s.intent.currency);
         Ok(OpenPosition(
              positionId,
              Position(KeyOf(s), OPEN, held.quantity, held.averageCost, zero, s.fill.executedAt, None,
                       1, s.fill.executedAt),
              NewEvent(s, eventId, positionId, OPENED, 1, held, zero))))
    case Some(id) =>
      var row := db.positions[id];
      if s.fill.executedAt < row.updatedAt then Err(InvalidFill("fill_precedes_position"))
      else
        match BuyPosition(Some(Holding(row.quantity, row.averageCost)), s.fill.quantity, s.fill.price)
        case None => Err(InvalidFill("calculation_failed"))
        case Some(held) =>
          Ok(IncreasePosition(
               NewEvent(s, eventId, id, INCREASED, row.version + 1, held, row.realizedPnl),
               BuyTransition(id, row.version, held.quantity, held.averageCost, s.fill.executedAt)))
  }

  // ---------------------------------------------------------------------------
  // Writing
  // ---------------------------------------------------------------------------

  function WriteFailure(error: DbError): Attempt {
    match error
    case Duplicate(constraint) => Raced(constraint)
    case _ => Failed(PersistenceFailed)
  }

  function ApplyProjection(db: Ledger, write: ProjectionWrite, pick: nat): (Ledger, Attempt) {
    match write
    case OpenPosition(positionId, position, event) =>
      (match AddPosition(db, positionId, position, pick)
       case Err(error) => (db, WriteFailure(error))
       case Ok(withPosition) =>
         match AddEvent(withPosition, event, pick)
         case Err(error) => (db, WriteFailure(error))
         case Ok(done) => (done, Applied(ResultOf(event))))
    case IncreasePosition(event, transition) =>
      match AddEvent(db, event, pick)
      case Err(error) => (db, WriteFailure(error))
      case Ok(added) =>
        match TransitionAfterBuy(added, transition)
        case Err(NotFound) => (db, Failed(PositionNotFound))
        case Err(_) => (db, Failed(Concurrency))
        case Ok(done) => (done, Applied(ResultOf(event)))
  }

  /** What `_project_once` does.  The three reads may each see an older ledger. */
  function ProjectOnceResult(
    eventView: Ledger, sourceView: Ledger, positionView: Ledger, db: Ledger, fillId: FillId,
    positionId: PositionId, eventId: EventId, pick: nat)
    : (Ledger, Attempt)
  {
    match FindEventByFill(eventView.events, fillId)
    case Some(event) => (db, AlreadyApplied(ResultOf(event)))
    case None =>
      match LoadSource(sourceView, fillId)
      case Err(failure) => (db, Failed(failure))
      case Ok(source) =>
        match PlanProjection(positionView, source, positionId, eventId)
        case Err(failure) => (db, Failed(failure))
        case Ok(write) => ApplyProjection(db, write, pick)
  }

  /** A duplicate counts as success only if an event for this very fill is found afterwards. */
  function ResolveDuplicate(db: Ledger, fillId: FillId, constraint: Constraint): Attempt {
    match FindEventByFill(db.events, fillId)
    case Some(event) => AlreadyApplied(ResultOf(event))
    case None =>
      if constraint == OpenPositionKey || constraint == EventPositionSequence then Failed(Concurrency)
      else Failed(PersistenceFailed)
  }

  /** One attempt. */
  method ProjectOnce(
    database: Database<Ledger>, eventView: Ledger, sourceView: Ledger, positionView: Ledger,
    fillId: FillId, positionId: PositionId, eventId: EventId, pick: nat, faults: Faults)
    returns (attempt: Attempt)
    modifies database
    ensures var complete := ProjectOnceResult(eventView, sourceView, positionView, old(database.contents),
                                              fillId, positionId, eventId, pick);
            EndsRight(old(database.contents), database.contents, attempt, complete, complete.1.Applied?,
                      Failed(PersistenceFailed), 2, faults)
  {
    hide LoadSource, PlanProjection, ApplyProjection;
    var u, entered := Begin<Ledger, DbError>(database, faults);
    if !entered {
      return Failed(PersistenceFailed);
    }
    var readable := Read(u, faults);
    if !readable {
      var _ := Abandon(u, false, faults);
      return Failed(PersistenceFailed);
    }
    var existing := FindEventByFill(eventView.events, fillId);
    if existing.Some? {
      var left := Leave(u, false, faults);
      return if left then AlreadyApplied(ResultOf(existing.value)) else Failed(PersistenceFailed);
    }
    var source := LoadSource(sourceView, fillId);
    if source.Err? {
      var _ := Abandon(u, false, faults);
      return Failed(source.error);
    }
    LoadedQuantity(sourceView, fillId);
    var planned := PlanProjection(positionView, source.value, positionId, eventId);
    if planned.Err? {
      var _ := Abandon(u, false, faults);
      return Failed(planned.error);
    }
    attempt := WriteProjection(u, planned.value, pick, faults);
    if !attempt.Applied? {
      RefusedProjection(u.database.contents, planned.value, pick);
      var _ := Abandon(u, false, faults);
      return attempt;
    }
    var finished := Finish(u, faults);
    return if finished then attempt else Failed(PersistenceFailed);
  }

  lemma LoadedQuantity(view: Ledger, fillId: FillId)
    requires LoadSource(view, fillId).Ok?
    ensures LoadSource(view, fillId).value.fill.quantity > 0
  {
  }

  /** Writes that are not applied leave nothing behind. */
  lemma RefusedProjection(db: Ledger, write: ProjectionWrite, pick: nat)
    ensures !ApplyProjection(db, write, pick).1.Applied? ==> ApplyProjection(db, write, pick).0 == db
    ensures !ApplyProjection(db, write, pick).1.AlreadyApplied?
  {
  }

  /** What the writes may answer: what `ApplyProjection` says, or that the driver failed. */
  ghost predicate WriteAnswer(
    before: Ledger, after: Ledger, write: ProjectionWrite, pick: nat, attempt: Attempt, faults: Faults)
  {
    var (done, expected) := ApplyProjection(before, write, pick);
    && (attempt == expected || (attempt == Failed(PersistenceFailed) && faults.write != None))
    && (expected.Applied? ==>
          attempt == if faults.write in {Some(0), Some(1)} then Failed(PersistenceFailed) else expected)
    && (attempt.Applied? ==> after == done)
  }

  method WriteProjection(u: UnitOfWork<Ledger, DbError>, write: ProjectionWrite, pick: nat, faults: Faults)
    returns (attempt: Attempt)
    requires Ready(u)
    modifies u
    ensures Inside(u) && (attempt.Applied? ==> Ready(u))
    ensures WriteAnswer(old(u.staged), u.staged, write, pick, attempt, faults)
  {
    match write {
      case OpenPosition(id, position, event) =>
        attempt := WriteOpening(u, id, position, event, pick, faults);
      case IncreasePosition(event, transition) =>
        attempt := WriteIncrease(u, event, transition, pick, faults);
    }
  }

  method WriteOpening(
    u: UnitOfWork<Ledger, DbError>, id: PositionId, position: Position, event: Event, pick: nat,
    faults: Faults)
    returns (attempt: Attempt)
    requires Ready(u)
    modifies u
    ensures Inside(u) && (attempt.Applied? ==> Ready(u))
    ensures WriteAnswer(old(u.staged), u.staged, OpenPosition(id, position, event), pick, attempt, faults)
  {
    hide AddPosition, AddEvent;
    var first := u.Operate(db => AddPosition(db, id, position, pick), faults.write == Some(0));
    if !first.Returned? {
      return if first.Rejected? then WriteFailure(first.error) else Failed(PersistenceFailed);
    }
    var second := u.Operate(db => AddEvent(db, event, pick), faults.write == Some(1));
    if !second.Returned? {
      return if second.Rejected? then WriteFailure(second.error) else Failed(PersistenceFailed);
    }
    return Applied(ResultOf(event));
  }

  method WriteIncrease(
    u: UnitOfWork<Ledger, DbError>, event: Event, transition: BuyTransition, pick: nat, faults: Faults)
    returns (attempt: Attempt)
    requires Ready(u)
    modifies u
    ensures Inside(u) && (attempt.Applied? ==> Ready(u))
    ensures WriteAnswer(old(u.staged), u.staged, IncreasePosition(event, transition), pick, attempt, faults)
  {
    hide AddEvent, TransitionAfterBuy;
    var first := u.Operate(db => AddEvent(db, event, pick), faults.write == Some(0));
    if !first.Returned? {
      return if first.Rejected? then WriteFailure(first.error) else Failed(PersistenceFailed);
    }
    var second := u.Operate(db => TransitionAfterBuy(db, transition), faults.write == Some(1));
    if !second.Returned? {
      return Failed(if !second.Rejected? then PersistenceFailed
                    else if second.error.NotFound? then PositionNotFound
                    else Concurrency);
    }
    return Applied(ResultOf(event));
  }

  /** The public call: one attempt, and after a duplicate one re-read in a fresh unit of
      work.  `reread` gives the events committed by others in between. */
  method ProjectFill(
    database: Database<Ledger>, eventView: Ledger, sourceView: Ledger, positionView: Ledger,
    reread: Ledger, fillId: FillId, positionId: PositionId, eventId: EventId, pick: nat,
    faults: Faults, rereadFaults: Faults)
    returns (attempt: Attempt)
    modifies database
    ensures var (after, first) :=
              ProjectOnceResult(eventView, sourceView, positionView, old(database.contents), fillId,
                                positionId, eventId, pick);
            var answer := if first.Raced? then ResolveDuplicate(reread, fillId, first.constraint) else first;
            && (first.Applied? ==>
                  (database.contents, attempt)
                  == Ended(EndingOf(faults, 2), old(database.contents), (after, first), Failed(PersistenceFailed)))
            && (!first.Applied? ==>
                  && database.contents == old(database.contents)
                  && (attempt == answer || attempt == Failed(PersistenceFailed)))
            && (faults == rereadFaults == NO_FAULTS ==> database.contents == after && attempt == answer)
  {
    hide ProjectOnceResult;
    attempt := ProjectOnce(database, eventView, sourceView, positionView, fillId, positionId, eventId, pick,
                           faults);
    if attempt.Raced? {
      var constraint := attempt.constraint;
      var u, entered := Begin<Ledger, DbError>(database, rereadFaults);
      if !entered {
        return Failed(PersistenceFailed);
      }
      var readable := Read(u, rereadFaults);
      if !readable {
        var _ := Abandon(u, false, rereadFaults);
        return Failed(PersistenceFailed);
      }
      var left := Leave(u, false, rereadFaults);
      attempt := if left then ResolveDuplicate(reread, fillId, constraint) else Failed(PersistenceFailed);
    }
  }
}
