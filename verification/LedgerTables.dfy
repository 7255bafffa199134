/** The paper-execution tables: rows, unique keys, guarded updates and the queries
    the services use.  Prices are whole numbers of the 18-decimal database unit. */
module LedgerTables {
  import opened Outcomes

  type Time = int
  type Price = p: int | 0 < p witness 1
  type SnapshotId = nat
  type CandidateId = nat
  type DecisionId = nat
  type IntentId = nat
  type OrderId = nat
  type FillId = nat
  type PositionId = nat
  type EventId = nat

  const INTERNAL_PAPER: string := "INTERNAL_PAPER"
  const USD: string := "USD"

  datatype Money = Money(amount: int, currency: string)
  datatype Side = BUY | SELL
  datatype OrderType = MARKET | LIMIT
  datatype TimeInForce = DAY
  datatype Action = ENTER_LONG | SKIP | OBSERVE
  datatype OrderStatus =
    CREATED | ACCEPTED | PARTIALLY_FILLED | FILLED | CANCELLED | REJECTED | EXPIRED
  datatype PositionStatus = OPEN | CLOSED
  datatype EventKind = OPENED | INCREASED

  /** Deterministic keys, kept as injective constructors of what they are derived from. */
  datatype ExecutionKey = ExecutionKey(orderId: OrderId, sequence: nat)
  datatype ClientOrderId = ClientOrderId(intentId: IntentId)
  datatype IntentKey = IntentKey(decisionId: DecisionId, policyVersion: string)
  datatype PositionKey = PositionKey(strategyId: nat, symbol: string, currency: string)

  datatype Snapshot = Snapshot(symbol: string, lastPrice: Price)
  datatype Candidate = Candidate(snapshotId: SnapshotId)
  datatype Decision = Decision(
    candidateId: CandidateId, strategyId: nat, strategyVersion: string, action: Action)
  datatype Intent = Intent(
    decisionId: DecisionId, key: IntentKey, symbol: string, currency: string, side: Side,
    orderType: OrderType, quantity: nat, limitPrice: Option<Price>, timeInForce: TimeInForce,
    createdAt: Time)
  datatype Order = Order(
    intentId: IntentId, clientOrderId: ClientOrderId, brokerCode: string,
    brokerReference: Option<string>, status: OrderStatus, rejectionCode: Option<string>,
    submittedAt: Time, acceptedAt: Option<Time>, closedAt: Option<Time>, version: nat,
    updatedAt: Time)
  datatype Fill = Fill(
    id: FillId, orderId: OrderId, key: ExecutionKey, sequence: nat, quantity: nat, price: Price,
    fee: Money, executedAt: Time)
  datatype Position = Position(
    key: PositionKey, status: PositionStatus, quantity: nat, averageCost: Price,
    realizedPnl: Money, openedAt: Time, closedAt: Option<Time>, version: nat, updatedAt: Time)
  datatype Event = Event(
    id: EventId, positionId: PositionId, fillId: FillId, sequence: nat, kind: EventKind,
    quantityDelta: nat, quantityAfter: nat, averageAfter: Price, pnlDelta: Money, pnlAfter: Money,
    occurredAt: Time)

  /** Fills and events are append-only, so they are kept in insertion order. */
  datatype Ledger = Ledger(
    snapshots: map<SnapshotId, Snapshot>, candidates: map<CandidateId, Candidate>,
    decisions: map<DecisionId, Decision>, intents: map<IntentId, Intent>,
    orders: map<OrderId, Order>, fills: seq<Fill>,
    positions: map<PositionId, Position>, events: seq<Event>)

  const EMPTY: Ledger := Ledger(map[], map[], map[], map[], map[], [], map[], [])

  // ---------------------------------------------------------------------------
  // Unique keys.  When an insert breaks several, `pick` says which one the server names.
  // ---------------------------------------------------------------------------

  datatype Constraint =
    | PrimaryKey
    | IntentDecision
    | IntentIdempotency
    | OrderIntent
    | OrderClientId
    | OrderBrokerReference
    | FillExecutionKey
    | FillOrderSequence
    | OpenPositionKey
    | EventFill
    | EventPositionSequence

  datatype DbError = Duplicate(constraint: Constraint) | ForeignKey | NotFound | Stale

  function Named(condition: bool, constraint: Constraint): seq<Constraint> {
    if condition then [constraint] else []
  }

  function Insert<T>(broken: seq<Constraint>, pick: nat, inserted: T): Result<T, DbError> {
    if broken == [] then Ok(inserted) else Err(Duplicate(broken[pick % |broken|]))
  }

  function AddIntent(db: Ledger, id: IntentId, row: Intent, pick: nat): Result<Ledger, DbError> {
    if row.decisionId !in db.decisions then Err(ForeignKey)
    else
      Insert(
        Named(id in db.intents, PrimaryKey)
        + Named(exists k | k in db.intents :: db.intents[k].decisionId == row.decisionId, IntentDecision)
        + Named(exists k | k in db.intents :: db.intents[k].key == row.key, IntentIdempotency),
        pick, db.(intents := db.intents[id := row]))
  }

  function AddOrder(db: Ledger, id: OrderId, row: Order, pick: nat): Result<Ledger, DbError> {
    if row.intentId !in db.intents then Err(ForeignKey)
    else
      Insert(
        Named(id in db.orders, PrimaryKey)
        + Named(exists k | k in db.orders :: db.orders[k].intentId == row.intentId, OrderIntent)
        + Named(exists k | k in db.orders :: db.orders[k].clientOrderId == row.clientOrderId, OrderClientId)
        + Named(row.brokerReference.Some? && exists k | k in db.orders ::
                  db.orders[k].brokerCode == row.brokerCode
                  && db.orders[k].brokerReference == row.brokerReference, OrderBrokerReference),
        pick, db.(orders := db.orders[id := row]))
  }

  function AddFill(db: Ledger, row: Fill, pick: nat): Result<Ledger, DbError> {
    if row.orderId !in db.orders then Err(ForeignKey)
    else
      Insert(
        Named(exists f | f in db.fills :: f.id == row.id, PrimaryKey)
        + Named(exists f | f in db.fills :: f.key == row.key, FillExecutionKey)
        + Named(exists f | f in db.fills :: f.orderId == row.orderId && f.sequence == row.sequence,
                FillOrderSequence),
        pick, db.(fills := db.fills + [row]))
  }

  function AddPosition(db: Ledger, id: PositionId, row: Position, pick: nat): Result<Ledger, DbError> {
    Insert(
      Named(id in db.positions, PrimaryKey)
      + Named(row.status == OPEN && OpenIds(db, row.key) != {}, OpenPositionKey),
      pick, db.(positions := db.positions[id := row]))
  }

  function AddEvent(db: Ledger, row: Event, pick: nat): Result<Ledger, DbError> {
    if row.positionId !in db.positions || FindFill(db.fills, row.fillId) == None then Err(ForeignKey)
    else
      Insert(
        Named(exists e | e in db.events :: e.id == row.id, PrimaryKey)
        + Named(exists e | e in db.events :: e.fillId == row.fillId, EventFill)
        + Named(exists e | e in db.events ::
                  e.positionId == row.positionId && e.sequence == row.sequence, EventPositionSequence),
        pick, db.(events := db.events + [row]))
  }

  // ---------------------------------------------------------------------------
  // Guarded updates
  // ---------------------------------------------------------------------------

  datatype OrderTransition = OrderTransition(
    orderId: OrderId, expectedStatus: OrderStatus, expectedVersion: nat, newStatus: OrderStatus,
    closedAt: Option<Time>, updatedAt: Time)

  function TransitionAfterFill(db: Ledger, t: OrderTransition): Result<Ledger, DbError> {
    if t.orderId !in db.orders then Err(NotFound)
    else
      var row := db.orders[t.orderId];
      if row.status != t.expectedStatus || row.version != t.expectedVersion then Err(Stale)
      else
        Ok(db.(orders := db.orders[t.orderId :=
          row.(status := t.newStatus, closedAt := t.closedAt, updatedAt := t.updatedAt,
               version := t.expectedVersion + 1)]))
  }

  datatype BuyTransition = BuyTransition(
    positionId: PositionId, expectedVersion: nat, quantity: nat, averageCost: Price, updatedAt: Time)

  function TransitionAfterBuy(db: Ledger, t: BuyTransition): Result<Ledger, DbError> {
    if t.positionId !in db.positions then Err(NotFound)
    else
      var row := db.positions[t.positionId];
      if row.status != OPEN || row.version != t.expectedVersion then Err(Stale)
      else
        Ok(db.(positions := db.positions[t.positionId :=
          row.(quantity := t.quantity, averageCost := t.averageCost, updatedAt := t.updatedAt,
               version := t.expectedVersion + 1)]))
  }

  // ---------------------------------------------------------------------------
  // Queries
  // ---------------------------------------------------------------------------

  function FindFill(fills: seq<Fill>, id: FillId): Option<Fill> {
    if fills == [] then None
    else if fills[|fills| - 1].id == id then Some(fills[|fills| - 1])
    else FindFill(fills[..|fills| - 1], id)
  }

  function FindEventByFill(events: seq<Event>, fillId: FillId): Option<Event> {
    if events == [] then None
    else if events[|events| - 1].fillId == fillId then Some(events[|events| - 1])
    else FindEventByFill(events[..|events| - 1], fillId)
  }

  function FindEventAt(events: seq<Event>, positionId: PositionId, sequence: nat): Option<Event> {
    if events == [] then None
    else
      var last := events[|events| - 1];
      if last.positionId == positionId && last.sequence == sequence then Some(last)
      else FindEventAt(events[..|events| - 1], positionId, sequence)
  }

  /** `list_by_order` in insertion order; `LedgerRuns.ListingIsOrdered` shows that in
      every reachable ledger this is also the order of `fill_sequence`. */
  function FillsOf(fills: seq<Fill>, orderId: OrderId): seq<Fill> {
    if fills == [] then []
    else
      var last := fills[|fills| - 1];
      FillsOf(fills[..|fills| - 1], orderId) + (if last.orderId == orderId then [last] else [])
  }

  function EventsOf(events: seq<Event>, positionId: PositionId): seq<Event> {
    if events == [] then []
    else
      var last := events[|events| - 1];
      EventsOf(events[..|events| - 1], positionId)
      + (if last.positionId == positionId then [last] else [])
  }

  function OpenIds(db: Ledger, key: PositionKey): set<PositionId> {
    set id | id in db.positions && db.positions[id].status == OPEN && db.positions[id].key == key
  }

  function FindOpen(db: Ledger, key: PositionKey): Option<PositionId> {
    if OpenIds(db, key) == {} then None else Some(Least(OpenIds(db, key)))
  }

  function Least(ids: set<nat>): (least: nat)
    requires ids != {}
    ensures least in ids && forall id | id in ids :: least <= id
  {
    assert exists least :: least in ids && forall id | id in ids :: least <= id by {
      var least := LeastExists(ids);
    }
    var least :| least in ids && forall id | id in ids :: least <= id;
    least
  }

  lemma LeastExists(ids: set<nat>) returns (least: nat)
    requires ids != {}
    ensures least in ids && forall id | id in ids :: least <= id
    decreases |ids|
  {
    least :| least in ids;
    var rest := ids - {least};
    if rest != {} {
      var other := LeastExists(rest);
      forall id | id in ids
        ensures id == least || other <= id
      {
        assert id == least || id in rest;
      }
      least := if least < other then least else other;
    } else {
      assert ids == {least};
    }
  }

  // ---------------------------------------------------------------------------
  // What appending a row does to each query
  // ---------------------------------------------------------------------------

  lemma AppendFill(fills: seq<Fill>, row: Fill)
    ensures forall o :: FillsOf(fills + [row], o) ==
                        FillsOf(fills, o) + (if row.orderId == o then [row] else [])
    ensures forall id :: FindFill(fills + [row], id) ==
                         if row.id == id then Some(row) else FindFill(fills, id)
  {
  }

  lemma AppendEvent(events: seq<Event>, row: Event)
    ensures forall p :: EventsOf(events + [row], p) ==
                        EventsOf(events, p) + (if row.positionId == p then [row] else [])
    ensures forall id :: FindEventByFill(events + [row], id) ==
                         if row.fillId == id then Some(row) else FindEventByFill(events, id)
    ensures forall p, s :: FindEventAt(events + [row], p, s) ==
                           if row.positionId == p && row.sequence == s then Some(row)
                           else FindEventAt(events, p, s)
  {
  }

  lemma {:induction fills} FillFound(fills: seq<Fill>, id: FillId)
    ensures FindFill(fills, id).Some? ==>
              FindFill(fills, id).value in fills && FindFill(fills, id).value.id == id
    ensures FindFill(fills, id).None? <==> forall f | f in fills :: f.id != id
  {
  }

  lemma {:induction events} EventFound(events: seq<Event>, fillId: FillId)
    ensures FindEventByFill(events, fillId).Some? ==>
              FindEventByFill(events, fillId).value in events
              && FindEventByFill(events, fillId).value.fillId == fillId
    ensures FindEventByFill(events, fillId).None? <==> forall e | e in events :: e.fillId != fillId
  {
  }

  lemma {:induction fills} FillsOfAreRows(fills: seq<Fill>, o: OrderId)
    ensures forall f :: f in FillsOf(fills, o) <==> f in fills && f.orderId == o
  {
  }

  lemma {:induction events} EventsOfAreRows(events: seq<Event>, p: PositionId)
    ensures forall e :: e in EventsOf(events, p) <==> e in events && e.positionId == p
  {
  }
}
