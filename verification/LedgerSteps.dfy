/** Every service keeps the ledger invariant and only extends the ledger, however old
    the ledgers its reads saw. */
module LedgerSteps {
  import opened Outcomes
  import opened LedgerTables
  import opened AverageCost
  import opened PaperFills
  import opened LedgerInvariant
  import TI = TradeIntents
  import PO = PaperOrders
  import PP = PositionProjection

  /** Rows written by the parts of the system outside this model: immutable once stored. */
  datatype Reference =
    | SnapshotRow(snapshotId: SnapshotId, snapshot: Snapshot)
    | CandidateRow(candidateId: CandidateId, candidate: Candidate)
    | DecisionRow(decisionId: DecisionId, decision: Decision)

  function AddReference(db: Ledger, row: Reference): Ledger {
    match row
    case SnapshotRow(id, snapshot) =>
      if id in db.snapshots then db else db.(snapshots := db.snapshots[id := snapshot])
    case CandidateRow(id, candidate) =>
      if id in db.candidates || candidate.snapshotId !in db.snapshots then db
      else db.(candidates := db.candidates[id := candidate])
    case DecisionRow(id, decision) =>
      if id in db.decisions || decision.candidateId !in db.candidates then db
      else db.(decisions := db.decisions[id := decision])
  }

  // ---------------------------------------------------------------------------
  // Frames
  // ---------------------------------------------------------------------------

  lemma {:induction false} LotsStay(a: Ledger, b: Ledger, events: seq<Event>)
    requires Extends(a, b) && FillsOk(b)
    requires forall e :: e in events ==> FindFill(a.fills, e.fillId).Some?
    ensures LotsOf(b.fills, events) == LotsOf(a.fills, events)
  {
    if events != [] {
      LotsStay(a, b, events[..|events| - 1]);
      FillStays(a, b, events[|events| - 1].fillId);
    }
  }

  lemma BelongsStays(a: Ledger, b: Ledger, f: Fill, key: PositionKey)
    requires Extends(a, b) && Belongs(a, f, key)
    ensures Belongs(b, f, key)
  {
  }

  lemma EventStaysOk(a: Ledger, b: Ledger, key: PositionKey, events: seq<Event>, k: nat)
    requires Extends(a, b) && FillsOk(b) && k < |events|
    requires forall j :: 0 <= j <= k ==> EventOk(a, key, events, j)
    ensures EventOk(b, key, events, k)
  {
    var e := events[k];
    assert EventOk(a, key, events, k);
    forall x | x in events[..k + 1]
      ensures FindFill(a.fills, x.fillId).Some?
    {
      var j :| 0 <= j < k + 1 && events[j] == x;
      assert EventOk(a, key, events, j);
    }
    FillStays(a, b, e.fillId);
    BelongsStays(a, b, FindFill(a.fills, e.fillId).value, key);
    LotsStay(a, b, events[..k + 1]);
  }

  /** A position whose row and events are untouched stays correct. */
  lemma PositionStaysOk(a: Ledger, b: Ledger, p: PositionId)
    requires Extends(a, b) && FillsOk(b) && p in a.positions && PositionOk(a, p)
    requires b.positions[p] == a.positions[p] && EventsOf(b.events, p) == EventsOf(a.events, p)
    ensures PositionOk(b, p)
  {
    var events := EventsOf(a.events, p);
    forall k | 0 <= k < |events|
      ensures EventOk(b, a.positions[p].key, events, k)
    {
      EventStaysOk(a, b, a.positions[p].key, events, k);
    }
  }

  /** An order whose row and fills are untouched stays correct. */
  lemma OrderStaysOk(a: Ledger, b: Ledger, o: OrderId)
    requires Extends(a, b) && o in a.orders && OrderOk(a, o)
    requires b.orders[o] == a.orders[o] && FillsOf(b.fills, o) == FillsOf(a.fills, o)
    ensures OrderOk(b, o)
  {
  }

  lemma IntentsStayOk(a: Ledger, b: Ledger)
    requires Extends(a, b) && IntentsOk(a) && b.intents == a.intents
    ensures IntentsOk(b)
  {
  }

  lemma OrdersStayOk(a: Ledger, b: Ledger, touched: Option<OrderId>)
    requires Extends(a, b) && OrdersOk(a)
    requires forall o :: o in b.orders && touched != Some(o) ==>
               o in a.orders && b.orders[o] == a.orders[o] && FillsOf(b.fills, o) == FillsOf(a.fills, o)
    ensures forall o :: o in b.orders && touched != Some(o) ==> OrderOk(b, o)
  {
    forall o | o in b.orders && touched != Some(o)
      ensures OrderOk(b, o)
    {
      OrderStaysOk(a, b, o);
    }
  }

  lemma PositionsStayOk(a: Ledger, b: Ledger, touched: Option<PositionId>)
    requires Extends(a, b) && FillsOk(b) && PositionsOk(a)
    requires forall p :: p in b.positions && touched != Some(p) ==>
               p in a.positions && b.positions[p] == a.positions[p]
               && EventsOf(b.events, p) == EventsOf(a.events, p)
    ensures forall p :: p in b.positions && touched != Some(p) ==> PositionOk(b, p)
  {
    forall p | p in b.positions && touched != Some(p)
      ensures PositionOk(b, p)
    {
      PositionStaysOk(a, b, p);
    }
  }

  /** The invariant survives any extension whose touched rows are correct. */
  lemma Frame(a: Ledger, b: Ledger, order: Option<OrderId>, position: Option<PositionId>)
    requires Inv(a) && Extends(a, b)
    requires IntentsOk(b) && FillsOk(b) && EventsOk(b) && OpenKeysUnique(b)
    requires forall o :: o in b.orders && order != Some(o) ==>
               o in a.orders && b.orders[o] == a.orders[o] && FillsOf(b.fills, o) == FillsOf(a.fills, o)
    requires forall p :: p in b.positions && position != Some(p) ==>
               p in a.positions && b.positions[p] == a.positions[p]
               && EventsOf(b.events, p) == EventsOf(a.events, p)
    requires order.Some? ==> order.value in b.orders && OrderOk(b, order.value)
    requires position.Some? ==> position.value in b.positions && PositionOk(b, position.value)
    ensures Inv(b)
  {
    hide OrderOk, PositionOk, IntentOk;
    OrdersStayOk(a, b, order);
    PositionsStayOk(a, b, position);
  }

  // ---------------------------------------------------------------------------
  // References and intents
  // ---------------------------------------------------------------------------

  /** A reference row touches none of the tables the services write. */
  lemma ReferenceTouches(db: Ledger, row: Reference)
    ensures var after := AddReference(db, row);
            && Grows(db.snapshots, after.snapshots)
            && Grows(db.candidates, after.candidates)
            && Grows(db.decisions, after.decisions)
            && after == db.(snapshots := after.snapshots, candidates := after.candidates,
                            decisions := after.decisions)
  {
  }

  lemma ReferenceExtends(db: Ledger, row: Reference)
    ensures Extends(db, AddReference(db, row))
  {
    ReferenceTouches(db, row);
    hide AddReference;
  }

  lemma ReferenceKeeps(db: Ledger, row: Reference)
    requires Inv(db)
    ensures Inv(AddReference(db, row)) && Extends(db, AddReference(db, row))
  {
    hide OrderOk, PositionOk, AddReference;
    var after := AddReference(db, row);
    ReferenceTouches(db, row);
    ReferenceExtends(db, row);
    IntentsStayOk(db, after);
    Frame(db, after, None, None);
  }

  lemma IntentExtends(db: Ledger, id: IntentId, row: Intent, pick: nat)
    requires AddIntent(db, id, row, pick).Ok?
    ensures id !in db.intents
    ensures AddIntent(db, id, row, pick).value == db.(intents := db.intents[id := row])
    ensures Extends(db, db.(intents := db.intents[id := row]))
  {
  }

  lemma IntentKeeps(db: Ledger, id: IntentId, row: Intent)
    requires Inv(db) && IntentOk(db, row) && id !in db.intents
    requires Extends(db, db.(intents := db.intents[id := row]))
    ensures Inv(db.(intents := db.intents[id := row]))
  {
    hide OrderOk, PositionOk, Extends;
    var after := db.(intents := db.intents[id := row]);
    forall i | i in after.intents
      ensures IntentOk(after, after.intents[i])
    {
      ChainStays(db, after, after.intents[i]);
    }
    Frame(db, after, None, None);
  }

  lemma {:induction false} AddAllKeeps(
    db: Ledger, rows: seq<Intent>, ids: seq<IntentId>, pick: nat, n: nat)
    requires Inv(db) && n <= |rows| && (forall row :: row in rows ==> IntentOk(db, row))
    requires TI.AddAll(db, rows, ids, pick, n).Ok?
    ensures var after := TI.AddAll(db, rows, ids, pick, n).value; Inv(after) && Extends(db, after)
  {
    hide Inv, IntentOk, AddIntent;
    if n > 0 {
      AddAllKeeps(db, rows, ids, pick, n - 1);
      var before := TI.AddAll(db, rows, ids, pick, n - 1).value;
      var id, row := TI.IdAt(ids, n - 1), rows[n - 1];
      IntentExtends(before, id, row, pick);
      StillIntentOk(db, before, row);
      IntentKeeps(before, id, row);
      ExtendsTransitive(db, before, before.(intents := before.intents[id := row]));
    }
  }

  lemma StillIntentOk(a: Ledger, b: Ledger, row: Intent)
    requires Extends(a, b) && IntentOk(a, row)
    ensures IntentOk(b, row)
  {
  }

  lemma CreateAllKeeps(
    view: Ledger, db: Ledger, candidateId: CandidateId, strategies: seq<TI.Strategy>,
    policy: TI.RiskPolicy, now: Time, ids: seq<IntentId>, pick: nat)
    requires Inv(db) && Extends(view, db)
    ensures var after := TI.CreateAllResult(view, db, candidateId, strategies, policy, now, ids, pick).0;
            Inv(after) && Extends(db, after)
  {
    hide Inv, TI.PlanIntents, TI.AddAll, IntentOk;
    var planned := TI.PlanIntents(view, candidateId, strategies, policy, now);
    if planned.Ok? {
      var rows := planned.value;
      PlannedIntentsStayOk(view, db, candidateId, strategies, policy, now);
      if TI.AddAll(db, rows, ids, pick, |rows|).Ok? {
        AddAllKeeps(db, rows, ids, pick, |rows|);
      }
    }
  }

  lemma PlannedIntentsStayOk(
    view: Ledger, db: Ledger, candidateId: CandidateId, strategies: seq<TI.Strategy>,
    policy: TI.RiskPolicy, now: Time)
    requires Extends(view, db) && TI.PlanIntents(view, candidateId, strategies, policy, now).Ok?
    ensures forall row :: row in TI.PlanIntents(view, candidateId, strategies, policy, now).value ==>
                            IntentOk(db, row)
  {
  }

  // ---------------------------------------------------------------------------
  // Orders
  // ---------------------------------------------------------------------------

  lemma {:induction false} NoFillsYet(fills: seq<Fill>, o: OrderId)
    requires forall f :: f in fills ==> f.orderId != o
    ensures FillsOf(fills, o) == []
  {
    if fills != [] {
      assert fills[|fills| - 1] in fills;
      NoFillsYet(fills[..|fills| - 1], o);
    }
  }

  /** A stored order is new, and fresh from the broker. */
  lemma SubmittedRow(
    view: Ledger, db: Ledger, intentId: IntentId, brokerCode: string, submittedAt: Time,
    answer: PO.BrokerAnswer, orderId: OrderId, pick: nat)
    requires PO.SubmitResult(view, db, intentId, brokerCode, submittedAt, answer, orderId, pick).1.Submitted?
    ensures var (after, outcome) :=
              PO.SubmitResult(view, db, intentId, brokerCode, submittedAt, answer, orderId, pick);
            var row := outcome.order;
            && orderId !in db.orders && row.intentId in db.intents
            && after == db.(orders := db.orders[orderId := row])
            && Extends(db, after)
            && row.version == 1
            && row.submittedAt <= row.updatedAt
            && (row.acceptedAt.Some? ==> row.acceptedAt.value == row.updatedAt)
            && (forall quantity: nat :: quantity > 0 ==> StatusOk(row, quantity, 0))
  {
  }

  lemma OrderKeeps(db: Ledger, o: OrderId, row: Order)
    requires Inv(db) && o !in db.orders && row.intentId in db.intents
    requires row.version == 1 && row.submittedAt <= row.updatedAt
    requires row.acceptedAt.Some? ==> row.acceptedAt.value == row.updatedAt
    requires forall quantity: nat :: quantity > 0 ==> StatusOk(row, quantity, 0)
    requires Extends(db, db.(orders := db.orders[o := row]))
    ensures Inv(db.(orders := db.orders[o := row]))
  {
    var after := db.(orders := db.orders[o := row]);
    NewOrderOk(db, o, row);
    hide OrderOk, PositionOk, Extends, IntentOk, StatusOk;
    IntentsStayOk(db, after);
    Frame(db, after, Some(o), None);
  }

  lemma NewOrderOk(db: Ledger, o: OrderId, row: Order)
    requires IntentsOk(db) && FillsOk(db) && o !in db.orders && row.intentId in db.intents
    requires row.version == 1 && row.submittedAt <= row.updatedAt
    requires row.acceptedAt.Some? ==> row.acceptedAt.value == row.updatedAt
    requires forall quantity: nat :: quantity > 0 ==> StatusOk(row, quantity, 0)
    requires Extends(db, db.(orders := db.orders[o := row]))
    ensures OrderOk(db.(orders := db.orders[o := row]), o)
  {
    hide StatusOk, Extends;
    NoFillsYet(db.fills, o);
    StillIntentOk(db, db.(orders := db.orders[o := row]), db.intents[row.intentId]);
  }

  lemma SubmitKeeps(
    view: Ledger, db: Ledger, intentId: IntentId, brokerCode: string, submittedAt: Time,
    answer: PO.BrokerAnswer, orderId: OrderId, pick: nat)
    requires Inv(db)
    ensures var after := PO.SubmitResult(view, db, intentId, brokerCode, submittedAt, answer, orderId, pick).0;
            Inv(after) && Extends(db, after)
  {
    hide Inv, StatusOk, PO.PlanOrder, AddOrder;
    var (after, outcome) :=
      PO.SubmitResult(view, db, intentId, brokerCode, submittedAt, answer, orderId, pick);
    if outcome.Submitted? {
      SubmittedRow(view, db, intentId, brokerCode, submittedAt, answer, orderId, pick);
      OrderKeeps(db, orderId, outcome.order);
    }
  }

  // ---------------------------------------------------------------------------
  // Fills
  // ---------------------------------------------------------------------------

  /** The order row as the guarded transition leaves it. */
  function Transitioned(order: Order, t: OrderTransition): Order {
    order.(status := t.newStatus, closedAt := t.closedAt, updatedAt := t.updatedAt,
           version := t.expectedVersion + 1)
  }

  /** A plan is a clean read of one source chain whose history was accepted. */
  lemma PlannedFill(first: Ledger, later: Ledger, o: OrderId, now: Time, fillId: FillId)
    requires PlanFill(first, later, o, now, fillId).Ok?
    ensures o in first.orders
    ensures var order := first.orders[o];
            && order.brokerCode == INTERNAL_PAPER && order.acceptedAt.Some?
            && (order.status == ACCEPTED || order.status == PARTIALLY_FILLED)
            && order.updatedAt <= now
            && order.intentId in later.intents
            && var intent := later.intents[order.intentId];
            && Chained(later, intent) && intent.quantity > 0
            && var plan, n := SplitPlan(intent.quantity), if order.status == ACCEPTED then 0 else 1;
            && n < |plan| && |FillsOf(later.fills, o)| == n
            && var write := PlanFill(first, later, o, now, fillId).value;
            && write.fill == Fill(fillId, o, ExecutionKey(o, n + 1), n + 1, plan[n],
                                  SnapshotOf(later, intent).lastPrice, Money(0, intent.currency), now)
            && write.transition == OrderTransition(
                 o, order.status, order.version, if n + 1 == |plan| then FILLED else PARTIALLY_FILLED,
                 if n + 1 == |plan| then Some(now) else None, now)
  {
    var order := first.orders[o];
    var intent := later.intents[order.intentId];
    var snapshot := SnapshotOf(later, intent);
    var fills := FillsOf(later.fills, o);
    AcceptedHistoryLeavesWork(o, order.status, order.acceptedAt.value, intent.quantity,
                              snapshot.lastPrice, intent.currency, fills);
    PlanSums(intent.quantity, |fills|);
  }

  /** The n-th chunk completes the plan exactly when it is the last one. */
  lemma PlanSums(quantity: nat, n: nat)
    requires quantity > 0 && n < |SplitPlan(quantity)|
    ensures Sum(SplitPlan(quantity)[..n]) + SplitPlan(quantity)[n] == Sum(SplitPlan(quantity)[..n + 1])
    ensures Sum(SplitPlan(quantity)[..n + 1]) == quantity <==> n + 1 == |SplitPlan(quantity)|
  {
  }

  /** Both writes went through: the row the plan was made from is still the current one. */
  lemma FilledIs(first: Ledger, later: Ledger, db: Ledger, o: OrderId, now: Time, fillId: FillId, pick: nat)
    requires Extends(first, db)
    requires ExecuteNextResult(first, later, db, o, now, fillId, pick).1.Filled?
    ensures var (after, outcome) := ExecuteNextResult(first, later, db, o, now, fillId, pick);
            && PlanFill(first, later, o, now, fillId).Ok?
            && var write := PlanFill(first, later, o, now, fillId).value;
            && o in first.orders && o in db.orders && db.orders[o] == first.orders[o]
            && write.fill.orderId == o && write.fill.id == fillId
            && (forall f :: f in db.fills ==> f.id != fillId)
            && outcome == Filled(write.fill, Transitioned(db.orders[o], write.transition))
            && after == db.(fills := db.fills + [write.fill],
                            orders := db.orders[o := Transitioned(db.orders[o], write.transition)])
  {
  }

  lemma FillKeeps(db: Ledger, o: OrderId, updated: Order, f: Fill)
    requires Inv(db) && o in db.orders && OrderLater(db.orders[o], updated)
    requires f.orderId == o && (forall g :: g in db.fills ==> g.id != f.id)
    requires var after := db.(fills := db.fills + [f], orders := db.orders[o := updated]);
             Extends(db, after) && OrderOk(after, o)
    ensures Inv(db.(fills := db.fills + [f], orders := db.orders[o := updated]))
  {
    hide OrderOk, PositionOk, IntentOk, Extends, OrderLater;
    var after := db.(fills := db.fills + [f], orders := db.orders[o := updated]);
    AppendFill(db.fills, f);
    IntentsStayOk(db, after);
    Frame(db, after, Some(o), None);
  }

  lemma FillExtends(db: Ledger, o: OrderId, updated: Order, f: Fill)
    requires o in db.orders && OrderLater(db.orders[o], updated)
    ensures Extends(db, db.(fills := db.fills + [f], orders := db.orders[o := updated]))
  {
  }

  lemma ExecuteNextKeeps(
    first: Ledger, later: Ledger, db: Ledger, o: OrderId, now: Time, fillId: FillId, pick: nat)
    requires Inv(db) && Extends(first, db) && Extends(later, db)
    ensures var after := ExecuteNextResult(first, later, db, o, now, fillId, pick).0;
            Inv(after) && Extends(db, after)
  {
    hide Inv, PlanFill, AddFill, TransitionAfterFill;
    var (after, outcome) := ExecuteNextResult(first, later, db, o, now, fillId, pick);
    if outcome.Filled? {
      FilledKeeps(first, later, db, o, now, fillId, pick);
    }
  }

  /** What `FilledIs` and `PlannedFill` say, once the row is known to be current. */
  ghost predicate PlannedAgainst(db: Ledger, o: OrderId, write: FillWrite) {
    && o in db.orders
    && var order := db.orders[o];
    && order.brokerCode == INTERNAL_PAPER && order.acceptedAt.Some?
    && (order.status == ACCEPTED || order.status == PARTIALLY_FILLED)
    && order.updatedAt <= write.fill.executedAt
    && order.intentId in db.intents
    && var intent := db.intents[order.intentId];
    && Chained(db, intent) && intent.quantity > 0
    && var plan, n := SplitPlan(intent.quantity), if order.status == ACCEPTED then 0 else 1;
    && n < |plan|
    && var now := write.fill.executedAt;
    && write.fill == Fill(write.fill.id, o, ExecutionKey(o, n + 1), n + 1, plan[n],
                          SnapshotOf(db, intent).lastPrice, Money(0, intent.currency), now)
    && write.transition == OrderTransition(
         o, order.status, order.version, if n + 1 == |plan| then FILLED else PARTIALLY_FILLED,
         if n + 1 == |plan| then Some(now) else None, now)
  }

  lemma FilledAgainst(
    first: Ledger, later: Ledger, db: Ledger, o: OrderId, now: Time, fillId: FillId, pick: nat)
    requires Extends(first, db) && Extends(later, db)
    requires ExecuteNextResult(first, later, db, o, now, fillId, pick).1.Filled?
    ensures PlanFill(first, later, o, now, fillId).Ok?
    ensures PlannedAgainst(db, o, PlanFill(first, later, o, now, fillId).value)
  {
    hide PlanFill, ExecuteNextResult, SplitPlan;
    FilledIs(first, later, db, o, now, fillId, pick);
    PlannedFill(first, later, o, now, fillId);
    ChainStays(later, db, later.intents[first.orders[o].intentId]);
  }

  lemma PlannedLater(order: Order, t: OrderTransition)
    requires order.version == t.expectedVersion && order.updatedAt <= t.updatedAt
    requires t.newStatus == PARTIALLY_FILLED || t.newStatus == FILLED
    ensures OrderLater(order, Transitioned(order, t))
  {
  }

  lemma FilledOrderOk(db: Ledger, o: OrderId, write: FillWrite)
    requires o in db.orders && OrderOk(db, o) && PlannedAgainst(db, o, write)
    ensures var updated := Transitioned(db.orders[o], write.transition);
            OrderOk(db.(fills := db.fills + [write.fill], orders := db.orders[o := updated]), o)
  {
  }

  lemma FilledKeeps(
    first: Ledger, later: Ledger, db: Ledger, o: OrderId, now: Time, fillId: FillId, pick: nat)
    requires Inv(db) && Extends(first, db) && Extends(later, db)
    requires ExecuteNextResult(first, later, db, o, now, fillId, pick).1.Filled?
    ensures var after := ExecuteNextResult(first, later, db, o, now, fillId, pick).0;
            Inv(after) && Extends(db, after)
  {
    hide PlanFill, ExecuteNextResult, OrderOk, IntentsOk, FillsOk, PositionsOk, Extends, SplitPlan,
         OrderLater, Chained;
    FilledIs(first, later, db, o, now, fillId, pick);
    FilledAgainst(first, later, db, o, now, fillId, pick);
    var write := PlanFill(first, later, o, now, fillId).value;
    FilledOrderOk(db, o, write);
    PlannedLater(db.orders[o], write.transition);
    FillExtends(db, o, Transitioned(db.orders[o], write.transition), write.fill);
    FillKeeps(db, o, Transitioned(db.orders[o], write.transition), write.fill);
  }

  // ---------------------------------------------------------------------------
  // Positions
  // ---------------------------------------------------------------------------

  /** A validated source stays what it was, except for the order's progress. */
  lemma SourceStays(view: Ledger, db: Ledger, fillId: FillId)
    requires Inv(db) && Extends(view, db) && PP.LoadSource(view, fillId).Ok?
    ensures var s := PP.LoadSource(view, fillId).value;
            && FindFill(db.fills, fillId) == Some(s.fill)
            && s.fill.id == fillId
            && Belongs(db, s.fill, PP.KeyOf(s))
  {
    FillStays(view, db, fillId);
    FillFound(view.fills, fillId);
  }

  lemma {:induction false} NoEventsYet(events: seq<Event>, p: PositionId)
    requires forall e :: e in events ==> e.positionId != p
    ensures EventsOf(events, p) == []
  {
    if events != [] {
      assert events[|events| - 1] in events;
      NoEventsYet(events[..|events| - 1], p);
    }
  }

  lemma OpenIdsOfKey(db: Ledger, key: PositionKey)
    requires PositionsOk(db)
    ensures forall id :: id in OpenIds(db, key) <==> id in db.positions && db.positions[id].key == key
  {
  }

  lemma NewPositionExtends(db: Ledger, id: PositionId, row: Position, event: Event)
    requires id !in db.positions
    ensures Extends(db, db.(positions := db.positions[id := row], events := db.events + [event]))
  {
  }

  lemma NewPositionKeeps(db: Ledger, id: PositionId, row: Position, event: Event)
    requires Inv(db) && id !in db.positions && event.positionId == id
    requires forall e :: e in db.events ==> e.fillId != event.fillId
    requires forall p :: p in db.positions ==> db.positions[p].key != row.key
    requires var after := db.(positions := db.positions[id := row], events := db.events + [event]);
             Extends(db, after) && PositionOk(after, id)
    ensures Inv(db.(positions := db.positions[id := row], events := db.events + [event]))
  {
    hide OrderOk, PositionOk, IntentOk, Extends;
    var after := db.(positions := db.positions[id := row], events := db.events + [event]);
    AppendEvent(db.events, event);
    IntentsStayOk(db, after);
    Frame(db, after, None, Some(id));
  }

  /** A position opened with one fill and its event. */
  lemma OpenedPositionOk(db: Ledger, id: PositionId, row: Position, event: Event, f: Fill)
    requires FindFill(db.fills, f.id) == Some(f) && f.quantity > 0 && Belongs(db, f, row.key)
    requires EventsOf(db.events, id) == []
    requires BuyPosition(None, f.quantity, f.price) == Some(Holding(row.quantity, row.averageCost))
    requires var zero := Money(0, row.key.currency);
             && row == Position(row.key, OPEN, row.quantity, row.averageCost, zero, f.executedAt, None, 1,
                                f.executedAt)
             && event == Event(event.id, id, f.id, 1, OPENED, f.quantity, row.quantity, row.averageCost,
                               zero, zero, f.executedAt)
    ensures PositionOk(db.(positions := db.positions[id := row], events := db.events + [event]), id)
  {
    var after := db.(positions := db.positions[id := row], events := db.events + [event]);
    AppendEvent(db.events, event);
    assert EventsOf(after.events, id) == [event];
    assert [event][..1] == [event] && [event][..0] == [];
    assert LotsOf(after.fills, [event]) == [f];
    assert EventOk(after, row.key, [event], 0);
  }

  function PositionFor(s: PP.Source, held: Holding): Position {
    Position(PP.KeyOf(s), OPEN, held.quantity, held.averageCost, Money(0, s.intent.currency),
             s.fill.executedAt, None, 1, s.fill.executedAt)
  }

  /** What both inserts of an opening mean when they go through. */
  lemma OpenedIs(db: Ledger, id: PositionId, row: Position, event: Event, pick: nat)
    requires row.status == OPEN
    requires PP.ApplyProjection(db, PP.OpenPosition(id, row, event), pick).1.Applied?
    ensures id !in db.positions && OpenIds(db, row.key) == {}
    ensures forall e :: e in db.events ==> e.fillId != event.fillId
    ensures PP.ApplyProjection(db, PP.OpenPosition(id, row, event), pick).0
            == db.(positions := db.positions[id := row], events := db.events + [event])
  {
  }

  lemma OpeningKeeps(db: Ledger, s: PP.Source, held: Holding, id: PositionId, eventId: EventId, pick: nat)
    requires Inv(db) && FindFill(db.fills, s.fill.id) == Some(s.fill) && s.fill.quantity > 0
    requires Belongs(db, s.fill, PP.KeyOf(s))
    requires BuyPosition(None, s.fill.quantity, s.fill.price) == Some(held)
    requires var event := PP.NewEvent(s, eventId, id, OPENED, 1, held, Money(0, s.intent.currency));
             PP.ApplyProjection(db, PP.OpenPosition(id, PositionFor(s, held), event), pick).1.Applied?
    ensures var event := PP.NewEvent(s, eventId, id, OPENED, 1, held, Money(0, s.intent.currency));
            var after := PP.ApplyProjection(db, PP.OpenPosition(id, PositionFor(s, held), event), pick).0;
            Inv(after) && Extends(db, after)
  {
    hide PP.ApplyProjection, PositionOk, IntentsOk, OrdersOk, FillsOk, Belongs, BuyPosition, Extends;
    var row := PositionFor(s, held);
    var event := PP.NewEvent(s, eventId, id, OPENED, 1, held, Money(0, s.intent.currency));
    OpenedIs(db, id, row, event, pick);
    OpenIdsOfKey(db, row.key);
    NoEventsYet(db.events, id);
    OpenedPositionOk(db, id, row, event, s.fill);
    NewPositionExtends(db, id, row, event);
    NewPositionKeeps(db, id, row, event);
  }

  function Increased(row: Position, held: Holding, at: Time): Position {
    row.(quantity := held.quantity, averageCost := held.averageCost, updatedAt := at,
         version := row.version + 1)
  }

  ghost predicate NextEvent(db: Ledger, row: Position, f: Fill, held: Holding, event: Event) {
    && FindFill(db.fills, f.id) == Some(f) && f.quantity > 0 && Belongs(db, f, row.key)
    && row.updatedAt <= f.executedAt
    && BuyPosition(Some(Holding(row.quantity, row.averageCost)), f.quantity, f.price) == Some(held)
    && event == Event(event.id, event.positionId, f.id, row.version + 1, INCREASED, f.quantity,
                      held.quantity, held.averageCost, Money(0, row.key.currency), row.realizedPnl,
                      f.executedAt)
  }

  lemma IncreaseExtends(db: Ledger, id: PositionId, updated: Position, event: Event)
    requires id in db.positions && PositionLater(db.positions[id], updated)
    ensures Extends(db, db.(positions := db.positions[id := updated], events := db.events + [event]))
  {
  }

  /** The events a position already has stay as they are. */
  lemma EarlierEventsOk(a: Ledger, b: Ledger, key: PositionKey, events: seq<Event>, event: Event)
    requires Extends(a, b) && FillsOk(b)
    requires forall k :: 0 <= k < |events| ==> EventOk(a, key, events, k)
    ensures forall k :: 0 <= k < |events| ==> EventOk(b, key, events + [event], k)
  {
    hide Extends, FillsOk;
    forall k | 0 <= k < |events|
      ensures EventOk(b, key, events + [event], k)
    {
      assert (events + [event])[..k + 1] == events[..k + 1];
      EventStaysOk(a, b, key, events, k);
    }
  }

  /** The new event continues the replay by one lot. */
  lemma LastEventOk(db: Ledger, row: Position, f: Fill, held: Holding, events: seq<Event>, event: Event)
    requires NextEvent(db, row, f, held, event)
    requires events != [] && |events| == row.version
    requires EventOk(db, row.key, events, |events| - 1)
    requires var last := events[|events| - 1];
             && row.quantity == last.quantityAfter && row.averageCost == last.averageAfter
             && row.updatedAt == last.occurredAt && row.realizedPnl == Money(0, row.key.currency)
    ensures EventOk(db, row.key, events + [event], |events|)
  {
    var n := |events|;
    var lots := LotsOf(db.fills, events);
    var more := events + [event];
    assert events[..n] == events && more[..n + 1] == more && more[..n] == events;
    assert Replay(lots) == Some(Holding(row.quantity, row.averageCost));
    assert LotsOf(db.fills, more) == lots + [f];
    assert (lots + [f])[..|lots|] == lots && lots != [];
  }

  lemma IncreasedPositionOk(
    db: Ledger, id: PositionId, f: Fill, held: Holding, event: Event, updated: Position)
    requires FillsOk(db) && id in db.positions && PositionOk(db, id) && event.positionId == id
    requires NextEvent(db, db.positions[id], f, held, event)
    requires updated == Increased(db.positions[id], held, f.executedAt)
    requires Extends(db, db.(positions := db.positions[id := updated], events := db.events + [event]))
    ensures PositionOk(db.(positions := db.positions[id := updated], events := db.events + [event]), id)
  {
    var after := db.(positions := db.positions[id := updated], events := db.events + [event]);
    var row, events := db.positions[id], EventsOf(db.events, id);
    hide EventOk, BuyPosition, Extends;
    AppendEvent(db.events, event);
    EarlierEventsOk(db, after, row.key, events, event);
    assert (events + [event])[..|events|] == events;
    assert NextEvent(after, row, f, held, event);
    EventStaysOk(db, after, row.key, events, |events| - 1);
    LastEventOk(after, row, f, held, events, event);
  }

  lemma NoPnl(db: Ledger, id: PositionId)
    requires id in db.positions && PositionOk(db, id)
    ensures db.positions[id].realizedPnl == Money(0, db.positions[id].key.currency)
  {
  }

  lemma IncreaseLater(row: Position, f: Fill, held: Holding)
    requires row.updatedAt <= f.executedAt
    requires f.quantity > 0
    requires BuyPosition(Some(Holding(row.quantity, row.averageCost)), f.quantity, f.price) == Some(held)
    ensures PositionLater(row, Increased(row, held, f.executedAt))
  {
  }

  lemma ChangedPositionKeeps(db: Ledger, id: PositionId, updated: Position, event: Event)
    requires Inv(db) && id in db.positions && event.positionId == id
    requires updated.key == db.positions[id].key
    requires forall e :: e in db.events ==> e.fillId != event.fillId
    requires var after := db.(positions := db.positions[id := updated], events := db.events + [event]);
             Extends(db, after) && PositionOk(after, id)
    ensures Inv(db.(positions := db.positions[id := updated], events := db.events + [event]))
  {
    hide OrderOk, PositionOk, IntentOk, Extends;
    var after := db.(positions := db.positions[id := updated], events := db.events + [event]);
    AppendEvent(db.events, event);
    IntentsStayOk(db, after);
    Frame(db, after, None, Some(id));
  }

  /** When the guarded update goes through, the row the plan was made from is current. */
  lemma IncreasedIs(
    view: Ledger, db: Ledger, s: PP.Source, write: PP.ProjectionWrite, positionId: PositionId,
    eventId: EventId, pick: nat)
    requires Extends(view, db) && s.fill.quantity > 0
    requires PP.PlanProjection(view, s, positionId, eventId) == Ok(write) && write.IncreasePosition?
    requires PP.ApplyProjection(db, write, pick).1.Applied?
    ensures var id := write.transition.positionId;
            && id in view.positions && id in db.positions && view.positions[id] == db.positions[id]
            && db.positions[id].key == PP.KeyOf(s)
            && write.event.positionId == id && write.event.fillId == s.fill.id
            && (forall e :: e in db.events ==> e.fillId != s.fill.id)
            && var row, held := db.positions[id], Holding(write.transition.quantity, write.transition.averageCost);
            && row.updatedAt <= s.fill.executedAt
            && BuyPosition(Some(Holding(row.quantity, row.averageCost)), s.fill.quantity, s.fill.price)
               == Some(held)
            && write.event == PP.NewEvent(s, eventId, id, INCREASED, row.version + 1, held, row.realizedPnl)
            && PP.ApplyProjection(db, write, pick).0
               == db.(positions := db.positions[id := Increased(row, held, s.fill.executedAt)],
                      events := db.events + [write.event])
  {
  }

  lemma IncreaseKeeps(
    view: Ledger, db: Ledger, s: PP.Source, write: PP.ProjectionWrite, positionId: PositionId,
    eventId: EventId, pick: nat)
    requires Inv(db) && Extends(view, db)
    requires FindFill(db.fills, s.fill.id) == Some(s.fill) && s.fill.quantity > 0
    requires Belongs(db, s.fill, PP.KeyOf(s))
    requires PP.PlanProjection(view, s, positionId, eventId) == Ok(write) && write.IncreasePosition?
    requires PP.ApplyProjection(db, write, pick).1.Applied?
    ensures var after := PP.ApplyProjection(db, write, pick).0; Inv(after) && Extends(db, after)
  {
    hide PP.ApplyProjection, PP.PlanProjection, PositionOk, IntentsOk, OrdersOk, FillsOk, Belongs,
         BuyPosition, Extends, PositionLater;
    IncreasedIs(view, db, s, write, positionId, eventId, pick);
    var id := write.transition.positionId;
    NoPnl(db, id);
    var row, held := db.positions[id], Holding(write.transition.quantity, write.transition.averageCost);
    var updated := Increased(row, held, s.fill.executedAt);
    assert NextEvent(db, row, s.fill, held, write.event);
    IncreaseLater(row, s.fill, held);
    IncreaseExtends(db, id, updated, write.event);
    IncreasedPositionOk(db, id, s.fill, held, write.event, updated);
    ChangedPositionKeeps(db, id, updated, write.event);
  }

  lemma ProjectOnceKeeps(
    eventView: Ledger, sourceView: Ledger, positionView: Ledger, db: Ledger, fillId: FillId,
    positionId: PositionId, eventId: EventId, pick: nat)
    requires Inv(db) && Extends(sourceView, db) && Extends(positionView, db)
    ensures var after := PP.ProjectOnceResult(eventView, sourceView, positionView, db, fillId,
                                              positionId, eventId, pick).0;
            Inv(after) && Extends(db, after)
  {
    hide Inv, Belongs, PP.ApplyProjection, PP.PlanProjection, BuyPosition;
    var source := PP.LoadSource(sourceView, fillId);
    if FindEventByFill(eventView.events, fillId).None? && source.Ok? {
      SourceStays(sourceView, db, fillId);
      var s := source.value;
      var planned := PP.PlanProjection(positionView, s, positionId, eventId);
      if planned.Ok? {
        ApplyKeeps(positionView, db, s, planned.value, positionId, eventId, pick);
      }
    }
  }

  lemma ApplyKeeps(
    view: Ledger, db: Ledger, s: PP.Source, write: PP.ProjectionWrite, positionId: PositionId,
    eventId: EventId, pick: nat)
    requires Inv(db) && Extends(view, db)
    requires FindFill(db.fills, s.fill.id) == Some(s.fill) && s.fill.quantity > 0
    requires Belongs(db, s.fill, PP.KeyOf(s))
    requires PP.PlanProjection(view, s, positionId, eventId) == Ok(write)
    ensures var after := PP.ApplyProjection(db, write, pick).0; Inv(after) && Extends(db, after)
  {
    hide Inv, Belongs, BuyPosition, Extends, PP.PlanProjection;
    if !PP.ApplyProjection(db, write, pick).1.Applied? {
      NotAppliedKeeps(db, write, pick);
      SelfExtends(db);
    } else if write.IncreasePosition? {
      hide PP.ApplyProjection;
      IncreaseKeeps(view, db, s, write, positionId, eventId, pick);
    } else {
      hide PP.ApplyProjection;
      var held := OpeningPlanned(view, s, write, positionId, eventId);
      OpeningKeeps(db, s, held, positionId, eventId, pick);
    }
  }

  lemma NotAppliedKeeps(db: Ledger, write: PP.ProjectionWrite, pick: nat)
    requires !PP.ApplyProjection(db, write, pick).1.Applied?
    ensures PP.ApplyProjection(db, write, pick).0 == db
  {
  }

  lemma SelfExtends(db: Ledger)
    ensures Extends(db, db)
  {
  }

  lemma OpeningPlanned(
    view: Ledger, s: PP.Source, write: PP.ProjectionWrite, positionId: PositionId, eventId: EventId)
    returns (held: Holding)
    requires s.fill.quantity > 0
    requires PP.PlanProjection(view, s, positionId, eventId) == Ok(write) && write.OpenPosition?
    ensures BuyPosition(None, s.fill.quantity, s.fill.price) == Some(held)
    ensures write == PP.OpenPosition(
                       positionId, PositionFor(s, held),
                       PP.NewEvent(s, eventId, positionId, OPENED, 1, held, Money(0, s.intent.currency)))
  {
    hide BuyPosition;
    held := BuyPosition(None, s.fill.quantity, s.fill.price).value;
  }
}
