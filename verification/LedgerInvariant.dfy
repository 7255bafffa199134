/** What every reachable paper-execution ledger satisfies, and how ledgers grow. */
module LedgerInvariant {
  import opened Outcomes
  import opened LedgerTables
  import opened AverageCost
  import opened PaperFills

  // ---------------------------------------------------------------------------
  // The source chain
  // ---------------------------------------------------------------------------

  ghost predicate Chained(db: Ledger, intent: Intent) {
    && intent.decisionId in db.decisions
    && db.decisions[intent.decisionId].candidateId in db.candidates
    && db.candidates[db.decisions[intent.decisionId].candidateId].snapshotId in db.snapshots
  }

  ghost function SnapshotOf(db: Ledger, intent: Intent): Snapshot
    requires Chained(db, intent)
  {
    db.snapshots[db.candidates[db.decisions[intent.decisionId].candidateId].snapshotId]
  }

  /** An intent is a BUY of the snapshot's symbol that an ENTER_LONG decision asked for. */
  ghost predicate IntentOk(db: Ledger, intent: Intent) {
    && Chained(db, intent)
    && db.decisions[intent.decisionId].action == ENTER_LONG
    && intent.symbol == SnapshotOf(db, intent).symbol
    && AcceptedShape(intent)
  }

  ghost predicate IntentsOk(db: Ledger) {
    forall i :: i in db.intents ==> IntentOk(db, db.intents[i])
  }

  // ---------------------------------------------------------------------------
  // Orders and fills
  // ---------------------------------------------------------------------------

  /** The k-th fill of an order is exactly the k-th planned chunk at the snapshot price. */
  ghost predicate FillOk(o: OrderId, order: Order, intent: Intent, price: Price, k: nat, f: Fill)
    requires intent.quantity > 0
  {
    && f.orderId == o
    && f.sequence == k + 1
    && f.key == ExecutionKey(o, k + 1)
    && k < |SplitPlan(intent.quantity)|
    && f.quantity == SplitPlan(intent.quantity)[k]
    && f.price == price
    && f.fee == Money(0, intent.currency)
    && order.acceptedAt.Some?
    && order.acceptedAt.value <= f.executedAt <= order.updatedAt
  }

  /** The status, timestamps and number of fills fit together. */
  ghost predicate StatusOk(order: Order, quantity: nat, count: nat)
    requires quantity > 0
  {
    match order.status
    case ACCEPTED =>
      count == 0 && order.acceptedAt.Some? && order.closedAt == None && order.rejectionCode == None
    case PARTIALLY_FILLED =>
      count == 1 && quantity >= 2 && order.acceptedAt.Some? && order.closedAt == None
      && order.rejectionCode == None
    case FILLED =>
      count == |SplitPlan(quantity)| && order.acceptedAt.Some?
      && order.closedAt == Some(order.updatedAt) && order.rejectionCode == None
    case REJECTED =>
      count == 0 && order.acceptedAt == None && order.closedAt.Some? && order.rejectionCode.Some?
    case _ => false
  }

  ghost predicate OrderOk(db: Ledger, o: OrderId)
    requires o in db.orders
  {
    var order := db.orders[o];
    var fills := FillsOf(db.fills, o);
    && order.intentId in db.intents
    && IntentOk(db, db.intents[order.intentId])
    && var intent := db.intents[order.intentId];
    && StatusOk(order, intent.quantity, |fills|)
    && order.version == 1 + |fills|
    && order.submittedAt <= order.updatedAt
    && (order.acceptedAt.Some? ==> order.submittedAt <= order.acceptedAt.value <= order.updatedAt)
    && (fills != [] ==> order.brokerCode == INTERNAL_PAPER)
    && (forall k :: 0 <= k < |fills| ==>
          FillOk(o, order, intent, SnapshotOf(db, intent).lastPrice, k, fills[k]))
    && (fills != [] ==> order.updatedAt == fills[|fills| - 1].executedAt)
    && (|fills| == 2 ==> fills[0].executedAt <= fills[1].executedAt)
  }

  ghost predicate OrdersOk(db: Ledger) {
    forall o :: o in db.orders ==> OrderOk(db, o)
  }

  ghost predicate UniqueFillIds(fills: seq<Fill>) {
    forall i, j :: 0 <= i < j < |fills| ==> fills[i].id != fills[j].id
  }

  ghost predicate FillsOk(db: Ledger) {
    && UniqueFillIds(db.fills)
    && forall f :: f in db.fills ==> f.orderId in db.orders
  }

  // ---------------------------------------------------------------------------
  // Positions and events
  // ---------------------------------------------------------------------------

  /** The fills that a list of events projected, in event order. */
  ghost function LotsOf(fills: seq<Fill>, events: seq<Event>): seq<Fill> {
    if events == [] then []
    else
      LotsOf(fills, events[..|events| - 1]) +
      match FindFill(fills, events[|events| - 1].fillId)
      case Some(f) => [f]
      case None => []
  }

  /** The holding that buying these lots one after the other produces, if it exists. */
  function Replay(lots: seq<Fill>): Option<Holding> {
    if lots == [] || lots[|lots| - 1].quantity == 0 then None
    else
      var last := lots[|lots| - 1];
      if |lots| == 1 then BuyPosition(None, last.quantity, last.price)
      else
        match Replay(lots[..|lots| - 1])
        case None => None
        case Some(held) => BuyPosition(Some(held), last.quantity, last.price)
  }

  /** The open-position key a fill belongs to, through its source chain. */
  ghost predicate Belongs(db: Ledger, f: Fill, key: PositionKey) {
    && f.orderId in db.orders
    && db.orders[f.orderId].intentId in db.intents
    && var intent := db.intents[db.orders[f.orderId].intentId];
    && intent.decisionId in db.decisions
    && key == PositionKey(db.decisions[intent.decisionId].strategyId, intent.symbol, intent.currency)
  }

  /** The k-th event of a position records its own fill and the replay up to itself. */
  ghost predicate EventOk(db: Ledger, key: PositionKey, events: seq<Event>, k: nat)
    requires k < |events|
  {
    var e := events[k];
    && e.sequence == k + 1
    && e.kind == (if k == 0 then OPENED else INCREASED)
    && FindFill(db.fills, e.fillId).Some?
    && var f := FindFill(db.fills, e.fillId).value;
    && e.quantityDelta == f.quantity
    && e.occurredAt == f.executedAt
    && f.quantity > 0
    && Belongs(db, f, key)
    && e.pnlDelta == Money(0, key.currency)
    && e.pnlAfter == Money(0, key.currency)
    && Replay(LotsOf(db.fills, events[..k + 1])) == Some(Holding(e.quantityAfter, e.averageAfter))
    && (k > 0 ==> events[k - 1].occurredAt <= e.occurredAt)
  }

  ghost predicate PositionOk(db: Ledger, p: PositionId)
    requires p in db.positions
  {
    var row := db.positions[p];
    var events := EventsOf(db.events, p);
    && row.status == OPEN
    && row.closedAt == None
    && row.realizedPnl == Money(0, row.key.currency)
    && |events| == row.version > 0
    && (forall k :: 0 <= k < |events| ==> EventOk(db, row.key, events, k))
    && row.openedAt == events[0].occurredAt
    && row.updatedAt == events[|events| - 1].occurredAt
    && row.quantity == events[|events| - 1].quantityAfter
    && row.averageCost == events[|events| - 1].averageAfter
  }

  ghost predicate PositionsOk(db: Ledger) {
    forall p :: p in db.positions ==> PositionOk(db, p)
  }

  ghost predicate UniqueEventFills(events: seq<Event>) {
    forall i, j :: 0 <= i < j < |events| ==> events[i].fillId != events[j].fillId
  }

  ghost predicate EventsOk(db: Ledger) {
    && UniqueEventFills(db.events)
    && forall e :: e in db.events ==> e.positionId in db.positions
  }

  ghost predicate OpenKeysUnique(db: Ledger) {
    forall p, q | p in db.positions && q in db.positions ::
      db.positions[p].key == db.positions[q].key ==> p == q
  }

  ghost predicate Inv(db: Ledger) {
    && IntentsOk(db)
    && OrdersOk(db)
    && FillsOk(db)
    && PositionsOk(db)
    && EventsOk(db)
    && OpenKeysUnique(db)
  }

  // ---------------------------------------------------------------------------
  // Growth
  // ---------------------------------------------------------------------------

  ghost predicate Grows<K(!new), V(!new)>(old': map<K, V>, new': map<K, V>) {
    forall k :: k in old' ==> k in new' && new'[k] == old'[k]
  }

  /** An order row changes only together with its version, and never its identity. */
  ghost predicate OrderLater(a: Order, b: Order) {
    && a.version <= b.version
    && (a.version == b.version ==> a == b)
    && a.intentId == b.intentId && a.acceptedAt == b.acceptedAt && a.brokerCode == b.brokerCode
    && a.brokerReference == b.brokerReference
    && a.updatedAt <= b.updatedAt
    && ((a.status == PARTIALLY_FILLED || a.status == FILLED) ==>
          (b.status == PARTIALLY_FILLED || b.status == FILLED))
  }

  ghost predicate PositionLater(a: Position, b: Position) {
    && a.version <= b.version
    && (a.version == b.version ==> a == b)
    && a.key == b.key && a.status == b.status && a.openedAt == b.openedAt
    && a.updatedAt <= b.updatedAt && a.quantity <= b.quantity
  }

  /** What any later ledger keeps of an earlier one. */
  ghost predicate Extends(a: Ledger, b: Ledger) {
    && Grows(a.snapshots, b.snapshots)
    && Grows(a.candidates, b.candidates)
    && Grows(a.decisions, b.decisions)
    && Grows(a.intents, b.intents)
    && (forall o :: o in a.orders ==> o in b.orders && OrderLater(a.orders[o], b.orders[o]))
    && a.fills <= b.fills
    && (forall p :: p in a.positions ==> p in b.positions && PositionLater(a.positions[p], b.positions[p]))
    && a.events <= b.events
  }

  lemma ExtendsTransitive(a: Ledger, b: Ledger, c: Ledger)
    requires Extends(a, b) && Extends(b, c)
    ensures Extends(a, c)
  {
  }

  // ---------------------------------------------------------------------------
  // Lookups in unique tables
  // ---------------------------------------------------------------------------

  lemma {:induction false} FillLookup(fills: seq<Fill>, f: Fill)
    requires UniqueFillIds(fills) && f in fills
    ensures FindFill(fills, f.id) == Some(f)
  {
    var n := |fills| - 1;
    if fills[n].id != f.id {
      assert f in fills[..n];
      FillLookup(fills[..n], f);
    }
  }

  lemma {:induction false} EventLookup(events: seq<Event>, e: Event)
    requires UniqueEventFills(events) && e in events
    ensures FindEventByFill(events, e.fillId) == Some(e)
  {
    var n := |events| - 1;
    if events[n].fillId != e.fillId {
      assert e in events[..n];
      EventLookup(events[..n], e);
    }
  }

  lemma FillStays(a: Ledger, b: Ledger, id: FillId)
    requires Extends(a, b) && FillsOk(b) && FindFill(a.fills, id).Some?
    ensures FindFill(b.fills, id) == FindFill(a.fills, id)
  {
    FillFound(a.fills, id);
    FillLookup(b.fills, FindFill(a.fills, id).value);
  }

  lemma ChainStays(a: Ledger, b: Ledger, intent: Intent)
    requires Extends(a, b) && Chained(a, intent)
    ensures Chained(b, intent) && SnapshotOf(b, intent) == SnapshotOf(a, intent)
    ensures IntentOk(a, intent) ==> IntentOk(b, intent)
  {
  }

  // ---------------------------------------------------------------------------
  // Replay
  // ---------------------------------------------------------------------------

  /** The replayed quantity is the sum of the lots, and the average cost lies between
      the cheapest and the dearest of them. */
  lemma {:induction false} ReplayIsAverage(lots: seq<Fill>, low: Price, high: Price)
    requires Replay(lots).Some?
    requires forall f :: f in lots ==> low <= f.price <= high
    ensures Replay(lots).value.quantity == Sum(Quantities(lots)) > 0
    ensures low <= Replay(lots).value.averageCost <= high
  {
    var n := |lots| - 1;
    var front, last := lots[..n], lots[n];
    assert Quantities(lots)[..n] == Quantities(front);
    if front != [] {
      ReplayIsAverage(front, low, high);
    }
  }

  /** What the lots cost together. */
  function Cost(lots: seq<Fill>): nat {
    if lots == [] then 0
    else Cost(lots[..|lots| - 1]) + lots[|lots| - 1].quantity * lots[|lots| - 1].price
  }

  /** One more rounding moves the average by at most half a unit, weighted with what is held. */
  lemma OneMoreRounding(held: Holding, quantity: nat, price: Price, cost: nat, n: nat)
    requires n > 0 && quantity > 0 && BuyPosition(Some(held), quantity, price).Some?
    requires -((n - 1) * held.quantity) <= 2 * (held.averageCost * held.quantity - cost) <= (n - 1) * held.quantity
    ensures var next := BuyPosition(Some(held), quantity, price).value;
            -(n * next.quantity)
            <= 2 * (next.averageCost * next.quantity - (cost + quantity * price)) <= n * next.quantity
  {
    hide AveragePrice, Weighted;
    var total := held.quantity + quantity;
    var next := AveragePrice(held.quantity, held.averageCost, quantity, price);
    AverageIsNearest(held.quantity, held.averageCost, quantity, price);
    Times(held.quantity, total, n - 1);
    WeightedIs(held, quantity, price);
    DriftAdds(next * total, held.averageCost * held.quantity, quantity * price, cost, total,
              held.quantity * (n - 1), total * (n - 1));
    assert n * total == total * (n - 1) + total;
  }

  lemma WeightedIs(held: Holding, quantity: nat, price: Price)
    ensures Weighted(held.quantity, held.averageCost, quantity, price)
            == held.averageCost * held.quantity + quantity * price
  {
  }

  lemma DriftAdds(next: int, held: int, bought: int, cost: int, total: int, before: int, bound: int)
    requires -total <= 2 * (next - (held + bought)) <= total
    requires -before <= 2 * (held - cost) <= before <= bound
    ensures -(bound + total) <= 2 * (next - (cost + bought)) <= bound + total
  {
  }

  /** Rounding each purchase drifts by at most half a unit a purchase: after n lots the stored
      average is within (n - 1) / 2 units of what the lots really cost on average. */
  lemma {:induction false} ReplayDrift(lots: seq<Fill>)
    requires Replay(lots).Some?
    ensures var held, n := Replay(lots).value, |lots|;
            -((n - 1) * held.quantity) <= 2 * (held.averageCost * held.quantity - Cost(lots))
                                       <= (n - 1) * held.quantity
  {
    var n := |lots| - 1;
    var front, last := lots[..n], lots[n];
    if n == 0 {
      assert Cost(front) == 0;
      assert last.price * last.quantity == last.quantity * last.price;
    } else {
      ReplayDrift(front);
      OneMoreRounding(Replay(front).value, last.quantity, last.price, Cost(front), n);
    }
  }
}
