/** Execution of one deterministic fill for one order. */
module PaperFills {
  import opened Outcomes
  import opened LedgerTables
  import opened UnitsOfWork
  import opened Transactions

  datatype FillFailure =
    | OrderNotFound
    | UnsupportedBroker
    | NotFillable
    | SourceInvalid(reason: string)
    | HistoryInvalid(reason: string)
    | FillConflict
    | OrderConcurrency
    | FillPersistence

  datatype FillOutcome = Filled(fill: Fill, order: Order) | FillFailed(failure: FillFailure)

  /** A planned fill with the guarded order update that goes with it. */
  datatype FillWrite = FillWrite(fill: Fill, transition: OrderTransition)

  /** At most two chunks, the second the larger when the quantity is odd. */
  function SplitPlan(quantity: nat): (plan: seq<nat>)
    requires quantity > 0
    ensures 1 <= |plan| <= 2 && (forall q | q in plan :: q > 0)
    ensures Sum(plan) == quantity
    ensures |plan| == 1 <==> quantity == 1
    ensures |plan| == 2 ==> plan[0] <= plan[1] <= plan[0] + 1
  {
    if quantity == 1 then [1]
    else
      var plan := [quantity / 2, quantity - quantity / 2];
      assert plan[..1] == [quantity / 2] && plan[..1][..0] == [] && Sum(plan[..1]) == quantity / 2;
      plan
  }

  function Sum(quantities: seq<nat>): nat {
    if quantities == [] then 0
    else Sum(quantities[..|quantities| - 1]) + quantities[|quantities| - 1]
  }

  function Quantities(fills: seq<Fill>): seq<nat> {
    seq(|fills|, i requires 0 <= i < |fills| => fills[i].quantity)
  }

  // ---------------------------------------------------------------------------
  // Stored history
  // ---------------------------------------------------------------------------

  /** What is wrong with the k-th stored fill, judged on its own. */
  function EntryProblem(
    orderId: OrderId, acceptedAt: Time, plan: seq<nat>, price: Price, currency: string, k: nat, f: Fill)
    : Option<string>
    requires k < |plan|
  {
    if f.orderId != orderId then Some("order_mismatch")
    else if f.sequence != k + 1 then Some("sequence_mismatch")
    else if f.key != ExecutionKey(orderId, k + 1) then Some("execution_key_mismatch")
    else if f.quantity != plan[k] then Some("quantity_mismatch")
    else if f.price != price then Some("price_mismatch")
    else if f.fee.amount != 0 then Some("nonzero_fee")
    else if f.fee.currency != currency then Some("fee_currency_mismatch")
    else if f.executedAt < acceptedAt then Some("execution_precedes_acceptance")
    else None
  }

  /** The first entry that fails, or the total filled so far. */
  function ScanHistory(
    orderId: OrderId, acceptedAt: Time, plan: seq<nat>, price: Price, currency: string,
    fills: seq<Fill>, n: nat)
    : Result<nat, string>
    requires n <= |fills| <= |plan|
  {
    if n == 0 then Ok(0)
    else
      match ScanHistory(orderId, acceptedAt, plan, price, currency, fills, n - 1)
      case Err(reason) => Err(reason)
      case Ok(total) =>
        match EntryProblem(orderId, acceptedAt, plan, price, currency, n - 1, fills[n - 1])
        case Some(reason) => Err(reason)
        case None =>
          if total + fills[n - 1].quantity > Sum(plan) then Err("overfill")
          else Ok(total + fills[n - 1].quantity)
  }

  function StatusProblem(status: OrderStatus, requested: nat, count: nat, total: nat): Option<string> {
    if status == ACCEPTED then
      if count != 0 then Some("accepted_order_has_fills") else None
    else if status == PARTIALLY_FILLED then
      if requested < 2 || count != 1 then Some("partial_order_history_shape")
      else if total >= requested then Some("partial_order_not_remaining")
      else None
    else Some("order_status_not_fillable")
  }

  function HistoryVerdict(
    orderId: OrderId, status: OrderStatus, acceptedAt: Time, plan: seq<nat>, price: Price,
    currency: string, fills: seq<Fill>)
    : Result<nat, string>
  {
    if |fills| > |plan| then Err("too_many_fills")
    else
      match ScanHistory(orderId, acceptedAt, plan, price, currency, fills, |fills|)
      case Err(reason) => Err(reason)
      case Ok(total) =>
        match StatusProblem(status, Sum(plan), |fills|, total)
        case Some(reason) => Err(reason)
        case None => Ok(total)
  }

  method ValidateFillHistory(
    orderId: OrderId, status: OrderStatus, acceptedAt: Time, plan: seq<nat>, price: Price,
    currency: string, fills: seq<Fill>)
    returns (verdict: Result<nat, string>)
    ensures verdict == HistoryVerdict(orderId, status, acceptedAt, plan, price, currency, fills)
  {
    if |fills| > |plan| {
      return Err("too_many_fills");
    }
    var cumulative := 0;
    var k := 0;
    while k < |fills|
      invariant 0 <= k <= |fills|
      invariant ScanHistory(orderId, acceptedAt, plan, price, currency, fills, k) == Ok(cumulative)
    {
      var problem := EntryProblem(orderId, acceptedAt, plan, price, currency, k, fills[k]);
      if problem.Some? {
        ScanStops(orderId, acceptedAt, plan, price, currency, fills, k + 1, |fills|);
        return Err(problem.value);
      }
      cumulative := cumulative + fills[k].quantity;
      if cumulative > Sum(plan) {
        ScanStops(orderId, acceptedAt, plan, price, currency, fills, k + 1, |fills|);
        return Err("overfill");
      }
      k := k + 1;
    }
    var problem := StatusProblem(status, Sum(plan), |fills|, cumulative);
    return if problem.Some? then Err(problem.value) else Ok(cumulative);
  }

  /** A scan that failed keeps its first reason. */
  lemma {:induction false} ScanStops(
    orderId: OrderId, acceptedAt: Time, plan: seq<nat>, price: Price, currency: string,
    fills: seq<Fill>, i: nat, j: nat)
    requires i <= j <= |fills| <= |plan|
    requires ScanHistory(orderId, acceptedAt, plan, price, currency, fills, i).Err?
    ensures ScanHistory(orderId, acceptedAt, plan, price, currency, fills, j)
            == ScanHistory(orderId, acceptedAt, plan, price, currency, fills, i)
  {
    if i < j {
      ScanStops(orderId, acceptedAt, plan, price, currency, fills, i, j - 1);
    }
  }

  /** The k-th stored fill is the k-th planned chunk of this order, free of charge, at this
      price and not before acceptance. */
  predicate PlannedEntry(
    orderId: OrderId, acceptedAt: Time, plan: seq<nat>, price: Price, currency: string, k: nat, f: Fill)
    requires k < |plan|
  {
    && f.orderId == orderId && f.sequence == k + 1 && f.key == ExecutionKey(orderId, k + 1)
    && f.quantity == plan[k] && f.price == price && f.fee == Money(0, currency)
    && acceptedAt <= f.executedAt
  }

  /** The reason names something that is wrong with the k-th stored fill. */
  predicate Blames(
    reason: string, orderId: OrderId, acceptedAt: Time, plan: seq<nat>, price: Price, currency: string, k: nat,
    f: Fill)
    requires k < |plan|
  {
    || (reason == "order_mismatch" && f.orderId != orderId)
    || (reason == "sequence_mismatch" && f.sequence != k + 1)
    || (reason == "execution_key_mismatch" && f.key != ExecutionKey(orderId, k + 1))
    || (reason == "quantity_mismatch" && f.quantity != plan[k])
    || (reason == "price_mismatch" && f.price != price)
    || (reason == "nonzero_fee" && f.fee.amount != 0)
    || (reason == "fee_currency_mismatch" && f.fee.currency != currency)
    || (reason == "execution_precedes_acceptance" && f.executedAt < acceptedAt)
  }

  lemma EntryProblemMeans(
    orderId: OrderId, acceptedAt: Time, plan: seq<nat>, price: Price, currency: string, k: nat, f: Fill)
    requires k < |plan|
    ensures match EntryProblem(orderId, acceptedAt, plan, price, currency, k, f)
            case None => PlannedEntry(orderId, acceptedAt, plan, price, currency, k, f)
            case Some(reason) =>
              && !PlannedEntry(orderId, acceptedAt, plan, price, currency, k, f)
              && Blames(reason, orderId, acceptedAt, plan, price, currency, k, f) && reason != "overfill"
  {
  }

  /** Entry k is the first that is not as planned, and the reason names what is wrong with it. */
  ghost predicate BlamesFirst(
    reason: string, orderId: OrderId, acceptedAt: Time, plan: seq<nat>, price: Price, currency: string,
    fills: seq<Fill>, k: nat)
    requires k < |fills| <= |plan|
  {
    && (forall j :: 0 <= j < k ==> PlannedEntry(orderId, acceptedAt, plan, price, currency, j, fills[j]))
    && !PlannedEntry(orderId, acceptedAt, plan, price, currency, k, fills[k])
    && Blames(reason, orderId, acceptedAt, plan, price, currency, k, fills[k])
  }

  lemma {:induction false} ScanMeans(
    orderId: OrderId, acceptedAt: Time, plan: seq<nat>, price: Price, currency: string,
    fills: seq<Fill>, n: nat)
    requires n <= |fills| <= |plan|
    ensures var scan := ScanHistory(orderId, acceptedAt, plan, price, currency, fills, n);
            && (scan.Ok? <==> forall k :: 0 <= k < n ==>
                                PlannedEntry(orderId, acceptedAt, plan, price, currency, k, fills[k]))
            && (scan.Ok? ==> scan.value == Sum(plan[..n]))
            && (scan.Err? ==> scan.error != "overfill"
                              && exists k :: 0 <= k < n
                                   && BlamesFirst(scan.error, orderId, acceptedAt, plan, price, currency, fills, k))
  {
    hide EntryProblem, PlannedEntry, Blames;
    if n > 0 {
      ScanMeans(orderId, acceptedAt, plan, price, currency, fills, n - 1);
      EntryProblemMeans(orderId, acceptedAt, plan, price, currency, n - 1, fills[n - 1]);
      assert plan[..n][..n - 1] == plan[..n - 1];
      PrefixFits(plan, n);
      if PlannedEntry(orderId, acceptedAt, plan, price, currency, n - 1, fills[n - 1]) {
        EntryQuantity(orderId, acceptedAt, plan, price, currency, n - 1, fills[n - 1]);
      } else if ScanHistory(orderId, acceptedAt, plan, price, currency, fills, n - 1).Ok? {
        var problem := EntryProblem(orderId, acceptedAt, plan, price, currency, n - 1, fills[n - 1]);
        assert BlamesFirst(problem.value, orderId, acceptedAt, plan, price, currency, fills, n - 1);
      }
    }
  }

  lemma EntryQuantity(
    orderId: OrderId, acceptedAt: Time, plan: seq<nat>, price: Price, currency: string, k: nat, f: Fill)
    requires k < |plan| && PlannedEntry(orderId, acceptedAt, plan, price, currency, k, f)
    ensures f.quantity == plan[k]
  {
  }

  lemma {:induction false} PrefixFits(plan: seq<nat>, n: nat)
    requires n <= |plan|
    ensures Sum(plan[..n]) <= Sum(plan)
    decreases |plan| - n
  {
    if n < |plan| {
      assert plan[..n + 1][..n] == plan[..n];
      PrefixFits(plan, n + 1);
    } else {
      assert plan[..n] == plan;
    }
  }

  /** The history check accepts exactly the planned beginning of an order, one chunk long when
      the order is partially filled and empty when it is only accepted; overfilling is never
      the reason for a rejection. */
  lemma HistoryAcceptedIff(
    orderId: OrderId, status: OrderStatus, acceptedAt: Time, quantity: nat, price: Price,
    currency: string, fills: seq<Fill>)
    requires quantity > 0
    ensures var plan := SplitPlan(quantity);
            var verdict := HistoryVerdict(orderId, status, acceptedAt, plan, price, currency, fills);
            && (verdict.Ok? <==>
                  && |fills| <= |plan|
                  && (forall k :: 0 <= k < |fills| ==>
                        PlannedEntry(orderId, acceptedAt, plan, price, currency, k, fills[k]))
                  && ((status == ACCEPTED && fills == [])
                      || (status == PARTIALLY_FILLED && |fills| == 1 && quantity > 1)))
            && (verdict.Ok? ==> verdict.value == if fills == [] then 0 else quantity / 2)
            && verdict != Err("overfill")
  {
    hide ScanHistory, PlannedEntry, Blames, BlamesFirst;
    var plan := SplitPlan(quantity);
    FirstSums(quantity);
    hide Sum, SplitPlan;
    if |fills| <= |plan| {
      ScanMeans(orderId, acceptedAt, plan, price, currency, fills, |fills|);
      assert |fills| == 0 ==> fills == [];
    }
  }

  /** What is filled after no chunk, and after the first of two. */
  lemma FirstSums(quantity: nat)
    requires quantity > 0
    ensures Sum(SplitPlan(quantity)[..0]) == 0
    ensures Sum(SplitPlan(quantity)[..1]) == if quantity == 1 then 1 else quantity / 2
  {
    var plan := SplitPlan(quantity);
    assert plan[..0] == [] && plan[..1] == [plan[0]] && plan[..1][..0] == [];
  }

  /** Why a history is rejected: too many fills, the first fill that is not as planned, or a
      number of fills that does not go with the status. */
  lemma HistoryRejectedBecause(
    orderId: OrderId, status: OrderStatus, acceptedAt: Time, quantity: nat, price: Price,
    currency: string, fills: seq<Fill>)
    requires quantity > 0
    requires HistoryVerdict(orderId, status, acceptedAt, SplitPlan(quantity), price, currency, fills).Err?
    ensures var plan := SplitPlan(quantity);
            var reason := HistoryVerdict(orderId, status, acceptedAt, plan, price, currency, fills).error;
            if |fills| > |plan| then reason == "too_many_fills"
            else if forall k :: 0 <= k < |fills| ==>
                      PlannedEntry(orderId, acceptedAt, plan, price, currency, k, fills[k])
            then reason == if status == ACCEPTED then "accepted_order_has_fills"
                           else if status == PARTIALLY_FILLED then "partial_order_history_shape"
                           else "order_status_not_fillable"
            else exists k :: 0 <= k < |fills|
                   && BlamesFirst(reason, orderId, acceptedAt, plan, price, currency, fills, k)
  {
    hide ScanHistory, PlannedEntry, Blames, BlamesFirst;
    var plan := SplitPlan(quantity);
    FirstSums(quantity);
    hide Sum, SplitPlan;
    if |fills| <= |plan| {
      ScanMeans(orderId, acceptedAt, plan, price, currency, fills, |fills|);
    }
  }

  /** A history the service accepts always leaves a planned quantity to execute, so
      "fill_plan_exhausted" is never reported. */
  lemma {:induction false} AcceptedHistoryLeavesWork(
    orderId: OrderId, status: OrderStatus, acceptedAt: Time, quantity: nat, price: Price,
    currency: string, fills: seq<Fill>)
    requires quantity > 0
    requires HistoryVerdict(orderId, status, acceptedAt, SplitPlan(quantity), price, currency, fills).Ok?
    ensures |fills| < |SplitPlan(quantity)|
    ensures |fills| == if status == ACCEPTED then 0 else 1
    ensures HistoryVerdict(orderId, status, acceptedAt, SplitPlan(quantity), price, currency, fills).value
            == Sum(SplitPlan(quantity)[..|fills|])
  {
    var plan := SplitPlan(quantity);
    if |fills| == 1 {
      assert ScanHistory(orderId, acceptedAt, plan, price, currency, fills, 0) == Ok(0);
      assert plan[..1] == [plan[0]] && plan[..1][..0] == [];
    }
  }

  // ---------------------------------------------------------------------------
  // Planning: the reads and checks of one call
  // ---------------------------------------------------------------------------

  predicate AcceptedShape(intent: Intent) {
    && intent.currency == USD
    && intent.side == BUY
    && intent.orderType == MARKET
    && intent.limitPrice == None
    && intent.timeInForce == DAY
    && intent.quantity > 0
  }

  /** The order row is read first; the source chain and the fills may be read later. */
  function PlanFill(first: Ledger, later: Ledger, orderId: OrderId, now: Time, fillId: FillId)
    : Result<FillWrite, FillFailure>
  {
    if orderId !in first.orders then Err(OrderNotFound)
    else
      var order := first.orders[orderId];
      if order.brokerCode != INTERNAL_PAPER then Err(UnsupportedBroker)
      else if order.status != ACCEPTED && order.status != PARTIALLY_FILLED then Err(NotFillable)
      else if order.intentId !in later.intents then Err(SourceInvalid("trade_intent_missing"))
      else
        var intent := later.intents[order.intentId];
        if intent.decisionId !in later.decisions then Err(SourceInvalid("strategy_decision_missing"))
        else
          var candidateId := later.decisions[intent.decisionId].candidateId;
          if candidateId !in later.candidates then Err(SourceInvalid("candidate_missing"))
          else
            var snapshotId := later.candidates[candidateId].snapshotId;
            if snapshotId !in later.snapshots then Err(SourceInvalid("market_snapshot_missing"))
            else
              PlanSourced(order, orderId, intent, later.snapshots[snapshotId],
                          FillsOf(later.fills, orderId), now, fillId)
  }

  function PlanSourced(
    order: Order, orderId: OrderId, intent: Intent, snapshot: Snapshot, fills: seq<Fill>, now: Time,
    fillId: FillId)
    : Result<FillWrite, FillFailure>
  {
    if intent.symbol != snapshot.symbol then Err(SourceInvalid("symbol_mismatch"))
    else if !AcceptedShape(intent) then Err(SourceInvalid("accepted_request_shape_mismatch"))
    else if order.acceptedAt == None then Err(HistoryInvalid("acceptance_missing"))
    else
      var plan := SplitPlan(intent.quantity);
      match HistoryVerdict(orderId, order.status, order.acceptedAt.value, plan, snapshot.lastPrice,
                           intent.currency, fills)
      case Err(reason) => Err(HistoryInvalid(reason))
      case Ok(cumulative) =>
        if |fills| >= |plan| then Err(HistoryInvalid("fill_plan_exhausted"))
        else if now < order.updatedAt then Err(SourceInvalid("clock_precedes_order"))
        else
          var fill := Fill(fillId, orderId, ExecutionKey(orderId, |fills| + 1), |fills| + 1,
                           plan[|fills|], snapshot.lastPrice, Money(0, intent.currency), now);
          var final := cumulative + fill.quantity == intent.quantity;
          Ok(FillWrite(fill, OrderTransition(orderId, order.status, order.version,
                                             if final then FILLED else PARTIALLY_FILLED,
                                             if final then Some(now) else None, now)))
  }

  /** `PaperOrderFillTransition` refuses every other step and timestamp shape. */
  predicate TransitionAllowed(t: OrderTransition) {
    && (t.expectedStatus, t.newStatus) in
       {(ACCEPTED, PARTIALLY_FILLED), (ACCEPTED, FILLED), (PARTIALLY_FILLED, FILLED)}
    && (if t.newStatus == PARTIALLY_FILLED then t.closedAt == None else t.closedAt == Some(t.updatedAt))
  }

  /** Every transition the service builds is one its own contract allows. */
  lemma {:induction false} PlannedTransitionAllowed(
    first: Ledger, later: Ledger, orderId: OrderId, now: Time, fillId: FillId)
    requires PlanFill(first, later, orderId, now, fillId).Ok?
    ensures TransitionAllowed(PlanFill(first, later, orderId, now, fillId).value.transition)
  {
    var order := first.orders[orderId];
    var intent := later.intents[order.intentId];
    var snapshot := later.snapshots[later.candidates[later.decisions[intent.decisionId].candidateId].snapshotId];
    var fills := FillsOf(later.fills, orderId);
    AcceptedHistoryLeavesWork(orderId, order.status, order.acceptedAt.value, intent.quantity,
                              snapshot.lastPrice, intent.currency, fills);
    var plan := SplitPlan(intent.quantity);
    if |fills| == 1 {
      assert plan[..2] == plan && plan[..2][..1] == plan[..1];
    }
  }

  // ---------------------------------------------------------------------------
  // Writing
  // ---------------------------------------------------------------------------

  /** The two writes of a planned fill. */
  function ApplyFill(db: Ledger, write: FillWrite, pick: nat): (Ledger, FillOutcome) {
    match AddFill(db, write.fill, pick)
    case Err(Duplicate(_)) => (db, FillFailed(FillConflict))
    case Err(_) => (db, FillFailed(FillPersistence))
    case Ok(withFill) =>
      match TransitionAfterFill(withFill, write.transition)
      case Err(_) => (db, FillFailed(OrderConcurrency))
      case Ok(done) => (done, Filled(write.fill, done.orders[write.transition.orderId]))
  }

  function ExecuteNextResult(
    first: Ledger, later: Ledger, db: Ledger, orderId: OrderId, now: Time, fillId: FillId, pick: nat)
    : (Ledger, FillOutcome)
  {
    match PlanFill(first, later, orderId, now, fillId)
    case Err(failure) => (db, FillFailed(failure))
    case Ok(write) => ApplyFill(db, write, pick)
  }

  method WriteFill(u: UnitOfWork<Ledger, DbError>, write: FillWrite, pick: nat, faults: Faults)
    returns (outcome: FillOutcome)
    requires Ready(u)
    modifies u
    ensures Inside(u)
    ensures var (after, expected) := ApplyFill(old(u.staged), write, pick);
            && (outcome == expected || (outcome == FillFailed(FillPersistence) && faults.write != None))
            && (expected.Filled? ==> outcome == if faults.write in {Some(0), Some(1)}
                                                then FillFailed(FillPersistence) else expected)
            && (outcome.Filled? ==> Ready(u) && u.staged == after)
  {
    var added := u.Operate(db => AddFill(db, write.fill, pick), faults.write == Some(0));
    if !added.Returned? {
      return FillFailed(if added.Rejected? && added.error.Duplicate? then FillConflict else FillPersistence);
    }
    var moved := u.Operate(db => TransitionAfterFill(db, write.transition), faults.write == Some(1));
    if !moved.Returned? {
      return FillFailed(if moved.Rejected? then OrderConcurrency else FillPersistence);
    }
    return Filled(write.fill, u.staged.orders[write.transition.orderId]);
  }

  /** One call of the service.  `first` and `later` are the committed ledgers its reads
      saw; the writes meet whatever the database holds now. */
  method ExecuteNext(
    database: Database<Ledger>, first: Ledger, later: Ledger, orderId: OrderId, now: Time,
    fillId: FillId, pick: nat, faults: Faults)
    returns (outcome: FillOutcome)
    modifies database
    ensures var complete := ExecuteNextResult(first, later, old(database.contents), orderId, now, fillId, pick);
            EndsRight(old(database.contents), database.contents, outcome, complete, complete.1.Filled?,
                      FillFailed(FillPersistence), 2, faults)
  {
    hide PlanFill, ApplyFill;
    var u, entered := Begin<Ledger, DbError>(database, faults);
    if !entered {
      return FillFailed(FillPersistence);
    }
    var readable := Read(u, faults);
    if !readable {
      var _ := Abandon(u, false, faults);
      return FillFailed(FillPersistence);
    }
    var planned := PlanFill(first, later, orderId, now, fillId);
    if planned.Err? {
      var _ := Abandon(u, false, faults);
      return FillFailed(planned.error);
    }
    outcome := WriteFill(u, planned.value, pick, faults);
    if outcome.FillFailed? {
      RefusedFill(u.database.contents, planned.value, pick);
      var undone := Abandon(u, outcome.failure != FillPersistence, faults);
      return if undone then outcome else FillFailed(FillPersistence);
    }
    var finished := Finish(u, faults);
    return if finished then outcome else FillFailed(FillPersistence);
  }

  /** Writes that fail leave nothing behind. */
  lemma RefusedFill(db: Ledger, write: FillWrite, pick: nat)
    ensures ApplyFill(db, write, pick).1.FillFailed? ==> ApplyFill(db, write, pick).0 == db
  {
  }
}
