/** One intent per decision and one order per intent, in every ledger of every run; every
    intent from the batch that asked for it, and every order from the submission that the
    broker answered. */
module LedgerKeys {
  import opened Outcomes
  import opened LedgerTables
  import opened PaperFills
  import opened LedgerInvariant
  import opened LedgerSteps
  import opened LedgerRuns
  import opened LedgerReplay
  import TI = TradeIntents
  import PO = PaperOrders
  import PP = PositionProjection

  ghost predicate IntentsUnique(intents: map<IntentId, Intent>) {
    forall i, j | i in intents && j in intents ::
      intents[i].decisionId == intents[j].decisionId || intents[i].key == intents[j].key ==> i == j
  }

  ghost predicate OrdersUnique(orders: map<OrderId, Order>) {
    && (forall o :: o in orders ==> orders[o].clientOrderId == ClientOrderId(orders[o].intentId))
    && (forall o, p :: o in orders && p in orders && orders[o].intentId == orders[p].intentId ==> o == p)
    && forall o, p | o in orders && p in orders && orders[o].brokerReference.Some? ::
         (orders[o].brokerCode, orders[o].brokerReference) == (orders[p].brokerCode, orders[p].brokerReference)
         ==> o == p
  }

  /** An order keeps what identifies it while its status moves. */
  ghost predicate SameIdentity(a: Order, b: Order) {
    && b.intentId == a.intentId && b.clientOrderId == a.clientOrderId
    && b.brokerCode == a.brokerCode && b.brokerReference == a.brokerReference
    && b.submittedAt == a.submittedAt && b.acceptedAt == a.acceptedAt
    && b.rejectionCode == a.rejectionCode
  }

  ghost predicate SameIdentities(a: map<OrderId, Order>, b: map<OrderId, Order>) {
    a.Keys == b.Keys && forall o :: o in a ==> SameIdentity(a[o], b[o])
  }

  lemma {:induction false} AddAllKeepsKeys(
    db: Ledger, rows: seq<Intent>, ids: seq<IntentId>, pick: nat, n: nat)
    requires n <= |rows| && TI.AddAll(db, rows, ids, pick, n).Ok? && IntentsUnique(db.intents)
    ensures IntentsUnique(TI.AddAll(db, rows, ids, pick, n).value.intents)
    ensures TI.AddAll(db, rows, ids, pick, n).value.orders == db.orders
  {
    if n > 0 {
      AddAllKeepsKeys(db, rows, ids, pick, n - 1);
    }
  }

  lemma CreateAllKeepsKeys(
    view: Ledger, db: Ledger, candidateId: CandidateId, strategies: seq<TI.Strategy>,
    policy: TI.RiskPolicy, now: Time, ids: seq<IntentId>, pick: nat)
    requires IntentsUnique(db.intents)
    ensures var after := TI.CreateAllResult(view, db, candidateId, strategies, policy, now, ids, pick).0;
            IntentsUnique(after.intents) && after.orders == db.orders
  {
    hide TI.PlanIntents, IntentsUnique, TI.AddAll;
    var planned := TI.PlanIntents(view, candidateId, strategies, policy, now);
    if planned.Ok? && TI.AddAll(db, planned.value, ids, pick, |planned.value|).Ok? {
      AddAllKeepsKeys(db, planned.value, ids, pick, |planned.value|);
    }
  }

  /** A submitted order is for the intent asked for, with the broker's answer in it: exactly
      one of acceptance and closing is recorded, at the time the broker processed it. */
  lemma SubmittedOrder(
    view: Ledger, db: Ledger, intentId: IntentId, brokerCode: string, submittedAt: Time,
    answer: PO.BrokerAnswer, orderId: OrderId, pick: nat)
    requires PO.SubmitResult(view, db, intentId, brokerCode, submittedAt, answer, orderId, pick).1.Submitted?
    ensures var order := PO.SubmitResult(view, db, intentId, brokerCode, submittedAt, answer, orderId, pick).1.order;
            && answer.Answered? && order.brokerCode == brokerCode == answer.reply.brokerCode
            && order.intentId == intentId && order.clientOrderId == ClientOrderId(intentId)
            && order.brokerReference == PO.ReferenceOf(answer.reply)
            && order.submittedAt == submittedAt <= answer.reply.processedAt
            && (order.status == ACCEPTED <==> answer.reply.AcceptedReply?)
            && (order.status == REJECTED <==> answer.reply.RejectedReply?)
            && order.acceptedAt == (if order.status == ACCEPTED then Some(answer.reply.processedAt) else None)
            && order.closedAt == (if order.status == ACCEPTED then None else Some(answer.reply.processedAt))
            && order.rejectionCode == (if answer.reply.RejectedReply? then Some(answer.reply.code) else None)
            && order.version == 1 && order.updatedAt == answer.reply.processedAt
  {
    hide AddOrder;
  }

  lemma NewOrderKeepsKeys(db: Ledger, o: OrderId, row: Order, pick: nat)
    requires AddOrder(db, o, row, pick).Ok? && OrdersUnique(db.orders)
    requires row.clientOrderId == ClientOrderId(row.intentId)
    ensures OrdersUnique(AddOrder(db, o, row, pick).value.orders)
    ensures AddOrder(db, o, row, pick).value.intents == db.intents
  {
  }

  lemma SubmitKeepsKeys(
    view: Ledger, db: Ledger, intentId: IntentId, brokerCode: string, submittedAt: Time,
    answer: PO.BrokerAnswer, orderId: OrderId, pick: nat)
    requires OrdersUnique(db.orders)
    ensures var after := PO.SubmitResult(view, db, intentId, brokerCode, submittedAt, answer, orderId, pick).0;
            OrdersUnique(after.orders) && after.intents == db.intents
  {
    hide AddOrder, OrdersUnique;
    var planned := PO.PlanOrder(view, intentId, brokerCode, submittedAt, answer);
    if planned.Ok? && AddOrder(db, orderId, planned.value, pick).Ok? {
      NewOrderKeepsKeys(db, orderId, planned.value, pick);
    }
  }

  lemma ApplyFillKeepsIdentities(db: Ledger, write: FillWrite, pick: nat)
    ensures var after := ApplyFill(db, write, pick).0;
            SameIdentities(db.orders, after.orders) && after.intents == db.intents
  {
    hide AddFill;
    AddFillTouches(db, write.fill, pick);
  }

  lemma AddFillTouches(db: Ledger, row: Fill, pick: nat)
    ensures AddFill(db, row, pick).Ok? ==>
              var after := AddFill(db, row, pick).value; after.orders == db.orders && after.intents == db.intents
  {
  }

  lemma ExecuteKeepsIdentities(
    first: Ledger, later: Ledger, db: Ledger, o: OrderId, now: Time, fillId: FillId, pick: nat)
    ensures var after := ExecuteNextResult(first, later, db, o, now, fillId, pick).0;
            SameIdentities(db.orders, after.orders) && after.intents == db.intents
  {
    hide PlanFill, ApplyFill;
    var planned := PlanFill(first, later, o, now, fillId);
    if planned.Ok? {
      ApplyFillKeepsIdentities(db, planned.value, pick);
    }
  }

  lemma SameIdentitiesUnique(a: map<OrderId, Order>, b: map<OrderId, Order>)
    requires SameIdentities(a, b) && OrdersUnique(a)
    ensures OrdersUnique(b)
  {
  }

  /** Projections write positions and events, and no other table. */
  lemma ApplyTouches(db: Ledger, write: PP.ProjectionWrite, pick: nat)
    ensures var after := PP.ApplyProjection(db, write, pick).0;
            after == db.(positions := after.positions, events := after.events)
  {
    hide OpenIds;
  }

  lemma ProjectTouches(
    eventView: Ledger, sourceView: Ledger, positionView: Ledger, db: Ledger, fillId: FillId,
    positionId: PositionId, eventId: EventId, pick: nat)
    ensures var after := PP.ProjectOnceResult(eventView, sourceView, positionView, db, fillId, positionId,
                                              eventId, pick).0;
            after == db.(positions := after.positions, events := after.events)
  {
    hide PP.LoadSource, PP.PlanProjection, PP.ApplyProjection;
    var source := PP.LoadSource(sourceView, fillId);
    if source.Ok? {
      PP.LoadedQuantity(sourceView, fillId);
      var planned := PP.PlanProjection(positionView, source.value, positionId, eventId);
      if planned.Ok? {
        ApplyTouches(db, planned.value, pick);
      }
    }
  }

  lemma CompleteKeepsKeys(run: Run, call: Call)
    requires run.history != []
    requires IntentsUnique(Last(run).intents) && OrdersUnique(Last(run).orders)
    ensures IntentsUnique(Complete(run, call).0.intents) && OrdersUnique(Complete(run, call).0.orders)
  {
    hide IntentsUnique, OrdersUnique, SameIdentities, TI.CreateAllResult, PO.SubmitResult,
         ExecuteNextResult, PP.ProjectOnceResult;
    var db := Last(run);
    match call {
      case Store(row) => ReferenceTouches(db, row);
      case CreateIntents(view, candidateId, strategies, policy, now, ids, pick) =>
        CreateAllKeepsKeys(At(run, view), db, candidateId, strategies, policy, now, ids, pick);
      case SubmitOrder(view, intentId, brokerCode, submittedAt, answer, orderId, pick) =>
        SubmitKeepsKeys(At(run, view), db, intentId, brokerCode, submittedAt, answer, orderId, pick);
      case ExecuteFill(first, later, orderId, now, fillId, pick) =>
        ExecuteKeepsIdentities(At(run, first), At(run, later), db, orderId, now, fillId, pick);
        SameIdentitiesUnique(db.orders, Complete(run, call).0.orders);
      case Project(eventView, sourceView, positionView, fillId, positionId, eventId, pick) =>
        ProjectTouches(At(run, eventView), At(run, sourceView), At(run, positionView), db, fillId,
                       positionId, eventId, pick);
      case Reread(_) =>
    }
  }

  /** Over every interleaving a decision leads to at most one intent, and an intent to at most
      one order; no broker reference is used twice. */
  lemma {:induction false} OneOrderPerIntent(calls: seq<Request>, run: Run, i: nat)
    requires Behaves(calls, run) && i <= |calls|
    ensures IntentsUnique(run.history[i].intents) && OrdersUnique(run.history[i].orders)
  {
    if i > 0 {
      hide IntentsUnique, OrdersUnique, Complete;
      OneOrderPerIntent(calls, run, i - 1);
      assert Served(calls, run, i - 1);
      CompleteKeepsKeys(Before(run, i - 1), calls[i - 1].call);
    }
  }

  // ---------------------------------------------------------------------------
  // Where orders come from
  // ---------------------------------------------------------------------------

  /** The order carries what this submission asked for and what the broker answered. */
  ghost predicate CameFrom(order: Order, o: OrderId, call: Call) {
    && call.SubmitOrder? && call.orderId == o && call.answer.Answered?
    && var reply := call.answer.reply;
    && order.intentId == call.intentId && order.clientOrderId == ClientOrderId(call.intentId)
    && order.brokerCode == call.brokerCode == reply.brokerCode
    && order.brokerReference == PO.ReferenceOf(reply)
    && order.submittedAt == call.submittedAt <= reply.processedAt
    && order.acceptedAt == (if reply.AcceptedReply? then Some(reply.processedAt) else None)
    && order.rejectionCode == (if reply.RejectedReply? then Some(reply.code) else None)
  }

  lemma StoredOrder(run: Run, call: Call)
    requires run.history != [] && call.SubmitOrder?
    ensures var after := Complete(run, call).0;
            && (after == Last(run)
                || (call.orderId !in Last(run).orders && call.orderId in after.orders
                    && after.orders == Last(run).orders[call.orderId := after.orders[call.orderId]]
                    && CameFrom(after.orders[call.orderId], call.orderId, call)))
  {
    hide PO.SubmitResult;
    var view, db := At(run, call.view), Last(run);
    if Refused(Complete(run, call).1) {
      RefusedComplete(run, call);
    } else {
      SubmittedRow(view, db, call.intentId, call.brokerCode, call.submittedAt, call.answer, call.orderId, call.pick);
      SubmittedOrder(view, db, call.intentId, call.brokerCode, call.submittedAt, call.answer, call.orderId, call.pick);
    }
  }

  /** Only a submission adds an order, and no call changes what identifies one. */
  lemma OthersKeepOrders(run: Run, call: Call)
    requires run.history != [] && !call.SubmitOrder?
    ensures SameIdentities(Last(run).orders, Complete(run, call).0.orders)
  {
    hide TI.CreateAllResult, ExecuteNextResult, PP.ProjectOnceResult;
    var db := Last(run);
    match call {
      case Store(row) => ReferenceTouches(db, row);
      case CreateIntents(view, candidateId, strategies, policy, now, ids, pick) =>
        CreateAllTouches(At(run, view), db, candidateId, strategies, policy, now, ids, pick);
      case ExecuteFill(first, later, orderId, now, fillId, pick) =>
        ExecuteKeepsIdentities(At(run, first), At(run, later), db, orderId, now, fillId, pick);
      case Project(eventView, sourceView, positionView, fillId, positionId, eventId, pick) =>
        ProjectTouches(At(run, eventView), At(run, sourceView), At(run, positionView), db, fillId,
                       positionId, eventId, pick);
      case Reread(_) =>
    }
  }

  /** Every order of every ledger of every run was stored by one submission, reported or not,
      and carries its intent, its times and the broker's answer ever after. */
  lemma {:induction false} OrderHasItsCall(calls: seq<Request>, run: Run, i: nat, o: OrderId) returns (n: nat)
    requires Behaves(calls, run) && i <= |calls| && o in run.history[i].orders
    ensures n < i && !calls[n].ending.Unwritten? && o !in run.history[n].orders
    ensures CameFrom(run.history[i].orders[o], o, calls[n].call)
  {
    hide Complete, FaultAnswer;
    var before, call := Before(run, i - 1), calls[i - 1].call;
    HowItEnded(calls, run, i - 1);
    if call.SubmitOrder? {
      StoredOrder(before, call);
    } else {
      OthersKeepOrders(before, call);
    }
    if o in run.history[i - 1].orders {
      n := OrderHasItsCall(calls, run, i - 1, o);
    } else {
      n := i - 1;
    }
  }

  // ---------------------------------------------------------------------------
  // Where intents come from
  // ---------------------------------------------------------------------------

  /** The intent is what this call asked for. */
  ghost predicate Planned(db: Ledger, row: Intent, call: Call) {
    && call.CreateIntents?
    && TI.AskedFor(db, row, call.candidateId, call.strategies, call.policy, call.now)
  }

  lemma StoredIntents(run: Run, call: Call, id: IntentId)
    requires run.history != [] && call.CreateIntents? && id in Complete(run, call).0.intents
    ensures id in Last(run).intents ==> Complete(run, call).0.intents[id] == Last(run).intents[id]
    ensures id !in Last(run).intents ==> Planned(At(run, call.view), Complete(run, call).0.intents[id], call)
  {
    hide TI.CreateAllResult, TI.AskedFor, TI.Enters;
    var view, db := At(run, call.view), Last(run);
    if Refused(Complete(run, call).1) {
      RefusedComplete(run, call);
    } else {
      TI.CreatedAre(view, db, call.candidateId, call.strategies, call.policy, call.now, call.ids, call.pick);
    }
  }

  /** No other call touches an intent. */
  lemma OthersKeepIntents(run: Run, call: Call)
    requires run.history != [] && !call.CreateIntents?
    ensures Complete(run, call).0.intents == Last(run).intents
  {
    hide PO.SubmitResult, ExecuteNextResult, PP.ProjectOnceResult;
    var db := Last(run);
    match call {
      case Store(row) => ReferenceTouches(db, row);
      case SubmitOrder(view, intentId, brokerCode, submittedAt, answer, orderId, pick) =>
        SubmitTouches(At(run, view), db, intentId, brokerCode, submittedAt, answer, orderId, pick);
      case ExecuteFill(first, later, orderId, now, fillId, pick) =>
        ExecuteKeepsIdentities(At(run, first), At(run, later), db, orderId, now, fillId, pick);
      case Project(eventView, sourceView, positionView, fillId, positionId, eventId, pick) =>
        ProjectTouches(At(run, eventView), At(run, sourceView), At(run, positionView), db, fillId,
                       positionId, eventId, pick);
      case Reread(_) =>
    }
  }

  lemma PlannedStays(a: Ledger, b: Ledger, row: Intent, call: Call)
    requires Extends(a, b) && Planned(a, row, call)
    ensures Planned(b, row, call)
  {
    hide TI.LargestAffordable;
    var strategy :| strategy in call.strategies && !strategy.observationOnly
                    && TI.Enters(a, row.decisionId, call.candidateId, strategy);
    assert TI.Enters(b, row.decisionId, call.candidateId, strategy);
  }

  /** Every intent of every ledger of every run was stored by one batch, reported or not, and
      is what that batch asked for: the largest affordable buy for an ENTER_LONG decision. */
  lemma {:induction false} IntentHasItsCall(calls: seq<Request>, run: Run, i: nat, id: IntentId) returns (n: nat)
    requires Behaves(calls, run) && i <= |calls| && id in run.history[i].intents
    ensures n < i && !calls[n].ending.Unwritten? && id !in run.history[n].intents
    ensures Planned(run.history[i], run.history[i].intents[id], calls[n].call)
  {
    hide Complete, FaultAnswer, Planned, Extends, Inv;
    var before, call := Before(run, i - 1), calls[i - 1].call;
    HowItEnded(calls, run, i - 1);
    RunsAreSound(calls, run);
    if calls[i - 1].ending.Unwritten? {
    } else if call.CreateIntents? {
      StoredIntents(before, call, id);
    } else {
      OthersKeepIntents(before, call);
    }
    if id in run.history[i - 1].intents {
      n := IntentHasItsCall(calls, run, i - 1, id);
      PlannedStays(run.history[i - 1], run.history[i], run.history[i].intents[id], calls[n].call);
    } else {
      n := i - 1;
      PlannedStays(At(before, call.view), run.history[i], run.history[i].intents[id], call);
    }
  }

  // ---------------------------------------------------------------------------
  // When a submission succeeds
  // ---------------------------------------------------------------------------

  /** The broker answered for itself and not before it was asked. */
  predicate Acceptable(answer: PO.BrokerAnswer, brokerCode: string, submittedAt: Time) {
    answer.Answered? && answer.reply.brokerCode == brokerCode && submittedAt <= answer.reply.processedAt
  }

  /** No other order is for this intent or carries this broker reference. */
  predicate NoRival(db: Ledger, intentId: IntentId, reply: PO.Reply) {
    forall o :: o in db.orders ==>
      && db.orders[o].intentId != intentId
      && !(PO.ReferenceOf(reply).Some? && db.orders[o].brokerCode == reply.brokerCode
           && db.orders[o].brokerReference == PO.ReferenceOf(reply))
  }

  lemma PlannedOrderIff(
    view: Ledger, intentId: IntentId, brokerCode: string, submittedAt: Time, answer: PO.BrokerAnswer)
    requires OrdersUnique(view.orders)
    ensures PO.PlanOrder(view, intentId, brokerCode, submittedAt, answer).Ok?
            <==> intentId in view.intents && Acceptable(answer, brokerCode, submittedAt)
                 && NoRival(view, intentId, answer.reply)
  {
  }

  lemma RivalsStay(a: Ledger, b: Ledger, intentId: IntentId, reply: PO.Reply)
    requires Extends(a, b) && NoRival(b, intentId, reply)
    ensures NoRival(a, intentId, reply)
  {
  }

  lemma AddOrderIff(db: Ledger, o: OrderId, row: Order, reply: PO.Reply, pick: nat)
    requires OrdersUnique(db.orders) && row.intentId in db.intents
    requires row.clientOrderId == ClientOrderId(row.intentId)
    requires row.brokerCode == reply.brokerCode && row.brokerReference == PO.ReferenceOf(reply)
    ensures AddOrder(db, o, row, pick).Ok? <==> o !in db.orders && NoRival(db, row.intentId, reply)
    ensures AddOrder(db, o, row, pick).Err? ==> AddOrder(db, o, row, pick).error.Duplicate?
  {
  }

  /** Who submits: from a view however old, a submission succeeds exactly when the intent was
      there, the broker's answer is acceptable, and nobody else has submitted for the intent or
      used the reference by now.  Losing that race is reported as a conflict. */
  lemma SubmitSucceedsIff(
    view: Ledger, db: Ledger, intentId: IntentId, brokerCode: string, submittedAt: Time,
    answer: PO.BrokerAnswer, orderId: OrderId, pick: nat)
    requires Extends(view, db) && OrdersUnique(view.orders) && OrdersUnique(db.orders)
    ensures PO.SubmitResult(view, db, intentId, brokerCode, submittedAt, answer, orderId, pick).1.Submitted?
            <==> intentId in view.intents && Acceptable(answer, brokerCode, submittedAt)
                 && NoRival(db, intentId, answer.reply) && orderId !in db.orders
    ensures intentId in view.intents && Acceptable(answer, brokerCode, submittedAt)
            && NoRival(view, intentId, answer.reply) && !NoRival(db, intentId, answer.reply) ==>
              PO.SubmitResult(view, db, intentId, brokerCode, submittedAt, answer, orderId, pick).1
              == PO.NotSubmitted(PO.OrderConflict("duplicate_record"))
  {
    hide AddOrder, PO.PlanOrder, NoRival, OrdersUnique;
    PlannedOrderIff(view, intentId, brokerCode, submittedAt, answer);
    var planned := PO.PlanOrder(view, intentId, brokerCode, submittedAt, answer);
    if planned.Ok? {
      PlannedRow(view, intentId, brokerCode, submittedAt, answer);
      assert intentId in db.intents;
      AddOrderIff(db, orderId, planned.value, answer.reply, pick);
    } else if answer.Answered? && NoRival(db, intentId, answer.reply) {
      RivalsStay(view, db, intentId, answer.reply);
    }
  }

  lemma PlannedRow(
    view: Ledger, intentId: IntentId, brokerCode: string, submittedAt: Time, answer: PO.BrokerAnswer)
    requires PO.PlanOrder(view, intentId, brokerCode, submittedAt, answer).Ok?
    ensures var row := PO.PlanOrder(view, intentId, brokerCode, submittedAt, answer).value;
            && answer.Answered? && row.intentId == intentId && row.clientOrderId == ClientOrderId(intentId)
            && row.brokerCode == answer.reply.brokerCode && row.brokerReference == PO.ReferenceOf(answer.reply)
  {
  }

  /** What a refused submission answers, from the state of the view and the broker's answer. */
  lemma SubmitRefusals(
    view: Ledger, db: Ledger, intentId: IntentId, brokerCode: string, submittedAt: Time,
    answer: PO.BrokerAnswer, orderId: OrderId, pick: nat)
    requires OrdersUnique(view.orders)
    ensures var outcome := PO.SubmitResult(view, db, intentId, brokerCode, submittedAt, answer, orderId, pick).1;
            var taken := exists o :: o in view.orders && view.orders[o].intentId == intentId;
            && (outcome == PO.NotSubmitted(PO.IntentNotFound) <==> intentId !in view.intents)
            && (outcome == PO.NotSubmitted(PO.OrderConflict("trade_intent_exists"))
                <==> intentId in view.intents && taken)
            && outcome != PO.NotSubmitted(PO.OrderConflict("client_order_id_exists"))
            && (outcome == PO.NotSubmitted(PO.BrokerSubmissionFailed)
                <==> intentId in view.intents && !taken && answer.BrokerFailed?)
            && (outcome == PO.NotSubmitted(PO.InvalidBrokerResult("broker_code_mismatch"))
                <==> intentId in view.intents && !taken && answer.Answered?
                     && answer.reply.brokerCode != brokerCode)
            && (outcome == PO.NotSubmitted(PO.InvalidBrokerResult("processed_at_precedes_submission"))
                <==> intentId in view.intents && !taken && answer.Answered?
                     && answer.reply.brokerCode == brokerCode && answer.reply.processedAt < submittedAt)
  {
    hide AddOrder;
  }

  /** The answer that a submission owes for the ledger it read and the ledger it met. */
  ghost predicate SubmissionAnswer(view: Ledger, db: Ledger, call: Call, outcome: PO.SubmitOutcome)
    requires call.SubmitOrder?
  {
    var known := call.intentId in view.intents;
    var taken := exists o :: o in view.orders && view.orders[o].intentId == call.intentId;
    var accepted := Acceptable(call.answer, call.brokerCode, call.submittedAt);
    && (outcome.Submitted? <==>
          known && accepted && NoRival(db, call.intentId, call.answer.reply) && call.orderId !in db.orders)
    && (known && accepted && NoRival(view, call.intentId, call.answer.reply)
        && !NoRival(db, call.intentId, call.answer.reply) ==>
          outcome == PO.NotSubmitted(PO.OrderConflict("duplicate_record")))
    && (outcome == PO.NotSubmitted(PO.IntentNotFound) <==> !known)
    && (outcome == PO.NotSubmitted(PO.OrderConflict("trade_intent_exists")) <==> known && taken)
    && outcome != PO.NotSubmitted(PO.OrderConflict("client_order_id_exists"))
    && (outcome == PO.NotSubmitted(PO.BrokerSubmissionFailed)
        <==> known && !taken && call.answer.BrokerFailed?)
    && (outcome == PO.NotSubmitted(PO.InvalidBrokerResult("broker_code_mismatch"))
        <==> known && !taken && call.answer.Answered? && call.answer.reply.brokerCode != call.brokerCode)
    && (outcome == PO.NotSubmitted(PO.InvalidBrokerResult("processed_at_precedes_submission"))
        <==> known && !taken && call.answer.Answered? && call.answer.reply.brokerCode == call.brokerCode
             && call.answer.reply.processedAt < call.submittedAt)
  }

  /** Over every run: whatever a submission had read, the intents it found then, the broker's
      answer and the orders there are now decide what it reports. */
  lemma SubmissionAnswers(calls: seq<Request>, run: Run, i: nat)
    requires Behaves(calls, run) && i < |calls|
    requires calls[i].call.SubmitOrder? && calls[i].ending.Reported?
    ensures run.log[i].SubmitDone?
    ensures SubmissionAnswer(At(Before(run, i), calls[i].call.view), run.history[i], calls[i].call, run.log[i].submit)
  {
    hide FaultAnswer, PO.SubmitResult, Inv, Extends, OrdersUnique, IntentsUnique, NoRival, Acceptable;
    var before, call := Before(run, i), calls[i].call;
    HowItEnded(calls, run, i);
    RunsAreSound(calls, run);
    var seen := if call.view < i then call.view else i;
    assert At(before, call.view) == run.history[seen];
    OneOrderPerIntent(calls, run, seen);
    OneOrderPerIntent(calls, run, i);
    SubmitSucceedsIff(run.history[seen], run.history[i], call.intentId, call.brokerCode, call.submittedAt,
                      call.answer, call.orderId, call.pick);
    SubmitRefusals(run.history[seen], run.history[i], call.intentId, call.brokerCode, call.submittedAt,
                   call.answer, call.orderId, call.pick);
  }
}
