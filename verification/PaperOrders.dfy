/** Atomic submission of one stored intent to a paper broker. */
module PaperOrders {
  import opened Outcomes
  import opened LedgerTables
  import opened UnitsOfWork
  import opened Transactions

  /** A broker answer as its contract allows it: an accepted one carries a reference and
      no rejection code, a rejected one carries a rejection code. */
  datatype Reply =
    | AcceptedReply(brokerCode: string, reference: string, processedAt: Time)
    | RejectedReply(brokerCode: string, optionalReference: Option<string>, processedAt: Time, code: string)

  datatype BrokerAnswer = BrokerFailed | Answered(reply: Reply)

  datatype SubmitFailure =
    | IntentNotFound
    | OrderConflict(category: string)
    | BrokerSubmissionFailed
    | InvalidBrokerResult(reason: string)
    | OrderPersistence

  datatype SubmitOutcome = Submitted(order: Order) | NotSubmitted(failure: SubmitFailure)

  function ReferenceOf(reply: Reply): Option<string> {
    match reply
    case AcceptedReply(_, reference, _) => Some(reference)
    case RejectedReply(_, reference, _, _) => reference
  }

  function NewOrder(intentId: IntentId, submittedAt: Time, reply: Reply): Order {
    var client := ClientOrderId(intentId);
    match reply
    case AcceptedReply(code, reference, at) =>
      Order(intentId, client, code, Some(reference), ACCEPTED, None, submittedAt, Some(at), None, 1, at)
    case RejectedReply(code, reference, at, rejection) =>
      Order(intentId, client, code, reference, REJECTED, Some(rejection), submittedAt, None, Some(at), 1, at)
  }

  function PlanOrder(
    view: Ledger, intentId: IntentId, brokerCode: string, submittedAt: Time, answer: BrokerAnswer)
    : Result<Order, SubmitFailure>
  {
    if intentId !in view.intents then Err(IntentNotFound)
    else if exists k | k in view.orders :: view.orders[k].intentId == intentId
    then Err(OrderConflict("trade_intent_exists"))
    else if exists k | k in view.orders :: view.orders[k].clientOrderId == ClientOrderId(intentId)
    then Err(OrderConflict("client_order_id_exists"))
    else
      match answer
      case BrokerFailed => Err(BrokerSubmissionFailed)
      case Answered(reply) =>
        if reply.brokerCode != brokerCode then Err(InvalidBrokerResult("broker_code_mismatch"))
        else if reply.processedAt < submittedAt
        then Err(InvalidBrokerResult("processed_at_precedes_submission"))
        else if ReferenceOf(reply).Some? && exists k | k in view.orders ::
                  view.orders[k].brokerCode == brokerCode
                  && view.orders[k].brokerReference == ReferenceOf(reply)
        then Err(OrderConflict("broker_reference_exists"))
        else Ok(NewOrder(intentId, submittedAt, reply))
  }

  function SubmitResult(
    view: Ledger, db: Ledger, intentId: IntentId, brokerCode: string, submittedAt: Time,
    answer: BrokerAnswer, orderId: OrderId, pick: nat)
    : (Ledger, SubmitOutcome)
  {
    match PlanOrder(view, intentId, brokerCode, submittedAt, answer)
    case Err(failure) => (db, NotSubmitted(failure))
    case Ok(order) =>
      match AddOrder(db, orderId, order, pick)
      case Err(Duplicate(_)) => (db, NotSubmitted(OrderConflict("duplicate_record")))
      case Err(_) => (db, NotSubmitted(OrderPersistence))
      case Ok(done) => (done, Submitted(order))
  }

  /** One submission. */
  method Submit(
    database: Database<Ledger>, view: Ledger, intentId: IntentId, brokerCode: string,
    submittedAt: Time, answer: BrokerAnswer, orderId: OrderId, pick: nat, faults: Faults)
    returns (outcome: SubmitOutcome)
    modifies database
    ensures var complete := SubmitResult(view, old(database.contents), intentId, brokerCode, submittedAt,
                                         answer, orderId, pick);
            EndsRight(old(database.contents), database.contents, outcome, complete, complete.1.Submitted?,
                      NotSubmitted(OrderPersistence), 1, faults)
  {
    hide PlanOrder, AddOrder;
    var u, entered := Begin<Ledger, DbError>(database, faults);
    if !entered {
      return NotSubmitted(OrderPersistence);
    }
    var readable := Read(u, faults);
    if !readable {
      var _ := Abandon(u, false, faults);
      return NotSubmitted(OrderPersistence);
    }
    var planned := PlanOrder(view, intentId, brokerCode, submittedAt, answer);
    if planned.Err? {
      var explicit := planned.error.BrokerSubmissionFailed? || planned.error.InvalidBrokerResult?;
      var undone := Abandon(u, explicit, faults);
      return NotSubmitted(if undone then planned.error else OrderPersistence);
    }
    var order := planned.value;
    var added := u.Operate(db => AddOrder(db, orderId, order, pick), faults.write == Some(0));
    if !added.Returned? {
      var duplicate := added.Rejected? && added.error.Duplicate?;
      var undone := Abandon(u, duplicate, faults);
      return NotSubmitted(if duplicate && undone then OrderConflict("duplicate_record") else OrderPersistence);
    }
    var finished := Finish(u, faults);
    return if finished then Submitted(order) else NotSubmitted(OrderPersistence);
  }
}
