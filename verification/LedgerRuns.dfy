/** Runs: any number of clients, each call reading ledgers committed at any earlier
    moment and then writing atomically against the current one, and each ending in any of
    the ways in which infrastructure faults let it end. */
module LedgerRuns {
  import opened Transactions
  import opened LedgerTables
  import opened PaperFills
  import opened LedgerInvariant
  import opened LedgerSteps
  import TI = TradeIntents
  import PO = PaperOrders
  import PP = PositionProjection

  /** A `nat` view is the moment a read happened: the number of calls committed before it. */
  datatype Call =
    | Store(row: Reference)
    | CreateIntents(view: nat, candidateId: CandidateId, strategies: seq<TI.Strategy>,
                    policy: TI.RiskPolicy, now: Time, ids: seq<IntentId>, pick: nat)
    | SubmitOrder(view: nat, intentId: IntentId, brokerCode: string, submittedAt: Time,
                  answer: PO.BrokerAnswer, orderId: OrderId, pick: nat)
    | ExecuteFill(first: nat, later: nat, orderId: OrderId, now: Time, fillId: FillId, pick: nat)
    | Project(eventView: nat, sourceView: nat, positionView: nat, fillId: FillId,
              positionId: PositionId, eventId: EventId, pick: nat)
    /** The re-read with which the projection call number `attempt` ends if it raced. */
    | Reread(attempt: nat)

  /** A call together with how it ends. */
  datatype Request = Request(call: Call, ending: Ending)

  datatype Response =
    | StoreDone
    | IntentsDone(intents: TI.IntentOutcome)
    | SubmitDone(submit: PO.SubmitOutcome)
    | FillDone(fill: FillOutcome)
    | ProjectDone(fillId: FillId, attempt: PP.Attempt)
    | NothingToReread

  /** The committed ledger before each call and after the last, and every response. */
  datatype Run = Run(history: seq<Ledger>, log: seq<Response>)

  function Last(run: Run): Ledger
    requires run.history != []
  {
    run.history[|run.history| - 1]
  }

  /** A read cannot see the future. */
  function At(run: Run, view: nat): Ledger
    requires run.history != []
  {
    if view < |run.history| then run.history[view] else Last(run)
  }

  /** What a call does when no fault meets it. */
  function Complete(run: Run, call: Call): (Ledger, Response)
    requires run.history != []
  {
    var db := Last(run);
    match call
    case Store(row) => (AddReference(db, row), StoreDone)
    case CreateIntents(view, candidateId, strategies, policy, now, ids, pick) =>
      var (after, outcome) :=
        TI.CreateAllResult(At(run, view), db, candidateId, strategies, policy, now, ids, pick);
      (after, IntentsDone(outcome))
    case SubmitOrder(view, intentId, brokerCode, submittedAt, answer, orderId, pick) =>
      var (after, outcome) :=
        PO.SubmitResult(At(run, view), db, intentId, brokerCode, submittedAt, answer, orderId, pick);
      (after, SubmitDone(outcome))
    case ExecuteFill(first, later, orderId, now, fillId, pick) =>
      var (after, outcome) :=
        ExecuteNextResult(At(run, first), At(run, later), db, orderId, now, fillId, pick);
      (after, FillDone(outcome))
    case Project(eventView, sourceView, positionView, fillId, positionId, eventId, pick) =>
      var (after, attempt) :=
        PP.ProjectOnceResult(At(run, eventView), At(run, sourceView), At(run, positionView), db, fillId,
                             positionId, eventId, pick);
      (after, ProjectDone(fillId, attempt))
    case Reread(n) =>
      if n < |run.log| && run.log[n].ProjectDone? && run.log[n].attempt.Raced? then
        var raced := run.log[n];
        (db, ProjectDone(raced.fillId, PP.ResolveDuplicate(db, raced.fillId, raced.attempt.constraint)))
      else (db, NothingToReread)
  }

  /** The persistence error of each service; where a re-read has nothing to do it opens no
      unit of work. */
  function FaultAnswer(run: Run, call: Call): Response {
    match call
    case Store(_) => StoreDone
    case CreateIntents(_, _, _, _, _, _, _) => IntentsDone(TI.NotCreated(TI.IntentPersistence))
    case SubmitOrder(_, _, _, _, _, _, _) => SubmitDone(PO.NotSubmitted(PO.OrderPersistence))
    case ExecuteFill(_, _, _, _, _, _) => FillDone(FillFailed(FillPersistence))
    case Project(_, _, _, fillId, _, _, _) => ProjectDone(fillId, PP.Failed(PP.PersistenceFailed))
    case Reread(n) =>
      if n < |run.log| && run.log[n].ProjectDone? && run.log[n].attempt.Raced?
      then ProjectDone(run.log[n].fillId, PP.Failed(PP.PersistenceFailed))
      else NothingToReread
  }

  function Serve(run: Run, request: Request): (Ledger, Response)
    requires run.history != []
  {
    Ended(request.ending, Last(run), Complete(run, request.call), FaultAnswer(run, request.call))
  }

  /** What a list of calls does to an empty database. */
  function RunOf(calls: seq<Request>): (run: Run)
    ensures |run.history| == |calls| + 1 && |run.log| == |calls|
  {
    if calls == [] then Run([EMPTY], [])
    else
      var before := RunOf(calls[..|calls| - 1]);
      var (after, response) := Serve(before, calls[|calls| - 1]);
      Run(before.history + [after], before.log + [response])
  }

  /** The part of a run that call number `i` can see. */
  function Before(run: Run, i: nat): Run
    requires i < |run.history| && i <= |run.log|
  {
    Run(run.history[..i + 1], run.log[..i])
  }

  ghost predicate Served(calls: seq<Request>, run: Run, i: nat)
    requires i < |calls| == |run.log| && |run.history| == |calls| + 1
  {
    (run.history[i + 1], run.log[i]) == Serve(Before(run, i), calls[i])
  }

  /** The run is what these calls, in this order, do to an empty database. */
  ghost predicate Behaves(calls: seq<Request>, run: Run) {
    && |run.log| == |calls| && |run.history| == |calls| + 1
    && run.history[0] == EMPTY
    && forall i :: 0 <= i < |calls| ==> Served(calls, run, i)
  }

  /** Every list of calls has exactly one run. */
  lemma {:induction false} RunExists(calls: seq<Request>)
    ensures Behaves(calls, RunOf(calls))
  {
    hide Serve;
    if calls != [] {
      var n := |calls| - 1;
      RunExists(calls[..n]);
      forall i | 0 <= i < |calls|
        ensures Served(calls, RunOf(calls), i)
      {
        assert Before(RunOf(calls), n) == RunOf(calls[..n]);
        if i < n {
          assert Served(calls[..n], RunOf(calls[..n]), i);
          assert Before(RunOf(calls), i) == Before(RunOf(calls[..n]), i);
        }
      }
    }
  }

  lemma {:induction false} RunIsUnique(calls: seq<Request>, a: Run, b: Run)
    requires Behaves(calls, a) && Behaves(calls, b)
    ensures a == b
  {
    PrefixesAgree(calls, a, b, |calls|);
    assert Before(a, |calls|) == a && Before(b, |calls|) == b;
  }

  lemma {:induction false} PrefixesAgree(calls: seq<Request>, a: Run, b: Run, n: nat)
    requires Behaves(calls, a) && Behaves(calls, b) && n <= |calls|
    ensures Before(a, n) == Before(b, n)
  {
    hide Serve;
    if n > 0 {
      PrefixesAgree(calls, a, b, n - 1);
      assert Served(calls, a, n - 1) && Served(calls, b, n - 1);
      assert Before(a, n - 1).log + [a.log[n - 1]] == Before(a, n).log;
      assert Before(a, n - 1).history + [a.history[n]] == Before(a, n).history;
    }
  }

  // ---------------------------------------------------------------------------
  // The invariant over every run
  // ---------------------------------------------------------------------------

  ghost predicate Grown(history: seq<Ledger>) {
    forall i, j :: 0 <= i <= j < |history| ==> Extends(history[i], history[j])
  }

  ghost predicate Sound(run: Run) {
    && run.history != []
    && (forall i :: 0 <= i < |run.history| ==> Inv(run.history[i]))
    && Grown(run.history)
  }

  lemma EmptySound()
    ensures Inv(EMPTY) && Extends(EMPTY, EMPTY)
  {
  }

  lemma CompleteKeeps(run: Run, call: Call)
    requires Sound(run)
    ensures Inv(Complete(run, call).0) && Extends(Last(run), Complete(run, call).0)
  {
    hide Inv, Extends, TI.CreateAllResult, PO.SubmitResult, ExecuteNextResult, PP.ProjectOnceResult,
         AddReference;
    var db := Last(run);
    SelfExtends(db);
    match call {
      case Store(row) => ReferenceKeeps(db, row);
      case CreateIntents(view, candidateId, strategies, policy, now, ids, pick) =>
        CreateAllKeeps(At(run, view), db, candidateId, strategies, policy, now, ids, pick);
      case SubmitOrder(view, intentId, brokerCode, submittedAt, answer, orderId, pick) =>
        SubmitKeeps(At(run, view), db, intentId, brokerCode, submittedAt, answer, orderId, pick);
      case ExecuteFill(first, later, orderId, now, fillId, pick) =>
        ExecuteNextKeeps(At(run, first), At(run, later), db, orderId, now, fillId, pick);
      case Project(eventView, sourceView, positionView, fillId, positionId, eventId, pick) =>
        ProjectOnceKeeps(At(run, eventView), At(run, sourceView), At(run, positionView), db, fillId,
                         positionId, eventId, pick);
      case Reread(_) =>
    }
  }

  lemma ServeKeeps(run: Run, request: Request)
    requires Sound(run)
    ensures Inv(Serve(run, request).0) && Extends(Last(run), Serve(run, request).0)
  {
    hide Inv, Extends, Complete;
    CompleteKeeps(run, request.call);
    SelfExtends(Last(run));
  }

  lemma {:induction false} AppendGrown(history: seq<Ledger>, after: Ledger)
    requires history != [] && Grown(history) && Extends(history[|history| - 1], after)
    ensures Grown(history + [after])
  {
    hide Extends;
    var more := history + [after];
    forall i, j | 0 <= i <= j < |more|
      ensures Extends(more[i], more[j])
    {
      if j == |history| {
        if i == j {
          SelfExtends(after);
        } else {
          ExtendsTransitive(more[i], history[|history| - 1], after);
        }
      }
    }
  }

  lemma {:induction false} SoundUpTo(calls: seq<Request>, run: Run, n: nat)
    requires Behaves(calls, run) && n <= |calls|
    ensures Sound(Before(run, n))
  {
    hide Inv, Extends, Serve;
    if n == 0 {
      EmptySound();
    } else {
      var before := Before(run, n - 1);
      SoundUpTo(calls, run, n - 1);
      ServeKeeps(before, calls[n - 1]);
      assert Served(calls, run, n - 1);
      AppendGrown(before.history, run.history[n]);
      assert Before(run, n).history == before.history + [run.history[n]];
    }
  }

  /** Every ledger of every run satisfies the invariant, and later ones extend earlier ones. */
  lemma RunsAreSound(calls: seq<Request>, run: Run)
    requires Behaves(calls, run)
    ensures Sound(run)
  {
    hide Inv, Extends;
    SoundUpTo(calls, run, |calls|);
    assert Before(run, |calls|) == run;
  }

  // ---------------------------------------------------------------------------
  // Orders and fills: conservation
  // ---------------------------------------------------------------------------

  ghost predicate Conserved(db: Ledger, o: OrderId)
    requires o in db.orders
  {
    var order, fills := db.orders[o], FillsOf(db.fills, o);
    var filled := Sum(Quantities(fills));
    && order.intentId in db.intents
    && db.intents[order.intentId].quantity > 0
    && var requested := db.intents[order.intentId].quantity;
    && (forall k :: 0 <= k < |fills| ==> fills[k].sequence == k + 1)
    && Quantities(fills) <= SplitPlan(requested)
    && filled <= requested
    && order.version == 1 + |fills|
    && (order.closedAt.Some? <==> order.status == FILLED || order.status == REJECTED)
    && (order.status == REJECTED ==> filled == 0)
    && (order.status != REJECTED ==>
          && (order.status == ACCEPTED <==> filled == 0)
          && (order.status == PARTIALLY_FILLED <==> 0 < filled < requested)
          && (order.status == FILLED <==> filled == requested))
  }

  lemma OrderIsConserved(db: Ledger, o: OrderId)
    requires o in db.orders && OrderOk(db, o)
    ensures Conserved(db, o)
  {
    var order, fills := db.orders[o], FillsOf(db.fills, o);
    var intent := db.intents[order.intentId];
    var plan := SplitPlan(intent.quantity);
    forall k | 0 <= k < |fills|
      ensures fills[k].sequence == k + 1 && fills[k].quantity == plan[k] && k < |plan|
    {
      assert FillOk(o, order, intent, SnapshotOf(db, intent).lastPrice, k, fills[k]);
    }
    assert |fills| <= |plan|;
    assert Quantities(fills) == plan[..|fills|];
    assert plan[..0] == [];
    if fills != [] {
      PlanSums(intent.quantity, |fills| - 1);
    }
    PlanSums(intent.quantity, 0);
  }

  /** Conservation in every ledger of every run, for every order. */
  lemma OrdersConserve(calls: seq<Request>, run: Run, i: nat, o: OrderId)
    requires Behaves(calls, run) && i <= |calls| && o in run.history[i].orders
    ensures Conserved(run.history[i], o)
  {
    RunsAreSound(calls, run);
    OrderIsConserved(run.history[i], o);
  }

  /** A listing by insertion order is a listing by fill sequence, with no gaps, and
      execution times never decrease along it. */
  lemma ListingIsOrdered(calls: seq<Request>, run: Run, i: nat, o: OrderId, j: nat, k: nat)
    requires Behaves(calls, run) && i <= |calls|
    requires var fills := FillsOf(run.history[i].fills, o); j < k < |fills|
    ensures var fills := FillsOf(run.history[i].fills, o);
            && fills[j].sequence < fills[k].sequence && fills[j].executedAt <= fills[k].executedAt
  {
    var db := run.history[i];
    RunsAreSound(calls, run);
    FillsOfAreRows(db.fills, o);
    assert FillsOf(db.fills, o)[j] in FillsOf(db.fills, o);
    ListedInOrder(db, o, j, k);
  }

  lemma ListedInOrder(db: Ledger, o: OrderId, j: nat, k: nat)
    requires o in db.orders && OrderOk(db, o) && j < k < |FillsOf(db.fills, o)|
    ensures var fills := FillsOf(db.fills, o);
            && fills[j].sequence < fills[k].sequence && fills[j].executedAt <= fills[k].executedAt
  {
  }
}
