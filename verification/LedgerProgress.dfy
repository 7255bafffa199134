/** When calls succeed: stale reads, fresh calls, completion, and fills that come too late. */
module LedgerProgress {
  import opened Outcomes
  import opened LedgerTables
  import opened AverageCost
  import opened PaperFills
  import opened LedgerInvariant
  import opened LedgerSteps
  import opened LedgerRuns
  import opened LedgerReplay
  import PP = PositionProjection

  // ---------------------------------------------------------------------------
  // Stale reads of an order
  // ---------------------------------------------------------------------------

  predicate Fillable(db: Ledger, o: OrderId, now: Time) {
    && o in db.orders
    && db.orders[o].brokerCode == INTERNAL_PAPER
    && (db.orders[o].status == ACCEPTED || db.orders[o].status == PARTIALLY_FILLED)
    && db.orders[o].updatedAt <= now
  }

  lemma ScanAccepts(db: Ledger, o: OrderId, n: nat)
    requires o in db.orders && OrderOk(db, o)
    requires n <= |FillsOf(db.fills, o)|
    requires db.orders[o].acceptedAt.Some?
    ensures var intent := db.intents[db.orders[o].intentId];
            var plan, fills := SplitPlan(intent.quantity), FillsOf(db.fills, o);
            && |fills| <= |plan|
            && ScanHistory(o, db.orders[o].acceptedAt.value, plan, SnapshotOf(db, intent).lastPrice,
                           intent.currency, fills, n) == Ok(Sum(plan[..n]))
  {
  }

  lemma VerdictSeesMoves(first: Ledger, later: Ledger, o: OrderId)
    requires Extends(first, later)
    requires o in first.orders && OrderOk(first, o) && o in later.orders && OrderOk(later, o)
    requires first.orders[o].status == ACCEPTED || first.orders[o].status == PARTIALLY_FILLED
    ensures var order := first.orders[o];
            && order.acceptedAt.Some? && order.intentId in later.intents
            && var intent := later.intents[order.intentId];
            && IntentOk(later, intent)
            && var verdict := HistoryVerdict(o, order.status, order.acceptedAt.value,
                                             SplitPlan(intent.quantity), SnapshotOf(later, intent).lastPrice,
                                             intent.currency, FillsOf(later.fills, o));
            && (verdict.Ok? <==> order.version == later.orders[o].version)
            && (verdict.Ok? ==> |FillsOf(later.fills, o)| < |SplitPlan(intent.quantity)|)
  {
    var order, fills := first.orders[o], FillsOf(later.fills, o);
    var intent := later.intents[order.intentId];
    var plan := SplitPlan(intent.quantity);
    ScanAccepts(later, o, |fills|);
    if |fills| < |plan| {
      PlanSums(intent.quantity, |fills|);
    }
    if |fills| > 0 {
      PlanSums(intent.quantity, |fills| - 1);
    }
  }

  /** Planning, for every clock: the history check sees moves, and after it the clock decides. */
  lemma PlanVerdict(first: Ledger, later: Ledger, o: OrderId, now: Time, fillId: FillId)
    requires Inv(first) && Inv(later) && Extends(first, later)
    requires o in first.orders && Fillable(first, o, first.orders[o].updatedAt)
    ensures var planned := PlanFill(first, later, o, now, fillId);
            if first.orders[o].version != later.orders[o].version
            then planned.Err? && planned.error.HistoryInvalid?
            else if now < first.orders[o].updatedAt
            then planned == Err(SourceInvalid("clock_precedes_order"))
            else planned.Ok?
  {
    assert OrderOk(first, o) && OrderOk(later, o);
    VerdictSeesMoves(first, later, o);
    var order := first.orders[o];
    var intent := later.intents[order.intentId];
    assert IntentOk(later, intent);
    hide OrderOk, HistoryVerdict, PositionOk, IntentOk;
    assert PlanFill(first, later, o, now, fillId)
           == PlanSourced(order, o, intent, SnapshotOf(later, intent), FillsOf(later.fills, o), now, fillId);
  }

  /** The history check sees exactly whether the order moved between the two reads. */
  lemma StaleReadDetected(first: Ledger, later: Ledger, o: OrderId, now: Time, fillId: FillId)
    requires Inv(first) && Inv(later) && Extends(first, later)
    requires Fillable(first, o, now)
    ensures PlanFill(first, later, o, now, fillId).Ok?
            <==> first.orders[o].version == later.orders[o].version
    ensures PlanFill(first, later, o, now, fillId).Err? ==>
              PlanFill(first, later, o, now, fillId).error.HistoryInvalid?
  {
    hide Inv, PlanFill;
    PlanVerdict(first, later, o, now, fillId);
  }

  /** No stored fill has the key or the sequence number that comes next. */
  lemma NextKeyUnused(db: Ledger, o: OrderId)
    requires Inv(db) && o in db.orders
    ensures var n := |FillsOf(db.fills, o)|;
            forall f :: f in db.fills ==> f.key != ExecutionKey(o, n + 1)
                                          && !(f.orderId == o && f.sequence == n + 1)
  {
    var n := |FillsOf(db.fills, o)|;
    forall f | f in db.fills
      ensures f.key != ExecutionKey(o, n + 1) && !(f.orderId == o && f.sequence == n + 1)
    {
      FillsOfAreRows(db.fills, f.orderId);
      var k :| 0 <= k < |FillsOf(db.fills, f.orderId)| && FillsOf(db.fills, f.orderId)[k] == f;
      FillIsNumbered(db, f.orderId, k);
    }
  }

  lemma FillIsNumbered(db: Ledger, o: OrderId, k: nat)
    requires o in db.orders && OrderOk(db, o) && k < |FillsOf(db.fills, o)|
    ensures FillsOf(db.fills, o)[k].sequence == k + 1
    ensures FillsOf(db.fills, o)[k].key == ExecutionKey(o, k + 1)
  {
  }

  /** Who wins a race: a call fills the order exactly when the row it read was fillable and
      is still the current row, and its identifier is new. */
  lemma FillSucceedsIff(
    first: Ledger, later: Ledger, db: Ledger, o: OrderId, now: Time, fillId: FillId, pick: nat)
    requires Inv(first) && Inv(later) && Inv(db) && Extends(first, later) && Extends(later, db)
    ensures ExecuteNextResult(first, later, db, o, now, fillId, pick).1.Filled?
            <==> Fillable(first, o, now)
                 && first.orders[o].version == db.orders[o].version
                 && forall f :: f in db.fills ==> f.id != fillId
  {
    hide Inv, Extends, PlanFill, SplitPlan;
    if !Fillable(first, o, now) {
      NotFillableFails(first, later, o, now, fillId);
    } else {
      StaleReadDetected(first, later, o, now, fillId);
      VersionsGrow(first, later, db, o);
      if PlanFill(first, later, o, now, fillId).Ok? {
        PlannedFill(first, later, o, now, fillId);
        FilledIffWritten(first, later, db, o, now, fillId, pick);
        WriteSucceedsIff(db, o, first.orders[o], PlanFill(first, later, o, now, fillId).value, pick);
      }
    }
  }

  lemma AddFillIff(db: Ledger, f: Fill, pick: nat)
    requires f.orderId in db.orders
    ensures AddFill(db, f, pick).Ok? ==> AddFill(db, f, pick).value == db.(fills := db.fills + [f])
    ensures (forall g :: g in db.fills ==> g.key != f.key && !(g.orderId == f.orderId && g.sequence == f.sequence))
            ==> (AddFill(db, f, pick).Ok? <==> forall g :: g in db.fills ==> g.id != f.id)
    ensures AddFill(db, f, pick).Ok? ==> forall g :: g in db.fills ==> g.id != f.id
  {
  }

  /** Both writes together. */
  ghost predicate Written(db: Ledger, write: FillWrite, pick: nat) {
    && AddFill(db, write.fill, pick).Ok?
    && TransitionAfterFill(AddFill(db, write.fill, pick).value, write.transition).Ok?
  }

  lemma FilledIffWritten(
    first: Ledger, later: Ledger, db: Ledger, o: OrderId, now: Time, fillId: FillId, pick: nat)
    requires PlanFill(first, later, o, now, fillId).Ok?
    ensures ExecuteNextResult(first, later, db, o, now, fillId, pick).1.Filled?
            <==> Written(db, PlanFill(first, later, o, now, fillId).value, pick)
  {
  }

  lemma WriteSucceedsIff(db: Ledger, o: OrderId, order: Order, write: FillWrite, pick: nat)
    requires Inv(db) && o in db.orders
    requires order.version == db.orders[o].version ==> order == db.orders[o]
    requires order.status == ACCEPTED || order.status == PARTIALLY_FILLED
    requires var n := if order.status == ACCEPTED then 0 else 1;
             && write.fill.orderId == o && write.fill.key == ExecutionKey(o, n + 1)
             && write.fill.sequence == n + 1 && write.transition.orderId == o
             && write.transition.expectedStatus == order.status
             && write.transition.expectedVersion == order.version
    ensures Written(db, write, pick)
            <==> order.version == db.orders[o].version && forall f :: f in db.fills ==> f.id != write.fill.id
  {
    hide AddFill, Inv;
    AddFillIff(db, write.fill, pick);
    CountIsVersion(db, o);
    NextKeyUnused(db, o);
  }

  lemma NotFillableFails(first: Ledger, later: Ledger, o: OrderId, now: Time, fillId: FillId)
    requires !Fillable(first, o, now)
    ensures PlanFill(first, later, o, now, fillId).Err?
  {
  }

  lemma VersionsGrow(a: Ledger, b: Ledger, c: Ledger, o: OrderId)
    requires Extends(a, b) && Extends(b, c) && o in a.orders
    ensures o in b.orders && o in c.orders
    ensures a.orders[o].version <= b.orders[o].version <= c.orders[o].version
    ensures a.orders[o].version == c.orders[o].version ==> a.orders[o] == c.orders[o]
  {
  }

  lemma CountIsVersion(db: Ledger, o: OrderId)
    requires Inv(db) && o in db.orders
    ensures db.orders[o].version == 1 + |FillsOf(db.fills, o)|
    ensures db.orders[o].status == ACCEPTED ==> FillsOf(db.fills, o) == []
    ensures db.orders[o].status == PARTIALLY_FILLED ==> |FillsOf(db.fills, o)| == 1
  {
  }

  /** A fill that follows the n-th is already there once the order has moved past it. */
  lemma NextKeyUsed(db: Ledger, o: OrderId, n: nat)
    requires Inv(db) && o in db.orders && n < |FillsOf(db.fills, o)|
    ensures exists f :: f in db.fills && f.key == ExecutionKey(o, n + 1)
  {
    FillsOfAreRows(db.fills, o);
    FillIsNumbered(db, o, n);
    assert FillsOf(db.fills, o)[n] in FillsOf(db.fills, o);
  }

  lemma UsedKeyConflicts(db: Ledger, write: FillWrite, pick: nat)
    requires write.fill.orderId in db.orders
    requires exists f :: f in db.fills && (f.key == write.fill.key || f.id == write.fill.id)
    ensures ApplyFill(db, write, pick).1 == FillFailed(FillConflict)
  {
  }

  /** The answer that the service owes for what it read, what it read later, and what is there. */
  ghost predicate FillAnswer(
    first: Ledger, later: Ledger, db: Ledger, o: OrderId, now: Time, fillId: FillId, outcome: FillOutcome)
  {
    if o !in first.orders then outcome == FillFailed(OrderNotFound)
    else
      var read := first.orders[o];
      if read.brokerCode != INTERNAL_PAPER then outcome == FillFailed(UnsupportedBroker)
      else if read.status != ACCEPTED && read.status != PARTIALLY_FILLED then outcome == FillFailed(NotFillable)
      else if o !in later.orders || o !in db.orders then false
      else if read.version != later.orders[o].version then
        outcome.FillFailed? && outcome.failure.HistoryInvalid?
      else if now < read.updatedAt then
        outcome == FillFailed(FillFailure.SourceInvalid("clock_precedes_order"))
      else if read.version != db.orders[o].version || exists f :: f in db.fills && f.id == fillId then
        outcome == FillFailed(FillConflict)
      else outcome.Filled?
  }

  /** Every answer of the service in reachable ledgers, whatever it had read.  A race for the
      order that is lost after the reads ends as a conflict: the guarded update never fails. */
  lemma FillAnswers(
    first: Ledger, later: Ledger, db: Ledger, o: OrderId, now: Time, fillId: FillId, pick: nat)
    requires Inv(first) && Inv(later) && Inv(db) && Extends(first, later) && Extends(later, db)
    ensures FillAnswer(first, later, db, o, now, fillId,
                       ExecuteNextResult(first, later, db, o, now, fillId, pick).1)
  {
    hide Inv, Extends, PlanFill, ApplyFill, SplitPlan;
    FirstChecks(first, later, o, now, fillId);
    if o in first.orders && Fillable(first, o, first.orders[o].updatedAt) {
      var read := first.orders[o];
      VersionsGrow(first, later, db, o);
      PlanVerdict(first, later, o, now, fillId);
      var planned := PlanFill(first, later, o, now, fillId);
      if planned.Ok? {
        FillSucceedsIff(first, later, db, o, now, fillId, pick);
        PlannedFill(first, later, o, now, fillId);
        CountIsVersion(first, o);
        CountIsVersion(db, o);
        if read.version != db.orders[o].version {
          NextKeyUsed(db, o, |FillsOf(first.fills, o)|);
          UsedKeyConflicts(db, planned.value, pick);
        } else if exists f :: f in db.fills && f.id == fillId {
          UsedKeyConflicts(db, planned.value, pick);
        }
      }
    }
  }

  lemma FirstChecks(first: Ledger, later: Ledger, o: OrderId, now: Time, fillId: FillId)
    ensures o !in first.orders ==> PlanFill(first, later, o, now, fillId) == Err(OrderNotFound)
    ensures o in first.orders && first.orders[o].brokerCode != INTERNAL_PAPER ==>
              PlanFill(first, later, o, now, fillId) == Err(UnsupportedBroker)
    ensures o in first.orders && first.orders[o].brokerCode == INTERNAL_PAPER
            && first.orders[o].status != ACCEPTED && first.orders[o].status != PARTIALLY_FILLED ==>
              PlanFill(first, later, o, now, fillId) == Err(NotFillable)
  {
  }

  /** Call number i executed this fill and left this order row, whether or not it lived to
      report them. */
  ghost predicate FilledBy(calls: seq<Request>, run: Run, i: nat, fill: Fill, order: Order)
    requires i < |calls| == |run.log| && |run.history| == |calls| + 1
  {
    !calls[i].ending.Unwritten? && Outcome(calls, run, i).1 == FillDone(Filled(fill, order))
  }

  /** Such a call stored exactly that fill, and left exactly that order row. */
  lemma FilledLeavesTheRows(calls: seq<Request>, run: Run, i: nat, fill: Fill, order: Order)
    requires Behaves(calls, run) && i < |calls| && FilledBy(calls, run, i, fill, order)
    ensures var after := run.history[i + 1];
            && after.fills == run.history[i].fills + [fill]
            && fill.orderId in after.orders && after.orders[fill.orderId] == order
            && order.version == 1 + fill.sequence && order.updatedAt == fill.executedAt
  {
    hide Inv, Extends, PlanFill, ExecuteNextResult;
    SoundUpTo(calls, run, i);
    HowItEnded(calls, run, i);
    var before, c := Before(run, i), calls[i].call;
    FilledIs(At(before, c.first), At(before, c.later), Last(before), c.orderId, c.now, c.fillId, c.pick);
    PlannedFill(At(before, c.first), At(before, c.later), c.orderId, c.now, c.fillId);
    CountIsVersion(Last(before), c.orderId);
  }

  /** A call that reports a fill stored exactly that fill, and reports the order row it left. */
  lemma FilledReportsTheRows(calls: seq<Request>, run: Run, i: nat)
    requires Behaves(calls, run) && i < |calls|
    requires run.log[i].FillDone? && run.log[i].fill.Filled?
    ensures var fill, order, after := run.log[i].fill.fill, run.log[i].fill.order, run.history[i + 1];
            && after.fills == run.history[i].fills + [fill]
            && fill.orderId in after.orders && after.orders[fill.orderId] == order
            && order.version == 1 + fill.sequence && order.updatedAt == fill.executedAt
  {
    hide Complete, FaultAnswer;
    HowItEnded(calls, run, i);
    FaultsAreRefused(Before(run, i), calls[i].call);
    FilledLeavesTheRows(calls, run, i, run.log[i].fill.fill, run.log[i].fill.order);
  }

  // ---------------------------------------------------------------------------
  // Completion of an order
  // ---------------------------------------------------------------------------

  /** Fresh calls one after the other, with the given clocks and identifiers. */
  function ExecuteAll(db: Ledger, o: OrderId, times: seq<Time>, ids: seq<FillId>): Ledger
    requires |times| == |ids|
    decreases |times|
  {
    if times == [] then db
    else ExecuteAll(ExecuteNextResult(db, db, db, o, times[0], ids[0], 0).0, o, times[1..], ids[1..])
  }

  ghost predicate Unused(db: Ledger, ids: seq<FillId>) {
    && (forall f :: f in db.fills ==> f.id !in ids)
    && forall i, j :: 0 <= i < j < |ids| ==> ids[i] != ids[j]
  }

  ghost predicate Ascending(from: Time, times: seq<Time>) {
    && (forall t :: t in times ==> from <= t)
    && forall i, j :: 0 <= i < j < |times| ==> times[i] <= times[j]
  }

  /** One fresh call on a fillable order moves it one chunk forward. */
  lemma FreshFillAdvances(db: Ledger, o: OrderId, now: Time, fillId: FillId, pick: nat)
    requires Inv(db) && Fillable(db, o, now) && forall f :: f in db.fills ==> f.id != fillId
    ensures var (after, outcome) := ExecuteNextResult(db, db, db, o, now, fillId, pick);
            && outcome.Filled?
            && Inv(after) && o in after.orders
            && after == db.(fills := db.fills + [outcome.fill], orders := after.orders)
            && outcome.fill.id == fillId && outcome.fill.orderId == o && outcome.fill.executedAt == now
            && after.orders[o].intentId == db.orders[o].intentId
            && after.orders[o].version == db.orders[o].version + 1
            && after.orders[o].updatedAt == now
            && after.orders[o].brokerCode == INTERNAL_PAPER
            && db.orders[o].intentId in db.intents && db.intents[db.orders[o].intentId].quantity > 0
            && after.orders[o].status
               == if db.orders[o].version == |SplitPlan(db.intents[db.orders[o].intentId].quantity)|
                  then FILLED else PARTIALLY_FILLED
  {
    hide Inv, Extends, PlanFill, SplitPlan, Written;
    SelfExtends(db);
    FillSucceedsIff(db, db, db, o, now, fillId, pick);
    FilledIs(db, db, db, o, now, fillId, pick);
    PlannedFill(db, db, o, now, fillId);
    ExecuteNextKeeps(db, db, db, o, now, fillId, pick);
    CountIsVersion(db, o);
  }

  /** An accepted order of the internal broker is FILLED after as many fresh calls as its
      plan has chunks left. */
  lemma {:induction false} FillsToCompletion(db: Ledger, o: OrderId, times: seq<Time>, ids: seq<FillId>)
    requires Inv(db) && o in db.orders && |times| == |ids|
    requires db.orders[o].brokerCode == INTERNAL_PAPER
    requires db.orders[o].status == ACCEPTED || db.orders[o].status == PARTIALLY_FILLED
    requires Ascending(db.orders[o].updatedAt, times) && Unused(db, ids)
    requires db.orders[o].intentId in db.intents && db.intents[db.orders[o].intentId].quantity > 0
    requires db.orders[o].version + |times| == 1 + |SplitPlan(db.intents[db.orders[o].intentId].quantity)|
    ensures var after := ExecuteAll(db, o, times, ids);
            o in after.orders && after.orders[o].status == FILLED
    decreases |times|
  {
    hide Inv, Extends, ExecuteNextResult, SplitPlan;
    ChunkLeft(db, o);
    var next := ExecuteNextResult(db, db, db, o, times[0], ids[0], 0).0;
    assert times[0] in times && ids[0] in ids;
    FreshFillAdvances(db, o, times[0], ids[0], 0);
    if |times| > 1 {
      assert forall f :: f in next.fills ==> f in db.fills || f.id == ids[0];
      assert Unused(next, ids[1..]);
      assert Ascending(next.orders[o].updatedAt, times[1..]);
      FillsToCompletion(next, o, times[1..], ids[1..]);
    } else {
      assert ExecuteAll(next, o, times[1..], ids[1..]) == next;
    }
  }

  lemma ChunkLeft(db: Ledger, o: OrderId)
    requires Inv(db) && o in db.orders
    requires db.orders[o].status == ACCEPTED || db.orders[o].status == PARTIALLY_FILLED
    ensures db.orders[o].intentId in db.intents && db.intents[db.orders[o].intentId].quantity > 0
    ensures db.orders[o].version <= |SplitPlan(db.intents[db.orders[o].intentId].quantity)|
  {
  }

  // ---------------------------------------------------------------------------
  // Sources
  // ---------------------------------------------------------------------------

  /** Rely/guarantee: whatever `execute_next` stored passes the projector's source checks. */
  lemma FillIsProjectable(db: Ledger, f: Fill)
    requires Inv(db) && f in db.fills
    ensures PP.LoadSource(db, f.id).Ok?
    ensures var s := PP.LoadSource(db, f.id).value; s.fill == f && Belongs(db, f, PP.KeyOf(s))
    ensures f.quantity > 0
  {
    var o := f.orderId;
    FillLookup(db.fills, f);
    FillsOfAreRows(db.fills, o);
    var k :| 0 <= k < |FillsOf(db.fills, o)| && FillsOf(db.fills, o)[k] == f;
    SourcePasses(db, o, k);
  }

  lemma SourcePasses(db: Ledger, o: OrderId, k: nat)
    requires o in db.orders && OrderOk(db, o) && k < |FillsOf(db.fills, o)|
    requires FindFill(db.fills, FillsOf(db.fills, o)[k].id) == Some(FillsOf(db.fills, o)[k])
    ensures var f := FillsOf(db.fills, o)[k];
            && f.orderId == o && f.quantity > 0
            && PP.LoadSource(db, f.id).Ok?
            && var s := PP.LoadSource(db, f.id).value;
            && s.fill == f && Belongs(db, f, PP.KeyOf(s))
  {
  }

  /** In every run, a fill stored at any moment is projectable at every later one. */
  lemma FillsStayProjectable(calls: seq<Request>, run: Run, i: nat, j: nat, f: Fill)
    requires Behaves(calls, run) && i <= j <= |calls| && f in run.history[i].fills
    ensures PP.LoadSource(run.history[j], f.id).Ok?
    ensures PP.LoadSource(run.history[j], f.id).value.fill == f
  {
    hide Inv, PP.LoadSource;
    RunsAreSound(calls, run);
    FillsGrow(run.history[i], run.history[j], f);
    FillIsProjectable(run.history[j], f);
  }

  lemma FillsGrow(a: Ledger, b: Ledger, f: Fill)
    requires Extends(a, b) && f in a.fills
    ensures f in b.fills
  {
  }

  // ---------------------------------------------------------------------------
  // Races between projectors
  // ---------------------------------------------------------------------------

  /** What must hold of the current ledger for a plan made from `view` to be written. */
  ghost predicate Projectable(
    view: Ledger, db: Ledger, s: PP.Source, positionId: PositionId, eventId: EventId)
    requires s.fill.quantity > 0
  {
    && FindEventByFill(db.events, s.fill.id).None?
    && (forall e :: e in db.events ==> e.id != eventId)
    && match FindOpen(view, PP.KeyOf(s))
       case None =>
         && OpenIds(db, PP.KeyOf(s)) == {}
         && positionId !in db.positions
         && s.fill.price < OPENING_LIMIT
       case Some(id) =>
         && id in view.positions && id in db.positions
         && db.positions[id].version == view.positions[id].version
         && view.positions[id].updatedAt <= s.fill.executedAt
         && AveragePrice(view.positions[id].quantity, view.positions[id].averageCost, s.fill.quantity,
                         s.fill.price) < INCREASE_LIMIT
  }

  lemma AddEventIff(db: Ledger, e: Event, pick: nat)
    requires e.positionId in db.positions && FindFill(db.fills, e.fillId).Some?
    requires forall x :: x in db.events ==> !(x.positionId == e.positionId && x.sequence == e.sequence)
    ensures AddEvent(db, e, pick).Ok?
            <==> FindEventByFill(db.events, e.fillId).None? && forall x :: x in db.events ==> x.id != e.id
    ensures AddEvent(db, e, pick).Ok? ==> AddEvent(db, e, pick).value == db.(events := db.events + [e])
  {
    EventFound(db.events, e.fillId);
  }

  lemma AddEventNeeds(db: Ledger, e: Event, pick: nat)
    requires AddEvent(db, e, pick).Ok?
    ensures FindEventByFill(db.events, e.fillId).None? && forall x :: x in db.events ==> x.id != e.id
    ensures AddEvent(db, e, pick).value.positions == db.positions
  {
    EventFound(db.events, e.fillId);
  }

  /** The next sequence number of a position is free. */
  lemma NextSequenceUnused(db: Ledger, p: PositionId, version: nat)
    requires Inv(db)
    requires p in db.positions ==> version == db.positions[p].version
    ensures forall e :: e in db.events ==> !(e.positionId == p && e.sequence == version + 1)
  {
    forall e | e in db.events && e.positionId == p
      ensures e.sequence != version + 1
    {
      assert p in db.positions && PositionOk(db, p);
      var events := EventsOf(db.events, p);
      EventsOfAreRows(db.events, p);
      var k :| 0 <= k < |events| && events[k] == e;
      assert EventOk(db, db.positions[p].key, events, k);
    }
  }

  lemma OpeningIff(
    view: Ledger, db: Ledger, s: PP.Source, positionId: PositionId, eventId: EventId, pick: nat)
    requires Inv(db) && s.fill.quantity > 0 && FindFill(db.fills, s.fill.id).Some?
    requires FindOpen(view, PP.KeyOf(s)).None?
    ensures (var planned := PP.PlanProjection(view, s, positionId, eventId);
             planned.Ok? && PP.ApplyProjection(db, planned.value, pick).1.Applied?)
            <==> Projectable(view, db, s, positionId, eventId)
  {
    hide IntentsOk, OrdersOk, PositionOk, OpenKeysUnique;
    var planned := PP.PlanProjection(view, s, positionId, eventId);
    if planned.Ok? {
      var write := planned.value;
      if positionId !in db.positions && OpenIds(db, PP.KeyOf(s)) == {} {
        var between := db.(positions := db.positions[positionId := write.position]);
        assert AddPosition(db, positionId, write.position, pick) == Ok(between);
        AddEventIff(between, write.event, pick);
      }
    }
  }

  /** The plan against an open position, in terms of the row it read. */
  lemma IncreasePlanned(view: Ledger, s: PP.Source, id: PositionId, positionId: PositionId, eventId: EventId)
    requires s.fill.quantity > 0 && FindOpen(view, PP.KeyOf(s)) == Some(id)
    ensures id in view.positions && view.positions[id].status == OPEN
    ensures var row, planned := view.positions[id], PP.PlanProjection(view, s, positionId, eventId);
            && (planned.Ok? <==>
                  row.updatedAt <= s.fill.executedAt
                  && AveragePrice(row.quantity, row.averageCost, s.fill.quantity, s.fill.price) < INCREASE_LIMIT)
            && (planned.Ok? ==>
                  && planned.value.IncreasePosition?
                  && planned.value.event.id == eventId && planned.value.event.positionId == id
                  && planned.value.event.fillId == s.fill.id
                  && planned.value.event.sequence == row.version + 1
                  && planned.value.transition.positionId == id
                  && planned.value.transition.expectedVersion == row.version)
  {
  }

  lemma IncreaseWritten(db: Ledger, event: Event, t: BuyTransition, pick: nat)
    requires t.positionId in db.positions && db.positions[t.positionId].status == OPEN
    requires event.positionId == t.positionId && event.sequence == t.expectedVersion + 1
    requires FindFill(db.fills, event.fillId).Some?
    requires db.positions[t.positionId].version == t.expectedVersion ==>
               forall e :: e in db.events ==> !(e.positionId == t.positionId && e.sequence == event.sequence)
    ensures PP.ApplyProjection(db, PP.IncreasePosition(event, t), pick).1.Applied?
            <==> FindEventByFill(db.events, event.fillId).None?
                 && (forall e :: e in db.events ==> e.id != event.id)
                 && db.positions[t.positionId].version == t.expectedVersion
  {
    hide AddEvent;
    if AddEvent(db, event, pick).Ok? {
      AddEventNeeds(db, event, pick);
    }
    if db.positions[t.positionId].version == t.expectedVersion {
      AddEventIff(db, event, pick);
    }
  }

  lemma OpenStatus(db: Ledger, id: PositionId)
    requires Inv(db) && id in db.positions
    ensures db.positions[id].status == OPEN
  {
    assert PositionOk(db, id);
  }

  lemma IncreaseIff(
    view: Ledger, db: Ledger, s: PP.Source, positionId: PositionId, eventId: EventId, pick: nat)
    requires Inv(db) && Extends(view, db)
    requires s.fill.quantity > 0 && FindFill(db.fills, s.fill.id).Some?
    requires FindOpen(view, PP.KeyOf(s)).Some?
    ensures (var planned := PP.PlanProjection(view, s, positionId, eventId);
             planned.Ok? && PP.ApplyProjection(db, planned.value, pick).1.Applied?)
            <==> Projectable(view, db, s, positionId, eventId)
  {
    hide Inv, AveragePrice, PP.PlanProjection, PP.ApplyProjection, FindOpen;
    var id := FindOpen(view, PP.KeyOf(s)).value;
    IncreasePlanned(view, s, id, positionId, eventId);
    var planned := PP.PlanProjection(view, s, positionId, eventId);
    if planned.Ok? {
      OpenStatus(db, id);
      NextSequenceUnused(db, id, db.positions[id].version);
      IncreaseWritten(db, planned.value.event, planned.value.transition, pick);
    }
  }

  /** Who wins a race between projectors: an attempt that did not find the fill already
      projected applies it exactly when its plan still fits the current ledger. */
  lemma ProjectionAppliesIff(
    eventView: Ledger, sourceView: Ledger, positionView: Ledger, db: Ledger, f: Fill,
    positionId: PositionId, eventId: EventId, pick: nat)
    requires Inv(sourceView) && Inv(positionView) && Inv(db)
    requires Extends(sourceView, db) && Extends(positionView, db)
    requires f in sourceView.fills && FindEventByFill(eventView.events, f.id).None?
    ensures PP.LoadSource(sourceView, f.id).Ok? && f.quantity > 0
    ensures PP.LoadSource(sourceView, f.id).value.fill == f
    ensures PP.ProjectOnceResult(eventView, sourceView, positionView, db, f.id, positionId, eventId,
                                 pick).1.Applied?
            <==> Projectable(positionView, db, PP.LoadSource(sourceView, f.id).value, positionId, eventId)
  {
    hide Inv, PP.LoadSource, PP.PlanProjection, PP.ApplyProjection, Projectable, Belongs;
    FillIsProjectable(sourceView, f);
    SourceStays(sourceView, db, f.id);
    var s := PP.LoadSource(sourceView, f.id).value;
    if FindOpen(positionView, PP.KeyOf(s)).None? {
      OpeningIff(positionView, db, s, positionId, eventId, pick);
    } else {
      IncreaseIff(positionView, db, s, positionId, eventId, pick);
    }
  }

  // ---------------------------------------------------------------------------
  // Fills that come too late
  // ---------------------------------------------------------------------------

  /** A fill that was not projected before a later one of the same key. */
  ghost predicate Overtaken(db: Ledger, f: Fill) {
    && f in db.fills
    && FindEventByFill(db.events, f.id).None?
    && exists p :: p in db.positions && Belongs(db, f, db.positions[p].key)
                   && f.executedAt < db.positions[p].updatedAt
  }

  /** A read that finds the identifier of a stored fill finds that fill. */
  lemma SourceRow(view: Ledger, db: Ledger, f: Fill)
    requires Inv(db) && Extends(view, db) && f in db.fills && PP.LoadSource(view, f.id).Ok?
    ensures f in view.fills && PP.LoadSource(view, f.id).value.fill == f
  {
    hide IntentsOk, OrdersOk, PositionsOk, EventsOk, OpenKeysUnique;
    FillLookup(db.fills, f);
    FillFound(view.fills, f.id);
    FillStays(view, db, f.id);
  }

  /** An open position seen by an older read is the one there is now. */
  lemma OpenIsCurrent(view: Ledger, db: Ledger, p: PositionId)
    requires Inv(db) && Extends(view, db) && p in db.positions
    ensures OpenIds(db, db.positions[p].key) != {}
    ensures match FindOpen(view, db.positions[p].key)
            case None => true
            case Some(id) =>
              && id == p && p in view.positions
              && (view.positions[p].version == db.positions[p].version ==> view.positions[p] == db.positions[p])
  {
    var key := db.positions[p].key;
    assert PositionOk(db, p);
    assert p in OpenIds(db, key);
    if FindOpen(view, key).Some? {
      assert FindOpen(view, key).value in OpenIds(view, key);
    }
  }

  lemma OvertakenFails(
    eventView: Ledger, sourceView: Ledger, positionView: Ledger, db: Ledger, f: Fill,
    positionId: PositionId, eventId: EventId, pick: nat)
    requires Inv(sourceView) && Inv(positionView) && Inv(db)
    requires Extends(sourceView, db) && Extends(positionView, db)
    requires FindEventByFill(eventView.events, f.id).None?
    requires Overtaken(db, f)
    ensures !PP.ProjectOnceResult(eventView, sourceView, positionView, db, f.id, positionId, eventId,
                                  pick).1.Applied?
  {
    hide Inv, PP.LoadSource, PP.PlanProjection, PP.ApplyProjection;
    if PP.LoadSource(sourceView, f.id).Ok? {
      SourceStays(sourceView, db, f.id);
      SourceRow(sourceView, db, f);
      var s := PP.LoadSource(sourceView, f.id).value;
      ProjectionAppliesIff(eventView, sourceView, positionView, db, f, positionId, eventId, pick);
      var p :| p in db.positions && Belongs(db, f, db.positions[p].key)
               && f.executedAt < db.positions[p].updatedAt;
      assert db.positions[p].key == PP.KeyOf(s);
      OpenIsCurrent(positionView, db, p);
    }
  }

  lemma OvertakenStays(a: Ledger, b: Ledger, f: Fill)
    requires Extends(a, b) && Overtaken(a, f) && FindEventByFill(b.events, f.id).None?
    ensures Overtaken(b, f)
  {
  }

  lemma OvertakenCallFails(calls: seq<Request>, run: Run, k: nat, f: Fill)
    requires Behaves(calls, run) && k < |calls| && Overtaken(run.history[k], f)
    ensures !Success(run.log[k], f.id) && !AppliedBy(calls, run, k, f.id)
  {
    hide Inv, PP.ProjectOnceResult, Overtaken, EventsOk, Complete, AppliedBy;
    assert FindEventByFill(run.history[k].events, f.id).None? by { NoEventOf(run.history[k], f); }
    ToldApplied(calls, run, k, f.id);
    if AppliedBy(calls, run, k, f.id) {
      AppliedNotOvertaken(calls, run, k, f);
    } else if Success(run.log[k], f.id) {
      var v := FoundAt(calls, run, k, f.id);
      EventsGrow(calls, run, v, k);
      EventFound(run.history[v].events, f.id);
      FoundStays(run.history[v].events, FindEventByFill(run.history[v].events, f.id).value, run.history[k]);
    }
  }

  lemma NoEventOf(db: Ledger, f: Fill)
    requires Overtaken(db, f)
    ensures FindEventByFill(db.events, f.id).None?
  {
  }

  lemma AppliedNotOvertaken(calls: seq<Request>, run: Run, k: nat, f: Fill)
    requires Behaves(calls, run) && k < |calls| && AppliedBy(calls, run, k, f.id)
    ensures !Overtaken(run.history[k], f)
  {
    hide Inv, PP.ProjectOnceResult, Overtaken, Extends;
    SoundUpTo(calls, run, k);
    var before, c := Before(run, k), calls[k].call;
    if !c.Project? {
      OthersKeepPositions(before, c);
    } else if Overtaken(run.history[k], f) {
      EventUnseen(At(before, c.eventView), At(before, c.sourceView), At(before, c.positionView), Last(before), c);
      OvertakenFails(At(before, c.eventView), At(before, c.sourceView), At(before, c.positionView),
                     Last(before), f, c.positionId, c.eventId, c.pick);
    }
  }

  lemma EventUnseen(eventView: Ledger, sourceView: Ledger, positionView: Ledger, db: Ledger, c: Call)
    requires c.Project?
    requires PP.ProjectOnceResult(eventView, sourceView, positionView, db, c.fillId, c.positionId, c.eventId,
                                  c.pick).1.Applied?
    ensures FindEventByFill(eventView.events, c.fillId).None?
  {
  }

  /** Once a later fill of the same key is projected first, no call ever projects the
      earlier one: it stays outside the position for good. */
  lemma {:induction false} LateFillNeverProjects(calls: seq<Request>, run: Run, i: nat, j: nat, f: Fill)
    requires Behaves(calls, run) && i <= j <= |calls| && Overtaken(run.history[i], f)
    ensures Overtaken(run.history[j], f)
    ensures forall k :: i <= k < j ==> !Success(run.log[k], f.id) && !AppliedBy(calls, run, k, f.id)
  {
    hide Overtaken, Extends, Inv, AppliedBy;
    if i < j {
      LateFillNeverProjects(calls, run, i, j - 1, f);
      OvertakenCallFails(calls, run, j - 1, f);
      RunsAreSound(calls, run);
      NoEventOf(run.history[j - 1], f);
      EventsStep(calls, run, j - 1, f.id);
      OvertakenStays(run.history[j - 1], run.history[j], f);
    }
  }

  /** Only the call that puts the fill into a position adds an event for it. */
  lemma EventsStep(calls: seq<Request>, run: Run, k: nat, fillId: FillId)
    requires Behaves(calls, run) && k < |calls| && !AppliedBy(calls, run, k, fillId)
    requires FindEventByFill(run.history[k].events, fillId).None?
    ensures FindEventByFill(run.history[k + 1].events, fillId).None?
  {
    hide AppliedBy;
    EventFound(run.history[k].events, fillId);
    EventFound(run.history[k + 1].events, fillId);
    if FindEventByFill(run.history[k + 1].events, fillId).Some? {
      WritesEvent(calls, run, k, FindEventByFill(run.history[k + 1].events, fillId).value);
    }
  }
}
