/** How a fill comes to be left outside its position: the two causes, over every run, and a
    run in which it happens. */
module LateFills {
  import opened Outcomes
  import opened Transactions
  import opened LedgerTables
  import opened PaperFills
  import opened LedgerInvariant
  import opened LedgerSteps
  import opened LedgerRuns
  import opened LedgerReplay
  import opened LedgerProgress
  import opened LedgerKeys
  import opened ProjectionOrder
  import opened ProjectionAnswers
  import TI = TradeIntents
  import PO = PaperOrders
  import PP = PositionProjection

  // ---------------------------------------------------------------------------
  // The two causes
  // ---------------------------------------------------------------------------

  /** Call number k stored the fill, whether or not it lived to report it. */
  ghost predicate StoredBy(calls: seq<Request>, run: Run, k: nat, f: Fill)
    requires k < |calls| == |run.log| && |run.history| == |calls| + 1
  {
    var response := Outcome(calls, run, k).1;
    && response.FillDone? && response.fill.Filled?
    && FilledBy(calls, run, k, f, response.fill.order)
  }

  /** Call number k stored the fill, with a clock behind the last update of its key's position. */
  ghost predicate StoredLate(calls: seq<Request>, run: Run, k: nat, f: Fill)
    requires k < |calls| == |run.log| && |run.history| == |calls| + 1
  {
    && StoredBy(calls, run, k, f)
    && exists p :: p in run.history[k].positions
                   && Belongs(run.history[k + 1], f, run.history[k].positions[p].key)
                   && f.executedAt < run.history[k].positions[p].updatedAt
  }

  /** Call number k put a later fill of the same key into a position while the fill waited. */
  ghost predicate PassedBy(calls: seq<Request>, run: Run, k: nat, f: Fill)
    requires k < |calls| == |run.log| && |run.history| == |calls| + 1
  {
    var db := run.history[k];
    && f in db.fills && !Projected(db, f)
    && exists g, key :: g in db.fills && AppliedBy(calls, run, k, g.id)
                        && Belongs(db, f, key) && Belongs(db, g, key) && f.executedAt < g.executedAt
  }

  /** The attempt of such a call, seen from its place in the run. */
  lemma AppliedCall(calls: seq<Request>, run: Run, k: nat, g: Fill, key: PositionKey)
    returns (p: PositionId, e: Event)
    requires Behaves(calls, run) && k < |calls| && AppliedBy(calls, run, k, g.id)
    requires g in run.history[k].fills && Belongs(run.history[k], g, key)
    ensures calls[k].call.Project? && calls[k].call.fillId == g.id
    ensures WentInto(run.history[k], run.history[k + 1], g, key, p, calls[k].call.positionId, e)
  {
    hide Inv, Extends, PP.ProjectOnceResult, Belongs, WentInto;
    HowItEnded(calls, run, k);
    SoundUpTo(calls, run, k);
    var before, c := Before(run, k), calls[k].call;
    if !c.Project? {
      OthersKeepPositions(before, c);
    }
    p, e := AppliedIs(At(before, c.eventView), At(before, c.sourceView), At(before, c.positionView),
                      Last(before), g, key, c.positionId, c.eventId, c.pick);
  }

  lemma PassedByOvertakes(calls: seq<Request>, run: Run, k: nat, f: Fill)
    requires Behaves(calls, run) && k < |calls| && PassedBy(calls, run, k, f)
    ensures Overtaken(run.history[k + 1], f)
  {
    hide Inv, Extends, WentInto, Belongs, AppliedBy;
    var db := run.history[k];
    var g, key :| g in db.fills && AppliedBy(calls, run, k, g.id)
                  && Belongs(db, f, key) && Belongs(db, g, key) && f.executedAt < g.executedAt;
    var p, e := AppliedCall(calls, run, k, g, key);
    RunsAreSound(calls, run);
    WentPast(db, run.history[k + 1], f, g, key, p, calls[k].call.positionId, e);
  }

  lemma FillsOnlyExecuted(run: Run, call: Call)
    requires run.history != [] && !call.ExecuteFill?
    ensures Complete(run, call).0.fills == Last(run).fills
  {
    hide TI.CreateAllResult, PO.SubmitResult, ExecuteNextResult, PP.ProjectOnceResult;
    var db := Last(run);
    match call {
      case Store(row) => ReferenceTouches(db, row);
      case CreateIntents(view, candidateId, strategies, policy, now, ids, pick) =>
        CreateAllTouches(At(run, view), db, candidateId, strategies, policy, now, ids, pick);
      case SubmitOrder(view, intentId, brokerCode, submittedAt, answer, orderId, pick) =>
        SubmitTouches(At(run, view), db, intentId, brokerCode, submittedAt, answer, orderId, pick);
      case Project(eventView, sourceView, positionView, fillId, positionId, eventId, pick) =>
        ProjectTouches(At(run, eventView), At(run, sourceView), At(run, positionView), db, fillId, positionId,
                       eventId, pick);
      case Reread(_) =>
    }
  }

  /** A new fill was stored by the call during which it appeared. */
  lemma NewFillStored(calls: seq<Request>, run: Run, k: nat, f: Fill)
    requires Behaves(calls, run) && k < |calls| && f in run.history[k + 1].fills && f !in run.history[k].fills
    ensures StoredBy(calls, run, k, f)
  {
    hide Complete, FaultAnswer;
    HowItEnded(calls, run, k);
    var before, call := Before(run, k), calls[k].call;
    var response := Outcome(calls, run, k).1;
    if !call.ExecuteFill? {
      FillsOnlyExecuted(before, call);
    } else if Refused(response) {
      RefusedComplete(before, call);
    } else {
      ExecutionAnswers(before, call);
      FilledLeavesTheRows(calls, run, k, response.fill.fill, response.fill.order);
    }
  }

  lemma ExecutionAnswers(run: Run, call: Call)
    requires run.history != []
    ensures Complete(run, call).1.FillDone? <==> call.ExecuteFill?
  {
  }

  /** The fill that a call put into a position. */
  lemma AppliedFill(calls: seq<Request>, run: Run, k: nat) returns (g: Fill, key: PositionKey)
    requires Behaves(calls, run) && k < |calls| && calls[k].call.Project?
    requires !calls[k].ending.Unwritten? && !Refused(Outcome(calls, run, k).1)
    ensures g in run.history[k].fills && Belongs(run.history[k], g, key) && AppliedBy(calls, run, k, g.id)
  {
    hide Inv, Extends, Belongs, PP.LoadSource, PP.PlanProjection, PP.ApplyProjection;
    SoundUpTo(calls, run, k);
    var before, c := Before(run, k), calls[k].call;
    var source := PP.LoadSource(At(before, c.sourceView), c.fillId);
    SourceStays(At(before, c.sourceView), Last(before), c.fillId);
    g, key := source.value.fill, PP.KeyOf(source.value);
    FillFound(Last(before).fills, c.fillId);
  }

  /** A position update by g is the only way a waiting fill falls behind in a projection. */
  lemma BehindOnlyBy(
    db: Ledger, after: Ledger, f: Fill, g: Fill, key: PositionKey, p: PositionId, positionId: PositionId,
    e: Event)
    requires WentInto(db, after, g, key, p, positionId, e)
    requires Overtaken(after, f) && !Overtaken(db, f)
    ensures f in db.fills && !Projected(db, f) && Belongs(db, f, key) && f.executedAt < g.executedAt
  {
    AppendEvent(db.events, e);
    var q :| q in after.positions && Belongs(after, f, after.positions[q].key)
             && f.executedAt < after.positions[q].updatedAt;
  }

  /** Where positions and events stay, only a new fill can be behind. */
  lemma BehindOnlyNew(a: Ledger, b: Ledger, f: Fill)
    requires Inv(a) && Extends(a, b) && b.positions == a.positions && b.events == a.events
    requires Overtaken(b, f) && !Overtaken(a, f)
    ensures f !in a.fills
    ensures exists p :: p in a.positions && Belongs(b, f, a.positions[p].key)
                        && f.executedAt < a.positions[p].updatedAt
  {
    hide Inv, Extends;
    var p :| p in b.positions && Belongs(b, f, b.positions[p].key) && f.executedAt < b.positions[p].updatedAt;
    if f in a.fills {
      FillIsProjectable(a, f);
      var key := PP.KeyOf(PP.LoadSource(a, f.id).value);
      BelongsStays(a, b, f, key);
    }
  }

  /** A fill that a call stored was new, and storing it moved no position. */
  lemma StoredIsNew(calls: seq<Request>, run: Run, k: nat, f: Fill)
    requires Behaves(calls, run) && k < |calls| && StoredBy(calls, run, k, f)
    ensures var a, b := run.history[k], run.history[k + 1];
            && b.fills == a.fills + [f] && b.positions == a.positions && b.events == a.events
            && forall g :: g in a.fills ==> g.id != f.id
  {
    hide Inv, Extends, Complete;
    var before, call := Before(run, k), calls[k].call;
    FilledLeavesTheRows(calls, run, k, f, Outcome(calls, run, k).1.fill.order);
    HowItEnded(calls, run, k);
    ExecutionAnswers(before, call);
    OthersKeepPositions(before, call);
    SoundUpTo(calls, run, k + 1);
    var b := run.history[k + 1];
    assert b == Before(run, k + 1).history[k + 1];
    assert Inv(b);
    NewInUnique(b, run.history[k].fills, f);
  }

  lemma NewInUnique(db: Ledger, before: seq<Fill>, f: Fill)
    requires Inv(db) && db.fills == before + [f]
    ensures forall g :: g in before ==> g.id != f.id
  {
    assert db.fills[|before|] == f;
    forall g | g in before
      ensures g.id != f.id
    {
      var i :| 0 <= i < |before| && before[i] == g;
      assert db.fills[i] == g;
    }
  }

  lemma StoredLateIsOvertaken(calls: seq<Request>, run: Run, k: nat, f: Fill)
    requires Behaves(calls, run) && k < |calls| && StoredLate(calls, run, k, f)
    ensures Overtaken(run.history[k + 1], f)
  {
    hide Belongs, Extends;
    StoredIsNew(calls, run, k, f);
    SoundUpTo(calls, run, k);
    hide Inv;
    assert Inv(Before(run, k).history[k]);
    NewNotProjected(run.history[k], f);
  }

  /** A fill comes too late in exactly two ways: its execution is stored with a clock behind
      the last update of its key's position, or a later fill of its key is projected while it
      waits. */
  lemma OvertakenArisesIff(calls: seq<Request>, run: Run, k: nat, f: Fill)
    requires Behaves(calls, run) && k < |calls| && !Overtaken(run.history[k], f)
    ensures Overtaken(run.history[k + 1], f) <==> StoredLate(calls, run, k, f) || PassedBy(calls, run, k, f)
  {
    hide Overtaken, StoredLate, PassedBy, Behaves;
    Lengths(calls, run);
    if StoredLate(calls, run, k, f) {
      StoredLateIsOvertaken(calls, run, k, f);
    } else if PassedBy(calls, run, k, f) {
      PassedByOvertakes(calls, run, k, f);
    } else if Overtaken(run.history[k + 1], f) {
      OvertakenHasCause(calls, run, k, f);
    }
  }

  lemma OvertakenHasCause(calls: seq<Request>, run: Run, k: nat, f: Fill)
    requires Behaves(calls, run) && k < |calls|
    requires Overtaken(run.history[k + 1], f) && !Overtaken(run.history[k], f)
    ensures StoredLate(calls, run, k, f) || PassedBy(calls, run, k, f)
  {
    hide Overtaken, Inv, Extends, Belongs, Complete, AppliedBy, StoredBy;
    RunsAreSound(calls, run);
    var a, b := run.history[k], run.history[k + 1];
    var before, call := Before(run, k), calls[k].call;
    HowItEnded(calls, run, k);
    if call.Project? {
      if Refused(Outcome(calls, run, k).1) {
        RefusedComplete(before, call);
      }
      var g, key := AppliedFill(calls, run, k);
      var p, e := AppliedCall(calls, run, k, g, key);
      BehindOnlyBy(a, b, f, g, key, p, call.positionId, e);
    } else {
      OthersKeepPositions(before, call);
      BehindOnlyNew(a, b, f);
      StoredWhenOvertaken(b, f);
      NewFillStored(calls, run, k, f);
    }
  }

  // ---------------------------------------------------------------------------
  // A run that gets there
  // ---------------------------------------------------------------------------

  const SNAPSHOT: Snapshot := Snapshot("ACME", 1)
  const DECISION: Decision := Decision(0, 0, "1", ENTER_LONG)
  const INTENT: Intent := Intent(0, IntentKey(0, "1"), "ACME", USD, BUY, MARKET, 2, None, DAY, 0)
  const ORDER: Order :=
    Order(0, ClientOrderId(0), INTERNAL_PAPER, Some("1"), ACCEPTED, None, 0, Some(0), None, 1, 0)
  const KEY: PositionKey := PositionKey(0, "ACME", USD)

  /** A decision to buy, its intent and its accepted order. */
  const DECIDED: Ledger :=
    EMPTY.(snapshots := map[0 := SNAPSHOT], candidates := map[0 := Candidate(0)], decisions := map[0 := DECISION])
  const INTENDED: Ledger := DECIDED.(intents := map[0 := INTENT])
  const ORDERED: Ledger := INTENDED.(orders := map[0 := ORDER])

  /** One more call, without or with faults. */
  lemma Append(calls: seq<Request>, run: Run, request: Request) returns (longer: Run)
    requires Behaves(calls, run)
    ensures Behaves(calls + [request], longer) && Last(longer) == Serve(run, request).0
    ensures longer.history == run.history + [Last(longer)] && longer.log == run.log + [Serve(run, request).1]
    ensures Before(longer, |calls|) == run
  {
    hide Serve;
    var (after, response) := Serve(run, request);
    longer := Run(run.history + [after], run.log + [response]);
    var all := calls + [request];
    assert Before(longer, |calls|) == run;
    forall i | 0 <= i < |all|
      ensures Served(all, longer, i)
    {
      if i < |calls| {
        assert Served(calls, run, i);
        assert Before(longer, i) == Before(run, i);
      }
    }
  }

  function Clean(call: Call): Request {
    Request(call, Reported)
  }

  lemma DecidedRun() returns (calls: seq<Request>, run: Run)
    ensures Behaves(calls, run) && Last(run) == DECIDED
  {
    var snapshot, candidate, decision := Clean(Store(SnapshotRow(0, SNAPSHOT))),
      Clean(Store(CandidateRow(0, Candidate(0)))), Clean(Store(DecisionRow(0, DECISION)));
    var a := Append([], Run([EMPTY], []), snapshot);
    assert Last(a) == EMPTY.(snapshots := map[0 := SNAPSHOT]);
    var b := Append([snapshot], a, candidate);
    assert Last(b) == Last(a).(candidates := map[0 := Candidate(0)]);
    run := Append([snapshot] + [candidate], b, decision);
    calls := [snapshot] + [candidate] + [decision];
  }

  lemma IntendedResult()
    ensures TI.CreateAllResult(DECIDED, DECIDED, 0, [TI.Strategy(0, "1", false)], TI.RiskPolicy("1", 2), 0, [0], 0).0
            == INTENDED
  {
    var strategy := TI.Strategy(0, "1", false);
    assert TI.Matches(DECIDED, 0, strategy) == {0};
    assert TI.SourceDecision(DECIDED, 0, strategy) == Ok(0);
    assert TI.Eligible(DECIDED, 0, [strategy], 0) == Ok([]);
    assert [] + [0] == [0 as DecisionId];
    assert TI.Eligible(DECIDED, 0, [strategy], 1) == Ok([0]);
    assert TI.PlanQuantity(1, TI.RiskPolicy("1", 2)) == Some(2);
    var rows := TI.IntentRows(SNAPSHOT, [0], TI.RiskPolicy("1", 2), 0);
    assert rows.Ok? && rows.value == [INTENT];
    assert TI.AddAll(DECIDED, [INTENT], [0], 0, 0) == Ok(DECIDED);
    assert TI.AddAll(DECIDED, [INTENT], [0], 0, 1) == Ok(INTENDED);
  }

  lemma OrderedResult()
    ensures PO.SubmitResult(INTENDED, INTENDED, 0, INTERNAL_PAPER, 0,
                            PO.Answered(PO.AcceptedReply(INTERNAL_PAPER, "1", 0)), 0, 0).0 == ORDERED
  {
  }

  lemma OrderedRun() returns (calls: seq<Request>, run: Run)
    ensures Behaves(calls, run) && Last(run) == ORDERED
  {
    calls, run := DecidedRun();
    var n := |calls|;
    var create := Clean(CreateIntents(n, 0, [TI.Strategy(0, "1", false)], TI.RiskPolicy("1", 2), 0, [0], 0));
    IntendedResult();
    run := Append(calls, run, create);
    assert Last(run) == INTENDED;
    var submit := Clean(SubmitOrder(n + 1, 0, INTERNAL_PAPER, 0,
                                    PO.Answered(PO.AcceptedReply(INTERNAL_PAPER, "1", 0)), 0, 0));
    OrderedResult();
    run := Append(calls + [create], run, submit);
    calls := calls + [create] + [submit];
  }

  /** Two fresh executions of the order, one time unit apart. */
  lemma FilledTwice(early: FillId, late: FillId) returns (f: Fill, g: Fill, filled: Ledger)
    requires early != late && Inv(ORDERED)
    ensures var once := ExecuteNextResult(ORDERED, ORDERED, ORDERED, 0, 1, early, 0).0;
            filled == ExecuteNextResult(once, once, once, 0, 2, late, 0).0
    ensures filled == ORDERED.(fills := [f, g], orders := filled.orders)
    ensures f.id == early && g.id == late && f.executedAt == 1 && g.executedAt == 2
    ensures Inv(filled) && Belongs(filled, f, KEY) && Belongs(filled, g, KEY)
  {
    hide Inv, ExecuteNextResult;
    FreshFillAdvances(ORDERED, 0, 1, early, 0);
    var (after, outcome) := ExecuteNextResult(ORDERED, ORDERED, ORDERED, 0, 1, early, 0);
    FreshFillAdvances(after, 0, 2, late, 0);
    var (end, other) := ExecuteNextResult(after, after, after, 0, 2, late, 0);
    f, g, filled := outcome.fill, other.fill, end;
    assert [] + [f] + [g] == [f, g];
  }

  /** A stored fill has the price of the one snapshot there is. */
  lemma OnePrice(db: Ledger, f: Fill)
    requires Inv(db) && f in db.fills && db.snapshots == ORDERED.snapshots
    ensures f.price == SNAPSHOT.lastPrice
  {
    hide Inv, Belongs;
    FillIsProjectable(db, f);
  }

  /** The second fill is applied while the first one waits. */
  lemma SecondApplies(db: Ledger, f: Fill, g: Fill)
    requires Inv(db) && db == ORDERED.(fills := [f, g], orders := db.orders)
    requires Belongs(db, f, KEY) && Belongs(db, g, KEY) && f.executedAt < g.executedAt
    ensures FreshProjection(db, g.id, 0, 0, 0).1.Applied?
    ensures Overtaken(FreshProjection(db, g.id, 0, 0, 0).0, f)
  {
    hide Inv, Overtaken, PP.ProjectOnceResult, Belongs, Extends;
    OnePrice(db, g);
    assert FindOpen(db, KEY).None?;
    NotOvertakenUnopened(db, g, KEY);
    FreshProjectionAppliesIff(db, g, KEY, 0, 0, 0);
    SelfExtends(db);
    LaterFirstOvertakes(db, db, db, db, f, g, KEY, 0, 0, 0);
  }

  /** Two fills of one order, the second projected first, whether or not that call lives to
      report it: the run ends with the first fill overtaken, and by `LateFillNeverProjects` it
      stays so. */
  lemma OvertakenIsReachable(ending: Ending)
    returns (calls: seq<Request>, run: Run, f: Fill, later: FillId)
    requires !ending.Unwritten?
    ensures Behaves(calls, run) && Overtaken(Last(run), f)
    ensures calls != [] && calls[|calls| - 1].ending == ending
    ensures AppliedBy(calls, run, |calls| - 1, later)
  {
    hide Inv, Overtaken, ExecuteNextResult, PP.ProjectOnceResult, Belongs;
    calls, run := OrderedRun();
    RunsAreSound(calls, run);
    var n := |calls|;
    var g, filled;
    f, g, filled := FilledTwice(1, 2);
    var first, second :=
      Clean(ExecuteFill(n, n, 0, 1, 1, 0)), Clean(ExecuteFill(n + 1, n + 1, 0, 2, 2, 0));
    run := Append(calls, run, first);
    run := Append(calls + [first], run, second);
    var project := Request(Project(n + 2, n + 2, n + 2, 2, 0, 0, 0), ending);
    assert Last(run) == filled;
    SecondApplies(filled, f, g);
    run := Append(calls + [first] + [second], run, project);
    calls, later := calls + [first] + [second] + [project], 2;
  }

  /** So a call can fail and have written: its fill is in a position, and nobody was told. */
  lemma SilentIsReachable() returns (calls: seq<Request>, run: Run, i: nat, fillId: FillId)
    ensures Behaves(calls, run) && i < |calls| && Silent(calls, run, i)
    ensures run.log[i] == ProjectDone(fillId, PP.Failed(PP.PersistenceFailed))
    ensures FindEventByFill(run.history[i + 1].events, fillId).Some?
    ensures forall m :: 0 <= m < |calls| ==> !AppliedFor(run.log[m], fillId)
  {
    hide Complete, FaultAnswer, Overtaken, Wrote;
    var f;
    calls, run, f, fillId := OvertakenIsReachable(Unreported);
    i := |calls| - 1;
    NobodyTold(calls, run, i, fillId);
  }

  lemma NobodyTold(calls: seq<Request>, run: Run, i: nat, fillId: FillId)
    requires Behaves(calls, run) && i < |calls| && AppliedBy(calls, run, i, fillId)
    requires calls[i].ending.Unreported?
    ensures Silent(calls, run, i)
    ensures run.log[i] == ProjectDone(fillId, PP.Failed(PP.PersistenceFailed))
    ensures FindEventByFill(run.history[i + 1].events, fillId).Some?
    ensures forall m :: 0 <= m < |calls| ==> !AppliedFor(run.log[m], fillId)
  {
    hide Complete, FaultAnswer;
    var e := AppliedWrites(calls, run, i, fillId);
    AppendEvent(run.history[i].events, e);
    NoEventBefore(calls, run, i, e);
    WritesEvent(calls, run, i, e);
    hide AppliedBy;
    forall m | 0 <= m < |calls|
      ensures !AppliedFor(run.log[m], fillId)
    {
      ToldApplied(calls, run, m, fillId);
      if i < m {
        AppliedAtMostOnce(calls, run, i, m, fillId);
      } else if m < i && AppliedFor(run.log[m], fillId) {
        AppliedAtMostOnce(calls, run, m, i, fillId);
      }
    }
  }

  /** A retry that reads the events afterwards is told what the silent call did. */
  lemma RetryIsTold(calls: seq<Request>, run: Run, i: nat, j: nat, fillId: FillId)
    requires Behaves(calls, run) && i < j < |calls| && AppliedBy(calls, run, i, fillId)
    requires calls[j].ending.Reported? && calls[j].call.Project? && calls[j].call.fillId == fillId
    requires calls[j].call.eventView > i
    ensures Outcome(calls, run, i).1.attempt.Applied?
    ensures run.log[j] == ProjectDone(fillId, PP.AlreadyApplied(Outcome(calls, run, i).1.attempt.result))
  {
    hide PP.LoadSource, PP.PlanProjection, PP.ApplyProjection, EventsOk, Wrote;
    var e := AppliedWrites(calls, run, i, fillId);
    WroteIs(run.history[i], run.history[i + 1], fillId, Outcome(calls, run, i).1.attempt, e);
    var view := calls[j].call.eventView;
    var v := if view <= j then view else j;
    EventsGrow(calls, run, i + 1, v);
    FoundStays(run.history[i + 1].events, e, run.history[v]);
    HowItEnded(calls, run, j);
    assert At(Before(run, j), view) == run.history[v];
  }

  lemma WroteIs(db: Ledger, after: Ledger, fillId: FillId, attempt: PP.Attempt, e: Event)
    requires Wrote(db, after, fillId, attempt, e)
    ensures e in after.events && e.fillId == fillId && attempt == PP.Applied(PP.ResultOf(e))
  {
    assert after.events[|db.events|] == e;
  }

  lemma NoEventBefore(calls: seq<Request>, run: Run, i: nat, e: Event)
    requires Behaves(calls, run) && i < |calls| && FindEventByFill(run.history[i].events, e.fillId).None?
    ensures e !in run.history[i].events
  {
    EventFound(run.history[i].events, e.fillId);
  }
}
