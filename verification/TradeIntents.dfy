/** Atomic creation of BUY market intents from stored ENTER_LONG decisions. */
module TradeIntents {
  import opened Outcomes
  import opened LedgerTables
  import opened UnitsOfWork
  import opened Transactions

  datatype Strategy = Strategy(strategyId: nat, version: string, observationOnly: bool)

  /** The fixed-notional policy: USD, BUY, MARKET, DAY, whole quantities of at least one. */
  datatype RiskPolicy = RiskPolicy(version: string, maximumNotional: Price)

  datatype IntentFailure =
    | CandidateNotFound
    | SnapshotNotFound
    | DecisionMissing
    | DecisionInvalid(reason: string)
    | RiskRejected
    | IntentConflict
    | IntentPersistence

  datatype IntentOutcome = Created(ids: seq<IntentId>) | NotCreated(failure: IntentFailure)

  /** Largest whole quantity whose notional stays within the policy, if at least one. */
  function PlanQuantity(price: Price, policy: RiskPolicy): Option<nat> {
    var quantity := policy.maximumNotional / price;
    if quantity < 1 then None else Some(quantity)
  }

  lemma {:induction false} QuantityIsLargest(price: Price, policy: RiskPolicy, q: nat)
    ensures match PlanQuantity(price, policy)
            case None => q >= 1 ==> q * price > policy.maximumNotional
            case Some(quantity) => quantity >= 1 && (q <= quantity <==> q * price <= policy.maximumNotional)
  {
    var whole := policy.maximumNotional / price;
    assert policy.maximumNotional == whole * price + policy.maximumNotional % price;
    if q <= whole {
      Scale(q, whole, price);
    } else {
      Scale(whole + 1, q, price);
      assert (whole + 1) * price == whole * price + price;
    }
  }

  lemma Scale(a: nat, b: nat, price: Price)
    requires a <= b
    ensures a * price <= b * price
  {
  }

  /** The decisions of one candidate made by one strategy version. */
  function Matches(db: Ledger, candidateId: CandidateId, strategy: Strategy): set<DecisionId> {
    set id | id in db.decisions
             && db.decisions[id].candidateId == candidateId
             && db.decisions[id].strategyId == strategy.strategyId
             && db.decisions[id].strategyVersion == strategy.version
  }

  predicate ActionAllowed(strategy: Strategy, action: Action) {
    if strategy.observationOnly then action == OBSERVE else action == ENTER_LONG || action == SKIP
  }

  /** The one decision a strategy contributes, or why it makes the batch fail. */
  function SourceDecision(db: Ledger, candidateId: CandidateId, strategy: Strategy)
    : (r: Result<DecisionId, IntentFailure>)
    ensures r.Ok? ==> r.value in db.decisions && db.decisions[r.value].candidateId == candidateId
  {
    var matches := Matches(db, candidateId, strategy);
    if matches == {} then Err(DecisionMissing)
    else if |matches| != 1 then Err(DecisionInvalid("duplicate_source"))
    else
      var id := Least(matches);
      if !ActionAllowed(strategy, db.decisions[id].action) then Err(DecisionInvalid("unexpected_action"))
      else Ok(id)
  }

  /** Eligible decisions of the first n strategies, in catalog order. */
  function Eligible(db: Ledger, candidateId: CandidateId, strategies: seq<Strategy>, n: nat)
    : (r: Result<seq<DecisionId>, IntentFailure>)
    requires n <= |strategies|
    ensures r.Ok? ==>
              forall id | id in r.value ::
                id in db.decisions && db.decisions[id].candidateId == candidateId
                && db.decisions[id].action == ENTER_LONG
  {
    if n == 0 then Ok([])
    else
      match Eligible(db, candidateId, strategies, n - 1)
      case Err(failure) => Err(failure)
      case Ok(before) =>
        match SourceDecision(db, candidateId, strategies[n - 1])
        case Err(failure) => Err(failure)
        case Ok(id) => if db.decisions[id].action == ENTER_LONG then Ok(before + [id]) else Ok(before)
  }

  lemma {:induction false} EligibleStops(
    db: Ledger, candidateId: CandidateId, strategies: seq<Strategy>, i: nat, j: nat)
    requires i <= j <= |strategies| && Eligible(db, candidateId, strategies, i).Err?
    ensures Eligible(db, candidateId, strategies, j) == Eligible(db, candidateId, strategies, i)
  {
    if i < j {
      EligibleStops(db, candidateId, strategies, i, j - 1);
    }
  }

  /** The strategy at index i contributes the decision `id` to the batch. */
  predicate Contributes(db: Ledger, candidateId: CandidateId, strategies: seq<Strategy>, i: nat, id: DecisionId)
    requires i < |strategies|
  {
    SourceDecision(db, candidateId, strategies[i]) == Ok(id) && db.decisions[id].action == ENTER_LONG
  }

  /** The eligible decisions are those that the strategies at these indices contribute, in
      catalog order, and no strategy that contributes one is left out. */
  ghost predicate KeepsExactly(
    db: Ledger, candidateId: CandidateId, strategies: seq<Strategy>, n: nat, ids: seq<DecisionId>,
    at: seq<nat>)
    requires n <= |strategies|
  {
    && |at| == |ids|
    && (forall k :: 0 <= k < |at| ==> at[k] < n && Contributes(db, candidateId, strategies, at[k], ids[k]))
    && (forall j, k :: 0 <= j < k < |at| ==> at[j] < at[k])
    && (forall i :: 0 <= i < n ==> SourceDecision(db, candidateId, strategies[i]).Ok?)
    && forall i, id | 0 <= i < n && Contributes(db, candidateId, strategies, i, id) :: i in at
  }

  lemma KeepsNext(
    db: Ledger, candidateId: CandidateId, strategies: seq<Strategy>, n: nat, ids: seq<DecisionId>,
    at: seq<nat>)
    requires n < |strategies| && KeepsExactly(db, candidateId, strategies, n, ids, at)
    requires SourceDecision(db, candidateId, strategies[n]).Ok?
    ensures var id := SourceDecision(db, candidateId, strategies[n]).value;
            if db.decisions[id].action == ENTER_LONG
            then KeepsExactly(db, candidateId, strategies, n + 1, ids + [id], at + [n])
            else KeepsExactly(db, candidateId, strategies, n + 1, ids, at)
  {
    hide SourceDecision;
    var id := SourceDecision(db, candidateId, strategies[n]).value;
    if db.decisions[id].action == ENTER_LONG {
      assert Contributes(db, candidateId, strategies, n, id);
      assert (at + [n])[|at|] == n;
      forall i, other | 0 <= i < n + 1 && Contributes(db, candidateId, strategies, i, other)
        ensures i in at + [n]
      {
      }
    }
  }

  /** The strategy at index `failed` is the first whose decision is missing, doubled or not
      allowed. */
  ghost predicate FailsFirst(
    db: Ledger, candidateId: CandidateId, strategies: seq<Strategy>, failed: nat, failure: IntentFailure)
  {
    && failed < |strategies|
    && SourceDecision(db, candidateId, strategies[failed]) == Err(failure)
    && forall i :: 0 <= i < failed ==> SourceDecision(db, candidateId, strategies[i]).Ok?
  }

  lemma KeepsNothing(db: Ledger, candidateId: CandidateId, strategies: seq<Strategy>)
    ensures KeepsExactly(db, candidateId, strategies, 0, [], [])
  {
  }

  method CollectEligible(db: Ledger, candidateId: CandidateId, strategies: seq<Strategy>)
    returns (r: Result<seq<DecisionId>, IntentFailure>, ghost at: seq<nat>, ghost failed: nat)
    ensures r == Eligible(db, candidateId, strategies, |strategies|)
    ensures match r
            case Ok(ids) => KeepsExactly(db, candidateId, strategies, |strategies|, ids, at)
            case Err(failure) => FailsFirst(db, candidateId, strategies, failed, failure)
  {
    hide KeepsExactly;
    var eligible: seq<DecisionId> := [];
    at, failed := [], 0;
    KeepsNothing(db, candidateId, strategies);
    var i := 0;
    while i < |strategies|
      invariant 0 <= i <= |strategies|
      invariant Eligible(db, candidateId, strategies, i) == Ok(eligible)
      invariant KeepsExactly(db, candidateId, strategies, i, eligible, at)
      invariant forall k :: 0 <= k < i ==> SourceDecision(db, candidateId, strategies[k]).Ok?
    {
      var source := SourceDecision(db, candidateId, strategies[i]);
      i := i + 1;
      if source.Err? {
        failed := i - 1;
        EligibleStops(db, candidateId, strategies, i, |strategies|);
        return Err(source.error), at, failed;
      }
      KeepsNext(db, candidateId, strategies, i - 1, eligible, at);
      if db.decisions[source.value].action == ENTER_LONG {
        eligible := eligible + [source.value];
        at := at + [i - 1];
      }
    }
    return Ok(eligible), at, failed;
  }

  /** The intents one call wants to store, or the failure it ends with. */
  function PlanIntents(
    view: Ledger, candidateId: CandidateId, strategies: seq<Strategy>, policy: RiskPolicy, now: Time)
    : Result<seq<Intent>, IntentFailure>
  {
    if candidateId !in view.candidates then Err(CandidateNotFound)
    else if view.candidates[candidateId].snapshotId !in view.snapshots then Err(SnapshotNotFound)
    else
      match Eligible(view, candidateId, strategies, |strategies|)
      case Err(failure) => Err(failure)
      case Ok(eligible) =>
        if eligible == [] then Ok([])
        else IntentRows(view.snapshots[view.candidates[candidateId].snapshotId], eligible, policy, now)
  }

  function IntentRows(snapshot: Snapshot, eligible: seq<DecisionId>, policy: RiskPolicy, now: Time)
    : Result<seq<Intent>, IntentFailure>
  {
    match PlanQuantity(snapshot.lastPrice, policy)
    case None => Err(RiskRejected)
    case Some(quantity) =>
      Ok(seq(|eligible|, i requires 0 <= i < |eligible| =>
        Intent(eligible[i], IntentKey(eligible[i], policy.version), snapshot.symbol, USD, BUY, MARKET,
               quantity, None, DAY, now)))
  }

  // ---------------------------------------------------------------------------
  // What the planned intents are
  // ---------------------------------------------------------------------------

  /** The decision that this strategy made for the candidate. */
  predicate MadeBy(db: Ledger, id: DecisionId, candidateId: CandidateId, strategy: Strategy) {
    && id in db.decisions
    && db.decisions[id].candidateId == candidateId
    && db.decisions[id].strategyId == strategy.strategyId
    && db.decisions[id].strategyVersion == strategy.version
  }

  predicate Enters(db: Ledger, id: DecisionId, candidateId: CandidateId, strategy: Strategy) {
    MadeBy(db, id, candidateId, strategy) && db.decisions[id].action == ENTER_LONG
  }

  lemma OneMember(ids: set<DecisionId>, a: DecisionId, b: DecisionId)
    requires |ids| == 1 && a in ids && b in ids
    ensures a == b
  {
    assert |ids - {a}| == 0;
  }

  /** A strategy contributes its decision exactly when it made one, only one, and one that
      its kind may make: an observer observes, any other strategy enters or skips. */
  lemma SourceDecisionIff(db: Ledger, candidateId: CandidateId, strategy: Strategy, id: DecisionId)
    ensures SourceDecision(db, candidateId, strategy) == Ok(id)
            <==> && MadeBy(db, id, candidateId, strategy)
                 && (forall other :: MadeBy(db, other, candidateId, strategy) ==> other == id)
                 && (if strategy.observationOnly then db.decisions[id].action == OBSERVE
                     else db.decisions[id].action in {ENTER_LONG, SKIP})
    ensures SourceDecision(db, candidateId, strategy) == Err(DecisionMissing)
            <==> forall other :: !MadeBy(db, other, candidateId, strategy)
    ensures SourceDecision(db, candidateId, strategy) == Err(DecisionInvalid("duplicate_source"))
            <==> exists x, y :: x != y && MadeBy(db, x, candidateId, strategy) && MadeBy(db, y, candidateId, strategy)
  {
    var matches := Matches(db, candidateId, strategy);
    assert forall x :: x in matches <==> MadeBy(db, x, candidateId, strategy);
    if matches != {} {
      if |matches| == 1 {
        var least := Least(matches);
        forall x, y | x in matches && y in matches
          ensures x == y
        {
          OneMember(matches, x, y);
        }
      } else {
        var x :| x in matches;
        assert matches != {x};
        var y :| y in matches && y != x;
        assert MadeBy(db, x, candidateId, strategy) && MadeBy(db, y, candidateId, strategy);
      }
    }
  }

  /** The largest whole quantity that the policy pays for at this price. */
  predicate LargestAffordable(quantity: nat, lastPrice: Price, maximumNotional: Price) {
    && quantity >= 1
    && quantity * lastPrice <= maximumNotional
    && (quantity + 1) * lastPrice > maximumNotional
  }

  /** The intent is what this call asks for: a market buy of the snapshot's symbol, as large as
      the policy pays for, for an ENTER_LONG decision that a strategy of the catalog made. */
  ghost predicate AskedFor(
    db: Ledger, row: Intent, candidateId: CandidateId, strategies: seq<Strategy>, policy: RiskPolicy, now: Time)
  {
    && candidateId in db.candidates && db.candidates[candidateId].snapshotId in db.snapshots
    && var snapshot := db.snapshots[db.candidates[candidateId].snapshotId];
    && row.symbol == snapshot.symbol
    && LargestAffordable(row.quantity, snapshot.lastPrice, policy.maximumNotional)
    && (exists strategy :: strategy in strategies && !strategy.observationOnly
                           && Enters(db, row.decisionId, candidateId, strategy))
    && row.key == IntentKey(row.decisionId, policy.version)
    && row.currency == USD && row.side == BUY && row.orderType == MARKET && row.limitPrice == None
    && row.timeInForce == DAY && row.createdAt == now
  }

  /** The eligible decisions are the ENTER_LONG decisions of the first n strategies. */
  lemma {:induction false} EligibleAre(
    db: Ledger, candidateId: CandidateId, strategies: seq<Strategy>, n: nat, id: DecisionId)
    requires n <= |strategies| && Eligible(db, candidateId, strategies, n).Ok?
    ensures id in Eligible(db, candidateId, strategies, n).value
            <==> exists i :: 0 <= i < n && Enters(db, id, candidateId, strategies[i])
    ensures id in Eligible(db, candidateId, strategies, n).value ==>
              exists i :: 0 <= i < n && Enters(db, id, candidateId, strategies[i]) && !strategies[i].observationOnly
  {
    hide SourceDecision, MadeBy;
    if n > 0 {
      EligibleAre(db, candidateId, strategies, n - 1, id);
      var last := SourceDecision(db, candidateId, strategies[n - 1]).value;
      SourceDecisionIff(db, candidateId, strategies[n - 1], last);
    }
  }

  /** What is planned: exactly one kind of intent, for every ENTER_LONG decision of the catalog
      and no other; and the risk check rejects a price that the policy cannot pay once. */
  lemma PlannedAre(
    view: Ledger, candidateId: CandidateId, strategies: seq<Strategy>, policy: RiskPolicy, now: Time)
    ensures var planned := PlanIntents(view, candidateId, strategies, policy, now);
            && (planned.Ok? ==>
                  && (forall row :: row in planned.value ==>
                                      AskedFor(view, row, candidateId, strategies, policy, now))
                  && forall strategy, id :: strategy in strategies && Enters(view, id, candidateId, strategy) ==>
                                              exists row :: row in planned.value && row.decisionId == id)
            && (planned == Err(RiskRejected) ==>
                  && candidateId in view.candidates && view.candidates[candidateId].snapshotId in view.snapshots
                  && view.snapshots[view.candidates[candidateId].snapshotId].lastPrice > policy.maximumNotional)
  {
    hide Eligible, IntentRows, Enters, LargestAffordable;
    var planned := PlanIntents(view, candidateId, strategies, policy, now);
    var eligible := Eligible(view, candidateId, strategies, |strategies|);
    if planned.Ok? {
      forall row | row in planned.value
        ensures AskedFor(view, row, candidateId, strategies, policy, now)
      {
        PlannedRow(view.snapshots[view.candidates[candidateId].snapshotId], eligible.value, policy, now, row);
        EligibleAre(view, candidateId, strategies, |strategies|, row.decisionId);
      }
      forall strategy, id | strategy in strategies && Enters(view, id, candidateId, strategy)
        ensures exists row :: row in planned.value && row.decisionId == id
      {
        var i :| 0 <= i < |strategies| && strategies[i] == strategy;
        EligibleAre(view, candidateId, strategies, |strategies|, id);
        RowOf(view.snapshots[view.candidates[candidateId].snapshotId], eligible.value, policy, now, id);
      }
    } else if planned == Err(RiskRejected) {
      NeverRiskRejected(view, candidateId, strategies, |strategies|);
      TooDear(view.snapshots[view.candidates[candidateId].snapshotId], eligible.value, policy, now);
    }
  }

  lemma PlannedRow(snapshot: Snapshot, eligible: seq<DecisionId>, policy: RiskPolicy, now: Time, row: Intent)
    requires IntentRows(snapshot, eligible, policy, now).Ok?
    requires row in IntentRows(snapshot, eligible, policy, now).value
    ensures row.decisionId in eligible
    ensures LargestAffordable(row.quantity, snapshot.lastPrice, policy.maximumNotional)
    ensures row == Intent(row.decisionId, IntentKey(row.decisionId, policy.version), snapshot.symbol, USD, BUY,
                          MARKET, row.quantity, None, DAY, now)
  {
    QuantityIsLargest(snapshot.lastPrice, policy, row.quantity);
    QuantityIsLargest(snapshot.lastPrice, policy, row.quantity + 1);
    hide PlanQuantity;
  }

  lemma RowOf(snapshot: Snapshot, eligible: seq<DecisionId>, policy: RiskPolicy, now: Time, id: DecisionId)
    requires IntentRows(snapshot, eligible, policy, now).Ok? && id in eligible
    ensures exists row :: row in IntentRows(snapshot, eligible, policy, now).value && row.decisionId == id
  {
    var i :| 0 <= i < |eligible| && eligible[i] == id;
    assert IntentRows(snapshot, eligible, policy, now).value[i].decisionId == id;
  }

  lemma TooDear(snapshot: Snapshot, eligible: seq<DecisionId>, policy: RiskPolicy, now: Time)
    ensures IntentRows(snapshot, eligible, policy, now) == Err(RiskRejected) ==>
              snapshot.lastPrice > policy.maximumNotional
    ensures IntentRows(snapshot, eligible, policy, now).Err? ==>
              IntentRows(snapshot, eligible, policy, now) == Err(RiskRejected)
  {
    QuantityIsLargest(snapshot.lastPrice, policy, 1);
    hide PlanQuantity;
  }

  lemma {:induction false} NeverRiskRejected(
    db: Ledger, candidateId: CandidateId, strategies: seq<Strategy>, n: nat)
    requires n <= |strategies|
    ensures Eligible(db, candidateId, strategies, n) != Err(RiskRejected)
  {
    if n > 0 {
      NeverRiskRejected(db, candidateId, strategies, n - 1);
    }
  }

  /** The i-th generated identifier; a repeated one is caught by the primary key. */
  function IdAt(ids: seq<IntentId>, i: int): IntentId {
    if 0 <= i < |ids| then ids[i] else 0
  }

  function FirstIds(ids: seq<IntentId>, n: nat): (first: seq<IntentId>)
    ensures |first| == n
  {
    if n == 0 then [] else FirstIds(ids, n - 1) + [IdAt(ids, n - 1)]
  }

  lemma {:induction false} FirstIdsAre(ids: seq<IntentId>, n: nat)
    ensures forall k :: 0 <= k < n && k < |ids| ==> FirstIds(ids, n)[k] == ids[k]
  {
    if n > 0 {
      FirstIdsAre(ids, n - 1);
    }
  }

  function AddAll(db: Ledger, rows: seq<Intent>, ids: seq<IntentId>, pick: nat, n: nat)
    : Result<Ledger, DbError>
    requires n <= |rows|
  {
    if n == 0 then Ok(db)
    else
      match AddAll(db, rows, ids, pick, n - 1)
      case Err(error) => Err(error)
      case Ok(before) => AddIntent(before, IdAt(ids, n - 1), rows[n - 1], pick)
  }

  lemma {:induction false} AddAllStops(
    db: Ledger, rows: seq<Intent>, ids: seq<IntentId>, pick: nat, i: nat, j: nat)
    requires i <= j <= |rows| && AddAll(db, rows, ids, pick, i).Err?
    ensures AddAll(db, rows, ids, pick, j) == AddAll(db, rows, ids, pick, i)
  {
    if i < j {
      AddAllStops(db, rows, ids, pick, i, j - 1);
    }
  }

  lemma AddNothing(db: Ledger, rows: seq<Intent>, ids: seq<IntentId>, pick: nat)
    ensures AddAll(db, rows, ids, pick, 0) == Ok(db) && FirstIds(ids, 0) == []
  {
  }

  function CreateAllResult(
    view: Ledger, db: Ledger, candidateId: CandidateId, strategies: seq<Strategy>,
    policy: RiskPolicy, now: Time, ids: seq<IntentId>, pick: nat)
    : (Ledger, IntentOutcome)
  {
    match PlanIntents(view, candidateId, strategies, policy, now)
    case Err(failure) => (db, NotCreated(failure))
    case Ok(rows) =>
      match AddAll(db, rows, ids, pick, |rows|)
      case Err(Duplicate(_)) => (db, NotCreated(IntentConflict))
      case Err(_) => (db, NotCreated(IntentPersistence))
      case Ok(done) => (done, Created(FirstIds(ids, |rows|)))
  }

  /** These rows were added under these identifiers, all of them new. */
  ghost predicate Added(
    before: map<IntentId, Intent>, after: map<IntentId, Intent>, rows: seq<Intent>, stored: seq<IntentId>)
  {
    && |stored| <= |rows|
    && (forall id :: id in after <==> id in before || id in stored)
    && (forall id :: id in before ==> id !in stored && after[id] == before[id])
    && (forall k :: 0 <= k < |stored| ==> stored[k] in after && after[stored[k]] == rows[k])
    && forall j, k :: 0 <= j < k < |stored| ==> stored[j] != stored[k]
  }

  lemma AddedMore(
    before: map<IntentId, Intent>, between: map<IntentId, Intent>, rows: seq<Intent>, stored: seq<IntentId>,
    id: IntentId)
    requires Added(before, between, rows, stored) && |stored| < |rows| && id !in between
    ensures Added(before, between[id := rows[|stored|]], rows, stored + [id])
  {
    var more := stored + [id];
    assert forall k :: 0 <= k < |stored| ==> more[k] == stored[k] && stored[k] in stored;
    assert more[|stored|] == id;
    assert forall x :: x in more <==> x in stored || x == id;
  }

  /** The rows that were stored are the planned ones, under the given identifiers in order. */
  lemma {:induction false} AddedAre(db: Ledger, rows: seq<Intent>, ids: seq<IntentId>, pick: nat, n: nat)
    requires n <= |rows| && AddAll(db, rows, ids, pick, n).Ok?
    ensures var after := AddAll(db, rows, ids, pick, n).value;
            && after == db.(intents := after.intents)
            && Added(db.intents, after.intents, rows, FirstIds(ids, n))
  {
    hide Added, AddIntent;
    if n == 0 {
      NothingAdded(db.intents, rows);
    } else {
      AddedAre(db, rows, ids, pick, n - 1);
      var before := AddAll(db, rows, ids, pick, n - 1).value;
      AddedOne(before, IdAt(ids, n - 1), rows[n - 1], pick);
      AddedMore(db.intents, before.intents, rows, FirstIds(ids, n - 1), IdAt(ids, n - 1));
    }
  }

  lemma NothingAdded(before: map<IntentId, Intent>, rows: seq<Intent>)
    ensures Added(before, before, rows, [])
  {
  }

  lemma AddedOne(db: Ledger, id: IntentId, row: Intent, pick: nat)
    requires AddIntent(db, id, row, pick).Ok?
    ensures id !in db.intents && AddIntent(db, id, row, pick).value == db.(intents := db.intents[id := row])
  {
  }

  /** A batch that is created consists of the reported intents and no others: one for every
      ENTER_LONG decision of the catalog, each as large as the policy pays for. */
  lemma CreatedAre(
    view: Ledger, db: Ledger, candidateId: CandidateId, strategies: seq<Strategy>,
    policy: RiskPolicy, now: Time, ids: seq<IntentId>, pick: nat)
    requires CreateAllResult(view, db, candidateId, strategies, policy, now, ids, pick).1.Created?
    ensures var (after, outcome) :=
              CreateAllResult(view, db, candidateId, strategies, policy, now, ids, pick);
            && after == db.(intents := after.intents)
            && (forall id :: id in after.intents <==> id in db.intents || id in outcome.ids)
            && (forall id :: id in db.intents ==> id !in outcome.ids && after.intents[id] == db.intents[id])
            && (forall id :: id in outcome.ids ==>
                  id in after.intents && AskedFor(view, after.intents[id], candidateId, strategies, policy, now))
            && (forall j, k :: 0 <= j < k < |outcome.ids| ==> outcome.ids[j] != outcome.ids[k])
            && (forall k :: 0 <= k < |outcome.ids| && k < |ids| ==> outcome.ids[k] == ids[k])
            && forall strategy, d :: strategy in strategies && Enters(view, d, candidateId, strategy) ==>
                                       exists id :: id in outcome.ids && id in after.intents
                                                    && after.intents[id].decisionId == d
  {
    hide PlanIntents, AddAll, AskedFor, Enters, FirstIds;
    var rows := PlanIntents(view, candidateId, strategies, policy, now).value;
    PlannedAre(view, candidateId, strategies, policy, now);
    AddedAre(db, rows, ids, pick, |rows|);
    FirstIdsAre(ids, |rows|);
    var (after, outcome) := CreateAllResult(view, db, candidateId, strategies, policy, now, ids, pick);
    forall id | id in outcome.ids
      ensures id in after.intents && AskedFor(view, after.intents[id], candidateId, strategies, policy, now)
    {
      var k :| 0 <= k < |outcome.ids| && outcome.ids[k] == id;
      assert rows[k] in rows;
    }
    forall strategy, d | strategy in strategies && Enters(view, d, candidateId, strategy)
      ensures exists id :: id in outcome.ids && id in after.intents && after.intents[id].decisionId == d
    {
      var row :| row in rows && row.decisionId == d;
      var k :| 0 <= k < |rows| && rows[k] == row;
      assert outcome.ids[k] in outcome.ids;
    }
  }

  /** Rows that were added are for decisions that had no intent. */
  lemma {:induction false} AddedForNew(
    db: Ledger, rows: seq<Intent>, ids: seq<IntentId>, pick: nat, n: nat, k: nat, id: IntentId)
    requires k < n <= |rows| && AddAll(db, rows, ids, pick, n).Ok? && id in db.intents
    ensures db.intents[id].decisionId != rows[k].decisionId
  {
    hide AddIntent, Added;
    AddedAre(db, rows, ids, pick, n - 1);
    if k < n - 1 {
      AddedForNew(db, rows, ids, pick, n - 1, k, id);
    } else {
      StillThere(db.intents, AddAll(db, rows, ids, pick, n - 1).value.intents, rows, FirstIds(ids, n - 1), id);
      NewDecision(AddAll(db, rows, ids, pick, n - 1).value, IdAt(ids, n - 1), rows[n - 1], pick, id);
    }
  }

  lemma StillThere(
    before: map<IntentId, Intent>, after: map<IntentId, Intent>, rows: seq<Intent>, stored: seq<IntentId>,
    id: IntentId)
    requires Added(before, after, rows, stored) && id in before
    ensures id in after && after[id] == before[id]
  {
  }

  lemma NewDecision(db: Ledger, id: IntentId, row: Intent, pick: nat, other: IntentId)
    requires AddIntent(db, id, row, pick).Ok? && other in db.intents
    ensures db.intents[other].decisionId != row.decisionId
  {
  }

  /** While the decisions are there, only a unique key can stop an insert. */
  lemma {:induction false} OnlyDuplicates(db: Ledger, rows: seq<Intent>, ids: seq<IntentId>, pick: nat, n: nat)
    requires n <= |rows| && forall row :: row in rows ==> row.decisionId in db.decisions
    ensures AddAll(db, rows, ids, pick, n).Err? ==> AddAll(db, rows, ids, pick, n).error.Duplicate?
  {
    hide AddIntent, Added;
    if n > 0 {
      OnlyDuplicates(db, rows, ids, pick, n - 1);
      if AddAll(db, rows, ids, pick, n - 1).Ok? {
        AddedAre(db, rows, ids, pick, n - 1);
        var before := AddAll(db, rows, ids, pick, n - 1).value;
        assert rows[n - 1] in rows && before.decisions == db.decisions;
        OnlyDuplicate(before, IdAt(ids, n - 1), rows[n - 1], pick);
      }
    }
  }

  lemma OnlyDuplicate(db: Ledger, id: IntentId, row: Intent, pick: nat)
    requires row.decisionId in db.decisions
    ensures AddIntent(db, id, row, pick).Err? ==> AddIntent(db, id, row, pick).error.Duplicate?
  {
  }

  /** What a refused batch answers: the first missing row, why its decisions or its price do
      not do, or a conflict, which is certain once an intent for one of its decisions exists. */
  lemma CreateRefusals(
    view: Ledger, db: Ledger, candidateId: CandidateId, strategies: seq<Strategy>,
    policy: RiskPolicy, now: Time, ids: seq<IntentId>, pick: nat)
    requires forall d :: d in view.decisions ==> d in db.decisions
    ensures var outcome := CreateAllResult(view, db, candidateId, strategies, policy, now, ids, pick).1;
            var planned := PlanIntents(view, candidateId, strategies, policy, now);
            && (outcome == NotCreated(CandidateNotFound) <==> candidateId !in view.candidates)
            && (outcome == NotCreated(SnapshotNotFound)
                <==> candidateId in view.candidates
                     && view.candidates[candidateId].snapshotId !in view.snapshots)
            && (planned.Ok? && outcome.NotCreated? ==> outcome == NotCreated(IntentConflict))
            && (planned.Err? ==> outcome == NotCreated(planned.error))
            && (planned.Ok? && (exists strategy, d, id :: strategy in strategies
                                  && Enters(view, d, candidateId, strategy)
                                  && id in db.intents && db.intents[id].decisionId == d) ==>
                  outcome == NotCreated(IntentConflict))
  {
    hide AddAll, Enters, AskedFor, IntentRows;
    PlannedAre(view, candidateId, strategies, policy, now);
    EligibleErrors(view, candidateId, strategies, |strategies|);
    RowErrors(view, candidateId, strategies, policy, now);
    var planned := PlanIntents(view, candidateId, strategies, policy, now);
    if planned.Ok? {
      hide PlanIntents;
      var rows := planned.value;
      forall row | row in rows
        ensures row.decisionId in db.decisions
      {
        AskedDecision(view, row, candidateId, strategies, policy, now);
      }
      OnlyDuplicates(db, rows, ids, pick, |rows|);
      if strategy, d, id :| strategy in strategies && Enters(view, d, candidateId, strategy)
                            && id in db.intents && db.intents[id].decisionId == d {
        var row :| row in rows && row.decisionId == d;
        var k :| 0 <= k < |rows| && rows[k] == row;
        if AddAll(db, rows, ids, pick, |rows|).Ok? {
          AddedForNew(db, rows, ids, pick, |rows|, k, id);
        }
      }
    }
  }

  lemma AskedDecision(
    db: Ledger, row: Intent, candidateId: CandidateId, strategies: seq<Strategy>, policy: RiskPolicy, now: Time)
    requires AskedFor(db, row, candidateId, strategies, policy, now)
    ensures row.decisionId in db.decisions
  {
  }

  lemma RowErrors(
    view: Ledger, candidateId: CandidateId, strategies: seq<Strategy>, policy: RiskPolicy, now: Time)
    ensures PlanIntents(view, candidateId, strategies, policy, now) != Err(IntentConflict)
    ensures candidateId in view.candidates && view.candidates[candidateId].snapshotId in view.snapshots ==>
              PlanIntents(view, candidateId, strategies, policy, now)
              !in {Err(CandidateNotFound), Err(SnapshotNotFound)}
  {
    EligibleErrors(view, candidateId, strategies, |strategies|);
    hide Eligible;
  }

  lemma {:induction false} EligibleErrors(
    db: Ledger, candidateId: CandidateId, strategies: seq<Strategy>, n: nat)
    requires n <= |strategies|
    ensures Eligible(db, candidateId, strategies, n).Err? ==>
              Eligible(db, candidateId, strategies, n).error.DecisionMissing?
              || Eligible(db, candidateId, strategies, n).error.DecisionInvalid?
  {
    if n > 0 {
      EligibleErrors(db, candidateId, strategies, n - 1);
    }
  }

  /** One call for one candidate; it commits when there is an intent to store. */
  method CreateAll(
    database: Database<Ledger>, view: Ledger, candidateId: CandidateId, strategies: seq<Strategy>,
    policy: RiskPolicy, now: Time, ids: seq<IntentId>, pick: nat, faults: Faults)
    returns (outcome: IntentOutcome)
    modifies database
    ensures var complete := CreateAllResult(view, old(database.contents), candidateId, strategies, policy,
                                            now, ids, pick);
            var rows := if complete.1.Created? then |complete.1.ids| else 0;
            EndsRight(old(database.contents), database.contents, outcome, complete, rows > 0,
                      NotCreated(IntentPersistence), rows, faults)
  {
    hide Eligible, IntentRows, AddAll;
    var u, entered := Begin<Ledger, DbError>(database, faults);
    if !entered {
      return NotCreated(IntentPersistence);
    }
    var readable := Read(u, faults);
    if !readable {
      var _ := Abandon(u, false, faults);
      return NotCreated(IntentPersistence);
    }
    var planned, empty := Collect(view, candidateId, strategies, policy, now);
    if planned.Err? {
      var _ := Abandon(u, false, faults);
      return NotCreated(planned.error);
    }
    var rows := planned.value;
    if empty {
      AddNothing(database.contents, rows, ids, pick);
      var left := Leave(u, false, faults);
      return if left then Created([]) else NotCreated(IntentPersistence);
    }
    var stored := StoreAll(u, rows, ids, pick, faults);
    if stored.Err? {
      var duplicate := stored.error.Some? && stored.error.value.Duplicate?;
      var undone := Abandon(u, duplicate, faults);
      return NotCreated(if duplicate && undone then IntentConflict else IntentPersistence);
    }
    var finished := Finish(u, faults);
    return if finished then Created(stored.value) else NotCreated(IntentPersistence);
  }

  /** The reads and checks before the first insert; `empty` when no decision is eligible. */
  method Collect(
    view: Ledger, candidateId: CandidateId, strategies: seq<Strategy>, policy: RiskPolicy, now: Time)
    returns (planned: Result<seq<Intent>, IntentFailure>, empty: bool)
    ensures planned == PlanIntents(view, candidateId, strategies, policy, now)
    ensures empty ==> planned == Ok([])
    ensures planned.Ok? && planned.value == [] ==> empty
  {
    if candidateId !in view.candidates {
      return Err(CandidateNotFound), false;
    }
    var snapshotId := view.candidates[candidateId].snapshotId;
    if snapshotId !in view.snapshots {
      return Err(SnapshotNotFound), false;
    }
    var eligible, _, _ := CollectEligible(view, candidateId, strategies);
    if eligible.Err? {
      return Err(eligible.error), false;
    }
    if eligible.value == [] {
      return Ok([]), true;
    }
    planned := IntentRows(view.snapshots[snapshotId], eligible.value, policy, now);
    empty := false;
  }

  /** The insert loop: it stops at the first row the database rejects, or with None when
      the driver fails. */
  method StoreAll(
    u: UnitOfWork<Ledger, DbError>, rows: seq<Intent>, ids: seq<IntentId>, pick: nat, faults: Faults)
    returns (stored: Result<seq<IntentId>, Option<DbError>>)
    requires Ready(u)
    modifies u
    ensures Inside(u)
    ensures match AddAll(old(u.staged), rows, ids, pick, |rows|)
            case Err(error) => stored == Err(Some(error)) || (stored == Err(None) && faults.write != None)
            case Ok(after) =>
              if faults.write.Some? && faults.write.value < |rows| then stored == Err(None)
              else stored == Ok(FirstIds(ids, |rows|)) && Ready(u) && u.staged == after
  {
    hide AddIntent;
    ghost var before := u.staged;
    var done: seq<IntentId> := [];
    while |done| < |rows|
      invariant |done| <= |rows|
      invariant Ready(u)
      invariant AddAll(before, rows, ids, pick, |done|) == Ok(u.staged)
      invariant done == FirstIds(ids, |done|)
      invariant faults.write.Some? ==> faults.write.value >= |done|
    {
      var id, row := IdAt(ids, |done|), rows[|done|];
      var added := u.Operate(db => AddIntent(db, id, row, pick), faults.write == Some(|done|));
      if added.Rejected? {
        AddAllStops(before, rows, ids, pick, |done| + 1, |rows|);
        return Err(Some(added.error));
      }
      if !added.Returned? {
        return Err(None);
      }
      done := done + [id];
    }
    return Ok(done);
  }
}
