# Auto Trading v2: a Dafny model of its core protocols

This project models the parts of the auto-trading platform whose correctness spans several
calls, and proves what they promise for every input, every interleaving and every run.

**The paper-execution ledger** (`LedgerTables`, `TradeIntents`, `PaperOrders`, `PaperFills`,
`AverageCost`, `PositionProjection`). Each service call is a transaction: it reads committed
rows, plans, inserts under unique keys, applies a version-guarded update and commits. The
services are methods over the unit of work; each is proved to do what a function says, and under
infrastructure faults (`Transactions`) to end in one of three ways that the faults determine. In
`LedgerRuns` any number of clients interleave; every read of a call may have happened at any
earlier moment, so a call can plan from rows that have since changed, and its writes meet the
keys and guards of the ledger as it is then; and every call may end in each of those ways.
`LedgerInvariant` and `LedgerSteps` show that every service keeps one invariant and only extends
the ledger. `LedgerKeys` adds that a decision leads to one intent and an intent to one order.
From it follow conservation of orders and fills, the replay of positions from their events
(`LedgerReplay`), exactly-once projection, exact conditions for winning a race
(`LedgerProgress`), exactly which fills reach their position (`ProjectionOrder`, `LateFills`),
which answer each call owes its client (`LedgerProgress`, `LedgerKeys`, `ProjectionAnswers`), and
the fact that what one service writes passes the checks of the next (`LedgerProgress`,
`PositionExits`); `SourceChains` says what those checks accept and refuse in any ledger at all.

**The unit of work and the insert-only stores** (`UnitOfWork`, `CanonicalStore`,
`ObservationAudit`). The unit of work is the class with its phases and its rollback-only flag,
and theorems range over every call sequence with every database failure. The store protocol,
look up, insert, roll back on a duplicate, re-read, compare digests, is modelled once for bars,
outcomes, observation runs and pipeline runs, with arbitrary concurrent callers.

**The sequential pipeline** (`PipelineExecutor`, `PipelineRuns`). The executor's loop is proved
equal to a declarative specification, from which request accounting, credit telescoping, the
meaning of a run's status and of every item, and the conditions for stopping follow.

**Sessions and forward outcomes** (`MarketCalendar`, `ForwardOutcomes`, `BarCalendar`). The 2026
schedule, the completed-session resolver and the maturity test together exclude lookahead.

**Daily features** (`RealSums`, `TechnicalFeatures`, `FeatureInvariance`, `FeatureMeanings`) over
exact real arithmetic, and **canonicalisation** (`StableSort`, `CalibrationDataset`,
`CanonicalDecimal`).

## Results worth knowing

- A fill is not always projected: once a later fill of the same strategy, symbol and currency is
  in the position, no retry helps, whoever makes it (`LedgerProgress.LateFillNeverProjects`), and
  a short run gets there (`LateFills.OvertakenIsReachable`). It happens in exactly two ways
  (`LateFills.OvertakenArisesIff`). A fresh call succeeds exactly when it has not happened
  (`ProjectionOrder.FreshProjectionAppliesIff`), and projecting the fills of a key one after the
  other succeeds for all of them exactly when they are taken in execution order
  (`ProjectionOrder.AllProjectedIff`). So execution order per key is necessary and sufficient.
- A call can answer with a persistence error and have written everything
  (`LateFills.SilentIsReachable`): exactly when its work was committed and only closing the
  connection failed (`LedgerReplay.RefusedLeavesLedger`). A fill is still projected at most once,
  and a later retry is told so (`LateFills.RetryIsTold`); the one insert of a store key may go
  unreported in the same way (`CanonicalStore.ExactlyOneCreator`).
- A clean run status means that nothing stopped the run exactly for transient-failure limits of at
  least one (`PipelineExecutor.CleanMeansCompleteIff`). The constructor accepts smaller limits, and
  then the circuit can open on a last member that merely had no data while the status stays
  COMPLETED_WITH_WARNINGS.
- A pipeline run that loses a race reports the winner's run, whose content may differ, as its own
  execution (`CanonicalStore.WinnerMayDiffer`); the other stores raise a conflict.
- The race-resolution error of the bar store is possible (`CanonicalStore.RaceMayStayUnresolved`),
  but only when the insert hit the session-revision key or an identifier of a different bar
  (`CanonicalStore.UnresolvedIff`).
- Unreachable are the rate-relation rejection of forward outcomes, "fill_plan_exhausted",
  "overfill" (`PaperFills.HistoryAcceptedIff`), "client_order_id_exists"
  (`LedgerKeys.SubmissionAnswers`) and the concurrency errors of the version-guarded updates: whoever
  loses a race is stopped by a unique key before (`LedgerProgress.FillAnswers`,
  `ProjectionAnswers.LostRaceAnswers`).

## Model

| member | source | states |
|---|---|---|
| UnitsOfWork.UnitOfWork.Enter | src/auto_trading_v2/adapters/persistence/unit_of_work.py:166-202 | entering takes one connection and opens a transaction, or ends the instance; a second entry is refused without touching anything |
| UnitsOfWork.UnitOfWork.Operate | src/auto_trading_v2/adapters/persistence/unit_of_work.py:253-263 | a repository call works only in an unspoiled active transaction, and any failure spoils it |
| UnitsOfWork.UnitOfWork.Commit | src/auto_trading_v2/adapters/persistence/unit_of_work.py:204-217 | a spoiled transaction is rolled back instead of committed; a normal return makes the staged contents the database |
| UnitsOfWork.UnitOfWork.Rollback | src/auto_trading_v2/adapters/persistence/unit_of_work.py:219-221 | an active transaction is undone; a failing rollback still ends the instance |
| UnitsOfWork.UnitOfWork.Exit | src/auto_trading_v2/adapters/persistence/unit_of_work.py:223-251 | leaving undoes what is still open, always gives the connection back, and keeps silent about its own failures while the body raises |
| UnitsOfWork.StatesExplainCalls | src/auto_trading_v2/adapters/persistence/unit_of_work.py:166-286 | for every call sequence and every failure, the state tells exactly whether a commit returned, whether an operation failed, and how many connections are held |
| UnitsOfWork.AllOrNothing | src/auto_trading_v2/adapters/persistence/unit_of_work.py:204-217 | the database ends with all accepted writes when some commit returned normally, and as it began otherwise |
| UnitsOfWork.FailureForbidsCommit | src/auto_trading_v2/adapters/persistence/unit_of_work.py:257-263 | once an operation reached the database and failed, no commit of that instance ever returns normally |
| UnitsOfWork.CommitIsFinal | src/auto_trading_v2/adapters/persistence/unit_of_work.py:253-260 | after a commit that returned, every later entry, operation and commit is refused |
| UnitsOfWork.EnteredAtMostOnce | src/auto_trading_v2/adapters/persistence/unit_of_work.py:166-168 | an instance is entered once, whatever happened to the first attempt |
| UnitsOfWork.ExitReleases | src/auto_trading_v2/adapters/persistence/unit_of_work.py:237-249 | after leaving, as many connections were released as acquired, even when the rollback or the close failed |
| UnitsOfWork.NothingAfterExit | src/auto_trading_v2/adapters/persistence/unit_of_work.py:237-256 | after the block was left, every later entry, operation, commit and rollback is refused |
| UnitsOfWork.OperatesIff | src/auto_trading_v2/adapters/persistence/unit_of_work.py:253-260 | over every call sequence an operation reaches the database exactly when an entry returned before it and since then nothing was committed, rolled back, left or failed |
| Transactions.Begin | src/auto_trading_v2/adapters/persistence/unit_of_work.py:166-202 | the `with` block is entered exactly when neither connecting nor beginning fails, and then starts from the committed contents |
| Transactions.Finish | src/auto_trading_v2/adapters/persistence/unit_of_work.py:204-251 | committing and leaving publishes the staged contents unless the commit fails; the call returns normally only if the close works too |
| Transactions.Abandon | src/auto_trading_v2/adapters/persistence/unit_of_work.py:219-251 | leaving by an exception changes nothing, and only a failing explicit rollback replaces that exception |
| Transactions.Leave | src/auto_trading_v2/adapters/persistence/unit_of_work.py:219-251 | leaving normally without a commit changes nothing, and returns normally exactly when rollback and close work |
| Transactions.EndsSomehow | src/auto_trading_v2/adapters/persistence/unit_of_work.py:204-251 | under any faults a call ends in one of three ways: as without faults, with nothing kept, or with everything kept and an error, the last only when the commit worked and the close failed |
| AverageCost.AveragePrice | src/auto_trading_v2/domain/position_projection/calculations.py:43-51 | the rounded average lies between the two prices it averages |
| AverageCost.LimitsAreDigits | src/auto_trading_v2/domain/position_projection/calculations.py:22-51 | a first price may have twenty-eight digits in the 18-decimal unit and a later average eighty |
| PaperFills.SplitPlan | src/auto_trading_v2/domain/paper_fills/policy.py:17-31 | a plan is one chunk exactly for a quantity of one, and else two that add up to the request, the second equal to the first or larger by one |
| PaperFills.ValidateFillHistory | src/auto_trading_v2/domain/paper_fills/history.py:41-88 | the single pass over the stored fills returns the first failing check in order, or the total filled |
| PaperFills.AcceptedHistoryLeavesWork | src/auto_trading_v2/application/services/paper_fill.py:74-91 | a history that is accepted always leaves a planned chunk, so "fill_plan_exhausted" is never reported |
| PaperFills.HistoryAcceptedIff | src/auto_trading_v2/domain/paper_fills/history.py:41-88 | stored fills pass exactly when they are the planned beginning of the order at its price and currency with rising times, none while it is accepted and one while it is partially filled; overfilling is never the reason for a rejection |
| PaperFills.HistoryRejectedBecause | src/auto_trading_v2/domain/paper_fills/history.py:41-88 | a rejected history has too many fills, or its first fill that is not as planned has the defect that the reason names, or its number of fills does not go with the status |
| PaperFills.PlannedTransitionAllowed | src/auto_trading_v2/domain/paper_fills/transitions.py:17-32 | every transition the service builds is one of the three allowed steps with its timestamp shape |
| PaperFills.ExecuteNext | src/auto_trading_v2/application/services/paper_fill.py:52-131 | one call reads possibly stale rows, then writes fill and order row together or nothing: under infrastructure faults a call that would succeed leaves everything and answers, leaves everything and fails (only the close failed), or leaves nothing and fails, exactly as the faults say; any other call changes nothing |
| PaperFills.WriteFill | src/auto_trading_v2/application/services/paper_fill.py:120-130 | the fill and then the guarded order update are staged, or the answer tells a duplicate, a stale row and a driver failure apart |
| PaperOrders.Submit | src/auto_trading_v2/application/services/paper_order.py:41-91 | one order per intent is stored with the status and timestamps of the broker answer, or nothing is: under infrastructure faults a call that would succeed leaves everything and answers, leaves everything and fails (only the close failed), or leaves nothing and fails, exactly as the faults say; any other call changes nothing |
| TradeIntents.QuantityIsLargest | src/auto_trading_v2/domain/trade_intents/sizing.py:18-50 | the sized quantity is the largest whole number whose notional fits, and a rejection means not even one fits |
| TradeIntents.CollectEligible | src/auto_trading_v2/application/services/trade_intent.py:125-162 | the result lists, in catalog order, the decision of every strategy whose decision is ENTER_LONG and no other; an error is that of the first strategy whose decision is missing, doubled or not allowed |
| TradeIntents.SourceDecisionIff | src/auto_trading_v2/application/services/trade_intent.py:125-181 | a strategy contributes its decision exactly when it made one for the candidate, only one, and one that its kind may make: an observer observes, any other enters or skips |
| TradeIntents.StoreAll | src/auto_trading_v2/application/services/trade_intent.py:95-121 | the insert loop stores all rows, reports the first row the database rejects, or reports a driver failure |
| TradeIntents.CreateAll | src/auto_trading_v2/application/services/trade_intent.py:63-123 | the whole batch is committed or nothing is: under infrastructure faults a call that would succeed leaves everything and answers, leaves everything and fails (only the close failed), or leaves nothing and fails, exactly as the faults say; any other call changes nothing. `CreatedAre` says what the batch without faults is |
| TradeIntents.CreatedAre | src/auto_trading_v2/application/services/trade_intent.py:63-123 | a created batch adds exactly the reported intents: one for every ENTER_LONG decision of the catalog, each a market buy of the candidate's symbol with quantity * price <= maximum < (quantity + 1) * price at the price of the snapshot, under its decision, policy version and time |
| TradeIntents.CreateRefusals | src/auto_trading_v2/application/services/trade_intent.py:63-123 | a refused batch answers with the missing row, with what is wrong with its decisions or its price, or with a conflict, which is certain once one of its decisions has an intent |
| PositionProjection.ProjectOnce | src/auto_trading_v2/application/services/position_projector.py:86-102 | one attempt answers from an existing event, fails, or writes position and event together: under infrastructure faults a call that would succeed leaves everything and answers, leaves everything and fails (only the close failed), or leaves nothing and fails, exactly as the faults say; any other call changes nothing |
| PositionProjection.WriteOpening | src/auto_trading_v2/application/services/position_projector.py:104-143 | a new position and its first event are staged, or the attempt reports which insert failed or that the driver did |
| PositionProjection.WriteIncrease | src/auto_trading_v2/application/services/position_projector.py:145-188 | the next event and the version-guarded update are staged, or the attempt reports a duplicate, a missing row, a stale row or a driver failure |
| PositionProjection.ProjectFill | src/auto_trading_v2/application/services/position_projector.py:69-84 | after a duplicate the call re-reads once, in a unit of work with faults of its own, and only then decides between success and failure |
| LedgerSteps.CreateAllKeeps | src/auto_trading_v2/application/services/trade_intent.py:63-123 | creating intents keeps the ledger invariant and only adds rows, however old its reads |
| LedgerSteps.SubmitKeeps | src/auto_trading_v2/application/services/paper_order.py:41-129 | submitting an order keeps the invariant and only adds a row |
| LedgerSteps.ExecuteNextKeeps | src/auto_trading_v2/application/services/paper_fill.py:52-131 | executing a fill keeps the invariant: it only appends the next planned fill and moves the order row it read |
| LedgerSteps.ProjectOnceKeeps | src/auto_trading_v2/application/services/position_projector.py:86-213 | projecting keeps the invariant: it only appends an event and opens or advances one position |
| LedgerSteps.IncreasedIs | src/auto_trading_v2/adapters/persistence/repositories/paper_positions.py:176-215 | when the guarded update goes through, the position row read is still the current row |
| LedgerRuns.RunExists | src/auto_trading_v2/application/services/paper_fill.py:52-131 | every list of interleaved calls has a run |
| LedgerRuns.RunIsUnique | src/auto_trading_v2/application/services/paper_fill.py:52-131 | and only one: the calls, their reads and their identifiers determine every response |
| LedgerRuns.RunsAreSound | src/auto_trading_v2/application/services/position_projector.py:86-213 | every ledger of every run satisfies the invariant, and later ledgers extend earlier ones |
| LedgerRuns.OrdersConserve | src/auto_trading_v2/application/services/paper_fill.py:74-130 | in every ledger of every run: fill sequences 1..n, quantities a prefix of the plan, version 1+n, never more than requested, status and closed_at exactly as the filled sum says |
| LedgerRuns.ListingIsOrdered | src/auto_trading_v2/domain/paper_fills/history.py:57-63 | fills of an order listed by insertion are listed by sequence, with execution times that never decrease |
| LedgerReplay.PositionsReplay | src/auto_trading_v2/application/services/position_projector.py:104-213 | folding the fills of a position's events rebuilds its quantity and average cost; event numbers are 1..version, quantities after are prefix sums, times never decrease, profit and loss stays zero |
| LedgerReplay.AverageIsBetween | src/auto_trading_v2/domain/position_projection/calculations.py:43-51 | a position's average cost lies between the cheapest and the dearest lot it was built from |
| LedgerReplay.AverageIsAccurate | src/auto_trading_v2/domain/position_projection/calculations.py:43-58 | rounding half to even at every purchase keeps the average within half a unit per later purchase of what the lots really cost, in every ledger of every run |
| LedgerReplay.OneOpenPerKey | migrations/ddl/portfolio.py:64-71 | at most one OPEN position per strategy, symbol and currency |
| LedgerReplay.RefusedLeavesLedger | src/auto_trading_v2/application/services/position_projector.py:86-102 | in every run, a call of any service that does not report success changed the database exactly when its work was complete and committed and only the close failed, and then all of that work is there |
| LedgerReplay.AppliedAtMostOnce | migrations/ddl/portfolio.py:118-124 | at most one call ever puts a given fill into a position, and at most one is told so |
| LedgerReplay.EventHasItsCall | src/auto_trading_v2/application/services/position_projector.py:190-213 | every event was written by a call that reported exactly its fields as applied, or that answered with a persistence error because its close failed after the commit |
| LedgerReplay.SuccessReportsTheEvent | src/auto_trading_v2/application/services/position_projector.py:241-254 | every success for a fill reports the fields of the one event the final ledger holds for it |
| LedgerReplay.SuccessesAgree | src/auto_trading_v2/application/services/position_projector.py:69-102 | all successes for a fill return identical fields; exactly one call put it into a position, that call was told APPLIED exactly when it ended well, and no other call was |
| LedgerProgress.StaleReadDetected | src/auto_trading_v2/domain/paper_fills/history.py:78-88 | with the order row and its fills read at different moments, the history check passes exactly when the order did not move in between |
| LedgerProgress.FillSucceedsIff | src/auto_trading_v2/application/services/paper_fill.py:120-130 | who wins: a call fills the order exactly when the row it read was fillable, is still current, and the fill identifier is new |
| LedgerProgress.FillAnswers | src/auto_trading_v2/application/services/paper_fill.py:52-152 | every answer in reachable ledgers from what was read and what is there: unknown order, other broker, not fillable, order moved on between the reads, clock behind, or filled; an order that moved on after the reads is a fill conflict, and the guarded update never reports a concurrency error |
| LedgerProgress.FillsToCompletion | src/auto_trading_v2/application/services/paper_fill.py:96-119 | as many fresh calls as the plan has chunks left bring an accepted order to FILLED |
| LedgerProgress.FillsStayProjectable | src/auto_trading_v2/application/services/position_projection_source.py:44-103 | every fill ever stored passes all source checks of the projector in every later ledger of every run |
| LedgerProgress.ProjectionAppliesIff | src/auto_trading_v2/application/services/position_projector.py:86-188 | an attempt applies a fill exactly when its plan still fits: same version, or still no open position, price representable, identifiers new, not projected yet |
| LedgerProgress.LateFillNeverProjects | src/auto_trading_v2/application/services/position_projector.py:151-152 | once a later fill of the same key is projected first, no call ever projects the earlier fill or reports that it did |
| ProjectionOrder.FreshProjectionAppliesIff | src/auto_trading_v2/application/services/position_projector.py:86-188 | a call that reads the current ledger applies a stored fill exactly when the fill is not projected yet, its average is representable and no later fill of its key was projected before |
| ProjectionAnswers.FreshProjectionAnswers | src/auto_trading_v2/application/services/position_projector.py:86-188 | every answer of a fresh call with new identifiers on a stored fill: the fields of the event it has, a fill that comes too late, an average that does not fit, or applied |
| ProjectionAnswers.UnknownFillAnswer | src/auto_trading_v2/application/services/position_projection_source.py:44-60 | a fill that is not stored is not found |
| ProjectionAnswers.LostRaceAnswers | src/auto_trading_v2/application/services/position_projector.py:215-238 | a projection that loses the race for its open position or its event sequence to another fill ends as a concurrency error, and to the same fill as ALREADY_APPLIED with the fields of the event found |
| ProjectionAnswers.UsedIdentifierAnswers | src/auto_trading_v2/application/services/position_projector.py:215-238 | a used event identifier is no race: it ends as a persistence error |
| ProjectionOrder.LaterFirstOvertakes | src/auto_trading_v2/application/services/position_projector.py:151-152 | applying a later fill of the same key, from reads however old, makes every earlier fill that still waits come too late |
| ProjectionOrder.AllProjectedIff | src/auto_trading_v2/application/services/position_projector.py:86-188 | projecting waiting fills of one key one after the other projects all of them exactly when none has come too late before and they are taken in execution order |
| ProjectionOrder.KeyIsComplete | src/auto_trading_v2/application/services/position_projector.py:86-188 | projecting all that waits for a key in execution order leaves no stored fill of the key without its event |
| LateFills.OvertakenArisesIff | src/auto_trading_v2/application/services/position_projector.py:145-188 | in every run a fill comes to be too late in exactly two ways: it is stored with a clock behind the last update of its key's position, or a later fill of its key is projected while it waits |
| LateFills.OvertakenIsReachable | src/auto_trading_v2/application/services/position_projector.py:151-152 | a run that gets there, whether or not its last call lives to report: one order in two fills, the second projected first |
| LateFills.SilentIsReachable | src/auto_trading_v2/adapters/persistence/unit_of_work.py:237-249 | a run in which a projection answers with a persistence error although its fill is in a position, and nobody is ever told APPLIED |
| LateFills.RetryIsTold | src/auto_trading_v2/application/services/position_projector.py:86-90 | a retry that reads the events afterwards is told ALREADY_APPLIED with the fields of the call that wrote them, reported or not |
| LedgerProgress.FilledReportsTheRows | src/auto_trading_v2/application/services/paper_fill.py:120-131 | a call that reports a fill stored exactly that fill and reports the order row it left |
| LedgerReplay.SuccessIsReplay | src/auto_trading_v2/application/services/position_projector.py:241-254 | a success reports the quantity and average cost that replaying the position up to this fill gives, and OPENED exactly for the first |
| LedgerKeys.OrderHasItsCall | src/auto_trading_v2/application/services/paper_order.py:93-129 | in every ledger of every run each order was stored by one submission and carries that submission's intent and time and the broker's reference, rejection code and acceptance ever after |
| LedgerKeys.IntentHasItsCall | src/auto_trading_v2/application/services/trade_intent.py:63-123 | in every ledger of every run each intent was stored by one batch, reported or not, and is the largest affordable buy at the snapshot's price for an ENTER_LONG decision of that batch's candidate and catalog, with that batch's policy version and time |
| LedgerKeys.SubmissionAnswers | src/auto_trading_v2/application/services/paper_order.py:41-108 | over every run, from reads however old: a submission succeeds exactly when the intent was there, the broker's answer is acceptable and nobody has submitted for the intent or used the reference since; losing that race is a conflict, each other refusal says what was in the way, and "client_order_id_exists" is never reported |
| LedgerKeys.OneOrderPerIntent | migrations/ddl/execution.py:60-61 | in every ledger of every run: at most one intent per decision, one order per intent, no broker reference twice |
| PositionExits.OnlyTheQuoteDecides | src/auto_trading_v2/application/services/position_exit_source.py:52-155 | for every position read in any run, with the other rows read any later, only the exit policy and the quote decide, and an accepted source holds the rows of that position: no missing row and none of the four position, event, identity and strategy mismatches ever occurs |
| PositionExits.EvaluatedIff | src/auto_trading_v2/application/services/position_exit_source.py:52-155 | an open position of any run can be evaluated exactly when its strategy version has an exit policy in its currency and the quote is of its symbol, no older than the position or the maximum age and not too far ahead; each refusal says which of these fails |
| SourceChains.FillPlannedIff | src/auto_trading_v2/application/services/paper_fill.py:52-152 | over arbitrary ledgers: the next fill is planned exactly when the order is an accepted or half-filled paper order whose intent is a market buy of its snapshot's symbol, the stored fills are its planned beginning and the clock is not behind; a refusal names the row that is missing or what does not fit |
| SourceChains.ProjectedFrom | src/auto_trading_v2/application/services/position_projection_source.py:44-103 | over arbitrary ledgers: a fill is accepted for projection exactly when the chain from order to snapshot is there, the order is a filled paper order accepted before, and side, symbol, price, fee and action fit; and with exactly those rows |
| SourceChains.ProjectionLacks | src/auto_trading_v2/application/services/position_projection_source.py:44-103 | each refusal of a fill, exactly: the first missing row, the side, the quantity, the order's state or a value |
| SourceChains.ExitSourceIff | src/auto_trading_v2/application/services/position_exit_source.py:52-155 | over arbitrary ledgers: an exit source is accepted exactly when policy, position, event, fill, intent, decision and quote agree field by field |
| SourceChains.ExitLacks | src/auto_trading_v2/application/services/position_exit_source.py:52-104 | each missing row of an exit source, exactly |
| CanonicalStore.Persist | src/auto_trading_v2/application/services/daily_feature_outcome_persistence.py:45-78 | look-up or insert-first persist: insert, or after a duplicate roll back, re-read in a new unit of work and decide; under faults in any of the three units of work an insert that would go through ends exactly as the faults say, and nothing else changes the table |
| CanonicalStore.CreateBar | src/auto_trading_v2/application/services/daily_market_bar.py:31-73 | the bar variant with look-up and insert in one unit of work and the raced flag does the same, under the same faults; an existing row that it hands back has the candidate's key and digest, and it raises a conflict exactly when the row found under the key, at the look-up or at the re-read, has another digest |
| CanonicalStore.PersistAnswers | src/auto_trading_v2/application/services/daily_feature_outcome_persistence.py:45-78 | the same for outcomes, which are looked up, and observation runs, which are not; a pipeline run that is not inserted gets the row re-read, whatever its digest |
| CanonicalStore.DigestsDecide | src/auto_trading_v2/application/services/daily_feature_outcome_persistence.py:60-78 | over concurrent calls: bars, outcomes and observation runs raise a conflict exactly when the row of the key has another digest and else hand back that row; pipeline runs hand back the row whatever its digest |
| CanonicalStore.TablesGrow | migrations/ddl/daily_market_bars.py:86-100 | over any concurrent calls the table only grows and no two rows share a unique key |
| CanonicalStore.RowNeverChanges | src/auto_trading_v2/application/services/daily_feature_outcome_persistence.py:41-43 | the row found under a key is found unchanged ever after |
| CanonicalStore.CallersAgree | src/auto_trading_v2/application/services/daily_feature_outcome_persistence.py:68-78 | every success returns the one row of its key, with the caller's own digest where digests are compared; a conflict is raised exactly when the digests differ |
| CanonicalStore.ExactlyOneCreator | src/auto_trading_v2/application/services/daily_feature_outcome_persistence.py:48-60 | a key with a row has exactly one call that inserted it, and the row is that call's candidate; it was told CREATED exactly when it ended well, and no other call was |
| CanonicalStore.UnresolvedIff | src/auto_trading_v2/application/services/daily_market_bar.py:63-73 | the race-resolution error is raised exactly when the re-read finds no row with the key, and then the insert had hit another unique key of a row with a different key |
| CanonicalStore.RaceMayStayUnresolved | src/auto_trading_v2/application/services/daily_market_bar.py:63-73 | it happens: two bars with different keys claim the same session revision; once the key exists the same call resolves |
| CanonicalStore.PureKeyRaceResolves | src/auto_trading_v2/application/services/daily_market_bar.py:63-84 | a race on the key alone always ends with a row or a digest conflict |
| CanonicalStore.WinnerMayDiffer | src/auto_trading_v2/application/services/daily_feature_pipeline_persistence.py:129-147 | a pipeline run that loses the race gets the winner back without error although its content differs |
| PipelineExecutor.Execute | src/auto_trading_v2/application/services/daily_feature_pipeline_executor.py:75-237 | the loop equals its declarative specification: stop at the first member with a fatal verdict, exhausted budget or a full streak of uncleared transient failures, items before and after accordingly, the provider asked about exactly the attempted members reached; the run is fatal exactly when the stopping member's ingestion or build raised a persistence error, or its provider was disabled, not configured or failed in one of the six fatal categories |
| PipelineExecutor.UnclearedStep | src/auto_trading_v2/application/services/daily_feature_pipeline_executor.py:142-143 | the counter is the number of transient failures not yet cleared by an attempted member; calendar failures neither count nor clear |
| PipelineExecutor.FewFailuresAskAll | src/auto_trading_v2/application/services/daily_feature_pipeline_executor.py:145-167 | a run whose provider never refuses for good and fails for the moment (three categories) fewer times than the limit asks about every member that has a session |
| PipelineExecutor.EnoughFailuresStop | src/auto_trading_v2/application/services/daily_feature_pipeline_executor.py:145-167 | a stretch with as many failures for the moment as the limit, and nothing in between but members without a session, stops the run there at the latest |
| PipelineExecutor.ItemsTell | src/auto_trading_v2/application/services/daily_feature_pipeline_executor.py:75-237 | every item from the collaborators' answers: READY or DEGRADED with its snapshot as the quality of the build says, insufficient or missing data, the failure and its reason, and after the stop not attempted, for want of budget exactly when the stopping member exhausted it |
| PipelineExecutor.RequestsAreRecorded | src/auto_trading_v2/application/services/daily_feature_pipeline_executor.py:75-85 | ordinals are 1..n, an item records a request exactly when the provider was asked, and everything after the stop carries its outcome and reason |
| PipelineExecutor.CreditsTelescope | src/auto_trading_v2/application/services/daily_feature_pipeline_executor.py:289-292 | a metered run's credit total is the sum of its item credits plus the spend of at most one member |
| PipelineExecutor.CountsPartition | src/auto_trading_v2/application/services/daily_feature_pipeline_policy.py:92-105 | the seven stored counts add up to the number of items |
| PipelineExecutor.StatusMeans | src/auto_trading_v2/application/services/daily_feature_pipeline_policy.py:108-131 | which item outcomes give an unaborted run its status, for each status |
| PipelineExecutor.CleanMeansComplete | src/auto_trading_v2/application/services/daily_feature_pipeline_policy.py:108-131 | with a limit of at least one, COMPLETED or COMPLETED_WITH_WARNINGS means that nothing stopped the run |
| PipelineExecutor.CleanMeansCompleteIff | src/auto_trading_v2/application/services/daily_feature_pipeline_executor.py:160-167 | a clean status means that nothing stopped the run exactly for limits of at least one: for every smaller limit some run stops and stays clean |
| PipelineRuns.Run | src/auto_trading_v2/application/services/daily_feature_pipeline.py:98-195 | a blocked run asks the provider nothing, spends nothing and marks every member with one reason; a run that asks has a completed session, full coverage, an available provider and an estimate within the daily budget, and is the executor's |
| PipelineRuns.StatusTells | src/auto_trading_v2/application/services/daily_feature_pipeline.py:98-195 | each status of a stored run, exactly: no completed session; blocked by an estimate beyond or without a daily budget; aborted for the calendar, an unavailable provider or the answers of the member that stopped it; else by the counts of items with a snapshot and without enough data |
| PipelineRuns.TotalsAdd | src/auto_trading_v2/application/services/daily_feature_pipeline.py:177-180 | the stored totals satisfy the table: counts add up and the consumed credits are explained by the items |
| PipelineRuns.UnexplainedMeansAborted | src/auto_trading_v2/application/services/daily_feature_pipeline_executor.py:122-138 | when the stored credits are not the sum of the item credits, the run is ABORTED_PROVIDER_FATAL: one item shows a request, no cost and a persistence error during ingestion, and nobody after it was asked |
| MarketCalendar.SessionDates | src/auto_trading_v2/adapters/market_calendar/us_equity_2026.py:58-67 | the while loop yields the weekdays of 2026 that are not closures, and its count check never fails |
| MarketCalendar.YearHas251Sessions | src/auto_trading_v2/adapters/market_calendar/us_equity_2026.py:65-66 | 2026 has 251 sessions |
| MarketCalendar.HolidayRules | src/auto_trading_v2/adapters/market_calendar/us_equity_2026.py:25-44 | the closures are the ten exchange holidays by their weekday and observance rules, the early closes the days after Thanksgiving and before Christmas, all of them trading days |
| MarketCalendar.SessionHours | src/auto_trading_v2/adapters/market_calendar/us_equity_2026.py:70-99 | a trading day opens at half past nine New York time and closes after six and a half hours, or after three and a half on an early close |
| MarketCalendar.ScheduleIsOrdered | src/auto_trading_v2/adapters/market_calendar/us_equity_2026.py:70-99 | dates rise and every session closes before the next one opens, for any daylight-saving offsets |
| MarketCalendar.SessionOnTradingDays | src/auto_trading_v2/adapters/market_calendar/us_equity_2026.py:149-157 | a date has a session exactly when it is a weekday of the year and no closure |
| MarketCalendar.LatestOnOrBefore | src/auto_trading_v2/adapters/market_calendar/us_equity_2026.py:159-169 | the reverse scan finds the greatest session date not after the given day |
| MarketCalendar.Resolve | src/auto_trading_v2/application/services/completed_session.py:27-70 | the countdown returns the newest session whose close plus grace has been reached, with its predecessor, or says why there is none |
| MarketCalendar.ResolutionIsMonotone | src/auto_trading_v2/application/services/completed_session.py:52-66 | waiting longer or granting less grace never resolves an older session |
| ForwardOutcomes.NextSessions | src/auto_trading_v2/application/services/daily_feature_outcome_builder.py:123-139 | the future sessions are exactly the next contiguous ones, or none when the calendar ends |
| ForwardOutcomes.NoLookahead | src/auto_trading_v2/application/services/daily_feature_outcome_observation.py:200-221 | an observation no later than the instant that pinned the source session, with no less grace, never gets as far as reading a future bar |
| ForwardOutcomes.ReadIff | src/auto_trading_v2/application/services/daily_feature_outcome_observation.py:200-230 | bars are read exactly when the terminal session exists and has completed, and then for the next sessions of the horizon |
| ForwardOutcomes.MaturesWhenResolvedLater | src/auto_trading_v2/application/services/completed_session.py:52-66 | a run matures exactly when the resolver would pin its terminal session or a later one |
| ForwardOutcomes.RatesAreOrdered | src/auto_trading_v2/domain/feature_outcomes/calculations.py:50-59 | the rate-relation rejection is unreachable for valid bars |
| ForwardOutcomes.CalculatedIff | src/auto_trading_v2/domain/feature_outcomes/calculations.py:40-125 | a path is measured exactly when the bars are those of the one to five expected sessions and each fits its contract, else incomplete or invalid; and the numbers are those of its bars |
| ForwardOutcomes.CreatedIsHindsight | src/auto_trading_v2/application/services/daily_feature_outcome_observation.py:222-260 | a created outcome uses bars of exactly the next sessions, all available by its own instant; (1 + forward) * reference is the close of the terminal session, (1 + favorable) * reference the highest high, (1 + adverse) * reference the lowest low, and the latest availability is that of some bar |
| ForwardOutcomes.ItemOutcomes | src/auto_trading_v2/application/services/daily_feature_outcome_observation.py:168-260 | the outcome of every scoring item with a source session: not eligible, out of coverage, not matured, incomplete, invalid bars or created, the first that applies |
| ForwardOutcomes.ChainInvalid | src/auto_trading_v2/application/services/daily_feature_outcome_observation.py:168-200 | without a source chain, a supported market or a session on the source's date the chain is invalid |
| ObservationAudit.PersistOutcomes | src/auto_trading_v2/application/services/daily_feature_outcome_observation.py:262-285 | the loop stores candidates in order and stops at the first conflict or unresolved race, whatever rows other callers commit in between |
| ObservationAudit.StoredItemsFit | src/auto_trading_v2/application/services/daily_feature_outcome_observation.py:94-103 | every item that reaches the audit fits the item table, keeps its source and place, and names a row that is in the store's table: its own when created, else one with its key and digest |
| ObservationAudit.EachResolves | src/auto_trading_v2/application/services/daily_feature_outcome_observation.py:262-285 | each item of the loop is created, found, in conflict or unresolved against the table that the earlier items and the other callers left |
| ObservationAudit.ObservationFits | src/auto_trading_v2/application/services/daily_feature_outcome_observation.py:168-285 | from the scoring items to the written run: prepared items meet what the audit assumes, every run item keeps its place, outcome, terminal session and reason unless the store found its row, fits its table and names the row its key finds, status fits counts, and COMPLETED means that every eligible item has a stored outcome |
| ObservationAudit.CountsPartition | src/auto_trading_v2/application/services/daily_feature_outcome_run_builder.py:94-108 | the six counts partition the items |
| ObservationAudit.CountsMean | src/auto_trading_v2/application/services/daily_feature_outcome_run_builder.py:94-108 | each count is the number of items with its outcomes |
| ObservationAudit.StatusFits | src/auto_trading_v2/application/services/daily_feature_outcome_run_builder.py:111-137 | whatever the items, status and counts satisfy the run table's shape check |
| ObservationAudit.StatusMeans | src/auto_trading_v2/application/services/daily_feature_outcome_run_builder.py:111-137 | which items give a run its status, for each status |
| TechnicalFeatures.FeatureValues.AddVolumeFeatures | src/auto_trading_v2/application/feature_building/daily_technical.py:187-208 | the in-place update adds exactly the three volume keys and reports the matching quality |
| TechnicalFeatures.Calculate | src/auto_trading_v2/application/feature_building/daily_technical.py:132-178 | the filled dictionary is the price features plus the volume features |
| TechnicalFeatures.ReturnsTelescope | src/auto_trading_v2/application/feature_building/daily_technical.py:138 | daily returns compound to the return over the whole stretch |
| TechnicalFeatures.HorizonReturns | src/auto_trading_v2/application/feature_building/daily_technical.py:156-158 | the one-, five- and twenty-day returns are compounds of the same daily returns |
| TechnicalFeatures.GapAndIntraday | src/auto_trading_v2/application/feature_building/daily_technical.py:159-160 | the overnight gap leads from the close before to the open, the intraday move from the open to the last close, and the two compound to the one-day return |
| TechnicalFeatures.SmaBrackets | src/auto_trading_v2/application/feature_building/daily_technical.py:163-165 | the distance from a moving average is bracketed by the closes of that average's own window |
| TechnicalFeatures.VolatilityIsVariance | src/auto_trading_v2/application/feature_building/daily_technical.py:139-146 | the volatility is the root of the mean of squares less the squared mean, never negative, zero exactly when all returns are equal |
| TechnicalFeatures.AtrOverFourteenDays | src/auto_trading_v2/application/feature_building/daily_technical.py:167 | the average true range is the mean of the fourteen latest ranges, each day's span widened by the close of the day before, relative to the last close |
| TechnicalFeatures.Breakouts | src/auto_trading_v2/application/feature_building/daily_technical.py:168-173 | the distances from the prior extremes are positive or negative exactly on a breakout |
| TechnicalFeatures.VolumeBounds | src/auto_trading_v2/application/feature_building/daily_technical.py:199-204 | the volume ratios lie in [0, 4] and [0, 20], and reach the upper bounds exactly when the other volumes are zero |
| TechnicalFeatures.DollarVolumeBounds | src/auto_trading_v2/application/feature_building/daily_technical.py:205-207 | the average dollar volume lies between the extreme closes times the average volume |
| FeatureMeanings.ReturnsMean | src/auto_trading_v2/application/feature_building/daily_technical.py:156-160 | each of the five returns leads from its first price to its second |
| FeatureMeanings.LatestDayMeans | src/auto_trading_v2/application/feature_building/daily_technical.py:152-178 | the last close is that of the newest bar, and the range rate times the close before is the day's span |
| FeatureMeanings.SmaMeans | src/auto_trading_v2/application/feature_building/daily_technical.py:163-165 | one plus the distance, times the sum of the last five, ten or twenty closes, is as many times the last close |
| FeatureMeanings.VolatilityMeans | src/auto_trading_v2/application/feature_building/daily_technical.py:138-146 | the volatility is the root of the variance of twenty daily returns, each leading from one close to the next |
| FeatureMeanings.ExtremesMean | src/auto_trading_v2/application/feature_building/daily_technical.py:168-173 | the distances lead from the highest high and the lowest low of the twenty days before to the last close |
| FeatureMeanings.VolumesMissing | src/auto_trading_v2/application/feature_building/daily_technical.py:187-198 | without a volume, or with nothing traded, the quality is degraded for the reason that applies and the values are missing |
| FeatureMeanings.VolumesMean | src/auto_trading_v2/application/feature_building/daily_technical.py:199-207 | the volume ratios compare the latest five volumes and the latest one with the last twenty, and the dollar volume averages close times volume over the same days |
| FeatureMeanings.OrderedIff | src/auto_trading_v2/application/feature_building/daily_technical.py:101-129 | bars are accepted exactly when all are of the symbol, the source and USD, split-adjusted, available by the instant and of different sessions |
| FeatureMeanings.RejectedBecause | src/auto_trading_v2/application/feature_building/daily_technical.py:101-129 | each rejection names what is wrong with some bar |
| FeatureMeanings.BuildMeans | src/auto_trading_v2/application/feature_building/daily_technical.py:44-99 | a build is rejected, has too little data, or is a snapshot of exactly the newest twenty-one sessions with their digests as provenance, for v1 and v2 |
| FeatureInvariance.OrderDoesNotMatter | src/auto_trading_v2/application/feature_building/daily_technical.py:101-129 | input order changes neither result nor error |
| FeatureInvariance.OlderBarsDoNotMatter | src/auto_trading_v2/application/feature_building/daily_technical.py:65-72 | a build equals the build of twenty-one of its bars, each later than every bar left out |
| FeatureInvariance.VolumeDoesNotMatter | src/auto_trading_v2/application/feature_building/daily_price_technical_v2.py:52-94 | no volume influences any v2 value, status or reason |
| FeatureInvariance.SelectedPrices | src/auto_trading_v2/application/feature_building/daily_price_technical_v2.py:67-94 | v2 has exactly the price keys of v1 and is READY whenever there are enough bars |
| StableSort.SortForgets | src/auto_trading_v2/application/feature_building/daily_technical.py:125-125 | sorting forgets input order when the key tells the elements apart |
| CanonicalDecimal.AcceptsIffCanonical | src/auto_trading_v2/application/services/training_readiness_price_only.py:131-143 | a string is accepted exactly when it is optional minus, no leading zeros, no trailing fractional zeros, no exponent, no negative zero |
| CanonicalDecimal.RenderKeepsValue | src/auto_trading_v2/application/services/training_readiness_price_only.py:140-143 | rendering is canonical and keeps the value |
| CanonicalDecimal.CanonicalIsUnique | src/auto_trading_v2/application/services/training_readiness_price_only.py:143 | different canonical strings spell different values |
| CanonicalDecimal.OneStringPerValue | src/auto_trading_v2/application/services/training_readiness_price_only.py:131-143 | the only accepted string with a given value is that value's rendering |
| CanonicalDecimal.FixedReadsCanonical | src/auto_trading_v2/application/services/training_readiness_price_only.py:134-135 | the assumption about the parser is met by a plain fixed-point parser |
| CalibrationDataset.ArrangementDoesNotMatter | src/auto_trading_v2/application/services/probability_calibration_dataset_builder.py:64-74 | for distinct outcomes every arrangement of the sources gives the same ordered list or the same rejection |
| CalibrationDataset.AcceptedSources | src/auto_trading_v2/application/services/probability_calibration_dataset_builder.py:182-269 | accepted sources are a sorted permutation, one per scoring item, with all four timestamps within the cutoff |
| CalibrationDataset.AcceptedIff | src/auto_trading_v2/application/services/probability_calibration_dataset_builder.py:64-74 | sources are accepted exactly when each is usable and no scoring item occurs twice, rejected for the one or the other, and ordered by session, run, rank, market and symbol |
| CalibrationDataset.HeaderFitsTable | migrations/ddl/probability_calibration_datasets.py:92-106 | the built header satisfies the label, mode, session and status checks of its table |
| CalibrationDataset.HeaderDates | src/auto_trading_v2/application/services/probability_calibration_dataset_builder.py:99-116 | the header's dates are those of the earliest and the latest source session, and its session count is the number of different dates |
| CalibrationDataset.PositiveMeansRising | src/auto_trading_v2/application/services/probability_calibration_dataset_builder.py:147 | the positive count is the number of sources with a positive forward return |
| CalibrationDataset.BuiltIff | src/auto_trading_v2/application/services/probability_calibration_dataset_builder.py:77-178 | a dataset is built exactly when there is one label per source and each is that source's label; items are numbered in order and labelled by the sign of the return, and the header counts rising and prospective sources |
| CalibrationDataset.DatasetRespectsCutoff | src/auto_trading_v2/application/services/probability_calibration_dataset_builder.py:64-121 | from request to dataset: items numbered from one and labelled by the sign of their return, no scoring item twice, sessions ascending, no item newer than its generation |
| BarCalendar.Validate | src/auto_trading_v2/application/services/daily_market_bar_calendar.py:26-70 | the single pass returns the first failing check of the first failing bar |
| BarCalendar.PassesIffWellFormed | src/auto_trading_v2/application/services/daily_market_bar_calendar.py:48-70 | bars pass exactly when covered, completed, on sessions, of one instrument and source, and strictly ascending |
| BarCalendar.RejectionMeans | src/auto_trading_v2/application/services/daily_market_bar_calendar.py:48-70 | what each rejection says about the bar it names, all bars before it being well formed |

## Left out

- Server-side uncertainty of a failed commit: a commit that raises is taken to have had no effect.
- Statements of one transaction interleaving with those of another: reads may be old and may differ from one another, while the writes and the commit of one call happen together; the row locks that make this so are not modelled.
- ObservationAudit.PersistOutcomes: its store calls meet no infrastructure faults; under one the loop ends with a persistence error and writes no run, as with a conflict.
- PaperFills.ExecuteNext: its checks of stored rows that cannot be mapped to domain values (`PersistenceMappingError`) are not modelled.
- PositionProjection.ProjectFill: the same, and the error texts; failures keep their category.
- AverageCost.AveragePrice: the 80-digit intermediate quotient is exact here, so the one rounding is the final one; an average beyond what the decimal context can hold is a failure, as in the code.
- TradeIntents.QuantityIsLargest: the quotient is exact before it is floored; the code first rounds it to 38 digits, which changes nothing for a notional below 10^20 currency units.
- Quantities and versions are unbounded; the integer and decimal widths of the columns are not modelled.
- Identifiers are arbitrary parameters, so repeated ones are covered; execution keys, client order identifiers and idempotency keys are injective in what they are derived from, as are the SHA-256 keys and digests of the stores.
- Position transitions that reduce or close a position: no service in scope makes them, so every stored position is OPEN.
- Rows of snapshots, candidates and decisions are written by parts outside this model and never change once stored.
- Identity checks between rows that were fetched by the very key they are compared on (`source_identity_mismatch` and `candidate_mismatch`) hold by construction.
- CanonicalStore.Persist: a run and its items are one row; the unique keys among the items of one run are not modelled, and neither is the look-up by which a pipeline run returns early.
- PipelineExecutor.Execute: clocks and item identifiers are left out, and each member carries the answers its collaborators would give.
- PipelineRuns.Run: the look-up of the universe, the preparation of requests and the reasons a provider can be refused for are parameters.
- MarketCalendar.Resolve: time zones are a parameter: the New York date of an instant, and offsets of four or five hours.
- ObservationAudit.ObservationFits: the observation's early returns (an existing run, missing or inconsistent scoring and pipeline runs) are left out.
- ForwardOutcomes.CreatedIsHindsight: the constructors of the terminal close, the forward return and the excursion rates reject values that need more than 38 digits at 18 decimals (`FUTURE_BAR_CONTRACT_INVALID`); these range rejections are not modelled. Also, validation of the scoring and pipeline source chain is a parameter (present or not), and rates are exact rather than rounded.
- TechnicalFeatures.VolatilityIsVariance: the variance is stated instead of its square root, and values are exact rather than rounded to 38 digits.
- CanonicalDecimal.AcceptsIffCanonical: the parser is any function that reads canonical strings as written; what else the Python decimal constructor reads (exponents, underscores, white space, other digits) is irrelevant to the result.
- CalibrationDataset.AcceptedSources: policy codes, formats and types are one flag, and identifiers and texts stand for their places in the text order.
- The remaining eligibility rules of the price-only readiness report, filter rules, scoring percentiles, ranking, exit thresholds and recommendations: each is a short decision over one row.
- Adapters, HTTP, configuration, migrations beyond the keys and checks cited, scripts and reports.
