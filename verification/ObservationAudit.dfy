/** Observation runs: the prepared outcomes are stored one by one and the run is audited. */
module ObservationAudit {
  import opened Outcomes
  import opened UnitsOfWork
  import opened Transactions
  import opened MarketCalendar
  import opened ForwardOutcomes
  import CS = CanonicalStore

  datatype PreparedItem = PreparedItem(
    sourceItem: nat, outcome: ItemOutcome, candidate: Option<CS.Row>, terminal: Option<Day>)

  // ---------------------------------------------------------------------------
  // Storing
  // ---------------------------------------------------------------------------

  /** What other callers do around one store call: the rows they commit before its insert and
      between its insert and its re-read, and how much of the table its lookup saw. */
  datatype Others = Others(before: CS.Table, after: CS.Table, seen: nat)

  function Seen(table: CS.Table, n: nat): CS.Table {
    if n < |table| then table[..n] else table
  }

  function PersistOne(table: CS.Table, item: PreparedItem, others: Others)
    : (CS.Table, Result<PreparedItem, CS.Answer>)
  {
    match item.candidate
    case None => (table, Ok(item))
    case Some(candidate) =>
      var met := table + others.before;
      var (done, first) := CS.TryPersist(CS.OUTCOMES, Seen(met, others.seen), met, candidate);
      var after := done + others.after;
      var answer := if first.Raced? then CS.Resolve(CS.OUTCOMES, met + others.after, candidate) else first;
      match answer
      case Created(row) => (after, Ok(item.(outcome := OUTCOME_CREATED, candidate := Some(row))))
      case Existing(row) => (after, Ok(item.(outcome := OUTCOME_ALREADY_EXISTS, candidate := Some(row))))
      case _ => (after, Err(answer))
  }

  /** The first n items; a conflict or an unresolved race stops the loop, and what was
      stored before it stays stored. */
  function PersistAll(table: CS.Table, items: seq<PreparedItem>, others: seq<Others>, n: nat)
    : (CS.Table, Result<seq<PreparedItem>, CS.Answer>)
    requires n <= |items| == |others|
  {
    if n == 0 then (table, Ok([]))
    else
      var (before, resolved) := PersistAll(table, items, others, n - 1);
      match resolved
      case Err(answer) => (before, Err(answer))
      case Ok(earlier) =>
        var (after, one) := PersistOne(before, items[n - 1], others[n - 1]);
        match one
        case Err(answer) => (after, Err(answer))
        case Ok(item) => (after, Ok(earlier + [item]))
  }

  lemma {:induction false} PersistStops(
    table: CS.Table, items: seq<PreparedItem>, others: seq<Others>, i: nat, j: nat)
    requires i <= j <= |items| == |others| && PersistAll(table, items, others, i).1.Err?
    ensures PersistAll(table, items, others, j) == PersistAll(table, items, others, i)
  {
    if i < j {
      PersistStops(table, items, others, i, j - 1);
    }
  }

  lemma Inserted(view: CS.Table, met: CS.Table, candidate: CS.Row)
    ensures var (done, first) := CS.TryPersist(CS.OUTCOMES, view, met, candidate);
            && met <= done
            && (first.Created? ==> first.row == candidate && candidate in done)
            && (!first.Created? ==> done == met)
  {
  }

  /** Rows that other callers commit. */
  method Arrive(database: Database<CS.Table>, rows: CS.Table)
    modifies database
    ensures database.contents == old(database.contents) + rows
  {
    database.contents := database.contents + rows;
  }

  method PersistOutcomes(database: Database<CS.Table>, items: seq<PreparedItem>, others: seq<Others>)
    returns (r: Result<seq<PreparedItem>, CS.Answer>)
    requires |items| == |others|
    modifies database
    ensures (database.contents, r) == PersistAll(old(database.contents), items, others, |items|)
  {
    hide CS.TryPersist, CS.Resolve;
    var resolved: seq<PreparedItem> := [];
    ghost var start := database.contents;
    var n := 0;
    while n < |items|
      invariant 0 <= n <= |items|
      invariant PersistAll(start, items, others, n) == (database.contents, Ok(resolved))
    {
      var item, around := items[n], others[n];
      n := n + 1;
      if item.candidate.None? {
        resolved := resolved + [item];
        continue;
      }
      Arrive(database, around.before);
      var met := database.contents;
      Inserted(Seen(met, around.seen), met, item.candidate.value);
      var stored := CS.Persist(database, CS.OUTCOMES, Seen(met, around.seen), met + around.after,
                               item.candidate.value, NO_FAULTS, NO_FAULTS, NO_FAULTS);
      Arrive(database, around.after);
      var answer := stored.value;
      if !answer.Created? && !answer.Existing? {
        PersistStops(start, items, others, n, |items|);
        return Err(answer);
      }
      var outcome := if answer.Created? then OUTCOME_CREATED else OUTCOME_ALREADY_EXISTS;
      resolved := resolved + [PreparedItem(item.sourceItem, outcome, Some(answer.row), item.terminal)];
    }
    return Ok(resolved);
  }

  // ---------------------------------------------------------------------------
  // Audit
  // ---------------------------------------------------------------------------

  datatype RunItem = RunItem(
    sourceItem: nat, ordinal: nat, outcome: ItemOutcome, outcomeId: Option<nat>, terminal: Option<Day>,
    reason: Option<ItemOutcome>)

  function RunItems(items: seq<PreparedItem>): seq<RunItem> {
    seq(|items|, i requires 0 <= i < |items| =>
      RunItem(items[i].sourceItem, i + 1, items[i].outcome,
              if items[i].candidate.None? then None else Some(items[i].candidate.value.id),
              items[i].terminal,
              if items[i].candidate.Some? then None else Some(items[i].outcome)))
  }

  const INVALID: set<ItemOutcome> := {
    SOURCE_CHAIN_INVALID, FUTURE_BAR_CONTRACT_INVALID, CALENDAR_OUT_OF_COVERAGE
  }

  function In(outcome: ItemOutcome, group: set<ItemOutcome>): nat {
    if outcome in group then 1 else 0
  }

  function Count(items: seq<RunItem>, group: set<ItemOutcome>): nat {
    if items == [] then 0 else Count(items[..|items| - 1], group) + In(items[|items| - 1].outcome, group)
  }

  datatype Counts = Counts(
    created: nat, existing: nat, notMatured: nat, incomplete: nat, ineligible: nat, invalid: nat)

  function CountsOf(items: seq<RunItem>): Counts {
    Counts(Count(items, {OUTCOME_CREATED}), Count(items, {OUTCOME_ALREADY_EXISTS}),
           Count(items, {NOT_MATURED}), Count(items, {FUTURE_BARS_INCOMPLETE}),
           Count(items, {SOURCE_ITEM_NOT_ELIGIBLE}), Count(items, INVALID))
  }

  function Total(c: Counts): nat {
    c.created + c.existing + c.notMatured + c.incomplete + c.ineligible + c.invalid
  }

  datatype RunStatus =
    | COMPLETED
    | COMPLETED_WITH_PENDING
    | COMPLETED_WITH_GAPS
    | NO_ELIGIBLE_ITEMS
    | OUT_OF_COVERAGE

  predicate Occurs(items: seq<RunItem>, outcome: ItemOutcome) {
    exists i | i in items :: i.outcome == outcome
  }

  function StatusOf(items: seq<RunItem>): RunStatus {
    if |items| - Count(items, {SOURCE_ITEM_NOT_ELIGIBLE}) == 0 then NO_ELIGIBLE_ITEMS
    else if Occurs(items, CALENDAR_OUT_OF_COVERAGE) then OUT_OF_COVERAGE
    else if Occurs(items, SOURCE_CHAIN_INVALID) || Occurs(items, FUTURE_BAR_CONTRACT_INVALID)
    then COMPLETED_WITH_GAPS
    else if Occurs(items, NOT_MATURED) || Occurs(items, FUTURE_BARS_INCOMPLETE) then COMPLETED_WITH_PENDING
    else COMPLETED
  }

  /** The table's check on status and counts. */
  predicate StatusShape(status: RunStatus, c: Counts) {
    match status
    case COMPLETED => c.notMatured == 0 && c.incomplete == 0 && c.invalid == 0
    case COMPLETED_WITH_PENDING => c.notMatured + c.incomplete > 0 && c.invalid == 0
    case COMPLETED_WITH_GAPS => c.invalid > 0
    case NO_ELIGIBLE_ITEMS => Total(c) == c.ineligible
    case OUT_OF_COVERAGE => c.invalid > 0
  }

  /** The table's check on one item. */
  predicate OutcomeShape(i: RunItem) {
    if i.outcome == OUTCOME_CREATED || i.outcome == OUTCOME_ALREADY_EXISTS
    then i.outcomeId.Some? && i.terminal.Some? && i.reason.None?
    else i.outcomeId.None? && i.reason.Some?
  }

  lemma OneGroupEach(o: ItemOutcome)
    ensures In(o, {OUTCOME_CREATED}) + In(o, {OUTCOME_ALREADY_EXISTS}) + In(o, {NOT_MATURED})
            + In(o, {FUTURE_BARS_INCOMPLETE}) + In(o, {SOURCE_ITEM_NOT_ELIGIBLE}) + In(o, INVALID) == 1
  {
  }

  /** The six counts partition the items. */
  lemma {:induction false} CountsPartition(items: seq<RunItem>)
    ensures Total(CountsOf(items)) == |items|
  {
    hide In, INVALID;
    if items != [] {
      CountsPartition(items[..|items| - 1]);
      OneGroupEach(items[|items| - 1].outcome);
    }
  }

  lemma {:induction false} CountIsZero(items: seq<RunItem>, group: set<ItemOutcome>)
    ensures Count(items, group) == 0 <==> forall i :: i in items ==> i.outcome !in group
  {
    if items != [] {
      CountIsZero(items[..|items| - 1], group);
      assert forall i :: i in items <==> i in items[..|items| - 1] || i == items[|items| - 1];
    }
  }

  /** The places of the items whose outcome is in the group. */
  function Places(items: seq<RunItem>, group: set<ItemOutcome>): set<int> {
    set k | 0 <= k < |items| && items[k].outcome in group
  }

  lemma {:induction false} CountIsSize(items: seq<RunItem>, group: set<ItemOutcome>)
    ensures Count(items, group) == |Places(items, group)|
  {
    if items == [] {
      assert Places(items, group) == {};
    } else {
      var n := |items| - 1;
      CountIsSize(items[..n], group);
      assert Places(items, group)
             == if items[n].outcome in group then Places(items[..n], group) + {n} else Places(items[..n], group);
    }
  }

  /** Each count is the number of items with its outcomes. */
  lemma CountsMean(items: seq<RunItem>)
    ensures var c := CountsOf(items);
            && c.created == |Places(items, {OUTCOME_CREATED})|
            && c.existing == |Places(items, {OUTCOME_ALREADY_EXISTS})|
            && c.notMatured == |Places(items, {NOT_MATURED})|
            && c.incomplete == |Places(items, {FUTURE_BARS_INCOMPLETE})|
            && c.ineligible == |Places(items, {SOURCE_ITEM_NOT_ELIGIBLE})|
            && c.invalid == |Places(items, {SOURCE_CHAIN_INVALID, FUTURE_BAR_CONTRACT_INVALID,
                                            CALENDAR_OUT_OF_COVERAGE})|
  {
    CountIsSize(items, {OUTCOME_CREATED});
    CountIsSize(items, {OUTCOME_ALREADY_EXISTS});
    CountIsSize(items, {NOT_MATURED});
    CountIsSize(items, {FUTURE_BARS_INCOMPLETE});
    CountIsSize(items, {SOURCE_ITEM_NOT_ELIGIBLE});
    CountIsSize(items, INVALID);
    hide Count, Places;
  }

  /** Which items give a run its status. */
  lemma StatusMeans(items: seq<RunItem>)
    ensures var status := StatusOf(items);
            var eligible := exists i :: i in items && i.outcome != SOURCE_ITEM_NOT_ELIGIBLE;
            && (status == NO_ELIGIBLE_ITEMS <==> !eligible)
            && (status == OUT_OF_COVERAGE <==> Occurs(items, CALENDAR_OUT_OF_COVERAGE))
            && (status == COMPLETED_WITH_GAPS
                <==> !Occurs(items, CALENDAR_OUT_OF_COVERAGE)
                     && (Occurs(items, SOURCE_CHAIN_INVALID) || Occurs(items, FUTURE_BAR_CONTRACT_INVALID)))
            && (status == COMPLETED_WITH_PENDING
                <==> !Occurs(items, CALENDAR_OUT_OF_COVERAGE) && !Occurs(items, SOURCE_CHAIN_INVALID)
                     && !Occurs(items, FUTURE_BAR_CONTRACT_INVALID)
                     && (Occurs(items, NOT_MATURED) || Occurs(items, FUTURE_BARS_INCOMPLETE)))
  {
    AllIneligible(items);
    hide Count;
  }

  lemma {:induction false} AllIneligible(items: seq<RunItem>)
    ensures Count(items, {SOURCE_ITEM_NOT_ELIGIBLE}) <= |items|
    ensures Count(items, {SOURCE_ITEM_NOT_ELIGIBLE}) == |items|
            <==> forall i :: i in items ==> i.outcome == SOURCE_ITEM_NOT_ELIGIBLE
  {
    if items != [] {
      var n := |items| - 1;
      AllIneligible(items[..n]);
      assert forall i :: i in items <==> i in items[..n] || i == items[n];
    }
  }

  lemma CountSees(items: seq<RunItem>)
    ensures CountsOf(items).notMatured > 0 <==> Occurs(items, NOT_MATURED)
    ensures CountsOf(items).incomplete > 0 <==> Occurs(items, FUTURE_BARS_INCOMPLETE)
    ensures CountsOf(items).invalid > 0 <==>
              Occurs(items, SOURCE_CHAIN_INVALID) || Occurs(items, FUTURE_BAR_CONTRACT_INVALID)
              || Occurs(items, CALENDAR_OUT_OF_COVERAGE)
  {
    CountIsZero(items, {NOT_MATURED});
    CountIsZero(items, {FUTURE_BARS_INCOMPLETE});
    CountIsZero(items, INVALID);
    hide Count;
  }

  /** Whatever the items, the run's status fits the counts stored with it. */
  lemma StatusFits(items: seq<RunItem>)
    ensures StatusShape(StatusOf(items), CountsOf(items))
  {
    CountsPartition(items);
    CountSees(items);
    hide Count, Occurs;
  }

  /** Conversely COMPLETED means that every eligible item has its outcome stored. */
  lemma CompletedMeansStored(items: seq<RunItem>, i: RunItem)
    requires StatusOf(items) == COMPLETED && i in items
    ensures i.outcome == OUTCOME_CREATED || i.outcome == OUTCOME_ALREADY_EXISTS
            || i.outcome == SOURCE_ITEM_NOT_ELIGIBLE
  {
  }

  /** What preparation guarantees of an item: a candidate with its terminal date or neither. */
  predicate Consistent(item: PreparedItem) {
    && item.outcome != OUTCOME_ALREADY_EXISTS
    && (item.outcome == OUTCOME_CREATED <==> item.candidate.Some?)
    && (item.candidate.Some? ==> item.terminal.Some?)
  }

  /** A resolved item that names a row of the table. */
  ghost predicate NamesStored(item: PreparedItem, resolved: PreparedItem, table: CS.Table) {
    && resolved.sourceItem == item.sourceItem && resolved.terminal == item.terminal
    && (resolved.candidate.Some? <==>
          resolved.outcome == OUTCOME_CREATED || resolved.outcome == OUTCOME_ALREADY_EXISTS)
    && (resolved.candidate.Some? ==> resolved.terminal.Some? && resolved.candidate.value in table)
    && (resolved.outcome == OUTCOME_CREATED ==> resolved.candidate == item.candidate)
    && (resolved.outcome == OUTCOME_ALREADY_EXISTS ==>
          && item.candidate.Some?
          && resolved.candidate.value.key == item.candidate.value.key
          && resolved.candidate.value.digest == item.candidate.value.digest)
    && (resolved.candidate.None? ==> resolved == item)
  }

  lemma OneFits(table: CS.Table, item: PreparedItem, others: Others)
    requires Consistent(item)
    ensures table <= PersistOne(table, item, others).0
    ensures PersistOne(table, item, others).1.Ok? ==>
              NamesStored(item, PersistOne(table, item, others).1.value, PersistOne(table, item, others).0)
  {
    if item.candidate.Some? {
      var candidate, met := item.candidate.value, table + others.before;
      CS.LookupFinds(Seen(met, others.seen), candidate.key);
      CS.LookupFinds(met + others.after, candidate.key);
      Inserted(Seen(met, others.seen), met, candidate);
    }
  }

  /** What an item was resolved to is what the store answered: created when this call inserted
      its candidate, already existing when a row with its key and digest was found. */
  ghost predicate Resolves(
    view: CS.Table, met: CS.Table, done: CS.Table, reread: CS.Table, item: PreparedItem, resolved: PreparedItem)
  {
    if item.candidate.None? then done == met && resolved == item
    else
      && resolved.candidate.Some?
      && resolved.outcome in {OUTCOME_CREATED, OUTCOME_ALREADY_EXISTS}
      && CS.Agrees(view, met, done, reread, item.candidate.value,
                   if resolved.outcome == OUTCOME_CREATED then CS.Created(resolved.candidate.value)
                   else CS.Existing(resolved.candidate.value))
  }

  /** The table that an item's insert leaves, before others commit more. */
  ghost function Left(table: CS.Table, item: PreparedItem, others: Others): CS.Table {
    var met := table + others.before;
    if item.candidate.None? then met
    else CS.TryPersist(CS.OUTCOMES, Seen(met, others.seen), met, item.candidate.value).0
  }

  lemma OneResolves(table: CS.Table, item: PreparedItem, others: Others)
    requires PersistOne(table, item, others).1.Ok?
    ensures var met := table + others.before;
            Resolves(Seen(met, others.seen), met, Left(table, item, others), met + others.after, item,
                     PersistOne(table, item, others).1.value)
  {
    if item.candidate.Some? {
      var met, candidate := table + others.before, item.candidate.value;
      CS.LookupFinds(Seen(met, others.seen), candidate.key);
      CS.LookupFinds(met + others.after, candidate.key);
      hide CS.Lookup, CS.Clashes;
    }
  }

  /** Over the whole loop: each item is resolved against the table that the earlier ones left. */
  lemma {:induction false} EachResolves(
    table: CS.Table, items: seq<PreparedItem>, others: seq<Others>, n: nat, i: nat)
    requires i < n <= |items| == |others| && PersistAll(table, items, others, n).1.Ok?
    ensures |PersistAll(table, items, others, n).1.value| == n
    ensures PersistAll(table, items, others, i).1.Ok?
    ensures var before := PersistAll(table, items, others, i).0;
            var met := before + others[i].before;
            Resolves(Seen(met, others[i].seen), met, Left(before, items[i], others[i]), met + others[i].after,
                     items[i], PersistAll(table, items, others, n).1.value[i])
  {
    hide PersistOne, Resolves, Left;
    ResolvedLength(table, items, others, n);
    ResolvedLength(table, items, others, n - 1);
    if i < n - 1 {
      EachResolves(table, items, others, n - 1, i);
    } else {
      OneResolves(PersistAll(table, items, others, i).0, items[i], others[i]);
    }
  }

  /** Every item that reaches the audit fits its table, keeps its source item and its place,
      and names a row that the store holds when the run is written: its own row when it was
      created, else one with its key and digest. */
  lemma {:induction false} StoredItemsFit(
    table: CS.Table, items: seq<PreparedItem>, others: seq<Others>, n: nat, i: nat)
    requires i < n <= |items| == |others| && (forall k :: 0 <= k < |items| ==> Consistent(items[k]))
    requires PersistAll(table, items, others, n).1.Ok?
    ensures var (end, resolved) := PersistAll(table, items, others, n);
            && |resolved.value| == n
            && NamesStored(items[i], resolved.value[i], end)
            && RunItems(resolved.value)[i].ordinal == i + 1
            && OutcomeShape(RunItems(resolved.value)[i])
  {
    hide PersistOne, Consistent;
    ResolvedLength(table, items, others, n - 1);
    OneFits(PersistAll(table, items, others, n - 1).0, items[n - 1], others[n - 1]);
    if i < n - 1 {
      StoredItemsFit(table, items, others, n - 1, i);
    }
  }

  lemma {:induction false} ResolvedLength(table: CS.Table, items: seq<PreparedItem>, others: seq<Others>, n: nat)
    requires n <= |items| == |others| && PersistAll(table, items, others, n).1.Ok?
    ensures |PersistAll(table, items, others, n).1.value| == n
  {
    if n > 0 {
      ResolvedLength(table, items, others, n - 1);
    }
  }

  /** While no two rows of the store share a unique key, the row an item names is the row
      that its key finds. */
  lemma NamedRowIsFound(end: CS.Table, item: PreparedItem, resolved: PreparedItem)
    requires NamesStored(item, resolved, end) && CS.Distinct(end) && resolved.candidate.Some?
    ensures item.candidate.Some?
    ensures CS.Lookup(end, item.candidate.value.key) == resolved.candidate
  {
    var key := item.candidate.value.key;
    CS.LookupFinds(end, key);
    CS.OneRowPerKey(end, resolved.candidate.value, CS.Lookup(end, key).value);
  }

  // ---------------------------------------------------------------------------
  // From preparation to audit
  // ---------------------------------------------------------------------------

  /** One scoring item with all that preparation reads for it, and the row that a calculated
      outcome becomes. */
  datatype Request = Request(
    sourceItem: nat, eligible: bool, source: Option<Source>, sessions: Option<seq<Session>>, bars: seq<Bar>,
    row: CS.Row)

  predicate Priced(request: Request) {
    request.source.Some? ==> request.source.value.referenceClose > 0.0
  }

  function Prepare(request: Request, asOf: Instant, grace: nat): (item: PreparedItem)
    requires Priced(request)
    ensures item.sourceItem == request.sourceItem
  {
    var made := PrepareItem(request.eligible, request.source, request.sessions, request.bars, asOf, grace);
    PreparedItem(request.sourceItem, made.outcome,
                 if made.calculated.Some? then Some(request.row) else None, made.terminal)
  }

  function PrepareAll(requests: seq<Request>, asOf: Instant, grace: nat): (items: seq<PreparedItem>)
    requires forall k :: 0 <= k < |requests| ==> Priced(requests[k])
    ensures |items| == |requests|
  {
    seq(|requests|, k requires 0 <= k < |requests| => Prepare(requests[k], asOf, grace))
  }

  lemma PreparedIsConsistent(request: Request, asOf: Instant, grace: nat)
    requires Priced(request)
    ensures Consistent(Prepare(request, asOf, grace))
  {
    PreparedShape(request.eligible, request.source, request.sessions, request.bars, asOf, grace);
    hide PrepareItem;
  }

  /** A whole observation, whatever its scoring items and whatever others store meanwhile: a
      run that is written has one fitting item per scoring item, its status fits its counts, and
      COMPLETED means that every eligible item has a stored outcome.  While the store keeps its
      unique keys, the row an item names is the one its key finds. */
  lemma ObservationFits(
    table: CS.Table, requests: seq<Request>, others: seq<Others>, asOf: Instant, grace: nat, i: nat)
    requires i < |requests| == |others| && forall k :: 0 <= k < |requests| ==> Priced(requests[k])
    requires PersistAll(table, PrepareAll(requests, asOf, grace), others, |requests|).1.Ok?
    ensures var (end, resolved) := PersistAll(table, PrepareAll(requests, asOf, grace), others, |requests|);
            var run := RunItems(resolved.value);
            && |run| == |requests|
            && run[i].sourceItem == requests[i].sourceItem
            && run[i].outcome == resolved.value[i].outcome && run[i].terminal == resolved.value[i].terminal
            && run[i].outcomeId == (if resolved.value[i].candidate.Some? then Some(resolved.value[i].candidate.value.id)
                                    else None)
            && (run[i].reason.Some? ==> run[i].reason == Some(run[i].outcome))
            && OutcomeShape(run[i])
            && NamesStored(Prepare(requests[i], asOf, grace), resolved.value[i], end)
            && StatusShape(StatusOf(run), CountsOf(run))
            && (StatusOf(run) == COMPLETED ==>
                  run[i].outcome in {OUTCOME_CREATED, OUTCOME_ALREADY_EXISTS, SOURCE_ITEM_NOT_ELIGIBLE})
            && (resolved.value[i].candidate.Some? && CS.Distinct(end) ==>
                  && Prepare(requests[i], asOf, grace).candidate.Some?
                  && CS.Lookup(end, Prepare(requests[i], asOf, grace).candidate.value.key)
                     == resolved.value[i].candidate)
  {
    hide Prepare, Priced, NamesStored, OutcomeShape, StatusOf, CountsOf;
    var items := PrepareAll(requests, asOf, grace);
    forall k | 0 <= k < |items|
      ensures Consistent(items[k])
    {
      PreparedIsConsistent(requests[k], asOf, grace);
    }
    hide Consistent;
    StoredItemsFit(table, items, others, |requests|, i);
    KeepsSource(table, items, others, i);
    var run := RunItems(PersistAll(table, items, others, |requests|).1.value);
    StatusFits(run);
    if StatusOf(run) == COMPLETED {
      assert run[i] in run;
      CompletedMeansStored(run, run[i]);
    }
    var (end, resolved) := PersistAll(table, items, others, |requests|);
    if resolved.value[i].candidate.Some? && CS.Distinct(end) {
      NamedRowIsFound(end, items[i], resolved.value[i]);
    }
  }

  lemma KeepsSource(table: CS.Table, items: seq<PreparedItem>, others: seq<Others>, i: nat)
    requires i < |items| == |others| && PersistAll(table, items, others, |items|).1.Ok?
    requires var (end, resolved) := PersistAll(table, items, others, |items|);
             |resolved.value| == |items| && NamesStored(items[i], resolved.value[i], end)
    ensures PersistAll(table, items, others, |items|).1.value[i].sourceItem == items[i].sourceItem
  {
  }
}
