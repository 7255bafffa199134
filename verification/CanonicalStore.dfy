/** The insert-only stores: look up, insert, and after a duplicate re-read and compare.

    One protocol serves market bars, forward outcomes, observation runs and pipeline runs.
    A row has a canonical key, an identifier, possibly a second unique key (for a bar, its
    session revision), and a content digest. */
module CanonicalStore {
  import opened Outcomes
  import opened UnitsOfWork
  import opened Transactions

  datatype Row = Row(id: nat, key: nat, second: Option<nat>, digest: nat)

  type Table = seq<Row>

  /** Which store: does it look up before it inserts, and does it compare digests at the
      re-read?  Pipeline runs do neither: they return whatever run won. */
  datatype Store = Store(looksUp: bool, compares: bool)

  const BARS: Store := Store(true, true)
  const OUTCOMES: Store := Store(true, true)
  const OBSERVATION_RUNS: Store := Store(false, true)
  const PIPELINE_RUNS: Store := Store(false, false)

  datatype Answer = Created(row: Row) | Existing(row: Row) | Conflict | Raced | Unresolved

  datatype Clash = Clash

  // ---------------------------------------------------------------------------
  // The table
  // ---------------------------------------------------------------------------

  function Lookup(table: Table, key: nat): Option<Row> {
    if table == [] then None
    else if table[|table| - 1].key == key then Some(table[|table| - 1])
    else Lookup(table[..|table| - 1], key)
  }

  predicate Clashes(a: Row, b: Row) {
    a.id == b.id || a.key == b.key || (a.second.Some? && a.second == b.second)
  }

  function Add(table: Table, row: Row): Result<Table, Clash> {
    if exists r | r in table :: Clashes(r, row) then Err(Clash) else Ok(table + [row])
  }

  // ---------------------------------------------------------------------------
  // The protocol
  // ---------------------------------------------------------------------------

  function Same(store: Store, existing: Row, candidate: Row): Answer {
    if store.compares && existing.digest != candidate.digest then Conflict else Existing(existing)
  }

  /** Everything up to and including the insert.  `view` is what the lookup saw. */
  function TryPersist(store: Store, view: Table, table: Table, candidate: Row): (Table, Answer) {
    var found := if store.looksUp then Lookup(view, candidate.key) else None;
    match found
    case Some(existing) => (table, Same(store, existing, candidate))
    case None =>
      match Add(table, candidate)
      case Ok(after) => (after, Created(candidate))
      case Err(_) => (table, Raced)
  }

  /** The re-read after a duplicate, in a unit of work of its own. */
  function Resolve(store: Store, table: Table, candidate: Row): Answer {
    match Lookup(table, candidate.key)
    case Some(existing) => Same(store, existing, candidate)
    case None => Unresolved
  }

  /** A unit of work that only reads works under these faults. */
  predicate Readable(faults: Faults) {
    !faults.connect && !faults.begin && !faults.read && !faults.rollback && !faults.close
  }

  /** A read in a unit of work of its own; false when it could not be made. */
  method ReadAlone(database: Database<Table>, faults: Faults) returns (ok: bool)
    ensures ok <==> Readable(faults)
  {
    var u, entered := Begin<Table, Clash>(database, faults);
    if !entered {
      return false;
    }
    var readable := Read(u, faults);
    if !readable {
      var _ := Abandon(u, false, faults);
      return false;
    }
    ok := Leave(u, false, faults);
  }

  /** What a store call does under faults: an insert that would go through ends like `ending`
      says; any other call changes nothing, and answers by the protocol or with a persistence
      error (None). */
  ghost predicate Stored(
    store: Store, view: Table, before: Table, after: Table, reread: Table, candidate: Row,
    answer: Option<Answer>, ending: Ending)
  {
    var (done, first) := TryPersist(store, view, before, candidate);
    && (first.Created? ==> (after, answer) == Ended(ending, before, (done, Some(first)), None))
    && (!first.Created? ==>
          && after == before
          && (answer.Some? ==>
                answer.value == if first.Raced? then Resolve(store, reread, candidate) else first))
  }

  /** What a row found under the candidate's key means for a store whose content must agree. */
  ghost predicate Judged(row: Row, candidate: Row, answer: Answer) {
    && row.key == candidate.key
    && (row.digest == candidate.digest ==> answer == Existing(row))
    && (row.digest != candidate.digest ==> answer == Conflict)
  }

  /** Look up, insert, re-read, and compare digests at either read, spelled out. */
  ghost predicate Agrees(
    view: Table, before: Table, after: Table, reread: Table, candidate: Row, answer: Answer)
  {
    match Lookup(view, candidate.key)
    case Some(row) => after == before && Judged(row, candidate, answer)
    case None =>
      if forall r :: r in before ==> !Clashes(r, candidate)
      then after == before + [candidate] && answer == Created(candidate)
      else
        && after == before
        && match Lookup(reread, candidate.key)
           case Some(row) => Judged(row, candidate, answer)
           case None => answer == Unresolved
  }

  /** Outcomes are looked up first; observation runs are inserted without a look-up.  Both
      compare digests.  Pipeline runs do neither: whatever row is re-read is handed back. */
  lemma PersistAnswers(
    store: Store, view: Table, before: Table, after: Table, reread: Table, candidate: Row,
    answer: Option<Answer>, ending: Ending)
    requires Stored(store, view, before, after, reread, candidate, answer, ending) && answer.Some?
    ensures store == OUTCOMES ==> Agrees(view, before, after, reread, candidate, answer.value)
    ensures store == OBSERVATION_RUNS ==> Agrees([], before, after, reread, candidate, answer.value)
    ensures store == PIPELINE_RUNS ==>
              if forall r :: r in before ==> !Clashes(r, candidate)
              then after == before + [candidate] && answer.value == Created(candidate)
              else after == before
                   && answer.value == match Lookup(reread, candidate.key)
                                      case Some(row) => Existing(row)
                                      case None => Unresolved
  {
    LookupFinds(view, candidate.key);
    LookupFinds([], candidate.key);
    LookupFinds(reread, candidate.key);
    hide Lookup, Clashes;
  }

  /** The outcome and run stores: lookup, insert and re-read each have their own unit of work. */
  method Persist(
    database: Database<Table>, store: Store, view: Table, reread: Table, candidate: Row,
    lookupFaults: Faults, faults: Faults, rereadFaults: Faults)
    returns (answer: Option<Answer>)
    modifies database
    ensures var ending := if store.looksUp && !Readable(lookupFaults) then Unwritten
                          else EndingOf(faults.(read := false), 1);
            Stored(store, view, old(database.contents), database.contents, reread, candidate, answer, ending)
    ensures lookupFaults == faults == rereadFaults == NO_FAULTS ==> answer.Some?
  {
    if store.looksUp {
      var readable := ReadAlone(database, lookupFaults);
      if !readable {
        return None;
      }
      var existing := Lookup(view, candidate.key);
      if existing.Some? {
        return Some(Same(store, existing.value, candidate));
      }
    }
    var u, entered := Begin<Table, Clash>(database, faults);
    if !entered {
      return None;
    }
    var added := u.Operate(table => Add(table, candidate), faults.write == Some(0));
    if added.Returned? {
      var finished := Finish(u, faults);
      return if finished then Some(Created(candidate)) else None;
    }
    if !added.Rejected? {
      var _ := Abandon(u, false, faults);
      return None;
    }
    var left := Leave(u, true, faults);
    if !left {
      return None;
    }
    var readable := ReadAlone(database, rereadFaults);
    return if readable then Some(Resolve(store, reread, candidate)) else None;
  }

  /** The bar store: lookup and insert share one unit of work, with a `raced` flag. */
  method CreateBar(
    database: Database<Table>, view: Table, reread: Table, candidate: Row, faults: Faults,
    rereadFaults: Faults)
    returns (answer: Option<Answer>)
    modifies database
    ensures Stored(BARS, view, old(database.contents), database.contents, reread, candidate, answer,
                   EndingOf(faults, 1))
    ensures answer.Some? ==>
              Agrees(view, old(database.contents), database.contents, reread, candidate, answer.value)
    ensures faults == rereadFaults == NO_FAULTS ==> answer.Some?
  {
    hide Lookup, Clashes;
    LookupFinds(view, candidate.key);
    LookupFinds(reread, candidate.key);
    var raced := false;
    var u, entered := Begin<Table, Clash>(database, faults);
    if !entered {
      return None;
    }
    var readable := Read(u, faults);
    if !readable {
      var _ := Abandon(u, false, faults);
      return None;
    }
    var existing := Lookup(view, candidate.key);
    if existing.Some? {
      var found := Same(BARS, existing.value, candidate);
      if found == Conflict {
        var _ := Abandon(u, false, faults);
        return Some(Conflict);
      }
      var left := Leave(u, false, faults);
      return if left then Some(found) else None;
    }
    var added := u.Operate(table => Add(table, candidate), faults.write == Some(0));
    if added.Returned? {
      var finished := Finish(u, faults);
      return if finished then Some(Created(candidate)) else None;
    }
    if !added.Rejected? {
      var _ := Abandon(u, false, faults);
      return None;
    }
    raced := true;
    var left := Leave(u, true, faults);
    if !left {
      return None;
    }
    if !raced {
      return Some(Unresolved);
    }
    var again := ReadAlone(database, rereadFaults);
    return if again then Some(Resolve(BARS, reread, candidate)) else None;
  }

  // ---------------------------------------------------------------------------
  // Runs of any number of concurrent callers
  // ---------------------------------------------------------------------------

  /** `view` counts the calls already served when the lookup happened; `Reread` is the
      second half of the call number `attempt`.  Each of them ends in any of the ways in
      which faults let it end. */
  datatype Call =
    | Insert(view: nat, candidate: Row, ending: Ending)
    | Reread(attempt: nat, ending: Ending)

  /** `Broken` is a persistence error. */
  datatype Response = Response(candidate: Row, answer: Answer) | Broken | Nothing

  datatype Run = Run(history: seq<Table>, log: seq<Response>)

  /** What a call does when no fault meets it. */
  function Complete(store: Store, run: Run, call: Call): (Table, Response)
    requires run.history != []
  {
    var table := run.history[|run.history| - 1];
    match call
    case Insert(view, candidate, _) =>
      var seen := if view < |run.history| then run.history[view] else table;
      var (after, answer) := TryPersist(store, seen, table, candidate);
      (after, Response(candidate, answer))
    case Reread(n, _) =>
      if n < |run.log| && run.log[n].Response? && run.log[n].answer.Raced? then
        (table, Response(run.log[n].candidate, Resolve(store, table, run.log[n].candidate)))
      else (table, Nothing)
  }

  function Serve(store: Store, run: Run, call: Call): (Table, Response)
    requires run.history != []
  {
    Ended(call.ending, run.history[|run.history| - 1], Complete(store, run, call), Broken)
  }

  function Before(run: Run, i: nat): Run
    requires i < |run.history| && i <= |run.log|
  {
    Run(run.history[..i + 1], run.log[..i])
  }

  ghost predicate Served(store: Store, calls: seq<Call>, run: Run, i: nat)
    requires i < |calls| == |run.log| && |run.history| == |calls| + 1
  {
    (run.history[i + 1], run.log[i]) == Serve(store, Before(run, i), calls[i])
  }

  /** What these calls do to an empty table. */
  ghost predicate Behaves(store: Store, calls: seq<Call>, run: Run) {
    && |run.log| == |calls| && |run.history| == |calls| + 1
    && run.history[0] == []
    && forall i :: 0 <= i < |calls| ==> Served(store, calls, run, i)
  }

  lemma {:induction false} RunExists(store: Store, calls: seq<Call>) returns (run: Run)
    ensures Behaves(store, calls, run)
  {
    if calls == [] {
      run := Run([[]], []);
    } else {
      var n := |calls| - 1;
      var before := RunExists(store, calls[..n]);
      var (after, response) := Serve(store, before, calls[n]);
      run := Run(before.history + [after], before.log + [response]);
      forall i | 0 <= i < |calls|
        ensures Served(store, calls, run, i)
      {
        assert Before(run, n) == before;
        if i < n {
          assert Served(store, calls[..n], before, i);
          assert Before(run, i) == Before(before, i);
        }
      }
    }
  }

  // ---------------------------------------------------------------------------
  // Agreement
  // ---------------------------------------------------------------------------

  ghost predicate Distinct(table: Table) {
    forall i, j :: 0 <= i < j < |table| ==> !Clashes(table[i], table[j])
  }

  lemma {:induction false} LookupFinds(table: Table, key: nat)
    ensures Lookup(table, key).Some? ==> Lookup(table, key).value in table && Lookup(table, key).value.key == key
    ensures Lookup(table, key).None? <==> forall r :: r in table ==> r.key != key
  {
    if table != [] {
      LookupFinds(table[..|table| - 1], key);
      assert forall r :: r in table <==> r in table[..|table| - 1] || r == table[|table| - 1];
    }
  }

  lemma OneRowPerKey(table: Table, a: Row, b: Row)
    requires Distinct(table) && a in table && b in table && Clashes(a, b)
    ensures a == b
  {
  }

  lemma StepKeeps(store: Store, run: Run, call: Call)
    requires run.history != [] && Distinct(run.history[|run.history| - 1])
    ensures Distinct(Serve(store, run, call).0)
    ensures run.history[|run.history| - 1] <= Serve(store, run, call).0
  {
  }

  /** The table only grows, and no two rows ever share a unique key. */
  lemma {:induction false} TablesGrow(store: Store, calls: seq<Call>, run: Run, i: nat, j: nat)
    requires Behaves(store, calls, run) && i <= j <= |calls|
    ensures run.history[i] <= run.history[j] && Distinct(run.history[j])
    decreases j
  {
    if j > 0 {
      assert Served(store, calls, run, j - 1);
      TablesGrow(store, calls, run, if i < j then i else j - 1, j - 1);
      StepKeeps(store, Before(run, j - 1), calls[j - 1]);
    }
  }

  /** The row of a key never changes once it exists. */
  lemma RowNeverChanges(store: Store, calls: seq<Call>, run: Run, i: nat, j: nat, key: nat)
    requires Behaves(store, calls, run) && i <= j <= |calls|
    requires Lookup(run.history[i], key).Some?
    ensures Lookup(run.history[j], key) == Lookup(run.history[i], key)
  {
    TablesGrow(store, calls, run, i, j);
    LookupFinds(run.history[i], key);
    LookupFinds(run.history[j], key);
    var row := Lookup(run.history[i], key).value;
    assert row in run.history[j];
    OneRowPerKey(run.history[j], row, Lookup(run.history[j], key).value);
  }

  predicate Succeeded(response: Response) {
    response.Response? && (response.answer.Created? || response.answer.Existing?)
  }

  /** The table a call's verdict was read from, or in which it left its row. */
  lemma Witness(store: Store, calls: seq<Call>, run: Run, i: nat) returns (v: nat)
    requires Behaves(store, calls, run) && i < |calls| && run.log[i].Response?
    requires !run.log[i].answer.Raced? && !run.log[i].answer.Unresolved?
    ensures v <= i + 1
    ensures var c, found := run.log[i].candidate, Lookup(run.history[v], run.log[i].candidate.key);
            && found.Some?
            && (!run.log[i].answer.Created? ==> run.log[i].answer == Same(store, found.value, c))
            && (run.log[i].answer.Created? ==> run.log[i].answer.row == found.value == c && v == i + 1)
  {
    assert Served(store, calls, run, i);
    if run.log[i].answer.Created? {
      v := i + 1;
    } else if calls[i].Insert? && calls[i].view <= i {
      v := calls[i].view;
    } else {
      v := i;
    }
  }

  /** Agreement: every success returns the one row its key will ever have, with a digest
      equal to the caller's own where digests are compared; and a conflict is raised exactly
      when the digests differ. */
  lemma CallersAgree(store: Store, calls: seq<Call>, run: Run, i: nat)
    requires Behaves(store, calls, run) && i < |calls| && run.log[i].Response?
    requires !run.log[i].answer.Raced? && !run.log[i].answer.Unresolved?
    ensures var c, found := run.log[i].candidate, Lookup(run.history[|calls|], run.log[i].candidate.key);
            && found.Some?
            && (Succeeded(run.log[i]) ==> run.log[i].answer.row == found.value)
            && (run.log[i].answer.Conflict? <==> store.compares && found.value.digest != c.digest)
            && (run.log[i].answer.Created? ==> found.value == c)
  {
    var v := Witness(store, calls, run, i);
    RowNeverChanges(store, calls, run, v, |calls|, run.log[i].candidate.key);
  }

  /** Over any run, with the digests spelled out: bars, outcomes and observation runs never hand
      back a row with another digest, and raise a conflict exactly for one; pipeline runs hand
      back the row of their key whatever its digest. */
  lemma DigestsDecide(store: Store, calls: seq<Call>, run: Run, i: nat)
    requires Behaves(store, calls, run) && i < |calls| && run.log[i].Response?
    requires !run.log[i].answer.Raced? && !run.log[i].answer.Unresolved?
    ensures var c, found := run.log[i].candidate, Lookup(run.history[|calls|], run.log[i].candidate.key);
            && found.Some? && found.value.key == c.key
            && (store in {BARS, OUTCOMES, OBSERVATION_RUNS} ==>
                  (run.log[i].answer == Conflict <==> found.value.digest != c.digest))
            && (store in {BARS, OUTCOMES, OBSERVATION_RUNS} && run.log[i].answer != Conflict ==>
                  run.log[i].answer in {Created(found.value), Existing(found.value)})
            && (store == PIPELINE_RUNS ==> run.log[i].answer in {Created(found.value), Existing(found.value)})
  {
    CallersAgree(store, calls, run, i);
    LookupFinds(run.history[|calls|], run.log[i].candidate.key);
  }

  predicate CreatedKey(response: Response, key: nat) {
    response.Response? && response.answer.Created? && response.candidate.key == key
  }

  /** Call number i inserted the row of this key, whether or not it lived to report it. */
  ghost predicate InsertedBy(store: Store, calls: seq<Call>, run: Run, i: nat, key: nat)
    requires i < |calls| == |run.log| && |run.history| == |calls| + 1
  {
    !calls[i].ending.Unwritten? && CreatedKey(Complete(store, Before(run, i), calls[i]).1, key)
  }

  /** Being told CREATED means having inserted the row and having ended well. */
  lemma ToldCreated(store: Store, calls: seq<Call>, run: Run, i: nat, key: nat)
    requires Behaves(store, calls, run) && i < |calls|
    ensures CreatedKey(run.log[i], key) <==> InsertedBy(store, calls, run, i, key) && calls[i].ending.Reported?
  {
    assert Served(store, calls, run, i);
  }

  /** The row such a call inserted, where its key had none. */
  lemma InsertsRow(store: Store, calls: seq<Call>, run: Run, i: nat, key: nat)
    requires Behaves(store, calls, run) && i < |calls| && InsertedBy(store, calls, run, i, key)
    ensures calls[i].Insert? && calls[i].candidate.key == key
    ensures Lookup(run.history[i], key).None? && Lookup(run.history[i + 1], key) == Some(calls[i].candidate)
  {
    assert Served(store, calls, run, i);
    LookupFinds(run.history[i], key);
  }

  lemma AtMostOneCreator(store: Store, calls: seq<Call>, run: Run, i: nat, j: nat, key: nat)
    requires Behaves(store, calls, run) && i < j < |calls| && InsertedBy(store, calls, run, i, key)
    ensures !InsertedBy(store, calls, run, j, key)
  {
    InsertsRow(store, calls, run, i, key);
    RowNeverChanges(store, calls, run, i + 1, j, key);
    if InsertedBy(store, calls, run, j, key) {
      InsertsRow(store, calls, run, j, key);
    }
  }

  /** Exactly one call inserted the row of a key that has one, and the row is its candidate; it
      was told CREATED exactly when it ended well, and nobody else was. */
  lemma {:induction false} ExactlyOneCreator(store: Store, calls: seq<Call>, run: Run, i: nat, key: nat)
    returns (n: nat)
    requires Behaves(store, calls, run) && i <= |calls| && Lookup(run.history[i], key).Some?
    ensures n < i && InsertedBy(store, calls, run, n, key)
    ensures calls[n].Insert? && calls[n].candidate == Lookup(run.history[i], key).value
    ensures forall m :: 0 <= m < |calls| && InsertedBy(store, calls, run, m, key) ==> m == n
    ensures forall m :: 0 <= m < |calls| ==>
                          (CreatedKey(run.log[m], key) <==> m == n && calls[n].ending.Reported?)
  {
    n := SomeCreator(store, calls, run, i, key);
    InsertsRow(store, calls, run, n, key);
    hide InsertedBy;
    forall m | 0 <= m < |calls|
      ensures InsertedBy(store, calls, run, m, key) ==> m == n
      ensures CreatedKey(run.log[m], key) <==> m == n && calls[n].ending.Reported?
    {
      ToldCreated(store, calls, run, m, key);
      if m < n && InsertedBy(store, calls, run, m, key) {
        AtMostOneCreator(store, calls, run, m, n, key);
      } else if n < m {
        AtMostOneCreator(store, calls, run, n, m, key);
      }
    }
  }

  lemma {:induction false} SomeCreator(store: Store, calls: seq<Call>, run: Run, i: nat, key: nat)
    returns (n: nat)
    requires Behaves(store, calls, run) && i <= |calls| && Lookup(run.history[i], key).Some?
    ensures n < i && InsertedBy(store, calls, run, n, key)
    ensures calls[n].Insert? && calls[n].candidate == Lookup(run.history[i], key).value
  {
    assert i > 0;
    if Lookup(run.history[i - 1], key).Some? {
      n := SomeCreator(store, calls, run, i - 1, key);
      RowNeverChanges(store, calls, run, i - 1, i, key);
    } else {
      n := i - 1;
      assert Served(store, calls, run, n);
    }
  }

  // ---------------------------------------------------------------------------
  // Races
  // ---------------------------------------------------------------------------

  /** A raced insert met a row of the table it inserted into. */
  lemma RacedMeansClash(store: Store, calls: seq<Call>, run: Run, i: nat) returns (r: Row)
    requires Behaves(store, calls, run) && i < |calls|
    requires run.log[i].Response? && run.log[i].answer.Raced?
    ensures r in run.history[i] && Clashes(r, run.log[i].candidate)
    ensures run.history[i + 1] == run.history[i]
  {
    assert Served(store, calls, run, i);
    r :| r in run.history[i] && Clashes(r, run.log[i].candidate);
  }

  /** The race-resolution error, exactly: the re-read finds no row with the key.  Then the
      insert hit the identifier or the second key of a row with another key, because a row
      with the same key would still be there. */
  lemma UnresolvedIff(store: Store, calls: seq<Call>, run: Run, i: nat, j: nat)
    requires Behaves(store, calls, run) && i < j < |calls|
    requires run.log[i].Response? && run.log[i].answer.Raced? && calls[j] == Reread(i, Reported)
    ensures run.log[j].Response? && run.log[j].candidate == run.log[i].candidate
    ensures run.log[j].answer.Unresolved? <==> Lookup(run.history[j], run.log[i].candidate.key).None?
    ensures run.log[j].answer.Unresolved? ==>
              exists r :: r in run.history[i] && r.key != run.log[i].candidate.key
                          && (r.id == run.log[i].candidate.id
                              || (r.second.Some? && r.second == run.log[i].candidate.second))
  {
    assert Served(store, calls, run, j);
    assert Before(run, j).log[i] == run.log[i];
    var c := run.log[i].candidate;
    var r := RacedMeansClash(store, calls, run, i);
    if r.key == c.key {
      LookupFinds(run.history[i], c.key);
      RowNeverChanges(store, calls, run, i, j, c.key);
    }
  }

  /** It can happen: two bars with different keys that claim the same session revision. */
  lemma RaceMayStayUnresolved()
    ensures var first, second := Row(1, 7, Some(5), 100), Row(2, 8, Some(5), 200);
            && TryPersist(BARS, [], [first], second) == ([first], Raced)
            && Resolve(BARS, [first], second) == Unresolved
            && Resolve(BARS, [first, Row(3, 8, None, 200)], second) == Existing(Row(3, 8, None, 200))
  {
    var first, second := Row(1, 7, Some(5), 100), Row(2, 8, Some(5), 200);
    assert first in [first] && Clashes(first, second);
    assert Lookup([first], 8) == Lookup([first][..0], 8);
  }

  /** A race on the key alone always ends with a row or a digest conflict. */
  lemma PureKeyRaceResolves(store: Store, calls: seq<Call>, run: Run, i: nat, j: nat)
    requires Behaves(store, calls, run) && i < j < |calls|
    requires run.log[i].Response? && run.log[i].answer.Raced? && calls[j] == Reread(i, Reported)
    requires var c := run.log[i].candidate;
             forall r :: r in run.history[i] && Clashes(r, c) ==> r.key == c.key
    ensures var c, found := run.log[i].candidate, Lookup(run.history[j], run.log[i].candidate.key);
            && found.Some?
            && run.log[j].Response?
            && run.log[j].answer == if store.compares && found.value.digest != c.digest then Conflict
                                    else Existing(found.value)
  {
    UnresolvedIff(store, calls, run, i, j);
    assert Served(store, calls, run, j);
    assert Before(run, j).log[i] == run.log[i];
  }

  /** Winner takes all: a store that does not compare digests can hand back, without any
      error, a row whose content differs from what the caller tried to store. */
  lemma WinnerMayDiffer()
    ensures var winner, loser := Row(1, 7, None, 100), Row(2, 7, None, 200);
            && TryPersist(PIPELINE_RUNS, [], [winner], loser) == ([winner], Raced)
            && Resolve(PIPELINE_RUNS, [winner], loser) == Existing(winner)
            && Resolve(OBSERVATION_RUNS, [winner], loser) == Conflict
  {
    var winner, loser := Row(1, 7, None, 100), Row(2, 7, None, 200);
    assert winner in [winner] && Clashes(winner, loser);
  }
}
