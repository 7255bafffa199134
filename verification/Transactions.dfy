/** The `with` block around a unit of work, with every infrastructure fault it can meet. */
module Transactions {
  import opened Outcomes
  import opened UnitsOfWork

  /** The faults of one transaction.  `write` is the first write at which the driver fails;
      later ones are refused anyway. */
  datatype Faults = Faults(
    connect: bool, begin: bool, read: bool, write: Option<nat>, commit: bool, rollback: bool, close: bool)

  const NO_FAULTS: Faults := Faults(false, false, false, None, false, false, false)

  /** Inside the block, with nothing gone wrong yet. */
  ghost predicate Ready<T, E>(u: UnitOfWork<T, E>)
    reads u
  {
    u.phase == Active && u.bound && u.connected && !u.rollbackOnly
  }

  /** Inside the block, whatever happened in it. */
  ghost predicate Inside<T, E>(u: UnitOfWork<T, E>)
    reads u
  {
    u.phase == Active && u.bound && u.connected
  }

  /** Entering the block. */
  method Begin<T, E>(database: Database<T>, faults: Faults) returns (u: UnitOfWork<T, E>, ok: bool)
    ensures fresh(u) && u.database == database
    ensures ok <==> !faults.connect && !faults.begin
    ensures ok ==> Ready(u) && u.staged == database.contents
  {
    u := new UnitOfWork<T, E>(database);
    var entered := u.Enter(faults.connect, faults.begin);
    ok := entered.Returned?;
  }

  /** Reading inside the block; a read that fails spoils the transaction. */
  method Read<T, E>(u: UnitOfWork<T, E>, faults: Faults) returns (ok: bool)
    requires Ready(u)
    modifies u
    ensures Inside(u) && u.staged == old(u.staged)
    ensures ok <==> !faults.read
    ensures ok ==> Ready(u)
  {
    var done := u.Operate(contents => Ok(contents), faults.read);
    ok := done.Returned?;
  }

  /** Committing and leaving.  A close that fails after the commit raises all the same. */
  method Finish<T, E>(u: UnitOfWork<T, E>, faults: Faults) returns (ok: bool)
    requires Ready(u)
    modifies u, u.database
    ensures u.database.contents == if faults.commit then old(u.database.contents) else old(u.staged)
    ensures ok <==> !faults.commit && !faults.close
  {
    var done := u.Commit(faults.commit, faults.rollback);
    var left := u.Exit(faults.rollback, faults.close, !done.Returned?);
    ok := done.Returned? && left.Returned?;
  }

  /** Leaving by an exception, after an explicit rollback if there is one.  Only the explicit
      rollback can replace that exception by its own. */
  method Abandon<T, E>(u: UnitOfWork<T, E>, explicit: bool, faults: Faults) returns (ok: bool)
    requires Inside(u)
    modifies u
    ensures ok <==> !(explicit && faults.rollback)
  {
    ok := true;
    if explicit {
      var undone := u.Rollback(faults.rollback);
      ok := undone.Returned?;
    }
    var left := u.Exit(faults.rollback, faults.close, true);
  }

  /** Leaving normally with nothing to keep, after an explicit rollback if there is one. */
  method Leave<T, E>(u: UnitOfWork<T, E>, explicit: bool, faults: Faults) returns (ok: bool)
    requires Inside(u)
    modifies u
    ensures ok <==> !faults.rollback && !faults.close
  {
    ok := true;
    if explicit {
      var undone := u.Rollback(faults.rollback);
      ok := undone.Returned?;
    }
    var left := u.Exit(faults.rollback, faults.close, !ok);
    ok := ok && left.Returned?;
  }

  // ---------------------------------------------------------------------------
  // How a call ends
  // ---------------------------------------------------------------------------

  /** To its caller and to the database a call ends in one of three ways: it answers; it fails
      and nothing of it is kept; or it fails after its commit, so that all of it is kept. */
  datatype Ending = Reported | Unwritten | Unreported

  /** How the faults end a call that has this many writes and would commit. */
  function EndingOf(faults: Faults, writes: nat): Ending {
    if faults.connect || faults.begin || faults.read || faults.commit
       || (faults.write.Some? && faults.write.value < writes)
    then Unwritten
    else if faults.close then Unreported
    else Reported
  }

  /** The database and the answer after a call that ends like this; `complete` is what the
      call does without faults, and `failure` its persistence error. */
  function Ended<T, R>(ending: Ending, before: T, complete: (T, R), failure: R): (T, R) {
    match ending
    case Reported => complete
    case Unwritten => (before, failure)
    case Unreported => (complete.0, failure)
  }

  /** A call under faults.  One that would succeed ends as its faults say; one that would not
      changes nothing, and answers as it would or with a persistence error. */
  ghost predicate EndsRight<T, R>(
    before: T, after: T, answer: R, complete: (T, R), succeeds: bool, failure: R, writes: nat, faults: Faults)
  {
    && (succeeds ==> (after, answer) == Ended(EndingOf(faults, writes), before, complete, failure))
    && (!succeeds ==> after == before && (answer == complete.1 || answer == failure))
    && (faults == NO_FAULTS ==> (after, answer) == complete)
  }

  /** So every call under faults ends in one of the three ways. */
  lemma EndsSomehow<T, R>(
    before: T, after: T, answer: R, complete: (T, R), succeeds: bool, failure: R, writes: nat, faults: Faults)
    returns (ending: Ending)
    requires EndsRight(before, after, answer, complete, succeeds, failure, writes, faults)
    requires !succeeds ==> complete.0 == before
    ensures (after, answer) == Ended(ending, before, complete, failure)
    ensures ending == Unreported ==> faults.close && !faults.commit
  {
    ending := if succeeds then EndingOf(faults, writes) else if answer == complete.1 then Reported else Unwritten;
  }
}
