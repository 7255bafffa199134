/** The explicit transaction boundary: one database, one single-use unit of work.

    `Step` says what one call does to the observable state, including what every
    database failure does.  The class is the object the services use; each of its
    methods is proved to take exactly the step the function describes, and the
    lemmas below reason about arbitrary call sequences of such steps. */
module UnitsOfWork {
  import opened Outcomes

  datatype Phase = New | Active | Committed | RolledBack | Finished

  /** What one call reports: it returned, it was refused by the state check, the
      repository rejected the write, or the driver failed. */
  datatype Report<+E> = Returned | Refused | Rejected(error: E) | Unavailable

  /** The observable state.  `staged` is what the open transaction would commit;
      `acquired` and `released` count connections taken from and given back to the engine. */
  datatype State<T> = State(
    phase: Phase, rollbackOnly: bool, bound: bool, connected: bool,
    staged: T, committed: T, acquired: nat, released: nat)

  /** A call together with the database failures it meets. */
  datatype Call<!T, +E> =
    | Enter(connectFails: bool, beginFails: bool)
    | Operate(op: T -> Result<T, E>, driverFails: bool)
    | Commit(commitFails: bool, rollbackFails: bool)
    | Rollback(rollbackFails: bool)
    | Exit(rollbackFails: bool, closeFails: bool, bodyRaised: bool)

  function Fresh<T>(contents: T): State<T> {
    State(New, false, false, false, contents, contents, 0, 0)
  }

  /** Ending the open transaction without keeping its writes. */
  function Undo<T>(s: State<T>, fails: bool): State<T> {
    s.(phase := if fails then Finished else RolledBack, staged := s.committed)
  }

  function Step<T, E>(s: State<T>, call: Call<T, E>): (State<T>, Report<E>) {
    match call
    case Enter(connectFails, beginFails) =>
      if s.phase != New then (s, Refused)
      else if connectFails then (s.(phase := Finished), Unavailable)
      else if beginFails then
        (s.(phase := Finished, acquired := s.acquired + 1, released := s.released + 1), Unavailable)
      else
        (s.(phase := Active, bound := true, connected := true, staged := s.committed,
         acquired := s.acquired + 1), Returned)
    case Operate(op, driverFails) =>
      if s.phase != Active || s.rollbackOnly then (s, Refused)
      else if driverFails then (s.(rollbackOnly := true), Unavailable)
      else
        (match op(s.staged)
         case Ok(next) => (s.(staged := next), Returned)
         case Err(e) => (s.(rollbackOnly := true), Rejected(e)))
    case Commit(commitFails, rollbackFails) =>
      if s.phase != Active || !s.bound then (s, Refused)
      else if s.rollbackOnly then
        (Undo(s, rollbackFails), if rollbackFails then Unavailable else Refused)
      else if commitFails then (s.(phase := Finished, staged := s.committed), Unavailable)
      else (s.(phase := Committed, committed := s.staged), Returned)
    case Rollback(rollbackFails) =>
      if s.phase != Active || !s.bound then (s, Refused)
      else (Undo(s, rollbackFails), if rollbackFails then Unavailable else Returned)
    case Exit(rollbackFails, closeFails, bodyRaised) =>
      var rolled := if s.phase == Active && s.bound then Undo(s, rollbackFails) else s;
      var closed := rolled.(connected := false,
        released := if s.connected then s.released + 1 else s.released);
      var ended := if closed.phase in {Committed, RolledBack} then closed
                   else closed.(phase := Finished);
      var failed := (s.phase == Active && s.bound && rollbackFails) || (s.connected && closeFails);
      (ended, if failed && !bodyRaised then Unavailable else Returned)
  }

  class Database<T> {
    var contents: T

    constructor (initial: T)
      ensures contents == initial
    {
      contents := initial;
    }
  }

  class UnitOfWork<T, E> {
    const database: Database<T>
    var phase: Phase
    var rollbackOnly: bool
    var bound: bool
    var connected: bool
    var staged: T
    ghost var acquired: nat
    ghost var released: nat

    ghost function View(): State<T>
      reads this, database
    {
      State(phase, rollbackOnly, bound, connected, staged, database.contents, acquired, released)
    }

    constructor (database: Database<T>)
      ensures this.database == database
      ensures View() == Fresh(database.contents)
    {
      this.database := database;
      phase, rollbackOnly, bound, connected := New, false, false, false;
      staged := database.contents;
      acquired, released := 0, 0;
    }

    method Enter(connectFails: bool, beginFails: bool) returns (report: Report<E>)
      modifies this
      ensures (View(), report) == Step<T, E>(old(View()), Call.Enter(connectFails, beginFails))
    {
      if phase != New {
        return Refused;
      }
      if connectFails {
        phase := Finished;
        return Unavailable;
      }
      acquired := acquired + 1;
      if beginFails {
        released := released + 1;
        phase := Finished;
        return Unavailable;
      }
      connected, bound := true, true;
      staged := database.contents;
      phase := Active;
      return Returned;
    }

    method Operate(op: T -> Result<T, E>, driverFails: bool) returns (report: Report<E>)
      modifies this
      ensures (View(), report) == Step<T, E>(old(View()), Call.Operate(op, driverFails))
    {
      if phase != Active || rollbackOnly {
        return Refused;
      }
      if driverFails {
        rollbackOnly := true;
        return Unavailable;
      }
      match op(staged) {
        case Ok(next) =>
          staged := next;
          report := Returned;
        case Err(e) =>
          rollbackOnly := true;
          report := Rejected(e);
      }
    }

    method Commit(commitFails: bool, rollbackFails: bool) returns (report: Report<E>)
      modifies this, database
      ensures (View(), report) == Step<T, E>(old(View()), Call.Commit(commitFails, rollbackFails))
    {
      if phase != Active || !bound {
        return Refused;
      }
      if rollbackOnly {
        EndTransaction(rollbackFails);
        return if rollbackFails then Unavailable else Refused;
      }
      if commitFails {
        staged := database.contents;
        phase := Finished;
        return Unavailable;
      }
      database.contents := staged;
      phase := Committed;
      return Returned;
    }

    method Rollback(rollbackFails: bool) returns (report: Report<E>)
      modifies this
      ensures (View(), report) == Step<T, E>(old(View()), Call.Rollback(rollbackFails))
    {
      if phase != Active || !bound {
        return Refused;
      }
      EndTransaction(rollbackFails);
      return if rollbackFails then Unavailable else Returned;
    }

    method Exit(rollbackFails: bool, closeFails: bool, bodyRaised: bool) returns (report: Report<E>)
      modifies this
      ensures (View(), report) == Step<T, E>(old(View()), Call.Exit(rollbackFails, closeFails, bodyRaised))
    {
      var failed := false;
      if phase == Active && bound {
        EndTransaction(rollbackFails);
        failed := rollbackFails;
      }
      if connected {
        connected := false;
        released := released + 1;
        failed := failed || closeFails;
      }
      if phase !in {Committed, RolledBack} {
        phase := Finished;
      }
      return if failed && !bodyRaised then Unavailable else Returned;
    }

    method EndTransaction(fails: bool)
      modifies this
      ensures View() == Undo(old(View()), fails)
    {
      staged := database.contents;
      phase := if fails then Finished else RolledBack;
    }
  }

  // ---------------------------------------------------------------------------
  // Whole call sequences
  // ---------------------------------------------------------------------------

  /** The state after any sequence of calls on a fresh unit of work. */
  function After<T, E>(initial: T, calls: seq<Call<T, E>>): State<T> {
    if calls == [] then Fresh(initial)
    else Step(After(initial, calls[..|calls| - 1]), calls[|calls| - 1]).0
  }

  /** What the i-th call of the sequence reported. */
  function ReportOf<T, E>(initial: T, calls: seq<Call<T, E>>, i: nat): Report<E>
    requires i < |calls|
  {
    Step(After(initial, calls[..i]), calls[i]).1
  }

  /** The writes a caller was told had been accepted, applied in order to the initial contents. */
  function Accepted<T, E>(initial: T, calls: seq<Call<T, E>>): T {
    if calls == [] then initial
    else
      var before := Accepted(initial, calls[..|calls| - 1]);
      var last := calls[|calls| - 1];
      if last.Operate? && ReportOf(initial, calls, |calls| - 1) == Returned && last.op(before).Ok?
      then last.op(before).value
      else before
  }

  /** The i-th call was a commit that returned normally. */
  ghost predicate Commits<T, E>(initial: T, calls: seq<Call<T, E>>, i: nat)
    requires i < |calls|
  {
    calls[i].Commit? && ReportOf(initial, calls, i) == Returned
  }

  /** The i-th call was a repository operation that reached the database and did not succeed. */
  ghost predicate Breaks<T, E>(initial: T, calls: seq<Call<T, E>>, i: nat)
    requires i < |calls|
  {
    calls[i].Operate? &&
    (ReportOf(initial, calls, i).Rejected? || ReportOf(initial, calls, i).Unavailable?)
  }

  ghost predicate Kept<T, E>(initial: T, calls: seq<Call<T, E>>) {
    exists i :: 0 <= i < |calls| && Commits(initial, calls, i)
  }

  ghost predicate Spoiled<T, E>(initial: T, calls: seq<Call<T, E>>) {
    exists i :: 0 <= i < |calls| && Breaks(initial, calls, i)
  }

  lemma PrefixReport<T, E>(initial: T, calls: seq<Call<T, E>>, n: nat, i: nat)
    requires i < n <= |calls|
    ensures ReportOf(initial, calls[..n], i) == ReportOf(initial, calls, i)
    ensures Commits(initial, calls[..n], i) == Commits(initial, calls, i)
    ensures Breaks(initial, calls[..n], i) == Breaks(initial, calls, i)
  {
    assert calls[..n][..i] == calls[..i];
  }

  lemma LastDecidesKept<T, E>(initial: T, calls: seq<Call<T, E>>)
    requires calls != []
    ensures Kept(initial, calls) <==>
            Kept(initial, calls[..|calls| - 1]) || Commits(initial, calls, |calls| - 1)
  {
    var n := |calls| - 1;
    forall i | 0 <= i < n
      ensures Commits(initial, calls[..n], i) == Commits(initial, calls, i)
    {
      PrefixReport(initial, calls, n, i);
    }
    if i :| 0 <= i < n && Commits(initial, calls[..n], i) {
      assert Commits(initial, calls, i);
    }
  }

  lemma LastDecidesSpoiled<T, E>(initial: T, calls: seq<Call<T, E>>)
    requires calls != []
    ensures Spoiled(initial, calls) <==>
            Spoiled(initial, calls[..|calls| - 1]) || Breaks(initial, calls, |calls| - 1)
  {
    var n := |calls| - 1;
    forall i | 0 <= i < n
      ensures Breaks(initial, calls[..n], i) == Breaks(initial, calls, i)
    {
      PrefixReport(initial, calls, n, i);
    }
    if i :| 0 <= i < n && Breaks(initial, calls[..n], i) {
      assert Breaks(initial, calls, i);
    }
  }

  /** What a state says, given which writes were accepted, whether a commit returned and
      whether an operation failed. */
  ghost predicate Describes<T>(s: State<T>, initial: T, accepted: T, kept: bool, spoiled: bool) {
    && (s.phase == New ==> accepted == initial && !s.connected && !s.bound)
    && (s.phase == Active ==> s.bound && s.connected && (!s.rollbackOnly ==> s.staged == accepted))
    && (s.rollbackOnly <==> spoiled)
    && (s.phase == Committed <==> kept)
    && (s.phase == Committed ==> !s.rollbackOnly)
    && s.committed == (if kept then accepted else initial)
    && s.acquired == s.released + (if s.connected then 1 else 0)
  }

  lemma StepDescribes<T, E>(
    s: State<T>, call: Call<T, E>, initial: T, accepted: T, kept: bool, spoiled: bool)
    requires Describes(s, initial, accepted, kept, spoiled)
    ensures var (after, report) := Step(s, call);
            Describes(after, initial,
                      if call.Operate? && report == Returned && call.op(accepted).Ok?
                      then call.op(accepted).value else accepted,
                      kept || (call.Commit? && report == Returned),
                      spoiled || (call.Operate? && (report.Rejected? || report.Unavailable?)))
  {
  }

  /** All that a state can tell about the calls that led to it. */
  ghost predicate Explains<T, E>(initial: T, calls: seq<Call<T, E>>) {
    Describes(After(initial, calls), initial, Accepted(initial, calls), Kept(initial, calls),
              Spoiled(initial, calls))
  }

  lemma {:induction false} StatesExplainCalls<T, E>(initial: T, calls: seq<Call<T, E>>)
    ensures Explains(initial, calls)
  {
    hide Step, Describes;
    if calls != [] {
      var front, last := calls[..|calls| - 1], calls[|calls| - 1];
      StatesExplainCalls(initial, front);
      LastDecidesKept(initial, calls);
      LastDecidesSpoiled(initial, calls);
      StepDescribes(After(initial, front), last, initial, Accepted(initial, front), Kept(initial, front),
                    Spoiled(initial, front));
    } else {
      StartDescribed(initial);
    }
  }

  lemma StartDescribed<T>(initial: T)
    ensures Describes(Fresh(initial), initial, initial, false, false)
  {
  }

  /** Atomicity.  After any calls and any failures the database holds either what it
      held before or every write the caller was told was accepted, and it holds the
      latter exactly when some commit returned normally. */
  lemma {:induction false} AllOrNothing<T, E>(initial: T, calls: seq<Call<T, E>>)
    ensures Kept(initial, calls) ==> After(initial, calls).committed == Accepted(initial, calls)
    ensures !Kept(initial, calls) ==> After(initial, calls).committed == initial
  {
    StatesExplainCalls(initial, calls);
  }

  /** One repository operation that failed rules out every later commit. */
  lemma {:induction false} FailureForbidsCommit<T, E>(initial: T, calls: seq<Call<T, E>>)
    requires Spoiled(initial, calls)
    ensures !Kept(initial, calls)
  {
    StatesExplainCalls(initial, calls);
  }

  /** Nothing can be written once a commit returned: later operations and commits are
      refused, so at most one commit of an instance ever returns normally. */
  lemma {:induction false} CommitIsFinal<T, E>(initial: T, calls: seq<Call<T, E>>, i: nat, j: nat)
    requires i < j < |calls|
    requires Commits(initial, calls, i)
    ensures calls[j].Commit? || calls[j].Operate? || calls[j].Enter? ==>
              ReportOf(initial, calls, j) == Refused
  {
    var before := calls[..j];
    PrefixReport(initial, calls, j, i);
    assert Commits(initial, before, i);
    StatesExplainCalls(initial, before);
  }

  /** An instance is entered at most once, whatever happened to the first attempt. */
  lemma {:induction false} EnteredAtMostOnce<T, E>(initial: T, calls: seq<Call<T, E>>, i: nat, j: nat)
    requires i < j < |calls| && calls[i].Enter? && calls[j].Enter?
    ensures ReportOf(initial, calls, j) == Refused
  {
    LeavesNew(initial, calls, i, j);
  }

  lemma {:induction false} LeavesNew<T, E>(initial: T, calls: seq<Call<T, E>>, i: nat, j: nat)
    requires i < j <= |calls| && calls[i].Enter?
    ensures After(initial, calls[..j]).phase != New
  {
    assert calls[..j][..j - 1] == calls[..j - 1];
    if i < j - 1 {
      LeavesNew(initial, calls, i, j - 1);
    }
  }

  /** Leaving the block always gives the connection back, even when the rollback or
      the close itself fails, and leaves the instance unusable. */
  lemma {:induction false} ExitReleases<T, E>(initial: T, calls: seq<Call<T, E>>)
    requires calls != [] && calls[|calls| - 1].Exit?
    ensures var s := After(initial, calls);
            !s.connected && s.acquired == s.released && s.phase != New && s.phase != Active
  {
    StatesExplainCalls(initial, calls);
    StatesExplainCalls(initial, calls[..|calls| - 1]);
  }

  /** Nothing but leaving again works once the block was left. */
  lemma {:induction false} NothingAfterExit<T, E>(initial: T, calls: seq<Call<T, E>>, i: nat, j: nat)
    requires i < j < |calls| && calls[i].Exit? && !calls[j].Exit?
    ensures ReportOf(initial, calls, j) == Refused
  {
    ClosedAfterExit(initial, calls, i, j);
  }

  lemma {:induction false} ClosedAfterExit<T, E>(initial: T, calls: seq<Call<T, E>>, i: nat, j: nat)
    requires i < j <= |calls| && calls[i].Exit?
    ensures var s := After(initial, calls[..j]); s.phase != New && s.phase != Active
  {
    assert calls[..j][..j - 1] == calls[..j - 1];
    if i < j - 1 {
      ClosedAfterExit(initial, calls, i, j - 1);
    } else {
      StatesExplainCalls(initial, calls[..i]);
    }
  }

  /** Entering at index e returned, and since then nothing failed, ended or left the
      transaction. */
  ghost predicate OpenSince<T, E>(initial: T, calls: seq<Call<T, E>>, e: nat) {
    && e < |calls| && calls[e].Enter? && ReportOf(initial, calls, e) == Returned
    && forall k :: e < k < |calls| ==> calls[k].Enter? || (calls[k].Operate? && !Breaks(initial, calls, k))
  }

  lemma OpenSincePrefix<T, E>(initial: T, calls: seq<Call<T, E>>, e: nat)
    requires e < |calls| - 1
    ensures var n := |calls| - 1;
            OpenSince(initial, calls, e) <==>
            OpenSince(initial, calls[..n], e)
            && (calls[n].Enter? || (calls[n].Operate? && !Breaks(initial, calls, n)))
  {
    hide ReportOf, Breaks;
    var n := |calls| - 1;
    forall k | 0 <= k < n
      ensures ReportOf(initial, calls[..n], k) == ReportOf(initial, calls, k)
      ensures Breaks(initial, calls[..n], k) == Breaks(initial, calls, k)
    {
      PrefixReport(initial, calls, n, k);
    }
  }

  lemma {:induction false} NewIsClean<T, E>(initial: T, calls: seq<Call<T, E>>)
    ensures After(initial, calls).phase == New ==> !After(initial, calls).rollbackOnly
  {
    if calls != [] {
      NewIsClean(initial, calls[..|calls| - 1]);
    }
  }

  /** A call leaves a usable transaction exactly by entering, or by not ending or breaking one. */
  lemma StepUsable<T, E>(s: State<T>, call: Call<T, E>)
    requires s.phase == New ==> !s.rollbackOnly
    requires s.phase == Active ==> s.bound
    ensures var (after, report) := Step(s, call);
            after.phase == Active && !after.rollbackOnly
            <==> (call.Enter? && report == Returned)
                 || (s.phase == Active && !s.rollbackOnly
                     && (call.Enter? || (call.Operate? && !report.Rejected? && !report.Unavailable?)))
  {
  }

  lemma {:induction false} UsableIff<T, E>(initial: T, calls: seq<Call<T, E>>)
    ensures var s := After(initial, calls);
            s.phase == Active && !s.rollbackOnly <==> exists e :: OpenSince(initial, calls, e)
  {
    hide Step, OpenSince;
    if calls == [] {
      NotOpenYet<T, E>(initial);
    } else {
      var n := |calls| - 1;
      var front := calls[..n];
      UsableIff(initial, front);
      NewIsClean(initial, front);
      StatesExplainCalls(initial, front);
      StepUsable(After(initial, front), calls[n]);
      OpenedLast(initial, calls);
      forall e | 0 <= e < n
        ensures OpenSince(initial, calls, e) <==>
                OpenSince(initial, front, e)
                && (calls[n].Enter? || (calls[n].Operate? && !Breaks(initial, calls, n)))
      {
        OpenSincePrefix(initial, calls, e);
      }
      if e :| OpenSince(initial, front, e) {
        OpenInside(initial, front, e);
        assert OpenSince(initial, calls, e)
               <==> calls[n].Enter? || (calls[n].Operate? && !Breaks(initial, calls, n));
      }
      if e :| OpenSince(initial, calls, e) {
        OpenInside(initial, calls, e);
        assert e == n || OpenSince(initial, front, e);
      }
    }
  }

  lemma NotOpenYet<T, E>(initial: T)
    ensures After<T, E>(initial, []).phase != Active && forall e :: !OpenSince<T, E>(initial, [], e)
  {
  }

  lemma OpenInside<T, E>(initial: T, calls: seq<Call<T, E>>, e: nat)
    ensures OpenSince(initial, calls, e) ==> e < |calls|
  {
  }

  lemma OpenedLast<T, E>(initial: T, calls: seq<Call<T, E>>)
    requires calls != []
    ensures var n := |calls| - 1;
            OpenSince(initial, calls, n) <==> calls[n].Enter? && ReportOf(initial, calls, n) == Returned
  {
  }

  /** An operation reaches the database exactly inside an open transaction that nothing has
      failed in: after an entry that returned, with no commit, rollback, exit or failed
      operation in between. */
  lemma {:induction false} OperatesIff<T, E>(initial: T, calls: seq<Call<T, E>>, j: nat)
    requires j < |calls| && calls[j].Operate?
    ensures ReportOf(initial, calls, j) != Refused <==> exists e :: OpenSince(initial, calls[..j], e)
  {
    UsableIff(initial, calls[..j]);
  }
}
