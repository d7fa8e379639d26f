/** Context-propagated transactions (database/postgres/transaction: manager.go, options.go) and the
    retry engine under them (resilience/retry.go).  A callback is a tree of statements, failures,
    nested InTransaction calls and error handling; the database refuses statements at will, and begin,
    commit and rollback fail at will. */
module Transactions {

  import opened Options

  /** An error with the PostgreSQL code that errors.As finds in its chain, or an empty code. */
  datatype Error = Error(code: string)

  predicate Retryable(e: Error) {
    e.code == "40001" || e.code == "40P01"
  }

  /** What a callback does.  A `Write` may be refused by the database; `Try` drops the error of its part,
      as a Go caller that ignores a returned error does. */
  datatype Prog =
    | Write(row: int, refused: Option<Error>)
    | Fail(e: Error)
    | Seq(first: Prog, second: Prog)
    | Try(part: Prog)
    | InTx(body: Prog)

  /** An open transaction: the rows written so far, and whether a refused statement has aborted it. */
  datatype Tx = Tx(rows: seq<int>, aborted: bool)

  const FreshTx := Tx([], false)

  /** 25P02: statements in an aborted transaction are refused. */
  const InFailedTx := Error("25P02")

  /** The meaning of a callback inside an open transaction; a nested InTransaction is its body. */
  function Effect(p: Prog, tx: Tx): (Tx, Option<Error>) {
    match p
    case Write(row, refused) =>
      if tx.aborted then (tx, Some(InFailedTx))
      else if refused.Some? then (tx.(aborted := true), refused)
      else (tx.(rows := tx.rows + [row]), None)
    case Fail(e) => (tx, Some(e))
    case Seq(a, b) =>
      var (tx', err) := Effect(a, tx);
      if err.Some? then (tx', err) else Effect(b, tx')
    case Try(a) => (Effect(a, tx).0, None)
    case InTx(body) => Effect(body, tx)
  }

  datatype CommitFault = CommitOk | CommitRefused(e: Error) | CommitReplyLost(e: Error)

  /** What goes wrong with one transaction: its begin, its commit, its rollback.  A rollback that fails does
      not reach the server, which undoes the transaction when the session ends. */
  datatype Faults = Faults(begin: Option<Error>, commit: CommitFault, rollbackFails: bool)

  /** A serialization failure or deadlock is a refusal: those codes never hide a commit. */
  predicate Plausible(f: Faults) {
    f.commit.CommitReplyLost? ==> !Retryable(f.commit.e)
  }

  /** Statements the server executed, or the end of a session that undoes its open transaction. */
  datatype Event = Begin | Commit | Rollback | SessionEnd

  /** A run of the callback that can be committed: no error, not aborted. */
  predicate Complete(p: Prog) {
    Effect(p, FreshTx).1.None? && !Effect(p, FreshTx).0.aborted
  }

  function RowsOf(p: Prog): seq<int> {
    Effect(p, FreshTx).0.rows
  }

  // ---- what a callback can do to its transaction ----

  /** A callback stops at its first error, unless it drops it; a refused statement aborts the transaction, in which
      every later statement is refused; a nested call adds nothing of its own. */
  lemma CallbackLaws(a: Prog, b: Prog, row: int, e: Error, tx: Tx)
    ensures Effect(a, tx).1.Some? ==> Effect(Seq(a, b), tx) == Effect(a, tx)
    ensures Effect(a, tx).1.None? ==> Effect(Seq(a, b), tx) == Effect(b, Effect(a, tx).0)
    ensures Effect(Try(a), tx) == (Effect(a, tx).0, None) && Effect(InTx(a), tx) == Effect(a, tx)
    ensures Effect(Fail(e), tx) == (tx, Some(e))
    ensures Effect(Write(row, Some(e)), Tx(tx.rows, false)) == (Tx(tx.rows, true), Some(e))
    ensures Effect(Write(row, None), Tx(tx.rows, false)) == (Tx(tx.rows + [row], false), None)
    ensures Effect(Write(row, None), Tx(tx.rows, true)) == (Tx(tx.rows, true), Some(Error("25P02")))
  {
  }

  /** Rows are only added, in order, and an aborted transaction stays aborted and gains nothing. */
  lemma {:induction false} EffectExtends(p: Prog, tx: Tx)
    ensures tx.rows <= Effect(p, tx).0.rows
    ensures tx.aborted ==> Effect(p, tx).0 == tx
  {
    match p
    case Seq(a, b) =>
      EffectExtends(a, tx);
      EffectExtends(b, Effect(a, tx).0);
    case Try(a) => EffectExtends(a, tx);
    case InTx(body) => EffectExtends(body, tx);
    case _ =>
  }

  /** The rows a callback writes do not depend on the rows already in the transaction. */
  lemma {:induction false} EffectIsLocal(p: Prog, rows: seq<int>)
    ensures
      var (tx, err) := Effect(p, Tx(rows, false));
      var (fresh', err') := Effect(p, FreshTx);
      tx == Tx(rows + fresh'.rows, fresh'.aborted) && err == err'
  {
    match p
    case Write(row, refused) =>
      assert rows + [] == rows && [] + [row] == [row];
    case Fail(_) =>
      assert rows + [] == rows;
    case Try(a) => EffectIsLocal(a, rows);
    case InTx(body) => EffectIsLocal(body, rows);
    case Seq(a, b) =>
      EffectIsLocal(a, rows);
      var (mid, err) := Effect(a, FreshTx);
      if err.None? {
        if mid.aborted {
          EffectExtends(b, mid);
          EffectExtends(b, Tx(rows + mid.rows, true));
          AbortedError(b, mid, Tx(rows + mid.rows, true));
        } else {
          EffectIsLocal(b, rows + mid.rows);
          EffectIsLocal(b, mid.rows);
          assert rows + mid.rows + RowsOf(b) == rows + (mid.rows + RowsOf(b));
        }
      }
  }

  lemma {:induction false} AbortedError(p: Prog, tx: Tx, tx': Tx)
    requires tx.aborted && tx'.aborted
    ensures Effect(p, tx).1 == Effect(p, tx').1
  {
    EffectExtends(p, tx);
    EffectExtends(p, tx');
    match p
    case Seq(a, b) =>
      AbortedError(a, tx, tx');
      EffectExtends(a, tx);
      EffectExtends(a, tx');
      AbortedError(b, tx, tx');
    case Try(a) =>
    case InTx(body) => AbortedError(body, tx, tx');
    case _ =>
  }

  /** Composition: wrapping parts that each support running in a transaction into one outer call gives a
      single unit that writes what its parts write, in order. */
  lemma NestedCallsCompose(a: Prog, b: Prog)
    requires Complete(a) && Complete(b)
    ensures Complete(InTx(Seq(InTx(a), InTx(b)))) && RowsOf(InTx(Seq(InTx(a), InTx(b)))) == RowsOf(a) + RowsOf(b)
  {
    EffectIsLocal(b, RowsOf(a));
    var p := Seq(InTx(a), InTx(b));
    assert Effect(InTx(a), FreshTx) == Effect(a, FreshTx);
    assert Effect(p, FreshTx) == Effect(InTx(b), Effect(a, FreshTx).0);
    assert Effect(a, FreshTx).0 == Tx(RowsOf(a), false);
    assert Effect(InTx(b), Tx(RowsOf(a), false)) == Effect(b, Tx(RowsOf(a), false));
    assert Effect(InTx(p), FreshTx) == Effect(p, FreshTx);
  }

  predicate Fails(p: Prog) {
    Effect(p, FreshTx).1.Some?
  }

  predicate Aborts(p: Prog) {
    Effect(p, FreshTx).0.aborted
  }

  /** A nested call is not a savepoint: whatever its body, when it fails and its caller drops the error, all
      it wrote before failing stays in the outer transaction, and so does an abort. */
  lemma DroppedNestedError(body: Prog, rows: seq<int>)
    requires Fails(body)
    ensures Effect(Try(InTx(body)), Tx(rows, false)) == (Tx(rows + RowsOf(body), Aborts(body)), None)
  {
    EffectIsLocal(body, rows);
    assert Effect(InTx(body), Tx(rows, false)) == Effect(body, Tx(rows, false));
  }

  /** The rows an outer call commits when nothing goes wrong with its own begin and commit. */
  function CommittedRows(p: Prog): seq<int> {
    if Complete(p) then RowsOf(p) else []
  }

  function Around(before: Prog, body: Prog, after: Prog): Prog {
    Seq(before, Seq(Try(InTx(body)), after))
  }

  /** An outer call that drops the error of a nested one commits exactly when the nested call did not abort the
      transaction, and then with the rows of the failed call among its own. */
  lemma AroundFailure(before: Prog, body: Prog, after: Prog)
    requires Complete(before) && Complete(after) && Fails(body)
    ensures Complete(Around(before, body, after)) <==> !Aborts(body)
    ensures !Aborts(body) ==> RowsOf(Around(before, body, after)) == RowsOf(before) + RowsOf(body) + RowsOf(after)
  {
    var nested := Try(InTx(body));
    var inner := Seq(nested, after);
    var tx0 := Tx(RowsOf(before), false);
    var tx1 := Tx(RowsOf(before) + RowsOf(body), Aborts(body));
    DroppedNestedError(body, RowsOf(before));
    assert Effect(nested, tx0) == (tx1, None);
    assert Effect(inner, tx0) == Effect(after, tx1);
    assert Effect(Around(before, body, after), FreshTx) == Effect(inner, tx0);
    if Aborts(body) {
      EffectExtends(after, tx1);
    } else {
      EffectIsLocal(after, tx1.rows);
    }
  }

  /** Exactly when the failed part leaves no trace, as a savepoint would see to: it wrote nothing before it
      failed, or a refused statement aborted the transaction and nothing at all is committed. */
  lemma FailedPartLeavesNothingIff(before: Prog, body: Prog, after: Prog)
    requires Complete(before) && Complete(after) && Fails(body)
    ensures var rows := CommittedRows(Around(before, body, after));
      rows == RowsOf(before) + RowsOf(after) || !Complete(Around(before, body, after)) <==> RowsOf(body) == [] || Aborts(body)
  {
    AroundFailure(before, body, after);
    if !Aborts(body) {
      var rows := RowsOf(before) + RowsOf(body) + RowsOf(after);
      assert |rows| == |RowsOf(before)| + |RowsOf(body)| + |RowsOf(after)|;
      if RowsOf(body) == [] {
        assert RowsOf(before) + [] == RowsOf(before);
      }
    }
  }

  /** A failed part that does leave its row behind. */
  lemma DroppedNestedErrorKeepsWrites(row: int, e: Error)
    ensures var body := Seq(Write(row, None), Fail(e)); Fails(body) && !Aborts(body) && RowsOf(body) == [row]
    ensures CommittedRows(Try(InTx(Seq(Write(row, None), Fail(e))))) == [row]
  {
    var body := Seq(Write(row, None), Fail(e));
    assert [] + [row] == [row];
    assert Effect(Write(row, None), FreshTx) == (Tx([row], false), None);
    assert Effect(body, FreshTx) == (Tx([row], false), Some(e));
    DroppedNestedError(body, []);
  }

  // ---- the code ----

  /** What one attempt returns: the error of the first thing that fails.  Committing an aborted transaction
      is an error of the driver without a code; a failed rollback only adds text to the callback's error. */
  function AttemptError(p: Prog, f: Faults): Option<Error> {
    if f.begin.Some? then f.begin
    else if Fails(p) then Effect(p, FreshTx).1
    else if Aborts(p) then Some(Error(""))
    else match f.commit
      case CommitOk => None
      case CommitRefused(e) => Some(e)
      case CommitReplyLost(e) => Some(e)
  }

  /** An attempt is retried exactly when it failed with a serialization failure or a deadlock, wherever the error came
      from: the begin, the callback or the commit. */
  lemma RetryableIff(p: Prog, f: Faults)
    ensures RetryableFailure(p, f) <==>
            if f.begin.Some? then SerializationOrDeadlock(f.begin.value)
            else if Effect(p, FreshTx).1.Some? then SerializationOrDeadlock(Effect(p, FreshTx).1.value)
            else Complete(p) && (f.commit.CommitRefused? || f.commit.CommitReplyLost?) && SerializationOrDeadlock(f.commit.e)
  {
  }

  predicate SerializationOrDeadlock(e: Error) {
    e.code in {"40001", "40P01"}
  }

  predicate RetryableFailure(p: Prog, f: Faults) {
    AttemptError(p, f).Some? && Retryable(AttemptError(p, f).value)
  }

  /** The events of one attempt after its begin. */
  function Ending(p: Prog, f: Faults): Event {
    if Fails(p) then if f.rollbackFails then SessionEnd else Rollback
    else if Aborts(p) || f.commit.CommitRefused? then Rollback
    else Commit
  }

  predicate CommittedOnce(before: seq<int>, after: seq<int>, p: Prog) {
    Complete(p) && after == before + RowsOf(p)
  }

  function Commits(events: seq<Event>): nat {
    if events == [] then 0 else Commits(events[..|events| - 1]) + if events[|events| - 1] == Commit then 1 else 0
  }

  lemma CommitsSnoc(events: seq<Event>, e: Event)
    ensures Commits(events + [e]) == Commits(events) + if e == Commit then 1 else 0
  {
    assert (events + [e])[..|events|] == events;
  }

  /** Every callback up to number n returned a serialization failure or a deadlock, with nothing else wrong and the
      context not done before attempt n + 1. */
  ghost predicate Persists(fn: nat -> Prog, faults: nat -> Faults, cancelled: nat -> bool, n: nat) {
    && (forall k: nat :: k <= n ==>
          faults(k).begin.None? && Effect(fn(k), FreshTx).1.Some? && Effect(fn(k), FreshTx).1.value.code in {"40001", "40P01"})
    && (forall k: nat :: k <= n + 1 ==> !cancelled(k))
  }

  lemma PersistenceIsRetried(fn: nat -> Prog, faults: nat -> Faults, cancelled: nat -> bool, cap: nat, attempts: nat)
    requires attempts == cap || cancelled(attempts) || (attempts > 0 && !RetryableFailure(fn(attempts - 1), faults(attempts - 1)))
    ensures forall n: nat :: Persists(fn, faults, cancelled, n) && n + 1 < cap ==> attempts > n + 1
  {
    if attempts > 0 {
      RetryableIff(fn(attempts - 1), faults(attempts - 1));
    }
    hide AttemptError, RetryableFailure;
  }

  class Database {
    /** Committed rows, the open transaction (meaningful while one is open), and the transaction-control
        statements the server has executed. */
    var rows: seq<int>
    var tx: Tx
    var events: seq<Event>

    constructor ()
      ensures rows == [] && events == []
    {
      rows, tx, events := [], FreshTx, [];
    }

    /** A callback running with a transaction in its context. */
    method Exec(p: Prog) returns (err: Option<Error>)
      modifies this`tx
      ensures (tx, err) == Effect(p, old(tx))
      decreases p, 0
    {
      match p
      case Write(row, refused) =>
        if tx.aborted {
          return Some(InFailedTx);
        }
        if refused.Some? {
          tx := tx.(aborted := true);
          return refused;
        }
        tx := tx.(rows := tx.rows + [row]);
        return None;
      case Fail(e) => return Some(e);
      case Seq(a, b) =>
        err := Exec(a);
        if err.Some? {
          return;
        }
        err := Exec(b);
      case Try(a) =>
        var _ := Exec(a);
        return None;
      case InTx(body) =>
        err := JoinTransaction(body);
    }

    /** InTransaction with a transaction in the context: the callback joins it, and nothing is begun,
        committed or rolled back. */
    method JoinTransaction(body: Prog) returns (err: Option<Error>)
      modifies this`tx
      ensures (tx, err) == Effect(body, old(tx))
      decreases body, 1
    {
      err := Exec(body);
    }

    /** InTransaction without one: exactly one begin, followed by exactly one commit, rollback or session end.
        The callback's rows are committed together or not at all; a nil return means they were. */
    method InTransaction(body: Prog, f: Faults) returns (err: Option<Error>)
      requires Plausible(f)
      modifies this
      ensures err == AttemptError(body, f)
      ensures f.begin.Some? ==> err == f.begin
      ensures f.begin.None? && Effect(body, FreshTx).1.Some? ==> err == Effect(body, FreshTx).1
      ensures f.begin.None? && Effect(body, FreshTx).1.None? && Effect(body, FreshTx).0.aborted ==> err == Some(Error(""))
      ensures f.begin.None? && Complete(body) ==>
                err == match f.commit case CommitOk => None case CommitRefused(e) => Some(e) case CommitReplyLost(e) => Some(e)
      ensures f.begin.Some? ==> rows == old(rows) && events == old(events)
      ensures f.begin.None? && Complete(body) && !f.commit.CommitRefused? ==>
                events == old(events) + [Begin, Commit] && rows == old(rows) + Effect(body, FreshTx).0.rows
      ensures f.begin.None? && !(Complete(body) && !f.commit.CommitRefused?) ==>
                rows == old(rows) && (events == old(events) + [Begin, Rollback] || events == old(events) + [Begin, SessionEnd])
      ensures events == old(events) + if f.begin.Some? then [] else [Begin, Ending(body, f)]
      ensures rows == old(rows) || CommittedOnce(old(rows), rows, body)
      ensures err.None? <==> f.begin.None? && Complete(body) && f.commit == CommitOk
      ensures err.None? ==> CommittedOnce(old(rows), rows, body)
      ensures rows != old(rows) ==> f.begin.None? && Ending(body, f) == Commit
      ensures err.Some? && Retryable(err.value) ==> rows == old(rows) && (f.begin.None? ==> Ending(body, f) != Commit)
    {
      if f.begin.Some? {
        assert events == old(events) + [];
        return f.begin;
      }
      events := events + [Begin];
      tx := FreshTx;
      var fnErr := Exec(body);
      if fnErr.Some? {
        events := events + [if f.rollbackFails then SessionEnd else Rollback];
        return fnErr;
      }
      if tx.aborted {
        events := events + [Rollback];
        return Some(Error(""));
      }
      if f.commit.CommitRefused? {
        events := events + [Rollback];
        return Some(f.commit.e);
      }
      rows := rows + tx.rows;
      events := events + [Commit];
      return if f.commit.CommitOk? then None else Some(f.commit.e);
    }

    /** The retry loop around whole transactions; attempt n runs `fn(n)`, because a re-run may read other
        data.  `cancelled(n)` says whether the context is done before attempt n.  Exactly the attempts before
        the last one failed with a retryable error; the loop ends at the first other outcome, at the cap or when
        cancelled.  The final state is the initial one or the effect of exactly one complete run, and at most
        one commit reaches the server. */
    method InRetryableTransaction(fn: nat -> Prog, maxAttempts: int, faults: nat -> Faults, cancelled: nat -> bool)
      returns (err: Option<Error>, attempts: nat)
      requires forall n :: Plausible(faults(n))
      modifies this
      ensures attempts <= if maxAttempts > 0 then maxAttempts else 3
      ensures forall n: nat :: n < attempts ==> !cancelled(n)
      ensures forall n: nat :: n + 1 < attempts ==> RetryableFailure(fn(n), faults(n))
      ensures attempts < (if maxAttempts > 0 then maxAttempts else 3) &&
              (attempts > 0 ==> RetryableFailure(fn(attempts - 1), faults(attempts - 1))) ==>
                cancelled(attempts) && err == Some(Error(""))
      ensures attempts == (if maxAttempts > 0 then maxAttempts else 3) ||
              (attempts > 0 && !RetryableFailure(fn(attempts - 1), faults(attempts - 1))) ==>
                attempts > 0 && err == AttemptError(fn(attempts - 1), faults(attempts - 1))
      ensures forall n: nat :: Persists(fn, faults, cancelled, n) && n + 1 < (if maxAttempts > 0 then maxAttempts else 3) ==>
                attempts > n + 1
      ensures rows == old(rows) || (attempts > 0 && CommittedOnce(old(rows), rows, fn(attempts - 1)))
      ensures err.None? ==> attempts > 0 && CommittedOnce(old(rows), rows, fn(attempts - 1))
      ensures Commits(events) <= Commits(old(events)) + 1
      ensures rows != old(rows) ==> Commits(events) == Commits(old(events)) + 1
    {
      hide AttemptError, Ending, Complete, RowsOf, Persists;
      var cap: nat := if maxAttempts > 0 then maxAttempts else 3;
      attempts, err := 0, None;
      while attempts < cap
        invariant attempts <= cap
        invariant rows == old(rows) && Commits(events) == Commits(old(events))
        invariant attempts > 0 ==> err == AttemptError(fn(attempts - 1), faults(attempts - 1)) && err.Some?
        invariant forall n: nat :: n < attempts ==> !cancelled(n) && RetryableFailure(fn(n), faults(n))
      {
        if cancelled(attempts) {
          PersistenceIsRetried(fn, faults, cancelled, cap, attempts);
          return Some(Error("")), attempts;
        }
        ghost var before := events;
        err := InTransaction(fn(attempts), faults(attempts));
        OneTransactionCommits(before, events);
        attempts := attempts + 1;
        if err.None? || attempts == cap || !Retryable(err.value) {
          PersistenceIsRetried(fn, faults, cancelled, cap, attempts);
          return;
        }
      }
      PersistenceIsRetried(fn, faults, cancelled, cap, attempts);
    }
  }

  lemma OneTransactionCommits(before: seq<Event>, after: seq<Event>)
    requires after == before || (|after| == |before| + 2 && after[..|before|] == before && after[|before|] == Begin)
    ensures Commits(after) == Commits(before) + if |after| > |before| && after[|after| - 1] == Commit then 1 else 0
  {
    if after != before {
      var last := after[|after| - 1];
      CommitsSnoc(before, Begin);
      CommitsSnoc(before + [Begin], last);
      assert after == before + [Begin] + [last];
    }
  }
}
