/** Optimistic locking (database/postgres/dao/update.go, UpdateVersioned): an UPDATE gated on the
    version a caller read, which also increments it.  A run is any sequence of such statements by
    any callers; reads happen between any two of them. */
module VersionedUpdate {

  datatype Row = Row(cols: map<string, int>, version: int)

  /** The rows of a table by primary key. */
  type Table = map<int, Row>

  type Condition = (int, Row) -> bool

  datatype Update = Update(set_: map<string, int>, conditions: seq<Condition>, expected: int)

  predicate Matches(conditions: seq<Condition>, key: int, row: Row) {
    forall i :: 0 <= i < |conditions| ==> conditions[i](key, row)
  }

  /** The statement changes the row at `key`. */
  predicate Hits(t: Table, u: Update, key: int) {
    key in t && t[key].version == u.expected && Matches(u.conditions, key, t[key])
  }

  function Next(t: Table, u: Update): Table {
    map key | key in t ::
      if Hits(t, u, key) then Row(t[key].cols + u.set_, t[key].version + 1) else t[key]
  }

  /** The table after the first n statements. */
  function At(t: Table, us: seq<Update>, n: nat): Table
    requires n <= |us|
  {
    if n == 0 then t else Next(At(t, us, n - 1), us[n - 1])
  }

  // ---- the serial reading of a run ----

  /** The assignments of the statements among the first n that changed the row, in order. */
  function Successes(t: Table, us: seq<Update>, key: int, n: nat): seq<map<string, int>>
    requires n <= |us|
  {
    if n == 0 then []
    else Successes(t, us, key, n - 1) + if Hits(At(t, us, n - 1), us[n - 1], key) then [us[n - 1].set_] else []
  }

  function Assigned(cols: map<string, int>, sets: seq<map<string, int>>, n: nat): map<string, int>
    requires n <= |sets|
  {
    if n == 0 then cols else Assigned(cols, sets, n - 1) + sets[n - 1]
  }

  lemma {:induction false} AssignedPrefix(cols: map<string, int>, a: seq<map<string, int>>, b: seq<map<string, int>>, n: nat)
    requires n <= |a|
    ensures Assigned(cols, a + b, n) == Assigned(cols, a, n)
  {
    if n > 0 {
      AssignedPrefix(cols, a, b, n - 1);
      assert (a + b)[n - 1] == a[n - 1];
    }
  }

  /** One statement seen from one row. */
  lemma StepOnRow(t: Table, us: seq<Update>, key: int, n: nat)
    requires n < |us|
    ensures key in At(t, us, n + 1) <==> key in At(t, us, n)
    ensures key in At(t, us, n) ==>
      At(t, us, n + 1)[key] ==
      if Hits(At(t, us, n), us[n], key)
      then Row(At(t, us, n)[key].cols + us[n].set_, us[n].expected + 1) else At(t, us, n)[key]
  {
  }

  /** After any run a row is the serial application of exactly the successful updates, and its version
      counts them. */
  lemma {:induction false} RowIsSerial(t: Table, us: seq<Update>, key: int, n: nat)
    requires n <= |us|
    ensures key in At(t, us, n) <==> key in t
    ensures key in t ==>
      var sets := Successes(t, us, key, n);
      At(t, us, n)[key] == Row(Assigned(t[key].cols, sets, |sets|), t[key].version + |sets|)
  {
    if n > 0 {
      RowIsSerial(t, us, key, n - 1);
      StepOnRow(t, us, key, n - 1);
      hide Next, At, Matches;
      if Hits(At(t, us, n - 1), us[n - 1], key) {
        var sets, more := Successes(t, us, key, n - 1), us[n - 1].set_;
        AssignedPrefix(t[key].cols, sets, [more], |sets|);
        assert Successes(t, us, key, n) == sets + [more];
        assert Assigned(t[key].cols, sets + [more], |sets| + 1) == Assigned(t[key].cols, sets, |sets|) + more;
      } else {
        assert Successes(t, us, key, n) == Successes(t, us, key, n - 1);
      }
    }
  }

  lemma {:induction false} VersionsRise(t: Table, us: seq<Update>, key: int, i: nat, j: nat)
    requires i <= j <= |us| && key in At(t, us, i)
    ensures key in At(t, us, j)
    ensures At(t, us, i)[key].version <= At(t, us, j)[key].version
    ensures At(t, us, i)[key].version == At(t, us, j)[key].version ==> At(t, us, i)[key] == At(t, us, j)[key]
    decreases j
  {
    hide Next, At, Matches;
    if i < j {
      VersionsRise(t, us, key, i, j - 1);
      StepOnRow(t, us, key, j - 1);
    }
  }

  /** Every expected version succeeds at most once on a row, and successes come in version order. */
  lemma EachVersionSucceedsOnce(t: Table, us: seq<Update>, key: int, i: nat, j: nat)
    requires i < j < |us|
    requires Hits(At(t, us, i), us[i], key) && Hits(At(t, us, j), us[j], key)
    ensures us[i].expected < us[j].expected
  {
    hide Next, At, Matches;
    StepOnRow(t, us, key, i);
    VersionsRise(t, us, key, i + 1, j);
  }

  /** No lost update: a statement that succeeds against a version read at i meets the very row that was
      read, and nothing succeeded on it in between. */
  lemma NoLostUpdate(t: Table, us: seq<Update>, key: int, i: nat, j: nat)
    requires i <= j < |us| && key in At(t, us, i) && us[j].expected == At(t, us, i)[key].version
    requires Hits(At(t, us, j), us[j], key)
    ensures At(t, us, j)[key] == At(t, us, i)[key]
    ensures forall m :: i <= m < j ==> !Hits(At(t, us, m), us[m], key)
  {
    hide Next, At, Matches;
    VersionsRise(t, us, key, i, j);
    forall m | i <= m < j ensures !Hits(At(t, us, m), us[m], key) {
      VersionsRise(t, us, key, i, m);
      StepOnRow(t, us, key, m);
      VersionsRise(t, us, key, m + 1, j);
    }
  }

  /** A caller who reads a row at i and addresses it by its key alone is told the version is stale exactly
      when another update of the row succeeded in between. */
  lemma StaleIffBeaten(t: Table, us: seq<Update>, key: int, i: nat, j: nat)
    requires i <= j < |us| && key in At(t, us, i) && us[j].expected == At(t, us, i)[key].version
    requires forall row :: Matches(us[j].conditions, key, row)
    ensures !Hits(At(t, us, j), us[j], key) <==> exists m :: i <= m < j && Hits(At(t, us, m), us[m], key)
  {
    hide Next, At;
    if Hits(At(t, us, j), us[j], key) {
      NoLostUpdate(t, us, key, i, j);
    } else if forall m :: i <= m < j ==> !Hits(At(t, us, m), us[m], key) {
      Undisturbed(t, us, key, i, j);
      assert false;
    }
  }

  lemma {:induction false} Undisturbed(t: Table, us: seq<Update>, key: int, i: nat, j: nat)
    requires i <= j <= |us| && key in At(t, us, i)
    requires forall m :: i <= m < j ==> !Hits(At(t, us, m), us[m], key)
    ensures key in At(t, us, j) && At(t, us, j)[key] == At(t, us, i)[key]
    decreases j
  {
    if i < j {
      Undisturbed(t, us, key, i, j - 1);
      StepOnRow(t, us, key, j - 1);
    }
  }

  // ---- read-modify-write ----

  /** Statement j writes back what its caller read of column `c` at `reads[j]`, plus `deltas[j]`. */
  predicate AddsTo(t: Table, us: seq<Update>, key: int, c: string, reads_: seq<nat>, deltas: seq<int>, j: nat)
    requires j < |us| == |reads_| == |deltas|
  {
    && reads_[j] <= j && key in At(t, us, reads_[j])
    && var seen := At(t, us, reads_[j])[key];
    && us[j].expected == seen.version && c in seen.cols
    && c in us[j].set_ && us[j].set_[c] == seen.cols[c] + deltas[j]
  }

  function Sum(t: Table, us: seq<Update>, key: int, deltas: seq<int>, n: nat): int
    requires n <= |us| == |deltas|
  {
    if n == 0 then 0
    else Sum(t, us, key, deltas, n - 1) + if Hits(At(t, us, n - 1), us[n - 1], key) then deltas[n - 1] else 0
  }

  /** Conservation: when every caller adds to the value it read, however stale, the column ends at its
      first value plus exactly the amounts of the successful calls. */
  lemma {:induction false} AdditionsAreKept(t: Table, us: seq<Update>, key: int, c: string, reads_: seq<nat>, deltas: seq<int>, n: nat)
    requires n <= |us| == |reads_| == |deltas| && key in t && c in t[key].cols
    requires forall j :: 0 <= j < n ==> AddsTo(t, us, key, c, reads_, deltas, j)
    ensures key in At(t, us, n) && c in At(t, us, n)[key].cols
    ensures At(t, us, n)[key].cols[c] == t[key].cols[c] + Sum(t, us, key, deltas, n)
  {
    hide Next, Matches;
    if n > 0 {
      StepOnRow(t, us, key, n - 1);
      AdditionsAreKept(t, us, key, c, reads_, deltas, n - 1);
      assert AddsTo(t, us, key, c, reads_, deltas, n - 1);
      if Hits(At(t, us, n - 1), us[n - 1], key) {
        NoLostUpdate(t, us, key, reads_[n - 1], n - 1);
      }
    }
  }

  // ---- the code ----

  datatype Result = Updated(row: Row) | StaleVersion | Failed

  /** What else can happen to the statement: nothing, an error instead of executing it, or an error after. */
  datatype Fault = NoFault | Refused | ReplyLost

  class BaseDAO {
    const versionCol: string
    var table: Table
    ghost var first: Table
    ghost var run: seq<Update>

    ghost predicate Recorded()
      reads this
    {
      table == At(first, run, |run|)
    }

    constructor (versionCol: string, table: Table)
      ensures this.versionCol == versionCol && this.table == table && first == table && run == [] && Recorded()
    {
      this.versionCol, this.table, first, run := versionCol, table, table, [];
    }

    /** The database executing UPDATE … SET `set_`, version = version + 1 WHERE every condition,
        RETURNING *: the keys of the rows it changed. */
    method Exec(set_: map<string, int>, conditions: seq<Condition>) returns (keys: set<int>)
      modifies `table
      ensures keys == set key | key in old(table) && Matches(conditions, key, old(table)[key])
      ensures table == map key | key in old(table) ::
                if key in keys then Row(old(table)[key].cols + set_, old(table)[key].version + 1) else old(table)[key]
    {
      keys := set key | key in table && Matches(conditions, key, table[key]);
      table := map key | key in table ::
        if key in keys then Row(table[key].cols + set_, table[key].version + 1) else table[key];
    }

    /** A success returns one of the changed rows, a stale version means that no row had the expected
        version, and every executed statement is one more step of the run.  Assigning the version column
        itself is an error of the database, since the statement then assigns it twice. */
    method UpdateVersioned(set_: map<string, int>, conditions: seq<Condition>, expected: int, fault: Fault) returns (r: Result)
      requires Recorded()
      modifies this
      ensures Recorded() && first == old(first)
      ensures run == if versionCol in set_ || fault.Refused? then old(run) else old(run) + [Update(set_, conditions, expected)]
      ensures r == Failed <==> versionCol in set_ || !fault.NoFault?
      ensures r == StaleVersion ==> forall key :: !Hits(old(table), Update(set_, conditions, expected), key)
      ensures r.Updated? ==> exists key :: Hits(old(table), Update(set_, conditions, expected), key) && r.row == Next(old(table), Update(set_, conditions, expected))[key]
      ensures r.Updated? ==> r.row.version == expected + 1
    {
      var guarded := conditions + [(key: int, row: Row) => row.version == expected];
      if versionCol in set_ || fault.Refused? {
        return Failed;
      }
      ghost var u := Update(set_, conditions, expected);
      forall key | key in table ensures Matches(guarded, key, table[key]) <==> Hits(table, u, key) {
        GuardedIsHits(table, u, guarded, key);
      }
      ghost var before := table;
      var keys := Exec(set_, guarded);
      assert forall key :: key in keys <==> Hits(before, u, key);
      assert table == Next(before, u);
      RunGrows(first, run, u);
      run := run + [u];
      if fault.ReplyLost? {
        return Failed;
      }
      if keys == {} {
        return StaleVersion;
      }
      var key :| key in keys;
      return Updated(table[key]);
    }
  }

  lemma GuardedIsHits(t: Table, u: Update, guarded: seq<Condition>, key: int)
    requires key in t && |guarded| == |u.conditions| + 1 && guarded[..|u.conditions|] == u.conditions
    requires guarded[|u.conditions|](key, t[key]) <==> t[key].version == u.expected
    ensures Matches(guarded, key, t[key]) <==> Hits(t, u, key)
  {
    assert forall i :: 0 <= i < |u.conditions| ==> guarded[i] == u.conditions[i];
  }

  lemma RunGrows(t: Table, us: seq<Update>, u: Update)
    ensures At(t, us + [u], |us| + 1) == Next(At(t, us, |us|), u)
  {
    AtPrefix(t, us, [u], |us|);
  }

  lemma {:induction false} AtPrefix(t: Table, us: seq<Update>, more: seq<Update>, n: nat)
    requires n <= |us|
    ensures At(t, us + more, n) == At(t, us, n)
  {
    if n > 0 {
      AtPrefix(t, us, more, n - 1);
      assert (us + more)[n - 1] == us[n - 1];
    }
  }
}
