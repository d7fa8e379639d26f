/** The statement builders (database/postgres/query/builder.go) and the multi-row insert
    (database/postgres/dao/batch.go).  Each is proved against the statement's reference form, and its text, once the
    arguments are bound, reads back as the query it was built from. */
module SqlStatements {
  import opened Options
  import opened SqlText
  import opened SqlConditions
  import opened SqlForms
  import opened SqlReading
  import R = SqlRoundTrip

  // ---- what every builder promises ----

  /** `ts` and `args` are the reference form `ps`: its placeholders read from left to right are
      $1, $2, ..., $n with n the number of arguments, and binding the arguments gives `ps` back. */
  ghost predicate Renders(ts: seq<Token>, args: seq<Value>, ps: seq<Piece>) {
    && Placeholders(ts) == Counting(1, |args|)
    && Bound(ts, args) == Some(ps)
    && args == Holes(ps)
  }

  /** A statement under construction: text, arguments and next index so far. */
  ghost predicate Written(ts: seq<Token>, args: seq<Value>, idx: int, ps: seq<Piece>) {
    ts == Numbered(ps, 1) && args == Holes(ps) && idx == 1 + |Holes(ps)|
  }

  lemma WrittenRenders(ts: seq<Token>, args: seq<Value>, idx: int, ps: seq<Piece>)
    requires Written(ts, args, idx, ps)
    ensures Renders(ts, args, ps)
  {
    hide Holes, Numbered, Placeholders, Bound, Counting;
    PlaceholdersInOrder(ps, 1);
    BoundRestoresValues(ps, [], []);
    assert [] + Holes(ps) + [] == Holes(ps);
  }

  lemma RendersBound(ts: seq<Token>, args: seq<Value>, ps: seq<Piece>)
    requires Renders(ts, args, ps)
    ensures Bound(ts, args) == Some(ps)
  {
  }

  lemma Appended(ts: seq<Token>, args: seq<Value>, idx: int, ps: seq<Piece>, more: seq<Piece>)
    requires Written(ts, args, idx, ps)
    ensures Written(ts + Numbered(more, idx), args + Holes(more), idx + |Holes(more)|, ps + more)
  {
    hide Holes, Numbered;
    NumberedConcat(ps, more, 1);
    HolesConcat(ps, more);
  }

  lemma AppendedLits(ts: seq<Token>, args: seq<Value>, idx: int, ps: seq<Piece>, xs: seq<Symbol>)
    requires Written(ts, args, idx, ps)
    ensures Written(ts + Syms(xs), args, idx, ps + Lits(xs))
  {
    hide Written, Numbered, Lits, Syms;
    Appended(ts, args, idx, ps, Lits(xs));
    LitsNumbered(xs, idx);
    assert args + [] == args;
  }

  lemma RowAppended(before: seq<Piece>, sofar: seq<Piece>, row: seq<Value>)
    ensures before + sofar + Lits([LParen]) + Listed(HoleParts(row)) + Lits([RParen]) == before + (sofar + RowPieces(row))
  {
    hide Lits, Listed, HoleParts;
  }

  lemma RowPartsNone(rows: seq<seq<Value>>)
    ensures RowParts(rows, 0) == []
  {
  }

  lemma RowPartsSnoc(rows: seq<seq<Value>>, n: nat)
    requires n < |rows|
    ensures RowParts(rows, n + 1) == RowParts(rows, n) + [RowPieces(rows[n])]
  {
  }

  /** The text buffer together with the arguments and the next index. */
  class Writer {
    const b: Binder
    var ts: seq<Token>
    ghost var ps: seq<Piece>

    ghost predicate Valid()
      reads this, b
    {
      Written(ts, b.args, b.idx, ps)
    }

    constructor (xs: seq<Symbol>)
      ensures Valid() && ps == Lits(xs) && fresh(b)
    {
      b := new Binder(1);
      ts, ps := Syms(xs), Lits(xs);
      LitsNumbered(xs, 1);
    }

    method Text(xs: seq<Symbol>)
      requires Valid()
      modifies this`ts, this`ps
      ensures Valid() && ps == old(ps) + Lits(xs)
    {
      hide Written, Lits, Syms;
      AppendedLits(ts, b.args, b.idx, ps, xs);
      ts, ps := ts + Syms(xs), ps + Lits(xs);
    }

    method Keyworded(keyword: string, names: seq<string>)
      requires Valid()
      modifies this`ts, this`ps
      ensures Valid() && ps == old(ps) + Optional(keyword, names)
    {
      hide Written, Lits, Names;
      if |names| > 0 {
        Text([Word(keyword)] + Names(names));
      }
    }

    method Conditions(keyword: string, cs: seq<Condition>)
      requires Valid()
      modifies this`ts, this`ps, b
      ensures Valid() && ps == old(ps) + Clause(keyword, cs)
    {
      hide Written, Lits, JoinedPieces, Numbered, Holes;
      ghost var before := ps;
      if |cs| > 0 {
        Text([Word(keyword)]);
        Appended(ts, b.args, b.idx, ps, JoinedPieces(cs, AndKw));
        var body := BuildConditions(cs, b);
        ts, ps := ts + body, ps + JoinedPieces(cs, AndKw);
        assert ps == before + (Lits([Word(keyword)]) + JoinedPieces(cs, AndKw));
      }
    }

    /** Binds one value where the text stands. */
    method Hole(v: Value)
      requires Valid()
      modifies this`ts, this`ps, b
      ensures Valid() && ps == old(ps) + [SqlText.Hole(v)]
    {
      hide Written;
      Appended(ts, b.args, b.idx, ps, [SqlText.Hole(v)]);
      assert Numbered([SqlText.Hole(v)], b.idx) == [Param(b.idx)] && Holes([SqlText.Hole(v)]) == [v];
      var p := b.Bind(v);
      ts, ps := ts + [p], ps + [SqlText.Hole(v)];
    }

    method BoundNumber(keyword: string, n: int)
      requires Valid()
      modifies this`ts, this`ps, b
      ensures Valid() && ps == old(ps) + PositiveBound(keyword, n)
    {
      hide Written, Lits;
      ghost var before := ps;
      if n > 0 {
        Text([Word(keyword)]);
        Hole(Scalar(n));
        assert ps == before + (Lits([Word(keyword)]) + [SqlText.Hole(Scalar(n))]);
      }
    }

    /** One more element of a comma-separated list, with at most one value in it. */
    method Element(ghost before: seq<Piece>, ghost parts: seq<seq<Piece>>, first: bool, xs: seq<Symbol>, v: Option<Value>)
      requires Valid() && ps == before + Listed(parts) && first == (parts == [])
      modifies this`ts, this`ps, b
      ensures Valid()
      ensures ps == before + Listed(parts + [Lits(xs) + (if v.Some? then [SqlText.Hole(v.value)] else [])])
    {
      hide Written, Lits;
      ghost var part := Lits(xs) + (if v.Some? then [SqlText.Hole(v.value)] else []);
      ListedSnoc(parts, part);
      hide Listed;
      if !first {
        Text([Comma]);
      }
      Text(xs);
      if v.Some? {
        Hole(v.value);
      }
      assert ps == before + (if parts == [] then part else Listed(parts) + Lits([Comma]) + part);
    }

    /** One placeholder for each value, separated by commas. */
    method HoleList(vs: seq<Value>)
      requires Valid()
      modifies this`ts, this`ps, b
      ensures Valid() && ps == old(ps) + Listed(HoleParts(vs))
    {
      hide Written;
      ghost var before := ps;
      ghost var parts := HoleParts(vs);
      for i := 0 to |vs|
        invariant Valid() && ps == before + Listed(parts[..i])
      {
        assert parts[..i + 1] == parts[..i] + [parts[i]];
        assert Lits([]) + [SqlText.Hole(vs[i])] == parts[i];
        Element(before, parts[..i], i == 0, [], Some(vs[i]));
      }
      assert parts[..|vs|] == parts;
    }

    /** One more parenthesised row of a VALUES list. */
    method Row(ghost before: seq<Piece>, ghost parts: seq<seq<Piece>>, first: bool, row: seq<Value>)
      requires Valid() && ps == before + Listed(parts) && first == (parts == [])
      modifies this`ts, this`ps, b
      ensures Valid() && ps == before + Listed(parts + [RowPieces(row)])
    {
      hide Written, Lits, HoleParts;
      ListedSnoc(parts, RowPieces(row));
      ghost var done := Listed(parts);
      assert parts == [] ==> done == [];
      ghost var holes := Listed(HoleParts(row));
      hide Listed;
      if !first {
        Text([Comma]);
      }
      ghost var sofar := if first then [] else done + Lits([Comma]);
      assert ps == before + sofar;
      Text([LParen]);
      HoleList(row);
      Text([RParen]);
      RowAppended(before, sofar, row);
    }

    /** The rows of a VALUES list, up to the first that has not `width` values. */
    method Rows(ghost before: seq<Piece>, width: nat, rows: seq<seq<Value>>) returns (bad: Option<nat>)
      requires Valid() && ps == before
      modifies this`ts, this`ps, b
      ensures Valid()
      ensures bad.None? ==> ps == before + Listed(RowParts(rows, |rows|))
      ensures bad.None? ==> forall i :: 0 <= i < |rows| ==> |rows[i]| == width
      ensures bad.Some? ==> bad.value < |rows| && |rows[bad.value]| != width
      ensures bad.Some? ==> forall i :: 0 <= i < bad.value ==> |rows[i]| == width
    {
      hide Written, Listed, RowPieces, RowParts;
      ListedNone(before);
      RowPartsNone(rows);
      for i := 0 to |rows|
        invariant forall k :: 0 <= k < i ==> |rows[k]| == width
        invariant Valid() && ps == before + Listed(RowParts(rows, i))
      {
        if |rows[i]| != width {
          return Some(i);
        }
        Row(before, RowParts(rows, i), i == 0, rows[i]);
        RowPartsSnoc(rows, i);
      }
      return None;
    }

    /** col = $n for every entry of the map, in iteration order. */
    method Assignments(ghost before: seq<Piece>, order: seq<(string, Value)>)
      requires Valid() && ps == before
      modifies this`ts, this`ps, b
      ensures Valid() && ps == before + Listed(AssignParts(order))
    {
      hide Written, Lits, Listed;
      ListedNone(before);
      assert AssignParts(order[..0]) == [];
      hide AssignParts;
      for i := 0 to |order|
        invariant Valid() && ps == before + Listed(AssignParts(order[..i]))
      {
        Element(before, AssignParts(order[..i]), i == 0, [Word(order[i].0), Compare(Eq)], Some(order[i].1));
        AssignPartsSnoc(order, i);
      }
      assert order[..|order|] == order;
    }

    /** col = EXCLUDED.col for every updated column of an upsert. */
    method Excluded(ghost before: seq<Piece>, cols: seq<string>)
      requires Valid() && ps == before
      modifies this`ts, this`ps, b
      ensures Valid() && ps == before + Listed(ExcludedParts(cols))
    {
      hide Written, Lits, Listed;
      ListedNone(before);
      assert ExcludedParts(cols[..0]) == [];
      hide ExcludedParts;
      for i := 0 to |cols|
        invariant Valid() && ps == before + Listed(ExcludedParts(cols[..i]))
      {
        Element(before, ExcludedParts(cols[..i]), i == 0, [Word(cols[i]), Compare(Eq), Word("EXCLUDED." + cols[i])], None);
        assert ExcludedPart(cols[i]) + [] == ExcludedPart(cols[i]);
        ExcludedPartsSnoc(cols, i);
      }
      assert cols[..|cols|] == cols;
    }

    /** col = col + 1 for every incremented column, after the parts already written. */
    method Increments(ghost before: seq<Piece>, ghost sets: seq<seq<Piece>>, first: bool, cols: seq<string>)
      requires Valid() && ps == before + Listed(sets) && first == (sets == [])
      modifies this`ts, this`ps, b
      ensures Valid() && ps == before + Listed(sets + IncrementParts(cols))
    {
      assert sets + IncrementParts(cols[..0]) == sets;
      hide Written, Lits, Listed, IncrementParts;
      for i := 0 to |cols|
        invariant Valid() && ps == before + Listed(sets + IncrementParts(cols[..i]))
      {
        var col := cols[i];
        ghost var parts := sets + IncrementParts(cols[..i]);
        Element(before, parts, first && i == 0, [Word(col), Compare(Eq), Word(col), Word("+"), Number(1)], None);
        IncrementPartsSnoc(cols, i);
        assert IncrementPart(col) + [] == IncrementPart(col);
        assert parts + [IncrementPart(col)] == sets + IncrementParts(cols[..i + 1]);
      }
      assert cols[..|cols|] == cols;
    }
  }

  // ---- the builders ----

  method BuildSelect(q: SelectQuery) returns (ts: seq<Token>, args: seq<Value>)
    ensures Renders(ts, args, SelectPieces(q))
    ensures R.ReadsAsSelect(ts, args, q)
  {
    hide R.ReadsAsSelect, SelectEnd, SelectMiddle, ReadSelect, Bound;
    hide Written, Renders, Lits, Clause, Optional, PositiveBound, SelectHead, JoinSymbol, OrderName;
    var w := new Writer(SelectHead(q));
    ghost var head := Lits(SelectHead(q));
    assert head == head + JoinPieces([]);
    for i := 0 to |q.joins|
      invariant w.Valid() && w.ps == head + JoinPieces(q.joins[..i])
    {
      w.Text(JoinSymbol(q.joins[i]));
      assert q.joins[..i + 1][..i] == q.joins[..i];
      assert w.ps == head + (JoinPieces(q.joins[..i]) + Lits(JoinSymbol(q.joins[i])));
    }
    assert q.joins[..|q.joins|] == q.joins;
    w.Conditions("WHERE", q.conditions);
    w.Keyworded("GROUP BY", q.groupBy);
    w.Conditions("HAVING", q.having);
    var orders: seq<string> := [];
    for i := 0 to |q.orderBy|
      invariant orders == OrderNames(q.orderBy[..i])
    {
      orders := orders + [OrderName(q.orderBy[i])];
      assert q.orderBy[..i + 1][..i] == q.orderBy[..i];
    }
    assert q.orderBy[..|q.orderBy|] == q.orderBy;
    w.Keyworded("ORDER BY", orders);
    w.BoundNumber("LIMIT", q.limit);
    w.BoundNumber("OFFSET", q.offset);
    if q.forUpdate {
      w.Text([Word("FOR UPDATE")]);
    } else {
      assert w.ps == w.ps + [];
    }
    WrittenRenders(w.ts, w.b.args, w.b.idx, w.ps);
    RendersBound(w.ts, w.b.args, w.ps);
    R.BoundSelectReadsBack(w.ts, w.b.args, q);
    return w.ts, w.b.args;
  }

  /** The row a built INSERT inserts has value number i in column number i. */
  method BuildInsert(q: InsertQuery) returns (ts: seq<Token>, args: seq<Value>)
    ensures Renders(ts, args, InsertPieces(q))
    ensures R.ReadsAsInsert(ts, args, Insertion(q.table, q.columns, [q.values], None, q.returning))
  {
    hide ReadInsert, Bound;
    hide Written, Renders, Lits, Listed, HoleParts, Optional, InsertHead;
    var w := new Writer(InsertHead(q.table, q.columns) + [LParen]);
    w.HoleList(q.values);
    w.Text([RParen]);
    w.Keyworded("RETURNING", q.returning);
    WrittenRenders(w.ts, w.b.args, w.b.idx, w.ps);
    RendersBound(w.ts, w.b.args, w.ps);
    R.InsertReadsBack(q);
    return w.ts, w.b.args;
  }

  method BuildUpsert(q: UpsertQuery) returns (ts: seq<Token>, args: seq<Value>)
    ensures Renders(ts, args, UpsertPieces(q))
    ensures
      var conflict := Conflict(q.conflictColumn, R.ExcludedSets(q.updateColumns));
      R.ReadsAsInsert(ts, args, Insertion(q.table, q.columns, [q.values], Some(conflict), q.returning))
  {
    hide ReadInsert, Bound, R.ExcludedSets;
    hide Written, Renders, Lits, Listed, HoleParts, ExcludedParts, Optional, InsertHead;
    var w := new Writer(InsertHead(q.table, q.columns) + [LParen]);
    w.HoleList(q.values);
    w.Text([RParen, Word("ON CONFLICT"), LParen, Word(q.conflictColumn), RParen, Word("DO UPDATE SET")]);
    w.Excluded(w.ps, q.updateColumns);
    w.Keyworded("RETURNING", q.returning);
    WrittenRenders(w.ts, w.b.args, w.b.idx, w.ps);
    RendersBound(w.ts, w.b.args, w.ps);
    R.UpsertReadsBack(q);
    return w.ts, w.b.args;
  }

  /** The order in which one traversal of the map happens to meet its entries. */
  method Traversal(assign: map<string, Value>) returns (order: seq<(string, Value)>)
    ensures Enumerates(order, assign)
  {
    order := [];
    var left := assign.Keys;
    while left != {}
      invariant left <= assign.Keys
      invariant forall i :: 0 <= i < |order| ==> order[i].0 in assign && assign[order[i].0] == order[i].1 && order[i].0 !in left
      invariant forall c :: c in assign && c !in left ==> exists i :: 0 <= i < |order| && order[i].0 == c
      invariant forall i, j :: 0 <= i < j < |order| ==> order[i].0 != order[j].0
      decreases left
    {
      var col :| col in left;
      ghost var before := order;
      order, left := order + [(col, assign[col])], left - {col};
      forall c | c in assign && c !in left ensures exists i :: 0 <= i < |order| && order[i].0 == c {
        if c == col {
          assert order[|before|].0 == c;
        } else {
          var i :| 0 <= i < |before| && before[i].0 == c;
          assert order[i].0 == c;
        }
      }
    }
  }

  /** Whatever order the assignment map is iterated in, the statement is the reference form
      for that order. */
  method BuildUpdate(q: UpdateQuery) returns (ts: seq<Token>, args: seq<Value>, order: seq<(string, Value)>)
    ensures Enumerates(order, q.assign)
    ensures Renders(ts, args, UpdatePieces(q, order))
    ensures R.ReadsAsUpdate(ts, args, q, order)
  {
    hide R.ReadsAsUpdate, ReadChange, Bound;
    order := Traversal(q.assign);
    hide Written, Renders, Lits, Clause, Optional, Listed, IncrementParts, Enumerates;
    var w := new Writer([Word("UPDATE"), Word(q.table), Word("SET")]);
    ghost var before := w.ps;
    w.Assignments(before, order);
    w.Increments(before, AssignParts(order), order == [], q.increment);
    w.Conditions("WHERE", q.conditions);
    w.Keyworded("RETURNING", q.returning);
    WrittenRenders(w.ts, w.b.args, w.b.idx, w.ps);
    RendersBound(w.ts, w.b.args, w.ps);
    R.BoundUpdateReadsBack(w.ts, w.b.args, q, order);
    ts, args := w.ts, w.b.args;
  }

  method BuildDelete(q: DeleteQuery) returns (ts: seq<Token>, args: seq<Value>)
    ensures Renders(ts, args, DeletePieces(q))
    ensures R.ReadsAsDelete(ts, args, q)
  {
    hide R.ReadsAsDelete, ReadChange, Bound;
    hide Written, Renders, Lits, Clause;
    var w: Writer;
    if q.softDelete {
      w := new Writer([Word("UPDATE"), Word(q.table), Word("SET status = 'DELETED'")]);
      w.Conditions("WHERE", q.conditions);
    } else {
      w := new Writer([Word("DELETE FROM"), Word(q.table)]);
      w.Conditions("WHERE", q.conditions);
    }
    WrittenRenders(w.ts, w.b.args, w.b.idx, w.ps);
    RendersBound(w.ts, w.b.args, w.ps);
    R.BoundDeleteReadsBack(w.ts, w.b.args, q);
    return w.ts, w.b.args;
  }

  lemma InsertManyRead(ts: seq<Token>, args: seq<Value>, table: string, columns: seq<string>, rows: seq<seq<Value>>)
    requires rows != [] && Renders(ts, args, Lits(InsertHead(table, columns)) + Listed(RowParts(rows, |rows|)))
    ensures Renders(ts, args, InsertManyPieces(table, columns, rows))
    ensures R.ReadsAsInsert(ts, args, Insertion(table, columns, rows, None, []))
  {
    hide ReadInsert, Lits, Listed, RowParts, InsertHead;
    R.InsertManyReadsBack(table, columns, rows);
  }

  datatype InsertManyResult =
    | Nothing
    | BadRow(row: nat)
    | Statement(ts: seq<Token>, args: seq<Value>)

  /** No rows: nothing to run.  Otherwise the first row whose length is not the number of
      columns is reported, and without one the statement inserts exactly the rows. */
  method InsertMany(table: string, columns: seq<string>, rows: seq<seq<Value>>) returns (r: InsertManyResult)
    ensures r.Nothing? <==> rows == []
    ensures r.BadRow? ==> r.row < |rows| && |rows[r.row]| != |columns|
    ensures r.BadRow? ==> forall i :: 0 <= i < r.row ==> |rows[i]| == |columns|
    ensures r.Statement? ==> forall i :: 0 <= i < |rows| ==> |rows[i]| == |columns|
    ensures r.Statement? ==> Renders(r.ts, r.args, InsertManyPieces(table, columns, rows))
    ensures r.Statement? ==> R.ReadsAsInsert(r.ts, r.args, Insertion(table, columns, rows, None, []))
  {
    if |rows| == 0 {
      return Nothing;
    }
    hide Written, Renders, Lits, Listed, InsertHead, RowParts, R.ReadsAsInsert, InsertManyPieces;
    var w := new Writer(InsertHead(table, columns));
    var bad := w.Rows(w.ps, |columns|, rows);
    if bad.Some? {
      return BadRow(bad.value);
    }
    WrittenRenders(w.ts, w.b.args, w.b.idx, w.ps);
    InsertManyRead(w.ts, w.b.args, table, columns, rows);
    return Statement(w.ts, w.b.args);
  }

  /** Rendering a WHERE body from start index s gives the rendering from 1 moved by s - 1,
      with the same arguments. */
  lemma WhereShift(cs: seq<Condition>, s: int)
    ensures Numbered(JoinedPieces(cs, AndKw), s) == Shifted(Numbered(JoinedPieces(cs, AndKw), 1), s - 1)
  {
    NumberedShift(JoinedPieces(cs, AndKw), 1, s - 1);
  }
}
