/** Reading undoes building: the reference form of every statement, read from left to right, gives back the query it
    was built from, and the text of its conditions, read as an expression, accepts the rows the conditions accept. */
module SqlRoundTrip {
  import opened Options
  import opened SqlText
  import opened SqlConditions
  import opened SqlForms
  import opened SqlReading
  import opened SqlMeaning
  import G = SqlGrammar

  // ---- conditions ----

  /** `w` is the text of the conditions `cs`: absent if there are none, otherwise an expression if and only if no group
      is empty, and then with the result of all the conditions together on every row. */
  ghost predicate Filters(w: seq<Piece>, cs: seq<Condition>) {
    && (w == [] <==> cs == [])
    && (cs != [] ==> (G.Parse(Numbered(w, 1)).Some? <==> NoEmptyGroups(cs)))
    && (cs != [] && NoEmptyGroups(cs) ==> forall env: Env :: Accepts(env, w, cs))
  }

  ghost predicate Accepts(env: Env, w: seq<Piece>, cs: seq<Condition>) {
    && G.Parse(Numbered(w, 1)).Some?
    && DisjTruth(env, Holes(w), G.Parse(Numbered(w, 1)).value) == AllMeaning(env, cs)
  }

  predicate NoWords(ps: seq<Piece>) {
    forall i :: 0 <= i < |ps| ==> !(ps[i].Lit? && ps[i].sym.Word?)
  }

  lemma {:induction false} PiecesNoWords(c: Condition)
    ensures NoWords(Pieces(c)) && Pieces(c) != [] && Pieces(c)[0] != Lit(Compare(Eq))
    decreases c, 1
  {
    if c.op.And? {
      JoinedNoWords(c.sub, AndKw);
    } else if c.op.Or? {
      JoinedNoWords(c.sub, OrKw);
    }
  }

  lemma {:induction false} JoinedNoWords(cs: seq<Condition>, sep: Symbol)
    requires !sep.Word?
    ensures NoWords(JoinedPieces(cs, sep)) && (JoinedPieces(cs, sep) == [] <==> cs == [])
    ensures cs != [] ==> JoinedPieces(cs, sep)[0] != Lit(Compare(Eq))
    decreases cs, 0
  {
    hide Pieces;
    if cs != [] {
      PiecesNoWords(cs[0]);
      JoinedNoWords(cs[1..], sep);
    }
  }

  lemma ConditionsFilter(cs: seq<Condition>)
    ensures Filters(JoinedPieces(cs, AndKw), cs)
  {
    hide Pieces, JoinedPieces, Numbered, Holes, G.Parse;
    var w := JoinedPieces(cs, AndKw);
    JoinedNoWords(cs, AndKw);
    WhereParsesIff(cs, 1);
    if cs != [] && NoEmptyGroups(cs) {
      forall env: Env ensures Accepts(env, w, cs) {
        WherePreservesMeaning(cs, env, [], []);
        assert [] + Holes(w) + [] == Holes(w);
      }
    }
  }

  // ---- what may follow ----

  /** The text is over, or goes on with one of the keywords. */
  predicate Begins(ps: seq<Piece>, keywords: set<string>) {
    ps == [] || (NextWord(ps) && ps[0].sym.text in keywords)
  }

  /** An item of a list ends here. */
  predicate Ends(ps: seq<Piece>) {
    ps == [] || (ps[0].Lit? && ps[0].sym != Word("+"))
  }

  // ---- lists ----

  lemma {:induction false} ListedCons(part: seq<Piece>, parts: seq<seq<Piece>>)
    requires parts != []
    ensures Listed([part] + parts) == part + [Lit(Comma)] + Listed(parts)
  {
    var all, n := [part] + parts, |parts|;
    assert all[..n] == [part] + parts[..n - 1];
    if n == 1 {
      assert Listed(all[..n]) == part;
    } else {
      ListedCons(part, parts[..n - 1]);
      var head, tail := part + [Lit(Comma)], Lits([Comma]) + parts[n - 1];
      assert head + Listed(parts[..n - 1]) + tail == head + (Listed(parts[..n - 1]) + tail);
    }
  }

  /** `item` reads `part` as `value`, whatever comes after it. */
  ghost predicate ReadsAs<T>(item: seq<Piece> -> Reading<T>, part: seq<Piece>, value: T) {
    forall tail :: Ends(tail) ==> item(part + tail) == Got(value, tail)
  }

  lemma ItemReads<T>(item: seq<Piece> -> Reading<T>, part: seq<Piece>, value: T, tail: seq<Piece>)
    requires ReadsAs(item, part, value) && Ends(tail)
    ensures item(part + tail) == Got(value, tail)
  {
  }

  ghost predicate ListReadsAs<T>(item: seq<Piece> -> Reading<T>, ps: seq<Piece>, values: seq<T>, tail: seq<Piece>) {
    ListAt(item, ps) == Got(values, tail)
  }

  lemma ListLast<T>(item: seq<Piece> -> Reading<T>, parts: seq<seq<Piece>>, values: seq<T>, tail: seq<Piece>)
    requires |parts| == |values| == 1 && ReadsAs(item, parts[0], values[0]) && Ends(tail) && !Next(tail, Comma)
    ensures ListReadsAs(item, Listed(parts) + tail, values, tail)
  {
    hide ReadsAs;
    ItemReads(item, parts[0], values[0], tail);
    assert values == [values[0]];
  }

  lemma ListStep<T>(item: seq<Piece> -> Reading<T>, part: seq<Piece>, value: T, rest: seq<Piece>, others: seq<T>, tail: seq<Piece>)
    requires ReadsAs(item, part, value)
    requires ListReadsAs(item, rest, others, tail)
    ensures ListReadsAs(item, part + [Lit(Comma)] + rest, [value] + others, tail)
  {
    hide ReadsAs;
    var more := [Lit(Comma)] + rest;
    assert part + [Lit(Comma)] + rest == part + more;
    ItemReads(item, part, value, more);
    assert more[1..] == rest;
  }

  lemma {:induction false} ListReads<T>(item: seq<Piece> -> Reading<T>, parts: seq<seq<Piece>>, values: seq<T>, tail: seq<Piece>)
    requires |parts| == |values| > 0 && forall i :: 0 <= i < |parts| ==> ReadsAs(item, parts[i], values[i])
    requires Ends(tail) && !Next(tail, Comma)
    ensures ListReadsAs(item, Listed(parts) + tail, values, tail)
    decreases |parts|
  {
    hide ReadsAs, Ends, Next, ListReadsAs, Listed;
    if |parts| == 1 {
      ListLast(item, parts, values, tail);
    } else {
      var rest := Listed(parts[1..]) + tail;
      ListReads(item, parts[1..], values[1..], tail);
      ListStep(item, parts[0], values[0], rest, values[1..], tail);
      ListedCons(parts[0], parts[1..]);
      assert parts == [parts[0]] + parts[1..] && values == [values[0]] + values[1..];
      assert Listed(parts) + tail == parts[0] + [Lit(Comma)] + rest;
    }
  }

  lemma GroupStep<T>(item: seq<Piece> -> Reading<T>, body: seq<Piece>, values: seq<T>, tail: seq<Piece>)
    requires body == [] ==> values == []
    requires body != [] ==> body[0] != Lit(RParen) && ListReadsAs(item, body + ([Lit(RParen)] + tail), values, [Lit(RParen)] + tail)
    ensures GroupAt(item, [Lit(LParen)] + body + [Lit(RParen)] + tail) == Got(values, tail)
  {
    hide ListAt;
    var ps := [Lit(LParen)] + body + [Lit(RParen)] + tail;
    var end := [Lit(RParen)] + tail;
    assert ps[1..] == body + end && end[1..] == tail;
    assert body == [] ==> ps[2..] == tail;
  }

  /** A parenthesised list, of which no item begins with a closing parenthesis. */
  lemma GroupReads<T>(item: seq<Piece> -> Reading<T>, parts: seq<seq<Piece>>, values: seq<T>, tail: seq<Piece>)
    requires |parts| == |values| && forall i :: 0 <= i < |parts| ==> ReadsAs(item, parts[i], values[i])
    requires forall i :: 0 <= i < |parts| ==> parts[i] != [] && parts[i][0] != Lit(RParen)
    ensures GroupAt(item, [Lit(LParen)] + Listed(parts) + [Lit(RParen)] + tail) == Got(values, tail)
  {
    hide ReadsAs, ListReadsAs, GroupAt;
    if parts != [] {
      hide Listed;
      ListReads(item, parts, values, [Lit(RParen)] + tail);
      ListedFirst(parts);
    }
    GroupStep(item, Listed(parts), values, tail);
  }

  lemma {:induction false} ListedFirst(parts: seq<seq<Piece>>)
    requires parts != [] && parts[0] != []
    ensures Listed(parts) != [] && Listed(parts)[0] == parts[0][0]
  {
    if |parts| > 1 {
      ListedFirst(parts[..|parts| - 1]);
    }
  }

  function NameParts(names: seq<string>): (parts: seq<seq<Piece>>)
    ensures |parts| == |names| && forall i :: 0 <= i < |names| ==> parts[i] == [Lit(Word(names[i]))]
  {
    seq(|names|, i requires 0 <= i < |names| => [Lit(Word(names[i]))])
  }

  lemma {:induction false} NamesListed(names: seq<string>)
    ensures Lits(Names(names)) == Listed(NameParts(names))
  {
    if |names| > 1 {
      NamesListed(names[1..]);
      ListedCons([Lit(Word(names[0]))], NameParts(names[1..]));
      assert NameParts(names) == [[Lit(Word(names[0]))]] + NameParts(names[1..]);
    }
  }

  lemma NamesRead(names: seq<string>, tail: seq<Piece>)
    requires Ends(tail) && !Next(tail, Comma) && names != []
    ensures ListAt(NameAt, Lits(Names(names)) + tail) == Got(names, tail)
  {
    NamesListed(names);
    NamePartsRead(names);
    ListReads(NameAt, NameParts(names), names, tail);
  }

  lemma NamePartsRead(names: seq<string>)
    ensures forall i :: 0 <= i < |names| ==> ReadsAs(NameAt, NameParts(names)[i], names[i])
  {
    forall i, tail | 0 <= i < |names| && Ends(tail) ensures NameAt(NameParts(names)[i] + tail) == Got(names[i], tail) {
      assert ([Lit(Word(names[i]))] + tail)[1..] == tail;
    }
  }

  lemma HolePartsRead(vs: seq<Value>)
    ensures forall i :: 0 <= i < |vs| ==> ReadsAs(ValueAt, HoleParts(vs)[i], vs[i])
  {
    forall i, tail | 0 <= i < |vs| && Ends(tail) ensures ValueAt(HoleParts(vs)[i] + tail) == Got(vs[i], tail) {
      assert ([Hole(vs[i])] + tail)[1..] == tail;
    }
  }

  lemma RowReads(row: seq<Value>, tail: seq<Piece>)
    ensures RowAt(RowPieces(row) + tail) == Got(row, tail)
  {
    hide ReadsAs, GroupAt, Listed;
    HolePartsRead(row);
    GroupReads(ValueAt, HoleParts(row), row, tail);
    assert Lits([LParen]) == [Lit(LParen)] && Lits([RParen]) == [Lit(RParen)];
  }

  lemma {:induction false} RowPartsAt(rows: seq<seq<Value>>, n: nat, i: nat)
    requires i < n <= |rows|
    ensures RowParts(rows, n)[i] == RowPieces(rows[i])
  {
    if i < n - 1 {
      RowPartsAt(rows, n - 1, i);
    }
  }

  lemma RowsRead(rows: seq<seq<Value>>, tail: seq<Piece>)
    requires rows != [] && Ends(tail) && !Next(tail, Comma)
    ensures ListAt(RowAt, Listed(RowParts(rows, |rows|)) + tail) == Got(rows, tail)
  {
    forall i | 0 <= i < |rows| ensures ReadsAs(RowAt, RowParts(rows, |rows|)[i], rows[i]) {
      RowPartsAt(rows, |rows|, i);
      forall tail' | Ends(tail') ensures RowAt(RowPieces(rows[i]) + tail') == Got(rows[i], tail') {
        RowReads(rows[i], tail');
      }
    }
    ListReads(RowAt, RowParts(rows, |rows|), rows, tail);
  }

  // ---- clauses ----

  lemma OptionalReads(keyword: string, names: seq<string>, tail: seq<Piece>, keywords: set<string>)
    requires Begins(tail, keywords) && keyword !in keywords && "+" !in keywords
    ensures NamesAfter(keyword, Optional(keyword, names) + tail) == Got(names, tail)
    ensures Begins(Optional(keyword, names) + tail, keywords + {keyword})
  {
    if names == [] {
      assert Optional(keyword, names) + tail == tail;
    } else {
      NamesRead(names, tail);
      assert (Optional(keyword, names) + tail)[1..] == Lits(Names(names)) + tail;
    }
  }

  lemma BoundReads(keyword: string, n: int, tail: seq<Piece>, keywords: set<string>)
    requires Begins(tail, keywords) && keyword !in keywords
    ensures ValueAfter(keyword, PositiveBound(keyword, n) + tail) == Got(if n > 0 then Some(Scalar(n)) else None, tail)
    ensures Begins(PositiveBound(keyword, n) + tail, keywords + {keyword})
  {
    var ps := PositiveBound(keyword, n) + tail;
    if n > 0 {
      assert ps[1..] == [Hole(Scalar(n))] + tail;
      assert ([Hole(Scalar(n))] + tail)[1..] == tail;
    } else {
      assert ps == tail;
    }
  }

  lemma {:induction false} WordlessReads(w: seq<Piece>, tail: seq<Piece>)
    requires NoWords(w) && (tail == [] || NextWord(tail))
    ensures Wordless(w + tail) == |w|
  {
    if w == [] {
      assert w + tail == tail;
    } else {
      WordlessReads(w[1..], tail);
      assert (w + tail)[1..] == w[1..] + tail;
    }
  }

  lemma ClauseReads(keyword: string, cs: seq<Condition>, tail: seq<Piece>, keywords: set<string>)
    requires Begins(tail, keywords) && keyword !in keywords
    ensures ConditionAfter(keyword, Clause(keyword, cs) + tail) == Got(JoinedPieces(cs, AndKw), tail)
    ensures Begins(Clause(keyword, cs) + tail, keywords + {keyword})
  {
    hide JoinedPieces;
    var w := JoinedPieces(cs, AndKw);
    JoinedNoWords(cs, AndKw);
    if cs == [] {
      assert Clause(keyword, cs) + tail == tail;
    } else {
      WordlessReads(w, tail);
      assert (Clause(keyword, cs) + tail)[1..] == w + tail;
      assert (w + tail)[..|w|] == w && (w + tail)[|w|..] == tail;
    }
  }

  // ---- INSERT ----

  lemma InsertHeadReads(table: string, columns: seq<string>, tail: seq<Piece>)
    ensures
      var ps := Lits(InsertHead(table, columns)) + tail;
      && |ps| >= 2 && Next(ps, Word("INSERT INTO")) && ps[1] == Lit(Word(table))
      && GroupAt(NameAt, ps[2..]) == Got(columns, [Lit(Word("VALUES"))] + tail)
  {
    hide ReadsAs, GroupAt, Listed, Names, Lits;
    var ps, after := Lits(InsertHead(table, columns)) + tail, [Lit(Word("VALUES"))] + tail;
    NamesListed(columns);
    NamePartsRead(columns);
    GroupReads(NameAt, NameParts(columns), columns, after);
    assert ps[2..] == [Lit(LParen)] + Lits(Names(columns)) + [Lit(RParen)] + after;
  }

  /** The text of an INSERT up to its rows. */
  lemma InsertRowsRead(table: string, columns: seq<string>, rows: seq<seq<Value>>, tail: seq<Piece>)
    requires rows != [] && Ends(tail) && !Next(tail, Comma)
    ensures ReadInsert(InsertManyPieces(table, columns, rows) + tail) == InsertTail(table, columns, rows, tail)
  {
    hide InsertHead, GroupAt, ListAt, Lits, Listed, InsertTail;
    var listed := Listed(RowParts(rows, |rows|));
    var ps := Lits(InsertHead(table, columns)) + (listed + tail);
    assert InsertManyPieces(table, columns, rows) + tail == ps;
    InsertHeadReads(table, columns, listed + tail);
    RowsRead(rows, tail);
    assert ([Lit(Word("VALUES"))] + (listed + tail))[1..] == listed + tail;
  }

  /** A multi-row INSERT inserts its rows, in order, column by column. */
  lemma InsertManyReadsBack(table: string, columns: seq<string>, rows: seq<seq<Value>>)
    requires rows != []
    ensures ReadInsert(InsertManyPieces(table, columns, rows)) == Some(Insertion(table, columns, rows, None, []))
  {
    InsertRowsRead(table, columns, rows, []);
    assert InsertManyPieces(table, columns, rows) + [] == InsertManyPieces(table, columns, rows);
  }

  lemma HeadAndParen(table: string, columns: seq<string>)
    ensures Lits(InsertHead(table, columns) + [LParen]) == Lits(InsertHead(table, columns)) + Lits([LParen])
  {
    hide InsertHead;
  }

  lemma OneRowListed(values: seq<Value>)
    ensures Listed(RowParts([values], 1)) == RowPieces(values)
  {
    hide RowPieces;
    assert RowParts([values], 1) == [RowPieces(values)];
  }

  lemma OneRow(table: string, columns: seq<string>, values: seq<Value>, tail: seq<Piece>)
    ensures Lits(InsertHead(table, columns) + [LParen]) + Listed(HoleParts(values)) + Lits([RParen]) + tail
            == InsertManyPieces(table, columns, [values]) + tail
  {
    hide InsertHead, Lits, HoleParts, Listed, RowParts;
    HeadAndParen(table, columns);
    OneRowListed(values);
    var head, holes := Lits(InsertHead(table, columns)), Listed(HoleParts(values));
    assert head + Lits([LParen]) + holes + Lits([RParen]) == head + (Lits([LParen]) + holes + Lits([RParen]));
  }

  /** An INSERT puts value number i into column number i. */
  lemma InsertReadsBack(q: InsertQuery)
    ensures ReadInsert(InsertPieces(q)) == Some(Insertion(q.table, q.columns, [q.values], None, q.returning))
  {
    var tail := Optional("RETURNING", q.returning);
    OptionalReads("RETURNING", q.returning, [], {});
    assert tail + [] == tail;
    OneRow(q.table, q.columns, q.values, tail);
    InsertRowsRead(q.table, q.columns, [q.values], tail);
  }

  function ExcludedSets(columns: seq<string>): (r: seq<Assignment>)
    ensures |r| == |columns|
    ensures forall i :: 0 <= i < |r| ==> r[i] == ToColumn(columns[i], "EXCLUDED." + columns[i])
  {
    seq(|columns|, i requires 0 <= i < |columns| => ToColumn(columns[i], "EXCLUDED." + columns[i]))
  }

  lemma {:induction false} ExcludedPartsAt(columns: seq<string>, i: nat)
    requires i < |columns|
    ensures ExcludedParts(columns)[i] == ExcludedPart(columns[i])
  {
    if i < |columns| - 1 {
      ExcludedPartsAt(columns[..|columns| - 1], i);
    }
  }

  lemma ExcludedPartReads(column: string)
    ensures ReadsAs(AssignmentAt, ExcludedPart(column), ToColumn(column, "EXCLUDED." + column))
  {
    forall tail | Ends(tail) ensures AssignmentAt(ExcludedPart(column) + tail) == Got(ToColumn(column, "EXCLUDED." + column), tail) {
      assert (ExcludedPart(column) + tail)[3..] == tail;
    }
  }

  lemma ExcludedReads(columns: seq<string>, tail: seq<Piece>, keywords: set<string>)
    requires Begins(tail, keywords) && "+" !in keywords
    requires |tail| >= 2 ==> tail[1] != Lit(Compare(Eq))
    ensures AssignmentsAt(Listed(ExcludedParts(columns)) + tail) == Got(ExcludedSets(columns), tail)
  {
    var parts, sets := ExcludedParts(columns), ExcludedSets(columns);
    forall i | 0 <= i < |columns| ensures ReadsAs(AssignmentAt, parts[i], sets[i]) {
      hide ReadsAs, AssignmentAt, ExcludedPart, ExcludedParts;
      ExcludedPartsAt(columns, i);
      ExcludedPartReads(columns[i]);
    }
    if columns != [] {
      ExcludedPartsAt(columns, 0);
    }
    AssignmentsRead(parts, sets, tail, keywords);
  }

  /** A SET clause, possibly empty. */
  lemma AssignmentsRead(parts: seq<seq<Piece>>, sets: seq<Assignment>, tail: seq<Piece>, keywords: set<string>)
    requires |parts| == |sets| && forall i :: 0 <= i < |parts| ==> ReadsAs(AssignmentAt, parts[i], sets[i])
    requires parts != [] ==> |parts[0]| >= 3 && parts[0][1] == Lit(Compare(Eq))
    requires Begins(tail, keywords) && "+" !in keywords
    requires |tail| >= 2 ==> tail[1] != Lit(Compare(Eq))
    ensures AssignmentsAt(Listed(parts) + tail) == Got(sets, tail)
  {
    hide ReadsAs, AssignmentAt, ListAt;
    if parts == [] {
      assert Listed(parts) + tail == tail;
    } else {
      ListReads(AssignmentAt, parts, sets, tail);
      AssignmentFirst(parts);
    }
  }

  /** A list of assignments begins with a column and an equals sign. */
  lemma {:induction false} AssignmentFirst(parts: seq<seq<Piece>>)
    requires parts != [] && |parts[0]| >= 3 && parts[0][1] == Lit(Compare(Eq))
    ensures |Listed(parts)| >= 2 && Listed(parts)[1] == Lit(Compare(Eq))
  {
    if |parts| > 1 {
      AssignmentFirst(parts[..|parts| - 1]);
    }
  }

  /** What follows VALUES (...) in an upsert. */
  lemma ConflictReads(column: string, columns: seq<string>, tail: seq<Piece>)
    requires Begins(tail, {"RETURNING"}) && (|tail| >= 2 ==> tail[1] != Lit(Compare(Eq)))
    ensures
      var ps := Lits([Word("ON CONFLICT"), LParen, Word(column), RParen, Word("DO UPDATE SET")])
                + (Listed(ExcludedParts(columns)) + tail);
      ConflictAt(ps) == Got(Some(Conflict(column, ExcludedSets(columns))), tail)
  {
    var sets := Listed(ExcludedParts(columns)) + tail;
    ExcludedReads(columns, tail, {"RETURNING"});
    hide Listed, ExcludedParts, AssignmentsAt;
    assert (Lits([Word("ON CONFLICT"), LParen, Word(column), RParen, Word("DO UPDATE SET")]) + sets)[5..] == sets;
  }

  lemma UpsertParts(q: UpsertQuery, holes: seq<Piece>, sets: seq<Piece>, returning: seq<Piece>)
    ensures
      var head := Lits(InsertHead(q.table, q.columns) + [LParen]);
      var conflict := [Word("ON CONFLICT"), LParen, Word(q.conflictColumn), RParen, Word("DO UPDATE SET")];
      head + holes + Lits([RParen] + conflict) + sets + returning
      == head + holes + Lits([RParen]) + (Lits(conflict) + (sets + returning))
  {
    hide InsertHead;
    var conflict := [Word("ON CONFLICT"), LParen, Word(q.conflictColumn), RParen, Word("DO UPDATE SET")];
    assert Lits([RParen] + conflict) == Lits([RParen]) + Lits(conflict);
  }

  function UpsertTail(q: UpsertQuery): seq<Piece> {
    Lits([Word("ON CONFLICT"), LParen, Word(q.conflictColumn), RParen, Word("DO UPDATE SET")])
    + (Listed(ExcludedParts(q.updateColumns)) + Optional("RETURNING", q.returning))
  }

  lemma UpsertTailReads(q: UpsertQuery)
    ensures
      InsertTail(q.table, q.columns, [q.values], UpsertTail(q)) ==
      Some(Insertion(q.table, q.columns, [q.values], Some(Conflict(q.conflictColumn, ExcludedSets(q.updateColumns))), q.returning))
    ensures Ends(UpsertTail(q)) && !Next(UpsertTail(q), Comma)
  {
    hide Listed, ExcludedParts, ExcludedSets, ConflictAt, NamesAfter, Optional;
    var returning := Optional("RETURNING", q.returning);
    OptionalReads("RETURNING", q.returning, [], {});
    OptionalSecond("RETURNING", q.returning);
    assert returning + [] == returning;
    ConflictReads(q.conflictColumn, q.updateColumns, returning);
  }

  /** An upsert inserts its values and, on a conflict, takes each updated column from the row it could not insert. */
  lemma UpsertReadsBack(q: UpsertQuery)
    ensures ReadInsert(UpsertPieces(q)) ==
            Some(Insertion(q.table, q.columns, [q.values], Some(Conflict(q.conflictColumn, ExcludedSets(q.updateColumns))), q.returning))
  {
    hide Listed, HoleParts, ExcludedParts, InsertHead, Lits, ReadInsert, ExcludedSets, Optional, InsertTail, InsertManyPieces, Ends, Next;
    UpsertTailReads(q);
    UpsertParts(q, Listed(HoleParts(q.values)), Listed(ExcludedParts(q.updateColumns)), Optional("RETURNING", q.returning));
    var conflict := [Word("ON CONFLICT"), LParen, Word(q.conflictColumn), RParen, Word("DO UPDATE SET")];
    assert [RParen] + conflict == [RParen, Word("ON CONFLICT"), LParen, Word(q.conflictColumn), RParen, Word("DO UPDATE SET")];
    OneRow(q.table, q.columns, q.values, UpsertTail(q));
    InsertRowsRead(q.table, q.columns, [q.values], UpsertTail(q));
  }

  lemma OptionalSecond(keyword: string, names: seq<string>)
    ensures names == [] ==> Optional(keyword, names) == []
    ensures var ps := Optional(keyword, names); names != [] ==> |ps| >= 2 && ps[1] == Lit(Word(names[0]))
  {
  }

  // ---- UPDATE and DELETE ----

  /** The assignments of an UPDATE: the entries of the map in the order they were met, then the increments. */
  function UpdateSets(order: seq<(string, Value)>, increment: seq<string>): (sets: seq<Assignment>)
    ensures |sets| == |order| + |increment|
    ensures forall i :: 0 <= i < |order| ==> sets[i] == ToValue(order[i].0, order[i].1)
    ensures forall i :: 0 <= i < |increment| ==> sets[|order| + i] == ToSum(increment[i], increment[i], 1)
  {
    seq(|order|, i requires 0 <= i < |order| => ToValue(order[i].0, order[i].1))
    + seq(|increment|, i requires 0 <= i < |increment| => ToSum(increment[i], increment[i], 1))
  }

  lemma {:induction false} AssignPartsAt(order: seq<(string, Value)>, i: nat)
    requires i < |order|
    ensures AssignParts(order)[i] == AssignPart(order[i].0, order[i].1)
  {
    if i < |order| - 1 {
      AssignPartsAt(order[..|order| - 1], i);
    }
  }

  lemma {:induction false} IncrementPartsAt(cols: seq<string>, i: nat)
    requires i < |cols|
    ensures IncrementParts(cols)[i] == IncrementPart(cols[i])
  {
    if i < |cols| - 1 {
      IncrementPartsAt(cols[..|cols| - 1], i);
    }
  }

  lemma AssignPartReads(col: string, v: Value)
    ensures ReadsAs(AssignmentAt, AssignPart(col, v), ToValue(col, v))
  {
    forall tail | Ends(tail) ensures AssignmentAt(AssignPart(col, v) + tail) == Got(ToValue(col, v), tail) {
      assert (AssignPart(col, v) + tail)[3..] == tail;
    }
  }

  lemma IncrementPartReads(col: string)
    ensures ReadsAs(AssignmentAt, IncrementPart(col), ToSum(col, col, 1))
  {
    forall tail | Ends(tail) ensures AssignmentAt(IncrementPart(col) + tail) == Got(ToSum(col, col, 1), tail) {
      assert (IncrementPart(col) + tail)[5..] == tail;
    }
  }

  lemma UpdatePartReads(order: seq<(string, Value)>, increment: seq<string>, i: nat)
    requires i < |order| + |increment|
    ensures
      var part := (AssignParts(order) + IncrementParts(increment))[i];
      ReadsAs(AssignmentAt, part, UpdateSets(order, increment)[i]) && |part| >= 3 && part[1] == Lit(Compare(Eq))
  {
    hide ReadsAs, AssignmentAt, AssignParts, IncrementParts;
    if i < |order| {
      AssignPartsAt(order, i);
      AssignPartReads(order[i].0, order[i].1);
    } else {
      var k := i - |order|;
      IncrementPartsAt(increment, k);
      IncrementPartReads(increment[k]);
      assert UpdateSets(order, increment)[|order| + k] == ToSum(increment[k], increment[k], 1);
    }
  }

  lemma UpdateTailReads(table: string, sets: seq<Assignment>, cs: seq<Condition>, names: seq<string>)
    ensures
      var tail := Clause("WHERE", cs) + Optional("RETURNING", names);
      && UpdateTail(table, sets, tail) == Some(Update(table, sets, JoinedPieces(cs, AndKw), names))
      && Begins(tail, {"WHERE", "RETURNING"}) && (|tail| >= 2 ==> tail[1] != Lit(Compare(Eq)))
  {
    var returning := Optional("RETURNING", names);
    OptionalReads("RETURNING", names, [], {});
    OptionalSecond("RETURNING", names);
    assert returning + [] == returning;
    ClauseReads("WHERE", cs, returning, {"RETURNING"});
    JoinedNoWords(cs, AndKw);
    if cs == [] {
      assert Clause("WHERE", cs) + returning == returning;
    } else {
      assert (Clause("WHERE", cs) + returning)[1] == JoinedPieces(cs, AndKw)[0];
    }
  }

  lemma UpdateSetsRead(order: seq<(string, Value)>, increment: seq<string>, tail: seq<Piece>)
    requires Begins(tail, {"WHERE", "RETURNING"}) && (|tail| >= 2 ==> tail[1] != Lit(Compare(Eq)))
    ensures AssignmentsAt(Listed(AssignParts(order) + IncrementParts(increment)) + tail) == Got(UpdateSets(order, increment), tail)
  {
    hide ReadsAs, AssignmentAt, AssignmentsAt, AssignParts, IncrementParts, UpdateSets, Listed;
    var parts, sets := AssignParts(order) + IncrementParts(increment), UpdateSets(order, increment);
    forall i | 0 <= i < |parts|
      ensures ReadsAs(AssignmentAt, parts[i], sets[i]) && |parts[i]| >= 3 && parts[i][1] == Lit(Compare(Eq))
    {
      UpdatePartReads(order, increment, i);
    }
    AssignmentsRead(parts, sets, tail, {"WHERE", "RETURNING"});
  }

  lemma UpdateHeadReads(table: string, body: seq<Piece>, sets: seq<Assignment>, tail: seq<Piece>)
    requires AssignmentsAt(body) == Got(sets, tail)
    ensures ReadChange(Lits([Word("UPDATE"), Word(table), Word("SET")]) + body) == UpdateTail(table, sets, tail)
  {
    hide AssignmentsAt, UpdateTail, ConditionAfter;
    assert (Lits([Word("UPDATE"), Word(table), Word("SET")]) + body)[3..] == body;
  }

  /** An UPDATE makes its assignments, then its increments, on the rows its conditions accept. */
  lemma UpdateReadsBack(q: UpdateQuery, order: seq<(string, Value)>)
    ensures ReadChange(UpdatePieces(q, order)) ==
            Some(Update(q.table, UpdateSets(order, q.increment), JoinedPieces(q.conditions, AndKw), q.returning))
  {
    hide AssignmentsAt, AssignParts, IncrementParts, UpdateSets, UpdateTail, ReadChange, Clause, Optional, Listed, JoinedPieces, Lits;
    var listed, sets := Listed(AssignParts(order) + IncrementParts(q.increment)), UpdateSets(order, q.increment);
    var tail := Clause("WHERE", q.conditions) + Optional("RETURNING", q.returning);
    UpdateTailReads(q.table, sets, q.conditions, q.returning);
    UpdateSetsRead(order, q.increment, tail);
    UpdateHeadReads(q.table, listed + tail, sets, tail);
    assert UpdatePieces(q, order) == Lits([Word("UPDATE"), Word(q.table), Word("SET")]) + (listed + tail);
  }

  /** A DELETE, or the UPDATE that marks rows as deleted, is about the rows its conditions accept. */
  lemma DeleteReadsBack(q: DeleteQuery)
    ensures ReadChange(DeletePieces(q)) ==
            Some(if q.softDelete then MarkDeleted(q.table, JoinedPieces(q.conditions, AndKw))
                 else Delete(q.table, JoinedPieces(q.conditions, AndKw)))
  {
    hide Clause, ConditionAfter, JoinedPieces;
    var where := Clause("WHERE", q.conditions);
    ClauseReads("WHERE", q.conditions, [], {});
    assert where + [] == where;
    var soft := Lits([Word("UPDATE"), Word(q.table), Word("SET status = 'DELETED'")]);
    var hard := Lits([Word("DELETE FROM"), Word(q.table)]);
    assert (soft + where)[3..] == where && (hard + where)[2..] == where;
  }

  // ---- SELECT ----

  lemma {:induction false} JoinPiecesCons(j: JoinClause, js: seq<JoinClause>)
    ensures JoinPieces([j] + js) == Lits(JoinSymbol(j)) + JoinPieces(js)
  {
    var all, n := [j] + js, |js|;
    assert all[..n] == if n == 0 then [] else [j] + js[..n - 1];
    if n > 0 {
      JoinPiecesCons(j, js[..n - 1]);
    }
  }

  /** The text does not go on with a JOIN. */
  predicate NoJoin(ps: seq<Piece>) {
    |ps| >= 4 ==> ps[1] != Lit(Word("JOIN")) || !(ps[2].Lit? && ps[2].sym.Word?) || ps[3] != Lit(Word("ON"))
  }

  lemma {:induction false} JoinsRead(js: seq<JoinClause>, tail: seq<Piece>)
    requires NoJoin(tail)
    ensures JoinsAt(JoinPieces(js) + tail) == Got(js, tail)
  {
    if js == [] {
      assert JoinPieces(js) + tail == tail;
    } else {
      hide NoJoin, JoinSymbol;
      var j, rest := js[0], JoinPieces(js[1..]) + tail;
      JoinsRead(js[1..], tail);
      JoinPiecesCons(j, js[1..]);
      assert js == [j] + js[1..];
      JoinStep(j, rest, js[1..], tail);
      assert JoinPieces(js) + tail == Lits(JoinSymbol(j)) + rest;
    }
  }

  lemma JoinStep(j: JoinClause, rest: seq<Piece>, js: seq<JoinClause>, tail: seq<Piece>)
    requires JoinsAt(rest) == Got(js, tail)
    ensures JoinsAt(Lits(JoinSymbol(j)) + rest) == Got([j] + js, tail)
  {
    var ps := Lits(JoinSymbol(j)) + rest;
    assert ps[5..] == rest;
    assert ps[0] == Lit(Word(j.kind)) && ps[1] == Lit(Word("JOIN")) && ps[2] == Lit(Word(j.table));
    assert ps[3] == Lit(Word("ON")) && ps[4] == Lit(Word(j.on));
  }

  lemma {:induction false} OrderNamesAt(os: seq<OrderTerm>, i: nat)
    requires i < |os|
    ensures |OrderNames(os)| == |os| && OrderNames(os)[i] == OrderName(os[i])
  {
    if |os| > 1 {
      OrderNamesAt(os[..|os| - 1], if i < |os| - 1 then i else 0);
    }
  }

  lemma OrderNameReads(o: OrderTerm)
    ensures ReadsAs(TermAt, [Lit(Word(OrderName(o)))], o)
  {
    var s, n := OrderName(o), |o.column|;
    if o.desc {
      assert s[..n] == o.column && s[n..] == " DESC";
    } else {
      assert s[..n] == o.column && s[n..] == " ASC" && s[|s| - 4] == ' ';
    }
    forall tail | Ends(tail) ensures TermAt([Lit(Word(s))] + tail) == Got(o, tail) {
      assert ([Lit(Word(s))] + tail)[1..] == tail;
    }
  }

  lemma OrderPartsRead(os: seq<OrderTerm>)
    ensures |OrderNames(os)| == |os|
    ensures forall i :: 0 <= i < |os| ==> ReadsAs(TermAt, NameParts(OrderNames(os))[i], os[i])
  {
    hide ReadsAs, TermAt, NameParts;
    if os != [] {
      OrderNamesAt(os, 0);
    }
    forall i | 0 <= i < |os| ensures ReadsAs(TermAt, NameParts(OrderNames(os))[i], os[i]) {
      OrderNamesAt(os, i);
      OrderNameReads(os[i]);
    }
  }

  lemma OrderReads(os: seq<OrderTerm>, tail: seq<Piece>, keywords: set<string>)
    requires Begins(tail, keywords) && "ORDER BY" !in keywords && "+" !in keywords
    ensures TermsAfter("ORDER BY", Optional("ORDER BY", OrderNames(os)) + tail) == Got(os, tail)
    ensures Begins(Optional("ORDER BY", OrderNames(os)) + tail, keywords + {"ORDER BY"})
  {
    hide ReadsAs, TermAt, Listed, Names, NameParts, OrderNames;
    var names := OrderNames(os);
    OrderPartsRead(os);
    if os == [] {
      assert Optional("ORDER BY", names) + tail == tail;
    } else {
      ListReads(TermAt, NameParts(names), os, tail);
      NamesListed(names);
      assert (Optional("ORDER BY", names) + tail)[1..] == Lits(Names(names)) + tail;
    }
  }

  /** The text is over, or goes on with a clause that is not a JOIN, whatever single name comes before it. */
  predicate Plain(ps: seq<Piece>) {
    ps == [] || (NextWord(ps) && (|ps| >= 2 ==> ps[1] != Lit(Word("ON")) && ps[1] != Lit(Word("JOIN"))))
  }

  function ForUpdate(q: SelectQuery): seq<Piece> {
    if q.forUpdate then Lits([Word("FOR UPDATE")]) else []
  }

  function Limits(q: SelectQuery): seq<Piece> {
    PositiveBound("LIMIT", q.limit) + (PositiveBound("OFFSET", q.offset) + ForUpdate(q))
  }

  function Ordered(q: SelectQuery): seq<Piece> {
    Optional("ORDER BY", OrderNames(q.orderBy)) + Limits(q)
  }

  function Grouped(q: SelectQuery): seq<Piece> {
    Optional("GROUP BY", q.groupBy) + (Clause("HAVING", q.having) + Ordered(q))
  }

  function Filtered(q: SelectQuery): seq<Piece> {
    Clause("WHERE", q.conditions) + Grouped(q)
  }

  lemma LimitsRead(q: SelectQuery)
    ensures
      var offset := PositiveBound("OFFSET", q.offset) + ForUpdate(q);
      && ValueAfter("LIMIT", Limits(q)) == Got(if q.limit > 0 then Some(Scalar(q.limit)) else None, offset)
      && ValueAfter("OFFSET", offset) == Got(if q.offset > 0 then Some(Scalar(q.offset)) else None, ForUpdate(q))
    ensures Begins(Limits(q), {"LIMIT", "OFFSET", "FOR UPDATE"}) && Plain(Limits(q))
  {
    BoundReads("OFFSET", q.offset, ForUpdate(q), {"FOR UPDATE"});
    var offset := PositiveBound("OFFSET", q.offset) + ForUpdate(q);
    assert Begins(offset, {"FOR UPDATE"} + {"OFFSET"});
    BoundReads("LIMIT", q.limit, offset, {"OFFSET", "FOR UPDATE"});
    BoundPlain("OFFSET", q.offset, ForUpdate(q));
    BoundPlain("LIMIT", q.limit, offset);
  }

  lemma BoundPlain(keyword: string, n: int, tail: seq<Piece>)
    requires Plain(tail)
    ensures Plain(PositiveBound(keyword, n) + tail)
  {
    var ps := PositiveBound(keyword, n) + tail;
    if n > 0 {
      assert ps[1] == Hole(Scalar(n));
    } else {
      assert ps == tail;
    }
  }

  lemma ClausePlain(keyword: string, cs: seq<Condition>, tail: seq<Piece>)
    requires Plain(tail)
    ensures Plain(Clause(keyword, cs) + tail)
  {
    hide JoinedPieces;
    JoinedNoWords(cs, AndKw);
    var ps := Clause(keyword, cs) + tail;
    if cs == [] {
      assert ps == tail;
    } else {
      assert ps[1] == JoinedPieces(cs, AndKw)[0];
    }
  }

  lemma OrderPlain(os: seq<OrderTerm>, tail: seq<Piece>)
    requires Plain(tail)
    ensures Plain(Optional("ORDER BY", OrderNames(os)) + tail)
  {
    var names := OrderNames(os);
    if os == [] {
      assert Optional("ORDER BY", names) + tail == tail;
    } else {
      OrderNamesAt(os, 0);
      OptionalSecond("ORDER BY", names);
      var s := OrderName(os[0]);
      assert s[|s| - 1] == 'C';
    }
  }

  lemma OrderedReads(q: SelectQuery, s: Selection)
    requires !s.forUpdate
    ensures SelectEnd(s, Ordered(q)) ==
            Some(s.(orderBy := q.orderBy, limit := if q.limit > 0 then Some(Scalar(q.limit)) else None,
                    offset := if q.offset > 0 then Some(Scalar(q.offset)) else None, forUpdate := q.forUpdate))
    ensures Begins(Ordered(q), {"ORDER BY", "LIMIT", "OFFSET", "FOR UPDATE"}) && Plain(Ordered(q))
  {
    hide TermsAfter, ValueAfter, Optional, Limits, OrderNames, Plain;
    LimitsRead(q);
    OrderReads(q.orderBy, Limits(q), {"LIMIT", "OFFSET", "FOR UPDATE"});
    OrderPlain(q.orderBy, Limits(q));
    assert {"LIMIT", "OFFSET", "FOR UPDATE"} + {"ORDER BY"} == {"ORDER BY", "LIMIT", "OFFSET", "FOR UPDATE"};
  }

  lemma GroupedNoJoin(names: seq<string>, tail: seq<Piece>)
    requires Plain(tail)
    ensures NoJoin(Optional("GROUP BY", names) + tail)
  {
    var ps := Optional("GROUP BY", names) + tail;
    if names == [] {
      assert ps == tail;
    } else if |names| == 1 {
      assert Names(names) == [Word(names[0])];
      assert ps[2..] == tail;
      assert |ps| >= 4 ==> ps[3] == tail[1];
    } else {
      assert Names(names)[1] == Comma;
      assert ps[2] == Lit(Comma);
    }
  }

  lemma HavingReads(q: SelectQuery)
    ensures
      var having := Clause("HAVING", q.having) + Ordered(q);
      && ConditionAfter("HAVING", having) == Got(JoinedPieces(q.having, AndKw), Ordered(q))
      && Begins(having, {"HAVING", "ORDER BY", "LIMIT", "OFFSET", "FOR UPDATE"}) && Plain(having)
  {
    hide ConditionAfter, Ordered, Clause, JoinedPieces, Plain;
    OrderedReads(q, Head(q));
    var later := {"ORDER BY", "LIMIT", "OFFSET", "FOR UPDATE"};
    ClauseReads("HAVING", q.having, Ordered(q), later);
    assert later + {"HAVING"} == {"HAVING", "ORDER BY", "LIMIT", "OFFSET", "FOR UPDATE"};
    ClausePlain("HAVING", q.having, Ordered(q));
  }

  lemma GroupedReads(q: SelectQuery)
    ensures NamesAfter("GROUP BY", Grouped(q)) == Got(q.groupBy, Clause("HAVING", q.having) + Ordered(q))
    ensures Begins(Grouped(q), {"GROUP BY", "HAVING", "ORDER BY", "LIMIT", "OFFSET", "FOR UPDATE"}) && NoJoin(Grouped(q))
  {
    hide NamesAfter, Ordered, Clause, Optional, Plain, NoJoin;
    HavingReads(q);
    var having := Clause("HAVING", q.having) + Ordered(q);
    var later := {"HAVING", "ORDER BY", "LIMIT", "OFFSET", "FOR UPDATE"};
    OptionalReads("GROUP BY", q.groupBy, having, later);
    assert later + {"GROUP BY"} == {"GROUP BY", "HAVING", "ORDER BY", "LIMIT", "OFFSET", "FOR UPDATE"};
    GroupedNoJoin(q.groupBy, having);
  }

  lemma FilteredReads(q: SelectQuery)
    ensures ConditionAfter("WHERE", Filtered(q)) == Got(JoinedPieces(q.conditions, AndKw), Grouped(q))
    ensures NoJoin(Filtered(q))
  {
    hide ConditionAfter, Grouped, Clause, JoinedPieces, NoJoin;
    GroupedReads(q);
    ClauseReads("WHERE", q.conditions, Grouped(q), {"GROUP BY", "HAVING", "ORDER BY", "LIMIT", "OFFSET", "FOR UPDATE"});
    WhereNoJoin(q.conditions, Grouped(q));
  }

  lemma WhereNoJoin(cs: seq<Condition>, tail: seq<Piece>)
    requires NoJoin(tail)
    ensures NoJoin(Clause("WHERE", cs) + tail)
  {
    hide JoinedPieces;
    JoinedNoWords(cs, AndKw);
    var ps := Clause("WHERE", cs) + tail;
    if cs == [] {
      assert ps == tail;
    } else {
      assert ps[1] == JoinedPieces(cs, AndKw)[0];
    }
  }

  /** What a SELECT reads as, but for its conditions. */
  function Selected(q: SelectQuery, where: seq<Piece>, having: seq<Piece>): Selection {
    Selection(
      q.distinct, if q.columns == [] then ["*"] else q.columns, q.table, q.joins, where, q.groupBy, having, q.orderBy,
      if q.limit > 0 then Some(Scalar(q.limit)) else None, if q.offset > 0 then Some(Scalar(q.offset)) else None, q.forUpdate)
  }

  lemma SelectHeadReads(q: SelectQuery, tail: seq<Piece>)
    ensures
      var ps := Lits(SelectHead(q)) + tail;
      && ps != [] && ps[0] == Lit(Word(if q.distinct then "SELECT DISTINCT" else "SELECT"))
      && ListReadsAs(NameAt, ps[1..], if q.columns == [] then ["*"] else q.columns, Lits([Word("FROM"), Word(q.table)]) + tail)
  {
    hide Names, ListAt, Lits;
    var ps, after := Lits(SelectHead(q)) + tail, Lits([Word("FROM"), Word(q.table)]) + tail;
    var names := if q.columns == [] then ["*"] else q.columns;
    NamesRead(names, after);
    StarNames();
    assert ps[1..] == Lits(Names(names)) + after;
  }

  lemma StarNames()
    ensures Names(["*"]) == [Word("*")]
  {
  }

  lemma SelectParts(q: SelectQuery)
    ensures SelectPieces(q) == Lits(SelectHead(q)) + (JoinPieces(q.joins) + Filtered(q))
  {
    hide SelectHead, JoinPieces, Clause, Optional, PositiveBound, OrderNames, Lits;
  }

  function Head(q: SelectQuery): Selection {
    Selection(q.distinct, if q.columns == [] then ["*"] else q.columns, q.table, q.joins, [], [], [], [], None, None, false)
  }

  lemma SelectMiddleReads(q: SelectQuery)
    ensures SelectMiddle(Head(q), Filtered(q)) == Some(Selected(q, JoinedPieces(q.conditions, AndKw), JoinedPieces(q.having, AndKw)))
  {
    hide Filtered, Grouped, Ordered, Clause, SelectEnd, ConditionAfter, NamesAfter, JoinedPieces, NoJoin, Plain, Begins;
    FilteredReads(q);
    GroupedReads(q);
    HavingReads(q);
    var where, having := JoinedPieces(q.conditions, AndKw), JoinedPieces(q.having, AndKw);
    OrderedReads(q, Head(q).(where := where, groupBy := q.groupBy, having := having));
  }

  lemma FromReads(q: SelectQuery, ps: seq<Piece>, tail: seq<Piece>)
    requires ps != [] && ps[0] == Lit(Word(if q.distinct then "SELECT DISTINCT" else "SELECT"))
    requires ListReadsAs(NameAt, ps[1..], Head(q).columns, Lits([Word("FROM"), Word(q.table)]) + tail)
    requires JoinsAt(tail) == Got(q.joins, Filtered(q))
    ensures ReadSelect(ps) == SelectMiddle(Head(q), Filtered(q))
  {
    hide Filtered, JoinsAt, SelectMiddle, ListAt;
    var from := Lits([Word("FROM"), Word(q.table)]) + tail;
    assert from[2..] == tail && from[1..][0] == Lit(Word(q.table));
  }

  /** A SELECT reads back as its query: the columns, the table and its joins, the grouping, the order, the limit and the
      offset, with the texts of its conditions. */
  lemma SelectReadsBack(q: SelectQuery)
    ensures ReadSelect(SelectPieces(q)) ==
            Some(Selected(q, JoinedPieces(q.conditions, AndKw), JoinedPieces(q.having, AndKw)))
  {
    hide SelectHead, JoinPieces, Filtered, JoinsAt, SelectMiddle, JoinedPieces, NoJoin, ReadSelect, ListReadsAs;
    SelectParts(q);
    FilteredReads(q);
    JoinsRead(q.joins, Filtered(q));
    var tail := JoinPieces(q.joins) + Filtered(q);
    SelectHeadReads(q, tail);
    FromReads(q, Lits(SelectHead(q)) + tail, tail);
    SelectMiddleReads(q);
  }

  // ---- what a statement and its arguments read as ----

  ghost predicate ReadsAsInsert(ts: seq<Token>, args: seq<Value>, i: Insertion) {
    Bound(ts, args).Some? && ReadInsert(Bound(ts, args).value) == Some(i)
  }

  ghost predicate ReadsAsSelect(ts: seq<Token>, args: seq<Value>, q: SelectQuery) {
    && Bound(ts, args).Some?
    && var r := ReadSelect(Bound(ts, args).value);
       && r.Some? && r.value == Selected(q, r.value.where, r.value.having)
       && Filters(r.value.where, q.conditions) && Filters(r.value.having, q.having)
  }

  ghost predicate ReadsAsUpdate(ts: seq<Token>, args: seq<Value>, q: UpdateQuery, order: seq<(string, Value)>) {
    && Bound(ts, args).Some?
    && var r := ReadChange(Bound(ts, args).value);
       && r.Some? && r.value == Update(q.table, UpdateSets(order, q.increment), r.value.where, q.returning)
       && Filters(r.value.where, q.conditions)
  }

  ghost predicate ReadsAsDelete(ts: seq<Token>, args: seq<Value>, q: DeleteQuery) {
    && Bound(ts, args).Some?
    && var r := ReadChange(Bound(ts, args).value);
       && r.Some? && Filters(r.value.where, q.conditions)
       && r.value == if q.softDelete then MarkDeleted(q.table, r.value.where) else Delete(q.table, r.value.where)
  }

  lemma BoundSelectReadsBack(ts: seq<Token>, args: seq<Value>, q: SelectQuery)
    requires Bound(ts, args) == Some(SelectPieces(q))
    ensures ReadsAsSelect(ts, args, q)
  {
    hide SelectPieces, ReadSelect, JoinedPieces, Filters, Bound;
    SelectReadsBack(q);
    ConditionsFilter(q.conditions);
    ConditionsFilter(q.having);
  }

  lemma BoundUpdateReadsBack(ts: seq<Token>, args: seq<Value>, q: UpdateQuery, order: seq<(string, Value)>)
    requires Bound(ts, args) == Some(UpdatePieces(q, order))
    ensures ReadsAsUpdate(ts, args, q, order)
  {
    hide UpdatePieces, ReadChange, JoinedPieces, Filters, Bound, UpdateSets;
    UpdateReadsBack(q, order);
    ConditionsFilter(q.conditions);
  }

  lemma BoundDeleteReadsBack(ts: seq<Token>, args: seq<Value>, q: DeleteQuery)
    requires Bound(ts, args) == Some(DeletePieces(q))
    ensures ReadsAsDelete(ts, args, q)
  {
    hide DeletePieces, ReadChange, JoinedPieces, Filters, Bound;
    DeleteReadsBack(q);
    ConditionsFilter(q.conditions);
  }
}
