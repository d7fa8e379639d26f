/** The queries a statement builder takes (database/postgres/query/model.go), and the reference form of each
    statement, which carries every value at its own position and knows nothing of placeholders. */
module SqlForms {
  import opened SqlText
  import opened SqlConditions
  import opened SqlReading

  datatype SelectQuery = SelectQuery(
    table: string, distinct: bool, columns: seq<string>, joins: seq<JoinClause>,
    conditions: seq<Condition>, groupBy: seq<string>, having: seq<Condition>,
    orderBy: seq<OrderTerm>, limit: int, offset: int, forUpdate: bool)

  datatype InsertQuery = InsertQuery(table: string, columns: seq<string>, values: seq<Value>, returning: seq<string>)

  datatype UpdateQuery = UpdateQuery(
    table: string, assign: map<string, Value>, increment: seq<string>,
    conditions: seq<Condition>, returning: seq<string>)

  datatype DeleteQuery = DeleteQuery(table: string, conditions: seq<Condition>, softDelete: bool)

  datatype UpsertQuery = UpsertQuery(
    table: string, columns: seq<string>, values: seq<Value>, conflictColumn: string,
    updateColumns: seq<string>, returning: seq<string>)

  // ---- reference forms ----

  /** Pieces separated by commas. */
  function Listed(parts: seq<seq<Piece>>): seq<Piece> {
    if parts == [] then []
    else if |parts| == 1 then parts[0]
    else Listed(parts[..|parts| - 1]) + Lits([Comma]) + parts[|parts| - 1]
  }

  lemma ListedNone(before: seq<Piece>)
    ensures before + Listed([]) == before
  {
  }

  lemma ListedSnoc(parts: seq<seq<Piece>>, part: seq<Piece>)
    ensures Listed(parts + [part]) == if parts == [] then part else Listed(parts) + Lits([Comma]) + part
  {
    assert (parts + [part])[..|parts|] == parts;
  }

  function Names(names: seq<string>): seq<Symbol> {
    if names == [] then []
    else if |names| == 1 then [Word(names[0])]
    else [Word(names[0]), Comma] + Names(names[1..])
  }

  function HoleParts(vs: seq<Value>): (r: seq<seq<Piece>>)
    ensures |r| == |vs| && forall i :: 0 <= i < |vs| ==> r[i] == [Hole(vs[i])]
  {
    if vs == [] then [] else [[Hole(vs[0])]] + HoleParts(vs[1..])
  }

  function Clause(keyword: string, cs: seq<Condition>): seq<Piece> {
    if cs == [] then [] else Lits([Word(keyword)]) + JoinedPieces(cs, AndKw)
  }

  function Optional(keyword: string, names: seq<string>): seq<Piece> {
    if names == [] then [] else Lits([Word(keyword)] + Names(names))
  }

  function PositiveBound(keyword: string, n: int): seq<Piece> {
    if n > 0 then Lits([Word(keyword)]) + [Hole(Scalar(n))] else []
  }

  function JoinPieces(js: seq<JoinClause>): seq<Piece> {
    if js == [] then []
    else JoinPieces(js[..|js| - 1]) + Lits(JoinSymbol(js[|js| - 1]))
  }

  function JoinSymbol(j: JoinClause): seq<Symbol> {
    [Word(j.kind), Word("JOIN"), Word(j.table), Word("ON"), Word(j.on)]
  }

  function OrderNames(os: seq<OrderTerm>): seq<string> {
    if os == [] then []
    else OrderNames(os[..|os| - 1]) + [OrderName(os[|os| - 1])]
  }

  function OrderName(o: OrderTerm): string {
    o.column + (if o.desc then " DESC" else " ASC")
  }

  function SelectHead(q: SelectQuery): seq<Symbol> {
    [Word(if q.distinct then "SELECT DISTINCT" else "SELECT")]
    + (if q.columns == [] then [Word("*")] else Names(q.columns))
    + [Word("FROM"), Word(q.table)]
  }

  function SelectPieces(q: SelectQuery): seq<Piece> {
    Lits(SelectHead(q))
    + JoinPieces(q.joins)
    + Clause("WHERE", q.conditions)
    + Optional("GROUP BY", q.groupBy)
    + Clause("HAVING", q.having)
    + Optional("ORDER BY", OrderNames(q.orderBy))
    + PositiveBound("LIMIT", q.limit)
    + PositiveBound("OFFSET", q.offset)
    + (if q.forUpdate then Lits([Word("FOR UPDATE")]) else [])
  }

  function InsertHead(table: string, columns: seq<string>): seq<Symbol> {
    [Word("INSERT INTO"), Word(table), LParen] + Names(columns) + [RParen, Word("VALUES")]
  }

  function InsertPieces(q: InsertQuery): seq<Piece> {
    Lits(InsertHead(q.table, q.columns) + [LParen]) + Listed(HoleParts(q.values)) + Lits([RParen])
    + Optional("RETURNING", q.returning)
  }

  function ExcludedParts(columns: seq<string>): (parts: seq<seq<Piece>>)
    ensures |parts| == |columns|
  {
    if columns == [] then []
    else ExcludedParts(columns[..|columns| - 1]) + [ExcludedPart(columns[|columns| - 1])]
  }

  function ExcludedPart(col: string): seq<Piece> {
    Lits([Word(col), Compare(Eq), Word("EXCLUDED." + col)])
  }

  lemma ExcludedPartsSnoc(columns: seq<string>, i: nat)
    requires i < |columns|
    ensures ExcludedParts(columns[..i + 1]) == ExcludedParts(columns[..i]) + [ExcludedPart(columns[i])]
  {
    assert columns[..i + 1][..i] == columns[..i];
  }

  function UpsertPieces(q: UpsertQuery): seq<Piece> {
    Lits(InsertHead(q.table, q.columns) + [LParen]) + Listed(HoleParts(q.values))
    + Lits([RParen, Word("ON CONFLICT"), LParen, Word(q.conflictColumn), RParen, Word("DO UPDATE SET")])
    + Listed(ExcludedParts(q.updateColumns))
    + Optional("RETURNING", q.returning)
  }

  function AssignPart(col: string, v: Value): seq<Piece> {
    Lits([Word(col), Compare(Eq)]) + [Hole(v)]
  }

  function AssignParts(order: seq<(string, Value)>): (parts: seq<seq<Piece>>)
    ensures |parts| == |order|
  {
    if order == [] then []
    else AssignParts(order[..|order| - 1]) + [AssignPart(order[|order| - 1].0, order[|order| - 1].1)]
  }

  lemma AssignPartsSnoc(order: seq<(string, Value)>, i: nat)
    requires i < |order|
    ensures AssignParts(order[..i + 1]) == AssignParts(order[..i]) + [AssignPart(order[i].0, order[i].1)]
  {
    assert order[..i + 1][..i] == order[..i];
  }

  function IncrementPart(col: string): seq<Piece> {
    Lits([Word(col), Compare(Eq), Word(col), Word("+"), Number(1)])
  }

  function IncrementParts(cols: seq<string>): (parts: seq<seq<Piece>>)
    ensures |parts| == |cols|
  {
    if cols == [] then []
    else IncrementParts(cols[..|cols| - 1]) + [IncrementPart(cols[|cols| - 1])]
  }

  lemma IncrementPartsSnoc(cols: seq<string>, i: nat)
    requires i < |cols|
    ensures IncrementParts(cols[..i + 1]) == IncrementParts(cols[..i]) + [IncrementPart(cols[i])]
  {
    assert cols[..i + 1][..i] == cols[..i];
  }

  /** `order` lists the entries of the assignment map once each: Go iterates maps in any order. */
  ghost predicate Enumerates(order: seq<(string, Value)>, assign: map<string, Value>) {
    && (forall i :: 0 <= i < |order| ==> order[i].0 in assign && assign[order[i].0] == order[i].1)
    && (forall c :: c in assign ==> exists i :: 0 <= i < |order| && order[i].0 == c)
    && (forall i, j :: 0 <= i < j < |order| ==> order[i].0 != order[j].0)
  }

  function UpdatePieces(q: UpdateQuery, order: seq<(string, Value)>): seq<Piece> {
    Lits([Word("UPDATE"), Word(q.table), Word("SET")])
    + Listed(AssignParts(order) + IncrementParts(q.increment))
    + Clause("WHERE", q.conditions)
    + Optional("RETURNING", q.returning)
  }

  function DeletePieces(q: DeleteQuery): seq<Piece> {
    (if q.softDelete then Lits([Word("UPDATE"), Word(q.table), Word("SET status = 'DELETED'")])
     else Lits([Word("DELETE FROM"), Word(q.table)]))
    + Clause("WHERE", q.conditions)
  }

  function RowPieces(row: seq<Value>): seq<Piece> {
    Lits([LParen]) + Listed(HoleParts(row)) + Lits([RParen])
  }

  /** The first n rows. */
  function RowParts(rows: seq<seq<Value>>, n: nat): (parts: seq<seq<Piece>>)
    requires n <= |rows|
    ensures |parts| == n
  {
    if n == 0 then [] else RowParts(rows, n - 1) + [RowPieces(rows[n - 1])]
  }

  function InsertManyPieces(table: string, columns: seq<string>, rows: seq<seq<Value>>): seq<Piece> {
    Lits(InsertHead(table, columns)) + Listed(RowParts(rows, |rows|))
  }
}
