/** How a server reads the text of a statement whose arguments have been bound: a table, lists of names, values and
    assignments separated by commas, keyword clauses, and the conditions of WHERE and HAVING, which reach to the next
    keyword.  Nothing here knows how the text was built. */
module SqlReading {
  import opened Options
  import opened SqlText

  datatype JoinClause = JoinClause(kind: string, table: string, on: string)

  datatype OrderTerm = OrderTerm(column: string, desc: bool)

  /** col = value, col = source, or col = source + k. */
  datatype Assignment =
    | ToValue(column: string, value: Value)
    | ToColumn(column: string, source: string)
    | ToSum(column: string, source: string, k: int)

  datatype Conflict = Conflict(column: string, sets: seq<Assignment>)

  /** Row number r puts rows[r][i] into columns[i]. */
  datatype Insertion = Insertion(
    table: string, columns: seq<string>, rows: seq<seq<Value>>, conflict: Option<Conflict>, returning: seq<string>)

  /** An empty condition stands for a clause that is not there. */
  datatype Selection = Selection(
    distinct: bool, columns: seq<string>, table: string, joins: seq<JoinClause>, where: seq<Piece>,
    groupBy: seq<string>, having: seq<Piece>, orderBy: seq<OrderTerm>,
    limit: Option<Value>, offset: Option<Value>, forUpdate: bool)

  datatype Change =
    | Update(table: string, sets: seq<Assignment>, where: seq<Piece>, returning: seq<string>)
    | MarkDeleted(table: string, where: seq<Piece>)
    | Delete(table: string, where: seq<Piece>)

  datatype Reading<+T> = Miss | Got(value: T, rest: seq<Piece>)

  // ---- lists ----

  predicate Next(ps: seq<Piece>, x: Symbol) {
    ps != [] && ps[0] == Lit(x)
  }

  predicate NextWord(ps: seq<Piece>) {
    ps != [] && ps[0].Lit? && ps[0].sym.Word?
  }

  function NameAt(ps: seq<Piece>): Reading<string> {
    if NextWord(ps) then Got(ps[0].sym.text, ps[1..]) else Miss
  }

  function ValueAt(ps: seq<Piece>): Reading<Value> {
    if ps != [] && ps[0].Hole? then Got(ps[0].value, ps[1..]) else Miss
  }

  function AssignmentAt(ps: seq<Piece>): Reading<Assignment> {
    if |ps| < 3 || !NextWord(ps) || ps[1] != Lit(Compare(Eq)) then Miss
    else if ps[2].Hole? then Got(ToValue(ps[0].sym.text, ps[2].value), ps[3..])
    else if !ps[2].sym.Word? then Miss
    else if |ps| >= 5 && ps[3] == Lit(Word("+")) && ps[4].Lit? && ps[4].sym.Number?
    then Got(ToSum(ps[0].sym.text, ps[2].sym.text, ps[4].sym.k), ps[5..])
    else Got(ToColumn(ps[0].sym.text, ps[2].sym.text), ps[3..])
  }

  /** item, ..., item */
  function ListAt<T>(item: seq<Piece> -> Reading<T>, ps: seq<Piece>): Reading<seq<T>>
    decreases |ps|
  {
    match item(ps)
    case Miss => Miss
    case Got(first, rest) =>
      if !Next(rest, Comma) then Got([first], rest)
      else if |rest| > |ps| then Miss
      else
        match ListAt(item, rest[1..])
        case Miss => Miss
        case Got(others, end) => Got([first] + others, end)
  }

  /** (item, ..., item) or () */
  function GroupAt<T>(item: seq<Piece> -> Reading<T>, ps: seq<Piece>): Reading<seq<T>> {
    if !Next(ps, LParen) then Miss
    else if Next(ps[1..], RParen) then Got([], ps[2..])
    else
      match ListAt(item, ps[1..])
      case Miss => Miss
      case Got(items, rest) => if Next(rest, RParen) then Got(items, rest[1..]) else Miss
  }

  function RowAt(ps: seq<Piece>): Reading<seq<Value>> {
    GroupAt(ValueAt, ps)
  }

  /** The assignments of a SET clause, possibly none. */
  function AssignmentsAt(ps: seq<Piece>): Reading<seq<Assignment>> {
    if |ps| >= 2 && ps[1] == Lit(Compare(Eq)) then ListAt(AssignmentAt, ps) else Got([], ps)
  }

  // ---- clauses that may be missing ----

  function NamesAfter(keyword: string, ps: seq<Piece>): Reading<seq<string>> {
    if Next(ps, Word(keyword)) then ListAt(NameAt, ps[1..]) else Got([], ps)
  }

  function ValueAfter(keyword: string, ps: seq<Piece>): Reading<Option<Value>> {
    if !Next(ps, Word(keyword)) then Got(None, ps)
    else
      match ValueAt(ps[1..])
      case Miss => Miss
      case Got(v, rest) => Got(Some(v), rest)
  }

  /** The length of the text up to the next word: a condition has no words in it. */
  function Wordless(ps: seq<Piece>): (n: nat)
    ensures n <= |ps|
  {
    if ps == [] || NextWord(ps) then 0 else 1 + Wordless(ps[1..])
  }

  function ConditionAfter(keyword: string, ps: seq<Piece>): Reading<seq<Piece>> {
    if !Next(ps, Word(keyword)) then Got([], ps)
    else
      var n := Wordless(ps[1..]);
      if n == 0 then Miss else Got(ps[1..][..n], ps[1..][n..])
  }

  /** kind JOIN table ON condition, any number of times. */
  function JoinsAt(ps: seq<Piece>): Reading<seq<JoinClause>>
    decreases |ps|
  {
    if |ps| < 5 || (exists i :: 0 <= i < 5 && !(ps[i].Lit? && ps[i].sym.Word?)) then Got([], ps)
    else if ps[1].sym.text != "JOIN" || ps[3].sym.text != "ON" then Got([], ps)
    else
      match JoinsAt(ps[5..])
      case Miss => Miss
      case Got(others, end) => Got([JoinClause(ps[0].sym.text, ps[2].sym.text, ps[4].sym.text)] + others, end)
  }

  predicate EndsIn(s: string, suffix: string) {
    |s| >= |suffix| && s[|s| - |suffix|..] == suffix
  }

  function TermAt(ps: seq<Piece>): Reading<OrderTerm> {
    match NameAt(ps)
    case Miss => Miss
    case Got(s, rest) =>
      if EndsIn(s, " DESC") then Got(OrderTerm(s[..|s| - 5], true), rest)
      else if EndsIn(s, " ASC") then Got(OrderTerm(s[..|s| - 4], false), rest)
      else Miss
  }

  function TermsAfter(keyword: string, ps: seq<Piece>): Reading<seq<OrderTerm>> {
    if Next(ps, Word(keyword)) then ListAt(TermAt, ps[1..]) else Got([], ps)
  }

  // ---- statements ----

  function ConflictAt(ps: seq<Piece>): Reading<Option<Conflict>> {
    if !Next(ps, Word("ON CONFLICT")) then Got(None, ps)
    else if |ps| < 5 || ps[1] != Lit(LParen) || !NextWord(ps[2..]) || ps[3] != Lit(RParen) then Miss
    else if ps[4] != Lit(Word("DO UPDATE SET")) then Miss
    else
      match AssignmentsAt(ps[5..])
      case Miss => Miss
      case Got(sets, rest) => Got(Some(Conflict(ps[2].sym.text, sets)), rest)
  }

  /** What follows the rows of an INSERT. */
  function InsertTail(table: string, columns: seq<string>, rows: seq<seq<Value>>, ps: seq<Piece>): Option<Insertion> {
    match ConflictAt(ps)
    case Miss => None
    case Got(conflict, rest) =>
      match NamesAfter("RETURNING", rest)
      case Miss => None
      case Got(returning, end) => if end == [] then Some(Insertion(table, columns, rows, conflict, returning)) else None
  }

  function ReadInsert(ps: seq<Piece>): Option<Insertion> {
    if |ps| < 2 || !Next(ps, Word("INSERT INTO")) || !NextWord(ps[1..]) then None
    else
      match GroupAt(NameAt, ps[2..])
      case Miss => None
      case Got(columns, rest) =>
        if !Next(rest, Word("VALUES")) then None
        else
          match ListAt(RowAt, rest[1..])
          case Miss => None
          case Got(rows, end) => InsertTail(ps[1].sym.text, columns, rows, end)
  }

  /** WHERE and RETURNING after SET. */
  function UpdateTail(table: string, sets: seq<Assignment>, ps: seq<Piece>): Option<Change> {
    match ConditionAfter("WHERE", ps)
    case Miss => None
    case Got(where, rest) =>
      match NamesAfter("RETURNING", rest)
      case Miss => None
      case Got(returning, end) => if end == [] then Some(Update(table, sets, where, returning)) else None
  }

  function ReadChange(ps: seq<Piece>): Option<Change> {
    if |ps| < 2 || !NextWord(ps[1..]) then None
    else if ps[0] == Lit(Word("DELETE FROM")) then
      match ConditionAfter("WHERE", ps[2..])
      case Miss => None
      case Got(where, end) => if end == [] then Some(Delete(ps[1].sym.text, where)) else None
    else if ps[0] != Lit(Word("UPDATE")) then None
    else if Next(ps[2..], Word("SET status = 'DELETED'")) then
      match ConditionAfter("WHERE", ps[3..])
      case Miss => None
      case Got(where, end) => if end == [] then Some(MarkDeleted(ps[1].sym.text, where)) else None
    else if !Next(ps[2..], Word("SET")) then None
    else
      match AssignmentsAt(ps[3..])
      case Miss => None
      case Got(sets, rest) => UpdateTail(ps[1].sym.text, sets, rest)
  }

  /** ORDER BY, LIMIT, OFFSET and FOR UPDATE. */
  function SelectEnd(s: Selection, ps: seq<Piece>): Option<Selection> {
    match TermsAfter("ORDER BY", ps)
    case Miss => None
    case Got(orderBy, rest) =>
      match ValueAfter("LIMIT", rest)
      case Miss => None
      case Got(limit, rest) =>
        match ValueAfter("OFFSET", rest)
        case Miss => None
        case Got(offset, end) =>
          var all := s.(orderBy := orderBy, limit := limit, offset := offset);
          if end == [] then Some(all)
          else if end == [Lit(Word("FOR UPDATE"))] then Some(all.(forUpdate := true))
          else None
  }

  /** WHERE, GROUP BY and HAVING. */
  function SelectMiddle(s: Selection, ps: seq<Piece>): Option<Selection> {
    match ConditionAfter("WHERE", ps)
    case Miss => None
    case Got(where, rest) =>
      match NamesAfter("GROUP BY", rest)
      case Miss => None
      case Got(groupBy, rest) =>
        match ConditionAfter("HAVING", rest)
        case Miss => None
        case Got(having, rest) => SelectEnd(s.(where := where, groupBy := groupBy, having := having), rest)
  }

  function ReadSelect(ps: seq<Piece>): Option<Selection> {
    if !Next(ps, Word("SELECT")) && !Next(ps, Word("SELECT DISTINCT")) then None
    else
      match ListAt(NameAt, ps[1..])
      case Miss => None
      case Got(columns, rest) =>
        if |rest| < 2 || !Next(rest, Word("FROM")) || !NextWord(rest[1..]) then None
        else
          match JoinsAt(rest[2..])
          case Miss => None
          case Got(joins, tail) =>
            var distinct := ps[0] == Lit(Word("SELECT DISTINCT"));
            SelectMiddle(Selection(distinct, columns, rest[1].sym.text, joins, [], [], [], [], None, None, false), tail)
  }
}
