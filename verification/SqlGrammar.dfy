/** The fragment of the PostgreSQL expression grammar that WHERE bodies use, with the
    precedences of section 4.1.6 of the PostgreSQL documentation: AND binds tighter than
    OR, comparison and BETWEEN bind tighter than AND, and the AND of BETWEEN belongs to
    BETWEEN.  The datatypes are the derivation trees; `Parse` is a recursive-descent parser
    proved sound and complete for them, so no token sequence has two derivations. */
module SqlGrammar {
  import opened Options
  import opened SqlText

  datatype Operand = Col(name: string) | Par(n: int) | Num(k: int)

  datatype Pred =
    | Paren(body: Disj)
    | IsNull(x: Operand)
    | NotNull(x: Operand)
    | Between(x: Operand, low: Operand, high: Operand)
    | Cmp(x: Operand, op: CompareOp, y: Operand)
    | AnyOf(x: Operand, op: CompareOp, y: Operand)
    | AllOf(x: Operand, op: CompareOp, y: Operand)

  datatype Conj = OnePred(p: Pred) | AndThen(p: Pred, rest: Conj)

  datatype Disj = OneConj(k: Conj) | OrElse(k: Conj, rest: Disj)

  // ---- the token sequence a derivation tree derives ----

  function OperandToken(x: Operand): Token {
    match x
    case Col(name) => Sym(Column(name))
    case Par(n) => Param(n)
    case Num(k) => Sym(Number(k))
  }

  function PredTokens(p: Pred): seq<Token> {
    match p
    case Paren(d) => [Sym(LParen)] + DisjTokens(d) + [Sym(RParen)]
    case IsNull(x) => [OperandToken(x), Sym(IsKw), Sym(NullKw)]
    case NotNull(x) => [OperandToken(x), Sym(IsKw), Sym(NotKw), Sym(NullKw)]
    case Between(x, low, high) => [OperandToken(x), Sym(BetweenKw), OperandToken(low), Sym(AndKw), OperandToken(high)]
    case Cmp(x, op, y) => [OperandToken(x), Sym(Compare(op)), OperandToken(y)]
    case AnyOf(x, op, y) => [OperandToken(x), Sym(Compare(op)), Sym(AnyKw), Sym(LParen), OperandToken(y), Sym(RParen)]
    case AllOf(x, op, y) => [OperandToken(x), Sym(Compare(op)), Sym(AllKw), Sym(LParen), OperandToken(y), Sym(RParen)]
  }

  function ConjTokens(k: Conj): seq<Token> {
    match k
    case OnePred(p) => PredTokens(p)
    case AndThen(p, rest) => PredTokens(p) + [Sym(AndKw)] + ConjTokens(rest)
  }

  function DisjTokens(d: Disj): seq<Token> {
    match d
    case OneConj(k) => ConjTokens(k)
    case OrElse(k, rest) => ConjTokens(k) + [Sym(OrKw)] + DisjTokens(rest)
  }

  // ---- the parser ----

  datatype Parsed<+T> = Fail | Got(tree: T, rest: seq<Token>)

  predicate Starts(ts: seq<Token>, x: Symbol) {
    ts != [] && ts[0] == Sym(x)
  }

  function ParseOperand(ts: seq<Token>): (r: Parsed<Operand>)
    ensures r.Got? ==> ts == [OperandToken(r.tree)] + r.rest
  {
    if ts == [] then Fail
    else
      match ts[0]
      case Param(n) => Got(Par(n), ts[1..])
      case Sym(Column(name)) => Got(Col(name), ts[1..])
      case Sym(Number(k)) => Got(Num(k), ts[1..])
      case _ => Fail
  }

  /** Consumes one given symbol. */
  function Expect<T>(x: Symbol, tree: T, ts: seq<Token>): (r: Parsed<T>)
    ensures r.Got? ==> r.tree == tree && ts == [Sym(x)] + r.rest
  {
    if Starts(ts, x) then Got(tree, ts[1..]) else Fail
  }

  function ParseIs(x: Operand, ts: seq<Token>): (r: Parsed<Pred>)
    ensures r.Got? ==> |r.rest| < |ts|
  {
    if Starts(ts, NotKw) then Expect(NullKw, NotNull(x), ts[1..]) else Expect(NullKw, IsNull(x), ts)
  }

  function ParseBetween(x: Operand, ts: seq<Token>): (r: Parsed<Pred>)
    ensures r.Got? ==> |r.rest| < |ts|
  {
    match ParseOperand(ts)
    case Fail => Fail
    case Got(low, ts') =>
      if !Starts(ts', AndKw) then Fail
      else
        match ParseOperand(ts'[1..])
        case Fail => Fail
        case Got(high, rest) => Got(Between(x, low, high), rest)
  }

  /** The parenthesised operand of ANY or ALL. */
  function ParseArray(ts: seq<Token>): (r: Parsed<Operand>)
    ensures r.Got? ==> |r.rest| < |ts|
  {
    if !Starts(ts, LParen) then Fail
    else
      match ParseOperand(ts[1..])
      case Fail => Fail
      case Got(y, ts') => Expect(RParen, y, ts')
  }

  function ParseCompare(x: Operand, op: CompareOp, ts: seq<Token>): (r: Parsed<Pred>)
    ensures r.Got? ==> |r.rest| < |ts|
  {
    if Starts(ts, AnyKw) then
      match ParseArray(ts[1..])
      case Fail => Fail
      case Got(y, rest) => Got(AnyOf(x, op, y), rest)
    else if Starts(ts, AllKw) then
      match ParseArray(ts[1..])
      case Fail => Fail
      case Got(y, rest) => Got(AllOf(x, op, y), rest)
    else
      match ParseOperand(ts)
      case Fail => Fail
      case Got(y, rest) => Got(Cmp(x, op, y), rest)
  }

  /** What may follow an operand. */
  function ParseTail(x: Operand, ts: seq<Token>): (r: Parsed<Pred>)
    ensures r.Got? ==> |r.rest| < |ts|
  {
    if ts == [] || ts[0].Param? then Fail
    else
      match ts[0].sym
      case IsKw => ParseIs(x, ts[1..])
      case BetweenKw => ParseBetween(x, ts[1..])
      case Compare(op) => ParseCompare(x, op, ts[1..])
      case _ => Fail
  }

  function ParsePred(ts: seq<Token>): (r: Parsed<Pred>)
    ensures r.Got? ==> |r.rest| < |ts|
    decreases |ts|, 0
  {
    if Starts(ts, LParen) then
      match ParseDisj(ts[1..])
      case Fail => Fail
      case Got(d, ts') => if Starts(ts', RParen) then Got(Paren(d), ts'[1..]) else Fail
    else
      match ParseOperand(ts)
      case Fail => Fail
      case Got(x, ts') => ParseTail(x, ts')
  }

  function ParseConj(ts: seq<Token>): (r: Parsed<Conj>)
    ensures r.Got? ==> |r.rest| < |ts|
    decreases |ts|, 1
  {
    match ParsePred(ts)
    case Fail => Fail
    case Got(p, ts') =>
      if !Starts(ts', AndKw) then Got(OnePred(p), ts')
      else
        match ParseConj(ts'[1..])
        case Fail => Fail
        case Got(k, rest) => Got(AndThen(p, k), rest)
  }

  function ParseDisj(ts: seq<Token>): (r: Parsed<Disj>)
    ensures r.Got? ==> |r.rest| < |ts|
    decreases |ts|, 2
  {
    match ParseConj(ts)
    case Fail => Fail
    case Got(k, ts') =>
      if !Starts(ts', OrKw) then Got(OneConj(k), ts')
      else
        match ParseDisj(ts'[1..])
        case Fail => Fail
        case Got(d, rest) => Got(OrElse(k, d), rest)
  }

  function Parse(ts: seq<Token>): Option<Disj> {
    match ParseDisj(ts)
    case Got(d, rest) => if rest == [] then Some(d) else None
    case Fail => None
  }

  // ---- soundness: what is parsed derives the tokens that were consumed ----

  lemma ParseIsSound(x: Operand, ts: seq<Token>)
    ensures
      var r := ParseIs(x, ts);
      r.Got? ==> [OperandToken(x), Sym(IsKw)] + ts == PredTokens(r.tree) + r.rest
  {
  }

  lemma ConcatBetween(a: Token, b: Token, low: Token, and: Token, high: Token, rest: seq<Token>)
    ensures [a, b] + ([low] + ([and] + ([high] + rest))) == [a, b, low, and, high] + rest
  {
  }

  lemma ParseBetweenSound(x: Operand, ts: seq<Token>)
    ensures
      var r := ParseBetween(x, ts);
      r.Got? ==> [OperandToken(x), Sym(BetweenKw)] + ts == PredTokens(r.tree) + r.rest
  {
    hide ParseOperand;
    var r := ParseBetween(x, ts);
    if r.Got? {
      var ts' := ParseOperand(ts).rest;
      assert ts' == [Sym(AndKw)] + ts'[1..];
      ConcatBetween(OperandToken(x), Sym(BetweenKw), OperandToken(r.tree.low), Sym(AndKw), OperandToken(r.tree.high), r.rest);
    }
  }

  lemma ParseArraySound(ts: seq<Token>)
    ensures
      var r := ParseArray(ts);
      r.Got? ==> ts == [Sym(LParen), OperandToken(r.tree), Sym(RParen)] + r.rest
  {
    var r := ParseArray(ts);
    if r.Got? {
      assert ts == [Sym(LParen)] + ([OperandToken(r.tree)] + ([Sym(RParen)] + r.rest));
    }
  }

  lemma ConcatQuantified(a: Token, b: Token, kw: Token, inner: seq<Token>, rest: seq<Token>)
    requires |inner| == 3
    ensures [a, b] + ([kw] + (inner + rest)) == [a, b, kw, inner[0], inner[1], inner[2]] + rest
  {
  }

  lemma QuantifiedSound(x: Operand, op: CompareOp, kw: Symbol, ts: seq<Token>)
    requires Starts(ts, kw) && ParseArray(ts[1..]).Got?
    ensures var r := ParseArray(ts[1..]);
      [OperandToken(x), Sym(Compare(op))] + ts ==
      [OperandToken(x), Sym(Compare(op)), Sym(kw), Sym(LParen), OperandToken(r.tree), Sym(RParen)] + r.rest
  {
    hide ParseArray;
    var r := ParseArray(ts[1..]);
    ParseArraySound(ts[1..]);
    assert ts == [Sym(kw)] + ts[1..];
    ConcatQuantified(OperandToken(x), Sym(Compare(op)), Sym(kw), [Sym(LParen), OperandToken(r.tree), Sym(RParen)], r.rest);
  }

  lemma PlainCompareSound(x: Operand, op: CompareOp, ts: seq<Token>)
    requires ParseOperand(ts).Got?
    ensures var r := ParseOperand(ts);
      [OperandToken(x), Sym(Compare(op))] + ts == [OperandToken(x), Sym(Compare(op)), OperandToken(r.tree)] + r.rest
  {
    hide ParseOperand;
  }

  lemma ParseCompareSound(x: Operand, op: CompareOp, ts: seq<Token>)
    ensures
      var r := ParseCompare(x, op, ts);
      r.Got? ==> [OperandToken(x), Sym(Compare(op))] + ts == PredTokens(r.tree) + r.rest
  {
    hide ParseArray, ParseOperand;
    if ParseCompare(x, op, ts).Got? {
      if Starts(ts, AnyKw) {
        QuantifiedSound(x, op, AnyKw, ts);
      } else if Starts(ts, AllKw) {
        QuantifiedSound(x, op, AllKw, ts);
      } else {
        PlainCompareSound(x, op, ts);
      }
    }
  }

  lemma ParseTailSound(x: Operand, ts: seq<Token>)
    ensures
      var r := ParseTail(x, ts);
      r.Got? ==> [OperandToken(x)] + ts == PredTokens(r.tree) + r.rest
  {
    hide ParseIs, ParseBetween, ParseCompare, PredTokens;
    var r := ParseTail(x, ts);
    if r.Got? {
      assert [OperandToken(x)] + ts == [OperandToken(x), ts[0]] + ts[1..];
      match ts[0].sym
      case IsKw => ParseIsSound(x, ts[1..]);
      case BetweenKw => ParseBetweenSound(x, ts[1..]);
      case Compare(op) => ParseCompareSound(x, op, ts[1..]);
    }
  }

  lemma {:induction false} ParsePredSound(ts: seq<Token>)
    ensures
      var r := ParsePred(ts);
      r.Got? ==> ts == PredTokens(r.tree) + r.rest
    decreases |ts|, 0
  {
    var r := ParsePred(ts);
    if r.Got? {
      if Starts(ts, LParen) {
        ParseDisjSound(ts[1..]);
        var d := ParseDisj(ts[1..]);
        assert d.rest == [Sym(RParen)] + r.rest;
        assert ts == [Sym(LParen)] + (DisjTokens(d.tree) + ([Sym(RParen)] + r.rest));
      } else {
        ParseTailSound(ParseOperand(ts).tree, ParseOperand(ts).rest);
      }
    }
  }

  lemma {:induction false} ParseConjSound(ts: seq<Token>)
    ensures
      var r := ParseConj(ts);
      r.Got? ==> ts == ConjTokens(r.tree) + r.rest
    decreases |ts|, 1
  {
    var r, p := ParseConj(ts), ParsePred(ts);
    if r.Got? {
      ParsePredSound(ts);
      if r.tree.AndThen? {
        ParseConjSound(p.rest[1..]);
        assert p.rest == [Sym(AndKw)] + (ConjTokens(r.tree.rest) + r.rest);
      }
    }
  }

  lemma {:induction false} ParseDisjSound(ts: seq<Token>)
    ensures
      var r := ParseDisj(ts);
      r.Got? ==> ts == DisjTokens(r.tree) + r.rest
    decreases |ts|, 2
  {
    var r, k := ParseDisj(ts), ParseConj(ts);
    if r.Got? {
      ParseConjSound(ts);
      if r.tree.OrElse? {
        ParseDisjSound(k.rest[1..]);
        assert k.rest == [Sym(OrKw)] + (DisjTokens(r.tree.rest) + r.rest);
      }
    }
  }

  // ---- completeness: every derivation is found ----

  lemma ParseOperandComplete(x: Operand, rest: seq<Token>)
    ensures ParseOperand([OperandToken(x)] + rest) == Got(x, rest)
  {
    assert ([OperandToken(x)] + rest)[1..] == rest;
  }

  lemma ParseBetweenComplete(x: Operand, low: Operand, high: Operand, rest: seq<Token>)
    ensures ParseBetween(x, [OperandToken(low), Sym(AndKw), OperandToken(high)] + rest) == Got(Between(x, low, high), rest)
  {
    var more := [Sym(AndKw)] + ([OperandToken(high)] + rest);
    assert [OperandToken(low), Sym(AndKw), OperandToken(high)] + rest == [OperandToken(low)] + more;
    ParseOperandComplete(low, more);
    assert more[1..] == [OperandToken(high)] + rest;
    ParseOperandComplete(high, rest);
  }

  lemma ParseArrayComplete(y: Operand, rest: seq<Token>)
    ensures ParseArray([Sym(LParen), OperandToken(y), Sym(RParen)] + rest) == Got(y, rest)
  {
    var ts := [Sym(LParen), OperandToken(y), Sym(RParen)] + rest;
    var more := [Sym(RParen)] + rest;
    assert ts[1..] == [OperandToken(y)] + more;
    ParseOperandComplete(y, more);
    assert more[1..] == rest;
  }

  lemma ParseCompareComplete(p: Pred, rest: seq<Token>)
    requires p.Cmp? || p.AnyOf? || p.AllOf?
    ensures ParseCompare(p.x, p.op, PredTokens(p)[2..] + rest) == Got(p, rest)
  {
    hide ParseArray, ParseOperand;
    var ts := PredTokens(p)[2..] + rest;
    if p.Cmp? {
      assert ts == [OperandToken(p.y)] + rest;
      ParseOperandComplete(p.y, rest);
    } else {
      ParseArrayComplete(p.y, rest);
      assert ts[1..] == [Sym(LParen), OperandToken(p.y), Sym(RParen)] + rest;
      assert ts[0] == Sym(if p.AnyOf? then AnyKw else AllKw);
    }
  }

  lemma ParseIsComplete(p: Pred, rest: seq<Token>)
    requires p.IsNull? || p.NotNull?
    ensures ParseIs(p.x, PredTokens(p)[2..] + rest) == Got(p, rest)
  {
    var ts := PredTokens(p)[2..] + rest;
    if p.IsNull? {
      assert ts == [Sym(NullKw)] + rest;
    } else {
      assert ts == [Sym(NotKw)] + ([Sym(NullKw)] + rest);
      assert ts[1..] == [Sym(NullKw)] + rest;
    }
  }

  lemma ParseTailComplete(p: Pred, rest: seq<Token>)
    requires !p.Paren?
    ensures ParseTail(p.x, PredTokens(p)[1..] + rest) == Got(p, rest)
  {
    hide ParseIs, ParseBetween, ParseCompare;
    var ts := PredTokens(p)[1..] + rest;
    assert ts[1..] == PredTokens(p)[2..] + rest;
    if p.IsNull? || p.NotNull? {
      ParseIsComplete(p, rest);
    } else if p.Between? {
      assert ts[1..] == [OperandToken(p.low), Sym(AndKw), OperandToken(p.high)] + rest;
      ParseBetweenComplete(p.x, p.low, p.high, rest);
    } else {
      ParseCompareComplete(p, rest);
    }
  }

  lemma {:induction false} ParsePredComplete(p: Pred, rest: seq<Token>)
    ensures ParsePred(PredTokens(p) + rest) == Got(p, rest)
    decreases p, 0
  {
    hide ParseTail, ParseOperand, ParseDisj;
    if p.Paren? {
      var more := [Sym(RParen)] + rest;
      ParseDisjComplete(p.body, more);
      assert (PredTokens(p) + rest)[1..] == DisjTokens(p.body) + more;
    } else {
      var tail := PredTokens(p)[1..] + rest;
      assert PredTokens(p) + rest == [OperandToken(p.x)] + tail;
      ParseOperandComplete(p.x, tail);
      ParseTailComplete(p, rest);
    }
  }

  lemma {:induction false} ParseConjComplete(k: Conj, rest: seq<Token>)
    requires !Starts(rest, AndKw)
    ensures ParseConj(ConjTokens(k) + rest) == Got(k, rest)
    decreases k, 1
  {
    match k
    case OnePred(p) =>
      ParsePredComplete(p, rest);
    case AndThen(p, k') =>
      var more := [Sym(AndKw)] + (ConjTokens(k') + rest);
      assert ConjTokens(k) + rest == PredTokens(p) + more;
      ParsePredComplete(p, more);
      ParseConjComplete(k', rest);
      assert more[1..] == ConjTokens(k') + rest;
  }

  lemma {:induction false} ParseDisjComplete(d: Disj, rest: seq<Token>)
    requires !Starts(rest, AndKw) && !Starts(rest, OrKw)
    ensures ParseDisj(DisjTokens(d) + rest) == Got(d, rest)
    decreases d, 2
  {
    match d
    case OneConj(k) =>
      ParseConjComplete(k, rest);
    case OrElse(k, d') =>
      var more := [Sym(OrKw)] + (DisjTokens(d') + rest);
      assert DisjTokens(d) + rest == ConjTokens(k) + more;
      ParseConjComplete(k, more);
      ParseDisjComplete(d', rest);
      assert more[1..] == DisjTokens(d') + rest;
  }

  lemma ParseComplete(d: Disj)
    ensures Parse(DisjTokens(d)) == Some(d)
  {
    ParseDisjComplete(d, []);
    assert DisjTokens(d) + [] == DisjTokens(d);
  }

  /** The parser decides the grammar. */
  lemma ParseIffDerives(ts: seq<Token>, d: Disj)
    ensures Parse(ts) == Some(d) <==> DisjTokens(d) == ts
  {
    ParseDisjSound(ts);
    ParseComplete(d);
  }

  /** The grammar is unambiguous. */
  lemma Unambiguous(d: Disj, d': Disj)
    requires DisjTokens(d) == DisjTokens(d')
    ensures d == d'
  {
    ParseComplete(d);
    ParseComplete(d');
  }

  // ---- no derivable expression contains an empty pair of parentheses ----

  predicate HasEmptyParens(ts: seq<Token>) {
    exists i :: 0 <= i < |ts| - 1 && ts[i] == Sym(LParen) && ts[i + 1] == Sym(RParen)
  }

  /** Derived token sequences are never empty, start with neither `)` nor end with `(`. */
  predicate Bracketless(ts: seq<Token>) {
    && ts != []
    && ts[0] != Sym(RParen)
    && ts[|ts| - 1] != Sym(LParen)
    && !HasEmptyParens(ts)
  }

  lemma BracketlessJoin(a: seq<Token>, x: Symbol, b: seq<Token>)
    requires Bracketless(a) && Bracketless(b) && x != LParen && x != RParen
    ensures Bracketless(a + [Sym(x)] + b)
  {
    var ts := a + [Sym(x)] + b;
    forall i | 0 <= i < |ts| - 1 && ts[i] == Sym(LParen)
      ensures ts[i + 1] != Sym(RParen)
    {
      if i < |a| - 1 {
        assert a[i] == Sym(LParen) && a[i + 1] == ts[i + 1];
      } else if i > |a| {
        assert b[i - |a| - 1] == Sym(LParen) && b[i - |a| - 1 + 1] == ts[i + 1];
      }
    }
  }

  lemma {:induction false} PredBracketless(p: Pred)
    ensures Bracketless(PredTokens(p))
    decreases p
  {
    match p
    case Paren(d) =>
      DisjBracketless(d);
      var inner := DisjTokens(d);
      var ts := PredTokens(p);
      forall i | 0 <= i < |ts| - 1 && ts[i] == Sym(LParen)
        ensures ts[i + 1] != Sym(RParen)
      {
        if i > 0 {
          assert inner[i - 1] == Sym(LParen);
          assert i - 1 != |inner| - 1;
          assert inner[i - 1 + 1] == ts[i + 1];
        }
      }
    case _ =>
  }

  lemma {:induction false} ConjBracketless(k: Conj)
    ensures Bracketless(ConjTokens(k))
    decreases k
  {
    match k
    case OnePred(p) => PredBracketless(p);
    case AndThen(p, rest) =>
      PredBracketless(p);
      ConjBracketless(rest);
      BracketlessJoin(PredTokens(p), AndKw, ConjTokens(rest));
  }

  lemma {:induction false} DisjBracketless(d: Disj)
    ensures Bracketless(DisjTokens(d))
    decreases d
  {
    match d
    case OneConj(k) => ConjBracketless(k);
    case OrElse(k, rest) =>
      ConjBracketless(k);
      DisjBracketless(rest);
      BracketlessJoin(ConjTokens(k), OrKw, DisjTokens(rest));
  }
}
