/** The WHERE-condition compiler (database/postgres/query: condition.go, builder.go,
    render.go): a predicate tree is flattened into SQL tokens and an argument list. */
module SqlConditions {
  import opened SqlText

  datatype Operator =
    | Comparison(op: CompareOp)
    | In | NotIn | Between | IsNull | NotNull
    | And | Or

  datatype Condition = Condition(column: string, op: Operator, value: Value, sub: seq<Condition>)

  predicate IsRange(v: Value) {
    v.Array? && !v.typed && |v.elems| == 2
  }

  /** The reference form: what each condition renders to, with its values in place. */
  function Pieces(c: Condition): seq<Piece>
    decreases c, 1
  {
    match c.op
    case IsNull => Lits([Column(c.column), IsKw, NullKw])
    case NotNull => Lits([Column(c.column), IsKw, NotKw, NullKw])
    case In => Lits([Column(c.column), Compare(Eq), AnyKw, LParen]) + [Hole(c.value)] + Lits([RParen])
    case NotIn => Lits([Column(c.column), Compare(NotEq), AllKw, LParen]) + [Hole(c.value)] + Lits([RParen])
    case Between =>
      if !IsRange(c.value) then Lits([Number(1), Compare(Eq), Number(0)])
      else Lits([Column(c.column), BetweenKw]) + [Hole(c.value.elems[0])] + Lits([AndKw]) + [Hole(c.value.elems[1])]
    case And => [Lit(LParen)] + JoinedPieces(c.sub, AndKw) + [Lit(RParen)]
    case Or => [Lit(LParen)] + JoinedPieces(c.sub, OrKw) + [Lit(RParen)]
    case Comparison(op) => Lits([Column(c.column), Compare(op)]) + [Hole(c.value)]
  }

  function JoinedPieces(cs: seq<Condition>, sep: Symbol): seq<Piece>
    decreases cs, 0
  {
    if cs == [] then []
    else if |cs| == 1 then Pieces(cs[0])
    else Pieces(cs[0]) + [Lit(sep)] + JoinedPieces(cs[1..], sep)
  }

  lemma {:induction false} JoinedPiecesSnoc(cs: seq<Condition>, c: Condition, sep: Symbol)
    requires cs != []
    ensures JoinedPieces(cs + [c], sep) == JoinedPieces(cs, sep) + [Lit(sep)] + Pieces(c)
  {
    hide Pieces;
    if |cs| == 1 {
      assert (cs + [c])[1..] == [c];
    } else {
      JoinedPiecesSnoc(cs[1..], c, sep);
      assert (cs + [c])[1..] == cs[1..] + [c];
      var head, rest := Pieces(cs[0]) + [Lit(sep)], JoinedPieces(cs[1..], sep);
      assert JoinedPieces(cs + [c], sep) == head + (rest + [Lit(sep)] + Pieces(c));
      assert JoinedPieces(cs, sep) == head + rest;
    }
  }

  /** `args` and `idx`, which the Go renderer threads through pointers. */
  class Binder {
    var args: seq<Value>
    var idx: int

    constructor (start: int)
      ensures args == [] && idx == start
    {
      args, idx := [], start;
    }

    /** Binds one value and returns its placeholder. */
    method Bind(v: Value) returns (placeholder: Token)
      modifies this
      ensures args == old(args) + [v] && idx == old(idx) + 1
      ensures placeholder == Param(old(idx))
    {
      args := args + [v];
      placeholder := Param(idx);
      idx := idx + 1;
    }
  }

  /** `b` moved from (args, idx) by binding exactly the holes of `ps`. */
  ghost predicate Advanced(ps: seq<Piece>, args: seq<Value>, idx: int, args': seq<Value>, idx': int) {
    args' == args + Holes(ps) && idx' == idx + |Holes(ps)|
  }

  function JoinTokens(parts: seq<seq<Token>>, sep: Token): seq<Token> {
    if parts == [] then []
    else if |parts| == 1 then parts[0]
    else JoinTokens(parts[..|parts| - 1], sep) + [sep] + parts[|parts| - 1]
  }

  lemma JoinTokensSnoc(parts: seq<seq<Token>>, part: seq<Token>, sep: Token)
    ensures JoinTokens(parts + [part], sep) == (if parts == [] then [] else JoinTokens(parts, sep) + [sep]) + part
  {
    assert (parts + [part])[..|parts|] == parts;
  }

  /** The joining loop of conditionSQL (and strings.Join). */
  method Join(parts: seq<seq<Token>>, sep: Token) returns (joined: seq<Token>)
    ensures joined == JoinTokens(parts, sep)
  {
    joined := [];
    for i := 0 to |parts|
      invariant joined == JoinTokens(parts[..i], sep)
    {
      assert parts[..i + 1][..i] == parts[..i];
      if i > 0 {
        joined := joined + [sep];
      }
      joined := joined + parts[i];
    }
    assert parts[..|parts|] == parts;
  }

  lemma OneHole(pre: seq<Symbol>, v: Value, post: seq<Symbol>, s: int)
    ensures Numbered(Lits(pre) + [Hole(v)] + Lits(post), s) == Syms(pre) + [Param(s)] + Syms(post)
    ensures Holes(Lits(pre) + [Hole(v)] + Lits(post)) == [v]
  {
    LitsNumbered(pre, s);
    LitsNumbered(post, s + 1);
    HoleConcat(Lits(pre), v, Lits(post), s);
  }

  lemma TwoHoles(pre: seq<Symbol>, v: Value, mid: seq<Symbol>, w: Value, s: int)
    ensures Numbered(Lits(pre) + [Hole(v)] + Lits(mid) + [Hole(w)], s) == Syms(pre) + [Param(s)] + Syms(mid) + [Param(s + 1)]
    ensures Holes(Lits(pre) + [Hole(v)] + Lits(mid) + [Hole(w)]) == [v, w]
  {
    OneHole(pre, v, mid, s);
    NumberedConcat(Lits(pre) + [Hole(v)] + Lits(mid), [Hole(w)], s);
    HolesConcat(Lits(pre) + [Hole(v)] + Lits(mid), [Hole(w)]);
  }

  /** BETWEEN takes a []any of two values and nothing else: every other value makes it `1 = 0`, without arguments. */
  lemma RangeTexts(column: string, v: Value, lo: Value, hi: Value, sub: seq<Condition>)
    ensures
      var c := Condition(column, Between, Array([lo, hi], false), sub);
      && Pieces(c) == [Lit(Column(column)), Lit(BetweenKw), Hole(lo), Lit(AndKw), Hole(hi)]
      && Holes(Pieces(c)) == [lo, hi]
    ensures !v.Array? || v.typed || |v.elems| != 2 ==>
              var c := Condition(column, Between, v, sub);
              Pieces(c) == [Lit(Number(1)), Lit(Compare(Eq)), Lit(Number(0))] && Holes(Pieces(c)) == []
  {
    hide Holes, Numbered;
    TwoHoles([Column(column), BetweenKw], lo, [AndKw], hi, 1);
    LitsNumbered([Number(1), Compare(Eq), Number(0)], 1);
  }

  /** The text and the values of the conditions on one value, written out. */
  lemma LeafTexts(column: string, v: Value, op: CompareOp, sub: seq<Condition>)
    ensures
      var c := Condition(column, Comparison(op), v, sub);
      Pieces(c) == [Lit(Column(column)), Lit(Compare(op)), Hole(v)] && Holes(Pieces(c)) == [v]
    ensures
      var c := Condition(column, IsNull, v, sub);
      Pieces(c) == [Lit(Column(column)), Lit(IsKw), Lit(NullKw)] && Holes(Pieces(c)) == []
    ensures
      var c := Condition(column, NotNull, v, sub);
      Pieces(c) == [Lit(Column(column)), Lit(IsKw), Lit(NotKw), Lit(NullKw)] && Holes(Pieces(c)) == []
  {
    hide Holes, Numbered;
    OneHole([Column(column), Compare(op)], v, [], 1);
    assert Lits([Column(column), Compare(op)]) + [Hole(v)] + Lits([]) == Lits([Column(column), Compare(op)]) + [Hole(v)];
    LitsNumbered([Column(column), IsKw, NullKw], 1);
    LitsNumbered([Column(column), IsKw, NotKw, NullKw], 1);
  }

  /** Membership binds the whole list as one array argument. */
  lemma MembershipTexts(column: string, v: Value, sub: seq<Condition>)
    ensures
      var c := Condition(column, In, v, sub);
      && Pieces(c) == [Lit(Column(column)), Lit(Compare(Eq)), Lit(AnyKw), Lit(LParen), Hole(v), Lit(RParen)]
      && Holes(Pieces(c)) == [v]
    ensures
      var c := Condition(column, NotIn, v, sub);
      && Pieces(c) == [Lit(Column(column)), Lit(Compare(NotEq)), Lit(AllKw), Lit(LParen), Hole(v), Lit(RParen)]
      && Holes(Pieces(c)) == [v]
  {
    hide Holes, Numbered;
    OneHole([Column(column), Compare(Eq), AnyKw, LParen], v, [RParen], 1);
    OneHole([Column(column), Compare(NotEq), AllKw, LParen], v, [RParen], 1);
  }

  method ConditionSQL(c: Condition, b: Binder) returns (ts: seq<Token>)
    modifies b
    ensures ts == Numbered(Pieces(c), old(b.idx))
    ensures Advanced(Pieces(c), old(b.args), old(b.idx), b.args, b.idx)
    ensures c.op.Between? && c.value.Array? && !c.value.typed && |c.value.elems| == 2 ==>
              && ts == [Sym(Column(c.column)), Sym(BetweenKw), Param(old(b.idx)), Sym(AndKw), Param(old(b.idx) + 1)]
              && b.args == old(b.args) + c.value.elems
    ensures c.op.Between? && !(c.value.Array? && !c.value.typed && |c.value.elems| == 2) ==>
              ts == [Sym(Number(1)), Sym(Compare(Eq)), Sym(Number(0))] && b.args == old(b.args)
    decreases c, 1
  {
    match c.op
    case IsNull =>
      ts := Syms([Column(c.column), IsKw, NullKw]);
      LitsNumbered([Column(c.column), IsKw, NullKw], b.idx);
    case NotNull =>
      ts := Syms([Column(c.column), IsKw, NotKw, NullKw]);
      LitsNumbered([Column(c.column), IsKw, NotKw, NullKw], b.idx);
    case In =>
      OneHole([Column(c.column), Compare(Eq), AnyKw, LParen], c.value, [RParen], b.idx);
      var p := b.Bind(c.value);
      ts := Syms([Column(c.column), Compare(Eq), AnyKw, LParen]) + [p] + Syms([RParen]);
    case NotIn =>
      OneHole([Column(c.column), Compare(NotEq), AllKw, LParen], c.value, [RParen], b.idx);
      var p := b.Bind(c.value);
      ts := Syms([Column(c.column), Compare(NotEq), AllKw, LParen]) + [p] + Syms([RParen]);
    case Between =>
      if !IsRange(c.value) {
        ts := Syms([Number(1), Compare(Eq), Number(0)]);
        LitsNumbered([Number(1), Compare(Eq), Number(0)], b.idx);
      } else {
        TwoHoles([Column(c.column), BetweenKw], c.value.elems[0], [AndKw], c.value.elems[1], b.idx);
        var low := b.Bind(c.value.elems[0]);
        var high := b.Bind(c.value.elems[1]);
        ts := Syms([Column(c.column), BetweenKw]) + [low] + Syms([AndKw]) + [high];
      }
    case And => ts := GroupSQL(c, AndKw, b);
    case Or => ts := GroupSQL(c, OrKw, b);
    case Comparison(op) =>
      OneHole([Column(c.column), Compare(op)], c.value, [], b.idx);
      var p := b.Bind(c.value);
      ts := Syms([Column(c.column), Compare(op)]) + [p];
      assert Pieces(c) == Pieces(c) + Lits([]);
  }

  method GroupSQL(c: Condition, sep: Symbol, b: Binder) returns (ts: seq<Token>)
    modifies b
    ensures ts == Numbered([Lit(LParen)] + JoinedPieces(c.sub, sep) + [Lit(RParen)], old(b.idx))
    ensures Advanced([Lit(LParen)] + JoinedPieces(c.sub, sep) + [Lit(RParen)], old(b.args), old(b.idx), b.args, b.idx)
    decreases c, 0
  {
    ghost var s := b.idx;
    var joined := JoinedSQL(c.sub, sep, b);
    ts := [Sym(LParen)] + joined + [Sym(RParen)];
    ghost var inner := JoinedPieces(c.sub, sep);
    HolesConcat([Lit(LParen)] + inner, [Lit(RParen)]);
    HolesConcat([Lit(LParen)], inner);
    NumberedConcat([Lit(LParen)] + inner, [Lit(RParen)], s);
    NumberedConcat([Lit(LParen)], inner, s);
  }

  lemma JoinedNumbered(cs: seq<Condition>, c: Condition, sep: Symbol, s: int)
    ensures
      var done := JoinedPieces(cs, sep);
      var all := JoinedPieces(cs + [c], sep);
      && Holes(all) == Holes(done) + Holes(Pieces(c))
      && Numbered(all, s) == (if cs == [] then [] else Numbered(done, s) + [Sym(sep)]) + Numbered(Pieces(c), s + |Holes(done)|)
  {
    if cs == [] {
      assert cs + [c] == [c];
    } else {
      JoinedPiecesSnoc(cs, c, sep);
      SeparatedConcat(JoinedPieces(cs, sep), sep, Pieces(c), s);
    }
  }

  /** The parts rendered so far, once joined, and the binder are those of the conditions `done`. */
  ghost predicate Joining(parts: seq<seq<Token>>, done: seq<Condition>, sep: Symbol, args: seq<Value>, idx: int, b: Binder)
    reads b
  {
    && |parts| == |done|
    && JoinTokens(parts, Sym(sep)) == Numbered(JoinedPieces(done, sep), idx)
    && Advanced(JoinedPieces(done, sep), args, idx, b.args, b.idx)
  }

  lemma JoiningNext(parts: seq<seq<Token>>, part: seq<Token>, done: seq<Condition>, c: Condition, sep: Symbol,
                    args: seq<Value>, idx: int, args': seq<Value>, idx': int, b: Binder)
    requires |parts| == |done| && JoinTokens(parts, Sym(sep)) == Numbered(JoinedPieces(done, sep), idx)
    requires Advanced(JoinedPieces(done, sep), args, idx, args', idx')
    requires part == Numbered(Pieces(c), idx') && Advanced(Pieces(c), args', idx', b.args, b.idx)
    ensures Joining(parts + [part], done + [c], sep, args, idx, b)
  {
    hide Pieces, JoinedPieces, JoinTokens, Numbered, Holes;
    JoinedNumbered(done, c, sep, idx);
    JoinTokensSnoc(parts, part, Sym(sep));
  }

  lemma JoiningNothing(sep: Symbol, b: Binder)
    ensures Joining([], [], sep, b.args, b.idx, b)
  {
  }

  /** Renders every part, then joins the parts. */
  method JoinedSQL(cs: seq<Condition>, sep: Symbol, b: Binder) returns (ts: seq<Token>)
    modifies b
    ensures ts == Numbered(JoinedPieces(cs, sep), old(b.idx))
    ensures Advanced(JoinedPieces(cs, sep), old(b.args), old(b.idx), b.args, b.idx)
    decreases cs, 2
  {
    hide Pieces, JoinedPieces, JoinTokens, Numbered, Holes, Advanced;
    var parts: seq<seq<Token>> := [];
    JoiningNothing(sep, b);
    assert cs[..0] == [];
    for i := 0 to |cs|
      invariant Joining(parts, cs[..i], sep, old(b.args), old(b.idx), b)
    {
      ghost var args, idx := b.args, b.idx;
      var part := ConditionSQL(cs[i], b);
      JoiningNext(parts, part, cs[..i], cs[i], sep, old(b.args), old(b.idx), args, idx, b);
      assert cs[..i + 1] == cs[..i] + [cs[i]];
      parts := parts + [part];
    }
    assert cs[..|cs|] == cs;
    ts := Join(parts, Sym(sep));
  }

  /** A WHERE body: top-level conditions joined with AND. */
  method BuildConditions(cs: seq<Condition>, b: Binder) returns (ts: seq<Token>)
    modifies b
    ensures ts == Numbered(JoinedPieces(cs, AndKw), old(b.idx))
    ensures Advanced(JoinedPieces(cs, AndKw), old(b.args), old(b.idx), b.args, b.idx)
  {
    ts := JoinedSQL(cs, AndKw, b);
  }

  method BuildWhere(cs: seq<Condition>, startIdx: int) returns (ts: seq<Token>, args: seq<Value>)
    ensures ts == Numbered(JoinedPieces(cs, AndKw), startIdx)
    ensures args == Holes(JoinedPieces(cs, AndKw))
    ensures Placeholders(ts) == Counting(startIdx, |args|)
  {
    PlaceholdersInOrder(JoinedPieces(cs, AndKw), startIdx);
    if |cs| == 0 {
      return [], [];
    }
    var b := new Binder(startIdx);
    ts := BuildConditions(cs, b);
    args := b.args;
  }
}
