/** The condition compiler preserves meaning: the tokens it emits, read back with the SQL
    grammar and evaluated with the argument list it emits, have on every row the three-valued
    result of the condition trees. */
module SqlMeaning {
  import opened SqlText
  import opened SqlConditions
  import G = SqlGrammar

  datatype Truth = True | False | Unknown

  function And3(a: Truth, b: Truth): Truth {
    if a == False || b == False then False
    else if a == Unknown || b == Unknown then Unknown
    else True
  }

  function Or3(a: Truth, b: Truth): Truth {
    if a == True || b == True then True
    else if a == Unknown || b == Unknown then Unknown
    else False
  }

  /** A row, and the database's comparison of values that are not NULL: any comparison at
      all that does not make the integers 1 and 0 equal. */
  datatype AnyEnv = Env(row: string -> Value, holds: (CompareOp, Value, Value) -> bool)

  type Env = e: AnyEnv | !e.holds(Eq, Scalar(1), Scalar(0))
    witness Env(_ => Null, (op, x, y) => x == y)

  function Comparing(env: Env, op: CompareOp, x: Value, y: Value): Truth {
    if x.Null? || y.Null? then Unknown
    else if env.holds(op, x, y) then True
    else False
  }

  // ---- the meaning of a condition tree ----

  /** x IN (v1, ..., vn) is x = v1 OR ... OR x = vn, and false for no values. */
  function InMeaning(env: Env, x: Value, vs: seq<Value>): Truth {
    if vs == [] then False else Or3(Comparing(env, Eq, x, vs[0]), InMeaning(env, x, vs[1..]))
  }

  /** x NOT IN (v1, ..., vn) is x <> v1 AND ... AND x <> vn, and true for no values. */
  function NotInMeaning(env: Env, x: Value, vs: seq<Value>): Truth {
    if vs == [] then True else And3(Comparing(env, NotEq, x, vs[0]), NotInMeaning(env, x, vs[1..]))
  }

  function Meaning(env: Env, c: Condition): Truth
    decreases c, 1
  {
    var x := env.row(c.column);
    match c.op
    case IsNull => if x.Null? then True else False
    case NotNull => if x.Null? then False else True
    case In => if c.value.Array? then InMeaning(env, x, c.value.elems) else Unknown
    case NotIn => if c.value.Array? then NotInMeaning(env, x, c.value.elems) else Unknown
    case Between =>
      if IsRange(c.value)
      then And3(Comparing(env, Gte, x, c.value.elems[0]), Comparing(env, Lte, x, c.value.elems[1]))
      else False
    case And => AllMeaning(env, c.sub)
    case Or => SomeMeaning(env, c.sub)
    case Comparison(op) => Comparing(env, op, x, c.value)
  }

  function AllMeaning(env: Env, cs: seq<Condition>): Truth
    decreases cs, 0
  {
    if cs == [] then True else And3(Meaning(env, cs[0]), AllMeaning(env, cs[1..]))
  }

  function SomeMeaning(env: Env, cs: seq<Condition>): Truth
    decreases cs, 0
  {
    if cs == [] then False else Or3(Meaning(env, cs[0]), SomeMeaning(env, cs[1..]))
  }

  // ---- the meaning of a tree, written out ----

  /** The rows a condition without sub-conditions accepts, rejects and leaves unknown, operator by operator.  BETWEEN
      is a pair of comparisons for a []any of two values, and false on every row for any other value. */
  lemma LeafMeanings(env: Env, column: string, v: Value, lo: Value, hi: Value, op: CompareOp, sub: seq<Condition>)
    ensures
      var x := env.row(column);
      && Meaning(env, Condition(column, Comparison(op), v, sub)) ==
           (if x.Null? || v.Null? then Unknown else if env.holds(op, x, v) then True else False)
      && Meaning(env, Condition(column, IsNull, v, sub)) == (if x.Null? then True else False)
      && Meaning(env, Condition(column, NotNull, v, sub)) == (if x.Null? then False else True)
    ensures
      var x := env.row(column);
      var truth := Meaning(env, Condition(column, Between, Array([lo, hi], false), sub));
      && (truth == True <==> !x.Null? && !lo.Null? && !hi.Null? && env.holds(Gte, x, lo) && env.holds(Lte, x, hi))
      && (truth == False <==>
           || (!x.Null? && !lo.Null? && !env.holds(Gte, x, lo))
           || (!x.Null? && !hi.Null? && !env.holds(Lte, x, hi)))
    ensures !v.Array? || v.typed || |v.elems| != 2 ==> Meaning(env, Condition(column, Between, v, sub)) == False
  {
    assert [lo, hi][0] == lo && [lo, hi][1] == hi;
  }

  lemma {:induction false} MembershipMeaning(env: Env, x: Value, vs: seq<Value>)
    ensures InMeaning(env, x, vs) == True <==> !x.Null? && exists v :: v in vs && !v.Null? && env.holds(Eq, x, v)
    ensures InMeaning(env, x, vs) == False <==> forall v :: v in vs ==> !x.Null? && !v.Null? && !env.holds(Eq, x, v)
    ensures NotInMeaning(env, x, vs) == False <==> !x.Null? && exists v :: v in vs && !v.Null? && !env.holds(NotEq, x, v)
    ensures NotInMeaning(env, x, vs) == True <==> forall v :: v in vs ==> !x.Null? && !v.Null? && env.holds(NotEq, x, v)
  {
    if vs != [] {
      MembershipMeaning(env, x, vs[1..]);
      assert forall v :: v in vs <==> v == vs[0] || v in vs[1..];
    }
  }

  /** IN is true on a row when the column equals some element and false when it differs from every one; NOT IN is true
      when it differs from every element and false when it does not differ from some.  The rest is unknown. */
  lemma MembershipMeanings(env: Env, column: string, vs: seq<Value>, typed: bool, sub: seq<Condition>)
    ensures
      var x, truth := env.row(column), Meaning(env, Condition(column, In, Array(vs, typed), sub));
      && (truth == True <==> !x.Null? && exists v :: v in vs && !v.Null? && env.holds(Eq, x, v))
      && (truth == False <==> forall v :: v in vs ==> !x.Null? && !v.Null? && !env.holds(Eq, x, v))
    ensures
      var x, truth := env.row(column), Meaning(env, Condition(column, NotIn, Array(vs, typed), sub));
      && (truth == True <==> forall v :: v in vs ==> !x.Null? && !v.Null? && env.holds(NotEq, x, v))
      && (truth == False <==> !x.Null? && exists v :: v in vs && !v.Null? && !env.holds(NotEq, x, v))
  {
    MembershipMeaning(env, env.row(column), vs);
  }

  predicate Means(env: Env, c: Condition, truth: Truth) {
    Meaning(env, c) == truth
  }

  /** Whether every condition, or some condition, has the given result. */
  predicate Every(env: Env, cs: seq<Condition>, truth: Truth) {
    forall c :: c in cs ==> Means(env, c, truth)
  }

  predicate OneOf(env: Env, cs: seq<Condition>, truth: Truth) {
    exists c :: c in cs && Means(env, c, truth)
  }

  lemma EveryStep(env: Env, cs: seq<Condition>, truth: Truth)
    requires cs != []
    ensures Every(env, cs, truth) <==> Meaning(env, cs[0]) == truth && Every(env, cs[1..], truth)
    ensures OneOf(env, cs, truth) <==> Meaning(env, cs[0]) == truth || OneOf(env, cs[1..], truth)
  {
    hide Meaning;
    assert Means(env, cs[0], truth) <==> Meaning(env, cs[0]) == truth;
    assert forall c :: c in cs <==> c == cs[0] || c in cs[1..];
  }

  lemma {:induction false} GroupMeaning(env: Env, cs: seq<Condition>)
    ensures AllMeaning(env, cs) == True <==> Every(env, cs, True)
    ensures AllMeaning(env, cs) == False <==> OneOf(env, cs, False)
    ensures SomeMeaning(env, cs) == True <==> OneOf(env, cs, True)
    ensures SomeMeaning(env, cs) == False <==> Every(env, cs, False)
  {
    if cs != [] {
      hide Means, Every, OneOf;
      GroupMeaning(env, cs[1..]);
      EveryStep(env, cs, True);
      EveryStep(env, cs, False);
    }
  }

  /** An AND group is true when every part is and false when some part is; an OR group is true when some part is and
      false when every part is.  The rest is unknown. */
  lemma GroupMeanings(env: Env, column: string, v: Value, sub: seq<Condition>)
    ensures
      var truth := Meaning(env, Condition(column, And, v, sub));
      && (truth == True <==> forall c :: c in sub ==> Meaning(env, c) == True)
      && (truth == False <==> exists c :: c in sub && Meaning(env, c) == False)
    ensures
      var truth := Meaning(env, Condition(column, Or, v, sub));
      && (truth == True <==> exists c :: c in sub && Meaning(env, c) == True)
      && (truth == False <==> forall c :: c in sub ==> Meaning(env, c) == False)
  {
    GroupMeaning(env, sub);
    assert forall c, t :: Means(env, c, t) <==> Meaning(env, c) == t;
  }

  // ---- the meaning of a parsed expression, with $n looked up in the argument list ----

  function OperandValue(env: Env, args: seq<Value>, x: G.Operand): Value {
    match x
    case Col(name) => env.row(name)
    case Par(n) => if 1 <= n <= |args| then args[n - 1] else Null
    case Num(k) => Scalar(k)
  }

  /** `x op ANY (array)`: true if some element compares true, otherwise null if some
      comparison is null, otherwise false. */
  function AnyTruth(env: Env, op: CompareOp, x: Value, a: Value): Truth {
    if !a.Array? then Unknown
    else if exists v :: v in a.elems && Comparing(env, op, x, v) == True then True
    else if exists v :: v in a.elems && Comparing(env, op, x, v) == Unknown then Unknown
    else False
  }

  /** `x op ALL (array)`: false if some element compares false, otherwise null if some
      comparison is null, otherwise true. */
  function AllTruth(env: Env, op: CompareOp, x: Value, a: Value): Truth {
    if !a.Array? then Unknown
    else if exists v :: v in a.elems && Comparing(env, op, x, v) == False then False
    else if exists v :: v in a.elems && Comparing(env, op, x, v) == Unknown then Unknown
    else True
  }

  function PredTruth(env: Env, args: seq<Value>, p: G.Pred): Truth
    decreases p
  {
    match p
    case Paren(d) => DisjTruth(env, args, d)
    case IsNull(x) => if OperandValue(env, args, x).Null? then True else False
    case NotNull(x) => if OperandValue(env, args, x).Null? then False else True
    case Between(x, low, high) =>
      And3(Comparing(env, Gte, OperandValue(env, args, x), OperandValue(env, args, low)),
           Comparing(env, Lte, OperandValue(env, args, x), OperandValue(env, args, high)))
    case Cmp(x, op, y) => Comparing(env, op, OperandValue(env, args, x), OperandValue(env, args, y))
    case AnyOf(x, op, y) => AnyTruth(env, op, OperandValue(env, args, x), OperandValue(env, args, y))
    case AllOf(x, op, y) => AllTruth(env, op, OperandValue(env, args, x), OperandValue(env, args, y))
  }

  function ConjTruth(env: Env, args: seq<Value>, k: G.Conj): Truth
    decreases k
  {
    match k
    case OnePred(p) => PredTruth(env, args, p)
    case AndThen(p, rest) => And3(PredTruth(env, args, p), ConjTruth(env, args, rest))
  }

  function DisjTruth(env: Env, args: seq<Value>, d: G.Disj): Truth
    decreases d
  {
    match d
    case OneConj(k) => ConjTruth(env, args, k)
    case OrElse(k, rest) => Or3(ConjTruth(env, args, k), DisjTruth(env, args, rest))
  }

  // ---- membership: ANY and ALL agree with IN and NOT IN ----

  lemma {:induction false} AnyIsIn(env: Env, x: Value, vs: seq<Value>, typed: bool)
    ensures AnyTruth(env, Eq, x, Array(vs, typed)) == InMeaning(env, x, vs)
  {
    if vs != [] {
      AnyIsIn(env, x, vs[1..], typed);
      assert forall v :: v in vs <==> v == vs[0] || v in vs[1..];
    }
  }

  lemma {:induction false} AllIsNotIn(env: Env, x: Value, vs: seq<Value>, typed: bool)
    ensures AllTruth(env, NotEq, x, Array(vs, typed)) == NotInMeaning(env, x, vs)
  {
    if vs != [] {
      AllIsNotIn(env, x, vs[1..], typed);
      assert forall v :: v in vs <==> v == vs[0] || v in vs[1..];
    }
  }

  // ---- the derivation tree of a rendered condition ----

  /** No AND or OR group anywhere in the tree is empty. */
  predicate NoEmptyGroup(c: Condition)
    decreases c
  {
    c.op.And? || c.op.Or? ==> c.sub != [] && forall d :: d in c.sub ==> NoEmptyGroup(d)
  }

  predicate NoEmptyGroups(cs: seq<Condition>) {
    forall c :: c in cs ==> NoEmptyGroup(c)
  }

  function Tree(c: Condition, s: int): G.Pred
    requires NoEmptyGroup(c)
    decreases c, 1
  {
    match c.op
    case IsNull => G.IsNull(G.Col(c.column))
    case NotNull => G.NotNull(G.Col(c.column))
    case In => G.AnyOf(G.Col(c.column), Eq, G.Par(s))
    case NotIn => G.AllOf(G.Col(c.column), NotEq, G.Par(s))
    case Between =>
      if IsRange(c.value) then G.Between(G.Col(c.column), G.Par(s), G.Par(s + 1))
      else G.Cmp(G.Num(1), Eq, G.Num(0))
    case And => G.Paren(G.OneConj(ConjTree(c.sub, s)))
    case Or => G.Paren(DisjTree(c.sub, s))
    case Comparison(op) => G.Cmp(G.Col(c.column), op, G.Par(s))
  }

  function ConjTree(cs: seq<Condition>, s: int): G.Conj
    requires cs != [] && NoEmptyGroups(cs)
    decreases cs, 0
  {
    if |cs| == 1 then G.OnePred(Tree(cs[0], s))
    else G.AndThen(Tree(cs[0], s), ConjTree(cs[1..], s + |Holes(Pieces(cs[0]))|))
  }

  function DisjTree(cs: seq<Condition>, s: int): G.Disj
    requires cs != [] && NoEmptyGroups(cs)
    decreases cs, 0
  {
    if |cs| == 1 then G.OneConj(G.OnePred(Tree(cs[0], s)))
    else G.OrElse(G.OnePred(Tree(cs[0], s)), DisjTree(cs[1..], s + |Holes(Pieces(cs[0]))|))
  }

  lemma LeafDerives(c: Condition, s: int)
    requires !c.op.And? && !c.op.Or?
    ensures G.PredTokens(Tree(c, s)) == Numbered(Pieces(c), s)
  {
    match c.op
    case IsNull => LitsNumbered([Column(c.column), IsKw, NullKw], s);
    case NotNull => LitsNumbered([Column(c.column), IsKw, NotKw, NullKw], s);
    case In => MembershipDerives(c, s);
    case NotIn => MembershipDerives(c, s);
    case Between =>
      if IsRange(c.value) {
        TwoHoles([Column(c.column), BetweenKw], c.value.elems[0], [AndKw], c.value.elems[1], s);
      } else {
        LitsNumbered([Number(1), Compare(Eq), Number(0)], s);
      }
    case Comparison(op) =>
      OneHole([Column(c.column), Compare(op)], c.value, [], s);
      assert Pieces(c) == Pieces(c) + Lits([]);
  }

  lemma MembershipDerives(c: Condition, s: int)
    requires c.op.In? || c.op.NotIn?
    ensures G.PredTokens(Tree(c, s)) == Numbered(Pieces(c), s)
  {
    var op, kw := if c.op.In? then Eq else NotEq, if c.op.In? then AnyKw else AllKw;
    OneHole([Column(c.column), Compare(op), kw, LParen], c.value, [RParen], s);
    assert Syms([Column(c.column), Compare(op), kw, LParen]) == [Sym(Column(c.column)), Sym(Compare(op)), Sym(kw), Sym(LParen)];
  }

  lemma {:induction false} TreeDerives(c: Condition, s: int)
    requires NoEmptyGroup(c)
    ensures G.PredTokens(Tree(c, s)) == Numbered(Pieces(c), s)
    decreases c, 1
  {
    if c.op.And? {
      ConjTreeDerives(c.sub, s);
      GroupNumbered(c.sub, AndKw, s);
    } else if c.op.Or? {
      DisjTreeDerives(c.sub, s);
      GroupNumbered(c.sub, OrKw, s);
    } else {
      LeafDerives(c, s);
    }
  }

  lemma GroupNumbered(cs: seq<Condition>, sep: Symbol, s: int)
    ensures
      var inner := JoinedPieces(cs, sep);
      && Numbered([Lit(LParen)] + inner + [Lit(RParen)], s) == [Sym(LParen)] + Numbered(inner, s) + [Sym(RParen)]
      && Holes([Lit(LParen)] + inner + [Lit(RParen)]) == Holes(inner)
  {
    var inner := JoinedPieces(cs, sep);
    NumberedConcat([Lit(LParen)] + inner, [Lit(RParen)], s);
    NumberedConcat([Lit(LParen)], inner, s);
    HolesConcat([Lit(LParen)] + inner, [Lit(RParen)]);
    HolesConcat([Lit(LParen)], inner);
  }

  /** The head of a joined list, its separator and the rest. */
  lemma JoinedStep(cs: seq<Condition>, sep: Symbol, s: int)
    requires |cs| > 1
    ensures
      var head := Pieces(cs[0]);
      var tail := JoinedPieces(cs[1..], sep);
      && Holes(JoinedPieces(cs, sep)) == Holes(head) + Holes(tail)
      && Numbered(JoinedPieces(cs, sep), s) == Numbered(head, s) + [Sym(sep)] + Numbered(tail, s + |Holes(head)|)
  {
    SeparatedConcat(Pieces(cs[0]), sep, JoinedPieces(cs[1..], sep), s);
  }

  lemma {:induction false} ConjTreeDerives(cs: seq<Condition>, s: int)
    requires cs != [] && NoEmptyGroups(cs)
    ensures G.ConjTokens(ConjTree(cs, s)) == Numbered(JoinedPieces(cs, AndKw), s)
    decreases cs, 0
  {
    hide Pieces, Tree, Numbered, Holes, G.PredTokens;
    TreeDerives(cs[0], s);
    if |cs| > 1 {
      var s' := s + |Holes(Pieces(cs[0]))|;
      ConjTreeDerives(cs[1..], s');
      JoinedStep(cs, AndKw, s);
      var p, k := Tree(cs[0], s), ConjTree(cs[1..], s');
      assert G.ConjTokens(G.AndThen(p, k)) == G.PredTokens(p) + [Sym(AndKw)] + G.ConjTokens(k);
    }
  }

  lemma {:induction false} DisjTreeDerives(cs: seq<Condition>, s: int)
    requires cs != [] && NoEmptyGroups(cs)
    ensures G.DisjTokens(DisjTree(cs, s)) == Numbered(JoinedPieces(cs, OrKw), s)
    decreases cs, 0
  {
    hide Pieces, Tree, Numbered, Holes, G.PredTokens;
    TreeDerives(cs[0], s);
    if |cs| > 1 {
      var s' := s + |Holes(Pieces(cs[0]))|;
      DisjTreeDerives(cs[1..], s');
      JoinedStep(cs, OrKw, s);
      var p, d := Tree(cs[0], s), DisjTree(cs[1..], s');
      assert G.DisjTokens(G.OrElse(G.OnePred(p), d)) == G.PredTokens(p) + [Sym(OrKw)] + G.DisjTokens(d);
    }
  }

  // ---- meaning is preserved ----

  /** Placeholders s, s + 1, ... are bound to `vals` in `args`. */
  ghost predicate Window(args: seq<Value>, s: int, vals: seq<Value>) {
    1 <= s && s - 1 + |vals| <= |args| && forall i :: 0 <= i < |vals| ==> args[s - 1 + i] == vals[i]
  }

  lemma WindowSplit(args: seq<Value>, s: int, a: seq<Value>, b: seq<Value>)
    requires Window(args, s, a + b)
    ensures Window(args, s, a) && Window(args, s + |a|, b)
  {
    forall i | 0 <= i < |a| ensures args[s - 1 + i] == a[i] {
      assert (a + b)[i] == a[i];
    }
    forall i | 0 <= i < |b| ensures args[s + |a| - 1 + i] == b[i] {
      assert (a + b)[|a| + i] == b[i];
    }
  }

  lemma {:induction false} TreeMeaning(env: Env, c: Condition, args: seq<Value>, s: int)
    requires NoEmptyGroup(c)
    requires Window(args, s, Holes(Pieces(c)))
    ensures PredTruth(env, args, Tree(c, s)) == Meaning(env, c)
    decreases c, 1
  {
    match c.op
    case In =>
      OneHole([Column(c.column), Compare(Eq), AnyKw, LParen], c.value, [RParen], s);
      assert Holes(Pieces(c))[0] == c.value;
      if c.value.Array? { AnyIsIn(env, env.row(c.column), c.value.elems, c.value.typed); }
    case NotIn =>
      OneHole([Column(c.column), Compare(NotEq), AllKw, LParen], c.value, [RParen], s);
      assert Holes(Pieces(c))[0] == c.value;
      if c.value.Array? { AllIsNotIn(env, env.row(c.column), c.value.elems, c.value.typed); }
    case Between =>
      if IsRange(c.value) {
        TwoHoles([Column(c.column), BetweenKw], c.value.elems[0], [AndKw], c.value.elems[1], s);
        assert Holes(Pieces(c))[0] == c.value.elems[0] && Holes(Pieces(c))[1] == c.value.elems[1];
      }
    case And =>
      GroupNumbered(c.sub, AndKw, s);
      ConjTreeMeaning(env, c.sub, args, s);
    case Or =>
      GroupNumbered(c.sub, OrKw, s);
      DisjTreeMeaning(env, c.sub, args, s);
    case Comparison(op) =>
      OneHole([Column(c.column), Compare(op)], c.value, [], s);
      assert Pieces(c) == Pieces(c) + Lits([]);
      assert Holes(Pieces(c))[0] == c.value;
    case _ =>
  }

  lemma {:induction false} ConjTreeMeaning(env: Env, cs: seq<Condition>, args: seq<Value>, s: int)
    requires cs != [] && NoEmptyGroups(cs)
    requires Window(args, s, Holes(JoinedPieces(cs, AndKw)))
    ensures ConjTruth(env, args, ConjTree(cs, s)) == AllMeaning(env, cs)
    decreases cs, 0
  {
    hide Pieces, Tree, Numbered, Holes, Window, Meaning, PredTruth;
    if |cs| > 1 {
      var head := Holes(Pieces(cs[0]));
      JoinedStep(cs, AndKw, s);
      WindowSplit(args, s, head, Holes(JoinedPieces(cs[1..], AndKw)));
      ConjTreeMeaning(env, cs[1..], args, s + |head|);
    }
    TreeMeaning(env, cs[0], args, s);
  }

  lemma {:induction false} DisjTreeMeaning(env: Env, cs: seq<Condition>, args: seq<Value>, s: int)
    requires cs != [] && NoEmptyGroups(cs)
    requires Window(args, s, Holes(JoinedPieces(cs, OrKw)))
    ensures DisjTruth(env, args, DisjTree(cs, s)) == SomeMeaning(env, cs)
    decreases cs, 0
  {
    hide Pieces, Tree, Numbered, Holes, Window, Meaning, PredTruth;
    if |cs| > 1 {
      var head := Holes(Pieces(cs[0]));
      JoinedStep(cs, OrKw, s);
      WindowSplit(args, s, head, Holes(JoinedPieces(cs[1..], OrKw)));
      DisjTreeMeaning(env, cs[1..], args, s + |head|);
    }
    TreeMeaning(env, cs[0], args, s);
  }

  /** The compiler theorem.  A WHERE body rendered from start index |pre| + 1 parses, has only
      that one derivation, and its three-valued result on every row, with the rendered
      arguments bound between any `pre` and `post`, is that of the trees ANDed together. */
  lemma WherePreservesMeaning(cs: seq<Condition>, env: Env, pre: seq<Value>, post: seq<Value>)
    requires cs != [] && NoEmptyGroups(cs)
    ensures
      var ts := Numbered(JoinedPieces(cs, AndKw), |pre| + 1);
      var args := pre + Holes(JoinedPieces(cs, AndKw)) + post;
      && G.Parse(ts).Some?
      && (forall d :: G.DisjTokens(d) == ts ==> d == G.Parse(ts).value)
      && DisjTruth(env, args, G.Parse(ts).value) == AllMeaning(env, cs)
  {
    var d := G.OneConj(ConjTree(cs, |pre| + 1));
    ConjTreeDerives(cs, |pre| + 1);
    G.ParseComplete(d);
    ConjTreeMeaning(env, cs, pre + Holes(JoinedPieces(cs, AndKw)) + post, |pre| + 1);
    forall d' | G.DisjTokens(d') == G.DisjTokens(d)
      ensures d' == d
    {
      G.Unambiguous(d, d');
    }
  }

  // ---- exactly the bodies without empty groups are SQL ----

  lemma EmptyParensInContext(a: seq<Token>, ts: seq<Token>, b: seq<Token>)
    requires G.HasEmptyParens(ts)
    ensures G.HasEmptyParens(a + ts + b)
  {
    var i :| 0 <= i < |ts| - 1 && ts[i] == Sym(LParen) && ts[i + 1] == Sym(RParen);
    var all := a + ts + b;
    assert all[|a| + i] == Sym(LParen) && all[|a| + i + 1] == Sym(RParen);
  }

  lemma EmptyParensInJoin(a: seq<Token>, sep: Symbol, b: seq<Token>)
    requires G.HasEmptyParens(a) || G.HasEmptyParens(b)
    ensures G.HasEmptyParens(a + [Sym(sep)] + b)
  {
    if G.HasEmptyParens(a) {
      EmptyParensInContext([], a, [Sym(sep)] + b);
      assert [] + a + ([Sym(sep)] + b) == a + [Sym(sep)] + b;
    } else {
      EmptyParensInContext(a + [Sym(sep)], b, []);
      assert a + [Sym(sep)] + b + [] == a + [Sym(sep)] + b;
    }
  }

  lemma {:induction false} EmptyGroupRenders(c: Condition, s: int)
    requires !NoEmptyGroup(c)
    ensures G.HasEmptyParens(Numbered(Pieces(c), s))
    decreases c, 1
  {
    var sep := if c.op.And? then AndKw else OrKw;
    GroupNumbered(c.sub, sep, s);
    if c.sub == [] {
      var ts := Numbered(Pieces(c), s);
      assert ts == [Sym(LParen), Sym(RParen)];
      assert 0 <= 0 < |ts| - 1 && ts[0] == Sym(LParen) && ts[0 + 1] == Sym(RParen);
    } else {
      EmptyGroupsRender(c.sub, sep, s);
      EmptyParensInContext([Sym(LParen)], Numbered(JoinedPieces(c.sub, sep), s), [Sym(RParen)]);
    }
  }

  lemma {:induction false} EmptyGroupsRender(cs: seq<Condition>, sep: Symbol, s: int)
    requires !NoEmptyGroups(cs)
    ensures G.HasEmptyParens(Numbered(JoinedPieces(cs, sep), s))
    decreases cs, 0
  {
    hide Pieces, Numbered, Holes, G.HasEmptyParens;
    if |cs| == 1 {
      EmptyGroupRenders(cs[0], s);
    } else {
      JoinedStep(cs, sep, s);
      var head := Numbered(Pieces(cs[0]), s);
      var s' := s + |Holes(Pieces(cs[0]))|;
      var tail := Numbered(JoinedPieces(cs[1..], sep), s');
      if !NoEmptyGroup(cs[0]) {
        EmptyGroupRenders(cs[0], s);
        EmptyParensInJoin(head, sep, tail);
      } else {
        EmptyGroupsRender(cs[1..], sep, s');
        EmptyParensInJoin(head, sep, tail);
      }
    }
  }

  /** A rendered WHERE body is an SQL expression if and only if it is not empty and no group in
      it is; an empty group renders as `()`, which no expression contains. */
  lemma WhereParsesIff(cs: seq<Condition>, s: int)
    ensures G.Parse(Numbered(JoinedPieces(cs, AndKw), s)).Some? <==> cs != [] && NoEmptyGroups(cs)
  {
    var ts := Numbered(JoinedPieces(cs, AndKw), s);
    if cs != [] && NoEmptyGroups(cs) {
      ConjTreeDerives(cs, s);
      G.ParseComplete(G.OneConj(ConjTree(cs, s)));
    } else if cs != [] {
      EmptyGroupsRender(cs, AndKw, s);
      if G.Parse(ts).Some? {
        G.ParseIffDerives(ts, G.Parse(ts).value);
        G.DisjBracketless(G.Parse(ts).value);
        assert false;
      }
    }
  }
}
