/** JoinAnd (database/postgres/query/render.go): fragments of a WHERE body put together with AND and
    without parentheses.  What the joined text means is not always the conjunction of what the
    fragments mean, since AND binds tighter than an OR inside a fragment. */
module SqlJoin {
  import opened Options
  import opened SqlText
  import opened SqlConditions
  import opened SqlMeaning
  import G = SqlGrammar

  /** The fragments among the first n that are not blank. */
  function NonBlank(fragments: seq<seq<Token>>, n: nat): seq<seq<Token>>
    requires n <= |fragments|
  {
    if n == 0 then []
    else NonBlank(fragments, n - 1) + if fragments[n - 1] == [] then [] else [fragments[n - 1]]
  }

  method JoinAnd(fragments: seq<seq<Token>>) returns (ts: seq<Token>)
    ensures ts == JoinTokens(NonBlank(fragments, |fragments|), Sym(AndKw))
  {
    var nonEmpty: seq<seq<Token>> := [];
    for i := 0 to |fragments|
      invariant nonEmpty == NonBlank(fragments, i)
    {
      if fragments[i] != [] {
        nonEmpty := nonEmpty + [fragments[i]];
      }
    }
    ts := Join(nonEmpty, Sym(AndKw));
  }

  // ---- the derivation of joined text ----

  function GlueConj(a: G.Conj, b: G.Conj): G.Conj {
    match a
    case OnePred(p) => G.AndThen(p, b)
    case AndThen(p, rest) => G.AndThen(p, GlueConj(rest, b))
  }

  /** The last conjunction of `a` and the first of `b` grow together. */
  function Glue(a: G.Disj, b: G.Disj): G.Disj {
    match a
    case OrElse(k, rest) => G.OrElse(k, Glue(rest, b))
    case OneConj(k) =>
      match b
      case OneConj(l) => G.OneConj(GlueConj(k, l))
      case OrElse(l, rest) => G.OrElse(GlueConj(k, l), rest)
  }

  lemma {:induction false} GlueConjDerives(a: G.Conj, b: G.Conj)
    ensures G.ConjTokens(GlueConj(a, b)) == G.ConjTokens(a) + [Sym(AndKw)] + G.ConjTokens(b)
  {
    if a.AndThen? {
      GlueConjDerives(a.rest, b);
      var head, sep, tail := G.PredTokens(a.p) + [Sym(AndKw)], [Sym(AndKw)], G.ConjTokens(b);
      assert head + (G.ConjTokens(a.rest) + sep + tail) == head + G.ConjTokens(a.rest) + sep + tail;
    }
  }

  lemma {:induction false} GlueDerives(a: G.Disj, b: G.Disj)
    ensures G.DisjTokens(Glue(a, b)) == G.DisjTokens(a) + [Sym(AndKw)] + G.DisjTokens(b)
  {
    hide G.ConjTokens;
    match a
    case OrElse(k, rest) =>
      GlueDerives(rest, b);
      var head, sep, tail := G.ConjTokens(k) + [Sym(OrKw)], [Sym(AndKw)], G.DisjTokens(b);
      assert head + (G.DisjTokens(rest) + sep + tail) == head + G.DisjTokens(rest) + sep + tail;
    case OneConj(k) =>
      GlueConjDerives(k, b.k);
      if b.OrElse? {
        var head, sep, tail := G.ConjTokens(k) + [Sym(AndKw)], [Sym(OrKw)], G.DisjTokens(b.rest);
        assert head + G.ConjTokens(b.k) + sep + tail == head + (G.ConjTokens(b.k) + sep + tail);
      }
  }

  /** Two fragments that are expressions join to an expression, and to this one only. */
  lemma JoinParses(a: G.Disj, b: G.Disj)
    ensures G.Parse(G.DisjTokens(a) + [Sym(AndKw)] + G.DisjTokens(b)) == Some(Glue(a, b))
  {
    GlueDerives(a, b);
    G.ParseComplete(Glue(a, b));
  }

  // ---- its meaning ----

  /** The alternatives before the last one, false if there are none. */
  function Front(env: Env, args: seq<Value>, d: G.Disj): Truth {
    match d
    case OneConj(_) => False
    case OrElse(k, rest) => Or3(ConjTruth(env, args, k), Front(env, args, rest))
  }

  function Last(d: G.Disj): G.Conj {
    match d case OneConj(k) => k case OrElse(_, rest) => Last(rest)
  }

  /** The alternatives after the first one, false if there are none. */
  function Back(env: Env, args: seq<Value>, d: G.Disj): Truth {
    match d case OneConj(_) => False case OrElse(_, rest) => DisjTruth(env, args, rest)
  }

  lemma {:induction false} GlueConjTruth(env: Env, args: seq<Value>, a: G.Conj, b: G.Conj)
    ensures ConjTruth(env, args, GlueConj(a, b)) == And3(ConjTruth(env, args, a), ConjTruth(env, args, b))
  {
    if a.AndThen? {
      GlueConjTruth(env, args, a.rest, b);
    }
  }

  lemma {:induction false} FrontAndLast(env: Env, args: seq<Value>, d: G.Disj)
    ensures DisjTruth(env, args, d) == Or3(Front(env, args, d), ConjTruth(env, args, Last(d)))
  {
    if d.OrElse? {
      FrontAndLast(env, args, d.rest);
    }
  }

  /** What joined text means, for all fragments: only the alternatives next to the AND are conjoined. */
  lemma {:induction false} JoinMeaning(env: Env, args: seq<Value>, a: G.Disj, b: G.Disj)
    ensures DisjTruth(env, args, Glue(a, b)) ==
            Or3(Or3(Front(env, args, a), And3(ConjTruth(env, args, Last(a)), ConjTruth(env, args, b.k))), Back(env, args, b))
  {
    match a
    case OrElse(k, rest) => JoinMeaning(env, args, rest, b);
    case OneConj(k) => GlueConjTruth(env, args, k, b.k);
  }

  /** 1 = 0 */
  const NEVER := G.OnePred(G.Cmp(G.Num(1), Eq, G.Num(0)))

  /** On this row the joined text means the conjunction of the two fragments. */
  predicate Conjoins(env: Env, args: seq<Value>, a: G.Disj, b: G.Disj) {
    DisjTruth(env, args, Glue(a, b)) == And3(DisjTruth(env, args, a), DisjTruth(env, args, b))
  }

  lemma BeforeConjunction(env: Env, args: seq<Value>, a: G.Disj, k: G.Conj)
    ensures Front(env, args, a) == False ==> Conjoins(env, args, a, G.OneConj(k))
    ensures ConjTruth(env, args, k) == False && Conjoins(env, args, a, G.OneConj(k)) ==> Front(env, args, a) == False
  {
    FrontAndLast(env, args, a);
    JoinMeaning(env, args, a, G.OneConj(k));
  }

  lemma AfterConjunction(env: Env, args: seq<Value>, k: G.Conj, b: G.Disj)
    ensures Back(env, args, b) == False ==> Conjoins(env, args, G.OneConj(k), b)
    ensures ConjTruth(env, args, k) == False && Conjoins(env, args, G.OneConj(k), b) ==> Back(env, args, b) == False
  {
    JoinMeaning(env, args, G.OneConj(k), b);
  }

  lemma NeverIsFalse(env: Env, args: seq<Value>)
    ensures ConjTruth(env, args, NEVER) == False
  {
  }

  /** Exactly when a fragment can safely be put before conjunctions: with every one of them it means the
      conjunction if and only if its alternatives before the last are false on the row, as they are when it is a
      conjunction itself. */
  lemma SafeOnTheLeftIff(env: Env, args: seq<Value>, a: G.Disj)
    ensures (forall k :: Conjoins(env, args, a, G.OneConj(k))) <==> Front(env, args, a) == False
  {
    hide Conjoins;
    forall k ensures Front(env, args, a) == False ==> Conjoins(env, args, a, G.OneConj(k)) {
      BeforeConjunction(env, args, a, k);
    }
    NeverIsFalse(env, args);
    BeforeConjunction(env, args, a, NEVER);
  }

  /** And after conjunctions: if and only if its alternatives after the first are false on the row. */
  lemma SafeOnTheRightIff(env: Env, args: seq<Value>, b: G.Disj)
    ensures (forall k :: Conjoins(env, args, G.OneConj(k), b)) <==> Back(env, args, b) == False
  {
    hide Conjoins;
    forall k ensures Back(env, args, b) == False ==> Conjoins(env, args, G.OneConj(k), b) {
      AfterConjunction(env, args, k, b);
    }
    NeverIsFalse(env, args);
    AfterConjunction(env, args, NEVER, b);
  }

  /** a IS NULL OR b IS NULL joined with c IS NULL holds on a row where c is not null. */
  lemma AlternativesLeak(args: seq<Value>)
    ensures
      var env: Env := Env((name: string) => if name == "a" then Null else Scalar(0), (op: CompareOp, x: Value, y: Value) => x == y);
      var a := G.OrElse(G.OnePred(G.IsNull(G.Col("a"))), G.OneConj(G.OnePred(G.IsNull(G.Col("b")))));
      var b := G.OneConj(G.OnePred(G.IsNull(G.Col("c"))));
      DisjTruth(env, args, Glue(a, b)) == True && DisjTruth(env, args, b) == False
  {
    var env: Env := Env((name: string) => if name == "a" then Null else Scalar(0), (op: CompareOp, x: Value, y: Value) => x == y);
    var a := G.OrElse(G.OnePred(G.IsNull(G.Col("a"))), G.OneConj(G.OnePred(G.IsNull(G.Col("b")))));
    var b := G.OneConj(G.OnePred(G.IsNull(G.Col("c"))));
    JoinMeaning(env, args, a, b);
    assert ConjTruth(env, args, a.k) == True;
  }

  // ---- bodies of BuildWhere ----

  /** What BuildWhere renders from index s, and how many arguments it binds. */
  function Body(cs: seq<Condition>, s: int): seq<Token> {
    Numbered(JoinedPieces(cs, AndKw), s)
  }

  function BodyHoles(cs: seq<Condition>): nat {
    |Holes(JoinedPieces(cs, AndKw))|
  }

  function HoleCount(bodies: seq<seq<Condition>>, n: nat): nat
    requires n <= |bodies|
  {
    if n == 0 then 0 else HoleCount(bodies, n - 1) + BodyHoles(bodies[n - 1])
  }

  /** The first n bodies, each rendered from the index the one before stopped at. */
  function Rendered(bodies: seq<seq<Condition>>, n: nat, s: int): (fragments: seq<seq<Token>>)
    requires n <= |bodies|
    ensures |fragments| == n
  {
    if n == 0 then [] else Rendered(bodies, n - 1, s) + [Body(bodies[n - 1], s + HoleCount(bodies, n - 1))]
  }

  function Flat(bodies: seq<seq<Condition>>, n: nat): seq<Condition>
    requires n <= |bodies|
  {
    if n == 0 then [] else Flat(bodies, n - 1) + bodies[n - 1]
  }

  lemma JoinedPiecesOne(c: Condition, sep: Symbol)
    ensures JoinedPieces([c], sep) == Pieces(c)
  {
  }

  lemma {:induction false} JoinedPiecesConcat(a: seq<Condition>, b: seq<Condition>, sep: Symbol)
    requires a != [] && b != []
    ensures JoinedPieces(a + b, sep) == JoinedPieces(a, sep) + [Lit(sep)] + JoinedPieces(b, sep)
  {
    hide JoinedPieces, Pieces;
    var b', c := b[..|b| - 1], b[|b| - 1];
    assert b == b' + [c] && a + b == a + b' + [c];
    JoinedPiecesSnoc(a + b', c, sep);
    if b' == [] {
      JoinedPiecesOne(c, sep);
      assert a + b' == a && b == [c];
    } else {
      JoinedPiecesConcat(a, b', sep);
      JoinedPiecesSnoc(b', c, sep);
      Reassociate(JoinedPieces(a, sep) + [Lit(sep)], JoinedPieces(b', sep), [Lit(sep)], Pieces(c));
    }
  }

  lemma Reassociate(w: seq<Piece>, x: seq<Piece>, y: seq<Piece>, z: seq<Piece>)
    ensures w + (x + y + z) == w + x + y + z
  {
  }

  lemma {:induction false} NonBlankPrefix(fragments: seq<seq<Token>>, f: seq<Token>, n: nat)
    requires n <= |fragments|
    ensures NonBlank(fragments + [f], n) == NonBlank(fragments, n)
  {
    if n > 0 {
      NonBlankPrefix(fragments, f, n - 1);
      assert (fragments + [f])[n - 1] == fragments[n - 1];
    }
  }

  lemma NonBlankSnoc(fragments: seq<seq<Token>>, f: seq<Token>)
    ensures NonBlank(fragments + [f], |fragments| + 1) == NonBlank(fragments, |fragments|) + if f == [] then [] else [f]
  {
    NonBlankPrefix(fragments, f, |fragments|);
  }

  /** The parts joined are the body of `cs`, which binds `holes` arguments. */
  ghost predicate Joins(parts: seq<seq<Token>>, cs: seq<Condition>, s: int, holes: nat) {
    JoinTokens(parts, Sym(AndKw)) == Body(cs, s) && BodyHoles(cs) == holes && (parts == [] <==> cs == [])
  }

  lemma JoinsNothing(s: int)
    ensures Joins([], [], s, 0)
  {
  }

  lemma BlankBody(s: int)
    ensures Body([], s) == [] && BodyHoles([]) == 0
  {
  }

  lemma BodyIsNotBlank(cs: seq<Condition>, s: int)
    requires cs != []
    ensures Body(cs, s) != []
  {
    assert |Pieces(cs[0])| > 0;
    assert JoinedPieces(cs, AndKw) != [];
  }

  lemma JoinsMore(parts: seq<seq<Token>>, done: seq<Condition>, body: seq<Condition>, s: int, holes: nat)
    requires Joins(parts, done, s, holes) && body != []
    ensures Joins(parts + [Body(body, s + holes)], done + body, s, holes + BodyHoles(body))
  {
    JoinTokensSnoc(parts, Body(body, s + holes), Sym(AndKw));
    if done == [] {
      BlankBody(s);
      assert done + body == body;
    } else {
      JoinedPiecesConcat(done, body, AndKw);
      SeparatedConcat(JoinedPieces(done, AndKw), AndKw, JoinedPieces(body, AndKw), s);
      hide Numbered, Holes, JoinedPieces, JoinTokens, Pieces;
    }
  }

  /** Bodies of BuildWhere are always safe: joined they are the body of all their conditions, with the same
      arguments, so the compiler theorem applies to the joined text. */
  lemma {:induction false} WhereBodiesJoin(bodies: seq<seq<Condition>>, n: nat, s: int)
    requires n <= |bodies|
    ensures Joins(NonBlank(Rendered(bodies, n, s), n), Flat(bodies, n), s, HoleCount(bodies, n))
  {
    hide Joins, Body, BodyHoles;
    if n == 0 {
      JoinsNothing(s);
    } else {
      WhereBodiesJoin(bodies, n - 1, s);
      var before, body, holes := Rendered(bodies, n - 1, s), bodies[n - 1], HoleCount(bodies, n - 1);
      NonBlankSnoc(before, Body(body, s + holes));
      assert NonBlank(Rendered(bodies, n, s), n) ==
             NonBlank(before, n - 1) + if Body(body, s + holes) == [] then [] else [Body(body, s + holes)];
      JoinsOneMore(NonBlank(before, n - 1), Flat(bodies, n - 1), body, s, holes);
    }
  }

  lemma JoinsOneMore(parts: seq<seq<Token>>, done: seq<Condition>, body: seq<Condition>, s: int, holes: nat)
    requires Joins(parts, done, s, holes)
    ensures Joins(parts + (if Body(body, s + holes) == [] then [] else [Body(body, s + holes)]), done + body, s, holes + BodyHoles(body))
  {
    hide Joins, Body, BodyHoles;
    if body == [] {
      BlankBody(s + holes);
      assert done + body == done && parts + [] == parts;
    } else {
      BodyIsNotBlank(body, s + holes);
      JoinsMore(parts, done, body, s, holes);
    }
  }
}
