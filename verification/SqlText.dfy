/** Parameterised SQL text.  A builder emits tokens in which `$n` placeholders stand
    for values it appends, in the same order, to a separate argument list.  The
    placeholder-free reference form of such a statement is a `Piece` sequence that
    carries every value at the position where it belongs. */
module SqlText {

  import opened Options

  /** A Go `any` bound as a parameter: SQL NULL, a scalar, a text or a slice, which is
      `typed` unless it is a []any. */
  datatype Value = Null | Scalar(n: int) | Text(s: string) | Array(elems: seq<Value>, typed: bool)

  datatype CompareOp = Eq | NotEq | Gt | Gte | Lt | Lte | Like | ILike

  datatype Symbol =
    | LParen | RParen | Comma
    | AndKw | OrKw | BetweenKw | IsKw | NotKw | NullKw | AnyKw | AllKw
    | Column(name: string)
    | Number(k: int)
    | Compare(op: CompareOp)
    | Word(text: string)

  datatype Token = Sym(sym: Symbol) | Param(n: int)

  datatype Piece = Lit(sym: Symbol) | Hole(value: Value)

  function Holes(ps: seq<Piece>): seq<Value> {
    if ps == [] then []
    else if ps[0].Hole? then [ps[0].value] + Holes(ps[1..])
    else Holes(ps[1..])
  }

  /** The tokens of `ps` with its holes numbered s, s + 1, ... from left to right. */
  function Numbered(ps: seq<Piece>, s: int): seq<Token> {
    if ps == [] then []
    else if ps[0].Hole? then [Param(s)] + Numbered(ps[1..], s + 1)
    else [Sym(ps[0].sym)] + Numbered(ps[1..], s)
  }

  /** The placeholder numbers of a statement, read from left to right. */
  function Placeholders(ts: seq<Token>): seq<int> {
    if ts == [] then []
    else if ts[0].Param? then [ts[0].n] + Placeholders(ts[1..])
    else Placeholders(ts[1..])
  }

  /** What the server sees: every `$n` replaced by argument number n (counted from 1);
      `None` when some placeholder has no argument. */
  function Bound(ts: seq<Token>, args: seq<Value>): Option<seq<Piece>> {
    if ts == [] then Some([])
    else
      match Bound(ts[1..], args)
      case None => None
      case Some(rest) =>
        match ts[0]
        case Sym(x) => Some([Lit(x)] + rest)
        case Param(n) => if 1 <= n <= |args| then Some([Hole(args[n - 1])] + rest) else None
  }

  function Shifted(ts: seq<Token>, delta: int): seq<Token> {
    if ts == [] then []
    else if ts[0].Param? then [Param(ts[0].n + delta)] + Shifted(ts[1..], delta)
    else [ts[0]] + Shifted(ts[1..], delta)
  }

  /** s, s + 1, ..., s + n - 1 */
  function Counting(s: int, n: nat): (r: seq<int>)
    ensures |r| == n && forall i :: 0 <= i < n ==> r[i] == s + i
    decreases n
  {
    if n == 0 then [] else [s] + Counting(s + 1, n - 1)
  }

  function Lits(xs: seq<Symbol>): (ps: seq<Piece>)
    ensures |ps| == |xs| && forall i :: 0 <= i < |xs| ==> ps[i] == Lit(xs[i])
  {
    if xs == [] then [] else [Lit(xs[0])] + Lits(xs[1..])
  }

  function Syms(xs: seq<Symbol>): (ts: seq<Token>)
    ensures |ts| == |xs| && forall i :: 0 <= i < |xs| ==> ts[i] == Sym(xs[i])
  {
    if xs == [] then [] else [Sym(xs[0])] + Syms(xs[1..])
  }

  lemma {:induction false} LitsNumbered(xs: seq<Symbol>, s: int)
    ensures Numbered(Lits(xs), s) == Syms(xs) && Holes(Lits(xs)) == []
  {
    if xs != [] {
      LitsNumbered(xs[1..], s);
      assert Lits(xs)[1..] == Lits(xs[1..]);
    }
  }

  lemma {:induction false} HolesConcat(a: seq<Piece>, b: seq<Piece>)
    ensures Holes(a + b) == Holes(a) + Holes(b)
  {
    if a == [] {
      assert a + b == b;
    } else {
      assert (a + b)[1..] == a[1..] + b;
      HolesConcat(a[1..], b);
    }
  }

  lemma {:induction false} NumberedConcat(a: seq<Piece>, b: seq<Piece>, s: int)
    ensures Numbered(a + b, s) == Numbered(a, s) + Numbered(b, s + |Holes(a)|)
  {
    if a == [] {
      assert a + b == b;
    } else {
      assert (a + b)[1..] == a[1..] + b;
      NumberedConcat(a[1..], b, if a[0].Hole? then s + 1 else s);
    }
  }

  lemma HoleConcat(a: seq<Piece>, v: Value, b: seq<Piece>, s: int)
    ensures Holes(a + [Hole(v)] + b) == Holes(a) + [v] + Holes(b)
    ensures Numbered(a + [Hole(v)] + b, s) == Numbered(a, s) + [Param(s + |Holes(a)|)] + Numbered(b, s + |Holes(a)| + 1)
  {
    NumberedConcat(a + [Hole(v)], b, s);
    NumberedConcat(a, [Hole(v)], s);
    HolesConcat(a + [Hole(v)], b);
    HolesConcat(a, [Hole(v)]);
  }

  lemma SeparatedConcat(a: seq<Piece>, x: Symbol, b: seq<Piece>, s: int)
    ensures Holes(a + [Lit(x)] + b) == Holes(a) + Holes(b)
    ensures Numbered(a + [Lit(x)] + b, s) == Numbered(a, s) + [Sym(x)] + Numbered(b, s + |Holes(a)|)
  {
    NumberedConcat(a + [Lit(x)], b, s);
    NumberedConcat(a, [Lit(x)], s);
    HolesConcat(a + [Lit(x)], b);
    HolesConcat(a, [Lit(x)]);
  }

  /** Read from left to right the placeholders are exactly s, s + 1, ..., one for each argument. */
  lemma {:induction false} PlaceholdersInOrder(ps: seq<Piece>, s: int)
    ensures Placeholders(Numbered(ps, s)) == Counting(s, |Holes(ps)|)
  {
    if ps != [] {
      var s' := if ps[0].Hole? then s + 1 else s;
      PlaceholdersInOrder(ps[1..], s');
      assert Numbered(ps, s)[1..] == Numbered(ps[1..], s');
    }
  }

  lemma BoundCons(t: Token, ts: seq<Token>, args: seq<Value>)
    requires t.Param? ==> 1 <= t.n <= |args|
    requires Bound(ts, args).Some?
    ensures Bound([t] + ts, args) == Some([if t.Param? then Hole(args[t.n - 1]) else Lit(t.sym)] + Bound(ts, args).value)
  {
    var us := [t] + ts;
    assert us[0] == t && us[1..] == ts;
    assert Bound(us, args).Some?;
  }

  lemma PiecesCons(p: Piece, ps: seq<Piece>, s: int)
    ensures Holes([p] + ps) == (if p.Hole? then [p.value] else []) + Holes(ps)
    ensures Numbered([p] + ps, s) == if p.Hole? then [Param(s)] + Numbered(ps, s + 1) else [Sym(p.sym)] + Numbered(ps, s)
  {
    assert ([p] + ps)[1..] == ps;
  }

  lemma BoundHole(v: Value, rest: seq<Piece>, pre: seq<Value>, post: seq<Value>)
    requires Bound(Numbered(rest, |pre| + 2), pre + [v] + Holes(rest) + post) == Some(rest)
    ensures Bound(Numbered([Hole(v)] + rest, |pre| + 1), pre + Holes([Hole(v)] + rest) + post) == Some([Hole(v)] + rest)
  {
    hide Bound, Numbered, Holes;
    var args := pre + [v] + Holes(rest) + post;
    PiecesCons(Hole(v), rest, |pre| + 1);
    assert pre + ([v] + Holes(rest)) + post == args;
    assert args[|pre|] == v;
    BoundCons(Param(|pre| + 1), Numbered(rest, |pre| + 2), args);
  }

  lemma BoundLit(x: Symbol, rest: seq<Piece>, pre: seq<Value>, post: seq<Value>)
    requires Bound(Numbered(rest, |pre| + 1), pre + Holes(rest) + post) == Some(rest)
    ensures Bound(Numbered([Lit(x)] + rest, |pre| + 1), pre + Holes([Lit(x)] + rest) + post) == Some([Lit(x)] + rest)
  {
    hide Bound, Numbered, Holes;
    PiecesCons(Lit(x), rest, |pre| + 1);
    assert [] + Holes(rest) == Holes(rest);
    BoundCons(Sym(x), Numbered(rest, |pre| + 1), pre + Holes(rest) + post);
  }

  /** Every placeholder is bound to its own value, also when the fragment is spliced into
      a statement that binds `pre` before it and `post` after it. */
  lemma {:induction false} BoundRestoresValues(ps: seq<Piece>, pre: seq<Value>, post: seq<Value>)
    ensures Bound(Numbered(ps, |pre| + 1), pre + Holes(ps) + post) == Some(ps)
  {
    if ps != [] {
      hide Bound, Numbered, Holes;
      var p, rest := ps[0], ps[1..];
      if p.Hole? {
        BoundRestoresValues(rest, pre + [p.value], post);
        BoundHole(p.value, rest, pre, post);
      } else {
        BoundRestoresValues(rest, pre, post);
        BoundLit(p.sym, rest, pre, post);
      }
      assert ps == [p] + rest;
    }
  }

  /** Numbering from s is numbering from 1 with every placeholder moved by s - 1. */
  lemma {:induction false} NumberedShift(ps: seq<Piece>, s: int, delta: int)
    ensures Numbered(ps, s + delta) == Shifted(Numbered(ps, s), delta)
  {
    if ps != [] {
      var s' := if ps[0].Hole? then s + 1 else s;
      NumberedShift(ps[1..], s', delta);
      assert Numbered(ps, s)[1..] == Numbered(ps[1..], s');
    }
  }
}
