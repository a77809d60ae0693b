/**
 The parser yields only well-formed trees, so the condition for reading a printed tree back
 applies to every tree it yields; and a script that shows the condition is needed.
 */
module ParsedTrees {
  import opened Basics
  import opened Grammar
  import opened RoundTrip

  ghost predicate Sound(r: Parsed<Expr>) { r.Some? ==> WellFormed(r.value.0) }

  ghost predicate AllSound(r: Parsed<seq<Expr>>) { r.Some? ==> r.value.0 != [] && AllWellFormed(r.value.0) }

  lemma {:induction false} ExprSound(ts: seq<Token>)
    ensures Sound(ParseExpr(ts))
    decreases |ts|, 42
  {
    TernarySound(ts);
    var l := ParseTernary(ts);
    if l.Some? && AtAssign(l.value.1) { ExprSound(l.value.1[1..]); }
  }

  lemma {:induction false} TernarySound(ts: seq<Token>)
    ensures Sound(ParseTernary(ts))
    decreases |ts|, 41
  {
    hide ParseLevel, ParseExpr;
    LevelSound(0, ts);
    var c := ParseLevel(0, ts);
    if c.Some? && At(c.value.1, QUESTION) {
      ExprSound(c.value.1[1..]);
      var a := ParseExpr(c.value.1[1..]);
      if a.Some? && At(a.value.1, COLON) { ExprSound(a.value.1[1..]); }
    }
  }

  lemma {:induction false} LevelSound(level: nat, ts: seq<Token>)
    requires level <= UNARY_LEVEL
    ensures Sound(ParseLevel(level, ts))
    decreases |ts|, 40 - 2 * level
  {
    hide ParseIn, ParseUnary, ParseMore;
    if level == UNARY_LEVEL {
      UnarySound(ts);
    } else if level == IN_LEVEL {
      InSound(ts);
    } else {
      LevelSound(level + 1, ts);
      var l := ParseLevel(level + 1, ts);
      if l.Some? { MoreSound(level, l.value.0, l.value.1); }
    }
  }

  lemma {:induction false} MoreSound(level: nat, l: Expr, ts: seq<Token>)
    requires level < UNARY_LEVEL && level != IN_LEVEL && WellFormed(l)
    ensures Sound(ParseMore(level, l, ts))
    decreases |ts|, 0
  {
    hide ParseLevel;
    if AtOperator(ts, level) {
      LevelSound(level + 1, ts[1..]);
      var r := ParseLevel(level + 1, ts[1..]);
      if r.Some? { MoreSound(level, Binary(ts[0].s, l, r.value.0), r.value.1); }
    }
  }

  lemma {:induction false} InSound(ts: seq<Token>)
    ensures Sound(ParseIn(ts))
    decreases |ts|, 29
  {
    hide ParseLevel, ParseIndexes;
    if At(ts, LBRACKET) {
      IndexesSound(ts[1..]);
      var r := ParseIndexes(ts[1..]);
      if r.Some? { assert WellFormed(r.value.0[0]); }
    } else {
      LevelSound(IN_LEVEL + 1, ts);
      var r := ParseLevel(IN_LEVEL + 1, ts);
      if r.Some? { OneWellFormed(r.value.0); }
    }
  }

  lemma OneWellFormed(e: Expr)
    requires WellFormed(e)
    ensures AllWellFormed([e])
  {
    assert [e][1..] == [];
  }

  lemma MoreWellFormed(e: Expr, es: seq<Expr>)
    requires WellFormed(e) && AllWellFormed(es)
    ensures AllWellFormed([e] + es)
  {
    assert ([e] + es)[1..] == es;
  }

  lemma {:induction false} IndexesSound(ts: seq<Token>)
    ensures AllSound(ParseIndexes(ts))
    decreases |ts|, 29
  {
    hide ParseLevel, WellFormed, AllWellFormed;
    LevelSound(IN_LEVEL + 1, ts);
    var r := ParseLevel(IN_LEVEL + 1, ts);
    if r.Some? {
      OneWellFormed(r.value.0);
      if At(r.value.1, COMMA) {
        IndexesSound(r.value.1[1..]);
        var es := ParseIndexes(r.value.1[1..]);
        if es.Some? { MoreWellFormed(r.value.0, es.value.0); }
      }
    }
  }

  lemma {:induction false} UnarySound(ts: seq<Token>)
    ensures Sound(ParseUnary(ts))
    decreases |ts|, 6
  {
    hide ParseCrement;
    if AtUnary(ts) { UnarySound(ts[1..]); } else { CrementSound(ts); }
  }

  lemma {:induction false} CrementSound(ts: seq<Token>)
    ensures Sound(ParseCrement(ts))
    decreases |ts|, 5
  {
    hide ParseValue;
    if AtCrement(ts) { ValueSound(ts[1..]); } else { ValueSound(ts); }
  }

  lemma {:induction false} ValueSound(ts: seq<Token>)
    ensures Sound(ParseValue(ts))
    decreases |ts|, 4
  {
    hide ParseExpr, ParseSymbol;
    if At(ts, LPAREN) { ExprSound(ts[1..]); } else if ts != [] && ts[0].Ident? { SymbolSound(ts); }
  }

  lemma {:induction false} SymbolSound(ts: seq<Token>)
    requires ts != [] && ts[0].Ident?
    ensures Sound(ParseSymbol(ts))
    decreases |ts|, 3
  {
    hide ParseList;
    var rest := ts[1..];
    assert AllWellFormed([]);
    if At(rest, LPAREN) || At(rest, LBRACKET) {
      ListSound(rest[1..], RPAREN);
      ListSound(rest[1..], RBRACKET);
    }
  }

  lemma {:induction false} ListSound(ts: seq<Token>, close: Token)
    ensures AllSound(ParseList(ts, close))
    decreases |ts|, 43
  {
    hide ParseExpr, WellFormed, AllWellFormed;
    ExprSound(ts);
    var r := ParseExpr(ts);
    if r.Some? {
      OneWellFormed(r.value.0);
      if At(r.value.1, COMMA) {
        ListSound(r.value.1[1..], close);
        var es := ParseList(r.value.1[1..], close);
        if es.Some? { MoreWellFormed(r.value.0, es.value.0); }
      }
    }
  }

  /** A tree that was parsed is read back from its printed form exactly when it has no negative
      literal and no membership test with a loosely binding index. */
  lemma ReprintExactly(ts: seq<Token>)
    requires ParseExpr(ts).Some?
    ensures var e := ParseExpr(ts).value.0;
      ParseExpr(Print(e)) == Some((e, [])) <==> Readable(e) && NonNegative(e)
  {
    hide ParseExpr;
    ExprSound(ts);
    RoundTripExactly(ParseExpr(ts).value.0);
  }

  // ----- a script whose printed form is a syntax error -----

  /** `[(a & b)] in c` */
  const SCRIPT: seq<Token> := [LBRACKET, LPAREN, Ident("a"), Op(BitAnd), Ident("b"), RPAREN, RBRACKET, IN, Ident("c")]

  const TREE: Expr := In([Binary(BitAnd, Sym("a"), Sym("b"))], "c")

  lemma SymbolAt(name: string, ts: seq<Token>)
    requires !AtCrement(ts) && !At(ts, LPAREN) && !At(ts, LBRACKET)
    ensures ParseLevel(UNARY_LEVEL, [Ident(name)] + ts) == Some((Sym(name), ts))
  {
    hide ParseUnary, ParseCrement, ParseExpr, ParseList, IsCrement, IsUnary;
    var xs := [Ident(name)] + ts;
    assert xs[1..] == ts;
    assert ParseValue(xs) == Some((Sym(name), ts));
    UnaryUnfold(xs);
    CrementUnfold(xs);
  }

  /** `a & b` before a closing parenthesis. */
  lemma AndParsed(ts: seq<Token>)
    requires Neutral(ts)
    ensures var xs := [Ident("a")] + ([Op(BitAnd)] + ([Ident("b")] + ts));
      ParseExpr(xs) == Some((Binary(BitAnd, Sym("a"), Sym("b")), ts))
  {
    hide ParseLevel, ParseExpr, ParseMore, IsCrement;
    var more := [Op(BitAnd)] + ([Ident("b")] + ts);
    var xs := [Ident("a")] + more;
    BinaryOperator(BitAnd);
    NeutralStops(ts);
    SymbolAt("a", more);
    SymbolAt("b", ts);
    Climb(5, UNARY_LEVEL, xs);
    Climb(5, UNARY_LEVEL, [Ident("b")] + ts);
    assert more[1..] == [Ident("b")] + ts;
    LevelUnfold(4, xs);
    MoreUnfold(4, Sym("a"), more, Sym("b"), ts);
    Whole(4, xs);
  }

  /** The parser reads the script as this tree, prints it without the parentheses, and cannot
      read that. */
  lemma MembershipNotReread()
    ensures ParseExpr(SCRIPT) == Some((TREE, [])) && ParseExpr(Print(TREE)) == None
  {
    ScriptParsed();
    TreeNotReread();
  }

  lemma TreeNotReread()
    ensures ParseExpr(Print(TREE)) == None
  {
    hide ParseExpr, Print;
    var x := Binary(BitAnd, Sym("a"), Sym("b"));
    OneWellFormed(x);
    assert Print(TREE) + [] == Print(TREE);
    assert !AllReadable([x], true);
    PrintBack(TREE, []);
  }

  lemma ScriptParsed()
    ensures ParseExpr(SCRIPT) == Some((TREE, []))
  {
    hide ParseExpr, ParseLevel, IsCrement, IsUnary, Print;
    var x := Binary(BitAnd, Sym("a"), Sym("b"));
    var end := [IN, Ident("c")];
    var close := [RPAREN] + ([RBRACKET] + end);
    AndParsed(close);
    var inside := [Ident("a")] + ([Op(BitAnd)] + ([Ident("b")] + close));
    var paren := [LPAREN] + inside;
    assert SCRIPT == [LBRACKET] + paren && SCRIPT[1..] == paren && paren[1..] == inside;
    ParenAt(inside, x, [RBRACKET] + end);
    Climb(IN_LEVEL + 1, UNARY_LEVEL, paren);
    assert ([RBRACKET] + end)[1..] == end && end[2..] == [];
    assert ParseIndexes(paren) == Some(([x], end));
    InUnfold(SCRIPT);
    Whole(IN_LEVEL, SCRIPT);
  }

  lemma InUnfold(ts: seq<Token>)
    ensures ParseLevel(IN_LEVEL, ts) == ParseIn(ts)
  {
  }

  lemma ParenAt(inside: seq<Token>, x: Expr, ts: seq<Token>)
    requires ParseExpr(inside) == Some((x, [RPAREN] + ts)) && Neutral(ts)
    ensures ParseLevel(UNARY_LEVEL, [LPAREN] + inside) == Some((x, ts)) && Between(ts, 0, UNARY_LEVEL) && !At(ts, IN)
  {
    hide ParseExpr, ParseUnary, ParseCrement, IsCrement, IsUnary;
    var xs := [LPAREN] + inside;
    assert xs[1..] == inside && ([RPAREN] + ts)[1..] == ts;
    NeutralStops(ts);
    Punctuation(LParen);
    assert ParseValue(xs) == Some((x, ts));
    UnaryUnfold(xs);
    CrementUnfold(xs);
  }

  /** A minus sign before a number is an operator, but after `++` or `--` a part of the number. */
  lemma MinusSign(op: Operator, n: nat)
    requires IsCrement(op)
    ensures ParseExpr([Op(Minus), Number(n)]) == Some((Unary(Minus, Num(n)), []))
    ensures ParseExpr([Op(op), Op(Minus), Number(n)]) == Some((PreCrement(op, Num(0 - n)), []))
  {
    hide ParseExpr, ParseUnary, ParseCrement, ParseLevel;
    var one, two, three := [Number(n)], [Op(Minus), Number(n)], [Op(op), Op(Minus), Number(n)];
    assert one[1..] == [] && two[1..] == one && two[2..] == [] && three[1..] == two;
    assert ParseValue(one) == Some((Num(n), [])) && ParseValue(two) == Some((Num(0 - n), []));
    CrementUnfold(one);
    UnaryUnfold(one);
    UnaryUnfold(two);
    Whole(UNARY_LEVEL, two);
    CrementUnfold(three);
    UnaryUnfold(three);
    Whole(UNARY_LEVEL, three);
  }
}
