/**
 Precedence and associativity.  An expression written with no more parentheses than the
 classes of its operators call for parses back to the same tree.
 */
module Precedence {
  import opened Basics
  import opened Grammar
  import opened RoundTrip

  // ----- how tightly an expression binds -----

  /** The classes of binary operators, loosest first.  Between `&` and the comparisons comes `in`. */
  function Class(op: Operator): nat {
    if op in {OrOr} then 0
    else if op in {AndAnd} then 1
    else if op in {BitOr} then 2
    else if op in {BitXor} then 3
    else if op in {BitAnd} then 4
    else if op in {Gt, Lt, EqEq, NotEq, LtEq, GtEq} then 6
    else if op in {Shl, Shr} then 7
    else if op in {Dot} then 8
    else if op in {Plus, Minus} then 9
    else if op in {Star, Slash, Percent} then 10
    else 11
  }

  const UNARY: int := 11
  const CREMENT: int := 12
  const VALUE: int := 13

  /** Looser than all binary operators are assignments and choices, tighter are unary operators,
      then `++` and `--`, then everything else. */
  function Rank(e: Expr): int {
    match e
    case Assign(_, _, _) => -2
    case Cond(_, _, _) => -1
    case Binary(op, _, _) => Class(op)
    case In(_, _) => 5
    case Unary(_, _) => UNARY
    case PreCrement(_, _) => CREMENT
    case PostCrement(_, _) => CREMENT
    case _ => VALUE
  }

  // ----- spelling -----

  /** An operand, in parentheses only if it binds more loosely than k. */
  function Wrapped(e: Expr, k: int): seq<Token>
    decreases e, 2
  {
    if Rank(e) >= k then Spell(e) else [LPAREN] + (Spell(e) + [RPAREN])
  }

  /** Operators of one class group to the left, assignments to the right. */
  function Spell(e: Expr): seq<Token>
    decreases e, 1
  {
    match e
    case Num(n) => [Number(if n >= 0 then n else 0)]
    case Str(s) => [Text(s)]
    case Sym(name) => [Ident(name)]
    case Call(f, es) => [Ident(f), LPAREN] + (SpellList(es, -2) + [RPAREN])
    case Index(name, es) => [Ident(name), LBRACKET] + (SpellList(es, -2) + [RBRACKET])
    case In(es, name) =>
      if |es| == 1 then Wrapped(es[0], 6) + [IN, Ident(name)]
      else [LBRACKET] + (SpellList(es, 6) + [RBRACKET, IN, Ident(name)])
    case Unary(op, x) => [Op(op)] + Wrapped(x, UNARY)
    case PreCrement(op, x) => [Op(op)] + Wrapped(x, VALUE)
    case PostCrement(op, x) => Wrapped(x, VALUE) + [Op(op)]
    case Binary(op, l, r) => Wrapped(l, Class(op)) + ([Op(op)] + Wrapped(r, Class(op) + 1))
    case Cond(c, a, b) => Wrapped(c, 0) + ([QUESTION] + (Spell(a) + ([COLON] + Spell(b))))
    case Assign(op, l, r) => Wrapped(l, 0) + ([Op(op)] + Spell(r))
  }

  function SpellList(es: seq<Expr>, k: int): seq<Token>
    decreases es, 0
  {
    if es == [] then []
    else if |es| == 1 then Wrapped(es[0], k)
    else Wrapped(es[0], k) + ([COMMA] + SpellList(es[1..], k))
  }

  // ----- operators -----

  lemma ClassIsLevel(op: Operator)
    ensures Class(op) == LevelOf(op) && Class(op) != IN_LEVEL
  {
  }

  /** The assignments, the unary operators, and the operators that change a variable. */
  lemma OtherOperators(op: Operator)
    ensures IsAssign(op) <==> (op in
      {Becomes, Aggregate, PlusEq, MinusEq, StarEq, SlashEq, PercentEq, ShlEq, ShrEq, AndEq, XorEq, OrEq, DotEq})
    ensures IsUnary(op) <==> op in {Plus, Minus, Bang, Tilde}
    ensures IsCrement(op) <==> op in {PlusPlus, MinusMinus}
  {
  }

  /** What may follow an expression read at level k. */
  predicate Stops(ts: seq<Token>, k: nat) {
    && Between(ts, k, UNARY_LEVEL) && !AtCrement(ts) && !At(ts, LPAREN) && !At(ts, LBRACKET)
    && (k <= IN_LEVEL ==> !At(ts, IN))
  }

  lemma StopsHigher(ts: seq<Token>, k: nat, j: nat)
    requires Stops(ts, k) && k <= j
    ensures Stops(ts, j)
  {
    hide LevelOf, IsCrement;
  }

  lemma NeutralStopsAt(ts: seq<Token>)
    requires Neutral(ts)
    ensures Stops(ts, 0)
  {
    hide LevelOf, IsCrement, IsAssign;
    NeutralStops(ts);
  }

  lemma OperatorStops(op: Operator, ts: seq<Token>, k: nat)
    requires Class(op) < k <= UNARY_LEVEL
    ensures Stops([Op(op)] + ts, k) && AtOperator([Op(op)] + ts, Class(op))
  {
    hide LevelOf, Class, IsCrement;
    ClassIsLevel(op);
    BinaryOperator(op);
    NoBracket(op);
  }

  lemma NoBracket(op: Operator)
    requires Class(op) < 11
    ensures op != LParen && op != LBracket && op != RParen && op != RBracket && !IsCrement(op)
  {
  }

  lemma OtherStops(t: Token, ts: seq<Token>, k: nat)
    requires t == QUESTION || (t.Op? && IsAssign(t.s)) || (t == IN && k > IN_LEVEL)
    ensures Stops([t] + ts, k)
  {
    hide LevelOf, IsCrement, IsAssign;
    if t == QUESTION { Punctuation(Question); } else if t.Op? { AssignOperator(t.s); AssignNoBracket(t.s); }
  }

  lemma AssignNoBracket(op: Operator)
    requires IsAssign(op)
    ensures op != LParen && op != LBracket
  {
  }

  // ----- how an expression begins -----

  predicate Begins(t: Token, rank: int) {
    match t
    case Op(s) => s == LParen || (rank <= CREMENT && IsCrement(s)) || (rank <= UNARY && IsUnary(s)) || (rank <= 5 && s == LBracket)
    case InKeyword => false
    case _ => true
  }

  lemma BeginsLower(t: Token, rank: int, rank': int)
    requires Begins(t, rank) && rank' <= rank
    ensures Begins(t, rank')
  {
  }

  lemma {:induction false} FirstToken(e: Expr)
    requires WellFormed(e)
    ensures Spell(e) != [] && Begins(Spell(e)[0], Rank(e))
    decreases e, 0
  {
    hide Class, IsUnary, IsCrement, SpellList;
    match e
    case In(es, _) => if |es| == 1 { assert WellFormed(es[0]); FirstOfWrapped(es[0], 6, 5); }
    case PostCrement(_, x) => FirstOfWrapped(x, VALUE, CREMENT);
    case Binary(op, l, _) => ClassIsLevel(op); FirstOfWrapped(l, Class(op), Class(op));
    case Cond(c, _, _) => FirstOfWrapped(c, 0, -1);
    case Assign(_, l, _) => FirstOfWrapped(l, 0, -2);
    case _ =>
  }

  lemma {:induction false} FirstOfWrapped(e: Expr, k: int, rank: int)
    requires WellFormed(e) && rank <= k && rank <= VALUE
    ensures Wrapped(e, k) != [] && Begins(Wrapped(e, k)[0], rank)
    decreases e, 1
  {
    hide Class, IsUnary, IsCrement, Spell;
    FirstToken(e);
    if Rank(e) >= k { BeginsLower(Spell(e)[0], Rank(e), rank); }
  }

  // ----- reading back -----

  predicate Fine(e: Expr) { WellFormed(e) && NonNegative(e) }

  /** A whole expression before something that does not continue it. */
  lemma {:induction false} ExprBack(e: Expr, ts: seq<Token>)
    requires Fine(e) && Neutral(ts)
    ensures ParseExpr(Spell(e) + ts) == Some((e, ts))
    decreases e, 50
  {
    hide ParseExpr, ParseTernary, ParseLevel, Spell, Wrapped, Class, LevelOf, IsAssign, IsCrement;
    NeutralStops(ts);
    NeutralStopsAt(ts);
    match e
    case Cond(c, a, b) =>
      var more := [COLON] + (Spell(b) + ts);
      SpelledCond(c, a, b, ts);
      OtherStops(QUESTION, Spell(a) + more, 0);
      WrappedBack(c, 0, [QUESTION] + (Spell(a) + more));
      ExprBack(a, more);
      ExprBack(b, ts);
      ReadCond(Wrapped(c, 0) + ([QUESTION] + (Spell(a) + more)), c, a, b, Spell(a) + more, Spell(b) + ts, ts);
    case Assign(op, l, r) =>
      var more := [Op(op)] + (Spell(r) + ts);
      SpelledAssign(op, l, r, ts);
      OtherStops(Op(op), Spell(r) + ts, 0);
      WrappedBack(l, 0, more);
      ExprBack(r, ts);
      ReadAssign(Wrapped(l, 0) + more, l, op, r, Spell(r) + ts, ts);
    case _ =>
      RankOfOthers(e);
      LevelBack(e, 0, ts);
      ReadPlain(Spell(e) + ts, e, ts);
  }

  lemma RankOfOthers(e: Expr)
    requires !e.Cond? && !e.Assign?
    ensures Rank(e) >= 0
  {
  }

  lemma SpelledCond(c: Expr, a: Expr, b: Expr, ts: seq<Token>)
    ensures Spell(Cond(c, a, b)) + ts == Wrapped(c, 0) + ([QUESTION] + (Spell(a) + ([COLON] + (Spell(b) + ts))))
  {
    hide Wrapped;
  }

  lemma SpelledAssign(op: Operator, l: Expr, r: Expr, ts: seq<Token>)
    ensures Spell(Assign(op, l, r)) + ts == Wrapped(l, 0) + ([Op(op)] + (Spell(r) + ts))
  {
    hide Wrapped;
  }

  lemma ReadPlain(xs: seq<Token>, e: Expr, ts: seq<Token>)
    requires ParseLevel(0, xs) == Some((e, ts)) && !At(ts, QUESTION) && !AtAssign(ts)
    ensures ParseExpr(xs) == Some((e, ts))
  {
    hide ParseLevel, IsAssign;
  }

  lemma ReadCond(xs: seq<Token>, c: Expr, a: Expr, b: Expr, ys: seq<Token>, zs: seq<Token>, ts: seq<Token>)
    requires ParseLevel(0, xs) == Some((c, [QUESTION] + ys)) && ParseExpr(ys) == Some((a, [COLON] + zs))
    requires ParseExpr(zs) == Some((b, ts)) && !AtAssign(ts)
    ensures ParseExpr(xs) == Some((Cond(c, a, b), ts))
  {
    hide ParseLevel, ParseExpr, IsAssign;
    assert ([QUESTION] + ys)[1..] == ys && ([COLON] + zs)[1..] == zs;
    assert ParseTernary(xs) == Some((Cond(c, a, b), ts));
    NoAssign(xs);
  }

  lemma ReadAssign(xs: seq<Token>, l: Expr, op: Operator, r: Expr, ys: seq<Token>, ts: seq<Token>)
    requires IsAssign(op) && ParseLevel(0, xs) == Some((l, [Op(op)] + ys)) && ParseExpr(ys) == Some((r, ts))
    ensures ParseExpr(xs) == Some((Assign(op, l, r), ts))
  {
    hide ParseLevel, IsAssign;
    AssignOperator(op);
    assert ([Op(op)] + ys)[1..] == ys;
  }

  /** An operand, in parentheses if need be. */
  lemma {:induction false} WrappedBack(e: Expr, k: nat, ts: seq<Token>)
    requires Fine(e) && k <= UNARY_LEVEL && Stops(ts, k)
    ensures ParseLevel(k, Wrapped(e, k) + ts) == Some((e, ts))
    decreases e, 60
  {
    hide ParseLevel, Spell, Class, LevelOf, Stops;
    if Rank(e) >= k {
      LevelBack(e, k, ts);
    } else {
      ExprBack(e, [RPAREN] + ts);
      InParens(e, k, ts);
    }
  }

  lemma InParens(e: Expr, k: nat, ts: seq<Token>)
    requires k <= UNARY_LEVEL && Stops(ts, k) && ParseExpr(Spell(e) + ([RPAREN] + ts)) == Some((e, [RPAREN] + ts))
    ensures ParseLevel(k, [LPAREN] + (Spell(e) + [RPAREN]) + ts) == Some((e, ts))
  {
    hide ParseExpr, Spell, LevelOf, IsUnary, IsCrement, ParseLevel;
    var xs := [LPAREN] + (Spell(e) + [RPAREN]) + ts;
    ParenthesizedValue(e, ts);
    Punctuation(LParen);
    ValueLevel(xs, e, ts);
    Climb(k, UNARY_LEVEL, xs);
  }

  lemma ParenthesizedValue(e: Expr, ts: seq<Token>)
    requires ParseExpr(Spell(e) + ([RPAREN] + ts)) == Some((e, [RPAREN] + ts))
    ensures var xs := [LPAREN] + (Spell(e) + [RPAREN]) + ts;
      xs != [] && xs[0] == LPAREN && ParseValue(xs) == Some((e, ts))
  {
    hide ParseExpr, Spell;
    var xs := [LPAREN] + (Spell(e) + [RPAREN]) + ts;
    assert xs[1..] == Spell(e) + ([RPAREN] + ts);
    assert ([RPAREN] + ts)[1..] == ts;
  }

  /** A value is read as such at the tightest level, before no `++` or `--`. */
  lemma ValueLevel(xs: seq<Token>, e: Expr, ts: seq<Token>)
    requires xs != [] && Begins(xs[0], VALUE) && ParseValue(xs) == Some((e, ts)) && !AtCrement(ts)
    ensures ParseLevel(UNARY_LEVEL, xs) == ParseCrement(xs) == Some((e, ts))
  {
    hide ParseValue, LevelOf;
    Punctuation(LParen);
  }

  /** At a level no tighter than the expression. */
  lemma {:induction false} LevelBack(e: Expr, k: nat, ts: seq<Token>)
    requires Fine(e) && k <= UNARY_LEVEL && Rank(e) >= k && Stops(ts, k)
    ensures ParseLevel(k, Spell(e) + ts) == Some((e, ts))
    decreases e, 41 - 2 * k
  {
    hide ParseLevel, ParseMore, Spell, Class, LevelOf, IsCrement;
    if k == UNARY_LEVEL {
      UnaryBack(e, ts);
    } else if k == IN_LEVEL {
      InBack(e, ts);
    } else {
      StopsHigher(ts, k, k + 1);
      ChainBack(e, k, ts);
      NoMore(k, e, ts);
    }
  }

  lemma NoMore(k: nat, e: Expr, ts: seq<Token>)
    requires k < UNARY_LEVEL && k != IN_LEVEL && !AtOperator(ts, k)
    ensures ParseMore(k, e, ts) == Some((e, ts))
  {
  }

  /** The left side of a chain of operators of level k, whatever operator of that level follows. */
  lemma {:induction false} ChainBack(e: Expr, k: nat, ts: seq<Token>)
    requires Fine(e) && k < UNARY_LEVEL && k != IN_LEVEL && Rank(e) >= k && Stops(ts, k + 1)
    ensures ParseLevel(k, Spell(e) + ts) == ParseMore(k, e, ts)
    decreases e, 40 - 2 * k
  {
    hide ParseLevel, ParseMore, Spell, Wrapped, Class, LevelOf, Stops;
    if Rank(e) > k {
      LevelBack(e, k + 1, ts);
      LevelUnfold(k, Spell(e) + ts);
    } else {
      var Binary(op, l, r) := e;
      var rest := Wrapped(r, k + 1) + ts;
      SpelledBinary(op, l, r, ts);
      OperatorStops(op, rest, k + 1);
      WrappedChain(l, k, [Op(op)] + rest);
      WrappedBack(r, k + 1, ts);
      OneMore(k, l, op, r, rest, ts);
    }
  }

  lemma {:induction false} WrappedChain(e: Expr, k: nat, ts: seq<Token>)
    requires Fine(e) && k < UNARY_LEVEL && k != IN_LEVEL && Stops(ts, k + 1)
    ensures ParseLevel(k, Wrapped(e, k) + ts) == ParseMore(k, e, ts)
    decreases e, 60
  {
    hide ParseLevel, ParseMore, Spell, Class, LevelOf, Stops;
    if Rank(e) >= k {
      ChainBack(e, k, ts);
    } else {
      ExprBack(e, [RPAREN] + ts);
      InParens(e, k + 1, ts);
      LevelUnfold(k, Wrapped(e, k) + ts);
    }
  }

  lemma SpelledBinary(op: Operator, l: Expr, r: Expr, ts: seq<Token>)
    ensures Spell(Binary(op, l, r)) + ts == Wrapped(l, Class(op)) + ([Op(op)] + (Wrapped(r, Class(op) + 1) + ts))
  {
    hide Wrapped, Class;
  }

  lemma OneMore(k: nat, l: Expr, op: Operator, r: Expr, rest: seq<Token>, ts: seq<Token>)
    requires k < UNARY_LEVEL && k != IN_LEVEL && AtOperator([Op(op)] + rest, k) && ParseLevel(k + 1, rest) == Some((r, ts))
    ensures ParseMore(k, l, [Op(op)] + rest) == ParseMore(k, Binary(op, l, r), ts)
  {
    hide ParseLevel, LevelOf;
    assert ([Op(op)] + rest)[1..] == rest;
  }

  // ----- membership -----

  lemma {:induction false} InBack(e: Expr, ts: seq<Token>)
    requires Fine(e) && Rank(e) >= IN_LEVEL && Stops(ts, IN_LEVEL)
    ensures ParseLevel(IN_LEVEL, Spell(e) + ts) == Some((e, ts))
    decreases e, 30
  {
    hide ParseLevel, ParseIn, Spell, Wrapped, SpellList, Class, LevelOf, Stops;
    InUnfold(Spell(e) + ts);
    if e.In? {
      if |e.es| == 1 { OneIn(e, ts); } else { SeveralIn(e, ts); }
    } else {
      StopsHigher(ts, IN_LEVEL, IN_LEVEL + 1);
      BinaryNotIn(e);
      LevelBack(e, IN_LEVEL + 1, ts);
      FirstToken(e);
      assert (Spell(e) + ts)[0] == Spell(e)[0];
      BeginsHigh(Spell(e)[0], Rank(e));
      NoIn(Spell(e) + ts, e, ts);
    }
  }

  lemma BinaryNotIn(e: Expr)
    requires Rank(e) >= IN_LEVEL && !e.In?
    ensures Rank(e) > IN_LEVEL
  {
    if e.Binary? { ClassIsLevel(e.op); }
  }

  lemma BeginsHigh(t: Token, rank: int)
    requires Begins(t, rank) && rank > 5
    ensures t != LBRACKET
  {
  }

  lemma InUnfold(xs: seq<Token>)
    ensures ParseLevel(IN_LEVEL, xs) == ParseIn(xs)
  {
  }

  lemma NoIn(xs: seq<Token>, e: Expr, ts: seq<Token>)
    requires !At(xs, LBRACKET) && ParseLevel(IN_LEVEL + 1, xs) == Some((e, ts)) && Stops(ts, IN_LEVEL)
    ensures ParseIn(xs) == Some((e, ts))
  {
    hide ParseLevel, LevelOf, IsCrement;
  }

  lemma {:induction false} OneIn(e: Expr, ts: seq<Token>)
    requires Fine(e) && e.In? && |e.es| == 1
    ensures ParseIn(Spell(e) + ts) == Some((e, ts))
    decreases e, 29
  {
    hide ParseLevel, ParseIn, Spell, Wrapped, Class, LevelOf, Stops;
    var x, rest := e.es[0], [Ident(e.name)] + ts;
    assert AllWellFormed(e.es) && AllNonNegative(e.es);
    assert Fine(x);
    SpelledOneIn(e, ts);
    OtherStops(IN, rest, IN_LEVEL + 1);
    WrappedBack(x, IN_LEVEL + 1, [IN] + rest);
    FirstOfWrapped(x, 6, 6);
    var xs := Wrapped(x, 6) + ([IN] + rest);
    assert xs[0] == Wrapped(x, 6)[0];
    BeginsHigh(xs[0], 6);
    ReadOneIn(xs, x, e.name, ts);
    assert e.es == [x];
  }

  lemma SpelledOneIn(e: Expr, ts: seq<Token>)
    requires e.In? && |e.es| == 1
    ensures Spell(e) + ts == Wrapped(e.es[0], 6) + ([IN] + ([Ident(e.name)] + ts))
  {
    hide Wrapped;
  }

  lemma ReadOneIn(xs: seq<Token>, x: Expr, name: string, ts: seq<Token>)
    requires !At(xs, LBRACKET) && ParseLevel(IN_LEVEL + 1, xs) == Some((x, [IN] + ([Ident(name)] + ts)))
    ensures ParseIn(xs) == Some((In([x], name), ts))
  {
    hide ParseLevel;
    var rest := [IN] + ([Ident(name)] + ts);
    assert rest[1] == Ident(name) && rest[2..] == ts;
  }

  lemma {:induction false} SeveralIn(e: Expr, ts: seq<Token>)
    requires Fine(e) && e.In? && |e.es| != 1
    ensures ParseIn(Spell(e) + ts) == Some((e, ts))
    decreases e, 29
  {
    hide ParseIn, ParseIndexes, Spell, SpellList, Class, LevelOf;
    var rest := [IN] + ([Ident(e.name)] + ts);
    SpelledIn(e, ts);
    IndexesBack(e.es, rest);
    ReadIn(SpellList(e.es, 6) + ([RBRACKET] + rest), e.es, e.name, ts);
  }

  lemma SpelledIn(e: Expr, ts: seq<Token>)
    requires e.In? && |e.es| != 1
    ensures Spell(e) + ts == [LBRACKET] + (SpellList(e.es, 6) + ([RBRACKET] + ([IN] + ([Ident(e.name)] + ts))))
  {
    hide SpellList;
  }

  lemma ReadIn(ys: seq<Token>, es: seq<Expr>, name: string, ts: seq<Token>)
    requires ParseIndexes(ys) == Some((es, [IN] + ([Ident(name)] + ts)))
    ensures ParseIn([LBRACKET] + ys) == Some((In(es, name), ts))
  {
    hide ParseIndexes, ParseLevel;
    assert ([LBRACKET] + ys)[1..] == ys;
    var rest := [IN] + ([Ident(name)] + ts);
    assert rest[1] == Ident(name) && rest[2..] == ts;
  }

  lemma {:induction false} IndexesBack(es: seq<Expr>, ts: seq<Token>)
    requires es != [] && AllWellFormed(es) && AllNonNegative(es)
    ensures ParseIndexes(SpellList(es, 6) + ([RBRACKET] + ts)) == Some((es, ts))
    decreases es, 0
  {
    hide ParseLevel, ParseIndexes, Spell, Wrapped, Class, LevelOf, Stops, IsCrement;
    assert Fine(es[0]);
    if |es| == 1 {
      NeutralStopsAt([RBRACKET] + ts);
      StopsHigher([RBRACKET] + ts, 0, IN_LEVEL + 1);
      WrappedBack(es[0], IN_LEVEL + 1, [RBRACKET] + ts);
      LastIndex(Wrapped(es[0], 6) + ([RBRACKET] + ts), es[0], ts);
      assert es == [es[0]];
    } else {
      var more := SpellList(es[1..], 6) + ([RBRACKET] + ts);
      SpelledList(es, 6, [RBRACKET] + ts);
      NeutralStopsAt([COMMA] + more);
      StopsHigher([COMMA] + more, 0, IN_LEVEL + 1);
      WrappedBack(es[0], IN_LEVEL + 1, [COMMA] + more);
      IndexesBack(es[1..], ts);
      NextIndex(Wrapped(es[0], 6) + ([COMMA] + more), es[0], more, es[1..], ts);
      assert es == [es[0]] + es[1..];
    }
  }

  lemma SpelledList(es: seq<Expr>, k: int, ts: seq<Token>)
    requires |es| > 1
    ensures SpellList(es, k) + ts == Wrapped(es[0], k) + ([COMMA] + (SpellList(es[1..], k) + ts))
  {
    hide Wrapped;
  }

  lemma LastIndex(xs: seq<Token>, e: Expr, ts: seq<Token>)
    requires ParseLevel(IN_LEVEL + 1, xs) == Some((e, [RBRACKET] + ts))
    ensures ParseIndexes(xs) == Some(([e], ts))
  {
    hide ParseLevel;
    assert ([RBRACKET] + ts)[1..] == ts;
  }

  lemma NextIndex(xs: seq<Token>, e: Expr, more: seq<Token>, es: seq<Expr>, ts: seq<Token>)
    requires ParseLevel(IN_LEVEL + 1, xs) == Some((e, [COMMA] + more)) && ParseIndexes(more) == Some((es, ts))
    ensures ParseIndexes(xs) == Some(([e] + es, ts))
  {
    hide ParseLevel;
    assert ([COMMA] + more)[1..] == more;
  }

  // ----- unary operators and values -----

  lemma {:induction false} UnaryBack(e: Expr, ts: seq<Token>)
    requires Fine(e) && Rank(e) >= UNARY && Stops(ts, UNARY_LEVEL)
    ensures ParseLevel(UNARY_LEVEL, Spell(e) + ts) == Some((e, ts))
    decreases e, 10
  {
    hide ParseLevel, ParseUnary, ParseCrement, ParseValue, Spell, Wrapped, Class, LevelOf, Stops;
    UnaryUnfold(Spell(e) + ts);
    StopsBrackets(ts);
    if e.Unary? {
      WrappedBack(e.x, UNARY_LEVEL, ts);
      UnaryUnfold(Wrapped(e.x, UNARY) + ts);
      SpelledUnary(e.op, e.x, ts);
      ReadUnary(e.op, Wrapped(e.x, UNARY) + ts, e.x, ts);
    } else if e.PreCrement? {
      SpelledUnary(e.op, e.x, ts);
      ValueBack(e.x, ts);
      ReadPre(e.op, Wrapped(e.x, VALUE) + ts, e.x, ts);
    } else if e.PostCrement? {
      SpelledPost(e.op, e.x, ts);
      CrementAfter(e.op, ts);
      ValueBack(e.x, [Op(e.op)] + ts);
      FirstOfWrapped(e.x, VALUE, VALUE);
      ReadPost(Wrapped(e.x, VALUE) + ([Op(e.op)] + ts), e.x, e.op, ts);
    } else {
      BinaryLoose(e);
      PlainValue(e, ts);
      FirstToken(e);
      assert (Spell(e) + ts)[0] == Spell(e)[0];
      ValueLevel(Spell(e) + ts, e, ts);
    }
  }

  lemma StopsBrackets(ts: seq<Token>)
    requires Stops(ts, UNARY_LEVEL)
    ensures !At(ts, LPAREN) && !At(ts, LBRACKET) && !AtCrement(ts)
  {
  }

  lemma BinaryLoose(e: Expr)
    requires Fine(e) && Rank(e) >= UNARY && !e.Unary? && !e.PreCrement? && !e.PostCrement?
    ensures Rank(e) == VALUE
  {
    if e.Binary? { ClassIsLevel(e.op); }
  }

  lemma UnaryUnfold(xs: seq<Token>)
    ensures ParseLevel(UNARY_LEVEL, xs) == ParseUnary(xs)
  {
  }

  lemma SpelledUnary(op: Operator, x: Expr, ts: seq<Token>)
    ensures Spell(Unary(op, x)) + ts == [Op(op)] + (Wrapped(x, UNARY) + ts)
    ensures Spell(PreCrement(op, x)) + ts == [Op(op)] + (Wrapped(x, VALUE) + ts)
  {
    hide Wrapped;
  }

  lemma SpelledPost(op: Operator, x: Expr, ts: seq<Token>)
    ensures Spell(PostCrement(op, x)) + ts == Wrapped(x, VALUE) + ([Op(op)] + ts)
  {
    hide Wrapped;
  }

  lemma ReadUnary(op: Operator, ys: seq<Token>, x: Expr, ts: seq<Token>)
    requires IsUnary(op) && ParseUnary(ys) == Some((x, ts))
    ensures ParseUnary([Op(op)] + ys) == Some((Unary(op, x), ts))
  {
    assert ([Op(op)] + ys)[1..] == ys;
  }

  lemma ReadPre(op: Operator, ys: seq<Token>, x: Expr, ts: seq<Token>)
    requires IsCrement(op) && ParseValue(ys) == Some((x, ts))
    ensures ParseUnary([Op(op)] + ys) == Some((PreCrement(op, x), ts))
  {
    hide ParseValue;
    assert ([Op(op)] + ys)[1..] == ys;
  }

  lemma ReadPost(xs: seq<Token>, x: Expr, op: Operator, ts: seq<Token>)
    requires xs != [] && Begins(xs[0], VALUE) && IsCrement(op) && ParseValue(xs) == Some((x, [Op(op)] + ts))
    ensures ParseUnary(xs) == Some((PostCrement(op, x), ts))
  {
    hide ParseValue;
    assert ([Op(op)] + ts)[1..] == ts;
  }

  lemma CrementAfter(op: Operator, ts: seq<Token>)
    requires IsCrement(op)
    ensures !At([Op(op)] + ts, LPAREN) && !At([Op(op)] + ts, LBRACKET)
  {
  }

  lemma {:induction false} ValueBack(e: Expr, ts: seq<Token>)
    requires Fine(e) && !At(ts, LPAREN) && !At(ts, LBRACKET)
    ensures ParseValue(Wrapped(e, VALUE) + ts) == Some((e, ts))
    decreases e, 60
  {
    hide ParseExpr, ParseValue, Spell, Class, LevelOf;
    if Rank(e) >= VALUE {
      PlainValue(e, ts);
    } else {
      ExprBack(e, [RPAREN] + ts);
      ParenthesizedValue(e, ts);
    }
  }

  lemma {:induction false} PlainValue(e: Expr, ts: seq<Token>)
    requires Fine(e) && Rank(e) >= VALUE && !At(ts, LPAREN) && !At(ts, LBRACKET)
    ensures ParseValue(Spell(e) + ts) == Some((e, ts))
    decreases e, 5
  {
    hide ParseExpr, ParseValue, ParseList, Spell, SpellList, Class, LevelOf;
    ClassLow(e);
    match e
    case Call(f, es) =>
      if es != [] { ListBack(es, RPAREN, ts); FirstOfList(es, RPAREN, ts); }
      ReadCall(f, es, ts);
    case Index(name, es) => ListBack(es, RBRACKET, ts); ReadIndex(name, es, ts);
    case _ => ReadLeaf(e, ts);
  }

  lemma ClassLow(e: Expr)
    requires Fine(e) && Rank(e) >= VALUE
    ensures e.Num? || e.Str? || e.Sym? || e.Call? || e.Index?
  {
    if e.Binary? { ClassIsLevel(e.op); }
  }

  lemma ReadLeaf(e: Expr, ts: seq<Token>)
    requires Fine(e) && (e.Num? || e.Str? || e.Sym?) && !At(ts, LPAREN) && !At(ts, LBRACKET)
    ensures ParseValue(Spell(e) + ts) == Some((e, ts))
  {
    var xs := Spell(e) + ts;
    assert xs[1..] == ts;
  }

  lemma ReadCall(f: string, es: seq<Expr>, ts: seq<Token>)
    requires es != [] ==> var ys := SpellList(es, -2) + ([RPAREN] + ts);
      !At(ys, RPAREN) && ParseList(ys, RPAREN) == Some((es, ts))
    ensures ParseValue(Spell(Call(f, es)) + ts) == Some((Call(f, es), ts))
  {
    hide ParseList, SpellList;
    var ys, xs := SpellList(es, -2) + ([RPAREN] + ts), Spell(Call(f, es)) + ts;
    assert xs == [Ident(f), LPAREN] + ys;
    assert xs[1..][1..] == ys;
    if es == [] {
      NothingSpelled(-2);
      assert ys == [RPAREN] + ts && xs[1..][2..] == ts;
    }
  }

  lemma NothingSpelled(k: int)
    ensures SpellList([], k) == []
  {
  }

  lemma ReadIndex(name: string, es: seq<Expr>, ts: seq<Token>)
    requires ParseList(SpellList(es, -2) + ([RBRACKET] + ts), RBRACKET) == Some((es, ts))
    ensures ParseValue(Spell(Index(name, es)) + ts) == Some((Index(name, es), ts))
  {
    hide ParseList, SpellList;
    var ys, xs := SpellList(es, -2) + ([RBRACKET] + ts), Spell(Index(name, es)) + ts;
    assert xs == [Ident(name), LBRACKET] + ys;
    assert xs[1..][1..] == ys;
  }

  lemma {:induction false} ListBack(es: seq<Expr>, close: Token, ts: seq<Token>)
    requires es != [] && AllWellFormed(es) && AllNonNegative(es) && (close == RPAREN || close == RBRACKET)
    ensures ParseList(SpellList(es, -2) + ([close] + ts), close) == Some((es, ts))
    decreases es, 0
  {
    hide ParseExpr, ParseList, Spell, Class;
    WrappedWhole(es[0]);
    if |es| == 1 {
      ExprBack(es[0], [close] + ts);
      LastOfList(Spell(es[0]) + ([close] + ts), es[0], close, ts);
      assert es == [es[0]];
    } else {
      var more := SpellList(es[1..], -2) + ([close] + ts);
      SpelledList(es, -2, [close] + ts);
      ExprBack(es[0], [COMMA] + more);
      ListBack(es[1..], close, ts);
      NextOfList(Spell(es[0]) + ([COMMA] + more), es[0], more, es[1..], close, ts);
      assert es == [es[0]] + es[1..];
    }
  }

  lemma WrappedWhole(e: Expr)
    ensures Wrapped(e, -2) == Spell(e)
  {
  }

  lemma LastOfList(xs: seq<Token>, e: Expr, close: Token, ts: seq<Token>)
    requires ParseExpr(xs) == Some((e, [close] + ts))
    ensures ParseList(xs, close) == Some(([e], ts))
  {
    hide ParseExpr;
    assert ([close] + ts)[1..] == ts;
  }

  lemma NextOfList(xs: seq<Token>, e: Expr, more: seq<Token>, es: seq<Expr>, close: Token, ts: seq<Token>)
    requires close != COMMA && ParseExpr(xs) == Some((e, [COMMA] + more)) && ParseList(more, close) == Some((es, ts))
    ensures ParseList(xs, close) == Some(([e] + es, ts))
  {
    hide ParseExpr;
    assert ([COMMA] + more)[1..] == more;
  }

  lemma FirstOfList(es: seq<Expr>, close: Token, ts: seq<Token>)
    requires es != [] && AllWellFormed(es) && close == RPAREN
    ensures !At(SpellList(es, -2) + ([close] + ts), RPAREN)
  {
    hide Spell, Class, IsUnary, IsCrement;
    FirstOfWrapped(es[0], -2, -2);
    var w := Wrapped(es[0], -2);
    assert (SpellList(es, -2) + ([close] + ts))[0] == w[0];
    NotClosing(w[0]);
  }

  lemma NotClosing(t: Token)
    requires Begins(t, -2)
    ensures t != RPAREN
  {
  }

  // ----- the theorem, and its simplest cases -----

  /** Every expression, spelled with as few parentheses as its operators allow, is read as it was
      meant. */
  lemma SpelledBack(e: Expr)
    requires WellFormed(e) && NonNegative(e)
    ensures ParseExpr(Spell(e)) == Some((e, []))
  {
    hide ParseExpr, Spell;
    ExprBack(e, []);
    assert Spell(e) + [] == Spell(e);
  }

  lemma SymbolOperand(a: string, k: int)
    requires k <= VALUE
    ensures Wrapped(Sym(a), k) == [Ident(a)] && Spell(Sym(a)) == [Ident(a)]
  {
  }

  lemma SpelledPair(p: Operator, a: string, b: string)
    requires Class(p) < 11
    ensures Spell(Binary(p, Sym(a), Sym(b))) == [Ident(a), Op(p), Ident(b)] && Fine(Binary(p, Sym(a), Sym(b)))
  {
    hide Class, Spell, Wrapped, LevelOf;
    ClassIsLevel(p);
    SpelledBinary(p, Sym(a), Sym(b), []);
    SymbolOperand(a, Class(p));
    SymbolOperand(b, Class(p) + 1);
    assert [Ident(a)] + ([Op(p)] + ([Ident(b)] + [])) == [Ident(a), Op(p), Ident(b)];
    Joined(Binary(p, Sym(a), Sym(b)), [Ident(a), Op(p), Ident(b)]);
    assert WellFormed(Sym(a)) && WellFormed(Sym(b)) && NonNegative(Sym(a)) && NonNegative(Sym(b));
  }

  lemma UnwrappedPair(p: Operator, a: string, b: string, k: int)
    requires Class(p) < 11 && Class(p) >= k
    ensures Wrapped(Binary(p, Sym(a), Sym(b)), k) == [Ident(a), Op(p), Ident(b)]
  {
    hide Class, Spell;
    SpelledPair(p, a, b);
  }

  /** Of two operators the tighter takes the operand between them, and of two in one class the
      left. */
  lemma TwoOperators(a: string, b: string, c: string, p: Operator, q: Operator)
    requires Class(p) < 11 && Class(q) < 11
    ensures ParseExpr([Ident(a), Op(p), Ident(b), Op(q), Ident(c)]) ==
      if Class(q) > Class(p) then Some((Binary(p, Sym(a), Binary(q, Sym(b), Sym(c))), []))
      else Some((Binary(q, Binary(p, Sym(a), Sym(b)), Sym(c)), []))
  {
    hide ParseExpr, Class, Spell, Wrapped, LevelOf;
    ClassIsLevel(p);
    ClassIsLevel(q);
    if Class(q) > Class(p) {
      var r := Binary(q, Sym(b), Sym(c));
      SpelledPair(q, b, c);
      UnwrappedPair(q, b, c, Class(p) + 1);
      SymbolOperand(a, Class(p));
      SpelledBinary(p, Sym(a), r, []);
      SpelledBack(Binary(p, Sym(a), r));
      Joined(Binary(p, Sym(a), r), [Ident(a), Op(p), Ident(b), Op(q), Ident(c)]);
    } else {
      var l := Binary(p, Sym(a), Sym(b));
      SpelledPair(p, a, b);
      UnwrappedPair(p, a, b, Class(q));
      SymbolOperand(c, Class(q) + 1);
      SpelledBinary(q, l, Sym(c), []);
      SpelledBack(Binary(q, l, Sym(c)));
      Joined(Binary(q, l, Sym(c)), [Ident(a), Op(p), Ident(b), Op(q), Ident(c)]);
    }
  }

  lemma Joined(e: Expr, ts: seq<Token>)
    requires Spell(e) + [] == ts
    ensures Spell(e) == ts
  {
    hide Spell;
    assert Spell(e) + [] == Spell(e);
  }

  /** Assignments group to the right, and bind more loosely than any binary operator. */
  lemma AssignmentsRight(a: string, b: string, c: string, d: string, p: Operator, q: Operator, o: Operator)
    requires IsAssign(p) && IsAssign(q) && Class(o) < 11
    ensures ParseExpr([Ident(a), Op(p), Ident(b), Op(q), Ident(c), Op(o), Ident(d)]) ==
      Some((Assign(p, Sym(a), Assign(q, Sym(b), Binary(o, Sym(c), Sym(d)))), []))
  {
    hide ParseExpr, Class, IsAssign, Spell, Wrapped, LevelOf;
    var s := Binary(o, Sym(c), Sym(d));
    var r := Assign(q, Sym(b), s);
    SpelledPair(o, c, d);
    SymbolOperand(a, 0);
    SymbolOperand(b, 0);
    SpelledAssign(q, Sym(b), s, []);
    assert [Ident(b)] + ([Op(q)] + ([Ident(c), Op(o), Ident(d)] + [])) == [Ident(b), Op(q), Ident(c), Op(o), Ident(d)];
    Joined(r, [Ident(b), Op(q), Ident(c), Op(o), Ident(d)]);
    SpelledAssign(p, Sym(a), r, []);
    assert WellFormed(Sym(a)) && WellFormed(Sym(b)) && NonNegative(Sym(a)) && NonNegative(Sym(b));
    assert WellFormed(r) && NonNegative(r);
    Joined(Assign(p, Sym(a), r), [Ident(a), Op(p), Ident(b), Op(q), Ident(c), Op(o), Ident(d)]);
    SpelledBack(Assign(p, Sym(a), r));
  }
}
