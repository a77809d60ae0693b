/**
 Parsing the printed form of an expression.  It gives the expression back exactly when no
 literal is negative and the indexes of every membership test bind at least as tightly as a
 comparison.
 */
module RoundTrip {
  import opened Basics
  import opened Grammar

  // ----- what comes back -----

  /** A negative literal comes back as a negation. */
  function Reread(e: Expr): Expr
    decreases e, 1
  {
    match e
    case Num(n) => if n >= 0 then e else Unary(Minus, Num(-n))
    case Str(_) => e
    case Sym(_) => e
    case Call(f, es) => Call(f, RereadAll(es))
    case Index(name, es) => Index(name, RereadAll(es))
    case In(es, name) => In(RereadAll(es), name)
    case Unary(op, x) => Unary(op, Reread(x))
    case PreCrement(op, x) => PreCrement(op, Reread(x))
    case PostCrement(op, x) => PostCrement(op, Reread(x))
    case Binary(op, l, r) => Binary(op, Reread(l), Reread(r))
    case Cond(c, a, b) => Cond(Reread(c), Reread(a), Reread(b))
    case Assign(op, l, r) => Assign(op, Reread(l), Reread(r))
  }

  function RereadAll(es: seq<Expr>): (r: seq<Expr>)
    ensures |r| == |es|
    decreases es, 0
  {
    if es == [] then [] else [Reread(es[0])] + RereadAll(es[1..])
  }

  /** Binds at least as tightly as a comparison. */
  predicate Tight(e: Expr) {
    match e
    case In(_, _) => false
    case Cond(_, _, _) => false
    case Assign(_, _, _) => false
    case Binary(op, _, _) => LevelOf(op) > IN_LEVEL
    case _ => true
  }

  /** Every membership test in the expression has indexes that can be read without parentheses. */
  predicate Readable(e: Expr)
    decreases e, 1
  {
    match e
    case Num(_) => true
    case Str(_) => true
    case Sym(_) => true
    case Call(_, es) => AllReadable(es, false)
    case Index(_, es) => AllReadable(es, false)
    case In(es, _) => AllReadable(es, true)
    case Unary(_, x) => Readable(x)
    case PreCrement(_, x) => Readable(x)
    case PostCrement(_, x) => Readable(x)
    case Binary(_, l, r) => Readable(l) && Readable(r)
    case Cond(c, a, b) => Readable(c) && Readable(a) && Readable(b)
    case Assign(_, l, r) => Readable(l) && Readable(r)
  }

  predicate AllReadable(es: seq<Expr>, tight: bool)
    decreases es, 0
  {
    es == [] || (Readable(es[0]) && (tight ==> Tight(es[0])) && AllReadable(es[1..], tight))
  }

  predicate NonNegative(e: Expr)
    decreases e, 1
  {
    match e
    case Num(n) => n >= 0
    case Str(_) => true
    case Sym(_) => true
    case Call(_, es) => AllNonNegative(es)
    case Index(_, es) => AllNonNegative(es)
    case In(es, _) => AllNonNegative(es)
    case Unary(_, x) => NonNegative(x)
    case PreCrement(_, x) => NonNegative(x)
    case PostCrement(_, x) => NonNegative(x)
    case Binary(_, l, r) => NonNegative(l) && NonNegative(r)
    case Cond(c, a, b) => NonNegative(c) && NonNegative(a) && NonNegative(b)
    case Assign(_, l, r) => NonNegative(l) && NonNegative(r)
  }

  predicate AllNonNegative(es: seq<Expr>)
    decreases es, 0
  {
    es == [] || (NonNegative(es[0]) && AllNonNegative(es[1..]))
  }

  lemma {:induction false} RereadSame(e: Expr)
    ensures Reread(e) == e <==> NonNegative(e)
    decreases e, 1
  {
    match e
    case Num(_) =>
    case Str(_) =>
    case Sym(_) =>
    case Call(_, es) => RereadAllSame(es);
    case Index(_, es) => RereadAllSame(es);
    case In(es, _) => RereadAllSame(es);
    case Unary(_, x) => RereadSame(x);
    case PreCrement(_, x) => RereadSame(x);
    case PostCrement(_, x) => RereadSame(x);
    case Binary(_, l, r) => RereadSame(l); RereadSame(r);
    case Cond(c, a, b) => RereadSame(c); RereadSame(a); RereadSame(b);
    case Assign(_, l, r) => RereadSame(l); RereadSame(r);
  }

  lemma {:induction false} RereadAllSame(es: seq<Expr>)
    ensures RereadAll(es) == es <==> AllNonNegative(es)
    decreases es, 0
  {
    if es != [] {
      RereadSame(es[0]);
      RereadAllSame(es[1..]);
      assert es == [es[0]] + es[1..];
      if RereadAll(es) == es { assert RereadAll(es)[0] == es[0] && RereadAll(es)[1..] == es[1..]; }
    }
  }

  // ----- climbing the levels -----

  /** Nothing in the tokens continues an expression. */
  predicate Neutral(ts: seq<Token>) {
    ts == [] || ts[0] == RPAREN || ts[0] == RBRACKET || ts[0] == COMMA || ts[0] == COLON
  }

  /** The next token is not an operator of these levels. */
  predicate Between(ts: seq<Token>, lo: nat, hi: nat) {
    forall k | lo <= k < hi :: !AtOperator(ts, k)
  }

  /** Punctuation is no operator. */
  lemma Punctuation(c: Operator)
    requires c.LParen? || c.RParen? || c.LBracket? || c.RBracket? || c.Comma? || c.Colon? || c.Question?
    ensures LevelOf(c) == UNARY_LEVEL && !IsCrement(c) && !IsUnary(c) && !IsAssign(c)
  {
  }

  lemma NeutralStops(ts: seq<Token>)
    requires Neutral(ts)
    ensures Between(ts, 0, UNARY_LEVEL) && !At(ts, IN) && !At(ts, QUESTION) && !AtAssign(ts) && !AtCrement(ts)
    ensures !At(ts, LPAREN) && !At(ts, LBRACKET)
  {
    hide LevelOf, IsAssign, IsCrement;
    Punctuation(RParen);
    Punctuation(RBracket);
    Punctuation(Comma);
    Punctuation(Colon);
  }

  /** A result at a tighter level is the result at a looser one when no operator follows. */
  lemma {:induction false} Climb(lo: nat, hi: nat, ts: seq<Token>)
    requires lo <= hi <= UNARY_LEVEL && (lo <= IN_LEVEL < hi ==> !At(ts, LBRACKET))
    requires var r := ParseLevel(hi, ts);
      r.None? || (Between(r.value.1, lo, hi) && (lo <= IN_LEVEL < hi ==> !At(r.value.1, IN)))
    ensures ParseLevel(lo, ts) == ParseLevel(hi, ts)
    decreases hi - lo
  {
    if lo < hi {
      Climb(lo + 1, hi, ts);
      var r := ParseLevel(lo + 1, ts);
      if lo != IN_LEVEL && r.Some? { assert !AtOperator(r.value.1, lo); }
    }
  }

  /** From the tightest level to a whole expression. */
  lemma Whole(lo: nat, ts: seq<Token>)
    requires lo <= UNARY_LEVEL && (lo > IN_LEVEL ==> !At(ts, LBRACKET))
    requires ParseLevel(lo, ts).None? || Neutral(ParseLevel(lo, ts).value.1)
    ensures ParseExpr(ts) == ParseLevel(lo, ts)
  {
    var r := ParseLevel(lo, ts);
    if r.Some? { NeutralStops(r.value.1); }
    Climb(0, lo, ts);
  }

  // ----- the inductive claim -----

  /** What parsing yields for the printed form of e before ts. */
  function Back(e: Expr, ts: seq<Token>): Parsed<Expr> { if Readable(e) then Some((Reread(e), ts)) else None }

  /** A parenthesized expression, given the claim for what is inside. */
  lemma ParenValue(e: Expr, ts: seq<Token>)
    requires ParseExpr(Print(e) + ([RPAREN] + ts)) == Back(e, [RPAREN] + ts)
    ensures ParseValue(Paren(e) + ts) == Back(e, ts)
    ensures At(Paren(e) + ts, LPAREN)
  {
    hide ParseExpr, Print;
    assert Paren(e) + ts == [LPAREN] + (Print(e) + ([RPAREN] + ts));
    assert (Paren(e) + ts)[1..] == Print(e) + ([RPAREN] + ts);
    assert ([RPAREN] + ts)[1..] == ts;
  }

  /** At the unary level, before something that is not an increment. */
  lemma ParenUnary(e: Expr, ts: seq<Token>)
    requires ParseExpr(Print(e) + ([RPAREN] + ts)) == Back(e, [RPAREN] + ts) && !AtCrement(ts)
    ensures ParseLevel(UNARY_LEVEL, Paren(e) + ts) == Back(e, ts) && !At(Paren(e) + ts, LBRACKET)
  {
    hide ParseValue, IsUnary, IsCrement, Paren;
    Punctuation(LParen);
    ParenValue(e, ts);
    var xs := Paren(e) + ts;
    assert xs[0] == LPAREN;
    assert !AtUnary(xs) && !AtCrement(xs);
    assert ParseCrement(xs) == ParseValue(xs);
  }

  /** As a whole expression. */
  lemma ParenExpr(e: Expr, ts: seq<Token>)
    requires ParseExpr(Print(e) + ([RPAREN] + ts)) == Back(e, [RPAREN] + ts) && Neutral(ts)
    ensures ParseExpr(Paren(e) + ts) == Back(e, ts)
  {
    NeutralStops(ts);
    ParenUnary(e, ts);
    Whole(UNARY_LEVEL, Paren(e) + ts);
  }

  // ----- one node, given the claim for its operands -----

  /** The claim for an operand in parentheses followed by ts. */
  ghost predicate Inside(e: Expr, ts: seq<Token>) { ParseExpr(Print(e) + ([RPAREN] + ts)) == Back(e, [RPAREN] + ts) }

  lemma BinaryOperator(op: Operator)
    requires LevelOf(op) < UNARY_LEVEL
    ensures !IsCrement(op) && op != Question && op != Comma && op != RBracket && op != RParen
    ensures LevelOf(op) != IN_LEVEL
  {
  }

  lemma AssignOperator(op: Operator)
    requires IsAssign(op)
    ensures !IsCrement(op) && LevelOf(op) == UNARY_LEVEL && op != Question && op != Comma && op != RBracket
  {
  }

  /** An operand in parentheses before an operator of a looser level, or before no operator. */
  lemma ParenLevel(lo: nat, e: Expr, ts: seq<Token>)
    requires Inside(e, ts) && lo <= UNARY_LEVEL && !AtCrement(ts) && Between(ts, lo, UNARY_LEVEL) && !At(ts, IN)
    ensures ParseLevel(lo, Paren(e) + ts) == Back(e, ts)
  {
    hide ParseLevel, Paren;
    ParenUnary(e, ts);
    Climb(lo, UNARY_LEVEL, Paren(e) + ts);
  }

  lemma BinaryBack(op: Operator, l: Expr, r: Expr, ts: seq<Token>)
    requires LevelOf(op) < UNARY_LEVEL && Neutral(ts)
    requires Inside(l, [Op(op)] + (Paren(r) + ts)) && Inside(r, ts)
    ensures ParseLevel(LevelOf(op), Print(Binary(op, l, r)) + ts) == Back(Binary(op, l, r), ts)
    ensures LevelOf(op) < IN_LEVEL ==> ParseLevel(IN_LEVEL + 1, Print(Binary(op, l, r)) + ts) == Back(l, [Op(op)] + (Paren(r) + ts))
  {
    hide LevelOf, Paren, IsCrement, Inside, ParseLevel, Print, ParseMore, ParseExpr, Readable, Reread;
    BackOf(Binary(op, l, r));
    var k, more := LevelOf(op), [Op(op)] + (Paren(r) + ts);
    PrintedBinary(op, l, r, ts);
    BinaryOperator(op);
    NeutralStops(ts);
    ParenLevel(k + 1, l, more);
    ParenLevel(k + 1, r, ts);
    assert more[1..] == Paren(r) + ts;
    LevelUnfold(k, Paren(l) + more);
    if Readable(l) { MoreUnfold(k, Reread(l), more, r, ts); }
    if k < IN_LEVEL { ParenLevel(IN_LEVEL + 1, l, more); }
  }

  lemma PrintedBinary(op: Operator, l: Expr, r: Expr, ts: seq<Token>)
    ensures Print(Binary(op, l, r)) + ts == Paren(l) + ([Op(op)] + (Paren(r) + ts))
    ensures Print(Assign(op, l, r)) + ts == Paren(l) + ([Op(op)] + (Paren(r) + ts))
  {
    hide Paren;
  }

  lemma LevelUnfold(k: nat, ts: seq<Token>)
    requires k < UNARY_LEVEL && k != IN_LEVEL
    ensures ParseLevel(k, ts) == match ParseLevel(k + 1, ts) case None => None case Some((l, rest)) => ParseMore(k, l, rest)
  {
  }

  lemma MoreUnfold(k: nat, l: Expr, more: seq<Token>, r: Expr, ts: seq<Token>)
    requires k < UNARY_LEVEL && k != IN_LEVEL && AtOperator(more, k) && !AtOperator(ts, k)
    requires ParseLevel(k + 1, more[1..]) == Back(r, ts)
    ensures ParseMore(k, l, more) == if Readable(r) then Some((Binary(more[0].s, l, Reread(r)), ts)) else None
  {
    hide ParseLevel;
  }

  lemma CondBack(c: Expr, a: Expr, b: Expr, ts: seq<Token>)
    requires Neutral(ts) && Inside(c, [QUESTION] + (Paren(a) + ([COLON] + (Paren(b) + ts))))
    requires Inside(a, [COLON] + (Paren(b) + ts)) && Inside(b, ts)
    ensures ParseExpr(Print(Cond(c, a, b)) + ts) == Back(Cond(c, a, b), ts)
    ensures ParseLevel(IN_LEVEL + 1, Print(Cond(c, a, b)) + ts) == Back(c, [QUESTION] + (Paren(a) + ([COLON] + (Paren(b) + ts))))
  {
    hide LevelOf, Paren, Print, IsCrement, IsAssign, ParseLevel, ParseExpr, Readable, Reread;
    var more2 := [COLON] + (Paren(b) + ts);
    var more1 := [QUESTION] + (Paren(a) + more2);
    var xs := Print(Cond(c, a, b)) + ts;
    PrintedCond(c, a, b, ts);
    BackOf(Cond(c, a, b));
    NeutralStops(ts);
    Punctuation(Question);
    ParenLevel(0, c, more1);
    ParenLevel(IN_LEVEL + 1, c, more1);
    assert more1[1..] == Paren(a) + more2 && more2[1..] == Paren(b) + ts;
    ParenExpr(a, more2);
    ParenExpr(b, ts);
    assert ParseTernary(xs) == Back(Cond(c, a, b), ts);
    NoAssign(xs);
  }

  lemma NoAssign(xs: seq<Token>)
    requires ParseTernary(xs).None? || !AtAssign(ParseTernary(xs).value.1)
    ensures ParseExpr(xs) == ParseTernary(xs)
  {
    hide ParseTernary, IsAssign;
  }

  lemma PrintedCond(c: Expr, a: Expr, b: Expr, ts: seq<Token>)
    ensures Print(Cond(c, a, b)) + ts == Paren(c) + ([QUESTION] + (Paren(a) + ([COLON] + (Paren(b) + ts))))
  {
    hide Paren;
  }

  /** The claim for an operator, from its operands. */
  lemma BackOf(e: Expr)
    ensures e.Binary? ==> (Readable(e) <==> Readable(e.l) && Readable(e.r)) && Reread(e) == Binary(e.op, Reread(e.l), Reread(e.r))
    ensures e.Cond? ==>
      (Readable(e) <==> Readable(e.c) && Readable(e.a) && Readable(e.b)) && Reread(e) == Cond(Reread(e.c), Reread(e.a), Reread(e.b))
  {
  }

  lemma AssignBack(op: Operator, l: Expr, r: Expr, ts: seq<Token>)
    requires IsAssign(op) && Neutral(ts) && Inside(l, [Op(op)] + (Paren(r) + ts)) && Inside(r, ts)
    ensures ParseExpr(Print(Assign(op, l, r)) + ts) == Back(Assign(op, l, r), ts)
    ensures ParseLevel(IN_LEVEL + 1, Print(Assign(op, l, r)) + ts) == Back(l, [Op(op)] + (Paren(r) + ts))
  {
    hide LevelOf, Paren, IsCrement, IsAssign, ParseLevel;
    var more := [Op(op)] + (Paren(r) + ts);
    var xs := Print(Assign(op, l, r)) + ts;
    assert xs == Paren(l) + more;
    AssignOperator(op);
    NeutralStops(ts);
    ParenLevel(0, l, more);
    ParenLevel(IN_LEVEL + 1, l, more);
    assert more[1..] == Paren(r) + ts;
    ParenExpr(r, ts);
    assert ParseTernary(xs) == Back(l, more);
  }

  lemma UnaryUnfold(ts: seq<Token>)
    ensures ParseLevel(UNARY_LEVEL, ts) == ParseUnary(ts)
    ensures AtUnary(ts) ==>
      ParseUnary(ts) == match ParseUnary(ts[1..]) case None => None case Some((x, rest)) => Some((Unary(ts[0].s, x), rest))
    ensures !AtUnary(ts) ==> ParseUnary(ts) == ParseCrement(ts)
  {
    hide ParseCrement, IsUnary;
  }

  lemma CrementUnfold(ts: seq<Token>)
    ensures AtCrement(ts) ==>
      ParseCrement(ts) == match ParseValue(ts[1..]) case None => None case Some((x, rest)) => Some((PreCrement(ts[0].s, x), rest))
    ensures !AtCrement(ts) ==>
      ParseCrement(ts) == match ParseValue(ts)
        case None => None
        case Some((x, rest)) => if AtCrement(rest) then Some((PostCrement(rest[0].s, x), rest[1..])) else Some((x, rest))
  {
    hide ParseValue, IsCrement;
  }

  lemma UnaryBack(op: Operator, x: Expr, ts: seq<Token>)
    requires IsUnary(op) && Neutral(ts) && Inside(x, ts)
    ensures ParseLevel(UNARY_LEVEL, Print(Unary(op, x)) + ts) == Back(Unary(op, x), ts)
  {
    hide Paren, Print, ParseExpr, ParseUnary, IsUnary, IsCrement, ParseLevel, Between, IsAssign, LevelOf;
    var xs := Print(Unary(op, x)) + ts;
    NeutralStops(ts);
    ParenUnary(x, ts);
    PrintedUnary(op, x, ts);
    UnaryUnfold(xs);
    UnaryUnfold(xs[1..]);
  }

  lemma PreCrementBack(op: Operator, x: Expr, ts: seq<Token>)
    requires IsCrement(op) && Neutral(ts) && Inside(x, ts)
    ensures ParseLevel(UNARY_LEVEL, Print(PreCrement(op, x)) + ts) == Back(PreCrement(op, x), ts)
  {
    hide Paren, Print, ParseExpr, ParseValue, ParseUnary, ParseCrement, IsUnary, IsCrement, ParseLevel;
    var xs := Print(PreCrement(op, x)) + ts;
    CrementNotUnary(op);
    ParenValue(x, ts);
    PrintedUnary(op, x, ts);
    UnaryUnfold(xs);
    CrementUnfold(xs);
  }

  lemma PostCrementBack(op: Operator, x: Expr, ts: seq<Token>)
    requires IsCrement(op) && Neutral(ts) && Inside(x, [Op(op)] + ts)
    ensures ParseLevel(UNARY_LEVEL, Print(PostCrement(op, x)) + ts) == Back(PostCrement(op, x), ts)
  {
    hide Paren, Print, ParseExpr, ParseValue, ParseUnary, ParseCrement, IsUnary, IsCrement, ParseLevel;
    var xs, more := Print(PostCrement(op, x)) + ts, [Op(op)] + ts;
    Punctuation(LParen);
    ParenValue(x, more);
    PrintedUnary(op, x, ts);
    assert more[1..] == ts;
    UnaryUnfold(xs);
    CrementUnfold(xs);
  }

  lemma PrintedUnary(op: Operator, x: Expr, ts: seq<Token>)
    ensures Print(Unary(op, x)) + ts == [Op(op)] + (Paren(x) + ts) && ([Op(op)] + (Paren(x) + ts))[1..] == Paren(x) + ts
    ensures Print(PreCrement(op, x)) + ts == [Op(op)] + (Paren(x) + ts)
    ensures Print(PostCrement(op, x)) + ts == Paren(x) + ([Op(op)] + ts)
  {
    hide Paren;
  }

  lemma CrementNotUnary(op: Operator)
    ensures IsCrement(op) ==> !IsUnary(op)
    ensures IsCrement(op) || IsUnary(op) ==> op != LBracket
  {
  }

  /** A token that is a value by itself. */
  lemma ValueBack(e: Expr, ts: seq<Token>)
    requires (e.Num? && e.n >= 0) || e.Str? || e.Sym?
    requires Neutral(ts)
    ensures ParseUnary(Print(e) + ts) == Some((e, ts)) && !At(Print(e) + ts, LBRACKET)
  {
    hide ParseExpr, ParseList, ParseUnary, ParseCrement, IsUnary, IsCrement;
    NeutralStops(ts);
    var xs := Print(e) + ts;
    assert xs[1..] == ts && !xs[0].Op?;
    assert ParseValue(xs) == Some((e, ts));
    UnaryUnfold(xs);
    CrementUnfold(xs);
  }

  lemma AtomBack(e: Expr, ts: seq<Token>)
    requires (e.Num? || e.Str? || e.Sym?) && Neutral(ts)
    ensures ParseLevel(UNARY_LEVEL, Print(e) + ts) == Back(e, ts) && !At(Print(e) + ts, LBRACKET)
  {
    hide ParseUnary, ParseLevel;
    var xs := Print(e) + ts;
    UnaryUnfold(xs);
    if e.Num? && e.n < 0 {
      assert xs[1..] == Print(Num(-e.n)) + ts;
      ValueBack(Num(-e.n), ts);
    } else {
      ValueBack(e, ts);
    }
  }

  // ----- lists -----

  lemma PrintListCons(es: seq<Expr>, close: seq<Token>)
    requires es != []
    ensures PrintList(es) + close == Print(es[0]) + (if |es| == 1 then close else [COMMA] + (PrintList(es[1..]) + close))
  {
    hide Print;
  }

  lemma Singleton(es: seq<Expr>, tight: bool)
    requires |es| == 1
    ensures RereadAll(es) == [Reread(es[0])]
    ensures AllReadable(es, tight) <==> Readable(es[0]) && (tight ==> Tight(es[0]))
  {
    hide Reread, Readable;
    assert es[1..] == [];
    assert RereadAll(es) == [Reread(es[0])] + RereadAll(es[1..]);
    assert RereadAll([]) == [];
    assert AllReadable([], tight);
  }

  lemma {:induction false} ListBack(es: seq<Expr>, close: Token, ts: seq<Token>)
    requires es != [] && AllWellFormed(es) && (close == RPAREN || close == RBRACKET)
    ensures ParseList(PrintList(es) + ([close] + ts), close) == if AllReadable(es, false) then Some((RereadAll(es), ts)) else None
    decreases es, 0
  {
    hide Print, ParseExpr, WellFormed, Readable, Reread;
    var end := [close] + ts;
    assert end[1..] == ts;
    PrintListCons(es, end);
    if |es| == 1 {
      Singleton(es, false);
      PrintBack(es[0], end);
    } else {
      var more := [COMMA] + (PrintList(es[1..]) + end);
      PrintBack(es[0], more);
      assert more[1..] == PrintList(es[1..]) + end;
      ListBack(es[1..], close, ts);
    }
  }

  lemma {:induction false} IndexesBack(es: seq<Expr>, ts: seq<Token>)
    requires es != [] && AllWellFormed(es)
    ensures ParseIndexes(PrintList(es) + ([RBRACKET] + ts)) == if AllReadable(es, true) then Some((RereadAll(es), ts)) else None
    decreases es, 0
  {
    hide Print, ParseLevel, WellFormed, Readable, Reread, Tight;
    var end := [RBRACKET] + ts;
    assert end[1..] == ts;
    PrintListCons(es, end);
    if |es| == 1 {
      Singleton(es, true);
      TightBack(es[0], end);
    } else {
      var more := [COMMA] + (PrintList(es[1..]) + end);
      TightBack(es[0], more);
      assert more[1..] == PrintList(es[1..]) + end;
      IndexesBack(es[1..], ts);
    }
  }

  lemma FirstToken(e: Expr)
    requires WellFormed(e)
    ensures Print(e) != [] && Print(e)[0] != RPAREN && Print(e)[0] != RBRACKET
    ensures !e.In? ==> Print(e)[0] != LBRACKET
  {
    hide PrintList;
    match e
    case Num(_) =>
    case Str(_) =>
    case Sym(_) =>
    case Call(_, _) =>
    case Index(_, _) =>
    case In(_, _) =>
    case Unary(_, _) =>
    case PreCrement(_, _) =>
    case PostCrement(_, _) =>
    case Binary(_, _, _) =>
    case Cond(_, _, _) =>
    case Assign(_, _, _) =>
  }

  lemma SymbolUnary(xs: seq<Token>, ts: seq<Token>)
    requires xs != [] && xs[0].Ident? && Neutral(ts) && (ParseSymbol(xs).None? || ParseSymbol(xs).value.1 == ts)
    ensures ParseLevel(UNARY_LEVEL, xs) == ParseSymbol(xs)
  {
    hide ParseUnary, ParseCrement, ParseSymbol, IsCrement, IsUnary, Between;
    NeutralStops(ts);
    UnaryUnfold(xs);
    CrementUnfold(xs);
    assert ParseValue(xs) == ParseSymbol(xs);
  }

  lemma {:induction false} CallBack(e: Expr, ts: seq<Token>)
    requires (e.Call? || e.Index?) && WellFormed(e) && Neutral(ts)
    ensures ParseLevel(UNARY_LEVEL, Print(e) + ts) == Back(e, ts)
    decreases e, 0
  {
    hide ParseList, PrintList, ParseLevel, RereadAll, AllReadable, AllWellFormed;
    var xs := Print(e) + ts;
    var open, close, name := if e.Call? then LPAREN else LBRACKET, if e.Call? then RPAREN else RBRACKET, if e.Call? then e.f else e.name;
    var body := PrintList(e.es) + ([close] + ts);
    assert xs == [Ident(name), open] + body;
    assert xs[1..] == [open] + body && ([open] + body)[1..] == body;
    if e.es == [] {
      NoList(close, ts);
    } else {
      FirstOfList(e.es, [close] + ts);
      ListBack(e.es, close, ts);
    }
    SymbolUnary(xs, ts);
  }

  lemma NoList(close: Token, ts: seq<Token>)
    ensures PrintList([]) + ([close] + ts) == [close] + ts && ([close] + ts)[1..] == ts
    ensures RereadAll([]) == [] && AllReadable([], false)
  {
  }

  lemma FirstOfList(es: seq<Expr>, end: seq<Token>)
    requires es != [] && AllWellFormed(es)
    ensures !At(PrintList(es) + end, RPAREN)
  {
    hide Print, WellFormed;
    FirstToken(es[0]);
    PrintListCons(es, end);
  }

  lemma {:induction false} InBack(e: Expr, ts: seq<Token>)
    requires e.In? && WellFormed(e) && Neutral(ts)
    ensures ParseLevel(IN_LEVEL, Print(e) + ts) == Back(e, ts)
    ensures ParseLevel(IN_LEVEL + 1, Print(e) + ts) == None
    decreases e, 0
  {
    hide ParseIndexes, PrintList, RereadAll, AllReadable, AllWellFormed, IsUnary, IsCrement, ParseUnary, ParseCrement;
    var xs := Print(e) + ts;
    var after := [IN, Ident(e.name)] + ts;
    assert xs == [LBRACKET] + (PrintList(e.es) + ([RBRACKET] + after));
    assert xs[1..] == PrintList(e.es) + ([RBRACKET] + after);
    IndexesBack(e.es, after);
    assert after[2..] == ts;
    Punctuation(LBracket);
    UnaryUnfold(xs);
    CrementUnfold(xs);
    assert ParseValue(xs) == None;
    Climb(IN_LEVEL + 1, UNARY_LEVEL, xs);
  }

  // ----- all expressions -----

  /** The claim at the level of comparisons. */
  lemma {:induction false} TightBack(e: Expr, ts: seq<Token>)
    requires WellFormed(e) && Neutral(ts)
    ensures Tight(e) ==> ParseLevel(IN_LEVEL + 1, Print(e) + ts) == Back(e, ts)
    ensures !Tight(e) ==>
      var r := ParseLevel(IN_LEVEL + 1, Print(e) + ts);
      r.None? || (!At(r.value.1, COMMA) && !At(r.value.1, RBRACKET))
    decreases e, 2
  {
    hide ParseLevel, ParseExpr, Print, Paren, LevelOf, Readable, Reread;
    NeutralStops(ts);
    match e
    case In(_, _) => InBack(e, ts);
    case Cond(c, a, b) => Operands3(c, a, b, ts); CondBack(c, a, b, ts);
    case Assign(op, l, r) => Operands2(e, op, l, r, ts); AssignBack(op, l, r, ts); AssignOperator(op);
    case Binary(op, l, r) =>
      Operands2(e, op, l, r, ts);
      BinaryBack(op, l, r, ts);
      BinaryOperator(op);
      if LevelOf(op) > IN_LEVEL { Climb(IN_LEVEL + 1, LevelOf(op), Print(e) + ts); }
    case _ => SimpleBack(e, ts); Climb(IN_LEVEL + 1, UNARY_LEVEL, Print(e) + ts);
  }

  lemma {:induction false} Operands2(e: Expr, op: Operator, l: Expr, r: Expr, ts: seq<Token>)
    requires (e == Binary(op, l, r) || e == Assign(op, l, r)) && WellFormed(e)
    ensures Inside(l, [Op(op)] + (Paren(r) + ts)) && Inside(r, ts)
    decreases e, 1
  {
    PrintBack(l, [RPAREN] + ([Op(op)] + (Paren(r) + ts)));
    PrintBack(r, [RPAREN] + ts);
  }

  lemma {:induction false} Operands3(c: Expr, a: Expr, b: Expr, ts: seq<Token>)
    requires WellFormed(c) && WellFormed(a) && WellFormed(b)
    ensures Inside(c, [QUESTION] + (Paren(a) + ([COLON] + (Paren(b) + ts)))) && Inside(a, [COLON] + (Paren(b) + ts)) && Inside(b, ts)
    decreases Cond(c, a, b), 1
  {
    PrintBack(c, [RPAREN] + ([QUESTION] + (Paren(a) + ([COLON] + (Paren(b) + ts)))));
    PrintBack(a, [RPAREN] + ([COLON] + (Paren(b) + ts)));
    PrintBack(b, [RPAREN] + ts);
  }

  /** Everything but operators with two operands or more. */
  lemma {:induction false} SimpleBack(e: Expr, ts: seq<Token>)
    requires WellFormed(e) && Neutral(ts) && !e.In? && !e.Cond? && !e.Assign? && !e.Binary?
    ensures ParseLevel(UNARY_LEVEL, Print(e) + ts) == Back(e, ts) && !At(Print(e) + ts, LBRACKET)
    decreases e, 1
  {
    hide ParseLevel, ParseExpr, Print, Readable, Reread;
    FirstToken(e);
    match e
    case Num(_) => AtomBack(e, ts);
    case Str(_) => AtomBack(e, ts);
    case Sym(_) => AtomBack(e, ts);
    case Call(_, _) => CallBack(e, ts);
    case Index(_, _) => CallBack(e, ts);
    case Unary(op, x) => PrintBack(x, [RPAREN] + ts); UnaryBack(op, x, ts);
    case PreCrement(op, x) => PrintBack(x, [RPAREN] + ts); PreCrementBack(op, x, ts);
    case PostCrement(op, x) => PrintBack(x, [RPAREN] + ([Op(op)] + ts)); PostCrementBack(op, x, ts);
  }

  /** The printed form of e before anything that does not continue it. */
  lemma {:induction false} PrintBack(e: Expr, ts: seq<Token>)
    requires WellFormed(e) && Neutral(ts)
    ensures ParseExpr(Print(e) + ts) == Back(e, ts)
    decreases e, 2
  {
    hide ParseLevel, ParseExpr, Print, Paren, LevelOf, Readable, Reread;
    FirstToken(e);
    match e
    case In(_, _) => InBack(e, ts); Whole(IN_LEVEL, Print(e) + ts);
    case Cond(c, a, b) => Operands3(c, a, b, ts); CondBack(c, a, b, ts);
    case Assign(op, l, r) => Operands2(e, op, l, r, ts); AssignBack(op, l, r, ts);
    case Binary(op, l, r) => Operands2(e, op, l, r, ts); BinaryBack(op, l, r, ts); Whole(LevelOf(op), Print(e) + ts);
    case _ => SimpleBack(e, ts); Whole(UNARY_LEVEL, Print(e) + ts);
  }

  /** Printing and parsing again gives the same tree exactly when it has no negative literal and
      its membership tests have tightly binding indexes. */
  lemma RoundTripExactly(e: Expr)
    requires WellFormed(e)
    ensures ParseExpr(Print(e)) == Some((e, [])) <==> Readable(e) && NonNegative(e)
  {
    hide ParseExpr, Print, Readable, Reread;
    assert Print(e) + [] == Print(e);
    PrintBack(e, []);
    RereadSame(e);
  }
}
