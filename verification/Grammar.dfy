/**
 Expressions of the script language: how they are printed and how they are parsed, both on
 tokens.
 */
module Grammar {
  import opened Basics

  /** Operators and punctuation, named after their spelling. */
  datatype Operator =
    | OrOr | AndAnd | BitOr | BitXor | BitAnd
    | Gt | Lt | EqEq | NotEq | LtEq | GtEq
    | Shl | Shr | Dot | Plus | Minus | Star | Slash | Percent
    | Bang | Tilde | PlusPlus | MinusMinus
    | Becomes | Aggregate | PlusEq | MinusEq | StarEq | SlashEq | PercentEq | ShlEq | ShrEq | AndEq | XorEq | OrEq | DotEq
    | LParen | RParen | LBracket | RBracket | Comma | Question | Colon

  datatype Token = Op(s: Operator) | Ident(name: string) | InKeyword | Number(n: nat) | Text(text: string)

  datatype Expr =
    | Num(n: int)
    | Str(s: string)
    | Sym(name: string)
    | Call(f: string, es: seq<Expr>)
    | Index(name: string, es: seq<Expr>)
    | In(es: seq<Expr>, name: string)
    | Unary(op: Operator, x: Expr)
    | PreCrement(op: Operator, x: Expr)
    | PostCrement(op: Operator, x: Expr)
    | Binary(op: Operator, l: Expr, r: Expr)
    | Cond(c: Expr, a: Expr, b: Expr)
    | Assign(op: Operator, l: Expr, r: Expr)

  // ----- operators -----

  /** The levels of left-associative operators, loosest first.  Level 5 is that of `in`. */
  const IN_LEVEL: nat := 5
  const UNARY_LEVEL: nat := 11

  function LevelOf(op: Operator): nat {
    match op
    case OrOr => 0
    case AndAnd => 1
    case BitOr => 2
    case BitXor => 3
    case BitAnd => 4
    case Gt | Lt | EqEq | NotEq | LtEq | GtEq => 6
    case Shl | Shr => 7
    case Dot => 8
    case Plus | Minus => 9
    case Star | Slash | Percent => 10
    case _ => UNARY_LEVEL
  }

  predicate IsAssign(op: Operator) {
    match op
    case Becomes | Aggregate | PlusEq | MinusEq | StarEq | SlashEq | PercentEq | ShlEq | ShrEq => true
    case AndEq | XorEq | OrEq | DotEq => true
    case _ => false
  }

  predicate IsUnary(op: Operator) { op == Plus || op == Minus || op == Bang || op == Tilde }

  predicate IsCrement(op: Operator) { op == PlusPlus || op == MinusMinus }

  const LPAREN := Op(LParen)
  const RPAREN := Op(RParen)
  const LBRACKET := Op(LBracket)
  const RBRACKET := Op(RBracket)
  const COMMA := Op(Comma)
  const QUESTION := Op(Question)
  const COLON := Op(Colon)
  const IN := InKeyword

  // ----- well-formed trees -----

  predicate WellFormed(e: Expr)
    decreases e, 1
  {
    match e
    case Num(_) => true
    case Str(_) => true
    case Sym(_) => true
    case Call(_, es) => AllWellFormed(es)
    case Index(_, es) => es != [] && AllWellFormed(es)
    case In(es, _) => es != [] && AllWellFormed(es)
    case Unary(op, x) => IsUnary(op) && WellFormed(x)
    case PreCrement(op, x) => IsCrement(op) && WellFormed(x)
    case PostCrement(op, x) => IsCrement(op) && WellFormed(x)
    case Binary(op, l, r) => LevelOf(op) < UNARY_LEVEL && WellFormed(l) && WellFormed(r)
    case Cond(c, a, b) => WellFormed(c) && WellFormed(a) && WellFormed(b)
    case Assign(op, l, r) => IsAssign(op) && WellFormed(l) && WellFormed(r)
  }

  predicate AllWellFormed(es: seq<Expr>)
    decreases es, 0
  {
    es == [] || (WellFormed(es[0]) && AllWellFormed(es[1..]))
  }

  // ----- printing -----

  function Paren(e: Expr): seq<Token>
    decreases e, 2
  {
    [LPAREN] + (Print(e) + [RPAREN])
  }

  function Print(e: Expr): seq<Token>
    decreases e, 1
  {
    match e
    case Num(n) => if n >= 0 then [Number(n)] else [Op(Minus), Number(-n)]
    case Str(s) => [Text(s)]
    case Sym(name) => [Ident(name)]
    case Call(f, es) => [Ident(f), LPAREN] + (PrintList(es) + [RPAREN])
    case Index(name, es) => [Ident(name), LBRACKET] + (PrintList(es) + [RBRACKET])
    case In(es, name) => [LBRACKET] + (PrintList(es) + [RBRACKET, IN, Ident(name)])
    case Unary(op, x) => [Op(op)] + Paren(x)
    case PreCrement(op, x) => [Op(op)] + Paren(x)
    case PostCrement(op, x) => Paren(x) + [Op(op)]
    case Binary(op, l, r) => Paren(l) + ([Op(op)] + Paren(r))
    case Cond(c, a, b) => Paren(c) + ([QUESTION] + (Paren(a) + ([COLON] + Paren(b))))
    case Assign(op, l, r) => Paren(l) + ([Op(op)] + Paren(r))
  }

  /** Separated by commas. */
  function PrintList(es: seq<Expr>): seq<Token>
    decreases es, 0
  {
    if es == [] then []
    else if |es| == 1 then Print(es[0])
    else Print(es[0]) + ([COMMA] + PrintList(es[1..]))
  }

  // ----- parsing -----

  /** A parsed thing and the tokens after it; None is a parse error. */
  type Parsed<T> = Option<(T, seq<Token>)>

  predicate Shorter<T>(r: Parsed<T>, ts: seq<Token>) { r.Some? ==> |r.value.1| < |ts| }

  predicate At(ts: seq<Token>, t: Token) { ts != [] && ts[0] == t }

  predicate AtOperator(ts: seq<Token>, level: nat) { ts != [] && ts[0].Op? && LevelOf(ts[0].s) == level < UNARY_LEVEL }

  predicate AtCrement(ts: seq<Token>) { ts != [] && ts[0].Op? && IsCrement(ts[0].s) }

  predicate AtAssign(ts: seq<Token>) { ts != [] && ts[0].Op? && IsAssign(ts[0].s) }

  predicate AtUnary(ts: seq<Token>) { ts != [] && ts[0].Op? && IsUnary(ts[0].s) }

  /** A full expression: assignments are right-associative. */
  function ParseExpr(ts: seq<Token>): (r: Parsed<Expr>)
    ensures Shorter(r, ts)
    decreases |ts|, 42
  {
    match ParseTernary(ts)
    case None => None
    case Some((l, rest)) =>
      if AtAssign(rest) then
        match ParseExpr(rest[1..]) case None => None case Some((r, rest')) => Some((Assign(rest[0].s, l, r), rest'))
      else Some((l, rest))
  }

  function ParseTernary(ts: seq<Token>): (r: Parsed<Expr>)
    ensures Shorter(r, ts)
    decreases |ts|, 41
  {
    match ParseLevel(0, ts)
    case None => None
    case Some((c, rest)) =>
      if !At(rest, QUESTION) then Some((c, rest))
      else match ParseExpr(rest[1..])
        case None => None
        case Some((a, rest1)) =>
          if !At(rest1, COLON) then None
          else match ParseExpr(rest1[1..]) case None => None case Some((b, rest2)) => Some((Cond(c, a, b), rest2))
  }

  /** The operators of one level and all tighter ones. */
  function ParseLevel(level: nat, ts: seq<Token>): (r: Parsed<Expr>)
    requires level <= UNARY_LEVEL
    ensures Shorter(r, ts)
    decreases |ts|, 40 - 2 * level
  {
    if level == UNARY_LEVEL then ParseUnary(ts)
    else if level == IN_LEVEL then ParseIn(ts)
    else match ParseLevel(level + 1, ts)
      case None => None
      case Some((l, rest)) => ParseMore(level, l, rest)
  }

  /** The rest of a chain of operators of one level. */
  function ParseMore(level: nat, l: Expr, ts: seq<Token>): (r: Parsed<Expr>)
    requires level < UNARY_LEVEL && level != IN_LEVEL
    ensures r.Some? ==> |r.value.1| <= |ts|
    decreases |ts|, 0
  {
    if !AtOperator(ts, level) then Some((l, ts))
    else match ParseLevel(level + 1, ts[1..])
      case None => None
      case Some((r, rest)) => ParseMore(level, Binary(ts[0].s, l, r), rest)
  }

  /** An optional membership test: one comparison, or several in brackets, in an array. */
  function ParseIn(ts: seq<Token>): (r: Parsed<Expr>)
    ensures Shorter(r, ts)
    decreases |ts|, 29
  {
    var bracketed := At(ts, LBRACKET);
    var indexes := if bracketed then ParseIndexes(ts[1..]) else
      match ParseLevel(IN_LEVEL + 1, ts) case None => None case Some((e, rest)) => Some(([e], rest));
    match indexes
    case None => None
    case Some((es, rest)) =>
      if At(rest, IN) then
        if |rest| > 1 && rest[1].Ident? then Some((In(es, rest[1].name), rest[2..])) else None
      else if |es| == 1 then Some((es[0], rest))
      else None
  }

  function ParseIndexes(ts: seq<Token>): (r: Parsed<seq<Expr>>)
    ensures Shorter(r, ts)
    decreases |ts|, 29
  {
    match ParseLevel(IN_LEVEL + 1, ts)
    case None => None
    case Some((e, rest)) =>
      if At(rest, COMMA) then
        match ParseIndexes(rest[1..]) case None => None case Some((es, rest')) => Some(([e] + es, rest'))
      else if At(rest, RBRACKET) then Some(([e], rest[1..]))
      else None
  }

  function ParseUnary(ts: seq<Token>): (r: Parsed<Expr>)
    ensures Shorter(r, ts)
    decreases |ts|, 6
  {
    if AtUnary(ts) then
      match ParseUnary(ts[1..]) case None => None case Some((x, rest)) => Some((Unary(ts[0].s, x), rest))
    else ParseCrement(ts)
  }

  function ParseCrement(ts: seq<Token>): (r: Parsed<Expr>)
    ensures Shorter(r, ts)
    decreases |ts|, 5
  {
    if AtCrement(ts) then
      match ParseValue(ts[1..]) case None => None case Some((x, rest)) => Some((PreCrement(ts[0].s, x), rest))
    else match ParseValue(ts)
      case None => None
      case Some((x, rest)) => if AtCrement(rest) then Some((PostCrement(rest[0].s, x), rest[1..])) else Some((x, rest))
  }

  function ParseValue(ts: seq<Token>): (r: Parsed<Expr>)
    ensures Shorter(r, ts)
    decreases |ts|, 4
  {
    if At(ts, LPAREN) then
      match ParseExpr(ts[1..])
      case None => None
      case Some((e, rest)) => if At(rest, RPAREN) then Some((e, rest[1..])) else None
    else if ts != [] && ts[0].Ident? then ParseSymbol(ts)
    else ParseLiteral(ts)
  }

  /** A call, an array element or a variable. */
  function ParseSymbol(ts: seq<Token>): (r: Parsed<Expr>)
    requires ts != [] && ts[0].Ident?
    ensures Shorter(r, ts)
    decreases |ts|, 3
  {
    var name, rest := ts[0].name, ts[1..];
    if At(rest, LPAREN) then
      if At(rest[1..], RPAREN) then Some((Call(name, []), rest[2..]))
      else match ParseList(rest[1..], RPAREN) case None => None case Some((es, rest')) => Some((Call(name, es), rest'))
    else if At(rest, LBRACKET) then
      match ParseList(rest[1..], RBRACKET) case None => None case Some((es, rest')) => Some((Index(name, es), rest'))
    else Some((Sym(name), rest))
  }

  /** Expressions separated by commas, up to a closing token. */
  function ParseList(ts: seq<Token>, close: Token): (r: Parsed<seq<Expr>>)
    ensures Shorter(r, ts)
    decreases |ts|, 43
  {
    match ParseExpr(ts)
    case None => None
    case Some((e, rest)) =>
      if At(rest, close) then Some(([e], rest[1..]))
      else if At(rest, COMMA) then
        match ParseList(rest[1..], close) case None => None case Some((es, rest')) => Some(([e] + es, rest'))
      else None
  }

  function ParseLiteral(ts: seq<Token>): (r: Parsed<Expr>)
    ensures Shorter(r, ts)
  {
    if ts == [] then None
    else if ts[0].Text? then Some((Str(ts[0].text), ts[1..]))
    else if ts[0].Number? then Some((Num(ts[0].n), ts[1..]))
    else if At(ts, Op(Minus)) && |ts| > 1 && ts[1].Number? then Some((Num(0 - ts[1].n), ts[2..]))
    else None
  }
}
