/**
 The expression parser as it works: a cursor into the tokens, and a loop at every level that
 rebuilds the left operand.
 */
module ExprParser {
  import opened Basics
  import opened Grammar

  /** A method's result and the cursor after it are those of the grammar. */
  ghost predicate Follows<T(!new)>(spec: Parsed<T>, r: Option<T>, input: seq<Token>) {
    match spec case None => r == None case Some((e, rest)) => r == Some(e) && input == rest
  }

  class Cursor {
    var input: seq<Token>

    constructor (input: seq<Token>)
      ensures this.input == input
    {
      this.input := input;
    }

    method Next()
      requires input != []
      modifies this
      ensures input == old(input)[1..]
    {
      input := input[1..];
    }

    method Expression() returns (r: Option<Expr>)
      modifies this
      ensures Follows(ParseExpr(old(input)), r, input)
      decreases |input|, 42
    {
      hide ParseTernary;
      r := Ternary();
      if r.None? { return; }
      if AtAssign(input) {
        var op := input[0].s;
        Next();
        var right := Expression();
        if right.None? { return None; }
        r := Some(Assign(op, r.value, right.value));
      }
    }

    method Ternary() returns (r: Option<Expr>)
      modifies this
      ensures Follows(ParseTernary(old(input)), r, input)
      decreases |input|, 41
    {
      hide ParseLevel, ParseExpr;
      r := Level(0);
      if r.None? || !At(input, QUESTION) { return; }
      Next();
      var a := Expression();
      if a.None? || !At(input, COLON) { return None; }
      Next();
      var b := Expression();
      if b.None? { return None; }
      r := Some(Cond(r.value, a.value, b.value));
    }

    method Level(level: nat) returns (r: Option<Expr>)
      requires level <= UNARY_LEVEL
      modifies this
      ensures Follows(ParseLevel(level, old(input)), r, input)
      decreases |input|, 40 - 2 * level
    {
      hide ParseIn, ParseUnary, LevelOf;
      if level == UNARY_LEVEL {
        r := Prefix();
      } else if level == IN_LEVEL {
        r := Membership();
      } else {
        r := Level(level + 1);
        if r.None? { return; }
        ghost var start, first := input, r.value;
        while AtOperator(input, level)
          invariant r.Some? && |input| <= |start| < |old(input)|
          invariant ParseMore(level, r.value, input) == ParseMore(level, first, start)
          decreases |input|
        {
          var op := input[0].s;
          Next();
          var right := Level(level + 1);
          if right.None? { return None; }
          r := Some(Binary(op, r.value, right.value));
        }
      }
    }

    method Membership() returns (r: Option<Expr>)
      modifies this
      ensures Follows(ParseIn(old(input)), r, input)
      decreases |input|, 29
    {
      hide ParseLevel, ParseIndexes;
      var es := [];
      if At(input, LBRACKET) {
        Next();
        var list := BracketedIndexes();
        if list.None? { return None; }
        es := list.value;
      } else {
        var one := Level(IN_LEVEL + 1);
        if one.None? { return None; }
        es := [one.value];
      }
      if At(input, IN) {
        if |input| > 1 && input[1].Ident? {
          r := Some(In(es, input[1].name));
          input := input[2..];
        } else {
          r := None;
        }
      } else {
        r := if |es| == 1 then Some(es[0]) else None;
      }
    }

    /** Comparisons separated by commas, up to the closing bracket. */
    method BracketedIndexes() returns (r: Option<seq<Expr>>)
      modifies this
      ensures Follows(ParseIndexes(old(input)), r, input)
      decreases |input|, 29
    {
      hide ParseLevel;
      var es: seq<Expr> := [];
      assert forall more: seq<Expr> :: es + more == more;
      while true
        invariant |input| <= |old(input)|
        invariant ParseIndexes(old(input)) ==
          match ParseIndexes(input) case None => None case Some((more, rest)) => Some((es + more, rest))
        decreases |input|
      {
        var e := Level(IN_LEVEL + 1);
        if e.None? { return None; }
        ghost var before := es;
        es := es + [e.value];
        if At(input, COMMA) {
          Next();
          Regroup(before, e.value);
        } else if At(input, RBRACKET) {
          Next();
          return Some(es);
        } else {
          return None;
        }
      }
    }

    method Prefix() returns (r: Option<Expr>)
      modifies this
      ensures Follows(ParseUnary(old(input)), r, input)
      decreases |input|, 6
    {
      hide ParseCrement, IsUnary;
      if AtUnary(input) {
        var op := input[0].s;
        Next();
        var x := Prefix();
        if x.None? { return None; }
        r := Some(Unary(op, x.value));
      } else {
        r := Crement();
      }
    }

    method Crement() returns (r: Option<Expr>)
      modifies this
      ensures Follows(ParseCrement(old(input)), r, input)
      decreases |input|, 5
    {
      hide ParseValue, IsCrement;
      if AtCrement(input) {
        var op := input[0].s;
        Next();
        r := Value();
        if r.Some? { r := Some(PreCrement(op, r.value)); }
        return;
      }
      r := Value();
      if r.Some? && AtCrement(input) {
        r := Some(PostCrement(input[0].s, r.value));
        Next();
      }
    }

    method Value() returns (r: Option<Expr>)
      modifies this
      ensures Follows(ParseValue(old(input)), r, input)
      decreases |input|, 4
    {
      hide ParseExpr, ParseSymbol;
      if At(input, LPAREN) {
        Next();
        r := Expression();
        if r.None? || !At(input, RPAREN) { return None; }
        Next();
      } else if input != [] && input[0].Ident? {
        r := Symbol();
      } else {
        r := Literal();
      }
    }

    method Symbol() returns (r: Option<Expr>)
      requires input != [] && input[0].Ident?
      modifies this
      ensures Follows(ParseSymbol(old(input)), r, input)
      decreases |input|, 3
    {
      hide ParseList;
      var name := input[0].name;
      Next();
      if At(input, LPAREN) {
        Next();
        if At(input, RPAREN) {
          Next();
          return Some(Call(name, []));
        }
        var es := List(RPAREN);
        return if es.None? then None else Some(Call(name, es.value));
      }
      if At(input, LBRACKET) {
        Next();
        var es := List(RBRACKET);
        return if es.None? then None else Some(Index(name, es.value));
      }
      return Some(Sym(name));
    }

    method List(close: Token) returns (r: Option<seq<Expr>>)
      modifies this
      ensures Follows(ParseList(old(input), close), r, input)
      decreases |input|, 43
    {
      hide ParseExpr;
      var es: seq<Expr> := [];
      assert forall more: seq<Expr> :: es + more == more;
      while true
        invariant |input| <= |old(input)|
        invariant ParseList(old(input), close) ==
          match ParseList(input, close) case None => None case Some((more, rest)) => Some((es + more, rest))
        decreases |input|
      {
        var e := Expression();
        if e.None? { return None; }
        ghost var before := es;
        es := es + [e.value];
        if At(input, close) {
          Next();
          return Some(es);
        } else if At(input, COMMA) {
          Next();
          Regroup(before, e.value);
        } else {
          return None;
        }
      }
    }

    method Literal() returns (r: Option<Expr>)
      modifies this
      ensures Follows(ParseLiteral(old(input)), r, input)
    {
      if input == [] { return None; }
      if input[0].Text? {
        r := Some(Str(input[0].text));
        Next();
        return;
      }
      var neg := At(input, Op(Minus));
      if neg { Next(); }
      if input != [] && input[0].Number? {
        r := Some(Num(if neg then 0 - input[0].n else input[0].n));
        Next();
      } else {
        r := None;
      }
    }
  }

  lemma Regroup(es: seq<Expr>, e: Expr)
    ensures forall more: seq<Expr> :: es + ([e] + more) == (es + [e]) + more
  {
    forall more: seq<Expr> ensures es + ([e] + more) == (es + [e]) + more {
    }
  }
}
