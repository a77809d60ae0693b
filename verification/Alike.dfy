/**
 Which functions count as duplicates: those that are the same tree, with the same names, types and
 operators all through, whoever owns their locals.
 */
module Alike {
  import opened Basics
  import opened Syntax
  import opened Merge

  predicate AlikeVar(a: Var, b: Var) {
    a.name == b.name && a.init == b.init && a.Local? == b.Local?
  }

  predicate AlikeExpr(a: Expr, b: Expr)
    decreases a, 1
  {
    match a
    case Lit(val) => b == Lit(val)
    case Sym(v) => b.Sym? && AlikeVar(v, b.v)
    case Bin(op, l, r) => b.Bin? && b.op == op && AlikeExpr(l, b.l) && AlikeExpr(r, b.r)
    case Logic(isOr, l, r) => b.Logic? && b.isOr == isOr && AlikeExpr(l, b.l) && AlikeExpr(r, b.r)
    case Un(op, x) => b.Un? && b.uop == op && AlikeExpr(x, b.e)
    case Cond(c, l, r) => b.Cond? && AlikeExpr(c, b.c) && AlikeExpr(l, b.l) && AlikeExpr(r, b.r)
    case Assign(v, how, x) => b.Assign? && AlikeVar(v, b.v) && b.how == how && AlikeExpr(x, b.e)
    case Crement(v, up, post) => b.Crement? && AlikeVar(v, b.v) && b.up == up && b.post == post
    case Call(f, args) => b.Call? && b.f == f && AlikeArgs(args, b.args)
    case Print(stream, args) => b.Print? && b.stream == stream && AlikeArgs(args, b.args)
  }

  predicate AlikeArgs(a: seq<Expr>, b: seq<Expr>)
    decreases a, 0
  {
    |a| == |b| && (a == [] || (AlikeExpr(a[0], b[0]) && AlikeArgs(a[1..], b[1..])))
  }

  predicate AlikeOpt(a: Option<Expr>, b: Option<Expr>) { a.Some? == b.Some? && (a.Some? ==> AlikeExpr(a.value, b.value)) }

  predicate AlikeStmt(a: Stmt, b: Stmt)
    decreases a, 1
  {
    match a
    case Do(e) => b.Do? && AlikeExpr(e, b.e)
    case Return(e) => b.Return? && AlikeExpr(e, b.e)
    case Block(body) => b.Block? && AlikeSeq(body, b.body)
    case If(c, thn, els) =>
      && b.If? && AlikeExpr(c, b.c) && AlikeStmt(thn, b.thn)
      && els.Some? == b.els.Some? && (els.Some? ==> AlikeStmt(els.value, b.els.value))
    case For(init, c, incr, loop) =>
      b.For? && AlikeOpt(init, b.init) && AlikeExpr(c, b.c) && AlikeOpt(incr, b.incr) && AlikeStmt(loop, b.loop)
    case _ => a == b
  }

  predicate AlikeSeq(a: seq<Stmt>, b: seq<Stmt>)
    decreases a, 0
  {
    |a| == |b| && (a == [] || (AlikeStmt(a[0], b[0]) && AlikeSeq(a[1..], b[1..])))
  }

  predicate AlikeFunc(a: Func, b: Func) {
    && |a.formals| == |b.formals| && (forall i | 0 <= i < |a.formals| :: AlikeVar(a.formals[i], b.formals[i]))
    && a.init == b.init && AlikeStmt(a.body, b.body)
  }

  lemma VarExact(a: Var, b: Var)
    ensures OwnVar("", a) == OwnVar("", b) <==> AlikeVar(a, b)
  {
  }

  lemma {:induction false} ExprExact(a: Expr, b: Expr)
    ensures OwnExpr("", a) == OwnExpr("", b) <==> AlikeExpr(a, b)
    decreases a, 1
  {
    hide OwnVar, AlikeVar;
    match a
    case Lit(_) =>
    case Sym(v) => if b.Sym? { VarExact(v, b.v); }
    case Bin(_, l, r) => if b.Bin? { ExprExact(l, b.l); ExprExact(r, b.r); }
    case Logic(_, l, r) => if b.Logic? { ExprExact(l, b.l); ExprExact(r, b.r); }
    case Un(_, x) => if b.Un? { ExprExact(x, b.e); }
    case Cond(c, l, r) => if b.Cond? { ExprExact(c, b.c); ExprExact(l, b.l); ExprExact(r, b.r); }
    case Assign(v, _, x) => if b.Assign? { VarExact(v, b.v); ExprExact(x, b.e); }
    case Crement(v, _, _) => if b.Crement? { VarExact(v, b.v); }
    case Call(_, args) => if b.Call? { ArgsExact(args, b.args); }
    case Print(_, args) => if b.Print? { ArgsExact(args, b.args); }
  }

  lemma {:induction false} ArgsExact(a: seq<Expr>, b: seq<Expr>)
    ensures OwnArgs("", a) == OwnArgs("", b) <==> AlikeArgs(a, b)
    decreases a, 0
  {
    hide OwnExpr, AlikeExpr;
    if |a| == |b| && a != [] {
      ExprExact(a[0], b[0]);
      ArgsExact(a[1..], b[1..]);
      SameCons(OwnExpr("", a[0]), OwnArgs("", a[1..]), OwnExpr("", b[0]), OwnArgs("", b[1..]));
    }
  }

  lemma SameCons<T>(x: T, xs: seq<T>, y: T, ys: seq<T>)
    ensures [x] + xs == [y] + ys <==> x == y && xs == ys
  {
    assert ([x] + xs)[0] == x && ([x] + xs)[1..] == xs;
    assert ([y] + ys)[0] == y && ([y] + ys)[1..] == ys;
  }

  lemma OptExact(a: Option<Expr>, b: Option<Expr>)
    ensures OwnOpt("", a) == OwnOpt("", b) <==> AlikeOpt(a, b)
  {
    hide OwnExpr, AlikeExpr;
    if a.Some? && b.Some? { ExprExact(a.value, b.value); }
  }

  lemma {:induction false} StmtExact(a: Stmt, b: Stmt)
    ensures OwnStmt("", a) == OwnStmt("", b) <==> AlikeStmt(a, b)
    decreases a, 1
  {
    hide OwnExpr, AlikeExpr, OwnOpt, AlikeOpt;
    match a
    case Do(e) => if b.Do? { ExprExact(e, b.e); }
    case Return(e) => if b.Return? { ExprExact(e, b.e); }
    case Block(body) => if b.Block? { SeqExact(body, b.body); }
    case If(c, thn, els) =>
      if b.If? {
        ExprExact(c, b.c);
        StmtExact(thn, b.thn);
        if els.Some? && b.els.Some? { StmtExact(els.value, b.els.value); }
      }
    case For(init, c, incr, loop) =>
      if b.For? {
        OptExact(init, b.init);
        ExprExact(c, b.c);
        OptExact(incr, b.incr);
        StmtExact(loop, b.loop);
      }
    case _ =>
  }

  lemma {:induction false} SeqExact(a: seq<Stmt>, b: seq<Stmt>)
    ensures OwnSeq("", a) == OwnSeq("", b) <==> AlikeSeq(a, b)
    decreases a, 0
  {
    hide OwnStmt, AlikeStmt;
    if |a| == |b| && a != [] {
      StmtExact(a[0], b[0]);
      SeqExact(a[1..], b[1..]);
      SameCons(OwnStmt("", a[0]), OwnSeq("", a[1..]), OwnStmt("", b[0]), OwnSeq("", b[1..]));
    }
  }

  lemma FuncExact(a: Func, b: Func)
    ensures SigOf(a) == SigOf(b) <==> AlikeFunc(a, b)
  {
    hide OwnVar, AlikeVar, OwnStmt, AlikeStmt;
    StmtExact(a.body, b.body);
    FormalsExact(a.formals, b.formals);
  }

  lemma FormalsExact(a: seq<Var>, b: seq<Var>)
    ensures OwnVars("", a) == OwnVars("", b) <==> |a| == |b| && forall i | 0 <= i < |a| :: AlikeVar(a[i], b[i])
  {
    hide OwnVar, AlikeVar;
    if |a| == |b| {
      forall i | 0 <= i < |a| ensures OwnVar("", a[i]) == OwnVar("", b[i]) <==> AlikeVar(a[i], b[i]) { VarExact(a[i], b[i]); }
      if OwnVars("", a) == OwnVars("", b) {
        forall i | 0 <= i < |a| ensures AlikeVar(a[i], b[i]) { assert OwnVars("", a)[i] == OwnVars("", b)[i]; }
      }
    } else {
      assert |OwnVars("", a)| != |OwnVars("", b)|;
    }
  }

  /** Two functions get the same representative exactly if they are alike; it is the first, in the
      order of the walk, that is alike. */
  lemma AlikeMerged(p: Program, f: string, g: string)
    requires Enumerated(p) && f in p.funcs && g in p.funcs
    ensures Representative(p, f) == Representative(p, g) <==> AlikeFunc(p.funcs[f], p.funcs[g])
    ensures Representative(p, f) in p.funcs && AlikeFunc(p.funcs[f], p.funcs[Representative(p, f)])
  {
    hide SigOf, AlikeFunc;
    FuncExact(p.funcs[f], p.funcs[g]);
    FirstFound(p.funcs, p.order, SigOf(p.funcs[f]));
    FirstFound(p.funcs, p.order, SigOf(p.funcs[g]));
    FuncExact(p.funcs[f], p.funcs[Representative(p, f)]);
  }

  /** None of those alike comes before it. */
  lemma {:induction false} FirstAlike(fs: map<string, Func>, order: seq<string>, f: string, i: nat)
    requires f in fs && i < |order| && order[i] in fs && AlikeFunc(fs[f], fs[order[i]])
    requires forall j | 0 <= j < i && order[j] in fs :: !AlikeFunc(fs[f], fs[order[j]])
    ensures First(fs, order, SigOf(fs[f])) == Some(order[i])
    decreases i
  {
    hide SigOf, AlikeFunc;
    if i == 0 {
      FuncExact(fs[f], fs[order[0]]);
    } else {
      if order[0] in fs { FuncExact(fs[f], fs[order[0]]); }
      FirstAlike(fs, order[1..], f, i - 1);
    }
  }
}
