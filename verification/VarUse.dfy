/**
 The variable-use analysis that drives the optimizer: which variables a piece of code
 reads and writes, directly or through the functions it calls, each function body being
 visited once however often and however recursively it is called.
 */
module VarUse {
  import opened Basics
  import opened Syntax

  /** What the collecting visitor has gathered: the functions already entered, the
      variables read and written, and whether anything was printed. */
  datatype Use = Use(seen: set<string>, read: set<Var>, written: set<Var>, effect: bool) {
    predicate Within(that: Use) {
      && seen <= that.seen
      && read <= that.read
      && written <= that.written
      && (effect ==> that.effect)
    }
  }

  const NO_USE := Use({}, {}, {}, false)

  predicate SideEffectFree(u: Use) { u.written == {} && !u.effect }

  predicate SideEffectFreeWrt(u: Use, vars: set<Var>) { u.written !! vars && !u.effect }

  // ----- the traversal -----

  function UseExpr(fs: map<string, Func>, u: Use, e: Expr): (r: Use)
    ensures u.Within(r)
    decreases fs.Keys - u.seen, e, 1
  {
    match e
    case Lit(_) => u
    case Sym(v) => u.(read := u.read + {v})
    case Bin(_, l, r) => UseExpr(fs, UseExpr(fs, u, l), r)
    case Logic(_, l, r) => UseExpr(fs, UseExpr(fs, u, l), r)
    case Un(_, x) => UseExpr(fs, u, x)
    case Cond(c, l, r) => UseExpr(fs, UseExpr(fs, UseExpr(fs, u, c), l), r)
    case Assign(v, how, x) =>
      var read := if how == Set then u.read else u.read + {v};
      UseExpr(fs, u.(read := read, written := u.written + {v}), x)
    case Crement(v, _, _) => u.(written := u.written + {v})
    case Call(f, args) =>
      var u1 := UseArgs(fs, u, args);
      if f in u1.seen then u1
      else if f !in fs then u1.(seen := u1.seen + {f})
      else UseStmt(fs, u1.(seen := u1.seen + {f}), fs[f].body)
    case Print(stream, args) => UseArgs(fs, u.(effect := u.effect || stream), args)
  }

  function UseArgs(fs: map<string, Func>, u: Use, args: seq<Expr>): (r: Use)
    ensures u.Within(r)
    decreases fs.Keys - u.seen, args, 0
  {
    if args == [] then u else UseArgs(fs, UseExpr(fs, u, args[0]), args[1..])
  }

  function UseOpt(fs: map<string, Func>, u: Use, e: Option<Expr>): (r: Use)
    ensures u.Within(r)
    decreases fs.Keys - u.seen, e, 2
  {
    match e case None => u case Some(x) => UseExpr(fs, u, x)
  }

  function UseStmt(fs: map<string, Func>, u: Use, s: Stmt): (r: Use)
    ensures u.Within(r)
    decreases fs.Keys - u.seen, s, 1
  {
    match s
    case Do(e) => UseExpr(fs, u, e)
    case Return(e) => UseExpr(fs, u, e)
    case Block(body) => UseSeq(fs, u, body)
    case If(c, thn, els) =>
      var u1 := UseStmt(fs, UseExpr(fs, u, c), thn);
      if els.Some? then UseStmt(fs, u1, els.value) else u1
    case For(init, c, incr, loop) =>
      UseStmt(fs, UseOpt(fs, UseExpr(fs, UseOpt(fs, u, init), c), incr), loop)
    case _ => u
  }

  function UseSeq(fs: map<string, Func>, u: Use, ss: seq<Stmt>): (r: Use)
    ensures u.Within(r)
    decreases fs.Keys - u.seen, ss, 0
  {
    if ss == [] then u else UseSeq(fs, UseStmt(fs, u, ss[0]), ss[1..])
  }

  // ----- what it means for the gathered sets to account for a piece of code -----

  ghost predicate CoversExpr(u: Use, e: Expr)
    decreases e, 1
  {
    match e
    case Lit(_) => true
    case Sym(v) => v in u.read
    case Bin(_, l, r) => CoversExpr(u, l) && CoversExpr(u, r)
    case Logic(_, l, r) => CoversExpr(u, l) && CoversExpr(u, r)
    case Un(_, x) => CoversExpr(u, x)
    case Cond(c, l, r) => CoversExpr(u, c) && CoversExpr(u, l) && CoversExpr(u, r)
    case Assign(v, how, x) => v in u.written && (how != Set ==> v in u.read) && CoversExpr(u, x)
    case Crement(v, _, _) => v in u.written
    case Call(f, args) => f in u.seen && CoversArgs(u, args)
    case Print(stream, args) => (stream ==> u.effect) && CoversArgs(u, args)
  }

  ghost predicate CoversArgs(u: Use, args: seq<Expr>)
    decreases args, 0
  {
    args == [] || (CoversExpr(u, args[0]) && CoversArgs(u, args[1..]))
  }

  ghost predicate CoversOpt(u: Use, e: Option<Expr>) { e.Some? ==> CoversExpr(u, e.value) }

  ghost predicate CoversStmt(u: Use, s: Stmt)
    decreases s, 1
  {
    match s
    case Do(e) => CoversExpr(u, e)
    case Return(e) => CoversExpr(u, e)
    case Block(body) => CoversSeq(u, body)
    case If(c, thn, els) => CoversExpr(u, c) && CoversStmt(u, thn) && (els.Some? ==> CoversStmt(u, els.value))
    case For(init, c, incr, loop) => CoversOpt(u, init) && CoversExpr(u, c) && CoversOpt(u, incr) && CoversStmt(u, loop)
    case _ => true
  }

  ghost predicate CoversSeq(u: Use, ss: seq<Stmt>)
    decreases ss, 0
  {
    ss == [] || (CoversStmt(u, ss[0]) && CoversSeq(u, ss[1..]))
  }

  /** The gathered sets account for every function entered since `before`. */
  ghost predicate CoversEntered(fs: map<string, Func>, before: Use, u: Use) {
    forall f | f in u.seen && f !in before.seen && f in fs :: CoversStmt(u, fs[f].body)
  }

  /** The gathered sets account for every function entered. */
  ghost predicate Closed(fs: map<string, Func>, u: Use) {
    forall f | f in u.seen && f in fs :: CoversStmt(u, fs[f].body)
  }

  // ----- larger sets account for as much -----

  lemma {:induction false} CoversExprMono(u: Use, u': Use, e: Expr)
    requires u.Within(u') && CoversExpr(u, e)
    ensures CoversExpr(u', e)
    decreases e, 1
  {
    match e
    case Bin(_, l, r) => CoversExprMono(u, u', l); CoversExprMono(u, u', r);
    case Logic(_, l, r) => CoversExprMono(u, u', l); CoversExprMono(u, u', r);
    case Un(_, x) => CoversExprMono(u, u', x);
    case Cond(c, l, r) => CoversExprMono(u, u', c); CoversExprMono(u, u', l); CoversExprMono(u, u', r);
    case Assign(_, _, x) => CoversExprMono(u, u', x);
    case Call(_, args) => CoversArgsMono(u, u', args);
    case Print(_, args) => CoversArgsMono(u, u', args);
    case _ =>
  }

  lemma {:induction false} CoversArgsMono(u: Use, u': Use, args: seq<Expr>)
    requires u.Within(u') && CoversArgs(u, args)
    ensures CoversArgs(u', args)
    decreases args, 0
  {
    if args != [] { CoversExprMono(u, u', args[0]); CoversArgsMono(u, u', args[1..]); }
  }

  lemma {:induction false} CoversStmtMono(u: Use, u': Use, s: Stmt)
    requires u.Within(u') && CoversStmt(u, s)
    ensures CoversStmt(u', s)
    decreases s, 1
  {
    match s
    case Do(e) => CoversExprMono(u, u', e);
    case Return(e) => CoversExprMono(u, u', e);
    case Block(body) => CoversSeqMono(u, u', body);
    case If(c, thn, els) =>
      CoversExprMono(u, u', c);
      CoversStmtMono(u, u', thn);
      if els.Some? { CoversStmtMono(u, u', els.value); }
    case For(init, c, incr, loop) =>
      if init.Some? { CoversExprMono(u, u', init.value); }
      CoversExprMono(u, u', c);
      if incr.Some? { CoversExprMono(u, u', incr.value); }
      CoversStmtMono(u, u', loop);
    case _ =>
  }

  lemma {:induction false} CoversSeqMono(u: Use, u': Use, ss: seq<Stmt>)
    requires u.Within(u') && CoversSeq(u, ss)
    ensures CoversSeq(u', ss)
    decreases ss, 0
  {
    if ss != [] { CoversStmtMono(u, u', ss[0]); CoversSeqMono(u, u', ss[1..]); }
  }

  /** What was accounted for stays accounted for as the traversal goes on. */
  lemma EnteredTrans(fs: map<string, Func>, u0: Use, u1: Use, u2: Use)
    requires u0.Within(u1) && u1.Within(u2)
    requires CoversEntered(fs, u0, u1) && CoversEntered(fs, u1, u2)
    ensures CoversEntered(fs, u0, u2)
  {
    forall f | f in u2.seen && f !in u0.seen && f in fs
      ensures CoversStmt(u2, fs[f].body)
    {
      if f in u1.seen { CoversStmtMono(u1, u2, fs[f].body); }
    }
  }

  // ----- the traversal accounts for everything it can reach -----

  lemma {:induction false} UseExprCovers(fs: map<string, Func>, u: Use, e: Expr)
    ensures CoversExpr(UseExpr(fs, u, e), e)
    ensures CoversEntered(fs, u, UseExpr(fs, u, e))
    decreases fs.Keys - u.seen, e, 1
  {
    var r := UseExpr(fs, u, e);
    match e
    case Lit(_) =>
    case Sym(_) =>
    case Crement(_, _, _) =>
    case Un(_, x) => UseExprCovers(fs, u, x);
    case Bin(_, l, r) => UseTwoCovers(fs, u, e, l, r);
    case Logic(_, l, r) => UseTwoCovers(fs, u, e, l, r);
    case Cond(c, l, x) =>
      UseTwoCovers(fs, u, e, c, l);
      var u2 := UseExpr(fs, UseExpr(fs, u, c), l);
      UseExprCovers(fs, u2, x);
      CoversExprMono(u2, r, c);
      CoversExprMono(u2, r, l);
      EnteredTrans(fs, u, u2, r);
    case Assign(v, how, x) =>
      var read := if how == Set then u.read else u.read + {v};
      UseExprCovers(fs, u.(read := read, written := u.written + {v}), x);
    case Call(f, args) => UseCallCovers(fs, u, f, args);
    case Print(stream, args) => UseArgsCovers(fs, u.(effect := u.effect || stream), args);
  }

  lemma {:induction false} UseTwoCovers(fs: map<string, Func>, u: Use, parent: Expr, l: Expr, r: Expr)
    requires l < parent && r < parent
    ensures var u2 := UseExpr(fs, UseExpr(fs, u, l), r);
            CoversExpr(u2, l) && CoversExpr(u2, r) && CoversEntered(fs, u, u2)
    decreases fs.Keys - u.seen, parent, 0
  {
    var u1 := UseExpr(fs, u, l);
    var u2 := UseExpr(fs, u1, r);
    UseExprCovers(fs, u, l);
    UseExprCovers(fs, u1, r);
    CoversExprMono(u1, u2, l);
    EnteredTrans(fs, u, u1, u2);
  }

  lemma {:induction false} UseCallCovers(fs: map<string, Func>, u: Use, f: string, args: seq<Expr>)
    ensures var r := UseExpr(fs, u, Call(f, args));
            f in r.seen && CoversArgs(r, args) && CoversEntered(fs, u, r)
    decreases fs.Keys - u.seen, Call(f, args), 0
  {
    var r := UseExpr(fs, u, Call(f, args));
    var u1 := UseArgs(fs, u, args);
    UseArgsCovers(fs, u, args);
    CoversArgsMono(u1, r, args);
    if f !in u1.seen && f in fs {
      var u2 := u1.(seen := u1.seen + {f});
      UseStmtCovers(fs, u2, fs[f].body);
      assert CoversEntered(fs, u1, r) by {
        forall g | g in r.seen && g !in u1.seen && g in fs
          ensures CoversStmt(r, fs[g].body)
        {
          assert g == f || g !in u2.seen;
        }
      }
    }
    EnteredTrans(fs, u, u1, r);
  }

  lemma {:induction false} UseArgsCovers(fs: map<string, Func>, u: Use, args: seq<Expr>)
    ensures CoversArgs(UseArgs(fs, u, args), args)
    ensures CoversEntered(fs, u, UseArgs(fs, u, args))
    decreases fs.Keys - u.seen, args, 0
  {
    if args != [] {
      var u1 := UseExpr(fs, u, args[0]);
      var r := UseArgs(fs, u1, args[1..]);
      UseExprCovers(fs, u, args[0]);
      UseArgsCovers(fs, u1, args[1..]);
      CoversExprMono(u1, r, args[0]);
      EnteredTrans(fs, u, u1, r);
    }
  }

  lemma {:induction false} UseOptCovers(fs: map<string, Func>, u: Use, e: Option<Expr>)
    ensures CoversOpt(UseOpt(fs, u, e), e)
    ensures CoversEntered(fs, u, UseOpt(fs, u, e))
    decreases fs.Keys - u.seen, e, 2
  {
    if e.Some? { UseExprCovers(fs, u, e.value); }
  }

  lemma {:induction false} UseStmtCovers(fs: map<string, Func>, u: Use, s: Stmt)
    ensures CoversStmt(UseStmt(fs, u, s), s)
    ensures CoversEntered(fs, u, UseStmt(fs, u, s))
    decreases fs.Keys - u.seen, s, 1
  {
    var r := UseStmt(fs, u, s);
    match s
    case Do(e) => UseExprCovers(fs, u, e);
    case Return(e) => UseExprCovers(fs, u, e);
    case Block(body) => UseSeqCovers(fs, u, body);
    case If(c, thn, els) =>
      var u1 := UseExpr(fs, u, c);
      var u2 := UseStmt(fs, u1, thn);
      UseExprCovers(fs, u, c);
      UseStmtCovers(fs, u1, thn);
      EnteredTrans(fs, u, u1, u2);
      if els.Some? {
        UseStmtCovers(fs, u2, els.value);
        EnteredTrans(fs, u, u2, r);
      }
      CoversExprMono(u1, r, c);
      CoversStmtMono(u2, r, thn);
    case For(init, c, incr, loop) =>
      var u1 := UseOpt(fs, u, init);
      var u2 := UseExpr(fs, u1, c);
      var u3 := UseOpt(fs, u2, incr);
      UseOptCovers(fs, u, init);
      UseExprCovers(fs, u1, c);
      UseOptCovers(fs, u2, incr);
      UseStmtCovers(fs, u3, loop);
      EnteredTrans(fs, u, u1, u2);
      EnteredTrans(fs, u, u2, u3);
      EnteredTrans(fs, u, u3, r);
      if init.Some? { CoversExprMono(u1, r, init.value); }
      CoversExprMono(u2, r, c);
      if incr.Some? { CoversExprMono(u3, r, incr.value); }
    case _ =>
  }

  lemma {:induction false} UseSeqCovers(fs: map<string, Func>, u: Use, ss: seq<Stmt>)
    ensures CoversSeq(UseSeq(fs, u, ss), ss)
    ensures CoversEntered(fs, u, UseSeq(fs, u, ss))
    decreases fs.Keys - u.seen, ss, 0
  {
    if ss != [] {
      var u1 := UseStmt(fs, u, ss[0]);
      var r := UseSeq(fs, u1, ss[1..]);
      UseStmtCovers(fs, u, ss[0]);
      UseSeqCovers(fs, u1, ss[1..]);
      CoversStmtMono(u1, r, ss[0]);
      EnteredTrans(fs, u, u1, r);
    }
  }
}
