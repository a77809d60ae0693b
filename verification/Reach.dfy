/**
 Which functions the probes reach: the least set that the probes call into and that is
 closed under calls.
 */
module Reach {
  import opened Basics
  import opened Syntax
  import opened Semantics
  import opened VarUse
  import opened Passes
  import opened Confined

  /** The functions that a traversal from the probes' bodies enters. */
  function Traversed(p: Program): set<string> { SessionUse(p, false).seen }

  predicate AllReachable(p: Program) { p.funcs.Keys <= Traversed(p) }

  /** Every call that can be reached is of a function in the session. */
  predicate Resolved(p: Program) { Traversed(p) <= p.funcs.Keys }

  ghost predicate ClosedUnderCalls(fs: map<string, Func>, names: iset<string>) {
    forall f | f in names && f in fs :: ConfinedStmt(ALL_VARS, names, fs[f].body)
  }

  ghost predicate ProbesCall(ps: seq<Probe>, names: iset<string>, conditions: bool) {
    forall pr | pr in ps :: ConfinedStmt(ALL_VARS, names, pr.body) && (conditions ==> ConfinedOpt(ALL_VARS, names, pr.cond))
  }

  ghost predicate SeenWithin(u: Use, names: iset<string>) { forall f | f in u.seen :: f in names }

  /** The traversal enters no function outside a set that is closed under calls. */
  lemma {:induction false} SeenLeastExpr(fs: map<string, Func>, names: iset<string>, u: Use, e: Expr)
    requires ClosedUnderCalls(fs, names) && SeenWithin(u, names) && ConfinedExpr(ALL_VARS, names, e)
    ensures SeenWithin(UseExpr(fs, u, e), names)
    decreases fs.Keys - u.seen, e, 1
  {
    match e
    case Bin(_, l, r) => SeenLeastExpr(fs, names, u, l); SeenLeastExpr(fs, names, UseExpr(fs, u, l), r);
    case Logic(_, l, r) => SeenLeastExpr(fs, names, u, l); SeenLeastExpr(fs, names, UseExpr(fs, u, l), r);
    case Un(_, x) => SeenLeastExpr(fs, names, u, x);
    case Cond(c, l, r) =>
      var u1 := UseExpr(fs, u, c);
      SeenLeastExpr(fs, names, u, c);
      SeenLeastExpr(fs, names, u1, l);
      SeenLeastExpr(fs, names, UseExpr(fs, u1, l), r);
    case Assign(v, how, x) =>
      SeenLeastExpr(fs, names, u.(read := if how == Set then u.read else u.read + {v}, written := u.written + {v}), x);
    case Call(f, args) =>
      SeenLeastArgs(fs, names, u, args);
      var u1 := UseArgs(fs, u, args);
      if f !in u1.seen && f in fs { SeenLeastStmt(fs, names, u1.(seen := u1.seen + {f}), fs[f].body); }
    case Print(stream, args) => SeenLeastArgs(fs, names, u.(effect := u.effect || stream), args);
    case _ =>
  }

  lemma {:induction false} SeenLeastArgs(fs: map<string, Func>, names: iset<string>, u: Use, args: seq<Expr>)
    requires ClosedUnderCalls(fs, names) && SeenWithin(u, names) && ConfinedArgs(ALL_VARS, names, args)
    ensures SeenWithin(UseArgs(fs, u, args), names)
    decreases fs.Keys - u.seen, args, 0
  {
    if args != [] {
      SeenLeastExpr(fs, names, u, args[0]);
      SeenLeastArgs(fs, names, UseExpr(fs, u, args[0]), args[1..]);
    }
  }

  lemma {:induction false} SeenLeastOpt(fs: map<string, Func>, names: iset<string>, u: Use, e: Option<Expr>)
    requires ClosedUnderCalls(fs, names) && SeenWithin(u, names) && ConfinedOpt(ALL_VARS, names, e)
    ensures SeenWithin(UseOpt(fs, u, e), names)
    decreases fs.Keys - u.seen, e, 2
  {
    if e.Some? { SeenLeastExpr(fs, names, u, e.value); }
  }

  lemma {:induction false} SeenLeastStmt(fs: map<string, Func>, names: iset<string>, u: Use, s: Stmt)
    requires ClosedUnderCalls(fs, names) && SeenWithin(u, names) && ConfinedStmt(ALL_VARS, names, s)
    ensures SeenWithin(UseStmt(fs, u, s), names)
    decreases fs.Keys - u.seen, s, 1
  {
    match s
    case Do(e) => SeenLeastExpr(fs, names, u, e);
    case Return(e) => SeenLeastExpr(fs, names, u, e);
    case Block(body) => SeenLeastSeq(fs, names, u, body);
    case If(c, thn, els) =>
      var u1 := UseExpr(fs, u, c);
      SeenLeastExpr(fs, names, u, c);
      SeenLeastStmt(fs, names, u1, thn);
      if els.Some? { SeenLeastStmt(fs, names, UseStmt(fs, u1, thn), els.value); }
    case For(init, c, incr, loop) =>
      var u1 := UseOpt(fs, u, init);
      var u2 := UseExpr(fs, u1, c);
      SeenLeastOpt(fs, names, u, init);
      SeenLeastExpr(fs, names, u1, c);
      SeenLeastOpt(fs, names, u2, incr);
      SeenLeastStmt(fs, names, UseOpt(fs, u2, incr), loop);
    case _ =>
  }

  lemma {:induction false} SeenLeastSeq(fs: map<string, Func>, names: iset<string>, u: Use, ss: seq<Stmt>)
    requires ClosedUnderCalls(fs, names) && SeenWithin(u, names) && ConfinedSeq(ALL_VARS, names, ss)
    ensures SeenWithin(UseSeq(fs, u, ss), names)
    decreases fs.Keys - u.seen, ss, 0
  {
    if ss != [] {
      SeenLeastStmt(fs, names, u, ss[0]);
      SeenLeastSeq(fs, names, UseStmt(fs, u, ss[0]), ss[1..]);
    }
  }

  lemma {:induction false} SeenLeastProbes(fs: map<string, Func>, names: iset<string>, u: Use, ps: seq<Probe>, conditions: bool)
    requires ClosedUnderCalls(fs, names) && SeenWithin(u, names) && ProbesCall(ps, names, conditions)
    ensures SeenWithin(UseProbes(fs, u, ps, conditions), names)
    decreases ps
  {
    if ps != [] {
      assert ps[0] in ps;
      SeenLeastStmt(fs, names, u, ps[0].body);
      var u1 := UseStmt(fs, u, ps[0].body);
      if conditions { SeenLeastOpt(fs, names, u1, ps[0].cond); }
      SeenLeastProbes(fs, names, if conditions then UseOpt(fs, u1, ps[0].cond) else u1, ps[1..], conditions);
    }
  }

  lemma SessionSeenLeast(p: Program, names: iset<string>, conditions: bool)
    requires ClosedUnderCalls(p.funcs, names) && ProbesCall(p.probes, names, conditions)
    ensures SeenNames(SessionUse(p, conditions)) <= names
  {
    SeenLeastProbes(p.funcs, names, NO_USE, p.probes, conditions);
  }

  lemma Widen(vars: iset<Var>, names: iset<string>, into: iset<Var>, called: iset<string>, s: Stmt)
    requires ConfinedStmt(vars, names, s) && vars <= into && names <= called
    ensures ConfinedStmt(into, called, s)
  {
    MeetStmt(vars, names, vars, names, into, called, s);
  }

  /** What is reached is closed under calls. */
  lemma SessionSeenClosed(p: Program, conditions: bool)
    ensures var names := SeenNames(SessionUse(p, conditions));
      ClosedUnderCalls(p.funcs, names) && ProbesCall(p.probes, names, conditions)
  {
    var u := SessionUse(p, conditions);
    var names := SeenNames(u);
    SessionUseCovers(p, conditions);
    forall f | f in names && f in p.funcs ensures ConfinedStmt(ALL_VARS, names, p.funcs[f].body) {
      CoveredStmt(u, p.funcs[f].body);
      Widen(UsedVars(u), names, ALL_VARS, names, p.funcs[f].body);
    }
    forall pr | pr in p.probes
      ensures ConfinedStmt(ALL_VARS, names, pr.body) && (conditions ==> ConfinedOpt(ALL_VARS, names, pr.cond))
    {
      assert CoversProbe(u, pr, conditions);
      CoveredStmt(u, pr.body);
      Widen(UsedVars(u), names, ALL_VARS, names, pr.body);
      if conditions && pr.cond.Some? {
        CoveredExpr(u, pr.cond.value);
        MeetExpr(UsedVars(u), names, UsedVars(u), names, ALL_VARS, names, pr.cond.value);
      }
    }
  }

  // ----- what pass 1 leaves -----

  lemma {:induction false} CallFreeConfined(names: iset<string>, e: Expr)
    requires CallFree(e)
    ensures ConfinedExpr(ALL_VARS, names, e)
    decreases e, 1
  {
    match e
    case Bin(_, l, r) => CallFreeConfined(names, l); CallFreeConfined(names, r);
    case Logic(_, l, r) => CallFreeConfined(names, l); CallFreeConfined(names, r);
    case Un(_, x) => CallFreeConfined(names, x);
    case Cond(c, l, r) => CallFreeConfined(names, c); CallFreeConfined(names, l); CallFreeConfined(names, r);
    case Assign(_, _, x) => CallFreeConfined(names, x);
    case Print(_, args) => CallFreeConfinedArgs(names, args);
    case _ =>
  }

  lemma {:induction false} CallFreeConfinedArgs(names: iset<string>, args: seq<Expr>)
    requires CallFreeArgs(args)
    ensures ConfinedArgs(ALL_VARS, names, args)
    decreases args, 0
  {
    if args != [] { CallFreeConfined(names, args[0]); CallFreeConfinedArgs(names, args[1..]); }
  }

  /** Conditions without calls add nothing to what is reached. */
  lemma ConditionsReachNothing(p: Program)
    requires SimpleConditions(p)
    ensures SeenNames(SessionUse(p, true)) == SeenNames(SessionUse(p, false))
  {
    SessionSeenClosed(p, true);
    SessionSeenLeast(p, SeenNames(SessionUse(p, true)), false);
    var names := SeenNames(SessionUse(p, false));
    SessionSeenClosed(p, false);
    forall pr | pr in p.probes && pr.cond.Some? ensures ConfinedOpt(ALL_VARS, names, pr.cond) {
      CallFreeConfined(names, Guard(pr));
    }
    SessionSeenLeast(p, names, true);
  }

  /** Pass 1 leaves exactly what was reached, and all of it is still reached. */
  lemma DropFunctionsReachable(p: Program, conditions: bool)
    requires conditions || SimpleConditions(p)
    ensures SeenNames(SessionUse(DropFunctions(p), conditions)) == SeenNames(SessionUse(p, conditions))
    ensures DropFunctions(p).funcs.Keys <= SessionUse(DropFunctions(p), conditions).seen
  {
    var q := DropFunctions(p);
    var before, after := SeenNames(SessionUse(p, conditions)), SeenNames(SessionUse(q, conditions));
    if !conditions { ConditionsReachNothing(p); }
    SessionSeenClosed(p, conditions);
    SessionSeenClosed(q, conditions);
    assert forall f | f in before && f in p.funcs :: f in q.funcs && q.funcs[f] == p.funcs[f] by {
      assert before == SeenNames(SessionUse(p, true));
    }
    SessionSeenLeast(q, before, conditions);
    assert ClosedUnderCalls(p.funcs, after);
    SessionSeenLeast(p, after, conditions);
    forall f | f in q.funcs ensures f in SessionUse(q, conditions).seen { assert f in before && f in after; }
  }
}
