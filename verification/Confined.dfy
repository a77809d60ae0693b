/**
 What code mentions: the variables it uses and the functions it calls.  No pass that
 rewrites bodies makes a body mention anything new.
 */
module Confined {
  import opened Basics
  import opened Arith64
  import opened Syntax
  import opened VarUse
  import opened Frame
  import opened DeadAssign
  import opened DeadStmt
  import opened VoidReduce
  import opened ConstFold

  /** Every variable mentioned is in vars, and every function called is in names. */
  ghost predicate ConfinedExpr(vars: iset<Var>, names: iset<string>, e: Expr)
    decreases e, 1
  {
    match e
    case Lit(_) => true
    case Sym(v) => v in vars
    case Bin(_, l, r) => ConfinedExpr(vars, names, l) && ConfinedExpr(vars, names, r)
    case Logic(_, l, r) => ConfinedExpr(vars, names, l) && ConfinedExpr(vars, names, r)
    case Un(_, x) => ConfinedExpr(vars, names, x)
    case Cond(c, l, r) => ConfinedExpr(vars, names, c) && ConfinedExpr(vars, names, l) && ConfinedExpr(vars, names, r)
    case Assign(v, _, x) => v in vars && ConfinedExpr(vars, names, x)
    case Crement(v, _, _) => v in vars
    case Call(f, args) => f in names && ConfinedArgs(vars, names, args)
    case Print(_, args) => ConfinedArgs(vars, names, args)
  }

  ghost predicate ConfinedArgs(vars: iset<Var>, names: iset<string>, args: seq<Expr>)
    decreases args, 0
  {
    args == [] || (ConfinedExpr(vars, names, args[0]) && ConfinedArgs(vars, names, args[1..]))
  }

  ghost predicate ConfinedOpt(vars: iset<Var>, names: iset<string>, e: Option<Expr>) {
    e.Some? ==> ConfinedExpr(vars, names, e.value)
  }

  ghost predicate ConfinedStmt(vars: iset<Var>, names: iset<string>, s: Stmt)
    decreases s, 1
  {
    match s
    case Do(e) => ConfinedExpr(vars, names, e)
    case Return(e) => ConfinedExpr(vars, names, e)
    case Block(body) => ConfinedSeq(vars, names, body)
    case If(c, thn, els) =>
      && ConfinedExpr(vars, names, c) && ConfinedStmt(vars, names, thn)
      && (els.Some? ==> ConfinedStmt(vars, names, els.value))
    case For(init, c, incr, loop) =>
      && ConfinedOpt(vars, names, init) && ConfinedExpr(vars, names, c)
      && ConfinedOpt(vars, names, incr) && ConfinedStmt(vars, names, loop)
    case _ => true
  }

  ghost predicate ConfinedSeq(vars: iset<Var>, names: iset<string>, ss: seq<Stmt>)
    decreases ss, 0
  {
    ss == [] || (ConfinedStmt(vars, names, ss[0]) && ConfinedSeq(vars, names, ss[1..]))
  }

  ghost const ALL_VARS: iset<Var> := iset v: Var | true
  ghost const ALL_NAMES: iset<string> := iset f: string | true

  /** s' mentions nothing that s does not. */
  ghost predicate Shrunk(s: Stmt, s': Stmt) {
    forall vars: iset<Var>, names: iset<string> | ConfinedStmt(vars, names, s) :: ConfinedStmt(vars, names, s')
  }

  // ----- two confinements -----

  /** What is confined in two ways is confined to what they have in common. */
  lemma {:induction false} MeetExpr(vars: iset<Var>, names: iset<string>, vars': iset<Var>, names': iset<string>, into: iset<Var>, called: iset<string>, e: Expr)
    requires ConfinedExpr(vars, names, e) && ConfinedExpr(vars', names', e) && vars * vars' <= into && names * names' <= called
    ensures ConfinedExpr(into, called, e)
    decreases e, 1
  {
    match e
    case Bin(_, l, r) => MeetExpr(vars, names, vars', names', into, called, l); MeetExpr(vars, names, vars', names', into, called, r);
    case Logic(_, l, r) => MeetExpr(vars, names, vars', names', into, called, l); MeetExpr(vars, names, vars', names', into, called, r);
    case Un(_, x) => MeetExpr(vars, names, vars', names', into, called, x);
    case Cond(c, l, r) => MeetExpr(vars, names, vars', names', into, called, c); MeetExpr(vars, names, vars', names', into, called, l); MeetExpr(vars, names, vars', names', into, called, r);
    case Assign(_, _, x) => MeetExpr(vars, names, vars', names', into, called, x);
    case Call(_, args) => MeetArgs(vars, names, vars', names', into, called, args);
    case Print(_, args) => MeetArgs(vars, names, vars', names', into, called, args);
    case _ =>
  }

  lemma {:induction false} MeetArgs(vars: iset<Var>, names: iset<string>, vars': iset<Var>, names': iset<string>, into: iset<Var>, called: iset<string>, args: seq<Expr>)
    requires ConfinedArgs(vars, names, args) && ConfinedArgs(vars', names', args) && vars * vars' <= into && names * names' <= called
    ensures ConfinedArgs(into, called, args)
    decreases args, 0
  {
    if args != [] { MeetExpr(vars, names, vars', names', into, called, args[0]); MeetArgs(vars, names, vars', names', into, called, args[1..]); }
  }

  lemma {:induction false} MeetStmt(vars: iset<Var>, names: iset<string>, vars': iset<Var>, names': iset<string>, into: iset<Var>, called: iset<string>, s: Stmt)
    requires ConfinedStmt(vars, names, s) && ConfinedStmt(vars', names', s) && vars * vars' <= into && names * names' <= called
    ensures ConfinedStmt(into, called, s)
    decreases s, 1
  {
    match s
    case Do(e) => MeetExpr(vars, names, vars', names', into, called, e);
    case Return(e) => MeetExpr(vars, names, vars', names', into, called, e);
    case Block(body) => MeetSeq(vars, names, vars', names', into, called, body);
    case If(c, thn, els) =>
      MeetExpr(vars, names, vars', names', into, called, c);
      MeetStmt(vars, names, vars', names', into, called, thn);
      if els.Some? { MeetStmt(vars, names, vars', names', into, called, els.value); }
    case For(init, c, incr, loop) =>
      if init.Some? { MeetExpr(vars, names, vars', names', into, called, init.value); }
      MeetExpr(vars, names, vars', names', into, called, c);
      if incr.Some? { MeetExpr(vars, names, vars', names', into, called, incr.value); }
      MeetStmt(vars, names, vars', names', into, called, loop);
    case _ =>
  }

  lemma {:induction false} MeetSeq(vars: iset<Var>, names: iset<string>, vars': iset<Var>, names': iset<string>, into: iset<Var>, called: iset<string>, ss: seq<Stmt>)
    requires ConfinedSeq(vars, names, ss) && ConfinedSeq(vars', names', ss) && vars * vars' <= into && names * names' <= called
    ensures ConfinedSeq(into, called, ss)
    decreases ss, 0
  {
    if ss != [] { MeetStmt(vars, names, vars', names', into, called, ss[0]); MeetSeq(vars, names, vars', names', into, called, ss[1..]); }
  }

  // ----- what the analysis gathers -----

  ghost function UsedVars(u: Use): iset<Var> { iset v | v in u.read || v in u.written }

  ghost function SeenNames(u: Use): iset<string> { iset f | f in u.seen }

  lemma {:induction false} CoveredExpr(u: Use, e: Expr)
    requires CoversExpr(u, e)
    ensures ConfinedExpr(UsedVars(u), SeenNames(u), e)
    decreases e, 1
  {
    match e
    case Bin(_, l, r) => CoveredExpr(u, l); CoveredExpr(u, r);
    case Logic(_, l, r) => CoveredExpr(u, l); CoveredExpr(u, r);
    case Un(_, x) => CoveredExpr(u, x);
    case Cond(c, l, r) => CoveredExpr(u, c); CoveredExpr(u, l); CoveredExpr(u, r);
    case Assign(_, _, x) => CoveredExpr(u, x);
    case Call(_, args) => CoveredArgs(u, args);
    case Print(_, args) => CoveredArgs(u, args);
    case _ =>
  }

  lemma {:induction false} CoveredArgs(u: Use, args: seq<Expr>)
    requires CoversArgs(u, args)
    ensures ConfinedArgs(UsedVars(u), SeenNames(u), args)
    decreases args, 0
  {
    if args != [] { CoveredExpr(u, args[0]); CoveredArgs(u, args[1..]); }
  }

  lemma {:induction false} CoveredStmt(u: Use, s: Stmt)
    requires CoversStmt(u, s)
    ensures ConfinedStmt(UsedVars(u), SeenNames(u), s)
    decreases s, 1
  {
    match s
    case Do(e) => CoveredExpr(u, e);
    case Return(e) => CoveredExpr(u, e);
    case Block(body) => CoveredSeq(u, body);
    case If(c, thn, els) =>
      CoveredExpr(u, c);
      CoveredStmt(u, thn);
      if els.Some? { CoveredStmt(u, els.value); }
    case For(init, c, incr, loop) =>
      if init.Some? { CoveredExpr(u, init.value); }
      CoveredExpr(u, c);
      if incr.Some? { CoveredExpr(u, incr.value); }
      CoveredStmt(u, loop);
    case _ =>
  }

  lemma {:induction false} CoveredSeq(u: Use, ss: seq<Stmt>)
    requires CoversSeq(u, ss)
    ensures ConfinedSeq(UsedVars(u), SeenNames(u), ss)
    decreases ss, 0
  {
    if ss != [] { CoveredStmt(u, ss[0]); CoveredSeq(u, ss[1..]); }
  }

  // ----- stripping assignments -----

  lemma {:induction false} ConfinedStripExpr(vars: iset<Var>, names: iset<string>, dead: Var -> bool, e: Expr)
    requires ConfinedExpr(vars, names, e)
    ensures ConfinedExpr(vars, names, StripExpr(dead, e))
    decreases e, 1
  {
    match e
    case Bin(_, l, r) => ConfinedStripExpr(vars, names, dead, l); ConfinedStripExpr(vars, names, dead, r);
    case Logic(_, l, r) => ConfinedStripExpr(vars, names, dead, l); ConfinedStripExpr(vars, names, dead, r);
    case Un(_, x) => ConfinedStripExpr(vars, names, dead, x);
    case Cond(c, l, r) => ConfinedStripExpr(vars, names, dead, c); ConfinedStripExpr(vars, names, dead, l); ConfinedStripExpr(vars, names, dead, r);
    case Assign(_, _, x) => ConfinedStripExpr(vars, names, dead, x);
    case Call(_, args) => ConfinedStripArgs(vars, names, dead, args);
    case Print(_, args) => ConfinedStripArgs(vars, names, dead, args);
    case _ =>
  }

  lemma {:induction false} ConfinedStripArgs(vars: iset<Var>, names: iset<string>, dead: Var -> bool, args: seq<Expr>)
    requires ConfinedArgs(vars, names, args)
    ensures ConfinedArgs(vars, names, StripArgs(dead, args))
    decreases args, 0
  {
    if args != [] { ConfinedStripExpr(vars, names, dead, args[0]); ConfinedStripArgs(vars, names, dead, args[1..]); }
  }

  lemma {:induction false} ConfinedStripStmt(vars: iset<Var>, names: iset<string>, dead: Var -> bool, s: Stmt)
    requires ConfinedStmt(vars, names, s)
    ensures ConfinedStmt(vars, names, StripStmt(dead, s))
    decreases s, 1
  {
    match s
    case Do(e) => ConfinedStripExpr(vars, names, dead, e);
    case Return(e) => ConfinedStripExpr(vars, names, dead, e);
    case Block(body) => ConfinedStripSeq(vars, names, dead, body);
    case If(c, thn, els) =>
      ConfinedStripExpr(vars, names, dead, c);
      ConfinedStripStmt(vars, names, dead, thn);
      if els.Some? { ConfinedStripStmt(vars, names, dead, els.value); }
    case For(init, c, incr, loop) =>
      if init.Some? { ConfinedStripExpr(vars, names, dead, init.value); }
      ConfinedStripExpr(vars, names, dead, c);
      if incr.Some? { ConfinedStripExpr(vars, names, dead, incr.value); }
      ConfinedStripStmt(vars, names, dead, loop);
    case _ =>
  }

  lemma {:induction false} ConfinedStripSeq(vars: iset<Var>, names: iset<string>, dead: Var -> bool, ss: seq<Stmt>)
    requires ConfinedSeq(vars, names, ss)
    ensures ConfinedSeq(vars, names, StripSeq(dead, ss))
    decreases ss, 0
  {
    if ss != [] { ConfinedStripStmt(vars, names, dead, ss[0]); ConfinedStripSeq(vars, names, dead, ss[1..]); }
  }

  // ----- pruning statements -----

  lemma {:induction false} ConfinedAppend(vars: iset<Var>, names: iset<string>, xs: seq<Stmt>, ys: seq<Stmt>)
    requires ConfinedSeq(vars, names, xs) && ConfinedSeq(vars, names, ys)
    ensures ConfinedSeq(vars, names, xs + ys)
    decreases xs
  {
    if xs == [] {
      assert xs + ys == ys;
    } else {
      ConfinedAppend(vars, names, xs[1..], ys);
      assert (xs + ys)[1..] == xs[1..] + ys;
    }
  }

  lemma {:induction false} ConfinedPruneStmt(vars: iset<Var>, names: iset<string>, fs: map<string, Func>, focal: set<Var>, s: Stmt)
    requires ConfinedStmt(vars, names, s)
    ensures PruneStmt(fs, focal, s).Some? ==> ConfinedStmt(vars, names, PruneStmt(fs, focal, s).value)
    decreases s, 1
  {
    hide SideEffectFree, SideEffectFreeWrt, UseHead;
    match s
    case Block(body) => ConfinedPruneSeq(vars, names, fs, focal, body);
    case If(c, thn, els) =>
      ConfinedPruneStmt(vars, names, fs, focal, thn);
      if els.Some? { ConfinedPruneStmt(vars, names, fs, focal, els.value); }
    case For(_, _, _, loop) => ConfinedPruneStmt(vars, names, fs, focal, loop);
    case _ =>
  }

  lemma {:induction false} ConfinedPruneSeq(vars: iset<Var>, names: iset<string>, fs: map<string, Func>, focal: set<Var>, ss: seq<Stmt>)
    requires ConfinedSeq(vars, names, ss)
    ensures ConfinedSeq(vars, names, PruneSeq(fs, focal, ss))
    decreases ss, 0
  {
    if ss != [] {
      ConfinedPruneStmt(vars, names, fs, focal, ss[0]);
      ConfinedPruneSeq(vars, names, fs, focal, ss[1..]);
      ConfinedAppend(vars, names, Spread(PruneStmt(fs, focal, ss[0])), PruneSeq(fs, focal, ss[1..]));
    }
  }

  // ----- reducing void expressions -----

  lemma {:induction false} ConfinedReduceDo(vars: iset<Var>, names: iset<string>, fs: map<string, Func>, focal: set<Var>, e: Expr)
    requires ConfinedExpr(vars, names, e)
    ensures ConfinedStmt(vars, names, ReduceDo(fs, focal, e))
    decreases e, 1
  {
    hide SideEffectFreeWrt, UseCallee;
    match e
    case Bin(_, l, r) =>
      ConfinedReduceDo(vars, names, fs, focal, l);
      ConfinedReduceDo(vars, names, fs, focal, r);
      var a, b := ReduceDo(fs, focal, l), ReduceDo(fs, focal, r);
      assert [a, b][1..] == [b] && [b][1..] == [];
      assert ConfinedSeq(vars, names, [b]);
    case Logic(_, _, r) => ConfinedReduceDo(vars, names, fs, focal, r);
    case Un(_, x) => ConfinedReduceDo(vars, names, fs, focal, x);
    case Cond(_, l, r) => ConfinedReduceDo(vars, names, fs, focal, l); ConfinedReduceDo(vars, names, fs, focal, r);
    case Call(_, args) => ConfinedReduceArgs(vars, names, fs, focal, args);
    case Print(_, args) => ConfinedReduceArgs(vars, names, fs, focal, args);
    case _ =>
  }

  lemma {:induction false} ConfinedReduceArgs(vars: iset<Var>, names: iset<string>, fs: map<string, Func>, focal: set<Var>, args: seq<Expr>)
    requires ConfinedArgs(vars, names, args)
    ensures ConfinedSeq(vars, names, ReduceArgs(fs, focal, args))
    decreases args, 0
  {
    if args != [] {
      ConfinedReduceDo(vars, names, fs, focal, args[0]);
      ConfinedReduceArgs(vars, names, fs, focal, args[1..]);
      assert ReduceArgs(fs, focal, args)[1..] == ReduceArgs(fs, focal, args[1..]);
    }
  }

  lemma {:induction false} ConfinedReduceStmt(vars: iset<Var>, names: iset<string>, fs: map<string, Func>, focal: set<Var>, s: Stmt)
    requires ConfinedStmt(vars, names, s)
    ensures ConfinedStmt(vars, names, ReduceStmt(fs, focal, s))
    decreases s, 1
  {
    match s
    case Do(e) => ConfinedReduceDo(vars, names, fs, focal, e);
    case Block(body) => ConfinedReduceSeq(vars, names, fs, focal, body);
    case If(_, thn, els) =>
      ConfinedReduceStmt(vars, names, fs, focal, thn);
      if els.Some? { ConfinedReduceStmt(vars, names, fs, focal, els.value); }
    case For(_, _, _, loop) => ConfinedReduceStmt(vars, names, fs, focal, loop);
    case _ =>
  }

  lemma {:induction false} ConfinedReduceSeq(vars: iset<Var>, names: iset<string>, fs: map<string, Func>, focal: set<Var>, ss: seq<Stmt>)
    requires ConfinedSeq(vars, names, ss)
    ensures ConfinedSeq(vars, names, ReduceSeq(fs, focal, ss))
    decreases ss, 0
  {
    if ss != [] {
      ConfinedReduceStmt(vars, names, fs, focal, ss[0]);
      ConfinedReduceSeq(vars, names, fs, focal, ss[1..]);
      assert ReduceSeq(fs, focal, ss)[1..] == ReduceSeq(fs, focal, ss[1..]);
    }
  }

  // ----- folding constants -----

  lemma {:induction false} ConfinedFoldExpr(vars: iset<Var>, names: iset<string>, fs: map<string, Func>, e: Expr)
    requires ConfinedExpr(vars, names, e)
    ensures ConfinedExpr(vars, names, FoldExpr(fs, e))
    decreases e, 1
  {
    hide Pure, FoldBin, AbsorbsLeft, AbsorbsRight, NeutralLeft, NeutralRight, BoundaryLeft, BoundaryRight;
    match e
    case Bin(_, l, r) => ConfinedFoldExpr(vars, names, fs, l); ConfinedFoldExpr(vars, names, fs, r);
    case Logic(_, l, r) => ConfinedFoldExpr(vars, names, fs, l); ConfinedFoldExpr(vars, names, fs, r);
    case Un(_, x) => ConfinedFoldExpr(vars, names, fs, x);
    case Cond(c, l, r) => ConfinedFoldExpr(vars, names, fs, c); ConfinedFoldExpr(vars, names, fs, l); ConfinedFoldExpr(vars, names, fs, r);
    case Assign(_, _, x) => ConfinedFoldExpr(vars, names, fs, x);
    case Call(_, args) => ConfinedFoldArgs(vars, names, fs, args);
    case Print(_, args) => ConfinedFoldArgs(vars, names, fs, args);
    case _ =>
  }

  lemma {:induction false} ConfinedFoldArgs(vars: iset<Var>, names: iset<string>, fs: map<string, Func>, args: seq<Expr>)
    requires ConfinedArgs(vars, names, args)
    ensures ConfinedArgs(vars, names, FoldArgs(fs, args))
    decreases args, 0
  {
    if args != [] {
      ConfinedFoldExpr(vars, names, fs, args[0]);
      ConfinedFoldArgs(vars, names, fs, args[1..]);
      assert FoldArgs(fs, args)[1..] == FoldArgs(fs, args[1..]);
    }
  }

  lemma {:induction false} ConfinedFoldStmt(vars: iset<Var>, names: iset<string>, fs: map<string, Func>, s: Stmt)
    requires ConfinedStmt(vars, names, s)
    ensures ConfinedStmt(vars, names, FoldStmt(fs, s))
    decreases s, 1
  {
    hide FoldExpr;
    match s
    case Do(e) => ConfinedFoldExpr(vars, names, fs, e);
    case Return(e) => ConfinedFoldExpr(vars, names, fs, e);
    case Block(body) => ConfinedFoldSeq(vars, names, fs, body);
    case If(c, thn, els) =>
      ConfinedFoldExpr(vars, names, fs, c);
      ConfinedFoldStmt(vars, names, fs, thn);
      if els.Some? { ConfinedFoldStmt(vars, names, fs, els.value); }
    case For(init, c, incr, loop) =>
      if init.Some? { ConfinedFoldExpr(vars, names, fs, init.value); }
      ConfinedFoldExpr(vars, names, fs, c);
      if incr.Some? { ConfinedFoldExpr(vars, names, fs, incr.value); }
      ConfinedFoldStmt(vars, names, fs, loop);
    case _ =>
  }

  lemma {:induction false} ConfinedFoldSeq(vars: iset<Var>, names: iset<string>, fs: map<string, Func>, ss: seq<Stmt>)
    requires ConfinedSeq(vars, names, ss)
    ensures ConfinedSeq(vars, names, FoldSeq(fs, ss))
    decreases ss, 0
  {
    if ss != [] {
      ConfinedFoldStmt(vars, names, fs, ss[0]);
      ConfinedFoldSeq(vars, names, fs, ss[1..]);
      assert FoldSeq(fs, ss)[1..] == FoldSeq(fs, ss[1..]);
    }
  }

  lemma StripShrinks(dead: Var -> bool, s: Stmt)
    ensures Shrunk(s, StripStmt(dead, s))
  {
    forall vars: iset<Var>, names: iset<string> | ConfinedStmt(vars, names, s) ensures ConfinedStmt(vars, names, StripStmt(dead, s)) {
      ConfinedStripStmt(vars, names, dead, s);
    }
  }
}
