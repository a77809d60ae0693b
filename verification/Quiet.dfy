/**
 The restriction on `++` and `--` that dead-assignment removal needs holds through the
 whole relaxation if no local of the script is both assigned to and has its `++` or `--`
 used for its value: every pass keeps this.
 */
module Quiet {
  import opened Basics
  import opened Arith64
  import opened Syntax
  import opened VarUse
  import opened Frame
  import opened DeadAssign
  import opened DeadStmt
  import opened VoidReduce
  import opened ConstFold

  // ----- tame code -----

  /** No `++` or `--` of a variable in `vars` is used for its value, and the locals assigned to
      are all in `vars`. */
  predicate TameExpr(vars: iset<Var>, e: Expr)
    decreases e, 1
  {
    match e
    case Crement(v, _, _) => v !in vars
    case Bin(_, l, r) => TameExpr(vars, l) && TameExpr(vars, r)
    case Logic(_, l, r) => TameExpr(vars, l) && TameExpr(vars, r)
    case Un(_, x) => TameExpr(vars, x)
    case Cond(c, l, r) => TameExpr(vars, c) && TameExpr(vars, l) && TameExpr(vars, r)
    case Assign(v, _, x) => (v.Local? ==> v in vars) && TameExpr(vars, x)
    case Call(_, args) => TameArgs(vars, args)
    case Print(_, args) => TameArgs(vars, args)
    case _ => true
  }

  predicate TameArgs(vars: iset<Var>, args: seq<Expr>)
    decreases args, 0
  {
    args == [] || (TameExpr(vars, args[0]) && TameArgs(vars, args[1..]))
  }

  predicate TameVoid(vars: iset<Var>, e: Expr) { e.Crement? || TameExpr(vars, e) }

  predicate TameOpt(vars: iset<Var>, e: Option<Expr>) { e.Some? ==> TameVoid(vars, e.value) }

  predicate TameStmt(vars: iset<Var>, s: Stmt)
    decreases s, 1
  {
    match s
    case Do(e) => TameVoid(vars, e)
    case Return(e) => TameExpr(vars, e)
    case Block(body) => TameSeq(vars, body)
    case If(c, thn, els) => TameExpr(vars, c) && TameStmt(vars, thn) && (els.Some? ==> TameStmt(vars, els.value))
    case For(init, c, incr, loop) =>
      TameOpt(vars, init) && TameExpr(vars, c) && TameOpt(vars, incr) && TameStmt(vars, loop)
    case _ => true
  }

  predicate TameSeq(vars: iset<Var>, ss: seq<Stmt>)
    decreases ss, 0
  {
    ss == [] || (TameStmt(vars, ss[0]) && TameSeq(vars, ss[1..]))
  }

  /** Every local the code assigns to is in `vars`. */
  ghost predicate Within(targets: set<Var>, vars: iset<Var>) { forall v | v in targets && v.Local? :: v in vars }

  // ----- quiet code is tame for the locals it assigns to, and for no fewer -----

  lemma {:induction false} QuietTameExpr(vars: iset<Var>, e: Expr)
    ensures QuietExpr(vars, e) && Within(TargetsExpr(e), vars) ==> TameExpr(vars, e)
    ensures TameExpr(vars, e) ==> Within(TargetsExpr(e), vars)
    decreases e, 1
  {
    match e
    case Bin(_, l, r) => QuietTameExpr(vars, l); QuietTameExpr(vars, r);
    case Logic(_, l, r) => QuietTameExpr(vars, l); QuietTameExpr(vars, r);
    case Un(_, x) => QuietTameExpr(vars, x);
    case Cond(c, l, r) => QuietTameExpr(vars, c); QuietTameExpr(vars, l); QuietTameExpr(vars, r);
    case Assign(_, _, x) => QuietTameExpr(vars, x);
    case Call(_, args) => QuietTameArgs(vars, args);
    case Print(_, args) => QuietTameArgs(vars, args);
    case _ =>
  }

  lemma {:induction false} QuietTameArgs(vars: iset<Var>, args: seq<Expr>)
    ensures QuietArgs(vars, args) && Within(TargetsArgs(args), vars) ==> TameArgs(vars, args)
    ensures TameArgs(vars, args) ==> Within(TargetsArgs(args), vars)
    decreases args, 0
  {
    if args != [] { QuietTameExpr(vars, args[0]); QuietTameArgs(vars, args[1..]); }
  }

  lemma {:induction false} QuietTameStmt(vars: iset<Var>, s: Stmt)
    ensures QuietStmt(vars, s) && Within(TargetsStmt(s), vars) ==> TameStmt(vars, s)
    ensures TameStmt(vars, s) ==> Within(TargetsStmt(s), vars)
    decreases s, 1
  {
    match s
    case Do(e) => QuietTameExpr(vars, e);
    case Return(e) => QuietTameExpr(vars, e);
    case Block(body) => QuietTameSeq(vars, body);
    case If(c, thn, els) =>
      QuietTameExpr(vars, c);
      QuietTameStmt(vars, thn);
      if els.Some? { QuietTameStmt(vars, els.value); }
    case For(init, c, incr, loop) =>
      if init.Some? { QuietTameExpr(vars, init.value); }
      QuietTameExpr(vars, c);
      if incr.Some? { QuietTameExpr(vars, incr.value); }
      QuietTameStmt(vars, loop);
    case _ =>
  }

  lemma {:induction false} QuietTameSeq(vars: iset<Var>, ss: seq<Stmt>)
    ensures QuietSeq(vars, ss) && Within(TargetsSeq(ss), vars) ==> TameSeq(vars, ss)
    ensures TameSeq(vars, ss) ==> Within(TargetsSeq(ss), vars)
    decreases ss, 0
  {
    if ss != [] { QuietTameStmt(vars, ss[0]); QuietTameSeq(vars, ss[1..]); }
  }

  // ----- from tame to quiet -----

  lemma {:induction false} TameQuietExpr(vars: iset<Var>, fewer: iset<Var>, e: Expr)
    requires fewer <= vars && TameExpr(vars, e)
    ensures QuietExpr(fewer, e)
    decreases e, 1
  {
    match e
    case Bin(_, l, r) => TameQuietExpr(vars, fewer, l); TameQuietExpr(vars, fewer, r);
    case Logic(_, l, r) => TameQuietExpr(vars, fewer, l); TameQuietExpr(vars, fewer, r);
    case Un(_, x) => TameQuietExpr(vars, fewer, x);
    case Cond(c, l, r) => TameQuietExpr(vars, fewer, c); TameQuietExpr(vars, fewer, l); TameQuietExpr(vars, fewer, r);
    case Assign(_, _, x) => TameQuietExpr(vars, fewer, x);
    case Call(_, args) => TameQuietArgs(vars, fewer, args);
    case Print(_, args) => TameQuietArgs(vars, fewer, args);
    case _ =>
  }

  lemma {:induction false} TameQuietArgs(vars: iset<Var>, fewer: iset<Var>, args: seq<Expr>)
    requires fewer <= vars && TameArgs(vars, args)
    ensures QuietArgs(fewer, args)
    decreases args, 0
  {
    if args != [] { TameQuietExpr(vars, fewer, args[0]); TameQuietArgs(vars, fewer, args[1..]); }
  }

  lemma TameQuietVoid(vars: iset<Var>, fewer: iset<Var>, e: Expr)
    requires fewer <= vars && TameVoid(vars, e)
    ensures QuietVoid(fewer, e)
  {
    if !e.Crement? { TameQuietExpr(vars, fewer, e); }
  }

  lemma {:induction false} TameQuietStmt(vars: iset<Var>, fewer: iset<Var>, s: Stmt)
    requires fewer <= vars && TameStmt(vars, s)
    ensures QuietStmt(fewer, s)
    decreases s, 1
  {
    match s
    case Do(e) => TameQuietVoid(vars, fewer, e);
    case Return(e) => TameQuietExpr(vars, fewer, e);
    case Block(body) => TameQuietSeq(vars, fewer, body);
    case If(c, thn, els) =>
      TameQuietExpr(vars, fewer, c);
      TameQuietStmt(vars, fewer, thn);
      if els.Some? { TameQuietStmt(vars, fewer, els.value); }
    case For(init, c, incr, loop) =>
      if init.Some? { TameQuietVoid(vars, fewer, init.value); }
      TameQuietExpr(vars, fewer, c);
      if incr.Some? { TameQuietVoid(vars, fewer, incr.value); }
      TameQuietStmt(vars, fewer, loop);
    case _ =>
  }

  lemma {:induction false} TameQuietSeq(vars: iset<Var>, fewer: iset<Var>, ss: seq<Stmt>)
    requires fewer <= vars && TameSeq(vars, ss)
    ensures QuietSeq(fewer, ss)
    decreases ss, 0
  {
    if ss != [] { TameQuietStmt(vars, fewer, ss[0]); TameQuietSeq(vars, fewer, ss[1..]); }
  }

  // ----- stripping assignments -----

  lemma {:induction false} TameStripExpr(vars: iset<Var>, dead: Var -> bool, e: Expr)
    requires TameExpr(vars, e)
    ensures TameExpr(vars, StripExpr(dead, e))
    decreases e, 1
  {
    match e
    case Bin(_, l, r) => TameStripExpr(vars, dead, l); TameStripExpr(vars, dead, r);
    case Logic(_, l, r) => TameStripExpr(vars, dead, l); TameStripExpr(vars, dead, r);
    case Un(_, x) => TameStripExpr(vars, dead, x);
    case Cond(c, l, r) => TameStripExpr(vars, dead, c); TameStripExpr(vars, dead, l); TameStripExpr(vars, dead, r);
    case Assign(_, _, x) => TameStripExpr(vars, dead, x);
    case Call(_, args) => TameStripArgs(vars, dead, args);
    case Print(_, args) => TameStripArgs(vars, dead, args);
    case _ =>
  }

  lemma {:induction false} TameStripArgs(vars: iset<Var>, dead: Var -> bool, args: seq<Expr>)
    requires TameArgs(vars, args)
    ensures TameArgs(vars, StripArgs(dead, args))
    decreases args, 0
  {
    if args != [] { TameStripExpr(vars, dead, args[0]); TameStripArgs(vars, dead, args[1..]); }
  }

  lemma TameStripVoid(vars: iset<Var>, dead: Var -> bool, e: Expr)
    requires TameVoid(vars, e)
    ensures TameVoid(vars, StripExpr(dead, e))
  {
    if !e.Crement? { TameStripExpr(vars, dead, e); }
  }

  lemma {:induction false} TameStripStmt(vars: iset<Var>, dead: Var -> bool, s: Stmt)
    requires TameStmt(vars, s)
    ensures TameStmt(vars, StripStmt(dead, s))
    decreases s, 1
  {
    match s
    case Do(e) => TameStripVoid(vars, dead, e);
    case Return(e) => TameStripExpr(vars, dead, e);
    case Block(body) => TameStripSeq(vars, dead, body);
    case If(c, thn, els) =>
      TameStripExpr(vars, dead, c);
      TameStripStmt(vars, dead, thn);
      if els.Some? { TameStripStmt(vars, dead, els.value); }
    case For(init, c, incr, loop) =>
      if init.Some? { TameStripVoid(vars, dead, init.value); }
      TameStripExpr(vars, dead, c);
      if incr.Some? { TameStripVoid(vars, dead, incr.value); }
      TameStripStmt(vars, dead, loop);
    case _ =>
  }

  lemma {:induction false} TameStripSeq(vars: iset<Var>, dead: Var -> bool, ss: seq<Stmt>)
    requires TameSeq(vars, ss)
    ensures TameSeq(vars, StripSeq(dead, ss))
    decreases ss, 0
  {
    if ss != [] { TameStripStmt(vars, dead, ss[0]); TameStripSeq(vars, dead, ss[1..]); }
  }

  // ----- pruning statements -----

  lemma {:induction false} TameAppend(vars: iset<Var>, xs: seq<Stmt>, ys: seq<Stmt>)
    requires TameSeq(vars, xs) && TameSeq(vars, ys)
    ensures TameSeq(vars, xs + ys)
    decreases xs
  {
    if xs == [] {
      assert xs + ys == ys;
    } else {
      TameAppend(vars, xs[1..], ys);
      assert (xs + ys)[1..] == xs[1..] + ys;
    }
  }

  lemma {:induction false} TamePruneStmt(vars: iset<Var>, fs: map<string, Func>, focal: set<Var>, s: Stmt)
    requires TameStmt(vars, s)
    ensures PruneStmt(fs, focal, s).Some? ==> TameStmt(vars, PruneStmt(fs, focal, s).value)
    decreases s, 1
  {
    hide SideEffectFree, SideEffectFreeWrt, UseHead;
    match s
    case Block(body) => TamePruneSeq(vars, fs, focal, body);
    case If(c, thn, els) =>
      TamePruneStmt(vars, fs, focal, thn);
      if els.Some? { TamePruneStmt(vars, fs, focal, els.value); }
    case For(_, _, _, loop) => TamePruneStmt(vars, fs, focal, loop);
    case _ =>
  }

  lemma {:induction false} TamePruneSeq(vars: iset<Var>, fs: map<string, Func>, focal: set<Var>, ss: seq<Stmt>)
    requires TameSeq(vars, ss)
    ensures TameSeq(vars, PruneSeq(fs, focal, ss))
    decreases ss, 0
  {
    if ss != [] {
      TamePruneStmt(vars, fs, focal, ss[0]);
      TamePruneSeq(vars, fs, focal, ss[1..]);
      TameAppend(vars, Spread(PruneStmt(fs, focal, ss[0])), PruneSeq(fs, focal, ss[1..]));
    }
  }

  // ----- reducing void expressions -----

  lemma {:induction false} TameReduceDo(vars: iset<Var>, fs: map<string, Func>, focal: set<Var>, e: Expr)
    requires TameVoid(vars, e)
    ensures TameStmt(vars, ReduceDo(fs, focal, e))
    decreases e, 1
  {
    hide SideEffectFreeWrt, UseCallee;
    match e
    case Bin(_, l, r) =>
      TameReduceDo(vars, fs, focal, l);
      TameReduceDo(vars, fs, focal, r);
      var a, b := ReduceDo(fs, focal, l), ReduceDo(fs, focal, r);
      assert [a, b][1..] == [b] && [b][1..] == [];
      assert TameSeq(vars, [b]);
    case Logic(_, _, r) => TameReduceDo(vars, fs, focal, r);
    case Un(_, x) => TameReduceDo(vars, fs, focal, x);
    case Cond(_, l, r) => TameReduceDo(vars, fs, focal, l); TameReduceDo(vars, fs, focal, r);
    case Call(_, args) => TameReduceArgs(vars, fs, focal, args);
    case Print(_, args) => TameReduceArgs(vars, fs, focal, args);
    case _ =>
  }

  lemma {:induction false} TameReduceArgs(vars: iset<Var>, fs: map<string, Func>, focal: set<Var>, args: seq<Expr>)
    requires TameArgs(vars, args)
    ensures TameSeq(vars, ReduceArgs(fs, focal, args))
    decreases args, 0
  {
    if args != [] {
      TameReduceDo(vars, fs, focal, args[0]);
      TameReduceArgs(vars, fs, focal, args[1..]);
      assert ReduceArgs(fs, focal, args)[1..] == ReduceArgs(fs, focal, args[1..]);
    }
  }

  lemma {:induction false} TameReduceStmt(vars: iset<Var>, fs: map<string, Func>, focal: set<Var>, s: Stmt)
    requires TameStmt(vars, s)
    ensures TameStmt(vars, ReduceStmt(fs, focal, s))
    decreases s, 1
  {
    match s
    case Do(e) => TameReduceDo(vars, fs, focal, e);
    case Block(body) => TameReduceSeq(vars, fs, focal, body);
    case If(_, thn, els) =>
      TameReduceStmt(vars, fs, focal, thn);
      if els.Some? { TameReduceStmt(vars, fs, focal, els.value); }
    case For(_, _, _, loop) => TameReduceStmt(vars, fs, focal, loop);
    case _ =>
  }

  lemma {:induction false} TameReduceSeq(vars: iset<Var>, fs: map<string, Func>, focal: set<Var>, ss: seq<Stmt>)
    requires TameSeq(vars, ss)
    ensures TameSeq(vars, ReduceSeq(fs, focal, ss))
    decreases ss, 0
  {
    if ss != [] {
      TameReduceStmt(vars, fs, focal, ss[0]);
      TameReduceSeq(vars, fs, focal, ss[1..]);
      assert ReduceSeq(fs, focal, ss)[1..] == ReduceSeq(fs, focal, ss[1..]);
    }
  }

  // ----- folding constants -----

  lemma {:induction false} TameFoldExpr(vars: iset<Var>, fs: map<string, Func>, e: Expr)
    requires TameExpr(vars, e)
    ensures TameExpr(vars, FoldExpr(fs, e))
    decreases e, 1
  {
    hide Pure, FoldBin, AbsorbsLeft, AbsorbsRight, NeutralLeft, NeutralRight, BoundaryLeft, BoundaryRight;
    match e
    case Bin(_, l, r) => TameFoldExpr(vars, fs, l); TameFoldExpr(vars, fs, r);
    case Logic(_, l, r) => TameFoldExpr(vars, fs, l); TameFoldExpr(vars, fs, r);
    case Un(_, x) => TameFoldExpr(vars, fs, x);
    case Cond(c, l, r) => TameFoldExpr(vars, fs, c); TameFoldExpr(vars, fs, l); TameFoldExpr(vars, fs, r);
    case Assign(_, _, x) => TameFoldExpr(vars, fs, x);
    case Call(_, args) => TameFoldArgs(vars, fs, args);
    case Print(_, args) => TameFoldArgs(vars, fs, args);
    case _ =>
  }

  lemma {:induction false} TameFoldArgs(vars: iset<Var>, fs: map<string, Func>, args: seq<Expr>)
    requires TameArgs(vars, args)
    ensures TameArgs(vars, FoldArgs(fs, args))
    decreases args, 0
  {
    if args != [] {
      TameFoldExpr(vars, fs, args[0]);
      TameFoldArgs(vars, fs, args[1..]);
      assert FoldArgs(fs, args)[1..] == FoldArgs(fs, args[1..]);
    }
  }

  lemma TameFoldVoid(vars: iset<Var>, fs: map<string, Func>, e: Expr)
    requires TameVoid(vars, e)
    ensures TameVoid(vars, FoldExpr(fs, e))
  {
    if !e.Crement? { TameFoldExpr(vars, fs, e); }
  }

  lemma {:induction false} TameFoldStmt(vars: iset<Var>, fs: map<string, Func>, s: Stmt)
    requires TameStmt(vars, s)
    ensures TameStmt(vars, FoldStmt(fs, s))
    decreases s, 1
  {
    hide FoldExpr;
    match s
    case Do(e) => TameFoldVoid(vars, fs, e);
    case Return(e) => TameFoldExpr(vars, fs, e);
    case Block(body) => TameFoldSeq(vars, fs, body);
    case If(c, thn, els) =>
      TameFoldExpr(vars, fs, c);
      TameFoldStmt(vars, fs, thn);
      if els.Some? { TameFoldStmt(vars, fs, els.value); }
    case For(init, c, incr, loop) =>
      if init.Some? { TameFoldVoid(vars, fs, init.value); }
      TameFoldExpr(vars, fs, c);
      if incr.Some? { TameFoldVoid(vars, fs, incr.value); }
      TameFoldStmt(vars, fs, loop);
    case _ =>
  }

  lemma {:induction false} TameFoldSeq(vars: iset<Var>, fs: map<string, Func>, ss: seq<Stmt>)
    requires TameSeq(vars, ss)
    ensures TameSeq(vars, FoldSeq(fs, ss))
    decreases ss, 0
  {
    if ss != [] {
      TameFoldStmt(vars, fs, ss[0]);
      TameFoldSeq(vars, fs, ss[1..]);
      assert FoldSeq(fs, ss)[1..] == FoldSeq(fs, ss[1..]);
    }
  }
}
