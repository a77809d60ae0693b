/**
 Dead-assignment removal: `x = e` becomes `e` when no code reads x.
 */
module DeadAssign {
  import opened Basics
  import opened Syntax

  /** Rewrites every assignment to a variable that `dead` holds of. */
  function StripExpr(dead: Var -> bool, e: Expr): Expr
    decreases e, 1
  {
    match e
    case Bin(op, l, r) => Bin(op, StripExpr(dead, l), StripExpr(dead, r))
    case Logic(isOr, l, r) => Logic(isOr, StripExpr(dead, l), StripExpr(dead, r))
    case Un(op, x) => Un(op, StripExpr(dead, x))
    case Cond(c, l, r) => Cond(StripExpr(dead, c), StripExpr(dead, l), StripExpr(dead, r))
    case Assign(v, how, x) => if dead(v) then StripExpr(dead, x) else Assign(v, how, StripExpr(dead, x))
    case Call(f, args) => Call(f, StripArgs(dead, args))
    case Print(stream, args) => Print(stream, StripArgs(dead, args))
    case _ => e
  }

  function StripArgs(dead: Var -> bool, args: seq<Expr>): (r: seq<Expr>)
    ensures |r| == |args|
    decreases args, 0
  {
    if args == [] then [] else [StripExpr(dead, args[0])] + StripArgs(dead, args[1..])
  }

  function StripOpt(dead: Var -> bool, e: Option<Expr>): Option<Expr> {
    match e case None => None case Some(x) => Some(StripExpr(dead, x))
  }

  function StripStmt(dead: Var -> bool, s: Stmt): Stmt
    decreases s, 1
  {
    match s
    case Do(e) => Do(StripExpr(dead, e))
    case Return(e) => Return(StripExpr(dead, e))
    case Block(body) => Block(StripSeq(dead, body))
    case If(c, thn, els) =>
      If(StripExpr(dead, c), StripStmt(dead, thn), if els.Some? then Some(StripStmt(dead, els.value)) else None)
    case For(init, c, incr, loop) =>
      For(StripOpt(dead, init), StripExpr(dead, c), StripOpt(dead, incr), StripStmt(dead, loop))
    case _ => s
  }

  function StripSeq(dead: Var -> bool, ss: seq<Stmt>): (r: seq<Stmt>)
    ensures |r| == |ss|
    decreases ss, 0
  {
    if ss == [] then [] else [StripStmt(dead, ss[0])] + StripSeq(dead, ss[1..])
  }

  // ----- the variables assigned to -----

  function TargetsExpr(e: Expr): set<Var>
    decreases e, 1
  {
    match e
    case Bin(_, l, r) => TargetsExpr(l) + TargetsExpr(r)
    case Logic(_, l, r) => TargetsExpr(l) + TargetsExpr(r)
    case Un(_, x) => TargetsExpr(x)
    case Cond(c, l, r) => TargetsExpr(c) + TargetsExpr(l) + TargetsExpr(r)
    case Assign(v, _, x) => {v} + TargetsExpr(x)
    case Call(_, args) => TargetsArgs(args)
    case Print(_, args) => TargetsArgs(args)
    case _ => {}
  }

  function TargetsArgs(args: seq<Expr>): set<Var>
    decreases args, 0
  {
    if args == [] then {} else TargetsExpr(args[0]) + TargetsArgs(args[1..])
  }

  function TargetsOpt(e: Option<Expr>): set<Var> { match e case None => {} case Some(x) => TargetsExpr(x) }

  function TargetsStmt(s: Stmt): set<Var>
    decreases s, 1
  {
    match s
    case Do(e) => TargetsExpr(e)
    case Return(e) => TargetsExpr(e)
    case Block(body) => TargetsSeq(body)
    case If(c, thn, els) => TargetsExpr(c) + TargetsStmt(thn) + if els.Some? then TargetsStmt(els.value) else {}
    case For(init, c, incr, loop) => TargetsOpt(init) + TargetsExpr(c) + TargetsOpt(incr) + TargetsStmt(loop)
    case _ => {}
  }

  function TargetsSeq(ss: seq<Stmt>): set<Var>
    decreases ss, 0
  {
    if ss == [] then {} else TargetsStmt(ss[0]) + TargetsSeq(ss[1..])
  }

  // ----- what is stripped depends on the variables assigned to, and on no others -----

  predicate Agree(vs: set<Var>, dead: Var -> bool, dead': Var -> bool) { forall v | v in vs :: dead(v) == dead'(v) }

  lemma {:induction false} StripSameExpr(dead: Var -> bool, dead': Var -> bool, e: Expr)
    requires Agree(TargetsExpr(e), dead, dead')
    ensures StripExpr(dead, e) == StripExpr(dead', e)
    decreases e, 1
  {
    match e
    case Bin(_, l, r) => StripSameExpr(dead, dead', l); StripSameExpr(dead, dead', r);
    case Logic(_, l, r) => StripSameExpr(dead, dead', l); StripSameExpr(dead, dead', r);
    case Un(_, x) => StripSameExpr(dead, dead', x);
    case Cond(c, l, r) => StripSameExpr(dead, dead', c); StripSameExpr(dead, dead', l); StripSameExpr(dead, dead', r);
    case Assign(_, _, x) => StripSameExpr(dead, dead', x);
    case Call(_, args) => StripSameArgs(dead, dead', args);
    case Print(_, args) => StripSameArgs(dead, dead', args);
    case _ =>
  }

  lemma {:induction false} StripSameArgs(dead: Var -> bool, dead': Var -> bool, args: seq<Expr>)
    requires Agree(TargetsArgs(args), dead, dead')
    ensures StripArgs(dead, args) == StripArgs(dead', args)
    decreases args, 0
  {
    if args != [] { StripSameExpr(dead, dead', args[0]); StripSameArgs(dead, dead', args[1..]); }
  }

  lemma {:induction false} StripSameStmt(dead: Var -> bool, dead': Var -> bool, s: Stmt)
    requires Agree(TargetsStmt(s), dead, dead')
    ensures StripStmt(dead, s) == StripStmt(dead', s)
    decreases s, 1
  {
    match s
    case Do(e) => StripSameExpr(dead, dead', e);
    case Return(e) => StripSameExpr(dead, dead', e);
    case Block(body) => StripSameSeq(dead, dead', body);
    case If(c, thn, els) =>
      StripSameExpr(dead, dead', c);
      StripSameStmt(dead, dead', thn);
      if els.Some? { StripSameStmt(dead, dead', els.value); }
    case For(init, c, incr, loop) =>
      if init.Some? { StripSameExpr(dead, dead', init.value); }
      StripSameExpr(dead, dead', c);
      if incr.Some? { StripSameExpr(dead, dead', incr.value); }
      StripSameStmt(dead, dead', loop);
    case _ =>
  }

  lemma {:induction false} StripSameSeq(dead: Var -> bool, dead': Var -> bool, ss: seq<Stmt>)
    requires Agree(TargetsSeq(ss), dead, dead')
    ensures StripSeq(dead, ss) == StripSeq(dead', ss)
    decreases ss, 0
  {
    if ss != [] { StripSameStmt(dead, dead', ss[0]); StripSameSeq(dead, dead', ss[1..]); }
  }

  // ----- with nothing dead, nothing changes -----

  function NoneDead(): Var -> bool { v => false }

  lemma {:induction false} StripNoneExpr(e: Expr)
    ensures StripExpr(NoneDead(), e) == e
    decreases e, 1
  {
    match e
    case Bin(_, l, r) => StripNoneExpr(l); StripNoneExpr(r);
    case Logic(_, l, r) => StripNoneExpr(l); StripNoneExpr(r);
    case Un(_, x) => StripNoneExpr(x);
    case Cond(c, l, r) => StripNoneExpr(c); StripNoneExpr(l); StripNoneExpr(r);
    case Assign(_, _, x) => StripNoneExpr(x);
    case Call(_, args) => StripNoneArgs(args);
    case Print(_, args) => StripNoneArgs(args);
    case _ =>
  }

  lemma {:induction false} StripNoneArgs(args: seq<Expr>)
    ensures StripArgs(NoneDead(), args) == args
    decreases args, 0
  {
    if args != [] { StripNoneExpr(args[0]); StripNoneArgs(args[1..]); }
  }

  lemma {:induction false} StripNoneStmt(s: Stmt)
    ensures StripStmt(NoneDead(), s) == s
    decreases s, 1
  {
    match s
    case Do(e) => StripNoneExpr(e);
    case Return(e) => StripNoneExpr(e);
    case Block(body) => StripNoneSeq(body);
    case If(c, thn, els) =>
      StripNoneExpr(c);
      StripNoneStmt(thn);
      if els.Some? { StripNoneStmt(els.value); }
    case For(init, c, incr, loop) =>
      if init.Some? { StripNoneExpr(init.value); }
      StripNoneExpr(c);
      if incr.Some? { StripNoneExpr(incr.value); }
      StripNoneStmt(loop);
    case _ =>
  }

  lemma {:induction false} StripNoneSeq(ss: seq<Stmt>)
    ensures StripSeq(NoneDead(), ss) == ss
    decreases ss, 0
  {
    if ss != [] { StripNoneStmt(ss[0]); StripNoneSeq(ss[1..]); }
  }

  // ----- `++` and `--` -----

  // The analysis counts `x++` as a write of x only, so the removal may leave x with another
  // value than the source had when `x++` is evaluated.  That is harmless where the value of
  // `x++` is not used: as a statement, or as the initialisation or increment of a loop.

  predicate QuietExpr(vars: iset<Var>, e: Expr)
    decreases e, 1
  {
    match e
    case Crement(v, _, _) => v !in vars
    case Bin(_, l, r) => QuietExpr(vars, l) && QuietExpr(vars, r)
    case Logic(_, l, r) => QuietExpr(vars, l) && QuietExpr(vars, r)
    case Un(_, x) => QuietExpr(vars, x)
    case Cond(c, l, r) => QuietExpr(vars, c) && QuietExpr(vars, l) && QuietExpr(vars, r)
    case Assign(_, _, x) => QuietExpr(vars, x)
    case Call(_, args) => QuietArgs(vars, args)
    case Print(_, args) => QuietArgs(vars, args)
    case _ => true
  }

  predicate QuietArgs(vars: iset<Var>, args: seq<Expr>)
    decreases args, 0
  {
    args == [] || (QuietExpr(vars, args[0]) && QuietArgs(vars, args[1..]))
  }

  /** In void context the value of a `++` or `--` is not used. */
  predicate QuietVoid(vars: iset<Var>, e: Expr) { e.Crement? || QuietExpr(vars, e) }

  predicate QuietOpt(vars: iset<Var>, e: Option<Expr>) { e.Some? ==> QuietVoid(vars, e.value) }

  /** No `++` or `--` of a variable in `vars` is used for its value. */
  predicate QuietStmt(vars: iset<Var>, s: Stmt)
    decreases s, 1
  {
    match s
    case Do(e) => QuietVoid(vars, e)
    case Return(e) => QuietExpr(vars, e)
    case Block(body) => QuietSeq(vars, body)
    case If(c, thn, els) => QuietExpr(vars, c) && QuietStmt(vars, thn) && (els.Some? ==> QuietStmt(vars, els.value))
    case For(init, c, incr, loop) =>
      QuietOpt(vars, init) && QuietExpr(vars, c) && QuietOpt(vars, incr) && QuietStmt(vars, loop)
    case _ => true
  }

  predicate QuietSeq(vars: iset<Var>, ss: seq<Stmt>)
    decreases ss, 0
  {
    ss == [] || (QuietStmt(vars, ss[0]) && QuietSeq(vars, ss[1..]))
  }
}
