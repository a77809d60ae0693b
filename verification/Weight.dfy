/**
 A weight for programs that every rewrite that reports a change lowers, and that no
 rewrite raises.  It bounds the number of rounds of the relaxation loop.
 */
module Weight {
  import opened Basics
  import opened Arith64
  import opened Syntax
  import opened VarUse
  import opened Frame
  import opened DeadAssign
  import opened DeadStmt
  import opened VoidReduce
  import opened ConstFold

  function ExprWeight(e: Expr): (w: nat)
    ensures w >= 1
    decreases e, 1
  {
    match e
    case Bin(_, l, r) => 4 + ExprWeight(l) + ExprWeight(r)
    case Logic(_, l, r) => 4 + ExprWeight(l) + ExprWeight(r)
    case Un(_, x) => 1 + ExprWeight(x)
    case Cond(c, l, r) => 4 + ExprWeight(c) + ExprWeight(l) + ExprWeight(r)
    case Assign(_, _, x) => 1 + ExprWeight(x)
    case Call(_, args) => 2 + ArgsWeight(args)
    case Print(_, args) => 2 + ArgsWeight(args)
    case _ => 1
  }

  function ArgsWeight(args: seq<Expr>): nat
    decreases args, 0
  {
    if args == [] then 0 else 1 + ExprWeight(args[0]) + ArgsWeight(args[1..])
  }

  function OptWeight(e: Option<Expr>): nat { match e case None => 0 case Some(x) => ExprWeight(x) }

  function StmtWeight(s: Stmt): (w: nat)
    ensures w >= 1
    decreases s, 1
  {
    match s
    case Do(e) => 1 + ExprWeight(e)
    case Return(e) => 1 + ExprWeight(e)
    case Block(body) => 1 + SeqWeight(body)
    case If(c, thn, els) => 1 + ExprWeight(c) + StmtWeight(thn) + (if els.Some? then StmtWeight(els.value) else 0)
    case For(init, c, incr, loop) => 1 + OptWeight(init) + ExprWeight(c) + OptWeight(incr) + StmtWeight(loop)
    case _ => 1
  }

  function SeqWeight(ss: seq<Stmt>): nat
    decreases ss, 0
  {
    if ss == [] then 0 else StmtWeight(ss[0]) + SeqWeight(ss[1..])
  }

  lemma {:induction false} SeqWeightAppend(xs: seq<Stmt>, ys: seq<Stmt>)
    ensures SeqWeight(xs + ys) == SeqWeight(xs) + SeqWeight(ys)
    decreases xs
  {
    if xs == [] {
      assert xs + ys == ys;
    } else {
      SeqWeightAppend(xs[1..], ys);
      assert (xs + ys)[1..] == xs[1..] + ys;
    }
  }

  /** The outcome of a rewrite: the same, or lighter. */
  predicate Lighter<T(==)>(x: T, y: T, wx: nat, wy: nat) { y == x || wy < wx }

  predicate LighterExpr(e: Expr, e': Expr) { Lighter(e, e', ExprWeight(e), ExprWeight(e')) }

  // ----- stripping assignments -----

  lemma {:induction false} StripExprWeight(dead: Var -> bool, e: Expr)
    ensures Lighter(e, StripExpr(dead, e), ExprWeight(e), ExprWeight(StripExpr(dead, e)))
    decreases e, 1
  {
    match e
    case Bin(_, l, r) => StripExprWeight(dead, l); StripExprWeight(dead, r);
    case Logic(_, l, r) => StripExprWeight(dead, l); StripExprWeight(dead, r);
    case Un(_, x) => StripExprWeight(dead, x);
    case Cond(c, l, r) => StripExprWeight(dead, c); StripExprWeight(dead, l); StripExprWeight(dead, r);
    case Assign(_, _, x) => StripExprWeight(dead, x);
    case Call(_, args) => StripArgsWeight(dead, args);
    case Print(_, args) => StripArgsWeight(dead, args);
    case _ =>
  }

  lemma {:induction false} StripArgsWeight(dead: Var -> bool, args: seq<Expr>)
    ensures Lighter(args, StripArgs(dead, args), ArgsWeight(args), ArgsWeight(StripArgs(dead, args)))
    decreases args, 0
  {
    if args != [] {
      StripExprWeight(dead, args[0]);
      StripArgsWeight(dead, args[1..]);
      assert StripArgs(dead, args)[1..] == StripArgs(dead, args[1..]);
      assert args == [args[0]] + args[1..];
    }
  }

  lemma StripOptWeight(dead: Var -> bool, e: Option<Expr>)
    ensures Lighter(e, StripOpt(dead, e), OptWeight(e), OptWeight(StripOpt(dead, e)))
  {
    if e.Some? { StripExprWeight(dead, e.value); }
  }

  lemma {:induction false} StripStmtWeight(dead: Var -> bool, s: Stmt)
    ensures Lighter(s, StripStmt(dead, s), StmtWeight(s), StmtWeight(StripStmt(dead, s)))
    decreases s, 1
  {
    match s
    case Do(e) => StripExprWeight(dead, e);
    case Return(e) => StripExprWeight(dead, e);
    case Block(body) => StripSeqWeight(dead, body);
    case If(c, thn, els) =>
      StripExprWeight(dead, c);
      StripStmtWeight(dead, thn);
      if els.Some? { StripStmtWeight(dead, els.value); }
    case For(init, c, incr, loop) =>
      StripOptWeight(dead, init);
      StripExprWeight(dead, c);
      StripOptWeight(dead, incr);
      StripStmtWeight(dead, loop);
    case _ =>
  }

  lemma {:induction false} StripSeqWeight(dead: Var -> bool, ss: seq<Stmt>)
    ensures Lighter(ss, StripSeq(dead, ss), SeqWeight(ss), SeqWeight(StripSeq(dead, ss)))
    decreases ss, 0
  {
    if ss != [] {
      StripStmtWeight(dead, ss[0]);
      StripSeqWeight(dead, ss[1..]);
      assert StripSeq(dead, ss)[1..] == StripSeq(dead, ss[1..]);
      assert ss == [ss[0]] + ss[1..];
    }
  }

  // ----- pruning statements -----

  /** Whether pruning reports a change.  Dropping null statements, empty or singleton blocks, and
      conditionals and loops without effect goes unreported, and so does turning a conditional
      around. */
  predicate PruneHit(fs: map<string, Func>, focal: set<Var>, s: Stmt)
    decreases s, 1
  {
    match s
    case Do(e) => SideEffectFreeWrt(UseExpr(fs, NO_USE, e), focal)
    case Block(body) => PruneSeqHit(fs, focal, body)
    case If(_, thn, els) => PruneHit(fs, focal, thn) || (els.Some? && PruneHit(fs, focal, els.value))
    case For(_, _, _, loop) => PruneHit(fs, focal, loop)
    case _ => false
  }

  predicate PruneSeqHit(fs: map<string, Func>, focal: set<Var>, ss: seq<Stmt>)
    decreases ss, 0
  {
    if ss == [] then false
    else
      var first := PruneStmt(fs, focal, ss[0]);
      PruneHit(fs, focal, ss[0]) || (first.Some? && first.value.Block?) || PruneSeqHit(fs, focal, ss[1..])
  }

  function LeftWeight(s: Option<Stmt>): nat { match s case None => 0 case Some(x) => StmtWeight(x) }

  lemma {:induction false} PruneStmtWeight(fs: map<string, Func>, focal: set<Var>, s: Stmt)
    ensures LeftWeight(PruneStmt(fs, focal, s)) <= StmtWeight(s)
    ensures PruneHit(fs, focal, s) ==> LeftWeight(PruneStmt(fs, focal, s)) < StmtWeight(s) && StmtWeight(s) >= 2
    decreases s, 1
  {
    hide SideEffectFree, SideEffectFreeWrt, UseHead, PruneIf;
    match s
    case Block(body) => PruneSeqWeight(fs, focal, body); PackWeight(PruneSeq(fs, focal, body));
    case If(c, thn, els) =>
      PruneStmtWeight(fs, focal, thn);
      if els.Some? { PruneStmtWeight(fs, focal, els.value); }
      PruneIfWeight(fs, c, PruneStmt(fs, focal, thn), if els.Some? then PruneStmt(fs, focal, els.value) else None);
    case For(_, _, _, loop) =>
      PruneStmtWeight(fs, focal, loop);
      assert StmtWeight(Null) == 1;
    case _ =>
  }

  lemma PruneIfWeight(fs: map<string, Func>, c: Expr, thn: Option<Stmt>, els: Option<Stmt>)
    ensures var t := LeftWeight(thn);
      LeftWeight(PruneIf(fs, c, thn, els)) <= 1 + ExprWeight(c) + (if t == 0 then 1 else t) + LeftWeight(els)
  {
    hide SideEffectFree;
  }

  lemma PackWeight(ss: seq<Stmt>)
    ensures LeftWeight(Pack(ss)) <= 1 + SeqWeight(ss)
    ensures |ss| <= 1 ==> LeftWeight(Pack(ss)) == SeqWeight(ss)
  {
    if |ss| == 1 { assert ss[1..] == []; }
  }

  lemma SpreadWeight(s: Option<Stmt>)
    ensures SeqWeight(Spread(s)) == if s.Some? && s.value.Block? then LeftWeight(s) - 1 else LeftWeight(s)
  {
    if s.Some? && !s.value.Block? { assert [s.value][1..] == []; }
  }

  lemma {:induction false} PruneSeqWeight(fs: map<string, Func>, focal: set<Var>, ss: seq<Stmt>)
    ensures SeqWeight(PruneSeq(fs, focal, ss)) <= SeqWeight(ss)
    ensures PruneSeqHit(fs, focal, ss) ==> SeqWeight(PruneSeq(fs, focal, ss)) < SeqWeight(ss)
    decreases ss, 0
  {
    if ss != [] {
      var first := PruneStmt(fs, focal, ss[0]);
      PruneStmtWeight(fs, focal, ss[0]);
      PruneSeqWeight(fs, focal, ss[1..]);
      SpreadWeight(first);
      SeqWeightAppend(Spread(first), PruneSeq(fs, focal, ss[1..]));
    }
  }

  // ----- reducing void expressions -----

  lemma {:induction false} ReduceDoWeight(fs: map<string, Func>, focal: set<Var>, e: Expr)
    ensures Lighter(Do(e), ReduceDo(fs, focal, e), StmtWeight(Do(e)), StmtWeight(ReduceDo(fs, focal, e)))
    decreases e, 1
  {
    hide SideEffectFreeWrt, UseCallee;
    match e
    case Bin(_, _, _) => ReduceTwoWeight(fs, focal, e);
    case Logic(_, _, r) => ReduceDoWeight(fs, focal, r);
    case Un(_, x) => ReduceDoWeight(fs, focal, x);
    case Cond(_, _, _) => ReduceTwoWeight(fs, focal, e);
    case Call(_, args) => ReduceArgsWeight(fs, focal, args);
    case Print(_, args) => ReduceArgsWeight(fs, focal, args);
    case _ =>
  }

  lemma {:induction false} ReduceTwoWeight(fs: map<string, Func>, focal: set<Var>, e: Expr)
    requires e.Bin? || e.Cond?
    ensures Lighter(Do(e), ReduceDo(fs, focal, e), StmtWeight(Do(e)), StmtWeight(ReduceDo(fs, focal, e)))
    decreases e, 0
  {
    hide SideEffectFreeWrt, UseCallee;
    match e
    case Bin(_, l, r) =>
      ReduceDoWeight(fs, focal, l);
      ReduceDoWeight(fs, focal, r);
      PairWeight(ReduceDo(fs, focal, l), ReduceDo(fs, focal, r));
    case Cond(_, l, r) => ReduceDoWeight(fs, focal, l); ReduceDoWeight(fs, focal, r);
  }

  lemma PairWeight(a: Stmt, b: Stmt)
    ensures SeqWeight([a, b]) == StmtWeight(a) + StmtWeight(b)
  {
    assert [a, b][1..] == [b] && [b][1..] == [];
    assert SeqWeight([b]) == StmtWeight(b);
  }

  lemma {:induction false} ReduceArgsWeight(fs: map<string, Func>, focal: set<Var>, args: seq<Expr>)
    ensures SeqWeight(ReduceArgs(fs, focal, args)) <= ArgsWeight(args)
    decreases args, 0
  {
    if args != [] {
      ReduceDoWeight(fs, focal, args[0]);
      ReduceArgsWeight(fs, focal, args[1..]);
      assert ReduceArgs(fs, focal, args)[1..] == ReduceArgs(fs, focal, args[1..]);
    }
  }

  lemma {:induction false} ReduceStmtWeight(fs: map<string, Func>, focal: set<Var>, s: Stmt)
    ensures Lighter(s, ReduceStmt(fs, focal, s), StmtWeight(s), StmtWeight(ReduceStmt(fs, focal, s)))
    decreases s, 1
  {
    match s
    case Do(e) => ReduceDoWeight(fs, focal, e);
    case Block(body) => ReduceSeqWeight(fs, focal, body);
    case If(_, thn, els) =>
      ReduceStmtWeight(fs, focal, thn);
      if els.Some? { ReduceStmtWeight(fs, focal, els.value); }
    case For(_, _, _, loop) => ReduceStmtWeight(fs, focal, loop);
    case _ =>
  }

  lemma {:induction false} ReduceSeqWeight(fs: map<string, Func>, focal: set<Var>, ss: seq<Stmt>)
    ensures Lighter(ss, ReduceSeq(fs, focal, ss), SeqWeight(ss), SeqWeight(ReduceSeq(fs, focal, ss)))
    decreases ss, 0
  {
    if ss != [] {
      ReduceStmtWeight(fs, focal, ss[0]);
      ReduceSeqWeight(fs, focal, ss[1..]);
      assert ReduceSeq(fs, focal, ss)[1..] == ReduceSeq(fs, focal, ss[1..]);
      assert ss == [ss[0]] + ss[1..];
    }
  }

  // ----- folding constants -----

  lemma FoldBinaryWeight(fs: map<string, Func>, op: Op2, l: Expr, r: Expr)
    ensures var e := Bin(op, l, r);
            LighterExpr(e, FoldBinary(fs, op, l, r))
  {
    hide Pure, FoldBin, AbsorbsLeft, AbsorbsRight, NeutralLeft, NeutralRight, BoundaryLeft, BoundaryRight;
  }

  lemma FoldLogicWeight(fs: map<string, Func>, isOr: bool, l: Expr, r: Expr)
    ensures var e := Logic(isOr, l, r);
            LighterExpr(e, FoldLogic(fs, isOr, l, r))
  {
    hide Pure;
  }

  lemma FoldUnaryWeight(op: UnOp, x: Expr)
    ensures LighterExpr(Un(op, x), FoldUnary(op, x))
  {
  }

  lemma FoldCondWeight(c: Expr, l: Expr, r: Expr, c': Expr, l': Expr, r': Expr)
    requires LighterExpr(c, c') && LighterExpr(l, l') && LighterExpr(r, r')
    ensures LighterExpr(Cond(c, l, r), Cond(c', l', r'))
    ensures LighterExpr(Cond(c, l, r), l') && LighterExpr(Cond(c, l, r), r')
  {
  }

  lemma {:induction false} FoldExprWeight(fs: map<string, Func>, e: Expr)
    ensures LighterExpr(e, FoldExpr(fs, e))
    decreases e, 1
  {
    hide FoldBinary, FoldLogic, FoldUnary;
    match e
    case Bin(op, l, r) =>
      FoldExprWeight(fs, l);
      FoldExprWeight(fs, r);
      assert LighterExpr(e, Bin(op, FoldExpr(fs, l), FoldExpr(fs, r)));
      FoldBinaryWeight(fs, op, FoldExpr(fs, l), FoldExpr(fs, r));
    case Logic(isOr, l, r) =>
      FoldExprWeight(fs, l);
      FoldExprWeight(fs, r);
      assert LighterExpr(e, Logic(isOr, FoldExpr(fs, l), FoldExpr(fs, r)));
      FoldLogicWeight(fs, isOr, FoldExpr(fs, l), FoldExpr(fs, r));
    case Un(op, x) =>
      FoldExprWeight(fs, x);
      FoldUnaryWeight(op, FoldExpr(fs, x));
    case Cond(c, l, r) =>
      FoldExprWeight(fs, c);
      FoldExprWeight(fs, l);
      FoldExprWeight(fs, r);
      FoldCondWeight(c, l, r, FoldExpr(fs, c), FoldExpr(fs, l), FoldExpr(fs, r));
    case Assign(_, _, x) => FoldExprWeight(fs, x);
    case Call(_, args) => FoldArgsWeight(fs, args);
    case Print(_, args) => FoldArgsWeight(fs, args);
    case _ =>
  }

  lemma {:induction false} FoldArgsWeight(fs: map<string, Func>, args: seq<Expr>)
    ensures Lighter(args, FoldArgs(fs, args), ArgsWeight(args), ArgsWeight(FoldArgs(fs, args)))
    decreases args, 0
  {
    if args != [] {
      FoldExprWeight(fs, args[0]);
      FoldArgsWeight(fs, args[1..]);
      assert FoldArgs(fs, args)[1..] == FoldArgs(fs, args[1..]);
      assert args == [args[0]] + args[1..];
    }
  }

  lemma FoldOptWeight(fs: map<string, Func>, e: Option<Expr>)
    ensures Lighter(e, FoldOpt(fs, e), OptWeight(e), OptWeight(FoldOpt(fs, e)))
  {
    if e.Some? { FoldExprWeight(fs, e.value); }
  }

  lemma {:induction false} FoldStmtWeight(fs: map<string, Func>, s: Stmt)
    ensures Lighter(s, FoldStmt(fs, s), StmtWeight(s), StmtWeight(FoldStmt(fs, s)))
    decreases s, 1
  {
    hide FoldExpr;
    match s
    case Do(e) => FoldExprWeight(fs, e);
    case Return(e) => FoldExprWeight(fs, e);
    case Block(body) => FoldSeqWeight(fs, body);
    case If(_, _, _) => FoldIfWeight(fs, s);
    case For(_, _, _, _) => FoldForWeight(fs, s);
    case _ =>
  }

  lemma {:induction false} FoldIfWeight(fs: map<string, Func>, s: Stmt)
    requires s.If?
    ensures Lighter(s, FoldStmt(fs, s), StmtWeight(s), StmtWeight(FoldStmt(fs, s)))
    decreases s, 0
  {
    hide FoldExpr, ExprWeight;
    FoldExprWeight(fs, s.c);
    FoldStmtWeight(fs, s.thn);
    if s.els.Some? { FoldStmtWeight(fs, s.els.value); }
  }

  lemma {:induction false} FoldForWeight(fs: map<string, Func>, s: Stmt)
    requires s.For?
    ensures Lighter(s, FoldStmt(fs, s), StmtWeight(s), StmtWeight(FoldStmt(fs, s)))
    decreases s, 0
  {
    hide FoldExpr, ExprWeight;
    FoldOptWeight(fs, s.init);
    FoldExprWeight(fs, s.c);
    FoldOptWeight(fs, s.incr);
    FoldStmtWeight(fs, s.loop);
  }

  lemma {:induction false} FoldSeqWeight(fs: map<string, Func>, ss: seq<Stmt>)
    ensures Lighter(ss, FoldSeq(fs, ss), SeqWeight(ss), SeqWeight(FoldSeq(fs, ss)))
    decreases ss, 0
  {
    if ss != [] {
      FoldStmtWeight(fs, ss[0]);
      FoldSeqWeight(fs, ss[1..]);
      assert FoldSeq(fs, ss)[1..] == FoldSeq(fs, ss[1..]);
      assert ss == [ss[0]] + ss[1..];
    }
  }
}
