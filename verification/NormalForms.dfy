/**
 What the passes achieve: the forms that are left in no body they have rewritten, and in no
 session over which a round reports no change.
 */
module NormalForms {
  import opened Basics
  import opened Arith64
  import opened Syntax
  import opened Semantics
  import opened VarUse
  import opened Frame
  import opened DeadAssign
  import opened DeadStmt
  import opened VoidReduce
  import opened ConstFold
  import opened Passes
  import opened Relax

  // ----- pass 3: exactly the assignments to dead variables go -----

  ghost predicate Live(dead: Var -> bool, before: set<Var>, after: set<Var>) {
    forall v :: v in after <==> v in before && !dead(v)
  }

  lemma {:induction false} StripExprExact(dead: Var -> bool, e: Expr)
    ensures Live(dead, TargetsExpr(e), TargetsExpr(StripExpr(dead, e)))
    decreases e, 1
  {
    match e
    case Bin(_, l, r) => StripExprExact(dead, l); StripExprExact(dead, r);
    case Logic(_, l, r) => StripExprExact(dead, l); StripExprExact(dead, r);
    case Un(_, x) => StripExprExact(dead, x);
    case Cond(c, l, r) => StripExprExact(dead, c); StripExprExact(dead, l); StripExprExact(dead, r);
    case Assign(_, _, x) => StripExprExact(dead, x);
    case Call(_, args) => StripArgsExact(dead, args);
    case Print(_, args) => StripArgsExact(dead, args);
    case _ =>
  }

  lemma {:induction false} StripArgsExact(dead: Var -> bool, args: seq<Expr>)
    ensures Live(dead, TargetsArgs(args), TargetsArgs(StripArgs(dead, args)))
    decreases args, 0
  {
    if args != [] {
      StripExprExact(dead, args[0]);
      StripArgsExact(dead, args[1..]);
      assert StripArgs(dead, args)[1..] == StripArgs(dead, args[1..]);
    }
  }

  lemma {:induction false} StripStmtExact(dead: Var -> bool, s: Stmt)
    ensures Live(dead, TargetsStmt(s), TargetsStmt(StripStmt(dead, s)))
    decreases s, 1
  {
    match s
    case Do(e) => StripExprExact(dead, e);
    case Return(e) => StripExprExact(dead, e);
    case Block(body) => StripSeqExact(dead, body);
    case If(c, thn, els) =>
      StripExprExact(dead, c);
      StripStmtExact(dead, thn);
      if els.Some? { StripStmtExact(dead, els.value); }
    case For(init, c, incr, loop) =>
      if init.Some? { StripExprExact(dead, init.value); }
      StripExprExact(dead, c);
      if incr.Some? { StripExprExact(dead, incr.value); }
      StripStmtExact(dead, loop);
    case _ =>
  }

  lemma {:induction false} StripSeqExact(dead: Var -> bool, ss: seq<Stmt>)
    ensures Live(dead, TargetsSeq(ss), TargetsSeq(StripSeq(dead, ss)))
    decreases ss, 0
  {
    if ss != [] {
      StripStmtExact(dead, ss[0]);
      StripSeqExact(dead, ss[1..]);
      assert StripSeq(dead, ss)[1..] == StripSeq(dead, ss[1..]);
    }
  }

  /** The variables still assigned to after pass 3: the globals, the locals that something reads, and
      those with the name of a global. */
  lemma StripAssignmentsExact(p: Program, v: Var)
    ensures v in Targets(StripAssignments(p)) <==>
      v in Targets(p) && (v.Global? || v in SessionUse(p, false).read || exists g | g in p.globals :: g.name == v.name)
  {
    hide SessionUse, StripAssignments, TargetsStmt, Targets;
    StripBodiesExact(p, v);
    TargetsOfBodies(p, StripAssignments(p), v, !DeadIn(p)(v));
  }

  lemma StripBodiesExact(p: Program, v: Var)
    ensures var q, kept := StripAssignments(p), !DeadIn(p)(v);
      && q.funcs.Keys == p.funcs.Keys && |q.probes| == |p.probes|
      && (forall f | f in p.funcs :: v in TargetsStmt(q.funcs[f].body) <==> v in TargetsStmt(p.funcs[f].body) && kept)
      && (forall i | 0 <= i < |p.probes| :: v in TargetsStmt(q.probes[i].body) <==> v in TargetsStmt(p.probes[i].body) && kept)
  {
    hide SessionUse, TargetsStmt, DeadIn, StripStmt;
    var q, dead := StripAssignments(p), DeadIn(p);
    forall f | f in p.funcs ensures v in TargetsStmt(q.funcs[f].body) <==> v in TargetsStmt(p.funcs[f].body) && !dead(v) {
      StripStmtExact(dead, p.funcs[f].body);
    }
    forall i | 0 <= i < |p.probes| ensures v in TargetsStmt(q.probes[i].body) <==> v in TargetsStmt(p.probes[i].body) && !dead(v) {
      StripStmtExact(dead, p.probes[i].body);
    }
  }

  lemma TargetsOfBodies(p: Program, q: Program, v: Var, kept: bool)
    requires q.funcs.Keys == p.funcs.Keys && |q.probes| == |p.probes|
    requires forall f | f in p.funcs :: v in TargetsStmt(q.funcs[f].body) <==> v in TargetsStmt(p.funcs[f].body) && kept
    requires forall i | 0 <= i < |p.probes| :: v in TargetsStmt(q.probes[i].body) <==> v in TargetsStmt(p.probes[i].body) && kept
    ensures v in Targets(q) <==> v in Targets(p) && kept
  {
    hide TargetsStmt;
    if v in Targets(q) {
      if pr :| pr in q.probes && v in TargetsStmt(pr.body) {
        var i :| 0 <= i < |q.probes| && q.probes[i] == pr;
        assert p.probes[i] in p.probes;
      }
    }
    if v in Targets(p) && kept {
      if pr :| pr in p.probes && v in TargetsStmt(pr.body) {
        var i :| 0 <= i < |p.probes| && p.probes[i] == pr;
        assert q.probes[i] in q.probes;
      }
    }
  }

  // ----- pass 4 -----

  /** No null statement, no expression statement without effect, no block of fewer than two
      statements or with a block in it; a loop is empty only if its head has an effect. */
  ghost predicate Neat(fs: map<string, Func>, s: Stmt)
    decreases s, 1
  {
    match s
    case Null => false
    case Do(e) => !SideEffectFree(UseExpr(fs, NO_USE, e))
    case Block(body) => |body| >= 2 && NeatSeq(fs, body)
    case If(_, thn, els) => Neat(fs, thn) && (els.Some? ==> Neat(fs, els.value))
    case For(init, c, incr, loop) => Neat(fs, loop) || (loop == Null && !SideEffectFree(UseHead(fs, init, c, incr)))
    case _ => true
  }

  ghost predicate NeatSeq(fs: map<string, Func>, ss: seq<Stmt>)
    decreases ss, 0
  {
    ss == [] || (Neat(fs, ss[0]) && !ss[0].Block? && NeatSeq(fs, ss[1..]))
  }

  lemma {:induction false} NeatAppend(fs: map<string, Func>, xs: seq<Stmt>, ys: seq<Stmt>)
    requires NeatSeq(fs, xs) && NeatSeq(fs, ys)
    ensures NeatSeq(fs, xs + ys)
    decreases xs
  {
    if xs == [] {
      assert xs + ys == ys;
    } else {
      NeatAppend(fs, xs[1..], ys);
      assert (xs + ys)[1..] == xs[1..] + ys;
    }
  }

  lemma NotFreeWrt(u: Use, focal: set<Var>)
    requires !SideEffectFreeWrt(u, focal)
    ensures !SideEffectFree(u)
  {
  }

  lemma {:induction false} PruneDone(fs: map<string, Func>, focal: set<Var>, s: Stmt)
    ensures PruneStmt(fs, focal, s).Some? ==> Neat(fs, PruneStmt(fs, focal, s).value)
    decreases s, 1
  {
    hide SideEffectFree, SideEffectFreeWrt, UseHead, UseExpr;
    match s
    case Do(e) =>
      var u := UseExpr(fs, NO_USE, e);
      if !SideEffectFreeWrt(u, focal) { NotFreeWrt(u, focal); }
    case Block(body) =>
      PruneSeqDone(fs, focal, body);
      PackNeat(fs, PruneSeq(fs, focal, body));
    case If(c, thn, els) =>
      PruneDone(fs, focal, thn);
      if els.Some? { PruneDone(fs, focal, els.value); }
    case For(_, _, _, loop) => PruneDone(fs, focal, loop);
    case _ =>
  }

  lemma PackNeat(fs: map<string, Func>, ss: seq<Stmt>)
    requires NeatSeq(fs, ss)
    ensures Pack(ss).Some? ==> Neat(fs, Pack(ss).value)
  {
  }

  lemma {:induction false} PruneSeqDone(fs: map<string, Func>, focal: set<Var>, ss: seq<Stmt>)
    ensures NeatSeq(fs, PruneSeq(fs, focal, ss))
    decreases ss, 0
  {
    if ss != [] {
      PruneDone(fs, focal, ss[0]);
      PruneSeqDone(fs, focal, ss[1..]);
      SpreadNeat(fs, PruneStmt(fs, focal, ss[0]));
      NeatAppend(fs, Spread(PruneStmt(fs, focal, ss[0])), PruneSeq(fs, focal, ss[1..]));
    }
  }

  lemma SpreadNeat(fs: map<string, Func>, s: Option<Stmt>)
    requires s.Some? ==> Neat(fs, s.value)
    ensures NeatSeq(fs, Spread(s))
  {
    hide SideEffectFree, UseHead, UseExpr;
    if s.Some? && !s.value.Block? {
      assert [s.value][1..] == [];
      assert NeatSeq(fs, []);
    }
  }

  // ----- pass 5 -----

  /** An expression statement is an assignment, `++` or `--`, a print to the stream, a leaf, or a
      call that has an effect or no arguments. */
  predicate Direct(fs: map<string, Func>, focal: set<Var>, e: Expr) {
    match e
    case Bin(_, _, _) => false
    case Logic(_, _, _) => false
    case Un(_, _) => false
    case Cond(_, _, _) => false
    case Call(f, args) => args == [] || !SideEffectFreeWrt(UseCallee(fs, f), focal)
    case Print(stream, args) => stream || args == []
    case _ => true
  }

  ghost predicate AllDirect(fs: map<string, Func>, focal: set<Var>, s: Stmt)
    decreases s, 1
  {
    match s
    case Do(e) => Direct(fs, focal, e)
    case Block(body) => AllDirectSeq(fs, focal, body)
    case If(_, thn, els) => AllDirect(fs, focal, thn) && (els.Some? ==> AllDirect(fs, focal, els.value))
    case For(_, _, _, loop) => AllDirect(fs, focal, loop)
    case _ => true
  }

  ghost predicate AllDirectSeq(fs: map<string, Func>, focal: set<Var>, ss: seq<Stmt>)
    decreases ss, 0
  {
    ss == [] || (AllDirect(fs, focal, ss[0]) && AllDirectSeq(fs, focal, ss[1..]))
  }

  lemma {:induction false} ReduceDoDone(fs: map<string, Func>, focal: set<Var>, e: Expr)
    ensures AllDirect(fs, focal, ReduceDo(fs, focal, e))
    decreases e, 1
  {
    hide SideEffectFreeWrt, UseCallee;
    match e
    case Bin(_, l, r) =>
      ReduceDoDone(fs, focal, l);
      ReduceDoDone(fs, focal, r);
      var a, b := ReduceDo(fs, focal, l), ReduceDo(fs, focal, r);
      assert [a, b][1..] == [b] && [b][1..] == [];
      assert AllDirectSeq(fs, focal, [b]);
    case Logic(_, _, r) => ReduceDoDone(fs, focal, r);
    case Un(_, x) => ReduceDoDone(fs, focal, x);
    case Cond(_, l, r) => ReduceDoDone(fs, focal, l); ReduceDoDone(fs, focal, r);
    case Call(_, args) => ReduceArgsDone(fs, focal, args);
    case Print(_, args) => ReduceArgsDone(fs, focal, args);
    case _ =>
  }

  lemma {:induction false} ReduceArgsDone(fs: map<string, Func>, focal: set<Var>, args: seq<Expr>)
    ensures AllDirectSeq(fs, focal, ReduceArgs(fs, focal, args))
    decreases args, 0
  {
    if args != [] {
      ReduceDoDone(fs, focal, args[0]);
      ReduceArgsDone(fs, focal, args[1..]);
      assert ReduceArgs(fs, focal, args)[1..] == ReduceArgs(fs, focal, args[1..]);
    }
  }

  lemma {:induction false} ReduceDone(fs: map<string, Func>, focal: set<Var>, s: Stmt)
    ensures AllDirect(fs, focal, ReduceStmt(fs, focal, s))
    decreases s, 1
  {
    match s
    case Do(e) => ReduceDoDone(fs, focal, e);
    case Block(body) => ReduceSeqDone(fs, focal, body);
    case If(_, thn, els) =>
      ReduceDone(fs, focal, thn);
      if els.Some? { ReduceDone(fs, focal, els.value); }
    case For(_, _, _, loop) => ReduceDone(fs, focal, loop);
    case _ =>
  }

  lemma {:induction false} ReduceSeqDone(fs: map<string, Func>, focal: set<Var>, ss: seq<Stmt>)
    ensures AllDirectSeq(fs, focal, ReduceSeq(fs, focal, ss))
    decreases ss, 0
  {
    if ss != [] {
      ReduceDone(fs, focal, ss[0]);
      ReduceSeqDone(fs, focal, ss[1..]);
      assert ReduceSeq(fs, focal, ss)[1..] == ReduceSeq(fs, focal, ss[1..]);
    }
  }

  // ----- constant folding -----

  predicate Is(e: Expr, n: Word) { e == Lit(Num(n)) }

  /** No arithmetic on two literals but a division by zero; none with a literal that leaves the other
      operand as it is; and none with one that makes the other operand irrelevant, unless that has
      an effect. */
  predicate ArithFolded(fs: map<string, Func>, op: BinOp, l: Expr, r: Expr) {
    || ((op == BinOp.Div || op == BinOp.Mod) && Is(r, 0))
    || (&& !(IsNum(l) && IsNum(r))
        && !(Is(l, 0) && (op == BinOp.Add || op == BinOp.BitOr || op == BinOp.BitXor)) && !(Is(l, 1) && op == BinOp.Mul)
        && !(Is(l, -1) && op == BinOp.BitAnd)
        && !(Is(r, 0) && (op == BinOp.Add || op == BinOp.Sub || op == BinOp.BitOr || op == BinOp.BitXor))
        && !(IsNum(r) && r.val.n <= 0 && (op == BinOp.Shl || op == BinOp.Shr))
        && !(Is(r, 1) && (op == BinOp.Mul || op == BinOp.Div)) && !(Is(r, -1) && op == BinOp.BitAnd)
        && (Is(l, 0) && (op == BinOp.Mul || op == BinOp.BitAnd || op == BinOp.Shr || op == BinOp.Shl) ==> !Pure(fs, r))
        && (Is(l, -1) && (op == BinOp.BitOr || op == BinOp.Shr) ==> !Pure(fs, r))
        && (Is(r, 0) && (op == BinOp.Mul || op == BinOp.BitAnd) ==> !Pure(fs, l))
        && (Is(r, 1) && op == BinOp.Mod ==> !Pure(fs, l))
        && (Is(r, -1) && (op == BinOp.Mod || op == BinOp.BitOr) ==> !Pure(fs, l)))
  }

  /** Nothing is left to fold at the root. */
  predicate RootFolded(fs: map<string, Func>, e: Expr) {
    match e
    case Bin(Arith(op), l, r) => ArithFolded(fs, op, l, r)
    case Bin(Test(op), l, r) =>
      && !(IsNum(l) && IsNum(r)) && !(IsStr(l) && IsStr(r))
      && ((Is(l, MIN) && (op == CmpOp.Le || op == CmpOp.Gt)) || (Is(l, MAX) && (op == CmpOp.Ge || op == CmpOp.Lt)) ==> !Pure(fs, r))
      && ((Is(r, MIN) && (op == CmpOp.Ge || op == CmpOp.Lt)) || (Is(r, MAX) && (op == CmpOp.Le || op == CmpOp.Gt)) ==> !Pure(fs, l))
    case Bin(Concat, l, r) => !(IsStr(l) && IsStr(r)) && l != Lit(Str("")) && r != Lit(Str(""))
    case Logic(isOr, l, r) =>
      && !(IsNum(l) && IsNum(r)) && !(IsNum(l) && (l.val.n != 0) == isOr)
      && (IsNum(r) && (r.val.n != 0) == isOr ==> !Pure(fs, l))
    case Un(_, x) => !IsNum(x)
    case Cond(c, _, _) => !IsNum(c)
    case _ => true
  }

  predicate Folded(fs: map<string, Func>, e: Expr)
    decreases e, 1
  {
    RootFolded(fs, e) &&
    match e
    case Bin(_, l, r) => Folded(fs, l) && Folded(fs, r)
    case Logic(_, l, r) => Folded(fs, l) && Folded(fs, r)
    case Un(_, x) => Folded(fs, x)
    case Cond(c, l, r) => Folded(fs, c) && Folded(fs, l) && Folded(fs, r)
    case Assign(_, _, x) => Folded(fs, x)
    case Call(_, args) => FoldedArgs(fs, args)
    case Print(_, args) => FoldedArgs(fs, args)
    case _ => true
  }

  predicate FoldedArgs(fs: map<string, Func>, args: seq<Expr>)
    decreases args, 0
  {
    args == [] || (Folded(fs, args[0]) && FoldedArgs(fs, args[1..]))
  }

  /** The result of folding is a literal, an operand, or the operation with nothing to fold. */
  ghost predicate Done(fs: map<string, Func>, op: BinOp, l: Expr, r: Expr) {
    var e := FoldArith(fs, op, l, r);
    IsNum(e) || e == l || e == r || (e == Bin(Arith(op), l, r) && ArithFolded(fs, op, l, r))
  }

  lemma ArithDone(fs: map<string, Func>, op: BinOp, l: Expr, r: Expr)
    ensures var e := FoldArith(fs, op, l, r); IsNum(e) || e == l || e == r || (e == Bin(Arith(op), l, r) && RootFolded(fs, e))
  {
    hide FoldArith, ArithFolded;
    assert Done(fs, op, l, r) by {
      hide Done;
      if IsNum(l) && IsNum(r) {
        TwoLiterals(fs, op, l, r);
      } else if IsNum(l) {
        LeftLiteral(fs, op, l, r);
      } else {
        RightLiteral(fs, op, l, r);
      }
    }
  }

  lemma TwoLiterals(fs: map<string, Func>, op: BinOp, l: Expr, r: Expr)
    requires IsNum(l) && IsNum(r)
    ensures Done(fs, op, l, r)
  {
    hide FoldBin, Pure;
  }

  lemma LeftLiteral(fs: map<string, Func>, op: BinOp, l: Expr, r: Expr)
    requires IsNum(l) && !IsNum(r)
    ensures Done(fs, op, l, r)
  {
    hide Pure;
  }

  lemma RightLiteral(fs: map<string, Func>, op: BinOp, l: Expr, r: Expr)
    requires !IsNum(l)
    ensures Done(fs, op, l, r)
  {
    hide Pure, FoldBin, Done, FoldArith, ArithFolded;
    if IsNum(r) { RightOf(fs, op, l, r); } else { NoLiteral(fs, op, l, r); }
  }

  lemma RightOf(fs: map<string, Func>, op: BinOp, l: Expr, r: Expr)
    requires !IsNum(l) && IsNum(r)
    ensures Done(fs, op, l, r)
  {
    hide Pure, FoldBin, AbsorbedRight, AbsorbsLeft, NeutralLeft;
  }

  lemma NoLiteral(fs: map<string, Func>, op: BinOp, l: Expr, r: Expr)
    requires !IsNum(l) && !IsNum(r)
    ensures Done(fs, op, l, r)
  {
    hide Pure, FoldBin, AbsorbedRight, AbsorbsLeft, NeutralLeft, AbsorbsRight, NeutralRight;
  }

  lemma TestDone(fs: map<string, Func>, op: CmpOp, l: Expr, r: Expr)
    ensures var e := FoldCompare(fs, op, l, r); IsNum(e) || (e == Bin(Test(op), l, r) && RootFolded(fs, e))
  {
    hide Pure, Compare, RunCmp;
  }

  lemma ConcatDone(fs: map<string, Func>, l: Expr, r: Expr)
    ensures var e := FoldConcat(l, r); e.Lit? || e == l || e == r || (e == Bin(Concat, l, r) && RootFolded(fs, e))
  {
  }

  lemma LogicDone(fs: map<string, Func>, isOr: bool, l: Expr, r: Expr)
    ensures var e := FoldLogic(fs, isOr, l, r); IsNum(e) || (e == Logic(isOr, l, r) && RootFolded(fs, e))
  {
    hide Pure;
  }

  lemma {:induction false} FoldDone(fs: map<string, Func>, e: Expr)
    ensures Folded(fs, FoldExpr(fs, e))
    decreases e, 1
  {
    hide FoldBinary, FoldLogic, RootFolded;
    RootsDone(fs, e);
    match e
    case Bin(op, l, r) => FoldDone(fs, l); FoldDone(fs, r); BinDone(fs, op, FoldExpr(fs, l), FoldExpr(fs, r));
    case Logic(isOr, l, r) => FoldDone(fs, l); FoldDone(fs, r); LogicFolded(fs, isOr, FoldExpr(fs, l), FoldExpr(fs, r));
    case Un(op, x) => FoldDone(fs, x); UnDone(fs, op, FoldExpr(fs, x));
    case Cond(c, l, r) => FoldDone(fs, c); FoldDone(fs, l); FoldDone(fs, r); CondDone(fs, FoldExpr(fs, c), FoldExpr(fs, l), FoldExpr(fs, r));
    case Assign(v, how, x) => FoldDone(fs, x); RootsDone(fs, Assign(v, how, FoldExpr(fs, x)));
    case Call(f, args) => FoldArgsDone(fs, args); RootsDone(fs, Call(f, FoldArgs(fs, args)));
    case Print(stream, args) => FoldArgsDone(fs, args); RootsDone(fs, Print(stream, FoldArgs(fs, args)));
    case _ =>
  }

  lemma RootsDone(fs: map<string, Func>, e: Expr)
    ensures e.Lit? || e.Sym? || e.Assign? || e.Crement? || e.Call? || e.Print? ==> RootFolded(fs, e)
  {
  }

  lemma BinDone(fs: map<string, Func>, op: Op2, l: Expr, r: Expr)
    requires Folded(fs, l) && Folded(fs, r)
    ensures Folded(fs, FoldBinary(fs, op, l, r))
  {
    hide FoldArith, FoldCompare, FoldConcat, RootFolded;
    match op
    case Arith(o) => ArithDone(fs, o, l, r); RootsDone(fs, FoldArith(fs, o, l, r));
    case Test(o) => TestDone(fs, o, l, r); RootsDone(fs, FoldCompare(fs, o, l, r));
    case Concat => ConcatDone(fs, l, r); RootsDone(fs, FoldConcat(l, r));
  }

  lemma LogicFolded(fs: map<string, Func>, isOr: bool, l: Expr, r: Expr)
    requires Folded(fs, l) && Folded(fs, r)
    ensures Folded(fs, FoldLogic(fs, isOr, l, r))
  {
    hide FoldLogic, RootFolded;
    LogicDone(fs, isOr, l, r);
    RootsDone(fs, FoldLogic(fs, isOr, l, r));
  }

  lemma UnDone(fs: map<string, Func>, op: UnOp, x: Expr)
    requires Folded(fs, x)
    ensures Folded(fs, FoldUnary(op, x))
  {
  }

  lemma CondDone(fs: map<string, Func>, c: Expr, l: Expr, r: Expr)
    requires Folded(fs, c) && Folded(fs, l) && Folded(fs, r)
    ensures !IsNum(c) ==> Folded(fs, Cond(c, l, r))
  {
  }

  lemma {:induction false} FoldArgsDone(fs: map<string, Func>, args: seq<Expr>)
    ensures FoldedArgs(fs, FoldArgs(fs, args))
    decreases args, 0
  {
    if args != [] {
      FoldDone(fs, args[0]);
      FoldArgsDone(fs, args[1..]);
      assert FoldArgs(fs, args)[1..] == FoldArgs(fs, args[1..]);
    }
  }

  predicate FoldedOpt(fs: map<string, Func>, e: Option<Expr>) { e.Some? ==> Folded(fs, e.value) }

  /** No test is a literal, but that of a loop without end. */
  predicate FoldedStmt(fs: map<string, Func>, s: Stmt)
    decreases s, 1
  {
    match s
    case Do(e) => Folded(fs, e)
    case Return(e) => Folded(fs, e)
    case Block(body) => FoldedSeq(fs, body)
    case If(c, thn, els) =>
      !IsNum(c) && Folded(fs, c) && FoldedStmt(fs, thn) && (els.Some? ==> FoldedStmt(fs, els.value))
    case For(init, c, incr, loop) =>
      !Is(c, 0) && FoldedOpt(fs, init) && Folded(fs, c) && FoldedOpt(fs, incr) && FoldedStmt(fs, loop)
    case _ => true
  }

  predicate FoldedSeq(fs: map<string, Func>, ss: seq<Stmt>)
    decreases ss, 0
  {
    ss == [] || (FoldedStmt(fs, ss[0]) && FoldedSeq(fs, ss[1..]))
  }

  lemma {:induction false} FoldStmtDone(fs: map<string, Func>, s: Stmt)
    ensures FoldedStmt(fs, FoldStmt(fs, s))
    decreases s, 1
  {
    hide FoldExpr, Folded;
    match s
    case Do(e) => FoldDone(fs, e);
    case Return(e) => FoldDone(fs, e);
    case Block(body) => FoldSeqDone(fs, body);
    case If(c, thn, els) =>
      FoldDone(fs, c);
      FoldStmtDone(fs, thn);
      if els.Some? { FoldStmtDone(fs, els.value); }
    case For(init, c, incr, loop) =>
      if init.Some? { FoldDone(fs, init.value); }
      FoldDone(fs, c);
      if incr.Some? { FoldDone(fs, incr.value); }
      FoldStmtDone(fs, loop);
    case _ =>
  }

  lemma {:induction false} FoldSeqDone(fs: map<string, Func>, ss: seq<Stmt>)
    ensures FoldedSeq(fs, FoldSeq(fs, ss))
    decreases ss, 0
  {
    if ss != [] {
      FoldStmtDone(fs, ss[0]);
      FoldSeqDone(fs, ss[1..]);
      assert FoldSeq(fs, ss)[1..] == FoldSeq(fs, ss[1..]);
    }
  }

  // ----- a session over which a round reports no change -----

  /** Every function is called, every variable declared is used, and no assignment is to a local that
      nothing reads and no global has the name of. */
  ghost predicate Settled(p: Program) {
    var u, w := SessionUse(p, true), SessionUse(p, false);
    && p.funcs.Keys <= u.seen
    && (forall v | v in p.globals :: v in u.read || v in u.written)
    && (forall f, v | f in p.funcs && v in p.funcs[f].locals :: v in u.read || v in u.written)
    && (forall pr, v | pr in p.probes && v in pr.locals :: v in u.read || v in u.written)
    && (forall v | v in Targets(p) && v.Local? && v !in w.read :: exists g | g in p.globals :: g.name == v.name)
  }

  lemma QuietRoundSettled(p: Program)
    requires !RoundHit(false, p) && (forall f | f in p.order :: f in p.funcs)
    ensures Settled(p)
  {
    hide SessionUse, BodyPassHit, BodyPass, DropFunctions, DropVariables, StripAssignments;
    SameAfterDrop(p);
    TrimmedAll(p);
    StrippedAll(p);
  }

  lemma SameAfterDrop(p: Program)
    requires !DropFunctionsHit(p) && (forall f | f in p.order :: f in p.funcs)
    ensures DropFunctions(p) == p && p.funcs.Keys <= SessionUse(p, true).seen
  {
    hide SessionUse;
    assert DropFunctions(p).funcs == p.funcs;
  }

  lemma TrimmedAll(p: Program)
    requires DropVariables(p) == p
    ensures var u := SessionUse(p, true);
      && (forall v | v in p.globals :: v in u.read || v in u.written)
      && (forall f, v | f in p.funcs && v in p.funcs[f].locals :: v in u.read || v in u.written)
      && (forall pr, v | pr in p.probes && v in pr.locals :: v in u.read || v in u.written)
  {
    hide SessionUse;
    var q, used := DropVariables(p), Used(p);
    forall v | v in p.globals ensures v in used { assert v in Only(p.globals, used); }
    forall f, v | f in p.funcs && v in p.funcs[f].locals ensures v in used {
      assert q.funcs[f] == TrimFunc(used, p.funcs[f]);
      assert v in Only(p.funcs[f].locals, used);
    }
    forall pr, v | pr in p.probes && v in pr.locals ensures v in used {
      var i :| 0 <= i < |p.probes| && p.probes[i] == pr;
      assert q.probes[i] == TrimProbe(used, p.probes[i]);
      assert v in Only(pr.locals, used);
    }
  }

  lemma StrippedAll(p: Program)
    requires StripAssignments(p) == p
    ensures forall v | v in Targets(p) && v.Local? && v !in SessionUse(p, false).read :: exists g | g in p.globals :: g.name == v.name
  {
    hide SessionUse;
    var q, dead := StripAssignments(p), DeadIn(p);
    forall v | v in Targets(p) ensures !dead(v) {
      if f :| f in p.funcs && v in TargetsStmt(p.funcs[f].body) {
        StripStmtExact(dead, p.funcs[f].body);
        assert q.funcs[f] == StripFunc(dead, p.funcs[f]);
      } else {
        var pr :| pr in p.probes && v in TargetsStmt(pr.body);
        var i :| 0 <= i < |p.probes| && p.probes[i] == pr;
        StripStmtExact(dead, pr.body);
        assert q.probes[i] == StripProbe(dead, p.probes[i]);
      }
    }
  }
}
