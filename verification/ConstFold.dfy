/**
 Constant folding: operators with literal operands, operators one of whose literal
 operands decides or does not matter, and conditionals and loops with a literal test.
 */
module ConstFold {
  import opened Basics
  import opened Arith64
  import opened Syntax
  import opened Semantics
  import opened VarUse
  import opened Frame
  import opened Replace

  predicate IsNum(e: Expr) { e.Lit? && e.val.Num? }
  predicate IsStr(e: Expr) { e.Lit? && e.val.Str? }

  function Number(n: Word): Expr { Lit(Num(n)) }

  predicate Pure(fs: map<string, Func>, e: Expr) { SideEffectFree(UseExpr(fs, NO_USE, e)) }

  // The functions below take operands that are already folded.

  function FoldArith(fs: map<string, Func>, op: BinOp, l: Expr, r: Expr): Expr {
    var e := Bin(Arith(op), l, r);
    if IsNum(r) && r.val.n == 0 && (op == Div || op == Mod) then e
    else if IsNum(l) && IsNum(r) then Number(FoldBin(op, l.val.n, r.val.n))
    else if IsNum(l) && AbsorbsLeft(op, l.val.n) then (if Pure(fs, r) then l else e)
    else if IsNum(r) && AbsorbsRight(op, r.val.n) then (if Pure(fs, l) then Number(AbsorbedRight(op, r.val.n)) else e)
    else if IsNum(l) && NeutralLeft(op, l.val.n) then r
    else if IsNum(r) && NeutralRight(op, r.val.n) then l
    else e
  }

  function FoldCompare(fs: map<string, Func>, op: CmpOp, l: Expr, r: Expr): Expr {
    if IsStr(l) && IsStr(r) then Number(Bool(RunCmp(op, Compare(l.val.s, r.val.s), 0)))
    else if IsNum(l) && IsNum(r) then Number(Bool(RunCmp(op, l.val.n, r.val.n)))
    else if (IsNum(l) && BoundaryLeft(op, l.val.n)) || (IsNum(r) && BoundaryRight(op, r.val.n)) then
      if Pure(fs, if IsNum(l) then r else l) then Number(Bool(op == Le || op == Ge)) else Bin(Test(op), l, r)
    else Bin(Test(op), l, r)
  }

  function FoldConcat(l: Expr, r: Expr): Expr {
    if IsStr(l) && IsStr(r) then Lit(Str(l.val.s + r.val.s))
    else if IsStr(l) && l.val.s == "" then r
    else if IsStr(r) && r.val.s == "" then l
    else Bin(Concat, l, r)
  }

  function FoldBinary(fs: map<string, Func>, op: Op2, l: Expr, r: Expr): Expr {
    match op
    case Arith(o) => FoldArith(fs, o, l, r)
    case Test(o) => FoldCompare(fs, o, l, r)
    case Concat => FoldConcat(l, r)
  }

  function FoldLogic(fs: map<string, Func>, isOr: bool, l: Expr, r: Expr): Expr {
    var e := Logic(isOr, l, r);
    if IsNum(l) && IsNum(r) then
      Number(Bool(if isOr then l.val.n != 0 || r.val.n != 0 else l.val.n != 0 && r.val.n != 0))
    else if IsNum(l) && (l.val.n != 0) == isOr then Number(Bool(isOr))
    else if IsNum(r) && (r.val.n != 0) == isOr then (if Pure(fs, l) then Number(Bool(isOr)) else e)
    else e
  }

  function FoldUnary(op: UnOp, x: Expr): Expr {
    if IsNum(x) then Number(RunUn(op, x.val.n)) else Un(op, x)
  }

  function FoldExpr(fs: map<string, Func>, e: Expr): Expr
    decreases e, 1
  {
    match e
    case Bin(op, l, r) => FoldBinary(fs, op, FoldExpr(fs, l), FoldExpr(fs, r))
    case Logic(isOr, l, r) => FoldLogic(fs, isOr, FoldExpr(fs, l), FoldExpr(fs, r))
    case Un(op, x) => FoldUnary(op, FoldExpr(fs, x))
    case Cond(c, l, r) =>
      var c' := FoldExpr(fs, c);
      if !IsNum(c') then Cond(c', FoldExpr(fs, l), FoldExpr(fs, r))
      else if c'.val.n != 0 then FoldExpr(fs, l) else FoldExpr(fs, r)
    case Assign(v, how, x) => Assign(v, how, FoldExpr(fs, x))
    case Call(f, args) => Call(f, FoldArgs(fs, args))
    case Print(stream, args) => Print(stream, FoldArgs(fs, args))
    case _ => e
  }

  function FoldArgs(fs: map<string, Func>, args: seq<Expr>): (r: seq<Expr>)
    ensures |r| == |args|
    decreases args, 0
  {
    if args == [] then [] else [FoldExpr(fs, args[0])] + FoldArgs(fs, args[1..])
  }

  function FoldOpt(fs: map<string, Func>, e: Option<Expr>): Option<Expr> {
    match e case None => None case Some(x) => Some(FoldExpr(fs, x))
  }

  function FoldStmt(fs: map<string, Func>, s: Stmt): Stmt
    decreases s, 1
  {
    match s
    case Do(e) => Do(FoldExpr(fs, e))
    case Return(e) => Return(FoldExpr(fs, e))
    case Block(body) => Block(FoldSeq(fs, body))
    case If(c, thn, els) =>
      var c' := FoldExpr(fs, c);
      if !IsNum(c') then
        If(c', FoldStmt(fs, thn), if els.Some? then Some(FoldStmt(fs, els.value)) else None)
      else if c'.val.n != 0 then FoldStmt(fs, thn)
      else if els.Some? then FoldStmt(fs, els.value) else Null
    case For(init, c, incr, loop) =>
      var c' := FoldExpr(fs, c);
      if !IsNum(c') || c'.val.n != 0 then For(FoldOpt(fs, init), c', FoldOpt(fs, incr), FoldStmt(fs, loop))
      else if init.Some? then Do(FoldExpr(fs, init.value)) else Null
    case _ => s
  }

  function FoldSeq(fs: map<string, Func>, ss: seq<Stmt>): (r: seq<Stmt>)
    ensures |r| == |ss|
    decreases ss, 0
  {
    if ss == [] then [] else [FoldStmt(fs, ss[0])] + FoldSeq(fs, ss[1..])
  }

  // ----- meaning: one operator -----

  lemma FoldArithEval(fs: map<string, Func>, n: nat, st: State, op: BinOp, l: Expr, r: Expr)
    requires Eval(fs, n, st, Bin(Arith(op), l, r)).EDone?
    ensures Eval(fs, n, st, FoldArith(fs, op, l, r)) == Eval(fs, n, st, Bin(Arith(op), l, r))
  {
    hide RunBin, FoldBin, AbsorbsLeft, AbsorbsRight, AbsorbedRight, NeutralLeft, NeutralRight;
    var a := Eval(fs, n, st, l);
    var b := Eval(fs, n, a.st, r);
    var x, y := a.v.n, b.v.n;
    assert Eval(fs, n, st, Bin(Arith(op), l, r)) == EDone(Num(RunBin(op, x, y).value), b.st);
    if IsNum(l) && IsNum(r) {
      FoldBinAgrees(op, x, y);
    }
    AbsorbingOperands(op, x, y);
    NeutralOperands(op, x, y);
    if Pure(fs, r) { PureEval(fs, n, a.st, r); }
    if Pure(fs, l) { PureEval(fs, n, st, l); }
  }

  lemma FoldCompareEval(fs: map<string, Func>, n: nat, st: State, op: CmpOp, l: Expr, r: Expr)
    requires Eval(fs, n, st, Bin(Test(op), l, r)).EDone?
    ensures Eval(fs, n, st, FoldCompare(fs, op, l, r)) == Eval(fs, n, st, Bin(Test(op), l, r))
  {
    hide RunCmp, BoundaryLeft, BoundaryRight, Compare;
    var a := Eval(fs, n, st, l);
    var b := Eval(fs, n, a.st, r);
    if a.v.Num? && (BoundaryLeft(op, a.v.n) || BoundaryRight(op, b.v.n)) { BoundaryComparisons(op, a.v.n, b.v.n); }
    if Pure(fs, r) { PureEval(fs, n, a.st, r); }
    if Pure(fs, l) { PureEval(fs, n, st, l); }
  }

  lemma FoldConcatEval(fs: map<string, Func>, n: nat, st: State, l: Expr, r: Expr)
    requires Eval(fs, n, st, Bin(Concat, l, r)).EDone?
    ensures Eval(fs, n, st, FoldConcat(l, r)) == Eval(fs, n, st, Bin(Concat, l, r))
  {
    var a := Eval(fs, n, st, l);
    var b := Eval(fs, n, a.st, r);
    assert "" + b.v.s == b.v.s && a.v.s + "" == a.v.s;
  }

  lemma FoldLogicEval(fs: map<string, Func>, n: nat, st: State, isOr: bool, l: Expr, r: Expr)
    requires Eval(fs, n, st, Logic(isOr, l, r)).EDone?
    ensures Eval(fs, n, st, FoldLogic(fs, isOr, l, r)) == Eval(fs, n, st, Logic(isOr, l, r))
  {
    if Pure(fs, l) { PureEval(fs, n, st, l); }
  }

  lemma FoldBinaryEval(fs: map<string, Func>, n: nat, st: State, op: Op2, l: Expr, r: Expr)
    requires Eval(fs, n, st, Bin(op, l, r)).EDone?
    ensures Eval(fs, n, st, FoldBinary(fs, op, l, r)) == Eval(fs, n, st, Bin(op, l, r))
  {
    match op
    case Arith(o) => FoldArithEval(fs, n, st, o, l, r);
    case Test(o) => FoldCompareEval(fs, n, st, o, l, r);
    case Concat => FoldConcatEval(fs, n, st, l, r);
  }

  // ----- meaning: trees -----

  lemma {:induction false} FoldEval(fs: map<string, Func>, n: nat, st: State, e: Expr)
    requires Eval(fs, n, st, e).EDone?
    ensures Eval(fs, n, st, FoldExpr(fs, e)) == Eval(fs, n, st, e)
    decreases e, 1
  {
    hide Apply, UnVal, RunUn, AssignVal, Bump, Format, FoldBinary, FoldLogic, FoldUnary;
    match e
    case Bin(op, l, r) =>
      FoldEval(fs, n, st, l);
      FoldEval(fs, n, Eval(fs, n, st, l).st, r);
      FoldBinaryEval(fs, n, st, op, FoldExpr(fs, l), FoldExpr(fs, r));
    case Logic(isOr, l, r) =>
      FoldEval(fs, n, st, l);
      var a := Eval(fs, n, st, l);
      if Truth(a.v).value != isOr { FoldEval(fs, n, a.st, r); }
      FoldLogicEval(fs, n, st, isOr, FoldExpr(fs, l), FoldExpr(fs, r));
    case Un(op, x) =>
      FoldEval(fs, n, st, x);
      FoldUnaryEval(fs, n, st, op, FoldExpr(fs, x));
    case Cond(c, l, r) =>
      FoldEval(fs, n, st, c);
      var a := Eval(fs, n, st, c);
      FoldEval(fs, n, a.st, if Truth(a.v).value then l else r);
    case Assign(_, _, x) => FoldEval(fs, n, st, x);
    case Call(_, args) => FoldEvalArgs(fs, n, st, args);
    case Print(_, args) => FoldEvalArgs(fs, n, st, args);
    case _ =>
  }

  lemma FoldUnaryEval(fs: map<string, Func>, n: nat, st: State, op: UnOp, x: Expr)
    ensures Eval(fs, n, st, FoldUnary(op, x)) == Eval(fs, n, st, Un(op, x))
  {
  }

  lemma {:induction false} FoldEvalArgs(fs: map<string, Func>, n: nat, st: State, args: seq<Expr>)
    requires EvalArgs(fs, n, st, args).ADone?
    ensures EvalArgs(fs, n, st, FoldArgs(fs, args)) == EvalArgs(fs, n, st, args)
    decreases args, 0
  {
    if args != [] {
      FoldEval(fs, n, st, args[0]);
      FoldEvalArgs(fs, n, Eval(fs, n, st, args[0]).st, args[1..]);
      assert FoldArgs(fs, args)[1..] == FoldArgs(fs, args[1..]);
    }
  }

  lemma FoldEvalOpt(fs: map<string, Func>, n: nat, st: State, e: Option<Expr>)
    requires EvalOpt(fs, n, st, e).EDone?
    ensures EvalOpt(fs, n, st, FoldOpt(fs, e)) == EvalOpt(fs, n, st, e)
  {
    if e.Some? { FoldEval(fs, n, st, e.value); }
  }

  lemma {:induction false} FoldExec(fs: map<string, Func>, n: nat, st: State, s: Stmt)
    requires Exec(fs, n, st, s).SDone?
    ensures Exec(fs, n, st, FoldStmt(fs, s)) == Exec(fs, n, st, s)
    decreases n, s, 2
  {
    hide FoldExpr;
    match s
    case Do(e) => FoldEval(fs, n, st, e);
    case Return(e) => FoldEval(fs, n, st, e);
    case Block(body) => FoldExecSeq(fs, n, st, body);
    case If(c, thn, els) =>
      FoldEval(fs, n, st, c);
      var a := Eval(fs, n, st, c);
      if Truth(a.v).value {
        FoldExec(fs, n, a.st, thn);
      } else if els.Some? {
        FoldExec(fs, n, a.st, els.value);
      }
    case For(init, c, _, _) =>
      FoldEvalOpt(fs, n, st, init);
      var st1 := EvalOpt(fs, n, st, init).st;
      FoldEval(fs, n, st1, c);
      if FoldStmt(fs, s).For? { FoldExecLoop(fs, n, st1, s); }
    case _ =>
  }

  lemma {:induction false} FoldExecSeq(fs: map<string, Func>, n: nat, st: State, ss: seq<Stmt>)
    requires ExecSeq(fs, n, st, ss).SDone?
    ensures ExecSeq(fs, n, st, FoldSeq(fs, ss)) == ExecSeq(fs, n, st, ss)
    decreases n, ss, 1
  {
    if ss != [] {
      FoldExec(fs, n, st, ss[0]);
      var r := Exec(fs, n, st, ss[0]);
      assert FoldSeq(fs, ss)[1..] == FoldSeq(fs, ss[1..]);
      if r.sig == Normal { FoldExecSeq(fs, n, r.st, ss[1..]); }
    }
  }

  lemma {:induction false} FoldExecLoop(fs: map<string, Func>, n: nat, st: State, s: Stmt)
    requires s.For? && FoldStmt(fs, s).For? && Loop(fs, n, st, s).SDone?
    ensures Loop(fs, n, st, FoldStmt(fs, s)) == Loop(fs, n, st, s)
    decreases n, s, 1
  {
    hide FoldExpr;
    FoldEval(fs, n, st, s.c);
    var c := Eval(fs, n, st, s.c);
    if Truth(c.v).value {
      FoldExec(fs, n, c.st, s.loop);
      var b := Exec(fs, n, c.st, s.loop);
      if b.sig == Normal || b.sig == Continued {
        FoldEvalOpt(fs, n, b.st, s.incr);
        FoldExecLoop(fs, n - 1, EvalOpt(fs, n, b.st, s.incr).st, s);
      }
    }
  }

  /** Folding a body refines it. */
  lemma FoldRefines(fs: map<string, Func>, globals: set<Var>, frame: set<Var>, s: Stmt)
    ensures Refines(fs, globals, frame, s, FoldStmt(fs, s))
  {
    forall n: nat, st: State | Within(st, globals, frame) && Exec(fs, n, st, s).SDone?
      ensures Exec(fs, n, st, FoldStmt(fs, s)) == Exec(fs, n, st, s)
    {
      FoldExec(fs, n, st, s);
    }
  }
}
