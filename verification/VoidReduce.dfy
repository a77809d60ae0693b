/**
 Reduction of expressions in void context to statements that evaluate their parts: an
 unused `a || b` becomes `if (!a) b`, an unused `a + b` becomes `{ a; b }`, an unused call
 of a function that changes no global becomes the evaluation of its arguments.
 */
module VoidReduce {
  import opened Basics
  import opened Arith64
  import opened Syntax
  import opened Semantics
  import opened VarUse
  import opened Frame
  import opened Replace

  /** An expression statement, reduced. */
  function ReduceDo(fs: map<string, Func>, focal: set<Var>, e: Expr): Stmt
    decreases e, 1
  {
    match e
    case Bin(_, l, r) => Block([ReduceDo(fs, focal, l), ReduceDo(fs, focal, r)])
    case Logic(isOr, l, r) => If(if isOr then Un(Not, l) else l, ReduceDo(fs, focal, r), None)
    case Un(_, x) => ReduceDo(fs, focal, x)
    case Cond(c, l, r) => If(c, ReduceDo(fs, focal, l), Some(ReduceDo(fs, focal, r)))
    case Call(f, args) =>
      if args == [] || !SideEffectFreeWrt(UseCallee(fs, f), focal) then Do(e) else Block(ReduceArgs(fs, focal, args))
    case Print(stream, args) =>
      if stream || args == [] then Do(e) else Block(ReduceArgs(fs, focal, args))
    case _ => Do(e)
  }

  function ReduceArgs(fs: map<string, Func>, focal: set<Var>, args: seq<Expr>): (r: seq<Stmt>)
    ensures |r| == |args|
    decreases args, 0
  {
    if args == [] then [] else [ReduceDo(fs, focal, args[0])] + ReduceArgs(fs, focal, args[1..])
  }

  function ReduceStmt(fs: map<string, Func>, focal: set<Var>, s: Stmt): Stmt
    decreases s, 1
  {
    match s
    case Do(e) => ReduceDo(fs, focal, e)
    case Block(body) => Block(ReduceSeq(fs, focal, body))
    case If(c, thn, els) =>
      If(c, ReduceStmt(fs, focal, thn), if els.Some? then Some(ReduceStmt(fs, focal, els.value)) else None)
    case For(init, c, incr, loop) => For(init, c, incr, ReduceStmt(fs, focal, loop))
    case _ => s
  }

  function ReduceSeq(fs: map<string, Func>, focal: set<Var>, ss: seq<Stmt>): (r: seq<Stmt>)
    ensures |r| == |ss|
    decreases ss, 0
  {
    if ss == [] then [] else [ReduceStmt(fs, focal, ss[0])] + ReduceSeq(fs, focal, ss[1..])
  }

  // ----- meaning -----

  lemma {:induction false} ReduceDoExec(fs: map<string, Func>, globals: set<Var>, n: nat, st: State, e: Expr)
    requires st.g.Keys <= globals && Eval(fs, n, st, e).EDone?
    ensures Exec(fs, n, st, ReduceDo(fs, globals, e)) == SDone(Normal, Eval(fs, n, st, e).st)
    decreases e, 1
  {
    hide Apply, UnVal, AssignVal, Bump, Format, Store, Fetch, SideEffectFreeWrt, UseCallee, Resume, Enter;
    match e
    case Un(_, x) => ReduceDoExec(fs, globals, n, st, x);
    case Bin(_, l, r) =>
      ReduceDoExec(fs, globals, n, st, l);
      EvalKeepsDomain(fs, n, st, l);
      ReduceDoExec(fs, globals, n, Eval(fs, n, st, l).st, r);
      ExecPair(fs, n, st, ReduceDo(fs, globals, l), ReduceDo(fs, globals, r));
    case Logic(isOr, l, r) =>
      var a := Eval(fs, n, st, l);
      EvalKeepsDomain(fs, n, st, l);
      if Truth(a.v).value != isOr { ReduceDoExec(fs, globals, n, a.st, r); }
      if isOr {
        ReducedOr(fs, n, st, l, r, ReduceDo(fs, globals, r));
      } else {
        ReducedAnd(fs, n, st, l, r, ReduceDo(fs, globals, r));
      }
    case Cond(c, l, r) =>
      var a := Eval(fs, n, st, c);
      EvalKeepsDomain(fs, n, st, c);
      ReduceDoExec(fs, globals, n, a.st, if Truth(a.v).value then l else r);
    case Call(_, _) => ReduceCallExec(fs, globals, n, st, e);
    case Print(_, _) => ReduceCallExec(fs, globals, n, st, e);
    case _ =>
  }

  lemma {:induction false} ReduceCallExec(fs: map<string, Func>, globals: set<Var>, n: nat, st: State, e: Expr)
    requires e.Call? || e.Print?
    requires st.g.Keys <= globals && Eval(fs, n, st, e).EDone?
    ensures Exec(fs, n, st, ReduceDo(fs, globals, e)) == SDone(Normal, Eval(fs, n, st, e).st)
    decreases e, 0
  {
    hide Apply, UnVal, AssignVal, Bump, Format, Store, Fetch, SideEffectFreeWrt, UseCallee, Resume, Enter;
    match e
    case Call(f, args) =>
      if args != [] && SideEffectFreeWrt(UseCallee(fs, f), globals) {
        ReduceArgsExec(fs, globals, n, st, args);
        ElidedCall(fs, globals, n, st, f, args);
      }
    case Print(stream, args) =>
      if !stream && args != [] { ReduceArgsExec(fs, globals, n, st, args); }
  }

  /** A call of a function that writes no global and prints nothing changes no more than the
      evaluation of its arguments does. */
  lemma ElidedCall(fs: map<string, Func>, globals: set<Var>, n: nat, st: State, f: string, args: seq<Expr>)
    requires SideEffectFreeWrt(UseCallee(fs, f), globals)
    requires EvalArgs(fs, n, st, args).ADone? && EvalArgs(fs, n, st, args).st.g.Keys <= globals
    requires Eval(fs, n, st, Call(f, args)).EDone?
    ensures Eval(fs, n, st, Call(f, args)).st == EvalArgs(fs, n, st, args).st
  {
    var a := EvalArgs(fs, n, st, args);
    PureCallee(fs, n - 1, Enter(fs[f], a.st, a.vs), f, globals);
  }

  lemma NegatedTest(fs: map<string, Func>, n: nat, st: State, c: Expr)
    requires Eval(fs, n, st, c).EDone? && Truth(Eval(fs, n, st, c).v).Some?
    ensures var a := Eval(fs, n, st, c); Eval(fs, n, st, Un(Not, c)) == EDone(Flag(!Truth(a.v).value), a.st)
  {
  }

  lemma ExecIfThen(fs: map<string, Func>, n: nat, st: State, c: Expr, s: Stmt, taken: bool)
    requires Eval(fs, n, st, c).EDone? && Truth(Eval(fs, n, st, c).v) == Some(taken)
    ensures Exec(fs, n, st, If(c, s, None)) ==
            if taken then Exec(fs, n, Eval(fs, n, st, c).st, s) else SDone(Normal, Eval(fs, n, st, c).st)
  {
    hide Eval, Truth;
  }

  /** Where a logical operator leaves the state. */
  lemma LogicState(fs: map<string, Func>, n: nat, st: State, isOr: bool, l: Expr, r: Expr)
    requires Eval(fs, n, st, Logic(isOr, l, r)).EDone?
    ensures var a := Eval(fs, n, st, l);
      a.EDone? && Truth(a.v).Some? &&
      Eval(fs, n, st, Logic(isOr, l, r)).st == if Truth(a.v).value == isOr then a.st else Eval(fs, n, a.st, r).st
  {
    hide Apply, UnVal, AssignVal, Bump, Format, Store, Fetch, Resume, Enter;
  }

  lemma ReducedOr(fs: map<string, Func>, n: nat, st: State, l: Expr, r: Expr, s: Stmt)
    requires var a := Eval(fs, n, st, l);
      Eval(fs, n, st, Logic(true, l, r)).EDone? &&
      (Truth(a.v) == Some(false) ==> Exec(fs, n, a.st, s) == SDone(Normal, Eval(fs, n, a.st, r).st))
    ensures Exec(fs, n, st, If(Un(Not, l), s, None)) == SDone(Normal, Eval(fs, n, st, Logic(true, l, r)).st)
  {
    hide Eval, Exec;
    LogicState(fs, n, st, true, l, r);
    NegatedTest(fs, n, st, l);
    ExecIfThen(fs, n, st, Un(Not, l), s, !Truth(Eval(fs, n, st, l).v).value);
  }

  lemma ReducedAnd(fs: map<string, Func>, n: nat, st: State, l: Expr, r: Expr, s: Stmt)
    requires var a := Eval(fs, n, st, l);
      Eval(fs, n, st, Logic(false, l, r)).EDone? &&
      (Truth(a.v) == Some(true) ==> Exec(fs, n, a.st, s) == SDone(Normal, Eval(fs, n, a.st, r).st))
    ensures Exec(fs, n, st, If(l, s, None)) == SDone(Normal, Eval(fs, n, st, Logic(false, l, r)).st)
  {
    hide Eval, Exec;
    LogicState(fs, n, st, false, l, r);
    ExecIfThen(fs, n, st, l, s, Truth(Eval(fs, n, st, l).v).value);
  }

  lemma ExecPair(fs: map<string, Func>, n: nat, st: State, a: Stmt, b: Stmt)
    ensures Exec(fs, n, st, Block([a, b])) ==
            match Exec(fs, n, st, a)
            case SStuck => SStuck
            case SDone(sig, st1) => if sig == Normal then Exec(fs, n, st1, b) else SDone(sig, st1)
  {
    assert [a, b][1..] == [b];
    match Exec(fs, n, st, a) {
      case SStuck =>
      case SDone(_, st1) => ExecSingle(fs, n, st1, b);
    }
  }

  lemma ExecSingle(fs: map<string, Func>, n: nat, st: State, b: Stmt)
    ensures ExecSeq(fs, n, st, [b]) == Exec(fs, n, st, b)
  {
    assert [b][1..] == [];
  }

  lemma {:induction false} ReduceArgsExec(fs: map<string, Func>, globals: set<Var>, n: nat, st: State, args: seq<Expr>)
    requires st.g.Keys <= globals && EvalArgs(fs, n, st, args).ADone?
    ensures ExecSeq(fs, n, st, ReduceArgs(fs, globals, args)) == SDone(Normal, EvalArgs(fs, n, st, args).st)
    ensures EvalArgs(fs, n, st, args).st.g.Keys == st.g.Keys
    decreases args, 0
  {
    if args != [] {
      ReduceDoExec(fs, globals, n, st, args[0]);
      EvalKeepsDomain(fs, n, st, args[0]);
      ReduceArgsExec(fs, globals, n, Eval(fs, n, st, args[0]).st, args[1..]);
      assert ReduceArgs(fs, globals, args)[1..] == ReduceArgs(fs, globals, args[1..]);
    }
  }

  lemma {:induction false} ReduceExec(fs: map<string, Func>, globals: set<Var>, n: nat, st: State, s: Stmt)
    requires st.g.Keys <= globals && Exec(fs, n, st, s).SDone?
    ensures Exec(fs, n, st, ReduceStmt(fs, globals, s)) == Exec(fs, n, st, s)
    decreases n, s, 2
  {
    match s
    case Do(e) => ReduceDoExec(fs, globals, n, st, e);
    case Block(body) => ReduceExecSeq(fs, globals, n, st, body);
    case If(c, thn, els) =>
      var a := Eval(fs, n, st, c);
      EvalKeepsDomain(fs, n, st, c);
      if Truth(a.v).value {
        ReduceExec(fs, globals, n, a.st, thn);
      } else if els.Some? {
        ReduceExec(fs, globals, n, a.st, els.value);
      }
    case For(init, _, _, _) =>
      if init.Some? { EvalKeepsDomain(fs, n, st, init.value); }
      ReduceExecLoop(fs, globals, n, EvalOpt(fs, n, st, init).st, s);
    case _ =>
  }

  lemma {:induction false} ReduceExecSeq(fs: map<string, Func>, globals: set<Var>, n: nat, st: State, ss: seq<Stmt>)
    requires st.g.Keys <= globals && ExecSeq(fs, n, st, ss).SDone?
    ensures ExecSeq(fs, n, st, ReduceSeq(fs, globals, ss)) == ExecSeq(fs, n, st, ss)
    decreases n, ss, 1
  {
    if ss != [] {
      ReduceExec(fs, globals, n, st, ss[0]);
      ExecKeepsDomain(fs, n, st, ss[0]);
      var r := Exec(fs, n, st, ss[0]);
      assert ReduceSeq(fs, globals, ss)[1..] == ReduceSeq(fs, globals, ss[1..]);
      if r.sig == Normal { ReduceExecSeq(fs, globals, n, r.st, ss[1..]); }
    }
  }

  lemma {:induction false} ReduceExecLoop(fs: map<string, Func>, globals: set<Var>, n: nat, st: State, s: Stmt)
    requires s.For? && st.g.Keys <= globals && Loop(fs, n, st, s).SDone?
    ensures Loop(fs, n, st, ReduceStmt(fs, globals, s)) == Loop(fs, n, st, s)
    decreases n, s, 1
  {
    var c := Eval(fs, n, st, s.c);
    EvalKeepsDomain(fs, n, st, s.c);
    if Truth(c.v).value {
      ReduceExec(fs, globals, n, c.st, s.loop);
      ExecKeepsDomain(fs, n, c.st, s.loop);
      var b := Exec(fs, n, c.st, s.loop);
      if b.sig == Normal || b.sig == Continued {
        if s.incr.Some? { EvalKeepsDomain(fs, n, b.st, s.incr.value); }
        ReduceExecLoop(fs, globals, n - 1, EvalOpt(fs, n, b.st, s.incr).st, s);
      }
    }
  }

  /** Reducing a body refines it. */
  lemma ReduceRefines(fs: map<string, Func>, globals: set<Var>, frame: set<Var>, s: Stmt)
    ensures Refines(fs, globals, frame, s, ReduceStmt(fs, globals, s))
  {
    forall n: nat, st: State | Within(st, globals, frame) && Exec(fs, n, st, s).SDone?
      ensures Exec(fs, n, st, ReduceStmt(fs, globals, s)) == Exec(fs, n, st, s)
    {
      ReduceExec(fs, globals, n, st, s);
    }
  }
}
