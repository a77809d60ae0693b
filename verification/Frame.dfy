/**
 The variable-use analysis is a sound frame: whatever a run of some code changes,
 through any depth of direct or mutual recursion, is in the gathered `written` set, and
 output appears only if an effect was recorded.
 */
module Frame {
  import opened Basics
  import opened Syntax
  import opened Semantics
  import opened VarUse

  ghost predicate SameOff(changed: set<Var>, m: map<Var, Val>, m': map<Var, Val>) {
    m'.Keys == m.Keys && forall v | v in m && v !in changed :: m'[v] == m[v]
  }

  /** From st to st' only variables in u.written changed, and the output only if u.effect. */
  ghost predicate Framed(u: Use, st: State, st': State) {
    && SameOff(u.written, st.g, st'.g)
    && SameOff(u.written, st.l, st'.l)
    && (!u.effect ==> st'.out == st.out)
  }

  lemma FramedSelf(u: Use, st: State)
    ensures Framed(u, st, st)
  {
  }

  lemma FramedTrans(u: Use, a: State, b: State, c: State)
    requires Framed(u, a, b) && Framed(u, b, c)
    ensures Framed(u, a, c)
  {
  }

  lemma FramedStore(u: Use, a: State, b: State, v: Var, x: Val)
    requires Framed(u, a, b) && v in u.written && Declared(b, v)
    ensures Framed(u, a, Store(b, v, x))
  {
  }

  /** A callee works on the same globals and output, and on a frame of its own. */
  lemma FramedCall(u: Use, a: State, b: State, l: map<Var, Val>, c: State)
    requires Framed(u, a, b) && Framed(u, b.(l := l), c)
    ensures Framed(u, a, c.(l := b.l))
  {
  }

  lemma {:induction false} FrameEval(fs: map<string, Func>, n: nat, u: Use, st: State, e: Expr)
    requires CoversExpr(u, e) && Closed(fs, u)
    requires Eval(fs, n, st, e).EDone?
    ensures Framed(u, st, Eval(fs, n, st, e).st)
    decreases n, e, 1
  {
    hide Apply, UnVal, AssignVal, Bump, Format, SameOff, Store, Bind;
    match e
    case Lit(_) => FramedSelf(u, st);
    case Sym(_) => FramedSelf(u, st);
    case Crement(v, up, _) => FramedSelf(u, st); FramedStore(u, st, st, v, Bump(up, Fetch(st, v)));
    case Un(_, x) => FrameEval(fs, n, u, st, x);
    case Assign(v, how, x) =>
      FrameEval(fs, n, u, st, x);
      var b := Eval(fs, n, st, x);
      FramedStore(u, st, b.st, v, AssignVal(how, Fetch(b.st, v), b.v).value);
    case Bin(_, l, r) =>
      FrameEval(fs, n, u, st, l);
      var a := Eval(fs, n, st, l).st;
      FrameEval(fs, n, u, a, r);
      FramedTrans(u, st, a, Eval(fs, n, a, r).st);
    case Logic(isOr, l, r) =>
      FrameEval(fs, n, u, st, l);
      var a := Eval(fs, n, st, l);
      if Truth(a.v).value != isOr {
        FrameEval(fs, n, u, a.st, r);
        FramedTrans(u, st, a.st, Eval(fs, n, a.st, r).st);
      }
    case Cond(c, l, r) =>
      FrameEval(fs, n, u, st, c);
      var a := Eval(fs, n, st, c);
      var x := if Truth(a.v).value then l else r;
      FrameEval(fs, n, u, a.st, x);
      FramedTrans(u, st, a.st, Eval(fs, n, a.st, x).st);
    case Call(f, args) =>
      FrameArgs(fs, n, u, st, args);
      var a := EvalArgs(fs, n, st, args);
      var st1 := Enter(fs[f], a.st, a.vs);
      FrameExec(fs, n - 1, u, st1, fs[f].body);
      FramedCall(u, st, a.st, st1.l, Exec(fs, n - 1, st1, fs[f].body).st);
    case Print(_, args) => FrameArgs(fs, n, u, st, args);
  }

  lemma {:induction false} FrameArgs(fs: map<string, Func>, n: nat, u: Use, st: State, args: seq<Expr>)
    requires CoversArgs(u, args) && Closed(fs, u)
    requires EvalArgs(fs, n, st, args).ADone?
    ensures Framed(u, st, EvalArgs(fs, n, st, args).st)
    decreases n, args, 0
  {
    if args != [] {
      FrameEval(fs, n, u, st, args[0]);
      FrameArgs(fs, n, u, Eval(fs, n, st, args[0]).st, args[1..]);
    }
  }

  lemma {:induction false} FrameOpt(fs: map<string, Func>, n: nat, u: Use, st: State, e: Option<Expr>)
    requires CoversOpt(u, e) && Closed(fs, u)
    requires EvalOpt(fs, n, st, e).EDone?
    ensures Framed(u, st, EvalOpt(fs, n, st, e).st)
    decreases n, e, 2
  {
    if e.Some? { FrameEval(fs, n, u, st, e.value); }
  }

  lemma {:induction false} FrameExec(fs: map<string, Func>, n: nat, u: Use, st: State, s: Stmt)
    requires CoversStmt(u, s) && Closed(fs, u)
    requires Exec(fs, n, st, s).SDone?
    ensures Framed(u, st, Exec(fs, n, st, s).st)
    decreases n, s, 2
  {
    match s
    case Do(e) => FrameEval(fs, n, u, st, e);
    case Return(e) => FrameEval(fs, n, u, st, e);
    case Block(body) => FrameSeq(fs, n, u, st, body);
    case If(c, thn, els) =>
      FrameEval(fs, n, u, st, c);
      var a := Eval(fs, n, st, c);
      if Truth(a.v).value {
        FrameExec(fs, n, u, a.st, thn);
      } else if els.Some? {
        FrameExec(fs, n, u, a.st, els.value);
      }
    case For(init, _, _, _) =>
      FrameOpt(fs, n, u, st, init);
      FrameLoop(fs, n, u, EvalOpt(fs, n, st, init).st, s);
    case _ =>
  }

  lemma {:induction false} FrameSeq(fs: map<string, Func>, n: nat, u: Use, st: State, ss: seq<Stmt>)
    requires CoversSeq(u, ss) && Closed(fs, u)
    requires ExecSeq(fs, n, st, ss).SDone?
    ensures Framed(u, st, ExecSeq(fs, n, st, ss).st)
    decreases n, ss, 1
  {
    if ss != [] {
      FrameExec(fs, n, u, st, ss[0]);
      var r := Exec(fs, n, st, ss[0]);
      if r.sig == Normal { FrameSeq(fs, n, u, r.st, ss[1..]); }
    }
  }

  lemma {:induction false} FrameLoop(fs: map<string, Func>, n: nat, u: Use, st: State, s: Stmt)
    requires s.For? && CoversStmt(u, s) && Closed(fs, u)
    requires Loop(fs, n, st, s).SDone?
    ensures Framed(u, st, Loop(fs, n, st, s).st)
    decreases n, s, 1
  {
    hide Framed;
    FrameEval(fs, n, u, st, s.c);
    var c := Eval(fs, n, st, s.c);
    if Truth(c.v).value {
      FrameExec(fs, n, u, c.st, s.loop);
      var b := Exec(fs, n, c.st, s.loop);
      FramedTrans(u, st, c.st, b.st);
      if b.sig == Normal || b.sig == Continued {
        FrameOpt(fs, n, u, b.st, s.incr);
        var i := EvalOpt(fs, n, b.st, s.incr).st;
        FrameLoop(fs, n - 1, u, i, s);
        FramedTrans(u, st, b.st, i);
        FramedTrans(u, st, i, Loop(fs, n - 1, i, s).st);
      }
    }
  }

  // ----- what the optimizer concludes from the analysis -----

  lemma ClosedFromScratch(fs: map<string, Func>, u: Use)
    requires CoversEntered(fs, NO_USE, u)
    ensures Closed(fs, u)
  {
  }

  lemma FramedNothing(u: Use, st: State, st': State)
    requires Framed(u, st, st') && SideEffectFree(u)
    ensures st' == st
  {
    assert st'.g == st.g && st'.l == st.l;
  }

  /** side_effect_free: evaluation leaves every variable and the output as they were. */
  lemma PureEval(fs: map<string, Func>, n: nat, st: State, e: Expr)
    requires SideEffectFree(UseExpr(fs, NO_USE, e))
    requires Eval(fs, n, st, e).EDone?
    ensures Eval(fs, n, st, e).st == st
  {
    PureEvalWrt(fs, n, st, e, st.g.Keys + st.l.Keys);
  }

  /** side_effect_free_wrt: enough that no variable of the session or of the current frame
      is written; locals of called functions may be. */
  lemma PureEvalWrt(fs: map<string, Func>, n: nat, st: State, e: Expr, vars: set<Var>)
    requires SideEffectFreeWrt(UseExpr(fs, NO_USE, e), vars)
    requires st.g.Keys <= vars && st.l.Keys <= vars
    requires Eval(fs, n, st, e).EDone?
    ensures Eval(fs, n, st, e).st == st
  {
    var u := UseExpr(fs, NO_USE, e);
    UseExprCovers(fs, NO_USE, e);
    FrameEval(fs, n, u, st, e);
    assert forall v | v in st.g || v in st.l :: v !in u.written;
  }

  /** The question asked about a call in void context: the callee's body writes no global. */
  function UseCallee(fs: map<string, Func>, f: string): Use {
    var entered := NO_USE.(seen := {f});
    if f in fs then UseStmt(fs, entered, fs[f].body) else entered
  }

  lemma PureCallee(fs: map<string, Func>, n: nat, st: State, f: string, globals: set<Var>)
    requires f in fs && SideEffectFreeWrt(UseCallee(fs, f), globals)
    requires st.g.Keys <= globals
    requires Exec(fs, n, st, fs[f].body).SDone?
    ensures var st' := Exec(fs, n, st, fs[f].body).st; st'.g == st.g && st'.out == st.out
  {
    var u := UseCallee(fs, f);
    UseStmtCovers(fs, NO_USE.(seen := {f}), fs[f].body);
    assert Closed(fs, u) by {
      forall h | h in u.seen && h in fs ensures CoversStmt(u, fs[h].body) { assert h == f || h !in {f}; }
    }
    FrameExec(fs, n, u, st, fs[f].body);
    assert forall v | v in st.g :: v !in u.written;
  }

  // ----- the set of declared variables never changes during a run -----

  ghost predicate SameDomain(st: State, st': State) { st'.g.Keys == st.g.Keys && st'.l.Keys == st.l.Keys }

  lemma {:induction false} EvalKeepsDomain(fs: map<string, Func>, n: nat, st: State, e: Expr)
    requires Eval(fs, n, st, e).EDone?
    ensures SameDomain(st, Eval(fs, n, st, e).st)
  {
    UseExprCovers(fs, NO_USE, e);
    FrameEval(fs, n, UseExpr(fs, NO_USE, e), st, e);
  }

  lemma {:induction false} ExecKeepsDomain(fs: map<string, Func>, n: nat, st: State, s: Stmt)
    requires Exec(fs, n, st, s).SDone?
    ensures SameDomain(st, Exec(fs, n, st, s).st)
  {
    UseStmtCovers(fs, NO_USE, s);
    FrameExec(fs, n, UseStmt(fs, NO_USE, s), st, s);
  }
}
