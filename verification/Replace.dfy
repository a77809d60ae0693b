/**
 Replacing function bodies by bodies that behave the same when called from the old
 program leaves every run of the program as it was, although the new bodies then call each
 other.
 */
module Replace {
  import opened Basics
  import opened Syntax
  import opened Semantics
  import opened Frame

  /** The declared variables of a state are among the given ones. */
  ghost predicate Within(st: State, globals: set<Var>, frame: set<Var>) {
    st.g.Keys <= globals && st.l.Keys <= frame
  }

  /** Wherever s ends, s' ends in the same way and in the same state. */
  ghost predicate Refines(fs: map<string, Func>, globals: set<Var>, frame: set<Var>, s: Stmt, s': Stmt) {
    forall n: nat, st: State | Within(st, globals, frame) && Exec(fs, n, st, s).SDone? ::
      Exec(fs, n, st, s') == Exec(fs, n, st, s)
  }

  function FrameVars(fd: Func): set<Var> { SetOf(fd.locals) + SetOf(fd.formals) }

  /** gs differs from fs only in bodies, each refining its original. */
  ghost predicate Replaced(fs: map<string, Func>, gs: map<string, Func>, globals: set<Var>) {
    && gs.Keys == fs.Keys
    && forall f | f in fs ::
      && gs[f] == fs[f].(body := gs[f].body)
      && Refines(fs, globals, FrameVars(fs[f]), fs[f].body, gs[f].body)
  }

  lemma {:induction false} ReplaceEval(fs: map<string, Func>, gs: map<string, Func>, globals: set<Var>, n: nat, st: State, e: Expr)
    requires Replaced(fs, gs, globals) && st.g.Keys <= globals
    requires Eval(fs, n, st, e).EDone?
    ensures Eval(gs, n, st, e) == Eval(fs, n, st, e)
    decreases n, e, 1
  {
    hide Apply, UnVal, AssignVal, Bump, Format, Replaced;
    match e
    case Lit(_) =>
    case Sym(_) =>
    case Crement(_, _, _) =>
    case Un(_, x) => ReplaceEval(fs, gs, globals, n, st, x);
    case Assign(_, _, x) => ReplaceEval(fs, gs, globals, n, st, x);
    case Bin(_, l, r) =>
      ReplaceEval(fs, gs, globals, n, st, l);
      EvalKeepsDomain(fs, n, st, l);
      ReplaceEval(fs, gs, globals, n, Eval(fs, n, st, l).st, r);
    case Logic(isOr, l, r) =>
      ReplaceEval(fs, gs, globals, n, st, l);
      EvalKeepsDomain(fs, n, st, l);
      var a := Eval(fs, n, st, l);
      if Truth(a.v).value != isOr { ReplaceEval(fs, gs, globals, n, a.st, r); }
    case Cond(c, l, r) =>
      ReplaceEval(fs, gs, globals, n, st, c);
      EvalKeepsDomain(fs, n, st, c);
      var a := Eval(fs, n, st, c);
      ReplaceEval(fs, gs, globals, n, a.st, if Truth(a.v).value then l else r);
    case Call(f, args) =>
      ReplaceArgs(fs, gs, globals, n, st, args);
      ReplaceCall(fs, gs, globals, n, EvalArgs(fs, n, st, args).st, f, EvalArgs(fs, n, st, args).vs);
    case Print(_, args) => ReplaceArgs(fs, gs, globals, n, st, args);
  }

  lemma {:induction false} ReplaceCall(fs: map<string, Func>, gs: map<string, Func>, globals: set<Var>, n: nat, st: State, f: string, vs: seq<Val>)
    requires Replaced(fs, gs, globals) && st.g.Keys <= globals
    requires n > 0 && f in fs && |fs[f].formals| == |vs|
    requires Exec(fs, n - 1, Enter(fs[f], st, vs), fs[f].body).SDone?
    ensures f in gs && |gs[f].formals| == |vs| && gs[f].init == fs[f].init
    ensures Exec(gs, n - 1, Enter(gs[f], st, vs), gs[f].body) == Exec(fs, n - 1, Enter(fs[f], st, vs), fs[f].body)
    decreases n - 1
  {
    var st1 := Enter(fs[f], st, vs);
    assert Within(st1, globals, FrameVars(fs[f]));
    ReplaceExec(fs, gs, globals, n - 1, st1, gs[f].body);
  }

  lemma {:induction false} ReplaceArgs(fs: map<string, Func>, gs: map<string, Func>, globals: set<Var>, n: nat, st: State, args: seq<Expr>)
    requires Replaced(fs, gs, globals) && st.g.Keys <= globals
    requires EvalArgs(fs, n, st, args).ADone?
    ensures EvalArgs(gs, n, st, args) == EvalArgs(fs, n, st, args)
    ensures EvalArgs(fs, n, st, args).st.g.Keys == st.g.Keys
    decreases n, args, 0
  {
    hide Replaced;
    if args != [] {
      ReplaceEval(fs, gs, globals, n, st, args[0]);
      EvalKeepsDomain(fs, n, st, args[0]);
      ReplaceArgs(fs, gs, globals, n, Eval(fs, n, st, args[0]).st, args[1..]);
    }
  }

  lemma {:induction false} ReplaceOpt(fs: map<string, Func>, gs: map<string, Func>, globals: set<Var>, n: nat, st: State, e: Option<Expr>)
    requires Replaced(fs, gs, globals) && st.g.Keys <= globals
    requires EvalOpt(fs, n, st, e).EDone?
    ensures EvalOpt(gs, n, st, e) == EvalOpt(fs, n, st, e)
    ensures EvalOpt(fs, n, st, e).st.g.Keys == st.g.Keys
    decreases n, e, 2
  {
    if e.Some? {
      ReplaceEval(fs, gs, globals, n, st, e.value);
      EvalKeepsDomain(fs, n, st, e.value);
    }
  }

  lemma {:induction false} ReplaceExec(fs: map<string, Func>, gs: map<string, Func>, globals: set<Var>, n: nat, st: State, s: Stmt)
    requires Replaced(fs, gs, globals) && st.g.Keys <= globals
    requires Exec(fs, n, st, s).SDone?
    ensures Exec(gs, n, st, s) == Exec(fs, n, st, s)
    decreases n, s, 2
  {
    hide Replaced;
    match s
    case Do(e) => ReplaceEval(fs, gs, globals, n, st, e);
    case Return(e) => ReplaceEval(fs, gs, globals, n, st, e);
    case Block(body) => ReplaceSeq(fs, gs, globals, n, st, body);
    case If(c, thn, els) =>
      ReplaceEval(fs, gs, globals, n, st, c);
      EvalKeepsDomain(fs, n, st, c);
      var a := Eval(fs, n, st, c);
      if Truth(a.v).value {
        ReplaceExec(fs, gs, globals, n, a.st, thn);
      } else if els.Some? {
        ReplaceExec(fs, gs, globals, n, a.st, els.value);
      }
    case For(init, _, _, _) =>
      ReplaceOpt(fs, gs, globals, n, st, init);
      ReplaceLoop(fs, gs, globals, n, EvalOpt(fs, n, st, init).st, s);
    case _ =>
  }

  lemma {:induction false} ReplaceSeq(fs: map<string, Func>, gs: map<string, Func>, globals: set<Var>, n: nat, st: State, ss: seq<Stmt>)
    requires Replaced(fs, gs, globals) && st.g.Keys <= globals
    requires ExecSeq(fs, n, st, ss).SDone?
    ensures ExecSeq(gs, n, st, ss) == ExecSeq(fs, n, st, ss)
    decreases n, ss, 1
  {
    hide Replaced;
    if ss != [] {
      ReplaceExec(fs, gs, globals, n, st, ss[0]);
      ExecKeepsDomain(fs, n, st, ss[0]);
      var r := Exec(fs, n, st, ss[0]);
      if r.sig == Normal { ReplaceSeq(fs, gs, globals, n, r.st, ss[1..]); }
    }
  }

  lemma {:induction false} ReplaceLoop(fs: map<string, Func>, gs: map<string, Func>, globals: set<Var>, n: nat, st: State, s: Stmt)
    requires s.For? && Replaced(fs, gs, globals) && st.g.Keys <= globals
    requires Loop(fs, n, st, s).SDone?
    ensures Loop(gs, n, st, s) == Loop(fs, n, st, s)
    decreases n, s, 1
  {
    hide Replaced;
    ReplaceEval(fs, gs, globals, n, st, s.c);
    EvalKeepsDomain(fs, n, st, s.c);
    var c := Eval(fs, n, st, s.c);
    if Truth(c.v).value {
      ReplaceExec(fs, gs, globals, n, c.st, s.loop);
      ExecKeepsDomain(fs, n, c.st, s.loop);
      var b := Exec(fs, n, c.st, s.loop);
      if b.sig == Normal || b.sig == Continued {
        ReplaceOpt(fs, gs, globals, n, b.st, s.incr);
        ReplaceLoop(fs, gs, globals, n - 1, EvalOpt(fs, n, b.st, s.incr).st, s);
      }
    }
  }
}
