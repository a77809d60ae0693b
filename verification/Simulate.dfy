/**
 Removing dead assignments, unused variables and uncalled functions is a simulation: the
 rewritten program goes through related states, equal on every variable that matters and
 on the output, through recursive calls and loops.
 */
module Simulate {
  import opened Basics
  import opened Syntax
  import opened Semantics
  import opened VarUse
  import opened DeadAssign

  /** Two function maps, before and after, and what was taken away between them.
      `u` accounts for the code that can run; assignments to `dead` variables are stripped;
      variables in `diff` may differ between the two runs; those in `gone` may be missing from
      the second one; `globals` are the globals of the first. */
  datatype Link = Link(
    fs: map<string, Func>, gs: map<string, Func>,
    u: Use, dead: Var -> bool, diff: iset<Var>, gone: iset<Var>, globals: set<Var>)

  ghost predicate LinkedFunc(k: Link, f: string)
    requires f in k.fs
  {
    && f in k.gs
    && k.gs[f].formals == k.fs[f].formals
    && k.gs[f].init == k.fs[f].init
    && k.gs[f].body == StripStmt(k.dead, k.fs[f].body)
    && LinkedVars(k, k.fs[f].locals, k.gs[f].locals)
    && CoversStmt(k.u, k.fs[f].body)
    && QuietStmt(k.diff, k.fs[f].body)
  }

  /** The second list of declarations lacks at most variables in `gone`. */
  ghost predicate LinkedVars(k: Link, vs: seq<Var>, ws: seq<Var>) {
    (forall v | v in ws :: v in vs) && (forall v | v in vs && v !in k.gone :: v in ws)
  }

  ghost predicate Linked(k: Link) {
    && (forall v | k.dead(v) :: v in k.diff)
    && (forall v | v in k.globals :: !k.dead(v))
    && (forall v | v in k.u.read :: v !in k.diff)
    && (forall v | v in k.u.written :: v !in k.gone)
    && (forall v | v in k.gone :: v in k.diff)
    && (forall f | f in k.u.seen && f in k.fs :: LinkedFunc(k, f))
  }

  ghost predicate RelMap(k: Link, m: map<Var, Val>, m': map<Var, Val>) {
    && m'.Keys <= m.Keys
    && (forall v | v in m && v !in k.gone :: v in m')
    && (forall v | v in m' && v !in k.diff :: m'[v] == m[v])
  }

  /** The states of the two runs agree on everything that matters. */
  ghost predicate Rel(k: Link, st: State, st': State) {
    st.out == st'.out && st.g.Keys <= k.globals && RelMap(k, st.g, st'.g) && RelMap(k, st.l, st'.l)
  }

  lemma {:induction false} BindRel(k: Link, m: map<Var, Val>, m': map<Var, Val>, formals: seq<Var>, vs: seq<Val>)
    requires |formals| == |vs| && RelMap(k, m, m')
    ensures RelMap(k, Bind(m, formals, vs), Bind(m', formals, vs))
    decreases formals
  {
    if formals != [] { BindRel(k, m[formals[0] := vs[0]], m'[formals[0] := vs[0]], formals[1..], vs[1..]); }
  }

  // ----- expressions -----

  lemma {:induction false} SimEval(k: Link, n: nat, st: State, st': State, e: Expr)
    requires Linked(k) && CoversExpr(k.u, e) && QuietExpr(k.diff, e)
    requires Rel(k, st, st') && Eval(k.fs, n, st, e).EDone?
    ensures var a, b := Eval(k.fs, n, st, e), Eval(k.gs, n, st', StripExpr(k.dead, e));
            b.EDone? && b.v == a.v && Rel(k, a.st, b.st)
    decreases n, e, 1
  {
    hide Apply, UnVal, Bump, Format, Linked, Rel;
    match e
    case Lit(_) =>
    case Sym(v) => SimFetch(k, st, st', v);
    case Crement(v, up, post) =>
      SimValue(k, st, st', v);
      SimStore(k, st, st', v, Bump(up, Fetch(st, v)), Bump(up, Fetch(st, v)));
    case Un(_, x) => SimEval(k, n, st, st', x);
    case Assign(v, how, x) => SimAssign(k, n, st, st', v, how, x);
    case Bin(_, l, r) =>
      SimEval(k, n, st, st', l);
      SimEval(k, n, Eval(k.fs, n, st, l).st, Eval(k.gs, n, st', StripExpr(k.dead, l)).st, r);
    case Logic(isOr, l, r) =>
      SimEval(k, n, st, st', l);
      var a := Eval(k.fs, n, st, l);
      if Truth(a.v).value != isOr { SimEval(k, n, a.st, Eval(k.gs, n, st', StripExpr(k.dead, l)).st, r); }
    case Cond(c, l, r) =>
      SimEval(k, n, st, st', c);
      var a := Eval(k.fs, n, st, c);
      SimEval(k, n, a.st, Eval(k.gs, n, st', StripExpr(k.dead, c)).st, if Truth(a.v).value then l else r);
    case Call(f, args) => SimCall(k, n, st, st', f, args);
    case Print(stream, args) =>
      SimArgs(k, n, st, st', args);
      var a, b := EvalArgs(k.fs, n, st, args), EvalArgs(k.gs, n, st', StripArgs(k.dead, args));
      SimOutput(k, a.st, b.st, Format(a.vs));
  }

  lemma SimDeclared(k: Link, st: State, st': State, v: Var)
    requires Linked(k) && Rel(k, st, st') && v !in k.gone && Declared(st, v)
    ensures Declared(st', v)
  {
  }

  lemma SimValue(k: Link, st: State, st': State, v: Var)
    requires Linked(k) && Rel(k, st, st') && v !in k.diff && Declared(st, v)
    ensures Declared(st', v) && Fetch(st', v) == Fetch(st, v)
  {
  }

  lemma SimFetch(k: Link, st: State, st': State, v: Var)
    requires Linked(k) && Rel(k, st, st') && v in k.u.read && Declared(st, v)
    ensures Declared(st', v) && Fetch(st', v) == Fetch(st, v)
  {
  }

  lemma SimStore(k: Link, st: State, st': State, v: Var, x: Val, x': Val)
    requires Linked(k) && Rel(k, st, st') && Declared(st, v) && Declared(st', v)
    requires x == x' || v in k.diff
    ensures Rel(k, Store(st, v, x), Store(st', v, x'))
  {
  }

  lemma SimOutput(k: Link, st: State, st': State, text: string)
    requires Rel(k, st, st')
    ensures Rel(k, st.(out := st.out + text), st'.(out := st'.out + text))
  {
  }

  lemma WrittenStays(k: Link, v: Var)
    requires Linked(k) && v in k.u.written
    ensures v !in k.gone
  {
  }

  lemma {:induction false} SimAssign(k: Link, n: nat, st: State, st': State, v: Var, how: AssignOp, x: Expr)
    requires var e := Assign(v, how, x);
             Linked(k) && CoversExpr(k.u, e) && QuietExpr(k.diff, e) && Eval(k.fs, n, st, e).EDone?
    requires Rel(k, st, st')
    ensures var e := Assign(v, how, x);
            var a, b := Eval(k.fs, n, st, e), Eval(k.gs, n, st', StripExpr(k.dead, e));
            b.EDone? && b.v == a.v && Rel(k, a.st, b.st)
    decreases n, Assign(v, how, x), 0
  {
    hide Apply, Linked, Rel, Fetch, Store, Declared;
    SimEval(k, n, st, st', x);
    var a, b := Eval(k.fs, n, st, x), Eval(k.gs, n, st', StripExpr(k.dead, x));
    SimWrite(k, a.st, b.st, v, how, a.v);
  }

  /** The write itself: left out if the variable is dead. */
  lemma SimWrite(k: Link, st: State, st': State, v: Var, how: AssignOp, x: Val)
    requires Linked(k) && Rel(k, st, st') && Declared(st, v) && AssignVal(how, Fetch(st, v), x).Some?
    requires v in k.u.written && (how != Set ==> v in k.u.read)
    ensures var w := AssignVal(how, Fetch(st, v), x).value;
      if k.dead(v) then how == Set && Rel(k, Store(st, v, w), st')
      else Declared(st', v) && AssignVal(how, Fetch(st', v), x) == Some(w) && Rel(k, Store(st, v, w), Store(st', v, w))
  {
    hide Apply, Linked, Rel;
    var w := AssignVal(how, Fetch(st, v), x).value;
    WrittenStays(k, v);
    if k.dead(v) {
      SimDead(k, st, st', v, w);
    } else {
      SimDeclared(k, st, st', v);
      if how != Set { SimFetch(k, st, st', v); }
      SimStore(k, st, st', v, w, w);
    }
  }

  /** Dropping a write to a dead variable keeps the states related.  Only locals are dead, and
      a dead variable is never part of a read-modify-write. */
  lemma SimDead(k: Link, st: State, st': State, v: Var, x: Val)
    requires Linked(k) && Rel(k, st, st') && k.dead(v) && Declared(st, v)
    ensures Rel(k, Store(st, v, x), st')
    ensures v !in k.u.read
  {
  }

  lemma SimEnter(k: Link, f: string, st: State, st': State, vs: seq<Val>)
    requires Linked(k) && Rel(k, st, st') && f in k.u.seen && f in k.fs && |k.fs[f].formals| == |vs|
    ensures LinkedFunc(k, f)
    ensures Rel(k, Enter(k.fs[f], st, vs), Enter(k.gs[f], st', vs))
  {
    var fd, gd := k.fs[f], k.gs[f];
    assert LinkedFunc(k, f);
    BindRel(k, Initial(fd.locals), Initial(gd.locals), fd.formals, vs);
  }

  /** Back in the caller, whose frames are still related. */
  lemma SimResume(k: Link, caller: State, caller': State, callee: State, callee': State)
    requires Rel(k, caller, caller') && Rel(k, callee, callee')
    ensures Rel(k, callee.(l := caller.l), callee'.(l := caller'.l))
  {
  }

  lemma {:induction false} SimCall(k: Link, n: nat, st: State, st': State, f: string, args: seq<Expr>)
    requires var e := Call(f, args);
             Linked(k) && CoversExpr(k.u, e) && QuietExpr(k.diff, e) && Eval(k.fs, n, st, e).EDone?
    requires Rel(k, st, st')
    ensures var e := Call(f, args);
            var a, b := Eval(k.fs, n, st, e), Eval(k.gs, n, st', StripExpr(k.dead, e));
            b.EDone? && b.v == a.v && Rel(k, a.st, b.st)
    decreases n, Call(f, args), 0
  {
    hide Linked, Rel, Enter;
    SimArgs(k, n, st, st', args);
    var a, b := EvalArgs(k.fs, n, st, args), EvalArgs(k.gs, n, st', StripArgs(k.dead, args));
    SimEnter(k, f, a.st, b.st, a.vs);
    var fd, gd := k.fs[f], k.gs[f];
    SimExec(k, n - 1, Enter(fd, a.st, a.vs), Enter(gd, b.st, b.vs), fd.body);
    var x := Exec(k.fs, n - 1, Enter(fd, a.st, a.vs), fd.body);
    var y := Exec(k.gs, n - 1, Enter(gd, b.st, b.vs), gd.body);
    SimResume(k, a.st, b.st, x.st, y.st);
  }

  lemma {:induction false} SimArgs(k: Link, n: nat, st: State, st': State, args: seq<Expr>)
    requires Linked(k) && CoversArgs(k.u, args) && QuietArgs(k.diff, args)
    requires Rel(k, st, st') && EvalArgs(k.fs, n, st, args).ADone?
    ensures var a, b := EvalArgs(k.fs, n, st, args), EvalArgs(k.gs, n, st', StripArgs(k.dead, args));
            b.ADone? && b.vs == a.vs && Rel(k, a.st, b.st)
    decreases n, args, 0
  {
    hide Linked, Rel;
    if args != [] {
      SimEval(k, n, st, st', args[0]);
      SimArgs(k, n, Eval(k.fs, n, st, args[0]).st, Eval(k.gs, n, st', StripExpr(k.dead, args[0])).st, args[1..]);
    }
  }

  // ----- statements -----

  /** In void context the values may differ: a `++` of a dead variable. */
  lemma {:induction false} SimVoid(k: Link, n: nat, st: State, st': State, e: Expr)
    requires Linked(k) && CoversExpr(k.u, e) && QuietVoid(k.diff, e)
    requires Rel(k, st, st') && Eval(k.fs, n, st, e).EDone?
    ensures var a, b := Eval(k.fs, n, st, e), Eval(k.gs, n, st', StripExpr(k.dead, e));
            b.EDone? && Rel(k, a.st, b.st)
    decreases n, e, 2
  {
    hide Linked, Rel;
    match e
    case Crement(v, up, _) =>
      WrittenStays(k, v);
      SimDeclared(k, st, st', v);
      if v !in k.diff { SimValue(k, st, st', v); }
      SimStore(k, st, st', v, Bump(up, Fetch(st, v)), Bump(up, Fetch(st', v)));
    case _ => SimEval(k, n, st, st', e);
  }

  lemma {:induction false} SimOpt(k: Link, n: nat, st: State, st': State, e: Option<Expr>)
    requires Linked(k) && CoversOpt(k.u, e) && QuietOpt(k.diff, e)
    requires Rel(k, st, st') && EvalOpt(k.fs, n, st, e).EDone?
    ensures var a, b := EvalOpt(k.fs, n, st, e), EvalOpt(k.gs, n, st', StripOpt(k.dead, e));
            b.EDone? && Rel(k, a.st, b.st)
    decreases n, e, 3
  {
    if e.Some? { SimVoid(k, n, st, st', e.value); }
  }

  lemma {:induction false} SimExec(k: Link, n: nat, st: State, st': State, s: Stmt)
    requires Linked(k) && CoversStmt(k.u, s) && QuietStmt(k.diff, s)
    requires Rel(k, st, st') && Exec(k.fs, n, st, s).SDone?
    ensures var a, b := Exec(k.fs, n, st, s), Exec(k.gs, n, st', StripStmt(k.dead, s));
            b.SDone? && b.sig == a.sig && Rel(k, a.st, b.st)
    decreases n, s, 4
  {
    hide Linked, Rel;
    match s
    case Do(e) => SimVoid(k, n, st, st', e);
    case Return(e) => SimEval(k, n, st, st', e);
    case Block(body) => SimSeq(k, n, st, st', body);
    case If(c, thn, els) =>
      SimEval(k, n, st, st', c);
      var a, b := Eval(k.fs, n, st, c), Eval(k.gs, n, st', StripExpr(k.dead, c));
      if Truth(a.v).value {
        SimExec(k, n, a.st, b.st, thn);
      } else if els.Some? {
        SimExec(k, n, a.st, b.st, els.value);
      }
    case For(init, _, _, _) =>
      SimOpt(k, n, st, st', init);
      SimLoop(k, n, EvalOpt(k.fs, n, st, init).st, EvalOpt(k.gs, n, st', StripOpt(k.dead, init)).st, s);
    case _ =>
  }

  lemma {:induction false} SimSeq(k: Link, n: nat, st: State, st': State, ss: seq<Stmt>)
    requires Linked(k) && CoversSeq(k.u, ss) && QuietSeq(k.diff, ss)
    requires Rel(k, st, st') && ExecSeq(k.fs, n, st, ss).SDone?
    ensures var a, b := ExecSeq(k.fs, n, st, ss), ExecSeq(k.gs, n, st', StripSeq(k.dead, ss));
            b.SDone? && b.sig == a.sig && Rel(k, a.st, b.st)
    decreases n, ss, 3
  {
    hide Linked, Rel;
    if ss != [] {
      SimExec(k, n, st, st', ss[0]);
      var a, b := Exec(k.fs, n, st, ss[0]), Exec(k.gs, n, st', StripStmt(k.dead, ss[0]));
      if a.sig == Normal { SimSeq(k, n, a.st, b.st, ss[1..]); }
    }
  }

  lemma {:induction false} SimLoop(k: Link, n: nat, st: State, st': State, s: Stmt)
    requires s.For? && Linked(k) && CoversStmt(k.u, s) && QuietStmt(k.diff, s)
    requires Rel(k, st, st') && Loop(k.fs, n, st, s).SDone?
    ensures var a, b := Loop(k.fs, n, st, s), Loop(k.gs, n, st', StripStmt(k.dead, s));
            b.SDone? && b.sig == a.sig && Rel(k, a.st, b.st)
    decreases n, s, 3
  {
    hide Linked, Rel;
    var s' := StripStmt(k.dead, s);
    SimEval(k, n, st, st', s.c);
    var c, c' := Eval(k.fs, n, st, s.c), Eval(k.gs, n, st', s'.c);
    if Truth(c.v).value {
      SimExec(k, n, c.st, c'.st, s.loop);
      var b, b' := Exec(k.fs, n, c.st, s.loop), Exec(k.gs, n, c'.st, s'.loop);
      if b.sig == Normal || b.sig == Continued {
        SimOpt(k, n, b.st, b'.st, s.incr);
        SimLoop(k, n - 1, EvalOpt(k.fs, n, b.st, s.incr).st, EvalOpt(k.gs, n, b'.st, s'.incr).st, s);
      }
    }
  }
}
