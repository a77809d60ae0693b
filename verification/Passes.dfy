/**
 The optimizer's passes over a whole session, and the theorem for each: a run that ends
 in the session before the pass ends in the session after it with the same globals and the
 same output.
 */
module Passes {
  import opened Syntax
  import opened Semantics
  import opened VarUse
  import opened Frame
  import opened DeadAssign
  import opened Simulate

  // ----- what it means to preserve a session -----

  /** What is still visible from outside when only the globals `vs` are left. */
  function Keep(o: Outside, vs: seq<Var>): Outside {
    Outside(map v | v in o.g && v in vs :: o.g[v], o.out)
  }

  /** Every run of p that ends, from any values of its globals, ends in q as well, within the
      same fuel, with the same output and the same value of every global q still has. */
  ghost predicate Preserves(p: Program, q: Program) {
    && SetOf(q.globals) <= SetOf(p.globals)
    && |q.probes| == |p.probes|
    && forall n: nat, o: Outside, events: seq<nat> | o.g.Keys == SetOf(p.globals) && Run(p, n, o, events).RDone? ::
      Run(q, n, Keep(o, q.globals), events) == RDone(Keep(Run(p, n, o, events).o, q.globals))
  }

  lemma PreservesTrans(p: Program, q: Program, r: Program)
    requires Preserves(p, q) && Preserves(q, r)
    ensures Preserves(p, r)
  {
    forall n: nat, o: Outside, events: seq<nat> | o.g.Keys == SetOf(p.globals) && Run(p, n, o, events).RDone?
      ensures Run(r, n, Keep(o, r.globals), events) == RDone(Keep(Run(p, n, o, events).o, r.globals))
    {
      var o1, o' := Keep(o, q.globals), Run(p, n, o, events).o;
      KeepKeep(o, q.globals, r.globals);
      KeepKeep(o', q.globals, r.globals);
      KeepKeys(o, q.globals);
      assert Run(q, n, o1, events) == RDone(Keep(o', q.globals));
    }
  }

  lemma KeepKeep(o: Outside, vs: seq<Var>, ws: seq<Var>)
    requires SetOf(ws) <= SetOf(vs)
    ensures Keep(Keep(o, vs), ws) == Keep(o, ws)
  {
    assert forall v | v in ws :: v in SetOf(ws);
  }

  lemma KeepKeys(o: Outside, vs: seq<Var>)
    requires SetOf(vs) <= o.g.Keys
    ensures Keep(o, vs).g.Keys == SetOf(vs)
  {
    assert forall v | v in vs :: v in SetOf(vs);
  }

  /** One firing, seen through the globals that q keeps. */
  ghost predicate FirePreserved(p: Program, q: Program, n: nat, o: Outside, i: nat)
    requires i < |p.probes| && |q.probes| == |p.probes|
  {
    Fire(p.funcs, n, o, p.probes[i]).RDone? ==>
      var o' := Fire(p.funcs, n, o, p.probes[i]).o;
      Fire(q.funcs, n, Keep(o, q.globals), q.probes[i]) == RDone(Keep(o', q.globals))
  }

  lemma FireKeepsDomain(fs: map<string, Func>, n: nat, o: Outside, pr: Probe)
    requires Fire(fs, n, o, pr).RDone?
    ensures Fire(fs, n, o, pr).o.g.Keys == o.g.Keys
  {
    var st := State(o.g, map[], o.out);
    EvalKeepsDomain(fs, n, st, Guard(pr));
    var c := Eval(fs, n, st, Guard(pr));
    if Truth(c.v).value { ExecKeepsDomain(fs, n, State(c.st.g, Initial(pr.locals), c.st.out), pr.body); }
  }

  /** It is enough to look at single firings. */
  lemma {:induction false} RunPreserved(p: Program, q: Program, n: nat, o: Outside, events: seq<nat>)
    requires |q.probes| == |p.probes|
    requires forall o: Outside, i: nat | o.g.Keys == SetOf(p.globals) && i < |p.probes| :: FirePreserved(p, q, n, o, i)
    requires o.g.Keys == SetOf(p.globals) && Run(p, n, o, events).RDone?
    ensures Run(q, n, Keep(o, q.globals), events) == RDone(Keep(Run(p, n, o, events).o, q.globals))
    decreases |events|
  {
    hide Fire, Keep;
    if events != [] {
      var i := events[0];
      assert FirePreserved(p, q, n, o, i);
      FireKeepsDomain(p.funcs, n, o, p.probes[i]);
      RunPreserved(p, q, n, Fire(p.funcs, n, o, p.probes[i]).o, events[1..]);
    }
  }

  lemma PreservesFromFirings(p: Program, q: Program)
    requires SetOf(q.globals) <= SetOf(p.globals) && |q.probes| == |p.probes|
    requires forall n: nat, o: Outside, i: nat | o.g.Keys == SetOf(p.globals) && i < |p.probes| ::
      FirePreserved(p, q, n, o, i)
    ensures Preserves(p, q)
  {
    hide FirePreserved;
    forall n: nat, o: Outside, events: seq<nat> | o.g.Keys == SetOf(p.globals) && Run(p, n, o, events).RDone?
      ensures Run(q, n, Keep(o, q.globals), events) == RDone(Keep(Run(p, n, o, events).o, q.globals))
    {
      RunPreserved(p, q, n, o, events);
    }
  }

  // ----- the analysis of a whole session -----

  /** The uses of all probes: bodies, and conditions if asked for. */
  function UseProbes(fs: map<string, Func>, u: Use, ps: seq<Probe>, conditions: bool): Use
    decreases ps
  {
    if ps == [] then u
    else
      var u1 := UseStmt(fs, u, ps[0].body);
      UseProbes(fs, if conditions then UseOpt(fs, u1, ps[0].cond) else u1, ps[1..], conditions)
  }

  ghost predicate CoversProbe(u: Use, pr: Probe, conditions: bool) {
    CoversStmt(u, pr.body) && (conditions ==> CoversOpt(u, pr.cond))
  }

  lemma {:induction false} UseProbesCovers(fs: map<string, Func>, u: Use, ps: seq<Probe>, conditions: bool)
    ensures u.Within(UseProbes(fs, u, ps, conditions))
    ensures CoversEntered(fs, u, UseProbes(fs, u, ps, conditions))
    ensures forall pr | pr in ps :: CoversProbe(UseProbes(fs, u, ps, conditions), pr, conditions)
    decreases ps
  {
    if ps != [] {
      var pr := ps[0];
      var u1 := UseStmt(fs, u, pr.body);
      var u2 := if conditions then UseOpt(fs, u1, pr.cond) else u1;
      var r := UseProbes(fs, u2, ps[1..], conditions);
      UseStmtCovers(fs, u, pr.body);
      UseOptCovers(fs, u1, pr.cond);
      UseProbesCovers(fs, u2, ps[1..], conditions);
      EnteredTrans(fs, u, u1, u2);
      EnteredTrans(fs, u, u2, r);
      CoversStmtMono(u1, r, pr.body);
      if conditions && pr.cond.Some? { CoversExprMono(u2, r, pr.cond.value); }
      assert ps == [pr] + ps[1..];
    }
  }

  function SessionUse(p: Program, conditions: bool): Use { UseProbes(p.funcs, NO_USE, p.probes, conditions) }

  lemma SessionUseCovers(p: Program, conditions: bool)
    ensures Closed(p.funcs, SessionUse(p, conditions))
    ensures forall pr | pr in p.probes :: CoversProbe(SessionUse(p, conditions), pr, conditions)
  {
    UseProbesCovers(p.funcs, NO_USE, p.probes, conditions);
    ClosedFromScratch(p.funcs, SessionUse(p, conditions));
  }

  // ----- passes 1 to 3 -----

  function Only<T(==,!new)>(xs: seq<T>, keep: set<T>): (r: seq<T>)
    ensures forall x :: x in r <==> x in xs && x in keep
    ensures |r| <= |xs|
    ensures (forall x | x in xs :: x in keep) ==> r == xs
    ensures (exists x | x in xs :: x !in keep) ==> |r| < |xs|
  {
    if xs == [] then []
    else
      assert xs == [xs[0]] + xs[1..];
      if xs[0] in keep then [xs[0]] + Only(xs[1..], keep) else Only(xs[1..], keep)
  }

  /** Pass 1: functions that no probe calls, even indirectly, go. */
  function DropFunctions(p: Program): Program {
    var seen := SessionUse(p, true).seen;
    p.(funcs := map f | f in p.funcs && f in seen :: p.funcs[f], order := Only(p.order, seen))
  }

  function Used(p: Program): set<Var> {
    var u := SessionUse(p, true);
    u.read + u.written
  }

  function TrimFunc(used: set<Var>, fd: Func): Func { fd.(locals := Only(fd.locals, used)) }

  function TrimProbe(used: set<Var>, pr: Probe): Probe { pr.(locals := Only(pr.locals, used)) }

  /** Pass 2: variables that are neither read nor written go. */
  function DropVariables(p: Program): Program {
    var used := Used(p);
    p.(globals := Only(p.globals, used),
       funcs := map f | f in p.funcs :: TrimFunc(used, p.funcs[f]),
       probes := seq(|p.probes|, i requires 0 <= i < |p.probes| => TrimProbe(used, p.probes[i])))
  }

  /** A variable whose assignments pass 3 strips: a local that nothing reads, and whose name is
      not that of a global.  (A global is kept, its value being shown when the session ends.) */
  predicate Dead(read: set<Var>, globals: seq<Var>, v: Var) {
    v.Local? && v !in read && forall g | g in globals :: g.name != v.name
  }

  function DeadTest(read: set<Var>, globals: seq<Var>): Var -> bool { v => Dead(read, globals, v) }

  function DeadIn(p: Program): Var -> bool { DeadTest(SessionUse(p, false).read, p.globals) }

  /** The variables assigned to anywhere in the session. */
  function Targets(p: Program): set<Var> {
    (set f, v | f in p.funcs && v in TargetsStmt(p.funcs[f].body) :: v) +
    (set pr, v | pr in p.probes && v in TargetsStmt(pr.body) :: v)
  }

  /** The dead variables that have an assignment to strip. */
  function StrippedTest(p: Program): Var -> bool { v => DeadIn(p)(v) && v in Targets(p) }

  ghost function Stripped(p: Program): iset<Var> { iset v | StrippedTest(p)(v) }

  function StripFunc(dead: Var -> bool, fd: Func): Func { fd.(body := StripStmt(dead, fd.body)) }

  function StripProbe(dead: Var -> bool, pr: Probe): Probe { pr.(body := StripStmt(dead, pr.body)) }

  /** Pass 3: assignments to dead variables become their right-hand sides. */
  function StripAssignments(p: Program): Program {
    var dead := DeadIn(p);
    p.(funcs := map f | f in p.funcs :: StripFunc(dead, p.funcs[f]),
       probes := seq(|p.probes|, i requires 0 <= i < |p.probes| => StripProbe(dead, p.probes[i])))
  }

  // ----- passes 1 to 3 as simulations -----

  lemma FireLinked(k: Link, n: nat, o: Outside, o': Outside, pr: Probe, pr': Probe)
    requires Linked(k) && CoversStmt(k.u, pr.body) && QuietStmt(k.diff, pr.body)
    requires pr'.body == StripStmt(k.dead, pr.body) && LinkedVars(k, pr.locals, pr'.locals)
    requires Fire(k.fs, n, o, pr).RDone?
    requires var c, c' := Eval(k.fs, n, State(o.g, map[], o.out), Guard(pr)), Eval(k.gs, n, State(o'.g, map[], o'.out), Guard(pr'));
             c'.EDone? && c'.v == c.v && Rel(k, c.st, c'.st)
    ensures var a, b := Fire(k.fs, n, o, pr), Fire(k.gs, n, o', pr');
            b.RDone? && b.o.out == a.o.out && RelMap(k, a.o.g, b.o.g)
  {
    hide Linked;
    var c, c' := Eval(k.fs, n, State(o.g, map[], o.out), Guard(pr)), Eval(k.gs, n, State(o'.g, map[], o'.out), Guard(pr'));
    if Truth(c.v).value {
      var st, st' := State(c.st.g, Initial(pr.locals), c.st.out), State(c'.st.g, Initial(pr'.locals), c'.st.out);
      assert Rel(k, st, st');
      SimExec(k, n, st, st', pr.body);
    }
  }

  lemma {:induction false} CoversQuietExpr(u: Use, vars: iset<Var>, e: Expr)
    requires CoversExpr(u, e) && forall v | v in u.written :: v !in vars
    ensures QuietExpr(vars, e)
    decreases e, 1
  {
    match e
    case Bin(_, l, r) => CoversQuietExpr(u, vars, l); CoversQuietExpr(u, vars, r);
    case Logic(_, l, r) => CoversQuietExpr(u, vars, l); CoversQuietExpr(u, vars, r);
    case Un(_, x) => CoversQuietExpr(u, vars, x);
    case Cond(c, l, r) => CoversQuietExpr(u, vars, c); CoversQuietExpr(u, vars, l); CoversQuietExpr(u, vars, r);
    case Assign(_, _, x) => CoversQuietExpr(u, vars, x);
    case Call(_, args) => CoversQuietArgs(u, vars, args);
    case Print(_, args) => CoversQuietArgs(u, vars, args);
    case _ =>
  }

  lemma {:induction false} CoversQuietArgs(u: Use, vars: iset<Var>, args: seq<Expr>)
    requires CoversArgs(u, args) && forall v | v in u.written :: v !in vars
    ensures QuietArgs(vars, args)
    decreases args, 0
  {
    if args != [] { CoversQuietExpr(u, vars, args[0]); CoversQuietArgs(u, vars, args[1..]); }
  }

  /** If only unwritten variables may differ, no `++` matters. */
  lemma {:induction false} CoversQuietStmt(u: Use, vars: iset<Var>, s: Stmt)
    requires CoversStmt(u, s) && forall v | v in u.written :: v !in vars
    ensures QuietStmt(vars, s)
    decreases s, 1
  {
    match s
    case Do(e) => CoversQuietExpr(u, vars, e);
    case Return(e) => CoversQuietExpr(u, vars, e);
    case Block(body) => CoversQuietSeq(u, vars, body);
    case If(c, thn, els) =>
      CoversQuietExpr(u, vars, c);
      CoversQuietStmt(u, vars, thn);
      if els.Some? { CoversQuietStmt(u, vars, els.value); }
    case For(init, c, incr, loop) =>
      if init.Some? { CoversQuietExpr(u, vars, init.value); }
      CoversQuietExpr(u, vars, c);
      if incr.Some? { CoversQuietExpr(u, vars, incr.value); }
      CoversQuietStmt(u, vars, loop);
    case _ =>
  }

  lemma {:induction false} CoversQuietSeq(u: Use, vars: iset<Var>, ss: seq<Stmt>)
    requires CoversSeq(u, ss) && forall v | v in u.written :: v !in vars
    ensures QuietSeq(vars, ss)
    decreases ss, 0
  {
    if ss != [] { CoversQuietStmt(u, vars, ss[0]); CoversQuietSeq(u, vars, ss[1..]); }
  }

  /** Passes 1 and 2 keep all code that can run; they may lose variables nothing uses. */
  lemma DropPreserves(p: Program, q: Program, u: Use, gone: iset<Var>)
    requires Closed(p.funcs, u) && forall pr | pr in p.probes :: CoversProbe(u, pr, true)
    requires forall v | v in u.read || v in u.written || v in q.globals :: v !in gone
    requires |q.probes| == |p.probes|
    requires var k := Link(p.funcs, q.funcs, u, NoneDead(), gone, gone, SetOf(p.globals));
      && LinkedVars(k, p.globals, q.globals)
      && (forall f | f in u.seen && f in p.funcs ::
           && f in q.funcs && q.funcs[f] == p.funcs[f].(locals := q.funcs[f].locals)
           && LinkedVars(k, p.funcs[f].locals, q.funcs[f].locals))
      && (forall i | 0 <= i < |p.probes| ::
           && q.probes[i] == p.probes[i].(locals := q.probes[i].locals)
           && LinkedVars(k, p.probes[i].locals, q.probes[i].locals))
    ensures Preserves(p, q)
  {
    var k := Link(p.funcs, q.funcs, u, NoneDead(), gone, gone, SetOf(p.globals));
    assert Linked(k) by {
      forall f | f in u.seen && f in p.funcs
        ensures LinkedFunc(k, f)
      {
        StripNoneStmt(p.funcs[f].body);
        CoversQuietStmt(u, gone, p.funcs[f].body);
      }
    }
    forall n: nat, o: Outside, i: nat | o.g.Keys == SetOf(p.globals) && i < |p.probes|
      ensures FirePreserved(p, q, n, o, i)
    {
      if Fire(p.funcs, n, o, p.probes[i]).RDone? { DropFire(p, q, k, n, o, i); }
    }
    PreservesFromFirings(p, q);
  }

  lemma DropFire(p: Program, q: Program, k: Link, n: nat, o: Outside, i: nat)
    requires Linked(k) && k == Link(p.funcs, q.funcs, k.u, NoneDead(), k.gone, k.gone, SetOf(p.globals))
    requires i < |p.probes| == |q.probes| && CoversProbe(k.u, p.probes[i], true)
    requires LinkedVars(k, p.globals, q.globals) && LinkedVars(k, p.probes[i].locals, q.probes[i].locals)
    requires q.probes[i] == p.probes[i].(locals := q.probes[i].locals)
    requires forall v | v in q.globals :: v !in k.gone
    requires o.g.Keys == SetOf(p.globals) && Fire(p.funcs, n, o, p.probes[i]).RDone?
    ensures FirePreserved(p, q, n, o, i)
  {
    hide Linked, RelMap;
    var pr, pr', o' := p.probes[i], q.probes[i], Keep(o, q.globals);
    var g := Guard(pr);
    StripNoneStmt(pr.body);
    LinkedQuiet(k);
    CoversQuietStmt(k.u, k.gone, pr.body);
    CoversQuietExpr(k.u, k.gone, g);
    StripNoneExpr(g);
    RelKept(k, p, q, o);
    SimEval(k, n, State(o.g, map[], o.out), State(o'.g, map[], o'.out), g);
    FireLinked(k, n, o, o', pr, pr');
    FireKeepsDomain(p.funcs, n, o, pr);
    FireKeepsDomain(q.funcs, n, o', pr');
    KeptRel(k, p, q, Fire(p.funcs, n, o, pr).o, Fire(q.funcs, n, o', pr').o);
  }

  lemma LinkedQuiet(k: Link)
    requires Linked(k)
    ensures forall v | v in k.u.written :: v !in k.gone
  {
  }

  lemma RelKept(k: Link, p: Program, q: Program, o: Outside)
    requires LinkedVars(k, p.globals, q.globals) && k.globals == SetOf(p.globals) == o.g.Keys
    ensures var o' := Keep(o, q.globals); Rel(k, State(o.g, map[], o.out), State(o'.g, map[], o'.out))
    ensures Keep(o, q.globals).g.Keys == SetOf(q.globals)
  {
  }

  lemma KeptRel(k: Link, p: Program, q: Program, o: Outside, o': Outside)
    requires k.diff == k.gone && o.g.Keys == SetOf(p.globals) && o'.g.Keys == SetOf(q.globals)
    requires RelMap(k, o.g, o'.g) && o'.out == o.out
    requires forall v | v in q.globals :: v in p.globals && v !in k.gone
    ensures o' == Keep(o, q.globals)
  {
    assert o'.g == Keep(o, q.globals).g;
  }

  lemma DropFunctionsPreserves(p: Program)
    ensures Preserves(p, DropFunctions(p))
  {
    SessionUseCovers(p, true);
    DropPreserves(p, DropFunctions(p), SessionUse(p, true), iset{});
  }

  lemma DropVariablesPreserves(p: Program)
    ensures Preserves(p, DropVariables(p))
  {
    SessionUseCovers(p, true);
    var used := Used(p);
    DropPreserves(p, DropVariables(p), SessionUse(p, true), iset v | v !in used);
  }

  // ----- pass 3 -----

  /** Without calls, evaluation does not depend on the functions. */
  predicate CallFree(e: Expr)
    decreases e, 1
  {
    match e
    case Bin(_, l, r) => CallFree(l) && CallFree(r)
    case Logic(_, l, r) => CallFree(l) && CallFree(r)
    case Un(_, x) => CallFree(x)
    case Cond(c, l, r) => CallFree(c) && CallFree(l) && CallFree(r)
    case Assign(_, _, x) => CallFree(x)
    case Call(_, _) => false
    case Print(_, args) => CallFreeArgs(args)
    case _ => true
  }

  predicate CallFreeArgs(args: seq<Expr>)
    decreases args, 0
  {
    args == [] || (CallFree(args[0]) && CallFreeArgs(args[1..]))
  }

  lemma {:induction false} CallFreeEval(fs: map<string, Func>, gs: map<string, Func>, n: nat, st: State, e: Expr)
    requires CallFree(e)
    ensures Eval(fs, n, st, e) == Eval(gs, n, st, e)
    decreases e, 1
  {
    hide Apply, UnVal, AssignVal, Bump, Format;
    match e
    case Bin(_, l, r) =>
      CallFreeEval(fs, gs, n, st, l);
      if Eval(fs, n, st, l).EDone? { CallFreeEval(fs, gs, n, Eval(fs, n, st, l).st, r); }
    case Logic(_, l, r) =>
      CallFreeEval(fs, gs, n, st, l);
      if Eval(fs, n, st, l).EDone? { CallFreeEval(fs, gs, n, Eval(fs, n, st, l).st, r); }
    case Un(_, x) => CallFreeEval(fs, gs, n, st, x);
    case Cond(c, l, r) =>
      CallFreeEval(fs, gs, n, st, c);
      if Eval(fs, n, st, c).EDone? {
        CallFreeEval(fs, gs, n, Eval(fs, n, st, c).st, l);
        CallFreeEval(fs, gs, n, Eval(fs, n, st, c).st, r);
      }
    case Assign(_, _, x) => CallFreeEval(fs, gs, n, st, x);
    case Print(_, args) => CallFreeEvalArgs(fs, gs, n, st, args);
    case _ =>
  }

  lemma {:induction false} CallFreeEvalArgs(fs: map<string, Func>, gs: map<string, Func>, n: nat, st: State, args: seq<Expr>)
    requires CallFreeArgs(args)
    ensures EvalArgs(fs, n, st, args) == EvalArgs(gs, n, st, args)
    decreases args, 0
  {
    if args != [] {
      CallFreeEval(fs, gs, n, st, args[0]);
      if Eval(fs, n, st, args[0]).EDone? { CallFreeEvalArgs(fs, gs, n, Eval(fs, n, st, args[0]).st, args[1..]); }
    }
  }

  /** Conditions call no functions: symbol resolution rejects a script where one does. */
  predicate SimpleConditions(p: Program) { forall pr | pr in p.probes :: CallFree(Guard(pr)) }

  /** No `++` or `--` of a variable in `vars` is used for its value anywhere in the session. */
  predicate Quiet(vars: iset<Var>, p: Program) {
    QuietFuncs(vars, p.funcs) && forall pr | pr in p.probes :: QuietStmt(vars, pr.body)
  }

  predicate QuietFuncs(vars: iset<Var>, fs: map<string, Func>) { forall f | f in fs :: QuietStmt(vars, fs[f].body) }

  /** Stripping by the test of the pass and by the variables that have something to strip is the
      same. */
  lemma StrippedBodies(p: Program)
    ensures forall f | f in p.funcs :: StripStmt(DeadIn(p), p.funcs[f].body) == StripStmt(StrippedTest(p), p.funcs[f].body)
    ensures forall pr | pr in p.probes :: StripStmt(DeadIn(p), pr.body) == StripStmt(StrippedTest(p), pr.body)
  {
    hide DeadIn;
    forall f | f in p.funcs
      ensures StripStmt(DeadIn(p), p.funcs[f].body) == StripStmt(StrippedTest(p), p.funcs[f].body)
    {
      StripSameStmt(DeadIn(p), StrippedTest(p), p.funcs[f].body);
    }
    forall pr | pr in p.probes ensures StripStmt(DeadIn(p), pr.body) == StripStmt(StrippedTest(p), pr.body) {
      StripSameStmt(DeadIn(p), StrippedTest(p), pr.body);
    }
  }

  /** Pass 3 preserves every run that ends, when no `++` or `--` of a variable whose assignments
      it strips is used for its value. */
  lemma StripAssignmentsPreserves(p: Program)
    requires SimpleConditions(p) && Quiet(Stripped(p), p)
    ensures Preserves(p, StripAssignments(p))
  {
    var q, u := StripAssignments(p), SessionUse(p, false);
    var k := Link(p.funcs, q.funcs, u, StrippedTest(p), Stripped(p), iset{}, SetOf(p.globals));
    SessionUseCovers(p, false);
    StrippedBodies(p);
    assert Linked(k);
    forall n: nat, o: Outside, i: nat | o.g.Keys == SetOf(p.globals) && i < |p.probes|
      ensures FirePreserved(p, q, n, o, i)
    {
      assert p.probes[i] in p.probes;
      if Fire(p.funcs, n, o, p.probes[i]).RDone? { StripFire(p, k, n, o, i); }
    }
    PreservesFromFirings(p, q);
  }

  /** A session without such a variable is left as it is. */
  lemma NothingToStrip(p: Program)
    requires Stripped(p) == iset{}
    ensures StripAssignments(p) == p
  {
    hide DeadIn;
    StrippedBodies(p);
    var q := StripAssignments(p);
    forall s | Agree(TargetsStmt(s), StrippedTest(p), NoneDead()) ensures StripStmt(StrippedTest(p), s) == s {
      StripSameStmt(StrippedTest(p), NoneDead(), s);
      StripNoneStmt(s);
    }
    assert forall v :: !StrippedTest(p)(v) by { assert forall v :: StrippedTest(p)(v) ==> v in Stripped(p); }
    assert forall s :: Agree(TargetsStmt(s), StrippedTest(p), NoneDead());
    assert q.funcs == p.funcs;
    assert forall i | 0 <= i < |p.probes| :: p.probes[i] in p.probes && q.probes[i] == p.probes[i];
    assert q.probes == p.probes;
  }

  lemma GlobalsNotDead(p: Program)
    ensures forall v | v in SetOf(p.globals) :: v !in Stripped(p)
  {
    forall v | v in SetOf(p.globals) ensures v !in Stripped(p) { assert !DeadIn(p)(v); }
  }

  lemma StripFire(p: Program, k: Link, n: nat, o: Outside, i: nat)
    requires var q, u := StripAssignments(p), SessionUse(p, false);
      k == Link(p.funcs, q.funcs, u, StrippedTest(p), Stripped(p), iset{}, SetOf(p.globals))
    requires Linked(k) && i < |p.probes|
    requires StripStmt(DeadIn(p), p.probes[i].body) == StripStmt(k.dead, p.probes[i].body)
    requires CoversStmt(k.u, p.probes[i].body) && QuietStmt(k.diff, p.probes[i].body) && CallFree(Guard(p.probes[i]))
    requires o.g.Keys == SetOf(p.globals) && Fire(p.funcs, n, o, p.probes[i]).RDone?
    ensures FirePreserved(p, StripAssignments(p), n, o, i)
  {
    hide Linked, DeadIn, SessionUse, StrippedTest, Eval, Exec, StripStmt;
    var q := StripAssignments(p);
    var pr, pr', st := p.probes[i], q.probes[i], State(o.g, map[], o.out);
    assert Keep(o, q.globals) == o;
    CallFreeEval(p.funcs, q.funcs, n, st, Guard(pr));
    EvalKeepsDomain(p.funcs, n, st, Guard(pr));
    FireLinked(k, n, o, o, pr, pr');
    FireKeepsDomain(p.funcs, n, o, pr);
    GlobalsNotDead(p);
    var a, b := Fire(p.funcs, n, o, pr).o, Fire(q.funcs, n, o, pr').o;
    assert b.g == a.g == Keep(a, q.globals).g;
  }
}
