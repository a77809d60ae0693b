/**
 The relaxation loop: one round of all passes, what any number of rounds preserves,
 and why the rounds come to an end.
 */
module Relax {
  import opened Syntax
  import opened Semantics
  import opened VarUse
  import opened Frame
  import opened DeadAssign
  import opened Replace
  import opened DeadStmt
  import opened VoidReduce
  import opened ConstFold
  import opened Passes
  import Q = Quiet
  import opened Weight

  // ----- passes 4 and 5 and constant folding: one body after the other -----

  datatype Rewriter = Prune | Reduce | Fold

  /** One body rewritten; analyses of called functions see the bodies in fs. */
  function Rewrite(w: Rewriter, fs: map<string, Func>, globals: set<Var>, frame: set<Var>, s: Stmt): Stmt {
    match w
    case Prune => PruneBody(fs, globals + frame, s)
    case Reduce => ReduceStmt(fs, globals, s)
    case Fold => FoldStmt(fs, s)
  }

  /** Whether rewriting a body reports a change. */
  predicate Hit(w: Rewriter, fs: map<string, Func>, globals: set<Var>, frame: set<Var>, s: Stmt) {
    if w == Prune then PruneHit(fs, globals + frame, s) else Rewrite(w, fs, globals, frame, s) != s
  }

  function RewriteProbe(w: Rewriter, fs: map<string, Func>, globals: set<Var>, pr: Probe): Probe {
    pr.(body := Rewrite(w, fs, globals, SetOf(pr.locals), pr.body))
  }

  function RewriteProbes(w: Rewriter, fs: map<string, Func>, globals: set<Var>, ps: seq<Probe>): (r: seq<Probe>)
    ensures |r| == |ps|
    ensures forall i | 0 <= i < |ps| :: r[i] == RewriteProbe(w, fs, globals, ps[i])
    decreases ps
  {
    if ps == [] then [] else [RewriteProbe(w, fs, globals, ps[0])] + RewriteProbes(w, fs, globals, ps[1..])
  }

  predicate ProbesHit(w: Rewriter, fs: map<string, Func>, globals: set<Var>, ps: seq<Probe>) {
    exists pr | pr in ps :: Hit(w, fs, globals, SetOf(pr.locals), pr.body)
  }

  /** One function rewritten in place. */
  function RewriteFunc(w: Rewriter, fs: map<string, Func>, globals: set<Var>, f: string): map<string, Func> {
    if f !in fs then fs else fs[f := fs[f].(body := Rewrite(w, fs, globals, FrameVars(fs[f]), fs[f].body))]
  }

  predicate FuncHit(w: Rewriter, fs: map<string, Func>, globals: set<Var>, f: string) {
    f in fs && Hit(w, fs, globals, FrameVars(fs[f]), fs[f].body)
  }

  /** The functions in turn, each rewritten in view of the ones already rewritten. */
  function RewriteFuncs(w: Rewriter, fs: map<string, Func>, globals: set<Var>, order: seq<string>): map<string, Func>
    decreases order
  {
    if order == [] then fs else RewriteFuncs(w, RewriteFunc(w, fs, globals, order[0]), globals, order[1..])
  }

  predicate FuncsHit(w: Rewriter, fs: map<string, Func>, globals: set<Var>, order: seq<string>)
    decreases order
  {
    order != [] && (FuncHit(w, fs, globals, order[0]) || FuncsHit(w, RewriteFunc(w, fs, globals, order[0]), globals, order[1..]))
  }

  function BodyPass(w: Rewriter, p: Program): Program {
    var globals := SetOf(p.globals);
    p.(probes := RewriteProbes(w, p.funcs, globals, p.probes),
       funcs := RewriteFuncs(w, p.funcs, globals, p.order))
  }

  predicate BodyPassHit(w: Rewriter, p: Program) {
    var globals := SetOf(p.globals);
    ProbesHit(w, p.funcs, globals, p.probes) || FuncsHit(w, p.funcs, globals, p.order)
  }

  lemma RewriteRefines(w: Rewriter, fs: map<string, Func>, globals: set<Var>, frame: set<Var>, s: Stmt)
    ensures Refines(fs, globals, frame, s, Rewrite(w, fs, globals, frame, s))
  {
    match w
    case Prune => PruneRefines(fs, globals, frame, s);
    case Reduce => ReduceRefines(fs, globals, frame, s);
    case Fold => FoldRefines(fs, globals, frame, s);
  }

  lemma RewriteFuncReplaced(w: Rewriter, fs: map<string, Func>, globals: set<Var>, f: string)
    ensures Replaced(fs, RewriteFunc(w, fs, globals, f), globals)
  {
    hide Rewrite;
    var gs := RewriteFunc(w, fs, globals, f);
    forall h | h in fs
      ensures gs[h] == fs[h].(body := gs[h].body) && Refines(fs, globals, FrameVars(fs[h]), fs[h].body, gs[h].body)
    {
      if h == f { RewriteRefines(w, fs, globals, FrameVars(fs[h]), fs[h].body); }
    }
  }

  lemma FireReplaced(fs: map<string, Func>, gs: map<string, Func>, globals: set<Var>, n: nat, o: Outside, pr: Probe)
    requires Replaced(fs, gs, globals) && o.g.Keys <= globals && Fire(fs, n, o, pr).RDone?
    ensures Fire(gs, n, o, pr) == Fire(fs, n, o, pr)
  {
    hide Replaced;
    var st := State(o.g, map[], o.out);
    ReplaceEval(fs, gs, globals, n, st, Guard(pr));
    EvalKeepsDomain(fs, n, st, Guard(pr));
    var c := Eval(fs, n, st, Guard(pr));
    if Truth(c.v).value { ReplaceExec(fs, gs, globals, n, State(c.st.g, Initial(pr.locals), c.st.out), pr.body); }
  }

  lemma {:induction false} FireRewrittenFuncs(w: Rewriter, fs: map<string, Func>, globals: set<Var>, order: seq<string>, n: nat, o: Outside, pr: Probe)
    requires o.g.Keys <= globals && Fire(fs, n, o, pr).RDone?
    ensures Fire(RewriteFuncs(w, fs, globals, order), n, o, pr) == Fire(fs, n, o, pr)
    decreases order
  {
    hide Fire, RewriteFunc;
    if order != [] {
      RewriteFuncReplaced(w, fs, globals, order[0]);
      FireReplaced(fs, RewriteFunc(w, fs, globals, order[0]), globals, n, o, pr);
      FireRewrittenFuncs(w, RewriteFunc(w, fs, globals, order[0]), globals, order[1..], n, o, pr);
    }
  }

  lemma FireRewrittenProbe(w: Rewriter, fs: map<string, Func>, globals: set<Var>, n: nat, o: Outside, pr: Probe)
    requires o.g.Keys <= globals && Fire(fs, n, o, pr).RDone?
    ensures Fire(fs, n, o, RewriteProbe(w, fs, globals, pr)) == Fire(fs, n, o, pr)
  {
    hide Rewrite;
    var st := State(o.g, map[], o.out);
    var c := Eval(fs, n, st, Guard(pr));
    EvalKeepsDomain(fs, n, st, Guard(pr));
    RewriteRefines(w, fs, globals, SetOf(pr.locals), pr.body);
    assert Within(State(c.st.g, Initial(pr.locals), c.st.out), globals, SetOf(pr.locals));
  }

  lemma BodyPassPreserves(w: Rewriter, p: Program)
    ensures Preserves(p, BodyPass(w, p))
  {
    var q, globals := BodyPass(w, p), SetOf(p.globals);
    forall n: nat, o: Outside, i: nat | o.g.Keys == globals && i < |p.probes|
      ensures FirePreserved(p, q, n, o, i)
    {
      hide Fire;
      KeepAll(o, p.globals);
      if Fire(p.funcs, n, o, p.probes[i]).RDone? {
        FireKeepsDomain(p.funcs, n, o, p.probes[i]);
        KeepAll(Fire(p.funcs, n, o, p.probes[i]).o, p.globals);
        FireRewrittenProbe(w, p.funcs, globals, n, o, p.probes[i]);
        FireRewrittenFuncs(w, p.funcs, globals, p.order, n, o, q.probes[i]);
      }
    }
    PreservesFromFirings(p, q);
  }

  lemma KeepAll(o: Outside, vs: seq<Var>)
    requires o.g.Keys == SetOf(vs)
    ensures Keep(o, vs) == o
  {
    assert Keep(o, vs).g == o.g;
  }

  // ----- rounds -----

  /** One round of the loop; with optimization switched off, only constants are folded. */
  function Round(unoptimized: bool, p: Program): Program {
    if unoptimized then BodyPass(Fold, p)
    else BodyPass(Fold, BodyPass(Reduce, BodyPass(Prune, StripAssignments(DropVariables(DropFunctions(p))))))
  }

  function Rounds(unoptimized: bool, p: Program, k: nat): Program
    decreases k
  {
    if k == 0 then p else Round(unoptimized, Rounds(unoptimized, p, k - 1))
  }

  /** When a round comes to strip assignments, no `++` or `--` of a variable whose assignments it
      strips is used for its value. */
  ghost predicate Safe(unoptimized: bool, p: Program) {
    unoptimized || var q := DropVariables(DropFunctions(p)); Quiet(Stripped(q), q)
  }

  ghost predicate SafeFor(unoptimized: bool, p: Program, k: nat) {
    forall i: nat | i < k :: Safe(unoptimized, Rounds(unoptimized, p, i))
  }

  ghost function AssignedLocals(p: Program): iset<Var> { iset v | v in Targets(p) && v.Local? }

  /** A check on the source script: conditions without calls, and no local that is assigned to
      has a `++` or `--` used for its value. */
  ghost predicate Ready(p: Program) { SimpleConditions(p) && Quiet(AssignedLocals(p), p) }

  /** The same with the locals fixed, so that it can be followed through the passes. */
  ghost predicate Tame(vars: iset<Var>, p: Program) {
    && SimpleConditions(p)
    && TameFuncs(vars, p.funcs)
    && forall pr | pr in p.probes :: Q.TameStmt(vars, pr.body)
  }

  ghost predicate TameFuncs(vars: iset<Var>, fs: map<string, Func>) { forall f | f in fs :: Q.TameStmt(vars, fs[f].body) }

  lemma ReadyTame(p: Program)
    requires Ready(p)
    ensures Tame(AssignedLocals(p), p)
  {
    var vars := AssignedLocals(p);
    forall f | f in p.funcs ensures Q.TameStmt(vars, p.funcs[f].body) { Q.QuietTameStmt(vars, p.funcs[f].body); }
    forall pr | pr in p.probes ensures Q.TameStmt(vars, pr.body) { Q.QuietTameStmt(vars, pr.body); }
  }

  lemma TameTargets(vars: iset<Var>, p: Program)
    requires Tame(vars, p)
    ensures AssignedLocals(p) <= vars && Stripped(p) <= vars
  {
    forall v | v in Targets(p) && v.Local? ensures v in vars {
      if f :| f in p.funcs && v in TargetsStmt(p.funcs[f].body) {
        Q.QuietTameStmt(vars, p.funcs[f].body);
      } else {
        var pr :| pr in p.probes && v in TargetsStmt(pr.body);
        Q.QuietTameStmt(vars, pr.body);
      }
    }
    forall v | v in Stripped(p) ensures v in vars { assert DeadIn(p)(v); }
  }

  lemma TameQuiet(vars: iset<Var>, fewer: iset<Var>, p: Program)
    requires Tame(vars, p) && fewer <= vars
    ensures Quiet(fewer, p)
  {
    forall f | f in p.funcs ensures QuietStmt(fewer, p.funcs[f].body) { Q.TameQuietStmt(vars, fewer, p.funcs[f].body); }
    forall pr | pr in p.probes ensures QuietStmt(fewer, pr.body) { Q.TameQuietStmt(vars, fewer, pr.body); }
  }

  lemma TameReady(vars: iset<Var>, p: Program)
    requires Tame(vars, p)
    ensures Ready(p) && Quiet(Stripped(p), p)
  {
    TameTargets(vars, p);
    TameQuiet(vars, AssignedLocals(p), p);
    TameQuiet(vars, Stripped(p), p);
  }

  lemma TameStays(vars: iset<Var>, p: Program)
    requires Tame(vars, p)
    ensures Tame(vars, DropFunctions(p)) && Tame(vars, DropVariables(p)) && Tame(vars, StripAssignments(p))
  {
    hide DeadIn;
    ConditionsStay(p);
    var q := StripAssignments(p);
    forall f | f in q.funcs ensures Q.TameStmt(vars, q.funcs[f].body) { Q.TameStripStmt(vars, DeadIn(p), p.funcs[f].body); }
    forall pr | pr in q.probes ensures Q.TameStmt(vars, pr.body) {
      var i :| 0 <= i < |q.probes| && q.probes[i] == pr;
      assert p.probes[i] in p.probes;
      Q.TameStripStmt(vars, DeadIn(p), p.probes[i].body);
    }
    var d := DropVariables(p);
    forall pr | pr in d.probes ensures Q.TameStmt(vars, pr.body) {
      var i :| 0 <= i < |d.probes| && d.probes[i] == pr;
      assert p.probes[i] in p.probes;
    }
  }

  lemma TameRewrite(vars: iset<Var>, w: Rewriter, fs: map<string, Func>, globals: set<Var>, frame: set<Var>, s: Stmt)
    requires Q.TameStmt(vars, s)
    ensures Q.TameStmt(vars, Rewrite(w, fs, globals, frame, s))
  {
    match w
    case Prune => Q.TamePruneStmt(vars, fs, globals + frame, s);
    case Reduce => Q.TameReduceStmt(vars, fs, globals, s);
    case Fold => Q.TameFoldStmt(vars, fs, s);
  }

  lemma {:induction false} TameRewriteFuncs(vars: iset<Var>, w: Rewriter, fs: map<string, Func>, globals: set<Var>, order: seq<string>)
    requires TameFuncs(vars, fs)
    ensures TameFuncs(vars, RewriteFuncs(w, fs, globals, order))
    decreases order
  {
    hide Rewrite;
    if order != [] {
      var f := order[0];
      if f in fs { TameRewrite(vars, w, fs, globals, FrameVars(fs[f]), fs[f].body); }
      TameRewriteFuncs(vars, w, RewriteFunc(w, fs, globals, f), globals, order[1..]);
    }
  }

  lemma BodyPassTame(vars: iset<Var>, w: Rewriter, p: Program)
    requires Tame(vars, p)
    ensures Tame(vars, BodyPass(w, p))
  {
    hide Rewrite;
    ConditionsStay(p);
    var q, globals := BodyPass(w, p), SetOf(p.globals);
    TameRewriteFuncs(vars, w, p.funcs, globals, p.order);
    forall pr | pr in q.probes ensures Q.TameStmt(vars, pr.body) {
      var i :| 0 <= i < |q.probes| && q.probes[i] == pr;
      assert p.probes[i] in p.probes;
      TameRewrite(vars, w, p.funcs, globals, SetOf(p.probes[i].locals), p.probes[i].body);
    }
  }

  lemma ConditionsStay(p: Program)
    requires SimpleConditions(p)
    ensures SimpleConditions(DropFunctions(p)) && SimpleConditions(DropVariables(p)) && SimpleConditions(StripAssignments(p))
    ensures forall w :: SimpleConditions(BodyPass(w, p))
  {
    SameGuards(p, DropVariables(p));
    SameGuards(p, StripAssignments(p));
    forall w ensures SimpleConditions(BodyPass(w, p)) { SameGuards(p, BodyPass(w, p)); }
  }

  lemma SameGuards(p: Program, q: Program)
    requires SimpleConditions(p) && |q.probes| == |p.probes|
    requires forall i | 0 <= i < |p.probes| :: Guard(q.probes[i]) == Guard(p.probes[i])
    ensures SimpleConditions(q)
  {
    forall pr | pr in q.probes ensures CallFree(Guard(pr)) {
      var i :| 0 <= i < |q.probes| && q.probes[i] == pr;
      assert p.probes[i] in p.probes;
    }
  }

  lemma RoundPreserves(unoptimized: bool, p: Program)
    requires SimpleConditions(p) && Safe(unoptimized, p)
    ensures Preserves(p, Round(unoptimized, p))
  {
    hide Preserves, SimpleConditions, Quiet, DropFunctions, DropVariables, StripAssignments, BodyPass;
    if unoptimized {
      BodyPassPreserves(Fold, p);
    } else {
      var p1 := DropFunctions(p);
      var p2 := DropVariables(p1);
      var p3 := StripAssignments(p2);
      var p4 := BodyPass(Prune, p3);
      var p5 := BodyPass(Reduce, p4);
      var p6 := BodyPass(Fold, p5);
      ConditionsStay(p);
      ConditionsStay(p1);
      DropFunctionsPreserves(p);
      DropVariablesPreserves(p1);
      StripAssignmentsPreserves(p2);
      BodyPassPreserves(Prune, p3);
      BodyPassPreserves(Reduce, p4);
      BodyPassPreserves(Fold, p5);
      PreservesTrans(p, p1, p2);
      PreservesTrans(p, p2, p3);
      PreservesTrans(p, p3, p4);
      PreservesTrans(p, p4, p5);
      PreservesTrans(p, p5, p6);
    }
  }

  lemma RoundConditions(unoptimized: bool, p: Program)
    requires SimpleConditions(p)
    ensures SimpleConditions(Round(unoptimized, p))
  {
    hide SimpleConditions, DropFunctions, DropVariables, StripAssignments, BodyPass;
    ConditionsStay(p);
    if !unoptimized {
      var p1 := DropFunctions(p);
      var p2 := DropVariables(p1);
      var p3 := StripAssignments(p2);
      ConditionsStay(p1);
      ConditionsStay(p2);
      ConditionsStay(p3);
      ConditionsStay(BodyPass(Prune, p3));
      ConditionsStay(BodyPass(Reduce, BodyPass(Prune, p3)));
    }
  }

  /** The check makes this round safe, and holds after it. */
  lemma ReadyRound(unoptimized: bool, p: Program)
    requires Ready(p)
    ensures Safe(unoptimized, p) && Ready(Round(unoptimized, p))
  {
    hide Ready, Quiet, Tame, DropFunctions, DropVariables, StripAssignments, BodyPass;
    var vars := AssignedLocals(p);
    ReadyTame(p);
    if unoptimized {
      BodyPassTame(vars, Fold, p);
    } else {
      var p1 := DropFunctions(p);
      var p2 := DropVariables(p1);
      var p3 := StripAssignments(p2);
      TameStays(vars, p);
      TameStays(vars, p1);
      TameStays(vars, p2);
      TameReady(vars, p2);
      BodyPassTame(vars, Prune, p3);
      BodyPassTame(vars, Reduce, BodyPass(Prune, p3));
      BodyPassTame(vars, Fold, BodyPass(Reduce, BodyPass(Prune, p3)));
    }
    TameReady(vars, Round(unoptimized, p));
  }

  lemma {:induction false} ReadyRounds(unoptimized: bool, p: Program, k: nat)
    requires Ready(p)
    ensures Ready(Rounds(unoptimized, p, k)) && SafeFor(unoptimized, p, k)
    decreases k
  {
    hide Ready, Round, Safe;
    if k > 0 {
      ReadyRounds(unoptimized, p, k - 1);
      ReadyRound(unoptimized, Rounds(unoptimized, p, k - 1));
    }
  }

  lemma PreservesSelf(p: Program)
    ensures Preserves(p, p)
  {
    forall n: nat, o: Outside, events: seq<nat> | o.g.Keys == SetOf(p.globals) && Run(p, n, o, events).RDone?
      ensures Run(p, n, Keep(o, p.globals), events) == RDone(Keep(Run(p, n, o, events).o, p.globals))
    {
      KeepAll(o, p.globals);
      RunKeepsDomain(p, n, o, events);
      KeepAll(Run(p, n, o, events).o, p.globals);
    }
  }

  lemma {:induction false} RunKeepsDomain(p: Program, n: nat, o: Outside, events: seq<nat>)
    requires Run(p, n, o, events).RDone?
    ensures Run(p, n, o, events).o.g.Keys == o.g.Keys
    decreases |events|
  {
    if events != [] {
      FireKeepsDomain(p.funcs, n, o, p.probes[events[0]]);
      RunKeepsDomain(p, n, Fire(p.funcs, n, o, p.probes[events[0]]).o, events[1..]);
    }
  }

  /** Any number of rounds preserves every run that ends without a fault. */
  lemma {:induction false} RoundsPreserve(unoptimized: bool, p: Program, k: nat)
    requires SimpleConditions(p)
    ensures SimpleConditions(Rounds(unoptimized, p, k))
    ensures SafeFor(unoptimized, p, k) ==> Preserves(p, Rounds(unoptimized, p, k))
    decreases k
  {
    hide Preserves, SimpleConditions, Round, Safe;
    if k == 0 {
      PreservesSelf(p);
    } else {
      var q := Rounds(unoptimized, p, k - 1);
      RoundsPreserve(unoptimized, p, k - 1);
      RoundConditions(unoptimized, q);
      if SafeFor(unoptimized, p, k) {
        assert Safe(unoptimized, q);
        RoundPreserves(unoptimized, q);
        PreservesTrans(p, q, Round(unoptimized, q));
      }
    }
  }

  // ----- termination -----

  function FuncWeight(fd: Func): nat { 1 + |fd.locals| + StmtWeight(fd.body) }

  function FuncsWeight(fs: map<string, Func>, order: seq<string>): nat
    decreases order
  {
    if order == [] then 0 else (if order[0] in fs then FuncWeight(fs[order[0]]) else 0) + FuncsWeight(fs, order[1..])
  }

  function ProbeWeight(pr: Probe): nat { |pr.locals| + StmtWeight(pr.body) }

  function ProbesWeight(ps: seq<Probe>): nat
    decreases ps
  {
    if ps == [] then 0 else ProbeWeight(ps[0]) + ProbesWeight(ps[1..])
  }

  function ProgramWeight(p: Program): nat { |p.globals| + FuncsWeight(p.funcs, p.order) + ProbesWeight(p.probes) }

  /** The walk over the function map meets every function. */
  predicate Listed(p: Program) { forall f | f in p.funcs :: f in p.order }

  lemma RewriteWeight(w: Rewriter, fs: map<string, Func>, globals: set<Var>, frame: set<Var>, s: Stmt)
    ensures StmtWeight(Rewrite(w, fs, globals, frame, s)) <= StmtWeight(s)
    ensures Hit(w, fs, globals, frame, s) ==> StmtWeight(Rewrite(w, fs, globals, frame, s)) < StmtWeight(s)
  {
    match w
    case Prune => PruneStmtWeight(fs, globals + frame, s);
    case Reduce => ReduceStmtWeight(fs, globals, s);
    case Fold => FoldStmtWeight(fs, s);
  }

  lemma {:induction false} ProbesRewriteWeight(w: Rewriter, fs: map<string, Func>, globals: set<Var>, ps: seq<Probe>)
    ensures ProbesWeight(RewriteProbes(w, fs, globals, ps)) <= ProbesWeight(ps)
    ensures ProbesHit(w, fs, globals, ps) ==> ProbesWeight(RewriteProbes(w, fs, globals, ps)) < ProbesWeight(ps)
    decreases ps
  {
    hide Rewrite, Hit;
    if ps != [] {
      RewriteWeight(w, fs, globals, SetOf(ps[0].locals), ps[0].body);
      ProbesRewriteWeight(w, fs, globals, ps[1..]);
      assert ps == [ps[0]] + ps[1..];
    }
  }

  lemma {:induction false} OneFuncWeight(fs: map<string, Func>, gs: map<string, Func>, order: seq<string>, f: string)
    requires gs.Keys == fs.Keys && (forall h | h in fs && h != f :: gs[h] == fs[h])
    requires f in fs ==> FuncWeight(gs[f]) <= FuncWeight(fs[f])
    ensures FuncsWeight(gs, order) <= FuncsWeight(fs, order)
    ensures f in fs && f in order && FuncWeight(gs[f]) < FuncWeight(fs[f]) ==> FuncsWeight(gs, order) < FuncsWeight(fs, order)
    decreases order
  {
    if order != [] { OneFuncWeight(fs, gs, order[1..], f); }
  }

  lemma {:induction false} FuncsRewriteWeight(w: Rewriter, fs: map<string, Func>, globals: set<Var>, todo: seq<string>, order: seq<string>)
    requires forall f | f in todo :: f in order
    ensures FuncsWeight(RewriteFuncs(w, fs, globals, todo), order) <= FuncsWeight(fs, order)
    ensures FuncsHit(w, fs, globals, todo) ==> FuncsWeight(RewriteFuncs(w, fs, globals, todo), order) < FuncsWeight(fs, order)
    decreases todo
  {
    hide Rewrite, Hit;
    if todo != [] {
      var f := todo[0];
      var gs := RewriteFunc(w, fs, globals, f);
      if f in fs { RewriteWeight(w, fs, globals, FrameVars(fs[f]), fs[f].body); }
      OneFuncWeight(fs, gs, order, f);
      FuncsRewriteWeight(w, gs, globals, todo[1..], order);
    }
  }

  /** Passes 4 and 5 and folding never raise the weight, and lower it when they report a change. */
  lemma BodyPassWeight(w: Rewriter, p: Program)
    ensures ProgramWeight(BodyPass(w, p)) <= ProgramWeight(p)
    ensures BodyPassHit(w, p) ==> ProgramWeight(BodyPass(w, p)) < ProgramWeight(p)
    ensures Listed(p) ==> Listed(BodyPass(w, p))
  {
    ProbesRewriteWeight(w, p.funcs, SetOf(p.globals), p.probes);
    FuncsRewriteWeight(w, p.funcs, SetOf(p.globals), p.order, p.order);
    RewriteFuncsKeys(w, p.funcs, SetOf(p.globals), p.order);
  }

  lemma {:induction false} RewriteFuncsKeys(w: Rewriter, fs: map<string, Func>, globals: set<Var>, order: seq<string>)
    ensures RewriteFuncs(w, fs, globals, order).Keys == fs.Keys
    decreases order
  {
    if order != [] { RewriteFuncsKeys(w, RewriteFunc(w, fs, globals, order[0]), globals, order[1..]); }
  }

  predicate DropFunctionsHit(p: Program) { exists f | f in p.funcs :: f !in SessionUse(p, true).seen }

  lemma {:induction false} OnlyFuncsWeight(fs: map<string, Func>, gs: map<string, Func>, order: seq<string>, keep: set<string>)
    requires gs == map f | f in fs && f in keep :: fs[f]
    ensures FuncsWeight(gs, Only(order, keep)) <= FuncsWeight(fs, order)
    ensures (exists f | f in order :: f in fs && f !in keep) ==> FuncsWeight(gs, Only(order, keep)) < FuncsWeight(fs, order)
    decreases order
  {
    if order != [] {
      OnlyFuncsWeight(fs, gs, order[1..], keep);
      assert order == [order[0]] + order[1..];
    }
  }

  lemma DropFunctionsWeight(p: Program)
    requires Listed(p)
    ensures Listed(DropFunctions(p)) && ProgramWeight(DropFunctions(p)) <= ProgramWeight(p)
    ensures DropFunctionsHit(p) ==> ProgramWeight(DropFunctions(p)) < ProgramWeight(p)
  {
    OnlyFuncsWeight(p.funcs, DropFunctions(p).funcs, p.order, SessionUse(p, true).seen);
  }

  /** Two function maps compared function by function. */
  lemma {:induction false} FuncsWeightMono(fs: map<string, Func>, gs: map<string, Func>, order: seq<string>)
    requires gs.Keys == fs.Keys && forall f | f in fs :: gs[f] == fs[f] || FuncWeight(gs[f]) < FuncWeight(fs[f])
    ensures FuncsWeight(gs, order) <= FuncsWeight(fs, order)
    ensures (exists f | f in order :: f in fs && gs[f] != fs[f]) ==> FuncsWeight(gs, order) < FuncsWeight(fs, order)
    decreases order
  {
    if order != [] {
      FuncsWeightMono(fs, gs, order[1..]);
      assert order == [order[0]] + order[1..];
    }
  }

  lemma {:induction false} ProbesWeightMono(ps: seq<Probe>, qs: seq<Probe>)
    requires |qs| == |ps| && forall i | 0 <= i < |ps| :: qs[i] == ps[i] || ProbeWeight(qs[i]) < ProbeWeight(ps[i])
    ensures ProbesWeight(qs) <= ProbesWeight(ps)
    ensures qs != ps ==> ProbesWeight(qs) < ProbesWeight(ps)
    decreases ps
  {
    if ps != [] {
      ProbesWeightMono(ps[1..], qs[1..]);
      assert ps == [ps[0]] + ps[1..] && qs == [qs[0]] + qs[1..];
    }
  }

  /** Functions and probes rewritten one by one, and fewer globals: the same program, or a
      lighter one. */
  lemma ProgramWeightMono(p: Program, q: Program)
    requires Listed(p) && q.order == p.order && q.funcs.Keys == p.funcs.Keys && |q.probes| == |p.probes|
    requires forall f | f in p.funcs :: q.funcs[f] == p.funcs[f] || FuncWeight(q.funcs[f]) < FuncWeight(p.funcs[f])
    requires forall i | 0 <= i < |p.probes| :: q.probes[i] == p.probes[i] || ProbeWeight(q.probes[i]) < ProbeWeight(p.probes[i])
    requires q.globals == p.globals || |q.globals| < |p.globals|
    ensures Listed(q)
    ensures q == p || ProgramWeight(q) < ProgramWeight(p)
  {
    FuncsWeightMono(p.funcs, q.funcs, p.order);
    ProbesWeightMono(p.probes, q.probes);
    if q.funcs != p.funcs {
      assert exists f | f in p.funcs :: q.funcs[f] != p.funcs[f];
    }
  }

  lemma OnlyAllOrShorter<T(!new)>(xs: seq<T>, keep: set<T>)
    ensures Only(xs, keep) == xs || |Only(xs, keep)| < |xs|
  {
    if !(forall x | x in xs :: x in keep) {
      assert exists x | x in xs :: x !in keep;
    }
  }

  lemma DropVariablesWeight(p: Program)
    requires Listed(p)
    ensures Listed(DropVariables(p))
    ensures DropVariables(p) == p || ProgramWeight(DropVariables(p)) < ProgramWeight(p)
  {
    var q, used := DropVariables(p), Used(p);
    OnlyAllOrShorter(p.globals, used);
    forall f | f in p.funcs
      ensures q.funcs[f] == p.funcs[f] || FuncWeight(q.funcs[f]) < FuncWeight(p.funcs[f])
    {
      OnlyAllOrShorter(p.funcs[f].locals, used);
    }
    forall i | 0 <= i < |p.probes|
      ensures q.probes[i] == p.probes[i] || ProbeWeight(q.probes[i]) < ProbeWeight(p.probes[i])
    {
      OnlyAllOrShorter(p.probes[i].locals, used);
    }
    ProgramWeightMono(p, q);
  }

  lemma StripAssignmentsWeight(p: Program)
    requires Listed(p)
    ensures Listed(StripAssignments(p))
    ensures StripAssignments(p) == p || ProgramWeight(StripAssignments(p)) < ProgramWeight(p)
  {
    var q, dead := StripAssignments(p), DeadIn(p);
    forall f | f in p.funcs
      ensures q.funcs[f] == p.funcs[f] || FuncWeight(q.funcs[f]) < FuncWeight(p.funcs[f])
    {
      StripStmtWeight(dead, p.funcs[f].body);
    }
    forall i | 0 <= i < |p.probes|
      ensures q.probes[i] == p.probes[i] || ProbeWeight(q.probes[i]) < ProbeWeight(p.probes[i])
    {
      StripStmtWeight(dead, p.probes[i].body);
    }
    ProgramWeightMono(p, q);
  }

  /** Whether a round clears the flag `relaxed_p`. */
  predicate RoundHit(unoptimized: bool, p: Program) {
    if unoptimized then BodyPassHit(Fold, p)
    else
      var p1 := DropFunctions(p);
      var p2 := DropVariables(p1);
      var p3 := StripAssignments(p2);
      var p4 := BodyPass(Prune, p3);
      var p5 := BodyPass(Reduce, p4);
      || DropFunctionsHit(p)
      || p2 != p1
      || p3 != p2
      || BodyPassHit(Prune, p3)
      || BodyPassHit(Reduce, p4)
      || BodyPassHit(Fold, p5)
  }

  /** Each of the first k rounds reports a change. */
  predicate AllHit(unoptimized: bool, p: Program, k: nat) {
    forall j: nat | j < k :: RoundHit(unoptimized, Rounds(unoptimized, p, j))
  }

  /** The last of k rounds is the first that reports no change. */
  predicate FirstQuiet(unoptimized: bool, p: Program, k: nat) {
    k > 0 && AllHit(unoptimized, p, k - 1) && !RoundHit(unoptimized, Rounds(unoptimized, p, k - 1))
  }

  /** Every round that reports a change makes the program lighter, and no round makes it
      heavier, so the loop ends. */
  lemma RoundWeight(unoptimized: bool, p: Program)
    requires Listed(p)
    ensures Listed(Round(unoptimized, p)) && ProgramWeight(Round(unoptimized, p)) <= ProgramWeight(p)
    ensures RoundHit(unoptimized, p) ==> ProgramWeight(Round(unoptimized, p)) < ProgramWeight(p)
  {
    hide ProgramWeight, DropFunctions, DropVariables, StripAssignments, BodyPass, BodyPassHit, DropFunctionsHit, Listed;
    if unoptimized {
      BodyPassWeight(Fold, p);
    } else {
      var p1 := DropFunctions(p);
      var p2 := DropVariables(p1);
      var p3 := StripAssignments(p2);
      var p4 := BodyPass(Prune, p3);
      DropFunctionsWeight(p);
      DropVariablesWeight(p1);
      StripAssignmentsWeight(p2);
      BodyPassWeight(Prune, p3);
      BodyPassWeight(Reduce, p4);
      BodyPassWeight(Fold, BodyPass(Reduce, p4));
    }
  }

  // ----- what a user of the optimizer relies on -----

  /** A session run from its start: the optimized program gives the same output and leaves
      the same values in the globals it kept, and so it does under any larger fuel. */
  lemma SessionPreserved(p: Program, q: Program, n: nat, m: nat, events: seq<nat>)
    requires Preserves(p, q) && n <= m && RunSession(p, n, events).RDone?
    ensures RunSession(q, m, events) == RDone(Keep(RunSession(p, n, events).o, q.globals))
  {
    var o := Outside(Initial(p.globals), "");
    assert forall v | v in q.globals :: v in SetOf(q.globals);
    assert Keep(o, q.globals) == Outside(Initial(q.globals), "");
    FuelSuffices(q, n, m, Outside(Initial(q.globals), ""), events);
  }

  /** The globals that pass 2 drops keep their values in every run of the source. */
  lemma {:induction false} DroppedGlobalsUntouched(p: Program, n: nat, o: Outside, events: seq<nat>, v: Var)
    requires v in o.g && v !in Used(p) && Run(p, n, o, events).RDone?
    ensures v in Run(p, n, o, events).o.g && Run(p, n, o, events).o.g[v] == o.g[v]
    decreases |events|
  {
    if events != [] {
      var pr, u, st := p.probes[events[0]], SessionUse(p, true), State(o.g, map[], o.out);
      SessionUseCovers(p, true);
      assert pr in p.probes && CoversProbe(u, pr, true) && CoversExpr(u, Guard(pr));
      assert Fire(p.funcs, n, o, pr).RDone?;
      FrameEval(p.funcs, n, u, st, Guard(pr));
      var c := Eval(p.funcs, n, st, Guard(pr));
      if Truth(c.v).value { FrameExec(p.funcs, n, u, State(c.st.g, Initial(pr.locals), c.st.out), pr.body); }
      DroppedGlobalsUntouched(p, n, Fire(p.funcs, n, o, pr).o, events[1..], v);
    }
  }
}
