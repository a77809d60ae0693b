/**
 Why merging duplicates needs its rounds to be clean: a script that the first loop hands on
 with a function nothing calls any more, and that the second loop then breaks.
 */
module Stranded {
  import opened Basics
  import opened Syntax
  import opened Semantics
  import opened VarUse
  import opened DeadAssign
  import opened DeadStmt
  import opened VoidReduce
  import opened ConstFold
  import opened Replace
  import opened Passes
  import opened Weight
  import opened Relax
  import opened Confined
  import opened Reach
  import opened Merge
  import opened MergeLoop
  import opened Scopes

  function Returning(e: Expr): Func { Func([], [], Return(e), Num(0)) }

  function Calling(f: string): Expr { Call(f, []) }

  const ONE := Lit(Num(1))

  /** `function a1() { return c2() }`, a2 the same; `function c1() { return 1 }`, c2 the same. */
  const FUNCTIONS: map<string, Func> := map[
    "a1" := Returning(Calling("c2")), "a2" := Returning(Calling("c2")), "c1" := Returning(ONE), "c2" := Returning(ONE)]

  const ORDER := ["a1", "a2", "c1", "c2"]

  const TEST := If(Calling("a1"), Null, None)

  function Show(f: string): Stmt { Do(Print(true, [Calling(f)])) }

  function Script(body: seq<Stmt>): Program { Program([], FUNCTIONS, ORDER, [Probe(None, [], Block(body))]) }

  /** `probe { if (a1()) ; print(a2()) print(c1()) }` */
  const SCRIPT := Script([TEST, Show("a2"), Show("c1")])

  /** The same without the test. */
  const TESTLESS := Script([Show("a2"), Show("c1")])

  // ----- what is reached -----

  function Seeing(u: Use, names: set<string>): Use { u.(seen := u.seen + names) }

  lemma UseLeaf(u: Use, f: string)
    requires f == "c1" || f == "c2"
    ensures UseExpr(FUNCTIONS, u, Calling(f)) == Seeing(u, {f})
  {
    assert UseArgs(FUNCTIONS, u, []) == u;
    assert UseStmt(FUNCTIONS, Seeing(u, {f}), Return(ONE)) == Seeing(u, {f});
    if f in u.seen { assert Seeing(u, {f}) == u; }
  }

  lemma UseCaller(u: Use, f: string)
    requires (f == "a1" || f == "a2") && f !in u.seen
    ensures UseExpr(FUNCTIONS, u, Calling(f)) == Seeing(u, {f, "c2"})
  {
    assert UseArgs(FUNCTIONS, u, []) == u;
    UseLeaf(Seeing(u, {f}), "c2");
    assert Seeing(Seeing(u, {f}), {"c2"}) == Seeing(u, {f, "c2"});
  }

  lemma UseShow(u: Use, f: string)
    ensures UseStmt(FUNCTIONS, u, Show(f)) == UseExpr(FUNCTIONS, u.(effect := true), Calling(f))
  {
    var u1 := u.(effect := true);
    assert [Calling(f)][1..] == [];
    assert UseArgs(FUNCTIONS, u1, [Calling(f)]) == UseArgs(FUNCTIONS, UseExpr(FUNCTIONS, u1, Calling(f)), []);
  }

  lemma UseShows(u: Use)
    requires "a2" !in u.seen
    ensures UseSeq(FUNCTIONS, u, [Show("a2"), Show("c1")]) == Seeing(u, {"a2", "c2", "c1"}).(effect := true)
  {
    hide UseExpr;
    var ss, u1 := [Show("a2"), Show("c1")], Seeing(u.(effect := true), {"a2", "c2"});
    UseShow(u, "a2");
    UseCaller(u.(effect := true), "a2");
    UseShow(u1, "c1");
    UseLeaf(u1, "c1");
    assert ss[1..] == [Show("c1")] && [Show("c1")][1..] == [];
    assert UseSeq(FUNCTIONS, u1, [Show("c1")]) == Seeing(u1, {"c1"});
    assert Seeing(u1, {"c1"}) == Seeing(u, {"a2", "c2", "c1"}).(effect := true);
  }

  lemma OneProbeUse(body: seq<Stmt>, conditions: bool)
    ensures SessionUse(Script(body), conditions) == UseSeq(FUNCTIONS, NO_USE, body)
  {
    var ps, u := Script(body).probes, UseSeq(FUNCTIONS, NO_USE, body);
    assert ps[1..] == [];
    assert UseStmt(FUNCTIONS, NO_USE, ps[0].body) == u;
    assert UseProbes(FUNCTIONS, u, [], conditions) == u;
  }

  lemma TestlessUse(conditions: bool)
    ensures SessionUse(TESTLESS, conditions) == Use({"a2", "c2", "c1"}, {}, {}, true)
  {
    OneProbeUse([Show("a2"), Show("c1")], conditions);
    UseShows(NO_USE);
    assert Seeing(NO_USE, {"a2", "c2", "c1"}).(effect := true) == Use({"a2", "c2", "c1"}, {}, {}, true);
  }

  lemma ScriptUse(conditions: bool)
    ensures SessionUse(SCRIPT, conditions) == Use({"a1", "c2", "a2", "c1"}, {}, {}, true)
  {
    hide UseExpr;
    var ss, u := [TEST, Show("a2"), Show("c1")], Seeing(NO_USE, {"a1", "c2"});
    OneProbeUse(ss, conditions);
    UseCaller(NO_USE, "a1");
    assert UseStmt(FUNCTIONS, NO_USE, TEST) == u;
    assert ss[1..] == [Show("a2"), Show("c1")];
    UseShows(u);
    assert Seeing(u, {"a2", "c2", "c1"}).(effect := true) == Use({"a1", "c2", "a2", "c1"}, {}, {}, true);
  }

  // ----- the one round of the first loop -----

  lemma FirstPasses()
    ensures DropFunctions(SCRIPT) == SCRIPT && !DropFunctionsHit(SCRIPT)
    ensures DropVariables(SCRIPT) == SCRIPT && StripAssignments(SCRIPT) == SCRIPT
  {
    hide DropFunctions, DropVariables, StripAssignments, DropFunctionsHit;
    NothingDropped();
    NothingTrimmed();
    NothingStripped();
  }

  lemma NothingDropped()
    ensures DropFunctions(SCRIPT) == SCRIPT && !DropFunctionsHit(SCRIPT)
  {
    hide SessionUse, DropFunctions, DropFunctionsHit;
    ScriptUse(true);
    assert forall f | f in ORDER :: f in {"a1", "c2", "a2", "c1"};
    assert forall f | f in FUNCTIONS :: f in {"a1", "c2", "a2", "c1"};
    AllSeen(SCRIPT);
  }

  lemma AllSeen(p: Program)
    requires var seen := SessionUse(p, true).seen; (forall f | f in p.funcs :: f in seen) && forall f | f in p.order :: f in seen
    ensures DropFunctions(p) == p && !DropFunctionsHit(p)
  {
    hide SessionUse;
    assert DropFunctions(p).funcs == p.funcs;
  }

  lemma NothingTrimmed()
    ensures DropVariables(SCRIPT) == SCRIPT
  {
    hide Used;
    assert DropVariables(SCRIPT).funcs == FUNCTIONS;
    assert DropVariables(SCRIPT).probes == SCRIPT.probes;
  }

  lemma NothingStripped()
    ensures StripAssignments(SCRIPT) == SCRIPT
  {
    hide DeadIn, StripFunc, StripProbe;
    forall f | f in FUNCTIONS ensures StripFunc(DeadIn(SCRIPT), FUNCTIONS[f]) == FUNCTIONS[f] { FunctionStripped(DeadIn(SCRIPT), f); }
    BodyStripped(DeadIn(SCRIPT));
    assert StripAssignments(SCRIPT).funcs == FUNCTIONS;
    assert StripAssignments(SCRIPT).probes == SCRIPT.probes;
  }

  lemma FunctionStripped(dead: Var -> bool, f: string)
    requires f in FUNCTIONS
    ensures StripFunc(dead, FUNCTIONS[f]) == FUNCTIONS[f]
  {
  }

  lemma BodyStripped(dead: Var -> bool)
    ensures StripProbe(dead, SCRIPT.probes[0]) == SCRIPT.probes[0]
  {
    hide StripExpr;
    var ss := [TEST, Show("a2"), Show("c1")];
    ShowStripped(dead, "a2");
    ShowStripped(dead, "c1");
    assert ss[1..] == [Show("a2"), Show("c1")] && ss[1..][1..] == [Show("c1")] && [Show("c1")][1..] == [];
    assert StripSeq(dead, [Show("c1")]) == [Show("c1")];
    assert StripSeq(dead, ss[1..]) == ss[1..];
    CallStripped(dead, "a1");
    assert StripStmt(dead, TEST) == TEST;
    assert StripSeq(dead, ss) == ss;
  }

  lemma CallStripped(dead: Var -> bool, f: string)
    ensures StripExpr(dead, Calling(f)) == Calling(f)
  {
  }

  lemma ShowStripped(dead: Var -> bool, f: string)
    ensures StripStmt(dead, Show(f)) == Show(f)
  {
    CallStripped(dead, f);
    assert [Calling(f)][1..] == [];
    assert StripArgs(dead, [Calling(f)]) == [Calling(f)];
  }

  /** No pass touches the functions. */
  lemma FunctionsRewritten(w: Rewriter, f: string)
    requires f in FUNCTIONS
    ensures Rewrite(w, FUNCTIONS, {}, FrameVars(FUNCTIONS[f]), FUNCTIONS[f].body) == FUNCTIONS[f].body
    ensures !Hit(w, FUNCTIONS, {}, FrameVars(FUNCTIONS[f]), FUNCTIONS[f].body)
  {
  }

  lemma {:induction false} FunctionsKept(w: Rewriter, order: seq<string>)
    ensures RewriteFuncs(w, FUNCTIONS, {}, order) == FUNCTIONS && !FuncsHit(w, FUNCTIONS, {}, order)
    decreases order
  {
    hide Rewrite, Hit;
    if order != [] {
      if order[0] in FUNCTIONS { FunctionsRewritten(w, order[0]); }
      assert RewriteFunc(w, FUNCTIONS, {}, order[0]) == FUNCTIONS;
      FunctionsKept(w, order[1..]);
    }
  }

  lemma BodyPassOf(w: Rewriter, body: seq<Stmt>, after: seq<Stmt>)
    requires Rewrite(w, FUNCTIONS, {}, {}, Block(body)) == Block(after) && !Hit(w, FUNCTIONS, {}, {}, Block(body))
    ensures BodyPass(w, Script(body)) == Script(after) && !BodyPassHit(w, Script(body))
  {
    hide Rewrite, Hit, RewriteFuncs, FuncsHit;
    var p := Script(body);
    FunctionsKept(w, ORDER);
    assert SetOf(p.globals) == {} && SetOf(p.probes[0].locals) == {};
    assert BodyPass(w, p).probes == Script(after).probes;
  }

  lemma ShowKept(f: string)
    ensures PruneStmt(FUNCTIONS, {}, Show(f)) == Some(Show(f)) && !PruneHit(FUNCTIONS, {}, Show(f))
    ensures ReduceStmt(FUNCTIONS, {}, Show(f)) == Show(f) && FoldStmt(FUNCTIONS, Show(f)) == Show(f)
  {
    UseShow(NO_USE, f);
    assert [Calling(f)][1..] == [];
    assert FoldArgs(FUNCTIONS, [Calling(f)]) == [Calling(f)];
  }

  lemma TestElided()
    ensures PruneStmt(FUNCTIONS, {}, TEST) == None && !PruneHit(FUNCTIONS, {}, TEST)
  {
    hide UseExpr;
    UseCaller(NO_USE, "a1");
  }

  lemma Pruned()
    ensures Rewrite(Prune, FUNCTIONS, {}, {}, Block([TEST, Show("a2"), Show("c1")])) == Block([Show("a2"), Show("c1")])
    ensures !Hit(Prune, FUNCTIONS, {}, {}, Block([TEST, Show("a2"), Show("c1")]))
  {
    hide PruneStmt, PruneHit, PruneSeq, PruneSeqHit;
    var ss, none: set<Var> := [TEST, Show("a2"), Show("c1")], {};
    assert none + none == none;
    PrunedSeq();
    PrunedBlock(ss);
  }

  lemma PrunedSeq()
    ensures PruneSeq(FUNCTIONS, {}, [TEST, Show("a2"), Show("c1")]) == [Show("a2"), Show("c1")]
    ensures !PruneSeqHit(FUNCTIONS, {}, [TEST, Show("a2"), Show("c1")])
  {
    hide PruneStmt, PruneHit;
    var ss := [TEST, Show("a2"), Show("c1")];
    TestElided();
    ShowKept("a2");
    ShowKept("c1");
    assert ss[1..] == [Show("a2"), Show("c1")] && ss[1..][1..] == [Show("c1")] && [Show("c1")][1..] == [];
    assert PruneSeq(FUNCTIONS, {}, [Show("c1")]) == [Show("c1")] && !PruneSeqHit(FUNCTIONS, {}, [Show("c1")]);
    assert PruneSeq(FUNCTIONS, {}, ss[1..]) == ss[1..] && !PruneSeqHit(FUNCTIONS, {}, ss[1..]);
  }

  lemma PrunedBlock(ss: seq<Stmt>)
    ensures PruneStmt(FUNCTIONS, {}, Block(ss)) == Pack(PruneSeq(FUNCTIONS, {}, ss))
    ensures PruneHit(FUNCTIONS, {}, Block(ss)) == PruneSeqHit(FUNCTIONS, {}, ss)
  {
  }

  lemma Idle(w: Rewriter)
    requires w == Reduce || w == Fold
    ensures Rewrite(w, FUNCTIONS, {}, {}, Block([Show("a2"), Show("c1")])) == Block([Show("a2"), Show("c1")])
  {
    var ss := [Show("a2"), Show("c1")];
    ShowKept("a2");
    ShowKept("c1");
    assert ss[1..] == [Show("c1")] && [Show("c1")][1..] == [];
    assert ReduceSeq(FUNCTIONS, {}, [Show("c1")]) == [Show("c1")] && FoldSeq(FUNCTIONS, [Show("c1")]) == [Show("c1")];
    assert ReduceSeq(FUNCTIONS, {}, ss) == ss && FoldSeq(FUNCTIONS, ss) == ss;
  }

  /** The first loop takes one round over the script.  It drops the test without reporting it, and
      leaves a1 although nothing calls it any more. */
  lemma OneRoundTaken()
    ensures FirstQuiet(false, SCRIPT, 1) && Rounds(false, SCRIPT, 1) == TESTLESS
    ensures AllReachable(SCRIPT) && !AllReachable(TESTLESS)
  {
    hide DropFunctions, DropVariables, StripAssignments, BodyPass, BodyPassHit, DropFunctionsHit, Rewrite, Hit;
    var body := [Show("a2"), Show("c1")];
    FirstPasses();
    Pruned();
    BodyPassOf(Prune, [TEST, Show("a2"), Show("c1")], body);
    Idle(Reduce);
    Idle(Fold);
    IdleMisses(Reduce, Block(body));
    IdleMisses(Fold, Block(body));
    BodyPassOf(Reduce, body, body);
    BodyPassOf(Fold, body, body);
    assert Rounds(false, SCRIPT, 0) == SCRIPT;
    ScriptUse(false);
    TestlessUse(false);
    assert "a1" in TESTLESS.funcs && "a1" !in Traversed(TESTLESS);
  }

  lemma IdleMisses(w: Rewriter, s: Stmt)
    requires w != Prune && Rewrite(w, FUNCTIONS, {}, {}, s) == s
    ensures !Hit(w, FUNCTIONS, {}, {}, s)
  {
  }

  /** The script meets every other condition. */
  lemma ScriptReady()
    ensures WellScoped(SCRIPT) && SimpleConditions(SCRIPT) && Resolved(SCRIPT) && Ready(SCRIPT)
  {
    ScriptUse(false);
    assert SCRIPT.probes == [SCRIPT.probes[0]];
    forall f | f in FUNCTIONS ensures ScopedFunc(f, FUNCTIONS[f]) && forall vars :: QuietStmt(vars, FUNCTIONS[f].body) {
      assert ConfinedArgs(Scope(f, FrameVars(FUNCTIONS[f])), ALL_NAMES, []);
    }
    BodyPlain();
  }

  lemma ShowPlain(vars: iset<Var>, f: string)
    ensures QuietStmt(vars, Show(f)) && ConfinedStmt(vars, ALL_NAMES, Show(f))
  {
    var args := [Calling(f)];
    assert args[0] == Calling(f) && args[1..] == [];
    assert QuietArgs(vars, []) && ConfinedArgs(vars, ALL_NAMES, []);
    assert QuietExpr(vars, Calling(f)) && ConfinedExpr(vars, ALL_NAMES, Calling(f));
    assert QuietArgs(vars, args) && ConfinedArgs(vars, ALL_NAMES, args);
    assert QuietExpr(vars, Print(true, args)) && ConfinedExpr(vars, ALL_NAMES, Print(true, args));
  }

  lemma ShowsPlain(vars: iset<Var>)
    ensures QuietStmt(vars, SCRIPT.probes[0].body) && ConfinedStmt(vars, ALL_NAMES, SCRIPT.probes[0].body)
  {
    hide QuietExpr, ConfinedExpr;
    var ss := [TEST, Show("a2"), Show("c1")];
    assert ss[1..] == [Show("a2"), Show("c1")] && ss[1..][1..] == [Show("c1")] && [Show("c1")][1..] == [];
    ShowPlain(vars, "a2");
    ShowPlain(vars, "c1");
    TestPlain(vars);
    assert QuietSeq(vars, [Show("c1")]) && ConfinedSeq(vars, ALL_NAMES, [Show("c1")]);
    assert QuietSeq(vars, ss[1..]) && ConfinedSeq(vars, ALL_NAMES, ss[1..]);
  }

  lemma TestPlain(vars: iset<Var>)
    ensures QuietStmt(vars, TEST) && ConfinedStmt(vars, ALL_NAMES, TEST)
  {
  }

  lemma BodyPlain()
    ensures ScopedProbe(SCRIPT.probes[0]) && forall vars :: QuietStmt(vars, SCRIPT.probes[0].body)
  {
    forall vars ensures QuietStmt(vars, SCRIPT.probes[0].body) { ShowsPlain(vars); }
    ShowsPlain(Scope("", SetOf(SCRIPT.probes[0].locals)));
    assert OwnedStmt("", SetOf(SCRIPT.probes[0].locals), SCRIPT.probes[0].body);
  }

  // ----- the merge -----

  const REPLACED: map<string, string> := map["a2" := "a1", "c2" := "c1"]

  lemma Texts()
    ensures SigOf(FUNCTIONS["a1"]) == SigOf(FUNCTIONS["a2"]) == Sig([], Num(0), Return(Calling("c2")))
    ensures SigOf(FUNCTIONS["c1"]) == SigOf(FUNCTIONS["c2"]) == Sig([], Num(0), Return(ONE))
  {
    assert OwnVars("", []) == [];
  }

  lemma Replacements()
    ensures Duplicates(TESTLESS) == REPLACED
  {
    hide SigOf;
    Texts();
    assert ORDER[1..] == ["a2", "c1", "c2"] && ORDER[1..][1..] == ["c1", "c2"];
    forall f | f in FUNCTIONS ensures Representative(TESTLESS, f) == if f in REPLACED then REPLACED[f] else f {
      var sig := SigOf(FUNCTIONS[f]);
      if f == "a1" || f == "a2" {
        assert First(FUNCTIONS, ORDER, sig) == Some("a1");
      } else {
        assert First(FUNCTIONS, ["c1", "c2"], sig) == Some("c1");
        assert First(FUNCTIONS, ORDER[1..], sig) == Some("c1");
        assert First(FUNCTIONS, ORDER, sig) == Some("c1");
      }
    }
  }

  /** a1 keeps its call of c2, which is gone. */
  lemma MergeResult()
    ensures var q := MergeDuplicates(TESTLESS);
      && q.funcs == map["a1" := Returning(Calling("c2")), "c1" := Returning(ONE)] && q.globals == []
      && q.probes == [Probe(None, [], Block([Show("a1"), Show("c1")]))]
  {
    hide SessionUse, Duplicates, MergedFuncs;
    Replacements();
    TestlessUse(false);
    var q := MergeDuplicates(TESTLESS);
    MergedFunctions();
    ShowRedirected("a2");
    ShowRedirected("c1");
    var ss := [Show("a2"), Show("c1")];
    assert ss[1..] == [Show("c1")] && [Show("c1")][1..] == [];
    assert RedirectSeq(REPLACED, [Show("c1")]) == [Show("c1")];
    assert RedirectSeq(REPLACED, ss) == [Show("a1"), Show("c1")];
    assert q.probes == [Probe(None, [], Block([Show("a1"), Show("c1")]))];
  }

  lemma MergedFunctions()
    ensures MergedFuncs(FUNCTIONS, REPLACED, {"a2", "c2", "c1"}) == map["a1" := Returning(Calling("c2")), "c1" := Returning(ONE)]
  {
    var fs := MergedFuncs(FUNCTIONS, REPLACED, {"a2", "c2", "c1"});
    assert fs.Keys == {"a1", "c1"};
    assert RedirectStmt(REPLACED, Return(ONE)) == Return(ONE);
    assert fs["a1"] == Returning(Calling("c2")) && fs["c1"] == Returning(ONE);
  }

  lemma ShowRedirected(f: string)
    ensures RedirectStmt(REPLACED, Show(f)) == Show(Target(REPLACED, f))
  {
    assert [Calling(f)][1..] == [];
    assert RedirectArgs(REPLACED, [Calling(f)]) == [Calling(Target(REPLACED, f))];
  }

  // ----- the runs -----

  const START := Outside(map[], "")

  function At(out: string): State { State(map[], map[], out) }

  lemma CallLeaf(n: nat, out: string, f: string)
    requires n >= 1 && (f == "c1" || f == "c2")
    ensures Eval(FUNCTIONS, n, At(out), Calling(f)) == EDone(Num(1), At(out))
  {
    var st := At(out);
    assert Enter(FUNCTIONS[f], st, []) == st;
    assert Exec(FUNCTIONS, n - 1, st, Return(ONE)) == SDone(Returned(Num(1)), st);
  }

  lemma CallCaller(n: nat, out: string, f: string)
    requires n >= 2 && (f == "a1" || f == "a2")
    ensures Eval(FUNCTIONS, n, At(out), Calling(f)) == EDone(Num(1), At(out))
  {
    var st := At(out);
    CallLeaf(n - 1, out, "c2");
    assert Enter(FUNCTIONS[f], st, []) == st;
    assert Exec(FUNCTIONS, n - 1, st, Return(Calling("c2"))) == SDone(Returned(Num(1)), st);
  }

  lemma ShowOne(n: nat, out: string, f: string)
    requires Eval(FUNCTIONS, n, At(out), Calling(f)) == EDone(Num(1), At(out))
    ensures Exec(FUNCTIONS, n, At(out), Show(f)) == SDone(Normal, At(out + "1"))
  {
    assert [Calling(f)][1..] == [];
    assert EvalArgs(FUNCTIONS, n, At(out), [Calling(f)]) == ADone([Num(1)], At(out));
    assert [Num(1)][1..] == [];
    assert Format([Num(1)]) == "1" + Format([]) == "1";
  }

  lemma BothRun()
    ensures Run(TESTLESS, 2, START, [0]) == Run(SCRIPT, 2, START, [0]) == RDone(Outside(map[], "11"))
  {
    hide Eval;
    var ss := [TEST, Show("a2"), Show("c1")];
    CallCaller(2, "", "a1");
    CallCaller(2, "", "a2");
    CallLeaf(2, "1", "c1");
    ShowOne(2, "", "a2");
    ShowOne(2, "1", "c1");
    assert ss[1..] == [Show("a2"), Show("c1")] && ss[1..][1..] == [Show("c1")] && [Show("c1")][1..] == [];
    assert "" + "1" == "1" && "1" + "1" == "11";
    assert ExecSeq(FUNCTIONS, 2, At("1"), [Show("c1")]) == SDone(Normal, At("11"));
    assert ExecSeq(FUNCTIONS, 2, At(""), ss[1..]) == SDone(Normal, At("11"));
    assert Exec(FUNCTIONS, 2, At(""), TEST) == SDone(Normal, At(""));
    assert ExecSeq(FUNCTIONS, 2, At(""), ss) == SDone(Normal, At("11"));
    OneFiring(ss);
    OneFiring(ss[1..]);
  }

  lemma OneFiring(body: seq<Stmt>)
    requires ExecSeq(FUNCTIONS, 2, At(""), body) == SDone(Normal, At("11"))
    ensures Run(Script(body), 2, START, [0]) == RDone(Outside(map[], "11"))
  {
    hide ExecSeq;
    var pr := Script(body).probes[0];
    assert Initial([]) == map[];
    assert Eval(FUNCTIONS, 2, At(""), Guard(pr)) == EDone(Num(1), At(""));
    assert Fire(FUNCTIONS, 2, START, pr) == RDone(Outside(map[], "11"));
    assert [0][1..] == [];
  }

  /** Any session with the functions and probes of the merge gets stuck in a1, whatever the fuel. */
  lemma MergedStuck(q: Program, n: nat)
    requires q.funcs == MergeDuplicates(TESTLESS).funcs && q.probes == MergeDuplicates(TESTLESS).probes
    ensures Run(q, n, START, [0]) == RStuck
  {
    hide MergeDuplicates;
    MergeResult();
    var fs, st := q.funcs, At("");
    assert Initial([]) == map[];
    if n > 0 {
      assert Enter(fs["a1"], st, []) == st;
      assert Eval(fs, n - 1, st, Calling("c2")) == EStuck;
      assert Exec(fs, n - 1, st, Return(Calling("c2"))) == SStuck;
    }
    assert Eval(fs, n, st, Calling("a1")) == EStuck;
    ShowStuck(fs, n, st);
    assert ExecSeq(fs, n, st, [Show("a1"), Show("c1")]) == SStuck;
    assert Eval(fs, n, st, Guard(q.probes[0])) == EDone(Num(1), st);
    assert Fire(fs, n, START, q.probes[0]) == RStuck;
  }

  lemma ShowStuck(fs: map<string, Func>, n: nat, st: State)
    requires Eval(fs, n, st, Calling("a1")) == EStuck
    ensures Exec(fs, n, st, Show("a1")) == SStuck
  {
    assert EvalArgs(fs, n, st, [Calling("a1")]) == AStuck;
  }

  lemma RunLost(p: Program, q: Program)
    requires p.globals == q.globals == [] && Run(p, 2, START, [0]).RDone? && Run(q, 2, START, [0]) == RStuck
    ensures !Preserves(p, q)
  {
    assert SetOf([]) == {};
    assert Keep(START, []).g == map[] && Keep(START, []) == START;
  }

  /** So the round breaks the session that the first loop hands on, and it is not clean. */
  lemma StrandedNotPreserved()
    ensures !Preserves(TESTLESS, MergeDuplicates(TESTLESS)) && !CleanMerge(TESTLESS)
  {
    hide Run, MergeDuplicates, Duplicates, SessionUse;
    MergeResult();
    BothRun();
    MergedStuck(MergeDuplicates(TESTLESS), 2);
    RunLost(TESTLESS, MergeDuplicates(TESTLESS));
    Replacements();
    TestlessUse(false);
    assert !ConfinedStmt(ALL_VARS, Kept(REPLACED), FUNCTIONS["a2"].body);
  }

  /** And the two loops together break the script. */
  lemma LoopsNotPreserved()
    ensures !Preserves(SCRIPT, Merged(Rounds(false, SCRIPT, 1)))
  {
    hide Run, MergeDuplicates, Rounds;
    var q := MergeDuplicates(TESTLESS);
    OneRoundTaken();
    MergeResult();
    BothRun();
    NoMore();
    MergeNothing(q);
    MergedStuck(MergeDuplicates(q), 2);
    RunLost(SCRIPT, MergeDuplicates(q));
  }

  lemma NoMore()
    ensures HasDuplicates(TESTLESS) && !HasDuplicates(MergeDuplicates(TESTLESS))
  {
    hide SigOf, MergeDuplicates;
    Replacements();
    MergeResult();
    Texts();
    var q := MergeDuplicates(TESTLESS);
    assert "a2" in Duplicates(TESTLESS);
    forall f | f in q.funcs ensures Representative(q, f) == f { FirstFound(q.funcs, q.order, SigOf(q.funcs[f])); }
  }
}
