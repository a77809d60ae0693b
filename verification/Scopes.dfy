/**
 What symbol resolution establishes holds again after every round of the relaxation loop:
 code mentions only variables in its scope, the walk names every function once, and every
 call that can be reached is of a function in the session.
 */
module Scopes {
  import opened Syntax
  import opened Semantics
  import opened VarUse
  import opened Replace
  import opened Passes
  import opened Relax
  import opened Confined
  import opened Reach
  import opened Merge

  /** What the optimizer is given and what it hands on. */
  ghost predicate WellScoped(p: Program) { Enumerated(p) && Scoped(p) }

  // ----- passes that rewrite bodies -----

  lemma RewriteShrinks(w: Rewriter, fs: map<string, Func>, globals: set<Var>, frame: set<Var>, s: Stmt)
    ensures Shrunk(s, Rewrite(w, fs, globals, frame, s))
  {
    forall vars: iset<Var>, names: iset<string> | ConfinedStmt(vars, names, s)
      ensures ConfinedStmt(vars, names, Rewrite(w, fs, globals, frame, s))
    {
      match w
      case Prune => ConfinedPruneStmt(vars, names, fs, globals + frame, s);
      case Reduce => ConfinedReduceStmt(vars, names, fs, globals, s);
      case Fold => ConfinedFoldStmt(vars, names, fs, s);
    }
  }

  /** gs differs from fs in bodies that mention nothing new. */
  ghost predicate ShrunkFuncs(fs: map<string, Func>, gs: map<string, Func>) {
    && gs.Keys == fs.Keys
    && forall f | f in fs :: gs[f] == fs[f].(body := gs[f].body) && Shrunk(fs[f].body, gs[f].body)
  }

  ghost predicate ShrunkProgram(p: Program, q: Program) {
    && q.order == p.order
    && ShrunkFuncs(p.funcs, q.funcs)
    && |q.probes| == |p.probes|
    && forall i | 0 <= i < |p.probes| ::
      q.probes[i] == p.probes[i].(body := q.probes[i].body) && Shrunk(p.probes[i].body, q.probes[i].body)
  }

  lemma {:induction false} RewriteFuncsShrinks(w: Rewriter, fs: map<string, Func>, globals: set<Var>, order: seq<string>)
    ensures ShrunkFuncs(fs, RewriteFuncs(w, fs, globals, order))
    decreases order
  {
    hide Rewrite;
    if order != [] {
      var f := order[0];
      if f in fs { RewriteShrinks(w, fs, globals, FrameVars(fs[f]), fs[f].body); }
      RewriteFuncsShrinks(w, RewriteFunc(w, fs, globals, f), globals, order[1..]);
    }
  }

  lemma BodyPassShrinks(w: Rewriter, p: Program)
    ensures ShrunkProgram(p, BodyPass(w, p))
  {
    hide Rewrite, Shrunk;
    var globals := SetOf(p.globals);
    RewriteFuncsShrinks(w, p.funcs, globals, p.order);
    forall i | 0 <= i < |p.probes|
      ensures Shrunk(p.probes[i].body, BodyPass(w, p).probes[i].body)
    {
      RewriteShrinks(w, p.funcs, globals, SetOf(p.probes[i].locals), p.probes[i].body);
    }
  }

  lemma StripAssignmentsShrinks(p: Program)
    ensures ShrunkProgram(p, StripAssignments(p))
  {
    hide Shrunk, DeadIn;
    forall f | f in p.funcs ensures Shrunk(p.funcs[f].body, StripAssignments(p).funcs[f].body) {
      StripShrinks(DeadIn(p), p.funcs[f].body);
    }
    forall i | 0 <= i < |p.probes| ensures Shrunk(p.probes[i].body, StripAssignments(p).probes[i].body) {
      StripShrinks(DeadIn(p), p.probes[i].body);
    }
  }

  lemma ShrunkScoped(p: Program, q: Program)
    requires WellScoped(p) && ShrunkProgram(p, q)
    ensures WellScoped(q)
  {
    forall f | f in q.funcs ensures ScopedFunc(f, q.funcs[f]) {
      assert ScopedFunc(f, p.funcs[f]);
      assert FrameVars(q.funcs[f]) == FrameVars(p.funcs[f]);
    }
    forall pr | pr in q.probes ensures ScopedProbe(pr) {
      var i :| 0 <= i < |q.probes| && q.probes[i] == pr;
      assert p.probes[i] in p.probes && ScopedProbe(p.probes[i]);
      var own :| OwnedStmt(own, SetOf(p.probes[i].locals), p.probes[i].body);
      assert OwnedStmt(own, SetOf(pr.locals), pr.body);
    }
  }

  lemma ShrunkResolved(p: Program, q: Program)
    requires Resolved(p) && ShrunkProgram(p, q)
    ensures Resolved(q)
  {
    hide SessionUse;
    var names := SeenNames(SessionUse(p, false));
    SessionSeenClosed(p, false);
    forall pr | pr in q.probes ensures ConfinedStmt(ALL_VARS, names, pr.body) {
      var i :| 0 <= i < |q.probes| && q.probes[i] == pr;
      assert p.probes[i] in p.probes;
    }
    SessionSeenLeast(q, names, false);
    forall f | f in Traversed(q) ensures f in q.funcs { assert f in SeenNames(SessionUse(q, false)); }
  }

  // ----- passes 1 and 2 -----

  lemma DropFunctionsScoped(p: Program)
    requires WellScoped(p)
    ensures WellScoped(DropFunctions(p))
  {
    hide SessionUse;
    OnlyDistinct(p.order, SessionUse(p, true).seen);
    var q := DropFunctions(p);
    forall f | f in q.funcs ensures ScopedFunc(f, q.funcs[f]) { assert ScopedFunc(f, p.funcs[f]); }
  }

  lemma DropFunctionsResolved(p: Program)
    requires Resolved(p) && SimpleConditions(p)
    ensures Resolved(DropFunctions(p))
  {
    var q := DropFunctions(p);
    DropFunctionsReachable(p, false);
    ConditionsReachNothing(p);
    forall f | f in Traversed(q) ensures f in q.funcs {
      assert f in SeenNames(SessionUse(q, false));
      assert f in SeenNames(SessionUse(p, false)) && f in SeenNames(SessionUse(p, true));
    }
  }

  /** What is used stays declared. */
  lemma UsedStaysOwned(u: Use, o: string, dom: set<Var>, dom': set<Var>, s: Stmt)
    requires OwnedStmt(o, dom, s) && CoversStmt(u, s) && forall v | v in dom && v in UsedVars(u) :: v in dom'
    ensures OwnedStmt(o, dom', s)
  {
    CoveredStmt(u, s);
    MeetStmt(Scope(o, dom), ALL_NAMES, UsedVars(u), SeenNames(u), Scope(o, dom'), ALL_NAMES, s);
  }

  lemma DropVariablesScoped(p: Program)
    requires WellScoped(p) && p.funcs.Keys <= SessionUse(p, true).seen
    ensures WellScoped(DropVariables(p))
  {
    hide SessionUse, CoversStmt, OwnedStmt;
    var q, u := DropVariables(p), SessionUse(p, true);
    SessionUseCovers(p, true);
    forall f | f in q.funcs ensures ScopedFunc(f, q.funcs[f]) {
      assert ScopedFunc(f, p.funcs[f]);
      UsedStaysOwned(u, f, FrameVars(p.funcs[f]), FrameVars(q.funcs[f]), p.funcs[f].body);
    }
    forall pr | pr in q.probes ensures ScopedProbe(pr) {
      var i :| 0 <= i < |q.probes| && q.probes[i] == pr;
      assert p.probes[i] in p.probes && ScopedProbe(p.probes[i]) && CoversProbe(u, p.probes[i], true);
      var own :| OwnedStmt(own, SetOf(p.probes[i].locals), p.probes[i].body);
      UsedStaysOwned(u, own, SetOf(p.probes[i].locals), SetOf(pr.locals), pr.body);
    }
  }

  lemma DropVariablesResolved(p: Program)
    requires Resolved(p)
    ensures Resolved(DropVariables(p))
  {
    hide SessionUse;
    var q, names := DropVariables(p), SeenNames(SessionUse(p, false));
    SessionSeenClosed(p, false);
    forall pr | pr in q.probes ensures ConfinedStmt(ALL_VARS, names, pr.body) {
      var i :| 0 <= i < |q.probes| && q.probes[i] == pr;
      assert p.probes[i] in p.probes;
    }
    SessionSeenLeast(q, names, false);
    forall f | f in Traversed(q) ensures f in q.funcs { assert f in SeenNames(SessionUse(q, false)); }
  }

  // ----- rounds -----

  lemma BodyPassScoped(w: Rewriter, p: Program)
    requires WellScoped(p)
    ensures WellScoped(BodyPass(w, p)) && (Resolved(p) ==> Resolved(BodyPass(w, p)))
  {
    hide WellScoped, BodyPass, Resolved, ShrunkProgram;
    BodyPassShrinks(w, p);
    ShrunkScoped(p, BodyPass(w, p));
    if Resolved(p) { ShrunkResolved(p, BodyPass(w, p)); }
  }

  lemma DropScoped(p: Program)
    requires WellScoped(p)
    ensures var q := StripAssignments(DropVariables(DropFunctions(p)));
      WellScoped(q) && (Resolved(p) && SimpleConditions(p) ==> Resolved(q))
  {
    hide WellScoped, Resolved, ShrunkProgram, DropFunctions, DropVariables, StripAssignments, SimpleConditions;
    var p1 := DropFunctions(p);
    var p2 := DropVariables(p1);
    DropFunctionsScoped(p);
    DropFunctionsReachable(p, true);
    DropVariablesScoped(p1);
    StripAssignmentsShrinks(p2);
    ShrunkScoped(p2, StripAssignments(p2));
    if Resolved(p) && SimpleConditions(p) {
      DropFunctionsResolved(p);
      DropVariablesResolved(p1);
      ShrunkResolved(p2, StripAssignments(p2));
    }
  }

  /** A round hands on what symbol resolution established. */
  lemma RoundScoped(unoptimized: bool, p: Program)
    requires WellScoped(p)
    ensures WellScoped(Round(unoptimized, p))
    ensures Resolved(p) && SimpleConditions(p) ==> Resolved(Round(unoptimized, p))
  {
    hide WellScoped, Resolved, DropFunctions, DropVariables, StripAssignments, SimpleConditions, BodyPass;
    if unoptimized {
      BodyPassScoped(Fold, p);
    } else {
      var p3 := StripAssignments(DropVariables(DropFunctions(p)));
      DropScoped(p);
      BodyPassScoped(Prune, p3);
      BodyPassScoped(Reduce, BodyPass(Prune, p3));
      BodyPassScoped(Fold, BodyPass(Reduce, BodyPass(Prune, p3)));
    }
  }

  lemma {:induction false} RoundsScoped(unoptimized: bool, p: Program, k: nat)
    requires WellScoped(p) && SimpleConditions(p)
    ensures var q := Rounds(unoptimized, p, k); WellScoped(q) && SimpleConditions(q) && (Resolved(p) ==> Resolved(q))
    decreases k
  {
    hide WellScoped, Resolved, SimpleConditions, Round;
    if k > 0 {
      RoundsScoped(unoptimized, p, k - 1);
      RoundScoped(unoptimized, Rounds(unoptimized, p, k - 1));
      RoundConditions(unoptimized, Rounds(unoptimized, p, k - 1));
    }
  }

  /** If the last round changed nothing at all, every function left can be reached. */
  lemma StillRound(p: Program)
    requires SimpleConditions(p) && Round(false, p) == p
    ensures AllReachable(p)
  {
    hide BodyPass, DropVariables, StripAssignments;
    var p1 := DropFunctions(p);
    var p3 := StripAssignments(DropVariables(p1));
    RoundKeys(p);
    assert p1.funcs == p.funcs;
    ConditionsReachNothing(p);
    forall f | f in p.funcs ensures f in Traversed(p) { assert f in SeenNames(SessionUse(p, true)); }
  }

  lemma RoundKeys(p: Program)
    ensures Round(false, p).funcs.Keys == DropFunctions(p).funcs.Keys
  {
    hide BodyPass, DropFunctions, Shrunk;
    var p1 := DropFunctions(p);
    var p3 := StripAssignments(DropVariables(p1));
    BodyPassShrinks(Prune, p3);
    BodyPassShrinks(Reduce, BodyPass(Prune, p3));
    BodyPassShrinks(Fold, BodyPass(Reduce, BodyPass(Prune, p3)));
  }
}
