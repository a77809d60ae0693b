/**
 What the flag `relaxed_p` says: which changes of pass 4 clear it, and what a session looks like
 after a round that does not clear it, the last one of the loop.
 */
module QuietRound {
  import opened Syntax
  import opened VarUse
  import opened Semantics
  import opened Replace
  import opened DeadStmt
  import opened VoidReduce
  import opened ConstFold
  import opened Passes
  import opened Weight
  import opened Relax
  import opened NormalForms

  // ----- pass 4 -----

  /** The expressions of the expression statements. */
  function DoExprs(s: Stmt): set<Expr>
    decreases s, 1
  {
    match s
    case Do(e) => {e}
    case Block(body) => DoExprsSeq(body)
    case If(_, thn, els) => DoExprs(thn) + (if els.Some? then DoExprs(els.value) else {})
    case For(_, _, _, loop) => DoExprs(loop)
    case _ => {}
  }

  function DoExprsSeq(ss: seq<Stmt>): set<Expr>
    decreases ss, 0
  {
    if ss == [] then {} else DoExprs(ss[0]) + DoExprsSeq(ss[1..])
  }

  /** A block is spliced into the one around it. */
  predicate Splices(fs: map<string, Func>, focal: set<Var>, s: Stmt)
    decreases s, 1
  {
    match s
    case Block(body) => SplicesSeq(fs, focal, body)
    case If(_, thn, els) => Splices(fs, focal, thn) || (els.Some? && Splices(fs, focal, els.value))
    case For(_, _, _, loop) => Splices(fs, focal, loop)
    case _ => false
  }

  predicate SplicesSeq(fs: map<string, Func>, focal: set<Var>, ss: seq<Stmt>)
    decreases ss, 0
  {
    ss != [] &&
    (var left := PruneStmt(fs, focal, ss[0]);
     (left.Some? && left.value.Block?) || Splices(fs, focal, ss[0]) || SplicesSeq(fs, focal, ss[1..]))
  }

  /** The expression changes nothing that outlives it. */
  predicate Useless(fs: map<string, Func>, focal: set<Var>, e: Expr) { SideEffectFreeWrt(UseExpr(fs, NO_USE, e), focal) }

  predicate AnyUseless(fs: map<string, Func>, focal: set<Var>, es: set<Expr>) { exists e | e in es :: Useless(fs, focal, e) }

  /** A change is reported exactly if an expression statement is removed or a block spliced. */
  lemma {:induction false} PruneHitExact(fs: map<string, Func>, focal: set<Var>, s: Stmt)
    ensures PruneHit(fs, focal, s) <==> AnyUseless(fs, focal, DoExprs(s)) || Splices(fs, focal, s)
    decreases s, 1
  {
    hide SideEffectFreeWrt, UseExpr;
    match s
    case Do(e) => assert e in DoExprs(s);
    case Block(body) => PruneSeqHitExact(fs, focal, body);
    case If(_, thn, els) =>
      PruneHitExact(fs, focal, thn);
      if els.Some? {
        PruneHitExact(fs, focal, els.value);
        AnyOfBoth(fs, focal, DoExprs(thn), DoExprs(els.value));
      } else {
        AnyOfBoth(fs, focal, DoExprs(thn), {});
      }
    case For(_, _, _, loop) => PruneHitExact(fs, focal, loop);
    case _ =>
  }

  lemma {:induction false} PruneSeqHitExact(fs: map<string, Func>, focal: set<Var>, ss: seq<Stmt>)
    ensures PruneSeqHit(fs, focal, ss) <==> AnyUseless(fs, focal, DoExprsSeq(ss)) || SplicesSeq(fs, focal, ss)
    decreases ss, 0
  {
    hide AnyUseless, PruneStmt;
    if ss == [] {
      AnyOfNone(fs, focal);
    } else {
      PruneHitExact(fs, focal, ss[0]);
      PruneSeqHitExact(fs, focal, ss[1..]);
      AnyOfBoth(fs, focal, DoExprs(ss[0]), DoExprsSeq(ss[1..]));
    }
  }

  lemma AnyOfNone(fs: map<string, Func>, focal: set<Var>)
    ensures !AnyUseless(fs, focal, {})
  {
  }

  lemma AnyOfBoth(fs: map<string, Func>, focal: set<Var>, a: set<Expr>, b: set<Expr>)
    ensures AnyUseless(fs, focal, a + b) <==> AnyUseless(fs, focal, a) || AnyUseless(fs, focal, b)
  {
    hide Useless;
    if AnyUseless(fs, focal, a) {
      var e :| e in a && Useless(fs, focal, e);
      assert e in a + b;
    }
    if AnyUseless(fs, focal, b) {
      var e :| e in b && Useless(fs, focal, e);
      assert e in a + b;
    }
  }

  // ----- a body pass that reports no change -----

  lemma {:induction false} UnhitFuncs(w: Rewriter, fs: map<string, Func>, globals: set<Var>, order: seq<string>)
    requires !w.Prune? && !FuncsHit(w, fs, globals, order)
    ensures RewriteFuncs(w, fs, globals, order) == fs
    ensures forall f | f in order && f in fs :: Rewrite(w, fs, globals, FrameVars(fs[f]), fs[f].body) == fs[f].body
    decreases order
  {
    hide Rewrite;
    if order != [] {
      assert RewriteFunc(w, fs, globals, order[0]) == fs;
      UnhitFuncs(w, fs, globals, order[1..]);
    }
  }

  lemma UnhitPass(w: Rewriter, p: Program)
    requires !w.Prune? && !BodyPassHit(w, p)
    ensures var globals := SetOf(p.globals);
      && BodyPass(w, p) == p
      && (forall pr | pr in p.probes :: Rewrite(w, p.funcs, globals, SetOf(pr.locals), pr.body) == pr.body)
      && (forall f | f in p.order && f in p.funcs :: Rewrite(w, p.funcs, globals, FrameVars(p.funcs[f]), p.funcs[f].body) == p.funcs[f].body)
  {
    hide Rewrite, RewriteFuncs;
    var globals := SetOf(p.globals);
    UnhitFuncs(w, p.funcs, globals, p.order);
    forall pr | pr in p.probes ensures Rewrite(w, p.funcs, globals, SetOf(pr.locals), pr.body) == pr.body {
      assert !Hit(w, p.funcs, globals, SetOf(pr.locals), pr.body);
    }
    assert RewriteProbes(w, p.funcs, globals, p.probes) == p.probes;
  }

  /** No expression statement of the function can be removed, in view of the functions rewritten
      before it. */
  ghost predicate Effective(fs: map<string, Func>, globals: set<Var>, f: string) {
    f in fs ==> !AnyUseless(fs, globals + FrameVars(fs[f]), DoExprs(fs[f].body))
  }

  lemma {:induction false} UnhitPrune(fs: map<string, Func>, globals: set<Var>, order: seq<string>, k: nat)
    requires !FuncsHit(Prune, fs, globals, order) && k < |order|
    ensures Effective(RewriteFuncs(Prune, fs, globals, order[..k]), globals, order[k])
    decreases order
  {
    hide PruneHit, Rewrite, DoExprs, AnyUseless;
    if k == 0 {
      assert order[..0] == [];
      if order[0] in fs { PruneHitExact(fs, globals + FrameVars(fs[order[0]]), fs[order[0]].body); }
    } else {
      UnhitPrune(RewriteFunc(Prune, fs, globals, order[0]), globals, order[1..], k - 1);
      assert order[..k][0] == order[0] && order[..k][1..] == order[1..][..k - 1];
    }
  }

  // ----- the last round -----

  /** No expression statement has operators at its root, and nothing is left to fold. */
  ghost predicate Final(fs: map<string, Func>, globals: set<Var>, body: Stmt) {
    AllDirect(fs, globals, body) && FoldedStmt(fs, body)
  }

  ghost predicate FinalSession(p: Program) {
    var globals := SetOf(p.globals);
    && (forall pr | pr in p.probes :: Final(p.funcs, globals, pr.body))
    && (forall f | f in p.order && f in p.funcs :: Final(p.funcs, globals, p.funcs[f].body))
  }

  /** Whatever is in the session that pass 4 gets has an effect. */
  ghost predicate EffectiveSession(p: Program) {
    var globals := SetOf(p.globals);
    && (forall pr | pr in p.probes :: !AnyUseless(p.funcs, globals + SetOf(pr.locals), DoExprs(pr.body)))
    && (forall k | 0 <= k < |p.order| :: Effective(RewriteFuncs(Prune, p.funcs, globals, p.order[..k]), globals, p.order[k]))
  }

  /** The last round, which reports no change, changes nothing but by what pass 4 does not report;
      it finds everything used and effective, and leaves nothing to reduce or fold. */
  lemma LastRound(p: Program)
    requires !RoundHit(false, p) && (forall f | f in p.order :: f in p.funcs)
    ensures Settled(p) && EffectiveSession(p)
    ensures Round(false, p) == BodyPass(Prune, p) && FinalSession(Round(false, p))
  {
    hide SessionUse, BodyPassHit, BodyPass, DropFunctions, DropVariables, StripAssignments, Settled, FinalSession, EffectiveSession;
    QuietRoundSettled(p);
    SameAfterDrop(p);
    var q := BodyPass(Prune, p);
    UnhitPass(Reduce, q);
    UnhitPass(Fold, q);
    PrunedEffective(p);
    LeftFinal(q);
  }

  lemma PrunedEffective(p: Program)
    requires !BodyPassHit(Prune, p)
    ensures EffectiveSession(p)
  {
    hide PruneHit, RewriteFuncs, DoExprs, AnyUseless, FuncsHit, Effective;
    var globals := SetOf(p.globals);
    forall pr | pr in p.probes ensures !AnyUseless(p.funcs, globals + SetOf(pr.locals), DoExprs(pr.body)) {
      assert !Hit(Prune, p.funcs, globals, SetOf(pr.locals), pr.body);
      PruneHitExact(p.funcs, globals + SetOf(pr.locals), pr.body);
    }
    forall k | 0 <= k < |p.order| ensures Effective(RewriteFuncs(Prune, p.funcs, globals, p.order[..k]), globals, p.order[k]) {
      UnhitPrune(p.funcs, globals, p.order, k);
    }
  }

  lemma LeftFinal(p: Program)
    requires !BodyPassHit(Reduce, p) && !BodyPassHit(Fold, p)
    ensures FinalSession(p)
  {
    hide BodyPassHit, BodyPass, Final, ReduceStmt, FoldStmt;
    var globals := SetOf(p.globals);
    UnhitPass(Reduce, p);
    UnhitPass(Fold, p);
    forall pr | pr in p.probes ensures Final(p.funcs, globals, pr.body) { BodyFinal(p.funcs, globals, pr.body); }
    forall f | f in p.order && f in p.funcs ensures Final(p.funcs, globals, p.funcs[f].body) {
      BodyFinal(p.funcs, globals, p.funcs[f].body);
    }
  }

  lemma BodyFinal(fs: map<string, Func>, globals: set<Var>, body: Stmt)
    requires ReduceStmt(fs, globals, body) == body && FoldStmt(fs, body) == body
    ensures Final(fs, globals, body)
  {
    ReduceDone(fs, globals, body);
    FoldStmtDone(fs, body);
  }
}
