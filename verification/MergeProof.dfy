/**
 A round of merging duplicates preserves every run, when it leaves no call to a function it
 erases.
 */
module MergeProof {
  import opened Basics
  import opened Syntax
  import opened Semantics
  import opened Replace
  import opened Passes
  import opened Relax
  import opened Confined
  import opened Reach
  import opened Merge

  /** The functions before and after, where calls go, and the functions that are reached. */
  datatype Pairing = Pairing(fs: map<string, Func>, gs: map<string, Func>, rep: map<string, string>, seen: iset<string>)

  ghost predicate Matched(k: Pairing) { forall f | f in k.fs && f in k.seen :: MatchedFunc(k, f) }

  ghost predicate MatchedFunc(k: Pairing, f: string)
    requires f in k.fs
  {
    var r := Target(k.rep, f);
    && r in k.gs
    && k.gs[r].formals == OwnVars(r, k.fs[f].formals)
    && k.gs[r].init == k.fs[f].init
    && k.gs[r].body == RedirectStmt(k.rep, OwnStmt(r, k.fs[f].body))
    && ConfinedStmt(Scope(f, Common(r, FrameVars(k.fs[f]), FrameVars(k.gs[r]))), k.seen, k.fs[f].body)
    && (forall v | v in k.fs[f].formals :: v.Local? && v.owner == f)
  }

  /** Two frames, one under owner a and one under b, agree on the variables dom of a. */
  ghost predicate RelFrame(b: string, dom: set<Var>, l: map<Var, Val>, l': map<Var, Val>) {
    forall v | v in dom :: v in l && OwnVar(b, v) in l' && l'[OwnVar(b, v)] == l[v]
  }

  ghost predicate RelState(b: string, dom: set<Var>, s: State, t: State) {
    t.g == s.g && t.out == s.out && RelFrame(b, dom, s.l, t.l)
  }

  /** All of dom are locals of a. */
  predicate OwnedBy(a: string, dom: set<Var>) { forall v | v in dom && v.Local? :: v.owner == a }

  // ----- variables -----

  lemma RelFetch(a: string, b: string, dom: set<Var>, s: State, t: State, v: Var)
    requires RelState(b, dom, s, t) && OwnedVar(a, dom, v)
    ensures Declared(t, OwnVar(b, v)) == Declared(s, v)
    ensures Declared(s, v) ==> Fetch(t, OwnVar(b, v)) == Fetch(s, v)
  {
  }

  lemma RelStore(a: string, b: string, dom: set<Var>, s: State, t: State, v: Var, x: Val)
    requires RelState(b, dom, s, t) && OwnedVar(a, dom, v) && OwnedBy(a, dom) && Declared(s, v) && Declared(t, OwnVar(b, v))
    ensures RelState(b, dom, Store(s, v, x), Store(t, OwnVar(b, v), x))
  {
    if v.Local? {
      forall w | w in dom
        ensures w in Store(s, v, x).l && OwnVar(b, w) in Store(t, OwnVar(b, v), x).l
        ensures Store(t, OwnVar(b, v), x).l[OwnVar(b, w)] == Store(s, v, x).l[w]
      {
        assert w in s.l && OwnVar(b, w) in t.l && t.l[OwnVar(b, w)] == s.l[w];
        assert w.Local? ==> (OwnVar(b, w) == OwnVar(b, v) <==> w == v);
      }
    }
  }

  // ----- frames -----

  ghost predicate Agree(b: string, dom: set<Var>, m: map<Var, Val>, m': map<Var, Val>) {
    forall v | v in dom && v in m && OwnVar(b, v) in m' :: m'[OwnVar(b, v)] == m[v]
  }

  lemma {:induction false} BindAgree(a: string, b: string, dom: set<Var>, m: map<Var, Val>, m': map<Var, Val>, formals: seq<Var>, vs: seq<Val>)
    requires |formals| == |vs| && Agree(b, dom, m, m')
    requires (forall v | v in dom :: v.Local? && v.owner == a) && forall v | v in formals :: v.Local? && v.owner == a
    ensures Agree(b, dom, Bind(m, formals, vs), Bind(m', OwnVars(b, formals), vs))
    decreases formals
  {
    if formals != [] {
      var m1, m1' := m[formals[0] := vs[0]], m'[OwnVar(b, formals[0]) := vs[0]];
      assert Agree(b, dom, m1, m1') by {
        forall v | v in dom && v in m1 && OwnVar(b, v) in m1' ensures m1'[OwnVar(b, v)] == m1[v] {
          assert OwnVar(b, v) == OwnVar(b, formals[0]) <==> v == formals[0];
        }
      }
      BindAgree(a, b, dom, m1, m1', formals[1..], vs[1..]);
      assert OwnVars(b, formals)[1..] == OwnVars(b, formals[1..]);
    }
  }

  function LocalsOf(vs: set<Var>, o: string): set<Var> { set v | v in vs && v.Local? && v.owner == o }

  /** The variables of f's frame that are its own and have a counterpart in r's. */
  function Shared(k: Pairing, f: string): set<Var>
    requires f in k.fs && Target(k.rep, f) in k.gs
  {
    var r := Target(k.rep, f);
    LocalsOf(Common(r, FrameVars(k.fs[f]), FrameVars(k.gs[r])), f)
  }

  lemma EnterMatched(k: Pairing, f: string, s: State, t: State, vs: seq<Val>)
    requires Matched(k) && f in k.fs && f in k.seen && |k.fs[f].formals| == |vs| && t.g == s.g && t.out == s.out
    ensures MatchedFunc(k, f)
    ensures var r := Target(k.rep, f);
      RelState(r, Shared(k, f), Enter(k.fs[f], s, vs), Enter(k.gs[r], t, vs)) && OwnedBy(f, Shared(k, f))
      && ConfinedStmt(Scope(f, Shared(k, f)), k.seen, k.fs[f].body)
  {
    assert MatchedFunc(k, f);
    var r := Target(k.rep, f);
    var fd, gd, dom := k.fs[f], k.gs[r], Shared(k, f);
    assert Scope(f, dom) == Scope(f, Common(r, FrameVars(fd), FrameVars(gd)));
    BindAgree(f, r, dom, Initial(fd.locals), Initial(gd.locals), fd.formals, vs);
  }

  // ----- the simulation -----

  lemma {:induction false} MergeEval(k: Pairing, n: nat, a: string, b: string, dom: set<Var>, s: State, t: State, e: Expr)
    requires Matched(k) && ConfinedExpr(Scope(a, dom), k.seen, e) && OwnedBy(a, dom) && RelState(b, dom, s, t)
    requires Eval(k.fs, n, s, e).EDone?
    ensures var x, y := Eval(k.fs, n, s, e), Eval(k.gs, n, t, RedirectExpr(k.rep, OwnExpr(b, e)));
            y.EDone? && y.v == x.v && RelState(b, dom, x.st, y.st)
    decreases n, e, 1
  {
    hide Apply, UnVal, AssignVal, Bump, Format, Matched, RelState, OwnedBy, OwnedVar, Store, Fetch;
    match e
    case Lit(_) =>
    case Sym(v) => RelFetch(a, b, dom, s, t, v);
    case Crement(v, up, _) =>
      RelFetch(a, b, dom, s, t, v);
      RelStore(a, b, dom, s, t, v, Bump(up, Fetch(s, v)));
    case Un(_, x) => MergeEval(k, n, a, b, dom, s, t, x);
    case Assign(v, how, x) => MergeAssign(k, n, a, b, dom, s, t, v, how, x);
    case Call(f, args) => MergeCall(k, n, a, b, dom, s, t, f, args);
    case Print(_, args) =>
      MergeArgs(k, n, a, b, dom, s, t, args);
      var x, y := EvalArgs(k.fs, n, s, args), EvalArgs(k.gs, n, t, RedirectArgs(k.rep, OwnArgs(b, args)));
      RelOutput(b, dom, x.st, y.st, Format(x.vs));
    case _ => MergeOperator(k, n, a, b, dom, s, t, e);
  }

  lemma {:induction false} MergeOperator(k: Pairing, n: nat, a: string, b: string, dom: set<Var>, s: State, t: State, e: Expr)
    requires e.Bin? || e.Logic? || e.Cond?
    requires Matched(k) && ConfinedExpr(Scope(a, dom), k.seen, e) && OwnedBy(a, dom) && RelState(b, dom, s, t)
    requires Eval(k.fs, n, s, e).EDone?
    ensures var x, y := Eval(k.fs, n, s, e), Eval(k.gs, n, t, RedirectExpr(k.rep, OwnExpr(b, e)));
            y.EDone? && y.v == x.v && RelState(b, dom, x.st, y.st)
    decreases n, e, 0
  {
    hide Apply, Matched, RelState, OwnedBy, OwnedVar;
    match e
    case Bin(_, l, r) =>
      MergeEval(k, n, a, b, dom, s, t, l);
      MergeEval(k, n, a, b, dom, Eval(k.fs, n, s, l).st, Eval(k.gs, n, t, RedirectExpr(k.rep, OwnExpr(b, l))).st, r);
    case Logic(isOr, l, r) =>
      MergeEval(k, n, a, b, dom, s, t, l);
      var x := Eval(k.fs, n, s, l);
      if Truth(x.v).value != isOr {
        MergeEval(k, n, a, b, dom, x.st, Eval(k.gs, n, t, RedirectExpr(k.rep, OwnExpr(b, l))).st, r);
      }
    case Cond(c, l, r) =>
      MergeEval(k, n, a, b, dom, s, t, c);
      var x := Eval(k.fs, n, s, c);
      MergeEval(k, n, a, b, dom, x.st, Eval(k.gs, n, t, RedirectExpr(k.rep, OwnExpr(b, c))).st, if Truth(x.v).value then l else r);
  }

  lemma RelOutput(b: string, dom: set<Var>, s: State, t: State, text: string)
    requires RelState(b, dom, s, t)
    ensures RelState(b, dom, s.(out := s.out + text), t.(out := t.out + text))
  {
  }

  /** Back in the caller, whose frames still agree. */
  lemma RelResume(b: string, dom: set<Var>, b': string, dom': set<Var>, s: State, t: State, x: State, y: State)
    requires RelState(b, dom, s, t) && RelState(b', dom', x, y)
    ensures RelState(b, dom, x.(l := s.l), y.(l := t.l))
  {
  }

  lemma {:induction false} MergeAssign(k: Pairing, n: nat, a: string, b: string, dom: set<Var>, s: State, t: State, v: Var, how: AssignOp, x: Expr)
    requires Matched(k) && OwnedVar(a, dom, v) && ConfinedExpr(Scope(a, dom), k.seen, x) && OwnedBy(a, dom) && RelState(b, dom, s, t)
    requires Eval(k.fs, n, s, Assign(v, how, x)).EDone?
    ensures var p, q := Eval(k.fs, n, s, Assign(v, how, x)), Eval(k.gs, n, t, RedirectExpr(k.rep, OwnExpr(b, Assign(v, how, x))));
            q.EDone? && q.v == p.v && RelState(b, dom, p.st, q.st)
    decreases n, Assign(v, how, x), 0
  {
    hide Apply, AssignVal, Matched, RelState, OwnedBy, OwnedVar, Store, Fetch;
    MergeEval(k, n, a, b, dom, s, t, x);
    var p, q := Eval(k.fs, n, s, x), Eval(k.gs, n, t, RedirectExpr(k.rep, OwnExpr(b, x)));
    RelFetch(a, b, dom, p.st, q.st, v);
    RelStore(a, b, dom, p.st, q.st, v, AssignVal(how, Fetch(p.st, v), p.v).value);
  }

  lemma SameOutside(b: string, dom: set<Var>, s: State, t: State)
    requires RelState(b, dom, s, t)
    ensures t.g == s.g && t.out == s.out
  {
  }

  lemma {:induction false} MergeCall(k: Pairing, n: nat, a: string, b: string, dom: set<Var>, s: State, t: State, f: string, args: seq<Expr>)
    requires Matched(k) && f in k.seen && ConfinedArgs(Scope(a, dom), k.seen, args) && OwnedBy(a, dom) && RelState(b, dom, s, t)
    requires Eval(k.fs, n, s, Call(f, args)).EDone?
    ensures var x, y := Eval(k.fs, n, s, Call(f, args)), Eval(k.gs, n, t, RedirectExpr(k.rep, OwnExpr(b, Call(f, args))));
            y.EDone? && y.v == x.v && RelState(b, dom, x.st, y.st)
    decreases n, Call(f, args), 0
  {
    hide Matched, RelState, OwnedBy, Enter, Shared;
    MergeArgs(k, n, a, b, dom, s, t, args);
    var p, q := EvalArgs(k.fs, n, s, args), EvalArgs(k.gs, n, t, RedirectArgs(k.rep, OwnArgs(b, args)));
    var r := Target(k.rep, f);
    SameOutside(b, dom, p.st, q.st);
    EnterMatched(k, f, p.st, q.st, p.vs);
    var s1, t1 := Enter(k.fs[f], p.st, p.vs), Enter(k.gs[r], q.st, q.vs);
    MergeExec(k, n - 1, f, r, Shared(k, f), s1, t1, k.fs[f].body);
    var x, y := Exec(k.fs, n - 1, s1, k.fs[f].body), Exec(k.gs, n - 1, t1, k.gs[r].body);
    RelResume(b, dom, r, Shared(k, f), p.st, q.st, x.st, y.st);
  }

  lemma {:induction false} MergeArgs(k: Pairing, n: nat, a: string, b: string, dom: set<Var>, s: State, t: State, args: seq<Expr>)
    requires Matched(k) && ConfinedArgs(Scope(a, dom), k.seen, args) && OwnedBy(a, dom) && RelState(b, dom, s, t)
    requires EvalArgs(k.fs, n, s, args).ADone?
    ensures var x, y := EvalArgs(k.fs, n, s, args), EvalArgs(k.gs, n, t, RedirectArgs(k.rep, OwnArgs(b, args)));
            y.ADone? && y.vs == x.vs && RelState(b, dom, x.st, y.st)
    decreases n, args, 0
  {
    hide Matched, RelFrame, OwnedBy;
    if args != [] {
      MergeEval(k, n, a, b, dom, s, t, args[0]);
      MergeArgs(k, n, a, b, dom, Eval(k.fs, n, s, args[0]).st, Eval(k.gs, n, t, RedirectExpr(k.rep, OwnExpr(b, args[0]))).st, args[1..]);
      assert OwnArgs(b, args)[1..] == OwnArgs(b, args[1..]);
      assert RedirectArgs(k.rep, OwnArgs(b, args))[1..] == RedirectArgs(k.rep, OwnArgs(b, args[1..]));
    }
  }

  lemma {:induction false} MergeOpt(k: Pairing, n: nat, a: string, b: string, dom: set<Var>, s: State, t: State, e: Option<Expr>)
    requires Matched(k) && ConfinedOpt(Scope(a, dom), k.seen, e) && OwnedBy(a, dom) && RelState(b, dom, s, t)
    requires EvalOpt(k.fs, n, s, e).EDone?
    ensures var x, y := EvalOpt(k.fs, n, s, e), EvalOpt(k.gs, n, t, RedirectOpt(k.rep, OwnOpt(b, e)));
            y.EDone? && RelState(b, dom, x.st, y.st)
    decreases n, e, 2
  {
    if e.Some? { MergeEval(k, n, a, b, dom, s, t, e.value); }
  }

  lemma {:induction false} MergeExec(k: Pairing, n: nat, a: string, b: string, dom: set<Var>, s: State, t: State, c: Stmt)
    requires Matched(k) && ConfinedStmt(Scope(a, dom), k.seen, c) && OwnedBy(a, dom) && RelState(b, dom, s, t)
    requires Exec(k.fs, n, s, c).SDone?
    ensures var x, y := Exec(k.fs, n, s, c), Exec(k.gs, n, t, RedirectStmt(k.rep, OwnStmt(b, c)));
            y.SDone? && y.sig == x.sig && RelState(b, dom, x.st, y.st)
    decreases n, c, 4
  {
    hide Matched, RelState, OwnedBy;
    match c
    case Do(e) => MergeEval(k, n, a, b, dom, s, t, e);
    case Return(e) => MergeEval(k, n, a, b, dom, s, t, e);
    case Block(body) => MergeSeq(k, n, a, b, dom, s, t, body);
    case If(e, thn, els) =>
      MergeEval(k, n, a, b, dom, s, t, e);
      var x, y := Eval(k.fs, n, s, e), Eval(k.gs, n, t, RedirectExpr(k.rep, OwnExpr(b, e)));
      if Truth(x.v).value {
        MergeExec(k, n, a, b, dom, x.st, y.st, thn);
      } else if els.Some? {
        MergeExec(k, n, a, b, dom, x.st, y.st, els.value);
      }
    case For(init, _, _, _) =>
      MergeOpt(k, n, a, b, dom, s, t, init);
      MergeLoop(k, n, a, b, dom, EvalOpt(k.fs, n, s, init).st, EvalOpt(k.gs, n, t, RedirectOpt(k.rep, OwnOpt(b, init))).st, c);
    case _ =>
  }

  lemma {:induction false} MergeSeq(k: Pairing, n: nat, a: string, b: string, dom: set<Var>, s: State, t: State, ss: seq<Stmt>)
    requires Matched(k) && ConfinedSeq(Scope(a, dom), k.seen, ss) && OwnedBy(a, dom) && RelState(b, dom, s, t)
    requires ExecSeq(k.fs, n, s, ss).SDone?
    ensures var x, y := ExecSeq(k.fs, n, s, ss), ExecSeq(k.gs, n, t, RedirectSeq(k.rep, OwnSeq(b, ss)));
            y.SDone? && y.sig == x.sig && RelState(b, dom, x.st, y.st)
    decreases n, ss, 3
  {
    hide Matched, RelState, OwnedBy;
    if ss != [] {
      MergeExec(k, n, a, b, dom, s, t, ss[0]);
      var x, y := Exec(k.fs, n, s, ss[0]), Exec(k.gs, n, t, RedirectStmt(k.rep, OwnStmt(b, ss[0])));
      assert OwnSeq(b, ss)[1..] == OwnSeq(b, ss[1..]);
      assert RedirectSeq(k.rep, OwnSeq(b, ss))[1..] == RedirectSeq(k.rep, OwnSeq(b, ss[1..]));
      if x.sig == Normal { MergeSeq(k, n, a, b, dom, x.st, y.st, ss[1..]); }
    }
  }

  lemma {:induction false} MergeLoop(k: Pairing, n: nat, a: string, b: string, dom: set<Var>, s: State, t: State, c: Stmt)
    requires c.For? && Matched(k) && ConfinedStmt(Scope(a, dom), k.seen, c) && OwnedBy(a, dom) && RelState(b, dom, s, t)
    requires Loop(k.fs, n, s, c).SDone?
    ensures var x, y := Loop(k.fs, n, s, c), Loop(k.gs, n, t, RedirectStmt(k.rep, OwnStmt(b, c)));
            y.SDone? && y.sig == x.sig && RelState(b, dom, x.st, y.st)
    decreases n, c, 3
  {
    hide Matched, RelState, OwnedBy;
    var c' := RedirectStmt(k.rep, OwnStmt(b, c));
    MergeEval(k, n, a, b, dom, s, t, c.c);
    var x, y := Eval(k.fs, n, s, c.c), Eval(k.gs, n, t, c'.c);
    if Truth(x.v).value {
      MergeExec(k, n, a, b, dom, x.st, y.st, c.loop);
      var p, q := Exec(k.fs, n, x.st, c.loop), Exec(k.gs, n, y.st, c'.loop);
      if p.sig == Normal || p.sig == Continued {
        MergeOpt(k, n, a, b, dom, p.st, q.st, c.incr);
        MergeLoop(k, n - 1, a, b, dom, EvalOpt(k.fs, n, p.st, c.incr).st, EvalOpt(k.gs, n, q.st, c'.incr).st, c);
      }
    }
  }

  // ----- the pass preserves runs -----

  lemma SameText(f: string, r: string, fd: Func, rd: Func)
    requires SigOf(fd) == SigOf(rd) && ScopedFunc(f, fd) && ScopedFunc(r, rd)
    ensures rd.formals == OwnVars(r, fd.formals) && rd.init == fd.init && rd.body == OwnStmt(r, fd.body)
  {
    OwnOwnStmt(r, "", fd.body);
    OwnOwnStmt(r, "", rd.body);
    OwnSelfStmt(r, FrameVars(rd), ALL_NAMES, rd.body);
    forall i | 0 <= i < |fd.formals|
      ensures rd.formals[i] == OwnVar(r, fd.formals[i])
    {
      assert OwnVars("", rd.formals)[i] == OwnVars("", fd.formals)[i];
      assert rd.formals[i] in rd.formals && fd.formals[i] in fd.formals;
    }
    assert |OwnVars("", rd.formals)| == |OwnVars("", fd.formals)|;
  }

  ghost function PairingOf(p: Program): Pairing {
    Pairing(p.funcs, MergeDuplicates(p).funcs, Duplicates(p), SeenNames(SessionUse(p, false)))
  }

  lemma MergeMatches(p: Program)
    requires Enumerated(p) && Scoped(p) && CleanMerge(p)
    ensures Matched(PairingOf(p))
  {
    hide MatchedFunc;
    var k := PairingOf(p);
    SessionSeenClosed(p, false);
    forall f | f in k.fs && f in k.seen ensures MatchedFunc(k, f) { MergeMatchesFunc(p, f); }
  }

  lemma MergeMatchesFunc(p: Program, f: string)
    requires Enumerated(p) && Scoped(p) && CleanMerge(p) && f in p.funcs && f in Traversed(p)
    requires ConfinedStmt(ALL_VARS, PairingOf(p).seen, p.funcs[f].body)
    ensures MatchedFunc(PairingOf(p), f)
  {
    hide FrameVars, SigOf, Enumerated;
    var k := PairingOf(p);
    RepresentativeFits(p, f);
    var r := Target(k.rep, f);
    var fd, rd := p.funcs[f], p.funcs[r];
    assert ScopedFunc(f, fd) && ScopedFunc(r, rd);
    SameText(f, r, fd, rd);
    MeetStmt(Scope(f, FrameVars(fd)), ALL_NAMES, ALL_VARS, k.seen, Scope(f, FrameVars(fd)), k.seen, fd.body);
    CommonStmt(f, r, FrameVars(fd), FrameVars(rd), k.seen, fd.body);
    MergedBody(p, f, r);
  }

  /** The function that replaces f does what f does, its calls redirected or not needing it. */
  lemma MergedBody(p: Program, f: string, r: string)
    requires CleanMerge(p) && f in p.funcs && f in Traversed(p) && r == Target(Duplicates(p), f)
    requires r in p.funcs && r !in Duplicates(p) && p.funcs[r].body == OwnStmt(r, p.funcs[f].body)
    ensures var q := MergeDuplicates(p);
      && r in q.funcs && q.funcs[r] == p.funcs[r].(body := RedirectStmt(Duplicates(p), OwnStmt(r, p.funcs[f].body)))
      && FrameVars(q.funcs[r]) == FrameVars(p.funcs[r])
  {
    if r !in Traversed(p) {
      OwnConfinedStmt(r, ALL_VARS, Kept(Duplicates(p)), p.funcs[f].body);
      assert OwnedInto(r, ALL_VARS) == ALL_VARS;
      RedirectUnusedStmt(Duplicates(p), ALL_VARS, Kept(Duplicates(p)), OwnStmt(r, p.funcs[f].body));
    }
  }

  lemma MergeFire(p: Program, n: nat, o: Outside, i: nat)
    requires Matched(PairingOf(p)) && i < |p.probes| && ScopedProbe(p.probes[i]) && CallFree(Guard(p.probes[i]))
    requires ConfinedStmt(ALL_VARS, PairingOf(p).seen, p.probes[i].body)
    requires Fire(p.funcs, n, o, p.probes[i]).RDone?
    ensures var q := MergeDuplicates(p); Fire(q.funcs, n, o, q.probes[i]) == Fire(p.funcs, n, o, p.probes[i])
  {
    hide Matched, MergeDuplicates;
    var q, k, pr := MergeDuplicates(p), PairingOf(p), p.probes[i];
    MergedProbe(p, i);
    var st := State(o.g, map[], o.out);
    CallFreeEval(p.funcs, q.funcs, n, st, Guard(pr));
    var c := Eval(p.funcs, n, st, Guard(pr));
    if Truth(c.v).value {
      var own :| OwnedStmt(own, SetOf(pr.locals), pr.body);
      var st1, dom := State(c.st.g, Initial(pr.locals), c.st.out), LocalsOf(SetOf(pr.locals), own);
      assert Scope(own, dom) == Scope(own, SetOf(pr.locals));
      MeetStmt(Scope(own, dom), ALL_NAMES, ALL_VARS, k.seen, Scope(own, dom), k.seen, pr.body);
      OwnSelfStmt(own, dom, k.seen, pr.body);
      MergeExec(k, n, own, own, dom, st1, st1, pr.body);
    }
  }

  lemma MergedProbe(p: Program, i: nat)
    requires i < |p.probes|
    ensures var q := MergeDuplicates(p);
      i < |q.probes| && q.probes[i] == p.probes[i].(body := RedirectStmt(Duplicates(p), p.probes[i].body))
  {
  }

  lemma MergePreserves(p: Program)
    requires Enumerated(p) && Scoped(p) && CleanMerge(p) && SimpleConditions(p)
    ensures Preserves(p, MergeDuplicates(p))
  {
    var q := MergeDuplicates(p);
    MergeMatches(p);
    SessionSeenClosed(p, false);
    forall n: nat, o: Outside, i: nat | o.g.Keys == SetOf(p.globals) && i < |p.probes|
      ensures FirePreserved(p, q, n, o, i)
    {
      hide Fire, Matched;
      assert p.probes[i] in p.probes;
      KeepAll(o, p.globals);
      if Fire(p.funcs, n, o, p.probes[i]).RDone? {
        FireKeepsDomain(p.funcs, n, o, p.probes[i]);
        KeepAll(Fire(p.funcs, n, o, p.probes[i]).o, p.globals);
        MergeFire(p, n, o, i);
      }
    }
    PreservesFromFirings(p, q);
  }
}
