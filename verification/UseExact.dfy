/**
 What the variable-use analysis gathers, exactly: the variables written, read and the
 functions called by the sub-expressions of a piece of code and of the function bodies it
 enters, and nothing else.
 */
module UseExact {
  import opened Basics
  import opened Arith64
  import opened Syntax
  import opened VarUse
  import opened DeadStmt
  import opened ConstFold
  import opened Passes

  // ----- sub-expressions -----

  /** An expression and everything inside it. */
  function Parts(e: Expr): set<Expr>
    decreases e, 1
  {
    {e} +
    match e
    case Bin(_, l, r) => Parts(l) + Parts(r)
    case Logic(_, l, r) => Parts(l) + Parts(r)
    case Un(_, x) => Parts(x)
    case Cond(c, l, r) => Parts(c) + Parts(l) + Parts(r)
    case Assign(_, _, x) => Parts(x)
    case Call(_, args) => PartsArgs(args)
    case Print(_, args) => PartsArgs(args)
    case _ => {}
  }

  function PartsArgs(args: seq<Expr>): set<Expr>
    decreases args, 0
  {
    if args == [] then {} else Parts(args[0]) + PartsArgs(args[1..])
  }

  function PartsOpt(e: Option<Expr>): set<Expr> { match e case None => {} case Some(x) => Parts(x) }

  function PartsStmt(s: Stmt): set<Expr>
    decreases s, 1
  {
    match s
    case Do(e) => Parts(e)
    case Return(e) => Parts(e)
    case Block(body) => PartsSeq(body)
    case If(c, thn, els) => Parts(c) + PartsStmt(thn) + if els.Some? then PartsStmt(els.value) else {}
    case For(init, c, incr, loop) => PartsOpt(init) + Parts(c) + PartsOpt(incr) + PartsStmt(loop)
    case _ => {}
  }

  function PartsSeq(ss: seq<Stmt>): set<Expr>
    decreases ss, 0
  {
    if ss == [] then {} else PartsStmt(ss[0]) + PartsSeq(ss[1..])
  }

  /** The targets of assignments, `++` and `--`. */
  function WrittenBy(xs: set<Expr>): set<Var> {
    (set x | x in xs && x.Assign? :: x.v) + (set x | x in xs && x.Crement? :: x.v)
  }

  /** The symbols, and the targets of assignments that also read, such as `+=`. */
  function ReadBy(xs: set<Expr>): set<Var> {
    (set x | x in xs && x.Sym? :: x.v) + (set x | x in xs && x.Assign? && x.how != Set :: x.v)
  }

  function CalledBy(xs: set<Expr>): set<string> { set x | x in xs && x.Call? :: x.f }

  /** Something is printed to the stream. */
  predicate Streams(xs: set<Expr>) { exists x | x in xs :: x.Print? && x.stream }

  /** The sub-expressions of the functions entered between u and r. */
  function Entered(fs: map<string, Func>, u: Use, r: Use): set<Expr> {
    set f, x | f in r.seen && f !in u.seen && f in fs && x in PartsStmt(fs[f].body) :: x
  }

  /** r has gathered, beyond u, what is in xs and in the functions entered. */
  ghost predicate Gathers(fs: map<string, Func>, u: Use, r: Use, xs: set<Expr>) {
    && u.Within(r)
    && r.written == u.written + WrittenBy(xs + Entered(fs, u, r))
    && r.read == u.read + ReadBy(xs + Entered(fs, u, r))
    && r.seen == u.seen + CalledBy(xs + Entered(fs, u, r))
    && (r.effect <==> u.effect || Streams(xs + Entered(fs, u, r)))
    && (CalledBy(xs) <= u.seen ==> r.seen == u.seen)
  }

  // ----- how gathering composes -----

  lemma UnionGathers(xs: set<Expr>, ys: set<Expr>)
    ensures WrittenBy(xs + ys) == WrittenBy(xs) + WrittenBy(ys) && ReadBy(xs + ys) == ReadBy(xs) + ReadBy(ys)
    ensures CalledBy(xs + ys) == CalledBy(xs) + CalledBy(ys)
    ensures Streams(xs + ys) <==> Streams(xs) || Streams(ys)
  {
    if x :| x in xs + ys && x.Print? && x.stream { assert x in xs || x in ys; }
    if x :| x in xs && x.Print? && x.stream { assert x in xs + ys; }
    if x :| x in ys && x.Print? && x.stream { assert x in xs + ys; }
  }

  lemma EnteredBoth(fs: map<string, Func>, u: Use, m: Use, r: Use)
    requires u.Within(m) && m.Within(r)
    ensures Entered(fs, u, r) == Entered(fs, u, m) + Entered(fs, m, r)
  {
    hide PartsStmt;
    forall x ensures x in Entered(fs, u, r) <==> x in Entered(fs, u, m) + Entered(fs, m, r) {
      if x in Entered(fs, u, r) {
        var f :| f in r.seen && f !in u.seen && f in fs && x in PartsStmt(fs[f].body);
        assert f in m.seen ==> x in Entered(fs, u, m);
      }
    }
  }

  lemma GathersThen(fs: map<string, Func>, u: Use, m: Use, r: Use, xs: set<Expr>, ys: set<Expr>)
    requires Gathers(fs, u, m, xs) && Gathers(fs, m, r, ys)
    ensures Gathers(fs, u, r, xs + ys)
  {
    hide WrittenBy, ReadBy, CalledBy, Streams, Entered;
    var a, b := Entered(fs, u, m), Entered(fs, m, r);
    EnteredBoth(fs, u, m, r);
    UnionGathers(xs, a);
    UnionGathers(ys, b);
    UnionGathers(xs, ys);
    UnionGathers(a, b);
    UnionGathers(xs + ys, a + b);
  }

  lemma GathersNothing(fs: map<string, Func>, u: Use)
    ensures Gathers(fs, u, u, {})
  {
    assert Entered(fs, u, u) == {};
  }

  /** One expression alone, its children apart. */
  function Head(u: Use, e: Expr): Use {
    match e
    case Sym(v) => u.(read := u.read + {v})
    case Assign(v, how, _) => u.(read := if how == Set then u.read else u.read + {v}, written := u.written + {v})
    case Crement(v, _, _) => u.(written := u.written + {v})
    case Print(stream, _) => u.(effect := u.effect || stream)
    case _ => u
  }

  lemma HeadGathers(fs: map<string, Func>, u: Use, e: Expr)
    requires !e.Call?
    ensures Gathers(fs, u, Head(u, e), {e})
  {
    var r := Head(u, e);
    assert Entered(fs, u, r) == {};
    assert {e} + {} == {e} && e in {e};
    assert WrittenBy({e}) == (if e.Assign? || e.Crement? then {e.v} else {});
    assert ReadBy({e}) == (if e.Sym? || (e.Assign? && e.how != Set) then {e.v} else {});
    assert CalledBy({e}) == {};
    assert Streams({e}) <==> e.Print? && e.stream;
  }

  // ----- the traversal -----

  lemma {:induction false} UseExprExact(fs: map<string, Func>, u: Use, e: Expr)
    ensures Gathers(fs, u, UseExpr(fs, u, e), Parts(e))
    decreases fs.Keys - u.seen, e, 1
  {
    hide Gathers;
    if !e.Call? { HeadGathers(fs, u, e); }
    var h := Head(u, e);
    match e
    case Bin(_, l, r) => TwoExact(fs, u, e, l, r);
    case Logic(_, l, r) => TwoExact(fs, u, e, l, r);
    case Un(_, x) =>
      UseExprExact(fs, h, x);
      GathersThen(fs, u, h, UseExpr(fs, h, x), {e}, Parts(x));
    case Cond(c, l, r) =>
      var u1 := UseExpr(fs, u, c);
      UseExprExact(fs, u, c);
      UseExprExact(fs, u1, l);
      UseExprExact(fs, UseExpr(fs, u1, l), r);
      GathersThen(fs, u, u, u1, {e}, Parts(c));
      GathersThen(fs, u, u1, UseExpr(fs, u1, l), {e} + Parts(c), Parts(l));
      GathersThen(fs, u, UseExpr(fs, u1, l), UseExpr(fs, u, e), {e} + Parts(c) + Parts(l), Parts(r));
      assert Parts(e) == {e} + Parts(c) + Parts(l) + Parts(r);
    case Assign(_, _, x) =>
      UseExprExact(fs, h, x);
      GathersThen(fs, u, h, UseExpr(fs, h, x), {e}, Parts(x));
    case Call(f, args) => CallExact(fs, u, f, args);
    case Print(_, args) =>
      UseArgsExact(fs, h, args);
      GathersThen(fs, u, h, UseArgs(fs, h, args), {e}, PartsArgs(args));
    case _ => assert Parts(e) == {e};
  }

  lemma {:induction false} TwoExact(fs: map<string, Func>, u: Use, e: Expr, l: Expr, r: Expr)
    requires (e.Bin? && e.l == l && e.r == r) || (e.Logic? && e.l == l && e.r == r)
    ensures Gathers(fs, u, UseExpr(fs, u, e), Parts(e))
    decreases fs.Keys - u.seen, e, 0
  {
    hide Gathers;
    var u1 := UseExpr(fs, u, l);
    HeadGathers(fs, u, e);
    UseExprExact(fs, u, l);
    UseExprExact(fs, u1, r);
    GathersThen(fs, u, u, u1, {e}, Parts(l));
    GathersThen(fs, u, u1, UseExpr(fs, u1, r), {e} + Parts(l), Parts(r));
    assert Parts(e) == {e} + Parts(l) + Parts(r);
  }

  lemma {:induction false} CallExact(fs: map<string, Func>, u: Use, f: string, args: seq<Expr>)
    ensures Gathers(fs, u, UseExpr(fs, u, Call(f, args)), Parts(Call(f, args)))
    decreases fs.Keys - u.seen, Call(f, args), 0
  {
    hide Gathers;
    var e, u1 := Call(f, args), UseArgs(fs, u, args);
    UseArgsExact(fs, u, args);
    if f !in u1.seen && f in fs {
      var u2 := u1.(seen := u1.seen + {f});
      UseStmtExact(fs, u2, fs[f].body);
      EntersOne(fs, u1, u2, UseStmt(fs, u2, fs[f].body), e);
    } else {
      NoBody(fs, u1, UseExpr(fs, u, e), e);
    }
    GathersThen(fs, u, u1, UseExpr(fs, u, e), PartsArgs(args), {e});
    assert Parts(e) == PartsArgs(args) + {e};
  }

  /** A call of a function already seen, or not in the session. */
  lemma NoBody(fs: map<string, Func>, u: Use, r: Use, e: Expr)
    requires e.Call? && (if e.f in u.seen then r == u else e.f !in fs && r == u.(seen := u.seen + {e.f}))
    ensures Gathers(fs, u, r, {e})
  {
    assert Entered(fs, u, r) == {};
    assert {e} + {} == {e} && e in {e};
    assert WrittenBy({e}) == {} && ReadBy({e}) == {} && CalledBy({e}) == {e.f} && !Streams({e});
  }

  /** A call that enters a body, all of which is then gathered. */
  lemma EntersOne(fs: map<string, Func>, u: Use, u2: Use, r: Use, e: Expr)
    requires e.Call? && e.f in fs && e.f !in u.seen && u2 == u.(seen := u.seen + {e.f})
    requires Gathers(fs, u2, r, PartsStmt(fs[e.f].body))
    ensures Gathers(fs, u, r, {e})
  {
    hide WrittenBy, ReadBy, CalledBy, Streams;
    var body, later := PartsStmt(fs[e.f].body), Entered(fs, u2, r);
    BodyEntered(fs, u, u2, r, e.f);
    assert {e} + Entered(fs, u, r) == {e} + (body + later);
    UnionGathers({e}, body + later);
    OneCall(e);
  }

  lemma BodyEntered(fs: map<string, Func>, u: Use, u2: Use, r: Use, f: string)
    requires f in fs && f !in u.seen && u2 == u.(seen := u.seen + {f}) && u2.Within(r)
    ensures Entered(fs, u, r) == PartsStmt(fs[f].body) + Entered(fs, u2, r)
  {
    hide PartsStmt;
    forall x ensures x in Entered(fs, u, r) <==> x in PartsStmt(fs[f].body) + Entered(fs, u2, r) {
      if x in Entered(fs, u, r) {
        var g :| g in r.seen && g !in u.seen && g in fs && x in PartsStmt(fs[g].body);
        assert g != f ==> x in Entered(fs, u2, r);
      }
    }
  }

  lemma OneCall(e: Expr)
    requires e.Call?
    ensures WrittenBy({e}) == {} && ReadBy({e}) == {} && CalledBy({e}) == {e.f} && !Streams({e})
  {
    assert e in {e};
  }

  lemma {:induction false} UseArgsExact(fs: map<string, Func>, u: Use, args: seq<Expr>)
    ensures Gathers(fs, u, UseArgs(fs, u, args), PartsArgs(args))
    decreases fs.Keys - u.seen, args, 0
  {
    hide Gathers;
    if args == [] {
      GathersNothing(fs, u);
    } else {
      var u1 := UseExpr(fs, u, args[0]);
      UseExprExact(fs, u, args[0]);
      UseArgsExact(fs, u1, args[1..]);
      GathersThen(fs, u, u1, UseArgs(fs, u1, args[1..]), Parts(args[0]), PartsArgs(args[1..]));
    }
  }

  lemma {:induction false} UseOptExact(fs: map<string, Func>, u: Use, e: Option<Expr>)
    ensures Gathers(fs, u, UseOpt(fs, u, e), PartsOpt(e))
    decreases fs.Keys - u.seen, e, 2
  {
    if e.Some? { UseExprExact(fs, u, e.value); } else { GathersNothing(fs, u); }
  }

  lemma {:induction false} UseStmtExact(fs: map<string, Func>, u: Use, s: Stmt)
    ensures Gathers(fs, u, UseStmt(fs, u, s), PartsStmt(s))
    decreases fs.Keys - u.seen, s, 1
  {
    hide Gathers;
    match s
    case Do(e) => UseExprExact(fs, u, e);
    case Return(e) => UseExprExact(fs, u, e);
    case Block(body) => UseSeqExact(fs, u, body);
    case If(c, thn, els) =>
      var u1 := UseExpr(fs, u, c);
      var u2 := UseStmt(fs, u1, thn);
      UseExprExact(fs, u, c);
      UseStmtExact(fs, u1, thn);
      GathersThen(fs, u, u1, u2, Parts(c), PartsStmt(thn));
      if els.Some? {
        UseStmtExact(fs, u2, els.value);
        GathersThen(fs, u, u2, UseStmt(fs, u2, els.value), Parts(c) + PartsStmt(thn), PartsStmt(els.value));
      } else {
        assert PartsStmt(s) == Parts(c) + PartsStmt(thn);
      }
    case For(init, c, incr, loop) => ForExact(fs, u, s);
    case _ => GathersNothing(fs, u);
  }

  lemma {:induction false} ForExact(fs: map<string, Func>, u: Use, s: Stmt)
    requires s.For?
    ensures Gathers(fs, u, UseStmt(fs, u, s), PartsStmt(s))
    decreases fs.Keys - u.seen, s, 0
  {
    hide Gathers;
    var For(init, c, incr, loop) := s;
    var u1 := UseOpt(fs, u, init);
    var u2 := UseExpr(fs, u1, c);
    var u3 := UseOpt(fs, u2, incr);
    UseOptExact(fs, u, init);
    UseExprExact(fs, u1, c);
    UseOptExact(fs, u2, incr);
    UseStmtExact(fs, u3, loop);
    GathersThen(fs, u, u1, u2, PartsOpt(init), Parts(c));
    GathersThen(fs, u, u2, u3, PartsOpt(init) + Parts(c), PartsOpt(incr));
    GathersThen(fs, u, u3, UseStmt(fs, u3, loop), PartsOpt(init) + Parts(c) + PartsOpt(incr), PartsStmt(loop));
  }

  lemma {:induction false} UseSeqExact(fs: map<string, Func>, u: Use, ss: seq<Stmt>)
    ensures Gathers(fs, u, UseSeq(fs, u, ss), PartsSeq(ss))
    decreases fs.Keys - u.seen, ss, 0
  {
    hide Gathers;
    if ss == [] {
      GathersNothing(fs, u);
    } else {
      var u1 := UseStmt(fs, u, ss[0]);
      UseStmtExact(fs, u, ss[0]);
      UseSeqExact(fs, u1, ss[1..]);
      GathersThen(fs, u, u1, UseSeq(fs, u1, ss[1..]), PartsStmt(ss[0]), PartsSeq(ss[1..]));
    }
  }

  // ----- a whole session -----

  function PartsProbes(ps: seq<Probe>, conditions: bool): set<Expr>
    decreases ps
  {
    if ps == [] then {}
    else PartsStmt(ps[0].body) + (if conditions then PartsOpt(ps[0].cond) else {}) + PartsProbes(ps[1..], conditions)
  }

  lemma {:induction false} UseProbesExact(fs: map<string, Func>, u: Use, ps: seq<Probe>, conditions: bool)
    ensures Gathers(fs, u, UseProbes(fs, u, ps, conditions), PartsProbes(ps, conditions))
    decreases ps
  {
    hide Gathers, PartsStmt, PartsOpt;
    if ps == [] {
      GathersNothing(fs, u);
    } else {
      var u1 := UseStmt(fs, u, ps[0].body);
      var xs := PartsStmt(ps[0].body);
      UseStmtExact(fs, u, ps[0].body);
      var u2, ys := if conditions then UseOpt(fs, u1, ps[0].cond) else u1, if conditions then PartsOpt(ps[0].cond) else {};
      if conditions { UseOptExact(fs, u1, ps[0].cond); } else { GathersNothing(fs, u1); }
      GathersThen(fs, u, u1, u2, xs, ys);
      UseProbesExact(fs, u2, ps[1..], conditions);
      GathersThen(fs, u, u2, UseProbes(fs, u2, ps[1..], conditions), xs + ys, PartsProbes(ps[1..], conditions));
    }
  }

  /** The session's sub-expressions that the probes reach. */
  function ReachedParts(p: Program, conditions: bool): set<Expr> {
    PartsProbes(p.probes, conditions) + Entered(p.funcs, NO_USE, SessionUse(p, conditions))
  }

  /** The analysis of a session: exactly what is written, read, called and printed by the code that
      the probes reach. */
  lemma SessionUseExact(p: Program, conditions: bool)
    ensures var u, xs := SessionUse(p, conditions), ReachedParts(p, conditions);
      u.written == WrittenBy(xs) && u.read == ReadBy(xs) && u.seen == CalledBy(xs) && (u.effect <==> Streams(xs))
  {
    UseProbesExact(p.funcs, NO_USE, p.probes, conditions);
  }

  // ----- consequences -----

  /** No assignment, `++`, `--` or call, and no print to the stream. */
  predicate Plain(e: Expr) {
    forall x | x in Parts(e) :: !x.Assign? && !x.Crement? && !x.Call? && !(x.Print? && x.stream)
  }

  lemma PlainFree(fs: map<string, Func>, e: Expr)
    requires Plain(e)
    ensures SideEffectFree(UseExpr(fs, NO_USE, e))
  {
    var r := UseExpr(fs, NO_USE, e);
    UseExprExact(fs, NO_USE, e);
    assert CalledBy(Parts(e)) == {};
    assert Entered(fs, NO_USE, r) == {};
    assert Parts(e) + {} == Parts(e);
  }

  /** An expression has no side effect exactly when nothing in it, or in a function it enters,
      assigns or prints to the stream. */
  lemma EffectFreeExactly(fs: map<string, Func>, e: Expr)
    ensures var r := UseExpr(fs, NO_USE, e);
      SideEffectFree(r) <==>
        forall x | x in Parts(e) + Entered(fs, NO_USE, r) :: !x.Assign? && !x.Crement? && !(x.Print? && x.stream)
  {
    hide Parts;
    var r := UseExpr(fs, NO_USE, e);
    var xs := Parts(e) + Entered(fs, NO_USE, r);
    UseExprExact(fs, NO_USE, e);
    forall x | x in xs && (x.Assign? || x.Crement?) ensures WrittenBy(xs) != {} { assert x.v in WrittenBy(xs); }
  }

  /** Pass 4 removes a statement that only evaluates a plain expression, and the folder multiplies
      one by zero. */
  lemma PlainElided(fs: map<string, Func>, focal: set<Var>, e: Expr)
    requires Plain(e)
    ensures PruneStmt(fs, focal, Do(e)) == None
    ensures FoldArith(fs, BinOp.Mul, e, Lit(Num(0))) == Lit(Num(0))
  {
    hide UseExpr, Parts;
    PlainFree(fs, e);
  }
}
