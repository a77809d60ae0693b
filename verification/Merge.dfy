/**
 Merging of duplicate functions: functions whose parameters and body read the same are
 replaced by the first of them, and the calls that the probes can reach are redirected.
 */
module Merge {
  import opened Basics
  import opened Syntax
  import opened Semantics
  import opened Passes
  import opened Replace
  import opened Confined
  import opened Reach

  // ----- the text of a function -----

  // A body is compared by its text, in which a local is just a name.  Own(o, _) gives every
  // local the owner o; two bodies read the same when they agree once all owners are blank.

  function OwnVar(o: string, v: Var): Var { if v.Local? then v.(owner := o) else v }

  function OwnVars(o: string, vs: seq<Var>): (r: seq<Var>)
    ensures |r| == |vs| && forall i | 0 <= i < |vs| :: r[i] == OwnVar(o, vs[i])
  {
    seq(|vs|, i requires 0 <= i < |vs| => OwnVar(o, vs[i]))
  }

  function OwnExpr(o: string, e: Expr): Expr
    decreases e, 1
  {
    match e
    case Lit(_) => e
    case Sym(v) => Sym(OwnVar(o, v))
    case Bin(op, l, r) => Bin(op, OwnExpr(o, l), OwnExpr(o, r))
    case Logic(isOr, l, r) => Logic(isOr, OwnExpr(o, l), OwnExpr(o, r))
    case Un(op, x) => Un(op, OwnExpr(o, x))
    case Cond(c, l, r) => Cond(OwnExpr(o, c), OwnExpr(o, l), OwnExpr(o, r))
    case Assign(v, how, x) => Assign(OwnVar(o, v), how, OwnExpr(o, x))
    case Crement(v, up, post) => Crement(OwnVar(o, v), up, post)
    case Call(f, args) => Call(f, OwnArgs(o, args))
    case Print(stream, args) => Print(stream, OwnArgs(o, args))
  }

  function OwnArgs(o: string, args: seq<Expr>): (r: seq<Expr>)
    ensures |r| == |args|
    decreases args, 0
  {
    if args == [] then [] else [OwnExpr(o, args[0])] + OwnArgs(o, args[1..])
  }

  function OwnOpt(o: string, e: Option<Expr>): Option<Expr> { match e case None => None case Some(x) => Some(OwnExpr(o, x)) }

  function OwnStmt(o: string, s: Stmt): Stmt
    decreases s, 1
  {
    match s
    case Do(e) => Do(OwnExpr(o, e))
    case Return(e) => Return(OwnExpr(o, e))
    case Block(body) => Block(OwnSeq(o, body))
    case If(c, thn, els) => If(OwnExpr(o, c), OwnStmt(o, thn), if els.Some? then Some(OwnStmt(o, els.value)) else None)
    case For(init, c, incr, loop) => For(OwnOpt(o, init), OwnExpr(o, c), OwnOpt(o, incr), OwnStmt(o, loop))
    case _ => s
  }

  function OwnSeq(o: string, ss: seq<Stmt>): (r: seq<Stmt>)
    ensures |r| == |ss|
    decreases ss, 0
  {
    if ss == [] then [] else [OwnStmt(o, ss[0])] + OwnSeq(o, ss[1..])
  }

  /** What is printed of a function, its name taken away: parameters, result, body. */
  datatype Sig = Sig(formals: seq<Var>, init: Val, body: Stmt)

  function SigOf(fd: Func): Sig { Sig(OwnVars("", fd.formals), fd.init, OwnStmt("", fd.body)) }

  // ----- redirected calls -----

  /** The function that calls of f go to afterwards. */
  function Target(rep: map<string, string>, f: string): string { if f in rep then rep[f] else f }

  function RedirectExpr(rep: map<string, string>, e: Expr): Expr
    decreases e, 1
  {
    match e
    case Bin(op, l, r) => Bin(op, RedirectExpr(rep, l), RedirectExpr(rep, r))
    case Logic(isOr, l, r) => Logic(isOr, RedirectExpr(rep, l), RedirectExpr(rep, r))
    case Un(op, x) => Un(op, RedirectExpr(rep, x))
    case Cond(c, l, r) => Cond(RedirectExpr(rep, c), RedirectExpr(rep, l), RedirectExpr(rep, r))
    case Assign(v, how, x) => Assign(v, how, RedirectExpr(rep, x))
    case Call(f, args) => Call(Target(rep, f), RedirectArgs(rep, args))
    case Print(stream, args) => Print(stream, RedirectArgs(rep, args))
    case _ => e
  }

  function RedirectArgs(rep: map<string, string>, args: seq<Expr>): (r: seq<Expr>)
    ensures |r| == |args|
    decreases args, 0
  {
    if args == [] then [] else [RedirectExpr(rep, args[0])] + RedirectArgs(rep, args[1..])
  }

  function RedirectOpt(rep: map<string, string>, e: Option<Expr>): Option<Expr> {
    match e case None => None case Some(x) => Some(RedirectExpr(rep, x))
  }

  function RedirectStmt(rep: map<string, string>, s: Stmt): Stmt
    decreases s, 1
  {
    match s
    case Do(e) => Do(RedirectExpr(rep, e))
    case Return(e) => Return(RedirectExpr(rep, e))
    case Block(body) => Block(RedirectSeq(rep, body))
    case If(c, thn, els) =>
      If(RedirectExpr(rep, c), RedirectStmt(rep, thn), if els.Some? then Some(RedirectStmt(rep, els.value)) else None)
    case For(init, c, incr, loop) =>
      For(RedirectOpt(rep, init), RedirectExpr(rep, c), RedirectOpt(rep, incr), RedirectStmt(rep, loop))
    case _ => s
  }

  function RedirectSeq(rep: map<string, string>, ss: seq<Stmt>): (r: seq<Stmt>)
    ensures |r| == |ss|
    decreases ss, 0
  {
    if ss == [] then [] else [RedirectStmt(rep, ss[0])] + RedirectSeq(rep, ss[1..])
  }

  // ----- the pass -----

  /** The first function, in the order of the map, that reads like `sig`. */
  function First(fs: map<string, Func>, order: seq<string>, sig: Sig): Option<string>
    decreases order
  {
    if order == [] then None
    else if order[0] in fs && SigOf(fs[order[0]]) == sig then Some(order[0])
    else First(fs, order[1..], sig)
  }

  /** The order of the walk names every function once. */
  predicate Enumerated(p: Program) {
    && (forall f | f in p.funcs :: f in p.order)
    && Distinct(p.order)
  }

  predicate Distinct(xs: seq<string>) { forall i, j | 0 <= i < j < |xs| :: xs[i] != xs[j] }

  lemma {:induction false} OnlyDistinct(xs: seq<string>, keep: set<string>)
    requires Distinct(xs)
    ensures Distinct(Only(xs, keep))
    decreases xs
  {
    if xs != [] {
      assert forall x | x in xs[1..] :: x != xs[0];
      OnlyDistinct(xs[1..], keep);
    }
  }

  function Representative(p: Program, f: string): string {
    if f !in p.funcs then f else match First(p.funcs, p.order, SigOf(p.funcs[f])) case None => f case Some(r) => r
  }

  /** Every duplicate with the function that replaces it. */
  function Duplicates(p: Program): map<string, string> {
    map f | f in p.funcs && Representative(p, f) != f :: Representative(p, f)
  }

  predicate HasDuplicates(p: Program) { Duplicates(p) != map[] }

  function MergedFuncs(fs: map<string, Func>, rep: map<string, string>, seen: set<string>): map<string, Func> {
    map f | f in fs && f !in rep :: if f in seen then fs[f].(body := RedirectStmt(rep, fs[f].body)) else fs[f]
  }

  /** Pass 6: duplicates go; calls are redirected in the probes and in every function that the
      traversal enters. */
  function MergeDuplicates(p: Program): Program {
    var rep := Duplicates(p);
    p.(funcs := MergedFuncs(p.funcs, rep, Traversed(p)),
       order := Only(p.order, p.funcs.Keys - rep.Keys),
       probes := seq(|p.probes|, i requires 0 <= i < |p.probes| => p.probes[i].(body := RedirectStmt(rep, p.probes[i].body))))
  }

  lemma {:induction false} FirstFound(fs: map<string, Func>, order: seq<string>, sig: Sig)
    ensures match First(fs, order, sig)
      case Some(r) => r in order && r in fs && SigOf(fs[r]) == sig
      case None => forall f | f in order && f in fs :: SigOf(fs[f]) != sig
    decreases order
  {
    if order != [] && !(order[0] in fs && SigOf(fs[order[0]]) == sig) {
      FirstFound(fs, order[1..], sig);
      assert order == [order[0]] + order[1..];
    }
  }

  /** A representative reads like what it replaces and is not replaced itself. */
  lemma RepresentativeFits(p: Program, f: string)
    requires Enumerated(p) && f in p.funcs
    ensures var r := Target(Duplicates(p), f);
      r == Representative(p, f) && r in p.funcs && r !in Duplicates(p) && SigOf(p.funcs[r]) == SigOf(p.funcs[f])
  {
    FirstFound(p.funcs, p.order, SigOf(p.funcs[f]));
  }

  // ----- scopes -----

  predicate OwnedVar(o: string, dom: set<Var>, v: Var) { v.Local? ==> v.owner == o && v in dom }

  /** The globals, and the locals of o declared in dom. */
  ghost function Scope(o: string, dom: set<Var>): iset<Var> { iset v | OwnedVar(o, dom, v) }

  ghost predicate OwnedStmt(o: string, dom: set<Var>, s: Stmt) { ConfinedStmt(Scope(o, dom), ALL_NAMES, s) }

  /** A function mentions only its own locals and parameters. */
  ghost predicate ScopedFunc(f: string, fd: Func) {
    OwnedStmt(f, FrameVars(fd), fd.body) && forall v | v in fd.formals :: v.Local? && v.owner == f
  }

  ghost predicate ScopedProbe(pr: Probe) { exists o :: OwnedStmt(o, SetOf(pr.locals), pr.body) }

  /** What symbol resolution establishes. */
  ghost predicate Scoped(p: Program) {
    (forall f | f in p.funcs :: ScopedFunc(f, p.funcs[f])) && forall pr | pr in p.probes :: ScopedProbe(pr)
  }

  // ----- when a round leaves no call to a function it erases -----

  /** Where a function that the traversal enters is replaced by one that it does not enter, and
      whose calls it therefore does not redirect, no call is of a duplicate. */
  ghost predicate CleanMerge(p: Program) {
    forall f | f in p.funcs && f in Traversed(p) && Target(Duplicates(p), f) !in Traversed(p) ::
      ConfinedStmt(ALL_VARS, Kept(Duplicates(p)), p.funcs[f].body)
  }

  /** The names that are not duplicates. */
  ghost function Kept(rep: map<string, string>): iset<string> { iset f | f !in rep }

  // ----- owners -----

  lemma {:induction false} OwnOwnExpr(a: string, b: string, e: Expr)
    ensures OwnExpr(a, OwnExpr(b, e)) == OwnExpr(a, e)
    decreases e, 1
  {
    match e
    case Bin(_, l, r) => OwnOwnExpr(a, b, l); OwnOwnExpr(a, b, r);
    case Logic(_, l, r) => OwnOwnExpr(a, b, l); OwnOwnExpr(a, b, r);
    case Un(_, x) => OwnOwnExpr(a, b, x);
    case Cond(c, l, r) => OwnOwnExpr(a, b, c); OwnOwnExpr(a, b, l); OwnOwnExpr(a, b, r);
    case Assign(_, _, x) => OwnOwnExpr(a, b, x);
    case Call(_, args) => OwnOwnArgs(a, b, args);
    case Print(_, args) => OwnOwnArgs(a, b, args);
    case _ =>
  }

  lemma {:induction false} OwnOwnArgs(a: string, b: string, args: seq<Expr>)
    ensures OwnArgs(a, OwnArgs(b, args)) == OwnArgs(a, args)
    decreases args, 0
  {
    if args != [] { OwnOwnExpr(a, b, args[0]); OwnOwnArgs(a, b, args[1..]); }
  }

  lemma {:induction false} OwnOwnStmt(a: string, b: string, s: Stmt)
    ensures OwnStmt(a, OwnStmt(b, s)) == OwnStmt(a, s)
    decreases s, 1
  {
    match s
    case Do(e) => OwnOwnExpr(a, b, e);
    case Return(e) => OwnOwnExpr(a, b, e);
    case Block(body) => OwnOwnSeq(a, b, body);
    case If(c, thn, els) =>
      OwnOwnExpr(a, b, c);
      OwnOwnStmt(a, b, thn);
      if els.Some? { OwnOwnStmt(a, b, els.value); }
    case For(init, c, incr, loop) =>
      if init.Some? { OwnOwnExpr(a, b, init.value); }
      OwnOwnExpr(a, b, c);
      if incr.Some? { OwnOwnExpr(a, b, incr.value); }
      OwnOwnStmt(a, b, loop);
    case _ =>
  }

  lemma {:induction false} OwnOwnSeq(a: string, b: string, ss: seq<Stmt>)
    ensures OwnSeq(a, OwnSeq(b, ss)) == OwnSeq(a, ss)
    decreases ss, 0
  {
    if ss != [] { OwnOwnStmt(a, b, ss[0]); OwnOwnSeq(a, b, ss[1..]); }
  }

  lemma {:induction false} OwnSelfExpr(o: string, dom: set<Var>, names: iset<string>, e: Expr)
    requires ConfinedExpr(Scope(o, dom), names, e)
    ensures OwnExpr(o, e) == e
    decreases e, 1
  {
    match e
    case Bin(_, l, r) => OwnSelfExpr(o, dom, names, l); OwnSelfExpr(o, dom, names, r);
    case Logic(_, l, r) => OwnSelfExpr(o, dom, names, l); OwnSelfExpr(o, dom, names, r);
    case Un(_, x) => OwnSelfExpr(o, dom, names, x);
    case Cond(c, l, r) => OwnSelfExpr(o, dom, names, c); OwnSelfExpr(o, dom, names, l); OwnSelfExpr(o, dom, names, r);
    case Assign(_, _, x) => OwnSelfExpr(o, dom, names, x);
    case Call(_, args) => OwnSelfArgs(o, dom, names, args);
    case Print(_, args) => OwnSelfArgs(o, dom, names, args);
    case _ =>
  }

  lemma {:induction false} OwnSelfArgs(o: string, dom: set<Var>, names: iset<string>, args: seq<Expr>)
    requires ConfinedArgs(Scope(o, dom), names, args)
    ensures OwnArgs(o, args) == args
    decreases args, 0
  {
    if args != [] { OwnSelfExpr(o, dom, names, args[0]); OwnSelfArgs(o, dom, names, args[1..]); }
  }

  lemma {:induction false} OwnSelfStmt(o: string, dom: set<Var>, names: iset<string>, s: Stmt)
    requires ConfinedStmt(Scope(o, dom), names, s)
    ensures OwnStmt(o, s) == s
    decreases s, 1
  {
    match s
    case Do(e) => OwnSelfExpr(o, dom, names, e);
    case Return(e) => OwnSelfExpr(o, dom, names, e);
    case Block(body) => OwnSelfSeq(o, dom, names, body);
    case If(c, thn, els) =>
      OwnSelfExpr(o, dom, names, c);
      OwnSelfStmt(o, dom, names, thn);
      if els.Some? { OwnSelfStmt(o, dom, names, els.value); }
    case For(init, c, incr, loop) =>
      if init.Some? { OwnSelfExpr(o, dom, names, init.value); }
      OwnSelfExpr(o, dom, names, c);
      if incr.Some? { OwnSelfExpr(o, dom, names, incr.value); }
      OwnSelfStmt(o, dom, names, loop);
    case _ =>
  }

  lemma {:induction false} OwnSelfSeq(o: string, dom: set<Var>, names: iset<string>, ss: seq<Stmt>)
    requires ConfinedSeq(Scope(o, dom), names, ss)
    ensures OwnSeq(o, ss) == ss
    decreases ss, 0
  {
    if ss != [] { OwnSelfStmt(o, dom, names, ss[0]); OwnSelfSeq(o, dom, names, ss[1..]); }
  }

  /** Locals declared under both owners. */
  function Common(r: string, fvars: set<Var>, rvars: set<Var>): set<Var> { set v | v in fvars && OwnVar(r, v) in rvars }

  /** The variables that are in vars once they have owner b. */
  ghost function OwnedInto(b: string, vars: iset<Var>): iset<Var> { iset v | OwnVar(b, v) in vars }

  lemma {:induction false} OwnConfinedExpr(b: string, vars: iset<Var>, names: iset<string>, e: Expr)
    ensures ConfinedExpr(vars, names, OwnExpr(b, e)) <==> ConfinedExpr(OwnedInto(b, vars), names, e)
    decreases e, 1
  {
    match e
    case Bin(_, l, r) => OwnConfinedExpr(b, vars, names, l); OwnConfinedExpr(b, vars, names, r);
    case Logic(_, l, r) => OwnConfinedExpr(b, vars, names, l); OwnConfinedExpr(b, vars, names, r);
    case Un(_, x) => OwnConfinedExpr(b, vars, names, x);
    case Cond(c, l, r) => OwnConfinedExpr(b, vars, names, c); OwnConfinedExpr(b, vars, names, l); OwnConfinedExpr(b, vars, names, r);
    case Assign(_, _, x) => OwnConfinedExpr(b, vars, names, x);
    case Call(_, args) => OwnConfinedArgs(b, vars, names, args);
    case Print(_, args) => OwnConfinedArgs(b, vars, names, args);
    case _ =>
  }

  lemma {:induction false} OwnConfinedArgs(b: string, vars: iset<Var>, names: iset<string>, args: seq<Expr>)
    ensures ConfinedArgs(vars, names, OwnArgs(b, args)) <==> ConfinedArgs(OwnedInto(b, vars), names, args)
    decreases args, 0
  {
    if args != [] { OwnConfinedExpr(b, vars, names, args[0]); OwnConfinedArgs(b, vars, names, args[1..]); }
  }

  lemma {:induction false} OwnConfinedStmt(b: string, vars: iset<Var>, names: iset<string>, s: Stmt)
    ensures ConfinedStmt(vars, names, OwnStmt(b, s)) <==> ConfinedStmt(OwnedInto(b, vars), names, s)
    decreases s, 1
  {
    match s
    case Do(e) => OwnConfinedExpr(b, vars, names, e);
    case Return(e) => OwnConfinedExpr(b, vars, names, e);
    case Block(body) => OwnConfinedSeq(b, vars, names, body);
    case If(c, thn, els) =>
      OwnConfinedExpr(b, vars, names, c);
      OwnConfinedStmt(b, vars, names, thn);
      if els.Some? { OwnConfinedStmt(b, vars, names, els.value); }
    case For(init, c, incr, loop) =>
      if init.Some? { OwnConfinedExpr(b, vars, names, init.value); }
      OwnConfinedExpr(b, vars, names, c);
      if incr.Some? { OwnConfinedExpr(b, vars, names, incr.value); }
      OwnConfinedStmt(b, vars, names, loop);
    case _ =>
  }

  lemma {:induction false} OwnConfinedSeq(b: string, vars: iset<Var>, names: iset<string>, ss: seq<Stmt>)
    ensures ConfinedSeq(vars, names, OwnSeq(b, ss)) <==> ConfinedSeq(OwnedInto(b, vars), names, ss)
    decreases ss, 0
  {
    if ss != [] { OwnConfinedStmt(b, vars, names, ss[0]); OwnConfinedSeq(b, vars, names, ss[1..]); }
  }

  lemma CommonStmt(f: string, r: string, fvars: set<Var>, rvars: set<Var>, names: iset<string>, s: Stmt)
    requires ConfinedStmt(Scope(f, fvars), names, s) && OwnedStmt(r, rvars, OwnStmt(r, s))
    ensures ConfinedStmt(Scope(f, Common(r, fvars, rvars)), names, s)
  {
    OwnConfinedStmt(r, Scope(r, rvars), ALL_NAMES, s);
    MeetStmt(Scope(f, fvars), names, OwnedInto(r, Scope(r, rvars)), ALL_NAMES, Scope(f, Common(r, fvars, rvars)), names, s);
  }

  // ----- redirection -----

  /** The functions whose calls go to a function in names. */
  ghost function GoTo(rep: map<string, string>, names: iset<string>): iset<string> { iset f | Target(rep, f) in names }

  lemma {:induction false} RedirectConfinedExpr(rep: map<string, string>, vars: iset<Var>, names: iset<string>, e: Expr)
    ensures ConfinedExpr(vars, names, RedirectExpr(rep, e)) <==> ConfinedExpr(vars, GoTo(rep, names), e)
    decreases e, 1
  {
    match e
    case Bin(_, l, r) => RedirectConfinedExpr(rep, vars, names, l); RedirectConfinedExpr(rep, vars, names, r);
    case Logic(_, l, r) => RedirectConfinedExpr(rep, vars, names, l); RedirectConfinedExpr(rep, vars, names, r);
    case Un(_, x) => RedirectConfinedExpr(rep, vars, names, x);
    case Cond(c, l, r) => RedirectConfinedExpr(rep, vars, names, c); RedirectConfinedExpr(rep, vars, names, l); RedirectConfinedExpr(rep, vars, names, r);
    case Assign(_, _, x) => RedirectConfinedExpr(rep, vars, names, x);
    case Call(_, args) => RedirectConfinedArgs(rep, vars, names, args);
    case Print(_, args) => RedirectConfinedArgs(rep, vars, names, args);
    case _ =>
  }

  lemma {:induction false} RedirectConfinedArgs(rep: map<string, string>, vars: iset<Var>, names: iset<string>, args: seq<Expr>)
    ensures ConfinedArgs(vars, names, RedirectArgs(rep, args)) <==> ConfinedArgs(vars, GoTo(rep, names), args)
    decreases args, 0
  {
    if args != [] { RedirectConfinedExpr(rep, vars, names, args[0]); RedirectConfinedArgs(rep, vars, names, args[1..]); }
  }

  lemma {:induction false} RedirectConfinedStmt(rep: map<string, string>, vars: iset<Var>, names: iset<string>, s: Stmt)
    ensures ConfinedStmt(vars, names, RedirectStmt(rep, s)) <==> ConfinedStmt(vars, GoTo(rep, names), s)
    decreases s, 1
  {
    match s
    case Do(e) => RedirectConfinedExpr(rep, vars, names, e);
    case Return(e) => RedirectConfinedExpr(rep, vars, names, e);
    case Block(body) => RedirectConfinedSeq(rep, vars, names, body);
    case If(c, thn, els) =>
      RedirectConfinedExpr(rep, vars, names, c);
      RedirectConfinedStmt(rep, vars, names, thn);
      if els.Some? { RedirectConfinedStmt(rep, vars, names, els.value); }
    case For(init, c, incr, loop) =>
      if init.Some? { RedirectConfinedExpr(rep, vars, names, init.value); }
      RedirectConfinedExpr(rep, vars, names, c);
      if incr.Some? { RedirectConfinedExpr(rep, vars, names, incr.value); }
      RedirectConfinedStmt(rep, vars, names, loop);
    case _ =>
  }

  lemma {:induction false} RedirectConfinedSeq(rep: map<string, string>, vars: iset<Var>, names: iset<string>, ss: seq<Stmt>)
    ensures ConfinedSeq(vars, names, RedirectSeq(rep, ss)) <==> ConfinedSeq(vars, GoTo(rep, names), ss)
    decreases ss, 0
  {
    if ss != [] { RedirectConfinedStmt(rep, vars, names, ss[0]); RedirectConfinedSeq(rep, vars, names, ss[1..]); }
  }

  /** Code that calls no duplicate is not changed. */
  lemma {:induction false} RedirectUnusedExpr(rep: map<string, string>, vars: iset<Var>, names: iset<string>, e: Expr)
    requires names <= Kept(rep) && ConfinedExpr(vars, names, e)
    ensures RedirectExpr(rep, e) == e
    decreases e, 1
  {
    match e
    case Bin(_, l, r) => RedirectUnusedExpr(rep, vars, names, l); RedirectUnusedExpr(rep, vars, names, r);
    case Logic(_, l, r) => RedirectUnusedExpr(rep, vars, names, l); RedirectUnusedExpr(rep, vars, names, r);
    case Un(_, x) => RedirectUnusedExpr(rep, vars, names, x);
    case Cond(c, l, r) => RedirectUnusedExpr(rep, vars, names, c); RedirectUnusedExpr(rep, vars, names, l); RedirectUnusedExpr(rep, vars, names, r);
    case Assign(_, _, x) => RedirectUnusedExpr(rep, vars, names, x);
    case Call(_, args) => RedirectUnusedArgs(rep, vars, names, args);
    case Print(_, args) => RedirectUnusedArgs(rep, vars, names, args);
    case _ =>
  }

  lemma {:induction false} RedirectUnusedArgs(rep: map<string, string>, vars: iset<Var>, names: iset<string>, args: seq<Expr>)
    requires names <= Kept(rep) && ConfinedArgs(vars, names, args)
    ensures RedirectArgs(rep, args) == args
    decreases args, 0
  {
    if args != [] { RedirectUnusedExpr(rep, vars, names, args[0]); RedirectUnusedArgs(rep, vars, names, args[1..]); }
  }

  lemma {:induction false} RedirectUnusedStmt(rep: map<string, string>, vars: iset<Var>, names: iset<string>, s: Stmt)
    requires names <= Kept(rep) && ConfinedStmt(vars, names, s)
    ensures RedirectStmt(rep, s) == s
    decreases s, 1
  {
    match s
    case Do(e) => RedirectUnusedExpr(rep, vars, names, e);
    case Return(e) => RedirectUnusedExpr(rep, vars, names, e);
    case Block(body) => RedirectUnusedSeq(rep, vars, names, body);
    case If(c, thn, els) =>
      RedirectUnusedExpr(rep, vars, names, c);
      RedirectUnusedStmt(rep, vars, names, thn);
      if els.Some? { RedirectUnusedStmt(rep, vars, names, els.value); }
    case For(init, c, incr, loop) =>
      if init.Some? { RedirectUnusedExpr(rep, vars, names, init.value); }
      RedirectUnusedExpr(rep, vars, names, c);
      if incr.Some? { RedirectUnusedExpr(rep, vars, names, incr.value); }
      RedirectUnusedStmt(rep, vars, names, loop);
    case _ =>
  }

  lemma {:induction false} RedirectUnusedSeq(rep: map<string, string>, vars: iset<Var>, names: iset<string>, ss: seq<Stmt>)
    requires names <= Kept(rep) && ConfinedSeq(vars, names, ss)
    ensures RedirectSeq(rep, ss) == ss
    decreases ss, 0
  {
    if ss != [] { RedirectUnusedStmt(rep, vars, names, ss[0]); RedirectUnusedSeq(rep, vars, names, ss[1..]); }
  }
}
