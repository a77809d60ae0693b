/**
 A pass that resolves nothing leaves nothing to resolve: whatever one place knows of a type,
 the places connected with it know too.  The exceptions are contradictions in the script; if
 it has a typing there are none.
 */
module TypeClosed {
  import opened Basics
  import opened Types
  import opened TypeInvariant
  import opened TypeKeeps
  import opened TypeCheck
  import opened TypePass
  import opened TypeLoop
  import opened TypePrincipal

  // ----- closed types -----

  /** A use of type a and its declaration of type b are both known or both not, and known where t is
      expected; unless, when contradictions are allowed for, t differs from one of them. */
  predicate Linked(a: Type, b: Type, t: Type, strict: bool) {
    || (!strict && (Differ(a, t) || Differ(b, t)))
    || ((a.Some? <==> b.Some?) && (t.Some? ==> a.Some?))
  }

  /** An argument passes its type on to the formal, an index to the key, a result to the function. */
  predicate Handed(at: Type, formal: Type, strict: bool) { at.Some? && (strict || at != Some(Stats)) ==> formal.Some? }

  /** The types known in an expression of which type t is expected are closed. */
  ghost predicate Closed(d: Decls, types: Types, path: Path, e: Expr, t: Type, strict: bool)
    decreases e, 1
  {
    var ty := Get(types, Node(path));
    match e
    case Num => true
    case Text => true
    case Sym(v) => Linked(ty, Get(types, Decl(v)), t, strict)
    case Unary(x) => ty.Some? && Closed(d, types, path + [0], x, Some(Long), strict)
    case Stat(x) => ty.Some? && Closed(d, types, path + [0], x, Some(Stats), strict)
    case In(x) =>
      && (ty.Some? || (!strict && (t == Some(Str) || t == Some(Stats))))
      && Closed(d, types, path + [0], x, None, strict)
    case Binary(op, l, r) =>
      || (!strict && Plain(op) && StatsBelow(types, path, l, r))
      || (&& ty.Some?
          && Closed(d, types, path + [0], l, Some(LeftTy(op)), strict)
          && Closed(d, types, path + [1], r, Some(RightTy(op)), strict))
    case Compare(l, r) =>
      && ty.Some?
      && Closed(d, types, path + [0], l, TypeOf(types, path + [1], r), strict)
      && Closed(d, types, path + [1], r, TypeOf(types, path + [0], l), strict)
    case Cond(c, a, b) =>
      var sub := Passed(types, path, t);
      && Closed(d, types, path + [0], c, Some(Long), strict)
      && Closed(d, types, path + [1], a, sub, strict) && Closed(d, types, path + [2], b, sub, strict)
      && (sub.Some? || TypeOf(types, path + [1], a).Some? || TypeOf(types, path + [2], b).Some? ==> ty.Some?)
    case Set(l, r) =>
      var sub := Passed(types, path, t);
      || (!strict && StatsBelow(types, path, l, r))
      || (&& Closed(d, types, path + [0], l, Either(sub, TypeOf(types, path + [1], r)), strict)
          && Closed(d, types, path + [1], r, Either(sub, TypeOf(types, path + [0], l)), strict)
          && (sub.Some? || TypeOf(types, path + [0], l).Some? ==> ty.Some?))
    case Index(a, es) =>
      && Linked(ty, Get(types, Decl(a)), t, strict)
      && (|es| == |KeysOf(d, a)| ==> ClosedArgs(d, types, path, 0, es, KeysOf(d, a), strict))
    case Call(f, es) =>
      && Linked(ty, Get(types, Fn(f)), t, strict)
      && (|es| == |FormalsOf(d, f)| ==> ClosedArgs(d, types, path, 0, es, FormalsOf(d, f), strict))
    case Print(_, es) => (ty.Some? <==> AllKnown(types, path, 0, es)) && ClosedPrinted(d, types, path, 0, es, strict)
  }

  predicate StatsBelow(types: Types, path: Path, l: Expr, r: Expr) {
    TypeOf(types, path + [0], l) == Some(Stats) || TypeOf(types, path + [1], r) == Some(Stats)
  }

  ghost predicate ClosedArgs(d: Decls, types: Types, path: Path, k: nat, es: seq<Expr>, formals: seq<Slot>, strict: bool)
    requires |es| == |formals|
    decreases es, 0
  {
    es == [] ||
    (&& Closed(d, types, path + [k], es[0], Get(types, formals[0]), strict)
     && Handed(TypeOf(types, path + [k], es[0]), Get(types, formals[0]), strict)
     && ClosedArgs(d, types, path, k + 1, es[1..], formals[1..], strict))
  }

  ghost predicate ClosedPrinted(d: Decls, types: Types, path: Path, k: nat, es: seq<Expr>, strict: bool)
    decreases es, 0
  {
    es == [] || (Closed(d, types, path + [k], es[0], None, strict) && ClosedPrinted(d, types, path, k + 1, es[1..], strict))
  }

  ghost predicate ClosedItem(d: Decls, types: Types, x: Item, strict: bool) {
    match x
    case Expect(p, e, t) => Closed(d, types, p, e, t, strict)
    case Indexes(p, arr, es) => |es| == |KeysOf(d, arr)| ==> ClosedArgs(d, types, p, 0, es, KeysOf(d, arr), strict)
    case Returned(p, f, e) =>
      && Closed(d, types, p, e, Get(types, Fn(f)), strict)
      && Handed(TypeOf(types, p, e), Get(types, Fn(f)), strict)
  }

  ghost predicate ClosedProgram(p: Program, types: Types, strict: bool) {
    forall x | x in ProgramItems(0, p.bodies) :: ClosedItem(p.d, types, x, strict)
  }

  /** Where a type is expected it is known, but for a print of something unknown. */
  lemma KnownWhereExpected(d: Decls, types: Types, path: Path, e: Expr, t: Type)
    requires Closed(d, types, path, e, t, true) && t.Some?
    ensures TypeOf(types, path, e).Some? || (e.Print? && !AllKnown(types, path, 0, e.es))
  {
    hide ClosedArgs, ClosedPrinted;
  }

  // ----- visits that resolve nothing -----

  /** The context of a visit: a typing that agrees with what is known. */
  ghost predicate Context(d: Decls, w: Types, types: Types, path: Path, e: Expr, t: Type, strict: bool) {
    strict ==> Typed(d, w, path, e) && Meets(w, path, e, t) && Sub(types, w)
  }

  lemma Still(u: set<Slot>, a: St, b: St, path: Path, lo: int)
    requires Grow(u, a, b, path, lo) && b.newly <= a.newly
    ensures b.types == a.types && b.newly == a.newly
  {
  }

  /** Two operands whose visits together resolve nothing. */
  lemma PairStill(u: set<Slot>, d: Decls, path: Path, k: nat, l: Expr, tl: Type, r: Expr, tr: Type, st: St)
    requires Shape(u, d, st.types, path + [k], l) && Shape(u, d, st.types, path + [k + 1], r)
    requires Visit(d, path + [k + 1], r, tr, Visit(d, path + [k], l, tl, st)).newly <= st.newly
    ensures var st1 := Visit(d, path + [k], l, tl, st);
      var st2 := Visit(d, path + [k + 1], r, tr, st1);
      st1.types == st2.types == st.types && st1.newly == st2.newly == st.newly
  {
    hide Visit, Shape, SameUnder, Grow;
    ChildKeeps(u, d, path, k, l, tl, st);
    var st1 := Visit(d, path + [k], l, tl, st);
    ShapeMono(u, d, st.types, st1.types, path + [k + 1], r);
    ChildKeeps(u, d, path, k + 1, r, tr, st1);
    var st2 := Visit(d, path + [k + 1], r, tr, st1);
    Counters(u, st, st1, path, 0);
    Counters(u, st1, st2, path, 0);
    Still(u, st, st1, path, 0);
    Still(u, st1, st2, path, 0);
  }

  lemma Resolve2Exactly(st: St, re: Slot, te: Slot, t: Type, accept: bool)
    requires re != te
    ensures Resolve2(st, re, te, t, accept).newly == st.newly <==> Linked(Get(st.types, re), Get(st.types, te), t, false)
  {
  }

  /** With a typing around nothing contradicts. */
  lemma LinkedStrictly(types: Types, w: Types, re: Slot, te: Slot, t: Type)
    requires Linked(Get(types, re), Get(types, te), t, false) && Sub(types, w)
    requires Get(w, re) == Get(w, te) && Below(t, Get(w, re))
    ensures Linked(Get(types, re), Get(types, te), t, true)
  {
  }

  lemma {:induction false} VisitClosed(u: set<Slot>, d: Decls, w: Types, path: Path, e: Expr, t: Type, st: St, strict: bool)
    requires Shape(u, d, st.types, path, e) && Context(d, w, st.types, path, e, t, strict)
    requires Visit(d, path, e, t, st).newly <= st.newly
    ensures Closed(d, st.types, path, e, t, strict)
    decreases e, 2
  {
    hide VisitBinary, VisitCompare, VisitCond, VisitSet, Resolve2, VisitArgs, VisitPrinted, AllResolved, Linked, Grow, Sub;
    match e
    case Num =>
    case Text =>
    case Sym(v) => SymClosed(u, d, w, path, v, t, st, strict);
    case Unary(_) => OneChildClosed(u, d, w, path, e, t, st, strict);
    case In(_) => OneChildClosed(u, d, w, path, e, t, st, strict);
    case Stat(_) => OneChildClosed(u, d, w, path, e, t, st, strict);
    case Binary(_, _, _) => BinaryClosed(u, d, w, path, e, t, st, strict);
    case Compare(_, _) => CompareClosed(u, d, w, path, e, t, st, strict);
    case Cond(_, _, _) => CondClosed(u, d, w, path, e, t, st, strict);
    case Set(_, _) => SetClosed(u, d, w, path, e, t, st, strict);
    case Index(_, _) => CallClosed(u, d, w, path, e, t, st, strict);
    case Call(_, _) => CallClosed(u, d, w, path, e, t, st, strict);
    case Print(_, _) => PrintClosed(u, d, w, path, e, t, st, strict);
  }

  lemma SymClosed(u: set<Slot>, d: Decls, w: Types, path: Path, v: string, t: Type, st: St, strict: bool)
    requires Shape(u, d, st.types, path, Sym(v)) && Context(d, w, st.types, path, Sym(v), t, strict)
    requires Visit(d, path, Sym(v), t, st).newly <= st.newly
    ensures Closed(d, st.types, path, Sym(v), t, strict)
  {
    hide Sub, Touch;
    TouchResolve2(u, st, Decl(v), t, false, path);
    LinkedByResolve2(u, w, path, Decl(v), t, false, st, strict);
  }

  lemma LinkedByResolve2(u: set<Slot>, w: Types, path: Path, te: Slot, t: Type, accept: bool, st: St, strict: bool)
    requires Node(path) in u && te in u && !te.Node? && Resolve2(st, Node(path), te, t, accept).newly <= st.newly
    requires strict ==> Sub(st.types, w) && Get(w, Node(path)) == Get(w, te) && Below(t, Get(w, Node(path)))
    ensures Linked(Get(st.types, Node(path)), Get(st.types, te), t, strict)
    ensures Resolve2(st, Node(path), te, t, accept).types == st.types && Resolve2(st, Node(path), te, t, accept).newly == st.newly
  {
    Resolve2Exactly(st, Node(path), te, t, accept);
    if strict { LinkedStrictly(st.types, w, Node(path), te, t); }
  }

  lemma {:induction false} OneChildClosed(u: set<Slot>, d: Decls, w: Types, path: Path, e: Expr, t: Type, st: St, strict: bool)
    requires e.Unary? || e.In? || e.Stat?
    requires Shape(u, d, st.types, path, e) && Context(d, w, st.types, path, e, t, strict)
    requires Visit(d, path, e, t, st).newly <= st.newly
    ensures Closed(d, st.types, path, e, t, strict)
    decreases e, 1
  {
    hide Grow, SameUnder, Sub;
    Cases(t);
    var n0 := if e.Unary? then Count(t == Some(Stats) || t == Some(Str)) else 0;
    var tx := if e.Unary? then Some(Long) else if e.In? then None else Some(Stats);
    var st0 := Complain(st, n0);
    assert st0.types == st.types && st0.newly == st.newly;
    ChildKeeps(u, d, path, 0, e.x, tx, st0);
    var st1 := Visit(d, path + [0], e.x, tx, st0);
    Counters(u, st0, st1, path, 0);
    Still(u, st0, st1, path, 0);
    VisitClosed(u, d, w, path + [0], e.x, tx, st0, strict);
  }

  lemma {:induction false} BinaryClosed(u: set<Slot>, d: Decls, w: Types, path: Path, e: Expr, t: Type, st: St, strict: bool)
    requires e.Binary?
    requires Shape(u, d, st.types, path, e) && Context(d, w, st.types, path, e, t, strict)
    requires VisitBinary(d, path, e, t, st).newly <= st.newly
    ensures Closed(d, st.types, path, e, t, strict)
    decreases e, 1
  {
    hide Visit, Grow, SameUnder, Sub, Rejects, Plain;
    var Binary(op, l, r) := e;
    var tl, tr := Some(LeftTy(op)), Some(RightTy(op));
    var st0 := Complain(st, Rejects(op, t));
    assert st0.types == st.types && st0.newly == st.newly;
    if strict { NoStats(d, w, st.types, path, e); }
    if !(Plain(op) && StatsBelow(st.types, path, l, r)) {
      var st1 := Visit(d, path + [0], l, tl, st0);
      PairStill(u, d, path, 0, l, tl, r, tr, st0);
      VisitClosed(u, d, w, path + [0], l, tl, st0, strict);
      VisitClosed(u, d, w, path + [1], r, tr, st1, strict);
    }
  }

  /** Where statistics are refused, a typing gives none. */
  lemma NoStats(d: Decls, w: Types, types: Types, path: Path, e: Expr)
    requires Typed(d, w, path, e) && Sub(types, w)
    ensures e.Binary? && Plain(e.op) ==> !StatsBelow(types, path, e.l, e.r)
    ensures e.Set? ==> !StatsBelow(types, path, e.l, e.r)
  {
    if e.Binary? || e.Set? {
      SubType(types, w, path + [0], e.l);
      SubType(types, w, path + [1], e.r);
    }
  }

  lemma {:induction false} CompareClosed(u: set<Slot>, d: Decls, w: Types, path: Path, e: Expr, t: Type, st: St, strict: bool)
    requires e.Compare?
    requires Shape(u, d, st.types, path, e) && Context(d, w, st.types, path, e, t, strict)
    requires VisitCompare(d, path, e, t, st).newly <= st.newly
    ensures Closed(d, st.types, path, e, t, strict)
    decreases e, 1
  {
    hide Visit, Grow, SameUnder, Sub;
    var Compare(l, r) := e;
    var st0 := Complain(st, Count(t == Some(Stats) || t == Some(Str)));
    assert st0.types == st.types && st0.newly == st.newly;
    var tl := TypeOf(st.types, path + [1], r);
    var st1 := Visit(d, path + [0], l, tl, st0);
    var tr := TypeOf(st1.types, path + [0], l);
    PairStill(u, d, path, 0, l, tl, r, tr, st0);
    if strict {
      SubType(st.types, w, path + [0], l);
      SubType(st.types, w, path + [1], r);
    }
    VisitClosed(u, d, w, path + [0], l, tl, st0, strict);
    VisitClosed(u, d, w, path + [1], r, tr, st1, strict);
  }

  lemma JoinStill(st: St, me: Slot, sub: Type, a: Type, b: Type)
    requires Join(st, me, sub, a, b).newly <= st.newly && (sub.None? ==> Get(st.types, me).None?)
    ensures sub.Some? || a.Some? || b.Some? ==> Get(st.types, me).Some?
  {
  }

  lemma {:induction false} CondClosed(u: set<Slot>, d: Decls, w: Types, path: Path, e: Expr, t: Type, st: St, strict: bool)
    requires e.Cond?
    requires Shape(u, d, st.types, path, e) && Context(d, w, st.types, path, e, t, strict)
    requires VisitCond(d, path, e, t, st).newly <= st.newly
    ensures Closed(d, st.types, path, e, t, strict)
    decreases e, 1
  {
    hide Visit, Join, Sub, Grow, SameUnder, Shape;
    var Cond(c, a, b) := e;
    var me := Node(path);
    CondShapes(u, d, st.types, path, e);
    var st1 := Visit(d, path + [0], c, Some(Long), st);
    ChildKeeps(u, d, path, 0, c, Some(Long), st);
    NodeKept(u, st, st1, path);
    var sub := Passed(st.types, path, t);
    var st2 := Visit(d, path + [1], a, sub, st1);
    var st3 := Visit(d, path + [2], b, sub, st2);
    JoinCounters(st3, me, sub, TypeOf(st3.types, path + [1], a), TypeOf(st3.types, path + [2], b));
    ShapeMono(u, d, st.types, st1.types, path + [1], a);
    ShapeMono(u, d, st.types, st1.types, path + [2], b);
    PairKeeps(u, d, path, 1, e, a, sub, b, sub, st1);
    Counters(u, st, st1, path, 0);
    Counters(u, st1, st3, path, 0);
    Still(u, st, st1, path, 0);
    PairStill(u, d, path, 1, a, sub, b, sub, st1);
    JoinStill(st3, me, sub, TypeOf(st3.types, path + [1], a), TypeOf(st3.types, path + [2], b));
    if strict { SubType(st.types, w, path, e); }
    VisitClosed(u, d, w, path + [0], c, Some(Long), st, strict);
    VisitClosed(u, d, w, path + [1], a, sub, st1, strict);
    VisitClosed(u, d, w, path + [2], b, sub, st2, strict);
  }

  lemma CondShapes(u: set<Slot>, d: Decls, types: Types, path: Path, e: Expr)
    requires e.Cond? && Shape(u, d, types, path, e)
    ensures Shape(u, d, types, path + [0], e.c) && Shape(u, d, types, path + [1], e.a) && Shape(u, d, types, path + [2], e.b)
  {
  }

  lemma AssignedStill(st: St, me: Slot, sub: Type, l: Type, r: Type)
    ensures st.newly <= Assigned(st, me, sub, l, r).newly
    ensures Assigned(st, me, sub, l, r).newly <= st.newly ==> (sub.Some? || l.Some? ==> Get(st.types, me).Some?)
  {
  }

  lemma {:induction false} SetClosed(u: set<Slot>, d: Decls, w: Types, path: Path, e: Expr, t: Type, st: St, strict: bool)
    requires e.Set?
    requires Shape(u, d, st.types, path, e) && Context(d, w, st.types, path, e, t, strict)
    requires VisitSet(d, path, e, t, st).newly <= st.newly
    ensures Closed(d, st.types, path, e, t, strict)
    decreases e, 1
  {
    hide Visit, Grow, SameUnder, Sub, Assigned;
    var Set(l, r) := e;
    var st0 := Complain(st, Count(t == Some(Stats)));
    assert st0.types == st.types && st0.newly == st.newly;
    if strict { NoStats(d, w, st.types, path, e); }
    if !StatsBelow(st.types, path, l, r) {
      var sub := Passed(st.types, path, t);
      var tl := Either(sub, TypeOf(st.types, path + [1], r));
      var st1 := Visit(d, path + [0], l, tl, st0);
      var tr := Either(sub, TypeOf(st1.types, path + [0], l));
      var st2 := Visit(d, path + [1], r, tr, st1);
      AssignedStill(st2, Node(path), sub, TypeOf(st2.types, path + [0], l), TypeOf(st2.types, path + [1], r));
      PairStill(u, d, path, 0, l, tl, r, tr, st0);
      if strict {
        SubType(st.types, w, path, e);
        SubType(st.types, w, path + [0], l);
        SubType(st.types, w, path + [1], r);
      }
      VisitClosed(u, d, w, path + [0], l, tl, st0, strict);
      VisitClosed(u, d, w, path + [1], r, tr, st1, strict);
    }
  }

  lemma {:induction false} CallClosed(u: set<Slot>, d: Decls, w: Types, path: Path, e: Expr, t: Type, st: St, strict: bool)
    requires e.Call? || e.Index?
    requires Shape(u, d, st.types, path, e) && Context(d, w, st.types, path, e, t, strict)
    requires Visit(d, path, e, t, st).newly <= st.newly
    ensures Closed(d, st.types, path, e, t, strict)
    decreases e, 1
  {
    hide Grow, SameUnder, Sub, VisitArgs, Touch, Resolve2, Linked;
    var te := if e.Call? then Fn(e.f) else Decl(e.arr);
    var st1 := Resolve2(st, Node(path), te, t, e.Call?);
    TouchResolve2(u, st, te, t, e.Call?, path);
    TouchSame(u, st, st1, path);
    TouchGrow(u, st, st1, path);
    Counters(u, st, st1, path, -1);
    var st2 := Complain(st1, if e.Call? then Count(Get(st1.types, Node(path)) == Some(Stats)) else 0);
    assert st2.types == st1.types && st2.newly == st1.newly;
    var formals := if e.Call? then FormalsOf(d, e.f) else KeysOf(d, e.arr);
    if |e.es| == |formals| {
      ShapeAllMono(u, d, st.types, st2.types, path, 0, e.es);
      ArgsKeep(u, d, path, 0, e.es, formals, st2);
      Counters(u, st2, VisitArgs(d, path, 0, e.es, formals, st2), path, 0);
      LinkedByResolve2(u, w, path, te, t, e.Call?, st, strict);
      ArgsClosed(u, d, w, path, 0, e.es, formals, st2, strict);
    } else {
      LinkedByResolve2(u, w, path, te, t, e.Call?, st, strict);
    }
  }

  lemma HandedOn(st: St, at: Type, formal: Slot)
    requires MatchFormal(st, at, formal).newly <= st.newly
    ensures Handed(at, Get(st.types, formal), false)
  {
    Cases(at);
  }

  lemma {:induction false} ArgsClosed(u: set<Slot>, d: Decls, w: Types, path: Path, k: nat, es: seq<Expr>, formals: seq<Slot>, st: St, strict: bool)
    requires |es| == |formals| && Declared(u, formals) && ShapeAll(u, d, st.types, path, k, es)
    requires strict ==> TypedArgs(d, w, path, k, es, formals) && Sub(st.types, w)
    requires VisitArgs(d, path, k, es, formals, st).newly <= st.newly
    ensures ClosedArgs(d, st.types, path, k, es, formals, strict)
    decreases es, 0
  {
    hide SameUnder, Shape, Visit, Typed, Closed, Grow, MatchFormal;
    if es != [] {
      var t := Get(st.types, formals[0]);
      ChildKeeps(u, d, path, k, es[0], t, st);
      var st1 := Visit(d, path + [k], es[0], t, st);
      var at := TypeOf(st1.types, path + [k], es[0]);
      var st2 := MatchFormal(st1, at, formals[0]);
      MatchKeeps(u, st1, at, formals[0], path, k);
      SameUnderTrans(st.types, st1.types, st2.types, path, k);
      ShapeAllMono(u, d, st.types, st2.types, path, k + 1, es[1..]);
      ArgsKeep(u, d, path, k + 1, es[1..], formals[1..], st2);
      Counters(u, st, st1, path, k);
      Counters(u, st1, st2, path, k);
      Counters(u, st2, VisitArgs(d, path, k + 1, es[1..], formals[1..], st2), path, k + 1);
      Still(u, st, st1, path, k);
      Still(u, st1, st2, path, k);
      HandedOn(st1, at, formals[0]);
      if strict { SubType(st.types, w, path + [k], es[0]); }
      VisitClosed(u, d, w, path + [k], es[0], t, st, strict);
      ArgsClosed(u, d, w, path, k + 1, es[1..], formals[1..], st2, strict);
    }
  }

  lemma {:induction false} PrintedClosed(u: set<Slot>, d: Decls, w: Types, path: Path, k: nat, es: seq<Expr>, st: St, strict: bool)
    requires ShapeAll(u, d, st.types, path, k, es) && (strict ==> TypedPrinted(d, w, path, k, es) && Sub(st.types, w))
    requires VisitPrinted(d, path, k, es, st).newly <= st.newly
    ensures ClosedPrinted(d, st.types, path, k, es, strict)
    ensures AllKnown(st.types, path, k, es) <==> AllResolved(d, path, k, es, st)
    decreases es, 0
  {
    hide SameUnder, Shape, Visit, Typed, Closed, Grow, AllKnown;
    KnownSplit(st.types, path, k, es);
    if es != [] {
      ChildKeeps(u, d, path, k, es[0], None, st);
      var st1 := Visit(d, path + [k], es[0], None, st);
      var st2 := Complain(st1, Count(TypeOf(st1.types, path + [k], es[0]).None?));
      assert st2.types == st1.types && st2.newly == st1.newly;
      ShapeAllMono(u, d, st.types, st2.types, path, k + 1, es[1..]);
      PrintedKeep(u, d, path, k + 1, es[1..], st2);
      Counters(u, st, st1, path, k);
      Counters(u, st2, VisitPrinted(d, path, k + 1, es[1..], st2), path, k + 1);
      Still(u, st, st1, path, k);
      VisitClosed(u, d, w, path + [k], es[0], None, st, strict);
      PrintedClosed(u, d, w, path, k + 1, es[1..], st2, strict);
    }
  }

  lemma KnownSplit(types: Types, path: Path, k: nat, es: seq<Expr>)
    ensures AllKnown(types, path, k, es) <==>
      es == [] || (TypeOf(types, path + [k], es[0]).Some? && AllKnown(types, path, k + 1, es[1..]))
  {
    if es != [] {
      if AllKnown(types, path, k, es) {
        assert TypeOf(types, path + [k + 0], es[0]).Some?;
        forall i | 0 <= i < |es[1..]| ensures TypeOf(types, path + [k + 1 + i], es[1..][i]).Some? {
          assert TypeOf(types, path + [k + (i + 1)], es[i + 1]).Some?;
        }
      }
      if TypeOf(types, path + [k], es[0]).Some? && AllKnown(types, path, k + 1, es[1..]) {
        forall i | 0 <= i < |es| ensures TypeOf(types, path + [k + i], es[i]).Some? {
          if i > 0 { assert TypeOf(types, path + [k + 1 + (i - 1)], es[1..][i - 1]).Some?; }
        }
      }
    }
  }

  lemma {:induction false} PrintClosed(u: set<Slot>, d: Decls, w: Types, path: Path, e: Expr, t: Type, st: St, strict: bool)
    requires e.Print?
    requires Shape(u, d, st.types, path, e) && Context(d, w, st.types, path, e, t, strict)
    requires Visit(d, path, e, t, st).newly <= st.newly
    ensures Closed(d, st.types, path, e, t, strict)
    decreases e, 1
  {
    hide VisitPrinted, AllKnown, Grow, AllResolved;
    PrintedKeep(u, d, path, 0, e.es, st);
    var st1 := VisitPrinted(d, path, 0, e.es, st);
    Counters(u, st, st1, path, 0);
    Still(u, st, st1, path, 0);
    PrintedClosed(u, d, w, path, 0, e.es, st, strict);
  }

  // ----- a whole pass -----

  lemma ItemClosed(u: set<Slot>, d: Decls, w: Types, x: Item, st: St, strict: bool)
    requires ItemGood(u, d, st.types, x) && (strict ==> ItemTyped(d, w, x) && Sub(st.types, w))
    requires VisitItem(d, x, st).newly <= st.newly
    ensures ClosedItem(d, st.types, x, strict)
  {
    hide Shape, Inv, Typed, Grow, Visit, VisitArgs, Closed, ClosedArgs, Sub, Answer;
    match x
    case Expect(p, e, t) => VisitClosed(u, d, w, p, e, t, st, strict);
    case Indexes(p, arr, es) => if |es| == |KeysOf(d, arr)| { ArgsClosed(u, d, w, p, 0, es, KeysOf(d, arr), st, strict); }
    case Returned(p, f, e) => ReturnClosed(u, d, w, x, st, strict);
  }

  lemma ReturnClosed(u: set<Slot>, d: Decls, w: Types, x: Item, st: St, strict: bool)
    requires x.Returned? && ItemGood(u, d, st.types, x) && (strict ==> ItemTyped(d, w, x) && Sub(st.types, w))
    requires VisitItem(d, x, st).newly <= st.newly
    ensures ClosedItem(d, st.types, x, strict)
  {
    hide Shape, Inv, Typed, Grow, Visit, Closed, Sub, Answer;
    var Returned(p, f, e) := x;
    var t := Get(st.types, Fn(f));
    var st1 := Visit(d, p, e, t, st);
    var at := TypeOf(st1.types, p, e);
    ReturnedIsAnswer(d, x, st);
    VisitKeeps(u, d, p, e, t, st);
    Counters(u, st, st1, p, -1);
    AnswerStill(st1, f, at);
    Still(u, st, st1, p, -1);
    if strict {
      GetMono(st.types, w, Fn(f));
      SubType(st.types, w, p, e);
    }
    VisitClosed(u, d, w, p, e, t, st, strict);
  }

  lemma AnswerStill(st: St, f: string, at: Type)
    ensures st.newly <= Answer(st, f, at).newly
    ensures Answer(st, f, at).newly <= st.newly ==> Handed(at, Get(st.types, Fn(f)), false)
  {
    Cases(at);
  }

  lemma {:induction false} ListClosed(u: set<Slot>, d: Decls, w: Types, xs: seq<Item>, i: nat, st: St, strict: bool)
    requires i <= |xs| && AllApart(xs) && AllGood(u, d, st.types, xs)
    requires strict ==> (forall x | x in xs :: ItemTyped(d, w, x)) && Sub(st.types, w)
    requires VisitItems(d, xs[i..], st).newly <= st.newly
    ensures forall j | i <= j < |xs| :: ClosedItem(d, st.types, xs[j], strict)
    decreases |xs| - i
  {
    hide AllApart, VisitItem, ItemGood, ItemTyped, ClosedItem, Grow, Sub;
    if i < |xs| {
      assert xs[i..][0] == xs[i] && xs[i..][1..] == xs[i + 1..];
      VisitKeepsAll(u, d, xs, i, st);
      var st1 := VisitItem(d, xs[i], st);
      ListKeeps(u, d, xs, i + 1, st1);
      Counters(u, st, st1, [], -1);
      Counters(u, st1, VisitItems(d, xs[i + 1..], st1), [], -1);
      Still(u, st, st1, [], -1);
      ItemClosed(u, d, w, xs[i], st, strict);
      ListClosed(u, d, w, xs, i + 1, st1, strict);
    }
  }

  /** A pass that resolves nothing is over closed types; strictly so if they are part of a typing. */
  lemma PassClosed(u: set<Slot>, p: Program, types: Types, w: Types, strict: bool)
    requires Good(u, p, types) && Pass(p, types).newly == 0 && (strict ==> WellTyped(p, w) && Sub(types, w))
    ensures ClosedProgram(p, types, strict)
  {
    hide AllApart, VisitItems, VisitItem, AllGood, ItemTyped, ClosedItem, Sub;
    var xs, st := ProgramItems(0, p.bodies), St(types, 0, 0);
    ProgramApart(0, p.bodies);
    BodiesAreItems(p.d, 0, p.bodies, st);
    assert xs[0..] == xs;
    ListClosed(u, p.d, w, xs, 0, st, strict);
  }

  // ----- instances -----

  /** With a contradiction a declaration may be known and its use not: x is a string, and a number is
      expected. */
  lemma ContradictionOpen(d: Decls, path: Path)
    ensures var st := St(map[Decl("x") := Str], 0, 0);
      && Visit(d, path, Sym("x"), Some(Long), st) == Complain(st, 1)
      && Closed(d, st.types, path, Sym("x"), Some(Long), false) && !Closed(d, st.types, path, Sym("x"), Some(Long), true)
  {
  }

  /** `x = 1` */
  const ASSIGNED := Set(Sym("x"), Num)

  const NODES: Types := map[Node([0, 0, 0]) := Long, Node([0, 0, 0, 0]) := Long]

  /** The assignment is found a number in the first pass, x in the second, and the third is clean. */
  lemma AssignedFound()
    ensures var p := Evaluating(ASSIGNED);
      && Pass(p, map[]) == St(NODES, 2, 0)
      && Pass(p, NODES) == St(NODES[Decl("x") := Long], 1, 0)
      && Pass(p, NODES[Decl("x") := Long]) == St(NODES[Decl("x") := Long], 0, 0)
  {
    hide Pass, Visit;
    OnePass(ASSIGNED, map[]);
    OnePass(ASSIGNED, NODES);
    OnePass(ASSIGNED, NODES[Decl("x") := Long]);
    FirstVisit();
    LaterVisits();
  }

  lemma FirstVisit()
    ensures Visit(VOID_CALLS, [0, 0, 0], ASSIGNED, None, St(map[], 0, 0)) == St(NODES, 2, 0)
  {
    hide Visit;
    var st: St := St(map[], 0, 0);
    var st1 := Resolve(st, Node([0, 0, 0, 0]), Long);
    assert |[0, 0, 0]| != |[0, 0, 0, 0]|;
    assert [0, 0, 0] + [0] == [0, 0, 0, 0];
    VariableResolved([0, 0, 0, 0], st);
    NumberResolved([0, 0, 0], st, st1);
    assert Resolve(st1, Node([0, 0, 0]), Long).types == NODES;
  }

  lemma VariableResolved(path: Path, st: St)
    requires st.types == map[]
    ensures Visit(VOID_CALLS, path, Sym("x"), Some(Long), st) == Resolve(st, Node(path), Long)
  {
  }

  /** A number assigned to something whose visit gave it a type. */
  lemma NumberResolved(path: Path, st: St, st1: St)
    requires Get(st.types, Node(path)).None? && Get(st1.types, Node(path)).None?
    requires Get(st.types, Node(path + [0])).None? && Get(st1.types, Node(path + [0])) == Some(Long)
    requires Visit(VOID_CALLS, path + [0], Sym("x"), Some(Long), st) == st1
    ensures Visit(VOID_CALLS, path, ASSIGNED, None, st) == Resolve(st1, Node(path), Long)
  {
    hide Resolve2;
    assert Visit(VOID_CALLS, path + [1], Num, Some(Long), st1) == st1;
    assert Complain(st, 0) == st;
  }

  lemma LaterVisits()
    ensures Visit(VOID_CALLS, [0, 0, 0], ASSIGNED, None, St(NODES, 0, 0)) == St(NODES[Decl("x") := Long], 1, 0)
    ensures var types := NODES[Decl("x") := Long]; Visit(VOID_CALLS, [0, 0, 0], ASSIGNED, None, St(types, 0, 0)) == St(types, 0, 0)
  {
    hide Visit;
    assert [0, 0, 0] + [0] == [0, 0, 0, 0];
    DeclarationResolved([0, 0, 0, 0], St(NODES, 0, 0));
    AssignedAgain([0, 0, 0], St(NODES, 0, 0), St(NODES[Decl("x") := Long], 1, 0));
    var st := St(NODES[Decl("x") := Long], 0, 0);
    DeclarationResolved([0, 0, 0, 0], st);
    AssignedAgain([0, 0, 0], st, st);
  }

  /** A variable whose use is a number: its declaration becomes one, or already is. */
  lemma DeclarationResolved(path: Path, st: St)
    requires Get(st.types, Node(path)) == Some(Long)
    ensures Get(st.types, Decl("x")).None? ==> Visit(VOID_CALLS, path, Sym("x"), Some(Long), st) == Resolve(st, Decl("x"), Long)
    ensures Get(st.types, Decl("x")) == Some(Long) ==> Visit(VOID_CALLS, path, Sym("x"), Some(Long), st) == st
  {
  }

  /** An assignment already found a number adds nothing to what its variable adds. */
  lemma AssignedAgain(path: Path, st: St, st1: St)
    requires Get(st.types, Node(path)) == Some(Long) && Get(st1.types, Node(path)) == Some(Long)
    requires Get(st.types, Node(path + [0])) == Some(Long) && Get(st1.types, Node(path + [0])) == Some(Long)
    requires Visit(VOID_CALLS, path + [0], Sym("x"), Some(Long), st) == st1
    ensures Visit(VOID_CALLS, path, ASSIGNED, None, st) == st1
  {
    hide Resolve2;
    assert Visit(VOID_CALLS, path + [1], Num, Some(Long), st1) == st1;
    assert Complain(st, 0) == st;
  }
}
