/**
 The types inferred are the least: they are part of every way to type the program.  And two
 programs that a clean pass accepts: one is not well typed, in the other a value has no type.
 */
module TypePrincipal {
  import opened Basics
  import opened Types
  import opened TypeInvariant
  import opened TypeCheck
  import opened TypePass
  import opened TypeLoop

  // ----- the primitive steps -----

  lemma SubSettle(st: St, n: nat, me: Slot, ty: Ty, w: Types)
    requires Sub(st.types, w) && Get(w, me) == Some(ty)
    ensures Sub(Settle(Complain(st, n), me, ty).types, w) && Sub(Complain(st, n).types, w)
  {
  }

  lemma SubResolve2(st: St, re: Slot, te: Slot, t: Type, accept: bool, w: Types)
    requires Sub(st.types, w) && Get(w, re) == Get(w, te) && Below(t, Get(w, re))
    ensures Sub(Resolve2(st, re, te, t, accept).types, w)
  {
  }

  lemma SubJoin(st: St, me: Slot, sub: Type, a: Type, b: Type, w: Types)
    requires Sub(st.types, w) && Below(sub, Get(w, me)) && Below(a, Get(w, me)) && Below(b, Get(w, me))
    ensures Sub(Join(st, me, sub, a, b).types, w)
  {
  }

  lemma SubAssigned(st: St, me: Slot, sub: Type, l: Type, r: Type, w: Types)
    requires Sub(st.types, w) && Below(sub, Get(w, me)) && Below(l, Get(w, me))
    ensures Sub(Assigned(st, me, sub, l, r).types, w)
  {
  }

  lemma SubType(a: Types, w: Types, path: Path, e: Expr)
    requires Sub(a, w)
    ensures Below(TypeOf(a, path, e), TypeOf(w, path, e)) && Below(Get(a, Node(path)), Get(w, Node(path)))
  {
  }

  lemma SubComplain(st: St, n: nat, w: Types)
    requires Sub(st.types, w)
    ensures Sub(Complain(st, n).types, w)
  {
  }

  lemma SubDrop(st: St, me: Slot, n: nat, w: Types)
    requires Sub(st.types, w)
    ensures Sub(Complain(st.(types := st.types - {me}), n).types, w)
  {
  }

  // ----- visits -----

  lemma {:induction false} VisitBelow(d: Decls, w: Types, path: Path, e: Expr, t: Type, st: St)
    requires Typed(d, w, path, e) && Meets(w, path, e, t) && Sub(st.types, w)
    ensures Sub(Visit(d, path, e, t, st).types, w)
    decreases e, 1
  {
    hide VisitBinary, VisitCompare, VisitCond, VisitSet, Sub, Resolve2, VisitArgs, VisitPrinted, AllResolved, Settle, Complain;
    var me := Node(path);
    match e
    case Num => SubComplain(st, Count(Differ(Some(Long), t)), w);
    case Text => SubComplain(st, Count(Differ(Some(Str), t)), w);
    case Sym(v) => SubResolve2(st, me, Decl(v), t, false, w);
    case Unary(_) => OneChildBelow(d, w, path, e, t, st);
    case In(_) => OneChildBelow(d, w, path, e, t, st);
    case Stat(_) => OneChildBelow(d, w, path, e, t, st);
    case Index(arr, es) =>
      var st1 := Resolve2(st, me, Decl(arr), t, false);
      SubResolve2(st, me, Decl(arr), t, false, w);
      ArgsBelow(d, w, path, 0, es, KeysOf(d, arr), st1);
    case Call(f, es) =>
      var st1 := Resolve2(st, me, Fn(f), t, true);
      var n := Count(Get(st1.types, me) == Some(Stats));
      SubResolve2(st, me, Fn(f), t, true, w);
      SubComplain(st1, n, w);
      ArgsBelow(d, w, path, 0, es, FormalsOf(d, f), Complain(st1, n));
    case Print(toStream, es) => PrintBelow(d, w, path, e, t, st);
    case Binary(_, _, _) => BinaryBelow(d, w, path, e, t, st);
    case Compare(_, _) => CompareBelow(d, w, path, e, t, st);
    case Cond(_, _, _) => CondBelow(d, w, path, e, t, st);
    case Set(_, _) => SetBelow(d, w, path, e, t, st);
  }

  lemma {:induction false} OneChildBelow(d: Decls, w: Types, path: Path, e: Expr, t: Type, st: St)
    requires e.Unary? || e.In? || e.Stat?
    requires Typed(d, w, path, e) && Meets(w, path, e, t) && Sub(st.types, w)
    ensures Sub(Visit(d, path, e, t, st).types, w)
    decreases e, 0
  {
    hide Sub, Settle;
    var n0 := if e.Unary? then Count(t == Some(Stats) || t == Some(Str)) else 0;
    var tx := if e.Unary? then Some(Long) else if e.In? then None else Some(Stats);
    var st0 := Complain(st, n0);
    assert st0.types == st.types;
    VisitBelow(d, w, path + [0], e.x, tx, st0);
    var st1 := Visit(d, path + [0], e.x, tx, st0);
    var n := Count(Differ(Get(st1.types, Node(path)), Some(Long)));
    SubSettle(st1, n, Node(path), Long, w);
    SubSettle(st1, 0, Node(path), Long, w);
    SubComplain(st1, 1, w);
  }

  lemma {:induction false} PrintBelow(d: Decls, w: Types, path: Path, e: Expr, t: Type, st: St)
    requires e.Print?
    requires Typed(d, w, path, e) && Sub(st.types, w)
    ensures Sub(Visit(d, path, e, t, st).types, w)
    decreases e, 0
  {
    hide Sub, VisitPrinted, AllResolved;
    PrintedBelow(d, w, path, 0, e.es, st);
    var st1 := VisitPrinted(d, path, 0, e.es, st);
    SubSettle(st1, 0, Node(path), PrintTy(e.toStream), w);
    SubDrop(st1, Node(path), 1, w);
  }

  lemma {:induction false} BinaryBelow(d: Decls, w: Types, path: Path, e: Expr, t: Type, st: St)
    requires e.Binary?
    requires Typed(d, w, path, e) && Sub(st.types, w)
    ensures Sub(VisitBinary(d, path, e, t, st).types, w)
    decreases e, 0
  {
    hide Visit, Sub, Settle, Rejects, Plain, Pairs;
    var Binary(op, l, r) := e;
    var me, n := Node(path), Rejects(op, t);
    var st0 := Complain(st, n);
    SubComplain(st, n, w);
    SubComplain(st, Count(t == Some(Stats)) + 1, w);
    VisitBelow(d, w, path + [0], l, Some(LeftTy(op)), st0);
    var st1 := Visit(d, path + [0], l, Some(LeftTy(op)), st0);
    VisitBelow(d, w, path + [1], r, Some(RightTy(op)), st1);
    var st2 := Visit(d, path + [1], r, Some(RightTy(op)), st1);
    var m := Count(Pairs(op) && Differ(TypeOf(st2.types, path + [0], l), TypeOf(st2.types, path + [1], r)));
    SubSettle(st2, m, me, ResultTy(op), w);
    SubType(Complain(st2, m).types, w, path, e);
  }

  lemma {:induction false} CompareBelow(d: Decls, w: Types, path: Path, e: Expr, t: Type, st: St)
    requires e.Compare?
    requires Typed(d, w, path, e) && Sub(st.types, w)
    ensures Sub(VisitCompare(d, path, e, t, st).types, w)
    decreases e, 0
  {
    hide Visit, Sub, Settle;
    var Compare(l, r) := e;
    var st0 := Complain(st, Count(t == Some(Stats) || t == Some(Str)));
    assert st0.types == st.types;
    var tl := TypeOf(st0.types, path + [1], r);
    SubType(st0.types, w, path + [1], r);
    VisitBelow(d, w, path + [0], l, tl, st0);
    var st1 := Visit(d, path + [0], l, tl, st0);
    var tr := TypeOf(st1.types, path + [0], l);
    SubType(st1.types, w, path + [0], l);
    VisitBelow(d, w, path + [1], r, tr, st1);
    var st2 := Visit(d, path + [1], r, tr, st1);
    var m := Count(Differ(TypeOf(st2.types, path + [0], l), TypeOf(st2.types, path + [1], r)));
    SubSettle(st2, m, Node(path), Long, w);
  }

  lemma {:induction false} CondBelow(d: Decls, w: Types, path: Path, e: Expr, t: Type, st: St)
    requires e.Cond?
    requires Typed(d, w, path, e) && Meets(w, path, e, t) && Sub(st.types, w)
    ensures Sub(VisitCond(d, path, e, t, st).types, w)
    decreases e, 0
  {
    hide Visit, Sub, Join;
    var Cond(c, a, b) := e;
    VisitBelow(d, w, path + [0], c, Some(Long), st);
    var st1 := Visit(d, path + [0], c, Some(Long), st);
    SubType(st1.types, w, path, e);
    var sub := Either(t, Get(st1.types, Node(path)));
    VisitBelow(d, w, path + [1], a, sub, st1);
    var st2 := Visit(d, path + [1], a, sub, st1);
    VisitBelow(d, w, path + [2], b, sub, st2);
    var st3 := Visit(d, path + [2], b, sub, st2);
    SubType(st3.types, w, path + [1], a);
    SubType(st3.types, w, path + [2], b);
    SubJoin(st3, Node(path), sub, TypeOf(st3.types, path + [1], a), TypeOf(st3.types, path + [2], b), w);
  }

  lemma {:induction false} SetBelow(d: Decls, w: Types, path: Path, e: Expr, t: Type, st: St)
    requires e.Set?
    requires Typed(d, w, path, e) && Meets(w, path, e, t) && Sub(st.types, w)
    ensures Sub(VisitSet(d, path, e, t, st).types, w)
    decreases e, 0
  {
    hide Visit, Sub, Assigned;
    var Set(l, r) := e;
    var st0 := Complain(st, Count(t == Some(Stats)));
    assert st0.types == st.types;
    SubType(st0.types, w, path, e);
    SubType(st0.types, w, path + [1], r);
    var sub := Either(t, Get(st0.types, Node(path)));
    var tl := Either(sub, TypeOf(st0.types, path + [1], r));
    VisitBelow(d, w, path + [0], l, tl, st0);
    var st1 := Visit(d, path + [0], l, tl, st0);
    SubType(st1.types, w, path + [0], l);
    var tr := Either(sub, TypeOf(st1.types, path + [0], l));
    VisitBelow(d, w, path + [1], r, tr, st1);
    var st2 := Visit(d, path + [1], r, tr, st1);
    SubType(st2.types, w, path + [0], l);
    SubAssigned(st2, Node(path), sub, TypeOf(st2.types, path + [0], l), TypeOf(st2.types, path + [1], r), w);
  }

  lemma {:induction false} ArgsBelow(d: Decls, w: Types, path: Path, k: nat, es: seq<Expr>, formals: seq<Slot>, st: St)
    requires |es| == |formals| && TypedArgs(d, w, path, k, es, formals) && Sub(st.types, w)
    ensures Sub(VisitArgs(d, path, k, es, formals, st).types, w)
    decreases es, 0
  {
    hide Visit, Typed;
    if es != [] {
      var t := Get(st.types, formals[0]);
      VisitBelow(d, w, path + [k], es[0], t, st);
      var st1 := Visit(d, path + [k], es[0], t, st);
      ArgsBelow(d, w, path, k + 1, es[1..], formals[1..], MatchFormal(st1, TypeOf(st1.types, path + [k], es[0]), formals[0]));
    }
  }

  lemma {:induction false} PrintedBelow(d: Decls, w: Types, path: Path, k: nat, es: seq<Expr>, st: St)
    requires TypedPrinted(d, w, path, k, es) && Sub(st.types, w)
    ensures Sub(VisitPrinted(d, path, k, es, st).types, w)
    decreases es, 0
  {
    hide Visit, Typed;
    if es != [] {
      VisitBelow(d, w, path + [k], es[0], None, st);
      var st1 := Visit(d, path + [k], es[0], None, st);
      PrintedBelow(d, w, path, k + 1, es[1..], Complain(st1, Count(TypeOf(st1.types, path + [k], es[0]).None?)));
    }
  }

  lemma ItemBelow(d: Decls, w: Types, x: Item, st: St)
    requires ItemTyped(d, w, x) && Sub(st.types, w)
    ensures Sub(VisitItem(d, x, st).types, w)
  {
    hide Visit, Typed;
    match x
    case Expect(p, e, t) => VisitBelow(d, w, p, e, t, st);
    case Indexes(p, arr, es) => ArgsBelow(d, w, p, 0, es, KeysOf(d, arr), st);
    case Returned(p, f, e) => VisitBelow(d, w, p, e, Get(st.types, Fn(f)), st);
  }

  lemma {:induction false} ItemsBelow(d: Decls, w: Types, xs: seq<Item>, st: St)
    requires (forall x | x in xs :: ItemTyped(d, w, x)) && Sub(st.types, w)
    ensures Sub(VisitItems(d, xs, st).types, w)
    decreases xs
  {
    hide ItemTyped, VisitItem, Sub;
    if xs != [] {
      ItemBelow(d, w, xs[0], st);
      ItemsBelow(d, w, xs[1..], VisitItem(d, xs[0], st));
    }
  }

  /** A pass finds nothing that a typing of the program does not say. */
  lemma PassBelow(p: Program, types: Types, w: Types)
    requires WellTyped(p, w) && Sub(types, w)
    ensures Sub(Pass(p, types).types, w)
  {
    hide ItemTyped, VisitItem;
    BodiesAreItems(p.d, 0, p.bodies, St(types, 0, 0));
    ItemsBelow(p.d, w, ProgramItems(0, p.bodies), St(types, 0, 0));
  }

  // ----- what is not checked -----

  const VOID_CALLS := Decls(map[], map["f" := [], "g" := []])

  /** A probe that evaluates one expression. */
  function Evaluating(e: Expr): Program { Program(VOID_CALLS, [ProbeBody(Do(e), None)], []) }

  lemma EvaluatingItems(e: Expr, st: St)
    ensures ProgramItems(0, Evaluating(e).bodies) == [Expect([0, 0, 0], e, None)]
    ensures VisitBodies(VOID_CALLS, 0, Evaluating(e).bodies, st) == Visit(VOID_CALLS, [0, 0, 0], e, None, st)
  {
    hide Visit;
    var bodies := Evaluating(e).bodies;
    assert bodies[1..] == [];
    assert ProgramItems(1, []) == [];
    assert [0] + [0] == [0, 0] && [0, 0] + [0] == [0, 0, 0];
    BodiesAreItems(VOID_CALLS, 0, bodies, st);
    OneItem(VOID_CALLS, Expect([0, 0, 0], e, None), st);
  }

  lemma OnePass(e: Expr, types: Types)
    ensures Pass(Evaluating(e), types) == Visit(VOID_CALLS, [0, 0, 0], e, None, St(types, 0, 0))
  {
    hide Visit;
    EvaluatingItems(e, St(types, 0, 0));
  }

  /** The sum of two strings, each the result of a print. */
  const PRINTED_SUM := Binary(Arith, Print(false, [Num]), Print(false, [Num]))

  const SUM_TYPES: Types := map[Node([0, 0, 0]) := Long, Node([0, 0, 0, 0]) := Str, Node([0, 0, 0, 1]) := Str]

  /** One pass finds these types and the next is clean, although they are not well typed. */
  lemma PrintedSumAccepted()
    ensures Pass(Evaluating(PRINTED_SUM), map[]) == St(SUM_TYPES, 3, 0)
    ensures Pass(Evaluating(PRINTED_SUM), SUM_TYPES) == St(SUM_TYPES, 0, 0) && !WellTyped(Evaluating(PRINTED_SUM), SUM_TYPES)
  {
    hide Visit, Typed, Pass;
    OnePass(PRINTED_SUM, map[]);
    OnePass(PRINTED_SUM, SUM_TYPES);
    EvaluatingItems(PRINTED_SUM, St(SUM_TYPES, 0, 0));
    SumFound();
    SumClean(St(SUM_TYPES, 0, 0));
    assert Expect([0, 0, 0], PRINTED_SUM, None) in ProgramItems(0, Evaluating(PRINTED_SUM).bodies);
  }

  lemma SumFound()
    ensures Visit(VOID_CALLS, [0, 0, 0], PRINTED_SUM, None, St(map[], 0, 0)) == St(SUM_TYPES, 3, 0)
  {
    assert [0, 0, 0] + [0] == [0, 0, 0, 0] && [0, 0, 0] + [1] == [0, 0, 0, 1];
    var st: St := St(map[], 0, 0);
    var st1 := Settle(st, Node([0, 0, 0, 0]), Str);
    PrintSettled([0, 0, 0, 0], st);
    PrintSettled([0, 0, 0, 1], st1);
    assert [0, 0, 0, 0][3] != [0, 0, 0, 1][3];
    assert |[0, 0, 0]| != |[0, 0, 0, 0]|;
    assert Settle(Settle(st1, Node([0, 0, 0, 1]), Str), Node([0, 0, 0]), Long).types == SUM_TYPES;
  }

  lemma SumClean(st: St)
    requires st == St(SUM_TYPES, 0, 0)
    ensures Visit(VOID_CALLS, [0, 0, 0], PRINTED_SUM, None, st) == st && !Typed(VOID_CALLS, SUM_TYPES, [0, 0, 0], PRINTED_SUM)
  {
    assert [0, 0, 0] + [0] == [0, 0, 0, 0] && [0, 0, 0] + [1] == [0, 0, 0, 1];
    PrintSettled([0, 0, 0, 0], st);
    PrintSettled([0, 0, 0, 1], st);
    assert Complain(st, 0) == st;
  }

  /** A print ignores the type expected of it. */
  lemma PrintSettled(path: Path, st: St)
    ensures Visit(VOID_CALLS, path, Print(false, [Num]), Some(Long), st) == Settle(st, Node(path), Str)
  {
    var d := VOID_CALLS;
    assert Visit(d, path + [0], Num, None, st) == st;
    assert [Num][1..] == [];
    assert VisitPrinted(d, path, 1, [], st) == st && AllResolved(d, path, 1, [], st);
    assert VisitPrinted(d, path, 0, [Num], st) == st && AllResolved(d, path, 0, [Num], st);
  }

  /** The comparison of two calls that return nothing. */
  const VOID_COMPARED := Compare(Call("f", []), Call("g", []))

  const COMPARED_TYPES: Types := map[Node([0, 0, 0]) := Long]

  /** It is accepted, and the values compared have no type. */
  lemma VoidCompared()
    ensures Pass(Evaluating(VOID_COMPARED), map[]) == St(COMPARED_TYPES, 1, 0)
    ensures Pass(Evaluating(VOID_COMPARED), COMPARED_TYPES) == St(COMPARED_TYPES, 0, 0)
    ensures WellTyped(Evaluating(VOID_COMPARED), COMPARED_TYPES)
    ensures TypeOf(COMPARED_TYPES, [0, 0, 0, 0], Call("f", [])) == TypeOf(COMPARED_TYPES, [0, 0, 0, 1], Call("g", [])) == None
  {
    hide Visit, Pass, WellTyped;
    OnePass(VOID_COMPARED, map[]);
    OnePass(VOID_COMPARED, COMPARED_TYPES);
    ComparedSettled(map[]);
    ComparedSettled(COMPARED_TYPES);
    ComparedTyped();
    ComparedUnknown(COMPARED_TYPES);
  }

  lemma ComparedUnknown(types: Types)
    requires forall s | s in types :: s == Node([0, 0, 0])
    ensures Get(types, Node([0, 0, 0, 0])) == Get(types, Node([0, 0, 0, 1])) == None
  {
    assert |[0, 0, 0]| != |[0, 0, 0, 0]| && |[0, 0, 0]| != |[0, 0, 0, 1]|;
  }

  lemma ComparedSettled(types: Types)
    requires forall s | s in types :: s == Node([0, 0, 0])
    ensures Visit(VOID_CALLS, [0, 0, 0], VOID_COMPARED, None, St(types, 0, 0)) == Settle(St(types, 0, 0), Node([0, 0, 0]), Long)
  {
    assert [0, 0, 0] + [0] == [0, 0, 0, 0] && [0, 0, 0] + [1] == [0, 0, 0, 1];
    ComparedUnknown(types);
    CallSettled([0, 0, 0, 0], "f", St(types, 0, 0));
    CallSettled([0, 0, 0, 1], "g", St(types, 0, 0));
  }

  lemma ComparedTyped()
    ensures WellTyped(Evaluating(VOID_COMPARED), COMPARED_TYPES)
  {
    var f, g := Call("f", []), Call("g", []);
    assert [0, 0, 0] + [0] == [0, 0, 0, 0] && [0, 0, 0] + [1] == [0, 0, 0, 1];
    ComparedUnknown(COMPARED_TYPES);
    assert FormalsOf(VOID_CALLS, "f") == [] == FormalsOf(VOID_CALLS, "g");
    assert Typed(VOID_CALLS, COMPARED_TYPES, [0, 0, 0, 0], f) && Typed(VOID_CALLS, COMPARED_TYPES, [0, 0, 0, 1], g);
    assert Typed(VOID_CALLS, COMPARED_TYPES, [0, 0, 0], VOID_COMPARED);
    EvaluatingItems(VOID_COMPARED, St(COMPARED_TYPES, 0, 0));
  }

  lemma CallSettled(path: Path, f: string, st: St)
    requires f == "f" || f == "g"
    requires Get(st.types, Node(path)) == Get(st.types, Fn(f)) == None
    ensures Visit(VOID_CALLS, path, Call(f, []), None, st) == st
  {
    assert FormalsOf(VOID_CALLS, f) == [];
  }
}
