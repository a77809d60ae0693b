/**
 A pass over a program whose types are all known and right has nothing to resolve and
 nothing to complain of.  So when inference fails although the program has a typing, some
 type was left unresolved.
 */
module TypeComplete {
  import opened Basics
  import opened Types
  import opened TypeCheck
  import opened TypePass
  import opened TypeLoop

  lemma NoComplaint(st: St)
    ensures Complain(st, 0) == st
  {
  }

  lemma {:induction false} TypedStill(d: Decls, path: Path, e: Expr, t: Type, st: St)
    requires Typed(d, st.types, path, e) && Meets(st.types, path, e, t)
    ensures Visit(d, path, e, t, st) == st
    decreases e, 1
  {
    hide VisitBinary, VisitCompare, VisitCond, VisitSet, VisitArgs, VisitPrinted, AllResolved;
    NoComplaint(st);
    match e
    case Num =>
    case Text =>
    case Sym(v) =>
    case Unary(x) => TypedStill(d, path + [0], x, Some(Long), st);
    case In(x) => TypedStill(d, path + [0], x, None, st);
    case Stat(x) => TypedStill(d, path + [0], x, Some(Stats), st);
    case Binary(_, _, _) => BinaryStill(d, path, e, t, st);
    case Compare(_, _) => CompareStill(d, path, e, t, st);
    case Cond(_, _, _) => CondStill(d, path, e, t, st);
    case Set(_, _) => SetStill(d, path, e, t, st);
    case Index(arr, es) => ArgsStill(d, path, 0, es, KeysOf(d, arr), st);
    case Call(f, es) => ArgsStill(d, path, 0, es, FormalsOf(d, f), st);
    case Print(_, es) => PrintedStill(d, path, 0, es, st);
  }

  lemma {:induction false} BinaryStill(d: Decls, path: Path, e: Expr, t: Type, st: St)
    requires e.Binary? && Typed(d, st.types, path, e) && Meets(st.types, path, e, t)
    ensures VisitBinary(d, path, e, t, st) == st
    decreases e, 0
  {
    hide Visit;
    NoComplaint(st);
    TypedStill(d, path + [0], e.l, Some(LeftTy(e.op)), st);
    TypedStill(d, path + [1], e.r, Some(RightTy(e.op)), st);
  }

  lemma {:induction false} CompareStill(d: Decls, path: Path, e: Expr, t: Type, st: St)
    requires e.Compare? && Typed(d, st.types, path, e) && Meets(st.types, path, e, t)
    ensures VisitCompare(d, path, e, t, st) == st
    decreases e, 0
  {
    hide Visit;
    NoComplaint(st);
    TypedStill(d, path + [0], e.l, TypeOf(st.types, path + [1], e.r), st);
    TypedStill(d, path + [1], e.r, TypeOf(st.types, path + [0], e.l), st);
  }

  lemma {:induction false} CondStill(d: Decls, path: Path, e: Expr, t: Type, st: St)
    requires e.Cond? && Typed(d, st.types, path, e) && Meets(st.types, path, e, t)
    ensures VisitCond(d, path, e, t, st) == st
    decreases e, 0
  {
    hide Visit;
    NoComplaint(st);
    var sub := Either(t, Get(st.types, Node(path)));
    TypedStill(d, path + [0], e.c, Some(Long), st);
    TypedStill(d, path + [1], e.a, sub, st);
    TypedStill(d, path + [2], e.b, sub, st);
  }

  lemma {:induction false} SetStill(d: Decls, path: Path, e: Expr, t: Type, st: St)
    requires e.Set? && Typed(d, st.types, path, e) && Meets(st.types, path, e, t)
    ensures VisitSet(d, path, e, t, st) == st
    decreases e, 0
  {
    hide Visit;
    NoComplaint(st);
    var sub := Either(t, Get(st.types, Node(path)));
    TypedStill(d, path + [0], e.l, sub, st);
    TypedStill(d, path + [1], e.r, sub, st);
  }

  lemma {:induction false} ArgsStill(d: Decls, path: Path, k: nat, es: seq<Expr>, formals: seq<Slot>, st: St)
    requires |es| == |formals| && TypedArgs(d, st.types, path, k, es, formals)
    ensures VisitArgs(d, path, k, es, formals, st) == st
    decreases es, 0
  {
    hide Visit, Typed;
    if es != [] {
      NoComplaint(st);
      TypedStill(d, path + [k], es[0], Get(st.types, formals[0]), st);
      ArgsStill(d, path, k + 1, es[1..], formals[1..], st);
    }
  }

  lemma {:induction false} PrintedStill(d: Decls, path: Path, k: nat, es: seq<Expr>, st: St)
    requires TypedPrinted(d, st.types, path, k, es)
    ensures VisitPrinted(d, path, k, es, st) == st && AllResolved(d, path, k, es, st)
    decreases es, 0
  {
    hide Visit, Typed;
    if es != [] {
      NoComplaint(st);
      TypedStill(d, path + [k], es[0], None, st);
      PrintedStill(d, path, k + 1, es[1..], st);
    }
  }

  lemma ItemStill(d: Decls, x: Item, st: St)
    requires ItemTyped(d, st.types, x)
    ensures VisitItem(d, x, st) == st
  {
    hide Visit, VisitArgs, Typed;
    NoComplaint(st);
    match x
    case Expect(p, e, t) => TypedStill(d, p, e, t, st);
    case Indexes(p, arr, es) => ArgsStill(d, p, 0, es, KeysOf(d, arr), st);
    case Returned(p, f, e) => TypedStill(d, p, e, Get(st.types, Fn(f)), st);
  }

  lemma {:induction false} ItemsStill(d: Decls, xs: seq<Item>, st: St)
    requires forall x | x in xs :: ItemTyped(d, st.types, x)
    ensures VisitItems(d, xs, st) == st
    decreases xs
  {
    hide ItemTyped, VisitItem;
    if xs != [] {
      ItemStill(d, xs[0], st);
      ItemsStill(d, xs[1..], st);
    }
  }

  /** The converse of the check that a clean pass makes. */
  lemma TypedPassClean(p: Program, types: Types)
    requires WellTyped(p, types)
    ensures Pass(p, types) == St(types, 0, 0)
  {
    hide ItemTyped, VisitItem;
    var st := St(types, 0, 0);
    BodiesAreItems(p.d, 0, p.bodies, st);
    ItemsStill(p.d, ProgramItems(0, p.bodies), st);
    NoUnknownGlobals(types, p.globals);
  }

  /** A pass that changes nothing and complains, over types contained in a typing: that typing
      gives a type to something that has none. */
  lemma ComplaintIsUnresolved(p: Program, types: Types, w: Types)
    requires WellTyped(p, w) && Sub(types, w) && Pass(p, types).still > 0
    ensures exists s :: s in w && s !in types
  {
    if forall s | s in w :: s in types {
      assert types == w;
      TypedPassClean(p, w);
    }
  }
}
