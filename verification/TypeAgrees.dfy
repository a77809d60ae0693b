/**
 Every visit keeps the agreement of recorded types with expected types.
 */
module TypeAgrees {
  import opened Basics
  import opened Types
  import opened TypeInvariant
  import opened TypeKeeps

  lemma {:induction false} VisitAgrees(u: set<Slot>, d: Decls, path: Path, e: Expr, t: Type, st: St)
    requires Shape(u, d, st.types, path, e) && Inv(d, st.types, path, e, t)
    ensures Inv(d, Visit(d, path, e, t, st).types, path, e, t)
    decreases e, 3
  {
    hide VisitBinary, VisitCompare, VisitCond, VisitSet;
    match e
    case Num =>
    case Text =>
    case Sym(v) =>
    case Unary(_) => OneChildAgrees(u, d, path, e, t, st);
    case In(_) => OneChildAgrees(u, d, path, e, t, st);
    case Stat(_) => OneChildAgrees(u, d, path, e, t, st);
    case Binary(_, _, _) => BinaryAgrees(u, d, path, e, t, st);
    case Compare(_, _) => CompareAgrees(u, d, path, e, t, st);
    case Cond(_, _, _) => CondAgrees(u, d, path, e, t, st);
    case Set(_, _) => SetAgrees(u, d, path, e, t, st);
    case Index(_, _) => CallAgrees(u, d, path, e, t, st);
    case Call(_, _) => CallAgrees(u, d, path, e, t, st);
    case Print(_, _) => PrintAgrees(u, d, path, e, t, st);
  }

  /** A later state in which the subtree of child k is the same. */
  lemma Carry(d: Decls, a: Types, b: Types, path: Path, k: nat, e: Expr, t: Type, t': Type)
    requires Inv(d, a, path + [k], e, t) && Sub(a, b) && SameUnder(a, b, path + [k]) && Below(t, t')
    ensures Inv(d, b, path + [k], e, t') && TypeOf(a, path + [k], e) == TypeOf(b, path + [k], e)
  {
    InvMono(d, a, b, path + [k], e, t, t');
    SameTypeOf(a, b, path + [k], e);
  }

  lemma TypeGrows(a: Types, b: Types, path: Path, e: Expr)
    requires Sub(a, b)
    ensures Below(TypeOf(a, path, e), TypeOf(b, path, e))
  {
  }

  lemma {:induction false} ChildAgrees(u: set<Slot>, d: Decls, path: Path, k: nat, e: Expr, t: Type, st: St)
    requires Shape(u, d, st.types, path + [k], e) && Inv(d, st.types, path + [k], e, t)
    ensures var st' := Visit(d, path + [k], e, t, st);
      && Grow(u, st, st', path, 0) && Sub(st.types, st'.types)
      && Shape(u, d, st'.types, path + [k], e) && Inv(d, st'.types, path + [k], e, t)
      && (forall j: nat | j != k :: SameUnder(st.types, st'.types, path + [j]))
      && Below(TypeOf(st.types, path + [k], e), TypeOf(st'.types, path + [k], e))
    decreases e, 4
  {
    hide Visit, Shape, Inv, Grow, SameUnder;
    ChildKeeps(u, d, path, k, e, t, st);
    VisitAgrees(u, d, path + [k], e, t, st);
    TypeGrows(st.types, Visit(d, path + [k], e, t, st).types, path + [k], e);
  }

  lemma {:induction false} OneChildAgrees(u: set<Slot>, d: Decls, path: Path, e: Expr, t: Type, st: St)
    requires e.Unary? || e.In? || e.Stat?
    requires Shape(u, d, st.types, path, e) && Inv(d, st.types, path, e, t)
    ensures Inv(d, Visit(d, path, e, t, st).types, path, e, t)
    decreases e, 1
  {
    hide Grow, SameUnder, Touch, Sub;
    var n0 := if e.Unary? then Count(t == Some(Stats) || t == Some(Str)) else 0;
    var tx := if e.Unary? then Some(Long) else if e.In? then None else Some(Stats);
    var st0 := Complain(st, n0);
    assert st0.types == st.types;
    ChildAgrees(u, d, path, 0, e.x, tx, st0);
    var st1 := Visit(d, path + [0], e.x, tx, st0);
    var st' := Visit(d, path, e, t, st);
    TouchComplain(u, st1, 0, path);
    TouchComplain(u, st1, 1, path);
    TouchSettle(u, st1, 0, path, Long);
    TouchSettle(u, st1, Count(Differ(Get(st1.types, Node(path)), Some(Long))), path, Long);
    Climb(u, st0, st1, st', path);
    Carry(d, st1.types, st'.types, path, 0, e.x, tx, tx);
  }

  /** Two operands visited in turn. */
  lemma {:induction false} PairAgrees(u: set<Slot>, d: Decls, path: Path, k: nat, e: Expr, l: Expr, tl: Type, r: Expr, tr0: Type, tr: Type, st: St)
    requires Operands(e, l, r) && Below(tr0, tr)
    requires Shape(u, d, st.types, path + [k], l) && Inv(d, st.types, path + [k], l, tl)
    requires Shape(u, d, st.types, path + [k + 1], r) && Inv(d, st.types, path + [k + 1], r, tr0)
    ensures var st1 := Visit(d, path + [k], l, tl, st);
      var st2 := Visit(d, path + [k + 1], r, tr, st1);
      && Grow(u, st, st2, path, 0)
      && Inv(d, st2.types, path + [k], l, tl) && Inv(d, st2.types, path + [k + 1], r, tr)
      && TypeOf(st1.types, path + [k], l) == TypeOf(st2.types, path + [k], l)
      && Below(TypeOf(st.types, path + [k + 1], r), TypeOf(st2.types, path + [k + 1], r))
    decreases e, 0
  {
    hide Visit, Shape, Inv, Grow, SameUnder;
    ChildAgrees(u, d, path, k, l, tl, st);
    var st1 := Visit(d, path + [k], l, tl, st);
    ShapeMono(u, d, st.types, st1.types, path + [k + 1], r);
    Carry(d, st.types, st1.types, path, k + 1, r, tr0, tr);
    ChildAgrees(u, d, path, k + 1, r, tr, st1);
    var st2 := Visit(d, path + [k + 1], r, tr, st1);
    Carry(d, st1.types, st2.types, path, k, l, tl, tl);
    GrowTrans(u, st, st1, st2, path, 0);
  }

  lemma {:induction false} BinaryAgrees(u: set<Slot>, d: Decls, path: Path, e: Expr, t: Type, st: St)
    requires e.Binary?
    requires Shape(u, d, st.types, path, e) && Inv(d, st.types, path, e, t)
    ensures Inv(d, VisitBinary(d, path, e, t, st).types, path, e, t)
    decreases e, 1
  {
    hide Visit, Grow, SameUnder, Touch, Sub;
    var Binary(op, l, r) := e;
    var st' := VisitBinary(d, path, e, t, st);
    if Plain(op) && (TypeOf(st.types, path + [0], l) == Some(Stats) || TypeOf(st.types, path + [1], r) == Some(Stats)) {
      assert st'.types == st.types;
    } else {
      var tl, tr := Some(LeftTy(op)), Some(RightTy(op));
      var st0 := Complain(st, Rejects(op, t));
      assert st0.types == st.types;
      PairAgrees(u, d, path, 0, e, l, tl, r, tr, tr, st0);
      var st2 := Visit(d, path + [1], r, tr, Visit(d, path + [0], l, tl, st0));
      NodeKept(u, st0, st2, path);
      TouchSettle(u, st2, Count(Pairs(op) && Differ(TypeOf(st2.types, path + [0], l), TypeOf(st2.types, path + [1], r))), path, ResultTy(op));
      Climb(u, st0, st2, st', path);
      Carry(d, st2.types, st'.types, path, 0, l, tl, tl);
      Carry(d, st2.types, st'.types, path, 1, r, tr, tr);
    }
  }

  lemma {:induction false} CompareAgrees(u: set<Slot>, d: Decls, path: Path, e: Expr, t: Type, st: St)
    requires e.Compare?
    requires Shape(u, d, st.types, path, e) && Inv(d, st.types, path, e, t)
    ensures Inv(d, VisitCompare(d, path, e, t, st).types, path, e, t)
    decreases e, 1
  {
    hide Visit, Grow, SameUnder, Touch, Sub;
    var Compare(l, r) := e;
    var st' := VisitCompare(d, path, e, t, st);
    var st0 := Complain(st, Count(t == Some(Stats) || t == Some(Str)));
    assert st0.types == st.types;
    var tl := TypeOf(st0.types, path + [1], r);
    ChildAgrees(u, d, path, 0, l, tl, st0);
    var st1 := Visit(d, path + [0], l, tl, st0);
    var tr := TypeOf(st1.types, path + [0], l);
    PairAgrees(u, d, path, 0, e, l, tl, r, TypeOf(st0.types, path + [0], l), tr, st0);
    var st2 := Visit(d, path + [1], r, tr, st1);
    TouchSettle(u, st2, Count(Differ(TypeOf(st2.types, path + [0], l), TypeOf(st2.types, path + [1], r))), path, Long);
    Climb(u, st0, st2, st', path);
    Carry(d, st2.types, st'.types, path, 0, l, tl, TypeOf(st2.types, path + [1], r));
    Carry(d, st2.types, st'.types, path, 1, r, tr, tr);
  }

  lemma PassedGrows(a: Types, b: Types, path: Path, t: Type)
    requires Sub(a, b)
    ensures Below(Passed(a, path, t), Passed(b, path, t)) && (Differ(t, Get(a, Node(path))) ==> Differ(t, Get(b, Node(path))))
  {
  }

  /** The arms of a ternary expression, from the state after its condition. */
  lemma {:induction false} ArmsAgree(u: set<Slot>, d: Decls, path: Path, e: Expr, t: Type, st: St, st': St)
    requires e.Cond?
    requires Shape(u, d, st.types, path + [1], e.a) && Shape(u, d, st.types, path + [2], e.b)
    requires !Differ(t, Get(st.types, Node(path))) ==>
      var sub := Passed(st.types, path, t);
      Inv(d, st.types, path + [1], e.a, sub) && Inv(d, st.types, path + [2], e.b, sub)
    requires var sub := Passed(st.types, path, t);
      var st2 := Visit(d, path + [2], e.b, sub, Visit(d, path + [1], e.a, sub, st));
      st' == Join(st2, Node(path), sub, TypeOf(st2.types, path + [1], e.a), TypeOf(st2.types, path + [2], e.b))
    requires Node(path) in u
    ensures Sub(st.types, st'.types) && SameUnder(st.types, st'.types, path + [0])
    ensures !Differ(t, Get(st'.types, Node(path))) ==>
      var sub := Passed(st'.types, path, t);
      Inv(d, st'.types, path + [1], e.a, sub) && Inv(d, st'.types, path + [2], e.b, sub)
    decreases e, 1
  {
    hide Grow, SameUnder, Touch, Sub, Join, Inv, Shape, Visit, Passed;
    var a, b := e.a, e.b;
    var sub := Passed(st.types, path, t);
    PairKeeps(u, d, path, 1, e, a, sub, b, sub, st);
    var st2 := Visit(d, path + [2], b, sub, Visit(d, path + [1], a, sub, st));
    TouchJoin(u, st2, path, sub, TypeOf(st2.types, path + [1], a), TypeOf(st2.types, path + [2], b));
    Climb(u, st, st2, st', path);
    GrowEarlier(u, st, st2, path, 1, 0);
    GrowSub(u, st, st', path, -1);
    SameUnderBoth(st.types, st2.types, st'.types, path + [0]);
    PassedGrows(st.types, st'.types, path, t);
    if !Differ(t, Get(st.types, Node(path))) {
      PairAgrees(u, d, path, 1, e, a, sub, b, sub, sub, st);
      Carry(d, st2.types, st'.types, path, 1, a, sub, Passed(st'.types, path, t));
      Carry(d, st2.types, st'.types, path, 2, b, sub, Passed(st'.types, path, t));
    }
  }

  lemma SameUnderBoth(a: Types, b: Types, c: Types, path: Path)
    requires SameUnder(a, b, path) && SameUnder(b, c, path)
    ensures SameUnder(a, c, path)
  {
    forall q | Within(path, -1, q) ensures SameNode(a, c, q) { assert SameNode(a, b, q) && SameNode(b, c, q); }
  }

  lemma {:induction false} CondAgrees(u: set<Slot>, d: Decls, path: Path, e: Expr, t: Type, st: St)
    requires e.Cond?
    requires Shape(u, d, st.types, path, e) && Inv(d, st.types, path, e, t)
    ensures Inv(d, VisitCond(d, path, e, t, st).types, path, e, t)
    decreases e, 2
  {
    hide Visit, Grow, SameUnder, Touch, Sub, Join;
    var Cond(c, a, b) := e;
    var st' := VisitCond(d, path, e, t, st);
    ChildAgrees(u, d, path, 0, c, Some(Long), st);
    var st1 := Visit(d, path + [0], c, Some(Long), st);
    NodeKept(u, st, st1, path);
    ShapeMono(u, d, st.types, st1.types, path + [1], a);
    ShapeMono(u, d, st.types, st1.types, path + [2], b);
    var sub := Passed(st1.types, path, t);
    if !Differ(t, Get(st.types, Node(path))) {
      Carry(d, st.types, st1.types, path, 1, a, sub, sub);
      Carry(d, st.types, st1.types, path, 2, b, sub, sub);
    }
    ArmsAgree(u, d, path, e, t, st1, st');
    Carry(d, st1.types, st'.types, path, 0, c, Some(Long), Some(Long));
  }

  lemma LvalueAgrees(d: Decls, types: Types, path: Path, l: Expr, t: Type, t': Type)
    requires Lvalue(l) && Inv(d, types, path, l, t)
    ensures Inv(d, types, path, l, t')
  {
  }

  lemma {:induction false} SetAgrees(u: set<Slot>, d: Decls, path: Path, e: Expr, t: Type, st: St)
    requires e.Set?
    requires Shape(u, d, st.types, path, e) && Inv(d, st.types, path, e, t)
    ensures Inv(d, VisitSet(d, path, e, t, st).types, path, e, t)
    decreases e, 1
  {
    hide Visit, Grow, SameUnder, Touch, Sub, Assigned;
    var Set(l, r) := e;
    var st' := VisitSet(d, path, e, t, st);
    var st0 := Complain(st, Count(t == Some(Stats)));
    assert st0.types == st.types;
    if TypeOf(st.types, path + [0], l) == Some(Stats) || TypeOf(st.types, path + [1], r) == Some(Stats) {
      assert st'.types == st.types;
    } else {
      var sub := Either(t, Get(st0.types, Node(path)));
      var tl := Either(sub, TypeOf(st0.types, path + [1], r));
      var st1 := Visit(d, path + [0], l, tl, st0);
      var lt := TypeOf(st1.types, path + [0], l);
      var tr := Either(sub, lt);
      var st2 := Visit(d, path + [1], r, tr, st1);
      LvalueAgrees(d, st0.types, path + [0], l, None, tl);
      ChildAgrees(u, d, path, 0, l, tl, st0);
      ShapeMono(u, d, st0.types, st1.types, path + [1], r);
      ChildKeeps(u, d, path, 1, r, tr, st1);
      GrowTrans(u, st0, st1, st2, path, 0);
      NodeKept(u, st0, st2, path);
      Carry(d, st1.types, st2.types, path, 0, l, tl, tl);
      TouchAssigned(u, st2, path, sub, lt, TypeOf(st2.types, path + [1], r));
      Climb(u, st0, st2, st', path);
      Carry(d, st2.types, st'.types, path, 0, l, tl, tl);
      LvalueAgrees(d, st'.types, path + [0], l, tl, None);
      AssignedType(st2, path, sub, lt, TypeOf(st2.types, path + [1], r));
      if !Differ(t, TypeOf(st.types, path + [0], l)) {
        Carry(d, st0.types, st1.types, path, 1, r, Either(sub, TypeOf(st0.types, path + [0], l)), tr);
        ChildAgrees(u, d, path, 1, r, tr, st1);
        Carry(d, st2.types, st'.types, path, 1, r, tr, Either(Passed(st'.types, path, t), lt));
      }
    }
  }

  lemma AssignedType(st: St, path: Path, sub: Type, l: Type, r: Type)
    requires sub.None? ==> Node(path) !in st.types
    ensures var ty, ty' := Get(st.types, Node(path)), Get(Assigned(st, Node(path), sub, l, r).types, Node(path));
      if ty.Some? then ty' == ty else ty' == Either(sub, l)
  {
  }

  lemma {:induction false} ArgsAgree(u: set<Slot>, d: Decls, path: Path, k: nat, es: seq<Expr>, formals: seq<Slot>, st: St)
    requires |es| == |formals| && Declared(u, formals)
    requires ShapeAll(u, d, st.types, path, k, es) && InvArgs(d, st.types, path, k, es, formals)
    ensures InvArgs(d, VisitArgs(d, path, k, es, formals, st).types, path, k, es, formals)
    decreases es, 0
  {
    hide Grow, SameUnder, Sub, Shape, Visit, MatchFormal, Inv;
    if es != [] {
      var t := Get(st.types, formals[0]);
      var st1 := Visit(d, path + [k], es[0], t, st);
      var at := TypeOf(st1.types, path + [k], es[0]);
      var st2 := MatchFormal(st1, at, formals[0]);
      ChildAgrees(u, d, path, k, es[0], t, st);
      MatchKeeps(u, st1, at, formals[0], path, k + 1);
      GrowSub(u, st1, st2, path, k + 1);
      SameUnderTrans(st.types, st1.types, st2.types, path, k);
      SubTrans(st.types, st1.types, st2.types);
      ShapeAllMono(u, d, st.types, st2.types, path, k + 1, es[1..]);
      InvArgsMono(d, st.types, st2.types, path, k + 1, es[1..], formals[1..]);
      ArgsAgree(u, d, path, k + 1, es[1..], formals[1..], st2);
      ArgsKeep(u, d, path, k + 1, es[1..], formals[1..], st2);
      var st' := VisitArgs(d, path, k + 1, es[1..], formals[1..], st2);
      GrowSub(u, st2, st', path, k + 1);
      GrowEarlier(u, st2, st', path, k + 1, k);
      SubTrans(st.types, st2.types, st'.types);
      GetMono(st.types, st'.types, formals[0]);
      Carry(d, st1.types, st2.types, path, k, es[0], t, t);
      Carry(d, st2.types, st'.types, path, k, es[0], t, Get(st'.types, formals[0]));
    }
  }

  lemma SubTrans(a: Types, b: Types, c: Types)
    requires Sub(a, b) && Sub(b, c)
    ensures Sub(a, c)
  {
  }

  lemma {:induction false} CallAgrees(u: set<Slot>, d: Decls, path: Path, e: Expr, t: Type, st: St)
    requires e.Call? || e.Index?
    requires Shape(u, d, st.types, path, e) && Inv(d, st.types, path, e, t)
    ensures Inv(d, Visit(d, path, e, t, st).types, path, e, t)
    decreases e, 1
  {
    hide Grow, SameUnder, Sub, Resolve2, VisitArgs, Touch;
    var te := if e.Call? then Fn(e.f) else Decl(e.arr);
    var st1 := Resolve2(st, Node(path), te, t, e.Call?);
    TouchResolve2(u, st, te, t, e.Call?, path);
    TouchSame(u, st, st1, path);
    TouchGrow(u, st, st1, path);
    GrowSub(u, st, st1, path, -1);
    var st2 := Complain(st1, if e.Call? then Count(Get(st1.types, Node(path)) == Some(Stats)) else 0);
    assert st2.types == st1.types;
    var formals := if e.Call? then FormalsOf(d, e.f) else KeysOf(d, e.arr);
    if |e.es| == |formals| {
      ShapeAllMono(u, d, st.types, st2.types, path, 0, e.es);
      InvArgsMono(d, st.types, st2.types, path, 0, e.es, formals);
      ArgsAgree(u, d, path, 0, e.es, formals, st2);
    }
  }

  lemma {:induction false} PrintedAgree(u: set<Slot>, d: Decls, path: Path, k: nat, es: seq<Expr>, st: St)
    requires ShapeAll(u, d, st.types, path, k, es) && InvPrinted(d, st.types, path, k, es)
    ensures InvPrinted(d, VisitPrinted(d, path, k, es, st).types, path, k, es)
    decreases es, 0
  {
    hide Grow, SameUnder, Sub, Shape, Visit, Inv;
    if es != [] {
      var st1 := Visit(d, path + [k], es[0], None, st);
      var st2 := Complain(st1, Count(TypeOf(st1.types, path + [k], es[0]).None?));
      ChildAgrees(u, d, path, k, es[0], None, st);
      assert st2.types == st1.types;
      ShapeAllMono(u, d, st.types, st2.types, path, k + 1, es[1..]);
      InvPrintedMono(d, st.types, st2.types, path, k + 1, es[1..]);
      PrintedAgree(u, d, path, k + 1, es[1..], st2);
      PrintedKeep(u, d, path, k + 1, es[1..], st2);
      var st' := VisitPrinted(d, path, k + 1, es[1..], st2);
      GrowSub(u, st2, st', path, k + 1);
      GrowEarlier(u, st2, st', path, k + 1, k);
      Carry(d, st2.types, st'.types, path, k, es[0], None, None);
    }
  }

  lemma {:induction false} PrintAgrees(u: set<Slot>, d: Decls, path: Path, e: Expr, t: Type, st: St)
    requires e.Print?
    requires Shape(u, d, st.types, path, e) && Inv(d, st.types, path, e, t)
    ensures Inv(d, Visit(d, path, e, t, st).types, path, e, t)
    decreases e, 1
  {
    hide Grow, SameUnder, Touch, Sub, AllKnown, VisitPrinted, AllResolved;
    var Print(toStream, es) := e;
    PrintedAgree(u, d, path, 0, es, st);
    PrintedKeep(u, d, path, 0, es, st);
    var st1 := VisitPrinted(d, path, 0, es, st);
    var st' := Visit(d, path, e, t, st);
    PrintStep(u, d, path, e, st, st1);
    Climb(u, st, st1, st', path);
    InvPrintedMono(d, st1.types, st'.types, path, 0, es);
  }

  lemma PrintStep(u: set<Slot>, d: Decls, path: Path, e: Expr, st: St, st1: St)
    requires e.Print? && Shape(u, d, st.types, path, e) && Grow(u, st, st1, path, 0)
    requires st1 == VisitPrinted(d, path, 0, e.es, st)
    ensures forall t :: Touch(u, st1, Visit(d, path, e, t, st), path)
  {
    hide Grow, SameUnder, Touch, AllKnown, VisitPrinted, AllResolved;
    ResolvedIsKnown(u, d, path, 0, e.es, st);
    NodeKept(u, st, st1, path);
    GrowSub(u, st, st1, path, 0);
    KnownStays(st.types, st1.types, path, 0, e.es);
    TouchSettle(u, st1, 0, path, PrintTy(e.toStream));
    TouchComplain(u, st1, 1, path);
    if !AllKnown(st1.types, path, 0, e.es) { assert st1.types - {Node(path)} == st1.types; }
  }
}
