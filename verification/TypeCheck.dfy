/**
 A pass that resolves nothing and complains of nothing has checked the types of everything.
 */
module TypeCheck {
  import opened Basics
  import opened Types
  import opened TypeInvariant
  import opened TypeKeeps

  // ----- the typing rules -----

  /** Arithmetic is on numbers and concatenation on strings, assigning or not; a number is added to
      a statistic, and the result is the number. */
  predicate Operates(op: Operator, l: Type, r: Type, result: Type) {
    match op
    case Arith | ArithAssign => l == Some(Long) && r == Some(Long) && result == Some(Long)
    case Concat | AppendAssign => l == Some(Str) && r == Some(Str) && result == Some(Str)
    case Aggregate => l == Some(Stats) && r == Some(Long) && result == Some(Long)
  }

  ghost predicate Typed(d: Decls, types: Types, path: Path, e: Expr)
    decreases e, 1
  {
    var ty := Get(types, Node(path));
    match e
    case Num => true
    case Text => true
    case Sym(v) => ty.Some? && ty == Get(types, Decl(v))
    case Unary(x) => ty == TypeOf(types, path + [0], x) == Some(Long) && Typed(d, types, path + [0], x)
    case In(x) => ty == Some(Long) && Typed(d, types, path + [0], x)
    case Stat(x) => ty == Some(Long) && TypeOf(types, path + [0], x) == Some(Stats) && Typed(d, types, path + [0], x)
    case Binary(op, l, r) =>
      && Operates(op, TypeOf(types, path + [0], l), TypeOf(types, path + [1], r), ty)
      && Typed(d, types, path + [0], l) && Typed(d, types, path + [1], r)
    case Compare(l, r) =>
      && ty == Some(Long) && TypeOf(types, path + [0], l) == TypeOf(types, path + [1], r)
      && Typed(d, types, path + [0], l) && Typed(d, types, path + [1], r)
    case Cond(c, a, b) =>
      && TypeOf(types, path + [0], c) == Some(Long) && Typed(d, types, path + [0], c)
      && ty == TypeOf(types, path + [1], a) == TypeOf(types, path + [2], b)
      && Typed(d, types, path + [1], a) && Typed(d, types, path + [2], b)
    case Set(l, r) =>
      && ty.Some? && ty != Some(Stats) && ty == TypeOf(types, path + [0], l) == TypeOf(types, path + [1], r)
      && Typed(d, types, path + [0], l) && Typed(d, types, path + [1], r)
    case Index(a, es) =>
      && ty.Some? && ty == Get(types, Decl(a))
      && |es| == |KeysOf(d, a)| && TypedArgs(d, types, path, 0, es, KeysOf(d, a))
    case Call(f, es) =>
      && ty == Get(types, Fn(f)) && ty != Some(Stats)
      && |es| == |FormalsOf(d, f)| && TypedArgs(d, types, path, 0, es, FormalsOf(d, f))
    case Print(toStream, es) => ty == Some(if toStream then Long else Str) && TypedPrinted(d, types, path, 0, es)
  }

  /** Each argument has the type of its formal, a number or a string. */
  ghost predicate TypedArgs(d: Decls, types: Types, path: Path, k: nat, es: seq<Expr>, formals: seq<Slot>)
    requires |es| == |formals|
    decreases es, 0
  {
    es == [] ||
    (var at := TypeOf(types, path + [k], es[0]);
     && at.Some? && at != Some(Stats) && at == Get(types, formals[0])
     && Typed(d, types, path + [k], es[0])
     && TypedArgs(d, types, path, k + 1, es[1..], formals[1..]))
  }

  ghost predicate TypedPrinted(d: Decls, types: Types, path: Path, k: nat, es: seq<Expr>)
    decreases es, 0
  {
    es == [] ||
    (&& TypeOf(types, path + [k], es[0]).Some?
     && Typed(d, types, path + [k], es[0])
     && TypedPrinted(d, types, path, k + 1, es[1..]))
  }

  // ----- prints and statistics, which ignore the expected type -----

  predicate Fit(ty: Ty, t: Type) { t.Some? ==> t == Some(ty) }

  /** Every print and every statistic has the type its context expects. */
  ghost predicate Fits(d: Decls, types: Types, path: Path, e: Expr, t: Type)
    decreases e, 1
  {
    match e
    case Num => true
    case Text => true
    case Sym(v) => true
    case Unary(x) => Fits(d, types, path + [0], x, Some(Long))
    case In(x) => Fits(d, types, path + [0], x, None)
    case Stat(x) => Fit(Long, t) && Fits(d, types, path + [0], x, Some(Stats))
    case Binary(op, l, r) => Fits(d, types, path + [0], l, Some(LeftTy(op))) && Fits(d, types, path + [1], r, Some(RightTy(op)))
    case Compare(l, r) =>
      && Fits(d, types, path + [0], l, TypeOf(types, path + [1], r))
      && Fits(d, types, path + [1], r, TypeOf(types, path + [0], l))
    case Cond(c, a, b) =>
      && Fits(d, types, path + [0], c, Some(Long))
      && Fits(d, types, path + [1], a, Passed(types, path, t))
      && Fits(d, types, path + [2], b, Passed(types, path, t))
    case Set(l, r) =>
      && Fits(d, types, path + [0], l, None)
      && Fits(d, types, path + [1], r, Either(Passed(types, path, t), TypeOf(types, path + [0], l)))
    case Index(a, es) => |es| == |KeysOf(d, a)| ==> FitArgs(d, types, path, 0, es, KeysOf(d, a))
    case Call(f, es) => |es| == |FormalsOf(d, f)| ==> FitArgs(d, types, path, 0, es, FormalsOf(d, f))
    case Print(toStream, es) => Fit(PrintTy(toStream), t) && FitPrinted(d, types, path, 0, es)
  }

  ghost predicate FitArgs(d: Decls, types: Types, path: Path, k: nat, es: seq<Expr>, formals: seq<Slot>)
    requires |es| == |formals|
    decreases es, 0
  {
    es == [] ||
    (Fits(d, types, path + [k], es[0], Get(types, formals[0])) && FitArgs(d, types, path, k + 1, es[1..], formals[1..]))
  }

  ghost predicate FitPrinted(d: Decls, types: Types, path: Path, k: nat, es: seq<Expr>)
    decreases es, 0
  {
    es == [] || (Fits(d, types, path + [k], es[0], None) && FitPrinted(d, types, path, k + 1, es[1..]))
  }

  /** The expected type, if any, is the type. */
  predicate Meets(types: Types, path: Path, e: Expr, t: Type) { t.Some? ==> TypeOf(types, path, e) == t }

  // ----- a clean visit has checked its subtree -----

  lemma Squeeze(u: set<Slot>, a: St, b: St, path: Path, lo: int)
    requires Grow(u, a, b, path, lo) && b.newly <= a.newly && b.still <= a.still
    ensures a == b
  {
  }

  lemma {:induction false} Clean(u: set<Slot>, d: Decls, path: Path, e: Expr, t: Type, st: St)
    requires Shape(u, d, st.types, path, e) && Inv(d, st.types, path, e, t) && Fits(d, st.types, path, e, t)
    requires Visit(d, path, e, t, st) == st
    ensures Typed(d, st.types, path, e) && Meets(st.types, path, e, t)
    decreases e, 2
  {
    hide VisitBinary, VisitCompare, VisitCond, VisitSet;
    match e
    case Num =>
    case Text =>
    case Sym(v) =>
    case Unary(_) => OneChildClean(u, d, path, e, t, st);
    case In(_) => OneChildClean(u, d, path, e, t, st);
    case Stat(_) => OneChildClean(u, d, path, e, t, st);
    case Binary(_, _, _) => BinaryClean(u, d, path, e, t, st);
    case Compare(_, _) => CompareClean(u, d, path, e, t, st);
    case Cond(_, _, _) => CondClean(u, d, path, e, t, st);
    case Set(_, _) => SetClean(u, d, path, e, t, st);
    case Index(_, _) => CallClean(u, d, path, e, t, st);
    case Call(_, _) => CallClean(u, d, path, e, t, st);
    case Print(_, _) => PrintClean(u, d, path, e, t, st);
  }

  lemma Cases(t: Type)
    ensures t == None || t == Some(Long) || t == Some(Str) || t == Some(Stats)
  {
    match t { case None => case Some(ty) => match ty { case Long => case Str => case Stats => } }
  }

  lemma {:induction false} OneChildClean(u: set<Slot>, d: Decls, path: Path, e: Expr, t: Type, st: St)
    requires e.Unary? || e.In? || e.Stat?
    requires Shape(u, d, st.types, path, e) && Inv(d, st.types, path, e, t) && Fits(d, st.types, path, e, t)
    requires Visit(d, path, e, t, st) == st
    ensures Typed(d, st.types, path, e) && Meets(st.types, path, e, t)
    decreases e, 1
  {
    hide Grow, SameUnder, Sub;
    Cases(t);
    var n0 := if e.Unary? then Count(t == Some(Stats) || t == Some(Str)) else 0;
    var tx := if e.Unary? then Some(Long) else if e.In? then None else Some(Stats);
    var st0 := Complain(st, n0);
    assert st0.types == st.types;
    ChildKeeps(u, d, path, 0, e.x, tx, st0);
    Squeeze(u, st0, Visit(d, path + [0], e.x, tx, st0), path, 0);
    Clean(u, d, path + [0], e.x, tx, st);
  }

  /** Two operands whose visits together change and complain of nothing. */
  lemma {:induction false} PairSqueeze(u: set<Slot>, d: Decls, path: Path, k: nat, l: Expr, tl: Type, r: Expr, tr: Type, st: St)
    requires Shape(u, d, st.types, path + [k], l) && Shape(u, d, st.types, path + [k + 1], r)
    requires var st2 := Visit(d, path + [k + 1], r, tr, Visit(d, path + [k], l, tl, st));
      st2.newly <= st.newly && st2.still <= st.still
    ensures Visit(d, path + [k], l, tl, st) == st && Visit(d, path + [k + 1], r, tr, st) == st
  {
    hide Visit, Shape, SameUnder;
    ChildKeeps(u, d, path, k, l, tl, st);
    var st1 := Visit(d, path + [k], l, tl, st);
    ShapeMono(u, d, st.types, st1.types, path + [k + 1], r);
    ChildKeeps(u, d, path, k + 1, r, tr, st1);
    var st2 := Visit(d, path + [k + 1], r, tr, st1);
    Squeeze(u, st, st1, path, 0);
    Squeeze(u, st1, st2, path, 0);
  }

  lemma NotRejected(op: Operator, t: Type)
    requires Rejects(op, t) == 0
    ensures Fit(ResultTy(op), t)
  {
    Cases(t);
  }

  lemma {:induction false} BinaryClean(u: set<Slot>, d: Decls, path: Path, e: Expr, t: Type, st: St)
    requires e.Binary?
    requires Shape(u, d, st.types, path, e) && Inv(d, st.types, path, e, t) && Fits(d, st.types, path, e, t)
    requires VisitBinary(d, path, e, t, st) == st
    ensures Typed(d, st.types, path, e) && Meets(st.types, path, e, t)
    decreases e, 1
  {
    hide Visit, Grow, SameUnder, Sub, Rejects;
    var Binary(op, l, r) := e;
    var tl, tr := Some(LeftTy(op)), Some(RightTy(op));
    var st0 := Complain(st, Rejects(op, t));
    assert st0.types == st.types;
    PairSqueeze(u, d, path, 0, l, tl, r, tr, st0);
    NotRejected(op, t);
    Clean(u, d, path + [0], l, tl, st);
    Clean(u, d, path + [1], r, tr, st);
  }

  lemma {:induction false} CompareClean(u: set<Slot>, d: Decls, path: Path, e: Expr, t: Type, st: St)
    requires e.Compare?
    requires Shape(u, d, st.types, path, e) && Inv(d, st.types, path, e, t) && Fits(d, st.types, path, e, t)
    requires VisitCompare(d, path, e, t, st) == st
    ensures Typed(d, st.types, path, e) && Meets(st.types, path, e, t)
    decreases e, 1
  {
    hide Visit, Grow, SameUnder, Sub;
    Cases(t);
    var Compare(l, r) := e;
    var st0 := Complain(st, Count(t == Some(Stats) || t == Some(Str)));
    assert st0.types == st.types;
    var tl := TypeOf(st.types, path + [1], r);
    var tr := TypeOf(Visit(d, path + [0], l, tl, st0).types, path + [0], l);
    PairSqueeze(u, d, path, 0, l, tl, r, tr, st0);
    Clean(u, d, path + [0], l, tl, st);
    Clean(u, d, path + [1], r, tr, st);
  }

  lemma {:induction false} CondSqueeze(u: set<Slot>, d: Decls, path: Path, e: Expr, sub: Type, st: St)
    requires e.Cond?
    requires Shape(u, d, st.types, path + [0], e.c) && Shape(u, d, st.types, path + [1], e.a) && Shape(u, d, st.types, path + [2], e.b)
    requires var st3 := Visit(d, path + [2], e.b, sub, Visit(d, path + [1], e.a, sub, Visit(d, path + [0], e.c, Some(Long), st)));
      st3.newly <= st.newly && st3.still <= st.still
    ensures Visit(d, path + [0], e.c, Some(Long), st) == st
    ensures Visit(d, path + [1], e.a, sub, st) == st && Visit(d, path + [2], e.b, sub, st) == st
  {
    hide Visit, Shape, SameUnder, Grow;
    ChildKeeps(u, d, path, 0, e.c, Some(Long), st);
    var st1 := Visit(d, path + [0], e.c, Some(Long), st);
    ShapeMono(u, d, st.types, st1.types, path + [1], e.a);
    ShapeMono(u, d, st.types, st1.types, path + [2], e.b);
    PairKeeps(u, d, path, 1, e, e.a, sub, e.b, sub, st1);
    Counters(u, st1, Visit(d, path + [2], e.b, sub, Visit(d, path + [1], e.a, sub, st1)), path, 0);
    Squeeze(u, st, st1, path, 0);
    PairSqueeze(u, d, path, 1, e.a, sub, e.b, sub, st);
  }

  lemma JoinClean(st: St, me: Slot, sub: Type, a: Type, b: Type)
    requires Join(st, me, sub, a, b) == st && (sub.None? ==> Get(st.types, me).None?)
    ensures Get(st.types, me) == sub && (sub.None? ==> a.None? && b.None?)
  {
  }

  lemma {:induction false} CondClean(u: set<Slot>, d: Decls, path: Path, e: Expr, t: Type, st: St)
    requires e.Cond?
    requires Shape(u, d, st.types, path, e) && Inv(d, st.types, path, e, t) && Fits(d, st.types, path, e, t)
    requires VisitCond(d, path, e, t, st) == st
    ensures Typed(d, st.types, path, e) && Meets(st.types, path, e, t)
    decreases e, 1
  {
    hide Visit, Join;
    var Cond(c, a, b) := e;
    var me := Node(path);
    var st1 := Visit(d, path + [0], c, Some(Long), st);
    ChildKeeps(u, d, path, 0, c, Some(Long), st);
    NodeKept(u, st, st1, path);
    var sub := Passed(st.types, path, t);
    var st3 := Visit(d, path + [2], b, sub, Visit(d, path + [1], a, sub, st1));
    JoinCounters(st3, me, sub, TypeOf(st3.types, path + [1], a), TypeOf(st3.types, path + [2], b));
    CondSqueeze(u, d, path, e, sub, st);
    JoinClean(st, me, sub, TypeOf(st.types, path + [1], a), TypeOf(st.types, path + [2], b));
    Clean(u, d, path + [0], c, Some(Long), st);
    Clean(u, d, path + [1], a, sub, st);
    Clean(u, d, path + [2], b, sub, st);
  }

  lemma JoinCounters(st: St, me: Slot, sub: Type, a: Type, b: Type)
    ensures var st' := Join(st, me, sub, a, b); st.newly <= st'.newly && st.still <= st'.still
  {
  }

  lemma Counters(u: set<Slot>, a: St, b: St, path: Path, lo: int)
    requires Grow(u, a, b, path, lo)
    ensures a.newly <= b.newly && a.still <= b.still
  {
  }

  lemma FitsLvalue(d: Decls, types: Types, path: Path, l: Expr, t: Type)
    requires Lvalue(l) && Fits(d, types, path, l, None) && Inv(d, types, path, l, None)
    ensures Fits(d, types, path, l, t) && Inv(d, types, path, l, t)
  {
  }

  lemma {:induction false} SetClean(u: set<Slot>, d: Decls, path: Path, e: Expr, t: Type, st: St)
    requires e.Set?
    requires Shape(u, d, st.types, path, e) && Inv(d, st.types, path, e, t) && Fits(d, st.types, path, e, t)
    requires VisitSet(d, path, e, t, st) == st
    ensures Typed(d, st.types, path, e) && Meets(st.types, path, e, t)
    decreases e, 1
  {
    hide Visit, Grow, SameUnder, Sub;
    Cases(t);
    var Set(l, r) := e;
    var st0 := Complain(st, Count(t == Some(Stats)));
    assert st0.types == st.types;
    var sub := Passed(st.types, path, t);
    var tl := Either(sub, TypeOf(st.types, path + [1], r));
    var tr := Either(sub, TypeOf(Visit(d, path + [0], l, tl, st0).types, path + [0], l));
    PairSqueeze(u, d, path, 0, l, tl, r, tr, st0);
    FitsLvalue(d, st.types, path + [0], l, tl);
    Clean(u, d, path + [0], l, tl, st);
    Clean(u, d, path + [1], r, tr, st);
  }

  lemma {:induction false} ArgsClean(u: set<Slot>, d: Decls, path: Path, k: nat, es: seq<Expr>, formals: seq<Slot>, st: St)
    requires |es| == |formals| && Declared(u, formals)
    requires ShapeAll(u, d, st.types, path, k, es) && InvArgs(d, st.types, path, k, es, formals) && FitArgs(d, st.types, path, k, es, formals)
    requires VisitArgs(d, path, k, es, formals, st) == st
    ensures TypedArgs(d, st.types, path, k, es, formals)
    decreases es, 0
  {
    hide SameUnder, Shape, Visit, Inv, Fits, Typed;
    if es != [] {
      var t := Get(st.types, formals[0]);
      ChildKeeps(u, d, path, k, es[0], t, st);
      var st1 := Visit(d, path + [k], es[0], t, st);
      var at := TypeOf(st1.types, path + [k], es[0]);
      var st2 := MatchFormal(st1, at, formals[0]);
      MatchKeeps(u, st1, at, formals[0], path, k);
      SameUnderTrans(st.types, st1.types, st2.types, path, k);
      ShapeAllMono(u, d, st.types, st2.types, path, k + 1, es[1..]);
      ArgsKeep(u, d, path, k + 1, es[1..], formals[1..], st2);
      Squeeze(u, st, st1, path, k);
      Squeeze(u, st1, st2, path, k);
      Clean(u, d, path + [k], es[0], t, st);
      ArgsClean(u, d, path, k + 1, es[1..], formals[1..], st);
    }
  }

  lemma {:induction false} CallClean(u: set<Slot>, d: Decls, path: Path, e: Expr, t: Type, st: St)
    requires e.Call? || e.Index?
    requires Shape(u, d, st.types, path, e) && Inv(d, st.types, path, e, t) && Fits(d, st.types, path, e, t)
    requires Visit(d, path, e, t, st) == st
    ensures Typed(d, st.types, path, e) && Meets(st.types, path, e, t)
    decreases e, 1
  {
    hide Grow, SameUnder, Sub, VisitArgs, Touch;
    var te := if e.Call? then Fn(e.f) else Decl(e.arr);
    var st1 := Resolve2(st, Node(path), te, t, e.Call?);
    TouchResolve2(u, st, te, t, e.Call?, path);
    TouchSame(u, st, st1, path);
    TouchGrow(u, st, st1, path);
    var st2 := Complain(st1, if e.Call? then Count(Get(st1.types, Node(path)) == Some(Stats)) else 0);
    assert st2.types == st1.types;
    var formals := if e.Call? then FormalsOf(d, e.f) else KeysOf(d, e.arr);
    if |e.es| == |formals| {
      ShapeAllMono(u, d, st.types, st2.types, path, 0, e.es);
      ArgsKeep(u, d, path, 0, e.es, formals, st2);
      Counters(u, st2, VisitArgs(d, path, 0, e.es, formals, st2), path, 0);
      Squeeze(u, st, st1, path, -1);
      Squeeze(u, st2, VisitArgs(d, path, 0, e.es, formals, st2), path, 0);
      ArgsClean(u, d, path, 0, e.es, formals, st);
    } else {
      Counters(u, st, st1, path, -1);
      assert false;
    }
  }

  lemma {:induction false} PrintedClean(u: set<Slot>, d: Decls, path: Path, k: nat, es: seq<Expr>, st: St)
    requires ShapeAll(u, d, st.types, path, k, es) && InvPrinted(d, st.types, path, k, es) && FitPrinted(d, st.types, path, k, es)
    requires VisitPrinted(d, path, k, es, st) == st
    ensures TypedPrinted(d, st.types, path, k, es)
    decreases es, 0
  {
    hide SameUnder, Shape, Visit, Inv, Fits, Typed;
    if es != [] {
      ChildKeeps(u, d, path, k, es[0], None, st);
      var st1 := Visit(d, path + [k], es[0], None, st);
      var st2 := Complain(st1, Count(TypeOf(st1.types, path + [k], es[0]).None?));
      assert st2.types == st1.types;
      ShapeAllMono(u, d, st.types, st2.types, path, k + 1, es[1..]);
      PrintedKeep(u, d, path, k + 1, es[1..], st2);
      Squeeze(u, st, st1, path, k);
      Clean(u, d, path + [k], es[0], None, st);
      PrintedClean(u, d, path, k + 1, es[1..], st);
    }
  }

  lemma {:induction false} PrintClean(u: set<Slot>, d: Decls, path: Path, e: Expr, t: Type, st: St)
    requires e.Print?
    requires Shape(u, d, st.types, path, e) && Inv(d, st.types, path, e, t) && Fits(d, st.types, path, e, t)
    requires Visit(d, path, e, t, st) == st
    ensures Typed(d, st.types, path, e) && Meets(st.types, path, e, t)
    decreases e, 1
  {
    hide VisitPrinted, AllKnown, Grow, AllResolved;
    PrintedKeep(u, d, path, 0, e.es, st);
    var st1 := VisitPrinted(d, path, 0, e.es, st);
    Counters(u, st, st1, path, 0);
    Squeeze(u, st, st1, path, 0);
    PrintedClean(u, d, path, 0, e.es, st);
  }

  // ----- and conversely -----

  /** In a well-typed expression prints and statistics are where their types are wanted. */
  lemma {:induction false} TypedFits(d: Decls, types: Types, path: Path, e: Expr, t: Type)
    requires Typed(d, types, path, e) && Meets(types, path, e, t)
    ensures Fits(d, types, path, e, t)
    decreases e, 1
  {
    match e
    case Num =>
    case Text =>
    case Sym(v) =>
    case Unary(x) => TypedFits(d, types, path + [0], x, Some(Long));
    case In(x) => TypedFits(d, types, path + [0], x, None);
    case Stat(x) => TypedFits(d, types, path + [0], x, Some(Stats));
    case Binary(op, l, r) =>
      TypedFits(d, types, path + [0], l, Some(LeftTy(op)));
      TypedFits(d, types, path + [1], r, Some(RightTy(op)));
    case Compare(l, r) =>
      TypedFits(d, types, path + [0], l, TypeOf(types, path + [1], r));
      TypedFits(d, types, path + [1], r, TypeOf(types, path + [0], l));
    case Cond(c, a, b) =>
      TypedFits(d, types, path + [0], c, Some(Long));
      TypedFits(d, types, path + [1], a, Passed(types, path, t));
      TypedFits(d, types, path + [2], b, Passed(types, path, t));
    case Set(l, r) =>
      TypedFits(d, types, path + [0], l, None);
      TypedFits(d, types, path + [1], r, Either(Passed(types, path, t), TypeOf(types, path + [0], l)));
    case Index(a, es) => TypedArgsFit(d, types, path, 0, es, KeysOf(d, a));
    case Call(f, es) => TypedArgsFit(d, types, path, 0, es, FormalsOf(d, f));
    case Print(_, es) => TypedPrintedFit(d, types, path, 0, es);
  }

  lemma {:induction false} TypedArgsFit(d: Decls, types: Types, path: Path, k: nat, es: seq<Expr>, formals: seq<Slot>)
    requires |es| == |formals| && TypedArgs(d, types, path, k, es, formals)
    ensures FitArgs(d, types, path, k, es, formals)
    decreases es, 0
  {
    if es != [] {
      TypedFits(d, types, path + [k], es[0], Get(types, formals[0]));
      TypedArgsFit(d, types, path, k + 1, es[1..], formals[1..]);
    }
  }

  lemma {:induction false} TypedPrintedFit(d: Decls, types: Types, path: Path, k: nat, es: seq<Expr>)
    requires TypedPrinted(d, types, path, k, es)
    ensures FitPrinted(d, types, path, k, es)
    decreases es, 0
  {
    if es != [] {
      TypedFits(d, types, path + [k], es[0], None);
      TypedPrintedFit(d, types, path, k + 1, es[1..]);
    }
  }

  // ----- which expressions are left without a type -----

  /** A call of a function that returns nothing, or a choice between two of them. */
  predicate Void(types: Types, e: Expr) {
    match e
    case Call(f, _) => Get(types, Fn(f)).None?
    case Cond(_, a, b) => Void(types, a) && Void(types, b)
    case _ => false
  }

  lemma {:induction false} TypedKnown(d: Decls, types: Types, path: Path, e: Expr)
    requires Typed(d, types, path, e)
    ensures TypeOf(types, path, e).None? <==> Void(types, e)
    decreases e
  {
    if e.Cond? {
      TypedKnown(d, types, path + [1], e.a);
      TypedKnown(d, types, path + [2], e.b);
    }
  }
}
