/**
 Every visit keeps the invariant and only adds types.
 */
module TypeKeeps {
  import opened Basics
  import opened Types
  import opened TypeInvariant

  // ----- the steps at one node -----

  /** Only the node at path and declarations may have got a type. */
  ghost predicate Touch(u: set<Slot>, a: St, b: St, path: Path) {
    && Grow(u, a, b, path, -1)
    && forall q | q != path :: SameNode(a.types, b.types, q)
  }

  lemma TouchTrans(u: set<Slot>, a: St, b: St, c: St, path: Path)
    requires Touch(u, a, b, path) && Touch(u, b, c, path)
    ensures Touch(u, a, c, path)
  {
    GrowTrans(u, a, b, c, path, -1);
    forall q | q != path ensures SameNode(a.types, c.types, q) {
      assert SameNode(a.types, b.types, q) && SameNode(b.types, c.types, q);
    }
  }

  lemma TouchSame(u: set<Slot>, a: St, b: St, path: Path)
    requires Touch(u, a, b, path)
    ensures forall k: nat :: SameUnder(a.types, b.types, path + [k])
  {
    forall k: nat, q | Within(path + [k], -1, q) ensures SameNode(a.types, b.types, q) { assert q != path; }
  }

  lemma TouchResolve(u: set<Slot>, st: St, s: Slot, ty: Ty, path: Path)
    requires s !in st.types && s in u && (s.Node? ==> s.p == path)
    ensures Touch(u, st, Resolve(st, s, ty), path)
    ensures !s.Node? ==> forall q :: SameNode(st.types, Resolve(st, s, ty).types, q)
  {
    assert Within(path, -1, path);
  }

  lemma TouchComplain(u: set<Slot>, st: St, n: nat, path: Path)
    ensures Touch(u, st, Complain(st, n), path)
  {
  }

  lemma TouchSettle(u: set<Slot>, st: St, n: nat, path: Path, ty: Ty)
    requires Node(path) in u
    ensures var st' := Settle(Complain(st, n), Node(path), ty);
      Touch(u, st, st', path) && (OneOf(Get(st.types, Node(path)), ty) ==> OneOf(Get(st'.types, Node(path)), ty))
  {
    TouchComplain(u, st, n, path);
    var st1 := Complain(st, n);
    if Get(st1.types, Node(path)).None? {
      TouchResolve(u, st1, Node(path), ty, path);
      TouchTrans(u, st, st1, Resolve(st1, Node(path), ty), path);
    }
  }

  lemma TouchResolve2(u: set<Slot>, st: St, te: Slot, t: Type, accept: bool, path: Path)
    requires Node(path) in u && te in u && !te.Node?
    ensures Touch(u, st, Resolve2(st, Node(path), te, t, accept), path)
  {
    TouchComplain(u, st, 0, path);
    TouchComplain(u, st, 1, path);
    var re := Node(path);
    var a, b := Get(st.types, re), Get(st.types, te);
    if a.None? && t.Some? { TouchResolve(u, st, re, t.value, path); }
    if a.None? && b.Some? { TouchResolve(u, st, re, b.value, path); }
    if a.Some? && b.None? { TouchResolve(u, st, te, a.value, path); }
  }

  lemma TouchMatch(u: set<Slot>, st: St, at: Type, formal: Slot, path: Path)
    requires formal in u && !formal.Node?
    ensures Touch(u, st, MatchFormal(st, at, formal), path)
    ensures forall q :: SameNode(st.types, MatchFormal(st, at, formal).types, q)
  {
    var st1 := if (at == Some(Str) || at == Some(Long)) && Get(st.types, formal).None? then Resolve(st, formal, at.value) else st;
    if st1 != st { TouchResolve(u, st, formal, at.value, path); } else { TouchComplain(u, st, 0, path); }
    var n := MatchFormal(st, at, formal).still - st1.still;
    TouchComplain(u, st1, n, path);
    TouchTrans(u, st, st1, Complain(st1, n), path);
  }

  lemma GrowComplain(u: set<Slot>, st: St, n: nat, b: St, path: Path, lo: int)
    requires Grow(u, Complain(st, n), b, path, lo)
    ensures Grow(u, st, b, path, lo)
  {
    forall q | !Within(path, lo, q) ensures SameNode(st.types, b.types, q) {
      assert SameNode(Complain(st, n).types, b.types, q);
    }
  }

  /** Child visits, then a step at the node itself. */
  lemma Climb(u: set<Slot>, a: St, b: St, c: St, path: Path)
    requires Grow(u, a, b, path, 0) && Touch(u, b, c, path)
    ensures Grow(u, a, c, path, -1) && SameNode(a.types, b.types, path)
    ensures Sub(b.types, c.types) && forall k: nat :: SameUnder(b.types, c.types, path + [k])
  {
    assert !Within(path, 0, path);
    GrowWiden(u, a, b, path, 0, -1);
    GrowTrans(u, a, b, c, path, -1);
    TouchSame(u, b, c, path);
  }

  // ----- shape -----

  lemma {:induction false} VisitKeeps(u: set<Slot>, d: Decls, path: Path, e: Expr, t: Type, st: St)
    requires Shape(u, d, st.types, path, e)
    ensures Grow(u, st, Visit(d, path, e, t, st), path, -1)
    ensures Shape(u, d, Visit(d, path, e, t, st).types, path, e)
    decreases e, 2
  {
    hide VisitBinary, VisitCompare, VisitCond, VisitSet, Grow, Complain, Resolve2;
    match e
    case Num => TouchComplain(u, st, Count(Differ(Some(Long), t)), path);
    case Text => TouchComplain(u, st, Count(Differ(Some(Str), t)), path);
    case Sym(v) => TouchResolve2(u, st, Decl(v), t, false, path);
    case Unary(_) => OneChildKeeps(u, d, path, e, t, st);
    case In(_) => OneChildKeeps(u, d, path, e, t, st);
    case Stat(_) => OneChildKeeps(u, d, path, e, t, st);
    case Binary(_, _, _) => BinaryKeeps(u, d, path, e, t, st);
    case Compare(_, _) => CompareKeeps(u, d, path, e, t, st);
    case Cond(_, _, _) => CondKeeps(u, d, path, e, t, st);
    case Set(_, _) => SetKeeps(u, d, path, e, t, st);
    case Index(_, _) => CallKeeps(u, d, path, e, t, st);
    case Call(_, _) => CallKeeps(u, d, path, e, t, st);
    case Print(_, _) => PrintKeeps(u, d, path, e, t, st);
  }

  /** One operand visited. */
  lemma {:induction false} ChildKeeps(u: set<Slot>, d: Decls, path: Path, k: nat, e: Expr, t: Type, st: St)
    requires Shape(u, d, st.types, path + [k], e)
    ensures var st' := Visit(d, path + [k], e, t, st);
      && Grow(u, st, st', path, k) && Grow(u, st, st', path, 0) && Sub(st.types, st'.types)
      && Shape(u, d, st'.types, path + [k], e)
      && (forall j: nat | j != k :: SameUnder(st.types, st'.types, path + [j]))
    decreases e, 3
  {
    hide Visit, Shape;
    VisitKeeps(u, d, path + [k], e, t, st);
    var st' := Visit(d, path + [k], e, t, st);
    GrowChild(u, st, st', path, k);
    GrowWiden(u, st, st', path, k, 0);
    forall j: nat | j != k ensures SameUnder(st.types, st'.types, path + [j]) { GrowSibling(u, st, st', path, k, j); }
  }

  lemma {:induction false} OneChildKeeps(u: set<Slot>, d: Decls, path: Path, e: Expr, t: Type, st: St)
    requires e.Unary? || e.In? || e.Stat?
    requires Shape(u, d, st.types, path, e)
    ensures Grow(u, st, Visit(d, path, e, t, st), path, -1)
    ensures Shape(u, d, Visit(d, path, e, t, st).types, path, e)
    decreases e, 1
  {
    hide Grow, SameUnder, Touch, Sub;
    var n0 := if e.Unary? then Count(t == Some(Stats) || t == Some(Str)) else 0;
    var tx := if e.Unary? then Some(Long) else if e.In? then None else Some(Stats);
    var st0 := Complain(st, n0);
    assert st0.types == st.types;
    ChildKeeps(u, d, path, 0, e.x, tx, st0);
    var st1 := Visit(d, path + [0], e.x, tx, st0);
    var st' := Visit(d, path, e, t, st);
    GrowComplain(u, st, n0, st1, path, 0);
    TouchComplain(u, st1, 0, path);
    TouchComplain(u, st1, 1, path);
    TouchSettle(u, st1, 0, path, Long);
    TouchSettle(u, st1, Count(Differ(Get(st1.types, Node(path)), Some(Long))), path, Long);
    NodeKept(u, st, st1, path);
    Climb(u, st, st1, st', path);
    ShapeMono(u, d, st1.types, st'.types, path + [0], e.x);
  }

  lemma NodeKept(u: set<Slot>, a: St, b: St, path: Path)
    requires Grow(u, a, b, path, 0)
    ensures Get(a.types, Node(path)) == Get(b.types, Node(path))
  {
    assert !Within(path, 0, path);
    assert SameNode(a.types, b.types, path);
  }

  predicate Operands(e: Expr, l: Expr, r: Expr) {
    if e.Cond? then l == e.a && r == e.b else (e.Binary? || e.Compare? || e.Set?) && l == e.l && r == e.r
  }

  /** Two operands visited in turn, whatever is expected of them. */
  lemma {:induction false} PairKeeps(u: set<Slot>, d: Decls, path: Path, k: nat, e: Expr, l: Expr, tl: Type, r: Expr, tr: Type, st: St)
    requires Operands(e, l, r)
    requires Shape(u, d, st.types, path + [k], l) && Shape(u, d, st.types, path + [k + 1], r)
    ensures var st1 := Visit(d, path + [k], l, tl, st);
      var st2 := Visit(d, path + [k + 1], r, tr, st1);
      && Grow(u, st, st2, path, k) && Grow(u, st, st2, path, 0)
      && Shape(u, d, st2.types, path + [k], l) && Shape(u, d, st2.types, path + [k + 1], r)
    decreases e, 0
  {
    hide Visit, Shape, Grow, SameUnder;
    ChildKeeps(u, d, path, k, l, tl, st);
    var st1 := Visit(d, path + [k], l, tl, st);
    ShapeMono(u, d, st.types, st1.types, path + [k + 1], r);
    ChildKeeps(u, d, path, k + 1, r, tr, st1);
    var st2 := Visit(d, path + [k + 1], r, tr, st1);
    ShapeMono(u, d, st1.types, st2.types, path + [k], l);
    GrowWiden(u, st1, st2, path, k + 1, k);
    GrowTrans(u, st, st1, st2, path, k);
    GrowTrans(u, st, st1, st2, path, 0);
  }

  lemma {:induction false} BinaryKeeps(u: set<Slot>, d: Decls, path: Path, e: Expr, t: Type, st: St)
    requires e.Binary?
    requires Shape(u, d, st.types, path, e)
    ensures Grow(u, st, VisitBinary(d, path, e, t, st), path, -1)
    ensures Shape(u, d, VisitBinary(d, path, e, t, st).types, path, e)
    decreases e, 1
  {
    hide Visit, Grow, SameUnder, Touch, Sub;
    var Binary(op, l, r) := e;
    var st' := VisitBinary(d, path, e, t, st);
    if Plain(op) && (TypeOf(st.types, path + [0], l) == Some(Stats) || TypeOf(st.types, path + [1], r) == Some(Stats)) {
      GrowComplaint(u, st, Count(t == Some(Stats)) + 1, path);
    } else {
      var n, tl, tr := Rejects(op, t), Some(LeftTy(op)), Some(RightTy(op));
      var st0 := Complain(st, n);
      assert st0.types == st.types;
      PairKeeps(u, d, path, 0, e, l, tl, r, tr, st0);
      var st2 := Visit(d, path + [1], r, tr, Visit(d, path + [0], l, tl, st0));
      GrowComplain(u, st, n, st2, path, 0);
      var m := Count(Pairs(op) && Differ(TypeOf(st2.types, path + [0], l), TypeOf(st2.types, path + [1], r)));
      TouchSettle(u, st2, m, path, ResultTy(op));
      NodeKept(u, st, st2, path);
      Climb(u, st, st2, st', path);
      ShapeMono(u, d, st2.types, st'.types, path + [0], l);
      ShapeMono(u, d, st2.types, st'.types, path + [1], r);
    }
  }

  lemma GrowComplaint(u: set<Slot>, st: St, n: nat, path: Path)
    ensures Grow(u, st, Complain(st, n), path, -1)
  {
  }

  lemma {:induction false} CompareKeeps(u: set<Slot>, d: Decls, path: Path, e: Expr, t: Type, st: St)
    requires e.Compare?
    requires Shape(u, d, st.types, path, e)
    ensures Grow(u, st, VisitCompare(d, path, e, t, st), path, -1)
    ensures Shape(u, d, VisitCompare(d, path, e, t, st).types, path, e)
    decreases e, 1
  {
    hide Visit, Grow, SameUnder, Touch, Sub;
    var Compare(l, r) := e;
    var st' := VisitCompare(d, path, e, t, st);
    var n := Count(t == Some(Stats) || t == Some(Str));
    var st0 := Complain(st, n);
    assert st0.types == st.types;
    var tl := TypeOf(st0.types, path + [1], r);
    var st1 := Visit(d, path + [0], l, tl, st0);
    var tr := TypeOf(st1.types, path + [0], l);
    PairKeeps(u, d, path, 0, e, l, tl, r, tr, st0);
    var st2 := Visit(d, path + [1], r, tr, st1);
    GrowComplain(u, st, n, st2, path, 0);
    TouchSettle(u, st2, Count(Differ(TypeOf(st2.types, path + [0], l), TypeOf(st2.types, path + [1], r))), path, Long);
    NodeKept(u, st, st2, path);
    Climb(u, st, st2, st', path);
    ShapeMono(u, d, st2.types, st'.types, path + [0], l);
    ShapeMono(u, d, st2.types, st'.types, path + [1], r);
  }

  lemma TouchJoin(u: set<Slot>, st: St, path: Path, sub: Type, a: Type, b: Type)
    requires Node(path) in u
    ensures Touch(u, st, Join(st, Node(path), sub, a, b), path)
  {
    var me := Node(path);
    TouchComplain(u, st, 0, path);
    TouchComplain(u, st, 1, path);
    if me !in st.types {
      if sub.Some? { TouchResolve(u, st, me, sub.value, path); }
      if a.Some? { TouchResolve(u, st, me, a.value, path); }
      if b.Some? { TouchResolve(u, st, me, b.value, path); }
    }
  }

  lemma {:induction false} CondKeeps(u: set<Slot>, d: Decls, path: Path, e: Expr, t: Type, st: St)
    requires e.Cond?
    requires Shape(u, d, st.types, path, e)
    ensures Grow(u, st, VisitCond(d, path, e, t, st), path, -1)
    ensures Shape(u, d, VisitCond(d, path, e, t, st).types, path, e)
    decreases e, 1
  {
    hide Visit, Grow, SameUnder, Touch, Sub;
    var Cond(c, a, b) := e;
    var st' := VisitCond(d, path, e, t, st);
    ChildKeeps(u, d, path, 0, c, Some(Long), st);
    var st1 := Visit(d, path + [0], c, Some(Long), st);
    ShapeMono(u, d, st.types, st1.types, path + [1], a);
    ShapeMono(u, d, st.types, st1.types, path + [2], b);
    var sub := Either(t, Get(st1.types, Node(path)));
    PairKeeps(u, d, path, 1, e, a, sub, b, sub, st1);
    var st3 := Visit(d, path + [2], b, sub, Visit(d, path + [1], a, sub, st1));
    GrowTrans(u, st, st1, st3, path, 0);
    TouchJoin(u, st3, path, sub, TypeOf(st3.types, path + [1], a), TypeOf(st3.types, path + [2], b));
    Climb(u, st, st3, st', path);
    GrowEarlier(u, st1, st3, path, 1, 0);
    ShapeMono(u, d, st1.types, st3.types, path + [0], c);
    ShapeMono(u, d, st3.types, st'.types, path + [0], c);
    ShapeMono(u, d, st3.types, st'.types, path + [1], a);
    ShapeMono(u, d, st3.types, st'.types, path + [2], b);
  }

  lemma TouchAssigned(u: set<Slot>, st: St, path: Path, sub: Type, l: Type, r: Type)
    requires Node(path) in u && (sub.None? ==> Node(path) !in st.types)
    ensures Touch(u, st, Assigned(st, Node(path), sub, l, r), path)
  {
    var me, n := Node(path), Count(Differ(l, r));
    var st' := Assigned(st, me, sub, l, r);
    TouchComplain(u, st, n, path);
    if me !in st.types {
      var ty := Either(sub, l);
      if ty.Some? {
        TouchResolve(u, st, me, ty.value, path);
        TouchComplain(u, Resolve(st, me, ty.value), n, path);
        TouchTrans(u, st, Resolve(st, me, ty.value), st', path);
      }
    }
  }

  lemma {:induction false} SetKeeps(u: set<Slot>, d: Decls, path: Path, e: Expr, t: Type, st: St)
    requires e.Set?
    requires Shape(u, d, st.types, path, e)
    ensures Grow(u, st, VisitSet(d, path, e, t, st), path, -1)
    ensures Shape(u, d, VisitSet(d, path, e, t, st).types, path, e)
    decreases e, 1
  {
    hide Visit, Grow, SameUnder, Touch, Sub, Assigned;
    var Set(l, r) := e;
    var st' := VisitSet(d, path, e, t, st);
    var n := Count(t == Some(Stats));
    var st0 := Complain(st, n);
    assert st0.types == st.types;
    if TypeOf(st.types, path + [0], l) == Some(Stats) || TypeOf(st.types, path + [1], r) == Some(Stats) {
      GrowComplaint(u, st, n + 1, path);
    } else {
      var sub := Either(t, Get(st0.types, Node(path)));
      var tl := Either(sub, TypeOf(st0.types, path + [1], r));
      var st1 := Visit(d, path + [0], l, tl, st0);
      var tr := Either(sub, TypeOf(st1.types, path + [0], l));
      PairKeeps(u, d, path, 0, e, l, tl, r, tr, st0);
      var st2 := Visit(d, path + [1], r, tr, st1);
      GrowComplain(u, st, n, st2, path, 0);
      NodeKept(u, st, st2, path);
      TouchAssigned(u, st2, path, sub, TypeOf(st2.types, path + [0], l), TypeOf(st2.types, path + [1], r));
      Climb(u, st, st2, st', path);
      ShapeMono(u, d, st2.types, st'.types, path + [0], l);
      ShapeMono(u, d, st2.types, st'.types, path + [1], r);
    }
  }

  lemma {:induction false} ArgsKeep(u: set<Slot>, d: Decls, path: Path, k: nat, es: seq<Expr>, formals: seq<Slot>, st: St)
    requires |es| == |formals| && Declared(u, formals)
    requires ShapeAll(u, d, st.types, path, k, es)
    ensures Grow(u, st, VisitArgs(d, path, k, es, formals, st), path, k)
    ensures ShapeAll(u, d, VisitArgs(d, path, k, es, formals, st).types, path, k, es)
    decreases es, 0
  {
    hide Grow, SameUnder, Touch, Sub, Shape, Visit, MatchFormal;
    if es == [] {
      GrowNothing(u, st, path, k);
    } else {
      var st1 := Visit(d, path + [k], es[0], Get(st.types, formals[0]), st);
      var at := TypeOf(st1.types, path + [k], es[0]);
      var st2 := MatchFormal(st1, at, formals[0]);
      ChildKeeps(u, d, path, k, es[0], Get(st.types, formals[0]), st);
      MatchKeeps(u, st1, at, formals[0], path, k);
      GrowTrans(u, st, st1, st2, path, k);
      SameUnderTrans(st.types, st1.types, st2.types, path, k);
      ShapeAllMono(u, d, st.types, st2.types, path, k + 1, es[1..]);
      ArgsKeep(u, d, path, k + 1, es[1..], formals[1..], st2);
      var st' := VisitArgs(d, path, k + 1, es[1..], formals[1..], st2);
      GrowEarlier(u, st2, st', path, k + 1, k);
      GrowWiden(u, st2, st', path, k + 1, k);
      GrowTrans(u, st, st2, st', path, k);
      ShapeMono(u, d, st1.types, st2.types, path + [k], es[0]);
      ShapeMono(u, d, st2.types, st'.types, path + [k], es[0]);
    }
  }

  lemma GrowNothing(u: set<Slot>, st: St, path: Path, lo: int)
    ensures Grow(u, st, st, path, lo)
  {
  }

  lemma MatchKeeps(u: set<Slot>, st: St, at: Type, formal: Slot, path: Path, lo: int)
    requires formal in u && !formal.Node?
    ensures Grow(u, st, MatchFormal(st, at, formal), path, lo)
    ensures forall j: nat :: SameUnder(st.types, MatchFormal(st, at, formal).types, path + [j])
  {
    TouchMatch(u, st, at, formal, path);
  }

  lemma SameUnderTrans(a: Types, b: Types, c: Types, path: Path, k: nat)
    requires forall j: nat | j != k :: SameUnder(a, b, path + [j])
    requires forall j: nat :: SameUnder(b, c, path + [j])
    ensures forall j: nat | j != k :: SameUnder(a, c, path + [j])
  {
    forall j: nat, q | j != k && Within(path + [j], -1, q) ensures SameNode(a, c, q) {
      assert SameUnder(a, b, path + [j]) && SameUnder(b, c, path + [j]);
      assert SameNode(a, b, q) && SameNode(b, c, q);
    }
  }

  lemma {:induction false} CallKeeps(u: set<Slot>, d: Decls, path: Path, e: Expr, t: Type, st: St)
    requires e.Call? || e.Index?
    requires Shape(u, d, st.types, path, e)
    ensures Grow(u, st, Visit(d, path, e, t, st), path, -1)
    ensures Shape(u, d, Visit(d, path, e, t, st).types, path, e)
    decreases e, 1
  {
    hide Grow, SameUnder, Sub, Resolve2, VisitArgs, Touch;
    var te := if e.Call? then Fn(e.f) else Decl(e.arr);
    var st1 := Resolve2(st, Node(path), te, t, e.Call?);
    TouchResolve2(u, st, te, t, e.Call?, path);
    var n := if e.Call? then Count(Get(st1.types, Node(path)) == Some(Stats)) else 0;
    var st2 := Complain(st1, n);
    TouchComplain(u, st1, n, path);
    TouchTrans(u, st, st1, st2, path);
    TouchSame(u, st, st2, path);
    ShapeAllMono(u, d, st.types, st2.types, path, 0, e.es);
    var formals := if e.Call? then FormalsOf(d, e.f) else KeysOf(d, e.arr);
    TouchGrow(u, st, st2, path);
    if |e.es| != |formals| {
      GrowComplaint(u, st2, 1, path);
      GrowTrans(u, st, st2, Complain(st2, 1), path, -1);
      assert Complain(st2, 1).types == st2.types;
    } else {
      ArgsKeep(u, d, path, 0, e.es, formals, st2);
      var st' := VisitArgs(d, path, 0, e.es, formals, st2);
      GrowWiden(u, st2, st', path, 0, -1);
      GrowTrans(u, st, st2, st', path, -1);
    }
  }

  lemma TouchGrow(u: set<Slot>, a: St, b: St, path: Path)
    requires Touch(u, a, b, path)
    ensures Grow(u, a, b, path, -1)
  {
  }

  lemma {:induction false} PrintedKeep(u: set<Slot>, d: Decls, path: Path, k: nat, es: seq<Expr>, st: St)
    requires ShapeAll(u, d, st.types, path, k, es)
    ensures Grow(u, st, VisitPrinted(d, path, k, es, st), path, k)
    ensures ShapeAll(u, d, VisitPrinted(d, path, k, es, st).types, path, k, es)
    decreases es, 0
  {
    hide Grow, SameUnder, Touch, Sub, Shape, Visit;
    if es == [] {
      GrowNothing(u, st, path, k);
    } else {
      var st1 := Visit(d, path + [k], es[0], None, st);
      var n := Count(TypeOf(st1.types, path + [k], es[0]).None?);
      var st2 := Complain(st1, n);
      ChildKeeps(u, d, path, k, es[0], None, st);
      assert st2.types == st1.types;
      ShapeAllMono(u, d, st.types, st2.types, path, k + 1, es[1..]);
      PrintedKeep(u, d, path, k + 1, es[1..], st2);
      var st' := VisitPrinted(d, path, k + 1, es[1..], st2);
      GrowEarlier(u, st2, st', path, k + 1, k);
      GrowWiden(u, st2, st', path, k + 1, k);
      GrowComplain(u, st1, n, st', path, k);
      GrowTrans(u, st, st1, st', path, k);
      ShapeMono(u, d, st2.types, st'.types, path + [k], es[0]);
    }
  }

  /** Later arguments leave the types of earlier ones alone. */
  lemma {:induction false} ResolvedIsKnown(u: set<Slot>, d: Decls, path: Path, k: nat, es: seq<Expr>, st: St)
    requires ShapeAll(u, d, st.types, path, k, es)
    ensures AllResolved(d, path, k, es, st) <==> AllKnown(VisitPrinted(d, path, k, es, st).types, path, k, es)
    decreases es, 0
  {
    hide Grow, SameUnder, Sub, Shape, Visit, AllKnown;
    if es == [] {
      KnownCons(VisitPrinted(d, path, k, es, st).types, path, k, es);
    } else {
      var st1 := Visit(d, path + [k], es[0], None, st);
      var st2 := Complain(st1, Count(TypeOf(st1.types, path + [k], es[0]).None?));
      ChildKeeps(u, d, path, k, es[0], None, st);
      assert st2.types == st1.types;
      ShapeAllMono(u, d, st.types, st2.types, path, k + 1, es[1..]);
      PrintedKeep(u, d, path, k + 1, es[1..], st2);
      ResolvedIsKnown(u, d, path, k + 1, es[1..], st2);
      var st' := VisitPrinted(d, path, k + 1, es[1..], st2);
      GrowEarlier(u, st2, st', path, k + 1, k);
      SameTypeOf(st2.types, st'.types, path + [k], es[0]);
      KnownCons(st'.types, path, k, es);
    }
  }

  lemma KnownCons(types: Types, path: Path, k: nat, es: seq<Expr>)
    ensures AllKnown(types, path, k, es) <==>
      es == [] || (TypeOf(types, path + [k], es[0]).Some? && AllKnown(types, path, k + 1, es[1..]))
  {
    if es != [] {
      if AllKnown(types, path, k, es) {
        assert TypeOf(types, path + [k + 0], es[0]).Some?;
        forall i | 0 <= i < |es[1..]| ensures TypeOf(types, path + [k + 1 + i], es[1..][i]).Some? {
          assert TypeOf(types, path + [k + (i + 1)], es[i + 1]).Some?;
        }
      }
      if TypeOf(types, path + [k], es[0]).Some? && AllKnown(types, path, k + 1, es[1..]) {
        forall i | 0 <= i < |es| ensures TypeOf(types, path + [k + i], es[i]).Some? {
          if i > 0 { assert TypeOf(types, path + [k + 1 + (i - 1)], es[1..][i - 1]).Some?; }
        }
      }
    }
  }

  lemma {:induction false} PrintKeeps(u: set<Slot>, d: Decls, path: Path, e: Expr, t: Type, st: St)
    requires e.Print?
    requires Shape(u, d, st.types, path, e)
    ensures Grow(u, st, Visit(d, path, e, t, st), path, -1)
    ensures Shape(u, d, Visit(d, path, e, t, st).types, path, e)
    decreases e, 1
  {
    hide Grow, SameUnder, Touch, AllKnown, VisitPrinted, AllResolved;
    var Print(toStream, es) := e;
    var me := Node(path);
    ResolvedIsKnown(u, d, path, 0, es, st);
    PrintedKeep(u, d, path, 0, es, st);
    var st1 := VisitPrinted(d, path, 0, es, st);
    var st' := Visit(d, path, e, t, st);
    NodeKept(u, st, st1, path);
    GrowSub(u, st, st1, path, 0);
    KnownStays(st.types, st1.types, path, 0, es);
    if AllKnown(st1.types, path, 0, es) {
      TouchSettle(u, st1, 0, path, PrintTy(toStream));
    } else {
      assert me !in st1.types;
      assert st1.types - {me} == st1.types;
      TouchComplain(u, st1, 1, path);
    }
    Climb(u, st, st1, st', path);
    ShapeAllMono(u, d, st1.types, st'.types, path, 0, es);
    KnownStays(st1.types, st'.types, path, 0, es);
  }

  lemma GrowSub(u: set<Slot>, a: St, b: St, path: Path, lo: int)
    requires Grow(u, a, b, path, lo)
    ensures Sub(a.types, b.types)
  {
  }

  lemma KnownStays(a: Types, b: Types, path: Path, k: nat, es: seq<Expr>)
    requires Sub(a, b)
    ensures AllKnown(a, path, k, es) ==> AllKnown(b, path, k, es)
  {
    if AllKnown(a, path, k, es) {
      forall i | 0 <= i < |es| ensures TypeOf(b, path + [k + i], es[i]).Some? {
        assert TypeOf(a, path + [k + i], es[i]).Some?;
      }
    }
  }
}
