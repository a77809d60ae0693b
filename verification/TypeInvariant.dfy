/**
 What every visit of the type inference keeps: known types never change, each new one is
 counted once and stays inside the program, and each node agrees with its operands.
 */
module TypeInvariant {
  import opened Basics
  import opened Types

  predicate OneOf(a: Type, ty: Ty) { a.None? || a == Some(ty) }

  predicate Lvalue(e: Expr) { e.Sym? || e.Index? }

  /** The expected type an assignment or ternary passes on: its own, or the type it already has. */
  function Passed(types: Types, path: Path, t: Type): Type { Either(t, Get(types, Node(path))) }

  // ----- the shape of a subtree: what does not depend on the expected type -----

  /** The slots of the subtree are in u, each node has no type yet or the one its kind gives it,
      and what is assigned to is a variable or an array element. */
  ghost predicate Shape(u: set<Slot>, d: Decls, types: Types, path: Path, e: Expr)
    decreases e, 1
  {
    var ty := Get(types, Node(path));
    && Node(path) in u
    && match e
       case Num => true
       case Text => true
       case Sym(v) => Decl(v) in u
       case Unary(x) => OneOf(ty, Long) && Shape(u, d, types, path + [0], x)
       case In(x) => OneOf(ty, Long) && Shape(u, d, types, path + [0], x)
       case Stat(x) => OneOf(ty, Long) && Shape(u, d, types, path + [0], x)
       case Binary(op, l, r) => OneOf(ty, ResultTy(op)) && Shape(u, d, types, path + [0], l) && Shape(u, d, types, path + [1], r)
       case Compare(l, r) => OneOf(ty, Long) && Shape(u, d, types, path + [0], l) && Shape(u, d, types, path + [1], r)
       case Cond(c, a, b) => Shape(u, d, types, path + [0], c) && Shape(u, d, types, path + [1], a) && Shape(u, d, types, path + [2], b)
       case Set(l, r) => Lvalue(l) && Shape(u, d, types, path + [0], l) && Shape(u, d, types, path + [1], r)
       case Index(a, es) => Decl(a) in u && Declared(u, KeysOf(d, a)) && ShapeAll(u, d, types, path, 0, es)
       case Call(f, es) => Fn(f) in u && Declared(u, FormalsOf(d, f)) && ShapeAll(u, d, types, path, 0, es)
       case Print(toStream, es) =>
         && OneOf(ty, PrintTy(toStream))
         && (ty.Some? ==> AllKnown(types, path, 0, es))
         && ShapeAll(u, d, types, path, 0, es)
  }

  predicate Declared(u: set<Slot>, formals: seq<Slot>) { forall f | f in formals :: f in u && !f.Node? }

  ghost predicate ShapeAll(u: set<Slot>, d: Decls, types: Types, path: Path, k: nat, es: seq<Expr>)
    decreases es, 0
  {
    es == [] || (Shape(u, d, types, path + [k], es[0]) && ShapeAll(u, d, types, path, k + 1, es[1..]))
  }

  lemma {:induction false} ShapeMono(u: set<Slot>, d: Decls, a: Types, b: Types, path: Path, e: Expr)
    requires Shape(u, d, a, path, e) && SameUnder(a, b, path)
    ensures Shape(u, d, b, path, e)
    decreases e, 1
  {
    hide SameUnder;
    SameTypeOf(a, b, path, Sym(""));
    SameUnderChildren(a, b, path);
    match e
    case Num =>
    case Text =>
    case Sym(v) =>
    case Unary(x) => ShapeMono(u, d, a, b, path + [0], x);
    case In(x) => ShapeMono(u, d, a, b, path + [0], x);
    case Stat(x) => ShapeMono(u, d, a, b, path + [0], x);
    case Binary(_, l, r) => ShapeMono(u, d, a, b, path + [0], l); ShapeMono(u, d, a, b, path + [1], r);
    case Compare(l, r) => ShapeMono(u, d, a, b, path + [0], l); ShapeMono(u, d, a, b, path + [1], r);
    case Set(l, r) => ShapeMono(u, d, a, b, path + [0], l); ShapeMono(u, d, a, b, path + [1], r);
    case Cond(c, x, y) =>
      ShapeMono(u, d, a, b, path + [0], c);
      ShapeMono(u, d, a, b, path + [1], x);
      ShapeMono(u, d, a, b, path + [2], y);
    case Index(_, es) => ShapeAllMono(u, d, a, b, path, 0, es);
    case Call(_, es) => ShapeAllMono(u, d, a, b, path, 0, es);
    case Print(_, es) =>
      ShapeAllMono(u, d, a, b, path, 0, es);
      SameAllKnown(a, b, path, 0, es);
  }

  lemma {:induction false} ShapeAllMono(u: set<Slot>, d: Decls, a: Types, b: Types, path: Path, k: nat, es: seq<Expr>)
    requires ShapeAll(u, d, a, path, k, es)
    requires forall j | k <= j < k + |es| :: SameUnder(a, b, path + [j])
    ensures ShapeAll(u, d, b, path, k, es)
    decreases es, 0
  {
    hide Shape, SameUnder;
    if es != [] {
      ShapeMono(u, d, a, b, path + [k], es[0]);
      ShapeAllMono(u, d, a, b, path, k + 1, es[1..]);
    }
  }

  // ----- agreement with the expected type -----

  /** The type recorded for each assignment is that of its left side or the one expected of it.
      A subtree whose expected type contradicts a type it already has is a permanent mismatch
      and promises nothing more. */
  ghost predicate Inv(d: Decls, types: Types, path: Path, e: Expr, t: Type)
    decreases e, 1
  {
    var ty := Get(types, Node(path));
    match e
    case Num => true
    case Text => true
    case Sym(v) => true
    case Unary(x) => Inv(d, types, path + [0], x, Some(Long))
    case In(x) => Inv(d, types, path + [0], x, None)
    case Stat(x) => Inv(d, types, path + [0], x, Some(Stats))
    case Binary(op, l, r) => Inv(d, types, path + [0], l, Some(LeftTy(op))) && Inv(d, types, path + [1], r, Some(RightTy(op)))
    case Compare(l, r) =>
      && Inv(d, types, path + [0], l, TypeOf(types, path + [1], r))
      && Inv(d, types, path + [1], r, TypeOf(types, path + [0], l))
    case Cond(c, a, b) =>
      && Inv(d, types, path + [0], c, Some(Long))
      && (!Differ(t, ty) ==>
          (&& Inv(d, types, path + [1], a, Passed(types, path, t))
           && Inv(d, types, path + [2], b, Passed(types, path, t))))
    case Set(l, r) =>
      var lt := TypeOf(types, path + [0], l);
      && Inv(d, types, path + [0], l, None)
      && (!Differ(t, lt) ==>
          (&& (ty.None? || ty == lt || ty == t)
           && Inv(d, types, path + [1], r, Either(Passed(types, path, t), lt))))
    case Index(a, es) => |es| == |KeysOf(d, a)| ==> InvArgs(d, types, path, 0, es, KeysOf(d, a))
    case Call(f, es) => |es| == |FormalsOf(d, f)| ==> InvArgs(d, types, path, 0, es, FormalsOf(d, f))
    case Print(toStream, es) => InvPrinted(d, types, path, 0, es)
  }

  ghost predicate InvArgs(d: Decls, types: Types, path: Path, k: nat, es: seq<Expr>, formals: seq<Slot>)
    requires |es| == |formals|
    decreases es, 0
  {
    es == [] ||
    (Inv(d, types, path + [k], es[0], Get(types, formals[0])) && InvArgs(d, types, path, k + 1, es[1..], formals[1..]))
  }

  ghost predicate InvPrinted(d: Decls, types: Types, path: Path, k: nat, es: seq<Expr>)
    decreases es, 0
  {
    es == [] || (Inv(d, types, path + [k], es[0], None) && InvPrinted(d, types, path, k + 1, es[1..]))
  }

  /** t is what is known of t'. */
  predicate Below(t: Type, t': Type) { t.None? || t == t' }

  // ----- the invariant survives what happens elsewhere -----

  lemma {:induction false} InvMono(d: Decls, a: Types, b: Types, path: Path, e: Expr, t: Type, t': Type)
    requires Inv(d, a, path, e, t) && Sub(a, b) && SameUnder(a, b, path) && Below(t, t')
    ensures Inv(d, b, path, e, t')
    decreases e, 1
  {
    hide Sub, SameUnder;
    SameTypeOf(a, b, path, Sym(""));
    SameUnderChildren(a, b, path);
    match e
    case Num =>
    case Text =>
    case Sym(v) =>
    case Unary(x) => InvMono(d, a, b, path + [0], x, Some(Long), Some(Long));
    case Binary(op, l, r) =>
      InvMono(d, a, b, path + [0], l, Some(LeftTy(op)), Some(LeftTy(op)));
      InvMono(d, a, b, path + [1], r, Some(RightTy(op)), Some(RightTy(op)));
    case Index(arr, es) =>
      if |es| == |KeysOf(d, arr)| { InvArgsMono(d, a, b, path, 0, es, KeysOf(d, arr)); }
    case In(x) => InvMono(d, a, b, path + [0], x, None, None);
    case Call(f, es) =>
      if |es| == |FormalsOf(d, f)| { InvArgsMono(d, a, b, path, 0, es, FormalsOf(d, f)); }
    case Print(_, es) => InvPrintedMono(d, a, b, path, 0, es);
    case Stat(x) => InvMono(d, a, b, path + [0], x, Some(Stats), Some(Stats));
    case Compare(_, _) => InvMonoShared(d, a, b, path, e, t, t');
    case Cond(_, _, _) => InvMonoShared(d, a, b, path, e, t, t');
    case Set(_, _) => InvMonoShared(d, a, b, path, e, t, t');
  }

  /** The nodes whose operands' expected types depend on each other. */
  lemma {:induction false} InvMonoShared(d: Decls, a: Types, b: Types, path: Path, e: Expr, t: Type, t': Type)
    requires e.Compare? || e.Cond? || e.Set?
    requires Inv(d, a, path, e, t) && Sub(a, b) && SameUnder(a, b, path) && Below(t, t')
    ensures Inv(d, b, path, e, t')
    decreases e, 0
  {
    hide Sub, SameUnder;
    SameTypeOf(a, b, path, Sym(""));
    SameUnderChildren(a, b, path);
    match e
    case Compare(l, r) =>
      SameTypeOf(a, b, path + [0], l);
      SameTypeOf(a, b, path + [1], r);
      InvMono(d, a, b, path + [0], l, TypeOf(a, path + [1], r), TypeOf(b, path + [1], r));
      InvMono(d, a, b, path + [1], r, TypeOf(a, path + [0], l), TypeOf(b, path + [0], l));
    case Cond(c, x, y) =>
      InvMono(d, a, b, path + [0], c, Some(Long), Some(Long));
      if !Differ(t', Get(b, Node(path))) {
        InvMono(d, a, b, path + [1], x, Passed(a, path, t), Passed(b, path, t'));
        InvMono(d, a, b, path + [2], y, Passed(a, path, t), Passed(b, path, t'));
      }
    case Set(l, r) =>
      SameTypeOf(a, b, path + [0], l);
      InvMono(d, a, b, path + [0], l, None, None);
      var lt := TypeOf(a, path + [0], l);
      if !Differ(t', lt) {
        InvMono(d, a, b, path + [1], r, Either(Passed(a, path, t), lt), Either(Passed(b, path, t'), lt));
      }
  }

  lemma SameUnderChildren(a: Types, b: Types, path: Path)
    requires SameUnder(a, b, path)
    ensures forall k: nat :: SameUnder(a, b, path + [k])
  {
    forall k: nat ensures SameUnder(a, b, path + [k]) { SameUnderChild(a, b, path, k); }
  }

  lemma SameAllKnown(a: Types, b: Types, path: Path, k: nat, es: seq<Expr>)
    requires SameUnder(a, b, path)
    ensures AllKnown(a, path, k, es) == AllKnown(b, path, k, es)
  {
    forall i | 0 <= i < |es| ensures TypeOf(a, path + [k + i], es[i]) == TypeOf(b, path + [k + i], es[i]) {
      SameUnderChild(a, b, path, k + i);
      SameTypeOf(a, b, path + [k + i], es[i]);
    }
  }

  lemma GetMono(a: Types, b: Types, s: Slot)
    requires Sub(a, b)
    ensures Below(Get(a, s), Get(b, s))
  {
  }

  lemma {:induction false} InvArgsMono(d: Decls, a: Types, b: Types, path: Path, k: nat, es: seq<Expr>, formals: seq<Slot>)
    requires |es| == |formals|
    requires InvArgs(d, a, path, k, es, formals) && Sub(a, b)
    requires forall j | k <= j < k + |es| :: SameUnder(a, b, path + [j])
    ensures InvArgs(d, b, path, k, es, formals)
    decreases es, 0
  {
    hide Inv, Sub, SameUnder;
    if es != [] {
      GetMono(a, b, formals[0]);
      InvMono(d, a, b, path + [k], es[0], Get(a, formals[0]), Get(b, formals[0]));
      InvArgsMono(d, a, b, path, k + 1, es[1..], formals[1..]);
    }
  }

  lemma {:induction false} InvPrintedMono(d: Decls, a: Types, b: Types, path: Path, k: nat, es: seq<Expr>)
    requires InvPrinted(d, a, path, k, es) && Sub(a, b)
    requires forall j | k <= j < k + |es| :: SameUnder(a, b, path + [j])
    ensures InvPrinted(d, b, path, k, es)
    decreases es, 0
  {
    hide Inv, Sub, SameUnder;
    if es != [] {
      InvMono(d, a, b, path + [k], es[0], None, None);
      InvPrintedMono(d, a, b, path, k + 1, es[1..]);
    }
  }
}
