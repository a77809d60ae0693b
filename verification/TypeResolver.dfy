/**
 The type resolver as it works: a visitor that updates types in place and counts, run again
 and again until a pass resolves nothing.
 */
module TypeResolver {
  import opened Basics
  import opened Types
  import opened TypeInvariant
  import opened TypePass
  import opened TypeLoop
  import opened TypeAgrees
  import opened TypePrincipal
  import opened TypeComplete
  import opened TypeClosed

  // ----- the initial state -----

  /** Only declarations have types before the first pass. */
  predicate Fresh(types: Types) { forall s | s in types :: !s.Node? }

  function SlotSet(xs: seq<Slot>): set<Slot> { set s | s in xs }

  function ExprSlots(d: Decls, path: Path, e: Expr): set<Slot>
    decreases e, 1
  {
    {Node(path)} +
    match e
    case Num => {}
    case Text => {}
    case Sym(v) => {Decl(v)}
    case Unary(x) => ExprSlots(d, path + [0], x)
    case In(x) => ExprSlots(d, path + [0], x)
    case Stat(x) => ExprSlots(d, path + [0], x)
    case Binary(_, l, r) => ExprSlots(d, path + [0], l) + ExprSlots(d, path + [1], r)
    case Compare(l, r) => ExprSlots(d, path + [0], l) + ExprSlots(d, path + [1], r)
    case Set(l, r) => ExprSlots(d, path + [0], l) + ExprSlots(d, path + [1], r)
    case Cond(c, a, b) => ExprSlots(d, path + [0], c) + ExprSlots(d, path + [1], a) + ExprSlots(d, path + [2], b)
    case Index(a, es) => {Decl(a)} + SlotSet(KeysOf(d, a)) + ListSlots(d, path, 0, es)
    case Call(f, es) => {Fn(f)} + SlotSet(FormalsOf(d, f)) + ListSlots(d, path, 0, es)
    case Print(_, es) => ListSlots(d, path, 0, es)
  }

  function ListSlots(d: Decls, path: Path, k: nat, es: seq<Expr>): set<Slot>
    decreases es, 0
  {
    if es == [] then {} else ExprSlots(d, path + [k], es[0]) + ListSlots(d, path, k + 1, es[1..])
  }

  function ItemSlots(d: Decls, x: Item): set<Slot> {
    match x
    case Expect(p, e, _) => ExprSlots(d, p, e)
    case Indexes(p, arr, es) => SlotSet(KeysOf(d, arr)) + ListSlots(d, p, 0, es)
    case Returned(p, f, e) => {Fn(f)} + ExprSlots(d, p, e)
  }

  function AllSlots(d: Decls, xs: seq<Item>): set<Slot>
    decreases xs
  {
    if xs == [] then {} else ItemSlots(d, xs[0]) + AllSlots(d, xs[1..])
  }

  /** The type slots of a program. */
  function ProgramSlots(p: Program): set<Slot> { AllSlots(p.d, ProgramItems(0, p.bodies)) }

  /** What is assigned to is a variable or an array element. */
  predicate Assignable(e: Expr)
    decreases e, 1
  {
    match e
    case Num => true
    case Text => true
    case Sym(_) => true
    case Unary(x) => Assignable(x)
    case In(x) => Assignable(x)
    case Stat(x) => Assignable(x)
    case Binary(_, l, r) => Assignable(l) && Assignable(r)
    case Compare(l, r) => Assignable(l) && Assignable(r)
    case Set(l, r) => Lvalue(l) && Assignable(l) && Assignable(r)
    case Cond(c, a, b) => Assignable(c) && Assignable(a) && Assignable(b)
    case Index(_, es) => AllAssignable(es)
    case Call(_, es) => AllAssignable(es)
    case Print(_, es) => AllAssignable(es)
  }

  predicate AllAssignable(es: seq<Expr>)
    decreases es, 0
  {
    es == [] || (Assignable(es[0]) && AllAssignable(es[1..]))
  }

  predicate ProgramAssignable(p: Program) {
    forall x | x in ProgramItems(0, p.bodies) :: if x.Indexes? then AllAssignable(x.es) else Assignable(x.e)
  }

  lemma {:induction false} InitShape(u: set<Slot>, d: Decls, types: Types, path: Path, e: Expr)
    requires ExprSlots(d, path, e) <= u && Fresh(types) && Assignable(e)
    ensures Shape(u, d, types, path, e)
    decreases e, 1
  {
    match e
    case Num =>
    case Text =>
    case Sym(v) =>
    case Unary(x) => InitShape(u, d, types, path + [0], x);
    case In(x) => InitShape(u, d, types, path + [0], x);
    case Stat(x) => InitShape(u, d, types, path + [0], x);
    case Binary(_, l, r) => InitShape(u, d, types, path + [0], l); InitShape(u, d, types, path + [1], r);
    case Compare(l, r) => InitShape(u, d, types, path + [0], l); InitShape(u, d, types, path + [1], r);
    case Set(l, r) => InitShape(u, d, types, path + [0], l); InitShape(u, d, types, path + [1], r);
    case Cond(c, a, b) =>
      InitShape(u, d, types, path + [0], c);
      InitShape(u, d, types, path + [1], a);
      InitShape(u, d, types, path + [2], b);
    case Index(a, es) =>
      assert SlotSet(KeysOf(d, a)) <= u;
      InitShapes(u, d, types, path, 0, es);
    case Call(f, es) =>
      assert SlotSet(FormalsOf(d, f)) <= u;
      InitShapes(u, d, types, path, 0, es);
    case Print(_, es) => InitShapes(u, d, types, path, 0, es);
  }

  lemma {:induction false} InitShapes(u: set<Slot>, d: Decls, types: Types, path: Path, k: nat, es: seq<Expr>)
    requires ListSlots(d, path, k, es) <= u && Fresh(types) && AllAssignable(es)
    ensures ShapeAll(u, d, types, path, k, es)
    decreases es, 0
  {
    hide Shape;
    if es != [] {
      InitShape(u, d, types, path + [k], es[0]);
      InitShapes(u, d, types, path, k + 1, es[1..]);
    }
  }

  lemma {:induction false} InitExpr(d: Decls, types: Types, path: Path, e: Expr, t: Type)
    requires Fresh(types)
    ensures Inv(d, types, path, e, t)
    decreases e, 1
  {
    match e
    case Num =>
    case Text =>
    case Sym(v) =>
    case Unary(x) => InitExpr(d, types, path + [0], x, Some(Long));
    case In(x) => InitExpr(d, types, path + [0], x, None);
    case Stat(x) => InitExpr(d, types, path + [0], x, Some(Stats));
    case Binary(op, l, r) =>
      InitExpr(d, types, path + [0], l, Some(LeftTy(op)));
      InitExpr(d, types, path + [1], r, Some(RightTy(op)));
    case Compare(l, r) =>
      InitExpr(d, types, path + [0], l, TypeOf(types, path + [1], r));
      InitExpr(d, types, path + [1], r, TypeOf(types, path + [0], l));
    case Cond(c, a, b) =>
      InitExpr(d, types, path + [0], c, Some(Long));
      InitExpr(d, types, path + [1], a, Passed(types, path, t));
      InitExpr(d, types, path + [2], b, Passed(types, path, t));
    case Set(l, r) =>
      InitExpr(d, types, path + [0], l, None);
      InitExpr(d, types, path + [1], r, Either(Passed(types, path, t), TypeOf(types, path + [0], l)));
    case Index(a, es) =>
      InitList(d, types, path, 0, es, KeysOf(d, a));
    case Call(f, es) =>
      InitList(d, types, path, 0, es, FormalsOf(d, f));
    case Print(_, es) => InitList(d, types, path, 0, es, []);
  }

  lemma {:induction false} InitList(d: Decls, types: Types, path: Path, k: nat, es: seq<Expr>, formals: seq<Slot>)
    requires Fresh(types)
    ensures InvPrinted(d, types, path, k, es)
    ensures |es| == |formals| ==> InvArgs(d, types, path, k, es, formals)
    decreases es, 0
  {
    hide Inv;
    if es != [] {
      InitExpr(d, types, path + [k], es[0], None);
      if formals != [] { InitExpr(d, types, path + [k], es[0], Get(types, formals[0])); }
      InitList(d, types, path, k + 1, es[1..], if formals == [] then [] else formals[1..]);
    }
  }

  lemma {:induction false} SlotsOfItem(d: Decls, xs: seq<Item>, i: nat)
    requires i < |xs|
    ensures ItemSlots(d, xs[i]) <= AllSlots(d, xs)
    decreases xs
  {
    if i > 0 { SlotsOfItem(d, xs[1..], i - 1); }
  }

  lemma InitGood(p: Program, types: Types)
    requires Fresh(types) && ProgramAssignable(p)
    ensures Good(ProgramSlots(p) + types.Keys, p, types)
  {
    hide Shape, Inv, AllSlots;
    var u, xs := ProgramSlots(p) + types.Keys, ProgramItems(0, p.bodies);
    forall i | 0 <= i < |xs| ensures ItemGood(u, p.d, types, xs[i]) {
      SlotsOfItem(p.d, xs, i);
      assert xs[i] in xs;
      match xs[i]
      case Expect(path, e, t) =>
        InitShape(u, p.d, types, path, e);
        InitExpr(p.d, types, path, e, t);
      case Indexes(path, arr, es) =>
        assert SlotSet(KeysOf(p.d, arr)) <= u;
        InitShapes(u, p.d, types, path, 0, es);
        InitList(p.d, types, path, 0, es, KeysOf(p.d, arr));
      case Returned(path, f, e) =>
        InitShape(u, p.d, types, path, e);
        InitExpr(p.d, types, path, e, Get(types, Fn(f)));
    }
  }

  // ----- the resolver -----

  class Resolver {
    const d: Decls
    var types: Types
    var numNewlyResolved: nat
    var numStillUnresolved: nat
    var assertResolvability: bool
    /** The type expected by the context; visits may clobber it. */
    var t: Type

    ghost function S(): St
      reads this
    {
      St(types, numNewlyResolved, numStillUnresolved)
    }

    constructor (d: Decls, types: Types)
      ensures this.d == d && this.types == types
    {
      this.d, this.types := d, types;
      numNewlyResolved, numStillUnresolved, assertResolvability, t := 0, 0, false, None;
    }

    method Resolved(s: Slot, ty: Ty)
      modifies `types, `numNewlyResolved
      ensures S() == Resolve(old(S()), s, ty)
    {
      types := types[s := ty];
      numNewlyResolved := numNewlyResolved + 1;
    }

    /** An unresolved, invalid or mismatched type, if the condition holds. */
    method Unresolved(b: bool)
      modifies `numStillUnresolved
      ensures S() == Complain(old(S()), Count(b))
    {
      if b { numStillUnresolved := numStillUnresolved + 1; }
    }

    method Fix(s: Slot, ty: Ty)
      modifies `types, `numNewlyResolved
      ensures S() == Settle(old(S()), s, ty)
    {
      if Get(types, s).None? { Resolved(s, ty); }
    }

    method ResolveTwo(re: Slot, te: Slot, acceptUnknown: bool)
      modifies `types, `numNewlyResolved, `numStillUnresolved
      ensures S() == Resolve2(old(S()), re, te, old(t), acceptUnknown)
    {
      var a, b := Get(types, re), Get(types, te);
      if t.Some? && a == t && a == b {
      } else if t.None? && a.Some? && a == b {
      } else if Differ(a, b) || Differ(a, t) || Differ(b, t) {
        Unresolved(true);
      } else if a.None? && t.Some? {
        Resolved(re, t.value);
      } else if a.None? && b.Some? {
        Resolved(re, b.value);
      } else if a.Some? && b.None? {
        Resolved(te, a.value);
      } else {
        Unresolved(!acceptUnknown);
      }
    }

    method VisitExpr(path: Path, e: Expr)
      modifies this
      ensures S() == Visit(d, path, e, old(t), old(S()))
      ensures assertResolvability == old(assertResolvability)
      decreases e, 1
    {
      hide Settle, Resolve2, Join, Assigned;
      var me := Node(path);
      match e {
        case Num => Unresolved(Differ(Some(Long), t));
        case Text => Unresolved(Differ(Some(Str), t));
        case Sym(v) => ResolveTwo(me, Decl(v), false);
        case Unary(x) =>
          Unresolved(t == Some(Stats) || t == Some(Str));
          t := Some(Long);
          VisitExpr(path + [0], x);
          Fix(me, Long);
        case Binary(op, l, r) => VisitOperator(path, e);
        case Compare(_, _) => VisitShared(path, e);
        case Cond(_, _, _) => VisitShared(path, e);
        case Set(_, _) => VisitShared(path, e);
        case Index(arr, es) =>
          ResolveTwo(me, Decl(arr), false);
          if |es| != |KeysOf(d, arr)| { Unresolved(true); } else { VisitList(path, es, KeysOf(d, arr)); }
        case In(x) =>
          var t1 := t;
          t := None;
          VisitExpr(path + [0], x);
          if t1.None? && Get(types, me).Some? {
          } else if t1 == Some(Str) || t1 == Some(Stats) {
            Unresolved(true);
          } else {
            Fix(me, Long);
          }
        case Call(f, es) =>
          ResolveTwo(me, Fn(f), true);
          Unresolved(Get(types, me) == Some(Stats));
          if |es| != |FormalsOf(d, f)| { Unresolved(true); } else { VisitList(path, es, FormalsOf(d, f)); }
        case Print(toStream, es) =>
          var all := VisitPrint(path, es);
          if all {
            Fix(me, PrintTy(toStream));
          } else {
            types := types - {me};
            Unresolved(true);
          }
        case Stat(x) =>
          t := Some(Stats);
          VisitExpr(path + [0], x);
          Unresolved(Differ(Get(types, me), Some(Long)));
          Fix(me, Long);
      }
    }

    /** The nodes whose operands' expected types depend on each other. */
    method VisitShared(path: Path, e: Expr)
      requires e.Compare? || e.Cond? || e.Set?
      modifies this
      ensures S() == Visit(d, path, e, old(t), old(S()))
      ensures assertResolvability == old(assertResolvability)
      decreases e, 0
    {
      hide Settle, Join, Assigned;
      var me := Node(path);
      match e {
        case Compare(l, r) =>
          Unresolved(t == Some(Stats) || t == Some(Str));
          t := TypeOf(types, path + [1], r);
          VisitExpr(path + [0], l);
          t := TypeOf(types, path + [0], l);
          VisitExpr(path + [1], r);
          Unresolved(Differ(TypeOf(types, path + [0], l), TypeOf(types, path + [1], r)));
          Fix(me, Long);
        case Cond(c, a, b) =>
          var sub := t;
          t := Some(Long);
          VisitExpr(path + [0], c);
          sub := Either(sub, Get(types, me));
          t := sub;
          VisitExpr(path + [1], a);
          t := sub;
          VisitExpr(path + [2], b);
          JoinArms(me, sub, TypeOf(types, path + [1], a), TypeOf(types, path + [2], b));
        case Set(l, r) =>
          Unresolved(t == Some(Stats));
          if TypeOf(types, path + [0], l) == Some(Stats) || TypeOf(types, path + [1], r) == Some(Stats) {
            Unresolved(true);
          } else {
            var sub := Either(t, Get(types, me));
            t := Either(sub, TypeOf(types, path + [1], r));
            VisitExpr(path + [0], l);
            t := Either(sub, TypeOf(types, path + [0], l));
            VisitExpr(path + [1], r);
            Assign(me, sub, TypeOf(types, path + [0], l), TypeOf(types, path + [1], r));
          }
      }
    }

    method VisitOperator(path: Path, e: Expr)
      requires e.Binary?
      modifies this
      ensures S() == VisitBinary(d, path, e, old(t), old(S()))
      ensures assertResolvability == old(assertResolvability)
      decreases e, 0
    {
      hide Settle, Visit;
      var Binary(op, l, r) := e;
      var me := Node(path);
      if Plain(op) && (TypeOf(types, path + [0], l) == Some(Stats) || TypeOf(types, path + [1], r) == Some(Stats)) {
        Unresolved(t == Some(Stats));
        Unresolved(true);
        return;
      }
      numStillUnresolved := numStillUnresolved + Rejects(op, t);
      t := Some(LeftTy(op));
      VisitExpr(path + [0], l);
      t := Some(RightTy(op));
      VisitExpr(path + [1], r);
      Unresolved(Pairs(op) && Differ(TypeOf(types, path + [0], l), TypeOf(types, path + [1], r)));
      if op.Aggregate? && Get(types, me) == Some(Stats) { Resolved(me, Long); } else { Fix(me, ResultTy(op)); }
    }

    method JoinArms(me: Slot, sub: Type, a: Type, b: Type)
      modifies `types, `numNewlyResolved, `numStillUnresolved
      ensures S() == Join(old(S()), me, sub, a, b)
    {
      var ty := Get(types, me);
      if sub.None? && ty.Some? {
      } else if sub.Some? && ty.None? {
        Resolved(me, sub.value);
      } else if sub.None? && a.Some? {
        Resolved(me, a.value);
      } else if sub.None? && b.Some? {
        Resolved(me, b.value);
      } else {
        Unresolved(ty != sub);
      }
    }

    method Assign(me: Slot, sub: Type, l: Type, r: Type)
      modifies `types, `numNewlyResolved, `numStillUnresolved
      ensures S() == Assigned(old(S()), me, sub, l, r)
    {
      if sub.Some? { Fix(me, sub.value); }
      if sub.None? && l.Some? { Resolved(me, l.value); }
      Unresolved(Differ(l, r));
    }

    method MatchOne(at: Type, formal: Slot)
      modifies `types, `numNewlyResolved, `numStillUnresolved
      ensures S() == MatchFormal(old(S()), at, formal)
    {
      if (at == Some(Str) || at == Some(Long)) && Get(types, formal).None? { Resolved(formal, at.value); }
      CheckArgument(at, Get(types, formal));
    }

    method CheckArgument(at: Type, ft: Type)
      modifies `numStillUnresolved
      ensures S() == Complain(old(S()), Count(at == Some(Stats)) + Count(ft == Some(Stats)) + Count(Differ(at, ft)) + Count(at.None?))
    {
      Unresolved(at == Some(Stats));
      Unresolved(ft == Some(Stats));
      Unresolved(Differ(at, ft));
      Unresolved(at.None?);
    }

    method VisitList(path: Path, es: seq<Expr>, formals: seq<Slot>)
      requires |es| == |formals|
      modifies this
      ensures S() == VisitArgs(d, path, 0, es, formals, old(S()))
      ensures assertResolvability == old(assertResolvability)
      decreases es, 0
    {
      hide Visit, MatchFormal;
      var i := 0;
      while i < |es|
        invariant 0 <= i <= |es|
        invariant assertResolvability == old(assertResolvability)
        invariant VisitArgs(d, path, i, es[i..], formals[i..], S()) == VisitArgs(d, path, 0, es, formals, old(S()))
      {
        assert es[i..][0] == es[i] && es[i..][1..] == es[i + 1..];
        assert formals[i..][0] == formals[i] && formals[i..][1..] == formals[i + 1..];
        t := Get(types, formals[i]);
        VisitExpr(path + [i], es[i]);
        var at := TypeOf(types, path + [i], es[i]);
        MatchOne(at, formals[i]);
        i := i + 1;
      }
    }

    method VisitPrint(path: Path, es: seq<Expr>) returns (all: bool)
      modifies this
      ensures S() == VisitPrinted(d, path, 0, es, old(S())) && all == AllResolved(d, path, 0, es, old(S()))
      ensures assertResolvability == old(assertResolvability)
      decreases es, 0
    {
      hide Visit;
      var i, unresolvedArgs := 0, 0;
      while i < |es|
        invariant 0 <= i <= |es| && 0 <= unresolvedArgs
        invariant assertResolvability == old(assertResolvability)
        invariant VisitPrinted(d, path, i, es[i..], S()) == VisitPrinted(d, path, 0, es, old(S()))
        invariant AllResolved(d, path, 0, es, old(S())) <==> unresolvedArgs == 0 && AllResolved(d, path, i, es[i..], S())
      {
        assert es[i..][0] == es[i] && es[i..][1..] == es[i + 1..];
        t := None;
        VisitExpr(path + [i], es[i]);
        if TypeOf(types, path + [i], es[i]).None? {
          Unresolved(true);
          unresolvedArgs := unresolvedArgs + 1;
        }
        i := i + 1;
      }
      return unresolvedArgs == 0;
    }

    method VisitMaybe(path: Path, e: Option<Expr>, expected: Type)
      modifies this
      ensures S() == VisitOpt(d, path, e, expected, old(S()))
      ensures assertResolvability == old(assertResolvability)
    {
      if e.Some? {
        t := expected;
        VisitExpr(path, e.value);
      }
    }

    method VisitStatement(currentFunction: Option<string>, path: Path, s: Stmt)
      modifies this
      ensures S() == VisitStmt(d, currentFunction, path, s, old(S()))
      ensures assertResolvability == old(assertResolvability)
      decreases s
    {
      hide Visit, VisitArgs, VisitOpt;
      match s {
        case Jump =>
        case Do(e) =>
          t := None;
          VisitExpr(path + [0], e);
        case Block(ss) =>
          var i := 0;
          while i < |ss|
            invariant 0 <= i <= |ss|
            invariant assertResolvability == old(assertResolvability)
            invariant VisitBlock(d, currentFunction, path, i, ss[i..], S()) == VisitBlock(d, currentFunction, path, 0, ss, old(S()))
          {
            assert ss[i..][0] == ss[i] && ss[i..][1..] == ss[i + 1..];
            VisitStatement(currentFunction, path + [i], ss[i]);
            i := i + 1;
          }
        case If(c, a, b) =>
          t := Some(Long);
          VisitExpr(path + [0], c);
          VisitStatement(currentFunction, path + [1], a);
          VisitStatement(currentFunction, path + [2], b);
        case For(init, c, incr, body) =>
          VisitMaybe(path + [0], init, None);
          t := Some(Long);
          VisitExpr(path + [1], c);
          VisitMaybe(path + [2], incr, None);
          VisitStatement(currentFunction, path + [3], body);
        case Foreach(arr, es, limit, body) =>
          if |es| != |KeysOf(d, arr)| { Unresolved(true); } else { VisitList(path + [0], es, KeysOf(d, arr)); }
          VisitMaybe(path + [1], limit, Some(Long));
          VisitStatement(currentFunction, path + [2], body);
        case Return(e) =>
          if currentFunction.Some? { VisitReturn(path + [0], currentFunction.value, e); }
        case Try(body, v, handler) =>
          VisitStatement(currentFunction, path + [0], body);
          VisitMaybe(path + [1], v, Some(Str));
          VisitStatement(currentFunction, path + [2], handler);
      }
    }

    method VisitReturn(path: Path, f: string, e: Expr)
      modifies this
      ensures S() == VisitReturned(d, path, f, e, old(S()))
      ensures assertResolvability == old(assertResolvability)
    {
      hide Visit;
      t := Get(types, Fn(f));
      VisitExpr(path, e);
      var ft, at := Get(types, Fn(f)), TypeOf(types, path, e);
      Unresolved(Differ(ft, at));
      if ft.None? && (at == Some(Long) || at == Some(Str)) { Resolved(Fn(f), at.value); }
      Unresolved(at == Some(Stats));
    }

    method RunPass(p: Program)
      requires p.d == d
      modifies this
      ensures S() == Pass(p, old(types))
      ensures assertResolvability == old(assertResolvability)
    {
      hide VisitStmt, VisitOpt;
      numNewlyResolved, numStillUnresolved := 0, 0;
      ghost var before := S();
      var j := 0;
      while j < |p.bodies|
        invariant 0 <= j <= |p.bodies|
        invariant assertResolvability == old(assertResolvability)
        invariant VisitBodies(d, j, p.bodies[j..], S()) == VisitBodies(d, 0, p.bodies, before)
      {
        assert p.bodies[j..][0] == p.bodies[j] && p.bodies[j..][1..] == p.bodies[j + 1..];
        match p.bodies[j] {
          case FunctionBody(f, s) => VisitStatement(Some(f), [j, 0], s);
          case ProbeBody(s, c) =>
            VisitStatement(None, [j, 0], s);
            VisitMaybe([j, 1], c, Some(Long));
        }
        assert [j] + [0] == [j, 0] && [j] + [1] == [j, 1];
        j := j + 1;
      }
      ghost var after := S();
      j := 0;
      while j < |p.globals|
        invariant 0 <= j <= |p.globals| && types == after.types && numNewlyResolved == after.newly
        invariant assertResolvability == old(assertResolvability)
        invariant numStillUnresolved + UnknownGlobals(types, p.globals[j..]) == after.still + UnknownGlobals(types, p.globals)
      {
        assert p.globals[j..][0] == p.globals[j] && p.globals[j..][1..] == p.globals[j + 1..];
        Unresolved(Get(types, Decl(p.globals[j])).None?);
        j := j + 1;
      }
    }

    /** The loop: at most one pass for each type slot, one more with error messages, and the
        last.  It succeeds exactly when a pass has nothing to resolve and nothing to complain
        of; then the types found are well typed, up to prints and statistics.  They are part of
        every typing of the program, and if it fails every typing has a type that was left
        unresolved.  Whether it fails or not, nothing that one place knows is unknown at a place
        connected with it. */
    method InferTypes(p: Program) returns (ok: bool, iterations: nat)
      requires p.d == d && Fresh(types) && ProgramAssignable(p)
      modifies this
      ensures Sub(old(types), types)
      ensures iterations <= |ProgramSlots(p) + old(types).Keys| - |old(types)| + 2
      ensures Pass(p, types).types == types
      ensures ok <==> Pass(p, types).still == 0
      ensures ClosedProgram(p, types, false)
      ensures (exists w :: WellTyped(p, w) && Sub(old(types), w)) ==> ClosedProgram(p, types, true)
      ensures ok ==> (WellTyped(p, types) <==> PrintsFit(p, types))
      ensures forall w | WellTyped(p, w) && Sub(old(types), w) :: Sub(types, w)
      ensures !ok ==> forall w | WellTyped(p, w) && Sub(old(types), w) :: exists s :: s in w && s !in types
    {
      hide Good, WellTyped, PrintsFit, Pass, ClosedProgram;
      InitGood(p, types);
      ghost var u, before := ProgramSlots(p) + types.Keys, types;
      InitBound(u, p, types);
      assertResolvability, iterations := false, 0;
      while true
        invariant Good(u, p, types) && Sub(before, types) && |before| <= |types| <= |u|
        invariant forall w | WellTyped(p, w) && Sub(before, w) :: Sub(types, w)
        invariant iterations <= |types| - |before| + if assertResolvability then 1 else 0
        decreases |u| - |types|, if assertResolvability then 0 else 1
      {
        iterations := iterations + 1;
        ghost var start := types;
        PassKeeps(u, p, types);
        forall w | WellTyped(p, w) && Sub(before, w) ensures Sub(Pass(p, types).types, w) { PassBelow(p, types, w); }
        RunPass(p);
        SubTrans(before, start, types);
        if numNewlyResolved == 0 {
          PassClosed(u, p, types, types, false);
          if w :| WellTyped(p, w) && Sub(before, w) { PassClosed(u, p, types, w, true); }
          if numStillUnresolved == 0 {
            CleanPass(u, p, types);
            return true, iterations;
          } else if !assertResolvability {
            assertResolvability := true;
          } else {
            forall w | WellTyped(p, w) && Sub(before, w) ensures exists s :: s in w && s !in types {
              ComplaintIsUnresolved(p, types, w);
            }
            return false, iterations;
          }
        }
      }
    }
  }

  lemma InitBound(u: set<Slot>, p: Program, types: Types)
    requires Good(u, p, types)
    ensures |types| <= |u| && Sub(types, types)
  {
    Fewer(types, u);
  }
}
