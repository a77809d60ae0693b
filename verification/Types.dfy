/**
 Type inference: one pass visits every body, propagates types between expressions and
 declarations, and counts what it resolved and what it complained about.
 */
module Types {
  import opened Basics

  datatype Ty = Long | Str | Stats

  /** None stands for a type not known yet. */
  type Type = Option<Ty>

  /** Operators whose operand and result types are fixed.  The last three are assignments. */
  datatype Operator = Arith | Concat | ArithAssign | AppendAssign | Aggregate

  datatype Expr =
    | Num
    | Text
    | Sym(v: string)
    | Unary(x: Expr)
    | Binary(op: Operator, l: Expr, r: Expr)
    | Compare(l: Expr, r: Expr)
    | Cond(c: Expr, a: Expr, b: Expr)
    | Set(l: Expr, r: Expr)
    | Index(arr: string, es: seq<Expr>)
    | In(x: Expr)
    | Call(f: string, es: seq<Expr>)
    | Print(toStream: bool, es: seq<Expr>)
    | Stat(x: Expr)

  datatype Stmt =
    | Jump
    | Do(e: Expr)
    | Block(ss: seq<Stmt>)
    | If(c: Expr, a: Stmt, b: Stmt)
    | For(init: Option<Expr>, c: Expr, incr: Option<Expr>, body: Stmt)
    | Foreach(arr: string, es: seq<Expr>, limit: Option<Expr>, body: Stmt)
    | Return(e: Expr)
    | Try(body: Stmt, v: Option<Expr>, handler: Stmt)

  /** The position of a node: the body it is in, then a child index at each level. */
  type Path = seq<nat>

  /** The places that hold a type: a node, a declared variable, the value of a function, and an
      index of an array. */
  datatype Slot = Node(p: Path) | Decl(v: string) | Fn(f: string) | Key(arr: string, i: nat)

  /** The number of indexes of each array, and the formal arguments of each function. */
  datatype Decls = Decls(arity: map<string, nat>, formals: map<string, seq<string>>)

  type Types = map<Slot, Ty>

  /** The types known, and the two counters of a pass. */
  datatype St = St(types: Types, newly: nat, still: nat)

  function Get(types: Types, s: Slot): Type { if s in types then Some(types[s]) else None }

  /** The type recorded for an expression. */
  function TypeOf(types: Types, path: Path, e: Expr): Type {
    match e case Num => Some(Long) case Text => Some(Str) case _ => Get(types, Node(path))
  }

  // ----- the primitive steps -----

  function Resolve(st: St, s: Slot, ty: Ty): St { St(st.types[s := ty], st.newly + 1, st.still) }

  function Complain(st: St, n: nat): St { st.(still := st.still + n) }

  function Count(b: bool): nat { if b then 1 else 0 }

  predicate Differ(a: Type, b: Type) { a.Some? && b.Some? && a != b }

  function Settle(st: St, s: Slot, ty: Ty): St { if Get(st.types, s).None? then Resolve(st, s, ty) else st }

  /** A use and the declaration it refers to, in a context that expects t. */
  function Resolve2(st: St, re: Slot, te: Slot, t: Type, acceptUnknown: bool): St {
    var a, b := Get(st.types, re), Get(st.types, te);
    if t.Some? && a == t && a == b then st
    else if t.None? && a.Some? && a == b then st
    else if Differ(a, b) || Differ(a, t) || Differ(b, t) then Complain(st, 1)
    else if a.None? && t.Some? then Resolve(st, re, t.value)
    else if a.None? && b.Some? then Resolve(st, re, b.value)
    else if a.Some? && b.None? then Resolve(st, te, a.value)
    else if acceptUnknown then st
    else Complain(st, 1)
  }

  /** After an argument of type `at` has been visited, against its formal. */
  function MatchFormal(st: St, at: Type, formal: Slot): St {
    var st1 := if (at == Some(Str) || at == Some(Long)) && Get(st.types, formal).None? then Resolve(st, formal, at.value) else st;
    var ft := Get(st1.types, formal);
    Complain(st1, Count(at == Some(Stats)) + Count(ft == Some(Stats)) + Count(Differ(at, ft)) + Count(at.None?))
  }

  function LeftTy(op: Operator): Ty {
    match op case Concat => Str case AppendAssign => Str case Aggregate => Stats case _ => Long
  }

  function RightTy(op: Operator): Ty { match op case Concat => Str case AppendAssign => Str case _ => Long }

  function ResultTy(op: Operator): Ty { match op case Concat => Str case AppendAssign => Str case _ => Long }

  /** The assignments that refuse statistics on either side. */
  predicate Plain(op: Operator) { op.ArithAssign? || op.AppendAssign? }

  /** Complaints about the expected type. */
  function Rejects(op: Operator, t: Type): nat {
    match op
    case Arith => Count(t == Some(Stats) || t == Some(Str))
    case Concat => Count(t.Some? && t != Some(Str))
    case ArithAssign => Count(t == Some(Stats)) + Count(t == Some(Stats) || t == Some(Str))
    case AppendAssign => Count(t == Some(Stats)) + Count(t == Some(Stats) || t == Some(Long))
    case Aggregate => Count(t == Some(Stats)) + Count(t == Some(Str))
  }

  /** The operators that compare the types of their operands once more. */
  predicate Pairs(op: Operator) { op.Arith? || op.ArithAssign? }

  function Either(a: Type, b: Type): Type { if a.Some? then a else b }

  function PrintTy(toStream: bool): Ty { if toStream then Long else Str }

  predicate AllKnown(types: Types, path: Path, k: nat, es: seq<Expr>) {
    forall i | 0 <= i < |es| :: TypeOf(types, path + [k + i], es[i]).Some?
  }

  function Keys(arr: string, n: nat): (r: seq<Slot>)
    ensures |r| == n && forall i | 0 <= i < n :: r[i] == Key(arr, i)
  {
    if n == 0 then [] else Keys(arr, n - 1) + [Key(arr, n - 1)]
  }

  function KeysOf(d: Decls, arr: string): seq<Slot> { Keys(arr, if arr in d.arity then d.arity[arr] else 0) }

  function Formals(vs: seq<string>): (r: seq<Slot>)
    ensures |r| == |vs| && forall i | 0 <= i < |vs| :: r[i] == Decl(vs[i])
  {
    if vs == [] then [] else [Decl(vs[0])] + Formals(vs[1..])
  }

  function FormalsOf(d: Decls, f: string): seq<Slot> { Formals(if f in d.formals then d.formals[f] else []) }

  // ----- expressions -----

  function Visit(d: Decls, path: Path, e: Expr, t: Type, st: St): St
    decreases e, 1
  {
    var me := Node(path);
    match e
    case Num => Complain(st, Count(Differ(Some(Long), t)))
    case Text => Complain(st, Count(Differ(Some(Str), t)))
    case Sym(v) => Resolve2(st, me, Decl(v), t, false)
    case Unary(x) =>
      var st0 := Complain(st, Count(t == Some(Stats) || t == Some(Str)));
      Settle(Visit(d, path + [0], x, Some(Long), st0), me, Long)
    case Binary(_, _, _) => VisitBinary(d, path, e, t, st)
    case Compare(_, _) => VisitCompare(d, path, e, t, st)
    case Cond(_, _, _) => VisitCond(d, path, e, t, st)
    case Set(_, _) => VisitSet(d, path, e, t, st)
    case Index(arr, es) =>
      var st1 := Resolve2(st, me, Decl(arr), t, false);
      if |es| != |KeysOf(d, arr)| then Complain(st1, 1)
      else VisitArgs(d, path, 0, es, KeysOf(d, arr), st1)
    case In(x) =>
      var st1 := Visit(d, path + [0], x, None, st);
      if t.None? && Get(st1.types, me).Some? then st1
      else if t == Some(Str) || t == Some(Stats) then Complain(st1, 1)
      else Settle(st1, me, Long)
    case Call(f, es) =>
      var st1 := Resolve2(st, me, Fn(f), t, true);
      var st2 := Complain(st1, Count(Get(st1.types, me) == Some(Stats)));
      if |es| != |FormalsOf(d, f)| then Complain(st2, 1)
      else VisitArgs(d, path, 0, es, FormalsOf(d, f), st2)
    case Print(toStream, es) =>
      var st1 := VisitPrinted(d, path, 0, es, st);
      if AllResolved(d, path, 0, es, st) then Settle(st1, me, PrintTy(toStream))
      else Complain(st1.(types := st1.types - {me}), 1)
    case Stat(x) =>
      var st1 := Visit(d, path + [0], x, Some(Stats), st);
      Settle(Complain(st1, Count(Differ(Get(st1.types, me), Some(Long)))), me, Long)
  }

  function VisitBinary(d: Decls, path: Path, e: Expr, t: Type, st: St): St
    requires e.Binary?
    decreases e, 0
  {
    var me := Node(path);
    var Binary(op, l, r) := e;
    if Plain(op) && (TypeOf(st.types, path + [0], l) == Some(Stats) || TypeOf(st.types, path + [1], r) == Some(Stats)) then
      Complain(st, Count(t == Some(Stats)) + 1)
    else
      var st1 := Visit(d, path + [0], l, Some(LeftTy(op)), Complain(st, Rejects(op, t)));
      var st2 := Visit(d, path + [1], r, Some(RightTy(op)), st1);
      var differ := Differ(TypeOf(st2.types, path + [0], l), TypeOf(st2.types, path + [1], r));
      var st3 := Complain(st2, Count(Pairs(op) && differ));
      if op.Aggregate? && Get(st3.types, me) == Some(Stats) then Resolve(st3, me, Long) else Settle(st3, me, ResultTy(op))
  }

  function VisitCompare(d: Decls, path: Path, e: Expr, t: Type, st: St): St
    requires e.Compare?
    decreases e, 0
  {
    var me := Node(path);
    var Compare(l, r) := e;
    var st0 := Complain(st, Count(t == Some(Stats) || t == Some(Str)));
    var st1 := Visit(d, path + [0], l, TypeOf(st0.types, path + [1], r), st0);
    var st2 := Visit(d, path + [1], r, TypeOf(st1.types, path + [0], l), st1);
    var differ := Differ(TypeOf(st2.types, path + [0], l), TypeOf(st2.types, path + [1], r));
    Settle(Complain(st2, Count(differ)), me, Long)
  }

  function VisitCond(d: Decls, path: Path, e: Expr, t: Type, st: St): St
    requires e.Cond?
    decreases e, 0
  {
    var me := Node(path);
    var Cond(c, a, b) := e;
    var st1 := Visit(d, path + [0], c, Some(Long), st);
    var sub := Either(t, Get(st1.types, me));
    var st2 := Visit(d, path + [1], a, sub, st1);
    var st3 := Visit(d, path + [2], b, sub, st2);
    Join(st3, me, sub, TypeOf(st3.types, path + [1], a), TypeOf(st3.types, path + [2], b))
  }

  function VisitSet(d: Decls, path: Path, e: Expr, t: Type, st: St): St
    requires e.Set?
    decreases e, 0
  {
    var me := Node(path);
    var Set(l, r) := e;
    var st0 := Complain(st, Count(t == Some(Stats)));
    if TypeOf(st.types, path + [0], l) == Some(Stats) || TypeOf(st.types, path + [1], r) == Some(Stats) then Complain(st0, 1)
    else
      var sub := Either(t, Get(st0.types, me));
      var st1 := Visit(d, path + [0], l, Either(sub, TypeOf(st0.types, path + [1], r)), st0);
      var st2 := Visit(d, path + [1], r, Either(sub, TypeOf(st1.types, path + [0], l)), st1);
      Assigned(st2, me, sub, TypeOf(st2.types, path + [0], l), TypeOf(st2.types, path + [1], r))
  }

  /** The arguments of a call or the indexes of an array, from child k on. */
  function VisitArgs(d: Decls, path: Path, k: nat, es: seq<Expr>, formals: seq<Slot>, st: St): St
    requires |es| == |formals|
    decreases es, 0
  {
    if es == [] then st
    else
      var st1 := Visit(d, path + [k], es[0], Get(st.types, formals[0]), st);
      var st2 := MatchFormal(st1, TypeOf(st1.types, path + [k], es[0]), formals[0]);
      VisitArgs(d, path, k + 1, es[1..], formals[1..], st2)
  }

  /** The arguments of an unformatted print. */
  function VisitPrinted(d: Decls, path: Path, k: nat, es: seq<Expr>, st: St): St
    decreases es, 0
  {
    if es == [] then st
    else
      var st1 := Visit(d, path + [k], es[0], None, st);
      VisitPrinted(d, path, k + 1, es[1..], Complain(st1, Count(TypeOf(st1.types, path + [k], es[0]).None?)))
  }

  /** No argument of an unformatted print was unresolved when it was visited. */
  predicate AllResolved(d: Decls, path: Path, k: nat, es: seq<Expr>, st: St)
    decreases es, 0
  {
    es == [] ||
    (var st1 := Visit(d, path + [k], es[0], None, st);
     var at := TypeOf(st1.types, path + [k], es[0]);
     at.Some? && AllResolved(d, path, k + 1, es[1..], Complain(st1, Count(at.None?))))
  }

  /** The end of a ternary expression. */
  function Join(st: St, me: Slot, sub: Type, a: Type, b: Type): St {
    var ty := Get(st.types, me);
    if sub.None? && ty.Some? then st
    else if sub.Some? && ty.None? then Resolve(st, me, sub.value)
    else if sub.None? && a.Some? then Resolve(st, me, a.value)
    else if sub.None? && b.Some? then Resolve(st, me, b.value)
    else Complain(st, Count(ty != sub))
  }

  /** The end of an assignment. */
  function Assigned(st: St, me: Slot, sub: Type, l: Type, r: Type): St {
    var st1 := if sub.Some? then Settle(st, me, sub.value) else st;
    var st2 := if sub.None? && l.Some? then Resolve(st1, me, l.value) else st1;
    Complain(st2, Count(Differ(l, r)))
  }

  // ----- what a visit may change -----

  /** q is in the subtree at path; with lo >= 0, only below its children from number lo on. */
  predicate Within(path: Path, lo: int, q: Path) {
    && |path| <= |q| && q[..|path|] == path
    && (lo >= 0 ==> |path| < |q| && q[|path|] >= lo)
  }

  predicate Sub(a: Types, b: Types) { forall s | s in a :: s in b && a[s] == b[s] }

  predicate SameNode(a: Types, b: Types, q: Path) { Get(a, Node(q)) == Get(b, Node(q)) }

  /** No type known has changed, every newly known one was counted, and nodes outside the region
      are as before. */
  ghost predicate Grow(u: set<Slot>, a: St, b: St, path: Path, lo: int) {
    && Sub(a.types, b.types)
    && (a.types.Keys <= u ==> b.types.Keys <= u)
    && a.newly <= b.newly && a.still <= b.still
    && |b.types| == |a.types| + (b.newly - a.newly)
    && (b.newly == a.newly ==> b.types == a.types)
    && forall q | !Within(path, lo, q) :: SameNode(a.types, b.types, q)
  }

  lemma GrowTrans(u: set<Slot>, a: St, b: St, c: St, path: Path, lo: int)
    requires Grow(u, a, b, path, lo) && Grow(u, b, c, path, lo)
    ensures Grow(u, a, c, path, lo)
  {
    forall q | !Within(path, lo, q) ensures SameNode(a.types, c.types, q) {
      assert SameNode(a.types, b.types, q) && SameNode(b.types, c.types, q);
    }
  }

  lemma GrowWiden(u: set<Slot>, a: St, b: St, path: Path, lo: int, lo': int)
    requires Grow(u, a, b, path, lo) && lo' <= lo
    ensures Grow(u, a, b, path, lo')
  {
    forall q | !Within(path, lo', q) ensures SameNode(a.types, b.types, q) { assert !Within(path, lo, q); }
  }

  lemma GrowChild(u: set<Slot>, a: St, b: St, path: Path, k: nat)
    requires Grow(u, a, b, path + [k], -1)
    ensures Grow(u, a, b, path, k) && Grow(u, a, b, path, -1)
    ensures SameNode(a.types, b.types, path)
  {
    forall q | !Within(path, k, q) ensures SameNode(a.types, b.types, q) {
      Deeper(path, k, q);
      assert !Within(path + [k], -1, q);
    }
    GrowWiden(u, a, b, path, k, -1);
    assert !Within(path + [k], -1, path);
  }

  /** The subtrees of two children are disjoint. */
  lemma GrowSibling(u: set<Slot>, a: St, b: St, path: Path, k: nat, j: nat)
    requires Grow(u, a, b, path + [k], -1) && j != k
    ensures SameUnder(a.types, b.types, path + [j])
  {
    forall q | Within(path + [j], -1, q) ensures SameNode(a.types, b.types, q) {
      Deeper(path, j, q);
      Deeper(path, k, q);
      assert !Within(path + [k], -1, q);
    }
  }

  lemma GrowEarlier(u: set<Slot>, a: St, b: St, path: Path, lo: nat, j: nat)
    requires Grow(u, a, b, path, lo) && j < lo
    ensures SameUnder(a.types, b.types, path + [j])
  {
    forall q | Within(path + [j], -1, q) ensures SameNode(a.types, b.types, q) {
      Deeper(path, j, q);
      assert !Within(path, lo, q);
    }
  }

  ghost predicate SameUnder(a: Types, b: Types, path: Path) { forall q | Within(path, -1, q) :: SameNode(a, b, q) }

  lemma SameUnderChild(a: Types, b: Types, path: Path, k: nat)
    requires SameUnder(a, b, path)
    ensures SameUnder(a, b, path + [k])
  {
    forall q | Within(path + [k], -1, q) ensures SameNode(a, b, q) { Deeper(path, k, q); }
  }

  lemma SameTypeOf(a: Types, b: Types, path: Path, e: Expr)
    requires SameUnder(a, b, path)
    ensures TypeOf(a, path, e) == TypeOf(b, path, e)
  {
    assert Within(path, -1, path);
  }

  lemma Deeper(path: Path, k: nat, q: Path)
    ensures Within(path + [k], -1, q) ==> Within(path, k, q) && q[|path|] == k
  {
    if Within(path + [k], -1, q) {
      assert q[..|path|] == q[..|path| + 1][..|path|];
      assert q[..|path| + 1][|path|] == k;
    }
  }
}
