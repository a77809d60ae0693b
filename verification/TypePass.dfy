/**
 The inference pass over a whole program, the loop that repeats it, and what the loop's
 success means.
 */
module TypePass {
  import opened Basics
  import opened Types

  datatype Body = FunctionBody(name: string, s: Stmt) | ProbeBody(s: Stmt, condition: Option<Expr>)

  /** The functions in the session's order, then the probes. */
  datatype Program = Program(d: Decls, bodies: seq<Body>, globals: seq<string>)

  // ----- statements -----

  function VisitOpt(d: Decls, path: Path, e: Option<Expr>, t: Type, st: St): St {
    match e case None => st case Some(x) => Visit(d, path, x, t, st)
  }

  function VisitIndexes(d: Decls, path: Path, arr: string, es: seq<Expr>, st: St): St {
    if |es| != |KeysOf(d, arr)| then Complain(st, 1) else VisitArgs(d, path, 0, es, KeysOf(d, arr), st)
  }

  function VisitReturned(d: Decls, path: Path, f: string, e: Expr, st: St): St {
    var st1 := Visit(d, path, e, Get(st.types, Fn(f)), st);
    var ft, at := Get(st1.types, Fn(f)), TypeOf(st1.types, path, e);
    var st2 := if ft.None? && (at == Some(Long) || at == Some(Str)) then Resolve(st1, Fn(f), at.value) else st1;
    Complain(st2, Count(Differ(ft, at)) + Count(at == Some(Stats)))
  }

  function VisitStmt(d: Decls, fn: Option<string>, path: Path, s: Stmt, st: St): St
    decreases s, 1
  {
    match s
    case Jump => st
    case Do(e) => Visit(d, path + [0], e, None, st)
    case Block(ss) => VisitBlock(d, fn, path, 0, ss, st)
    case If(c, a, b) =>
      VisitStmt(d, fn, path + [2], b, VisitStmt(d, fn, path + [1], a, Visit(d, path + [0], c, Some(Long), st)))
    case For(init, c, incr, body) =>
      var st2 := Visit(d, path + [1], c, Some(Long), VisitOpt(d, path + [0], init, None, st));
      VisitStmt(d, fn, path + [3], body, VisitOpt(d, path + [2], incr, None, st2))
    case Foreach(arr, es, limit, body) =>
      var st1 := VisitIndexes(d, path + [0], arr, es, st);
      VisitStmt(d, fn, path + [2], body, VisitOpt(d, path + [1], limit, Some(Long), st1))
    case Return(e) => (match fn case None => st case Some(f) => VisitReturned(d, path + [0], f, e, st))
    case Try(body, v, handler) =>
      VisitStmt(d, fn, path + [2], handler, VisitOpt(d, path + [1], v, Some(Str), VisitStmt(d, fn, path + [0], body, st)))
  }

  function VisitBlock(d: Decls, fn: Option<string>, path: Path, k: nat, ss: seq<Stmt>, st: St): St
    decreases ss, 0
  {
    if ss == [] then st else VisitBlock(d, fn, path, k + 1, ss[1..], VisitStmt(d, fn, path + [k], ss[0], st))
  }

  function VisitBody(d: Decls, path: Path, b: Body, st: St): St {
    match b
    case FunctionBody(f, s) => VisitStmt(d, Some(f), path + [0], s, st)
    case ProbeBody(s, c) => VisitOpt(d, path + [1], c, Some(Long), VisitStmt(d, None, path + [0], s, st))
  }

  function VisitBodies(d: Decls, k: nat, bs: seq<Body>, st: St): St
    decreases bs
  {
    if bs == [] then st else VisitBodies(d, k + 1, bs[1..], VisitBody(d, [k], bs[0], st))
  }

  function UnknownGlobals(types: Types, globals: seq<string>): nat
    decreases globals
  {
    if globals == [] then 0 else Count(Get(types, Decl(globals[0])).None?) + UnknownGlobals(types, globals[1..])
  }

  function Pass(p: Program, types: Types): St {
    var st := VisitBodies(p.d, 0, p.bodies, St(types, 0, 0));
    Complain(st, UnknownGlobals(st.types, p.globals))
  }

  // ----- a body as the list of the visits it makes -----

  datatype Item =
    | Expect(p: Path, e: Expr, t: Type)
    | Indexes(p: Path, arr: string, es: seq<Expr>)
    | Returned(p: Path, f: string, e: Expr)

  function VisitItem(d: Decls, x: Item, st: St): St {
    match x
    case Expect(p, e, t) => Visit(d, p, e, t, st)
    case Indexes(p, arr, es) => VisitIndexes(d, p, arr, es, st)
    case Returned(p, f, e) => VisitReturned(d, p, f, e, st)
  }

  function VisitItems(d: Decls, xs: seq<Item>, st: St): St
    decreases xs
  {
    if xs == [] then st else VisitItems(d, xs[1..], VisitItem(d, xs[0], st))
  }

  function ItemsOpt(path: Path, e: Option<Expr>, t: Type): seq<Item> {
    match e case None => [] case Some(x) => [Expect(path, x, t)]
  }

  function Items(fn: Option<string>, path: Path, s: Stmt): seq<Item>
    decreases s, 1
  {
    match s
    case Jump => []
    case Do(e) => [Expect(path + [0], e, None)]
    case Block(ss) => BlockItems(fn, path, 0, ss)
    case If(c, a, b) => [Expect(path + [0], c, Some(Long))] + (Items(fn, path + [1], a) + Items(fn, path + [2], b))
    case For(init, c, incr, body) =>
      ItemsOpt(path + [0], init, None) + ([Expect(path + [1], c, Some(Long))] +
        (ItemsOpt(path + [2], incr, None) + Items(fn, path + [3], body)))
    case Foreach(arr, es, limit, body) =>
      [Indexes(path + [0], arr, es)] + (ItemsOpt(path + [1], limit, Some(Long)) + Items(fn, path + [2], body))
    case Return(e) => (match fn case None => [] case Some(f) => [Returned(path + [0], f, e)])
    case Try(body, v, handler) =>
      Items(fn, path + [0], body) + (ItemsOpt(path + [1], v, Some(Str)) + Items(fn, path + [2], handler))
  }

  function BlockItems(fn: Option<string>, path: Path, k: nat, ss: seq<Stmt>): seq<Item>
    decreases ss, 0
  {
    if ss == [] then [] else Items(fn, path + [k], ss[0]) + BlockItems(fn, path, k + 1, ss[1..])
  }

  function BodyItems(path: Path, b: Body): seq<Item> {
    match b
    case FunctionBody(f, s) => Items(Some(f), path + [0], s)
    case ProbeBody(s, c) => Items(None, path + [0], s) + ItemsOpt(path + [1], c, Some(Long))
  }

  function ProgramItems(k: nat, bs: seq<Body>): seq<Item>
    decreases bs
  {
    if bs == [] then [] else BodyItems([k], bs[0]) + ProgramItems(k + 1, bs[1..])
  }

  lemma {:induction false} VisitAppend(d: Decls, xs: seq<Item>, ys: seq<Item>, st: St)
    ensures VisitItems(d, xs + ys, st) == VisitItems(d, ys, VisitItems(d, xs, st))
    decreases xs
  {
    if xs == [] {
      assert xs + ys == ys;
    } else {
      assert (xs + ys)[1..] == xs[1..] + ys;
      VisitAppend(d, xs[1..], ys, VisitItem(d, xs[0], st));
    }
  }

  lemma OneItem(d: Decls, x: Item, st: St)
    ensures VisitItems(d, [x], st) == VisitItem(d, x, st)
  {
    assert [x][1..] == [];
    assert VisitItems(d, [], VisitItem(d, x, st)) == VisitItem(d, x, st);
  }

  lemma OptItems(d: Decls, path: Path, e: Option<Expr>, t: Type, st: St)
    ensures VisitItems(d, ItemsOpt(path, e, t), st) == VisitOpt(d, path, e, t, st)
  {
    if e.Some? { OneItem(d, Expect(path, e.value, t), st); }
  }

  lemma {:induction false} StmtIsItems(d: Decls, fn: Option<string>, path: Path, s: Stmt, st: St)
    ensures VisitItems(d, Items(fn, path, s), st) == VisitStmt(d, fn, path, s, st)
    decreases s, 1
  {
    hide VisitItems, Visit, VisitReturned, VisitIndexes, VisitOpt, ItemsOpt;
    match s
    case Jump => NoItems(d, st);
    case Do(e) => OneItem(d, Expect(path + [0], e, None), st);
    case Block(ss) => BlockIsItems(d, fn, path, 0, ss, st);
    case If(c, a, b) =>
      var x := Expect(path + [0], c, Some(Long));
      OneItem(d, x, st);
      var st1 := VisitItem(d, x, st);
      VisitAppend(d, [x], Items(fn, path + [1], a) + Items(fn, path + [2], b), st);
      VisitAppend(d, Items(fn, path + [1], a), Items(fn, path + [2], b), st1);
      StmtIsItems(d, fn, path + [1], a, st1);
      StmtIsItems(d, fn, path + [2], b, VisitStmt(d, fn, path + [1], a, st1));
    case For(init, c, incr, body) =>
      var st1 := VisitOpt(d, path + [0], init, None, st);
      var x := Expect(path + [1], c, Some(Long));
      var st2 := VisitItem(d, x, st1);
      var st3 := VisitOpt(d, path + [2], incr, None, st2);
      var tail := ItemsOpt(path + [2], incr, None) + Items(fn, path + [3], body);
      OptItems(d, path + [0], init, None, st);
      OneItem(d, x, st1);
      OptItems(d, path + [2], incr, None, st2);
      VisitAppend(d, ItemsOpt(path + [0], init, None), [x] + tail, st);
      VisitAppend(d, [x], tail, st1);
      VisitAppend(d, ItemsOpt(path + [2], incr, None), Items(fn, path + [3], body), st2);
      StmtIsItems(d, fn, path + [3], body, st3);
    case Foreach(arr, es, limit, body) =>
      var x := Indexes(path + [0], arr, es);
      var st1 := VisitItem(d, x, st);
      OneItem(d, x, st);
      OptItems(d, path + [1], limit, Some(Long), st1);
      VisitAppend(d, [x], ItemsOpt(path + [1], limit, Some(Long)) + Items(fn, path + [2], body), st);
      VisitAppend(d, ItemsOpt(path + [1], limit, Some(Long)), Items(fn, path + [2], body), st1);
      StmtIsItems(d, fn, path + [2], body, VisitOpt(d, path + [1], limit, Some(Long), st1));
    case Return(e) =>
      NoItems(d, st);
      if fn.Some? { OneItem(d, Returned(path + [0], fn.value, e), st); }
    case Try(body, v, handler) =>
      var st1 := VisitStmt(d, fn, path + [0], body, st);
      StmtIsItems(d, fn, path + [0], body, st);
      OptItems(d, path + [1], v, Some(Str), st1);
      VisitAppend(d, Items(fn, path + [0], body), ItemsOpt(path + [1], v, Some(Str)) + Items(fn, path + [2], handler), st);
      VisitAppend(d, ItemsOpt(path + [1], v, Some(Str)), Items(fn, path + [2], handler), st1);
      StmtIsItems(d, fn, path + [2], handler, VisitOpt(d, path + [1], v, Some(Str), st1));
  }

  lemma NoItems(d: Decls, st: St)
    ensures VisitItems(d, [], st) == st
  {
  }

  lemma {:induction false} BlockIsItems(d: Decls, fn: Option<string>, path: Path, k: nat, ss: seq<Stmt>, st: St)
    ensures VisitItems(d, BlockItems(fn, path, k, ss), st) == VisitBlock(d, fn, path, k, ss, st)
    decreases ss, 0
  {
    if ss != [] {
      StmtIsItems(d, fn, path + [k], ss[0], st);
      VisitAppend(d, Items(fn, path + [k], ss[0]), BlockItems(fn, path, k + 1, ss[1..]), st);
      BlockIsItems(d, fn, path, k + 1, ss[1..], VisitStmt(d, fn, path + [k], ss[0], st));
    }
  }

  lemma {:induction false} BodiesAreItems(d: Decls, k: nat, bs: seq<Body>, st: St)
    ensures VisitItems(d, ProgramItems(k, bs), st) == VisitBodies(d, k, bs, st)
    decreases bs
  {
    if bs != [] {
      var b, path := bs[0], [k];
      VisitAppend(d, BodyItems(path, b), ProgramItems(k + 1, bs[1..]), st);
      match b {
        case FunctionBody(f, s) => StmtIsItems(d, Some(f), path + [0], s, st);
        case ProbeBody(s, c) =>
          StmtIsItems(d, None, path + [0], s, st);
          VisitAppend(d, Items(None, path + [0], s), ItemsOpt(path + [1], c, Some(Long)), st);
          OptItems(d, path + [1], c, Some(Long), VisitStmt(d, None, path + [0], s, st));
      }
      BodiesAreItems(d, k + 1, bs[1..], VisitBody(d, path, b, st));
    }
  }

  // ----- the visits of a program are in disjoint subtrees -----

  predicate Apart(p: Path, q: Path) { !Within(p, -1, q) && !Within(q, -1, p) }

  ghost predicate AllApart(xs: seq<Item>) { forall i, j | 0 <= i < j < |xs| :: Apart(xs[i].p, xs[j].p) }

  ghost predicate AllWithin(path: Path, lo: int, xs: seq<Item>) { forall i | 0 <= i < |xs| :: Within(path, lo, xs[i].p) }

  /** Two groups below different children. */
  lemma JoinApart(path: Path, k: nat, xs: seq<Item>, ys: seq<Item>)
    requires AllApart(xs) && AllApart(ys) && AllWithin(path + [k], -1, xs) && AllWithin(path, k + 1, ys)
    ensures AllApart(xs + ys) && AllWithin(path, k, xs + ys)
  {
    forall i | 0 <= i < |xs| ensures Within(path, k, xs[i].p) && xs[i].p[|path|] == k { Deeper(path, k, xs[i].p); }
    forall i, j | 0 <= i < |xs| && 0 <= j < |ys| ensures Apart(xs[i].p, ys[j].p) {
      ApartBelow(path, xs[i].p, ys[j].p);
    }
  }

  lemma ApartBelow(path: Path, p: Path, q: Path)
    requires Within(path, 0, p) && Within(path, 0, q) && p[|path|] != q[|path|]
    ensures Apart(p, q)
  {
    SameAt(p, q, |path|);
    SameAt(q, p, |path|);
  }

  lemma SameAt(p: Path, q: Path, i: nat)
    requires i < |p| && i < |q|
    ensures Within(p, -1, q) ==> q[i] == p[i]
  {
    if Within(p, -1, q) { assert q[..|p|][i] == q[i]; }
  }

  lemma WithinWiden(path: Path, lo: int, lo': int, xs: seq<Item>)
    requires AllWithin(path, lo, xs) && lo' <= lo
    ensures AllWithin(path, lo', xs)
  {
  }

  lemma WithinUp(path: Path, k: nat, xs: seq<Item>)
    requires AllWithin(path + [k], -1, xs)
    ensures AllWithin(path, k, xs)
  {
    forall i | 0 <= i < |xs| ensures Within(path, k, xs[i].p) { Deeper(path, k, xs[i].p); }
  }

  lemma OptApart(path: Path, e: Option<Expr>, t: Type)
    ensures AllApart(ItemsOpt(path, e, t)) && AllWithin(path, -1, ItemsOpt(path, e, t))
  {
  }

  lemma {:induction false} StmtApart(fn: Option<string>, path: Path, s: Stmt)
    ensures AllApart(Items(fn, path, s)) && AllWithin(path, -1, Items(fn, path, s))
    decreases s, 1
  {
    hide AllApart, AllWithin, ItemsOpt;
    NoneApart(path, 0);
    match s
    case Jump => WithinWiden(path, 0, -1, []);
    case Do(e) => SingleApart(path, 0, Expect(path + [0], e, None));
    case Block(ss) => BlockApart(fn, path, 0, ss); WithinWiden(path, 0, -1, Items(fn, path, s));
    case If(c, a, b) =>
      var x := Expect(path + [0], c, Some(Long));
      SingleApart(path, 0, x);
      StmtApart(fn, path + [1], a);
      StmtApart(fn, path + [2], b);
      WithinUp(path, 2, Items(fn, path + [2], b));
      JoinApart(path, 1, Items(fn, path + [1], a), Items(fn, path + [2], b));
      JoinApart(path, 0, [x], Items(fn, path + [1], a) + Items(fn, path + [2], b));
      WithinWiden(path, 0, -1, Items(fn, path, s));
    case For(init, c, incr, body) =>
      var x := Expect(path + [1], c, Some(Long));
      var tail := ItemsOpt(path + [2], incr, None) + Items(fn, path + [3], body);
      OptApart(path + [0], init, None);
      SingleApart(path, 1, x);
      OptApart(path + [2], incr, None);
      StmtApart(fn, path + [3], body);
      WithinUp(path, 3, Items(fn, path + [3], body));
      JoinApart(path, 2, ItemsOpt(path + [2], incr, None), Items(fn, path + [3], body));
      JoinApart(path, 1, [x], tail);
      JoinApart(path, 0, ItemsOpt(path + [0], init, None), [x] + tail);
      WithinWiden(path, 0, -1, Items(fn, path, s));
    case Foreach(arr, es, limit, body) =>
      var x := Indexes(path + [0], arr, es);
      SingleApart(path, 0, x);
      OptApart(path + [1], limit, Some(Long));
      StmtApart(fn, path + [2], body);
      WithinUp(path, 2, Items(fn, path + [2], body));
      JoinApart(path, 1, ItemsOpt(path + [1], limit, Some(Long)), Items(fn, path + [2], body));
      JoinApart(path, 0, [x], ItemsOpt(path + [1], limit, Some(Long)) + Items(fn, path + [2], body));
      WithinWiden(path, 0, -1, Items(fn, path, s));
    case Return(e) =>
      WithinWiden(path, 0, -1, []);
      if fn.Some? { SingleApart(path, 0, Returned(path + [0], fn.value, e)); }
    case Try(body, v, handler) =>
      StmtApart(fn, path + [0], body);
      OptApart(path + [1], v, Some(Str));
      StmtApart(fn, path + [2], handler);
      WithinUp(path, 2, Items(fn, path + [2], handler));
      JoinApart(path, 1, ItemsOpt(path + [1], v, Some(Str)), Items(fn, path + [2], handler));
      JoinApart(path, 0, Items(fn, path + [0], body), ItemsOpt(path + [1], v, Some(Str)) + Items(fn, path + [2], handler));
      WithinWiden(path, 0, -1, Items(fn, path, s));
  }

  lemma NoneApart(path: Path, lo: int)
    ensures AllApart([]) && AllWithin(path, lo, [])
  {
  }

  lemma SingleApart(path: Path, k: nat, x: Item)
    requires x.p == path + [k]
    ensures AllApart([x]) && AllWithin(path + [k], -1, [x]) && AllWithin(path, -1, [x])
  {
  }

  lemma {:induction false} BlockApart(fn: Option<string>, path: Path, k: nat, ss: seq<Stmt>)
    ensures AllApart(BlockItems(fn, path, k, ss)) && AllWithin(path, k, BlockItems(fn, path, k, ss))
    decreases ss, 0
  {
    hide AllApart, AllWithin;
    if ss == [] {
      NoneApart(path, k);
    } else {
      StmtApart(fn, path + [k], ss[0]);
      BlockApart(fn, path, k + 1, ss[1..]);
      JoinApart(path, k, Items(fn, path + [k], ss[0]), BlockItems(fn, path, k + 1, ss[1..]));
    }
  }

  lemma {:induction false} ProgramApart(k: nat, bs: seq<Body>)
    ensures AllApart(ProgramItems(k, bs)) && AllWithin([], k, ProgramItems(k, bs))
    decreases bs
  {
    hide AllApart, AllWithin, ItemsOpt;
    if bs == [] {
      NoneApart([], k);
    } else {
      BodyApart([k], bs[0]);
      assert [] + [k] == [k];
      ProgramApart(k + 1, bs[1..]);
      JoinApart([], k, BodyItems([k], bs[0]), ProgramItems(k + 1, bs[1..]));
    }
  }

  lemma BodyApart(path: Path, b: Body)
    ensures AllApart(BodyItems(path, b)) && AllWithin(path, -1, BodyItems(path, b))
  {
    hide AllApart, AllWithin, ItemsOpt;
    match b {
      case FunctionBody(f, s) =>
        StmtApart(Some(f), path + [0], s);
        WithinUp(path, 0, Items(Some(f), path + [0], s));
        WithinWiden(path, 0, -1, Items(Some(f), path + [0], s));
      case ProbeBody(s, c) =>
        StmtApart(None, path + [0], s);
        OptApart(path + [1], c, Some(Long));
        WithinUp(path, 1, ItemsOpt(path + [1], c, Some(Long)));
        JoinApart(path, 0, Items(None, path + [0], s), ItemsOpt(path + [1], c, Some(Long)));
        WithinWiden(path, 0, -1, BodyItems(path, b));
    }
  }
}
