/**
 What it is for a script to be well typed, statement by statement.
 */
module TypeRules {
  import opened Basics
  import opened Types
  import opened TypeCheck
  import opened TypePass
  import opened TypeLoop

  /** An expression that is well typed, and has this type. */
  ghost predicate Is(d: Decls, types: Types, path: Path, e: Expr, ty: Ty) {
    Typed(d, types, path, e) && TypeOf(types, path, e) == Some(ty)
  }

  ghost predicate OptIs(d: Decls, types: Types, path: Path, e: Option<Expr>, ty: Ty) { e.Some? ==> Is(d, types, path, e.value, ty) }

  ghost predicate OptTyped(d: Decls, types: Types, path: Path, e: Option<Expr>) { e.Some? ==> Typed(d, types, path, e.value) }

  /** Conditions and limits are numbers, what is caught is a string, and a function returns what its
      return statements do, a number or a string if anything. */
  ghost predicate Ruled(d: Decls, types: Types, fn: Option<string>, path: Path, s: Stmt)
    decreases s, 1
  {
    match s
    case Jump => true
    case Do(e) => Typed(d, types, path + [0], e)
    case Block(ss) => RuledBlock(d, types, fn, path, 0, ss)
    case If(c, a, b) => Is(d, types, path + [0], c, Long) && Ruled(d, types, fn, path + [1], a) && Ruled(d, types, fn, path + [2], b)
    case For(init, c, incr, body) =>
      && OptTyped(d, types, path + [0], init) && Is(d, types, path + [1], c, Long) && OptTyped(d, types, path + [2], incr)
      && Ruled(d, types, fn, path + [3], body)
    case Foreach(arr, es, limit, body) =>
      && |es| == |KeysOf(d, arr)| && TypedArgs(d, types, path + [0], 0, es, KeysOf(d, arr))
      && OptIs(d, types, path + [1], limit, Long) && Ruled(d, types, fn, path + [2], body)
    case Return(e) =>
      fn.Some? ==>
        (var ty := TypeOf(types, path + [0], e);
         Typed(d, types, path + [0], e) && ty != Some(Stats) && Get(types, Fn(fn.value)) == ty)
    case Try(body, v, handler) =>
      && Ruled(d, types, fn, path + [0], body) && OptIs(d, types, path + [1], v, Str)
      && Ruled(d, types, fn, path + [2], handler)
  }

  ghost predicate RuledBlock(d: Decls, types: Types, fn: Option<string>, path: Path, k: nat, ss: seq<Stmt>)
    decreases ss, 0
  {
    ss == [] || (Ruled(d, types, fn, path + [k], ss[0]) && RuledBlock(d, types, fn, path, k + 1, ss[1..]))
  }

  ghost predicate RuledBody(d: Decls, types: Types, path: Path, b: Body) {
    match b
    case FunctionBody(f, s) => Ruled(d, types, Some(f), path + [0], s)
    case ProbeBody(s, c) => Ruled(d, types, None, path + [0], s) && OptIs(d, types, path + [1], c, Long)
  }

  ghost predicate AllTyped(d: Decls, types: Types, xs: seq<Item>) { forall x | x in xs :: ItemTyped(d, types, x) }

  lemma AllTypedBoth(d: Decls, types: Types, xs: seq<Item>, ys: seq<Item>)
    ensures AllTyped(d, types, xs + ys) <==> AllTyped(d, types, xs) && AllTyped(d, types, ys)
  {
    hide ItemTyped;
    if AllTyped(d, types, xs + ys) {
      forall x | x in xs ensures ItemTyped(d, types, x) { assert x in xs + ys; }
      forall x | x in ys ensures ItemTyped(d, types, x) { assert x in xs + ys; }
    }
  }

  lemma OneTyped(d: Decls, types: Types, x: Item)
    ensures AllTyped(d, types, [x]) <==> ItemTyped(d, types, x)
  {
    hide ItemTyped;
    assert x in [x];
  }

  lemma OptRules(d: Decls, types: Types, path: Path, e: Option<Expr>, t: Type)
    ensures AllTyped(d, types, ItemsOpt(path, e, t)) <==> match t case None => OptTyped(d, types, path, e) case Some(ty) => OptIs(d, types, path, e, ty)
  {
    hide AllTyped, Typed;
    if e.Some? { OneTyped(d, types, Expect(path, e.value, t)); } else { assert AllTyped(d, types, []) by { NoneTyped(d, types); } }
  }

  lemma NoneTyped(d: Decls, types: Types)
    ensures AllTyped(d, types, [])
  {
  }

  lemma {:induction false} StmtRules(d: Decls, types: Types, fn: Option<string>, path: Path, s: Stmt)
    ensures AllTyped(d, types, Items(fn, path, s)) <==> Ruled(d, types, fn, path, s)
    decreases s, 1
  {
    hide AllTyped, Typed, TypedArgs, OptIs, OptTyped;
    match s
    case Jump => NoneTyped(d, types);
    case Do(e) => OneTyped(d, types, Expect(path + [0], e, None));
    case Block(ss) => BlockRules(d, types, fn, path, 0, ss);
    case If(c, a, b) =>
      OneTyped(d, types, Expect(path + [0], c, Some(Long)));
      StmtRules(d, types, fn, path + [1], a);
      StmtRules(d, types, fn, path + [2], b);
      AllTypedBoth(d, types, Items(fn, path + [1], a), Items(fn, path + [2], b));
      AllTypedBoth(d, types, [Expect(path + [0], c, Some(Long))], Items(fn, path + [1], a) + Items(fn, path + [2], b));
    case For(init, c, incr, body) => ForRules(d, types, fn, path, s);
    case Foreach(arr, es, limit, body) => ForeachRules(d, types, fn, path, s);
    case Return(e) =>
      if fn.Some? { OneTyped(d, types, Returned(path + [0], fn.value, e)); } else { NoneTyped(d, types); }
    case Try(body, v, handler) =>
      StmtRules(d, types, fn, path + [0], body);
      StmtRules(d, types, fn, path + [2], handler);
      OptRules(d, types, path + [1], v, Some(Str));
      AllTypedBoth(d, types, ItemsOpt(path + [1], v, Some(Str)), Items(fn, path + [2], handler));
      AllTypedBoth(d, types, Items(fn, path + [0], body), ItemsOpt(path + [1], v, Some(Str)) + Items(fn, path + [2], handler));
  }

  lemma {:induction false} ForRules(d: Decls, types: Types, fn: Option<string>, path: Path, s: Stmt)
    requires s.For?
    ensures AllTyped(d, types, Items(fn, path, s)) <==> Ruled(d, types, fn, path, s)
    decreases s, 0
  {
    hide AllTyped, Typed, OptIs, OptTyped;
    var For(init, c, incr, body) := s;
    StmtRules(d, types, fn, path + [3], body);
    OptRules(d, types, path + [0], init, None);
    OptRules(d, types, path + [2], incr, None);
    OneTyped(d, types, Expect(path + [1], c, Some(Long)));
    var last := ItemsOpt(path + [2], incr, None) + Items(fn, path + [3], body);
    AllTypedBoth(d, types, ItemsOpt(path + [2], incr, None), Items(fn, path + [3], body));
    AllTypedBoth(d, types, [Expect(path + [1], c, Some(Long))], last);
    AllTypedBoth(d, types, ItemsOpt(path + [0], init, None), [Expect(path + [1], c, Some(Long))] + last);
  }

  lemma {:induction false} ForeachRules(d: Decls, types: Types, fn: Option<string>, path: Path, s: Stmt)
    requires s.Foreach?
    ensures AllTyped(d, types, Items(fn, path, s)) <==> Ruled(d, types, fn, path, s)
    decreases s, 0
  {
    hide AllTyped, Typed, TypedArgs, OptIs, OptTyped;
    var Foreach(arr, es, limit, body) := s;
    StmtRules(d, types, fn, path + [2], body);
    OptRules(d, types, path + [1], limit, Some(Long));
    OneTyped(d, types, Indexes(path + [0], arr, es));
    var last := ItemsOpt(path + [1], limit, Some(Long)) + Items(fn, path + [2], body);
    AllTypedBoth(d, types, ItemsOpt(path + [1], limit, Some(Long)), Items(fn, path + [2], body));
    AllTypedBoth(d, types, [Indexes(path + [0], arr, es)], last);
  }

  lemma {:induction false} BlockRules(d: Decls, types: Types, fn: Option<string>, path: Path, k: nat, ss: seq<Stmt>)
    ensures AllTyped(d, types, BlockItems(fn, path, k, ss)) <==> RuledBlock(d, types, fn, path, k, ss)
    decreases ss, 0
  {
    hide AllTyped, Items, Ruled;
    if ss == [] {
      NoneTyped(d, types);
    } else {
      StmtRules(d, types, fn, path + [k], ss[0]);
      BlockRules(d, types, fn, path, k + 1, ss[1..]);
      AllTypedBoth(d, types, Items(fn, path + [k], ss[0]), BlockItems(fn, path, k + 1, ss[1..]));
    }
  }

  lemma {:induction false} BodiesRules(d: Decls, types: Types, k: nat, bs: seq<Body>)
    ensures AllTyped(d, types, ProgramItems(k, bs)) <==> RuledBodies(d, types, k, bs)
    decreases bs
  {
    hide AllTyped, BodyItems, RuledBody, RuledBodies;
    Rest(d, types, k, bs);
    if bs == [] {
      NoneTyped(d, types);
    } else {
      BodyRules(d, types, [k], bs[0]);
      BodiesRules(d, types, k + 1, bs[1..]);
      AllTypedBoth(d, types, BodyItems([k], bs[0]), ProgramItems(k + 1, bs[1..]));
    }
  }

  ghost predicate RuledBodies(d: Decls, types: Types, k: nat, bs: seq<Body>) {
    forall i | 0 <= i < |bs| :: RuledBody(d, types, [k + i], bs[i])
  }

  lemma Rest(d: Decls, types: Types, k: nat, bs: seq<Body>)
    ensures bs == [] ==> RuledBodies(d, types, k, bs)
    ensures bs != [] ==> (RuledBodies(d, types, k, bs) <==> RuledBody(d, types, [k], bs[0]) && RuledBodies(d, types, k + 1, bs[1..]))
  {
    hide RuledBody;
    if bs != [] {
      if RuledBodies(d, types, k, bs) {
        assert [k + 0] == [k];
        forall i | 0 <= i < |bs[1..]| ensures RuledBody(d, types, [k + 1 + i], bs[1..][i]) {
          assert RuledBody(d, types, [k + (i + 1)], bs[i + 1]);
        }
      }
      if RuledBody(d, types, [k], bs[0]) && RuledBodies(d, types, k + 1, bs[1..]) {
        forall i | 0 <= i < |bs| ensures RuledBody(d, types, [k + i], bs[i]) {
          if i > 0 { assert RuledBody(d, types, [k + 1 + (i - 1)], bs[1..][i - 1]); }
        }
      }
    }
  }

  lemma BodyRules(d: Decls, types: Types, path: Path, b: Body)
    ensures AllTyped(d, types, BodyItems(path, b)) <==> RuledBody(d, types, path, b)
  {
    hide AllTyped, Items, ItemsOpt, Ruled, OptIs;
    match b
    case FunctionBody(f, s) => StmtRules(d, types, Some(f), path + [0], s);
    case ProbeBody(s, c) =>
      StmtRules(d, types, None, path + [0], s);
      OptRules(d, types, path + [1], c, Some(Long));
      AllTypedBoth(d, types, Items(None, path + [0], s), ItemsOpt(path + [1], c, Some(Long)));
  }

  /** A program is well typed exactly if every body follows the rules and every global has a type. */
  lemma RulesExact(p: Program, types: Types)
    ensures WellTyped(p, types) <==>
      && (forall i | 0 <= i < |p.bodies| :: RuledBody(p.d, types, [i], p.bodies[i]))
      && (forall v | v in p.globals :: Decl(v) in types)
  {
    hide RuledBody, ItemTyped;
    BodiesRules(p.d, types, 0, p.bodies);
    assert forall i | 0 <= i < |p.bodies| :: [0 + i] == [i];
  }
}
