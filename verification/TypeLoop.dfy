/**
 What a pass keeps, when a pass has checked the program, and why the loop stops.
 */
module TypeLoop {
  import opened Basics
  import opened Types
  import opened TypeInvariant
  import opened TypeKeeps
  import opened TypeAgrees
  import opened TypeCheck
  import opened TypePass

  // ----- one visit of the list -----

  ghost predicate ItemShape(u: set<Slot>, d: Decls, types: Types, x: Item) {
    match x
    case Expect(p, e, _) => Shape(u, d, types, p, e)
    case Indexes(p, arr, es) => Declared(u, KeysOf(d, arr)) && ShapeAll(u, d, types, p, 0, es)
    case Returned(p, f, e) => Fn(f) in u && Shape(u, d, types, p, e)
  }

  ghost predicate ItemInv(d: Decls, types: Types, x: Item) {
    match x
    case Expect(p, e, t) => Inv(d, types, p, e, t)
    case Indexes(p, arr, es) => |es| == |KeysOf(d, arr)| ==> InvArgs(d, types, p, 0, es, KeysOf(d, arr))
    case Returned(p, f, e) => Inv(d, types, p, e, Get(types, Fn(f)))
  }

  ghost predicate ItemFits(d: Decls, types: Types, x: Item) {
    match x
    case Expect(p, e, t) => Fits(d, types, p, e, t)
    case Indexes(p, arr, es) => |es| == |KeysOf(d, arr)| ==> FitArgs(d, types, p, 0, es, KeysOf(d, arr))
    case Returned(p, f, e) => Fits(d, types, p, e, Get(types, Fn(f)))
  }

  ghost predicate ItemTyped(d: Decls, types: Types, x: Item) {
    match x
    case Expect(p, e, t) => Typed(d, types, p, e) && Meets(types, p, e, t)
    case Indexes(p, arr, es) => |es| == |KeysOf(d, arr)| && TypedArgs(d, types, p, 0, es, KeysOf(d, arr))
    case Returned(p, f, e) => Typed(d, types, p, e) && TypeOf(types, p, e) == Get(types, Fn(f)) && Get(types, Fn(f)) != Some(Stats)
  }

  ghost predicate ItemGood(u: set<Slot>, d: Decls, types: Types, x: Item) {
    ItemShape(u, d, types, x) && ItemInv(d, types, x)
  }

  lemma ItemMono(u: set<Slot>, d: Decls, a: Types, b: Types, x: Item)
    requires ItemGood(u, d, a, x) && Sub(a, b) && SameUnder(a, b, x.p)
    ensures ItemGood(u, d, b, x)
  {
    hide Shape, Inv, Sub, SameUnder;
    match x
    case Expect(p, e, t) =>
      ShapeMono(u, d, a, b, p, e);
      InvMono(d, a, b, p, e, t, t);
    case Indexes(p, arr, es) =>
      SameUnderChildren(a, b, p);
      ShapeAllMono(u, d, a, b, p, 0, es);
      if |es| == |KeysOf(d, arr)| { InvArgsMono(d, a, b, p, 0, es, KeysOf(d, arr)); }
    case Returned(p, f, e) =>
      GetMono(a, b, Fn(f));
      ShapeMono(u, d, a, b, p, e);
      InvMono(d, a, b, p, e, Get(a, Fn(f)), Get(b, Fn(f)));
  }

  /** The end of a return statement. */
  function Answer(st: St, f: string, at: Type): St {
    var ft := Get(st.types, Fn(f));
    var st1 := if ft.None? && (at == Some(Long) || at == Some(Str)) then Resolve(st, Fn(f), at.value) else st;
    Complain(st1, Count(Differ(ft, at)) + Count(at == Some(Stats)))
  }

  lemma AnswerKeeps(u: set<Slot>, st: St, f: string, at: Type, path: Path)
    requires Fn(f) in u
    ensures Touch(u, st, Answer(st, f, at), path)
    ensures SameUnder(st.types, Answer(st, f, at).types, path)
  {
    var ft := Get(st.types, Fn(f));
    var n := Count(Differ(ft, at)) + Count(at == Some(Stats));
    if ft.None? && (at == Some(Long) || at == Some(Str)) {
      var st1 := Resolve(st, Fn(f), at.value);
      TouchResolve(u, st, Fn(f), at.value, path);
      TouchComplain(u, st1, n, path);
      TouchTrans(u, st, st1, Answer(st, f, at), path);
    } else {
      TouchComplain(u, st, n, path);
    }
  }

  lemma ItemKeeps(u: set<Slot>, d: Decls, x: Item, st: St)
    requires ItemGood(u, d, st.types, x)
    ensures Grow(u, st, VisitItem(d, x, st), x.p, -1) && ItemGood(u, d, VisitItem(d, x, st).types, x)
  {
    hide Shape, Inv, Grow, Visit, VisitArgs, SameUnder, Sub, Answer;
    match x
    case Expect(p, e, t) =>
      VisitKeeps(u, d, p, e, t, st);
      VisitAgrees(u, d, p, e, t, st);
    case Indexes(p, arr, es) =>
      GrowComplaint(u, st, 1, p);
      if |es| == |KeysOf(d, arr)| {
        ArgsKeep(u, d, p, 0, es, KeysOf(d, arr), st);
        GrowWiden(u, st, VisitArgs(d, p, 0, es, KeysOf(d, arr), st), p, 0, -1);
        ArgsAgree(u, d, p, 0, es, KeysOf(d, arr), st);
      }
    case Returned(p, f, e) =>
      var t := Get(st.types, Fn(f));
      VisitKeeps(u, d, p, e, t, st);
      VisitAgrees(u, d, p, e, t, st);
      var st1 := Visit(d, p, e, t, st);
      var st' := Answer(st1, f, TypeOf(st1.types, p, e));
      assert st' == VisitItem(d, x, st) by { ReturnedIsAnswer(d, x, st); }
      AnswerKeeps(u, st1, f, TypeOf(st1.types, p, e), p);
      TouchGrow(u, st1, st', p);
      GrowTrans(u, st, st1, st', p, -1);
      GrowSub(u, st, st1, p, -1);
      GrowSub(u, st1, st', p, -1);
      SubTrans(st.types, st1.types, st'.types);
      GetMono(st.types, st'.types, Fn(f));
      ShapeMono(u, d, st1.types, st'.types, p, e);
      InvMono(d, st1.types, st'.types, p, e, t, Get(st'.types, Fn(f)));
  }

  lemma ReturnedIsAnswer(d: Decls, x: Item, st: St)
    requires x.Returned?
    ensures var st1 := Visit(d, x.p, x.e, Get(st.types, Fn(x.f)), st);
      VisitItem(d, x, st) == Answer(st1, x.f, TypeOf(st1.types, x.p, x.e))
  {
  }

  lemma ItemClean(u: set<Slot>, d: Decls, x: Item, st: St)
    requires ItemGood(u, d, st.types, x) && ItemFits(d, st.types, x) && VisitItem(d, x, st) == st
    ensures ItemTyped(d, st.types, x)
  {
    hide Shape, Inv, Fits, Typed, Grow, Visit, VisitArgs;
    match x
    case Expect(p, e, t) => Clean(u, d, p, e, t, st);
    case Indexes(p, arr, es) => if |es| == |KeysOf(d, arr)| { ArgsClean(u, d, p, 0, es, KeysOf(d, arr), st); }
    case Returned(p, f, e) =>
      var t := Get(st.types, Fn(f));
      VisitKeeps(u, d, p, e, t, st);
      var st1 := Visit(d, p, e, t, st);
      Counters(u, st, st1, p, -1);
      Squeeze(u, st, st1, p, -1);
      Clean(u, d, p, e, t, st);
      Cases(TypeOf(st.types, p, e));
  }

  lemma ItemTypedFits(d: Decls, types: Types, x: Item)
    requires ItemTyped(d, types, x)
    ensures ItemFits(d, types, x)
  {
    hide Fits, Typed;
    match x
    case Expect(p, e, t) => TypedFits(d, types, p, e, t);
    case Indexes(p, arr, es) => TypedArgsFit(d, types, p, 0, es, KeysOf(d, arr));
    case Returned(p, f, e) => TypedFits(d, types, p, e, Get(types, Fn(f)));
  }

  // ----- the whole list -----

  ghost predicate AllGood(u: set<Slot>, d: Decls, types: Types, xs: seq<Item>) {
    forall i | 0 <= i < |xs| :: ItemGood(u, d, types, xs[i])
  }

  /** One visit keeps the invariant of all. */
  lemma VisitKeepsAll(u: set<Slot>, d: Decls, xs: seq<Item>, i: nat, st: St)
    requires i < |xs| && AllApart(xs) && AllGood(u, d, st.types, xs)
    ensures Grow(u, st, VisitItem(d, xs[i], st), [], -1) && AllGood(u, d, VisitItem(d, xs[i], st).types, xs)
  {
    hide ItemGood, Grow, VisitItem, SameUnder;
    ItemKeeps(u, d, xs[i], st);
    var st' := VisitItem(d, xs[i], st);
    GrowSub(u, st, st', xs[i].p, -1);
    forall j | 0 <= j < |xs| ensures ItemGood(u, d, st'.types, xs[j]) {
      if j != i {
        assert Apart(xs[i].p, xs[j].p);
        GrowApart(u, st, st', xs[i].p, xs[j].p);
        ItemMono(u, d, st.types, st'.types, xs[j]);
      }
    }
    GrowRoot(u, st, st', xs[i].p);
  }

  lemma GrowApart(u: set<Slot>, a: St, b: St, p: Path, p': Path)
    requires Grow(u, a, b, p, -1) && Apart(p, p')
    ensures SameUnder(a.types, b.types, p')
  {
    forall q | Within(p', -1, q) ensures SameNode(a.types, b.types, q) {
      if Within(p, -1, q) { Nested(p, p', q); }
    }
  }

  /** Two subtrees that share a node are nested. */
  lemma Nested(p: Path, p': Path, q: Path)
    requires Within(p, -1, q) && Within(p', -1, q)
    ensures Within(p, -1, p') || Within(p', -1, p)
  {
    if |p| <= |p'| { assert p'[..|p|] == q[..|p'|][..|p|] == q[..|p|]; } else { assert p[..|p'|] == q[..|p|][..|p'|] == q[..|p'|]; }
  }

  lemma GrowRoot(u: set<Slot>, a: St, b: St, p: Path)
    requires Grow(u, a, b, p, -1)
    ensures Grow(u, a, b, [], -1)
  {
    forall q: Path ensures Within([], -1, q) { assert q[..0] == []; }
  }

  lemma {:induction false} ListKeeps(u: set<Slot>, d: Decls, xs: seq<Item>, i: nat, st: St)
    requires i <= |xs| && AllApart(xs) && AllGood(u, d, st.types, xs)
    ensures Grow(u, st, VisitItems(d, xs[i..], st), [], -1) && AllGood(u, d, VisitItems(d, xs[i..], st).types, xs)
    decreases |xs| - i
  {
    hide Grow, AllGood, AllApart, VisitItem;
    if i == |xs| {
      GrowNothing(u, st, [], -1);
    } else {
      assert xs[i..][0] == xs[i] && xs[i..][1..] == xs[i + 1..];
      VisitKeepsAll(u, d, xs, i, st);
      var st1 := VisitItem(d, xs[i], st);
      ListKeeps(u, d, xs, i + 1, st1);
      GrowTrans(u, st, st1, VisitItems(d, xs[i + 1..], st1), [], -1);
    }
  }

  /** A list of visits that changes nothing and complains of nothing: so does each. */
  lemma {:induction false} ListClean(u: set<Slot>, d: Decls, xs: seq<Item>, i: nat, st: St)
    requires i <= |xs| && AllApart(xs) && AllGood(u, d, st.types, xs)
    requires var st' := VisitItems(d, xs[i..], st); st'.newly <= st.newly && st'.still <= st.still
    ensures VisitItems(d, xs[i..], st) == st
    ensures forall j | i <= j < |xs| :: VisitItem(d, xs[j], st) == st
    decreases |xs| - i
  {
    hide AllGood, AllApart, VisitItem;
    if i < |xs| {
      assert xs[i..][0] == xs[i] && xs[i..][1..] == xs[i + 1..];
      VisitKeepsAll(u, d, xs, i, st);
      var st1 := VisitItem(d, xs[i], st);
      ListKeeps(u, d, xs, i + 1, st1);
      Squeeze(u, st, st1, [], -1);
      ListClean(u, d, xs, i + 1, st);
    }
  }

  // ----- programs -----

  ghost predicate Good(u: set<Slot>, p: Program, types: Types) {
    AllGood(u, p.d, types, ProgramItems(0, p.bodies)) && types.Keys <= u
  }

  ghost predicate WellTyped(p: Program, types: Types) {
    && (forall x | x in ProgramItems(0, p.bodies) :: ItemTyped(p.d, types, x))
    && (forall v | v in p.globals :: Get(types, Decl(v)).Some?)
  }

  ghost predicate PrintsFit(p: Program, types: Types) {
    forall x | x in ProgramItems(0, p.bodies) :: ItemFits(p.d, types, x)
  }

  /** A pass only adds types, counts each, and keeps the invariant. */
  lemma PassKeeps(u: set<Slot>, p: Program, types: Types)
    requires Good(u, p, types)
    ensures var st := Pass(p, types);
      && Sub(types, st.types) && Good(u, p, st.types)
      && |st.types| == |types| + st.newly && |st.types| <= |u|
      && (st.newly == 0 ==> st.types == types)
  {
    hide AllGood, AllApart, VisitItems;
    var xs, st := ProgramItems(0, p.bodies), St(types, 0, 0);
    ProgramApart(0, p.bodies);
    BodiesAreItems(p.d, 0, p.bodies, st);
    assert xs[0..] == xs;
    ListKeeps(u, p.d, xs, 0, st);
    Fewer(Pass(p, types).types, u);
  }

  lemma Fewer(types: Types, u: set<Slot>)
    requires types.Keys <= u
    ensures |types| <= |u|
  {
    assert |types| == |types.Keys|;
    SubsetSize(types.Keys, u);
  }

  lemma {:induction false} NoUnknownGlobals(types: Types, globals: seq<string>)
    ensures UnknownGlobals(types, globals) == 0 <==> forall v | v in globals :: Get(types, Decl(v)).Some?
    decreases globals
  {
    if globals != [] {
      NoUnknownGlobals(types, globals[1..]);
      assert globals == [globals[0]] + globals[1..];
    }
  }

  /** After a pass that resolved nothing and complained of nothing, the program is well typed
      exactly when its prints and statistics are where their types are wanted. */
  lemma CleanPass(u: set<Slot>, p: Program, types: Types)
    requires Good(u, p, types) && Pass(p, types).newly == 0 && Pass(p, types).still == 0
    ensures WellTyped(p, types) <==> PrintsFit(p, types)
  {
    hide AllApart, VisitItems, VisitItem, ItemGood, ItemFits, ItemTyped;
    var xs, st := ProgramItems(0, p.bodies), St(types, 0, 0);
    ProgramApart(0, p.bodies);
    BodiesAreItems(p.d, 0, p.bodies, st);
    assert xs[0..] == xs;
    ListClean(u, p.d, xs, 0, st);
    NoUnknownGlobals(types, p.globals);
    if PrintsFit(p, types) {
      forall x | x in xs ensures ItemTyped(p.d, types, x) { ItemClean(u, p.d, x, st); }
    }
    if WellTyped(p, types) {
      forall x | x in xs ensures ItemFits(p.d, types, x) { ItemTypedFits(p.d, types, x); }
    }
  }
}
