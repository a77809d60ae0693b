/**
 The preprocessor: conditionals in the token stream, nested to any depth, of which only the
 tokens of the branch taken are handed to the parser.
 */
module Preprocess {
  import opened Basics

  /** A token of the raw input: an operator, something else, or text the lexer rejects. */
  datatype Raw = Op(s: string) | Other(s: string) | Bad

  const OPEN := Op("%(")
  const THEN := Op("%?")
  const ELSE := Op("%:")
  const CLOSE := Op("%)")
  const AND := Op("&&")
  const OR := Op("||")

  predicate Marker(t: Raw) { t == OPEN || t == THEN || t == ELSE || t == CLOSE }

  predicate Ordinary(t: Raw) { !Marker(t) && t != Bad }

  // ----- the language of conditionals -----

  /** A comparison, such as: kernel_v > "2.6.18". */
  datatype Test = Test(l: Raw, op: Raw, r: Raw)

  /** A disjunction of conjunctions of comparisons. */
  type Condition = seq<seq<Test>>

  /** A token, a conditional, or any text: the last is accepted only in a branch not taken.  A
      marker other than the opening one may stand by itself as a token. */
  datatype Item = Plain(t: Raw) | If(c: Condition, yes: seq<Item>, hasElse: bool, no: seq<Item>) | Junk(ts: seq<Raw>)

  /** The evaluation of comparisons; None when it is an error. */
  type Oracle = Test -> Option<bool>

  predicate TestOk(t: Test) { Ordinary(t.l) && Ordinary(t.op) && Ordinary(t.r) }

  predicate Groups(c: Condition) { forall i | 0 <= i < |c| :: c[i] != [] }

  predicate TestsOk(c: Condition) { forall i | 0 <= i < |c| :: forall t | t in c[i] :: TestOk(t) }

  predicate ConditionOk(c: Condition) {
    c != [] && Groups(c) && TestsOk(c)
  }

  predicate WellFormed(xs: seq<Item>)
    decreases xs
  {
    xs == [] ||
    (&& (match xs[0]
         case Plain(t) => t != OPEN
         case If(c, yes, hasElse, no) => ConditionOk(c) && WellFormed(yes) && WellFormed(no) && (!hasElse ==> no == [])
         case Junk(_) => true)
     && WellFormed(xs[1..]))
  }

  /** Tokens other than markers, and conditionals. */
  predicate NoJunk(xs: seq<Item>)
    decreases xs
  {
    xs == [] ||
    (&& (match xs[0]
         case Plain(t) => !Marker(t)
         case If(_, yes, _, no) => NoJunk(yes) && NoJunk(no)
         case Junk(_) => false)
     && NoJunk(xs[1..]))
  }

  function TestTokens(t: Test): seq<Raw> { [t.l, t.op, t.r] }

  /** Comparisons, each after the first preceded by `&&`. */
  function MoreTests(g: seq<Test>): seq<Raw>
    decreases g
  {
    if g == [] then [] else [AND] + TestTokens(g[0]) + MoreTests(g[1..])
  }

  function Group(g: seq<Test>): seq<Raw>
    requires g != []
  {
    TestTokens(g[0]) + MoreTests(g[1..])
  }

  function MoreGroups(c: Condition): seq<Raw>
    requires Groups(c)
    decreases c
  {
    if c == [] then [] else [OR] + Group(c[0]) + MoreGroups(c[1..])
  }

  function ConditionTokens(c: Condition): seq<Raw>
    requires ConditionOk(c)
  {
    Group(c[0]) + MoreGroups(c[1..])
  }

  function ElseTokens(hasElse: bool, no: seq<Item>): seq<Raw>
    requires WellFormed(no)
    decreases no, 2
  {
    if hasElse then [ELSE] + Tokens(no) else []
  }

  function ItemTokens(x: Item): seq<Raw>
    requires WellFormed([x])
    decreases x, 0
  {
    match x
    case Plain(t) => [t]
    case If(c, yes, hasElse, no) => [OPEN] + (ConditionTokens(c) + ([THEN] + (Tokens(yes) + (ElseTokens(hasElse, no) + [CLOSE]))))
    case Junk(ts) => ts
  }

  /** The raw input for a list of items. */
  function Tokens(xs: seq<Item>): seq<Raw>
    requires WellFormed(xs)
    decreases xs, 1
  {
    if xs == [] then [] else (assert [xs[0]][1..] == []; ItemTokens(xs[0]) + Tokens(xs[1..]))
  }

  // ----- skipping the branch not taken -----

  datatype Skipped = Found(marker: Raw, rest: seq<Raw>) | Failed

  /** Raw tokens up to the end of the branch; `atElse` when an else also ends it. */
  function Skip(ts: seq<Raw>, nesting: nat, thens: int, atElse: bool): Skipped
    decreases ts
  {
    if ts == [] then Failed
    else
      var m := ts[0];
      var nesting1 := if m == OPEN then nesting + 1 else nesting;
      var thens1 := if m == THEN then thens + 1 else thens;
      if m == THEN && nesting1 != thens1 then Failed
      else if nesting1 == 0 && (m == CLOSE || (atElse && m == ELSE)) then Found(m, ts[1..])
      else if nesting1 > 0 && m == CLOSE then Skip(ts[1..], nesting1 - 1, thens1 - 1, atElse)
      else Skip(ts[1..], nesting1, thens1, atElse)
  }

  /** A branch with this text ends where it should. */
  predicate Skippable(ts: seq<Raw>, atElse: bool) { Skip(ts + [CLOSE], 0, 0, atElse) == Found(CLOSE, []) }

  // ----- the expansion -----

  predicate Known(o: Oracle, c: Condition) { forall g | g in c :: forall t | t in g :: o(t).Some? }

  predicate Holds(o: Oracle, c: Condition) { exists g | g in c :: forall t | t in g :: o(t) == Some(true) }

  function Branch(o: Oracle, x: Item): seq<Item>
    requires x.If?
  {
    if Holds(o, x.c) then x.yes else x.no
  }

  function Untaken(o: Oracle, x: Item): seq<Item>
    requires x.If?
  {
    if Holds(o, x.c) then x.no else x.yes
  }

  /** The markers that may stand by themselves outside of all conditionals. */
  const STRAYS: set<Raw> := {THEN, ELSE, CLOSE}

  /** And in the branch taken of a conditional among them: after the `%:`, another one. */
  function StraysIn(stray: set<Raw>, holds: bool): set<Raw> { if holds then {} else stray * {ELSE} }

  /** The conditions met on the way can be evaluated, the tokens kept can be read and the branches
      not taken can be skipped; markers by themselves are among `stray`. */
  predicate Expandable(o: Oracle, xs: seq<Item>, stray: set<Raw>)
    requires WellFormed(xs)
    decreases xs
  {
    xs == [] ||
    (&& (match xs[0]
         case Plain(t) => t != Bad && (Marker(t) ==> t in stray)
         case If(_, _, _, _) =>
           && Known(o, xs[0].c) && Skippable(Tokens(Untaken(o, xs[0])), !Holds(o, xs[0].c))
           && Expandable(o, Branch(o, xs[0]), StraysIn(stray, Holds(o, xs[0].c)))
         case Junk(_) => false)
     && Expandable(o, xs[1..], stray))
  }

  function ExpandItem(o: Oracle, x: Item): seq<Raw>
    decreases x, 0
  {
    match x
    case Plain(t) => [t]
    case If(c, yes, _, no) => if Holds(o, c) then Expand(o, yes) else Expand(o, no)
    case Junk(_) => []
  }

  function Expand(o: Oracle, xs: seq<Item>): seq<Raw>
    decreases xs, 1
  {
    if xs == [] then [] else ExpandItem(o, xs[0]) + Expand(o, xs[1..])
  }

  /** No marker is left but those that stand by themselves. */
  lemma {:induction false} ExpandOrdinary(o: Oracle, xs: seq<Item>, stray: set<Raw>)
    requires WellFormed(xs) && Expandable(o, xs, stray)
    ensures forall t | t in Expand(o, xs) :: Ordinary(t) || (t in stray && t != OPEN)
    decreases xs
  {
    if xs != [] {
      ExpandOrdinary(o, xs[1..], stray);
      if xs[0].If? { ExpandOrdinary(o, Branch(o, xs[0]), StraysIn(stray, Holds(o, xs[0].c))); }
    }
  }

  // ----- what skipping passes over -----

  /** Skipping stops at the marker after the text, whatever comes later. */
  lemma {:induction false} SkipOver(ts: seq<Raw>, m: Raw, rest: seq<Raw>, n: nat, k: int, atElse: bool)
    requires Skip(ts + [CLOSE], n, k, atElse) == Found(CLOSE, [])
    requires m == CLOSE || (atElse && m == ELSE)
    ensures Skip(ts + ([m] + rest), n, k, atElse) == Found(m, rest)
    decreases ts
  {
    if ts == [] {
      assert ts + [CLOSE] == [CLOSE] && [CLOSE][1..] == [];
      assert ts + ([m] + rest) == [m] + rest && ([m] + rest)[1..] == rest;
    } else {
      var n1 := if ts[0] == OPEN then n + 1 else n;
      var k1 := if ts[0] == THEN then k + 1 else k;
      assert (ts + [CLOSE])[1..] == ts[1..] + [CLOSE];
      assert (ts + ([m] + rest))[1..] == ts[1..] + ([m] + rest);
      if n1 > 0 && ts[0] == CLOSE {
        SkipOver(ts[1..], m, rest, n1 - 1, k1 - 1, atElse);
      } else {
        SkipOver(ts[1..], m, rest, n1, k1, atElse);
      }
    }
  }

  lemma SkipOne(t: Raw, ts: seq<Raw>, n: nat, k: int, atElse: bool)
    requires !Marker(t)
    ensures Skip([t] + ts, n, k, atElse) == Skip(ts, n, k, atElse)
  {
    assert ([t] + ts)[1..] == ts;
  }

  lemma SkipTest(t: Test, ts: seq<Raw>, n: nat, k: int, atElse: bool)
    requires TestOk(t)
    ensures Skip(TestTokens(t) + ts, n, k, atElse) == Skip(ts, n, k, atElse)
  {
    assert TestTokens(t) + ts == [t.l] + ([t.op] + ([t.r] + ts));
    SkipOne(t.l, [t.op] + ([t.r] + ts), n, k, atElse);
    SkipOne(t.op, [t.r] + ts, n, k, atElse);
    SkipOne(t.r, ts, n, k, atElse);
  }

  lemma {:induction false} SkipTests(g: seq<Test>, ts: seq<Raw>, n: nat, k: int, atElse: bool)
    requires forall t | t in g :: TestOk(t)
    ensures Skip(MoreTests(g) + ts, n, k, atElse) == Skip(ts, n, k, atElse)
    decreases g
  {
    if g == [] {
      assert MoreTests(g) + ts == ts;
    } else {
      var rest := MoreTests(g[1..]) + ts;
      assert MoreTests(g) + ts == [AND] + (TestTokens(g[0]) + rest);
      SkipOne(AND, TestTokens(g[0]) + rest, n, k, atElse);
      SkipTest(g[0], rest, n, k, atElse);
      SkipTests(g[1..], ts, n, k, atElse);
    }
  }

  lemma SkipGroup(g: seq<Test>, ts: seq<Raw>, n: nat, k: int, atElse: bool)
    requires g != [] && forall t | t in g :: TestOk(t)
    ensures Skip(Group(g) + ts, n, k, atElse) == Skip(ts, n, k, atElse)
  {
    assert Group(g) + ts == TestTokens(g[0]) + (MoreTests(g[1..]) + ts);
    SkipTest(g[0], MoreTests(g[1..]) + ts, n, k, atElse);
    SkipTests(g[1..], ts, n, k, atElse);
  }

  lemma {:induction false} SkipGroups(c: Condition, ts: seq<Raw>, n: nat, k: int, atElse: bool)
    requires Groups(c) && TestsOk(c)
    ensures Skip(MoreGroups(c) + ts, n, k, atElse) == Skip(ts, n, k, atElse)
    decreases c
  {
    if c == [] {
      assert MoreGroups(c) + ts == ts;
    } else {
      var rest := MoreGroups(c[1..]) + ts;
      assert MoreGroups(c) + ts == [OR] + (Group(c[0]) + rest);
      SkipOne(OR, Group(c[0]) + rest, n, k, atElse);
      SkipGroup(c[0], rest, n, k, atElse);
      SkipGroups(c[1..], ts, n, k, atElse);
    }
  }

  lemma SkipCondition(c: Condition, ts: seq<Raw>, n: nat, k: int, atElse: bool)
    requires ConditionOk(c)
    ensures Skip(ConditionTokens(c) + ts, n, k, atElse) == Skip(ts, n, k, atElse)
  {
    assert ConditionTokens(c) + ts == Group(c[0]) + (MoreGroups(c[1..]) + ts);
    SkipGroup(c[0], MoreGroups(c[1..]) + ts, n, k, atElse);
    SkipGroups(c[1..], ts, n, k, atElse);
  }

  /** Skipping passes over whole items. */
  lemma {:induction false} SkipItems(xs: seq<Item>, ts: seq<Raw>, n: nat, atElse: bool)
    requires WellFormed(xs) && NoJunk(xs)
    ensures Skip(Tokens(xs) + ts, n, n, atElse) == Skip(ts, n, n, atElse)
    decreases xs, 1
  {
    if xs == [] {
      assert Tokens(xs) + ts == ts;
    } else {
      assert [xs[0]][1..] == [];
      var rest := Tokens(xs[1..]) + ts;
      assert Tokens(xs) + ts == ItemTokens(xs[0]) + rest;
      match xs[0] {
        case Plain(t) => SkipOne(t, rest, n, n, atElse);
        case If(_, _, _, _) => SkipIf(xs[0], rest, n, atElse);
      }
      SkipItems(xs[1..], ts, n, atElse);
    }
  }

  lemma {:induction false} SkipIf(x: Item, ts: seq<Raw>, n: nat, atElse: bool)
    requires WellFormed([x]) && x.If? && NoJunk(x.yes) && NoJunk(x.no)
    ensures Skip(ItemTokens(x) + ts, n, n, atElse) == Skip(ts, n, n, atElse)
    decreases x, 0
  {
    hide Skip, ConditionTokens, Tokens, ItemTokens;
    var If(c, yes, hasElse, no) := x;
    var close := [CLOSE] + ts;
    var noPart := ElseTokens(hasElse, no) + close;
    var yesPart := Tokens(yes) + noPart;
    var thenPart := [THEN] + yesPart;
    var all := ConditionTokens(c) + thenPart;
    IfTokens(x, ts);
    SkipMarkers(all, yesPart, ts, n, atElse);
    SkipCondition(c, thenPart, n + 1, n, atElse);
    SkipItems(yes, noPart, n + 1, atElse);
    if hasElse {
      var rest := Tokens(no) + close;
      assert noPart == [ELSE] + rest;
      SkipNestedElse(rest, n, atElse);
      SkipItems(no, close, n + 1, atElse);
    } else {
      assert noPart == close;
    }
  }

  lemma IfTokens(x: Item, ts: seq<Raw>)
    requires WellFormed([x]) && x.If?
    ensures ConditionOk(x.c) && WellFormed(x.yes) && WellFormed(x.no)
    ensures ItemTokens(x) + ts ==
      [OPEN] + (ConditionTokens(x.c) + ([THEN] + (Tokens(x.yes) + (ElseTokens(x.hasElse, x.no) + ([CLOSE] + ts)))))
  {
    hide ConditionTokens, Tokens, ElseTokens;
  }

  lemma SkipMarkers(a: seq<Raw>, b: seq<Raw>, c: seq<Raw>, n: nat, atElse: bool)
    ensures Skip([OPEN] + a, n, n, atElse) == Skip(a, n + 1, n, atElse)
    ensures Skip([THEN] + b, n + 1, n, atElse) == Skip(b, n + 1, n + 1, atElse)
    ensures Skip([CLOSE] + c, n + 1, n + 1, atElse) == Skip(c, n, n, atElse)
  {
    assert ([OPEN] + a)[1..] == a && ([THEN] + b)[1..] == b && ([CLOSE] + c)[1..] == c;
  }

  lemma SkipNestedElse(a: seq<Raw>, n: nat, atElse: bool)
    ensures Skip([ELSE] + a, n + 1, n + 1, atElse) == Skip(a, n + 1, n + 1, atElse)
  {
    assert ([ELSE] + a)[1..] == a;
  }

  /** A branch made of tokens and conditionals can be skipped. */
  lemma ItemsSkippable(xs: seq<Item>, atElse: bool)
    requires WellFormed(xs) && NoJunk(xs)
    ensures Skippable(Tokens(xs), atElse)
  {
    SkipItems(xs, [CLOSE], 0, atElse);
    assert [CLOSE][1..] == [];
  }

  /** So can text that is no conditional; a conditional after it then cannot. */
  lemma JunkSkippable(t: Raw, atElse: bool)
    requires Ordinary(t)
    ensures Skippable([OPEN, t, CLOSE], atElse)
    ensures !Skippable([OPEN, t, CLOSE, OPEN, t, THEN, CLOSE], atElse)
  {
    SkipJunk(t, [CLOSE], atElse);
    assert [CLOSE][1..] == [];
    assert [OPEN, t, CLOSE] + [CLOSE] == [OPEN] + ([t] + ([CLOSE] + [CLOSE]));
    var rest := [THEN, CLOSE, CLOSE];
    SkipJunk(t, [OPEN] + ([t] + rest), atElse);
    assert ([OPEN] + ([t] + rest))[1..] == [t] + rest;
    SkipOne(t, rest, 1, -1, atElse);
    assert Skip(rest, 1, -1, atElse) == Failed;
    assert [OPEN, t, CLOSE, OPEN, t, THEN, CLOSE] + [CLOSE] == [OPEN] + ([t] + ([CLOSE] + ([OPEN] + ([t] + rest))));
  }

  lemma SkipJunk(t: Raw, rest: seq<Raw>, atElse: bool)
    requires Ordinary(t)
    ensures Skip([OPEN] + ([t] + ([CLOSE] + rest)), 0, 0, atElse) == Skip(rest, 0, -1, atElse)
  {
    assert ([OPEN] + ([t] + ([CLOSE] + rest)))[1..] == [t] + ([CLOSE] + rest);
    SkipOne(t, [CLOSE] + rest, 1, 0, atElse);
    assert ([CLOSE] + rest)[1..] == rest;
  }
}
