/**
 The scanner that the parser calls for one token at a time.  It keeps a queue of tokens from
 the branches already expanded and reads raw input only when the queue is empty.
 */
module Scanner {
  import opened Basics
  import opened Preprocess

  /** What a call yields: a token, the end of the input, or a parse error. */
  datatype Lexed = Got(t: Raw) | Eof | Thrown

  /** A condition is followed by something that does not continue it. */
  predicate EndsCondition(after: seq<Raw>) { after != [] && after[0] != AND && after[0] != OR && after[0] != Bad }

  /** What follows a list of items: the end of the input, or a token that begins no item. */
  predicate Ends(tail: seq<Raw>) { tail == [] || (tail[0] != OPEN && tail[0] != Bad) }

  predicate EndsBranch(tail: seq<Raw>, atElse: bool) { tail != [] && (tail[0] == CLOSE || (atElse && tail[0] == ELSE)) }

  /** The markers that do not end or break a branch when they stand in it by themselves. */
  predicate InBranch(stray: set<Raw>, atElse: bool) { stray <= if atElse then {} else {ELSE} }

  ghost predicate Reads(o: Oracle, input: seq<Raw>, xs: seq<Item>, stray: set<Raw>, tail: seq<Raw>) {
    WellFormed(xs) && Expandable(o, xs, stray) && input == Tokens(xs) + tail
  }

  predicate AllTrue(o: Oracle, g: seq<Test>) { forall t | t in g :: o(t) == Some(true) }

  lemma TestsSplit(o: Oracle, g: seq<Test>)
    requires g != []
    ensures AllTrue(o, g) <==> o(g[0]) == Some(true) && AllTrue(o, g[1..])
  {
    assert g == [g[0]] + g[1..];
  }

  lemma KnownSplit(o: Oracle, c: Condition)
    requires c != []
    ensures Known(o, c) <==> (forall t | t in c[0] :: o(t).Some?) && Known(o, c[1..])
  {
    assert forall g :: g in c <==> g == c[0] || g in c[1..] by { assert c == [c[0]] + c[1..]; }
    if Known(o, c) {
      assert c[0] in c;
      forall g, t | g in c[1..] && t in g ensures o(t).Some? { assert g in c; }
    }
    if (forall t | t in c[0] :: o(t).Some?) && Known(o, c[1..]) {
      forall g, t | g in c && t in g ensures o(t).Some? { if g != c[0] { assert g in c[1..]; } }
    }
  }

  lemma GroupsSplit(o: Oracle, c: Condition)
    requires c != []
    ensures Holds(o, c) <==> AllTrue(o, c[0]) || Holds(o, c[1..])
    ensures Known(o, c) <==> (forall t | t in c[0] :: o(t).Some?) && Known(o, c[1..])
  {
    assert forall g :: g in c <==> g == c[0] || g in c[1..] by { assert c == [c[0]] + c[1..]; }
    KnownSplit(o, c);
    if AllTrue(o, c[0]) { assert c[0] in c; }
    if Holds(o, c[1..]) {
      var g :| g in c[1..] && forall t | t in g :: o(t) == Some(true);
      assert g in c;
    }
    if Holds(o, c) {
      var g :| g in c && forall t | t in g :: o(t) == Some(true);
      if g != c[0] { assert g in c[1..]; }
    }
  }

  // ----- reading a condition -----

  /** In the middle of condition c: tests g of the current group and groups cs are to come. */
  ghost predicate Reading(o: Oracle, c: Condition, after: seq<Raw>, input: seq<Raw>, g: seq<Test>, cs: Condition, value: bool, and: bool) {
    && g != [] && Groups(cs) && TestsOk(cs) && Known(o, cs) && EndsCondition(after)
    && (forall t | t in g :: TestOk(t) && o(t).Some?)
    && input == Group(g) + (MoreGroups(cs) + after)
    && (Holds(o, c) <==> value || (and && AllTrue(o, g)) || Holds(o, cs))
  }

  function Follow(g: seq<Test>, cs: Condition, after: seq<Raw>): seq<Raw>
    requires g != [] && Groups(cs)
  {
    MoreTests(g[1..]) + (MoreGroups(cs) + after)
  }

  lemma ReadingStart(o: Oracle, c: Condition, after: seq<Raw>, input: seq<Raw>)
    requires ConditionOk(c) && Known(o, c) && EndsCondition(after) && input == ConditionTokens(c) + after
    ensures Reading(o, c, after, input, c[0], c[1..], false, true)
  {
    GroupsSplit(o, c);
    assert input == Group(c[0]) + (MoreGroups(c[1..]) + after);
  }

  lemma ReadingTest(o: Oracle, c: Condition, after: seq<Raw>, input: seq<Raw>, g: seq<Test>, cs: Condition, value: bool, and: bool)
    requires Reading(o, c, after, input, g, cs, value, and)
    ensures g != [] && Groups(cs) && TestOk(g[0]) && o(g[0]).Some? && input == TestTokens(g[0]) + Follow(g, cs, after)
    ensures Follow(g, cs, after) != [] && Follow(g, cs, after)[0] != Bad
  {
    hide MoreTests, MoreGroups;
    assert g[0] in g;
    FirstFollowing(g[1..], cs, after);
  }

  /** The token after a test tells which kind of thing comes next. */
  lemma FirstFollowing(g: seq<Test>, cs: Condition, after: seq<Raw>)
    requires Groups(cs) && EndsCondition(after)
    ensures var next := MoreTests(g) + (MoreGroups(cs) + after);
      next != [] && next[0] == if g != [] then AND else if cs != [] then OR else after[0]
  {
  }

  lemma ReadingAnd(o: Oracle, c: Condition, after: seq<Raw>, input: seq<Raw>, g: seq<Test>, cs: Condition, value: bool, and: bool)
    requires Reading(o, c, after, input, g, cs, value, and) && Follow(g, cs, after) != [] && Follow(g, cs, after)[0] == AND
    ensures g[1..] != [] && o(g[0]).Some?
    ensures Reading(o, c, after, Follow(g, cs, after)[1..], g[1..], cs, value, and && o(g[0]).value)
  {
    hide MoreGroups;
    assert g[0] in g;
    FirstFollowing(g[1..], cs, after);
    TestsSplit(o, g);
    var next := Group(g[1..]) + (MoreGroups(cs) + after);
    assert Follow(g, cs, after) == [AND] + next;
    assert ([AND] + next)[1..] == next;
  }

  lemma ReadingOr(o: Oracle, c: Condition, after: seq<Raw>, input: seq<Raw>, g: seq<Test>, cs: Condition, value: bool, and: bool)
    requires Reading(o, c, after, input, g, cs, value, and) && Follow(g, cs, after) != [] && Follow(g, cs, after)[0] == OR
    ensures cs != [] && o(g[0]).Some?
    ensures Reading(o, c, after, Follow(g, cs, after)[1..], cs[0], cs[1..], value || (and && o(g[0]).value), true)
  {
    hide MoreTests;
    assert g[0] in g;
    FirstFollowing(g[1..], cs, after);
    TestsSplit(o, g);
    GroupsSplit(o, cs);
    NoTests();
    var next := Group(cs[0]) + (MoreGroups(cs[1..]) + after);
    assert Follow(g, cs, after) == [OR] + next;
    assert ([OR] + next)[1..] == next;
    assert forall t | t in cs[0] :: TestOk(t);
  }

  lemma NoTests()
    ensures MoreTests([]) == []
  {
  }

  lemma ReadingEnd(o: Oracle, c: Condition, after: seq<Raw>, input: seq<Raw>, g: seq<Test>, cs: Condition, value: bool, and: bool)
    requires Reading(o, c, after, input, g, cs, value, and)
    requires Follow(g, cs, after) != [] && Follow(g, cs, after)[0] != AND && Follow(g, cs, after)[0] != OR
    ensures Follow(g, cs, after) == after && o(g[0]).Some? && (Holds(o, c) <==> value || (and && o(g[0]).value))
  {
    assert g[0] in g;
    FirstFollowing(g[1..], cs, after);
    TestsSplit(o, g);
    assert [] + ([] + after) == after;
  }

  class PreScanner {
    const eval: Oracle
    var input: seq<Raw>
    var enqueued: seq<Raw>

    constructor (eval: Oracle, input: seq<Raw>)
      ensures this.eval == eval && this.input == input && enqueued == []
    {
      this.eval, this.input, enqueued := eval, input, [];
    }

    /** The lexer: the next raw token. */
    method Scan() returns (t: Lexed)
      modifies `input
      ensures old(input) == [] ==> t == Eof && input == []
      ensures old(input) != [] ==> t == (if old(input)[0] == Bad then Thrown else Got(old(input)[0])) && input == old(input)[1..]
    {
      if input == [] { return Eof; }
      t := if input[0] == Bad then Thrown else Got(input[0]);
      input := input[1..];
    }

    /** Three tokens and their comparison. */
    method ScanTest(ghost x: Test, ghost after: seq<Raw>) returns (value: Option<bool>)
      modifies `input
      ensures |input| <= |old(input)|
      ensures TestOk(x) && old(input) == TestTokens(x) + after ==> input == after && value == eval(x)
    {
      ghost var start := input;
      var l := Scan();
      assert TestOk(x) && start == TestTokens(x) + after ==> input == [x.op, x.r] + after;
      var op := Scan();
      assert TestOk(x) && start == TestTokens(x) + after ==> input == [x.r] + after;
      var r := Scan();
      if !l.Got? || !op.Got? || !r.Got? { return None; }
      value := eval(Test(l.t, op.t, r.t));
    }

    /** A condition, and the token after it; nothing is short-circuited. */
    method ScanCondition(ghost c: Condition, ghost after: seq<Raw>) returns (result: Option<bool>, n: Lexed)
      modifies `input
      ensures |input| <= |old(input)|
      ensures ConditionOk(c) && Known(eval, c) && EndsCondition(after) && old(input) == ConditionTokens(c) + after ==>
        result == Some(Holds(eval, c)) && n == Got(after[0]) && input == after[1..]
    {
      hide Reading, ConditionTokens, Follow;
      ghost var good := ConditionOk(c) && Known(eval, c) && EndsCondition(after) && input == ConditionTokens(c) + after;
      ghost var g: seq<Test>, cs: Condition := [], [];
      var value, andResult := false, true;
      if good {
        ReadingStart(eval, c, after, input);
        g, cs := c[0], c[1..];
      }
      while true
        invariant |input| <= |old(input)|
        invariant good ==> Reading(eval, c, after, input, g, cs, value, andResult)
        decreases |input|
      {
        ghost var start, was, x, follow := input, andResult, Test(Bad, Bad, Bad), [];
        if good {
          ReadingTest(eval, c, after, start, g, cs, value, was);
          x, follow := g[0], Follow(g, cs, after);
        }
        var v := ScanTest(x, follow);
        if v.None? { return None, Thrown; }
        andResult := andResult && v.value;
        n := Scan();
        if n == Got(AND) {
          if good {
            ReadingAnd(eval, c, after, start, g, cs, value, was);
            g := g[1..];
          }
          continue;
        }
        ghost var valueWas := value;
        value := value || andResult;
        andResult := true;
        if n != Got(OR) {
          if good { ReadingEnd(eval, c, after, start, g, cs, valueWas, was); }
          return Some(value), n;
        }
        if good {
          ReadingOr(eval, c, after, start, g, cs, valueWas, was);
          g, cs := cs[0], cs[1..];
        }
      }
    }

    /** The branch not taken. */
    method SkipBranch(atElse: bool) returns (m: Lexed)
      modifies `input
      ensures match Skip(old(input), 0, 0, atElse)
        case Failed => m == Thrown
        case Found(x, rest) => m == Got(x) && input == rest
      ensures |input| <= |old(input)|
    {
      var nesting: nat, thens: int := 0, 0;
      while true
        invariant Skip(input, nesting, thens, atElse) == Skip(old(input), 0, 0, atElse)
        invariant |input| <= |old(input)|
        decreases |input|
      {
        m := Scan();
        if m == Eof { return Thrown; }
        if m == Thrown { continue; }
        if m.t == OPEN { nesting := nesting + 1; }
        if m.t == THEN {
          thens := thens + 1;
          if nesting != thens { return Thrown; }
        }
        if nesting == 0 && (m.t == CLOSE || (atElse && m.t == ELSE)) { return; }
        if nesting > 0 && m.t == CLOSE { nesting, thens := nesting - 1, thens - 1; }
      }
    }

    /** The branch taken: its tokens, themselves expanded. */
    method TakeBranch(atElse: bool, ghost xs: seq<Item>, ghost stray: set<Raw>, ghost tail: seq<Raw>) returns (m: Lexed, kept: seq<Raw>)
      modifies this
      ensures |input| <= |old(input)|
      ensures old(enqueued) == [] && Reads(eval, old(input), xs, stray, tail) && InBranch(stray, atElse) && EndsBranch(tail, atElse) ==>
        m == Got(tail[0]) && kept == Expand(eval, xs) && input == tail[1..] && enqueued == []
      decreases |input|, 1
    {
      hide Expand, WellFormed, Expandable, Tokens;
      ghost var good := enqueued == [] && Reads(eval, input, xs, stray, tail) && InBranch(stray, atElse) && EndsBranch(tail, atElse);
      ghost var ys := xs;
      if good { ExpandOrdinary(eval, xs, stray); }
      var nesting: nat, thens: int := 0, 0;
      kept := [];
      while true
        invariant |input| <= |old(input)|
        invariant good ==> Reads(eval, input, ys, stray, tail) && kept + (enqueued + Expand(eval, ys)) == Expand(eval, xs)
        invariant good ==> nesting == thens == 0
        decreases |input|, |enqueued|
      {
        ghost var pending := enqueued + Expand(eval, ys);
        m, ys := ScanPp(ys, stray, tail);
        if !m.Got? { return Thrown, []; }
        if good && pending != [] { assert (kept + pending)[|kept|] == m.t && m.t in Expand(eval, xs); }
        if m.t == OPEN { nesting := nesting + 1; }
        if m.t == THEN {
          thens := thens + 1;
          if nesting != thens { return Thrown, []; }
        }
        if nesting == 0 && (m.t == CLOSE || (atElse && m.t == ELSE)) { return; }
        if nesting > 0 && m.t == CLOSE { nesting, thens := nesting - 1, thens - 1; }
        if good { assert kept + pending == (kept + [m.t]) + pending[1..]; }
        kept := kept + [m.t];
      }
    }

    /** A conditional whose opening marker has been read. */
    method Conditional(ghost x: Item, ghost stray: set<Raw>, ghost tail: seq<Raw>) returns (ok: bool)
      modifies this
      ensures |input| <= |old(input)|
      ensures old(enqueued) == [] && x.If? && Reads(eval, [OPEN] + old(input), [x], stray, tail) ==>
        ok && enqueued == ExpandItem(eval, x) && input == tail
      decreases |input|, 2
    {
      hide Expand, Tokens, Skip, ConditionTokens;
      ghost var good := enqueued == [] && x.If? && Reads(eval, [OPEN] + input, [x], stray, tail);
      ghost var after: seq<Raw>, noPart: seq<Raw> := [], [];
      if good {
        SplitIf(eval, x, input, stray, tail);
        noPart := ElseTokens(x.hasElse, x.no) + ([CLOSE] + tail);
        after := [THEN] + (Tokens(x.yes) + noPart);
        AfterYes(x.hasElse, x.no, tail, noPart);
        ExpandNothing(eval);
      }
      var result, n := ScanCondition(if good then x.c else [], after);
      if result.None? || n != Got(THEN) { return false; }
      if good { assert after[1..] == Tokens(x.yes) + noPart; }
      var m, kept := Got(THEN), [];
      if result.value {
        m, kept := TakeBranch(true, if good then x.yes else [], {}, noPart);
      } else {
        if good {
          assert noPart == [noPart[0]] + noPart[1..];
          SkipOver(Tokens(x.yes), noPart[0], noPart[1..], 0, 0, true);
        }
        m := SkipBranch(true);
      }
      if !m.Got? { return false; }
      if m == Got(ELSE) {
        if result.value {
          if good { SkipOver(Tokens(x.no), CLOSE, tail, 0, 0, false); }
          m := SkipBranch(false);
        } else {
          m, kept := TakeBranch(false, if good then x.no else [], stray * {ELSE}, [CLOSE] + tail);
        }
        if !m.Got? { return false; }
      }
      enqueued := enqueued + kept;
      return true;
    }

    /** The next token for the parser. */
    method ScanPp(ghost xs: seq<Item>, ghost stray: set<Raw>, ghost tail: seq<Raw>) returns (t: Lexed, ghost ys: seq<Item>)
      modifies this
      ensures |input| < |old(input)| || (input == old(input) && |enqueued| < |old(enqueued)|) || (t == Eof && |input| <= |old(input)|)
      ensures Reads(eval, old(input), xs, stray, tail) && Ends(tail) ==>
        var pending := old(enqueued) + Expand(eval, xs);
        if pending != [] then
          t == Got(pending[0]) && Reads(eval, input, ys, stray, tail) && enqueued + Expand(eval, ys) == pending[1..]
        else
          enqueued == [] && if tail == [] then t == Eof && input == [] else t == Got(tail[0]) && input == tail[1..]
      decreases |input|, 0
    {
      hide Expand, Tokens, WellFormed, Expandable;
      ghost var good := Reads(eval, input, xs, stray, tail) && Ends(tail);
      ghost var pending := enqueued + Expand(eval, xs);
      ys := xs;
      while true
        invariant |input| <= |old(input)| && (|input| == |old(input)| ==> input == old(input) && enqueued == old(enqueued))
        invariant good ==> Reads(eval, input, ys, stray, tail) && enqueued + Expand(eval, ys) == pending
        decreases |input|
      {
        if |enqueued| > 0 {
          if good { assert pending[0] == enqueued[0] && pending[1..] == enqueued[1..] + Expand(eval, ys); }
          t := Got(enqueued[0]);
          enqueued := enqueued[1..];
          return;
        }
        ghost var start := input;
        t := Scan();
        if good { FirstToken(eval, start, ys, stray, tail); }
        if t != Got(OPEN) {
          if good && ys != [] { ys := ys[1..]; }
          return;
        }
        var ok := Conditional(if good then ys[0] else Plain(Bad), stray, if good then Tokens(ys[1..]) + tail else []);
        if !ok { return Thrown, ys; }
        if good { ys := ys[1..]; }
      }
    }
  }

  /** Repeated calls hand over exactly the expansion and then the end; no marker is among it but
      those that stand by themselves. */
  method ScanAll(s: PreScanner, ghost xs: seq<Item>) returns (ok: bool, out: seq<Raw>)
    requires s.enqueued == []
    modifies s
    ensures Reads(s.eval, old(s.input), xs, STRAYS, []) ==>
      ok && out == Expand(s.eval, xs) && forall t | t in out :: Ordinary(t) || t in STRAYS
    ensures Reads(s.eval, old(s.input), xs, {}, []) ==> ok && out == Expand(s.eval, xs) && forall t | t in out :: Ordinary(t)
  {
    hide Expand, Tokens, WellFormed, Expandable;
    ghost var stray := if Reads(s.eval, s.input, xs, {}, []) then {} else STRAYS;
    ghost var good := Reads(s.eval, s.input, xs, stray, []);
    ghost var ys := xs;
    if good { ExpandOrdinary(s.eval, xs, stray); }
    out := [];
    while true
      invariant good ==> Reads(s.eval, s.input, ys, stray, []) && out + (s.enqueued + Expand(s.eval, ys)) == Expand(s.eval, xs)
      decreases |s.input|, |s.enqueued|
    {
      ghost var pending := s.enqueued + Expand(s.eval, ys);
      var t;
      t, ys := s.ScanPp(ys, stray, []);
      if t == Eof {
        if good { assert out + pending == out; }
        return true, out;
      }
      if t == Thrown { return false, out; }
      if good { assert out + pending == (out + [t.t]) + pending[1..]; }
      out := out + [t.t];
    }
  }

  // ----- how the input divides -----

  /** The parts of a conditional after its opening marker. */
  lemma SplitIf(o: Oracle, x: Item, input: seq<Raw>, stray: set<Raw>, tail: seq<Raw>)
    requires x.If? && Reads(o, [OPEN] + input, [x], stray, tail)
    ensures ConditionOk(x.c) && Known(o, x.c) && WellFormed(x.yes) && WellFormed(x.no) && (!x.hasElse ==> x.no == [])
    ensures if Holds(o, x.c) then Expandable(o, x.yes, {}) && Skippable(Tokens(x.no), false)
            else Expandable(o, x.no, stray * {ELSE}) && Skippable(Tokens(x.yes), true)
    ensures input == ConditionTokens(x.c) + ([THEN] + (Tokens(x.yes) + (ElseTokens(x.hasElse, x.no) + ([CLOSE] + tail))))
  {
    hide ConditionTokens, Tokens, ElseTokens, ItemTokens, Expandable, WellFormed, Skippable;
    IfFacts(o, x, stray);
    OneItem(x);
    IfTokens(x, tail);
    var rest := ConditionTokens(x.c) + ([THEN] + (Tokens(x.yes) + (ElseTokens(x.hasElse, x.no) + ([CLOSE] + tail))));
    assert ([OPEN] + input)[1..] == input && ([OPEN] + rest)[1..] == rest;
  }

  lemma IfFacts(o: Oracle, x: Item, stray: set<Raw>)
    requires x.If? && WellFormed([x]) && Expandable(o, [x], stray)
    ensures ConditionOk(x.c) && Known(o, x.c) && WellFormed(x.yes) && WellFormed(x.no) && (!x.hasElse ==> x.no == [])
    ensures if Holds(o, x.c) then Expandable(o, x.yes, {}) && Skippable(Tokens(x.no), false)
            else Expandable(o, x.no, stray * {ELSE}) && Skippable(Tokens(x.yes), true)
  {
    hide ConditionOk, Known, Holds, Skippable, Tokens;
  }

  lemma ExpandNothing(o: Oracle)
    ensures Expand(o, []) == []
  {
  }

  /** What follows the first branch. */
  lemma AfterYes(hasElse: bool, no: seq<Item>, tail: seq<Raw>, noPart: seq<Raw>)
    requires WellFormed(no) && noPart == ElseTokens(hasElse, no) + ([CLOSE] + tail)
    ensures EndsBranch(noPart, true) && noPart[0] == (if hasElse then ELSE else CLOSE)
    ensures noPart[1..] == if hasElse then Tokens(no) + ([CLOSE] + tail) else tail
  {
    hide Tokens, WellFormed;
    assert ([CLOSE] + tail)[1..] == tail;
  }

  /** The first token of a list of items and what is left. */
  lemma FirstToken(o: Oracle, input: seq<Raw>, xs: seq<Item>, stray: set<Raw>, tail: seq<Raw>)
    requires Reads(o, input, xs, stray, tail)
    ensures xs == [] ==> input == tail && Expand(o, xs) == []
    ensures xs != [] ==>
      && Expand(o, xs) == ExpandItem(o, xs[0]) + Expand(o, xs[1..])
      && WellFormed(xs[1..]) && Reads(o, Tokens(xs[1..]) + tail, xs[1..], stray, tail) && !xs[0].Junk?
    ensures xs != [] && xs[0].Plain? ==>
      input != [] && input[0] != OPEN && input[0] != Bad && ExpandItem(o, xs[0]) == [input[0]] && input[1..] == Tokens(xs[1..]) + tail
    ensures xs != [] && xs[0].If? ==>
      input != [] && input[0] == OPEN && Reads(o, [OPEN] + input[1..], [xs[0]], stray, Tokens(xs[1..]) + tail)
  {
    hide Expand, Tokens, WellFormed, Expandable, Known, Holds, ConditionTokens, ElseTokens;
    ExpandSplit(o, xs);
    TokensSplit(xs);
    if xs != [] {
      HeadFacts(o, xs, stray);
      var rest := Tokens(xs[1..]) + tail;
      assert input == ItemTokens(xs[0]) + rest;
      if xs[0].Plain? { assert ([xs[0].t] + rest)[1..] == rest; } else { FirstOfIf(o, input, xs[0], stray, rest); }
    }
  }

  lemma HeadFacts(o: Oracle, xs: seq<Item>, stray: set<Raw>)
    requires xs != [] && WellFormed(xs) && Expandable(o, xs, stray)
    ensures Expandable(o, xs[1..], stray)
    ensures xs[0].Plain? ==> xs[0].t != OPEN && xs[0].t != Bad
    ensures !xs[0].Junk? && WellFormed([xs[0]]) && Expandable(o, [xs[0]], stray)
  {
    hide Known, Holds;
  }

  lemma TokensSplit(xs: seq<Item>)
    requires WellFormed(xs)
    ensures xs == [] ==> Tokens(xs) == []
    ensures xs != [] ==> WellFormed([xs[0]]) && WellFormed(xs[1..]) && Tokens(xs) == ItemTokens(xs[0]) + Tokens(xs[1..])
  {
    hide ItemTokens;
    if xs != [] { assert [xs[0]][1..] == []; }
  }

  lemma FirstOfIf(o: Oracle, input: seq<Raw>, x: Item, stray: set<Raw>, rest: seq<Raw>)
    requires x.If? && WellFormed([x]) && Expandable(o, [x], stray)
    requires input == ItemTokens(x) + rest
    ensures input != [] && input[0] == OPEN && Reads(o, [OPEN] + input[1..], [x], stray, rest)
  {
    hide Tokens, ConditionTokens, Known, Holds;
    assert [x][0] == x && [x][1..] == [];
    OneItem(x);
    assert ItemTokens(x)[0] == OPEN;
    assert input == [OPEN] + input[1..];
  }

  lemma OneItem(x: Item)
    requires WellFormed([x])
    ensures Tokens([x]) == ItemTokens(x)
  {
    hide ItemTokens;
    assert [x][0] == x && [x][1..] == [];
    assert Tokens([x]) == ItemTokens(x) + Tokens([]);
    assert ItemTokens(x) + [] == ItemTokens(x);
  }

  lemma ExpandSplit(o: Oracle, xs: seq<Item>)
    ensures Expand(o, xs) == if xs == [] then [] else ExpandItem(o, xs[0]) + Expand(o, xs[1..])
  {
  }
}
