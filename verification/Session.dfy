/**
 The session and the relaxation loop over it, as they are updated in place.
 */
module Session {
  import opened Syntax
  import opened Semantics
  import opened VarUse
  import opened DeadAssign
  import opened Replace
  import opened ConstFold
  import opened Passes
  import opened Relax
  import opened Visitors

  class Session {
    const unoptimized: bool
    var globals: seq<Var>
    var functions: map<string, Func>
    var order: seq<string>
    var probes: seq<Probe>
    var relaxed: bool

    constructor (p: Program, unoptimized: bool)
      ensures Snapshot() == p && this.unoptimized == unoptimized && !relaxed
    {
      this.unoptimized := unoptimized;
      globals, functions, order, probes := p.globals, p.funcs, p.order, p.probes;
      relaxed := false;
    }

    function Snapshot(): Program
      reads this
    {
      Program(globals, functions, order, probes)
    }

    /** The uses of all probes, and of their conditions if asked for. */
    method CollectUses(conditions: bool) returns (u: Use)
      ensures u == SessionUse(Snapshot(), conditions)
    {
      var c := new Collector(functions);
      for i := 0 to |probes|
        invariant fresh(c) && c.fs == functions
        invariant UseProbes(functions, c.Gathered(), probes[i..], conditions) == SessionUse(Snapshot(), conditions)
      {
        assert probes[i..][0] == probes[i] && probes[i..][1..] == probes[i + 1..];
        c.VisitStmt(probes[i].body);
        if conditions { c.VisitOpt(probes[i].cond); }
      }
      u := c.Gathered();
    }

    method Pass1()
      requires Listed(Snapshot())
      modifies this
      ensures Snapshot() == DropFunctions(old(Snapshot()))
      ensures relaxed == (old(relaxed) && !DropFunctionsHit(old(Snapshot())))
    {
      hide SessionUse, Only;
      var u := CollectUses(true);
      var unused: seq<string> := [];
      for i := 0 to |order|
        invariant Snapshot() == old(Snapshot())
        invariant forall f | f in unused :: f in functions && f !in u.seen
        invariant forall k | 0 <= k < i && order[k] in functions && order[k] !in u.seen :: order[k] in unused
        invariant relaxed == (old(relaxed) && unused == [])
      {
        if order[i] in functions && order[i] !in u.seen {
          unused := unused + [order[i]];
          relaxed := false;
        }
      }
      assert forall f | f in functions && f !in u.seen :: f in order && f in unused;
      assert unused != [] ==> unused[0] in functions;
      Erase(unused);
      order := Only(order, u.seen);
    }

    method Erase(names: seq<string>)
      modifies this`functions
      ensures functions == map f | f in old(functions) && f !in names :: old(functions)[f]
    {
      for i := 0 to |names|
        invariant functions == map f | f in old(functions) && f !in names[..i] :: old(functions)[f]
      {
        functions := functions - {names[i]};
        assert names[..i + 1] == names[..i] + [names[i]];
      }
      assert names[..|names|] == names;
    }

    /** Erases, index by index, the variables that are not used. */
    static method EraseUnused(vars: seq<Var>, used: set<Var>) returns (left: seq<Var>, erased: bool)
      ensures left == Only(vars, used)
      ensures erased == (left != vars)
    {
      hide Only;
      left, erased := vars, false;
      var j := 0;
      assert left[..0] == [] && left[0..] == vars;
      while j < |left|
        invariant j <= |left| && Only(vars, used) == left[..j] + Only(left[j..], used)
        invariant if erased then |left| < |vars| else left == vars
        decreases |left| - j
      {
        OnlyStep(left, j, used);
        if left[j] in used {
          j := j + 1;
        } else {
          left := left[..j] + left[j + 1..];
          erased := true;
        }
      }
      OnlyNothing(left, used);
    }

    method TrimProbes(used: set<Var>)
      modifies this`probes, this`relaxed
      ensures |probes| == old(|probes|) && forall i | 0 <= i < |probes| :: probes[i] == TrimProbe(used, old(probes)[i])
      ensures relaxed == (old(relaxed) && forall i | 0 <= i < |probes| :: probes[i] == old(probes)[i])
    {
      for i := 0 to |probes|
        invariant |probes| == old(|probes|)
        invariant forall j | 0 <= j < |probes| :: probes[j] == if j < i then TrimProbe(used, old(probes)[j]) else old(probes)[j]
        invariant relaxed == (old(relaxed) && forall j | 0 <= j < i :: probes[j] == old(probes)[j])
      {
        var locals, erased := EraseUnused(probes[i].locals, used);
        probes := probes[i := probes[i].(locals := locals)];
        if erased { relaxed := false; }
      }
    }

    method TrimFunctions(used: set<Var>)
      modifies this`functions, this`relaxed
      ensures functions.Keys == old(functions.Keys) && forall f | f in functions :: functions[f] == TrimFunc(used, old(functions)[f])
      ensures relaxed == (old(relaxed) && forall f | f in functions :: functions[f] == old(functions)[f])
    {
      var names := functions.Keys;
      while names != {}
        invariant names <= functions.Keys == old(functions.Keys)
        invariant forall f | f in functions :: functions[f] == if f in names then old(functions)[f] else TrimFunc(used, old(functions)[f])
        invariant relaxed == (old(relaxed) && forall f | f in functions && f !in names :: functions[f] == old(functions)[f])
        decreases names
      {
        var f :| f in names;
        var locals, erased := EraseUnused(functions[f].locals, used);
        functions := functions[f := functions[f].(locals := locals)];
        if erased { relaxed := false; }
        names := names - {f};
      }
    }

    method Pass2()
      modifies this
      ensures Snapshot() == DropVariables(old(Snapshot()))
      ensures relaxed == (old(relaxed) && Snapshot() == old(Snapshot()))
    {
      hide TrimProbe, TrimFunc;
      var u := CollectUses(true);
      var used := u.read + u.written;
      ghost var q := DropVariables(Snapshot());
      TrimProbes(used);
      assert probes == q.probes;
      TrimFunctions(used);
      assert functions == q.funcs;
      var gs, erased := EraseUnused(globals, used);
      globals := gs;
      if erased { relaxed := false; }
    }

    method StripProbes(dead: Var -> bool)
      modifies this`probes, this`relaxed
      ensures |probes| == old(|probes|) && forall i | 0 <= i < |probes| :: probes[i] == StripProbe(dead, old(probes)[i])
      ensures relaxed == (old(relaxed) && forall i | 0 <= i < |probes| :: probes[i] == old(probes)[i])
    {
      for i := 0 to |probes|
        invariant |probes| == old(|probes|)
        invariant forall j | 0 <= j < |probes| :: probes[j] == if j < i then StripProbe(dead, old(probes)[j]) else old(probes)[j]
        invariant relaxed == (old(relaxed) && forall j | 0 <= j < i :: probes[j] == old(probes)[j])
      {
        var body := StripStmt(dead, probes[i].body);
        if body != probes[i].body { relaxed := false; }
        probes := probes[i := probes[i].(body := body)];
      }
    }

    method StripFunctions(dead: Var -> bool)
      modifies this`functions, this`relaxed
      ensures functions.Keys == old(functions.Keys) && forall f | f in functions :: functions[f] == StripFunc(dead, old(functions)[f])
      ensures relaxed == (old(relaxed) && forall f | f in functions :: functions[f] == old(functions)[f])
    {
      var names := functions.Keys;
      while names != {}
        invariant names <= functions.Keys == old(functions.Keys)
        invariant forall f | f in functions :: functions[f] == if f in names then old(functions)[f] else StripFunc(dead, old(functions)[f])
        invariant relaxed == (old(relaxed) && forall f | f in functions && f !in names :: functions[f] == old(functions)[f])
        decreases names
      {
        var f :| f in names;
        var body := StripStmt(dead, functions[f].body);
        if body != functions[f].body { relaxed := false; }
        functions := functions[f := functions[f].(body := body)];
        names := names - {f};
      }
    }

    method Pass3()
      modifies this
      ensures Snapshot() == StripAssignments(old(Snapshot()))
      ensures relaxed == (old(relaxed) && Snapshot() == old(Snapshot()))
    {
      hide StripProbe, StripFunc;
      var u := CollectUses(false);
      var dead := DeadTest(u.read, globals);
      ghost var q := StripAssignments(Snapshot());
      StripProbes(dead);
      assert probes == q.probes;
      StripFunctions(dead);
      assert functions == q.funcs;
    }

    /** One body rewritten by the visitor of pass 4 or 5, or folded. */
    method RewriteBody(w: Rewriter, frame: set<Var>, s: Stmt) returns (r: Stmt)
      modifies this`relaxed
      ensures r == Rewrite(w, functions, SetOf(globals), frame, s)
      ensures relaxed == (old(relaxed) && !Hit(w, functions, SetOf(globals), frame, s))
    {
      match w {
        case Prune =>
          var v := new DeadStmtRemover(functions, SetOf(globals) + frame, relaxed);
          var x := v.VisitStmt(s);
          r := if x.Some? then x.value else Null;
          relaxed := v.relaxed;
        case Reduce =>
          var v := new VoidReducer(functions, SetOf(globals), relaxed);
          r := v.Require(s);
          relaxed := v.relaxed;
        case Fold =>
          r := FoldStmt(functions, s);
          if r != s { relaxed := false; }
      }
    }

    /** Passes 4 and 5 and constant folding: the probes, then the functions, in place. */
    method Pass(w: Rewriter)
      modifies this
      ensures Snapshot() == BodyPass(w, old(Snapshot()))
      ensures relaxed == (old(relaxed) && !BodyPassHit(w, old(Snapshot())))
    {
      RewriteAllProbes(w);
      RewriteAllFunctions(w);
    }

    method RewriteAllProbes(w: Rewriter)
      modifies this`probes, this`relaxed
      ensures probes == RewriteProbes(w, functions, SetOf(globals), old(probes))
      ensures relaxed == (old(relaxed) && !ProbesHit(w, functions, SetOf(globals), old(probes)))
    {
      hide Rewrite, Hit;
      ghost var was, gs := probes, SetOf(globals);
      for i := 0 to |probes|
        invariant |probes| == |was|
        invariant forall j | 0 <= j < |was| :: probes[j] == if j < i then RewriteProbe(w, functions, gs, was[j]) else was[j]
        invariant relaxed == (old(relaxed) && forall j | 0 <= j < i :: !Hit(w, functions, gs, SetOf(was[j].locals), was[j].body))
      {
        var body := RewriteBody(w, SetOf(probes[i].locals), probes[i].body);
        probes := probes[i := probes[i].(body := body)];
      }
    }

    method RewriteAllFunctions(w: Rewriter)
      modifies this`functions, this`relaxed
      ensures functions == RewriteFuncs(w, old(functions), SetOf(globals), order)
      ensures relaxed == (old(relaxed) && !FuncsHit(w, old(functions), SetOf(globals), order))
    {
      hide Rewrite, Hit;
      for i := 0 to |order|
        invariant RewriteFuncs(w, functions, SetOf(globals), order[i..]) == RewriteFuncs(w, old(functions), SetOf(globals), order)
        invariant (relaxed && !FuncsHit(w, functions, SetOf(globals), order[i..])) == (old(relaxed) && !FuncsHit(w, old(functions), SetOf(globals), order))
      {
        assert order[i..][0] == order[i] && order[i..][1..] == order[i + 1..];
        var f := order[i];
        if f in functions {
          var body := RewriteBody(w, FrameVars(functions[f]), functions[f].body);
          functions := functions[f := functions[f].(body := body)];
        }
      }
    }

    /** The relaxation loop.  It ends, because every round that clears `relaxed` makes the
        program lighter; and it preserves every run of the session that ends, if every round
        was safe, which the early check guarantees. */
    method Optimize() returns (ghost rounds: nat)
      requires SimpleConditions(Snapshot()) && Listed(Snapshot())
      modifies this
      ensures Snapshot() == Rounds(unoptimized, old(Snapshot()), rounds)
      ensures SafeFor(unoptimized, old(Snapshot()), rounds) ==> Preserves(old(Snapshot()), Snapshot())
      ensures old(Ready(Snapshot())) ==> Preserves(old(Snapshot()), Snapshot())
      ensures FirstQuiet(unoptimized, old(Snapshot()), rounds)
      ensures Listed(Snapshot())
    {
      hide Preserves, Ready, Listed, SimpleConditions, SafeFor, RoundHit, Round, Rounds;
      relaxed := false;
      rounds := 0;
      ghost var first := Snapshot();
      NoRounds(unoptimized, first);
      while !relaxed
        invariant Snapshot() == Rounds(unoptimized, first, rounds) && Listed(Snapshot())
        invariant if relaxed then FirstQuiet(unoptimized, first, rounds) else AllHit(unoptimized, first, rounds)
        decreases ProgramWeight(Snapshot()), !relaxed
      {
        RoundWeight(unoptimized, Snapshot());
        NextRound(unoptimized, first, rounds);
        OneRound();
        rounds := rounds + 1;
      }
      RoundsPreserve(unoptimized, first, rounds);
      if Ready(first) { ReadyRounds(unoptimized, first, rounds); }
    }

    method OneRound()
      requires Listed(Snapshot())
      modifies this
      ensures Snapshot() == Round(unoptimized, old(Snapshot()))
      ensures relaxed == !RoundHit(unoptimized, old(Snapshot()))
    {
      hide DropFunctions, DropVariables, StripAssignments, BodyPass, BodyPassHit, DropFunctionsHit;
      relaxed := true;
      if !unoptimized {
        Pass1();
        Pass2();
        Pass3();
        Pass(Prune);
        Pass(Reduce);
      }
      Pass(Fold);
    }
  }

  lemma NoRounds(unoptimized: bool, p: Program)
    ensures Rounds(unoptimized, p, 0) == p
  {
  }

  lemma NextRound(unoptimized: bool, p: Program, k: nat)
    ensures Rounds(unoptimized, p, k + 1) == Round(unoptimized, Rounds(unoptimized, p, k))
  {
  }

  lemma OnlyStep(left: seq<Var>, j: nat, used: set<Var>)
    requires j < |left|
    ensures left[j] in used ==> left[..j] + Only(left[j..], used) == left[..j + 1] + Only(left[j + 1..], used)
    ensures left[j] !in used ==>
      var shorter := left[..j] + left[j + 1..];
      left[..j] + Only(left[j..], used) == shorter[..j] + Only(shorter[j..], used)
  {
    assert left[j..][0] == left[j] && left[j..][1..] == left[j + 1..];
    var shorter := left[..j] + left[j + 1..];
    assert shorter[..j] == left[..j] && shorter[j..] == left[j + 1..];
  }

  lemma OnlyNothing(left: seq<Var>, used: set<Var>)
    ensures left[..|left|] + Only(left[|left|..], used) == left
  {
  }
}
