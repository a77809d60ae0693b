/**
 The second relaxation loop, which merges duplicate functions until there are none: when its
 rounds leave no call to a function they erase, and what it then preserves.
 */
module MergeLoop {
  import opened Basics
  import opened Syntax
  import opened Semantics
  import opened Replace
  import opened Passes
  import opened Relax
  import opened Confined
  import opened Reach
  import opened Merge
  import opened MergeProof

  // ----- what a round leaves reachable -----

  ghost function Reached(p: Program): iset<string> { SeenNames(SessionUse(p, false)) }

  /** Where the calls of functions in names go. */
  ghost function Images(rep: map<string, string>, names: iset<string>): iset<string> { iset f | f in names :: Target(rep, f) }

  lemma TargetKept(p: Program, f: string)
    requires Enumerated(p)
    ensures Target(Duplicates(p), f) !in Duplicates(p)
  {
    if f in p.funcs { RepresentativeFits(p, f); }
  }

  /** A clean round makes nothing reachable but what replaces a reached function. */
  lemma NothingElseReached(p: Program)
    requires Enumerated(p) && Scoped(p) && CleanMerge(p)
    ensures Reached(MergeDuplicates(p)) <= Images(Duplicates(p), Reached(p))
  {
    hide Matched, MergeDuplicates, Duplicates;
    var q, rep := MergeDuplicates(p), Duplicates(p);
    var names := Images(rep, Reached(p));
    SessionSeenClosed(p, false);
    MergeMatches(p);
    forall r | r in names && r in q.funcs ensures ConfinedStmt(ALL_VARS, names, q.funcs[r].body) {
      var f :| f in Reached(p) && Target(rep, f) == r;
      ImageConfined(p, f);
    }
    forall pr | pr in q.probes ensures ConfinedStmt(ALL_VARS, names, pr.body) {
      var i: nat :| i < |q.probes| && q.probes[i] == pr;
      SameProbes(p);
      MergedProbe(p, i);
      assert p.probes[i] in p.probes;
      Widen(ALL_VARS, Reached(p), ALL_VARS, GoTo(rep, names), p.probes[i].body);
      RedirectConfinedStmt(rep, ALL_VARS, names, p.probes[i].body);
    }
    SessionSeenLeast(q, names, false);
  }

  lemma SameProbes(p: Program)
    ensures |MergeDuplicates(p).probes| == |p.probes| && MergeDuplicates(p).globals == p.globals
    ensures MergeDuplicates(p).funcs.Keys == p.funcs.Keys - Duplicates(p).Keys
  {
  }

  lemma ImageConfined(p: Program, f: string)
    requires Enumerated(p) && Matched(PairingOf(p)) && f in Reached(p) && Target(Duplicates(p), f) in MergeDuplicates(p).funcs
    requires f in p.funcs ==> ConfinedStmt(ALL_VARS, Reached(p), p.funcs[f].body)
    ensures ConfinedStmt(ALL_VARS, Images(Duplicates(p), Reached(p)), MergeDuplicates(p).funcs[Target(Duplicates(p), f)].body)
  {
    hide MergeDuplicates, Duplicates;
    SameProbes(p);
    var q, k := MergeDuplicates(p), PairingOf(p);
    var r, names := Target(k.rep, f), Images(k.rep, Reached(p));
    if f !in p.funcs { NotDuplicate(p, f); }
    assert MatchedFunc(k, f);
    var body := p.funcs[f].body;
    Widen(ALL_VARS, Reached(p), ALL_VARS, GoTo(k.rep, names), body);
    assert OwnedInto(r, ALL_VARS) == ALL_VARS;
    OwnConfinedStmt(r, ALL_VARS, GoTo(k.rep, names), body);
    RedirectConfinedStmt(k.rep, ALL_VARS, names, OwnStmt(r, body));
  }

  /** The calls of a reached function whose replacement is reached, if nothing erased is. */
  lemma ReplacedCalls(p: Program, f: string)
    requires Enumerated(p) && Scoped(p) && Reached(MergeDuplicates(p)) <= Kept(Duplicates(p))
    requires f in p.funcs && Target(Duplicates(p), f) in Reached(MergeDuplicates(p))
    ensures ConfinedStmt(ALL_VARS, GoTo(Duplicates(p), Reached(MergeDuplicates(p))), p.funcs[f].body)
    ensures Target(Duplicates(p), f) !in Traversed(p) ==> ConfinedStmt(ALL_VARS, Kept(Duplicates(p)), p.funcs[f].body)
  {
    hide SigOf, Enumerated, Duplicates, SessionUse;
    var q, rep := MergeDuplicates(p), Duplicates(p);
    var r, after, body := Target(rep, f), Reached(q), p.funcs[f].body;
    RepresentativeFits(p, f);
    assert ScopedFunc(f, p.funcs[f]) && ScopedFunc(r, p.funcs[r]);
    SameText(f, r, p.funcs[f], p.funcs[r]);
    SessionSeenClosed(q, false);
    assert OwnedInto(r, ALL_VARS) == ALL_VARS;
    if r in Traversed(p) {
      RedirectConfinedStmt(rep, ALL_VARS, after, OwnStmt(r, body));
      OwnConfinedStmt(r, ALL_VARS, GoTo(rep, after), body);
    } else {
      OwnConfinedStmt(r, ALL_VARS, after, body);
      Widen(ALL_VARS, after, ALL_VARS, GoTo(rep, after), body);
      Widen(ALL_VARS, after, ALL_VARS, Kept(rep), body);
    }
  }

  /** If nothing erased can be reached, all that replaces a reached function can, and the round
      was clean. */
  lemma StillReached(p: Program)
    requires Enumerated(p) && Scoped(p) && Reached(MergeDuplicates(p)) <= Kept(Duplicates(p))
    ensures Images(Duplicates(p), Reached(p)) <= Reached(MergeDuplicates(p)) && CleanMerge(p)
  {
    hide Enumerated, Scoped, Duplicates, MergeDuplicates;
    var q, rep := MergeDuplicates(p), Duplicates(p);
    var names := GoTo(rep, Reached(q));
    forall f | f in names && f in p.funcs ensures ConfinedStmt(ALL_VARS, names, p.funcs[f].body) { ReplacedCalls(p, f); }
    SessionSeenClosed(q, false);
    SameProbes(p);
    forall pr | pr in p.probes ensures ConfinedStmt(ALL_VARS, names, pr.body) {
      var i: nat :| i < |p.probes| && p.probes[i] == pr;
      MergedProbe(p, i);
      assert q.probes[i] in q.probes;
      RedirectConfinedStmt(rep, ALL_VARS, Reached(q), pr.body);
    }
    SessionSeenLeast(p, names, false);
    forall f | f in p.funcs && f in Traversed(p) && Target(rep, f) !in Traversed(p)
      ensures ConfinedStmt(ALL_VARS, Kept(rep), p.funcs[f].body)
    {
      assert f in Reached(p);
      ReplacedCalls(p, f);
    }
  }

  /** A round is clean exactly when it leaves no reachable call to a function it erases. */
  lemma CleanExactly(p: Program)
    requires Enumerated(p) && Scoped(p)
    ensures CleanMerge(p) <==> Traversed(MergeDuplicates(p)) !! Duplicates(p).Keys
  {
    hide Enumerated, Scoped, Duplicates, MergeDuplicates, CleanMerge;
    var q, rep := MergeDuplicates(p), Duplicates(p);
    if CleanMerge(p) { CleanKept(p); }
    if Traversed(q) !! rep.Keys {
      assert Reached(q) <= Kept(rep);
      StillReached(p);
    }
  }

  lemma CleanKept(p: Program)
    requires Enumerated(p) && Scoped(p) && CleanMerge(p)
    ensures Reached(MergeDuplicates(p)) <= Kept(Duplicates(p))
    ensures Traversed(MergeDuplicates(p)) !! Duplicates(p).Keys
  {
    hide Enumerated, Scoped, Duplicates, MergeDuplicates, CleanMerge;
    var q, rep := MergeDuplicates(p), Duplicates(p);
    NothingElseReached(p);
    forall r | r in Reached(q) ensures r !in rep {
      var f :| f in Reached(p) && Target(rep, f) == r;
      TargetKept(p, f);
    }
    forall r | r in Traversed(q) ensures r !in rep { assert r in Reached(q); }
  }

  /** After a clean round exactly the functions that replace a reached one are reached. */
  lemma MergeReached(p: Program)
    requires Enumerated(p) && Scoped(p) && CleanMerge(p)
    ensures Reached(MergeDuplicates(p)) == Images(Duplicates(p), Reached(p))
  {
    hide Enumerated, Scoped, Duplicates, MergeDuplicates, CleanMerge;
    CleanKept(p);
    NothingElseReached(p);
    StillReached(p);
  }

  /** Every reachable call is still of a function of the session exactly when it was, and the
      round was clean. */
  lemma ResolvedExactly(p: Program)
    requires Enumerated(p) && Scoped(p)
    ensures Resolved(MergeDuplicates(p)) <==> Resolved(p) && CleanMerge(p)
  {
    hide Enumerated, Scoped, MergeDuplicates, CleanMerge, Duplicates;
    var q, rep := MergeDuplicates(p), Duplicates(p);
    SameProbes(p);
    CleanExactly(p);
    if CleanMerge(p) {
      MergeReached(p);
      if Resolved(p) {
        forall r | r in Traversed(q) ensures r in q.funcs {
          assert r in Reached(q);
          var f :| f in Reached(p) && Target(rep, f) == r;
          RepresentativeFits(p, f);
        }
      }
      if Resolved(q) {
        forall f | f in Traversed(p) ensures f in p.funcs {
          assert f in Reached(p) && Target(rep, f) in Reached(q);
          if f !in p.funcs { NotDuplicate(p, f); }
        }
      }
    }
  }

  lemma NotDuplicate(p: Program, f: string)
    requires f !in p.funcs
    ensures f !in Duplicates(p)
  {
  }

  // ----- what a round keeps -----

  /** What symbol resolution establishes and the rounds keep. */
  ghost predicate Mergeable(p: Program) { Enumerated(p) && Scoped(p) && SimpleConditions(p) }

  lemma MergeStaysEnumerated(p: Program)
    requires Enumerated(p)
    ensures Enumerated(MergeDuplicates(p))
  {
    OnlyDistinct(p.order, p.funcs.Keys - Duplicates(p).Keys);
  }

  lemma MergeStaysScoped(p: Program)
    requires Scoped(p)
    ensures Scoped(MergeDuplicates(p))
  {
    hide Duplicates, Traversed;
    var q, rep := MergeDuplicates(p), Duplicates(p);
    assert GoTo(rep, ALL_NAMES) == ALL_NAMES;
    forall f | f in q.funcs ensures ScopedFunc(f, q.funcs[f]) {
      assert ScopedFunc(f, p.funcs[f]);
      RedirectConfinedStmt(rep, Scope(f, FrameVars(p.funcs[f])), ALL_NAMES, p.funcs[f].body);
    }
    forall pr | pr in q.probes ensures ScopedProbe(pr) {
      var i :| 0 <= i < |q.probes| && q.probes[i] == pr;
      assert p.probes[i] in p.probes && ScopedProbe(p.probes[i]);
      var own :| OwnedStmt(own, SetOf(p.probes[i].locals), p.probes[i].body);
      RedirectConfinedStmt(rep, Scope(own, SetOf(p.probes[i].locals)), ALL_NAMES, p.probes[i].body);
      assert OwnedStmt(own, SetOf(pr.locals), pr.body);
    }
  }

  lemma MergeStaysMergeable(p: Program)
    requires Mergeable(p)
    ensures Mergeable(MergeDuplicates(p))
  {
    MergeStaysEnumerated(p);
    MergeStaysScoped(p);
    SameGuards(p, MergeDuplicates(p));
  }

  lemma MergeShrinks(p: Program)
    requires HasDuplicates(p)
    ensures |MergeDuplicates(p).funcs| < |p.funcs|
  {
    var q := MergeDuplicates(p);
    var f :| f in Duplicates(p);
    assert q.funcs.Keys <= p.funcs.Keys - {f};
    SubsetSize(q.funcs.Keys, p.funcs.Keys - {f});
  }

  /** A session without duplicates is left as it is, and so still has none. */
  lemma MergeNothing(p: Program)
    requires !HasDuplicates(p)
    ensures var q := MergeDuplicates(p);
      q.funcs == p.funcs && q.probes == p.probes && q.globals == p.globals && !HasDuplicates(q)
  {
    hide SigOf, SessionUse;
    var q := MergeDuplicates(p);
    assert Duplicates(p) == map[] && p.funcs.Keys - Duplicates(p).Keys == p.funcs.Keys;
    SessionSeenClosed(p, false);
    forall s | ConfinedStmt(ALL_VARS, Reached(p), s) ensures RedirectStmt(map[], s) == s {
      RedirectUnusedStmt(map[], ALL_VARS, Reached(p), s);
    }
    forall f | f in p.funcs ensures q.funcs[f] == p.funcs[f] { assert f in Traversed(p) ==> f in Reached(p); }
    assert q.funcs == p.funcs;
    forall i | 0 <= i < |p.probes| ensures q.probes[i] == p.probes[i] { assert p.probes[i] in p.probes; }
    assert q.probes == p.probes;
    assert q.order == Only(p.order, p.funcs.Keys);
    forall f | f in p.funcs ensures Representative(q, f) == Representative(p, f) {
      FirstOnly(p.funcs, p.order, SigOf(p.funcs[f]));
    }
    assert forall f | f in p.funcs :: f !in Duplicates(p);
  }

  lemma {:induction false} FirstOnly(fs: map<string, Func>, order: seq<string>, sig: Sig)
    ensures First(fs, Only(order, fs.Keys), sig) == First(fs, order, sig)
    decreases order
  {
    hide SigOf;
    if order != [] {
      FirstOnly(fs, order[1..], sig);
      if order[0] in fs { assert Only(order, fs.Keys)[1..] == Only(order[1..], fs.Keys); }
    }
  }

  // ----- sessions with only clean rounds -----

  /** The rounds of the loop, up to the first that finds no duplicates. */
  function Merged(p: Program): Program
    decreases |p.funcs|
  {
    if HasDuplicates(p) then
      MergeShrinks(p);
      Merged(MergeDuplicates(p))
    else MergeDuplicates(p)
  }

  /** All of them are clean. */
  ghost predicate CleanMerges(p: Program)
    decreases |p.funcs|
  {
    CleanMerge(p) && (HasDuplicates(p) ==> (MergeShrinks(p); CleanMerges(MergeDuplicates(p))))
  }

  lemma {:induction false} MergedUnique(p: Program)
    ensures !HasDuplicates(Merged(p)) && (Enumerated(p) ==> Enumerated(Merged(p)))
    decreases |p.funcs|
  {
    hide HasDuplicates, MergeDuplicates, Enumerated;
    if Enumerated(p) { MergeStaysEnumerated(p); }
    if HasDuplicates(p) {
      MergeShrinks(p);
      MergedUnique(MergeDuplicates(p));
    } else {
      MergeNothing(p);
    }
  }

  /** Merging preserves every run that ends, if its rounds are clean. */
  lemma {:induction false} MergedPreserves(p: Program)
    requires Mergeable(p) && CleanMerges(p)
    ensures Preserves(p, Merged(p)) && Mergeable(Merged(p))
    decreases |p.funcs|
  {
    hide HasDuplicates, MergeDuplicates, CleanMerge, Preserves;
    var q := MergeDuplicates(p);
    MergePreserves(p);
    MergeStaysMergeable(p);
    if HasDuplicates(p) {
      MergeShrinks(p);
      MergedPreserves(q);
      PreservesTrans(p, q, Merged(q));
    }
  }

  /** Every call that can be reached in the end is of a function of the session exactly when this
      was so before and the rounds are clean. */
  lemma {:induction false} MergedResolved(p: Program)
    requires Enumerated(p) && Scoped(p)
    ensures Resolved(Merged(p)) <==> Resolved(p) && CleanMerges(p)
    decreases |p.funcs|
  {
    hide HasDuplicates, MergeDuplicates, CleanMerge, Resolved, Enumerated, Scoped;
    ResolvedExactly(p);
    if HasDuplicates(p) {
      MergeShrinks(p);
      MergeStaysEnumerated(p);
      MergeStaysScoped(p);
      MergedResolved(MergeDuplicates(p));
    }
  }

  /** A check on the session: a function that cannot be reached calls none. */
  ghost predicate LeavesUnreached(p: Program) {
    forall f | f in p.funcs && f !in Traversed(p) :: ConfinedStmt(ALL_VARS, iset{}, p.funcs[f].body)
  }

  lemma LeavesClean(p: Program)
    requires Enumerated(p) && Scoped(p) && LeavesUnreached(p)
    ensures CleanMerge(p) && LeavesUnreached(MergeDuplicates(p))
  {
    hide SigOf, Enumerated;
    var q, rep := MergeDuplicates(p), Duplicates(p);
    forall f | f in p.funcs && f in Traversed(p) && Target(rep, f) !in Traversed(p)
      ensures ConfinedStmt(ALL_VARS, Kept(rep), p.funcs[f].body)
    {
      var r := Target(rep, f);
      RepresentativeFits(p, f);
      assert ScopedFunc(f, p.funcs[f]) && ScopedFunc(r, p.funcs[r]);
      SameText(f, r, p.funcs[f], p.funcs[r]);
      assert OwnedInto(r, ALL_VARS) == ALL_VARS;
      OwnConfinedStmt(r, ALL_VARS, iset{}, p.funcs[f].body);
      Widen(ALL_VARS, iset{}, ALL_VARS, Kept(rep), p.funcs[f].body);
    }
    MergeReached(p);
    forall f | f in q.funcs && f in Traversed(p) ensures f in Traversed(q) {
      assert f in Reached(p) && Target(rep, f) in Reached(q);
    }
  }

  lemma {:induction false} LeavesCleanAll(p: Program)
    requires Enumerated(p) && Scoped(p) && LeavesUnreached(p)
    ensures CleanMerges(p)
    decreases |p.funcs|
  {
    hide HasDuplicates, MergeDuplicates, CleanMerge, Enumerated, Scoped, LeavesUnreached;
    LeavesClean(p);
    if HasDuplicates(p) {
      MergeShrinks(p);
      MergeStaysEnumerated(p);
      MergeStaysScoped(p);
      LeavesCleanAll(MergeDuplicates(p));
    }
  }

  /** If every function can be reached, every function left can. */
  lemma MergeKeepsReachable(p: Program)
    requires Enumerated(p) && Scoped(p) && AllReachable(p)
    ensures CleanMerge(p) && AllReachable(MergeDuplicates(p))
  {
    hide Enumerated, Scoped;
    var q, rep := MergeDuplicates(p), Duplicates(p);
    LeavesClean(p);
    MergeReached(p);
    forall f | f in q.funcs ensures f in Traversed(q) { assert f in Reached(p) && Target(rep, f) in Reached(q); }
  }

  // ----- the loop -----

  class Merger {
    var globals: seq<Var>
    var functions: map<string, Func>
    var order: seq<string>
    var probes: seq<Probe>
    var relaxed: bool

    constructor (p: Program)
      ensures Snapshot() == p
    {
      globals, functions, order, probes := p.globals, p.funcs, p.order, p.probes;
      relaxed := false;
    }

    function Snapshot(): Program
      reads this
    {
      Program(globals, functions, order, probes)
    }

    /** Walks the functions, remembering the first of every text and noting the others. */
    method FindDuplicates() returns (dup: map<string, string>)
      requires Enumerated(Snapshot())
      ensures dup == Duplicates(Snapshot())
    {
      hide Representative, SigOf, Enumerated;
      ghost var p := Snapshot();
      var first: map<Sig, string> := map[];
      dup := map[];
      assert order[..0] == [];
      for i := 0 to |order|
        invariant Knows(functions, order[..i], first)
        invariant forall f | f in dup :: f in functions && Representative(p, f) != f && dup[f] == Representative(p, f)
        invariant forall k | 0 <= k < i && order[k] in functions && order[k] !in dup :: Representative(p, order[k]) == order[k]
      {
        var f := order[i];
        KnowsNext(functions, order, i, first);
        if f in functions {
          var sig := SigOf(functions[f]);
          RepresentativeKnown(p, i, first);
          if sig in first {
            dup := dup[f := first[sig]];
          } else {
            first := first[sig := f];
          }
        }
      }
      AllKnown(p, dup);
    }

    method Pass6()
      requires Enumerated(Snapshot())
      modifies this
      ensures Snapshot() == MergeDuplicates(old(Snapshot()))
      ensures relaxed == (old(relaxed) && !HasDuplicates(old(Snapshot())))
    {
      hide Duplicates, Traversed, RedirectStmt, MergedFuncs, Only, Enumerated, MergeDuplicates;
      var dup := FindDuplicates();
      if dup != map[] { relaxed := false; }
      ghost var p := Snapshot();
      var seen := Traversed(Snapshot());
      order := Only(order, functions.Keys - dup.Keys);
      functions := MergedFuncs(functions, dup, seen);
      RedirectProbes(dup);
      MergedIs(p, Snapshot());
    }

    method RedirectProbes(dup: map<string, string>)
      modifies this`probes
      ensures |probes| == old(|probes|)
      ensures forall i | 0 <= i < |probes| :: probes[i] == old(probes)[i].(body := RedirectStmt(dup, old(probes)[i].body))
    {
      for i := 0 to |probes|
        invariant |probes| == old(|probes|)
        invariant forall j | 0 <= j < |probes| ::
          probes[j] == if j < i then old(probes)[j].(body := RedirectStmt(dup, old(probes)[j].body)) else old(probes)[j]
      {
        probes := probes[i := probes[i].(body := RedirectStmt(dup, probes[i].body))];
      }
    }

    /** The second relaxation loop: it ends and leaves no duplicates; and it preserves every run
        that ends, if its rounds are clean. */
    method MergeAll()
      requires Enumerated(Snapshot())
      modifies this
      ensures Snapshot() == Merged(old(Snapshot()))
      ensures Enumerated(Snapshot()) && !HasDuplicates(Snapshot())
      ensures old(Mergeable(Snapshot()) && CleanMerges(Snapshot())) ==> Preserves(old(Snapshot()), Snapshot())
    {
      hide Preserves, Mergeable, MergeDuplicates, HasDuplicates, Enumerated, CleanMerges;
      ghost var first := Snapshot();
      relaxed := false;
      while !relaxed
        invariant Enumerated(Snapshot())
        invariant if relaxed then Snapshot() == Merged(first) else Merged(Snapshot()) == Merged(first)
        decreases |functions|, !relaxed
      {
        relaxed := true;
        MergeStaysEnumerated(Snapshot());
        if HasDuplicates(Snapshot()) { MergeShrinks(Snapshot()); } else { MergeNothing(Snapshot()); }
        Pass6();
      }
      MergedUnique(first);
      if Mergeable(first) && CleanMerges(first) { MergedPreserves(first); }
    }
  }

  lemma MergedIs(p: Program, q: Program)
    requires var dup := Duplicates(p);
      && q.globals == p.globals && q.order == Only(p.order, p.funcs.Keys - dup.Keys)
      && q.funcs == MergedFuncs(p.funcs, dup, Traversed(p))
      && |q.probes| == |p.probes|
      && forall i | 0 <= i < |q.probes| :: q.probes[i] == p.probes[i].(body := RedirectStmt(dup, p.probes[i].body))
    ensures q == MergeDuplicates(p)
  {
    hide Duplicates, Traversed, RedirectStmt, MergedFuncs, Only;
    assert q.probes == MergeDuplicates(p).probes;
  }


  /** The first match in a longer list is the first match in the prefix, if there is one. */
  lemma {:induction false} FirstPrefix(fs: map<string, Func>, order: seq<string>, i: nat, sig: Sig)
    requires i <= |order|
    ensures First(fs, order[..i], sig).Some? ==> First(fs, order, sig) == First(fs, order[..i], sig)
    decreases order
  {
    if i > 0 {
      assert order[..i][1..] == order[1..][..i - 1];
      FirstPrefix(fs, order[1..], i - 1, sig);
    }
  }

  /** `first` holds the first function of every text met so far. */
  ghost predicate Knows(fs: map<string, Func>, met: seq<string>, first: map<Sig, string>) {
    forall sig :: First(fs, met, sig) == if sig in first then Some(first[sig]) else None
  }

  lemma {:induction false} FirstSnoc(fs: map<string, Func>, order: seq<string>, f: string, sig: Sig)
    ensures First(fs, order + [f], sig) ==
            if First(fs, order, sig).Some? then First(fs, order, sig)
            else if f in fs && SigOf(fs[f]) == sig then Some(f) else None
    decreases order
  {
    if order == [] {
      assert order + [f] == [f] && [f][1..] == [];
      assert First(fs, [f][1..], sig) == None;
    } else {
      assert (order + [f])[1..] == order[1..] + [f];
      FirstSnoc(fs, order[1..], f, sig);
    }
  }

  lemma KnowsNext(fs: map<string, Func>, order: seq<string>, i: nat, first: map<Sig, string>)
    requires i < |order| && Knows(fs, order[..i], first)
    ensures var f := order[i];
      Knows(fs, order[..i + 1], if f in fs && SigOf(fs[f]) !in first then first[SigOf(fs[f]) := f] else first)
  {
    hide SigOf;
    var f := order[i];
    assert order[..i + 1] == order[..i] + [f];
    forall sig { FirstSnoc(fs, order[..i], f, sig); }
  }

  lemma RepresentativeKnown(p: Program, i: nat, first: map<Sig, string>)
    requires Enumerated(p) && i < |p.order| && p.order[i] in p.funcs && Knows(p.funcs, p.order[..i], first)
    ensures var f := p.order[i];
      var sig := SigOf(p.funcs[f]);
      if sig in first then Representative(p, f) == first[sig] && first[sig] != f else Representative(p, f) == f
  {
    hide SigOf;
    var f := p.order[i];
    var sig := SigOf(p.funcs[f]);
    FirstPrefix(p.funcs, p.order, i, sig);
    FirstPrefix(p.funcs, p.order, i + 1, sig);
    FirstFound(p.funcs, p.order[..i], sig);
    KnowsNext(p.funcs, p.order, i, first);
  }

  lemma AllKnown(p: Program, dup: map<string, string>)
    requires Enumerated(p)
    requires forall f | f in dup :: f in p.funcs && Representative(p, f) != f && dup[f] == Representative(p, f)
    requires forall k | 0 <= k < |p.order| && p.order[k] in p.funcs && p.order[k] !in dup :: Representative(p, p.order[k]) == p.order[k]
    ensures dup == Duplicates(p)
  {
    hide Representative;
    assert forall f | f in p.funcs :: f in p.order;
  }
}
