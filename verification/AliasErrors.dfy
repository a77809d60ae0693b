/**
 Which expansions of aliases report an error: those in which some location that is looked at had
 to yield a probe and did not, or in which the recursion check stops a chain.
 */
module AliasErrors {
  import opened Aliases
  import opened AliasRoutes

  /** A location that is not optional fails to match or leads to no probe; or it names an alias
      after a chain that has come back on itself. */
  ghost predicate Wrong(t: Table, chain: seq<nat>, l: Location, optional: bool) {
    || (!optional && !l.optional && (t.match_(l.pattern).fails || !Leads(t, chain, [l])))
    || (Looping(chain) && exists x | x in t.match_(l.pattern).targets :: x.ToAlias?)
  }

  /** The hops lead from the locations to one numbered `last` where something is wrong, and no
      location on the way is cut off.  Behind an optional location everything is optional. */
  ghost predicate Fault(t: Table, chain: seq<nat>, locs: seq<Location>, optional: bool, hops: seq<Hop>, last: nat)
    decreases hops
  {
    var i := Start(hops, last);
    && i < |locs| && (forall j | 0 <= j < i :: !Blocks(t, chain, locs[j]))
    && if hops == [] then Wrong(t, chain, locs[i], optional)
       else
         var k := hops[0].k;
         && k < |t.aliases| && ToAlias(k) in t.match_(locs[i].pattern).targets && !Looping(chain)
         && Fault(t, [k] + chain, Joined(t.aliases[k].locations, locs[i].condition), locs[i].optional || optional, hops[1..], last)
  }

  ghost predicate Faulty(t: Table, chain: seq<nat>, locs: seq<Location>, optional: bool) {
    exists hops: seq<Hop>, last: nat :: Fault(t, chain, locs, optional, hops, last)
  }

  lemma NothingFound(t: Table, use: Use, l: Location, optional: bool)
    requires TableOk(t) && ChainOk(t, use.chain)
    ensures DeriveAt(t, use, l, optional).results == [] <==> !Leads(t, use.chain, [l])
  {
    var found := DeriveAt(t, use, l, optional).results;
    assert DeriveProbes(t, use, [l][1..], optional).results == [];
    assert DeriveProbes(t, use, [l], optional).results == found;
    if Leads(t, use.chain, [l]) {
      var hops: seq<Hop>, last: nat, id: string :| Route(t, use.chain, [l], hops, last, id);
      SomethingFound(t, use, [l], optional, hops, last, id);
    }
    if found != [] {
      DerivedArrive(t, use, [l], optional);
      assert found[0] in found;
    }
  }

  // ----- a fault is reported -----

  lemma {:induction false} ErrorsAmong(t: Table, use: Use, l: Location, targets: seq<Target>, x: Target)
    requires TableOk(t) && ChainOk(t, use.chain) && TargetsOk(t, targets) && x in targets && TargetsOk(t, [x])
    ensures Build(t, use, l, x).errors <= BuildAll(t, use, l, targets).errors
    decreases targets
  {
    hide Build;
    if x != targets[0] { ErrorsAmong(t, use, l, targets[1..], x); }
  }

  lemma {:induction false} ErrorsReached(t: Table, use: Use, locs: seq<Location>, optional: bool, i: nat)
    requires TableOk(t) && ChainOk(t, use.chain) && i < |locs|
    requires forall j | 0 <= j < i :: !Blocks(t, use.chain, locs[j])
    ensures DeriveAt(t, use, locs[i], optional).errors <= DeriveProbes(t, use, locs, optional).errors
    decreases i
  {
    hide DeriveAt, Blocks;
    if i > 0 {
      assert !Blocks(t, use.chain, locs[0]);
      if Enough(t, locs[0], DeriveAt(t, use, locs[0], optional)) { EnoughBlocks(t, use, locs[0], optional); }
      assert forall j | 0 <= j < i - 1 :: locs[1..][j] == locs[j + 1];
      ErrorsReached(t, use, locs[1..], optional, i - 1);
    }
  }

  lemma WrongReported(t: Table, use: Use, l: Location, optional: bool)
    requires TableOk(t) && ChainOk(t, use.chain) && Wrong(t, use.chain, l, optional)
    ensures DeriveAt(t, use, l, optional).errors > 0
  {
    NothingFound(t, use, l, optional);
    if Looping(use.chain) && exists x | x in t.match_(l.pattern).targets :: x.ToAlias? {
      var x :| x in t.match_(l.pattern).targets && x.ToAlias?;
      assert TargetsOk(t, t.match_(l.pattern).targets) && TargetsOk(t, [x]);
      ErrorsAmong(t, use, At(l, optional), t.match_(l.pattern).targets, x);
    }
  }

  lemma {:induction false} FaultReported(t: Table, use: Use, locs: seq<Location>, optional: bool, hops: seq<Hop>, last: nat)
    requires TableOk(t) && ChainOk(t, use.chain) && Fault(t, use.chain, locs, optional, hops, last)
    ensures DeriveProbes(t, use, locs, optional).errors > 0
    decreases hops
  {
    hide Wrong, Blocks;
    var i := Start(hops, last);
    ErrorsReached(t, use, locs, optional, i);
    if hops == [] {
      WrongReported(t, use, locs[i], optional);
    } else {
      var k := hops[0].k;
      var a, l, x := t.aliases[k], At(locs[i], optional), ToAlias(k);
      ChainBound(t, use.chain);
      FaultReported(t, Use([k] + use.chain, Around(a, use.body)), Joined(a.locations, l.condition), l.optional, hops[1..], last);
      assert TargetsOk(t, t.match_(l.pattern).targets) && TargetsOk(t, [x]);
      assert Build(t, use, l, x).errors > 0;
      ErrorsAmong(t, use, l, t.match_(l.pattern).targets, x);
    }
  }

  // ----- an error has a fault -----

  lemma FaultHere(t: Table, chain: seq<nat>, locs: seq<Location>, optional: bool)
    requires locs != [] && Wrong(t, chain, locs[0], optional)
    ensures Faulty(t, chain, locs, optional)
  {
    hide Wrong;
    assert Fault(t, chain, locs, optional, [], 0);
  }

  lemma FaultLater(t: Table, chain: seq<nat>, locs: seq<Location>, optional: bool)
    requires locs != [] && !Blocks(t, chain, locs[0]) && Faulty(t, chain, locs[1..], optional)
    ensures Faulty(t, chain, locs, optional)
  {
    hide Blocks, Wrong;
    var hops: seq<Hop>, last: nat :| Fault(t, chain, locs[1..], optional, hops, last);
    var i := Start(hops, last);
    assert forall j | 0 <= j < i :: !Blocks(t, chain, locs[1..][j]);
    forall j | 0 <= j < i + 1 ensures !Blocks(t, chain, locs[j]) {
      if j > 0 { assert locs[j] == locs[1..][j - 1]; }
    }
    if hops == [] {
      assert Fault(t, chain, locs, optional, [], last + 1);
    } else {
      var hops' := [Hop(i + 1, hops[0].k)] + hops[1..];
      assert hops'[1..] == hops[1..];
      assert Fault(t, chain, locs, optional, hops', last);
    }
  }

  lemma FaultOnward(t: Table, chain: seq<nat>, locs: seq<Location>, optional: bool, k: nat)
    requires locs != [] && k < |t.aliases| && ToAlias(k) in t.match_(locs[0].pattern).targets && !Looping(chain)
    requires Faulty(t, [k] + chain, Joined(t.aliases[k].locations, locs[0].condition), locs[0].optional || optional)
    ensures Faulty(t, chain, locs, optional)
  {
    hide Blocks, Wrong;
    var hops: seq<Hop>, last: nat :|
      Fault(t, [k] + chain, Joined(t.aliases[k].locations, locs[0].condition), locs[0].optional || optional, hops, last);
    var hops' := [Hop(0, k)] + hops;
    assert hops'[1..] == hops && hops'[0] == Hop(0, k);
    assert Fault(t, chain, locs, optional, hops', last);
  }

  lemma {:induction false} ErrorFault(t: Table, use: Use, locs: seq<Location>, optional: bool)
    requires TableOk(t) && ChainOk(t, use.chain) && DeriveProbes(t, use, locs, optional).errors > 0
    ensures Faulty(t, use.chain, locs, optional)
    decreases |t.aliases| + 1 - |use.chain|, 2, |locs|
  {
    hide Blocks, Wrong, Build, BuildAll, Faulty;
    var here := DeriveAt(t, use, locs[0], optional);
    if here.errors > 0 {
      var l := At(locs[0], optional);
      var targets := t.match_(l.pattern).targets;
      if BuildAll(t, use, l, targets).errors > 0 {
        TargetsFault(t, use, locs, optional, targets);
      } else {
        NothingFound(t, use, locs[0], optional);
        assert Wrong(t, use.chain, locs[0], optional) by { MustYield(t, use.chain, locs[0], optional); }
        FaultHere(t, use.chain, locs, optional);
      }
    } else {
      if Blocks(t, use.chain, locs[0]) { BlockingEnough(t, use, locs[0], optional); }
      ErrorFault(t, use, locs[1..], optional);
      FaultLater(t, use.chain, locs, optional);
    }
  }

  lemma MustYield(t: Table, chain: seq<nat>, l: Location, optional: bool)
    requires !optional && !l.optional && (t.match_(l.pattern).fails || !Leads(t, chain, [l]))
    ensures Wrong(t, chain, l, optional)
  {
  }

  lemma {:induction false} TargetsFault(t: Table, use: Use, locs: seq<Location>, optional: bool, targets: seq<Target>)
    requires TableOk(t) && ChainOk(t, use.chain) && locs != []
    requires forall x | x in targets :: x in t.match_(locs[0].pattern).targets
    requires TargetsOk(t, targets) && BuildAll(t, use, At(locs[0], optional), targets).errors > 0
    ensures Faulty(t, use.chain, locs, optional)
    decreases |t.aliases| + 1 - |use.chain|, 0, 1 + |targets|
  {
    hide Wrong, Faulty;
    var l := At(locs[0], optional);
    assert targets[0] in targets;
    if Build(t, use, l, targets[0]).errors > 0 {
      var k := targets[0].k;
      ChainBound(t, use.chain);
      if Looping(use.chain) {
        assert Wrong(t, use.chain, locs[0], optional) by { Returned(t, use.chain, locs[0], optional, targets[0]); }
        FaultHere(t, use.chain, locs, optional);
      } else {
        var a := t.aliases[k];
        ChainBound(t, [k] + use.chain);
        ErrorFault(t, Use([k] + use.chain, Around(a, use.body)), Joined(a.locations, l.condition), l.optional);
        FaultOnward(t, use.chain, locs, optional, k);
      }
    } else {
      TargetsFault(t, use, locs, optional, targets[1..]);
    }
  }

  lemma Returned(t: Table, chain: seq<nat>, l: Location, optional: bool, x: Target)
    requires Looping(chain) && x in t.match_(l.pattern).targets && x.ToAlias?
    ensures Wrong(t, chain, l, optional)
  {
  }

  /** Errors are reported exactly if there is a fault. */
  lemma ErrorsExactly(t: Table, use: Use, locs: seq<Location>, optional: bool)
    requires TableOk(t) && ChainOk(t, use.chain)
    ensures DeriveProbes(t, use, locs, optional).errors > 0 <==> Faulty(t, use.chain, locs, optional)
  {
    hide Fault;
    if DeriveProbes(t, use, locs, optional).errors > 0 { ErrorFault(t, use, locs, optional); }
    if Faulty(t, use.chain, locs, optional) {
      var hops: seq<Hop>, last: nat :| Fault(t, use.chain, locs, optional, hops, last);
      FaultReported(t, use, locs, optional, hops, last);
    }
  }
}
