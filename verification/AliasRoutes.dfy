/**
 Which probes alias expansion derives: one for each route through the aliases that the
 recursion check lets pass and that no sufficient location cuts off, with the bodies and
 conditions collected along the route.
 */
module AliasRoutes {
  import opened Aliases

  /** Through location i to alias k. */
  datatype Hop = Hop(i: nat, k: nat)

  /** The hops lead from the locations to a location number `last` that matches a concrete probe;
      each is made from a chain that passes the recursion check. */
  predicate Route(t: Table, chain: seq<nat>, locs: seq<Location>, hops: seq<Hop>, last: nat, id: string)
    decreases hops
  {
    if hops == [] then last < |locs| && ToProbe(id) in t.match_(locs[last].pattern).targets
    else
      var Hop(i, k) := hops[0];
      && i < |locs| && k < |t.aliases| && ToAlias(k) in t.match_(locs[i].pattern).targets
      && !Looping(chain)
      && Route(t, [k] + chain, Joined(t.aliases[k].locations, locs[i].condition), hops[1..], last, id)
  }

  function Chain(hops: seq<Hop>, chain: seq<nat>): seq<nat>
    decreases hops
  {
    if hops == [] then chain else Chain(hops[1..], [hops[0].k] + chain)
  }

  function Body(t: Table, hops: seq<Hop>, body: seq<string>): seq<string>
    requires forall h | h in hops :: h.k < |t.aliases|
    decreases hops
  {
    if hops == [] then body else Body(t, hops[1..], Around(t.aliases[hops[0].k], body))
  }

  lemma {:induction false} RouteInTable(t: Table, chain: seq<nat>, locs: seq<Location>, hops: seq<Hop>, last: nat, id: string)
    requires Route(t, chain, locs, hops, last, id)
    ensures forall h | h in hops :: h.k < |t.aliases|
    decreases hops
  {
    if hops != [] {
      var Hop(i, k) := hops[0];
      RouteInTable(t, [k] + chain, Joined(t.aliases[k].locations, locs[i].condition), hops[1..], last, id);
      assert hops == [hops[0]] + hops[1..];
    }
  }

  function Condition(t: Table, chain: seq<nat>, locs: seq<Location>, hops: seq<Hop>, last: nat, id: string): seq<string>
    requires Route(t, chain, locs, hops, last, id)
    decreases hops
  {
    if hops == [] then locs[last].condition
    else
      var Hop(i, k) := hops[0];
      Condition(t, [k] + chain, Joined(t.aliases[k].locations, locs[i].condition), hops[1..], last, id)
  }

  /** The probe at the end of a route. */
  function Arrival(t: Table, use: Use, locs: seq<Location>, hops: seq<Hop>, last: nat, id: string): Derived
    requires Route(t, use.chain, locs, hops, last, id)
  {
    RouteInTable(t, use.chain, locs, hops, last, id);
    Derived(id, Chain(hops, use.chain), Body(t, hops, use.body), Condition(t, use.chain, locs, hops, last, id))
  }

  /** Some route, cut off or not, leads from the locations to a probe. */
  ghost predicate Leads(t: Table, chain: seq<nat>, locs: seq<Location>) {
    exists hops: seq<Hop>, last: nat, id: string :: Route(t, chain, locs, hops, last, id)
  }

  /** The locations after this one are not looked at. */
  ghost predicate Blocks(t: Table, chain: seq<nat>, l: Location) {
    l.sufficient && !t.match_(l.pattern).fails && Leads(t, chain, [l])
  }

  function Start(hops: seq<Hop>, last: nat): nat { if hops == [] then last else hops[0].i }

  /** No location before the one taken blocks the way, at any hop. */
  ghost predicate Open(t: Table, chain: seq<nat>, locs: seq<Location>, hops: seq<Hop>, last: nat, id: string)
    requires Route(t, chain, locs, hops, last, id)
    decreases hops
  {
    && (forall j | 0 <= j < Start(hops, last) :: !Blocks(t, chain, locs[j]))
    && (hops != [] ==>
         var Hop(i, k) := hops[0];
         Open(t, [k] + chain, Joined(t.aliases[k].locations, locs[i].condition), hops[1..], last, id))
  }

  ghost predicate OpenRoute(t: Table, chain: seq<nat>, locs: seq<Location>, hops: seq<Hop>, last: nat, id: string) {
    Route(t, chain, locs, hops, last, id) && Open(t, chain, locs, hops, last, id)
  }

  /** A derived probe is the end of some open route. */
  ghost predicate Arrives(t: Table, use: Use, locs: seq<Location>, d: Derived) {
    exists hops: seq<Hop>, last: nat ::
      OpenRoute(t, use.chain, locs, hops, last, d.id) && d == Arrival(t, use, locs, hops, last, d.id)
  }

  // ----- a route that exists is either taken, or cut off by another that is -----

  lemma {:induction false} SomethingFound(t: Table, use: Use, locs: seq<Location>, optional: bool, hops: seq<Hop>, last: nat, id: string)
    requires TableOk(t) && ChainOk(t, use.chain)
    requires Route(t, use.chain, locs, hops, last, id)
    ensures DeriveProbes(t, use, locs, optional).results != []
    decreases hops
  {
    var i := Start(hops, last);
    var x := if hops == [] then ToProbe(id) else ToAlias(hops[0].k);
    var l := At(locs[i], optional);
    var targets := t.match_(l.pattern).targets;
    assert TargetsOk(t, targets) && TargetsOk(t, [x]);
    if hops != [] {
      var k := hops[0].k;
      var a := t.aliases[k];
      ChainBound(t, use.chain);
      SomethingFound(t, Use([k] + use.chain, Around(a, use.body)), Joined(a.locations, l.condition), l.optional, hops[1..], last, id);
    }
    assert Build(t, use, l, x).results != [];
    assert Build(t, use, l, x).results[0] in Build(t, use, l, x).results;
    BuiltAmong(t, use, l, targets, x);
    FoundAt(t, use, locs, optional, i);
  }

  lemma {:induction false} FoundAt(t: Table, use: Use, locs: seq<Location>, optional: bool, i: nat)
    requires TableOk(t) && ChainOk(t, use.chain) && i < |locs|
    requires DeriveAt(t, use, locs[i], optional).results != []
    ensures DeriveProbes(t, use, locs, optional).results != []
    decreases i
  {
    if i > 0 { FoundAt(t, use, locs[1..], optional, i - 1); }
  }

  lemma BlockingEnough(t: Table, use: Use, l: Location, optional: bool)
    requires TableOk(t) && ChainOk(t, use.chain) && Blocks(t, use.chain, l)
    ensures Enough(t, l, DeriveAt(t, use, l, optional))
  {
    var hops: seq<Hop>, last: nat, id: string :| Route(t, use.chain, [l], hops, last, id);
    SomethingFound(t, use, [l], optional, hops, last, id);
    assert DeriveProbes(t, use, [l][1..], optional).results == [];
  }

  // ----- everything derived is the end of an open route -----

  lemma {:induction false} DerivedArrive(t: Table, use: Use, locs: seq<Location>, optional: bool)
    requires TableOk(t) && ChainOk(t, use.chain)
    ensures forall d | d in DeriveProbes(t, use, locs, optional).results :: Arrives(t, use, locs, d)
    decreases |t.aliases| + 1 - |use.chain|, 2, |locs|
  {
    if locs != [] {
      var l := At(locs[0], optional);
      TargetsArrive(t, use, locs, l, t.match_(l.pattern).targets);
      DerivedArrive(t, use, locs[1..], optional);
      if !Enough(t, locs[0], DeriveAt(t, use, locs[0], optional)) {
        if Blocks(t, use.chain, locs[0]) { BlockingEnough(t, use, locs[0], optional); }
        forall d | Arrives(t, use, locs[1..], d) ensures Arrives(t, use, locs, d) { ArriveLater(t, use, locs, d); }
      }
    }
  }

  lemma ArriveLater(t: Table, use: Use, locs: seq<Location>, d: Derived)
    requires locs != [] && !Blocks(t, use.chain, locs[0]) && Arrives(t, use, locs[1..], d)
    ensures Arrives(t, use, locs, d)
  {
    var hops: seq<Hop>, last: nat :|
      OpenRoute(t, use.chain, locs[1..], hops, last, d.id) && d == Arrival(t, use, locs[1..], hops, last, d.id);
    hide Blocks;
    var first := Start(hops, last);
    assert forall j | 0 <= j < first :: !Blocks(t, use.chain, locs[1..][j]);
    assert forall j | 0 <= j < first + 1 :: !Blocks(t, use.chain, locs[j]) by {
      forall j | 0 < j < first + 1 ensures !Blocks(t, use.chain, locs[j]) { assert locs[j] == locs[1..][j - 1]; }
    }
    if hops == [] {
      assert OpenRoute(t, use.chain, locs, [], last + 1, d.id) && d == Arrival(t, use, locs, [], last + 1, d.id);
    } else {
      var hops' := [Hop(hops[0].i + 1, hops[0].k)] + hops[1..];
      assert hops'[1..] == hops[1..];
      assert OpenRoute(t, use.chain, locs, hops', last, d.id) && d == Arrival(t, use, locs, hops', last, d.id);
    }
  }

  lemma {:induction false} TargetsArrive(t: Table, use: Use, locs: seq<Location>, l: Location, targets: seq<Target>)
    requires TableOk(t) && ChainOk(t, use.chain) && locs != []
    requires l.pattern == locs[0].pattern && l.condition == locs[0].condition
    requires forall x | x in targets :: x in t.match_(l.pattern).targets
    ensures TargetsOk(t, targets)
    ensures forall d | d in BuildAll(t, use, l, targets).results :: Arrives(t, use, locs, d)
    decreases |t.aliases| + 1 - |use.chain|, 0, 1 + |targets|
  {
    assert TargetsOk(t, t.match_(l.pattern).targets);
    if targets != [] {
      assert targets[0] in targets;
      TargetArrives(t, use, locs, l, targets[0]);
      TargetsArrive(t, use, locs, l, targets[1..]);
    }
  }

  lemma {:induction false} TargetArrives(t: Table, use: Use, locs: seq<Location>, l: Location, x: Target)
    requires TableOk(t) && ChainOk(t, use.chain) && locs != []
    requires l.pattern == locs[0].pattern && l.condition == locs[0].condition
    requires x in t.match_(l.pattern).targets && TargetsOk(t, [x])
    ensures forall d | d in Build(t, use, l, x).results :: Arrives(t, use, locs, d)
    decreases |t.aliases| + 1 - |use.chain|, 0, 0
  {
    match x
    case ToProbe(id) =>
      assert OpenRoute(t, use.chain, locs, [], 0, id);
      assert Build(t, use, l, x).results == [Arrival(t, use, locs, [], 0, id)];
    case ToAlias(k) =>
      ChainBound(t, use.chain);
      assert x in [x];
      if !Looping(use.chain) {
        var a := t.aliases[k];
        var use', locs' := Use([k] + use.chain, Around(a, use.body)), Joined(a.locations, l.condition);
        ChainBound(t, use'.chain);
        DerivedArrive(t, use', locs', l.optional);
        forall d | Arrives(t, use', locs', d) ensures Arrives(t, use, locs, d) {
          var hops: seq<Hop>, last: nat :|
            OpenRoute(t, use'.chain, locs', hops, last, d.id) && d == Arrival(t, use', locs', hops, last, d.id);
          Onward(t, use, locs, k, hops, last, d.id);
        }
      }
  }

  lemma Onward(t: Table, use: Use, locs: seq<Location>, k: nat, hops: seq<Hop>, last: nat, id: string)
    requires locs != [] && k < |t.aliases| && ToAlias(k) in t.match_(locs[0].pattern).targets && !Looping(use.chain)
    requires OpenRoute(t, [k] + use.chain, Joined(t.aliases[k].locations, locs[0].condition), hops, last, id)
    ensures Arrives(t, use, locs, Arrival(t, Use([k] + use.chain, Around(t.aliases[k], use.body)), Joined(t.aliases[k].locations, locs[0].condition), hops, last, id))
  {
    var hops' := [Hop(0, k)] + hops;
    assert hops'[1..] == hops && hops'[0] == Hop(0, k);
    assert OpenRoute(t, use.chain, locs, hops', last, id);
    RouteInTable(t, use.chain, locs, hops', last, id);
    RouteInTable(t, [k] + use.chain, Joined(t.aliases[k].locations, locs[0].condition), hops, last, id);
    assert Arrival(t, use, locs, hops', last, id).id == id;
  }

  // ----- every open route is taken -----

  lemma EnoughBlocks(t: Table, use: Use, l: Location, optional: bool)
    requires TableOk(t) && ChainOk(t, use.chain) && Enough(t, l, DeriveAt(t, use, l, optional))
    ensures Blocks(t, use.chain, l)
  {
    DerivedArrive(t, use, [l], optional);
    var d := DeriveAt(t, use, l, optional).results[0];
    assert d in DeriveProbes(t, use, [l], optional).results;
  }

  lemma {:induction false} RoutesTaken(t: Table, use: Use, locs: seq<Location>, optional: bool, hops: seq<Hop>, last: nat, id: string)
    requires TableOk(t) && ChainOk(t, use.chain)
    requires OpenRoute(t, use.chain, locs, hops, last, id)
    ensures Arrival(t, use, locs, hops, last, id) in DeriveProbes(t, use, locs, optional).results
    decreases hops
  {
    var i := Start(hops, last);
    var x := if hops == [] then ToProbe(id) else ToAlias(hops[0].k);
    var l := At(locs[i], optional);
    var targets := t.match_(l.pattern).targets;
    assert TargetsOk(t, targets) && TargetsOk(t, [x]);
    if hops != [] {
      var k := hops[0].k;
      var a := t.aliases[k];
      ChainBound(t, use.chain);
      RoutesTaken(t, Use([k] + use.chain, Around(a, use.body)), Joined(a.locations, l.condition), l.optional, hops[1..], last, id);
    }
    assert Arrival(t, use, locs, hops, last, id) in Build(t, use, l, x).results;
    BuiltAmong(t, use, l, targets, x);
    LocationReached(t, use, locs, optional, i);
  }

  lemma {:induction false} BuiltAmong(t: Table, use: Use, l: Location, targets: seq<Target>, x: Target)
    requires TableOk(t) && ChainOk(t, use.chain) && TargetsOk(t, targets) && x in targets && TargetsOk(t, [x])
    ensures forall d | d in Build(t, use, l, x).results :: d in BuildAll(t, use, l, targets).results
    decreases targets
  {
    if x != targets[0] { BuiltAmong(t, use, l, targets[1..], x); }
  }

  lemma {:induction false} LocationReached(t: Table, use: Use, locs: seq<Location>, optional: bool, i: nat)
    requires TableOk(t) && ChainOk(t, use.chain) && i < |locs|
    requires forall j | 0 <= j < i :: !Blocks(t, use.chain, locs[j])
    ensures forall d | d in DeriveAt(t, use, locs[i], optional).results :: d in DeriveProbes(t, use, locs, optional).results
    decreases i
  {
    if i > 0 {
      if Enough(t, locs[0], DeriveAt(t, use, locs[0], optional)) { EnoughBlocks(t, use, locs[0], optional); }
      assert forall j | 0 <= j < i - 1 :: locs[1..][j] == locs[j + 1];
      LocationReached(t, use, locs[1..], optional, i - 1);
    }
  }

  /** What is derived, exactly. */
  lemma DerivedExactly(t: Table, use: Use, locs: seq<Location>, optional: bool, d: Derived)
    requires TableOk(t) && ChainOk(t, use.chain)
    ensures d in DeriveProbes(t, use, locs, optional).results <==> Arrives(t, use, locs, d)
  {
    DerivedArrive(t, use, locs, optional);
    if Arrives(t, use, locs, d) {
      var hops: seq<Hop>, last: nat :| OpenRoute(t, use.chain, locs, hops, last, d.id) && d == Arrival(t, use, locs, hops, last, d.id);
      RoutesTaken(t, use, locs, optional, hops, last, d.id);
    }
  }

  predicate NoneSufficient(locs: seq<Location>) { forall l | l in locs :: !l.sufficient }

  predicate NeverSufficient(t: Table) { forall a | a in t.aliases :: NoneSufficient(a.locations) }

  /** Without sufficient locations every route is open. */
  lemma {:induction false} RoutesOpen(t: Table, chain: seq<nat>, locs: seq<Location>, hops: seq<Hop>, last: nat, id: string)
    requires NeverSufficient(t) && NoneSufficient(locs) && Route(t, chain, locs, hops, last, id)
    ensures OpenRoute(t, chain, locs, hops, last, id)
    decreases hops
  {
    if hops != [] {
      var Hop(i, k) := hops[0];
      var a := t.aliases[k];
      assert a in t.aliases;
      var locs' := Joined(a.locations, locs[i].condition);
      assert NoneSufficient(locs') by {
        forall l | l in locs' ensures !l.sufficient {
          var j :| 0 <= j < |locs'| && locs'[j] == l;
          assert a.locations[j] in a.locations;
        }
      }
      RoutesOpen(t, [k] + chain, locs', hops[1..], last, id);
    }
  }

  // ----- how deep it goes -----

  lemma {:induction false} RouteChain(t: Table, chain: seq<nat>, locs: seq<Location>, hops: seq<Hop>, last: nat, id: string)
    requires ChainOk(t, chain) && Route(t, chain, locs, hops, last, id)
    ensures ChainOk(t, Chain(hops, chain))
    decreases hops
  {
    if hops != [] {
      var Hop(i, k) := hops[0];
      ChainBound(t, chain);
      RouteChain(t, [k] + chain, Joined(t.aliases[k].locations, locs[i].condition), hops[1..], last, id);
    }
  }

  /** No derived probe comes through more aliases than there are, and one. */
  lemma NestingBound(t: Table, use: Use, locs: seq<Location>, optional: bool)
    requires TableOk(t) && ChainOk(t, use.chain)
    ensures forall d | d in DeriveProbes(t, use, locs, optional).results :: |d.chain| <= |t.aliases| + 1
  {
    DerivedArrive(t, use, locs, optional);
    forall d | Arrives(t, use, locs, d) ensures |d.chain| <= |t.aliases| + 1 {
      var hops: seq<Hop>, last: nat :| OpenRoute(t, use.chain, locs, hops, last, d.id) && d == Arrival(t, use, locs, hops, last, d.id);
      RouteChain(t, use.chain, locs, hops, last, d.id);
      ChainBound(t, d.chain);
    }
  }

  /** An alias that names itself is expanded twice: the bound is reached. */
  const SELF := Location("self", false, false, [])

  function SelfMatch(s: string): Match { if s == "self" then Match([ToAlias(0), ToProbe("p")], false) else Match([], false) }

  const SELF_TABLE := Table([Alias([SELF], false, ["a"])], SelfMatch)

  lemma BoundReached()
    ensures TableOk(SELF_TABLE)
    ensures Derived("p", [0, 0], ["a", "a", "b"], []) in DeriveProbes(SELF_TABLE, Use([], ["b"]), [SELF], false).results
  {
    var t, hops, use := SELF_TABLE, [Hop(0, 0), Hop(0, 0)], Use([], ["b"]);
    assert t.aliases == [t.aliases[0]];
    assert hops[1..] == [Hop(0, 0)] && [Hop(0, 0)][1..] == [];
    var locs := Joined(t.aliases[0].locations, SELF.condition);
    assert locs == [SELF] && Joined(locs, SELF.condition) == [SELF];
    assert Route(t, [0, 0], [SELF], [], 0, "p");
    assert [0] + [0] == [0, 0] && [0] + [] == [0];
    assert Route(t, [0], [SELF], [Hop(0, 0)], 0, "p");
    assert Route(t, [], [SELF], hops, 0, "p");
    RoutesOpen(t, [], [SELF], hops, 0, "p");
    RoutesTaken(t, use, [SELF], false, hops, 0, "p");
    RouteInTable(t, [], [SELF], hops, 0, "p");
    assert Chain([Hop(0, 0)], [0]) == Chain([], [0, 0]) == [0, 0];
    assert Chain(hops, []) == Chain([Hop(0, 0)], [0]);
    assert Around(t.aliases[0], ["b"]) == ["a", "b"] && Around(t.aliases[0], ["a", "b"]) == ["a", "a", "b"];
    assert Body(t, [Hop(0, 0)], ["a", "b"]) == Body(t, [], ["a", "a", "b"]) == ["a", "a", "b"];
    assert Body(t, hops, ["b"]) == Body(t, [Hop(0, 0)], ["a", "b"]);
    assert Condition(t, [0], [SELF], [Hop(0, 0)], 0, "p") == Condition(t, [0, 0], [SELF], [], 0, "p") == [];
    assert Condition(t, [], [SELF], hops, 0, "p") == Condition(t, [0], [SELF], [Hop(0, 0)], 0, "p");
    assert Arrival(t, use, [SELF], hops, 0, "p") == Derived("p", [0, 0], ["a", "a", "b"], []);
  }

  /** A table with one alias, whose body goes before or after that of the probe that uses it. */
  const INNER := Location("inner", false, false, ["c"])

  function OuterMatch(s: string): Match {
    if s == "outer" then Match([ToAlias(0)], false) else if s == "inner" then Match([ToProbe("p")], false) else Match([], false)
  }

  function OneAlias(epilogue: bool): Table { Table([Alias([INNER], epilogue, ["a"])], OuterMatch) }

  /** A prologue alias puts its body first, an epilogue alias last; conditions are collected from the
      inside out. */
  lemma BodiesInOrder(epilogue: bool)
    ensures TableOk(OneAlias(epilogue))
    ensures var d := Derived("p", [0], if epilogue then ["b", "a"] else ["a", "b"], ["c", "o"]);
      d in DeriveProbes(OneAlias(epilogue), Use([], ["b"]), [Location("outer", false, false, ["o"])], false).results
  {
    var t, outer, use, hops := OneAlias(epilogue), Location("outer", false, false, ["o"]), Use([], ["b"]), [Hop(0, 0)];
    assert t.aliases == [t.aliases[0]] && hops[1..] == [];
    var locs := Joined(t.aliases[0].locations, outer.condition);
    assert |locs| == 1 && locs[0] == INNER.(condition := ["c"] + ["o"]);
    assert [0] + [] == [0] && ["c"] + ["o"] == ["c", "o"];
    assert Route(t, [0], locs, [], 0, "p");
    assert Route(t, [], [outer], hops, 0, "p");
    RoutesOpen(t, [], [outer], hops, 0, "p");
    RoutesTaken(t, use, [outer], false, hops, 0, "p");
    RouteInTable(t, [], [outer], hops, 0, "p");
    assert Chain(hops, []) == Chain([], [0]) == [0];
    assert Around(t.aliases[0], ["b"]) == if epilogue then ["b", "a"] else ["a", "b"];
    assert Body(t, hops, ["b"]) == Body(t, [], Around(t.aliases[0], ["b"]));
    assert Condition(t, [], [outer], hops, 0, "p") == Condition(t, [0], locs, [], 0, "p") == ["c", "o"];
  }
}
