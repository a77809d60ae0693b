/**
 Probe alias expansion: a probe point that matches aliases is replaced by their probe points,
 again and again, until only concrete probes are left.
 */
module Aliases {
  import opened Basics

  datatype Location = Location(pattern: string, optional: bool, sufficient: bool, condition: seq<string>)

  /** A body is its list of statements, a condition its list of conjuncts. */
  datatype Alias = Alias(locations: seq<Location>, epilogue: bool, body: seq<string>)

  /** What a pattern matches: registered aliases, by number, and concrete probes. */
  datatype Target = ToAlias(k: nat) | ToProbe(id: string)

  /** `fails`: an error is raised after the targets have been built. */
  datatype Match = Match(targets: seq<Target>, fails: bool)

  datatype Table = Table(aliases: seq<Alias>, match_: string -> Match)

  predicate TargetsOk(t: Table, targets: seq<Target>) { forall x | x in targets && x.ToAlias? :: x.k < |t.aliases| }

  ghost predicate TableOk(t: Table) { forall s :: TargetsOk(t, t.match_(s).targets) }

  /** A probe on the way: the aliases it came through, the latest first, and its body. */
  datatype Use = Use(chain: seq<nat>, body: seq<string>)

  datatype Derived = Derived(id: string, chain: seq<nat>, body: seq<string>, condition: seq<string>)

  datatype Out = Out(results: seq<Derived>, errors: nat)

  function Plus(a: Out, b: Out): Out { Out(a.results + b.results, a.errors + b.errors) }

  /** The check made before an expansion: the latest alias occurs earlier in the chain. */
  predicate Looping(chain: seq<nat>) { chain != [] && chain[0] in chain[1..] }

  predicate Distinct(s: seq<nat>) { forall i, j | 0 <= i < j < |s| :: s[i] != s[j] }

  /** Chains that occur: aliases of the table, and all but the latest are different. */
  predicate ChainOk(t: Table, chain: seq<nat>) {
    (forall k | k in chain :: k < |t.aliases|) && (chain != [] ==> Distinct(chain[1..]))
  }

  function Members(s: seq<nat>): set<nat> { set k | k in s }

  function Below(n: nat): (r: set<nat>)
    ensures forall k: nat :: k in r <==> k < n
  {
    if n == 0 then {} else Below(n - 1) + {n - 1}
  }

  lemma {:induction false} DistinctFew(s: seq<nat>, n: nat)
    requires Distinct(s) && forall k | k in s :: k < n
    ensures |s| <= n
  {
    SetOfSeq(s);
    SetBelow(n);
    SubsetSize(Members(s), Below(n));
  }

  lemma {:induction false} SetOfSeq(s: seq<nat>)
    requires Distinct(s)
    ensures |Members(s)| == |s|
    decreases s
  {
    if s != [] {
      SetOfSeq(s[1..]);
      assert Members(s) == {s[0]} + Members(s[1..]);
    }
  }

  lemma {:induction false} SetBelow(n: nat)
    ensures |Below(n)| == n
  {
    if n > 0 {
      SetBelow(n - 1);
    }
  }

  /** A chain that passes the check is no longer than the table, and may be extended once. */
  lemma ChainBound(t: Table, chain: seq<nat>)
    requires ChainOk(t, chain)
    ensures |chain| <= |t.aliases| + 1
    ensures !Looping(chain) ==> |chain| <= |t.aliases| && forall k: nat | k < |t.aliases| :: ChainOk(t, [k] + chain)
  {
    if chain != [] {
      assert forall k | k in chain[1..] :: k in chain;
      DistinctFew(chain[1..], |t.aliases|);
    }
    if !Looping(chain) {
      assert Distinct(chain);
      DistinctFew(chain, |t.aliases|);
      forall k: nat | k < |t.aliases| ensures ChainOk(t, [k] + chain) { assert ([k] + chain)[1..] == chain; }
    }
  }

  // ----- the expansion -----

  function Around(a: Alias, body: seq<string>): seq<string> { if a.epilogue then body + a.body else a.body + body }

  /** A copy of the alias's locations, with the condition of the place it is used at. */
  function Joined(locs: seq<Location>, condition: seq<string>): (r: seq<Location>)
    ensures |r| == |locs| && forall i | 0 <= i < |locs| :: r[i] == locs[i].(condition := locs[i].condition + condition)
  {
    if locs == [] then [] else [locs[0].(condition := locs[0].condition + condition)] + Joined(locs[1..], condition)
  }

  function Build(t: Table, use: Use, l: Location, x: Target): Out
    requires TableOk(t) && ChainOk(t, use.chain) && TargetsOk(t, [x])
    decreases |t.aliases| + 1 - |use.chain|, 0, 0
  {
    match x
    case ToProbe(id) => Out([Derived(id, use.chain, use.body, l.condition)], 0)
    case ToAlias(k) =>
      ChainBound(t, use.chain);
      if Looping(use.chain) then Out([], 1)
      else
        assert x in [x];
        var a := t.aliases[k];
        ChainBound(t, [k] + use.chain);
        DeriveProbes(t, Use([k] + use.chain, Around(a, use.body)), Joined(a.locations, l.condition), l.optional)
  }

  function BuildAll(t: Table, use: Use, l: Location, targets: seq<Target>): Out
    requires TableOk(t) && ChainOk(t, use.chain) && TargetsOk(t, targets)
    decreases |t.aliases| + 1 - |use.chain|, 0, 1 + |targets|
  {
    if targets == [] then Out([], 0)
    else Plus(Build(t, use, l, targets[0]), BuildAll(t, use, l, targets[1..]))
  }

  function At(l: Location, optional: bool): Location { l.(optional := l.optional || optional) }

  /** One location: what its targets yield, and an error if nothing was found and something had
      to be, or if matching failed. */
  function DeriveAt(t: Table, use: Use, l: Location, optional: bool): Out
    requires TableOk(t) && ChainOk(t, use.chain)
    decreases |t.aliases| + 1 - |use.chain|, 1
  {
    var m := t.match_(l.pattern);
    var out := BuildAll(t, use, At(l, optional), m.targets);
    out.(errors := out.errors + if !At(l, optional).optional && (m.fails || out.results == []) then 1 else 0)
  }

  predicate Enough(t: Table, l: Location, out: Out) { l.sufficient && out.results != [] && !t.match_(l.pattern).fails }

  /** Every location in turn, until a sufficient one has yielded something. */
  function DeriveProbes(t: Table, use: Use, locs: seq<Location>, optional: bool): Out
    requires TableOk(t) && ChainOk(t, use.chain)
    decreases |t.aliases| + 1 - |use.chain|, 2, |locs|
  {
    if locs == [] then Out([], 0)
    else
      var out := DeriveAt(t, use, locs[0], optional);
      if Enough(t, locs[0], out) then out else Plus(out, DeriveProbes(t, use, locs[1..], optional))
  }

  /** The driver with the list of results it appends to, and the errors it reports. */
  class Deriver {
    const t: Table
    var results: seq<Derived>
    var errors: nat

    constructor (t: Table)
      ensures this.t == t && results == [] && errors == 0
    {
      this.t, results, errors := t, [], 0;
    }

    method CheckForRecursiveExpansion(chain: seq<nat>) returns (looping: bool)
      ensures looping == Looping(chain)
    {
      var d := 1;
      while d < |chain|
        invariant 1 <= d && forall j | 1 <= j < d && j < |chain| :: chain[j] != chain[0]
      {
        if chain[0] == chain[d] {
          assert chain[1..][d - 1] == chain[0];
          return true;
        }
        d := d + 1;
      }
      return false;
    }

    method BuildOne(use: Use, l: Location, x: Target)
      requires TableOk(t) && ChainOk(t, use.chain) && TargetsOk(t, [x])
      modifies this
      ensures results == old(results) + Build(t, use, l, x).results && errors == old(errors) + Build(t, use, l, x).errors
      decreases |t.aliases| + 1 - |use.chain|, 0, 0
    {
      match x {
        case ToProbe(id) => results := results + [Derived(id, use.chain, use.body, l.condition)];
        case ToAlias(k) =>
          assert x in [x];
          ChainBound(t, use.chain);
          var looping := CheckForRecursiveExpansion(use.chain);
          if looping {
            errors := errors + 1;
            return;
          }
          ChainBound(t, [k] + use.chain);
          var a := t.aliases[k];
          Derive(Use([k] + use.chain, Around(a, use.body)), Joined(a.locations, l.condition), l.optional);
      }
    }

    method DeriveLocation(use: Use, l: Location, optional: bool) returns (enough: bool)
      requires TableOk(t) && ChainOk(t, use.chain)
      modifies this
      ensures var out := DeriveAt(t, use, l, optional);
        results == old(results) + out.results && errors == old(errors) + out.errors && enough == Enough(t, l, out)
      decreases |t.aliases| + 1 - |use.chain|, 1
    {
      hide BuildAll;
      var atBegin := |results|;
      BuildTargets(use, At(l, optional), t.match_(l.pattern).targets);
      if t.match_(l.pattern).fails {
        if !(l.optional || optional) { errors := errors + 1; }
        return false;
      }
      if !(l.optional || optional) && |results| == atBegin { errors := errors + 1; }
      return l.sufficient && |results| > atBegin;
    }

    method Derive(use: Use, locs: seq<Location>, optional: bool)
      requires TableOk(t) && ChainOk(t, use.chain)
      modifies this
      ensures results == old(results) + DeriveProbes(t, use, locs, optional).results
      ensures errors == old(errors) + DeriveProbes(t, use, locs, optional).errors
      decreases |t.aliases| + 1 - |use.chain|, 2
    {
      hide DeriveAt;
      var i := 0;
      while i < |locs|
        invariant 0 <= i <= |locs|
        invariant results + DeriveProbes(t, use, locs[i..], optional).results == old(results) + DeriveProbes(t, use, locs, optional).results
        invariant errors + DeriveProbes(t, use, locs[i..], optional).errors == old(errors) + DeriveProbes(t, use, locs, optional).errors
      {
        assert locs[i..][0] == locs[i] && locs[i..][1..] == locs[i + 1..];
        ghost var before, one := results, DeriveAt(t, use, locs[i], optional).results;
        ghost var rest := DeriveProbes(t, use, locs[i + 1..], optional).results;
        var enough := DeriveLocation(use, locs[i], optional);
        assert before + (one + rest) == (before + one) + rest;
        if enough { return; }
        i := i + 1;
      }
    }

    method BuildTargets(use: Use, l: Location, targets: seq<Target>)
      requires TableOk(t) && ChainOk(t, use.chain) && TargetsOk(t, targets)
      modifies this
      ensures results == old(results) + BuildAll(t, use, l, targets).results
      ensures errors == old(errors) + BuildAll(t, use, l, targets).errors
      decreases |t.aliases| + 1 - |use.chain|, 0, 1
    {
      hide Build;
      var i := 0;
      while i < |targets|
        invariant 0 <= i <= |targets|
        invariant results + BuildAll(t, use, l, targets[i..]).results == old(results) + BuildAll(t, use, l, targets).results
        invariant errors + BuildAll(t, use, l, targets[i..]).errors == old(errors) + BuildAll(t, use, l, targets).errors
      {
        assert targets[i..][0] == targets[i] && targets[i..][1..] == targets[i + 1..];
        ghost var before, one, rest := results, Build(t, use, l, targets[i]).results, BuildAll(t, use, l, targets[i + 1..]).results;
        BuildOne(use, l, targets[i]);
        assert before + (one + rest) == (before + one) + rest;
        i := i + 1;
      }
    }
  }
}
