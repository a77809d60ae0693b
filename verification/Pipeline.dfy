/**
 The two relaxation loops one after the other: what they preserve together, and the checks
 that can be made between them.
 */
module Pipeline {
  import opened Syntax
  import opened Passes
  import opened Relax
  import opened Reach
  import opened Merge
  import opened MergeLoop
  import opened Scopes
  import opened Session

  /** Both loops, with optimization switched on.  The first ends with its first round that reports
      no change, the second without duplicates.  They preserve every run that ends if the script
      passes the check of the first loop and the rounds of the second are clean; and if all calls
      were resolved, they are in the end exactly when those rounds are clean. */
  method Optimized(p: Program) returns (q: Program, ghost rounds: nat)
    requires WellScoped(p) && SimpleConditions(p)
    ensures FirstQuiet(false, p, rounds) && q == Merged(Rounds(false, p, rounds)) && !HasDuplicates(q)
    ensures var between := Rounds(false, p, rounds);
      && (SafeFor(false, p, rounds) && CleanMerges(between) ==> Preserves(p, q))
      && (Ready(p) && CleanMerges(between) ==> Preserves(p, q))
      && (Resolved(p) ==> (Resolved(q) <==> CleanMerges(between)))
  {
    hide WellScoped, SimpleConditions, CleanMerges, Preserves, Ready, SafeFor, HasDuplicates, Resolved, FirstQuiet, Merged, Mergeable;
    var s := new Session(p, false);
    ScopedParts(p);
    rounds := s.Optimize();
    var between := s.Snapshot();
    RoundsScoped(false, p, rounds);
    ScopedParts(between);
    var m := new Merger(between);
    m.MergeAll();
    q := m.Snapshot();
    if CleanMerges(between) && Preserves(p, between) { PreservesTrans(p, between, q); }
    MergedResolved(between);
  }

  lemma ScopedParts(p: Program)
    requires WellScoped(p)
    ensures Enumerated(p) && Scoped(p) && Listed(p)
    ensures SimpleConditions(p) ==> Mergeable(p)
  {
  }

  /** The check between the loops holds if the last round changed nothing, reported or not. */
  lemma StillRoundClean(p: Program)
    requires WellScoped(p) && SimpleConditions(p) && Round(false, p) == p
    ensures CleanMerges(p)
  {
    StillRound(p);
    LeavesCleanAll(p);
  }

  /** It always holds after pass 1. */
  lemma FirstPassClean(p: Program)
    requires WellScoped(p) && SimpleConditions(p)
    ensures CleanMerges(DropFunctions(p)) && AllReachable(DropFunctions(p))
  {
    hide SessionUse;
    DropFunctionsReachable(p, false);
    DropFunctionsScoped(p);
    LeavesCleanAll(DropFunctions(p));
  }
}
