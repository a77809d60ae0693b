# SystemTap's script compiler, in Dafny

This project models the middle end of the `stap` translator and proves what it is meant to
guarantee. `dafny verify dfyconfig.toml` checks everything.

| component | modules |
|---|---|
| Shared definitions | Basics |
| Language, run-time meaning, 64-bit arithmetic | Arith64, Syntax, Semantics, ArithLaws |
| Variable-use analysis and its frame theorem | VarUse, UseExact, Frame |
| Optimizer passes 1 to 5, constant folding, the relaxation loop | DeadAssign, Simulate, Replace, DeadStmt, VoidReduce, ConstFold, Passes, Quiet, Weight, Relax, Visitors, Session, Crements, NormalForms, QuietRound |
| What code mentions and what the probes reach | Confined, Reach, Scopes |
| Merging of duplicate functions | Merge, Alike, MergeProof, MergeLoop, Stranded |
| Both relaxation loops | Pipeline |
| Type inference | Types, TypeInvariant, TypeKeeps, TypeAgrees, TypeCheck, TypePass, TypeLoop, TypePrincipal, TypeComplete, TypeClosed, TypeRules, TypeResolver |
| DWARF location expressions to C | Dwarf, Loc2c, Inexact, Locations, LocNeeds, Departures, Translator |
| Slicing large objects for fetch and store | Slicing |
| Probe aliases | Aliases, AliasRoutes, AliasErrors |
| Preprocessor | Preprocess, Scanner |
| Expression parser and printer | Grammar, RoundTrip, ParsedTrees, Precedence, ExprParser |
| Streaming MD4 | Md4, MdfourOps, Mdfour |
| Prologue search | Prologue |

Code that works in place (visitors, the session passes, the location translator, the type
resolver, the parsers, the hash state, the alias driver) is a class or a method with loops,
proved against a function; the theorems are about those functions.

## How the main theorems read

*Optimizer.* A script is run by a big-step semantics in which fuel is spent only by calls and
loop iterations; a run either ends or is stuck (a fault, or no fuel left). `Preserves(p, q)`
says that every run of p that ends, from any globals and for any sequence of probe hits, ends
in q under the same fuel with the same output and the same value in every global q still has.
Each pass preserves in this sense, so does any number of rounds of the relaxation loop, and
the loop ends because a weight drops in every round that clears `relaxed_p`.

*What the optimizer achieves.* The analysis gathers exactly what is written, read, called and
printed by the code that can be reached (`UseExprExact`, `SessionUseExact`). After each pass no
body holds what the pass removes (`StripAssignmentsExact`, `PruneDone`, `ReduceDone`,
`FoldStmtDone`), and over a session for which a round reports no change every function is called,
every variable is used and no assignment is dead (`QuietRoundSettled`). The last round of the loop
changes nothing but by what pass 4 does not report, and leaves nothing to reduce or to fold
(`LastRound`); what pass 4 reports is said exactly (`PruneHitExact`). The operators mean what C
means: `ArithLaws` says so by division with remainder and bit by bit.

*Where the optimizer is wrong.* `++` and `--` are recorded as writes only, so an assignment to
a variable that is read only through `x++` is removed (`CrementNotPreserved`). Preservation is
proved for rounds that strip no assignment to a variable whose `++` or `--` is used for its
value (`Safe`, `SafeFor`). `Ready` is a check on the source script: no local is both assigned
and has its `++` or `--` used for its value. Every pass keeps it, so it makes all rounds safe
(`ReadyRound`, `ReadyRounds`). The converse is not stated: an offending `x++` may sit on a path
no run takes.
`SimpleConditions` (no calls in a probe point condition) is what symbol resolution enforces.

*Merging.* Two functions count as duplicates if they are the same tree all through, whoever owns
their locals (`AlikeMerged`). Pass 6 redirects the calls in the code it reaches from the probes and erases the
duplicates. A duplicate may be replaced by a function that is not reached, whose calls are then
not redirected. `CleanMerge` says that no such function calls a duplicate. This is so if and only
if no call that can be reached afterwards is of an erased function (`CleanExactly`), and then the
round preserves every run that ends (`MergePreserves`). For the whole loop `CleanMerges` asks it
of every round, and `MergedResolved` is the equivalence. The first loop does not ensure it: pass 4
drops a conditional or a loop without effect and does not report it, so the last round can leave a
function that nothing calls, and there is a script that the two loops break (`OneRoundTaken`,
`StrandedNotPreserved`, `LoopsNotPreserved`). It is enough that unreached functions call nothing
(`LeavesCleanAll`), that the last round changed nothing at all (`StillRoundClean`), or that pass 1
is made once more (`FirstPassClean`). `Optimized` runs both loops.

*Types.* Known types never change, each `resolved` call adds exactly one, and the number of
passes is at most the number of type slots plus two. After a clean pass the program is well
typed if and only if its prints and statistics have the types their contexts expect, because
those two constructs are never checked against the context (`PrintedSumAccepted`). The types
found are contained in every typing of the program, and over a typing a pass has nothing to
resolve and nothing to complain of (`TypedPassClean`): if inference fails on a program that has
typings, each of them gives a type to something left unresolved. A pass that resolves nothing is
over closed types: a use and its declaration, an argument and its formal, a result and its
function are both known or both unknown, and a type is known where one is expected
(`PassClosed`). What it is to be well typed is spelled out statement by statement in `TypeRules`.
The exceptions are a contradiction with the expected type, of which there is none
if the program has a typing, and a print of something unknown (`KnownWhereExpected`).

*DWARF.* Running the emitted assignments leaves the machine's stack in the slots after every
operation, below the recorded maximum and without reading an unassigned slot, except for the
cases that `Tidy` excludes. For those `StepExact` says exactly when the translation of an
operation is right all the same: a register name that comes to a stack with entries or to
another register name, an operation with two operands over a waiting register name, `DW_OP_rot`,
and a pick of a slot above 255. A value or a constant over a waiting register name is accepted
where the machine has no result (`ValueOverRegister`), and one left under the final value is
lost (`RegisterLost`). A whole expression is translated right in every environment in which each
of its steps is (`TranslateSound`); for tidy expressions that is every environment. The machine
jumps relative to the operation after a skip, the translator from the skip itself; `Encoded` says
how the bytes lie, and `SkipTargetRight` that the two agree. A location declares exactly the
temporaries its program assigns and marks exactly the programs that use the `deref` macro
(`NeedsExact`). `RegisterSumWrong` and `RotatedWrong` are expressions, translated from
the start, whose location differs from what the machine computes. Comparisons and shifts mean
what the emitted C operator means on the slot type.

*Printing and parsing.* The printed form of an expression parses back to it if and only if it
has no negative literal and every index of a membership test binds at least as tightly as a
comparison (`RoundTripExactly`). The parser yields only trees to which this applies
(`ExprSound`, `ReprintExactly`), and some that it cannot read again (`MembershipNotReread`).
Written with only the parentheses that the classes of its operators call for, every expression
without negative literals parses back to itself (`SpelledBack`).

*MD4.* The code writes a 32-bit length; its padding is that of RFC 1320 if and only if the
length in bits, modulo 2^64, is below 2^32 (`PaddingExact`).

*Probe aliases.* A probe is derived if and only if it is the end of a route through matching
aliases that the recursion check lets pass and that no sufficient location cuts off; a location
cuts off those after it when it is marked sufficient, its matching does not fail, and some route
leads from it to a probe (`DerivedExactly`). Errors are reported if and only if a location that is
looked at had to yield a probe and did not, or the recursion check stops a chain
(`ErrorsExactly`).

*Preprocessor.* The tokens handed over are the recursive expansion of the input, of which the
branches not taken may be any text that skipping passes over (`Skippable`). Markers other than
`%(` that stand outside all conditionals are handed over like other tokens, and so is a further
`%:` in an else branch that is taken, if it is not inside a then branch.

*Prologue.* An end found lies in the function if and only if entrypc < highpc
(`InsideExactly`).

## Model

| member | source | states |
|---|---|---|
| Arith64.FoldBinAgrees | host/elaborate.cxx:3196-3222 | whatever the compiler folds for two 64-bit constants is what the run-time computes, wrap-around and LLONG_MIN / -1 included, for every operator and every pair of operands on which the run-time does not fault |
| Arith64.AbsorbingOperands | host/elaborate.cxx:3224-3247 | an operand the folder treats as absorbing gives the same result with every other operand |
| Arith64.NeutralOperands | host/elaborate.cxx:3249-3266 | an operand the folder drops leaves every other operand unchanged |
| Arith64.BoundaryComparisons | host/elaborate.cxx:3421-3455 | comparisons against LLONG_MIN and LLONG_MAX that are folded with one constant have that value for every other operand |
| ArithLaws.DivisionComputed | host/elaborate.cxx:3213-3219 | the run-time quotient and remainder are those of C: q * b + r is the dividend, r is smaller than b and has the sign of the dividend; LLONG_MIN / -1 apart |
| ArithLaws.DivisionUnique | host/elaborate.cxx:3213-3219 | no other quotient and remainder have these properties |
| ArithLaws.BitwiseBits | host/elaborate.cxx:3203-3208 | each of the 64 bits of a bitwise and, or and exclusive or is the operation on that bit of the operands |
| ArithLaws.ComplementBits | host/elaborate.cxx:3284-3309 | `~` turns every bit round |
| ArithLaws.NegationInverse | host/elaborate.cxx:3284-3309 | `-` gives the one word that added makes zero; unary `+` changes nothing |
| ArithLaws.ShiftBits | host/elaborate.cxx:3209-3212 | shifts move bits, with zeros from the right and the sign from the left |
| ArithLaws.WordBitsDetermine | host/elaborate.cxx:3203-3212 | the 64 bits determine the value |
| ArithLaws.CompareOrders | host/elaborate.cxx:3405-3455 | strings compare in the order of their first difference |
| VarUse.UseExprCovers | host/staptree.cxx:1792-2064 | the analysis of an expression, which enters each function once, covers the expression and every function body it entered, through mutual recursion |
| VarUse.UseStmtCovers | host/staptree.cxx:1792-2064 | the same for statements |
| UseExact.UseExprExact | host/staptree.cxx:1886-2009 | the analysis of an expression gathers exactly the variables its sub-expressions, and those of the functions it enters, write and read, the functions they call, and whether they print to the stream |
| UseExact.UseStmtExact | host/staptree.cxx:1792-2064 | the same for statements |
| UseExact.SessionUseExact | host/elaborate.cxx:2058-2075 | and for all that the probes of a session reach |
| UseExact.EffectFreeExactly | host/staptree.cxx:2066-2072 | an expression has no side effect exactly when nothing in it or in a function it enters assigns or prints to the stream |
| UseExact.PlainElided | host/elaborate.cxx:2520-2556 | an expression statement without assignment, `++`, `--`, call and stream print is removed, and such an expression times zero is folded |
| Frame.FrameEval | host/staptree.cxx:2066-2090 | an evaluation changes only variables the analysis counts as written, and output only if an effect was recorded, to any depth of calls |
| Frame.FrameExec | host/staptree.cxx:2066-2090 | the same for executing a statement |
| Frame.FrameLoop | host/staptree.cxx:2066-2090 | the same for loops |
| Frame.PureEval | host/staptree.cxx:2066-2072 | a side-effect-free expression leaves the whole state alone |
| Frame.PureEvalWrt | host/staptree.cxx:2074-2090 | so does one that writes none of the session's globals and the frame's locals |
| Visitors.Collector.VisitExpr | host/staptree.cxx:1886-2009 | the collecting visitor's fields become the analysis of the expression |
| Visitors.Collector.VisitStmt | host/staptree.cxx:1792-2064 | and of the statement |
| Simulate.SimEval | host/elaborate.cxx:2229-2281 | an expression and its stripped form give the same value and leave states equal on all variables but the dead ones, through calls and loops |
| Simulate.SimExec | host/elaborate.cxx:2229-2327 | the same for statements |
| Simulate.SimLoop | host/elaborate.cxx:2229-2327 | the same for loops |
| Passes.DropFunctionsPreserves | host/elaborate.cxx:2017-2051 | pass 1 preserves every run that ends |
| Passes.DropVariablesPreserves | host/elaborate.cxx:2058-2209 | pass 2 preserves every run that ends |
| Passes.StripAssignmentsPreserves | host/elaborate.cxx:2307-2327 | pass 3 does, when no `++` or `--` of a variable whose assignments it strips is used for its value |
| Passes.NothingToStrip | host/elaborate.cxx:2229-2327 | a program with no assignment to a variable nobody reads is left as it is |
| Crements.CrementNotPreserved | host/staptree.cxx:1991-2009 | a script whose meaning pass 3 changes |
| Crements.CrementNotQuiet | host/staptree.cxx:1991-2009 | it is the condition on `++` and `--` that this script violates |
| Relax.DroppedGlobalsUntouched | host/elaborate.cxx:2058-2209 | the globals pass 2 drops keep their values in every run of the source |
| DeadStmt.PruneRefines | host/elaborate.cxx:2332-2620 | pass 4 replaces a body by one that does the same in every state |
| DeadStmt.PruneExec | host/elaborate.cxx:2332-2556 | statement by statement, with the same jump, state and output |
| DeadStmt.PureLoop | host/elaborate.cxx:2489-2516 | a loop without effects that ends changes nothing |
| Visitors.DeadStmtRemover.VisitStmt | host/elaborate.cxx:2354-2556 | the visitor replaces the statement by the pruned one and clears `relaxed_p` exactly when it removed an expression statement or flattened a block |
| VoidReduce.ReduceDoExec | host/elaborate.cxx:2637-3004 | an expression statement and the statements it is reduced to do the same |
| VoidReduce.ElidedCall | host/elaborate.cxx:2862-2902 | a call whose function has no effect may be replaced by its arguments |
| VoidReduce.ReduceRefines | host/elaborate.cxx:2637-3038 | pass 5 replaces a body by one that does the same in every state |
| Visitors.VoidReducer.VisitStmt | host/staptree.h:890-956 | a statement visit leaves exactly one more target, the reduced statement |
| Visitors.VoidReducer.VisitExpr | host/elaborate.cxx:2637-3004 | an expression visit leaves its replacement, or a new statement and then null |
| Visitors.VoidReducer.Require | host/staptree.h:895-907 | require pops what its own child's visit left and nothing else |
| ConstFold.FoldEval | host/elaborate.cxx:3181-3530 | folding any expression keeps its value, effects and final state |
| ConstFold.FoldLogicEval | host/elaborate.cxx:3311-3403 | short-circuit operators with a constant or pure side included |
| ConstFold.FoldExec | host/elaborate.cxx:3111-3178 | folding statements, with branches and loops removed, keeps what they do |
| ConstFold.FoldRefines | host/elaborate.cxx:3569-3581 | so a folded body does the same in every state |
| Relax.BodyPassPreserves | host/elaborate.cxx:2559-2620 | a rewriting pass over all functions and probes, each function rewritten under the bodies already rewritten, preserves every run that ends |
| Relax.RoundPreserves | host/elaborate.cxx:3684-3722 | one safe round of the loop preserves every run that ends |
| Relax.RoundsPreserve | host/elaborate.cxx:3684-3722 | so does any number of safe rounds |
| Relax.ReadyRound | host/elaborate.cxx:3684-3722 | a round over a script in which no local is both assigned and has its `++` or `--` used for its value is safe, and its result is again such a script |
| Relax.ReadyRounds | host/elaborate.cxx:3684-3722 | so all rounds over such a script are safe |
| Relax.SessionPreserved | host/elaborate.cxx:3684-3722 | a session run from its start gives the same output and globals after optimization, under any larger fuel |
| Relax.RoundWeight | host/elaborate.cxx:3684-3722 | no round raises the weight of the program and every round that clears `relaxed_p` lowers it |
| Session.Session.Pass1 | host/elaborate.cxx:2017-2051 | the functions left are those reached, and `relaxed_p` is cleared exactly when one was erased |
| Session.Session.Pass2 | host/elaborate.cxx:2058-2209 | the variables left are those used |
| Session.Session.Pass3 | host/elaborate.cxx:2307-2327 | all bodies are stripped of dead assignments |
| Session.Session.Pass | host/elaborate.cxx:2559-2620 | the loops of passes 4, 5 and folding do the body pass |
| Session.Session.OneRound | host/elaborate.cxx:3696-3719 | one iteration is one round |
| Session.Session.Optimize | host/elaborate.cxx:3684-3722 | the loop ends with its first round that reports no change; if the rounds were safe every run that ends is preserved |
| NormalForms.StripAssignmentsExact | host/elaborate.cxx:2229-2327 | the variables still assigned to after pass 3 are the globals, the locals that something reads, and those with the name of a global |
| NormalForms.PruneDone | host/elaborate.cxx:2332-2556 | after pass 4 no statement is null, evaluates something without effect, or is a block of fewer than two statements or in a block |
| NormalForms.ReduceDone | host/elaborate.cxx:2637-3004 | after pass 5 an expression statement is no operator, and no call of a function without effect that has arguments |
| NormalForms.FoldDone | host/elaborate.cxx:3181-3530 | after folding no operator has two literal operands, or a literal that decides it or does not matter, divisions by zero and operands with effects apart |
| NormalForms.FoldStmtDone | host/elaborate.cxx:3111-3178 | and no test is a literal, but that of an endless loop |
| NormalForms.QuietRoundSettled | host/elaborate.cxx:3684-3722 | over a session for which a round reports no change every function is called, every variable used, and no assignment dead |
| QuietRound.PruneHitExact | host/elaborate.cxx:2354-2556 | pass 4 reports a change exactly when it removes an expression statement without effect or splices a block |
| QuietRound.LastRound | host/elaborate.cxx:3684-3722 | a round that reports no change is over a session in which everything is used and every expression statement has an effect; it does no more than pass 4 does unreported, and leaves nothing to reduce or fold |
| Merge.RepresentativeFits | host/elaborate.cxx:3636-3681 | each duplicate is redirected to the first function with the same text |
| Alike.AlikeMerged | host/elaborate.cxx:3636-3662 | two functions get the same representative exactly if they are the same tree with the same names and operators, whoever owns their locals |
| Alike.FirstAlike | host/elaborate.cxx:3636-3662 | the representative is the first in the walk that is alike |
| MergeProof.MergeEval | host/elaborate.cxx:3584-3614 | evaluation with calls redirected gives the same value and related states, whose frames differ only in whose locals they name |
| MergeProof.MergePreserves | host/elaborate.cxx:3636-3681 | a merge round preserves every run that ends, if no reached function is replaced by an unreached one that calls a duplicate |
| MergeLoop.CleanExactly | host/elaborate.cxx:3596-3681 | that condition holds exactly when the round leaves no reachable call of a function it erases |
| MergeLoop.MergeReached | host/elaborate.cxx:3596-3681 | and then exactly the functions that replace a reached one are reached |
| MergeLoop.ResolvedExactly | host/elaborate.cxx:3596-3681 | after a round every reachable call is of a function of the session exactly when it was before and the round was clean |
| MergeLoop.MergeKeepsReachable | host/elaborate.cxx:3596-3681 | if every function is reachable the round is clean and every function left is still reachable |
| MergeLoop.MergeStaysMergeable | host/elaborate.cxx:3596-3681 | scopes, order and conditions are as the next round needs them, whatever is reachable |
| MergeLoop.MergeShrinks | host/elaborate.cxx:3636-3681 | a round that finds duplicates leaves fewer functions |
| MergeLoop.Merger.FindDuplicates | host/elaborate.cxx:3638-3662 | one pass with a map from text to function finds exactly the duplicates |
| MergeLoop.Merger.Pass6 | host/elaborate.cxx:3636-3681 | the pass does one merge round |
| MergeLoop.MergeNothing | host/elaborate.cxx:3636-3681 | a round over a session without duplicates changes no function, probe or global |
| MergeLoop.MergedPreserves | host/elaborate.cxx:3725-3745 | all rounds together preserve every run that ends, if each is clean |
| MergeLoop.MergedResolved | host/elaborate.cxx:3725-3745 | every reachable call is in the end of a function of the session exactly when it was before and every round is clean |
| MergeLoop.LeavesCleanAll | host/elaborate.cxx:3725-3745 | every round is clean if unreached functions call nothing |
| MergeLoop.Merger.MergeAll | host/elaborate.cxx:3725-3745 | the loop ends, for every session, with one that has no duplicates, and preserves every run that ends if its rounds are clean |
| Stranded.OneRoundTaken | host/elaborate.cxx:2420-2446 | a script over which the first loop makes one round, which drops the only call of a function and does not report it |
| Stranded.ScriptReady | host/elaborate.cxx:3684-3722 | that script meets every condition of the first loop |
| Stranded.StrandedNotPreserved | host/elaborate.cxx:3596-3681 | a merge round over the session handed on is not clean and loses a run: the merged session calls an erased function |
| Stranded.LoopsNotPreserved | host/elaborate.cxx:3684-3745 | so the two loops together do not preserve the runs of that script |
| Confined.ConfinedPruneStmt | host/elaborate.cxx:2332-2556 | pass 4 makes no statement mention a new variable or function; the same is shown of passes 3 and 5 and of folding |
| Reach.SessionSeenLeast | host/staptree.cxx:1792-2064 | the traversal enters no function outside any set that the probes call into and that is closed under calls |
| Reach.DropFunctionsReachable | host/elaborate.cxx:2017-2051 | pass 1 leaves reachable exactly what was, and nothing else in the session |
| Scopes.RoundScoped | host/elaborate.cxx:3684-3722 | after a round code mentions only variables declared in its scope, the walk names every function once, and reachable calls are of functions in the session, if this was so before |
| Scopes.StillRound | host/elaborate.cxx:3684-3722 | if a round changes nothing at all, every function can be reached |
| Pipeline.Optimized | host/elaborate.cxx:1507-1513 | both loops: the result, that it has no duplicates, that runs are preserved if the script is ready and the merge rounds are clean, and that calls stay resolved exactly when they are |
| Pipeline.StillRoundClean | host/elaborate.cxx:3684-3745 | the merge rounds are clean if the last round of the first loop changed nothing |
| Pipeline.FirstPassClean | host/elaborate.cxx:2017-2051 | and always if pass 1 is made before them |
| TypeKeeps.VisitKeeps | host/elaborate.cxx:3841-4331 | a visit of any expression changes no known type, counts each new one once, touches no node outside its subtree, and gives each node the type its kind allows |
| TypeAgrees.VisitAgrees | host/elaborate.cxx:3921-4110 | and keeps every assignment's recorded type equal to that of its left side or to the expected type, unless there is a permanent mismatch |
| TypeCheck.Clean | host/elaborate.cxx:3841-4331 | an expression visited without change or complaint is well typed and has the expected type, if its prints and statistics fit |
| TypeCheck.TypedFits | host/elaborate.cxx:4583-4723 | in a well-typed expression prints and statistics are where their types are wanted |
| TypeCheck.TypedKnown | host/elaborate.cxx:4294-4331 | a well-typed expression has no type exactly when it is a call of a function that returns nothing, or a choice between such calls |
| TypePass.StmtIsItems | host/elaborate.cxx:4334-4580 | a statement's visit is the sequence of its expressions' visits |
| TypeLoop.PassKeeps | host/elaborate.cxx:3764-3811 | a pass only adds types, as many as it counts, and never more than there are slots |
| TypeLoop.CleanPass | host/elaborate.cxx:3764-3828 | after a pass that resolves nothing and complains of nothing the program is well typed if and only if its prints and statistics fit |
| TypePrincipal.PassBelow | host/elaborate.cxx:3764-3811 | a pass finds nothing that some typing of the program contradicts |
| TypePrincipal.PrintedSumAccepted | host/elaborate.cxx:4583-4709 | for the sum of two strings made by prints, one pass finds types that the next, clean, pass accepts although they are not well typed |
| TypePrincipal.VoidCompared | host/elaborate.cxx:3877-3918 | the comparison of two calls that return nothing is accepted, and the values compared have no type |
| TypeComplete.TypedStill | host/elaborate.cxx:3841-4331 | a visit of a well-typed expression in a fitting context resolves nothing and complains of nothing |
| TypeComplete.TypedPassClean | host/elaborate.cxx:3764-3811 | nor does a pass over a well-typed program |
| TypeComplete.ComplaintIsUnresolved | host/elaborate.cxx:3764-3831 | if a pass over types contained in a typing complains, that typing has a type not found yet |
| TypeClosed.VisitClosed | host/elaborate.cxx:3841-4331 | a visit that resolves nothing: use and declaration, argument and formal are both known or both unknown, and known where a type is expected, contradictions apart |
| TypeClosed.Resolve2Exactly | host/elaborate.cxx:4114-4156 | a use and its declaration are left alone exactly when they are linked in this way |
| TypeClosed.PassClosed | host/elaborate.cxx:3764-3811 | the same for a pass; without exception for contradictions if the program has a typing |
| TypeClosed.KnownWhereExpected | host/elaborate.cxx:3841-4331 | where a type is expected it is then known, unless the expression prints something unknown |
| TypeClosed.ContradictionOpen | host/elaborate.cxx:4126-4135 | a string variable where a number is expected: declared known, use not |
| TypeClosed.AssignedFound | host/elaborate.cxx:4147-4153 | `x = 1` is found a number in one pass, x in the next, and the third is clean |
| TypeRules.StmtRules | host/elaborate.cxx:4334-4580 | a statement is well typed exactly if conditions and limits are numbers, what is caught is a string, indexes have the types of the keys, and what is returned has the type of the function |
| TypeRules.RulesExact | host/elaborate.cxx:3764-3811 | and a program exactly if all its bodies are and every global has a type |
| TypeResolver.InitGood | host/elaborate.cxx:3753-3763 | before the first pass the invariant holds |
| TypeResolver.Resolver.ResolveTwo | host/elaborate.cxx:4114-4156 | the new state after matching a use with its declaration, of which TypeClosed.Resolve2Exactly says when it resolves something |
| TypeResolver.Resolver.VisitExpr | host/elaborate.cxx:3841-4331 | the visitor's fields follow the visit of the expression |
| TypeResolver.Resolver.VisitStatement | host/elaborate.cxx:4334-4580 | and of the statement |
| TypeResolver.Resolver.RunPass | host/elaborate.cxx:3771-3811 | one iteration is one pass |
| TypeResolver.Resolver.InferTypes | host/elaborate.cxx:3753-3831 | the loop ends within as many passes as there are unknown slots, and two; it succeeds exactly when the last pass had no complaint, and then the program is well typed up to prints and statistics; the types found are part of every typing; if it fails, every typing has a type that was left unresolved; the types found are closed |
| Loc2c.StepSim | host/loc2c.c:314-560 | the translation of an operation, run, takes the machine's stack to the machine's next stack, with slots below max_stack and none read before it is written |
| Loc2c.PopGood | host/loc2c.c:195-217 | popping names the slot that holds the top of the stack, fetching a waiting register |
| Inexact.StepExact | host/loc2c.c:314-560 | for every operation but the two below: when its translation leaves the machine's next stack, exactly, register names and rotations included |
| Departures.ValueOverRegister | host/loc2c.c:602-633 | a value or a constant is accepted over a waiting register name, exactly where the machine has no result |
| Inexact.PickExact | host/loc2c.c:337-349 | a picked slot number kept in eight bits copies the right word exactly when the slot it names holds it |
| Inexact.RegExact | host/loc2c.c:553-561 | a register name is the next entry exactly when no register name is waiting and every entry already there equals the register |
| Inexact.RegisterOperand | host/loc2c.c:195-217 | an operation with two operands over a waiting register computes with the register twice |
| Inexact.TwoOperandsExact | host/loc2c.c:415-518 | so it is right exactly when the operation cannot tell |
| Departures.RegisterLost | host/loc2c.c:255-289 | a register name waiting under the final value is lost without an error |
| Inexact.RotationExact | host/loc2c.c:364-378 | the emitted rotation is right exactly when there are four entries, of which the top, third and fourth are equal |
| Inexact.RotationOfThree | host/loc2c.c:364-378 | with three entries it mentions a slot that does not exist |
| Inexact.AcceptedExactly | host/loc2c.c:302-560 | an operation is refused exactly when the machine underflows, when only a waiting register name keeps it from that and the operation looks at slots alone, or without a frame base |
| Inexact.ValueAccepted | host/loc2c.c:302-635 | a value must be the only entry, a constant the first, and nothing may follow |
| Departures.RegisterSumWrong | host/loc2c.c:173-678 | `reg0 lit1 plus` is translated to the register added to itself, wrong in exactly the environments where that differs |
| Departures.RegisterSumFails | host/loc2c.c:173-678 | one such environment: a register that holds 5 |
| Departures.RotatedWrong | host/loc2c.c:173-678 | `lit1 lit2 lit3 lit4 rot drop drop drop` is translated to 4 and computes 1 |
| Locations.StepStands | host/loc2c.c:302-635 | the same simulation with value, register and constant results |
| Locations.TransSim | host/loc2c.c:291-667 | over whole expressions with skips and pieces |
| Locations.SkipTargetRight | host/loc2c.c:382-391 | the offset looked for is that of the operation after the skip, and its distance |
| Locations.SkipPasses | host/loc2c.c:382-391 | a skip by the length of the next n operations passes over exactly those, in translator and machine |
| Locations.SkipBackRefused | host/loc2c.c:382-391 | a skip backwards is refused |
| LocNeeds.SkipRefused | host/loc2c.c:382-391 | a skip to where no operation begins is refused, and reported at the last operation before that place |
| LocNeeds.NothingAfterValue | host/loc2c.c:300-312 | after a value or constant bytes everything but a null operation or a piece is refused |
| LocNeeds.NeedsExact | host/loc2c.c:186-289 | the temporaries recorded for a program are those it assigns, up to the highest and no more, counted over the pieces so far; it is marked as using `deref` exactly if it does |
| LocNeeds.CompositeExact | host/loc2c.c:564-669 | a composite ends with a piece and is as long as its pieces together, which are, in order, those of its piece operations if nothing is skipped |
| Locations.TranslateSound | host/loc2c.c:173-678 | the location produced denotes, piece by piece, the kind, size and contents the machine computes, in every environment in which each step is harmless |
| Locations.TranslateCorrect | host/loc2c.c:173-678 | for tidy expressions, in every environment |
| Translator.LocationTranslator.Pop | host/loc2c.c:195-217 | pops an entry or fetches the waiting register |
| Translator.LocationTranslator.StartPiece | host/loc2c.c:224-250 | the state at the start of a piece |
| Translator.LocationTranslator.EndPiece | host/loc2c.c:255-289 | the location of the finished piece |
| Translator.LocationTranslator.Operation | host/loc2c.c:302-640 | one operation on the counters and the pending program |
| Translator.LocationTranslator.Translate | host/loc2c.c:173-678 | the whole translation, with the index of the operation that fails |
| Slicing.SlicedTiles | host/loc2c.c:1424-1532 | the pieces are adjacent, non-empty, at most the maximum size and cover the object exactly; slicing fails exactly for large objects in registers, values or pieces |
| Slicing.KeptExactly | host/loc2c.c:1424-1462 | an object stays whole exactly when its size, or the total, is at most the maximum |
| Slicing.FewestParts | host/loc2c.c:1463-1482 | no such tiling has fewer pieces |
| Slicing.FetchThroughPieces | host/loc2c.c:1645-1690 | a fetch through the pieces reads the object, whatever the union held |
| Slicing.StoreThenFetch | host/loc2c.c:1793-1859 | a store through the pieces and a fetch return the value, and no byte outside the object changes |
| Slicing.AddressParts | host/loc2c.c:1700-1717 | an object in memory can be fetched and stored exactly when its pieces have the sizes of base types |
| Slicing.UnsizedPart | host/loc2c.c:1700-1717 | a piece of size zero is fetched, as an address, and not stored |
| Slicing.ConstantParts | host/loc2c.c:1542-1552 | a constant can be fetched exactly when it has at most nine pieces |
| Slicing.Discontiguify | host/loc2c.c:1424-1532 | the loop computes that slicing |
| Aliases.ChainBound | host/elaborate.cxx:604-623 | a derivation chain has at most one alias more than the table, and one that passes the check may be extended once |
| Aliases.Deriver.CheckForRecursiveExpansion | host/elaborate.cxx:604-623 | the check finds exactly the chains whose latest alias occurs earlier |
| Aliases.Deriver.BuildOne | host/elaborate.cxx:544-601 | one match adds what the expansion yields |
| Aliases.Deriver.Derive | host/elaborate.cxx:702-773 | the expansion of all locations ends for every table, recursive ones included |
| AliasRoutes.DerivedArrive | host/elaborate.cxx:544-601 | every derived probe is the end of an open route of matching aliases, with the bodies in prologue or epilogue order and all conditions of that route |
| AliasRoutes.RoutesTaken | host/elaborate.cxx:702-773 | every route that the check allows and no sufficient location cuts off is derived |
| AliasRoutes.DerivedExactly | host/elaborate.cxx:544-773 | so what is derived is exactly what open routes arrive at, for every table |
| AliasRoutes.SomethingFound | host/elaborate.cxx:702-773 | where any route exists something is derived, so which locations cut off others depends on the table alone |
| AliasRoutes.RoutesOpen | host/elaborate.cxx:702-773 | without sufficient locations every route is open |
| AliasRoutes.NestingBound | host/elaborate.cxx:604-623 | no probe comes through more aliases than there are, and one |
| AliasRoutes.BoundReached | host/elaborate.cxx:604-623 | an alias that names itself reaches that bound |
| AliasRoutes.BodiesInOrder | host/elaborate.cxx:544-601 | a prologue alias puts its body before that of its user, an epilogue alias after; conditions are collected from the inside out |
| AliasErrors.ErrorsExactly | host/elaborate.cxx:702-773 | an expansion reports an error exactly when some location that is looked at is not optional, nor behind one that is, and fails to match or leads to no probe, or when a chain that came back on itself names an alias |
| Preprocess.SkipItems | host/parse.cxx:427-463 | skipping a branch passes over nested conditionals |
| Preprocess.SkipOver | host/parse.cxx:427-511 | skipping a branch stops at the marker that ends it, whatever follows |
| Preprocess.ItemsSkippable | host/parse.cxx:427-511 | every branch made of tokens and conditionals can be skipped |
| Preprocess.JunkSkippable | host/parse.cxx:427-511 | a skipped `%( x %)`, which is no conditional, is accepted, but not with a conditional after it |
| Preprocess.ExpandOrdinary | host/parse.cxx:362-530 | no marker is left in an expansion but those that stand by themselves |
| Scanner.PreScanner.ScanCondition | host/parse.cxx:384-413 | a chain of comparisons is the disjunction of its conjunctions |
| Scanner.PreScanner.SkipBranch | host/parse.cxx:425-463 | the branch not taken, with bad tokens ignored |
| Scanner.PreScanner.TakeBranch | host/parse.cxx:465-505 | the branch taken yields its expansion |
| Scanner.PreScanner.ScanPp | host/parse.cxx:362-530 | each call hands over the next token of the expansion, and raw input is read only when the queue is empty |
| Scanner.ScanAll | host/parse.cxx:362-530 | repeated calls hand over exactly the recursive expansion of the stream, whatever skippable text its untaken branches hold and whatever markers stand outside its conditionals |
| RoundTrip.PrintBack | host/parse.cxx:1953-2406 | parsing the printed form of any tree gives the tree with negative literals as negations, or an error exactly when a membership test has a loosely binding index |
| RoundTrip.TightBack | host/parse.cxx:2133-2335 | the same at the level of comparisons, where membership indexes are read |
| RoundTrip.RoundTripExactly | host/staptree.cxx:256-304 | exactly which trees come back unchanged |
| ParsedTrees.ExprSound | host/parse.cxx:1953-2406 | every tree the parser yields is well formed |
| ParsedTrees.ReprintExactly | host/parse.cxx:1953-2406 | exactly which inputs give a tree whose printed form parses back to it |
| ParsedTrees.MembershipNotReread | host/staptree.cxx:275-286 | `[(a & b)] in c` parses, and the printed form of its tree is a syntax error |
| ParsedTrees.MinusSign | host/parse.cxx:1600-1640 | a minus sign before a number is an operator, but after `++` or `--` a part of the number |
| Precedence.SpelledBack | host/parse.cxx:1953-2406 | every expression without negative literals, in parentheses only where the listed classes of operators call for them, parses back to itself |
| Precedence.TwoOperators | host/parse.cxx:2023-2335 | of two binary operators the one in the tighter class takes the operand between, of two in one class the left |
| Precedence.AssignmentsRight | host/parse.cxx:1960-1996 | assignments group to the right and are looser than all binary operators |
| Precedence.OtherOperators | host/parse.cxx:1966-2370 | which operators assign, which are unary, and which change a variable |
| ExprParser.Cursor.Expression | host/parse.cxx:1953-1996 | the cursor and tree after parsing an expression are those of the grammar |
| ExprParser.Cursor.Level | host/parse.cxx:2023-2335 | the loop of an operator level builds a left-associated tree |
| ExprParser.Cursor.Membership | host/parse.cxx:2133-2191 | bracketed or single operands of `in` |
| ExprParser.Cursor.Symbol | host/parse.cxx:2459-2665 | calls, array elements and variables; not prints, statistics and histograms |
| Mdfour.FourOperations | host/mdfour.c:38-78 | four operations on registers updated in place are four of the rotating operations of section 3.4 of RFC 1320 |
| MdfourOps.RoundsAre | host/mdfour.c:32-41 | the macros of the three rounds, written with C operators, are the operations of section 3.4 of RFC 1320 |
| Mdfour.State.Mdfour64 | host/mdfour.c:43-87 | a block is processed as section 3.4 of RFC 1320 says |
| Mdfour.Extend | host/mdfour.c:151-195 | the state after a message cut anywhere is the state after the whole |
| Mdfour.PaddingExact | host/mdfour.c:120-149 | exactly when the padding is that of sections 3.1 and 3.2 of RFC 1320 |
| Mdfour.State.Update | host/mdfour.c:151-195 | the struct after an update holds the longer message |
| Mdfour.State.Finish | host/mdfour.c:120-149 | the registers after the padded end of the message |
| Mdfour.State.Copy | host/hash.h:22 | a copied state goes on from the bytes seen so far |
| Mdfour.Hash | host/mdfour.c:210-218 | the registers after the padded message, for every length; the digest of RFC 1320 for messages under 2^29 bytes |
| Mdfour.HashPieces | host/mdfour.c:151-218 | the same for every way of cutting the message |
| Prologue.FindEntry | host/dwflpp.cxx:1255-1271 | the binary search hits a record at the entry address exactly when there is one |
| Prologue.Scan | host/dwflpp.cxx:1309-1348 | the scan with its step backwards ends with the specified record |
| Prologue.InsideExactly | host/dwflpp.cxx:1309-1348 | an end found lies in the function exactly when the function is not empty |
| Prologue.UnsetExactly | host/dwflpp.cxx:1309-1348 | it is unset exactly when every record from the entry to the end of the table is in the function and on the declaration line |
| Prologue.EndExactly | host/dwflpp.cxx:1296-1348 | it is the first record off the declaration line, or else the last record of the function |
| Prologue.OutsideExample | host/dwflpp.cxx:1309-1348 | a function whose entry is not below its end, and an end found before the entry |
| Prologue.ResolvePrologue | host/dwflpp.cxx:1248-1348 | no entry record or a null entry leaves it unset; an end it finds lies in the function exactly when entrypc < highpc |

## Left out

- Runs that fault: the optimizer may remove a division by zero, so preservation is about runs that end; try blocks, whose handlers would observe the difference, are not in the optimizer's language.
- Arrays, `foreach`, `delete`, statistics, embedded C, target symbols, casts and `@defined` in the optimizer's language; an empty `foreach` is removed although it assigns its indexes.
- Shifts by 64 or more, which the folder clamps and C leaves undefined, are stuck in the semantics.
- String truncation at MAXSTRINGLEN and string escapes.
- The dead-assignment remover and the constant folder as visitors on shared tree nodes: their trees are values here, so aliasing between the tree being rewritten and the tree being analysed is not modelled.
- Relax.RoundsPreserve: asks that no round strips an assignment to a variable whose `++` or `--` is used for its value, as Passes.StripAssignmentsPreserves and Relax.RoundPreserves do; the converse is not stated, because the offending expression may never be reached.
- Merge.SigOf: two functions are duplicates here when their trees are equal once their locals are named alike; the source compares printed text, so printing is taken to tell trees apart.
- MergeProof.MergePreserves: asks that the round be clean and that locals be named by their owners; the converse is not stated, because the call of an erased function may never be made.
- Pipeline.Optimized: leaves out type inference and the probes that display globals, which come between the two loops and call no function.
- TypeResolver.Resolver.InferTypes: asks that what is assigned to be a variable or an array element; the translation phase rejects other scripts.
- Formatted prints and histograms in type inference, and the exceptions thrown for unresolved target symbols; `delete` is visited like an expression statement.
- Error messages, verbosity output, warnings and interrupts.
- The text of the emitted C; a location's program is a list of assignments. `Loc2c.StepSim` takes the C operators and memory as given functions. A skip whose target is the end of the expression makes the source read past its array and is a failure here.
- Fetches and stores of registers and computed values, bit fields, and the emission order of declarations.
- Mdfour.Hash: from 2^29 bytes on the result is the code's own padding absorbed, which `Mdfour.PaddingExact` compares with that of RFC 1320.
- ExprParser.Cursor.Symbol: does not parse print operators, statistics operators, histograms, target symbols and `@defined`, because they only add cases without a loop or a level.
- Scanner.ScanAll: says nothing of streams in which a marker by itself ends or breaks a branch that is taken.
- Lexing: the parser and the preprocessor work on tokens; number range checks, print operators, statistics operators and target symbols are not parsed; `eval_pp_conditional` and `fnmatch` are given functions.
- Blacklists, libdw queries and relocation; the line table is given.
- Command line handling, the build of the kernel module, the cache, the servers and signing.
