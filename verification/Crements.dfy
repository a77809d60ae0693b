/**
 Why dead-assignment removal needs the restriction on `++` and `--`: a session for which
 it is not met, and which the pass changes.
 */
module Crements {
  import opened Basics
  import opened Arith64
  import opened Syntax
  import opened Semantics
  import opened VarUse
  import opened DeadAssign
  import opened Passes

  const X := Local("probe", "x", Num(0))
  const G := Global("g", Num(0))
  const SET_X := Do(Assign(X, Set, Lit(Num(5))))
  const SET_G := Do(Assign(G, Set, Crement(X, true, true)))

  /** `probe { x = 5; g = x++; }`, where nothing else mentions the local x. */
  function Script(first: Stmt): Program {
    Program([G], map[], [], [Probe(None, [X], Block([first, SET_G]))])
  }

  lemma ScriptUse()
    ensures SessionUse(Script(SET_X), false) == Use({}, {}, {X, G}, false)
  {
    var p := Script(SET_X);
    assert [SET_X, SET_G][1..] == [SET_G] && [SET_G][1..] == [];
    assert UseStmt(p.funcs, NO_USE, SET_X) == Use({}, {}, {X}, false);
    assert UseStmt(p.funcs, Use({}, {}, {X}, false), SET_G) == Use({}, {}, {X, G}, false);
    assert UseSeq(p.funcs, Use({}, {}, {X}, false), [SET_G]) == Use({}, {}, {X, G}, false);
    assert UseSeq(p.funcs, NO_USE, [SET_X, SET_G]) == Use({}, {}, {X, G}, false);
    assert UseStmt(p.funcs, NO_USE, p.probes[0].body) == Use({}, {}, {X, G}, false);
    assert p.probes[1..] == [];
    assert UseProbes(p.funcs, Use({}, {}, {X, G}, false), p.probes[1..], false) == Use({}, {}, {X, G}, false);
  }

  lemma ScriptStripped()
    ensures StripAssignments(Script(SET_X)) == Script(Do(Lit(Num(5))))
  {
    var p := Script(SET_X);
    var dead := DeadIn(p);
    ScriptUse();
    assert G in p.globals;
    assert dead(X) && !dead(G);
    assert [SET_X, SET_G][1..] == [SET_G] && [SET_G][1..] == [];
    assert StripStmt(dead, SET_X) == Do(Lit(Num(5))) && StripStmt(dead, SET_G) == SET_G;
    assert StripSeq(dead, [SET_G]) == [SET_G];
    assert StripSeq(dead, [SET_X, SET_G]) == [Do(Lit(Num(5))), SET_G];
    assert StripProbe(dead, p.probes[0]) == Script(Do(Lit(Num(5)))).probes[0];
    assert StripAssignments(p).probes == Script(Do(Lit(Num(5)))).probes;
    assert StripAssignments(p).funcs == map[];
  }

  function At(g: Word, x: Word): State { State(map[G := Num(g)], map[X := Num(x)], "") }

  lemma CrementStep(k: Word)
    requires 0 <= k < 10
    ensures Exec(map[], 0, At(0, k), SET_G) == SDone(Normal, At(k, k + 1))
  {
    var st := At(0, k);
    assert Store(st, X, Num(k + 1)) == At(0, k + 1);
    assert Bump(true, Num(k)) == Num(k + 1);
    assert Eval(map[], 0, st, Crement(X, true, true)) == EDone(Num(k), At(0, k + 1));
    assert Store(At(0, k + 1), G, Num(k)) == At(k, k + 1);
  }

  /** g ends with what x held when `x++` was evaluated. */
  lemma ScriptRun(first: Stmt, k: Word)
    requires 0 <= k < 10 && Exec(map[], 0, At(0, 0), first) == SDone(Normal, At(0, k))
    ensures Run(Script(first), 0, Outside(map[G := Num(0)], ""), [0]) == RDone(Outside(map[G := Num(k)], ""))
  {
    var p, o := Script(first), Outside(map[G := Num(0)], "");
    assert [first, SET_G][1..] == [SET_G] && [SET_G][1..] == [];
    CrementStep(k);
    assert ExecSeq(map[], 0, At(0, k), [SET_G]) == SDone(Normal, At(k, k + 1));
    assert Exec(map[], 0, At(0, 0), Block([first, SET_G])) == SDone(Normal, At(k, k + 1));
    assert Initial(p.probes[0].locals) == map[X := Num(0)];
    assert Eval(map[], 0, State(o.g, map[], ""), Lit(Num(1))) == EDone(Num(1), State(o.g, map[], ""));
    assert Fire(map[], 0, o, p.probes[0]) == RDone(Outside(map[G := Num(k)], ""));
    assert [0][1..] == [];
  }

  /** The analysis counts `x++` as a write of x and not as a read, so `x = 5` is stripped and
      g ends up 0 instead of 5. */
  lemma CrementNotPreserved()
    ensures !Preserves(Script(SET_X), StripAssignments(Script(SET_X)))
  {
    hide Run, StripAssignments;
    var p, q, o := Script(SET_X), Script(Do(Lit(Num(5)))), Outside(map[G := Num(0)], "");
    ScriptStripped();
    FirstStatements();
    ScriptRun(SET_X, 5);
    ScriptRun(Do(Lit(Num(5))), 0);
    assert SetOf(p.globals) == {G};
    assert Keep(o, q.globals) == o;
    assert Keep(Outside(map[G := Num(5)], ""), q.globals).g[G] == Num(5);
  }

  lemma FirstStatements()
    ensures Exec(map[], 0, At(0, 0), SET_X) == SDone(Normal, At(0, 5))
    ensures Exec(map[], 0, At(0, 0), Do(Lit(Num(5)))) == SDone(Normal, At(0, 0))
  {
    assert Store(At(0, 0), X, Num(5)) == At(0, 5);
  }

  /** What the session does not meet is the condition of StripAssignmentsPreserves. */
  lemma CrementNotQuiet()
    ensures !Quiet(Stripped(Script(SET_X)), Script(SET_X))
  {
    var p := Script(SET_X);
    ScriptUse();
    assert [SET_X, SET_G][0] == SET_X && X in TargetsStmt(SET_X);
    assert X in TargetsStmt(p.probes[0].body) && p.probes[0] in p.probes;
    assert DeadIn(p)(X) && X in Stripped(p);
    assert [SET_X, SET_G][1..] == [SET_G];
    assert !QuietStmt(Stripped(p), SET_G);
    assert !QuietSeq(Stripped(p), [SET_G]);
    assert !QuietStmt(Stripped(p), p.probes[0].body);
    assert p.probes[0] in p.probes;
  }
}
