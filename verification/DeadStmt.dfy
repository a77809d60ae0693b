/**
 Removal of statements without effect: null statements, expression statements whose
 expression changes nothing that outlives it, and the blocks, conditionals and loops that
 become empty.  None stands for the null pointer a removed statement leaves behind.
 */
module DeadStmt {
  import opened Basics
  import opened Arith64
  import opened Syntax
  import opened Semantics
  import opened VarUse
  import opened Frame
  import opened Replace

  function PruneStmt(fs: map<string, Func>, focal: set<Var>, s: Stmt): Option<Stmt>
    decreases s, 1
  {
    match s
    case Null => None
    case Do(e) => if SideEffectFreeWrt(UseExpr(fs, NO_USE, e), focal) then None else Some(s)
    case Block(body) => Pack(PruneSeq(fs, focal, body))
    case If(c, thn, els) =>
      PruneIf(fs, c, PruneStmt(fs, focal, thn), if els.Some? then PruneStmt(fs, focal, els.value) else None)
    case For(init, c, incr, loop) =>
      (match PruneStmt(fs, focal, loop)
       case Some(b) => Some(For(init, c, incr, b))
       case None => if SideEffectFree(UseHead(fs, init, c, incr)) then None else Some(For(init, c, incr, Null)))
    case _ => Some(s)
  }

  /** What is left of a block. */
  function Pack(ss: seq<Stmt>): Option<Stmt> {
    if |ss| == 0 then None else if |ss| == 1 then Some(ss[0]) else Some(Block(ss))
  }

  /** What is left of a conditional whose branches have been pruned. */
  function PruneIf(fs: map<string, Func>, c: Expr, thn: Option<Stmt>, els: Option<Stmt>): Option<Stmt> {
    match (thn, els)
    case (None, None) => if SideEffectFree(UseExpr(fs, NO_USE, c)) then None else Some(Do(c))
    case (None, Some(x)) => Some(If(Un(Not, c), x, None))
    case (Some(t), _) => Some(If(c, t, els))
  }

  function UseHead(fs: map<string, Func>, init: Option<Expr>, c: Expr, incr: Option<Expr>): Use {
    UseOpt(fs, UseExpr(fs, UseOpt(fs, NO_USE, init), c), incr)
  }

  /** The statements of a block, pruned, with nested blocks flattened into it. */
  function PruneSeq(fs: map<string, Func>, focal: set<Var>, ss: seq<Stmt>): seq<Stmt>
    decreases ss, 0
  {
    if ss == [] then [] else Spread(PruneStmt(fs, focal, ss[0])) + PruneSeq(fs, focal, ss[1..])
  }

  function Spread(s: Option<Stmt>): seq<Stmt> {
    match s
    case None => []
    case Some(Block(inner)) => inner
    case Some(x) => [x]
  }

  /** A body that disappears altogether is replaced by a null statement. */
  function PruneBody(fs: map<string, Func>, focal: set<Var>, s: Stmt): Stmt {
    match PruneStmt(fs, focal, s) case None => Null case Some(x) => x
  }

  // ----- meaning -----

  /** A statement that may have been removed. */
  function ExecOpt(fs: map<string, Func>, n: nat, st: State, s: Option<Stmt>): ExecResult {
    match s case None => SDone(Normal, st) case Some(x) => Exec(fs, n, st, x)
  }

  lemma {:induction false} ExecSeqAppend(fs: map<string, Func>, n: nat, st: State, xs: seq<Stmt>, ys: seq<Stmt>)
    ensures ExecSeq(fs, n, st, xs + ys) ==
            match ExecSeq(fs, n, st, xs)
            case SStuck => SStuck
            case SDone(sig, st1) => if sig == Normal then ExecSeq(fs, n, st1, ys) else SDone(sig, st1)
    decreases xs
  {
    if xs == [] {
      assert xs + ys == ys;
    } else {
      assert (xs + ys)[1..] == xs[1..] + ys;
      match Exec(fs, n, st, xs[0]) {
        case SStuck =>
        case SDone(_, st1) => ExecSeqAppend(fs, n, st1, xs[1..], ys);
      }
    }
  }

  lemma ExecSpread(fs: map<string, Func>, n: nat, st: State, s: Option<Stmt>)
    ensures ExecSeq(fs, n, st, Spread(s)) == ExecOpt(fs, n, st, s)
  {
    if s.Some? && !s.value.Block? {
      assert [s.value][1..] == [];
    }
  }

  lemma ExecPack(fs: map<string, Func>, n: nat, st: State, ss: seq<Stmt>)
    ensures ExecOpt(fs, n, st, Pack(ss)) == ExecSeq(fs, n, st, ss)
  {
    if |ss| == 1 { assert ss[1..] == []; }
  }

  lemma {:induction false} PruneExec(fs: map<string, Func>, globals: set<Var>, frame: set<Var>, n: nat, st: State, s: Stmt)
    requires Within(st, globals, frame) && Exec(fs, n, st, s).SDone?
    ensures ExecOpt(fs, n, st, PruneStmt(fs, globals + frame, s)) == Exec(fs, n, st, s)
    decreases n, s, 2
  {
    var focal := globals + frame;
    match s
    case Do(e) =>
      if SideEffectFreeWrt(UseExpr(fs, NO_USE, e), focal) { PureEvalWrt(fs, n, st, e, focal); }
    case Block(body) =>
      PruneExecSeq(fs, globals, frame, n, st, body);
      ExecPack(fs, n, st, PruneSeq(fs, focal, body));
    case If(c, thn, els) =>
      var a := Eval(fs, n, st, c);
      EvalKeepsDomain(fs, n, st, c);
      if Truth(a.v).value {
        PruneExec(fs, globals, frame, n, a.st, thn);
      } else if els.Some? {
        PruneExec(fs, globals, frame, n, a.st, els.value);
      }
      var els' := if els.Some? then PruneStmt(fs, focal, els.value) else None;
      PruneIfExec(fs, n, st, c, PruneStmt(fs, focal, thn), els');
    case For(init, c, incr, loop) =>
      if init.Some? { EvalKeepsDomain(fs, n, st, init.value); }
      var st1 := EvalOpt(fs, n, st, init).st;
      PruneExecLoop(fs, globals, frame, n, st1, s);
      if PruneStmt(fs, focal, loop).None? && SideEffectFree(UseHead(fs, init, c, incr)) {
        PureHead(fs, n, st, init, c, incr);
        PureLoop(fs, n, st1, For(init, c, incr, Null));
      }
    case _ =>
  }

  lemma PruneIfExec(fs: map<string, Func>, n: nat, st: State, c: Expr, thn: Option<Stmt>, els: Option<Stmt>)
    requires Eval(fs, n, st, c).EDone? && Truth(Eval(fs, n, st, c).v).Some?
    ensures var a := Eval(fs, n, st, c);
            ExecOpt(fs, n, st, PruneIf(fs, c, thn, els)) == ExecOpt(fs, n, a.st, if Truth(a.v).value then thn else els)
  {
    if thn.None? && els.None? && SideEffectFree(UseExpr(fs, NO_USE, c)) {
      PureEval(fs, n, st, c);
    } else if thn.None? && els.Some? {
      var a := Eval(fs, n, st, c);
      assert Eval(fs, n, st, Un(Not, c)) == EDone(Flag(!Truth(a.v).value), a.st);
    }
  }

  lemma {:induction false} PruneExecSeq(fs: map<string, Func>, globals: set<Var>, frame: set<Var>, n: nat, st: State, ss: seq<Stmt>)
    requires Within(st, globals, frame) && ExecSeq(fs, n, st, ss).SDone?
    ensures ExecSeq(fs, n, st, PruneSeq(fs, globals + frame, ss)) == ExecSeq(fs, n, st, ss)
    decreases n, ss, 1
  {
    if ss != [] {
      var first := PruneStmt(fs, globals + frame, ss[0]);
      PruneExec(fs, globals, frame, n, st, ss[0]);
      ExecSpread(fs, n, st, first);
      ExecSeqAppend(fs, n, st, Spread(first), PruneSeq(fs, globals + frame, ss[1..]));
      var r := Exec(fs, n, st, ss[0]);
      ExecKeepsDomain(fs, n, st, ss[0]);
      if r.sig == Normal { PruneExecSeq(fs, globals, frame, n, r.st, ss[1..]); }
    }
  }

  /** The loop with its body pruned, or emptied. */
  lemma {:induction false} PruneExecLoop(fs: map<string, Func>, globals: set<Var>, frame: set<Var>, n: nat, st: State, s: Stmt)
    requires s.For? && Within(st, globals, frame) && Loop(fs, n, st, s).SDone?
    ensures Loop(fs, n, st, s.(loop := PruneBody(fs, globals + frame, s.loop))) == Loop(fs, n, st, s)
    decreases n, s, 1
  {
    var c := Eval(fs, n, st, s.c);
    EvalKeepsDomain(fs, n, st, s.c);
    if Truth(c.v).value {
      PruneExec(fs, globals, frame, n, c.st, s.loop);
      ExecKeepsDomain(fs, n, c.st, s.loop);
      var b := Exec(fs, n, c.st, s.loop);
      if b.sig == Normal || b.sig == Continued {
        if s.incr.Some? { EvalKeepsDomain(fs, n, b.st, s.incr.value); }
        PruneExecLoop(fs, globals, frame, n - 1, EvalOpt(fs, n, b.st, s.incr).st, s);
      }
    }
  }

  /** An empty loop whose head has no effect does nothing, if it ends at all. */
  lemma PureHead(fs: map<string, Func>, n: nat, st: State, init: Option<Expr>, c: Expr, incr: Option<Expr>)
    requires SideEffectFree(UseHead(fs, init, c, incr))
    ensures EvalOpt(fs, n, st, init).EDone? ==> EvalOpt(fs, n, st, init).st == st
    ensures Closed(fs, UseHead(fs, init, c, incr))
    ensures CoversExpr(UseHead(fs, init, c, incr), c) && CoversOpt(UseHead(fs, init, c, incr), incr)
  {
    var u1 := UseOpt(fs, NO_USE, init);
    var u2 := UseExpr(fs, u1, c);
    var u := UseHead(fs, init, c, incr);
    UseOptCovers(fs, NO_USE, init);
    UseExprCovers(fs, u1, c);
    UseOptCovers(fs, u2, incr);
    EnteredTrans(fs, NO_USE, u1, u2);
    EnteredTrans(fs, NO_USE, u2, u);
    CoversExprMono(u2, u, c);
    if EvalOpt(fs, n, st, init).EDone? { FrameOpt(fs, n, u1, st, init); }
  }

  lemma {:induction false} PureLoop(fs: map<string, Func>, n: nat, st: State, s: Stmt)
    requires s.For? && s.loop == Null && SideEffectFree(UseHead(fs, s.init, s.c, s.incr))
    requires Loop(fs, n, st, s).SDone?
    ensures Loop(fs, n, st, s) == SDone(Normal, st)
    decreases n
  {
    var u := UseHead(fs, s.init, s.c, s.incr);
    PureHead(fs, n, st, s.init, s.c, s.incr);
    FrameEval(fs, n, u, st, s.c);
    FramedNothing(u, st, Eval(fs, n, st, s.c).st);
    if Truth(Eval(fs, n, st, s.c).v).value {
      FrameOpt(fs, n, u, st, s.incr);
      FramedNothing(u, st, EvalOpt(fs, n, st, s.incr).st);
      PureLoop(fs, n - 1, st, s);
    }
  }

  /** Pruning a body refines it. */
  lemma PruneRefines(fs: map<string, Func>, globals: set<Var>, frame: set<Var>, s: Stmt)
    ensures Refines(fs, globals, frame, s, PruneBody(fs, globals + frame, s))
  {
    forall n: nat, st: State | Within(st, globals, frame) && Exec(fs, n, st, s).SDone?
      ensures Exec(fs, n, st, PruneBody(fs, globals + frame, s)) == Exec(fs, n, st, s)
    {
      PruneExec(fs, globals, frame, n, st, s);
    }
  }
}
