/**
 The visitors that walk the tree step by step: the collector of variable uses, which
 fills its sets as it goes, and the void-context reducer, whose visits leave their results
 on a stack of targets.
 */
module Visitors {
  import opened Basics
  import opened Arith64
  import opened Syntax
  import opened VarUse
  import opened Frame
  import opened DeadStmt
  import opened VoidReduce
  import opened Weight

  class Collector {
    const fs: map<string, Func>
    var traversed: set<string>
    var read: set<Var>
    var written: set<Var>
    var embeddedSeen: bool

    constructor (fs: map<string, Func>)
      ensures this.fs == fs && Gathered() == NO_USE
    {
      this.fs := fs;
      traversed, read, written, embeddedSeen := {}, {}, {}, false;
    }

    function Gathered(): Use
      reads this
    {
      Use(traversed, read, written, embeddedSeen)
    }

    /** Visiting an expression adds exactly what the traversal UseExpr adds; that those sets
        account for every run of the expression is FrameEval. */
    method VisitExpr(e: Expr)
      modifies this
      ensures Gathered() == UseExpr(fs, old(Gathered()), e)
      decreases fs.Keys - traversed, e, 1
    {
      match e {
        case Lit(_) =>
        case Sym(v) => read := read + {v};
        case Bin(_, l, r) => VisitExpr(l); VisitExpr(r);
        case Logic(_, l, r) => VisitExpr(l); VisitExpr(r);
        case Un(_, x) => VisitExpr(x);
        case Cond(c, l, r) => VisitExpr(c); VisitExpr(l); VisitExpr(r);
        case Assign(v, how, x) =>
          written := written + {v};
          if how != Set { read := read + {v}; }
          VisitExpr(x);
        case Crement(v, _, _) => written := written + {v};
        case Call(f, args) =>
          VisitArgs(args);
          if f !in traversed {
            traversed := traversed + {f};
            if f in fs { VisitStmt(fs[f].body); }
          }
        case Print(stream, args) =>
          if stream { embeddedSeen := true; }
          VisitArgs(args);
      }
    }

    method VisitArgs(args: seq<Expr>)
      modifies this
      ensures Gathered() == UseArgs(fs, old(Gathered()), args)
      decreases fs.Keys - traversed, args, 0
    {
      for i := 0 to |args|
        invariant old(traversed) <= traversed
        invariant UseArgs(fs, Gathered(), args[i..]) == UseArgs(fs, old(Gathered()), args)
      {
        assert args[i..][0] == args[i] && args[i..][1..] == args[i + 1..];
        VisitExpr(args[i]);
      }
    }

    method VisitOpt(e: Option<Expr>)
      modifies this
      ensures Gathered() == UseOpt(fs, old(Gathered()), e)
      decreases fs.Keys - traversed, e, 2
    {
      if e.Some? { VisitExpr(e.value); }
    }

    method VisitStmt(s: Stmt)
      modifies this
      ensures Gathered() == UseStmt(fs, old(Gathered()), s)
      decreases fs.Keys - traversed, s, 1
    {
      match s {
        case Do(e) => VisitExpr(e);
        case Return(e) => VisitExpr(e);
        case Block(body) => VisitSeq(body);
        case If(c, thn, els) =>
          VisitExpr(c);
          VisitStmt(thn);
          if els.Some? { VisitStmt(els.value); }
        case For(init, c, incr, loop) =>
          VisitOpt(init);
          VisitExpr(c);
          VisitOpt(incr);
          VisitStmt(loop);
        case _ =>
      }
    }

    method VisitSeq(ss: seq<Stmt>)
      modifies this
      ensures Gathered() == UseSeq(fs, old(Gathered()), ss)
      decreases fs.Keys - traversed, ss, 0
    {
      for i := 0 to |ss|
        invariant old(traversed) <= traversed
        invariant UseSeq(fs, Gathered(), ss[i..]) == UseSeq(fs, old(Gathered()), ss)
      {
        assert ss[i..][0] == ss[i] && ss[i..][1..] == ss[i + 1..];
        VisitStmt(ss[i]);
      }
    }
  }

  /** Removes statements without effect; `relaxed` is cleared when something was removed. */
  class DeadStmtRemover {
    const fs: map<string, Func>
    const focal: set<Var>
    var relaxed: bool

    constructor (fs: map<string, Func>, focal: set<Var>, relaxed: bool)
      ensures this.fs == fs && this.focal == focal && this.relaxed == relaxed
    {
      this.fs, this.focal, this.relaxed := fs, focal, relaxed;
    }

    method VisitStmt(s: Stmt) returns (r: Option<Stmt>)
      modifies this
      ensures r == PruneStmt(fs, focal, s)
      ensures relaxed == (old(relaxed) && !PruneHit(fs, focal, s))
      decreases s, 1
    {
      match s {
        case Null => r := None;
        case Do(e) =>
          r := Some(s);
          if SideEffectFreeWrt(UseExpr(fs, NO_USE, e), focal) {
            relaxed := false;
            r := None;
          }
        case Block(body) =>
          var left := VisitSeq(body);
          r := Pack(left);
        case If(c, thn, els) =>
          var thn' := VisitStmt(thn);
          var els': Option<Stmt> := None;
          if els.Some? { els' := VisitStmt(els.value); }
          r := PruneIf(fs, c, thn', els');
        case For(init, c, incr, loop) =>
          var loop' := VisitStmt(loop);
          if loop'.Some? {
            r := Some(For(init, c, incr, loop'.value));
          } else if SideEffectFree(UseHead(fs, init, c, incr)) {
            r := None;
          } else {
            r := Some(For(init, c, incr, Null));
          }
        case _ => r := Some(s);
      }
    }

    /** The statements of a block; a nested block is flattened into it. */
    method VisitSeq(ss: seq<Stmt>) returns (left: seq<Stmt>)
      modifies this
      ensures left == PruneSeq(fs, focal, ss)
      ensures relaxed == (old(relaxed) && !PruneSeqHit(fs, focal, ss))
      decreases ss, 0
    {
      left := [];
      for i := 0 to |ss|
        invariant left + PruneSeq(fs, focal, ss[i..]) == PruneSeq(fs, focal, ss)
        invariant (relaxed && !PruneSeqHit(fs, focal, ss[i..])) == (old(relaxed) && !PruneSeqHit(fs, focal, ss))
      {
        PruneSeqStep(fs, focal, left, ss, i);
        var n := VisitStmt(ss[i]);
        if n.Some? && n.value.Block? { relaxed := false; }
        left := left + Spread(n);
      }
    }
  }

  lemma PruneSeqStep(fs: map<string, Func>, focal: set<Var>, left: seq<Stmt>, ss: seq<Stmt>, i: nat)
    requires i < |ss|
    ensures var first := PruneStmt(fs, focal, ss[i]);
      && left + PruneSeq(fs, focal, ss[i..]) == left + Spread(first) + PruneSeq(fs, focal, ss[i + 1..])
      && PruneSeqHit(fs, focal, ss[i..]) ==
         (PruneHit(fs, focal, ss[i]) || (first.Some? && first.value.Block?) || PruneSeqHit(fs, focal, ss[i + 1..]))
  {
    assert ss[i..][0] == ss[i] && ss[i..][1..] == ss[i + 1..];
  }

  /** What a visit can leave on the stack: a statement, an expression, or a null pointer. */
  datatype Target = Statement(s: Stmt) | Expression(e: Expr) | Nothing

  /** What a visit of an expression statement's value leaves on top of `below`: the expression
      itself if it stays, or the statement that takes its place and then a null. */
  ghost predicate LeftByExpr(below: seq<Target>, now: seq<Target>, s: Stmt) {
    || (s.Do? && now == below + [Expression(s.e)])
    || now == below + [Statement(s), Nothing]
  }

  class VoidReducer {
    const fs: map<string, Func>
    const focal: set<Var>
    var targets: seq<Target>
    var relaxed: bool

    constructor (fs: map<string, Func>, focal: set<Var>, relaxed: bool)
      ensures this.fs == fs && this.focal == focal && targets == [] && this.relaxed == relaxed
    {
      this.fs, this.focal, this.relaxed := fs, focal, relaxed;
      targets := [];
    }

    method Provide(t: Target)
      modifies this`targets
      ensures targets == old(targets) + [t]
    {
      targets := targets + [t];
    }

    method Pop() returns (t: Target)
      requires targets != []
      modifies this`targets
      ensures targets == old(targets[..|targets| - 1]) && t == old(targets[|targets| - 1])
    {
      t := targets[|targets| - 1];
      targets := targets[..|targets| - 1];
    }

    /** `require`: visits a statement and takes back what the visit left.  The stack is as it
        was, so what was popped is the result for this very statement. */
    method Require(s: Stmt) returns (r: Stmt)
      modifies this
      ensures targets == old(targets)
      ensures r == ReduceStmt(fs, focal, s)
      ensures relaxed == (old(relaxed) && r == s)
      decreases StmtWeight(s), 2
    {
      VisitStmt(s);
      var t := Pop();
      r := t.s;
    }

    method VisitStmt(s: Stmt)
      modifies this
      ensures targets == old(targets) + [Statement(ReduceStmt(fs, focal, s))]
      ensures relaxed == (old(relaxed) && ReduceStmt(fs, focal, s) == s)
      decreases StmtWeight(s), 1
    {
      match s {
        case Do(e) =>
          VisitExpr(e);
          var t := Pop();
          if t.Expression? { Provide(Statement(Do(t.e))); }
        case Block(body) =>
          var out := RequireSeq(body);
          Provide(Statement(Block(out)));
        case If(c, thn, els) =>
          var thn' := Require(thn);
          var els': Option<Stmt> := None;
          if els.Some? {
            var x := Require(els.value);
            els' := Some(x);
          }
          Provide(Statement(If(c, thn', els')));
        case For(init, c, incr, loop) =>
          var loop' := Require(loop);
          Provide(Statement(For(init, c, incr, loop')));
        case _ => Provide(Statement(s));
      }
    }

    method RequireSeq(ss: seq<Stmt>) returns (out: seq<Stmt>)
      modifies this
      ensures targets == old(targets)
      ensures out == ReduceSeq(fs, focal, ss)
      ensures relaxed == (old(relaxed) && out == ss)
      decreases SeqWeight(ss), 3
    {
      hide ReduceStmt, ReduceSeq, StmtWeight, SeqWeight;
      out := [];
      assert ss[0..] == ss && ss[..0] == [] && [] + ReduceSeq(fs, focal, ss) == ReduceSeq(fs, focal, ss);
      for i := 0 to |ss|
        invariant targets == old(targets)
        invariant |out| == i && out + ReduceSeq(fs, focal, ss[i..]) == ReduceSeq(fs, focal, ss)
        invariant relaxed == (old(relaxed) && out == ss[..i])
      {
        ElementWeight(ss, i);
        var r := Require(ss[i]);
        ReduceSeqStep(fs, focal, ss, i, out, r);
        out := out + [r];
      }
      ReduceSeqEnd(fs, focal, ss, out);
    }

    /** Visits the value of an expression statement. */
    method VisitExpr(e: Expr)
      modifies this
      ensures LeftByExpr(old(targets), targets, ReduceDo(fs, focal, e))
      ensures relaxed == (old(relaxed) && ReduceDo(fs, focal, e) == Do(e))
      decreases StmtWeight(Do(e)), 0
    {
      match e {
        case Un(_, x) =>
          relaxed := false;
          VisitExpr(x);
          ReduceDoWeight(fs, focal, x);
        case Logic(isOr, l, r) =>
          assert StmtWeight(Do(r)) == 1 + ExprWeight(r) && ExprWeight(Un(Not, l)) == 1 + ExprWeight(l);
          VisitStmt(If(if isOr then Un(Not, l) else l, Do(r), None));
          relaxed := false;
          Provide(Nothing);
        case Cond(c, l, r) =>
          assert StmtWeight(Do(l)) == 1 + ExprWeight(l) && StmtWeight(Do(r)) == 1 + ExprWeight(r);
          VisitStmt(If(c, Do(l), Some(Do(r))));
          relaxed := false;
          Provide(Nothing);
        case Bin(_, l, r) =>
          PairWeight(Do(l), Do(r));
          PairReduced(fs, focal, l, r);
          VisitStmt(Block([Do(l), Do(r)]));
          relaxed := false;
          Provide(Nothing);
        case Call(f, args) =>
          if args != [] && SideEffectFreeWrt(UseCallee(fs, f), focal) {
            VisitParts(args);
          } else {
            Provide(Expression(e));
          }
        case Print(stream, args) =>
          if !stream && args != [] {
            VisitParts(args);
          } else {
            Provide(Expression(e));
          }
        case _ => Provide(Expression(e));
      }
    }

    /** Arguments whose values are not needed become statements in a block. */
    method VisitParts(args: seq<Expr>)
      modifies this
      ensures targets == old(targets) + [Statement(Block(ReduceArgs(fs, focal, args))), Nothing]
      ensures !relaxed
      decreases 2 + ArgsWeight(args), 0
    {
      var parts: seq<Stmt> := [];
      for i := 0 to |args|
        invariant parts == seq(i, j requires 0 <= j < i => Do(args[j]))
      {
        parts := parts + [Do(args[i])];
      }
      PartsWeight(args, parts);
      PartsReduced(fs, focal, args, parts);
      VisitStmt(Block(parts));
      relaxed := false;
      Provide(Nothing);
    }
  }

  lemma ReduceSeqStep(fs: map<string, Func>, focal: set<Var>, ss: seq<Stmt>, i: nat, was: seq<Stmt>, r: Stmt)
    requires i < |ss| && |was| == i && r == ReduceStmt(fs, focal, ss[i])
    ensures was + ReduceSeq(fs, focal, ss[i..]) == (was + [r]) + ReduceSeq(fs, focal, ss[i + 1..])
    ensures was + [r] == ss[..i + 1] <==> was == ss[..i] && r == ss[i]
  {
    hide ReduceStmt;
    assert ss[i..][0] == ss[i] && ss[i..][1..] == ss[i + 1..];
    assert ss[..i + 1] == ss[..i] + [ss[i]];
    if was + [r] == ss[..i + 1] { assert (was + [r])[..i] == was && (was + [r])[i] == r; }
  }

  lemma ReduceSeqEnd(fs: map<string, Func>, focal: set<Var>, ss: seq<Stmt>, out: seq<Stmt>)
    ensures ss[..|ss|] == ss && out + ReduceSeq(fs, focal, ss[|ss|..]) == out
  {
  }

  lemma {:induction false} ElementWeight(ss: seq<Stmt>, i: nat)
    requires i < |ss|
    ensures StmtWeight(ss[i]) <= SeqWeight(ss)
    decreases ss
  {
    if i > 0 { ElementWeight(ss[1..], i - 1); }
  }

  lemma {:induction false} PartsWeight(args: seq<Expr>, parts: seq<Stmt>)
    requires |parts| == |args| && forall j | 0 <= j < |args| :: parts[j] == Do(args[j])
    ensures SeqWeight(parts) == ArgsWeight(args)
    decreases args
  {
    if args != [] { PartsWeight(args[1..], parts[1..]); }
  }

  lemma {:induction false} PartsReduced(fs: map<string, Func>, focal: set<Var>, args: seq<Expr>, parts: seq<Stmt>)
    requires |parts| == |args| && forall j | 0 <= j < |args| :: parts[j] == Do(args[j])
    ensures ReduceSeq(fs, focal, parts) == ReduceArgs(fs, focal, args)
    decreases args
  {
    if args != [] { PartsReduced(fs, focal, args[1..], parts[1..]); }
  }

  lemma PairReduced(fs: map<string, Func>, focal: set<Var>, l: Expr, r: Expr)
    ensures ReduceSeq(fs, focal, [Do(l), Do(r)]) == [ReduceDo(fs, focal, l), ReduceDo(fs, focal, r)]
  {
    assert [Do(l), Do(r)][1..] == [Do(r)] && [Do(r)][1..] == [];
    assert ReduceSeq(fs, focal, [Do(r)]) == [ReduceDo(fs, focal, r)];
  }
}
