/**
 What a script does when it runs.

 Evaluation is a total function with fuel: one unit pays for one level of function
 call or one further loop iteration.  Stuck stands for a run-time fault (division by zero,
 an operand of the wrong type, an undeclared variable, a function that is not there) as
 well as for fuel that ran out; FuelSuffices says that more fuel never changes the result
 of a run that ended.
 */
module Semantics {
  import opened Basics
  import opened Arith64
  import opened Syntax

  datatype State = State(g: map<Var, Val>, l: map<Var, Val>, out: string)

  datatype EvalResult = EStuck | EDone(v: Val, st: State)
  datatype ArgsResult = AStuck | ADone(vs: seq<Val>, st: State)
  datatype Signal = Normal | Broke | Continued | Returned(v: Val) | Nexted
  datatype ExecResult = SStuck | SDone(sig: Signal, st: State)

  // ----- values -----

  function Truth(v: Val): Option<bool> {
    match v case Num(n) => Some(n != 0) case Str(_) => None
  }

  function Flag(b: bool): Val { Num(Bool(b)) }

  function UnVal(op: UnOp, a: Val): Option<Val> {
    match a case Num(n) => Some(Num(RunUn(op, n))) case Str(_) => None
  }

  /** Like strcmp: negative, zero or positive. */
  function Compare(a: string, b: string): int {
    if a == [] && b == [] then 0
    else if a == [] then -1
    else if b == [] then 1
    else if a[0] < b[0] then -1
    else if a[0] > b[0] then 1
    else Compare(a[1..], b[1..])
  }

  /** `a op b`, or None for a fault. */
  function Apply(op: Op2, a: Val, b: Val): Option<Val> {
    match (op, a, b)
    case (Arith(o), Num(x), Num(y)) => (match RunBin(o, x, y) case Some(w) => Some(Num(w)) case None => None)
    case (Test(o), Num(x), Num(y)) => Some(Flag(RunCmp(o, x, y)))
    case (Test(o), Str(x), Str(y)) => Some(Flag(RunCmp(o, Compare(x, y), 0)))
    case (Concat, Str(x), Str(y)) => Some(Str(x + y))
    case _ => None
  }

  /** The new value of a variable that holds a and is assigned b. */
  function AssignVal(how: AssignOp, a: Val, b: Val): Option<Val> {
    match how case Set => Some(b) case Modify(op) => Apply(op, a, b)
  }

  /** The new value of a variable that `++` or `--` is applied to. */
  function Bump(up: bool, a: Val): Val {
    match a case Num(n) => Num(Wrap(if up then n + 1 else n - 1)) case Str(_) => a
  }

  function Digits(n: nat): string {
    if n < 10 then [(n as char) + '0'] else Digits(n / 10) + [((n % 10) as char) + '0']
  }

  function Render(v: Val): string {
    match v case Num(n) => if n < 0 then "-" + Digits(-(n as int)) else Digits(n) case Str(s) => s
  }

  /** What print, and sprint, make of their arguments. */
  function Format(vs: seq<Val>): string {
    if vs == [] then "" else Render(vs[0]) + Format(vs[1..])
  }

  // ----- variables -----

  predicate Declared(st: State, v: Var) { if v.Global? then v in st.g else v in st.l }

  function Fetch(st: State, v: Var): Val
    requires Declared(st, v)
  {
    if v.Global? then st.g[v] else st.l[v]
  }

  function Store(st: State, v: Var, x: Val): (r: State)
    requires Declared(st, v)
    ensures r.g.Keys == st.g.Keys && r.l.Keys == st.l.Keys && r.out == st.out
    ensures forall w :: Declared(r, w) == Declared(st, w)
    ensures forall w | Declared(st, w) :: Fetch(r, w) == if w == v then x else Fetch(st, w)
  {
    if v.Global? then st.(g := st.g[v := x]) else st.(l := st.l[v := x])
  }

  function SetOf(vs: seq<Var>): set<Var> { set v | v in vs }

  /** Variables as they are before the first assignment. */
  function Initial(vs: seq<Var>): map<Var, Val> { map v | v in vs :: v.init }

  function Bind(m: map<Var, Val>, formals: seq<Var>, vs: seq<Val>): (r: map<Var, Val>)
    requires |formals| == |vs|
    ensures r.Keys == m.Keys + SetOf(formals)
    decreases formals
  {
    if formals == [] then m
    else
      var r := Bind(m[formals[0] := vs[0]], formals[1..], vs[1..]);
      assert SetOf(formals) == {formals[0]} + SetOf(formals[1..]);
      r
  }

  // ----- expressions -----

  function Eval(fs: map<string, Func>, n: nat, st: State, e: Expr): EvalResult
    decreases n, e, 1
  {
    match e
    case Lit(v) => EDone(v, st)
    case Sym(v) => if Declared(st, v) then EDone(Fetch(st, v), st) else EStuck
    case Bin(op, l, r) =>
      (match Eval(fs, n, st, l)
       case EStuck => EStuck
       case EDone(a, st1) =>
         match Eval(fs, n, st1, r)
         case EStuck => EStuck
         case EDone(b, st2) => Finish(Apply(op, a, b), st2))
    case Logic(isOr, l, r) =>
      (match Eval(fs, n, st, l)
       case EStuck => EStuck
       case EDone(a, st1) =>
         match Truth(a)
         case None => EStuck
         case Some(t) => if t == isOr then EDone(Flag(t), st1) else AsFlag(Eval(fs, n, st1, r)))
    case Un(op, x) =>
      (match Eval(fs, n, st, x)
       case EStuck => EStuck
       case EDone(a, st1) => Finish(UnVal(op, a), st1))
    case Cond(c, l, r) =>
      (match Eval(fs, n, st, c)
       case EStuck => EStuck
       case EDone(a, st1) =>
         match Truth(a)
         case None => EStuck
         case Some(t) => if t then Eval(fs, n, st1, l) else Eval(fs, n, st1, r))
    case Assign(v, how, x) =>
      (match Eval(fs, n, st, x)
       case EStuck => EStuck
       case EDone(b, st1) =>
         if !Declared(st1, v) then EStuck else
         match AssignVal(how, Fetch(st1, v), b)
         case None => EStuck
         case Some(w) => EDone(w, Store(st1, v, w)))
    case Crement(v, up, post) =>
      if !Declared(st, v) then EStuck else
      var a := Fetch(st, v);
      EDone(if post then a else Bump(up, a), Store(st, v, Bump(up, a)))
    case Call(f, args) =>
      (match EvalArgs(fs, n, st, args)
       case AStuck => EStuck
       case ADone(vs, st1) =>
         if n == 0 || f !in fs || |fs[f].formals| != |vs| then EStuck else
         Resume(fs[f], st1, Exec(fs, n - 1, Enter(fs[f], st1, vs), fs[f].body)))
    case Print(stream, args) =>
      (match EvalArgs(fs, n, st, args)
       case AStuck => EStuck
       case ADone(vs, st1) =>
         if stream then EDone(Num(0), st1.(out := st1.out + Format(vs)))
         else EDone(Str(Format(vs)), st1))
  }

  function Finish(v: Option<Val>, st: State): EvalResult {
    match v case None => EStuck case Some(x) => EDone(x, st)
  }

  /** The 0 or 1 a logical operator makes of its right operand. */
  function AsFlag(r: EvalResult): EvalResult {
    match r
    case EStuck => EStuck
    case EDone(v, st) =>
      match Truth(v) case None => EStuck case Some(t) => EDone(Flag(t), st)
  }

  /** The state a function body starts in: the globals, and a frame of its own. */
  function Enter(fd: Func, st: State, vs: seq<Val>): State
    requires |fd.formals| == |vs|
  {
    st.(l := Bind(Initial(fd.locals), fd.formals, vs))
  }

  /** Back in the caller: its own frame again, with the callee's globals and output. */
  function Resume(fd: Func, caller: State, r: ExecResult): EvalResult {
    match r
    case SDone(Normal, st) => EDone(fd.init, st.(l := caller.l))
    case SDone(Returned(v), st) => EDone(v, st.(l := caller.l))
    case _ => EStuck
  }

  function EvalArgs(fs: map<string, Func>, n: nat, st: State, args: seq<Expr>): (r: ArgsResult)
    decreases n, args, 0
    ensures r.ADone? ==> |r.vs| == |args|
  {
    if args == [] then ADone([], st) else
    match Eval(fs, n, st, args[0])
    case EStuck => AStuck
    case EDone(v, st1) =>
      match EvalArgs(fs, n, st1, args[1..])
      case AStuck => AStuck
      case ADone(vs, st2) => ADone([v] + vs, st2)
  }

  // ----- statements -----

  function Exec(fs: map<string, Func>, n: nat, st: State, s: Stmt): ExecResult
    decreases n, s, 2
  {
    match s
    case Null => SDone(Normal, st)
    case Do(e) => (match Eval(fs, n, st, e) case EStuck => SStuck case EDone(_, st1) => SDone(Normal, st1))
    case Block(body) => ExecSeq(fs, n, st, body)
    case If(c, thn, els) =>
      (match Eval(fs, n, st, c)
       case EStuck => SStuck
       case EDone(a, st1) =>
         match Truth(a)
         case None => SStuck
         case Some(t) =>
           if t then Exec(fs, n, st1, thn)
           else if els.Some? then Exec(fs, n, st1, els.value)
           else SDone(Normal, st1))
    case For(init, c, incr, loop) =>
      (match EvalOpt(fs, n, st, init)
       case EStuck => SStuck
       case EDone(_, st1) => Loop(fs, n, st1, s))
    case Return(e) => (match Eval(fs, n, st, e) case EStuck => SStuck case EDone(v, st1) => SDone(Returned(v), st1))
    case Break => SDone(Broke, st)
    case Continue => SDone(Continued, st)
    case Next => SDone(Nexted, st)
  }

  /** The initialisation or increment of a loop, which may be absent. */
  function EvalOpt(fs: map<string, Func>, n: nat, st: State, e: Option<Expr>): EvalResult
    decreases n, e, 2
  {
    match e case None => EDone(Num(0), st) case Some(x) => Eval(fs, n, st, x)
  }

  function ExecSeq(fs: map<string, Func>, n: nat, st: State, ss: seq<Stmt>): ExecResult
    decreases n, ss, 1
  {
    if ss == [] then SDone(Normal, st) else
    match Exec(fs, n, st, ss[0])
    case SStuck => SStuck
    case SDone(sig, st1) => if sig == Normal then ExecSeq(fs, n, st1, ss[1..]) else SDone(sig, st1)
  }

  /** A for loop from the test of its condition on. */
  function Loop(fs: map<string, Func>, n: nat, st: State, s: Stmt): ExecResult
    requires s.For?
    decreases n, s, 1
  {
    match Eval(fs, n, st, s.c)
    case EStuck => SStuck
    case EDone(a, st1) =>
      match Truth(a)
      case None => SStuck
      case Some(t) =>
        if !t then SDone(Normal, st1) else
        match Exec(fs, n, st1, s.loop)
        case SStuck => SStuck
        case SDone(sig, st2) =>
          if sig == Broke then SDone(Normal, st2)
          else if sig != Normal && sig != Continued then SDone(sig, st2)
          else
            match EvalOpt(fs, n, st2, s.incr)
            case EStuck => SStuck
            case EDone(_, st3) => if n == 0 then SStuck else Loop(fs, n - 1, st3, s)
  }

  // ----- whole runs -----

  /** What outlives a probe: the globals and the output. */
  datatype Outside = Outside(g: map<Var, Val>, out: string)
  datatype RunResult = RStuck | RDone(o: Outside)

  /** One firing of a probe: its condition over the globals, then its body in a new frame. */
  function Fire(fs: map<string, Func>, n: nat, o: Outside, p: Probe): RunResult {
    match Eval(fs, n, State(o.g, map[], o.out), Guard(p))
    case EStuck => RStuck
    case EDone(a, st) =>
      match Truth(a)
      case None => RStuck
      case Some(t) =>
        if !t then RDone(Outside(st.g, st.out)) else
        match Exec(fs, n, State(st.g, Initial(p.locals), st.out), p.body)
        case SDone(sig, st1) =>
          if sig == Normal || sig == Nexted then RDone(Outside(st1.g, st1.out)) else RStuck
        case SStuck => RStuck
  }

  function Guard(p: Probe): Expr { if p.cond.Some? then p.cond.value else Lit(Num(1)) }

  /** The session: the probes named by `events` fire one after the other. */
  function Run(p: Program, n: nat, o: Outside, events: seq<nat>): RunResult
    decreases |events|
  {
    if events == [] then RDone(o)
    else if events[0] >= |p.probes| then RStuck
    else
      match Fire(p.funcs, n, o, p.probes[events[0]])
      case RStuck => RStuck
      case RDone(o1) => Run(p, n, o1, events[1..])
  }

  /** A session from its start: initialised globals and no output. */
  function RunSession(p: Program, n: nat, events: seq<nat>): RunResult {
    Run(p, n, Outside(Initial(p.globals), ""), events)
  }

  // ----- fuel -----

  lemma {:induction false} FuelSufficesEval(fs: map<string, Func>, n: nat, m: nat, st: State, e: Expr)
    requires n <= m && Eval(fs, n, st, e).EDone?
    ensures Eval(fs, m, st, e) == Eval(fs, n, st, e)
    decreases n, e, 1
  {
    hide Apply, UnVal, AssignVal, Bump, Format;
    match e
    case Lit(_) =>
    case Sym(_) =>
    case Crement(_, _, _) =>
    case Un(_, x) => FuelSufficesEval(fs, n, m, st, x);
    case Assign(_, _, x) => FuelSufficesEval(fs, n, m, st, x);
    case Cond(c, l, r) =>
      FuelSufficesEval(fs, n, m, st, c);
      var st1 := Eval(fs, n, st, c).st;
      if Truth(Eval(fs, n, st, c).v).value {
        FuelSufficesEval(fs, n, m, st1, l);
      } else {
        FuelSufficesEval(fs, n, m, st1, r);
      }
    case Call(f, args) =>
      FuelSufficesArgs(fs, n, m, st, args);
      var a := EvalArgs(fs, n, st, args);
      FuelSufficesExec(fs, n - 1, m - 1, Enter(fs[f], a.st, a.vs), fs[f].body);
    case Print(_, args) => FuelSufficesArgs(fs, n, m, st, args);
    case Bin(_, l, r) =>
      FuelSufficesEval(fs, n, m, st, l);
      FuelSufficesEval(fs, n, m, Eval(fs, n, st, l).st, r);
    case Logic(isOr, l, r) =>
      FuelSufficesEval(fs, n, m, st, l);
      var a := Eval(fs, n, st, l);
      if Truth(a.v).value != isOr { FuelSufficesEval(fs, n, m, a.st, r); }
  }

  lemma {:induction false} FuelSufficesArgs(fs: map<string, Func>, n: nat, m: nat, st: State, args: seq<Expr>)
    requires n <= m && EvalArgs(fs, n, st, args).ADone?
    ensures EvalArgs(fs, m, st, args) == EvalArgs(fs, n, st, args)
    decreases n, args, 0
  {
    if args != [] {
      FuelSufficesEval(fs, n, m, st, args[0]);
      FuelSufficesArgs(fs, n, m, Eval(fs, n, st, args[0]).st, args[1..]);
    }
  }

  lemma {:induction false} FuelSufficesOpt(fs: map<string, Func>, n: nat, m: nat, st: State, e: Option<Expr>)
    requires n <= m && EvalOpt(fs, n, st, e).EDone?
    ensures EvalOpt(fs, m, st, e) == EvalOpt(fs, n, st, e)
    decreases n, e, 2
  {
    if e.Some? { FuelSufficesEval(fs, n, m, st, e.value); }
  }

  lemma {:induction false} FuelSufficesExec(fs: map<string, Func>, n: nat, m: nat, st: State, s: Stmt)
    requires n <= m && Exec(fs, n, st, s).SDone?
    ensures Exec(fs, m, st, s) == Exec(fs, n, st, s)
    decreases n, s, 2
  {
    match s
    case Do(e) => FuelSufficesEval(fs, n, m, st, e);
    case Return(e) => FuelSufficesEval(fs, n, m, st, e);
    case Block(body) => FuelSufficesSeq(fs, n, m, st, body);
    case If(c, thn, els) =>
      FuelSufficesEval(fs, n, m, st, c);
      var st1 := Eval(fs, n, st, c).st;
      if Truth(Eval(fs, n, st, c).v).value {
        FuelSufficesExec(fs, n, m, st1, thn);
      } else if els.Some? {
        FuelSufficesExec(fs, n, m, st1, els.value);
      }
    case For(init, _, _, _) =>
      FuelSufficesOpt(fs, n, m, st, init);
      FuelSufficesLoop(fs, n, m, EvalOpt(fs, n, st, init).st, s);
    case _ =>
  }

  lemma {:induction false} FuelSufficesSeq(fs: map<string, Func>, n: nat, m: nat, st: State, ss: seq<Stmt>)
    requires n <= m && ExecSeq(fs, n, st, ss).SDone?
    ensures ExecSeq(fs, m, st, ss) == ExecSeq(fs, n, st, ss)
    decreases n, ss, 1
  {
    if ss != [] {
      FuelSufficesExec(fs, n, m, st, ss[0]);
      var r := Exec(fs, n, st, ss[0]);
      if r.sig == Normal { FuelSufficesSeq(fs, n, m, r.st, ss[1..]); }
    }
  }

  lemma {:induction false} FuelSufficesLoop(fs: map<string, Func>, n: nat, m: nat, st: State, s: Stmt)
    requires s.For?
    requires n <= m && Loop(fs, n, st, s).SDone?
    ensures Loop(fs, m, st, s) == Loop(fs, n, st, s)
    decreases n, s, 1
  {
    FuelSufficesEval(fs, n, m, st, s.c);
    var c := Eval(fs, n, st, s.c);
    if Truth(c.v).value {
      FuelSufficesExec(fs, n, m, c.st, s.loop);
      var b := Exec(fs, n, c.st, s.loop);
      if b.sig == Normal || b.sig == Continued {
        FuelSufficesOpt(fs, n, m, b.st, s.incr);
        FuelSufficesLoop(fs, n - 1, m - 1, EvalOpt(fs, n, b.st, s.incr).st, s);
      }
    }
  }

  lemma {:induction false} FuelSuffices(p: Program, n: nat, m: nat, o: Outside, events: seq<nat>)
    requires n <= m && Run(p, n, o, events).RDone?
    ensures Run(p, m, o, events) == Run(p, n, o, events)
    decreases |events|
  {
    if events != [] {
      var pr := p.probes[events[0]];
      var st := State(o.g, map[], o.out);
      FuelSufficesEval(p.funcs, n, m, st, Guard(pr));
      var c := Eval(p.funcs, n, st, Guard(pr));
      if Truth(c.v).value {
        FuelSufficesExec(p.funcs, n, m, State(c.st.g, Initial(pr.locals), c.st.out), pr.body);
      }
      FuelSuffices(p, n, m, Fire(p.funcs, n, o, pr).o, events[1..]);
    }
  }
}
