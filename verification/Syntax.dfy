/**
 The script language the optimizer rewrites: expressions, statements, functions,
 probes and the session that holds them.
 */
module Syntax {
  import opened Basics
  import opened Arith64

  /** A run-time value: a number or a string. */
  datatype Val = Num(n: Word) | Str(s: string)

  /** A variable declaration, the object a symbol refers to.  `owner` is the function or
      probe that declares a local or a formal parameter.  `init` is what the variable holds
      before anything is assigned to it. */
  datatype Var =
    | Global(name: string, init: Val)
    | Local(owner: string, name: string, init: Val)

  /** The binary operators that evaluate both operands: arithmetic, comparison and string
      concatenation.  `||` and `&&` are Logic. */
  datatype Op2 = Arith(bin: BinOp) | Test(cmp: CmpOp) | Concat

  /** `=` and the read-modify-write assignments such as `+=` and `.=`. */
  datatype AssignOp = Set | Modify(op: Op2)

  datatype Expr =
    | Lit(val: Val)
    | Sym(v: Var)
    | Bin(op: Op2, l: Expr, r: Expr)
    | Logic(isOr: bool, l: Expr, r: Expr)
    | Un(uop: UnOp, e: Expr)
    | Cond(c: Expr, l: Expr, r: Expr)
    | Assign(v: Var, how: AssignOp, e: Expr)
    | Crement(v: Var, up: bool, post: bool)
    | Call(f: string, args: seq<Expr>)
    | Print(stream: bool, args: seq<Expr>)

  datatype Stmt =
    | Null
    | Do(e: Expr)
    | Block(body: seq<Stmt>)
    | If(c: Expr, thn: Stmt, els: Option<Stmt>)
    | For(init: Option<Expr>, c: Expr, incr: Option<Expr>, loop: Stmt)
    | Return(e: Expr)
    | Break
    | Continue
    | Next

  /** `init` is what a call yields when the body ends without `return`. */
  datatype Func = Func(formals: seq<Var>, locals: seq<Var>, body: Stmt, init: Val)

  datatype Probe = Probe(cond: Option<Expr>, locals: seq<Var>, body: Stmt)

  /** `order` is the order in which the function map is walked. */
  datatype Program = Program(
    globals: seq<Var>,
    funcs: map<string, Func>,
    order: seq<string>,
    probes: seq<Probe>)

}
