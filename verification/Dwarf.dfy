/**
 The DWARF expression stack machine of section 2.5.1 of DWARF 4, and the C assignments
 to temporaries s0, s1, ... that the translator emits for it.
 */
module Dwarf {
  import opened Basics

  /** A stack entry: one target word. */
  type Word = int

  datatype UnOp = Abs | Neg | Not
  datatype BinOp = And | Minus | Mod | Mul | Or | Plus | Shl | Shr | Xor | Le | Ge | Eq | Lt | Gt | Ne | Shra | Div

  datatype Op =
    | Nop | Dup | Drop | Pick(index: nat) | Over | Swap | Rot
    | Skip(distance: int)
    | Deref | DerefSize(size: nat) | XDeref | XDerefSize(size: nat)
    | Addr(address: int) | Const(value: Word)
    | Unary(un: UnOp) | Binary(bin: BinOp) | PlusUconst(addend: nat)
    | Breg(reg: nat, off: int) | Fbreg(off: int) | Reg(reg: nat)
    | Piece(bytes: nat) | StackValue | ImplicitValue(block: seq<int>)
    | Unsupported

  /** An operation and its byte offset in the expression. */
  datatype Instr = Instr(offset: nat, op: Op)

  /** How many bytes an operation may take (section 7.7.1 of DWARF 4): one for its code, and its
      operands, some of which have encodings of variable length. */
  predicate Takes(op: Op, bytes: int) {
    match op
    case Pick(_) | DerefSize(_) | XDerefSize(_) => bytes == 2
    case Skip(_) => bytes == 3
    case Addr(_) => bytes == 5 || bytes == 9
    case PlusUconst(_) | Breg(_, _) | Fbreg(_) | Piece(_) => bytes >= 2
    case ImplicitValue(block) => bytes >= 2 + |block|
    case Const(_) | Reg(_) | Unsupported => bytes >= 1
    case _ => bytes == 1
  }

  const OFFSETS: int := 0x1_0000_0000_0000_0000

  /** The operations lie one after the other, at 64-bit offsets. */
  predicate Encoded(code: seq<Instr>) {
    && (forall i | 0 <= i < |code| :: code[i].offset < OFFSETS)
    && (forall i | 0 <= i && i + 1 < |code| :: Takes(code[i].op, code[i + 1].offset - code[i].offset))
  }

  /** Where control goes from a skip: that many bytes on from the operation after it. */
  function Jump(code: seq<Instr>, i: nat): Option<int>
    requires i < |code| && code[i].op.Skip?
  {
    if i + 1 < |code| then Some((code[i + 1].offset + code[i].op.distance) % OFFSETS) else None
  }

  /** What the run-time supplies: registers, memory, the frame base, the input address, the
      load-time addresses, and what the C operators compute on a word. */
  datatype Env = Env(
    reg: nat -> Word,
    memory: (nat, Word) -> Word,
    space: (nat, Word, Word) -> Word,
    frameBase: Word,
    addr: Word,
    relocate: int -> Word,
    unary: (UnOp, Word) -> Word,
    binary: (BinOp, Word, Word) -> Word)

  /** Stands for `sizeof (void *)`. */
  const POINTER_SIZE: nat := 8

  // ----- the stack machine; the top of the stack is the last element -----

  function Top(stack: seq<Word>, k: nat): Word
    requires k < |stack|
  {
    stack[|stack| - 1 - k]
  }

  function Below(stack: seq<Word>, k: nat): seq<Word>
    requires k <= |stack|
  {
    stack[..|stack| - k]
  }

  /** One operation of the machine; None is an underflow, or an operation that is not a stack
      operation.  A register name contributes the register's contents. */
  function Step(env: Env, op: Op, stack: seq<Word>): Option<seq<Word>> {
    match op
    case Nop => Some(stack)
    case Dup => if |stack| < 1 then None else Some(stack + [Top(stack, 0)])
    case Drop => if |stack| < 1 then None else Some(Below(stack, 1))
    case Pick(k) => if |stack| <= k then None else Some(stack + [Top(stack, k)])
    case Over => if |stack| < 2 then None else Some(stack + [Top(stack, 1)])
    case Swap => if |stack| < 2 then None else Some(Below(stack, 2) + [Top(stack, 0), Top(stack, 1)])
    case Rot => if |stack| < 3 then None else Some(Below(stack, 3) + [Top(stack, 0), Top(stack, 2), Top(stack, 1)])
    case Deref => if |stack| < 1 then None else Some(Below(stack, 1) + [env.memory(POINTER_SIZE, Top(stack, 0))])
    case DerefSize(n) => if |stack| < 1 then None else Some(Below(stack, 1) + [env.memory(n, Top(stack, 0))])
    case XDeref => if |stack| < 2 then None else Some(Below(stack, 2) + [env.space(POINTER_SIZE, Top(stack, 0), Top(stack, 1))])
    case XDerefSize(n) => if |stack| < 2 then None else Some(Below(stack, 2) + [env.space(n, Top(stack, 0), Top(stack, 1))])
    case Addr(a) => Some(stack + [env.relocate(a)])
    case Const(v) => Some(stack + [v])
    case Unary(u) => if |stack| < 1 then None else Some(Below(stack, 1) + [env.unary(u, Top(stack, 0))])
    case Binary(b) => if |stack| < 2 then None else Some(Below(stack, 2) + [env.binary(b, Top(stack, 1), Top(stack, 0))])
    case PlusUconst(c) => if |stack| < 1 then None else Some(Below(stack, 1) + [env.binary(Plus, Top(stack, 0), c)])
    case Breg(r, o) => Some(stack + [env.binary(Plus, env.reg(r), o)])
    case Fbreg(o) => Some(stack + [env.binary(Plus, env.frameBase, o)])
    case Reg(r) => Some(stack + [env.reg(r)])
    case _ => None
  }

  // ----- the emitted C -----

  datatype CExpr =
    | CSlot(i: int)
    | CConst(w: Word)
    | CAddress(a: int)
    | CInput
    | CRegister(r: nat)
    | CRegisterPlus(r: nat, o: int)
    | CFramePlus(o: int)
    | CDeref(size: nat, i: int)
    | CXDeref(size: nat, i: int, space: int)
    | CUnary(u: UnOp, i: int)
    | CBinary(b: BinOp, i: int, j: int)
    | CAdd(i: int, c: nat)

  /** `s<slot> = <expression>;`, or the comment that marks a dropped entry. */
  datatype CLine = CAssign(slot: int, e: CExpr) | CDropped(slot: int)

  /** The temporaries that have been assigned, with their values. */
  type Slots = map<int, Word>

  function Reads(e: CExpr): set<int> {
    match e
    case CSlot(i) => {i}
    case CDeref(_, i) => {i}
    case CXDeref(_, i, s) => {i, s}
    case CUnary(_, i) => {i}
    case CBinary(_, i, j) => {i, j}
    case CAdd(i, _) => {i}
    case _ => {}
  }

  function Value(env: Env, slots: Slots, e: CExpr): Word
    requires Reads(e) <= slots.Keys
  {
    match e
    case CSlot(i) => slots[i]
    case CConst(w) => w
    case CAddress(a) => env.relocate(a)
    case CInput => env.addr
    case CRegister(r) => env.reg(r)
    case CRegisterPlus(r, o) => env.binary(Plus, env.reg(r), o)
    case CFramePlus(o) => env.binary(Plus, env.frameBase, o)
    case CDeref(n, i) => env.memory(n, slots[i])
    case CXDeref(n, i, s) => env.space(n, slots[i], slots[s])
    case CUnary(u, i) => env.unary(u, slots[i])
    case CBinary(b, i, j) => env.binary(b, slots[i], slots[j])
    case CAdd(i, c) => env.binary(Plus, slots[i], c)
  }

  /** One line; None if it reads a temporary never assigned. */
  function RunLine(env: Env, slots: Slots, line: CLine): Option<Slots> {
    match line
    case CDropped(_) => Some(slots)
    case CAssign(i, e) => if Reads(e) <= slots.Keys then Some(slots[i := Value(env, slots, e)]) else None
  }

  /** The lines in turn. */
  function RunC(env: Env, slots: Slots, program: seq<CLine>): Option<Slots>
    decreases program
  {
    if program == [] then Some(slots)
    else match RunLine(env, slots, program[0]) case None => None case Some(next) => RunC(env, next, program[1..])
  }

  lemma {:induction false} RunCAppend(env: Env, slots: Slots, xs: seq<CLine>, ys: seq<CLine>)
    ensures RunC(env, slots, xs + ys) ==
            match RunC(env, slots, xs) case None => None case Some(mid) => RunC(env, mid, ys)
    decreases xs
  {
    if xs == [] {
      assert xs + ys == ys;
    } else {
      assert (xs + ys)[1..] == xs[1..] + ys;
      var r := RunLine(env, slots, xs[0]);
      if r.Some? { RunCAppend(env, r.value, xs[1..], ys); }
    }
  }

  lemma RunCSnoc(env: Env, slots: Slots, xs: seq<CLine>, line: CLine)
    ensures RunC(env, slots, xs + [line]) ==
            match RunC(env, slots, xs) case None => None case Some(mid) => RunLine(env, mid, line)
  {
    RunCAppend(env, slots, xs, [line]);
    assert [line][1..] == [];
    match RunC(env, slots, xs) {
      case None =>
      case Some(mid) =>
        match RunLine(env, mid, line) { case None => case Some(end) => assert RunC(env, end, []) == Some(end); }
    }
  }
}
