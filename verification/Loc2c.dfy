/**
 The translator from DWARF location expressions to C, and its correctness: running the
 emitted assignments reproduces the stack of the DWARF machine after every operation.
 */
module Loc2c {
  import opened Basics
  import opened Dwarf

  datatype Result<+T> = Ok(value: T) | Die(index: nat)

  /** What the expression is relative to. */
  datatype Input = NoInput | AddressInput | ValueInput | RegisterInput(r: nat)

  /** `frameBase`: DW_OP_fbreg is allowed here.  `attribute`: DW_OP_implicit_value is. */
  datatype Config = Config(input: Input, frameBase: bool, attribute: bool)

  /** The translator's counters and flags while it works on one piece.  `reg` is the register
      name waiting to be fetched; `code` is the pending program. */
  datatype Trans = Trans(
    depth: nat, max: nat, reg: Option<nat>, value: bool, implicit: Option<seq<int>>, deref: bool, code: seq<CLine>)

  function Deepen(t: Trans): Trans { if t.depth == t.max then t.(max := t.max + 1) else t }

  function PushT(t: Trans, e: CExpr): Trans {
    Deepen(t).(code := t.code + [CAssign(t.depth, e)], depth := t.depth + 1)
  }

  /** The slot of the entry taken off the stack.  An empty stack with a register name waiting
      yields that register, fetched into the slot at the current depth. */
  function PopT(t: Trans): Option<(Trans, int)> {
    if t.depth > 0 then Some((t.(depth := t.depth - 1), t.depth - 1))
    else if t.reg.Some? then Some((Deepen(t).(code := t.code + [CAssign(t.depth, CRegister(t.reg.value))], reg := None), t.depth))
    else None
  }

  function Reset(config: Config, max: nat): Trans {
    var t := Trans(0, max, None, false, None, false, []);
    match config.input
    case NoInput => t
    case AddressInput => PushT(t, CInput)
    case ValueInput => PushT(t, CInput).(value := true)
    case RegisterInput(r) => t.(reg := Some(r))
  }

  /** The location of one piece: an address or value computed by a program that leaves it in s0
      and uses `slots` temporaries, a register name, or constant bytes. */
  datatype Loc =
    | AddressLoc(code: seq<CLine>, slots: nat, deref: bool)
    | ValueLoc(code: seq<CLine>, slots: nat, deref: bool)
    | RegisterLoc(r: nat)
    | ConstantLoc(block: seq<int>)

  function Finish(t: Trans): Option<Loc> {
    if t.depth > 1 then None
    else if t.depth == 1 then
      if t.implicit.Some? then Some(ConstantLoc(t.implicit.value))
      else if t.value then Some(ValueLoc(t.code, t.max, t.deref))
      else Some(AddressLoc(t.code, t.max, t.deref))
    else if t.reg.None? || t.code != [] then None
    else Some(RegisterLoc(t.reg.value))
  }

  /** What is computed from one popped entry, or from two. */
  datatype Use1 = Fetched(size: nat) | Operated(u: UnOp) | Added(c: nat)
  datatype Use2 = SpaceFetched(size: nat) | Combined(b: BinOp)

  function Emit1(m: Use1, i: int): CExpr {
    match m case Fetched(n) => CDeref(n, i) case Operated(u) => CUnary(u, i) case Added(c) => CAdd(i, c)
  }

  function Emit2(m: Use2, top: int, next: int): CExpr {
    match m case SpaceFetched(n) => CXDeref(n, top, next) case Combined(b) => CBinary(b, next, top)
  }

  function Pop1(t: Trans, m: Use1): Option<Trans> {
    match PopT(t) case None => None case Some((t1, i)) => Some(PushT(t1, Emit1(m, i)))
  }

  /** Two entries: the first one popped was the top of the stack. */
  function Pop2(t: Trans, m: Use2): Option<Trans> {
    match PopT(t)
    case None => None
    case Some((t1, top)) =>
      match PopT(t1) case None => None case Some((t2, next)) => Some(PushT(t2, Emit2(m, top, next)))
  }

  function MarkDeref(t: Option<Trans>): Option<Trans> {
    match t case None => None case Some(x) => Some(x.(deref := true))
  }

  /** One operation that is neither a skip nor a piece; None is a failure. */
  function StepT(config: Config, t: Trans, op: Op): Option<Trans> {
    if (t.value || t.implicit.Some?) && op != Nop then None
    else match op
    case Nop => Some(t)
    case Dup => if t.depth < 1 then None else Some(PushT(t, CSlot(t.depth - 1)))
    case Drop => (match PopT(t) case None => None case Some((t1, i)) => Some(t1.(code := t1.code + [CDropped(i)])))
    case Pick(k) => if k >= t.depth then None else Some(PushT(t, CSlot((t.depth - 1 - k) % 256)))
    case Over => if 1 >= t.depth then None else Some(PushT(t, CSlot((t.depth - 2) % 256)))
    case Swap =>
      if t.depth < 2 then None
      else
        var d := t.depth;
        Some(Deepen(t).(code := t.code + [CAssign(d, CSlot(d - 1)), CAssign(d - 1, CSlot(d - 2)), CAssign(d - 2, CSlot(d))]))
    case Rot =>
      if t.depth < 3 then None
      else
        var d := t.depth;
        Some(Deepen(t).(code := t.code +
          [CAssign(d, CSlot(d - 1)), CAssign(d - 1, CSlot(d - 2)), CAssign(d - 2, CSlot(d - 3)), CAssign(d - 4, CSlot(d))]))
    case Deref => MarkDeref(Pop1(t, Fetched(POINTER_SIZE)))
    case DerefSize(n) => MarkDeref(Pop1(t, Fetched(n)))
    case XDeref => MarkDeref(Pop2(t, SpaceFetched(POINTER_SIZE)))
    case XDerefSize(n) => MarkDeref(Pop2(t, SpaceFetched(n)))
    case Addr(a) => Some(PushT(t, CAddress(a)))
    case Const(v) => Some(PushT(t, CConst(v)))
    case Unary(u) => Pop1(t, Operated(u))
    case Binary(b) => Pop2(t, Combined(b))
    case PlusUconst(c) => Pop1(t, Added(c))
    case Breg(r, o) => Some(PushT(t, CRegisterPlus(r, o)))
    case Fbreg(o) => if config.frameBase then Some(PushT(t, CFramePlus(o))) else None
    case Reg(r) => Some(t.(reg := Some(r)))
    case StackValue =>
      if t.depth > 1 then None
      else (match PopT(t) case None => None case Some((t1, _)) => Some(Deepen(t1).(depth := t1.depth + 1, value := true)))
    case ImplicitValue(block) =>
      if !config.attribute || t.depth != 0 then None else Some(Deepen(t).(depth := t.depth + 1, implicit := Some(block)))
    case _ => None
  }

  // ----- where the translation follows the stack machine -----

  predicate TwoOperands(op: Op) { op.Binary? || op.XDeref? || op.XDerefSize? }

  /** A register name stands at the bottom of the stack and is not popped as the second operand
      of an operation whose first operand still occupies slot 0; the slot number of a picked
      entry fits in the eight bits it is kept in; and there is no rotation. */
  predicate Tidy(t: Trans, op: Op) {
    && (op.Reg? ==> t.depth == 0 && t.reg.None?)
    && (TwoOperands(op) ==> !(t.depth == 1 && t.reg.Some?))
    && (op.ImplicitValue? ==> t.reg.None?)
    && (op.StackValue? ==> !(t.depth == 1 && t.reg.Some?))
    && (op.Pick? ==> t.depth - 1 - op.index < 256)
    && (op.Over? ==> t.depth - 2 < 256)
    && !op.Rot?
  }

  // ----- invariant of one piece -----

  function LineSlots(line: CLine): set<int> {
    match line case CDropped(_) => {} case CAssign(i, e) => {i} + Reads(e)
  }

  /** All temporaries a program mentions are s0 to s<max-1>. */
  predicate UsesBelow(code: seq<CLine>, max: nat) {
    forall line | line in code :: forall i | i in LineSlots(line) :: 0 <= i < max
  }

  ghost predicate Good(env: Env, t: Trans) {
    && t.depth <= t.max
    && UsesBelow(t.code, t.max)
    && RunC(env, map[], t.code).Some?
    && (t.implicit.None? ==> forall i | 0 <= i < t.depth :: i in RunC(env, map[], t.code).value)
    && (t.implicit.Some? ==> t.depth == 1 && t.reg.None?)
  }

  ghost function SlotsOf(env: Env, t: Trans): Slots
    requires Good(env, t)
  {
    RunC(env, map[], t.code).value
  }

  /** The stack of the machine that a translator state stands for: a waiting register at the
      bottom, then the slots. */
  ghost function Stack(env: Env, t: Trans): seq<Word>
    requires Good(env, t) && t.implicit.None?
  {
    Bottom(env, t.reg) + Column(SlotsOf(env, t), t.depth)
  }

  function Bottom(env: Env, reg: Option<nat>): seq<Word> { match reg case Some(r) => [env.reg(r)] case None => [] }

  /** The values of s0 to s<n-1>. */
  function Column(slots: Slots, n: nat): (r: seq<Word>)
    requires forall i | 0 <= i < n :: i in slots
    ensures |r| == n && forall i | 0 <= i < n :: r[i] == slots[i]
  {
    if n == 0 then [] else Column(slots, n - 1) + [slots[n - 1]]
  }

  lemma UsesSnoc(code: seq<CLine>, max: nat, max': nat, line: CLine)
    requires UsesBelow(code, max) && max <= max' && forall i | i in LineSlots(line) :: 0 <= i < max'
    ensures UsesBelow(code + [line], max')
  {
  }

  lemma PushGood(env: Env, t: Trans, e: CExpr)
    requires Good(env, t) && t.implicit.None?
    requires Reads(e) <= SlotsOf(env, t).Keys && forall i | i in Reads(e) :: 0 <= i < t.max
    ensures Good(env, PushT(t, e)) && PushT(t, e).implicit.None?
    ensures Stack(env, PushT(t, e)) == Stack(env, t) + [Value(env, SlotsOf(env, t), e)]
  {
    var t1 := PushT(t, e);
    RunCSnoc(env, map[], t.code, CAssign(t.depth, e));
    UsesSnoc(t.code, t.max, t1.max, CAssign(t.depth, e));
    var s, s1 := SlotsOf(env, t), RunC(env, map[], t1.code).value;
    assert s1 == s[t.depth := Value(env, s, e)];
  }

  /** Popping: the slot named holds the top of the stack, which loses that entry. */
  lemma PopGood(env: Env, t: Trans)
    requires Good(env, t) && t.implicit.None? && PopT(t).Some?
    ensures var (t1, i) := PopT(t).value;
      && Good(env, t1) && t1.implicit.None? && t1.value == t.value && t1.depth <= i < t1.max
      && Stack(env, t) != [] && Stack(env, t1) == Below(Stack(env, t), 1)
      && i in SlotsOf(env, t1) && SlotsOf(env, t1)[i] == Top(Stack(env, t), 0)
      && (t.depth > 0 ==> t1 == t.(depth := t.depth - 1) && SlotsOf(env, t1) == SlotsOf(env, t))
  {
    var (t1, i) := PopT(t).value;
    if t.depth == 0 {
      var line := CAssign(t.depth, CRegister(t.reg.value));
      RunCSnoc(env, map[], t.code, line);
      UsesSnoc(t.code, t.max, t1.max, line);
    }
  }

  function Mean1(env: Env, m: Use1, w: Word): Word {
    match m case Fetched(n) => env.memory(n, w) case Operated(u) => env.unary(u, w) case Added(c) => env.binary(Plus, w, c)
  }

  function Mean2(env: Env, m: Use2, top: Word, next: Word): Word {
    match m case SpaceFetched(n) => env.space(n, top, next) case Combined(b) => env.binary(b, next, top)
  }

  lemma Pop1Good(env: Env, t: Trans, m: Use1)
    requires Good(env, t) && t.implicit.None? && Pop1(t, m).Some?
    ensures var t' := Pop1(t, m).value;
      && Good(env, t') && t'.implicit.None? && |Stack(env, t)| >= 1
      && Stack(env, t') == Below(Stack(env, t), 1) + [Mean1(env, m, Top(Stack(env, t), 0))]
  {
    hide Good, Stack, SlotsOf;
    PopGood(env, t);
    var (t1, i) := PopT(t).value;
    PushGood(env, t1, Emit1(m, i));
  }

  /** Both operands are still in their slots when the result is computed. */
  lemma Pop2Good(env: Env, t: Trans, m: Use2)
    requires Good(env, t) && t.implicit.None? && Pop2(t, m).Some? && !(t.depth == 1 && t.reg.Some?)
    ensures var t' := Pop2(t, m).value;
      && Good(env, t') && t'.implicit.None? && |Stack(env, t)| >= 2
      && Stack(env, t') == Below(Stack(env, t), 2) + [Mean2(env, m, Top(Stack(env, t), 0), Top(Stack(env, t), 1))]
  {
    hide Good, Stack, SlotsOf;
    PopGood(env, t);
    var (t1, i) := PopT(t).value;
    PopGood(env, t1);
    var (t2, j) := PopT(t1).value;
    PushGood(env, t2, Emit2(m, i, j));
  }

  lemma DropGood(env: Env, t: Trans, i: int)
    requires Good(env, t) && t.implicit.None?
    ensures var t' := t.(code := t.code + [CDropped(i)]); Good(env, t') && Stack(env, t') == Stack(env, t)
  {
    RunCSnoc(env, map[], t.code, CDropped(i));
    UsesSnoc(t.code, t.max, t.max, CDropped(i));
  }

  lemma SwapGood(env: Env, t: Trans)
    requires Good(env, t) && t.implicit.None? && t.depth >= 2
    ensures var d := t.depth;
      var t' := Deepen(t).(code := t.code + [CAssign(d, CSlot(d - 1)), CAssign(d - 1, CSlot(d - 2)), CAssign(d - 2, CSlot(d))]);
      Good(env, t') && Stack(env, t') == Below(Stack(env, t), 2) + [Top(Stack(env, t), 0), Top(Stack(env, t), 1)]
  {
    hide Column, UsesBelow;
    var d, s := t.depth, SlotsOf(env, t);
    var a, b, c := CAssign(d, CSlot(d - 1)), CAssign(d - 1, CSlot(d - 2)), CAssign(d - 2, CSlot(d));
    var m := Deepen(t).max;
    var t' := Deepen(t).(code := t.code + [a, b, c]);
    assert t.code + [a, b, c] == t.code + [a] + [b] + [c];
    RunCSnoc(env, map[], t.code, a);
    RunCSnoc(env, map[], t.code + [a], b);
    RunCSnoc(env, map[], t.code + [a] + [b], c);
    UsesSnoc(t.code, t.max, m, a);
    UsesSnoc(t.code + [a], m, m, b);
    UsesSnoc(t.code + [a] + [b], m, m, c);
    var s' := RunC(env, map[], t'.code).value;
    assert s' == s[d := s[d - 1]][d - 1 := s[d - 2]][d - 2 := s[d - 1]];
    SwapColumn(s, s', d);
  }

  lemma SwapColumn(s: Slots, s': Slots, d: nat)
    requires d >= 2 && (forall i | 0 <= i < d :: i in s)
    requires s' == s[d := s[d - 1]][d - 1 := s[d - 2]][d - 2 := s[d - 1]]
    ensures Column(s', d) == Column(s, d)[..d - 2] + [s[d - 1], s[d - 2]]
  {
    hide Column;
  }

  /** Copying the k-th entry from the top. */
  lemma PickGood(env: Env, t: Trans, k: nat)
    requires Good(env, t) && t.implicit.None? && k < t.depth && t.depth - 1 - k < 256
    ensures var t' := PushT(t, CSlot((t.depth - 1 - k) % 256));
      && Good(env, t') && t'.implicit.None? && k < |Stack(env, t)|
      && Stack(env, t') == Stack(env, t) + [Top(Stack(env, t), k)]
  {
    hide Good, SlotsOf, Stack, RunC, PushT;
    SlotOnStack(env, t, k);
    PushGood(env, t, CSlot(t.depth - 1 - k));
  }

  predicate Pops(op: Op) {
    op.Deref? || op.DerefSize? || op.XDeref? || op.XDerefSize? || op.Unary? || op.Binary? || op.PlusUconst?
  }

  lemma PopSim(config: Config, env: Env, t: Trans, op: Op)
    requires Good(env, t) && t.implicit.None? && Tidy(t, op) && Pops(op)
    requires StepT(config, t, op).Some?
    ensures var t' := StepT(config, t, op).value;
      Good(env, t') && t'.implicit.None? && Step(env, op, Stack(env, t)) == Some(Stack(env, t'))
  {
    hide Good, SlotsOf, Stack, RunC, PushT, Pop1, Pop2;
    match op
    case Deref => Pop1Good(env, t, Fetched(POINTER_SIZE)); MarkGood(env, Pop1(t, Fetched(POINTER_SIZE)).value);
    case DerefSize(n) => Pop1Good(env, t, Fetched(n)); MarkGood(env, Pop1(t, Fetched(n)).value);
    case XDeref => Pop2Good(env, t, SpaceFetched(POINTER_SIZE)); MarkGood(env, Pop2(t, SpaceFetched(POINTER_SIZE)).value);
    case XDerefSize(n) => Pop2Good(env, t, SpaceFetched(n)); MarkGood(env, Pop2(t, SpaceFetched(n)).value);
    case Unary(u) => Pop1Good(env, t, Operated(u));
    case Binary(b) => Pop2Good(env, t, Combined(b));
    case PlusUconst(c) => Pop1Good(env, t, Added(c));
  }

  /** The translation of an operation simulates it. */
  lemma StepSim(config: Config, env: Env, t: Trans, op: Op)
    requires Good(env, t) && t.implicit.None? && Tidy(t, op)
    requires StepT(config, t, op).Some?
    requires !op.StackValue? && !op.ImplicitValue?
    ensures var t' := StepT(config, t, op).value;
      Good(env, t') && t'.implicit.None? && Step(env, op, Stack(env, t)) == Some(Stack(env, t'))
  {
    hide Good, SlotsOf, Stack, RunC, PushT, Pop1, Pop2;
    match op
    case Nop =>
    case Dup => SlotOnStack(env, t, 0); PushGood(env, t, CSlot(t.depth - 1));
    case Drop => PopGood(env, t); DropGood(env, PopT(t).value.0, PopT(t).value.1);
    case Pick(k) => PickGood(env, t, k);
    case Over => PickGood(env, t, 1);
    case Swap => SizeOfStack(env, t); SwapGood(env, t);
    case Addr(a) => PushGood(env, t, CAddress(a));
    case Const(v) => PushGood(env, t, CConst(v));
    case Breg(r, o) => PushGood(env, t, CRegisterPlus(r, o));
    case Fbreg(o) => PushGood(env, t, CFramePlus(o));
    case Reg(r) => RegGood(env, t, r);
    case _ => PopSim(config, env, t, op);
  }

  lemma SizeOfStack(env: Env, t: Trans)
    requires Good(env, t) && t.implicit.None?
    ensures |Stack(env, t)| == t.depth + if t.reg.Some? then 1 else 0
  {
  }

  lemma SlotOnStack(env: Env, t: Trans, k: nat)
    requires Good(env, t) && t.implicit.None? && k < t.depth
    ensures var i := t.depth - 1 - k;
      0 <= i < t.max && i in SlotsOf(env, t) && k < |Stack(env, t)| && SlotsOf(env, t)[i] == Top(Stack(env, t), k)
  {
  }

  lemma MarkGood(env: Env, t: Trans)
    requires Good(env, t) && t.implicit.None?
    ensures Good(env, t.(deref := true)) && Stack(env, t.(deref := true)) == Stack(env, t)
  {
  }

  lemma RegGood(env: Env, t: Trans, r: nat)
    requires Good(env, t) && t.implicit.None? && t.depth == 0 && t.reg.None?
    ensures Good(env, t.(reg := Some(r))) && Stack(env, t.(reg := Some(r))) == Stack(env, t) + [env.reg(r)]
  {
  }
}
