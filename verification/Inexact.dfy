/**
 For each DWARF operation, the exact condition under which its translation is right.
 */
module Inexact {
  import opened Basics
  import opened Dwarf
  import opened Loc2c

  /** The translation of an operation leaves the stack that the machine has next. */
  ghost predicate Right(config: Config, env: Env, t: Trans, op: Op)
    requires Good(env, t) && t.implicit.None?
  {
    var got := StepT(config, t, op);
    && got.Some? && Good(env, got.value) && got.value.implicit.None?
    && Step(env, op, Stack(env, t)) == Some(Stack(env, got.value))
  }

  /** The two-operand operations, as what is computed from their operands. */
  function UseOf(op: Op): Use2
    requires TwoOperands(op)
  {
    match op
    case Binary(b) => Combined(b)
    case XDeref => SpaceFetched(POINTER_SIZE)
    case XDerefSize(n) => SpaceFetched(n)
  }

  /** When the translation of an operation is right: a register name comes to an empty stack, or
      to one that holds nothing but the register's contents; a picked slot number fits in eight
      bits, or the slot it wraps to holds the same word; the top, third and fourth entries
      of a rotation are equal; and an operand over a waiting register gives what the register
      itself would. */
  ghost predicate Harmless(env: Env, t: Trans, op: Op)
    requires Good(env, t) && t.implicit.None?
  {
    var s, d := SlotsOf(env, t), t.depth;
    match op
    case Reg(r) => t.reg.None? && forall i | 0 <= i < d :: s[i] == env.reg(r)
    case Pick(k) => k < d ==> s[(d - 1 - k) % 256] == s[d - 1 - k]
    case Over => 2 <= d ==> s[(d - 2) % 256] == s[d - 2]
    case Rot => d >= 4 && s[d - 3] == s[d - 1] && s[d - 4] == s[d - 1]
    case _ =>
      TwoOperands(op) && d == 1 && t.reg.Some? ==>
        var r := env.reg(t.reg.value);
        Mean2(env, UseOf(op), s[0], r) == Mean2(env, UseOf(op), r, r)
  }

  // ----- register names -----

  lemma Rotating(x: Word, col: seq<Word>)
    ensures [x] + col == col + [x] <==> forall i | 0 <= i < |col| :: col[i] == x
  {
    if [x] + col == col + [x] {
      var i := 0;
      while i < |col|
        invariant 0 <= i <= |col| && forall j | 0 <= j < i :: col[j] == x
      {
        assert ([x] + col)[i] == (col + [x])[i];
        i := i + 1;
      }
    }
  }

  lemma RegExact(config: Config, env: Env, t: Trans, r: nat)
    requires Good(env, t) && t.implicit.None? && StepT(config, t, Reg(r)).Some?
    ensures Right(config, env, t, Reg(r)) <==> Harmless(env, t, Reg(r))
  {
    hide Column;
    var got, col := t.(reg := Some(r)), Column(SlotsOf(env, t), t.depth);
    assert StepT(config, t, Reg(r)) == Some(got);
    assert Good(env, got) && Stack(env, got) == [env.reg(r)] + col;
    assert Stack(env, t) == Bottom(env, t.reg) + col;
    SizeOfStack(env, t);
    if t.reg.None? {
      assert Stack(env, t) == col;
      Rotating(env.reg(r), col);
    } else {
      assert |Stack(env, t) + [env.reg(r)]| != |Stack(env, got)|;
    }
  }

  /** Two operands over a waiting register name: the register is fetched into the slot that still
      holds the other operand. */
  lemma RegisterOperand(env: Env, t: Trans, m: Use2)
    requires Good(env, t) && t.implicit.None? && t.depth == 1 && t.reg.Some?
    ensures var r := env.reg(t.reg.value);
      && Pop2(t, m).Some? && Good(env, Pop2(t, m).value) && Pop2(t, m).value.implicit.None?
      && Stack(env, Pop2(t, m).value) == [Mean2(env, m, r, r)]
      && 0 in SlotsOf(env, t) && Stack(env, t) == [r, SlotsOf(env, t)[0]]
  {
    hide RunC, UsesBelow, Column;
    var r := env.reg(t.reg.value);
    PopGood(env, t);
    var t1 := PopT(t).value.0;
    assert Stack(env, t) == [r] + Column(SlotsOf(env, t), 1);
    assert Stack(env, t1) == [r];
    PopGood(env, t1);
    var t2 := PopT(t1).value.0;
    assert PopT(t1).value.1 == 0;
    assert Stack(env, t2) == [];
    PushGood(env, t2, Emit2(m, 0, 0));
  }

  lemma TwoOperandsExact(config: Config, env: Env, t: Trans, op: Op)
    requires Good(env, t) && t.implicit.None? && TwoOperands(op) && t.depth == 1 && t.reg.Some? && StepT(config, t, op).Some?
    ensures Right(config, env, t, op) <==> Harmless(env, t, op)
  {
    hide Good, SlotsOf, Stack, RunC, UsesBelow, Column, Pop2;
    var m, r := UseOf(op), env.reg(t.reg.value);
    RegisterOperand(env, t, m);
    var got := Pop2(t, m).value;
    MarkGood(env, got);
    var x, y := Mean2(env, m, SlotsOf(env, t)[0], r), Mean2(env, m, r, r);
    assert Below(Stack(env, t), 2) + [x] == [x];
    assert [x][0] == x && [y][0] == y;
  }

  // ----- eight-bit slot numbers -----

  lemma PickExact(config: Config, env: Env, t: Trans, k: nat)
    requires Good(env, t) && t.implicit.None? && k < t.depth
    ensures var t' := PushT(t, CSlot((t.depth - 1 - k) % 256));
      && Good(env, t') && t'.implicit.None? && k < |Stack(env, t)|
      && (Stack(env, t) + [Top(Stack(env, t), k)] == Stack(env, t') <==>
          SlotsOf(env, t)[(t.depth - 1 - k) % 256] == SlotsOf(env, t)[t.depth - 1 - k])
  {
    hide SlotsOf, Stack, RunC, PushT, UsesBelow;
    var i := (t.depth - 1 - k) % 256;
    SlotOnStack(env, t, k);
    SlotOnStack(env, t, t.depth - 1 - i);
    PushGood(env, t, CSlot(i));
    var s, x, y := Stack(env, t), SlotsOf(env, t)[i], Top(Stack(env, t), k);
    assert (s + [x])[|s|] == x && (s + [y])[|s|] == y;
  }

  // ----- rotation -----

  /** The emitted rotation writes the fourth entry instead of the third: it is right exactly
      when the top, third and fourth entries are equal. */
  lemma RotationColumn(s: Slots, s': Slots, d: nat)
    requires d >= 4 && (forall i | 0 <= i < d :: i in s)
    requires s' == s[d := s[d - 1]][d - 1 := s[d - 2]][d - 2 := s[d - 3]][d - 4 := s[d - 1]]
    ensures var stack := Column(s, d);
      Column(s', d) == Below(stack, 3) + [Top(stack, 0), Top(stack, 2), Top(stack, 1)] <==>
      Top(stack, 2) == Top(stack, 0) && Top(stack, 3) == Top(stack, 0)
  {
    hide Column;
    var stack, want := Column(s, d), Below(Column(s, d), 3) + [Top(Column(s, d), 0), Top(Column(s, d), 2), Top(Column(s, d), 1)];
    assert Column(s', d)[d - 4] == s[d - 1] && want[d - 4] == s[d - 4];
    assert Column(s', d)[d - 3] == s[d - 3] && want[d - 3] == s[d - 1];
  }

  lemma RotationEmitted(config: Config, env: Env, t: Trans)
    requires Good(env, t) && t.implicit.None? && !t.value && t.depth >= 4
    ensures var got, s, d := StepT(config, t, Rot), SlotsOf(env, t), t.depth;
      && got.Some?
      && RunC(env, map[], got.value.code) == Some(s[d := s[d - 1]][d - 1 := s[d - 2]][d - 2 := s[d - 3]][d - 4 := s[d - 1]])
  {
    hide Column, UsesBelow;
    var d: int, code := t.depth, t.code;
    var a, b, c, e := CAssign(d, CSlot(d - 1)), CAssign(d - 1, CSlot(d - 2)), CAssign(d - 2, CSlot(d - 3)), CAssign(d - 4, CSlot(d));
    assert code + [a, b, c, e] == code + [a] + [b] + [c] + [e];
    RunCSnoc(env, map[], code, a);
    RunCSnoc(env, map[], code + [a], b);
    RunCSnoc(env, map[], code + [a] + [b], c);
    RunCSnoc(env, map[], code + [a] + [b] + [c], e);
  }

  lemma RotationGood(config: Config, env: Env, t: Trans)
    requires Good(env, t) && t.implicit.None? && !t.value && t.depth >= 4
    ensures StepT(config, t, Rot).Some? && Good(env, StepT(config, t, Rot).value) && StepT(config, t, Rot).value.implicit.None?
  {
    hide Column, RunC, UsesBelow;
    RotationEmitted(config, env, t);
    var d: int, code, max := t.depth, t.code, Deepen(t).max;
    var a, b, c, e := CAssign(d, CSlot(d - 1)), CAssign(d - 1, CSlot(d - 2)), CAssign(d - 2, CSlot(d - 3)), CAssign(d - 4, CSlot(d));
    assert code + [a, b, c, e] == code + [a] + [b] + [c] + [e];
    UsesSnoc(code, t.max, max, a);
    UsesSnoc(code + [a], max, max, b);
    UsesSnoc(code + [a] + [b], max, max, c);
    UsesSnoc(code + [a] + [b] + [c], max, max, e);
  }

  /** With three entries the rotation mentions a temporary that does not exist. */
  lemma RotationOfThree(config: Config, env: Env, t: Trans)
    requires t.implicit.None? && !t.value && t.depth == 3
    ensures StepT(config, t, Rot).Some? && !Good(env, StepT(config, t, Rot).value)
  {
    var e := CAssign(-1, CSlot(3));
    assert e in StepT(config, t, Rot).value.code && -1 in LineSlots(e);
  }

  lemma RotationExact(config: Config, env: Env, t: Trans)
    requires Good(env, t) && t.implicit.None? && StepT(config, t, Rot).Some?
    ensures Right(config, env, t, Rot) <==> Harmless(env, t, Rot)
  {
    if t.depth == 3 {
      RotationOfThree(config, env, t);
    } else {
      RotationOfFour(config, env, t);
    }
  }

  lemma RotationOfFour(config: Config, env: Env, t: Trans)
    requires Good(env, t) && t.implicit.None? && !t.value && t.depth >= 4
    ensures Right(config, env, t, Rot) <==> Harmless(env, t, Rot)
  {
    hide Column, UsesBelow, RunC, StepT;
    RotationEmitted(config, env, t);
    RotationGood(config, env, t);
    RotationShape(config, t);
    var d, got := t.depth, StepT(config, t, Rot).value;
    var s, s', low := SlotsOf(env, t), SlotsOf(env, got), Bottom(env, t.reg);
    var col := Column(s, d);
    RotationColumn(s, s', d);
    var want := Below(col, 3) + [Top(col, 0), Top(col, 2), Top(col, 1)];
    var stack := low + col;
    assert Stack(env, t) == stack && Stack(env, got) == low + Column(s', d);
    assert Below(stack, 3) + [Top(stack, 0), Top(stack, 2), Top(stack, 1)] == low + want;
    Unprefix(low, Column(s', d), want);
  }

  lemma RotationShape(config: Config, t: Trans)
    requires StepT(config, t, Rot).Some?
    ensures StepT(config, t, Rot).value.depth == t.depth && StepT(config, t, Rot).value.reg == t.reg
  {
  }

  lemma Unprefix(low: seq<Word>, a: seq<Word>, b: seq<Word>)
    ensures low + a == low + b <==> a == b
  {
    assert (low + a)[|low|..] == a && (low + b)[|low|..] == b;
  }

  // ----- every operation -----

  /** The translation of an operation is right exactly when it is harmless. */
  lemma StepExact(config: Config, env: Env, t: Trans, op: Op)
    requires Good(env, t) && t.implicit.None? && StepT(config, t, op).Some? && !op.StackValue? && !op.ImplicitValue?
    ensures Right(config, env, t, op) <==> Harmless(env, t, op)
  {
    hide Good, SlotsOf, Stack, RunC, UsesBelow, Column, PushT, Pop1, Pop2, Step;
    match op
    case Reg(r) => RegExact(config, env, t, r);
    case Rot => RotationExact(config, env, t);
    case Pick(k) => PickRight(config, env, t, op, k);
    case Over => PickRight(config, env, t, op, 1);
    case _ =>
      if TwoOperands(op) && t.depth == 1 && t.reg.Some? {
        TwoOperandsExact(config, env, t, op);
      } else {
        StepSim(config, env, t, op);
      }
  }

  lemma PickRight(config: Config, env: Env, t: Trans, op: Op, k: nat)
    requires (op == Pick(k) || (op == Over && k == 1)) && Good(env, t) && t.implicit.None? && StepT(config, t, op).Some?
    ensures Right(config, env, t, op) <==> Harmless(env, t, op)
  {
    hide Good, SlotsOf, Stack, RunC, UsesBelow, Column, PushT;
    PickExact(config, env, t, k);
    SizeOfStack(env, t);
  }

  /** What Tidy asks for is harmless. */
  lemma TidyHarmless(env: Env, t: Trans, op: Op)
    requires Good(env, t) && t.implicit.None? && Tidy(t, op)
    ensures Harmless(env, t, op)
  {
  }

  // ----- what is accepted -----

  /** The operations that look only at the slots, and not at a waiting register name. */
  predicate Rearranges(op: Op) { op.Dup? || op.Pick? || op.Over? || op.Swap? || op.Rot? }

  /** An operation is refused exactly when the machine underflows, when only a waiting register name
      would keep it from that, or when there is no frame base. */
  lemma AcceptedExactly(config: Config, env: Env, t: Trans, op: Op)
    requires Good(env, t) && t.implicit.None? && !t.value && !op.StackValue? && !op.ImplicitValue?
    ensures StepT(config, t, op).Some? <==>
      && Step(env, op, if Rearranges(op) then Column(SlotsOf(env, t), t.depth) else Stack(env, t)).Some?
      && (op.Fbreg? ==> config.frameBase)
  {
    hide Good, SlotsOf, Stack, Column, Step, StepT;
    SizeOfStack(env, t);
    SlotsDeclared(env, t);
    MachineTakes(env, op, if Rearranges(op) then Column(SlotsOf(env, t), t.depth) else Stack(env, t));
    TranslatorTakes(config, t, op);
  }

  lemma SlotsDeclared(env: Env, t: Trans)
    requires Good(env, t) && t.implicit.None?
    ensures forall i | 0 <= i < t.depth :: i in SlotsOf(env, t)
  {
  }

  /** How many entries an operation needs; None for one that is no stack operation. */
  function Entries(op: Op): Option<nat> {
    match op
    case Nop | Addr(_) | Const(_) | Breg(_, _) | Fbreg(_) | Reg(_) => Some(0)
    case Dup | Drop | Deref | DerefSize(_) | Unary(_) | PlusUconst(_) => Some(1)
    case Over | Swap | XDeref | XDerefSize(_) | Binary(_) => Some(2)
    case Rot => Some(3)
    case Pick(k) => Some(k + 1)
    case _ => None
  }

  lemma MachineTakes(env: Env, op: Op, stack: seq<Word>)
    ensures Step(env, op, stack).Some? <==> Entries(op).Some? && |stack| >= Entries(op).value
  {
  }

  lemma TranslatorTakes(config: Config, t: Trans, op: Op)
    requires t.implicit.None? && !t.value && !op.StackValue? && !op.ImplicitValue?
    ensures StepT(config, t, op).Some? <==>
      && Entries(op).Some? && (op.Fbreg? ==> config.frameBase)
      && t.depth + (if t.reg.Some? && !Rearranges(op) then 1 else 0) >= Entries(op).value
  {
    hide PushT;
  }

  /** A value must be the only entry and a constant the first; nothing may follow either. */
  lemma ValueAccepted(config: Config, env: Env, t: Trans, op: Op)
    requires Good(env, t) && (t.implicit.None? ==> !t.value)
    ensures op.StackValue? && t.implicit.None? ==> (StepT(config, t, op).Some? <==> t.depth == 1 || (t.depth == 0 && t.reg.Some?))
    ensures op.ImplicitValue? && t.implicit.None? ==> (StepT(config, t, op).Some? <==> config.attribute && t.depth == 0)
    ensures t.implicit.Some? ==> (StepT(config, t, op).Some? <==> op.Nop?)
    ensures StepT(config, t.(value := true), op).Some? <==> op.Nop?
  {
    hide UsesBelow, RunC, PushT;
  }
}
