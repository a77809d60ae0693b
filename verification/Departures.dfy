/**
 Where the translation of DWARF expressions departs from the stack machine: names that are
 lost at the end of an expression, and expressions that are translated wrongly.
 */
module Departures {
  import opened Basics
  import opened Dwarf
  import opened Loc2c
  import opened Inexact
  import opened Locations

  // ----- the end of an expression -----

  /** A value, or a constant, over a waiting register name is accepted although the machine has
      an entry too many; with no name waiting the machine accepts it too. */
  lemma ValueOverRegister(config: Config, env: Env, t: Trans, name: Option<nat>, op: Op)
    requires Good(env, t) && t.implicit.None? && StepT(config, t, op).Some?
    requires (op.StackValue? && t.depth == 1) || op.ImplicitValue?
    ensures StepM(env, Computed(Stack(env, t), false, name), op).Some? <==> t.reg.None?
  {
    SizeOfStack(env, t);
  }

  /** A register name waiting under one computed entry is lost at the end of the piece,
      although the machine has two entries left. */
  lemma RegisterLost(env: Env, t: Trans)
    requires Good(env, t) && t.implicit.None? && t.depth == 1 && t.reg.Some?
    ensures Finish(t).Some? && Finish(t) == Finish(t.(reg := None)) && |Stack(env, t)| == 2
  {
    SizeOfStack(env, t);
  }

  // ----- expressions that are translated wrongly -----

  const PLAIN := Config(NoInput, false, false)

  /** Operations at consecutive offsets. */
  function Code(ops: seq<Op>, offset: nat := 0): (r: seq<Instr>)
    ensures |r| == |ops| && forall i | 0 <= i < |ops| :: r[i].op == ops[i]
    decreases ops
  {
    if ops == [] then [] else [Instr(offset, ops[0])] + Code(ops[1..], offset + 1)
  }

  /** One more operation, in the translator and in the machine. */
  lemma Advance(env: Env, code: seq<Instr>, i: nat, t: Trans, stack: seq<Word>, name: Option<nat>)
    requires i < |code| && !code[i].op.Skip? && !code[i].op.Piece? && !code[i].op.StackValue? && !code[i].op.ImplicitValue?
    requires StepT(PLAIN, t, code[i].op).Some? && Step(env, code[i].op, stack).Some? && !code[i].op.Nop?
    ensures TransFrom(PLAIN, code, i, Work(t, [], 0)) == TransFrom(PLAIN, code, i + 1, Work(StepT(PLAIN, t, code[i].op).value, [], 0))
    ensures var name' := if code[i].op.Reg? && stack == [] then Some(code[i].op.reg) else None;
      MeaningFrom(PLAIN, env, code, i, Computed(stack, false, name), []) ==
      MeaningFrom(PLAIN, env, code, i + 1, Computed(Step(env, code[i].op, stack).value, false, name'), [])
  {
    hide StepT, Step;
  }

  /** After i operations the translator is in a state with stack ys, and the machine has xs. */
  ghost predicate Reached(env: Env, code: seq<Instr>, i: nat, t: Trans, ys: seq<Word>, xs: seq<Word>, name: Option<nat>) {
    && i <= |code| && Good(env, t) && t.implicit.None? && !t.value && Stack(env, t) == ys
    && TransFrom(PLAIN, code, 0, Begin(PLAIN)) == TransFrom(PLAIN, code, i, Work(t, [], 0))
    && MeaningFrom(PLAIN, env, code, 0, Start(PLAIN, env), []) == MeaningFrom(PLAIN, env, code, i, Computed(xs, false, name), [])
  }

  /** An expression that is translated, and that the machine evaluates, to different things. */
  ghost predicate Wrong(env: Env, code: seq<Instr>) {
    var m := MeaningFrom(PLAIN, env, code, 0, Start(PLAIN, env), []);
    && Translate(PLAIN, code).Ok? && m.Some?
    && !DenotesLocation(env, Translate(PLAIN, code).value, m.value.0, m.value.1)
  }

  lemma Origin(env: Env, code: seq<Instr>) returns (t: Trans)
    ensures Reached(env, code, 0, t, [], [], None) && t.reg.None? && t.depth == 0
  {
    t := Reset(PLAIN, 0);
    ResetStands(PLAIN, env, 0);
  }

  lemma Arrive(env: Env, code: seq<Instr>, t: Trans, y: Word, x: Word)
    requires Reached(env, code, |code|, t, [y], [x], None) && t.reg.None?
    ensures Wrong(env, code) <==> y != x
  {
    hide RunC, UsesBelow, Column;
    SizeOfStack(env, t);
    StackIsColumn(env, t);
    assert Stack(env, t)[0] == y;
    assert Translate(PLAIN, code) == Ok(Single(AddressLoc(t.code, t.max, t.deref)));
    assert [x][0] == x && [y][0] == y;
  }

  lemma StackIsColumn(env: Env, t: Trans)
    requires Good(env, t) && t.implicit.None? && t.reg.None?
    ensures (forall i | 0 <= i < t.depth :: i in SlotsOf(env, t)) && Stack(env, t) == Column(SlotsOf(env, t), t.depth)
  {
  }

  lemma PushConst(env: Env, code: seq<Instr>, i: nat, t: Trans, ys: seq<Word>, xs: seq<Word>, name: Option<nat>, v: Word) returns (t': Trans)
    requires Reached(env, code, i, t, ys, xs, name) && i < |code| && code[i].op == Const(v)
    ensures Reached(env, code, i + 1, t', ys + [v], xs + [v], None) && t'.reg == t.reg && t'.depth == t.depth + 1
  {
    hide Good, Stack, TransFrom, MeaningFrom;
    t' := PushT(t, CConst(v));
    PushGood(env, t, CConst(v));
    Advance(env, code, i, t, xs, name);
  }

  lemma DropLast(env: Env, code: seq<Instr>, i: nat, t: Trans, ys: seq<Word>, xs: seq<Word>) returns (t': Trans)
    requires Reached(env, code, i, t, ys, xs, None) && i < |code| && code[i].op == Drop
    requires t.reg.None? && ys != [] && xs != []
    ensures Reached(env, code, i + 1, t', ys[..|ys| - 1], xs[..|xs| - 1], None) && t'.reg.None?
  {
    hide Good, Stack, TransFrom, MeaningFrom;
    SizeOfStack(env, t);
    t' := StepT(PLAIN, t, Drop).value;
    StepSim(PLAIN, env, t, Drop);
    Advance(env, code, i, t, xs, None);
  }

  // Registers.

  const REGISTER_SUM: seq<Op> := [Reg(0), Const(1), Binary(Plus)]

  /** `reg0 lit1 plus` adds the register to itself: it is wrong exactly when that differs from
      the register plus one. */
  lemma RegisterSumWrong(env: Env)
    ensures Wrong(env, Code(REGISTER_SUM)) <==> env.binary(Plus, env.reg(0), env.reg(0)) != env.binary(Plus, env.reg(0), 1)
  {
    hide Reached, Wrong, Code;
    var code, r := Code(REGISTER_SUM), env.reg(0);
    assert code[0].op == REGISTER_SUM[0] && code[1].op == REGISTER_SUM[1] && code[2].op == REGISTER_SUM[2];
    var t0 := Origin(env, code);
    var t1 := NameRegister(env, code, t0);
    var t2 := PushConst(env, code, 1, t1, [r], [r], Some(0), 1);
    assert [r] + [1] == [r, 1];
    var t3 := AddOverRegister(env, code, t2);
    Arrive(env, code, t3, env.binary(Plus, r, r), env.binary(Plus, r, 1));
  }

  /** A register that holds 5, and the operators as addition. */
  const ADDING := Env(r => 5, (n, a) => 0, (n, a, s) => 0, 0, 0, a => a, (u, x) => x, (b, x, y) => x + y)

  lemma RegisterSumFails()
    ensures Wrong(ADDING, Code(REGISTER_SUM))
  {
    hide Wrong, Code;
    RegisterSumWrong(ADDING);
  }

  lemma NameRegister(env: Env, code: seq<Instr>, t: Trans) returns (t': Trans)
    requires Reached(env, code, 0, t, [], [], None) && 0 < |code| && code[0].op == Reg(0) && t.reg.None? && t.depth == 0
    ensures Reached(env, code, 1, t', [env.reg(0)], [env.reg(0)], Some(0)) && t'.reg == Some(0) && t'.depth == 0
  {
    hide Good, Stack, TransFrom, MeaningFrom;
    t' := t.(reg := Some(0));
    RegGood(env, t, 0);
    Advance(env, code, 0, t, [], None);
    assert [] + [env.reg(0)] == [env.reg(0)];
  }

  lemma AddOverRegister(env: Env, code: seq<Instr>, t: Trans) returns (t': Trans)
    requires Reached(env, code, 2, t, [env.reg(0), 1], [env.reg(0), 1], None)
    requires 2 < |code| && code[2].op == Binary(Plus) && t.reg == Some(0) && t.depth == 1
    ensures var r := env.reg(0);
      Reached(env, code, 3, t', [env.binary(Plus, r, r)], [env.binary(Plus, r, 1)], None) && t'.reg.None?
  {
    hide Good, Stack, SlotsOf, TransFrom, MeaningFrom, Pop2;
    var m, r, x := Combined(Plus), env.reg(0), env.binary(Plus, env.reg(0), 1);
    RegisterOperand(env, t, m);
    PopTwoShape(t, m);
    t' := Pop2(t, m).value;
    Advance(env, code, 2, t, [r, 1], None);
    assert Below([r, 1], 2) + [x] == [x];
  }

  lemma PopTwoShape(t: Trans, m: Use2)
    requires t.depth == 1 && t.reg.Some? && Pop2(t, m).Some?
    ensures var t' := Pop2(t, m).value; t'.depth == 1 && t'.reg.None? && t'.value == t.value
  {
  }

  // Rotation.

  const ROTATED: seq<Op> := [Const(1), Const(2), Const(3), Const(4), Rot, Drop, Drop, Drop]

  /** `lit1 lit2 lit3 lit4 rot drop drop drop` leaves 1; its translation computes 4. */
  lemma RotatedWrong(env: Env)
    ensures Wrong(env, Code(ROTATED))
  {
    hide Reached, Wrong, Code;
    var code := Code(ROTATED);
    RotatedCode();
    var t4 := PushFour(env, code);
    var t5 := Rotate(env, code, t4);
    var t6 := DropLast(env, code, 5, t5, [4, 2, 2, 3], [1, 4, 2, 3]);
    assert [4, 2, 2, 3][..3] == [4, 2, 2] && [1, 4, 2, 3][..3] == [1, 4, 2];
    var t7 := DropLast(env, code, 6, t6, [4, 2, 2], [1, 4, 2]);
    assert [4, 2, 2][..2] == [4, 2] && [1, 4, 2][..2] == [1, 4];
    var t8 := DropLast(env, code, 7, t7, [4, 2], [1, 4]);
    assert [4, 2][..1] == [4] && [1, 4][..1] == [1];
    Arrive(env, code, t8, 4, 1);
  }

  lemma RotatedCode()
    ensures var code := Code(ROTATED);
      && |code| == 8 && code[0].op == Const(1) && code[1].op == Const(2) && code[2].op == Const(3) && code[3].op == Const(4)
      && code[4].op == Rot && code[5].op == code[6].op == code[7].op == Drop
  {
    hide Code;
    var code := Code(ROTATED);
    assert |ROTATED| == 8;
    assert code[0].op == ROTATED[0] && code[1].op == ROTATED[1] && code[2].op == ROTATED[2] && code[3].op == ROTATED[3];
    assert code[4].op == ROTATED[4] && code[5].op == ROTATED[5] && code[6].op == ROTATED[6] && code[7].op == ROTATED[7];
  }

  lemma PushFour(env: Env, code: seq<Instr>) returns (t: Trans)
    requires |code| >= 4 && code[0].op == Const(1) && code[1].op == Const(2) && code[2].op == Const(3) && code[3].op == Const(4)
    ensures Reached(env, code, 4, t, [1, 2, 3, 4], [1, 2, 3, 4], None) && t.reg.None? && t.depth == 4
  {
    hide Reached;
    t := Origin(env, code);
    t := PushConst(env, code, 0, t, [], [], None, 1);
    assert [] + [1] == [1];
    t := PushConst(env, code, 1, t, [1], [1], None, 2);
    assert [1] + [2] == [1, 2];
    t := PushConst(env, code, 2, t, [1, 2], [1, 2], None, 3);
    assert [1, 2] + [3] == [1, 2, 3];
    t := PushConst(env, code, 3, t, [1, 2, 3], [1, 2, 3], None, 4);
    assert [1, 2, 3] + [4] == [1, 2, 3, 4];
  }

  lemma Rotate(env: Env, code: seq<Instr>, t: Trans) returns (t': Trans)
    requires Reached(env, code, 4, t, [1, 2, 3, 4], [1, 2, 3, 4], None) && 4 < |code| && code[4].op == Rot && t.reg.None? && t.depth == 4
    ensures Reached(env, code, 5, t', [4, 2, 2, 3], [1, 4, 2, 3], None) && t'.reg.None?
  {
    hide Good, Stack, SlotsOf, TransFrom, MeaningFrom;
    RotatedStack(env, t);
    t' := StepT(PLAIN, t, Rot).value;
    Advance(env, code, 4, t, [1, 2, 3, 4], None);
    assert Below([1, 2, 3, 4], 3) + [4, 2, 3] == [1, 4, 2, 3];
  }

  lemma RotatedStack(env: Env, t: Trans)
    requires Good(env, t) && t.implicit.None? && !t.value && t.reg.None? && t.depth == 4 && Stack(env, t) == [1, 2, 3, 4]
    ensures var got := StepT(PLAIN, t, Rot);
      && got.Some? && Good(env, got.value) && got.value.implicit.None? && !got.value.value && got.value.reg.None?
      && Stack(env, got.value) == [4, 2, 2, 3]
  {
    hide RunC, UsesBelow, Column, Good, Stack;
    StackIsColumn(env, t);
    var s := SlotsOf(env, t);
    assert s[0] == Stack(env, t)[0] && s[1] == Stack(env, t)[1] && s[2] == Stack(env, t)[2] && s[3] == Stack(env, t)[3];
    RotationEmitted(PLAIN, env, t);
    RotationGood(PLAIN, env, t);
    StackIsColumn(env, StepT(PLAIN, t, Rot).value);
  }
}
