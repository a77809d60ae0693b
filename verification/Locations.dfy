/**
 Whole location expressions: skips, composite pieces, and the finished location.  The
 translation of every expression denotes what the DWARF machine computes.
 */
module Locations {
  import opened Basics
  import opened Dwarf
  import opened Loc2c
  import opened Inexact

  datatype PieceLoc = PieceLoc(loc: Loc, bytes: nat)

  datatype Location = Single(loc: Loc) | Composite(pieces: seq<PieceLoc>, bytes: nat)

  /** The piece in progress, the finished pieces, and where the piece in progress began. */
  datatype Work = Work(t: Trans, pieces: seq<PieceLoc>, start: nat)

  /** The offset the translator looks for, in 64-bit arithmetic. */
  function SkipTarget(x: Instr): int
    requires x.op.Skip?
  {
    (x.offset + 3 + x.op.distance) % OFFSETS
  }

  /** The last operation before `target`, from i on. */
  function SkipTo(code: seq<Instr>, i: nat, target: int): (j: nat)
    requires i < |code|
    ensures i <= j < |code|
    ensures j + 1 < |code| ==> code[j + 1].offset >= target
    ensures forall k | i < k <= j :: code[k].offset < target
    decreases |code| - i
  {
    if i + 1 < |code| && code[i + 1].offset < target then SkipTo(code, i + 1, target) else i
  }

  function NextPiece(config: Config, w: Work, loc: Loc, bytes: nat, start: nat): Work {
    Work(Reset(config, w.t.max), w.pieces + [PieceLoc(loc, bytes)], start)
  }

  function TransFrom(config: Config, code: seq<Instr>, i: nat, w: Work): Result<Work>
    requires i <= |code|
    decreases |code| - i
  {
    if i == |code| then Ok(w)
    else match code[i].op
    case Skip(_) =>
      var target := SkipTarget(code[i]);
      var j := SkipTo(code, i, target);
      if w.t.value || w.t.implicit.Some? then Die(i)
      else if j + 1 < |code| && code[j + 1].offset == target then TransFrom(config, code, j + 1, w)
      else Die(j)
    case Piece(bytes) =>
      (match Finish(w.t)
       case None => Die(i)
       case Some(loc) => TransFrom(config, code, i + 1, NextPiece(config, w, loc, bytes, i + 1)))
    case op =>
      match StepT(config, w.t, op)
      case None => Die(i)
      case Some(t) => TransFrom(config, code, i + 1, w.(t := t))
  }

  function Sum(pieces: seq<PieceLoc>): nat
    decreases pieces
  {
    if pieces == [] then 0 else Sum(pieces[..|pieces| - 1]) + pieces[|pieces| - 1].bytes
  }

  function Conclude(code: seq<Instr>, w: Work): Result<Location> {
    if w.pieces == [] then match Finish(w.t) case None => Die(|code|) case Some(loc) => Ok(Single(loc))
    else if w.start != |code| then Die(|code|)
    else Ok(Composite(w.pieces, Sum(w.pieces)))
  }

  function Begin(config: Config): Work { Work(Reset(config, 0), [], 0) }

  function Translate(config: Config, code: seq<Instr>): Result<Location> {
    match TransFrom(config, code, 0, Begin(config)) case Die(i) => Die(i) case Ok(w) => Conclude(code, w)
  }

  // ----- what an expression means (sections 2.5.1 and 2.6.1 of DWARF 4) -----

  /** What a piece stands for so far: a stack of words, known to be the value itself after
      DW_OP_stack_value or to be the contents of a named register; or constant bytes. */
  datatype Meaning = Computed(stack: seq<Word>, value: bool, name: Option<nat>) | Bytes(block: seq<int>)

  datatype PieceMeaning = PieceMeaning(m: Meaning, bytes: nat)

  function Start(config: Config, env: Env): Meaning {
    match config.input
    case NoInput => Computed([], false, None)
    case RegisterInput(r) => Computed([env.reg(r)], false, Some(r))
    case AddressInput => Computed([env.addr], false, None)
    case ValueInput => Computed([env.addr], true, None)
  }

  function StepM(env: Env, m: Meaning, op: Op): Option<Meaning> {
    if op.Nop? then Some(m)
    else match m
    case Bytes(_) => None
    case Computed(stack, value, _) =>
      if value then None
      else if op.StackValue? then (if |stack| == 1 then Some(Computed(stack, true, None)) else None)
      else if op.ImplicitValue? then (if stack == [] then Some(Bytes(op.block)) else None)
      else match Step(env, op, stack)
        case None => None
        case Some(s) => Some(Computed(s, false, if op.Reg? && stack == [] then Some(op.reg) else None))
  }

  /** The operation at a byte offset. */
  function IndexAt(code: seq<Instr>, target: int, i: nat := 0): Option<nat>
    requires i <= |code|
    decreases |code| - i
  {
    if i == |code| then None else if code[i].offset == target then Some(i) else IndexAt(code, target, i + 1)
  }

  /** The machine from operation i on: the pieces, and what is left after the last of them. */
  function MeaningFrom(config: Config, env: Env, code: seq<Instr>, i: nat, m: Meaning, done: seq<PieceMeaning>)
    : Option<(seq<PieceMeaning>, Meaning)>
    requires i <= |code|
    decreases |code| - i
  {
    if i == |code| then Some((done, m))
    else match code[i].op
    case Skip(_) =>
      (match Jump(code, i)
       case None => None
       case Some(target) =>
         match IndexAt(code, target)
         case Some(j) => if i < j <= |code| then MeaningFrom(config, env, code, j, m, done) else None
         case None => None)
    case Piece(bytes) => MeaningFrom(config, env, code, i + 1, Start(config, env), done + [PieceMeaning(m, bytes)])
    case op => match StepM(env, m, op) case None => None case Some(m1) => MeaningFrom(config, env, code, i + 1, m1, done)
  }

  /** A translated piece is what the machine computed: its program runs without reading an
      unassigned temporary, mentions only the temporaries declared for it, and leaves the one
      entry of the stack in s0. */
  ghost predicate Denotes(env: Env, loc: Loc, m: Meaning) {
    match loc
    case RegisterLoc(r) => m == Computed([env.reg(r)], false, Some(r))
    case ConstantLoc(block) => m == Bytes(block)
    case _ =>
      && UsesBelow(loc.code, loc.slots)
      && RunC(env, map[], loc.code).Some?
      && 0 in RunC(env, map[], loc.code).value
      && m == Computed([RunC(env, map[], loc.code).value[0]], loc.ValueLoc?, None)
  }

  ghost predicate DenotesAll(env: Env, ps: seq<PieceLoc>, ms: seq<PieceMeaning>) {
    |ps| == |ms| && forall i | 0 <= i < |ps| :: ps[i].bytes == ms[i].bytes && Denotes(env, ps[i].loc, ms[i].m)
  }

  // ----- the expressions for which the translation is faithful -----

  /** No register name is left waiting under a computed value. */
  predicate TidyEnd(t: Trans) { !(t.depth == 1 && t.reg.Some?) }

  /** Tidy all along the translation; decided with the translator's counters alone. */
  predicate TidyFrom(config: Config, code: seq<Instr>, i: nat, w: Work)
    requires i <= |code|
    decreases |code| - i
  {
    if i == |code| then TidyEnd(w.t)
    else match code[i].op
    case Skip(_) =>
      var j := SkipTo(code, i, SkipTarget(code[i]));
      TidyFrom(config, code, j + 1, w)
    case Piece(bytes) =>
      && TidyEnd(w.t)
      && (Finish(w.t).Some? ==> TidyFrom(config, code, i + 1, NextPiece(config, w, Finish(w.t).value, bytes, i + 1)))
    case op =>
      && Tidy(w.t, op)
      && (StepT(config, w.t, op).Some? ==> TidyFrom(config, code, i + 1, w.(t := StepT(config, w.t, op).value)))
  }

  predicate TidyExpression(config: Config, code: seq<Instr>) { TidyFrom(config, code, 0, Begin(config)) }

  /** The translation of an operation is right in this environment. */
  ghost predicate Sound(env: Env, t: Trans, op: Op) {
    if op.StackValue? || op.ImplicitValue? then Tidy(t, op) else Good(env, t) && t.implicit.None? ==> Harmless(env, t, op)
  }

  /** Right all along the translation. */
  ghost predicate SoundFrom(config: Config, env: Env, code: seq<Instr>, i: nat, w: Work)
    requires i <= |code|
    decreases |code| - i
  {
    if i == |code| then TidyEnd(w.t)
    else match code[i].op
    case Skip(_) =>
      var j := SkipTo(code, i, SkipTarget(code[i]));
      SoundFrom(config, env, code, j + 1, w)
    case Piece(bytes) =>
      && TidyEnd(w.t)
      && (Finish(w.t).Some? ==> SoundFrom(config, env, code, i + 1, NextPiece(config, w, Finish(w.t).value, bytes, i + 1)))
    case op =>
      && Sound(env, w.t, op)
      && (StepT(config, w.t, op).Some? ==> SoundFrom(config, env, code, i + 1, w.(t := StepT(config, w.t, op).value)))
  }

  ghost predicate SoundExpression(config: Config, env: Env, code: seq<Instr>) { SoundFrom(config, env, code, 0, Begin(config)) }

  lemma TidySound(env: Env, t: Trans, op: Op)
    requires Tidy(t, op)
    ensures Sound(env, t, op)
  {
    if Good(env, t) && t.implicit.None? { TidyHarmless(env, t, op); }
  }

  /** A tidy expression is translated right in every environment. */
  lemma {:induction false} TidySoundFrom(config: Config, env: Env, code: seq<Instr>, i: nat, w: Work)
    requires i <= |code| && TidyFrom(config, code, i, w)
    ensures SoundFrom(config, env, code, i, w)
    decreases |code| - i
  {
    hide Tidy, Sound, StepT, Finish, TidyEnd, SkipTarget, Reset, SkipTo;
    if i < |code| {
      if code[i].op.Skip? {
        TidySoundFrom(config, env, code, SkipTo(code, i, SkipTarget(code[i])) + 1, w);
      } else if code[i].op.Piece? {
        if Finish(w.t).Some? {
          TidySoundFrom(config, env, code, i + 1, NextPiece(config, w, Finish(w.t).value, code[i].op.bytes, i + 1));
        }
      } else {
        var next := StepT(config, w.t, code[i].op);
        TidySound(env, w.t, code[i].op);
        if next.Some? { TidySoundFrom(config, env, code, i + 1, w.(t := next.value)); }
      }
    }
  }

  predicate Ascending(code: seq<Instr>) { forall i, j | 0 <= i < j < |code| :: code[i].offset < code[j].offset }

  lemma EncodedAscends(code: seq<Instr>)
    requires Encoded(code)
    ensures Ascending(code)
  {
    forall i, j | 0 <= i < j < |code| ensures code[i].offset < code[j].offset { Climb(code, i, j); }
  }

  lemma {:induction false} Climb(code: seq<Instr>, i: nat, j: nat)
    requires Encoded(code) && i < j < |code|
    ensures code[i].offset < code[j].offset
    decreases j - i
  {
    assert Takes(code[i].op, code[i + 1].offset - code[i].offset);
    if i + 1 < j { Climb(code, i + 1, j); }
  }

  /** The translator looks for the offset to which the machine jumps. */
  lemma SkipTargetRight(code: seq<Instr>, i: nat)
    requires Encoded(code) && i + 1 < |code| && code[i].op.Skip?
    ensures Jump(code, i) == Some(SkipTarget(code[i]))
  {
    assert Takes(code[i].op, code[i + 1].offset - code[i].offset);
  }

  // ----- one piece -----

  /** A translator state stands for a meaning. */
  ghost predicate Stands(env: Env, t: Trans, m: Meaning) {
    && Good(env, t)
    && match t.implicit
       case Some(block) => m == Bytes(block)
       case None =>
         && m.Computed? && m.stack == Stack(env, t) && m.value == t.value
         && (t.depth == 0 && t.code == [] ==> m.name == t.reg)
         && (t.depth > 0 ==> m.name.None?)
         && (t.value ==> t.depth == 1)
  }

  lemma ResetStands(config: Config, env: Env, max: nat)
    ensures Stands(env, Reset(config, max), Start(config, env))
  {
    var t := Trans(0, max, None, false, None, false, []);
    assert Good(env, t) && Stack(env, t) == [];
    match config.input
    case NoInput =>
    case RegisterInput(r) => RegGood(env, t, r);
    case _ =>
      PushGood(env, t, CInput);
      ValueGood(env, PushT(t, CInput));
  }

  lemma ValueGood(env: Env, t: Trans)
    requires Good(env, t) && t.implicit.None?
    ensures Good(env, t.(value := true)) && Stack(env, t.(value := true)) == Stack(env, t)
  {
  }

  lemma FinishDenotes(env: Env, t: Trans, m: Meaning)
    requires Stands(env, t, m) && Finish(t).Some? && TidyEnd(t)
    ensures Denotes(env, Finish(t).value, m)
  {
    if t.implicit.None? && t.depth == 0 { assert Stack(env, t) == [env.reg(t.reg.value)]; }
  }

  lemma StackValueGood(config: Config, env: Env, t: Trans)
    requires Good(env, t) && t.implicit.None? && TidyEnd(t) && StepT(config, t, StackValue).Some?
    ensures var t' := StepT(config, t, StackValue).value;
      && Good(env, t') && t'.implicit.None? && Stack(env, t') == Stack(env, t) && |Stack(env, t)| == 1
      && t'.value && t'.depth == 1
  {
    PopGood(env, t);
    var (t1, i) := PopT(t).value;
    assert i == 0;
  }

  lemma ImplicitGood(config: Config, env: Env, t: Trans, block: seq<int>)
    requires Good(env, t) && t.implicit.None? && t.reg.None? && StepT(config, t, ImplicitValue(block)).Some?
    ensures var t' := StepT(config, t, ImplicitValue(block)).value;
      Good(env, t') && t'.implicit == Some(block) && Stack(env, t) == []
  {
  }

  /** Flags and emitted lines after an ordinary operation. */
  lemma StepShape(config: Config, t: Trans, op: Op)
    requires StepT(config, t, op).Some? && !op.Nop? && !op.StackValue? && !op.ImplicitValue?
    ensures var t' := StepT(config, t, op).value;
      && t.implicit.None? && !t.value && !t'.value
      && (op.Reg? ==> t' == t.(reg := Some(op.reg)))
      && (!op.Reg? ==> |t'.code| > |t.code|)
  {
  }

  lemma OrdinaryStands(config: Config, env: Env, t: Trans, m: Meaning, op: Op)
    requires Stands(env, t, m) && Sound(env, t, op) && StepT(config, t, op).Some?
    requires !op.Nop? && !op.StackValue? && !op.ImplicitValue?
    ensures StepM(env, m, op).Some? && Stands(env, StepT(config, t, op).value, StepM(env, m, op).value)
  {
    hide Good, Stack, Step, StepT, Harmless;
    StepShape(config, t, op);
    StepExact(config, env, t, op);
    if op.Reg? {
      NoNameWaits(env, t, op.reg);
      SizeOfStack(env, t);
    }
  }

  lemma NoNameWaits(env: Env, t: Trans, r: nat)
    requires Good(env, t) && t.implicit.None? && Harmless(env, t, Reg(r))
    ensures t.reg.None?
  {
  }

  lemma StepStands(config: Config, env: Env, t: Trans, m: Meaning, op: Op)
    requires Stands(env, t, m) && Sound(env, t, op) && StepT(config, t, op).Some?
    ensures StepM(env, m, op).Some? && Stands(env, StepT(config, t, op).value, StepM(env, m, op).value)
  {
    hide Good, Stack, Step, Stands;
    match op
    case Nop =>
    case StackValue => StackValueStands(config, env, t, m);
    case ImplicitValue(block) => ImplicitStands(config, env, t, m, block);
    case _ => OrdinaryStands(config, env, t, m, op);
  }

  lemma StackValueStands(config: Config, env: Env, t: Trans, m: Meaning)
    requires Stands(env, t, m) && TidyEnd(t) && StepT(config, t, StackValue).Some?
    ensures StepM(env, m, StackValue).Some? && Stands(env, StepT(config, t, StackValue).value, StepM(env, m, StackValue).value)
  {
    hide Good, Stack;
    StackValueGood(config, env, t);
  }

  lemma ImplicitStands(config: Config, env: Env, t: Trans, m: Meaning, block: seq<int>)
    requires Stands(env, t, m) && t.reg.None? && StepT(config, t, ImplicitValue(block)).Some?
    ensures var op := ImplicitValue(block);
      StepM(env, m, op).Some? && Stands(env, StepT(config, t, op).value, StepM(env, m, op).value)
  {
    hide Good, Stack;
    ImplicitGood(config, env, t, block);
  }

  // ----- the whole expression -----

  /** In an ordered list the forward scan finds the operation at the target offset. */
  lemma {:induction false} IndexFound(code: seq<Instr>, i: nat, j: nat)
    requires Ascending(code) && i <= j < |code|
    ensures IndexAt(code, code[j].offset, i) == Some(j)
    decreases j - i
  {
    if i < j { IndexFound(code, i + 1, j); }
  }

  lemma {:induction false} TransSim(config: Config, env: Env, code: seq<Instr>, i: nat, w: Work, m: Meaning, done: seq<PieceMeaning>)
    requires i <= |code| && Encoded(code) && SoundFrom(config, env, code, i, w)
    requires Stands(env, w.t, m) && DenotesAll(env, w.pieces, done)
    requires TransFrom(config, code, i, w).Ok?
    ensures var w' := TransFrom(config, code, i, w).value;
      var result := MeaningFrom(config, env, code, i, m, done);
      result.Some? && Stands(env, w'.t, result.value.1) && DenotesAll(env, w'.pieces, result.value.0) && TidyEnd(w'.t)
    decreases |code| - i
  {
    hide Stands, Denotes, Step, StepM, StepT, Sound, TidyEnd, Finish, Reset, IndexAt, TransFrom, MeaningFrom, SoundFrom;
    hide SkipTarget, Jump, Encoded;
    if i == |code| {
      AtEnd(config, env, code, w, m, done);
    } else {
      match code[i].op
      case Skip(_) =>
        AtSkip(config, env, code, i, w, m, done);
        var j := SkipTo(code, i, SkipTarget(code[i])) + 1;
        EncodedAscends(code);
        IndexFound(code, 0, j);
        SkipTargetRight(code, i);
        TransSim(config, env, code, j, w, m, done);
      case Piece(bytes) =>
        AtPiece(config, env, code, i, w, m, done);
        FinishDenotes(env, w.t, m);
        ResetStands(config, env, w.t.max);
        TransSim(config, env, code, i + 1, NextPiece(config, w, Finish(w.t).value, bytes, i + 1),
                 Start(config, env), done + [PieceMeaning(m, bytes)]);
      case op =>
        AtOp(config, env, code, i, w, m, done);
        StepStands(config, env, w.t, m, op);
        TransSim(config, env, code, i + 1, w.(t := StepT(config, w.t, op).value), StepM(env, m, op).value, done);
    }
  }

  // The four cases of the three recursions.

  lemma AtEnd(config: Config, env: Env, code: seq<Instr>, w: Work, m: Meaning, done: seq<PieceMeaning>)
    ensures TransFrom(config, code, |code|, w) == Ok(w) && MeaningFrom(config, env, code, |code|, m, done) == Some((done, m))
    ensures SoundFrom(config, env, code, |code|, w) == TidyEnd(w.t)
  {
  }

  lemma AtSkip(config: Config, env: Env, code: seq<Instr>, i: nat, w: Work, m: Meaning, done: seq<PieceMeaning>)
    requires i < |code| && code[i].op.Skip? && SoundFrom(config, env, code, i, w) && TransFrom(config, code, i, w).Ok?
    ensures var target := SkipTarget(code[i]);
      var j := SkipTo(code, i, target) + 1;
      && j < |code| && code[j].offset == target
      && TransFrom(config, code, i, w) == TransFrom(config, code, j, w) && SoundFrom(config, env, code, j, w)
      && (Jump(code, i) == Some(target) && IndexAt(code, target) == Some(j) ==> MeaningFrom(config, env, code, i, m, done) == MeaningFrom(config, env, code, j, m, done))
  {
    hide SkipTarget, IndexAt, Jump;
  }

  lemma AtPiece(config: Config, env: Env, code: seq<Instr>, i: nat, w: Work, m: Meaning, done: seq<PieceMeaning>)
    requires i < |code| && code[i].op.Piece? && SoundFrom(config, env, code, i, w) && TransFrom(config, code, i, w).Ok?
    ensures Finish(w.t).Some? && TidyEnd(w.t)
    ensures var next := NextPiece(config, w, Finish(w.t).value, code[i].op.bytes, i + 1);
      && TransFrom(config, code, i, w) == TransFrom(config, code, i + 1, next) && SoundFrom(config, env, code, i + 1, next)
      && MeaningFrom(config, env, code, i, m, done) ==
         MeaningFrom(config, env, code, i + 1, Start(config, env), done + [PieceMeaning(m, code[i].op.bytes)])
  {
    hide Finish, TidyEnd;
  }

  lemma AtOp(config: Config, env: Env, code: seq<Instr>, i: nat, w: Work, m: Meaning, done: seq<PieceMeaning>)
    requires i < |code| && !code[i].op.Skip? && !code[i].op.Piece?
    requires SoundFrom(config, env, code, i, w) && TransFrom(config, code, i, w).Ok?
    ensures StepT(config, w.t, code[i].op).Some? && Sound(env, w.t, code[i].op)
    ensures var next := w.(t := StepT(config, w.t, code[i].op).value);
      && TransFrom(config, code, i, w) == TransFrom(config, code, i + 1, next) && SoundFrom(config, env, code, i + 1, next)
      && (StepM(env, m, code[i].op).Some? ==>
          MeaningFrom(config, env, code, i, m, done) == MeaningFrom(config, env, code, i + 1, StepM(env, m, code[i].op).value, done))
  {
    hide StepT, StepM, Sound;
  }

  /** A skip by the length of the next n operations passes over exactly those, in the translator
      and in the machine; one by 0 over none. */
  lemma SkipPasses(config: Config, env: Env, code: seq<Instr>, i: nat, n: nat, w: Work, m: Meaning, done: seq<PieceMeaning>)
    requires Encoded(code) && i + 1 + n < |code| && !w.t.value && w.t.implicit.None?
    requires code[i].op == Op.Skip(code[i + 1 + n].offset - code[i + 1].offset)
    ensures TransFrom(config, code, i, w) == TransFrom(config, code, i + 1 + n, w)
    ensures MeaningFrom(config, env, code, i, m, done) == MeaningFrom(config, env, code, i + 1 + n, m, done)
  {
    hide TransFrom, MeaningFrom;
    var j := i + 1 + n;
    SkipTargetRight(code, i);
    EncodedAscends(code);
    assert SkipTarget(code[i]) == code[j].offset;
    assert SkipTo(code, i, code[j].offset) == j - 1;
    IndexFound(code, 0, j);
    SkipUnfolds(config, env, code, i, w, m, done, j);
  }

  lemma SkipUnfolds(config: Config, env: Env, code: seq<Instr>, i: nat, w: Work, m: Meaning, done: seq<PieceMeaning>, j: nat)
    requires i < j < |code| && code[i].op.Skip? && !w.t.value && w.t.implicit.None?
    requires SkipTarget(code[i]) == code[j].offset && SkipTo(code, i, code[j].offset) == j - 1
    requires Jump(code, i) == Some(code[j].offset) && IndexAt(code, code[j].offset) == Some(j)
    ensures TransFrom(config, code, i, w) == TransFrom(config, code, j, w)
    ensures MeaningFrom(config, env, code, i, m, done) == MeaningFrom(config, env, code, j, m, done)
  {
    hide SkipTarget, Jump, IndexAt, SkipTo;
  }

  /** A skip backwards is an error: the translator never goes back. */
  lemma SkipBackRefused(config: Config, code: seq<Instr>, i: nat, w: Work)
    requires Encoded(code) && i + 1 < |code| && code[i].op.Skip?
    requires 0 <= code[i + 1].offset + code[i].op.distance < code[i + 1].offset
    ensures TransFrom(config, code, i, w) == Die(i)
  {
    SkipTargetRight(code, i);
    assert SkipTarget(code[i]) < code[i + 1].offset;
    assert SkipTo(code, i, SkipTarget(code[i])) == i;
  }

  /** What a location expression denotes. */
  ghost predicate DenotesLocation(env: Env, location: Location, pieces: seq<PieceMeaning>, last: Meaning) {
    match location
    case Single(loc) => pieces == [] && Denotes(env, loc, last)
    case Composite(ps, bytes) => DenotesAll(env, ps, pieces) && ps != [] && bytes == Sum(ps)
  }

  /** The location computed by the translator, run in an environment in which every step is
      right, is the location the machine computes: piece by piece, with its kind, size and
      contents. */
  lemma TranslateSound(config: Config, env: Env, code: seq<Instr>)
    requires Encoded(code) && SoundExpression(config, env, code) && Translate(config, code).Ok?
    ensures var result := MeaningFrom(config, env, code, 0, Start(config, env), []);
      result.Some? && DenotesLocation(env, Translate(config, code).value, result.value.0, result.value.1)
  {
    hide Stands, Denotes, Sound;
    ResetStands(config, env, 0);
    TransSim(config, env, code, 0, Begin(config), Start(config, env), []);
    var w := TransFrom(config, code, 0, Begin(config)).value;
    if w.pieces == [] { FinishDenotes(env, w.t, MeaningFrom(config, env, code, 0, Start(config, env), []).value.1); }
  }

  /** A tidy expression is so translated for any environment. */
  lemma TranslateCorrect(config: Config, env: Env, code: seq<Instr>)
    requires Encoded(code) && TidyExpression(config, code) && Translate(config, code).Ok?
    ensures var result := MeaningFrom(config, env, code, 0, Start(config, env), []);
      result.Some? && DenotesLocation(env, Translate(config, code).value, result.value.0, result.value.1)
  {
    hide TidyFrom, SoundFrom;
    TidySoundFrom(config, env, code, 0, Begin(config));
    TranslateSound(config, env, code);
  }
}
