/**
 The translator as it works: counters, a pending program and a list of pieces, updated
 operation by operation.
 */
module Translator {
  import opened Basics
  import opened Dwarf
  import opened Loc2c
  import opened Locations

  class LocationTranslator {
    const config: Config
    var stackDepth: nat
    var maxStack: nat
    var tosRegister: Option<nat>
    var tosValue: bool
    var implicitValue: Option<seq<int>>
    var usedDeref: bool
    var program: seq<CLine>
    var pieces: seq<PieceLoc>
    var pieceStart: nat
    var totalBytes: nat

    /** The state of the piece in progress. */
    ghost function T(): Trans
      reads this
    {
      Trans(stackDepth, maxStack, tosRegister, tosValue, implicitValue, usedDeref, program)
    }

    ghost function W(): Work
      reads this
    {
      Work(T(), pieces, pieceStart)
    }

    constructor (config: Config)
      ensures W() == Begin(config) && totalBytes == 0 && this.config == config
    {
      this.config := config;
      maxStack, pieces, pieceStart, totalBytes := 0, [], 0, 0;
      stackDepth, tosRegister, tosValue, implicitValue, usedDeref, program := 0, None, false, None, false, [];
      new;
      StartPiece();
    }

    method Deepen()
      modifies `maxStack
      ensures T() == Loc2c.Deepen(old(T()))
    {
      if stackDepth == maxStack { maxStack := maxStack + 1; }
    }

    method Emit(line: CLine)
      modifies `program
      ensures program == old(program) + [line]
    {
      program := program + [line];
    }

    method Push(e: CExpr)
      modifies `program, `stackDepth, `maxStack
      ensures T() == PushT(old(T()), e)
    {
      Deepen();
      Emit(CAssign(stackDepth, e));
      stackDepth := stackDepth + 1;
    }

    /** Takes an entry off the stack, fetching a waiting register when there is no other. */
    method Pop() returns (slot: Option<int>)
      modifies `program, `stackDepth, `maxStack, `tosRegister
      ensures match PopT(old(T()))
        case None => slot == None && T() == old(T())
        case Some((t, i)) => slot == Some(i) && T() == t
    {
      if stackDepth > 0 {
        stackDepth := stackDepth - 1;
      } else if tosRegister.Some? {
        Deepen();
        Emit(CAssign(stackDepth, CRegister(tosRegister.value)));
        tosRegister := None;
      } else {
        return None;
      }
      return Some(stackDepth);
    }

    method StartPiece()
      modifies `program, `stackDepth, `maxStack, `tosRegister, `tosValue, `implicitValue, `usedDeref
      ensures T() == Reset(config, old(maxStack))
    {
      stackDepth, tosRegister, tosValue, implicitValue, usedDeref, program := 0, None, false, None, false, [];
      match config.input {
        case NoInput =>
        case AddressInput => Push(CInput);
        case ValueInput =>
          Push(CInput);
          tosValue := true;
        case RegisterInput(r) => tosRegister := Some(r);
      }
    }

    method EndPiece() returns (loc: Option<Loc>)
      ensures loc == Finish(T())
    {
      if stackDepth > 1 {
        return None;
      } else if stackDepth == 1 {
        if implicitValue.Some? {
          return Some(ConstantLoc(implicitValue.value));
        } else if tosValue {
          return Some(ValueLoc(program, maxStack, usedDeref));
        }
        return Some(AddressLoc(program, maxStack, usedDeref));
      } else if tosRegister.None? || program != [] {
        return None;
      }
      return Some(RegisterLoc(tosRegister.value));
    }

    method PopOne(m: Use1) returns (ok: bool)
      modifies `program, `stackDepth, `maxStack, `tosRegister
      ensures ok == Pop1(old(T()), m).Some?
      ensures ok ==> T() == Pop1(old(T()), m).value
    {
      var i := Pop();
      if i.None? { return false; }
      Push(Emit1(m, i.value));
      return true;
    }

    method PopTwo(m: Use2) returns (ok: bool)
      modifies `program, `stackDepth, `maxStack, `tosRegister
      ensures ok == Pop2(old(T()), m).Some?
      ensures ok ==> T() == Pop2(old(T()), m).value
    {
      var top := Pop();
      if top.None? { return false; }
      var next := Pop();
      if next.None? { return false; }
      Push(Emit2(m, top.value, next.value));
      return true;
    }

    /** The operations that only rearrange the stack. */
    method Rearrange(op: Op) returns (ok: bool)
      requires op.Dup? || op.Drop? || op.Pick? || op.Over? || op.Swap? || op.Rot?
      requires !tosValue && implicitValue.None?
      modifies `program, `stackDepth, `maxStack, `tosRegister
      ensures ok == StepT(config, old(T()), op).Some?
      ensures ok ==> T() == StepT(config, old(T()), op).value
    {
      var d: int := stackDepth;
      ok := true;
      match op {
        case Dup =>
          if d < 1 { return false; }
          Push(CSlot(d - 1));
        case Drop =>
          var i := Pop();
          if i.None? { return false; }
          Emit(CDropped(i.value));
        case Pick(k) =>
          if k >= d { return false; }
          Push(CSlot((d - 1 - k) % 256));
        case Over =>
          if 1 >= d { return false; }
          Push(CSlot((d - 2) % 256));
        case Swap =>
          if d < 2 { return false; }
          Deepen();
          program := program + [CAssign(d, CSlot(d - 1)), CAssign(d - 1, CSlot(d - 2)), CAssign(d - 2, CSlot(d))];
        case Rot =>
          if d < 3 { return false; }
          Deepen();
          program := program +
            [CAssign(d, CSlot(d - 1)), CAssign(d - 1, CSlot(d - 2)), CAssign(d - 2, CSlot(d - 3)), CAssign(d - 4, CSlot(d))];
      }
    }

    method MarkedOne(m: Use1) returns (ok: bool)
      modifies `program, `stackDepth, `maxStack, `tosRegister, `usedDeref
      ensures ok == MarkDeref(Pop1(old(T()), m)).Some?
      ensures ok ==> T() == MarkDeref(Pop1(old(T()), m)).value
    {
      ok := PopOne(m);
      usedDeref := usedDeref || ok;
    }

    method MarkedTwo(m: Use2) returns (ok: bool)
      modifies `program, `stackDepth, `maxStack, `tosRegister, `usedDeref
      ensures ok == MarkDeref(Pop2(old(T()), m)).Some?
      ensures ok ==> T() == MarkDeref(Pop2(old(T()), m)).value
    {
      ok := PopTwo(m);
      usedDeref := usedDeref || ok;
    }

    method Operation(op: Op) returns (ok: bool)
      modifies `program, `stackDepth, `maxStack, `tosRegister, `tosValue, `implicitValue, `usedDeref
      ensures ok == StepT(config, old(T()), op).Some?
      ensures ok ==> T() == StepT(config, old(T()), op).value
    {
      hide PushT, Pop1, Pop2, MarkDeref;
      if (tosValue || implicitValue.Some?) && op != Nop { return false; }
      ok := true;
      match op {
        case Nop =>
        case Deref => ok := MarkedOne(Fetched(POINTER_SIZE));
        case DerefSize(n) => ok := MarkedOne(Fetched(n));
        case XDeref => ok := MarkedTwo(SpaceFetched(POINTER_SIZE));
        case XDerefSize(n) => ok := MarkedTwo(SpaceFetched(n));
        case Addr(a) => Push(CAddress(a));
        case Const(v) => Push(CConst(v));
        case Unary(u) => ok := PopOne(Operated(u));
        case Binary(b) => ok := PopTwo(Combined(b));
        case PlusUconst(c) => ok := PopOne(Added(c));
        case Breg(r, o) => Push(CRegisterPlus(r, o));
        case Fbreg(o) =>
          if !config.frameBase { return false; }
          Push(CFramePlus(o));
        case Reg(r) => tosRegister := Some(r);
        case StackValue =>
          if stackDepth > 1 { return false; }
          var tos := Pop();
          if tos.None? { return false; }
          Deepen();
          stackDepth := stackDepth + 1;
          tosValue := true;
        case ImplicitValue(block) =>
          if !config.attribute || stackDepth != 0 { return false; }
          implicitValue := Some(block);
          Deepen();
          stackDepth := stackDepth + 1;
        case Dup => ok := Rearrange(op);
        case Drop => ok := Rearrange(op);
        case Pick(_) => ok := Rearrange(op);
        case Over => ok := Rearrange(op);
        case Swap => ok := Rearrange(op);
        case Rot => ok := Rearrange(op);
        case _ => ok := false;
      }
    }

    method EndOfPiece(bytes: nat, i: nat) returns (ok: bool)
      requires totalBytes == Sum(pieces)
      modifies this
      ensures totalBytes == Sum(pieces)
      ensures ok == Finish(old(T())).Some?
      ensures ok ==> W() == NextPiece(config, old(W()), Finish(old(T())).value, bytes, i + 1)
    {
      var loc := EndPiece();
      if loc.None? { return false; }
      assert (pieces + [PieceLoc(loc.value, bytes)])[..|pieces|] == pieces;
      pieces := pieces + [PieceLoc(loc.value, bytes)];
      pieceStart := i + 1;
      totalBytes := totalBytes + bytes;
      StartPiece();
      return true;
    }

    /** The operation before the target of the skip at i. */
    method Skip(code: seq<Instr>, i: nat, target: int) returns (j: nat)
      requires i < |code|
      ensures j == SkipTo(code, i, target)
    {
      j := i;
      while j + 1 < |code| && code[j + 1].offset < target
        invariant i <= j < |code|
        invariant SkipTo(code, j, target) == SkipTo(code, i, target)
      {
        j := j + 1;
      }
    }

    /** The whole translation, from a fresh translator. */
    method Translate(code: seq<Instr>) returns (result: Result<Location>)
      requires W() == Begin(config) && totalBytes == 0
      modifies this
      ensures result == Locations.Translate(config, code)
    {
      hide StepT, Finish, Reset, SkipTo;
      var i := 0;
      while i < |code|
        invariant 0 <= i <= |code|
        invariant totalBytes == Sum(pieces)
        invariant TransFrom(config, code, i, W()) == TransFrom(config, code, 0, Begin(config))
      {
        match code[i].op {
          case Skip(_) =>
            if tosValue || implicitValue.Some? { return Die(i); }
            var target := SkipTarget(code[i]);
            var j := Skip(code, i, target);
            if j + 1 >= |code| || code[j + 1].offset != target { return Die(j); }
            i := j;
          case Piece(bytes) =>
            var ok := EndOfPiece(bytes, i);
            if !ok { return Die(i); }
          case op =>
            var ok := Operation(op);
            if !ok { return Die(i); }
        }
        i := i + 1;
      }
      if pieces == [] {
        var loc := EndPiece();
        return match loc case None => Die(i) case Some(loc) => Ok(Single(loc));
      }
      if pieceStart != i { return Die(i); }
      return Ok(Composite(pieces, totalBytes));
    }
  }
}
