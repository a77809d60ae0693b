/**
 What a location says of its program: how many temporaries it needs and whether it needs the
 `deref` macro; which pieces make up a composite; and where the translation of an expression
 must stop.
 */
module LocNeeds {
  import opened Basics
  import opened Dwarf
  import opened Loc2c
  import opened Locations

  // ----- temporaries -----

  predicate Assigns(code: seq<CLine>, i: int) { exists line | line in code :: line.CAssign? && line.slot == i }

  /** The assignments are to temporaries below n, and n is `low` or one of them is to the last. */
  predicate Needs(code: seq<CLine>, low: nat, n: nat) {
    && low <= n
    && (forall line | line in code && line.CAssign? :: line.slot < n)
    && (n > low ==> Assigns(code, n - 1))
  }

  lemma NeedsMore(code: seq<CLine>, lines: seq<CLine>, low: nat, depth: nat, max: nat)
    requires Needs(code, low, max) && depth <= max
    requires (forall line | line in lines && line.CAssign? :: line.slot <= depth) && Assigns(lines, depth)
    ensures Needs(code + lines, low, if depth == max then max + 1 else max)
  {
    var line :| line in lines && line.CAssign? && line.slot == depth;
    assert line in code + lines;
    if max > low && depth < max {
      var other :| other in code && other.CAssign? && other.slot == max - 1;
      assert other in code + lines;
    }
  }

  /** After an implicit value, which takes up a place on the stack, there is at least one. */
  function Floor(t: Trans, low: nat): nat { if t.implicit.Some? && low == 0 then 1 else low }

  predicate Counted(t: Trans, low: nat) {
    t.depth <= t.max && Needs(t.code, Floor(t, low), t.max) && (t.implicit.Some? ==> t.depth == 1)
  }

  lemma PushCounted(t: Trans, e: CExpr, low: nat)
    requires Counted(t, low) && t.implicit.None?
    ensures Counted(PushT(t, e), low)
  {
    assert CAssign(t.depth, e) in [CAssign(t.depth, e)];
    NeedsMore(t.code, [CAssign(t.depth, e)], low, t.depth, t.max);
  }

  lemma PopCounted(t: Trans, low: nat)
    requires Counted(t, low) && t.implicit.None? && PopT(t).Some?
    ensures Counted(PopT(t).value.0, low) && PopT(t).value.0.implicit.None? && PopT(t).value.0.depth < PopT(t).value.0.max
  {
    if t.depth == 0 {
      var line := CAssign(t.depth, CRegister(t.reg.value));
      assert line in [line];
      NeedsMore(t.code, [line], low, t.depth, t.max);
    }
  }

  lemma DropCounted(config: Config, t: Trans, low: nat)
    requires Counted(t, low) && t.implicit.None? && StepT(config, t, Drop).Some?
    ensures Counted(StepT(config, t, Drop).value, low)
  {
    PopCounted(t, low);
    var (t1, i) := PopT(t).value;
    if t1.max > low {
      var line :| line in t1.code && line.CAssign? && line.slot == t1.max - 1;
      assert line in t1.code + [CDropped(i)];
    }
  }

  lemma ExchangeCounted(config: Config, t: Trans, op: Op, low: nat)
    requires (op.Swap? || op.Rot?) && Counted(t, low) && StepT(config, t, op).Some?
    ensures Counted(StepT(config, t, op).value, low)
  {
    hide Needs;
    var d, lines := t.depth, StepT(config, t, op).value.code[|t.code|..];
    assert StepT(config, t, op).value.code == t.code + lines;
    assert lines[0] == CAssign(d, CSlot(d - 1)) && lines[0] in lines;
    NeedsMore(t.code, lines, low, d, t.max);
  }

  lemma PopsCounted(t: Trans, m: Use1, m2: Use2, low: nat)
    requires Counted(t, low) && t.implicit.None?
    ensures Pop1(t, m).Some? ==> Counted(Pop1(t, m).value, low)
    ensures Pop2(t, m2).Some? ==> Counted(Pop2(t, m2).value, low)
  {
    hide Needs, PopT, PushT;
    if PopT(t).Some? {
      PopCounted(t, low);
      var (t1, i) := PopT(t).value;
      PushCounted(t1, Emit1(m, i), low);
      if PopT(t1).Some? {
        PopCounted(t1, low);
        var (t2, j) := PopT(t1).value;
        PushCounted(t2, Emit2(m2, i, j), low);
      }
    }
  }

  lemma ValueCounted(config: Config, t: Trans, op: Op, low: nat)
    requires (op.StackValue? || op.ImplicitValue?) && Counted(t, low) && StepT(config, t, op).Some?
    ensures Counted(StepT(config, t, op).value, low)
  {
    if op.StackValue? { PopCounted(t, low); }
  }

  lemma StepCounted(config: Config, t: Trans, op: Op, low: nat)
    requires Counted(t, low) && StepT(config, t, op).Some?
    ensures Counted(StepT(config, t, op).value, low)
  {
    hide Needs, PushT, Pop1, Pop2, PopT;
    if op != Nop {
      match op
      case Drop => DropCounted(config, t, low);
      case Swap | Rot => ExchangeCounted(config, t, op, low);
      case StackValue | ImplicitValue(_) => ValueCounted(config, t, op, low);
      case Deref => PopsCounted(t, Fetched(POINTER_SIZE), SpaceFetched(0), low);
      case DerefSize(n) => PopsCounted(t, Fetched(n), SpaceFetched(0), low);
      case XDeref => PopsCounted(t, Fetched(0), SpaceFetched(POINTER_SIZE), low);
      case XDerefSize(n) => PopsCounted(t, Fetched(0), SpaceFetched(n), low);
      case Unary(u) => PopsCounted(t, Operated(u), SpaceFetched(0), low);
      case Binary(b) => PopsCounted(t, Fetched(0), Combined(b), low);
      case PlusUconst(c) => PopsCounted(t, Added(c), SpaceFetched(0), low);
      case Reg(_) =>
      case _ => PushedCounted(config, t, op, low);
    }
  }

  /** What an operation that pops nothing pushes. */
  function Pushed(t: Trans, op: Op): CExpr {
    match op
    case Dup => CSlot(t.depth - 1)
    case Pick(k) => CSlot((t.depth - 1 - k) % 256)
    case Over => CSlot((t.depth - 2) % 256)
    case Addr(a) => CAddress(a)
    case Const(v) => CConst(v)
    case Breg(r, o) => CRegisterPlus(r, o)
    case Fbreg(o) => CFramePlus(o)
    case _ => CInput
  }

  lemma PushedCounted(config: Config, t: Trans, op: Op, low: nat)
    requires op.Dup? || op.Pick? || op.Over? || op.Addr? || op.Const? || op.Breg? || op.Fbreg?
    requires Counted(t, low) && StepT(config, t, op).Some?
    ensures Counted(StepT(config, t, op).value, low)
  {
    hide Needs, PushT;
    var e := Pushed(t, op);
    assert StepT(config, t, op) == Some(PushT(t, e));
    PushCounted(t, e, low);
  }

  lemma ResetCounted(config: Config, max: nat)
    ensures Counted(Reset(config, max), max)
  {
    hide PushT;
    var t := Trans(0, max, None, false, None, false, []);
    PushCounted(t, CInput, max);
  }

  // ----- the deref macro -----

  predicate Fetches(line: CLine) { line.CAssign? && (line.e.CDeref? || line.e.CXDeref?) }

  predicate Dereferences(code: seq<CLine>) { exists line | line in code :: Fetches(line) }

  lemma DereferencesMore(code: seq<CLine>, line: CLine)
    ensures Dereferences(code + [line]) <==> Dereferences(code) || Fetches(line)
  {
    if Dereferences(code) {
      var x :| x in code && Fetches(x);
      assert x in code + [line];
    }
    assert line in code + [line];
  }

  predicate Marked(t: Trans) { t.deref <==> Dereferences(t.code) }

  lemma PushMarked(t: Trans, e: CExpr)
    ensures PushT(t, e).deref == t.deref
    ensures Dereferences(PushT(t, e).code) <==> Dereferences(t.code) || e.CDeref? || e.CXDeref?
  {
    DereferencesMore(t.code, CAssign(t.depth, e));
  }

  lemma PopMarked(t: Trans)
    requires PopT(t).Some?
    ensures PopT(t).value.0.deref == t.deref && (Dereferences(PopT(t).value.0.code) <==> Dereferences(t.code))
  {
    if t.depth == 0 { DereferencesMore(t.code, CAssign(t.depth, CRegister(t.reg.value))); }
  }

  lemma PopsMarked(t: Trans, m: Use1, m2: Use2)
    ensures Pop1(t, m).Some? ==> Pop1(t, m).value.deref == t.deref
    ensures Pop1(t, m).Some? ==> (Dereferences(Pop1(t, m).value.code) <==> Dereferences(t.code) || m.Fetched?)
    ensures Pop2(t, m2).Some? ==> Pop2(t, m2).value.deref == t.deref
    ensures Pop2(t, m2).Some? ==> (Dereferences(Pop2(t, m2).value.code) <==> Dereferences(t.code) || m2.SpaceFetched?)
  {
    hide Dereferences, PopT, PushT;
    if PopT(t).Some? {
      PopMarked(t);
      var (t1, i) := PopT(t).value;
      PushMarked(t1, Emit1(m, i));
      if PopT(t1).Some? {
        PopMarked(t1);
        var (t2, j) := PopT(t1).value;
        PushMarked(t2, Emit2(m2, i, j));
      }
    }
  }

  lemma DropMarked(config: Config, t: Trans)
    requires Marked(t) && StepT(config, t, Drop).Some?
    ensures Marked(StepT(config, t, Drop).value)
  {
    PopMarked(t);
    var (t1, i) := PopT(t).value;
    DereferencesMore(t1.code, CDropped(i));
  }

  lemma ExchangeMarked(config: Config, t: Trans, op: Op)
    requires (op.Swap? || op.Rot?) && Marked(t) && StepT(config, t, op).Some?
    ensures Marked(StepT(config, t, op).value)
  {
    hide Dereferences;
    var d: int := t.depth;
    var a, b, c := CAssign(d, CSlot(d - 1)), CAssign(d - 1, CSlot(d - 2)), CAssign(d - 2, CSlot(if op.Swap? then d else d - 3));
    DereferencesMore(t.code, a);
    DereferencesMore(t.code + [a], b);
    DereferencesMore(t.code + [a] + [b], c);
    assert t.code + [a] + [b] + [c] == t.code + [a, b, c];
    if op.Rot? {
      var e := CAssign(d - 4, CSlot(d));
      DereferencesMore(t.code + [a, b, c], e);
      assert t.code + [a, b, c] + [e] == t.code + [a, b, c, e];
    }
  }

  lemma ValueMarked(config: Config, t: Trans, op: Op)
    requires (op.StackValue? || op.ImplicitValue?) && Marked(t) && StepT(config, t, op).Some?
    ensures Marked(StepT(config, t, op).value)
  {
    if op.StackValue? { PopMarked(t); }
  }

  lemma PushedMarked(config: Config, t: Trans, op: Op)
    requires op.Dup? || op.Pick? || op.Over? || op.Addr? || op.Const? || op.Breg? || op.Fbreg?
    requires Marked(t) && StepT(config, t, op).Some?
    ensures Marked(StepT(config, t, op).value)
  {
    hide Dereferences, PushT;
    var e := Pushed(t, op);
    assert StepT(config, t, op) == Some(PushT(t, e));
    PushMarked(t, e);
  }

  lemma StepMarked(config: Config, t: Trans, op: Op)
    requires Marked(t) && StepT(config, t, op).Some?
    ensures Marked(StepT(config, t, op).value)
  {
    hide Dereferences, PushT, Pop1, Pop2, PopT;
    if op != Nop {
      match op
      case Drop => DropMarked(config, t);
      case Swap | Rot => ExchangeMarked(config, t, op);
      case StackValue | ImplicitValue(_) => ValueMarked(config, t, op);
      case Deref => PopsMarked(t, Fetched(POINTER_SIZE), SpaceFetched(0));
      case DerefSize(n) => PopsMarked(t, Fetched(n), SpaceFetched(0));
      case XDeref => PopsMarked(t, Fetched(0), SpaceFetched(POINTER_SIZE));
      case XDerefSize(n) => PopsMarked(t, Fetched(0), SpaceFetched(n));
      case Unary(u) => PopsMarked(t, Operated(u), SpaceFetched(0));
      case Binary(b) => PopsMarked(t, Fetched(0), Combined(b));
      case PlusUconst(c) => PopsMarked(t, Added(c), SpaceFetched(0));
      case Reg(_) =>
      case _ => PushedMarked(config, t, op);
    }
  }

  lemma ResetMarked(config: Config, max: nat)
    ensures Marked(Reset(config, max))
  {
    hide PushT;
    var t := Trans(0, max, None, false, None, false, []);
    PushMarked(t, CInput);
  }

  // ----- whole expressions -----

  function Program(loc: Loc): seq<CLine> { if loc.AddressLoc? || loc.ValueLoc? then loc.code else [] }

  /** n temporaries serve for all these pieces, and no fewer do; a piece of constant bytes may have
      claimed one that nothing uses. */
  ghost predicate Serves(ps: seq<PieceLoc>, n: nat) {
    && (forall p, line | p in ps && line in Program(p.loc) && line.CAssign? :: line.slot < n)
    && (n > 0 ==> (exists p | p in ps :: Assigns(Program(p.loc), n - 1)) || exists p | p in ps :: p.loc.ConstantLoc?)
  }

  /** What the last piece declares is what it and the pieces before it need. */
  ghost predicate Declares(ps: seq<PieceLoc>)
    requires ps != []
  {
    var loc := ps[|ps| - 1].loc;
    loc.AddressLoc? || loc.ValueLoc? ==> Serves(ps, loc.slots) && (loc.deref <==> Dereferences(loc.code))
  }

  ghost predicate AllDeclare(ps: seq<PieceLoc>) { forall k | 0 < k <= |ps| :: Declares(ps[..k]) }

  lemma AllDeclareSnoc(ps: seq<PieceLoc>, p: PieceLoc)
    requires AllDeclare(ps) && Declares(ps + [p])
    ensures AllDeclare(ps + [p])
  {
    forall k | 0 < k <= |ps| + 1 ensures Declares((ps + [p])[..k]) {
      if k <= |ps| { assert (ps + [p])[..k] == ps[..k]; } else { assert (ps + [p])[..k] == ps + [p]; }
    }
  }

  lemma PieceServes(ps: seq<PieceLoc>, t: Trans, low: nat, bytes: nat)
    requires Serves(ps, low) && Counted(t, low) && Marked(t) && Finish(t).Some?
    ensures Serves(ps + [PieceLoc(Finish(t).value, bytes)], t.max) && Declares(ps + [PieceLoc(Finish(t).value, bytes)])
  {
    hide Dereferences;
    var p := PieceLoc(Finish(t).value, bytes);
    assert p in ps + [p];
    if t.max > 0 && t.implicit.None? {
      if t.max > low {
        assert Assigns(t.code, t.max - 1);
      } else if q :| q in ps && Assigns(Program(q.loc), low - 1) {
        assert q in ps + [p];
      } else {
        var q :| q in ps && q.loc.ConstantLoc?;
        assert q in ps + [p];
      }
    }
  }

  lemma {:induction false} TransNeeds(config: Config, code: seq<Instr>, i: nat, w: Work, low: nat)
    requires i <= |code| && Counted(w.t, low) && Marked(w.t) && Serves(w.pieces, low) && AllDeclare(w.pieces)
    ensures match TransFrom(config, code, i, w)
      case Die(_) => true
      case Ok(w1) => AllDeclare(w1.pieces) && Marked(w1.t) && exists low1 :: Counted(w1.t, low1) && Serves(w1.pieces, low1)
    decreases |code| - i
  {
    hide Counted, Marked, Serves, AllDeclare, Declares, StepT, Finish, Reset, SkipTarget, SkipTo;
    if i < |code| {
      var op := code[i].op;
      if op.Skip? {
        TransNeeds(config, code, SkipTo(code, i, SkipTarget(code[i])) + 1, w, low);
      } else if op.Piece? {
        if Finish(w.t).Some? {
          PieceServes(w.pieces, w.t, low, op.bytes);
          AllDeclareSnoc(w.pieces, PieceLoc(Finish(w.t).value, op.bytes));
          ResetCounted(config, w.t.max);
          ResetMarked(config, w.t.max);
          TransNeeds(config, code, i + 1, NextPiece(config, w, Finish(w.t).value, op.bytes, i + 1), w.t.max);
        }
      } else if StepT(config, w.t, op).Some? {
        StepCounted(config, w.t, op, low);
        StepMarked(config, w.t, op);
        TransNeeds(config, code, i + 1, w.(t := StepT(config, w.t, op).value), low);
      }
    }
  }

  /** A location declares exactly the temporaries its program assigns, and says that it needs the
      `deref` macro exactly if its program uses it.  In a composite, temporaries are counted over
      the pieces so far. */
  lemma NeedsExact(config: Config, code: seq<Instr>)
    ensures match Translate(config, code)
      case Die(_) => true
      case Ok(Single(loc)) => loc.AddressLoc? || loc.ValueLoc? ==> Needs(loc.code, 0, loc.slots) && (loc.deref <==> Dereferences(loc.code))
      case Ok(Composite(ps, _)) => AllDeclare(ps)
  {
    hide TransFrom, Needs, Dereferences, Reset;
    ResetCounted(config, 0);
    ResetMarked(config, 0);
    TransNeeds(config, code, 0, Begin(config), 0);
  }

  // ----- composites -----

  /** The operands of the piece operations from i on. */
  function PieceSizes(code: seq<Instr>, i: nat): seq<nat>
    requires i <= |code|
    decreases |code| - i
  {
    if i == |code| then [] else (if code[i].op.Piece? then [code[i].op.bytes] else []) + PieceSizes(code, i + 1)
  }

  function Sizes(ps: seq<PieceLoc>): (r: seq<nat>)
    ensures |r| == |ps| && forall k | 0 <= k < |ps| :: r[k] == ps[k].bytes
  {
    seq(|ps|, k requires 0 <= k < |ps| => ps[k].bytes)
  }

  function Total(ns: seq<nat>): nat
    decreases ns
  {
    if ns == [] then 0 else ns[0] + Total(ns[1..])
  }

  lemma {:induction false} TotalSnoc(ns: seq<nat>, n: nat)
    ensures Total(ns + [n]) == Total(ns) + n
    decreases ns
  {
    if ns != [] {
      assert (ns + [n])[1..] == ns[1..] + [n];
      TotalSnoc(ns[1..], n);
    } else {
      assert ([n])[1..] == [];
    }
  }

  lemma {:induction false} SumIsTotal(ps: seq<PieceLoc>)
    ensures Sum(ps) == Total(Sizes(ps))
    decreases ps
  {
    if ps != [] {
      var front := ps[..|ps| - 1];
      SumIsTotal(front);
      assert Sizes(ps) == Sizes(front) + [ps[|ps| - 1].bytes];
      TotalSnoc(Sizes(front), ps[|ps| - 1].bytes);
    }
  }

  lemma {:induction false} TransPieces(config: Config, code: seq<Instr>, i: nat, w: Work)
    requires i <= |code| && (forall k | i <= k < |code| :: !code[k].op.Skip?)
    ensures TransFrom(config, code, i, w).Ok? ==>
      Sizes(TransFrom(config, code, i, w).value.pieces) == Sizes(w.pieces) + PieceSizes(code, i)
    decreases |code| - i
  {
    hide StepT, Finish, Reset, Sizes, PieceSizes, NextPiece;
    SizesUnfold(code, i, w.pieces);
    if i < |code| {
      var op := code[i].op;
      if op.Piece? {
        if Finish(w.t).Some? {
          TransPieces(config, code, i + 1, NextPiece(config, w, Finish(w.t).value, op.bytes, i + 1));
          SizesNext(config, code, i, w);
        }
      } else if StepT(config, w.t, op).Some? {
        TransPieces(config, code, i + 1, w.(t := StepT(config, w.t, op).value));
      }
    }
  }

  lemma SizesUnfold(code: seq<Instr>, i: nat, ps: seq<PieceLoc>)
    requires i <= |code|
    ensures i == |code| ==> Sizes(ps) + PieceSizes(code, i) == Sizes(ps)
    ensures i < |code| && !code[i].op.Piece? ==> PieceSizes(code, i) == PieceSizes(code, i + 1)
  {
  }

  lemma SizesNext(config: Config, code: seq<Instr>, i: nat, w: Work)
    requires i < |code| && code[i].op.Piece? && Finish(w.t).Some?
    ensures Sizes(NextPiece(config, w, Finish(w.t).value, code[i].op.bytes, i + 1).pieces) + PieceSizes(code, i + 1) ==
      Sizes(w.pieces) + PieceSizes(code, i)
  {
    hide Finish, Reset;
    var n := code[i].op.bytes;
    var w1 := NextPiece(config, w, Finish(w.t).value, n, i + 1);
    assert Sizes(w1.pieces) == Sizes(w.pieces) + [n];
    assert PieceSizes(code, i) == [n] + PieceSizes(code, i + 1);
  }

  /** The piece in progress began after a piece operation, unless it is the first. */
  predicate Placed(code: seq<Instr>, w: Work) {
    w.pieces != [] ==> 0 < w.start <= |code| && code[w.start - 1].op.Piece?
  }

  lemma {:induction false} StartsAfterPiece(config: Config, code: seq<Instr>, i: nat, w: Work)
    requires i <= |code| && Placed(code, w)
    ensures TransFrom(config, code, i, w).Ok? ==> Placed(code, TransFrom(config, code, i, w).value)
    decreases |code| - i
  {
    hide StepT, Finish, Reset, SkipTarget, SkipTo, Placed;
    if i < |code| {
      var op := code[i].op;
      if op.Skip? {
        StartsAfterPiece(config, code, SkipTo(code, i, SkipTarget(code[i])) + 1, w);
      } else if op.Piece? {
        if Finish(w.t).Some? {
          var w1 := NextPiece(config, w, Finish(w.t).value, op.bytes, i + 1);
          PlacedNext(config, code, i, w);
          StartsAfterPiece(config, code, i + 1, w1);
        }
      } else if StepT(config, w.t, op).Some? {
        PlacedStep(code, w, StepT(config, w.t, op).value);
        StartsAfterPiece(config, code, i + 1, w.(t := StepT(config, w.t, op).value));
      }
    }
  }

  lemma PlacedNext(config: Config, code: seq<Instr>, i: nat, w: Work)
    requires i < |code| && code[i].op.Piece? && Finish(w.t).Some?
    ensures Placed(code, NextPiece(config, w, Finish(w.t).value, code[i].op.bytes, i + 1))
  {
  }

  lemma PlacedStep(code: seq<Instr>, w: Work, t: Trans)
    requires Placed(code, w)
    ensures Placed(code, w.(t := t))
  {
  }

  /** The expression of a composite ends with a piece.  Without skips, its pieces are those of the
      piece operations, in order, and it is as long as they are together; without pieces it is no
      composite. */
  lemma CompositeExact(config: Config, code: seq<Instr>)
    ensures match Translate(config, code)
      case Die(_) => true
      case Ok(Composite(ps, n)) =>
        && ps != [] && code[|code| - 1].op.Piece? && n == Total(Sizes(ps))
        && ((forall k | 0 <= k < |code| :: !code[k].op.Skip?) ==> Sizes(ps) == PieceSizes(code, 0))
      case Ok(Single(_)) => (forall k | 0 <= k < |code| :: !code[k].op.Skip?) ==> PieceSizes(code, 0) == []
  {
    hide TransFrom, Reset, Finish, Sum, Total;
    StartsAfterPiece(config, code, 0, Begin(config));
    if TransFrom(config, code, 0, Begin(config)).Ok? { SumIsTotal(TransFrom(config, code, 0, Begin(config)).value.pieces); }
    if forall k | 0 <= k < |code| :: !code[k].op.Skip? {
      TransPieces(config, code, 0, Begin(config));
      assert [] + PieceSizes(code, 0) == PieceSizes(code, 0);
    }
  }

  // ----- where a translation must stop -----

  /** Once a piece is known to be a value or constant bytes, only a null operation or the end of the
      piece may follow. */
  lemma NothingAfterValue(config: Config, code: seq<Instr>, i: nat, w: Work)
    requires i < |code| && (w.t.value || w.t.implicit.Some?)
    ensures !code[i].op.Nop? && !code[i].op.Piece? ==> TransFrom(config, code, i, w) == Die(i)
  {
  }

  /** A skip to where no operation begins is reported at the last operation before that place, or at
      the skip itself. */
  lemma SkipRefused(config: Config, code: seq<Instr>, i: nat, w: Work)
    requires Encoded(code) && i + 1 < |code| && code[i].op.Skip? && !w.t.value && w.t.implicit.None?
    requires forall k | i < k < |code| :: code[k].offset != Jump(code, i).value
    ensures match TransFrom(config, code, i, w)
      case Ok(_) => false
      case Die(j) =>
        && i <= j < |code|
        && (forall k | i < k <= j :: code[k].offset < Jump(code, i).value)
        && (forall k | j < k < |code| :: code[k].offset > Jump(code, i).value)
  {
    SkipTargetRight(code, i);
    EncodedAscends(code);
    var j := SkipTo(code, i, SkipTarget(code[i]));
    forall k | j < k < |code| ensures code[k].offset > SkipTarget(code[i]) {
      assert code[j + 1].offset >= SkipTarget(code[i]);
    }
  }
}
