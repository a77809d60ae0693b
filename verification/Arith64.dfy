/**
 The 64-bit arithmetic of the script language.

 A script number is an int64_t.  RunBin is what the generated C computes at run time
 (with the division helpers of runtime/arith.c); FoldBin is what the constant folder
 computes at compile time.  Overflow wraps around as two's complement does.  A run-time
 fault (a division by zero) and an undefined shift (by 64 places, which C leaves open)
 are None.
 */
module Arith64 {
  import opened Basics

  const MIN := -0x8000_0000_0000_0000
  const MAX := 0x7FFF_FFFF_FFFF_FFFF
  const TWO_TO_64 := 0x1_0000_0000_0000_0000

  type Word = x: int | -0x8000_0000_0000_0000 <= x <= 0x7FFF_FFFF_FFFF_FFFF

  datatype BinOp = Add | Sub | Mul | BitAnd | BitOr | BitXor | Shl | Shr | Div | Mod
  datatype UnOp = Plus | Neg | Not | Compl
  datatype CmpOp = Eq | Ne | Lt | Gt | Le | Ge

  /** Two's complement truncation to 64 bits. */
  function Wrap(x: int): (w: Word)
    ensures MIN <= x <= MAX ==> w == x
  {
    (x - MIN) % TWO_TO_64 + MIN
  }

  function Abs(x: int): nat { if x < 0 then -x else x }

  /** C division, which truncates toward zero. */
  function Quotient(a: int, b: int): int
    requires b != 0
  {
    var q := Abs(a) / Abs(b);
    if (a < 0) == (b < 0) then q else -q
  }

  /** C remainder, which takes the sign of the dividend. */
  function Remainder(a: int, b: int): int
    requires b != 0
  {
    var r := Abs(a) % Abs(b);
    if a < 0 then -r else r
  }

  // Bitwise operations work on the unsigned reading of a word, bit by bit.

  datatype BitOp = AndBit | OrBit | XorBit

  function Bit(op: BitOp, a: nat, b: nat): (r: nat)
    ensures r <= 1
  {
    match op
    case AndBit => if a % 2 == 1 && b % 2 == 1 then 1 else 0
    case OrBit => if a % 2 == 1 || b % 2 == 1 then 1 else 0
    case XorBit => if a % 2 != b % 2 then 1 else 0
  }

  function Pow2(n: nat): (r: nat)
    ensures r > 0
  {
    if n == 0 then 1 else 2 * Pow2(n - 1)
  }

  function Bits(op: BitOp, width: nat, a: nat, b: nat): nat {
    if width == 0 then 0 else Bit(op, a, b) + 2 * Bits(op, width - 1, a / 2, b / 2)
  }

  function Unsigned(a: Word): nat { if a < 0 then a + TWO_TO_64 else a }

  function Bitwise(op: BitOp, a: Word, b: Word): Word {
    Wrap(Bits(op, 64, Unsigned(a), Unsigned(b)))
  }

  /** The clamp `max(min(b, 64), 0)` put around every shift count. */
  function ShiftCount(b: Word): nat {
    if b < 0 then 0 else if b > 64 then 64 else b
  }

  /** The value of `a op b` in the running probe module. */
  function RunBin(op: BinOp, a: Word, b: Word): Option<Word> {
    match op
    case Add => Some(Wrap(a + b))
    case Sub => Some(Wrap(a - b))
    case Mul => Some(Wrap(a * b))
    case BitAnd => Some(Bitwise(AndBit, a, b))
    case BitOr => Some(Bitwise(OrBit, a, b))
    case BitXor => Some(Bitwise(XorBit, a, b))
    case Shl => if ShiftCount(b) == 64 then None else Some(Wrap(a * Pow2(ShiftCount(b))))
    case Shr => if ShiftCount(b) == 64 then None else Some(Wrap(a / Pow2(ShiftCount(b))))
    case Div => if b == 0 then None else if b == -1 then Some(Wrap(-(a as int))) else Some(Wrap(Quotient(a, b)))
    case Mod => if b == 0 then None else if b == 1 || b == -1 then Some(0) else Some(Wrap(Remainder(a, b)))
  }

  /** The value the constant folder gives two literal operands.  The folder leaves a
      literal zero divisor alone before it comes here. */
  function FoldBin(op: BinOp, a: Word, b: Word): Word
    requires op == Div || op == Mod ==> b != 0
  {
    match op
    case Add => Wrap(a + b)
    case Sub => Wrap(a - b)
    case Mul => Wrap(a * b)
    case BitAnd => Bitwise(AndBit, a, b)
    case BitOr => Bitwise(OrBit, a, b)
    case BitXor => Bitwise(XorBit, a, b)
    case Shl => Wrap(a * Pow2(ShiftCount(b)))
    case Shr => Wrap(a / Pow2(ShiftCount(b)))
    case Div => if a == MIN && b == -1 then MIN else Wrap(Quotient(a, b))
    case Mod => if a == MIN && b == -1 then 0 else Wrap(Remainder(a, b))
  }

  function Bool(b: bool): Word { if b then 1 else 0 }

  function RunUn(op: UnOp, a: Word): Word {
    match op
    case Plus => a
    case Neg => Wrap(-(a as int))
    case Not => Bool(a == 0)
    case Compl => -1 - (a as int)
  }

  function RunCmp(op: CmpOp, a: int, b: int): bool {
    match op
    case Eq => a == b
    case Ne => a != b
    case Lt => a < b
    case Gt => a > b
    case Le => a <= b
    case Ge => a >= b
  }

  /** A literal left operand that fixes the value whatever the right one is. */
  predicate AbsorbsLeft(op: BinOp, a: Word) {
    || (a == 0 && (op == Mul || op == BitAnd || op == Shr || op == Shl))
    || (a == -1 && (op == BitOr || op == Shr))
  }

  /** A literal right operand that fixes the value whatever the left one is. */
  predicate AbsorbsRight(op: BinOp, b: Word) {
    || (b == 0 && (op == Mul || op == BitAnd))
    || (b == 1 && op == Mod)
    || (b == -1 && (op == Mod || op == BitOr))
  }

  function AbsorbedRight(op: BinOp, b: Word): Word { if op == Mod then 0 else b }

  predicate NeutralLeft(op: BinOp, a: Word) {
    || (a == 0 && (op == Add || op == BitOr || op == BitXor))
    || (a == 1 && op == Mul)
    || (a == -1 && op == BitAnd)
  }

  predicate NeutralRight(op: BinOp, b: Word) {
    || (b == 0 && (op == Add || op == Sub || op == BitOr || op == BitXor))
    || (b == 1 && (op == Mul || op == Div))
    || (b == -1 && op == BitAnd)
    || (b <= 0 && (op == Shr || op == Shl))
  }

  /** Comparisons decided by a literal LLONG_MIN or LLONG_MAX alone. */
  predicate BoundaryLeft(op: CmpOp, a: Word) {
    (a == MIN && (op == Le || op == Gt)) || (a == MAX && (op == Ge || op == Lt))
  }

  predicate BoundaryRight(op: CmpOp, b: Word) {
    (b == MIN && (op == Ge || op == Lt)) || (b == MAX && (op == Le || op == Gt))
  }

  /** Folding two literals gives the value the run would have computed, including
      LLONG_MIN / -1 and LLONG_MIN % -1, which the two sides compute differently. */
  lemma FoldBinAgrees(op: BinOp, a: Word, b: Word)
    requires RunBin(op, a, b).Some?
    ensures FoldBin(op, a, b) == RunBin(op, a, b).value
  {
    if (op == Div || op == Mod) && Abs(b) == 1 { DivideByUnit(a, b); }
  }

  lemma DivideByUnit(a: int, b: int)
    requires Abs(b) == 1
    ensures Quotient(a, b) == a * b
    ensures Remainder(a, b) == 0
  {
  }

  lemma AbsorbingOperands(op: BinOp, a: Word, b: Word)
    requires RunBin(op, a, b).Some?
    ensures AbsorbsLeft(op, a) ==> RunBin(op, a, b).value == a
    ensures AbsorbsRight(op, b) ==> RunBin(op, a, b).value == AbsorbedRight(op, b)
  {
    hide Bitwise, Pow2;
    match op
    case BitAnd => BitwiseWithZero(a, b);
    case BitOr => BitwiseWithOnes(a, b);
    case Shl => UnitsShifted(Pow2(ShiftCount(b)));
    case Shr => UnitsShifted(Pow2(ShiftCount(b)));
    case _ =>
  }

  lemma NeutralOperands(op: BinOp, a: Word, b: Word)
    requires RunBin(op, a, b).Some?
    ensures NeutralLeft(op, a) ==> RunBin(op, a, b).value == b
    ensures NeutralRight(op, b) ==> RunBin(op, a, b).value == a
  {
    hide Bitwise, Pow2, Quotient, Remainder;
    match op
    case BitAnd => BitwiseWithOnes(a, b);
    case BitOr => BitwiseWithZero(a, b);
    case BitXor => BitwiseWithZero(a, b);
    case Div => if b == 1 { DivideByUnit(a, b); }
    case Shl => if b <= 0 { ShiftByNothing(a, b); }
    case Shr => if b <= 0 { ShiftByNothing(a, b); }
    case _ =>
  }

  lemma ShiftByNothing(a: Word, b: Word)
    requires b <= 0
    ensures RunBin(Shl, a, b) == RunBin(Shr, a, b) == Some(a)
  {
    assert Pow2(0) == 1;
  }

  lemma BitwiseWithZero(a: Word, b: Word)
    ensures a == 0 ==> Bitwise(AndBit, a, b) == 0 && Bitwise(OrBit, a, b) == b && Bitwise(XorBit, a, b) == b
    ensures b == 0 ==> Bitwise(AndBit, a, b) == 0 && Bitwise(OrBit, a, b) == a && Bitwise(XorBit, a, b) == a
  {
    hide Bits;
    Pow2At64();
    BitsZero(64, Unsigned(a), Unsigned(b));
  }

  lemma BitwiseWithOnes(a: Word, b: Word)
    ensures a == -1 ==> Bitwise(AndBit, a, b) == b && Bitwise(OrBit, a, b) == a
    ensures b == -1 ==> Bitwise(AndBit, a, b) == a && Bitwise(OrBit, a, b) == b
  {
    hide Bits;
    Pow2At64();
    BitsOnes(64, Unsigned(a), Unsigned(b));
  }

  lemma BoundaryComparisons(op: CmpOp, a: Word, b: Word)
    requires BoundaryLeft(op, a) || BoundaryRight(op, b)
    ensures RunCmp(op, a, b) == (op == Le || op == Ge)
  {
  }

  lemma UnitsShifted(d: nat)
    requires d > 0
    ensures 0 * d == 0 && 0 / d == 0 && -1 / d == -1
  {
  }

  lemma Pow2At64()
    ensures Pow2(64) == TWO_TO_64
  {
    assert Pow2(8) == 256;
    assert Pow2(16) == 0x1_0000;
    assert Pow2(24) == 0x100_0000;
    assert Pow2(32) == 0x1_0000_0000;
    assert Pow2(40) == 0x100_0000_0000;
    assert Pow2(48) == 0x1_0000_0000_0000;
    assert Pow2(56) == 0x100_0000_0000_0000;
  }

  lemma {:induction false} BitsZero(width: nat, a: nat, b: nat)
    requires a < Pow2(width) && b < Pow2(width)
    ensures a == 0 ==> Bits(AndBit, width, a, b) == 0 && Bits(OrBit, width, a, b) == b && Bits(XorBit, width, a, b) == b
    ensures b == 0 ==> Bits(AndBit, width, a, b) == 0 && Bits(OrBit, width, a, b) == a && Bits(XorBit, width, a, b) == a
  {
    if width > 0 { BitsZero(width - 1, a / 2, b / 2); }
  }

  lemma {:induction false} BitsOnes(width: nat, a: nat, b: nat)
    requires a < Pow2(width) && b < Pow2(width)
    ensures a == Pow2(width) - 1 ==> Bits(AndBit, width, a, b) == b && Bits(OrBit, width, a, b) == a
    ensures b == Pow2(width) - 1 ==> Bits(AndBit, width, a, b) == a && Bits(OrBit, width, a, b) == b
  {
    if width > 0 { BitsOnes(width - 1, a / 2, b / 2); }
  }
}
