/**
 What the 64-bit operators compute, said without the functions that the run-time model and
 the constant folder share: truncated division, operations on single bits, the order of
 strings.
 */
module ArithLaws {
  import opened Basics
  import opened Arith64
  import opened Semantics

  // ----- division -----

  /** Quotient and remainder as C defines them; no other pair of numbers has these properties. */
  predicate Divides(a: int, b: int, q: int, r: int) {
    q * b + r == a && Abs(r) < Abs(b) && (r != 0 ==> (r < 0 <==> a < 0))
  }

  lemma TruncatedDivision(a: int, b: int)
    requires b != 0
    ensures Divides(a, b, Quotient(a, b), Remainder(a, b))
  {
    var x, y := Abs(a), Abs(b);
    var q, r := x / y, x % y;
    Whole(x, y);
    SignedDivision(a, b, x, y, q, r);
  }

  /** The quotient and remainder of the magnitudes, with the signs put back. */
  lemma SignedDivision(a: int, b: int, x: nat, y: nat, q: int, r: int)
    requires x == Abs(a) && y == Abs(b) && x == q * y + r && 0 <= r < y
    ensures Divides(a, b, if (a < 0) == (b < 0) then q else -q, if a < 0 then -r else r)
  {
    Negated(q, y);
  }

  lemma Negated(q: int, y: int)
    ensures (-q) * y == -(q * y) && q * (-y) == -(q * y) && (-q) * (-y) == q * y
  {
  }

  lemma DivisionUnique(a: int, b: int, q: int, r: int, q': int, r': int)
    requires b != 0 && Divides(a, b, q, r) && Divides(a, b, q', r')
    ensures q == q' && r == r'
  {
    Spread(q, q', b);
    if q != q' { MultipleIsLarge(q - q', b); }
  }

  lemma Spread(q: int, q': int, b: int)
    ensures (q - q') * b == q * b - q' * b
  {
  }

  lemma MultipleIsLarge(k: int, b: int)
    requires k != 0
    ensures Abs(k * b) >= Abs(b)
  {
    var n: int, y: int := Abs(k), Abs(b);
    assert k == n || k == -n;
    assert b == y || b == -y;
    Negated(n, y);
    AtLeastOnce(n, y);
  }

  lemma AtLeastOnce(n: int, y: int)
    requires n >= 1 && y >= 0
    ensures n * y >= y
  {
    Spread(n, 1, y);
    NotNegative(n - 1, y);
  }

  lemma NotNegative(x: int, y: int)
    requires x >= 0 && y >= 0
    ensures x * y >= 0
  {
  }

  lemma Whole(a: int, d: int)
    requires d > 0
    ensures a == (a / d) * d + a % d && 0 <= a % d < d
  {
  }

  /** What the run-time divides to, and so what the folder does: the C quotient and remainder,
      and for LLONG_MIN / -1 the dividend and 0. */
  lemma DivisionComputed(a: Word, b: Word)
    requires b != 0
    ensures RunBin(Div, a, b).Some? && RunBin(Mod, a, b).Some?
    ensures a == MIN && b == -1 ==> RunBin(Div, a, b).value == MIN && RunBin(Mod, a, b).value == 0
    ensures !(a == MIN && b == -1) ==> Divides(a, b, RunBin(Div, a, b).value, RunBin(Mod, a, b).value)
  {
    TruncatedDivision(a, b);
    if Abs(b) == 1 {
      DivideByUnit(a, b);
    } else {
      SmallerParts(a, b);
    }
  }

  lemma SmallerParts(a: Word, b: Word)
    requires b != 0 && Abs(b) != 1
    ensures MIN <= Quotient(a, b) <= MAX && MIN <= Remainder(a, b) <= MAX
  {
    hide Quotient, Remainder;
    var q, r := Magnitudes(a, b);
    PartsBelow(Abs(a), Abs(b), q, r);
  }

  lemma Magnitudes(a: int, b: int) returns (q: int, r: int)
    requires b != 0
    ensures Abs(a) == q * Abs(b) + r && 0 <= r < Abs(b)
    ensures (Quotient(a, b) == q || Quotient(a, b) == -q) && (Remainder(a, b) == r || Remainder(a, b) == -r)
  {
    q, r := Abs(a) / Abs(b), Abs(a) % Abs(b);
    Whole(Abs(a), Abs(b));
  }

  lemma PartsBelow(x: nat, y: nat, q: int, r: int)
    requires y >= 2 && x == q * y + r && 0 <= r < y
    ensures 0 <= q && 2 * q <= x
  {
    if q < 0 {
      AtLeastOnce(-q, y);
      Negated(q, y);
    } else {
      Spread(y, 2, q);
      NotNegative(y - 2, q);
    }
  }

  // ----- single bits -----

  /** Bit k of a number in two's complement; division rounds down. */
  predicate BitAt(a: int, k: nat) { a / Pow2(k) % 2 == 1 }

  lemma {:induction false} Pow2Sum(j: nat, k: nat)
    ensures Pow2(j + k) == Pow2(j) * Pow2(k)
    decreases j
  {
    if j > 0 { Pow2Sum(j - 1, k); }
  }

  lemma HalfThen(a: nat, k: nat)
    requires k > 0
    ensures a / Pow2(k) == (a / 2) / Pow2(k - 1)
  {
    DivideTwice(a, 2, Pow2(k - 1));
  }

  lemma DivideTwice(a: int, m: nat, n: nat)
    requires m > 0 && n > 0
    ensures m * n > 0 && a / (m * n) == (a / m) / n
  {
    var q, r := a / m, a % m;
    var s, t := q / n, q % n;
    Whole(a, m);
    Whole(q, n);
    Regroup(a, m, n, q, r, s, t);
    DivisionIs(a, m * n, s, t * m + r);
  }

  lemma Regroup(a: int, m: int, n: int, q: int, r: int, s: int, t: int)
    requires m > 0 && n > 0 && a == q * m + r && q == s * n + t && 0 <= r < m && 0 <= t < n
    ensures m * n > 0 && a == s * (m * n) + (t * m + r) && 0 <= t * m + r < m * n
  {
    Products(s, n, t, m);
    AtLeastOnce(n - t, m);
    Spread(n, t, m);
    NotNegative(t, m);
  }

  lemma Products(s: int, n: int, t: int, m: int)
    ensures (s * n + t) * m == s * (m * n) + t * m && m * n == n * m
  {
    assert (s * n + t) * m == (s * n) * m + t * m;
    assert (s * n) * m == s * (n * m);
  }

  lemma DivisionIs(a: int, d: int, q: int, r: int)
    requires d > 0 && a == q * d + r && 0 <= r < d
    ensures a / d == q && a % d == r
  {
    Whole(a, d);
    OneQuotient(d, q, r, a / d, a % d);
  }

  lemma OneQuotient(d: int, q: int, r: int, q': int, r': int)
    requires d > 0 && q * d + r == q' * d + r' && 0 <= r < d && 0 <= r' < d
    ensures q == q' && r == r'
  {
    Spread(q, q', d);
    Spread(q', q, d);
    if q > q' { AtLeastOnce(q - q', d); }
    if q < q' { AtLeastOnce(q' - q, d); }
  }

  /** The operation on two bits. */
  predicate OnBits(op: BitOp, x: bool, y: bool) {
    match op case AndBit => x && y case OrBit => x || y case XorBit => x != y
  }

  lemma {:induction false} BitsAt(op: BitOp, width: nat, a: nat, b: nat, k: nat)
    requires k < width
    ensures BitAt(Bits(op, width, a, b), k) <==> OnBits(op, BitAt(a, k), BitAt(b, k))
    decreases width
  {
    var r := Bits(op, width, a, b);
    if k == 0 {
      assert Pow2(0) == 1;
      assert r % 2 == Bit(op, a, b);
    } else {
      BitsAt(op, width - 1, a / 2, b / 2, k - 1);
      HalfThen(a, k);
      HalfThen(b, k);
      HalfThen(r, k);
      assert r / 2 == Bits(op, width - 1, a / 2, b / 2);
    }
  }

  lemma {:induction false} BitsBelow(op: BitOp, width: nat, a: nat, b: nat)
    ensures Bits(op, width, a, b) < Pow2(width)
    decreases width
  {
    if width > 0 { BitsBelow(op, width - 1, a / 2, b / 2); }
  }

  /** Adding a multiple of 2^64 changes none of the 64 bits. */
  lemma SameBits(a: int, m: int, k: nat)
    requires k < 64
    ensures BitAt(a + m * TWO_TO_64, k) <==> BitAt(a, k)
  {
    hide Pow2;
    var p, h := Pow2(k), Pow2(63 - k);
    Pow2Split(k);
    var q, r := a / p, a % p;
    Whole(a, p);
    MultipleAdded(a, m, p, h, q, r);
    DivisionIs(a + m * TWO_TO_64, p, q + 2 * (m * h), r);
    EvenMore(q, m * h);
  }

  lemma Pow2Split(k: nat)
    requires k < 64
    ensures TWO_TO_64 == 2 * (Pow2(63 - k) * Pow2(k))
  {
    hide Pow2;
    Pow2At64();
    Pow2Sum(63 - k, k);
    Pow2Next(63);
  }

  lemma Pow2Next(n: nat)
    ensures Pow2(n + 1) == 2 * Pow2(n) && Pow2(0) == 1
  {
  }

  lemma MultipleAdded(a: int, m: int, p: int, h: int, q: int, r: int)
    requires a == q * p + r && TWO_TO_64 == 2 * (h * p)
    ensures a + m * TWO_TO_64 == (q + 2 * (m * h)) * p + r
  {
    assert (q + 2 * (m * h)) * p == q * p + 2 * (m * h) * p;
    assert (m * h) * p == m * (h * p);
    assert m * TWO_TO_64 == 2 * (m * (h * p));
  }

  lemma EvenMore(q: int, j: int)
    ensures (q + 2 * j) % 2 == q % 2
  {
  }

  lemma WrapBits(x: int, k: nat)
    requires k < 64
    ensures BitAt(Wrap(x), k) <==> BitAt(x, k)
  {
    var m := (x - MIN) / TWO_TO_64;
    assert Wrap(x) == x + (-m) * TWO_TO_64;
    SameBits(x, -m, k);
  }

  lemma {:induction false} BitsDetermine(a: nat, b: nat, width: nat)
    requires a < Pow2(width) && b < Pow2(width) && forall k: nat | k < width :: BitAt(a, k) == BitAt(b, k)
    ensures a == b
    decreases width
  {
    if width > 0 {
      assert Pow2(0) == 1 && BitAt(a, 0) == BitAt(b, 0);
      forall k: nat | k < width - 1 ensures BitAt(a / 2, k) == BitAt(b / 2, k) {
        HalfThen(a, k + 1);
        HalfThen(b, k + 1);
        assert BitAt(a, k + 1) == BitAt(b, k + 1);
      }
      BitsDetermine(a / 2, b / 2, width - 1);
    }
  }

  /** A word is determined by its 64 bits. */
  lemma WordBitsDetermine(a: Word, b: Word)
    requires forall k: nat | k < 64 :: BitAt(a, k) == BitAt(b, k)
    ensures a == b
  {
    hide BitAt, Pow2;
    Pow2At64();
    forall k: nat | k < 64 ensures BitAt(Unsigned(a), k) == BitAt(Unsigned(b), k) {
      SameBits(a, 1, k);
      SameBits(b, 1, k);
    }
    BitsDetermine(Unsigned(a), Unsigned(b), 64);
  }

  /** Each bit of the result of a bitwise operator is the operation on that bit of the operands. */
  lemma BitwiseBits(op: BitOp, a: Word, b: Word, k: nat)
    requires k < 64
    ensures BitAt(Bitwise(op, a, b), k) <==> OnBits(op, BitAt(a, k), BitAt(b, k))
  {
    hide Bits, BitAt;
    WrapBits(Bits(op, 64, Unsigned(a), Unsigned(b)), k);
    BitsAt(op, 64, Unsigned(a), Unsigned(b), k);
    SameBits(a, 1, k);
    SameBits(b, 1, k);
  }

  lemma ComplementBits(a: Word, k: nat)
    requires k < 64
    ensures BitAt(RunUn(Compl, a), k) <==> !BitAt(a, k)
  {
    var p := Pow2(k);
    var q, r := a / p, a % p;
    assert -1 - a == (-1 - q) * p + (p - 1 - r);
    DivisionIs(-1 - a, p, -1 - q, p - 1 - r);
  }

  /** Shifts move the bits: zeros come in from the right, the sign from the left. */
  lemma ShiftBits(a: Word, b: Word, k: nat)
    requires 0 <= b < 64 && k < 64
    ensures RunBin(Shl, a, b).Some? && RunBin(Shr, a, b).Some?
    ensures BitAt(RunBin(Shl, a, b).value, k) <==> k >= b && BitAt(a, k - b)
    ensures BitAt(RunBin(Shr, a, b).value, k) <==> BitAt(a, if k + b < 64 then k + b else 63)
  {
    hide BitAt, Pow2;
    var n: nat := b;
    WrapBits(a * Pow2(n), k);
    ShiftedLeft(a, n, k);
    WrapBits(a / Pow2(n), k);
    ShiftedRight(a, n, k);
    if k + n >= 64 { SignBits(a, k + n); }
  }

  lemma ShiftedLeft(a: int, n: nat, k: nat)
    ensures BitAt(a * Pow2(n), k) <==> k >= n && BitAt(a, k - n)
  {
    hide Pow2;
    if k >= n {
      Pow2Sum(n, k - n);
      DivideTwice(a * Pow2(n), Pow2(n), Pow2(k - n));
      DivisionIs(a * Pow2(n), Pow2(n), a, 0);
    } else {
      var h := Pow2(n - k - 1);
      Pow2Sum(n - k, k);
      Pow2Next(n - k - 1);
      ZerosIn(a, h, Pow2(k), Pow2(n));
      DivisionIs(a * Pow2(n), Pow2(k), 2 * (a * h), 0);
      EvenMore(0, a * h);
    }
  }

  lemma ZerosIn(a: int, h: int, p: int, w: int)
    requires w == 2 * h * p
    ensures a * w == (2 * (a * h)) * p
  {
    assert (a * h) * p == a * (h * p);
  }

  lemma ShiftedRight(a: int, n: nat, k: nat)
    ensures BitAt(a / Pow2(n), k) <==> BitAt(a, k + n)
  {
    Pow2Sum(n, k);
    DivideTwice(a, Pow2(n), Pow2(k));
  }

  /** From bit 63 on all bits of a word are its sign. */
  lemma SignBits(a: Word, k: nat)
    requires k >= 63
    ensures BitAt(a, k) <==> a < 0
    ensures BitAt(a, 63) <==> a < 0
  {
    Pow2At64();
    Pow2Sum(k - 63, 63);
    assert Pow2(64) == 2 * Pow2(63);
    assert Pow2(k - 63) * Pow2(63) >= Pow2(63);
    SignBit(a, Pow2(k));
    SignBit(a, Pow2(63));
  }

  lemma SignBit(a: int, p: int)
    requires p > 0 && -p <= a < p
    ensures a / p % 2 == 1 <==> a < 0
  {
    if a < 0 { DivisionIs(a, p, -1, a + p); } else { DivisionIs(a, p, 0, a); }
  }

  /** The other operators wrap around: the result is the exact one, modulo 2^64. */
  lemma WrapsAround(x: int)
    ensures exists m :: Wrap(x) == x + m * TWO_TO_64
    ensures MIN <= Wrap(x) <= MAX
  {
    assert Wrap(x) == x + (-((x - MIN) / TWO_TO_64)) * TWO_TO_64;
  }

  /** Negation gives the additive inverse, and there is only one. */
  lemma NegationInverse(a: Word, b: Word)
    ensures RunUn(Plus, a) == a
    ensures RunBin(Add, a, b) == Some(0) <==> b == RunUn(Neg, a)
  {
  }

  // ----- the order of strings -----

  /** a is a proper prefix of b, or has the smaller character where they first differ. */
  ghost predicate Before(a: string, b: string) { exists k: nat :: PartsAt(a, b, k) }

  lemma {:induction false} CompareOrders(a: string, b: string)
    ensures Compare(a, b) < 0 <==> Before(a, b)
    ensures Compare(a, b) > 0 <==> Before(b, a)
    ensures Compare(a, b) == 0 <==> a == b
    decreases a
  {
    if a == [] || b == [] || a[0] != b[0] {
      FirstDiffers(a, b);
      FirstDiffers(b, a);
    } else {
      CompareOrders(a[1..], b[1..]);
      BeforeTails(a, b);
      BeforeTails(b, a);
      assert a == [a[0]] + a[1..] && b == [b[0]] + b[1..];
    }
  }

  lemma SameStart(a: string, b: string, k: nat)
    requires PartsAt(a, b, k)
    ensures k > 0 ==> a != [] && b != [] && a[0] == b[0]
  {
    if k > 0 { assert a[..k][0] == b[..k][0]; }
  }

  lemma FirstDiffers(a: string, b: string)
    requires a == [] || b == [] || a[0] != b[0]
    ensures Before(a, b) <==> b != [] && (a == [] || a[0] < b[0])
  {
    if b != [] && (a == [] || a[0] < b[0]) {
      assert a[..0] == b[..0] && PartsAt(a, b, 0);
    }
    if Before(a, b) {
      var k: nat :| PartsAt(a, b, k);
      SameStart(a, b, k);
    }
  }

  /** k is where the two part, and a comes first. */
  predicate PartsAt(a: string, b: string, k: nat) {
    k <= |a| && k < |b| && a[..k] == b[..k] && (k == |a| || a[k] < b[k])
  }

  lemma BeforeTails(a: string, b: string)
    requires a != [] && b != [] && a[0] == b[0]
    ensures Before(a, b) <==> Before(a[1..], b[1..])
  {
    if Before(a, b) {
      var k: nat :| PartsAt(a, b, k);
      TailParts(a, b, k);
    }
    if Before(a[1..], b[1..]) {
      var k: nat :| PartsAt(a[1..], b[1..], k);
      TailParts(a, b, k + 1);
    }
  }

  lemma TailParts(a: string, b: string, k: nat)
    requires a != [] && b != [] && a[0] == b[0]
    ensures PartsAt(a, b, k) <==> k > 0 && PartsAt(a[1..], b[1..], k - 1)
  {
    if 0 < k <= |a| && k < |b| {
      assert a[..k] == [a[0]] + a[1..][..k - 1] && b[..k] == [b[0]] + b[1..][..k - 1];
      assert a[1..][..k - 1] == a[..k][1..] && b[1..][..k - 1] == b[..k][1..];
    }
  }
}
