/**
 The MD4 message digest of RFC 1320.
 */
module Md4 {

  type Byte = x: int | 0 <= x < 256

  type Word = x: int | 0 <= x < 0x1_0000_0000

  /** The chaining variables. */
  datatype Regs = Regs(a: Word, b: Word, c: Word, d: Word)

  const INITIAL := Regs(0x67452301, 0xefcdab89, 0x98badcfe, 0x10325476)

  function Add(x: Word, y: Word): Word { (x + y) % 0x1_0000_0000 }

  // ----- section 3.4: processing a message of 16 words -----

  /** A bitwise operation on the low n bits of three words, given by its truth table: bit
      4 * x + 2 * y + z of the table is its value on bits x, y and z. */
  function Bitwise(table: nat, x: nat, y: nat, z: nat, n: nat): (r: nat)
    ensures r < Power2(n)
  {
    if n == 0 then 0
    else 2 * Bitwise(table, x / 2, y / 2, z / 2, n - 1) + table / Power2(x % 2 * 4 + y % 2 * 2 + z % 2) % 2
  }

  function Power2(n: nat): (r: nat)
    ensures r > 0
  {
    if n == 0 then 1 else 2 * Power2(n - 1)
  }

  lemma PowerOf32()
    ensures Power2(32) == 0x1_0000_0000
  {
    assert Power2(8) == 0x100;
    assert Power2(16) == 0x1_0000;
    assert Power2(24) == 0x100_0000;
  }

  /** x y or (not x) z */
  function F(x: Word, y: Word, z: Word): Word { PowerOf32(); Bitwise(0xCA, x, y, z, 32) }

  /** x y or x z or y z */
  function G(x: Word, y: Word, z: Word): Word { PowerOf32(); Bitwise(0xE8, x, y, z, 32) }

  /** x xor y xor z */
  function H(x: Word, y: Word, z: Word): Word { PowerOf32(); Bitwise(0x96, x, y, z, 32) }

  /** To the left by s bits, circularly. */
  function Rotate(x: Word, s: nat): Word
    requires 0 < s < 32
  {
    (x * Power2(s) + x / Power2(32 - s)) % 0x1_0000_0000
  }

  /** One operation of round r: 0, 1 or 2. */
  function Op(r: nat, a: Word, b: Word, c: Word, d: Word, m: Word, s: nat): Word
    requires 0 < s < 32
  {
    if r == 0 then Rotate(Add(Add(a, F(b, c, d)), m), s)
    else if r == 1 then Rotate(Add(Add(Add(a, G(b, c, d)), m), 0x5A827999), s)
    else Rotate(Add(Add(Add(a, H(b, c, d)), m), 0x6ED9EBA1), s)
  }

  /** The word used by operation j of row q of a round: in order, by columns, by reversed bits. */
  function Pick(r: nat, q: nat, j: nat): (k: nat)
    requires q < 4 && j < 4
    ensures k < 16
  {
    if r == 0 then 4 * q + j else if r == 1 then 4 * j + q else 4 * Reversed(j) + Reversed(q)
  }

  function Reversed(j: nat): (k: nat)
    requires j < 4
    ensures k < 4
  {
    if j == 1 then 2 else if j == 2 then 1 else j
  }

  function Shift(r: nat, j: nat): (s: nat)
    requires j < 4
    ensures 0 < s < 32
  {
    if j == 0 then 3
    else if j == 1 then if r == 0 then 7 else if r == 1 then 5 else 9
    else if j == 2 then if r == 1 then 9 else 11
    else if r == 0 then 19 else if r == 1 then 13 else 15
  }

  /** One operation; the registers move round one place. */
  function Step(x: seq<Word>, r: nat, q: nat, j: nat, s: Regs): Regs
    requires |x| == 16 && q < 4 && j < 4
  {
    Regs(s.d, Op(r, s.a, s.b, s.c, s.d, x[Pick(r, q, j)], Shift(r, j)), s.b, s.c)
  }

  /** The first n operations of a row. */
  function Row(x: seq<Word>, r: nat, q: nat, n: nat, s: Regs): Regs
    requires |x| == 16 && q < 4 && n <= 4
  {
    if n == 0 then s else Step(x, r, q, n - 1, Row(x, r, q, n - 1, s))
  }

  /** The first n rows of a round. */
  function Rows(x: seq<Word>, r: nat, n: nat, s: Regs): Regs
    requires |x| == 16 && n <= 4
  {
    if n == 0 then s else Row(x, r, n - 1, 4, Rows(x, r, n - 1, s))
  }

  /** The first n rounds. */
  function Rounds(x: seq<Word>, n: nat, s: Regs): Regs
    requires |x| == 16
  {
    if n == 0 then s else Rows(x, n - 1, 4, Rounds(x, n - 1, s))
  }

  function Compress(x: seq<Word>, s: Regs): Regs
    requires |x| == 16
  {
    var t := Rounds(x, 3, s);
    Regs(Add(s.a, t.a), Add(s.b, t.b), Add(s.c, t.c), Add(s.d, t.d))
  }

  // ----- bytes and words, low-order byte first (section 2) -----

  function LowFirst(b0: int, b1: int, b2: int, b3: int): int { b0 + 0x100 * b1 + 0x1_0000 * b2 + 0x100_0000 * b3 }

  function WordAt(bytes: seq<Byte>, i: nat): Word
    requires i + 4 <= |bytes|
  {
    LowFirst(bytes[i], bytes[i + 1], bytes[i + 2], bytes[i + 3])
  }

  /** The first n words. */
  function Words(bytes: seq<Byte>, n: nat): (r: seq<Word>)
    requires 4 * n <= |bytes|
    ensures |r| == n && forall i | 0 <= i < n :: r[i] == WordAt(bytes, 4 * i)
  {
    if n == 0 then [] else Words(bytes, n - 1) + [WordAt(bytes, 4 * (n - 1))]
  }

  function Bytes4(w: Word): (r: seq<Byte>)
    ensures |r| == 4
  {
    var n: int := w;
    var (n1, n2) := (n / 0x100, n / 0x100 / 0x100);
    [n % 0x100, n1 % 0x100, n2 % 0x100, n2 / 0x100]
  }

  lemma WordOfBytes(w: Word)
    ensures WordAt(Bytes4(w), 0) == w
  {
  }

  lemma LowByteFirst(b: Byte)
    ensures WordAt([b, 0, 0, 0], 0) == b && WordAt([0, 0, 0, b], 0) == 0x100_0000 * b
  {
  }

  // ----- whole blocks -----

  /** The state after the whole 64-byte blocks of a byte string. */
  function Absorb(s: Regs, bytes: seq<Byte>): Regs
    decreases |bytes|
  {
    if |bytes| < 64 then s else Absorb(Compress(Words(bytes[..64], 16), s), bytes[64..])
  }

  /** The bytes after the whole blocks. */
  function Rest(bytes: seq<Byte>): (r: seq<Byte>)
    ensures |r| < 64 && |r| <= |bytes|
    decreases |bytes|
  {
    if |bytes| < 64 then bytes else Rest(bytes[64..])
  }

  // ----- sections 3.1, 3.2 and 3.5 -----

  function Zeros(n: nat): (r: seq<Byte>)
    ensures |r| == n && forall i | 0 <= i < n :: r[i] == 0
  {
    if n == 0 then [] else Zeros(n - 1) + [0]
  }

  /** The padding after n bytes: one bit, then zeros up to 56 bytes modulo 64. */
  function Filler(n: nat): (r: seq<Byte>)
    ensures (n + |r|) % 64 == 56 && 1 <= |r| <= 64
  {
    [0x80] + Zeros((119 - n % 64) % 64)
  }

  /** The length in bits as 64 bits, low-order word first. */
  function LengthField(n: nat): (r: seq<Byte>)
    ensures |r| == 8
  {
    var bits := 8 * n % 0x1_0000_0000_0000_0000;
    Bytes4(bits % 0x1_0000_0000) + Bytes4(bits / 0x1_0000_0000)
  }

  function Padded(msg: seq<Byte>): seq<Byte> { msg + (Filler(|msg|) + LengthField(|msg|)) }

  function Output(s: Regs): seq<Byte> { Bytes4(s.a) + Bytes4(s.b) + Bytes4(s.c) + Bytes4(s.d) }

  function Digest(msg: seq<Byte>): seq<Byte> { Output(Absorb(INITIAL, Padded(msg))) }
}
