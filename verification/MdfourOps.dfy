/**
 The operations of the MD4 code as it writes them, with the bitwise operators of C on 32-bit
 words, and that they are those of RFC 1320.
 */
module MdfourOps {
  import opened Md4

  // ----- bitwise operators on n bits -----

  function And(x: nat, y: nat, n: nat): (r: nat)
    ensures r < Power2(n)
  {
    if n == 0 then 0 else 2 * And(x / 2, y / 2, n - 1) + if x % 2 == 1 && y % 2 == 1 then 1 else 0
  }

  function Or(x: nat, y: nat, n: nat): (r: nat)
    ensures r < Power2(n)
  {
    if n == 0 then 0 else 2 * Or(x / 2, y / 2, n - 1) + if x % 2 == 1 || y % 2 == 1 then 1 else 0
  }

  function Xor(x: nat, y: nat, n: nat): (r: nat)
    ensures r < Power2(n)
  {
    if n == 0 then 0 else 2 * Xor(x / 2, y / 2, n - 1) + if x % 2 != y % 2 then 1 else 0
  }

  function Not(x: nat, n: nat): nat
    requires x < Power2(n)
  {
    Power2(n) - 1 - x
  }

  lemma NotHalves(x: nat, n: nat)
    requires n > 0 && x < Power2(n)
    ensures x / 2 < Power2(n - 1) && Not(x, n) / 2 == Not(x / 2, n - 1) && Not(x, n) % 2 == 1 - x % 2
  {
  }

  // Each operator by its lowest bit and the rest.

  lemma AndSplit(x: nat, y: nat, n: nat)
    requires n > 0
    ensures And(x, y, n) / 2 == And(x / 2, y / 2, n - 1) && And(x, y, n) % 2 == x % 2 * (y % 2)
  {
  }

  lemma OrSplit(x: nat, y: nat, n: nat)
    requires n > 0
    ensures Or(x, y, n) / 2 == Or(x / 2, y / 2, n - 1) && Or(x, y, n) % 2 == if x % 2 + y % 2 > 0 then 1 else 0
  {
  }

  lemma XorSplit(x: nat, y: nat, n: nat)
    requires n > 0
    ensures Xor(x, y, n) / 2 == Xor(x / 2, y / 2, n - 1) && Xor(x, y, n) % 2 == if x % 2 == y % 2 then 0 else 1
  {
  }

  lemma TableSplit(table: nat, x: nat, y: nat, z: nat, n: nat)
    requires n > 0
    ensures Bitwise(table, x, y, z, n) / 2 == Bitwise(table, x / 2, y / 2, z / 2, n - 1)
    ensures Bitwise(table, x, y, z, n) % 2 == Entry(table, x % 2, y % 2, z % 2)
  {
  }

  function Entry(table: nat, i: nat, j: nat, k: nat): nat { table / Power2(i * 4 + j * 2 + k) % 2 }

  lemma {:induction false} FIs(x: nat, y: nat, z: nat, n: nat)
    requires x < Power2(n)
    ensures Or(And(x, y, n), And(Not(x, n), z, n), n) == Bitwise(0xCA, x, y, z, n)
    decreases n
  {
    if n > 0 {
      hide And, Or, Bitwise, Not, Entry, Power2;
      var a, b := And(x, y, n), And(Not(x, n), z, n);
      NotHalves(x, n);
      AndSplit(x, y, n);
      AndSplit(Not(x, n), z, n);
      OrSplit(a, b, n);
      TableSplit(0xCA, x, y, z, n);
      FIs(x / 2, y / 2, z / 2, n - 1);
      TableOf(0xCA, x % 2, y % 2, z % 2);
      SameHalves(Or(a, b, n), Bitwise(0xCA, x, y, z, n));
    }
  }

  lemma SameHalves(a: nat, b: nat)
    requires a / 2 == b / 2 && a % 2 == b % 2
    ensures a == b
  {
  }

  lemma {:induction false} GIs(x: nat, y: nat, z: nat, n: nat)
    ensures Or(Or(And(x, y, n), And(x, z, n), n), And(y, z, n), n) == Bitwise(0xE8, x, y, z, n)
    decreases n
  {
    if n > 0 {
      hide And, Or, Bitwise, Entry, Power2;
      var a, b, c := And(x, y, n), And(x, z, n), And(y, z, n);
      AndSplit(x, y, n);
      AndSplit(x, z, n);
      AndSplit(y, z, n);
      OrSplit(a, b, n);
      OrSplit(Or(a, b, n), c, n);
      TableSplit(0xE8, x, y, z, n);
      GIs(x / 2, y / 2, z / 2, n - 1);
      TableOf(0xE8, x % 2, y % 2, z % 2);
      SameHalves(Or(Or(a, b, n), c, n), Bitwise(0xE8, x, y, z, n));
    }
  }

  lemma {:induction false} HIs(x: nat, y: nat, z: nat, n: nat)
    ensures Xor(Xor(x, y, n), z, n) == Bitwise(0x96, x, y, z, n)
    decreases n
  {
    if n > 0 {
      hide Xor, Bitwise, Entry, Power2;
      var a := Xor(x, y, n);
      XorSplit(x, y, n);
      XorSplit(a, z, n);
      TableSplit(0x96, x, y, z, n);
      HIs(x / 2, y / 2, z / 2, n - 1);
      TableOf(0x96, x % 2, y % 2, z % 2);
      SameHalves(Xor(a, z, n), Bitwise(0x96, x, y, z, n));
    }
  }

  /** The three truth tables, bit by bit. */
  lemma TableOf(table: nat, i: nat, j: nat, k: nat)
    requires i <= 1 && j <= 1 && k <= 1
    ensures table == 0xCA ==> Entry(table, i, j, k) == if i == 1 then j else k
    ensures table == 0xE8 ==> Entry(table, i, j, k) == if i + j + k >= 2 then 1 else 0
    ensures table == 0x96 ==> Entry(table, i, j, k) == if i == j then k else 1 - k
  {
    hide Power2;
    var n := i * 4 + j * 2 + k;
    SmallPowers(n);
    EntryBy(table, Power2(n));
  }

  lemma SmallPowers(n: nat)
    requires n < 8
    ensures Power2(n) ==
      if n == 0 then 1 else if n == 1 then 2 else if n == 2 then 4 else if n == 3 then 8
      else if n == 4 then 16 else if n == 5 then 32 else if n == 6 then 64 else 128
  {
    assert Power2(3) == 8 && Power2(7) == 128;
  }

  lemma EntryBy(table: nat, p: nat)
    requires p == 1 || p == 2 || p == 4 || p == 8 || p == 16 || p == 32 || p == 64 || p == 128
    ensures table == 0xCA ==> table / p % 2 == if p == 2 || p == 8 || p == 64 || p == 128 then 1 else 0
    ensures table == 0xE8 ==> table / p % 2 == if p == 8 || p == 32 || p == 64 || p == 128 then 1 else 0
    ensures table == 0x96 ==> table / p % 2 == if p == 2 || p == 4 || p == 16 || p == 128 then 1 else 0
  {
  }

  // ----- the macros of the code -----

  function CodeF(x: Word, y: Word, z: Word): Word { PowerOf32(); Or(And(x, y, 32), And(Not(x, 32), z, 32), 32) }

  function CodeG(x: Word, y: Word, z: Word): Word { PowerOf32(); Or(Or(And(x, y, 32), And(x, z, 32), 32), And(y, z, 32), 32) }

  function CodeH(x: Word, y: Word, z: Word): Word { PowerOf32(); Xor(Xor(x, y, 32), z, 32) }

  function Mask(x: int): Word { x % 0x1_0000_0000 }

  function Lshift(x: Word, s: nat): Word
    requires 0 < s < 32
  {
    PowerOf32();
    Or(Mask(x * Power2(s)), Mask(x / Power2(32 - s)), 32)
  }

  function Round1(a: Word, b: Word, c: Word, d: Word, m: Word, s: nat): Word
    requires 0 < s < 32
  {
    Lshift(Mask(a + CodeF(b, c, d) + m), s)
  }

  function Round2(a: Word, b: Word, c: Word, d: Word, m: Word, s: nat): Word
    requires 0 < s < 32
  {
    Lshift(Mask(a + CodeG(b, c, d) + m + 0x5A827999), s)
  }

  function Round3(a: Word, b: Word, c: Word, d: Word, m: Word, s: nat): Word
    requires 0 < s < 32
  {
    Lshift(Mask(a + CodeH(b, c, d) + m + 0x6ED9EBA1), s)
  }

  // ----- they are the operations of the RFC -----

  lemma {:induction false} OrDisjoint(hi: nat, lo: nat, s: nat, n: nat)
    requires s <= n && lo < Power2(s) && hi < Power2(n - s)
    ensures Power2(s) * hi + lo < Power2(n) && Or(Power2(s) * hi, lo, n) == Power2(s) * hi + lo
    decreases n
  {
    if s == 0 {
      OrZero(hi, n);
    } else {
      OrDisjoint(hi, lo / 2, s - 1, n - 1);
      Halved(Power2(s - 1), hi);
    }
  }

  lemma Halved(p: nat, hi: nat)
    ensures (2 * p * hi) / 2 == p * hi && (2 * p * hi) % 2 == 0
  {
    assert 2 * p * hi == 2 * (p * hi);
  }

  lemma {:induction false} OrZero(x: nat, n: nat)
    requires x < Power2(n)
    ensures Or(x, 0, n) == x
    decreases n
  {
    if n > 0 { OrZero(x / 2, n - 1); }
  }

  lemma {:induction false} PowerSum(j: nat, k: nat)
    ensures Power2(j + k) == Power2(j) * Power2(k)
    decreases j
  {
    if j > 0 { PowerSum(j - 1, k); }
  }

  /** The two parts of a rotated word, as numbers. */
  lemma RotateParts(x: Word, p: nat, q: nat, hi: nat, lo: nat)
    requires p > 0 && q > 0 && p * q == 0x1_0000_0000 && x == hi * q + lo && lo < q
    ensures hi < p && x * p == hi * 0x1_0000_0000 + p * lo && p * lo + hi < 0x1_0000_0000 && p * lo < 0x1_0000_0000
  {
    if hi >= p { Bigger(hi, p, q); }
    assert x * p == hi * (q * p) + lo * p;
    Bigger(q, lo + 1, p);
  }

  lemma Bigger(a: nat, b: nat, c: nat)
    requires a >= b
    ensures a * c >= b * c
  {
    assert (a - b) * c >= 0;
    assert (a - b) * c == a * c - b * c;
  }

  lemma ShiftIs(x: Word, s: nat)
    requires 0 < s < 32
    ensures Lshift(x, s) == Rotate(x, s)
  {
    hide Or, Power2;
    PowerOf32();
    PowerSum(s, 32 - s);
    var p, q := Power2(s), Power2(32 - s);
    var hi, lo := x / q, x % q;
    Divided(x, q);
    RotateParts(x, p, q, hi, lo);
    OrDisjoint(lo, hi, s, 32);
    ShiftedParts(x, p, q, hi, lo);
  }

  lemma ShiftedParts(x: Word, p: nat, q: nat, hi: nat, lo: nat)
    requires q > 0 && hi == x / q && x * p == hi * 0x1_0000_0000 + p * lo && p * lo + hi < 0x1_0000_0000
    ensures Mask(x * p) == p * lo && Mask(x / q) == hi && (x * p + x / q) % 0x1_0000_0000 == p * lo + hi
  {
    Reduced(hi, p * lo);
    Reduced(hi, p * lo + hi);
    Reduced(0, hi);
  }

  lemma Divided(x: nat, q: nat)
    requires q > 0
    ensures x == (x / q) * q + x % q && x % q < q
  {
  }

  lemma Reduced(k: nat, r: nat)
    requires r < 0x1_0000_0000
    ensures (k * 0x1_0000_0000 + r) % 0x1_0000_0000 == r
  {
  }

  /** The operations of the three rounds. */
  lemma RoundsAre(a: Word, b: Word, c: Word, d: Word, m: Word, s: nat)
    requires 0 < s < 32
    ensures Round1(a, b, c, d, m, s) == Op(0, a, b, c, d, m, s)
    ensures Round2(a, b, c, d, m, s) == Op(1, a, b, c, d, m, s)
    ensures Round3(a, b, c, d, m, s) == Op(2, a, b, c, d, m, s)
  {
    hide Or, And, Xor, Not, Bitwise, Lshift, Rotate;
    PowerOf32();
    FIs(b, c, d, 32);
    GIs(b, c, d, 32);
    HIs(b, c, d, 32);
    ShiftIs(Mask(a + CodeF(b, c, d) + m), s);
    ShiftIs(Mask(a + CodeG(b, c, d) + m + 0x5A827999), s);
    ShiftIs(Mask(a + CodeH(b, c, d) + m + 0x6ED9EBA1), s);
    SumIs(a, F(b, c, d), m, 0);
    SumIs(a, G(b, c, d), m, 0x5A827999);
    SumIs(a, H(b, c, d), m, 0x6ED9EBA1);
  }

  lemma SumIs(a: Word, f: Word, m: Word, k: Word)
    ensures Mask(a + f + m + k) == Add(Add(Add(a, f), m), k)
    ensures Mask(a + f + m) == Add(Add(a, f), m)
  {
    ModIn(a + f, m);
    ModIn(a + f + m, k);
    ModIn(Add(a, f) + m, k);
  }

  lemma ModIn(x: int, y: int)
    ensures (x % 0x1_0000_0000 + y) % 0x1_0000_0000 == (x + y) % 0x1_0000_0000
  {
  }

}
