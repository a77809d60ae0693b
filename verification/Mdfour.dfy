/**
 Streaming MD4: a state updated by byte strings of any length, and finished once.  However a
 message is cut up, the digest is that of RFC 1320 while its bit length fits in 32 bits.
 */
module Mdfour {
  import opened Md4
  import Code = MdfourOps

  // ----- the registers updated in place are the rotating registers of the RFC -----

  /** One operation of round r, as the code writes it. */
  method Operation(r: nat, a: Word, b: Word, c: Word, d: Word, m: Word, s: nat) returns (x: Word)
    requires r < 3 && 0 < s < 32
    ensures x == Op(r, a, b, c, d, m, s)
  {
    hide Op;
    Code.RoundsAre(a, b, c, d, m, s);
    x := if r == 0 then Code.Round1(a, b, c, d, m, s)
         else if r == 1 then Code.Round2(a, b, c, d, m, s)
         else Code.Round3(a, b, c, d, m, s);
  }

  /** Four operations on registers updated in place: the words m0 to m3 and shifts s0 to s3. */
  method FourOperations(r: nat, m0: Word, s0: nat, m1: Word, s1: nat, m2: Word, s2: nat, m3: Word, s3: nat, t: Regs,
                        ghost x: seq<Word>, ghost q: nat) returns (u: Regs)
    requires |x| == 16 && q < 4 && r < 3
    requires m0 == x[Pick(r, q, 0)] && m1 == x[Pick(r, q, 1)] && m2 == x[Pick(r, q, 2)] && m3 == x[Pick(r, q, 3)]
    requires s0 == Shift(r, 0) && s1 == Shift(r, 1) && s2 == Shift(r, 2) && s3 == Shift(r, 3)
    ensures u == Row(x, r, q, 4, t)
  {
    hide Op, Pick, Shift;
    var Regs(a, b, c, d) := t;
    a := Operation(r, a, b, c, d, m0, s0);
    assert Row(x, r, q, 1, t) == Step(x, r, q, 0, t) == Regs(d, a, b, c);
    d := Operation(r, d, a, b, c, m1, s1);
    assert Row(x, r, q, 2, t) == Step(x, r, q, 1, Row(x, r, q, 1, t)) == Regs(c, d, a, b);
    c := Operation(r, c, d, a, b, m2, s2);
    assert Row(x, r, q, 3, t) == Step(x, r, q, 2, Row(x, r, q, 2, t)) == Regs(b, c, d, a);
    b := Operation(r, b, c, d, a, m3, s3);
    assert Row(x, r, q, 4, t) == Step(x, r, q, 3, Row(x, r, q, 3, t)) == Regs(a, b, c, d);
    u := Regs(a, b, c, d);
  }

  lemma FourRows(x: seq<Word>, r: nat, t: Regs)
    requires |x| == 16
    ensures Rows(x, r, 4, t) == Row(x, r, 3, 4, Row(x, r, 2, 4, Row(x, r, 1, 4, Row(x, r, 0, 4, t))))
  {
    hide Row;
    assert Rows(x, r, 1, t) == Row(x, r, 0, 4, t);
    assert Rows(x, r, 2, t) == Row(x, r, 1, 4, Rows(x, r, 1, t));
    assert Rows(x, r, 3, t) == Row(x, r, 2, 4, Rows(x, r, 2, t));
  }

  method Round1(x: seq<Word>, t: Regs) returns (u: Regs)
    requires |x| == 16
    ensures u == Rows(x, 0, 4, t)
  {
    hide Row, Rows, Op;
    FourRows(x, 0, t);
    u := FourOperations(0, x[0], 3, x[1], 7, x[2], 11, x[3], 19, t, x, 0);
    u := FourOperations(0, x[4], 3, x[5], 7, x[6], 11, x[7], 19, u, x, 1);
    u := FourOperations(0, x[8], 3, x[9], 7, x[10], 11, x[11], 19, u, x, 2);
    u := FourOperations(0, x[12], 3, x[13], 7, x[14], 11, x[15], 19, u, x, 3);
  }

  method Round2(x: seq<Word>, t: Regs) returns (u: Regs)
    requires |x| == 16
    ensures u == Rows(x, 1, 4, t)
  {
    hide Row, Rows, Op;
    FourRows(x, 1, t);
    u := FourOperations(1, x[0], 3, x[4], 5, x[8], 9, x[12], 13, t, x, 0);
    u := FourOperations(1, x[1], 3, x[5], 5, x[9], 9, x[13], 13, u, x, 1);
    u := FourOperations(1, x[2], 3, x[6], 5, x[10], 9, x[14], 13, u, x, 2);
    u := FourOperations(1, x[3], 3, x[7], 5, x[11], 9, x[15], 13, u, x, 3);
  }

  method Round3(x: seq<Word>, t: Regs) returns (u: Regs)
    requires |x| == 16
    ensures u == Rows(x, 2, 4, t)
  {
    hide Row, Rows, Op;
    FourRows(x, 2, t);
    u := FourOperations(2, x[0], 3, x[8], 9, x[4], 11, x[12], 15, t, x, 0);
    u := FourOperations(2, x[2], 3, x[10], 9, x[6], 11, x[14], 15, u, x, 1);
    u := FourOperations(2, x[1], 3, x[9], 9, x[5], 11, x[13], 15, u, x, 2);
    u := FourOperations(2, x[3], 3, x[11], 9, x[7], 11, x[15], 15, u, x, 3);
  }

  lemma ThreeRounds(x: seq<Word>, s: Regs)
    requires |x| == 16
    ensures Rounds(x, 3, s) == Rows(x, 2, 4, Rows(x, 1, 4, Rows(x, 0, 4, s)))
  {
    hide Rows;
    assert Rounds(x, 1, s) == Rows(x, 0, 4, s);
    assert Rounds(x, 2, s) == Rows(x, 1, 4, Rounds(x, 1, s));
  }

  // ----- cutting a message anywhere -----

  lemma {:induction false} Extend(s: Regs, msg: seq<Byte>, more: seq<Byte>)
    ensures Absorb(s, msg + more) == Absorb(Absorb(s, msg), Rest(msg) + more)
    ensures Rest(msg + more) == Rest(Rest(msg) + more)
    decreases |msg|
  {
    if |msg| >= 64 {
      assert (msg + more)[..64] == msg[..64] && (msg + more)[64..] == msg[64..] + more;
      Extend(Compress(Words(msg[..64], 16), s), msg[64..], more);
    }
  }

  lemma OneBlock(s: Regs, block: seq<Byte>, more: seq<Byte>)
    requires |block| == 64
    ensures Absorb(s, block + more) == Absorb(Compress(Words(block, 16), s), more)
    ensures Rest(block + more) == Rest(more)
  {
    assert (block + more)[..64] == block && (block + more)[64..] == more;
  }

  lemma {:induction false} RestSize(msg: seq<Byte>)
    ensures |Rest(msg)| == |msg| % 64
    decreases |msg|
  {
    if |msg| >= 64 { RestSize(msg[64..]); }
  }

  // ----- the padding the code writes -----

  function CodePadded(msg: seq<Byte>): seq<Byte> {
    msg + (Filler(|msg|) + (Bytes4(8 * |msg| % 0x1_0000_0000) + [0, 0, 0, 0]))
  }

  /** It is the padding of the RFC exactly when the length in bits fits in 32 bits. */
  lemma PaddingExact(msg: seq<Byte>)
    ensures CodePadded(msg) == Padded(msg) <==> 8 * |msg| % 0x1_0000_0000_0000_0000 < 0x1_0000_0000
  {
    hide Bytes4, Filler;
    var bits := 8 * |msg| % 0x1_0000_0000_0000_0000;
    var low, high := bits % 0x1_0000_0000, bits / 0x1_0000_0000;
    LowBits(8 * |msg|);
    var code, rfc := CodePadded(msg), Padded(msg);
    var k := |msg| + |Filler(|msg|)| + 4;
    assert code[k..] == [0, 0, 0, 0] && rfc[k..] == Bytes4(high);
    assert code[..k] == msg + (Filler(|msg|) + Bytes4(low)) == rfc[..k];
    assert code == code[..k] + code[k..] && rfc == rfc[..k] + rfc[k..];
    ZeroWord(high);
  }

  lemma LowBits(n: nat)
    ensures n % 0x1_0000_0000_0000_0000 % 0x1_0000_0000 == n % 0x1_0000_0000
    ensures n % 0x1_0000_0000_0000_0000 / 0x1_0000_0000 == 0 <==> n % 0x1_0000_0000_0000_0000 < 0x1_0000_0000
  {
  }

  lemma ZeroWord(w: Word)
    ensures Bytes4(w) == [0, 0, 0, 0] <==> w == 0
  {
    WordOfBytes(w);
    var r := Bytes4(w);
    assert r == [r[0], r[1], r[2], r[3]];
  }

  lemma ShortMessage(msg: seq<Byte>)
    requires |msg| < 0x2000_0000
    ensures CodePadded(msg) == Padded(msg)
  {
    hide CodePadded, Padded;
    PaddingExact(msg);
  }

  // ----- the state -----

  class State {
    var a: Word
    var b: Word
    var c: Word
    var d: Word
    var totalN: Word
    const tail: array<Byte>
    var tailLen: nat

    ghost function R(): Regs
      reads this
    {
      Regs(a, b, c, d)
    }

    ghost predicate Valid()
      reads this, tail
    {
      tail.Length == 64 && tailLen < 64
    }

    /** The state after the bytes of msg. */
    ghost predicate Holds(msg: seq<Byte>)
      reads this, tail
    {
      && Valid()
      && R() == Absorb(INITIAL, msg)
      && tail[..tailLen] == Rest(msg)
      && totalN == (|msg| - |Rest(msg)|) % 0x1_0000_0000
    }

    constructor Begin()
      ensures Holds([]) && fresh(tail)
    {
      a, b, c, d := 0x67452301, 0xefcdab89, 0x98badcfe, 0x10325476;
      totalN, tailLen := 0, 0;
      tail := new Byte[64];
    }

    /** A copy goes on from the bytes seen so far. */
    constructor Copy(base: State)
      requires base.Valid()
      ensures forall msg :: base.Holds(msg) ==> Holds(msg)
      ensures Valid() && fresh(tail)
    {
      a, b, c, d, totalN, tailLen := base.a, base.b, base.c, base.d, base.totalN, base.tailLen;
      tail := new Byte[64](i requires 0 <= i < 64 && base.tail.Length == 64 reads base.tail => base.tail[i]);
      new;
      assert tail[..] == base.tail[..];
    }

    method Mdfour64(m: array<Word>)
      requires m.Length == 16
      modifies `a, `b, `c, `d
      ensures R() == Compress(m[..], old(R()))
    {
      hide Rows;
      var s := Regs(a, b, c, d);
      var t := Round1(m[..], s);
      t := Round2(m[..], t);
      t := Round3(m[..], t);
      ThreeRounds(m[..], s);
      a, b, c, d := Add(s.a, t.a), Add(s.b, t.b), Add(s.c, t.c), Add(s.d, t.d);
    }

    /** One 64-byte block, taken from a buffer. */
    method Block(input: array<Byte>, at: nat)
      requires at + 64 <= input.Length
      modifies `a, `b, `c, `d
      ensures R() == Compress(Words(input[at..at + 64], 16), old(R()))
    {
      var m := new Word[16];
      Copy64(m, input, at);
      assert m[..] == Words(input[at..at + 64], 16);
      Mdfour64(m);
    }

    /** Appends bytes to the tail. */
    method Save(input: array<Byte>, at: nat, len: nat)
      requires tail.Length == 64 && tailLen + len <= 64 && at + len <= input.Length && input != tail
      modifies tail, `tailLen
      ensures tailLen == old(tailLen) + len && tail[..tailLen] == old(tail[..tailLen]) + input[at..at + len]
    {
      for k := 0 to len
        invariant tailLen == old(tailLen)
        invariant tail[..tailLen + k] == old(tail[..tailLen]) + input[at..at + k]
      {
        tail[tailLen + k] := input[at + k];
        assert input[at..at + k + 1] == input[at..at + k] + [input[at + k]];
      }
      tailLen := tailLen + len;
    }

    method Count64()
      modifies `totalN
      ensures totalN == (old(totalN) + 64) % 0x1_0000_0000
    {
      var n: int := totalN;
      totalN := (n + 64) % 0x1_0000_0000;
    }

    /** The bytes that fit beside those waiting in the tail; a full tail is a block. */
    method FillTail(input: array<Byte>, n: nat, ghost msg: seq<Byte>) returns (len: nat)
      requires Holds(msg) && tailLen > 0 && n <= input.Length && input != tail
      modifies this, tail
      ensures len <= n && Holds(msg + input[..len]) && (len < n ==> tailLen == 0)
    {
      hide Absorb, Words, Compress, Rest;
      len := 64 - tailLen;
      if len > n { len := n; }
      ghost var more, rest := input[..len], Rest(msg);
      Extend(INITIAL, msg, more);
      Save(input, 0, len);
      assert input[0..len] == more && tail[..tailLen] == rest + more;
      if tailLen == 64 {
        assert tail[0..64] == rest + more;
        Block(tail, 0);
        Count64();
        tailLen := 0;
        FullTail(R0(msg), rest + more);
        NextTotal(|msg| - |rest|);
        assert tail[..0] == [];
      } else {
        ShortTail(R0(msg), rest + more);
      }
    }

    ghost function R0(msg: seq<Byte>): Regs { Absorb(INITIAL, msg) }

    /** A block straight from the input. */
    method TakeBlock(input: array<Byte>, at: nat, ghost before: seq<Byte>)
      requires Holds(before) && tailLen == 0 && at + 64 <= input.Length
      modifies this
      ensures Holds(before + input[at..at + 64]) && tailLen == 0
    {
      hide Absorb, Words, Compress, Rest;
      ghost var block := input[at..at + 64];
      Extend(INITIAL, before, block);
      assert Rest(before) == [] && [] + block == block;
      FullTail(R0(before), block);
      NextTotal(|before|);
      Block(input, at);
      Count64();
    }

    /** The last bytes of the input, fewer than a block. */
    method TakeRest(input: array<Byte>, at: nat, n: nat, ghost before: seq<Byte>)
      requires Holds(before) && tailLen == 0 && at <= n <= input.Length && n - at < 64 && input != tail
      modifies this, tail
      ensures Holds(before + input[at..n])
    {
      hide Absorb, Rest;
      ghost var more := input[at..n];
      Extend(INITIAL, before, more);
      assert Rest(before) == [] && [] + more == more;
      ShortTail(R0(before), more);
      Save(input, at, n - at);
    }

    /** More of the message. */
    method Update(input: array<Byte>, n: nat, ghost msg: seq<Byte>)
      requires Holds(msg) && n <= input.Length && input != tail
      modifies this, tail
      ensures Holds(msg + input[..n])
    {
      hide Absorb, Rest;
      var at := 0;
      assert msg + input[..0] == msg;
      if tailLen > 0 { at := FillTail(input, n, msg); }
      while n - at >= 64
        invariant 0 <= at <= n && Holds(msg + input[..at]) && (at < n ==> tailLen == 0)
      {
        assert msg + input[..at + 64] == (msg + input[..at]) + input[at..at + 64];
        TakeBlock(input, at, msg + input[..at]);
        at := at + 64;
      }
      if at < n {
        assert msg + input[..n] == (msg + input[..at]) + input[at..n];
        TakeRest(input, at, n, msg + input[..at]);
      }
    }

    /** The padded end of the message. */
    method Finish(ghost msg: seq<Byte>)
      requires Holds(msg)
      modifies this
      ensures R() == Absorb(INITIAL, CodePadded(msg))
    {
      hide Absorb, Words, Compress, Rest, Filler, Bytes4;
      var n := tailLen;
      ghost var rest := tail[..n];
      var total: int := totalN;
      totalN := (total + n) % 0x1_0000_0000;
      var count: int := totalN;
      var b: Word := 8 * count % 0x1_0000_0000;
      LengthBits(|msg|, |rest|, b, totalN);
      ghost var pad := Filler(|msg|) + (Bytes4(b) + [0, 0, 0, 0]);
      Extend(INITIAL, msg, pad);
      RestSize(msg);
      var buf := new Byte[128];
      var size := if n <= 55 then 64 else 128;
      Pad(buf, n, size, b);
      Ending(buf[..], rest, |msg|, n, size, b);
      assert buf[..size] == rest + pad;
      Block(buf, 0);
      if size == 64 {
        OneBlock(R0(msg), buf[0..64], []);
        assert buf[0..64] + [] == buf[..size];
        ShortTail(R(), []);
      } else {
        ghost var r1 := R();
        Block(buf, 64);
        OneBlock(R0(msg), buf[0..64], buf[64..128]);
        assert buf[0..64] + buf[64..128] == buf[..size];
        OneBlock(r1, buf[64..128], []);
        assert buf[64..128] + [] == buf[64..128];
        ShortTail(R(), []);
      }
    }

    /** The waiting bytes, the one bit, zeros, and the length. */
    method Pad(buf: array<Byte>, n: nat, size: nat, b: Word)
      requires buf.Length == 128 && tail.Length == 64 && n < 64 && buf != tail
      requires size == if n <= 55 then 64 else 128
      modifies buf
      ensures buf[..n] == tail[..n] && buf[n] == 0x80 && buf[size - 8..size - 4] == Bytes4(b)
      ensures forall k | n < k < 128 && !(size - 8 <= k < size - 4) :: buf[k] == 0
    {
      for k := 0 to 128
        invariant forall j | 0 <= j < k :: buf[j] == 0
      {
        buf[k] := 0;
      }
      for k := 0 to n
        invariant forall j | 0 <= j < k :: buf[j] == tail[j]
        invariant forall j | n <= j < 128 :: buf[j] == 0
      {
        buf[k] := tail[k];
      }
      buf[n] := 0x80;
      Copy4(buf, size - 8, b);
    }

    method Result() returns (out: array<Byte>)
      ensures fresh(out) && out[..] == Output(R())
    {
      hide Bytes4;
      out := new Byte[16];
      Copy4(out, 0, a);
      Copy4(out, 4, b);
      Copy4(out, 8, c);
      Copy4(out, 12, d);
      assert out[..] == out[0..4] + out[4..8] + out[8..12] + out[12..16];
    }
  }

  /** The whole message at once. */
  method Hash(input: array<Byte>, n: nat) returns (out: array<Byte>)
    requires n <= input.Length
    ensures out[..] == Output(Absorb(INITIAL, CodePadded(input[..n])))
    ensures n < 0x2000_0000 ==> out[..] == Digest(input[..n])
  {
    var md := new State.Begin();
    md.Update(input, n, []);
    assert [] + input[..n] == input[..n];
    md.Finish(input[..n]);
    out := md.Result();
    if n < 0x2000_0000 { ShortMessage(input[..n]); }
  }

  function Joined(pieces: seq<seq<Byte>>): seq<Byte> {
    if pieces == [] then [] else pieces[0] + Joined(pieces[1..])
  }

  /** The message in any number of pieces, of any sizes. */
  method HashPieces(pieces: seq<seq<Byte>>) returns (out: array<Byte>)
    ensures out[..] == Output(Absorb(INITIAL, CodePadded(Joined(pieces))))
    ensures |Joined(pieces)| < 0x2000_0000 ==> out[..] == Digest(Joined(pieces))
  {
    hide Absorb, Rest, Padded, CodePadded;
    var md := new State.Begin();
    ghost var msg := [];
    for i := 0 to |pieces|
      invariant fresh(md) && fresh(md.tail) && md.Holds(msg)
      invariant msg + Joined(pieces[i..]) == Joined(pieces)
    {
      assert pieces[i..][0] == pieces[i] && pieces[i..][1..] == pieces[i + 1..];
      var input := Buffer(pieces[i]);
      md.Update(input, |pieces[i]|, msg);
      assert input[..|pieces[i]|] == pieces[i];
      assert msg + (pieces[i] + Joined(pieces[i + 1..])) == (msg + pieces[i]) + Joined(pieces[i + 1..]);
      msg := msg + pieces[i];
    }
    assert msg + [] == msg;
    md.Finish(msg);
    out := md.Result();
    if |msg| < 0x2000_0000 { ShortMessage(msg); }
  }

  method Buffer(s: seq<Byte>) returns (r: array<Byte>)
    ensures fresh(r) && r[..] == s
  {
    r := new Byte[|s|](i requires 0 <= i < |s| => s[i]);
  }

  lemma FullTail(s: Regs, block: seq<Byte>)
    requires |block| == 64
    ensures Absorb(s, block) == Compress(Words(block, 16), s) && Rest(block) == []
  {
    assert block + [] == block;
    OneBlock(s, block, []);
  }

  lemma ShortTail(s: Regs, bytes: seq<Byte>)
    requires |bytes| < 64
    ensures Absorb(s, bytes) == s && Rest(bytes) == bytes
  {
  }

  lemma NextTotal(n: nat)
    ensures (n % 0x1_0000_0000 + 64) % 0x1_0000_0000 == (n + 64) % 0x1_0000_0000
  {
  }

  lemma LengthBits(size: nat, rest: nat, b: Word, total: Word)
    requires rest <= size && total == ((size - rest) % 0x1_0000_0000 + rest) % 0x1_0000_0000
    requires b == 8 * total % 0x1_0000_0000
    ensures b == 8 * size % 0x1_0000_0000
  {
    var t: int := total;
    assert t == size % 0x1_0000_0000;
    assert size == 0x1_0000_0000 * (size / 0x1_0000_0000) + t;
  }

  /** The buffer is the end of the padded message. */
  lemma Ending(buf: seq<Byte>, rest: seq<Byte>, size: nat, n: nat, k: nat, b: Word)
    requires |buf| == 128 && |rest| == n == size % 64 && k == if n <= 55 then 64 else 128
    requires buf[..n] == rest && buf[n] == 0x80 && buf[k - 8..k - 4] == Bytes4(b)
    requires forall j | n < j < 128 && !(k - 8 <= j < k - 4) :: buf[j] == 0
    ensures buf[..k] == rest + (Filler(size) + (Bytes4(b) + [0, 0, 0, 0]))
  {
    hide Bytes4;
    var zeros := Zeros((119 - n) % 64);
    assert |zeros| == k - 9 - n;
    assert buf[n + 1..k - 8] == zeros;
    assert buf[k - 4..k] == [0, 0, 0, 0];
    Split(buf, n, k);
  }

  lemma Split(buf: seq<Byte>, n: nat, k: nat)
    requires |buf| == 128 && n + 9 <= k <= 128
    ensures buf[..k] == buf[..n] + (([buf[n]] + buf[n + 1..k - 8]) + (buf[k - 8..k - 4] + buf[k - 4..k]))
  {
  }

  method Copy4(out: array<Byte>, at: nat, w: Word)
    requires at + 4 <= out.Length
    modifies out
    ensures out[at..at + 4] == Bytes4(w)
    ensures forall k | 0 <= k < out.Length && !(at <= k < at + 4) :: out[k] == old(out[k])
  {
    var r := Bytes4(w);
    out[at], out[at + 1], out[at + 2], out[at + 3] := r[0], r[1], r[2], r[3];
  }

  method Copy64(m: array<Word>, input: array<Byte>, at: nat)
    requires m.Length == 16 && at + 64 <= input.Length
    modifies m
    ensures forall i | 0 <= i < 16 :: m[i] == WordAt(input[at..at + 64], 4 * i)
  {
    for i := 0 to 16
      invariant forall j | 0 <= j < i :: m[j] == WordAt(input[at..at + 64], 4 * j)
    {
      m[i] := LowFirst(input[at + 4 * i], input[at + 4 * i + 1], input[at + 4 * i + 2], input[at + 4 * i + 3]);
    }
  }
}
