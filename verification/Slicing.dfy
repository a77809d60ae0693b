/**
 Slicing a large object into pieces that one memory access can move, and the fetches and
 stores that go through those pieces.
 */
module Slicing {
  import opened Basics

  type Byte = x: int | 0 <= x < 256

  /** Where an object is: in memory `start` bytes from the base address, in a constant block
      from `start` on, in a register or computed, or in pieces.  A size of 0 is unknown. */
  datatype Place =
    | Address(start: nat, size: nat)
    | Constant(block: seq<Byte>, start: nat, size: nat)
    | Register(size: nat)
    | ComputedValue(size: nat)
    | Pieces(parts: seq<Place>, size: nat)

  // ----- slicing -----

  predicate SmallEnough(p: Place, total: nat, max: nat) {
    match p
    case Pieces(parts, _) => forall q | q in parts :: q.size <= max
    case _ => (if p.size != 0 then p.size else total) <= max
  }

  predicate Sliceable(p: Place) { p.Address? || p.Constant? }

  function Part(p: Place, offset: nat, size: nat): Place
    requires Sliceable(p)
  {
    match p case Address(s, _) => Address(s + offset, size) case Constant(b, s, _) => Constant(b, s + offset, size)
  }

  /** The pieces of the object from `offset` to its end. */
  function PartsFrom(p: Place, offset: nat, total: nat, max: nat): seq<Place>
    requires Sliceable(p) && offset <= total && max > 0
    decreases total - offset
  {
    if offset == total then []
    else
      var size := if total - offset > max then max else total - offset;
      [Part(p, offset, size)] + PartsFrom(p, offset + size, total, max)
  }

  /** None is a failure: the object is too large for what holds it. */
  function Sliced(p: Place, total: nat, max: nat): Option<Place>
    requires max > 0
  {
    if SmallEnough(p, total, max) then Some(p)
    else if Sliceable(p) then Some(Pieces(PartsFrom(p, 0, total, max), total))
    else None
  }

  /** Adjacent, non-empty pieces of p, none longer than max, from `offset` exactly to `total`. */
  ghost predicate Tiles(p: Place, parts: seq<Place>, offset: nat, total: nat, max: nat)
    requires Sliceable(p)
    decreases parts
  {
    if parts == [] then offset == total
    else
      var size := parts[0].size;
      && 0 < size <= max && offset + size <= total
      && parts[0] == Part(p, offset, size)
      && Tiles(p, parts[1..], offset + size, total, max)
  }

  lemma {:induction false} PartsTile(p: Place, offset: nat, total: nat, max: nat)
    requires Sliceable(p) && offset <= total && max > 0
    ensures Tiles(p, PartsFrom(p, offset, total, max), offset, total, max)
    decreases total - offset
  {
    if offset < total {
      var size := if total - offset > max then max else total - offset;
      PartsTile(p, offset + size, total, max);
      assert PartsFrom(p, offset, total, max)[1..] == PartsFrom(p, offset + size, total, max);
    }
  }

  /** No tiling of the object has fewer pieces. */
  lemma {:induction false} FewestParts(p: Place, parts: seq<Place>, offset: nat, total: nat, max: nat)
    requires Sliceable(p) && offset <= total && max > 0 && Tiles(p, parts, offset, total, max)
    ensures |PartsFrom(p, offset, total, max)| <= |parts|
    decreases parts
  {
    if parts != [] {
      FewestParts(p, parts[1..], offset + parts[0].size, total, max);
      if offset + parts[0].size < total { FewerFromLater(p, offset + parts[0].size, offset + max, total, max); }
    }
  }

  lemma {:induction false} FewerFromLater(p: Place, a: nat, b: nat, total: nat, max: nat)
    requires Sliceable(p) && a <= total && a <= b && max > 0
    ensures b <= total ==> |PartsFrom(p, b, total, max)| <= |PartsFrom(p, a, total, max)|
    decreases total - a
  {
    if b + max < total { FewerFromLater(p, a + max, b + max, total, max); }
  }

  lemma SlicedTiles(p: Place, total: nat, max: nat)
    requires max > 0
    ensures Sliced(p, total, max).None? <==> !SmallEnough(p, total, max) && !Sliceable(p)
    ensures !SmallEnough(p, total, max) && Sliceable(p) ==>
      var q := Sliced(p, total, max).value;
      q.Pieces? && q.size == total && Tiles(p, q.parts, 0, total, max)
  {
    if Sliceable(p) { PartsTile(p, 0, total, max); }
  }

  /** An object stays whole exactly when its size, or the total if that is not known, is at most the
      maximum; one that is in pieces, when each of them is. */
  lemma KeptExactly(p: Place, total: nat, max: nat)
    requires max > 0
    ensures !p.Pieces? && p.size > 0 ==> (Sliced(p, total, max) == Some(p) <==> p.size <= max)
    ensures !p.Pieces? && p.size == 0 ==> (Sliced(p, total, max) == Some(p) <==> total <= max)
    ensures p.Pieces? ==> (Sliced(p, total, max) == Some(p) <==> forall i | 0 <= i < |p.parts| :: p.parts[i].size <= max)
  {
  }

  lemma Regroup<T>(a: seq<T>, x: T, b: seq<T>)
    ensures a + ([x] + b) == (a + [x]) + b
  {
  }

  method Discontiguify(p: Place, total: nat, max: nat) returns (result: Option<Place>)
    requires max > 0
    ensures result == Sliced(p, total, max)
  {
    if SmallEnough(p, total, max) { return Some(p); }
    if p.Register? || p.ComputedValue? || p.Pieces? { return None; }
    var parts, offset := [], 0;
    while total - offset > 0
      invariant 0 <= offset <= total
      invariant parts + PartsFrom(p, offset, total, max) == PartsFrom(p, 0, total, max)
    {
      var size := total - offset;
      if size > max { size := max; }
      Regroup(parts, Part(p, offset, size), PartsFrom(p, offset + size, total, max));
      parts := parts + [Part(p, offset, size)];
      offset := offset + size;
    }
    assert parts + [] == parts;
    return Some(Pieces(parts, total));
  }

  // ----- fetching and storing -----

  /** The C generated for a fetch: assignments to fields of a union of the object's size, then a
      read of the whole union.  `at` is the field's offset. */
  datatype Move = Move(at: nat, part: Place)

  predicate FetchSize(n: nat) { n == 0 || n == 1 || n == 2 || n == 4 || n == 8 }

  predicate StoreSize(n: nat) { n == 1 || n == 2 || n == 4 || n == 8 }

  /** A fetch of one piece is accepted: constants declare a union of their own, and unions are
      numbered with one digit. */
  predicate Fetchable(p: Place, depth: nat) {
    match p
    case Constant(_, _, _) => depth <= 9
    case Pieces(_, _) => false
    case _ => FetchSize(p.size)
  }

  function FetchMoves(parts: seq<Place>, at: nat, depth: nat): Option<seq<Move>>
    decreases parts
  {
    if parts == [] then Some([])
    else if !Fetchable(parts[0], depth) then None
    else match FetchMoves(parts[1..], at + parts[0].size, depth + 1)
      case None => None
      case Some(rest) => Some([Move(at, parts[0])] + rest)
  }

  function StoreMoves(parts: seq<Place>, at: nat): Option<seq<Move>>
    decreases parts
  {
    if parts == [] then Some([])
    else if !(parts[0].Address? && StoreSize(parts[0].size)) then None
    else match StoreMoves(parts[1..], at + parts[0].size)
      case None => None
      case Some(rest) => Some([Move(at, parts[0])] + rest)
  }

  type Memory = seq<Byte>

  function Written(s: seq<Byte>, at: nat, bytes: seq<Byte>): (r: seq<Byte>)
    requires at + |bytes| <= |s|
    ensures |r| == |s| && r[..at] == s[..at] && r[at..at + |bytes|] == bytes && r[at + |bytes|..] == s[at + |bytes|..]
  {
    s[..at] + bytes + s[at + |bytes|..]
  }

  /** The first n bytes of a place; None when they are not all there. */
  function Contents(mem: Memory, base: nat, p: Place, n: nat): Option<seq<Byte>> {
    match p
    case Address(s, _) => if base + s + n <= |mem| then Some(mem[base + s..base + s + n]) else None
    case Constant(b, s, _) => if s + n <= |b| then Some(b[s..s + n]) else None
    case _ => None
  }

  /** Runs the assignments of a fetch on the union. */
  function RunFetch(mem: Memory, base: nat, moves: seq<Move>, union: seq<Byte>): Option<seq<Byte>>
    decreases moves
  {
    if moves == [] then Some(union)
    else
      var m := moves[0];
      match Contents(mem, base, m.part, m.part.size)
      case None => None
      case Some(bytes) =>
        if m.at + |bytes| > |union| then None else RunFetch(mem, base, moves[1..], Written(union, m.at, bytes))
  }

  /** Runs the assignments of a store from the union. */
  function RunStore(mem: Memory, base: nat, moves: seq<Move>, union: seq<Byte>): Option<Memory>
    decreases moves
  {
    if moves == [] then Some(mem)
    else
      var m := moves[0];
      if m.part.Address? && m.at + m.part.size <= |union| && base + m.part.start + m.part.size <= |mem| then
        RunStore(Written(mem, base + m.part.start, union[m.at..m.at + m.part.size]), base, moves[1..], union)
      else None
  }

  lemma SliceOfSlice(s: seq<Byte>, a: nat, n: nat, offset: nat, size: nat)
    requires a + n <= |s| && offset + size <= n
    ensures s[a..a + n][offset..offset + size] == s[a + offset..a + offset + size]
  {
    var inner, outer := s[a..a + n], s[a + offset..a + offset + size];
    forall k | 0 <= k < size ensures inner[offset..offset + size][k] == outer[k] {
      assert inner[offset + k] == s[a + offset + k];
    }
  }

  /** Extending a written prefix by one slice. */
  lemma ExtendWritten(s: seq<Byte>, a: nat, bytes: seq<Byte>, offset: nat, size: nat)
    requires a + |bytes| <= |s| && offset + size <= |bytes| && s[a..a + offset] == bytes[..offset]
    ensures var s' := Written(s, a + offset, bytes[offset..offset + size]);
      s'[a..a + offset + size] == bytes[..offset + size] && Written(s', a, bytes) == Written(s, a, bytes)
  {
    var s' := Written(s, a + offset, bytes[offset..offset + size]);
    forall k | 0 <= k < offset + size ensures s'[a + k] == bytes[k] {
      if k < offset { assert s[a..a + offset][k] == bytes[..offset][k]; }
    }
    assert s'[..a] == s[..a];
    assert s'[a + |bytes|..] == s[a + |bytes|..];
    assert s'[a..a + offset + size] == bytes[..offset + size];
  }

  lemma Rewritten(s: seq<Byte>, a: nat, bytes: seq<Byte>)
    requires a + |bytes| <= |s| && s[a..a + |bytes|] == bytes
    ensures Written(s, a, bytes) == s
  {
  }

  // ----- fetching through the pieces is fetching the object -----

  lemma ContentsSize(mem: Memory, base: nat, p: Place, n: nat)
    requires Contents(mem, base, p, n).Some?
    ensures |Contents(mem, base, p, n).value| == n
  {
  }

  /** A part holds its slice of the object. */
  lemma PartContents(mem: Memory, base: nat, p: Place, offset: nat, size: nat, total: nat)
    requires Sliceable(p) && offset + size <= total && Contents(mem, base, p, total).Some?
    ensures |Contents(mem, base, p, total).value| == total
    ensures Contents(mem, base, Part(p, offset, size), size) == Some(Contents(mem, base, p, total).value[offset..offset + size])
  {
    match p
    case Address(start, _) => SliceOfSlice(mem, base + start, total, offset, size);
    case Constant(block, start, _) => SliceOfSlice(block, start, total, offset, size);
  }

  lemma {:induction false} FetchTiles(mem: Memory, base: nat, p: Place, parts: seq<Place>, offset: nat, total: nat, max: nat,
                                      depth: nat, union: seq<Byte>)
    requires Sliceable(p) && Tiles(p, parts, offset, total, max) && offset <= total == |union|
    requires FetchMoves(parts, offset, depth).Some? && Contents(mem, base, p, total).Some?
    requires union[..offset] == Contents(mem, base, p, total).value[..offset]
    ensures RunFetch(mem, base, FetchMoves(parts, offset, depth).value, union) == Contents(mem, base, p, total)
    decreases parts
  {
    hide Written, Contents, Part;
    ContentsSize(mem, base, p, total);
    var whole := Contents(mem, base, p, total).value;
    var moves := FetchMoves(parts, offset, depth).value;
    if parts == [] {
      assert union == union[..offset] && whole == whole[..offset];
    } else {
      var size := parts[0].size;
      var rest := FetchMoves(parts[1..], offset + size, depth + 1).value;
      assert moves[1..] == rest;
      PartContents(mem, base, p, offset, size, total);
      var union' := Written(union, offset, whole[offset..offset + size]);
      assert union'[..offset + size] == union'[..offset] + union'[offset..offset + size];
      assert whole[..offset + size] == whole[..offset] + whole[offset..offset + size];
      FetchTiles(mem, base, p, parts[1..], offset + size, total, max, depth + 1, union');
    }
  }

  /** Whatever the union held before. */
  lemma FetchThroughPieces(mem: Memory, base: nat, p: Place, total: nat, max: nat, union: seq<Byte>)
    requires max > 0 && Sliceable(p) && !SmallEnough(p, total, max) && |union| == total
    requires Contents(mem, base, p, total).Some?
    ensures var moves := FetchMoves(Sliced(p, total, max).value.parts, 0, 1);
      moves.Some? ==> RunFetch(mem, base, moves.value, union) == Contents(mem, base, p, total)
  {
    PartsTile(p, 0, total, max);
    var parts := PartsFrom(p, 0, total, max);
    if FetchMoves(parts, 0, 1).Some? { FetchTiles(mem, base, p, parts, 0, total, max, 1, union); }
  }

  // ----- storing through the pieces is storing the object -----

  lemma StoreNothing(mem: Memory, base: nat, union: seq<Byte>)
    ensures RunStore(mem, base, [], union) == Some(mem)
  {
  }

  lemma StoreFirst(mem: Memory, base: nat, moves: seq<Move>, union: seq<Byte>)
    requires moves != [] && moves[0].part.Address?
    requires moves[0].at + moves[0].part.size <= |union| && base + moves[0].part.start + moves[0].part.size <= |mem|
    ensures var m := moves[0];
      RunStore(mem, base, moves, union) ==
      RunStore(Written(mem, base + m.part.start, union[m.at..m.at + m.part.size]), base, moves[1..], union)
  {
    hide Written;
  }

  lemma {:induction false} StoreTiles(mem: Memory, base: nat, p: Place, parts: seq<Place>, offset: nat, total: nat, max: nat,
                                      union: seq<Byte>)
    requires p.Address? && Tiles(p, parts, offset, total, max) && offset <= total == |union|
    requires StoreMoves(parts, offset).Some? && base + p.start + total <= |mem|
    requires mem[base + p.start..base + p.start + offset] == union[..offset]
    ensures RunStore(mem, base, StoreMoves(parts, offset).value, union) == Some(Written(mem, base + p.start, union))
    decreases parts
  {
    hide Written, RunStore;
    var a := base + p.start;
    var moves := StoreMoves(parts, offset).value;
    if parts == [] {
      assert union[..offset] == union;
      StoreNothing(mem, base, union);
      Rewritten(mem, a, union);
    } else {
      var size := parts[0].size;
      assert moves[1..] == StoreMoves(parts[1..], offset + size).value;
      var mem' := Written(mem, a + offset, union[offset..offset + size]);
      StoreFirst(mem, base, moves, union);
      ExtendWritten(mem, a, union, offset, size);
      StoreTiles(mem', base, p, parts[1..], offset + size, total, max, union);
    }
  }

  /** A store through the pieces and then a fetch through the pieces returns the value stored,
      and no byte outside the object has changed. */
  lemma StoreThenFetch(mem: Memory, base: nat, p: Place, total: nat, max: nat, value: seq<Byte>, union: seq<Byte>)
    requires max > 0 && p.Address? && !SmallEnough(p, total, max) && |value| == |union| == total
    requires base + p.start + total <= |mem|
    requires StoreMoves(Sliced(p, total, max).value.parts, 0).Some?
    ensures var parts, a := Sliced(p, total, max).value.parts, base + p.start;
      var mem' := RunStore(mem, base, StoreMoves(parts, 0).value, value);
      && mem'.Some? && |mem'.value| == |mem|
      && mem'.value[..a] == mem[..a] && mem'.value[a + total..] == mem[a + total..]
      && FetchMoves(parts, 0, 1).Some?
      && RunFetch(mem'.value, base, FetchMoves(parts, 0, 1).value, union) == Some(value)
  {
    PartsTile(p, 0, total, max);
    var parts := PartsFrom(p, 0, total, max);
    StoreTiles(mem, base, p, parts, 0, total, max, value);
    StoresFetch(parts, 0, 1);
    FetchTiles(Written(mem, base + p.start, value), base, p, parts, 0, total, max, 1, union);
  }

  /** Pieces that can be stored can be fetched. */
  lemma {:induction false} StoresFetch(parts: seq<Place>, at: nat, depth: nat)
    requires StoreMoves(parts, at).Some?
    ensures FetchMoves(parts, at, depth).Some?
    decreases parts
  {
    if parts != [] { StoresFetch(parts[1..], at + parts[0].size, depth + 1); }
  }

  // ----- which objects get through -----

  /** The size of the last of the pieces of n bytes. */
  function LastSize(n: nat, max: nat): nat
    requires max > 0
  {
    if n > max then LastSize(n - max, max) else n
  }

  const BASE_SIZES: set<nat> := {1, 2, 4, 8}

  /** A memory object can be stored, and fetched, exactly when its last piece, and the others if
      there are any, have the size of a base type. */
  lemma {:induction false} AddressParts(p: Place, offset: nat, total: nat, max: nat, at: nat, depth: nat)
    requires p.Address? && offset < total && max > 0
    ensures var parts, n := PartsFrom(p, offset, total, max), total - offset;
      && (FetchMoves(parts, at, depth).Some? <==> StoreMoves(parts, at).Some?)
      && (StoreMoves(parts, at).Some? <==> LastSize(n, max) in BASE_SIZES && (n > max ==> max in BASE_SIZES))
    decreases total - offset
  {
    var parts := PartsFrom(p, offset, total, max);
    if total - offset > max {
      assert parts[1..] == PartsFrom(p, offset + max, total, max);
      AddressParts(p, offset + max, total, max, at + max, depth + 1);
    } else {
      assert parts[1..] == [];
    }
  }

  /** A size of zero stands for that of an address when fetching; nothing of that size is stored. */
  lemma UnsizedPart(start: nat, at: nat, depth: nat)
    ensures FetchMoves([Address(start, 0)], at, depth) == Some([Move(at, Address(start, 0))])
    ensures StoreMoves([Address(start, 0)], at) == None
  {
    var p := Address(start, 0);
    assert [p][1..] == [];
    assert [Move(at, p)] + [] == [Move(at, p)];
  }

  /** A constant is fetched through at most nine pieces. */
  lemma {:induction false} ConstantParts(p: Place, offset: nat, total: nat, max: nat, at: nat, depth: nat)
    requires p.Constant? && offset <= total && max > 0
    ensures var parts := PartsFrom(p, offset, total, max);
      FetchMoves(parts, at, depth).Some? <==> parts == [] || |parts| + depth <= 10
    decreases total - offset
  {
    if offset < total {
      var size := if total - offset > max then max else total - offset;
      ConstantParts(p, offset + size, total, max, at + size, depth + 1);
      assert PartsFrom(p, offset, total, max)[1..] == PartsFrom(p, offset + size, total, max);
    }
  }
}
