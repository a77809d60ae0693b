/**
 The search for the end of a function's prologue in the address-sorted line table: a binary
 search for the record at the entry address, then a scan that may step backwards.
 */
module Prologue {
  import opened Basics

  datatype Line = Line(addr: nat, file: string, lineno: int)

  /** A function: its address range and the place of its declaration. */
  datatype Function = Function(entrypc: nat, highpc: nat, file: string, lineno: int)

  predicate Sorted(lines: seq<Line>) { forall i, j | 0 <= i <= j < |lines| :: lines[i].addr <= lines[j].addr }

  predicate OnDeclaration(x: Line, f: Function) { x.file == f.file && x.lineno == f.lineno }

  /** Finds a record at the entry address exactly when there is one. */
  method FindEntry(lines: seq<Line>, entrypc: nat) returns (found: bool, index: nat)
    requires Sorted(lines)
    ensures found ==> index < |lines| && lines[index].addr == entrypc
    ensures found <==> exists i | 0 <= i < |lines| :: lines[i].addr == entrypc
  {
    found, index := false, 0;
    var l, h := 0, |lines|;
    while l < h
      invariant 0 <= l <= h <= |lines|
      invariant forall i | 0 <= i < |lines| && lines[i].addr == entrypc :: l <= i < h
      decreases h - l
    {
      index := (l + h) / 2;
      var addr := lines[index].addr;
      if addr == entrypc {
        return true, index;
      } else if l + 1 == h {
        return;
      } else if addr < entrypc {
        l := index;
      } else {
        h := index;
      }
    }
  }

  // ----- what the scan computes -----

  /** The first record from i on that is past the function or not on its declaration. */
  function Stop(lines: seq<Line>, i: nat, f: Function): (j: nat)
    requires i <= |lines|
    ensures i <= j <= |lines|
    ensures forall k | i <= k < j :: lines[k].addr < f.highpc && OnDeclaration(lines[k], f)
    ensures j < |lines| ==> lines[j].addr >= f.highpc || !OnDeclaration(lines[j], f)
    decreases |lines| - i
  {
    if i == |lines| || lines[i].addr >= f.highpc || !OnDeclaration(lines[i], f) then i else Stop(lines, i + 1, f)
  }

  /** The last record before i that is below highpc. */
  function Back(lines: seq<Line>, i: nat, highpc: nat): Option<nat>
    requires i <= |lines|
  {
    if i == 0 then None else if lines[i - 1].addr < highpc then Some(lines[i - 1].addr) else Back(lines, i - 1, highpc)
  }

  function PrologueEnd(lines: seq<Line>, entry: nat, f: Function): Option<nat>
    requires entry <= |lines|
  {
    var j := Stop(lines, entry, f);
    if j == |lines| then None
    else if lines[j].addr >= f.highpc then Back(lines, j, f.highpc)
    else Some(lines[j].addr)
  }

  /** The scan; an index below zero has wrapped round to a number past the table. */
  method Scan(lines: seq<Line>, entry: nat, f: Function) returns (end: Option<nat>)
    requires entry < |lines|
    ensures end == PrologueEnd(lines, entry, f)
  {
    var index: int, ranoff := entry, false;
    while 0 <= index < |lines|
      invariant -1 <= index <= |lines|
      invariant !ranoff ==> entry <= index && Stop(lines, index, f) == Stop(lines, entry, f)
      invariant ranoff ==> index < |lines| && PrologueEnd(lines, entry, f) == Back(lines, index + 1, f.highpc)
      decreases if ranoff then 0 else 1, if ranoff then index + 1 else |lines| - index
    {
      var lr := lines[index];
      if lr.addr >= f.highpc {
        ranoff := true;
        index := index - 1;
      } else if ranoff || !OnDeclaration(lr, f) {
        return Some(lr.addr);
      } else {
        index := index + 1;
      }
    }
    return None;
  }

  method ResolvePrologue(lines: seq<Line>, f: Function) returns (end: Option<nat>)
    requires Sorted(lines)
    ensures (f.entrypc == 0 || !exists i | 0 <= i < |lines| :: lines[i].addr == f.entrypc) ==> end == None
    ensures (f.entrypc != 0 && exists i | 0 <= i < |lines| :: lines[i].addr == f.entrypc) ==>
      exists entry | 0 <= entry < |lines| :: lines[entry].addr == f.entrypc && end == PrologueEnd(lines, entry, f)
    ensures end.Some? ==> (f.entrypc <= end.value < f.highpc <==> f.entrypc < f.highpc)
  {
    var found, entry := FindEntry(lines, f.entrypc);
    if !found { return None; }
    if f.entrypc == 0 { return None; }
    end := Scan(lines, entry, f);
    if end.Some? { InsideExactly(lines, entry, f); }
  }

  // ----- what the prologue end means -----

  lemma {:induction false} BackBelow(lines: seq<Line>, i: nat, highpc: nat)
    requires Sorted(lines) && i <= |lines|
    ensures Back(lines, i, highpc).Some? ==> Back(lines, i, highpc).value < highpc
    ensures Back(lines, i, highpc).None? <==> forall k | 0 <= k < i :: lines[k].addr >= highpc
    decreases i
  {
    if i > 0 { BackBelow(lines, i - 1, highpc); }
  }

  /** An end found lies in the function exactly when the function is not empty. */
  lemma InsideExactly(lines: seq<Line>, entry: nat, f: Function)
    requires Sorted(lines) && entry < |lines| && lines[entry].addr == f.entrypc
    requires PrologueEnd(lines, entry, f).Some?
    ensures f.entrypc <= PrologueEnd(lines, entry, f).value < f.highpc <==> f.entrypc < f.highpc
  {
    BackBelow(lines, Stop(lines, entry, f), f.highpc);
  }

  /** In a function that is not empty it is left unset exactly when every record from the entry
      to the end of the table is below highpc and on the declaration line. */
  lemma UnsetExactly(lines: seq<Line>, entry: nat, f: Function)
    requires Sorted(lines) && entry < |lines| && lines[entry].addr == f.entrypc < f.highpc
    ensures PrologueEnd(lines, entry, f).None? <==>
      forall k | entry <= k < |lines| :: lines[k].addr < f.highpc && lines[k].file == f.file && lines[k].lineno == f.lineno
  {
    var j := Stop(lines, entry, f);
    BackBelow(lines, j, f.highpc);
  }

  /** The end is the first record of another file or line than the declaration's if there is one in
      the function, and otherwise the last record of the function. */
  lemma EndExactly(lines: seq<Line>, entry: nat, f: Function, j: nat)
    requires Sorted(lines) && entry < |lines| && lines[entry].addr == f.entrypc < f.highpc
    requires entry <= j < |lines| && lines[j].addr < f.highpc
    requires forall k | entry <= k < j :: lines[k].file == f.file && lines[k].lineno == f.lineno
    ensures lines[j].file != f.file || lines[j].lineno != f.lineno ==> PrologueEnd(lines, entry, f) == Some(lines[j].addr)
    ensures lines[j].file == f.file && lines[j].lineno == f.lineno && j + 1 < |lines| && lines[j + 1].addr >= f.highpc ==>
      PrologueEnd(lines, entry, f) == Some(lines[j].addr)
  {
    var s := Stop(lines, entry, f);
    assert s >= j;
  }

  /** A function whose end is not above its entry gets the record of whatever comes before it. */
  lemma OutsideExample()
    ensures var lines := [Line(1, "a.c", 1), Line(5, "a.c", 9)];
      Sorted(lines) && PrologueEnd(lines, 1, Function(5, 3, "a.c", 9)) == Some(1)
  {
    var lines, f := [Line(1, "a.c", 1), Line(5, "a.c", 9)], Function(5, 3, "a.c", 9);
    assert Stop(lines, 1, f) == 1;
    assert Back(lines, 1, 3) == Some(1);
  }
}
