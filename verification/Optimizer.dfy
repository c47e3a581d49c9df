/** Dead-code elimination and jump relocation (vm/compiler.go:2150-2238).

    The unoptimized body of a function has no return at its end; falling off the end means
    "return undefined". So the body's meaning is that of `Closed(code)`, the body with OpReturn 0
    appended, and the optimized code is compared with that. */
module Optimizer {
  import opened Wrappers
  import opened Instructions

  const Return0: seq<byte> := [OpReturn, 0]

  function Closed(code: seq<byte>): seq<byte> { code + Return0 }

  // ----- what the passes compute -----

  /** Pass 1: the destinations of all jumps from p on. */
  function JumpTargets(code: seq<byte>, p: int): set<int>
    requires Stream(code, p)
    decreases |code| - p
  {
    if p == |code| then {}
    else (if IsJump(code[p]) then {Target(code, p)} else {}) + JumpTargets(code, Next(code, p))
  }

  /** Pass 2 at one instruction: is it kept? A return is tested before the destinations are, so
      that a return in dead code is dropped even when something jumps to it. */
  predicate Keep(op: byte, isTarget: bool, dead: bool) {
    if op == OpReturn then !dead else isTarget || !dead
  }

  /** ... and is what follows it dead? */
  predicate DeadAfter(op: byte, isTarget: bool, dead: bool) {
    op == OpReturn || (!isTarget && dead)
  }

  /** The positions pass 2 keeps, in order. */
  function KeptFrom(code: seq<byte>, dsts: set<int>, p: int, dead: bool): (ks: seq<int>)
    requires Stream(code, p) && 0 <= p
    ensures forall k <- ks :: p <= k < |code| && Whole(code, k)
    decreases |code| - p
  {
    if p == |code| then []
    else (if Keep(code[p], p in dsts, dead) then [p] else [])
         + KeptFrom(code, dsts, Next(code, p), DeadAfter(code[p], p in dsts, dead))
  }

  function Kept(code: seq<byte>): (ks: seq<int>)
    requires Stream(code, 0)
    ensures forall k <- ks :: 0 <= k < |code| && Whole(code, k)
  {
    KeptFrom(code, JumpTargets(code, 0), 0, false)
  }

  ghost predicate AllWhole(code: seq<byte>, ks: seq<int>) {
    forall k <- ks :: Whole(code, k)
  }

  function Instrs(code: seq<byte>, ks: seq<int>): seq<byte>
    requires AllWhole(code, ks)
  {
    if ks == [] then [] else InstrAt(code, ks[0]) + Instrs(code, ks[1..])
  }

  function Length(code: seq<byte>, ks: seq<int>): nat
    requires AllWhole(code, ks)
  {
    if ks == [] then 0 else assert Whole(code, ks[0]); InstrLen(code[ks[0]]) + Length(code, ks[1..])
  }

  /** posMap: what is known already, and for the rest old positions to new ones from base on. */
  function Positions(code: seq<byte>, ks: seq<int>, base: int, known: map<int, int>): map<int, int>
    requires AllWhole(code, ks)
  {
    if ks == [] then known
    else assert Whole(code, ks[0]);
         Positions(code, ks[1..], base + InstrLen(code[ks[0]]), known[ks[0] := base])
  }

  /** Pass 3 at one instruction. */
  function Relocated(code: seq<byte>, k: int, posMap: map<int, int>, end: int): (b: seq<byte>)
    requires Whole(code, k)
    ensures |b| == InstrLen(code[k]) && b[0] == code[k]
  {
    if IsJump(code[k]) then
      var t := Target(code, k);
      var d := if t in posMap then posMap[t] else end;
      [code[k], Hi(d), Lo(d)]
    else InstrAt(code, k)
  }

  function RelocatedAll(code: seq<byte>, ks: seq<int>, posMap: map<int, int>, end: int): seq<byte>
    requires AllWhole(code, ks)
  {
    if ks == [] then [] else Relocated(code, ks[0], posMap, end) + RelocatedAll(code, ks[1..], posMap, end)
  }

  /** The jump at k has nowhere to go: pass 3 panics. */
  predicate Dangling(code: seq<byte>, k: int, posMap: map<int, int>) {
    Whole(code, k) && IsJump(code[k]) && Target(code, k) !in posMap && Target(code, k) != |code|
  }

  predicate JumpsToEnd(code: seq<byte>, k: int, posMap: map<int, int>) {
    Whole(code, k) && IsJump(code[k]) && Target(code, k) !in posMap && Target(code, k) == |code|
  }

  predicate NeedsReturn(code: seq<byte>, ks: seq<int>, posMap: map<int, int>)
    requires AllWhole(code, ks)
  {
    ks == [] || (assert Whole(code, ks[|ks| - 1]); code[ks[|ks| - 1]] != OpReturn) || AnyJumpsToEnd(code, ks, posMap)
  }

  /** The whole of optimizeFunc; None is the panic of pass 3. */
  function Optimized(code: seq<byte>): Option<seq<byte>>
    requires Stream(code, 0)
  {
    var ks := Kept(code);
    var posMap := Positions(code, ks, 0, map[]);
    if AnyDangling(code, ks, posMap) then None
    else Some(RelocatedAll(code, ks, posMap, Length(code, ks))
              + (if NeedsReturn(code, ks, posMap) then Return0 else []))
  }

  // ----- the passes -----

  /** One turn of iterateInstructions: decodes the instruction at p and finds the next one. */
  method Fetch(code: seq<byte>, p: int) returns (op: byte, operands: seq<int>, next: int)
    requires Whole(code, p)
    ensures op == code[p] && next == Next(code, p)
    ensures |operands| == |Widths(op)| && Encode(op, operands) == InstrAt(code, p)
    ensures IsJump(op) ==> operands == [Target(code, p)]
  {
    op := code[p];
    var read;
    operands, read := ReadOperands(Widths(op), code[p + 1..]);
    next := p + 1 + read;
    Reencoded(code, p);
    if IsJump(op) { JumpOperand(code, p); }
  }

  /** MakeInstruction for a jump. */
  method MakeJump(op: byte, d: int) returns (b: seq<byte>)
    requires IsJump(op)
    ensures b == [op, Hi(d), Lo(d)]
  {
    JumpBytes(op, d);
    b := MakeInstruction(op, [d]);
  }

  method OptimizeFunc(code: seq<byte>) returns (r: Option<seq<byte>>)
    requires Stream(code, 0)
    ensures r == Optimized(code)
  {
    var dsts := FindTargets(code);
    var newInsts, posMap := EliminateDeadCode(code, dsts);
    ghost var ks := Kept(code);
    InstrsLength(code, ks);
    var relocated, appendReturn := UpdateJumps(code, ks, newInsts, posMap);
    if relocated.None? {
      return None;
    }
    var ret: seq<byte> := [];
    if appendReturn {
      assert [0][1..] == [];
      ret := MakeInstruction(OpReturn, [0]);
    }
    r := Some(relocated.value + ret);
    assert |newInsts| == Length(code, ks);
    assert !AnyDangling(code, ks, posMap);
    assert relocated.value == RelocatedAll(code, ks, posMap, Length(code, ks));
    assert ret == if NeedsReturn(code, ks, posMap) then Return0 else [];
  }

  /** Pass 1. */
  method FindTargets(code: seq<byte>) returns (dsts: set<int>)
    requires Stream(code, 0)
    ensures dsts == JumpTargets(code, 0)
  {
    dsts := {};
    var p := 0;
    while p < |code|
      invariant 0 <= p <= |code| && Stream(code, p)
      invariant dsts + JumpTargets(code, p) == JumpTargets(code, 0)
    {
      var op, operands, next := Fetch(code, p);
      if IsJump(op) {
        dsts := dsts + {operands[0]};
      }
      p := next;
    }
  }

  /** Pass 2. */
  method EliminateDeadCode(code: seq<byte>, dsts: set<int>) returns (newInsts: seq<byte>, posMap: map<int, int>)
    requires Stream(code, 0) && dsts == JumpTargets(code, 0)
    ensures newInsts == Instrs(code, Kept(code)) && posMap == Positions(code, Kept(code), 0, map[])
  {
    newInsts, posMap := [], map[];
    var deadCode := false;
    var p := 0;
    ghost var rest := Kept(code);
    while p < |code|
      invariant 0 <= p <= |code| && Stream(code, p)
      invariant rest == KeptFrom(code, dsts, p, deadCode)
      invariant newInsts + Instrs(code, rest) == Instrs(code, Kept(code))
      invariant Positions(code, rest, |newInsts|, posMap) == Positions(code, Kept(code), 0, map[])
    {
      var op, operands, next := Fetch(code, p);
      if Keep(op, p in dsts, deadCode) {
        var bytes := MakeInstruction(op, operands);
        rest := KeepFirst(code, rest, p, newInsts, posMap);
        posMap := posMap[p := |newInsts|];
        newInsts := newInsts + bytes;
      }
      deadCode := DeadAfter(op, p in dsts, deadCode);
      p := next;
    }
  }

  lemma KeepFirst(code: seq<byte>, ks: seq<int>, p: int, newInsts: seq<byte>, posMap: map<int, int>)
    returns (rest: seq<int>)
    requires AllWhole(code, ks) && ks != [] && ks[0] == p
    ensures rest == ks[1..] && Whole(code, p)
    ensures newInsts + Instrs(code, ks) == (newInsts + InstrAt(code, p)) + Instrs(code, rest)
    ensures Positions(code, ks, |newInsts|, posMap)
            == Positions(code, rest, |newInsts + InstrAt(code, p)|, posMap[p := |newInsts|])
  {
    rest := ks[1..];
    assert Whole(code, ks[0]);
    assert newInsts + (InstrAt(code, p) + Instrs(code, rest)) == (newInsts + InstrAt(code, p)) + Instrs(code, rest);
  }

  predicate AnyJumpsToEnd(code: seq<byte>, ks: seq<int>, posMap: map<int, int>) {
    exists k <- ks :: JumpsToEnd(code, k, posMap)
  }

  predicate AnyDangling(code: seq<byte>, ks: seq<int>, posMap: map<int, int>) {
    exists k <- ks :: Dangling(code, k, posMap)
  }

  lemma AnySplits(code: seq<byte>, seen: seq<int>, rest: seq<int>, posMap: map<int, int>)
    requires rest != []
    ensures seen + [rest[0]] + rest[1..] == seen + rest
    ensures Dangling(code, rest[0], posMap) ==> AnyDangling(code, seen + rest, posMap)
    ensures AnyJumpsToEnd(code, seen + [rest[0]], posMap)
            <==> AnyJumpsToEnd(code, seen, posMap) || JumpsToEnd(code, rest[0], posMap)
    ensures AnyDangling(code, seen + [rest[0]], posMap)
            <==> AnyDangling(code, seen, posMap) || Dangling(code, rest[0], posMap)
  {
    var d := seen + [rest[0]];
    assert forall x :: x in d <==> x in seen || x == rest[0];
    assert rest[0] in seen + rest;
  }

  /** Pass 3 at the instruction at p, which pass 2 copied from position k of the old code. */
  method UpdateJump(newInsts: seq<byte>, p: int, posMap: map<int, int>, endPos: int, newEndPos: int,
                    ghost code: seq<byte>, ghost k: int, ghost done: seq<byte>, ghost tail: seq<byte>)
    returns (r: Option<seq<byte>>, toEnd: bool, op: byte, next: int)
    requires Whole(code, k) && endPos == |code|
    requires p == |done| && newInsts == done + (InstrAt(code, k) + tail)
    ensures r.None? <==> Dangling(code, k, posMap)
    ensures r.Some? ==> r.value == (done + Relocated(code, k, posMap, newEndPos)) + tail
    ensures toEnd <==> JumpsToEnd(code, k, posMap)
    ensures op == code[k] && next == p + InstrLen(op)
  {
    SameInstruction(code, k, newInsts, done, tail);
    var operands;
    op, operands, next := Fetch(newInsts, p);
    r, toEnd := Some(newInsts), false;
    if IsJump(op) {
      if operands[0] in posMap {
        var bytes := MakeJump(op, posMap[operands[0]]);
        r := Some(newInsts[..p] + bytes + newInsts[p + 3..]);
      } else if operands[0] == endPos {
        var bytes := MakeJump(op, newEndPos);
        r := Some(newInsts[..p] + bytes + newInsts[p + 3..]);
        toEnd := true;
      } else {
        r := None;
      }
    }
  }

  /** Pass 3: rewrites the jumps of newInsts one by one; None is the panic. */
  method UpdateJumps(code: seq<byte>, ghost ks: seq<int>, insts: seq<byte>, posMap: map<int, int>)
    returns (r: Option<seq<byte>>, appendReturn: bool)
    requires AllWhole(code, ks) && insts == Instrs(code, ks)
    ensures r.None? <==> AnyDangling(code, ks, posMap)
    ensures r.Some? ==> r.value == RelocatedAll(code, ks, posMap, |insts|)
    ensures r.Some? ==> (appendReturn <==> NeedsReturn(code, ks, posMap))
  {
    var newInsts := insts;
    var lastOp := OpConstant;
    var endPos, newEndPos := |code|, |insts|;
    ghost var done: seq<byte>, seen: seq<int>, rest := [], [], ks;
    var p := 0;
    appendReturn := false;
    while p < |newInsts|
      invariant seen + rest == ks && AllWhole(code, rest) && p == |done|
      invariant newInsts == done + Instrs(code, rest)
      invariant done + RelocatedAll(code, rest, posMap, newEndPos) == RelocatedAll(code, ks, posMap, newEndPos)
      invariant !AnyDangling(code, seen, posMap)
      invariant appendReturn <==> AnyJumpsToEnd(code, seen, posMap)
      invariant LastOpcodeIs(code, seen, lastOp)
      decreases |rest|
    {
      ghost var k := rest[0];
      RelocateFirst(code, rest, posMap, newEndPos, done);
      AnySplits(code, seen, rest, posMap);
      var updated, toEnd;
      updated, toEnd, lastOp, p := UpdateJump(newInsts, p, posMap, endPos, newEndPos,
                                              code, k, done, Instrs(code, rest[1..]));
      if updated.None? {
        return None, false;
      }
      newInsts := updated.value;
      appendReturn := appendReturn || toEnd;
      done, seen, rest := done + Relocated(code, k, posMap, newEndPos), seen + [k], rest[1..];
    }
    assert rest == [] && seen == ks;
    if lastOp != OpReturn {
      appendReturn := true;
    }
    r := Some(newInsts);
  }

  lemma RelocateFirst(code: seq<byte>, ks: seq<int>, posMap: map<int, int>, end: int, done: seq<byte>)
    requires AllWhole(code, ks) && ks != []
    ensures Whole(code, ks[0])
    ensures done + RelocatedAll(code, ks, posMap, end)
            == (done + Relocated(code, ks[0], posMap, end)) + RelocatedAll(code, ks[1..], posMap, end)
  {
    assert Whole(code, ks[0]);
    var b, more := Relocated(code, ks[0], posMap, end), RelocatedAll(code, ks[1..], posMap, end);
    assert done + (b + more) == (done + b) + more;
  }

  predicate LastOpcodeIs(code: seq<byte>, ks: seq<int>, op: byte) {
    if ks == [] then op == OpConstant
    else Whole(code, ks[|ks| - 1]) && op == code[ks[|ks| - 1]]
  }

  /** An instruction copied to another place reads the same there. */
  lemma SameInstruction(code: seq<byte>, k: int, copy: seq<byte>, done: seq<byte>, tail: seq<byte>)
    requires Whole(code, k) && copy == done + (InstrAt(code, k) + tail)
    ensures Whole(copy, |done|) && copy[|done|] == code[k]
    ensures InstrAt(copy, |done|) == InstrAt(code, k)
    ensures copy[|done| + InstrLen(code[k])..] == tail
    ensures IsJump(code[k]) ==> Target(copy, |done|) == Target(code, k)
  {
    var i := InstrAt(code, k);
    assert copy[|done|..|done| + |i|] == i;
    if IsJump(code[k]) {
      assert i[1] == code[k + 1] == copy[|done| + 1] && i[2] == code[k + 2] == copy[|done| + 2];
    }
  }

  lemma JumpOperand(code: seq<byte>, p: int)
    requires Whole(code, p) && IsJump(code[p])
    ensures DecodeOperands(Widths(code[p]), code[p + 1..], 0) == [Target(code, p)]
  {
    var b := code[p + 1..];
    assert Widths(code[p]) == [2] && [2][1..] == [];
    assert Word(b, 0) == Word(code, p + 1);
  }

  lemma JumpBytes(op: byte, d: int)
    requires IsJump(op)
    ensures Encode(op, [d]) == [op, Hi(d), Lo(d)]
  {
    assert Widths(op) == [2] && [2][1..] == [] && [d][1..] == [];
  }

  lemma Reencoded(code: seq<byte>, p: int)
    requires Whole(code, p)
    ensures Encode(code[p], DecodeOperands(Widths(code[p]), code[p + 1..], 0)) == InstrAt(code, p)
  {
    EncodeDecode(Widths(code[p]), code[p + 1..], 0);
    assert InstrAt(code, p) == [code[p]] + code[p + 1..][0..InstrLen(code[p]) - 1];
  }

  lemma {:induction false} InstrsLength(code: seq<byte>, ks: seq<int>)
    requires AllWhole(code, ks)
    ensures |Instrs(code, ks)| == Length(code, ks)
  {
    if ks != [] { InstrsLength(code, ks[1..]); }
  }
}
