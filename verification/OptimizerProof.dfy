/** What optimizeFunc preserves. */
module OptimizerProof {
  import opened Instructions
  import opened Optimizer

  // ----- the layout of the new code -----

  /** The new position of old position q; the end of the new code for anything not kept. */
  function NewPos(code: seq<byte>, ks: seq<int>, q: int): (p: nat)
    requires AllWhole(code, ks)
    ensures p <= Length(code, ks)
    ensures q in ks ==> Whole(code, q) && p + InstrLen(code[q]) <= Length(code, ks)
    ensures q !in ks ==> p == Length(code, ks)
  {
    if ks == [] || ks[0] == q then 0
    else assert Whole(code, ks[0]); InstrLen(code[ks[0]]) + NewPos(code, ks[1..], q)
  }

  /** What control falls through to at the head of rest. */
  predicate Follows(code: seq<byte>, rest: seq<int>, q: int) {
    if rest == [] then q == |code| else rest[0] == q
  }

  /** The positions increase, and after each kept instruction other than a return comes the one
      that followed it in the old code. */
  ghost predicate Chained(code: seq<byte>, ks: seq<int>)
    requires AllWhole(code, ks)
  {
    ks == [] ||
    (assert Whole(code, ks[0]);
     && (forall k <- ks[1..] :: Next(code, ks[0]) <= k)
     && (code[ks[0]] != OpReturn ==> Follows(code, ks[1..], Next(code, ks[0])))
     && Chained(code, ks[1..]))
  }

  lemma {:induction false} KeptChained(code: seq<byte>, dsts: set<int>, p: int, dead: bool)
    requires Stream(code, p) && 0 <= p
    ensures Chained(code, KeptFrom(code, dsts, p, dead))
    ensures !dead ==> Follows(code, KeptFrom(code, dsts, p, dead), p)
    decreases |code| - p
  {
    if p != |code| {
      var dead' := DeadAfter(code[p], p in dsts, dead);
      var rest := KeptFrom(code, dsts, Next(code, p), dead');
      KeptChained(code, dsts, Next(code, p), dead');
      if Keep(code[p], p in dsts, dead) {
        var ks := [p] + rest;
        assert KeptFrom(code, dsts, p, dead) == ks && ks[0] == p && ks[1..] == rest;
        assert forall k <- ks[1..] :: Next(code, ks[0]) <= k;
      } else {
        assert KeptFrom(code, dsts, p, dead) == rest;
      }
    }
  }

  lemma {:induction false} NextNewPos(code: seq<byte>, ks: seq<int>, q: int)
    requires AllWhole(code, ks) && Chained(code, ks)
    requires q in ks && Whole(code, q) && code[q] != OpReturn
    ensures NewPos(code, ks, Next(code, q)) == NewPos(code, ks, q) + InstrLen(code[q])
    ensures Next(code, q) in ks || Next(code, q) == |code|
  {
    assert Whole(code, ks[0]);
    if ks[0] == q {
      var rest := ks[1..];
      if rest == [] {
        assert ks == [q];
      } else {
        assert rest[0] in ks && rest[0] == Next(code, q);
      }
    } else {
      NextNewPos(code, ks[1..], q);
    }
  }

  lemma {:induction false} PositionsAre(code: seq<byte>, ks: seq<int>, base: int, known: map<int, int>, q: int)
    requires AllWhole(code, ks) && Chained(code, ks)
    requires forall k <- ks :: k !in known
    ensures q in Positions(code, ks, base, known) <==> q in ks || q in known
    ensures q in ks ==> Positions(code, ks, base, known)[q] == base + NewPos(code, ks, q)
    ensures q in known ==> Positions(code, ks, base, known)[q] == known[q]
  {
    if ks != [] {
      assert Whole(code, ks[0]);
      var known' := known[ks[0] := base];
      var base' := base + InstrLen(code[ks[0]]);
      assert ks[0] !in known;
      forall k | k in ks[1..] ensures k !in known' { assert k in ks; }
      PositionsAre(code, ks[1..], base', known', q);
      if q in ks && q != ks[0] { assert q in ks[1..]; }
    }
  }

  lemma {:induction false} RelocatedLength(code: seq<byte>, ks: seq<int>, posMap: map<int, int>, end: int)
    requires AllWhole(code, ks)
    ensures |RelocatedAll(code, ks, posMap, end)| == Length(code, ks)
  {
    if ks != [] { RelocatedLength(code, ks[1..], posMap, end); }
  }

  lemma {:induction false} NewInstruction(code: seq<byte>, ks: seq<int>, posMap: map<int, int>, end: int, q: int)
    returns (pre: seq<byte>, post: seq<byte>)
    requires AllWhole(code, ks) && q in ks && Whole(code, q)
    ensures |pre| == NewPos(code, ks, q)
    ensures RelocatedAll(code, ks, posMap, end) == pre + Relocated(code, q, posMap, end) + post
  {
    assert Whole(code, ks[0]);
    if ks[0] == q {
      pre, post := [], RelocatedAll(code, ks[1..], posMap, end);
    } else {
      pre, post := NewInstruction(code, ks[1..], posMap, end, q);
      var first, b := Relocated(code, ks[0], posMap, end), Relocated(code, q, posMap, end);
      assert RelocatedAll(code, ks, posMap, end) == first + (pre + b + post);
      Assoc(first, pre, b, post);
      pre := first + pre;
    }
  }

  lemma Assoc(a: seq<byte>, b: seq<byte>, c: seq<byte>, d: seq<byte>)
    ensures a + (b + c + d) == (a + b) + c + d
  {
  }

  lemma Regroup(a: seq<byte>, b: seq<byte>, c: seq<byte>, d: seq<byte>)
    ensures a + (b + c) + d == a + b + (c + d) == (a + b) + c + d
  {
  }

  /** A jump or other instruction read from within a longer stretch of code. */
  lemma ReadWithin(code: seq<byte>, pre: seq<byte>, b: seq<byte>, post: seq<byte>)
    requires b != [] && b[0] <= LastOpcode && |b| == InstrLen(b[0]) && code == pre + b + post
    ensures Whole(code, |pre|) && code[|pre|] == b[0] && InstrAt(code, |pre|) == b
    ensures b[0] == OpReturn ==> code[|pre| + 1] == b[1]
    ensures IsJump(b[0]) ==> Target(code, |pre|) == Word(b, 1)
  {
    assert code[|pre|..|pre| + |b|] == b;
    if b[0] == OpReturn { assert code[|pre| + 1] == b[1]; }
    if IsJump(b[0]) { assert code[|pre| + 1] == b[1] && code[|pre| + 2] == b[2]; }
  }

  /** The new code is no longer than what is left of the old code. */
  lemma {:induction false} LengthBound(code: seq<byte>, ks: seq<int>, p: int)
    requires AllWhole(code, ks) && Chained(code, ks) && p <= |code|
    requires forall k <- ks :: p <= k
    ensures Length(code, ks) <= |code| - p
  {
    if ks != [] {
      assert Whole(code, ks[0]);
      LengthBound(code, ks[1..], Next(code, ks[0]));
    }
  }

  /** ks and posMap are laid out as pass 2 leaves them, and pass 3 did not panic. */
  ghost predicate Layout(code: seq<byte>, ks: seq<int>, posMap: map<int, int>) {
    && |code| < 65536
    && AllWhole(code, ks) && Chained(code, ks) && Length(code, ks) <= |code|
    && (forall t :: t in posMap <==> t in ks)
    && (forall t :: t in posMap ==> posMap[t] == NewPos(code, ks, t))
    && (forall k <- ks :: k < |code| && !Dangling(code, k, posMap))
    && (ks == [] || ks[0] == 0)
  }

  lemma KeptLayout(code: seq<byte>)
    requires Stream(code, 0) && Optimized(code).Some? && |code| < 65536
    ensures Layout(code, Kept(code), Positions(code, Kept(code), 0, map[]))
    ensures Kept(code) == [] <==> code == []
  {
    var ks := Kept(code);
    var posMap := Positions(code, ks, 0, map[]);
    KeptChained(code, JumpTargets(code, 0), 0, false);
    LengthBound(code, ks, 0);
    forall t ensures t in posMap <==> t in ks
             ensures t in posMap ==> posMap[t] == NewPos(code, ks, t) {
      PositionsAre(code, ks, 0, map[], t);
    }
  }

  /** Where control may be: at a kept instruction, or at an end that has its return. */
  predicate Live(code: seq<byte>, ks: seq<int>, posMap: map<int, int>, q: int)
    requires AllWhole(code, ks)
  {
    q in ks || (q == |code| && NeedsReturn(code, ks, posMap))
  }

  function NewCode(code: seq<byte>, ks: seq<int>, posMap: map<int, int>): seq<byte>
    requires AllWhole(code, ks)
  {
    RelocatedAll(code, ks, posMap, Length(code, ks)) + (if NeedsReturn(code, ks, posMap) then Return0 else [])
  }

  /** Pass 3 sends a jump to the new position of its target, which is live. */
  lemma NewTarget(code: seq<byte>, ks: seq<int>, posMap: map<int, int>, q: int)
    requires Layout(code, ks, posMap) && q in ks && Whole(code, q) && IsJump(code[q])
    ensures Word(Relocated(code, q, posMap, Length(code, ks)), 1) == NewPos(code, ks, Target(code, q))
    ensures Live(code, ks, posMap, Target(code, q))
  {
    var t := Target(code, q);
    assert !Dangling(code, q, posMap);
    if t !in ks { assert JumpsToEnd(code, q, posMap); }
    WordOfHiLo(NewPos(code, ks, t));
  }

  /** The new code, read at the new position of a kept instruction. */
  lemma NewCodeAt(code: seq<byte>, ks: seq<int>, posMap: map<int, int>, q: int)
    requires Layout(code, ks, posMap) && q in ks && Whole(code, q)
    ensures var new', p := NewCode(code, ks, posMap), NewPos(code, ks, q);
            && Whole(new', p) && new'[p] == code[q]
            && (code[q] == OpReturn ==> new'[p + 1] == code[q + 1])
            && (IsJump(code[q]) ==> Target(new', p) == NewPos(code, ks, Target(code, q)))
            && (!IsJump(code[q]) ==> InstrAt(new', p) == InstrAt(code, q))
  {
    var pre, post := NewInstruction(code, ks, posMap, Length(code, ks), q);
    var b := Relocated(code, q, posMap, Length(code, ks));
    var ret := if NeedsReturn(code, ks, posMap) then Return0 else [];
    assert pre + b + post + ret == pre + b + (post + ret);
    ReadWithin(NewCode(code, ks, posMap), pre, b, post + ret);
    if IsJump(code[q]) { NewTarget(code, ks, posMap, q); }
    if code[q] == OpReturn { assert b[1] == code[q + 1]; }
  }

  /** The closed old code reads like the old code, and returns at its end. */
  lemma ClosedAt(code: seq<byte>, q: int)
    requires Whole(code, q) || q == |code|
    ensures Whole(Closed(code), q)
    ensures q == |code| ==> Closed(code)[q] == OpReturn && Closed(code)[q + 1] == 0
    ensures q != |code| ==> Closed(code)[q] == code[q] && InstrAt(Closed(code), q) == InstrAt(code, q)
    ensures q != |code| && code[q] == OpReturn ==> Closed(code)[q + 1] == code[q + 1]
    ensures q != |code| && IsJump(code[q]) ==> Target(Closed(code), q) == Target(code, q)
  {
  }

  /** After an instruction that falls through, control is at a live place again. */
  lemma FallThrough(code: seq<byte>, ks: seq<int>, posMap: map<int, int>, q: int)
    requires Layout(code, ks, posMap) && q in ks && Whole(code, q) && code[q] != OpReturn
    ensures NewPos(code, ks, Next(code, q)) == NewPos(code, ks, q) + InstrLen(code[q])
    ensures Live(code, ks, posMap, Next(code, q))
  {
    NextNewPos(code, ks, q);
    if Next(code, q) !in ks {
      LastKept(code, ks, q);
    }
  }

  lemma {:induction false} LastKept(code: seq<byte>, ks: seq<int>, q: int)
    requires AllWhole(code, ks) && Chained(code, ks) && q in ks && Whole(code, q) && Next(code, q) == |code|
    ensures ks[|ks| - 1] == q
  {
    assert Whole(code, ks[0]);
    if ks[0] == q {
      NothingBeyond(code, ks[1..]);
    } else {
      LastKept(code, ks[1..], q);
    }
  }

  lemma NothingBeyond(code: seq<byte>, rest: seq<int>)
    requires AllWhole(code, rest) && forall k <- rest :: |code| <= k
    ensures rest == []
  {
    assert rest == [] || (rest[0] in rest && Whole(code, rest[0]));
  }

  /** Both machines have stopped with the same result, or are at corresponding live places in the
      same state. */
  ghost predicate Same<S, R>(code: seq<byte>, ks: seq<int>, posMap: map<int, int>, a: Status<S, R>, b: Status<S, R>)
    requires AllWhole(code, ks)
  {
    match a
    case Halted(r) => b == a
    case Running(q, s) => Live(code, ks, posMap, q) && b == Running(NewPos(code, ks, q), s)
  }

  lemma StepAtEnd<S, R>(m: Meaning<S, R>, code: seq<byte>, ks: seq<int>, posMap: map<int, int>, s: S)
    requires AllWhole(code, ks) && NeedsReturn(code, ks, posMap)
    ensures Step(m, Closed(code), |code|, s) == Halted(m.ret(0, s))
    ensures Step(m, NewCode(code, ks, posMap), Length(code, ks), s) == Halted(m.ret(0, s))
  {
    ClosedAt(code, |code|);
    RelocatedLength(code, ks, posMap, Length(code, ks));
    ReadWithin(NewCode(code, ks, posMap), RelocatedAll(code, ks, posMap, Length(code, ks)), Return0, []);
  }

  /** Both statuses are the same end, or both fall through, or both jump, in the same state. */
  ghost predicate Alike<S, R>(a: seq<byte>, p: int, b: seq<byte>, q: int, x: Status<S, R>, y: Status<S, R>)
    requires Whole(a, p) && Whole(b, q) && a[p] == b[q]
  {
    match x
    case Halted(r) => y == x
    case Running(ip, s) =>
      a[p] != OpReturn &&
      ((ip == Next(a, p) && y == Running(Next(b, q), s))
      || (IsJump(a[p]) && ip == Target(a, p) && y == Running(Target(b, q), s)))
  }

  /** Two instructions that read the same, up to relocation, step alike. */
  lemma StepAlike<S, R>(m: Meaning<S, R>, a: seq<byte>, p: int, b: seq<byte>, q: int, s: S)
    requires Whole(a, p) && Whole(b, q) && a[p] == b[q]
    requires a[p] == OpReturn ==> a[p + 1] == b[q + 1]
    requires !IsJump(a[p]) ==> InstrAt(a, p) == InstrAt(b, q)
    ensures Alike(a, p, b, q, Step(m, a, p, s), Step(m, b, q, s))
  {
  }

  /** Where the two instructions may lead to: corresponding live places. */
  lemma Successors(code: seq<byte>, ks: seq<int>, posMap: map<int, int>, q: int)
    requires Layout(code, ks, posMap) && q in ks
    ensures var a, b, p := Closed(code), NewCode(code, ks, posMap), NewPos(code, ks, q);
            && Whole(a, q) && Whole(b, p) && a[q] == b[p]
            && (a[q] == OpReturn ==> a[q + 1] == b[p + 1])
            && (!IsJump(a[q]) ==> InstrAt(a, q) == InstrAt(b, p))
            && (a[q] != OpReturn ==> Live(code, ks, posMap, Next(a, q)) && Next(b, p) == NewPos(code, ks, Next(a, q)))
            && (IsJump(a[q]) ==> Live(code, ks, posMap, Target(a, q)) && Target(b, p) == NewPos(code, ks, Target(a, q)))
  {
    assert Whole(code, q);
    ClosedAt(code, q);
    NewCodeAt(code, ks, posMap, q);
    assert Next(Closed(code), q) == Next(code, q);
    if code[q] != OpReturn { FallThrough(code, ks, posMap, q); }
    if IsJump(code[q]) { NewTarget(code, ks, posMap, q); }
  }

  lemma StepSame<S, R>(m: Meaning<S, R>, code: seq<byte>, ks: seq<int>, posMap: map<int, int>, q: int, s: S)
    requires Layout(code, ks, posMap) && Live(code, ks, posMap, q)
    ensures Same(code, ks, posMap, Step(m, Closed(code), q, s),
                 Step(m, NewCode(code, ks, posMap), NewPos(code, ks, q), s))
  {
    if q in ks {
      Successors(code, ks, posMap, q);
      StepAlike(m, Closed(code), q, NewCode(code, ks, posMap), NewPos(code, ks, q), s);
    } else {
      StepAtEnd(m, code, ks, posMap, s);
    }
  }

  lemma {:induction false} RunSame<S, R>(m: Meaning<S, R>, code: seq<byte>, ks: seq<int>, posMap: map<int, int>,
                                         a: Status<S, R>, b: Status<S, R>, n: nat)
    requires Layout(code, ks, posMap) && Same(code, ks, posMap, a, b)
    ensures Same(code, ks, posMap, RunN(m, Closed(code), a, n), RunN(m, NewCode(code, ks, posMap), b, n))
    decreases n
  {
    hide Step;
    if n > 0 && a.Running? {
      StepSame(m, code, ks, posMap, a.ip, a.s);
      RunSame(m, code, ks, posMap, Step(m, Closed(code), a.ip, a.s),
              Step(m, NewCode(code, ks, posMap), b.ip, b.s), n - 1);
    }
  }

  /** Dead-code elimination keeps the meaning, step for step: whatever the other instructions do,
      after n steps from the start the optimized code is in the same state as the original, at the
      corresponding instruction, or both have stopped with the same result. In particular every
      instruction the original reaches has survived. */
  lemma OptimizeFuncSimulates<S, R>(m: Meaning<S, R>, code: seq<byte>, s: S, n: nat)
    requires Stream(code, 0) && Optimized(code).Some? && |code| < 65536
    ensures var ks := Kept(code);
            Same(code, ks, Positions(code, ks, 0, map[]),
                 RunN(m, Closed(code), Running(0, s), n), RunN(m, Optimized(code).value, Running(0, s), n))
  {
    var ks := Kept(code);
    var posMap := Positions(code, ks, 0, map[]);
    KeptLayout(code);
    RunSame(m, code, ks, posMap, Running(0, s), Running(0, s), n);
  }

  // ----- exactly when pass 3 panics -----

  /** Whether the scan of pass 2, begun at p, is in dead code when it arrives at q. */
  predicate DeadAt(code: seq<byte>, dsts: set<int>, p: int, dead: bool, q: int)
    requires Boundary(code, p, q)
    decreases |code| - p
  {
    if p == q then dead
    else DeadAt(code, dsts, Next(code, p), DeadAfter(code[p], p in dsts, dead), q)
  }

  lemma {:induction false} KeptExactly(code: seq<byte>, dsts: set<int>, p: int, dead: bool, q: int)
    requires Stream(code, p) && 0 <= p && Boundary(code, p, q) && q < |code|
    ensures Whole(code, q)
    ensures q in KeptFrom(code, dsts, p, dead) <==> Keep(code[q], q in dsts, DeadAt(code, dsts, p, dead, q))
    decreases |code| - p
  {
    var dead' := DeadAfter(code[p], p in dsts, dead);
    if p != q {
      KeptExactly(code, dsts, Next(code, p), dead', q);
      assert Next(code, p) <= q by { BoundaryWhole(code, Next(code, p), q); }
    }
  }

  lemma {:induction false} KeptAreBoundaries(code: seq<byte>, dsts: set<int>, p: int, dead: bool, q: int)
    requires Stream(code, p) && 0 <= p && q in KeptFrom(code, dsts, p, dead)
    ensures Boundary(code, p, q)
    decreases |code| - p
  {
    if p != q {
      KeptAreBoundaries(code, dsts, Next(code, p), DeadAfter(code[p], p in dsts, dead), q);
    }
  }

  lemma {:induction false} TargetsFound(code: seq<byte>, p: int, q: int)
    requires Stream(code, p) && Boundary(code, p, q) && Whole(code, q) && IsJump(code[q])
    ensures Target(code, q) in JumpTargets(code, p)
    decreases |code| - p
  {
    if p != q { TargetsFound(code, Next(code, p), q); }
  }

  /** Every jump leads to an instruction or to the end. */
  ghost predicate JumpsWell(code: seq<byte>)
    requires Stream(code, 0)
  {
    forall q :: Boundary(code, 0, q) && Whole(code, q) && IsJump(code[q]) ==>
      Target(code, q) == |code| || (Boundary(code, 0, Target(code, q)) && Target(code, q) < |code|)
  }

  /** A kept jump leads to a return that pass 2 drops because dead code comes before it. */
  ghost predicate JumpsToDroppedReturn(code: seq<byte>, k: int)
    requires Stream(code, 0)
  {
    && k in Kept(code) && Whole(code, k) && IsJump(code[k])
    && var t := Target(code, k);
       t < |code| && code[t] == OpReturn && Boundary(code, 0, t) && DeadAt(code, JumpTargets(code, 0), 0, false, t)
  }

  lemma DanglingExactly(code: seq<byte>, k: int)
    requires Stream(code, 0) && JumpsWell(code) && k in Kept(code)
    ensures Dangling(code, k, Positions(code, Kept(code), 0, map[])) <==> JumpsToDroppedReturn(code, k)
  {
    var dsts := JumpTargets(code, 0);
    KeptAreBoundaries(code, dsts, 0, false, k);
    if IsJump(code[k]) {
      var t := Target(code, k);
      KeptChained(code, dsts, 0, false);
      PositionsAre(code, Kept(code), 0, map[], t);
      TargetsFound(code, 0, k);
      if t != |code| { KeptExactly(code, dsts, 0, false, t); }
    }
  }

  /** optimizeFunc panics exactly when some kept jump leads to a return that directly follows dead
      code, as in the code of `if c { return }; return`. */
  lemma PanicsExactly(code: seq<byte>)
    requires Stream(code, 0) && JumpsWell(code)
    ensures Optimized(code).None? <==> exists k <- Kept(code) :: JumpsToDroppedReturn(code, k)
  {
    forall k | k in Kept(code)
      ensures Dangling(code, k, Positions(code, Kept(code), 0, map[])) <==> JumpsToDroppedReturn(code, k)
    {
      DanglingExactly(code, k);
    }
  }

  /** if c { return }; return -- with c in local 0. */
  const GuardThenReturn: seq<byte> := [OpGetLocal, 0, OpJumpFalsy, 0, 7, OpReturn, 0, OpReturn, 0]

  lemma GuardThenReturnPanics()
    ensures Stream(GuardThenReturn, 0) && Optimized(GuardThenReturn).None?
  {
    var code := GuardThenReturn;
    assert Stream(code, 9) && Stream(code, 7) && Stream(code, 5) && Stream(code, 2) && Stream(code, 0);
    assert JumpTargets(code, 5) == {} by { assert JumpTargets(code, 7) == {}; }
    assert Word(code, 3) == 7;
    var dsts := JumpTargets(code, 0);
    assert JumpTargets(code, 2) == {7};
    assert dsts == {7};
    assert KeptFrom(code, dsts, 7, true) == [] by { assert KeptFrom(code, dsts, 9, true) == []; }
    assert KeptFrom(code, dsts, 5, false) == [5];
    assert KeptFrom(code, dsts, 2, false) == [2, 5];
    assert Kept(code) == [0, 2, 5];
    var ks := Kept(code);
    KeptChained(code, dsts, 0, false);
    PositionsAre(code, ks, 0, map[], 7);
    assert Dangling(code, 2, Positions(code, ks, 0, map[]));
  }

  // ----- the new code is well formed -----

  lemma SkipOne(all: seq<byte>, pre: seq<byte>, b: seq<byte>, tail: seq<byte>, p: int)
    requires b != [] && b[0] <= LastOpcode && |b| == InstrLen(b[0]) && all == pre + b + tail
    requires Boundary(all, |pre + b|, p)
    ensures Boundary(all, |pre|, p)
  {
    ReadWithin(all, pre, b, tail);
    assert Next(all, |pre|) == |pre + b|;
  }

  lemma {:induction false} NewBoundary(code: seq<byte>, all: seq<byte>, pre: seq<byte>, ks: seq<int>,
                                       posMap: map<int, int>, end: int, ret: seq<byte>, q: int)
    requires AllWhole(code, ks) && all == pre + RelocatedAll(code, ks, posMap, end) + ret
    ensures Boundary(all, |pre|, |pre| + NewPos(code, ks, q))
    decreases |ks|
  {
    if ks != [] && ks[0] != q {
      assert Whole(code, ks[0]);
      var b, more := Relocated(code, ks[0], posMap, end), RelocatedAll(code, ks[1..], posMap, end);
      assert all == pre + (b + more) + ret;
      Regroup(pre, b, more, ret);
      NewBoundary(code, all, pre + b, ks[1..], posMap, end, ret, q);
      SkipOne(all, pre, b, more + ret, |pre| + NewPos(code, ks, q));
    }
  }

  /** Every position of the new code that the dispatch loop can be at holds a whole instruction,
      and every such instruction either returns or leads on only to others: no path of the new
      code falls off its end. */
  lemma EveryPathReturns(code: seq<byte>, q: int)
    requires Stream(code, 0) && Optimized(code).Some? && |code| < 65536
    requires Live(code, Kept(code), Positions(code, Kept(code), 0, map[]), q)
    ensures var new', p := Optimized(code).value, NewPos(code, Kept(code), q);
            && Boundary(new', 0, p) && Whole(new', p)
            && (new'[p] == OpReturn
                || (Whole(new', Next(new', p)) && Boundary(new', 0, Next(new', p))))
            && (IsJump(new'[p]) ==> Whole(new', Target(new', p)) && Boundary(new', 0, Target(new', p)))
  {
    KeptLayout(code);
    LiveBoundary(code, q);
    if q in Kept(code) {
      var posMap := Positions(code, Kept(code), 0, map[]);
      Successors(code, Kept(code), posMap, q);
      if code[q] != OpReturn { LiveBoundary(code, Next(Closed(code), q)); }
      if IsJump(code[q]) { LiveBoundary(code, Target(Closed(code), q)); }
    }
  }

  lemma LiveBoundary(code: seq<byte>, q: int)
    requires Stream(code, 0) && Optimized(code).Some? && |code| < 65536
    requires Live(code, Kept(code), Positions(code, Kept(code), 0, map[]), q)
    ensures var new', p := Optimized(code).value, NewPos(code, Kept(code), q);
            Boundary(new', 0, p) && Whole(new', p) && (q !in Kept(code) ==> new'[p] == OpReturn)
  {
    var ks := Kept(code);
    var posMap := Positions(code, ks, 0, map[]);
    KeptLayout(code);
    LayoutBoundary(code, ks, posMap, q);
  }

  lemma LayoutBoundary(code: seq<byte>, ks: seq<int>, posMap: map<int, int>, q: int)
    requires Layout(code, ks, posMap) && Live(code, ks, posMap, q)
    ensures var new', p := NewCode(code, ks, posMap), NewPos(code, ks, q);
            Boundary(new', 0, p) && Whole(new', p) && (q !in ks ==> new'[p] == OpReturn)
  {
    FromTheStart(code, ks, posMap, q);
    if q in ks {
      assert Whole(code, q);
      NewCodeAt(code, ks, posMap, q);
    } else {
      ReturnAtEnd(code, ks, posMap);
    }
  }

  lemma FromTheStart(code: seq<byte>, ks: seq<int>, posMap: map<int, int>, q: int)
    requires AllWhole(code, ks)
    ensures Boundary(NewCode(code, ks, posMap), 0, NewPos(code, ks, q))
  {
    var end := Length(code, ks);
    var ret := if NeedsReturn(code, ks, posMap) then Return0 else [];
    var all := NewCode(code, ks, posMap);
    assert all == [] + RelocatedAll(code, ks, posMap, end) + ret;
    NewBoundary(code, all, [], ks, posMap, end, ret, q);
  }

  lemma ReturnAtEnd(code: seq<byte>, ks: seq<int>, posMap: map<int, int>)
    requires AllWhole(code, ks) && NeedsReturn(code, ks, posMap)
    ensures var new', p := NewCode(code, ks, posMap), Length(code, ks);
            Whole(new', p) && new'[p] == OpReturn
  {
    RelocatedLength(code, ks, posMap, Length(code, ks));
    ReadWithin(NewCode(code, ks, posMap), RelocatedAll(code, ks, posMap, Length(code, ks)), Return0, []);
  }
}
