/** Which instructions optimizeFunc drops, and when it appends a return (vm/compiler.go:2155-2237), said
    without its passes. */
module OptimizerExact {
  import opened Wrappers
  import opened Instructions
  import opened Optimizer

  /** Some jump of the code leads to x. */
  ghost predicate JumpedTo(code: seq<byte>, x: int) {
    exists j :: 0 <= j < |code| && Boundary(code, 0, j) && Whole(code, j) && IsJump(code[j]) && Target(code, j) == x
  }

  /** Before q there is a return, and between the two nothing that a jump leads to, returns not counted. */
  ghost predicate Dead(code: seq<byte>, q: int) {
    exists r :: 0 <= r < q && r < |code| && Boundary(code, 0, r) && code[r] == OpReturn && NothingEnters(code, r, q)
  }

  ghost predicate NothingEnters(code: seq<byte>, r: int, q: int) {
    forall x :: r < x < q && x < |code| && Boundary(code, 0, x) && JumpedTo(code, x) ==> code[x] == OpReturn
  }

  lemma {:induction false} BoundaryOn(code: seq<byte>, p: int, q: int, x: int)
    requires Boundary(code, p, q) && Boundary(code, q, x)
    ensures Boundary(code, p, x)
    decreases |code| - p
  {
    if p != q { BoundaryOn(code, Next(code, p), q, x); }
  }

  /** Boundaries are on one line. */
  lemma {:induction false} BoundaryFrom(code: seq<byte>, p: int, q: int, x: int)
    requires Boundary(code, p, q) && Boundary(code, p, x) && q <= x && 0 <= p
    ensures Boundary(code, q, x)
    decreases |code| - p
  {
    if p != q {
      BoundaryUp(code, p, q);
      BoundaryFrom(code, Next(code, p), q, x);
    }
  }

  lemma {:induction false} BoundaryUp(code: seq<byte>, p: int, q: int)
    requires Boundary(code, p, q)
    ensures p <= q && (p != q ==> Whole(code, p) && Next(code, p) <= q)
    decreases |code| - p
  {
    if p != q { BoundaryUp(code, Next(code, p), q); }
  }

  lemma {:induction false} TargetsExactly(code: seq<byte>, p: int, x: int)
    requires Stream(code, p) && 0 <= p
    ensures x in JumpTargets(code, p)
            <==> exists j ::
              p <= j < |code| && Boundary(code, p, j) && Whole(code, j) && IsJump(code[j]) && Target(code, j) == x
    decreases |code| - p
  {
    if p != |code| {
      var n := Next(code, p);
      TargetsExactly(code, n, x);
      if j :| n <= j < |code| && Boundary(code, n, j) && Whole(code, j) && IsJump(code[j]) && Target(code, j) == x {
        BoundaryOn(code, p, n, j);
      }
      if j :| p <= j < |code| && Boundary(code, p, j) && Whole(code, j) && IsJump(code[j]) && Target(code, j) == x {
        BoundaryUp(code, p, j);
      }
    }
  }

  lemma JumpedToIs(code: seq<byte>, x: int)
    requires Stream(code, 0)
    ensures x in JumpTargets(code, 0) <==> JumpedTo(code, x)
  {
    TargetsExactly(code, 0, x);
  }

  /** From one instruction to the next. */
  lemma DeadNext(code: seq<byte>, p: int)
    requires Stream(code, 0) && Boundary(code, 0, p) && 0 <= p < |code| && Whole(code, p)
    ensures Dead(code, Next(code, p)) <==> DeadAfter(code[p], JumpedTo(code, p), Dead(code, p))
  {
    hide JumpedTo, Dead, Stream, Boundary;
    if code[p] == OpReturn { DeadBehind(code, p); }
    else {
      if Dead(code, p) && !JumpedTo(code, p) { StaysDead(code, p); }
      if Dead(code, Next(code, p)) { WasDead(code, p); }
    }
  }

  lemma DeadBehind(code: seq<byte>, p: int)
    requires Boundary(code, 0, p) && 0 <= p < |code| && Whole(code, p) && code[p] == OpReturn
    ensures Dead(code, Next(code, p))
  {
    hide JumpedTo, Boundary;
    var n := Next(code, p);
    forall x | p < x && Boundary(code, 0, x) ensures n <= x { Between(code, p, x); }
    assert NothingEnters(code, p, n);
  }

  lemma StaysDead(code: seq<byte>, p: int)
    requires Boundary(code, 0, p) && 0 <= p < |code| && Whole(code, p) && Dead(code, p) && !JumpedTo(code, p)
    ensures Dead(code, Next(code, p))
  {
    hide JumpedTo, Boundary;
    var n := Next(code, p);
    var r :| 0 <= r < p && r < |code| && Boundary(code, 0, r) && code[r] == OpReturn && NothingEnters(code, r, p);
    forall x | p < x && Boundary(code, 0, x) ensures n <= x { Between(code, p, x); }
    assert NothingEnters(code, r, n);
  }

  lemma WasDead(code: seq<byte>, p: int)
    requires Boundary(code, 0, p) && 0 <= p < |code| && Whole(code, p) && code[p] != OpReturn
    requires Dead(code, Next(code, p))
    ensures Dead(code, p) && !JumpedTo(code, p)
  {
    hide JumpedTo, Boundary;
    var n := Next(code, p);
    var r :| 0 <= r < n && r < |code| && Boundary(code, 0, r) && code[r] == OpReturn && NothingEnters(code, r, n);
    forall x | p < x && Boundary(code, 0, x) ensures n <= x { Between(code, p, x); }
    assert NothingEnters(code, r, p);
  }

  /** No boundary lies inside an instruction. */
  lemma Between(code: seq<byte>, p: int, x: int)
    requires Boundary(code, 0, p) && Boundary(code, 0, x) && 0 <= p < x && Whole(code, p)
    ensures Next(code, p) <= x
  {
    BoundaryFrom(code, 0, p, x);
    BoundaryUp(code, p, x);
  }

  /** Is the instruction at q kept? */
  ghost predicate Stays(code: seq<byte>, q: int) {
    && 0 <= q < |code| && Boundary(code, 0, q)
    && if code[q] == OpReturn then !Dead(code, q) else JumpedTo(code, q) || !Dead(code, q)
  }

  lemma {:induction false} KeptFromExactly(code: seq<byte>, p: int, q: int)
    requires Stream(code, 0) && Stream(code, p) && 0 <= p && Boundary(code, 0, p)
    ensures q in KeptFrom(code, JumpTargets(code, 0), p, Dead(code, p)) <==> p <= q && Stays(code, q)
    decreases |code| - p
  {
    hide JumpedTo, Dead;
    if p != |code| {
      var n := Next(code, p);
      JumpedToIs(code, p);
      DeadNext(code, p);
      BoundaryStep(code, 0, p);
      KeptFromExactly(code, n, q);
      if p < q < n && Stays(code, q) { Between(code, p, q); }
    }
  }

  /** An instruction is dropped exactly if a return stands before it, no jump leads to anything but returns
      in between, and none leads to the instruction itself, unless it is a return. */
  lemma KeptExactly(code: seq<byte>, q: int)
    requires Stream(code, 0)
    ensures q in Kept(code) <==> Stays(code, q)
  {
    hide Stays;
    NotDead(code);
    KeptFromExactly(code, 0, q);
    if Stays(code, q) { StaysFrom(code, q); }
  }

  lemma NotDead(code: seq<byte>)
    ensures !Dead(code, 0)
  {
  }

  lemma StaysFrom(code: seq<byte>, q: int)
    requires Stays(code, q)
    ensures q >= 0
  {
  }

  /** A return is appended exactly if nothing is left, or the last instruction left is no return, or a jump
      that is left leads to the end; its length is that of the instructions left otherwise. */
  lemma ReturnAppended(code: seq<byte>)
    requires Stream(code, 0) && Optimized(code).Some?
    ensures var ks := Kept(code);
            var appended := ks == [] || (assert ks[|ks| - 1] in ks; code[ks[|ks| - 1]] != OpReturn)
                            || exists k <- ks :: IsJump(code[k]) && Target(code, k) == |code|;
            |Optimized(code).value| == Length(code, ks) + (if appended then 2 else 0)
  {
    var ks := Kept(code);
    var posMap := Positions(code, ks, 0, map[]);
    EndNotKept(code, ks, 0, map[]);
    SameLength(code, ks, posMap, Length(code, ks));
    assert forall k <- ks :: Whole(code, k);
    assert AnyJumpsToEnd(code, ks, posMap) <==> exists k <- ks :: IsJump(code[k]) && Target(code, k) == |code|;
  }

  lemma {:induction false} EndNotKept(code: seq<byte>, ks: seq<int>, base: int, known: map<int, int>)
    requires AllWhole(code, ks) && |code| !in known && forall k <- ks :: k < |code|
    ensures |code| !in Positions(code, ks, base, known)
    decreases |ks|
  {
    if ks != [] {
      assert Whole(code, ks[0]);
      EndNotKept(code, ks[1..], base + InstrLen(code[ks[0]]), known[ks[0] := base]);
    }
  }

  lemma {:induction false} SameLength(code: seq<byte>, ks: seq<int>, posMap: map<int, int>, end: int)
    requires AllWhole(code, ks)
    ensures |RelocatedAll(code, ks, posMap, end)| == Length(code, ks)
    decreases |ks|
  {
    if ks != [] {
      assert Whole(code, ks[0]);
      SameLength(code, ks[1..], posMap, end);
    }
  }
}
