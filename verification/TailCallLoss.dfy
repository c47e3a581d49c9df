/** Where reusing the frame is not a call and a return (vm/vm.go:912-930): the lookahead also takes an
    OpReturn 0 or an OpPop and OpReturn for a return of the result. */
module TailCallLoss {
  import opened Wrappers
  import opened Instructions
  import opened TailCalls
  import P = TailCallProof
  import C = TailCallCheck
  import M = TailCallMeaning

  /** The call has returned v, and the frame returns what the code behind the call says. With reuse it
      would have returned v. */
  lemma BehindTheCall(p: Prog, below: seq<Act>, a: Act, next: nat, rest: seq<Val>, callee: Val, v: Val, mem: Memory)
    requires var code := Code(p, a);
             && TailPosition(code, next) && a.defers == [] && a.leaving.None?
             && (if code[next] == OpReturn then next + 1 < |code|
                 else next + 2 < |code| && (code[next + 2] == 1 ==> rest != []))
    ensures var n := if Code(p, a)[next] == OpReturn then 1 else 2;
            Turns(p, false, Return(below + [Waits(a, next, rest, callee)], v, mem), n)
            == Return(below, P.Passed(Code(p, a), next, rest, v), mem)
  {
    hide Turns, Turn, Return;
    var t, b := Waits(a, next, rest, callee), a.(ip := next, operands := rest + [v]);
    Returned(below, t, rest, callee, v, mem);
    var s := Going(below + [b], mem);
    OneTurn(p, false, s);
    if Code(p, a)[next] == OpReturn {
      ReturnTurn(p, false, below, b, mem);
    } else {
      P.PopTurn(p, false, below, b, rest, v, mem);
      var c := b.(ip := next + 1, operands := rest);
      ReturnTurn(p, false, below, c, mem);
      OneTurn(p, false, Going(below + [c], mem));
      assert Turns(p, false, s, 1 + 1) == Turns(p, false, Turn(p, false, s), 1);
    }
  }

  lemma Returned(below: seq<Act>, t: Act, rest: seq<Val>, callee: Val, v: Val, mem: Memory)
    requires t.operands == rest + [callee] && t.leaving.None?
    ensures Return(below + [t], v, mem) == Going(below + [t.(operands := rest + [v])], mem)
  {
    assert (below + [t])[..|below|] == below && Pop(t.operands) == rest;
  }

  /** The two agree on every result exactly where the call is followed by a return of its result. */
  lemma PassedExactly(code: seq<byte>, next: nat, rest: seq<Val>)
    requires TailPosition(code, next)
    ensures (forall v :: P.GivesBack(code, next, rest, v)) <==> P.ReturnsResult(code, next)
  {
    if P.ReturnsResult(code, next) {
      forall v ensures P.GivesBack(code, next, rest, v) { C.GivesAny(code, next, rest, v); }
    } else {
      var top := if rest != [] then Top(rest) else Undefined;
      var v := if top == True || top == Undefined then False else True;
      if code[next] == OpReturn && next + 1 < |code| { assert InstrAt(code, next) == [OpReturn, code[next + 1]]; }
      assert !P.GivesBack(code, next, rest, v);
    }
  }

  // ----- single turns -----

  lemma ReturnTurn(p: Prog, reuse: bool, below: seq<Act>, a: Act, mem: Memory)
    requires a.ip + 1 < |Code(p, a)| && Code(p, a)[a.ip] == OpReturn && a.leaving.None? && a.defers == []
    requires Code(p, a)[a.ip + 1] == 1 ==> a.operands != []
    ensures Turn(p, reuse, Going(below + [a], mem))
            == Return(below, if Code(p, a)[a.ip + 1] == 1 then Top(a.operands) else Undefined, mem)
  {
    hide Plain, Invoke, Jump, Return, Turn;
    TurnOf(p, reuse, below, a, mem);
    assert InstrAt(Code(p, a), a.ip) == [OpReturn, Code(p, a)[a.ip + 1]];
  }

  /** An instruction that pushes v. */
  lemma LoadTurn(p: Prog, reuse: bool, below: seq<Act>, a: Act, v: Val, mem: Memory)
    requires Whole(Code(p, a), a.ip) && Loads(Code(p, a)[a.ip]) && a.leaving.None?
    requires Load(p, a.fn, InstrAt(Code(p, a), a.ip), a.locals, mem) == Got(v)
    ensures Turn(p, reuse, Going(below + [a], mem))
            == Going(below + [a.(ip := Next(Code(p, a), a.ip), operands := a.operands + [v])], mem)
  {
    hide Invoke, Jump, Turn, Load, InstrLen;
    TurnOf(p, reuse, below, a, mem);
  }

  lemma JumpFalsyTurn(p: Prog, reuse: bool, below: seq<Act>, a: Act, rest: seq<Val>, v: Val, mem: Memory)
    requires a.ip + 2 < |Code(p, a)| && Code(p, a)[a.ip] == OpJumpFalsy && a.operands == rest + [v] && a.leaving.None?
    ensures var ip := if p.falsy(v, mem) then Word(Code(p, a), a.ip + 1) else a.ip + 3;
            Turn(p, reuse, Going(below + [a], mem)) == Going(below + [a.(ip := ip, operands := rest)], mem)
  {
    hide Invoke, Plain, Turn, Word;
    TurnOf(p, reuse, below, a, mem);
    assert Pop(a.operands) == rest;
  }

  /** A call with one argument. */
  lemma CallTurn(p: Prog, reuse: bool, below: seq<Act>, a: Act, callee: Val, arg: Val, mem: Memory)
    requires a.ip + 2 < |Code(p, a)| && Code(p, a)[a.ip] == OpCall && a.leaving.None?
    requires Code(p, a)[a.ip + 1] == 1 && Code(p, a)[a.ip + 2] == 0 && a.operands == [callee, arg]
    ensures Turn(p, reuse, Going(below + [a], mem)) == Call(p, reuse, below, a, callee, [arg], [], a.ip + 3, mem)
  {
    hide Call, Jump, Plain, Turn, Ask;
    TurnOf(p, reuse, below, a, mem);
    assert InstrAt(Code(p, a), a.ip) == [OpCall, 1, 0];
    M.AskPlain(p, [], callee, [arg], mem);
    assert [] + [callee] + [arg] == a.operands;
  }

  lemma TwoTurns(p: Prog, reuse: bool, s: State)
    ensures Turns(p, reuse, s, 2) == Turn(p, reuse, Turn(p, reuse, s))
  {
    hide Turn;
    OneTurn(p, reuse, s);
    OneTurn(p, reuse, Turn(p, reuse, s));
    assert Turns(p, reuse, s, 1 + 1) == Turns(p, reuse, Turn(p, reuse, s), 1);
  }

  // ----- a result that is lost -----

  /** The function of the program f := func(x) { if x { f(undefined); return }; return 5 }: f is the first
      global, and what the call gives is dropped. */
  const f: Fn := Fn(0, 0, [])

  function FProto(): Proto {
    Proto([OpGetLocal, 0, OpJumpFalsy, 0, 15, OpGetGlobal, 0, 0, OpNull, OpCall, 1, 0, OpPop, OpReturn, 0,
           OpConstant, 0, 0, OpReturn, 1], 1, 1, false)
  }

  function FProg(): Prog {
    Prog([FProto()], [Data(5), Function(f)], 0, (v, mem) => v == Undefined, v => false, (i, o, mem) => None,
         (v, l, h, mem) => NotSliceable, (v, w, o, mem) => None, (v, mem) => None, (o, mem) => (Undefined, mem),
         (v, o, mem) => None, (v, o, mem) => None)
  }

  predicate FIsGlobal(mem: Memory) { mem.globals != [] && mem.globals[0] == Function(f) }

  function At(ip: nat, x: Val, o: seq<Val>): Act { Act(f, ip, [Holds(x)], o, [], None) }

  lemma FBytes()
    ensures var code := FProto().code;
            && |code| == 20
            && code[0] == OpGetLocal && code[1] == 0
            && code[2] == OpJumpFalsy && code[3] == 0 && code[4] == 15
            && code[5] == OpGetGlobal && code[6] == 0 && code[7] == 0
            && code[8] == OpNull
            && code[9] == OpCall && code[10] == 1 && code[11] == 0
            && code[12] == OpPop && code[13] == OpReturn && code[14] == 0
            && code[15] == OpConstant && code[16] == 0 && code[17] == 0
            && code[18] == OpReturn && code[19] == 1
  {
  }

  lemma FCode(ip: nat, x: Val, o: seq<Val>)
    ensures Code(FProg(), At(ip, x, o)) == FProto().code
    ensures FProg().consts == [Data(5), Function(f)] && forall v, mem :: FProg().falsy(v, mem) <==> v == Undefined
    ensures ProtoOf(FProg(), f) == FProto() && Compiled(FProg(), Function(f))
  {
    hide FProto;
  }

  lemma TestsX(reuse: bool, below: seq<Act>, x: Val, mem: Memory)
    ensures Turns(FProg(), reuse, Going(below + [At(0, x, [])], mem), 2)
            == Going(below + [At(if x == Undefined then 15 else 5, x, [])], mem)
  {
    hide FProg, FProto, Code, Turn, Turns;
    FBytes();
    var p, a, b := FProg(), At(0, x, []), At(2, x, [x]);
    FCode(0, x, []);
    FCode(2, x, [x]);
    assert InstrAt(Code(p, a), 0) == [OpGetLocal, 0];
    LoadTurn(p, reuse, below, a, x, mem);
    assert [] + [x] == [x];
    JumpFalsyTurn(p, reuse, below, b, [], x, mem);
    TwoTurns(p, reuse, Going(below + [a], mem));
  }

  lemma Gives5(reuse: bool, below: seq<Act>, x: Val, mem: Memory)
    ensures Turns(FProg(), reuse, Going(below + [At(15, x, [])], mem), 2) == Return(below, Data(5), mem)
  {
    hide FProg, FProto, Code, Turn, Turns, Return;
    FBytes();
    var p, a, b := FProg(), At(15, x, []), At(18, x, [Data(5)]);
    FCode(15, x, []);
    FCode(18, x, [Data(5)]);
    assert InstrAt(Code(p, a), 15) == [OpConstant, 0, 0];
    LoadTurn(p, reuse, below, a, Data(5), mem);
    assert [] + [Data(5)] == [Data(5)];
    ReturnTurn(p, reuse, below, b, mem);
    TwoTurns(p, reuse, Going(below + [a], mem));
  }

  lemma CallsF(reuse: bool, below: seq<Act>, x: Val, mem: Memory)
    requires FIsGlobal(mem)
    ensures Turns(FProg(), reuse, Going(below + [At(5, x, [])], mem), 3)
            == Call(FProg(), reuse, below, At(9, x, [Function(f), Undefined]), Function(f), [Undefined], [], 12, mem)
  {
    hide FProg, FProto, Code, Turn, Turns, Call;
    FBytes();
    var p, a, b, c := FProg(), At(5, x, []), At(8, x, [Function(f)]), At(9, x, [Function(f), Undefined]);
    FCode(5, x, []);
    FCode(8, x, [Function(f)]);
    FCode(9, x, [Function(f), Undefined]);
    assert InstrAt(Code(p, a), 5) == [OpGetGlobal, 0, 0] && InstrAt(Code(p, b), 8) == [OpNull];
    LoadTurn(p, reuse, below, a, Function(f), mem);
    LoadTurn(p, reuse, below, b, Undefined, mem);
    assert [] + [Function(f)] == [Function(f)] && [Function(f)] + [Undefined] == [Function(f), Undefined];
    CallTurn(p, reuse, below, c, Function(f), Undefined, mem);
    TwoTurns(p, reuse, Going(below + [a], mem));
    OneTurn(p, reuse, Going(below + [c], mem));
    TurnsBoth(p, reuse, Going(below + [a], mem), 2, 1);
  }

  /** The call that is made. */
  lemma TheCall(reuse: bool, x: Val, mem: Memory)
    ensures Call(FProg(), reuse, [], At(9, x, [Function(f), Undefined]), Function(f), [Undefined], [], 12, mem)
            == Going((if reuse then [] else [At(12, x, [Function(f)])]) + [At(0, Undefined, [])], mem)
  {
    hide FProg, Code;
    FBytes();
    FCode(9, x, [Function(f), Undefined]);
    assert Again([Holds(x)], [Undefined]) == [Holds(Undefined)];
    assert Fresh(FProto(), [Undefined]) == [Holds(Undefined)];
    assert [] + [Function(f)] == [Function(f)];
  }

  /** Called with something true it comes to the call, and the inner f to its return. */
  lemma UpToTheCall(reuse: bool, x: Val, mem: Memory)
    requires FIsGlobal(mem) && x != Undefined
    ensures Turns(FProg(), reuse, Going([At(0, x, [])], mem), 9)
            == Return(if reuse then [] else [At(12, x, [Function(f)])], Data(5), mem)
  {
    hide FProg, Turn, Turns, Call, Return;
    var p, s := FProg(), Going([At(0, x, [])], mem);
    var below := if reuse then [] else [At(12, x, [Function(f)])];
    TestsX(reuse, [], x, mem);
    CallsF(reuse, [], x, mem);
    TheCall(reuse, x, mem);
    TestsX(reuse, below, Undefined, mem);
    Gives5(reuse, below, Undefined, mem);
    assert [] + [At(0, x, [])] == [At(0, x, [])] && [] + [At(5, x, [])] == [At(5, x, [])];
    TurnsBoth(p, reuse, s, 2, 3);
    TurnsBoth(p, reuse, s, 5, 2);
    TurnsBoth(p, reuse, s, 7, 2);
  }

  /** Reusing the frame gives the call f(1) the result 5; a real call gives undefined. */
  lemma LostResult(mem: Memory)
    requires FIsGlobal(mem)
    ensures Ends(FProg(), true, Called(FProg(), f, [Data(1)], mem), Done(Data(5), mem))
    ensures Ends(FProg(), false, Called(FProg(), f, [Data(1)], mem), Done(Undefined, mem))
  {
    hide FProg, FProto, Turn, Turns, Ends, Code;
    FBytes();
    var p, x := FProg(), Data(1);
    var s, a := Called(p, f, [x], mem), At(12, x, [Function(f)]);
    FStarts(x, mem);
    UpToTheCall(true, x, mem);
    EndsBy(p, true, s, Done(Data(5), mem), 9);
    UpToTheCall(false, x, mem);
    FCode(12, x, [Function(f)]);
    assert [] + [Function(f)] == [Function(f)] && [] + [a] == [a];
    BehindTheCall(p, [], a, 12, [], Function(f), Data(5), mem);
    TurnsBoth(p, false, s, 9, 2);
    EndsBy(p, false, s, Done(Undefined, mem), 11);
  }

  lemma FStarts(x: Val, mem: Memory)
    requires !x.Pointer?
    ensures Called(FProg(), f, [x], mem) == Going([At(0, x, [])], mem)
  {
    hide FProg, Code;
    FCode(0, x, []);
    assert Fresh(FProto(), [x]) == [Holds(x)];
  }

  // ----- it passes the check -----

  const FTable: C.Table :=
    map[0 := Sh(0), 2 := Sh(1), 5 := Sh(0), 8 := Sh(1), 9 := Sh(2), 12 := Sh(1), 13 := Sh(0), 15 := Sh(0), 18 := Sh(1)]

  function Sh(depth: nat): C.Shape { C.Shape({0}, depth, 0) }

  lemma FInstr(q: nat)
    requires q in FTable
    ensures Whole(FProto().code, q) && C.InstrOk(FProg(), FProto(), FTable, q)
  {
    hide FProg, FProto, C.SlicesPush;
    FBytes();
    var code := FProto().code;
    assert Whole(code, q);
    var i := InstrAt(code, q);
    assert forall k :: 0 <= k < |i| ==> i[k] == code[q + k];
  }

  lemma FChecked()
    ensures C.Checked(FProg(), FProto(), FTable) && C.TailsClean(FProto(), FTable)
  {
    hide FProg, FProto, C.InstrOk;
    FBytes();
    forall q | q in FTable ensures Whole(FProto().code, q) && C.InstrOk(FProg(), FProto(), FTable, q) { FInstr(q); }
    FParams();
  }

  lemma FParams()
    ensures FProto().params == 1 && FProg().protos == [FProto()]
  {
  }

  /** Only the condition on what follows a call fails for it, at the one call it makes. */
  lemma OnlyTheTailFails()
    ensures C.AllChecked(FProg(), [FTable]) && C.AllClean(FProg(), [FTable])
    ensures !C.TailsReturn(FProto(), FTable) && !C.ReturnsNothing(FProto(), FTable)
  {
    hide FProg, FProto, C.Checked, C.TailsClean;
    FBytes();
    FParams();
    FChecked();
    assert 18 in FTable;
    assert 9 in FTable && TailPosition(FProto().code, Next(FProto().code, 9));
  }
}
