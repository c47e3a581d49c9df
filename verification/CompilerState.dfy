/** What the compiler holds while it works, and how compiling a construct changes it: code and
    constants are appended, jumps with an unknown target are entered in the frames they wait in. */
module CompilerState {
  import opened Wrappers
  import opened Instructions
  import opened Language
  import opened CodeGen
  import opened Backpatch

  /** One frame of the loop stack: the jumps that wait for the end and for the post statement. */
  datatype Loop = Loop(breaks: seq<nat>, continues: seq<nat>)

  datatype SwitchCtx = SwitchCtx(fallthroughs: seq<nat>, inLastClause: bool)

  /** Everything a compiler holds, as a value. */
  datatype State = State(insts: seq<byte>, constants: seq<Value>, names: seq<string>, start: nat, maxLocals: nat,
                         loops: seq<Loop>, switches: seq<SwitchCtx>)
  {
    predicate Valid() { start <= |names| <= maxLocals }

    /** A frame of the loop stack takes continues too; a switch rejects them when it ends. */
    function Ctx(): Context {
      Context(if loops == [] then NoFrame else LoopFrame, switches != [] && !switches[|switches| - 1].inLastClause)
    }

    function Append(code: seq<byte>, ks: seq<Value>): State {
      this.(insts := insts + code, constants := constants + ks)
    }

    function Code(code: seq<byte>): State { this.(insts := code) }

    function Scope(ns: seq<string>, n: nat): State { this.(names := ns, start := n) }
  }

  const Open := Targets(0, 0, 0)

  function AddJumps(loops: seq<Loop>, bs: seq<nat>, cs: seq<nat>): seq<Loop> {
    if loops == [] then []
    else
      var n := |loops| - 1;
      loops[..n] + [Loop(loops[n].breaks + bs, loops[n].continues + cs)]
  }

  function AddFalls(switches: seq<SwitchCtx>, fs: seq<nat>): seq<SwitchCtx> {
    if switches == [] then []
    else
      var n := |switches| - 1;
      switches[..n] + [switches[n].(fallthroughs := switches[n].fallthroughs + fs)]
  }

  // ----- what each method does to the state -----

  function AfterExpr(s: State, e: Expr): State {
    s.Append(ExprCode(e, s.names, |s.insts|, |s.constants|), ExprConsts(e))
  }

  function AfterSimple(s: State, sm: Simple): State {
    s.Append(SimpleCode(sm, s.names, |s.insts|, |s.constants|), SimpleConsts(sm))
    .(names := NamesAfter(sm, s.names), maxLocals := Max(s.maxLocals, LocalsAfter(sm, |s.names|)))
  }

  function AfterInit(s: State, init: Option<Simple>): State {
    if init.None? then s else AfterSimple(s, init.value)
  }

  /** Jumps out of the statement are left open and entered in the innermost frames. */
  function AfterStmt(s: State, st: Stmt): State {
    var p := |s.insts|;
    s.Append(StmtCode(st, s.names, p, |s.constants|, Open), StmtConsts(st))
    .(names := NamesIn(st, s.names), maxLocals := Max(s.maxLocals, StmtLocals(st, |s.names|)),
      loops := AddJumps(s.loops, StmtHoles(st, p, KBreak), StmtHoles(st, p, KContinue)),
      switches := AddFalls(s.switches, StmtHoles(st, p, KFallthrough)))
  }

  function AfterStmts(s: State, ss: Stmts): State {
    var p := |s.insts|;
    s.Append(StmtsCode(ss, s.names, p, |s.constants|, Open), StmtsConsts(ss))
    .(names := StmtsNames(ss, s.names), maxLocals := Max(s.maxLocals, StmtsLocals(ss, |s.names|)),
      loops := AddJumps(s.loops, StmtsHoles(ss, p, KBreak), StmtsHoles(ss, p, KContinue)),
      switches := AddFalls(s.switches, StmtsHoles(ss, p, KFallthrough)))
  }

  function AfterBlock(s: State, ss: Stmts): State {
    AfterStmts(s, ss).(names := s.names)
  }

  // ----- facts about these states -----

  lemma EncodeOps(op: byte, a: int)
    ensures |Widths(op)| == 0 ==> Encode(op, []) == Op0(op)
    ensures Widths(op) == [1] ==> Encode(op, [a]) == Op1(op, a)
    ensures Widths(op) == [2] ==> Encode(op, [a]) == Op2(op, a)
  {
    assert [a][1..] == [];
    if Widths(op) == [1] {
      assert [1][1..] == [];
    } else if Widths(op) == [2] {
      assert [2][1..] == [];
    }
  }

  lemma UnaryState(s: State, e: Expr)
    requires e.Unary?
    ensures var s1 := AfterExpr(s, e.e);
            AfterExpr(s, e) == s1.(insts := s1.insts + UnaryCode(e.tok))
  {
    hide UnaryCode;
  }

  lemma BinaryState(s: State, e: Expr)
    requires e.Binary?
    ensures var s2 := AfterExpr(AfterExpr(s, e.l), e.r);
            AfterExpr(s, e) == s2.(insts := s2.insts + BinaryCode(e.tok))
  {
    hide BinaryCode;
    var p1, k1 := |s.insts| + ExprLen(e.l), |s.constants| + |ExprConsts(e.l)|;
    Tail(s.insts, ExprCode(e.l, s.names, |s.insts|, |s.constants|), ExprCode(e.r, s.names, p1, k1));
  }

  lemma LogicalState(s: State, e: Expr)
    requires e.Logical?
    ensures var s1 := AfterExpr(s, e.l);
            var s2 := AfterExpr(s1.(insts := s1.insts + Jump(if e.isAnd then OpAndJump else OpOrJump, 0)), e.r);
            && |s1.insts| + 3 <= |s2.insts| && IsJump(s2.insts[|s1.insts|])
            && AfterExpr(s, e) == s2.(insts := PatchOne(s2.insts, |s1.insts|, |s2.insts|))
  {
    hide ExprLen, ExprConsts, ExprCode, ExprNeed, ExprOk, PatchOne, Jump;
    LogicalLayout(e, s.names, |s.insts|, |s.constants|);
    LogicalRest(e, s.names);
    var p, k := |s.insts|, |s.constants|;
    var p1, k1, op := p + ExprLen(e.l), k + |ExprConsts(e.l)|, if e.isAnd then OpAndJump else OpOrJump;
    var x, y := ExprCode(e.l, s.names, p, k), ExprCode(e.r, s.names, p1 + 3, k1);
    JumpThere(s.insts + x, op, 0, y);
    PatchJump(s.insts + x, op, 0, y, p + ExprLen(e));
    Tail(s.insts + x, Jump(op, 0), y);
    FourParts(s.insts, x, Jump(op, p + ExprLen(e)), y);
    assert s.constants + ExprConsts(e.l) + ExprConsts(e.r) == s.constants + ExprConsts(e);
  }

  // The four stages of a conditional expression.

  lemma CondState(s: State, e: Expr)
    requires e.Cond?
    ensures var s1 := AfterExpr(s, e.c);
            var s2 := AfterExpr(s1.(insts := s1.insts + Jump(OpJumpFalsy, 0)), e.t);
            var i3 := s2.insts + Jump(OpJump, 0);
            var s3 := s2.(insts := PatchOne(i3, |s1.insts|, |i3|));
            var s4 := AfterExpr(s3, e.f);
            && |s1.insts| + 3 <= |i3| && IsJump(i3[|s1.insts|])
            && |s2.insts| + 3 <= |s4.insts| && IsJump(s4.insts[|s2.insts|])
            && AfterExpr(s, e) == s4.(insts := PatchOne(s4.insts, |s2.insts|, |s4.insts|))
  {
    hide ExprLen, ExprConsts, ExprCode, ExprNeed, ExprOk, PatchOne, Jump;
    var p, k := |s.insts|, |s.constants|;
    var pt, kt := p + ExprLen(e.c) + 3, k + |ExprConsts(e.c)|;
    var pf, kf := pt + ExprLen(e.t) + 3, kt + |ExprConsts(e.t)|;
    var x, y, z := ExprCode(e.c, s.names, p, k), ExprCode(e.t, s.names, pt, kt), ExprCode(e.f, s.names, pf, kf);
    var j0, j1 := Jump(OpJumpFalsy, 0), Jump(OpJumpFalsy, pf);
    var h0, h1 := Jump(OpJump, 0), Jump(OpJump, p + ExprLen(e));
    var i := s.insts;
    JumpThere(i + x, OpJumpFalsy, 0, y + h0);
    PatchJump(i + x, OpJumpFalsy, 0, y + h0, pf);
    JumpThere(i + x + j1 + y, OpJump, 0, z);
    PatchJump(i + x + j1 + y, OpJump, 0, z, p + ExprLen(e));
    Tail(i + x + j0, y, h0);
    Tail(i + x + j1, y, h0);
    CondLayout(e, s.names, p, k);
    CondRest(e, s.names);
    FiveParts(i, x, j1, y, h1, z);
    assert ExprConsts(e.c) + ExprConsts(e.t) + ExprConsts(e.f) == ExprConsts(e);
    assert s.constants + ExprConsts(e.c) + ExprConsts(e.t) + ExprConsts(e.f) == s.constants + ExprConsts(e);
  }

  lemma FourParts(i: seq<byte>, a: seq<byte>, b: seq<byte>, c: seq<byte>)
    ensures i + (a + b + c) == i + a + b + c
  {
  }

  lemma FiveParts(i: seq<byte>, a: seq<byte>, b: seq<byte>, c: seq<byte>, d: seq<byte>, e: seq<byte>)
    ensures i + (a + b + c + d + e) == i + a + b + c + d + e
  {
  }

  // ----- simple statements -----

  /** The value part of a simple statement and the instruction that stores it. */
  lemma SimpleState(s: State, sm: Simple)
    ensures var s1 := AfterExpr(s, Operand(sm));
            AfterSimple(s, sm) == s1.(insts := s1.insts + StoreCode(sm, s.names), names := NamesAfter(sm, s.names),
                                      maxLocals := Max(s.maxLocals, LocalsAfter(sm, |s.names|)))
  {
    hide ExprCode, ExprConsts, StoreCode;
  }

  lemma AssignOpOk(tok: byte, x: string, e: Expr, names: seq<string>, start: nat)
    requires start <= |names|
    ensures AssignToken(tok) ==> BinaryCode(OpOfAssign(tok)) == Op1(OpBinaryOp, OpOfAssign(tok))
    ensures SimpleOk(AssignOp(tok, x, e), names, start)
            <==> AssignToken(tok) && Index(names, x) >= 0 && ExprOk(e, names)
  {
    hide Index;
    assert AssignToken(tok) ==> ArithToken(OpOfAssign(tok)) && OpOfAssign(tok) !in {TokEqual, TokNotEqual};
    var b := Binary(OpOfAssign(tok), Ident(x), e);
    assert ExprOk(b, names) <==> BinaryToken(b.tok) && ExprOk(Ident(x), names) && ExprOk(e, names);
  }

  // ----- lists of statements -----

  lemma AddJumpsTwice(loops: seq<Loop>, b1: seq<nat>, c1: seq<nat>, b2: seq<nat>, c2: seq<nat>)
    ensures AddJumps(AddJumps(loops, b1, c1), b2, c2) == AddJumps(loops, b1 + b2, c1 + c2)
  {
    if loops != [] {
      var t := loops[|loops| - 1];
      assert t.breaks + b1 + b2 == t.breaks + (b1 + b2) && t.continues + c1 + c2 == t.continues + (c1 + c2);
    }
  }

  lemma AddFallsTwice(switches: seq<SwitchCtx>, f1: seq<nat>, f2: seq<nat>)
    ensures AddFalls(AddFalls(switches, f1), f2) == AddFalls(switches, f1 + f2)
  {
    if switches != [] {
      var t := switches[|switches| - 1];
      assert t.fallthroughs + f1 + f2 == t.fallthroughs + (f1 + f2);
    }
  }

  lemma AddNothing(loops: seq<Loop>, switches: seq<SwitchCtx>)
    ensures AddJumps(loops, [], []) == loops && AddFalls(switches, []) == switches
  {
    if loops != [] {
      var t := loops[|loops| - 1];
      assert t.breaks + [] == t.breaks && t.continues + [] == t.continues;
    }
    if switches != [] {
      var t := switches[|switches| - 1];
      assert t.fallthroughs + [] == t.fallthroughs;
    }
  }

  lemma CtxKept(s: State, bs: seq<nat>, cs: seq<nat>, fs: seq<nat>)
    ensures s.(loops := AddJumps(s.loops, bs, cs), switches := AddFalls(s.switches, fs)).Ctx() == s.Ctx()
  {
  }

  lemma NilState(s: State)
    requires s.Valid()
    ensures AfterStmts(s, Nil) == s && StmtsOk(Nil, s.names, s.start, s.Ctx())
  {
    AddNothing(s.loops, s.switches);
  }

  lemma ConsState(s: State, ss: Stmts)
    requires s.Valid() && ss.Cons?
    ensures var s1 := AfterStmt(s, ss.hd);
            && s1.Valid() && s1.start == s.start && s1.Ctx() == s.Ctx()
            && AfterStmts(s, ss) == AfterStmts(s1, ss.tl)
            && (StmtsOk(ss, s.names, s.start, s.Ctx())
                <==> StmtOk(ss.hd, s.names, s.start, s.Ctx()) && StmtsOk(ss.tl, s1.names, s1.start, s1.Ctx()))
  {
    hide StmtCode, StmtConsts, StmtHoles, StmtOk, StmtLocals, StmtLen, StmtNeed, StmtsCode, StmtsConsts, StmtsHoles,
        StmtsOk,
         StmtsLocals, StmtsLen, StmtsNeed, StmtsNames, AddJumps, AddFalls;
    var p, k := |s.insts|, |s.constants|;
    ConsShape(ss, s.names, s.start, s.Ctx(), p, k, Open);
    ConsHoles(ss, s.names, p);
    var p1, k1, ns := p + StmtLen(ss.hd), k + |StmtConsts(ss.hd)|, NamesIn(ss.hd, s.names);
    CtxKept(s, StmtHoles(ss.hd, p, KBreak), StmtHoles(ss.hd, p, KContinue), StmtHoles(ss.hd, p, KFallthrough));
    AddJumpsTwice(s.loops, StmtHoles(ss.hd, p, KBreak), StmtHoles(ss.hd, p, KContinue),
                  StmtsHoles(ss.tl, p1, KBreak), StmtsHoles(ss.tl, p1, KContinue));
    AddFallsTwice(s.switches, StmtHoles(ss.hd, p, KFallthrough), StmtsHoles(ss.tl, p1, KFallthrough));
    Tail(s.insts, StmtCode(ss.hd, s.names, p, k, Open), StmtsCode(ss.tl, ns, p1, k1, Open));
    assert s.constants + StmtConsts(ss.hd) + StmtsConsts(ss.tl)
        == s.constants + (StmtConsts(ss.hd) + StmtsConsts(ss.tl));
    LocalsAgree(ss.hd, s.names);
  }

  lemma ConsHoles(ss: Stmts, names: seq<string>, p: nat)
    requires ss.Cons?
    ensures forall kd :: StmtsHoles(ss, p, kd) == StmtHoles(ss.hd, p, kd) + StmtsHoles(ss.tl, p + StmtLen(ss.hd), kd)
    ensures StmtsNames(ss, names) == StmtsNames(ss.tl, NamesIn(ss.hd, names))
    ensures StmtsLocals(ss, |names|) == Max(StmtLocals(ss.hd, |names|), StmtsLocals(ss.tl, |NamesIn(ss.hd, names)|))
  {
    hide StmtHoles, StmtLen, StmtLocals;
    assert LocalsIn(ss.hd, |names|) == |NamesIn(ss.hd, names)|;
  }

  lemma LocalsAgree(s: Stmt, names: seq<string>)
    ensures LocalsIn(s, |names|) == |NamesIn(s, names)| <= StmtLocals(s, |names|)
  {
  }

  // ----- if -----

  /** The buffer while an if is compiled: the two jumps are filled in as their targets are reached. */
  lemma IfPatches(i: seq<byte>, x: seq<byte>, y: seq<byte>, b: seq<byte>, e: seq<byte>, pe: nat, end: nat,
                  hasElse: bool)
    ensures var i1 := i + x + y;
            var i2 := i1 + Jump(OpJumpFalsy, 0) + b;
            if hasElse then
              var i3 := i2 + Jump(OpJump, 0);
              var i4 := PatchOne(i3, |i1|, pe);
              && |i1| + 3 <= |i3| && IsJump(i3[|i1|])
              && |i2| + 3 <= |i4 + e| && IsJump((i4 + e)[|i2|])
              && PatchOne(i4 + e, |i2|, end)
                 == i + (x + y + Jump(OpJumpFalsy, pe) + b + (Jump(OpJump, end) + e))
            else
              && |i1| + 3 <= |i2| && IsJump(i2[|i1|])
              && PatchOne(i2, |i1|, pe) == i + (x + y + Jump(OpJumpFalsy, pe) + b + [])
  {
    hide PatchOne, Jump;
    var i1, j0, j1 := i + x + y, Jump(OpJumpFalsy, 0), Jump(OpJumpFalsy, pe);
    var h0, h1 := Jump(OpJump, 0), Jump(OpJump, end);
    if hasElse {
      JumpThere(i1, OpJumpFalsy, 0, b + h0);
      PatchJump(i1, OpJumpFalsy, 0, b + h0, pe);
      Tail(i1 + j0, b, h0);
      Tail(i1 + j1, b, h0);
      JumpThere(i1 + j1 + b, OpJump, 0, e);
      PatchJump(i1 + j1 + b, OpJump, 0, e, end);
      FiveParts(i, x, y, j1, b, h1 + e);
      Tail(i + x + y + j1 + b, h1, e);
    } else {
      JumpThere(i1, OpJumpFalsy, 0, b);
      PatchJump(i1, OpJumpFalsy, 0, b, pe);
      FiveParts(i, x, y, j1, b, []);
      assert i + x + y + j1 + b + [] == i + x + y + j1 + b;
    }
  }

  // The states an if goes through.

  function IfInit(s: State, st: Stmt): State
    requires st.If?
  {
    AfterInit(s.Scope(s.names, |s.names|), st.init)
  }

  function IfCond(s: State, st: Stmt): State
    requires st.If?
  {
    AfterExpr(IfInit(s, st), st.cond)
  }

  function IfThen(s: State, st: Stmt): State
    requires st.If?
  {
    IfCond(s, st).Code(IfCond(s, st).insts + Jump(OpJumpFalsy, 0))
  }

  function IfBody(s: State, st: Stmt): State
    requires st.If?
  {
    AfterBlock(IfThen(s, st), st.body)
  }

  function IfJump(s: State, st: Stmt): nat
    requires st.If?
  {
    |IfCond(s, st).insts|
  }

  function IfBodyJump(s: State, st: Stmt): seq<byte>
    requires st.If?
  {
    IfBody(s, st).insts + Jump(OpJump, 0)
  }

  function IfElse(s: State, st: Stmt): State
    requires st.If?
  {
    IfBody(s, st).Code(PatchOne(IfBodyJump(s, st), IfJump(s, st), |IfBodyJump(s, st)|))
  }

  function IfEnd(s: State, st: Stmt): State
    requires st.If? && st.els.Some?
  {
    AfterStmt(IfElse(s, st), st.els.value)
  }

  lemma InitState(s: State, init: Option<Simple>)
    requires s.Valid()
    ensures AfterInit(s, init)
            == s.Append(InitCode(init, s.names, |s.insts|, |s.constants|), InitConsts(init))
               .(names := InitNames(init, s.names), maxLocals := Max(s.maxLocals, InitLocals(init, |s.names|)))
    ensures |InitNames(init, s.names)| == InitLocals(init, |s.names|) >= |s.names|
    ensures AfterInit(s, init).Valid()
  {
    hide ExprCode, ExprConsts, StoreCode;
    if init.None? {
      assert s.insts + [] == s.insts && s.constants + [] == s.constants;
    }
  }

  lemma IfBodyIs(s: State, st: Stmt)
    requires s.Valid() && st.If?
    ensures var p, k := |s.insts|, |s.constants|;
            var ns, pc, kc := InitNames(st.init, s.names), p + InitLen(st.init), k + |InitConsts(st.init)|;
            var pb, kb, n := pc + ExprLen(st.cond) + 3, kc + |ExprConsts(st.cond)|, InitLocals(st.init, |s.names|);
            var i1 := s.insts + InitCode(st.init, s.names, p, k) + ExprCode(st.cond, ns, pc, kc);
            && IfJump(s, st) == |i1| == pb - 3
            && n == |ns| >= |s.names|
            && IfBody(s, st)
               == State(i1 + Jump(OpJumpFalsy, 0) + StmtsCode(st.body, ns, pb, kb, Open),
                        s.constants + InitConsts(st.init) + ExprConsts(st.cond) + StmtsConsts(st.body),
                        ns, |s.names|, Max(Max(s.maxLocals, n), StmtsLocals(st.body, n)),
                        AddJumps(s.loops, StmtsHoles(st.body, pb, KBreak), StmtsHoles(st.body, pb, KContinue)),
                        AddFalls(s.switches, StmtsHoles(st.body, pb, KFallthrough)))
  {
    hide StmtsCode, InitCode, ExprCode, StmtsConsts, InitConsts, ExprConsts, StmtsLen, InitLen, ExprLen,
         StmtsHoles, StmtsLocals, InitLocals, InitNames, StmtsNames, Jump, AddJumps, AddFalls, AfterInit;
    InitState(s.Scope(s.names, |s.names|), st.init);
  }

  lemma IfState(s: State, st: Stmt)
    requires s.Valid() && st.If? && st.els.None?
    ensures IfJump(s, st) + 3 <= |IfBody(s, st).insts| && IsJump(IfBody(s, st).insts[IfJump(s, st)])
    ensures AfterStmt(s, st)
            == IfBody(s, st).Code(PatchOne(IfBody(s, st).insts, IfJump(s, st), |IfBody(s, st).insts|)).Scope(s.names,
                s.start)
  {
    hide StmtCode, StmtsCode, InitCode, ExprCode, StmtConsts, StmtsConsts, InitConsts, ExprConsts, StmtLen, StmtsLen,
        InitLen, ExprLen,
         StmtHoles, StmtsHoles, StmtsLocals, StmtsNeed, StmtNeed, InitNeed, ExprNeed, InitNames,
         PatchOne, Jump, AddJumps, AddFalls, IfBody, IfJump;
    IfBodyIs(s, st);
    var p, k := |s.insts|, |s.constants|;
    var ns, pc, kc := InitNames(st.init, s.names), p + InitLen(st.init), k + |InitConsts(st.init)|;
    var pb, kb := pc + ExprLen(st.cond) + 3, kc + |ExprConsts(st.cond)|;
    IfShape(st, s.names, p, k, Open);
    IfSizes(st, |s.names|);
    IfHoles(st, p, KBreak);
    IfHoles(st, p, KContinue);
    IfHoles(st, p, KFallthrough);
    NoMore(st, p, k);
    IfPatches(s.insts, InitCode(st.init, s.names, p, k), ExprCode(st.cond, ns, pc, kc),
              StmtsCode(st.body, ns, pb, kb, Open), [],
              pb + StmtsLen(st.body), 0, false);
    FourConsts(s.constants, InitConsts(st.init), ExprConsts(st.cond), StmtsConsts(st.body), []);
  }

  lemma NoMore(st: Stmt, p: nat, k: nat)
    ensures forall hs: seq<nat> :: hs + [] == hs
    ensures forall ks: seq<Value> :: ks + [] == ks
  {
  }

  lemma FourConsts(i: seq<Value>, a: seq<Value>, b: seq<Value>, c: seq<Value>, d: seq<Value>)
    ensures i + (a + b + c + d) == i + a + b + c + d
  {
  }

  lemma IfElseState(s: State, st: Stmt)
    requires s.Valid() && st.If? && st.els.Some? && !st.els.value.SimpleStmt?
    ensures IfJump(s, st) + 3 <= |IfBodyJump(s, st)| && IsJump(IfBodyJump(s, st)[IfJump(s, st)])
    ensures |IfBody(s, st).insts| + 3 <= |IfEnd(s, st).insts| && IsJump(IfEnd(s, st).insts[|IfBody(s, st).insts|])
    ensures AfterStmt(s, st)
            == IfEnd(s, st).Code(PatchOne(IfEnd(s, st).insts, |IfBody(s, st).insts|,
                                          |IfEnd(s, st).insts|)).Scope(s.names, s.start)
  {
    hide StmtCode, StmtsCode, InitCode, ExprCode, StmtConsts, StmtsConsts, InitConsts, ExprConsts, StmtLen, StmtsLen,
        InitLen, ExprLen,
         StmtHoles, StmtsHoles, StmtsLocals, StmtsNeed, StmtNeed, InitNeed, ExprNeed, InitNames,
         PatchOne, Jump, AddJumps, AddFalls, IfBody, IfJump;
    IfBodyIs(s, st);
    var p, k := |s.insts|, |s.constants|;
    var ns, pc, kc := InitNames(st.init, s.names), p + InitLen(st.init), k + |InitConsts(st.init)|;
    var pb, kb := pc + ExprLen(st.cond) + 3, kc + |ExprConsts(st.cond)|;
    var pe, ke, els := pb + StmtsLen(st.body) + 3, kb + |StmtsConsts(st.body)|, st.els.value;
    IfShape(st, s.names, p, k, Open);
    IfSizes(st, |s.names|);
    IfHoles(st, p, KBreak);
    IfHoles(st, p, KContinue);
    IfHoles(st, p, KFallthrough);
    IfPatches(s.insts, InitCode(st.init, s.names, p, k), ExprCode(st.cond, ns, pc, kc),
              StmtsCode(st.body, ns, pb, kb, Open),
              StmtCode(els, ns, pe, ke, Open), pe, pe + StmtLen(els), true);
    FourConsts(s.constants, InitConsts(st.init), ExprConsts(st.cond), StmtsConsts(st.body), StmtConsts(els));
    AddJumpsTwice(s.loops, StmtsHoles(st.body, pb, KBreak), StmtsHoles(st.body, pb, KContinue),
                  StmtHoles(els, pe, KBreak), StmtHoles(els, pe, KContinue));
    AddFallsTwice(s.switches, StmtsHoles(st.body, pb, KFallthrough), StmtHoles(els, pe, KFallthrough));
  }

  lemma IfContext(s: State, st: Stmt)
    requires s.Valid() && st.If?
    ensures IfBody(s, st).Valid() && IfBody(s, st).Ctx() == s.Ctx()
    ensures IfElse(s, st).Valid() && IfElse(s, st).Ctx() == s.Ctx()
  {
    hide StmtsCode, InitCode, ExprCode, StmtsConsts, InitConsts, ExprConsts, StmtsLen, InitLen, ExprLen,
         StmtsHoles, StmtsLocals, InitLocals, InitNames, StmtsNames, Jump, PatchOne, IfBody, IfJump;
    IfBodyIs(s, st);
  }

  /** What CompileIf needs to know about the states it goes through. */
  lemma IfStages(s: State, st: Stmt)
    requires s.Valid() && st.If?
    ensures IfInit(s, st).Valid() && IfInit(s, st).start == |s.names|
            && IfInit(s, st).names == InitNames(st.init, s.names)
    ensures IfThen(s, st).Valid() && IfThen(s, st).names == IfInit(s, st).names && IfThen(s, st).Ctx() == s.Ctx()
    ensures IfElse(s, st).Valid() && IfElse(s, st).Ctx() == s.Ctx()
    ensures IfElse(s, st).names == IfInit(s, st).names && IfElse(s, st).start == |s.names|
    ensures StmtOk(st, s.names, s.start, s.Ctx()) <==>
              && InitOk(st.init, s.names, |s.names|) && ExprOk(st.cond, IfInit(s, st).names)
              && StmtsOk(st.body, IfInit(s, st).names, |IfInit(s, st).names|, s.Ctx())
              && (st.els.Some? ==> (st.els.value.If? || st.els.value.Block?)
                                   && StmtOk(st.els.value, IfInit(s, st).names, |s.names|, s.Ctx()))
  {
    hide StmtCode, StmtsCode, InitCode, ExprCode, StmtConsts, StmtsConsts, InitConsts, ExprConsts, StmtLen, StmtsLen,
        InitLen, ExprLen,
         StmtHoles, StmtsHoles, StmtsLocals, StmtLocals, InitLocals, InitNames, StmtsNames, InitOk, ExprOk, StmtsOk,
             StmtOk,
         AfterStmt, AfterInit, PatchOne, Jump, AddJumps, AddFalls;
    InitState(s.Scope(s.names, |s.names|), st.init);
    IfContext(s, st);
    IfOkIs(st, s.names, s.start, s.Ctx());
  }

  lemma IfOkIs(s: Stmt, names: seq<string>, start: nat, c: Context)
    requires s.If? && start <= |names|
    ensures var ns := InitNames(s.init, names);
            StmtOk(s, names, start, c) <==>
              && InitOk(s.init, names, |names|) && ExprOk(s.cond, ns) && StmtsOk(s.body, ns, |ns|, c)
              && (s.els.Some? ==> (s.els.value.If? || s.els.value.Block?) && StmtOk(s.els.value, ns, |names|, c))
  {
    hide InitOk, ExprOk, StmtsOk;
  }

  // ----- the other statements -----

  lemma SimpleStmtState(s: State, st: Stmt)
    requires s.Valid() && st.SimpleStmt?
    ensures AfterStmt(s, st) == AfterSimple(s, st.sm)
    ensures StmtOk(st, s.names, s.start, s.Ctx()) <==> SimpleOk(st.sm, s.names, s.start)
  {
    hide SimpleCode, SimpleConsts, SimpleOk, NamesAfter, LocalsAfter, AddJumps, AddFalls;
    AddNothing(s.loops, s.switches);
  }

  lemma BlockState(s: State, st: Stmt)
    requires s.Valid() && st.Block?
    ensures AfterStmt(s, st) == AfterBlock(s, st.body)
    ensures StmtOk(st, s.names, s.start, s.Ctx()) <==> StmtsOk(st.body, s.names, |s.names|, s.Ctx())
  {
    hide StmtsCode, StmtsConsts, StmtsOk, StmtsHoles, StmtsLocals, AddJumps, AddFalls;
  }

  lemma BranchState(s: State, st: Stmt)
    requires s.Valid() && (st.Break? || st.Continue? || st.Fallthrough?)
    ensures var p, i := |s.insts|, s.insts + Jump(OpJump, 0);
            AfterStmt(s, st)
            == if st.Break? then s.(insts := i, loops := AddJumps(s.loops, [p], []))
               else if st.Continue? then s.(insts := i, loops := AddJumps(s.loops, [], [p]))
               else s.(insts := i, switches := AddFalls(s.switches, [p]))
  {
    hide AddJumps, AddFalls, Jump;
    AddNothing(s.loops, s.switches);
    assert s.constants + [] == s.constants;
  }

  lemma ReturnState(s: State, st: Stmt)
    requires s.Valid() && st.Return?
    ensures AfterStmt(s, st)
            == if st.result.None? then s.(insts := s.insts + Op1(OpReturn, 0))
               else var s1 := AfterExpr(s, st.result.value);
                    s1.(insts := s1.insts + Op1(OpReturn, 1))
    ensures StmtOk(st, s.names, s.start, s.Ctx()) <==> OptOk(st.result, s.names)
  {
    hide AddJumps, AddFalls, ExprCode, ExprConsts, ExprOk;
    AddNothing(s.loops, s.switches);
    if st.result.None? {
      assert s.constants + [] == s.constants;
    } else {
      Tail(s.insts, ExprCode(st.result.value, s.names, |s.insts|, |s.constants|), Op1(OpReturn, 1));
    }
  }
}
