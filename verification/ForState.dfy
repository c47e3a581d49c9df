/** The stages of compiling a loop. */
module ForState {
  import opened Wrappers
  import opened Instructions
  import opened Language
  import opened CodeGen
  import opened Backpatch
  import opened CompilerState

  // ----- for -----

  // The states a loop goes through before its jumps are filled in.

  function ForStart(s: State, st: Stmt): State
    requires st.For?
  {
    AfterInit(s.Scope(s.names, |s.names|), st.init)
  }

  function ForCond(s: State, st: Stmt): State
    requires st.For?
  {
    if st.forCond.None? then ForStart(s, st)
    else
      var s1 := AfterExpr(ForStart(s, st), st.forCond.value);
      s1.Code(s1.insts + Jump(OpJumpFalsy, 0))
  }

  function EnterLoop(s: State): State { s.(loops := s.loops + [Loop([], [])]) }

  function LeaveLoop(s: State): State
    requires s.loops != []
  {
    s.(loops := s.loops[..|s.loops| - 1])
  }

  function ForBody(s: State, st: Stmt): (r: State)
    requires st.For?
    ensures r.loops != []
  {
    AfterBlock(EnterLoop(ForCond(s, st)), st.body)
  }

  function ForPost(s: State, st: Stmt): State
    requires st.For?
  {
    AfterInit(LeaveLoop(ForBody(s, st)), st.post)
  }

  function ForBack(s: State, st: Stmt): State
    requires st.For?
  {
    ForPost(s, st).Code(ForPost(s, st).insts + Jump(OpJump, |ForStart(s, st).insts|))
  }

  /** The pending jump of the condition, if there is one. */
  function ForHole(s: State, st: Stmt): seq<nat>
    requires st.For?
  {
    if st.forCond.None? || |ForCond(s, st).insts| < 3 then [] else [|ForCond(s, st).insts| - 3]
  }

  lemma CondFills(pre: seq<byte>, c: Option<Expr>, names: seq<string>, k: nat, end: nat, end': nat)
    ensures Fills(pre, CondCode(c, names, |pre|, k, end), if c.None? then [] else [|pre| + CondLen(c) - 3], end',
                  CondCode(c, names, |pre|, k, end'))
  {
    hide Fills, ExprCode, ExprLen, Jump;
    if c.None? {
      FillsNothing(pre, [], end');
    } else {
      var x := ExprCode(c.value, names, |pre|, k);
      FillsNothing(pre, x, end');
      FillsJump(pre + x, OpJumpFalsy, end, end');
      FillsBoth(pre, x, Jump(OpJumpFalsy, end), [], [|pre + x|], end', x, Jump(OpJumpFalsy, end'));
      assert [] + [|pre + x|] == [|pre + x|];
    }
  }

  /** Three rounds of patching: the condition's jump, the breaks, the continues. */
  lemma ForPatches(i: seq<byte>, x: seq<byte>, b: seq<byte>, y: seq<byte>, hx: seq<nat>, hb: seq<nat>, hc: seq<nat>,
                   end: nat, pp: nat,
                   x': seq<byte>, b1: seq<byte>, b2: seq<byte>)
    requires Fills(i, x, hx, end, x') && Fills(i + x', b, hb, end, b1) && Fills(i + x', b1, hc, pp, b2)
    ensures var c1 := Patch(i + x + b + y, hx, end);
            var c2 := Patch(c1, hb, end);
            && PatchOk(i + x + b + y, hx, end) && PatchOk(c1, hb, end) && PatchOk(c2, hc, pp)
            && Patch(c2, hc, pp) == i + x' + b2 + y
  {
    hide Patch, PatchOk, Fills;
    FillsAt(i, x, hx, end, x', b + y);
    FillsAt(i + x', b, hb, end, b1, y);
    FillsAt(i + x', b1, hc, pp, b2, y);
    Tail(i + x, b, y);
    Tail(i + x', b, y);
  }

  lemma AddToNew(loops: seq<Loop>, bs: seq<nat>, cs: seq<nat>)
    ensures AddJumps(loops + [Loop([], [])], bs, cs) == loops + [Loop(bs, cs)]
  {
    assert [] + bs == bs && [] + cs == cs;
    assert (loops + [Loop([], [])])[..|loops|] == loops;
  }

  lemma ForCondIs(s: State, st: Stmt)
    requires s.Valid() && st.For?
    ensures var p, k := |s.insts|, |s.constants|;
            var ns, pl, kl := InitNames(st.init, s.names), p + InitLen(st.init), k + |InitConsts(st.init)|;
            var n := InitLocals(st.init, |s.names|);
            && |ForStart(s, st).insts| == pl && n == |ns| >= |s.names|
            && ForCond(s, st)
               == State(s.insts + InitCode(st.init, s.names, p, k) + CondCode(st.forCond, ns, pl, kl, 0),
                        s.constants + InitConsts(st.init) + OptConsts(st.forCond),
                        ns, |s.names|, Max(s.maxLocals, n), s.loops, s.switches)
  {
    hide InitCode, ExprCode, InitConsts, ExprConsts, InitLen, ExprLen, InitLocals, InitNames, Jump, AfterInit;
    InitState(s.Scope(s.names, |s.names|), st.init);
    var s1 := ForStart(s, st);
    if st.forCond.None? {
      assert s1.insts + [] == s1.insts && s1.constants + [] == s1.constants;
    } else {
      Tail(s1.insts, ExprCode(st.forCond.value, s1.names, |s1.insts|, |s1.constants|), Jump(OpJumpFalsy, 0));
    }
  }

  lemma ForBodyIs(s: State, st: Stmt)
    requires s.Valid() && st.For?
    ensures var p, k := |s.insts|, |s.constants|;
            var ns, pl, kl := InitNames(st.init, s.names), p + InitLen(st.init), k + |InitConsts(st.init)|;
            var pb, kb, n := pl + CondLen(st.forCond), kl + |OptConsts(st.forCond)|, InitLocals(st.init, |s.names|);
            && |ForCond(s, st).insts| == pb
            && ForBody(s, st)
               == State(s.insts + InitCode(st.init, s.names, p, k) + CondCode(st.forCond, ns, pl, kl, 0)
                        + StmtsCode(st.body, ns, pb, kb, Open),
                        s.constants + InitConsts(st.init) + OptConsts(st.forCond) + StmtsConsts(st.body),
                        ns, |s.names|, Max(Max(s.maxLocals, n), StmtsLocals(st.body, n)),
                        s.loops + [Loop(StmtsHoles(st.body, pb, KBreak), StmtsHoles(st.body, pb, KContinue))],
                        AddFalls(s.switches, StmtsHoles(st.body, pb, KFallthrough)))
  {
    hide StmtsCode, InitCode, CondCode, StmtsConsts, InitConsts, OptConsts, StmtsLen, InitLen, CondLen,
         StmtsHoles, StmtsLocals, InitLocals, InitNames, StmtsNames, Jump, AddFalls, AddJumps, AfterInit, ForCond;
    ForCondIs(s, st);
    var pb := |ForCond(s, st).insts|;
    AddToNew(s.loops, StmtsHoles(st.body, pb, KBreak), StmtsHoles(st.body, pb, KContinue));
  }

  /** The state when the body and the post statement are compiled and no jump is filled in yet. */
  lemma ForBackIs(s: State, st: Stmt)
    requires s.Valid() && st.For?
    ensures var p, k := |s.insts|, |s.constants|;
            var ns, pl, kl := InitNames(st.init, s.names), p + InitLen(st.init), k + |InitConsts(st.init)|;
            var pb, kb, n := pl + CondLen(st.forCond), kl + |OptConsts(st.forCond)|, InitLocals(st.init, |s.names|);
            var pp, kp := pb + StmtsLen(st.body), kb + |StmtsConsts(st.body)|;
            && |ForBody(s, st).insts| == pp
            && ForBack(s, st)
               == State(s.insts + InitCode(st.init, s.names, p, k) + CondCode(st.forCond, ns, pl, kl, 0)
                        + StmtsCode(st.body, ns, pb, kb, Open) + InitCode(st.post, ns, pp, kp) + Jump(OpJump, pl),
                        s.constants + InitConsts(st.init) + OptConsts(st.forCond) + StmtsConsts(st.body)
                            + InitConsts(st.post),
                        InitNames(st.post, ns), |s.names|,
                        Max(Max(Max(s.maxLocals, n), StmtsLocals(st.body, n)), InitLocals(st.post, n)),
                        s.loops, AddFalls(s.switches, StmtsHoles(st.body, pb, KFallthrough)))
  {
    hide StmtsCode, InitCode, CondCode, StmtsConsts, InitConsts, OptConsts, StmtsLen, InitLen, CondLen,
         StmtsHoles, StmtsLocals, InitLocals, InitNames, StmtsNames, Jump, AddFalls, AfterInit, ForCond, ForStart,
             ForBody;
    ForCondIs(s, st);
    ForBodyIs(s, st);
    InitState(LeaveLoop(ForBody(s, st)), st.post);
  }

  lemma ForHoles(st: Stmt, p: nat)
    requires st.For?
    ensures StmtHoles(st, p, KBreak) == [] && StmtHoles(st, p, KContinue) == []
    ensures StmtHoles(st, p, KFallthrough)
            == StmtsHoles(st.body, p + InitLen(st.init) + CondLen(st.forCond), KFallthrough)
  {
    hide StmtsHoles, InitLen, CondLen;
  }

  lemma ForShape(s: Stmt, names: seq<string>, p: nat, k: nat)
    requires s.For?
    ensures var ns, pl, kl := InitNames(s.init, names), p + InitLen(s.init), k + |InitConsts(s.init)|;
            var pb, kb := pl + CondLen(s.forCond), kl + |OptConsts(s.forCond)|;
            var pp, kp := pb + StmtsLen(s.body), kb + |StmtsConsts(s.body)|;
            var end := pp + InitLen(s.post) + 3;
            StmtCode(s, names, p, k, Open)
            == InitCode(s.init, names, p, k)
               + (CondCode(s.forCond, ns, pl, kl, end) + StmtsCode(s.body, ns, pb, kb, Targets(end, pp, 0))
                  + InitCode(s.post, ns, pp, kp) + Jump(OpJump, pl))
  {
    hide InitCode, InitNames, InitLen, InitConsts, CondCode, CondLen, OptConsts, StmtsLen, StmtsCode, StmtsConsts, Jump;
  }

  lemma ForSizes(s: Stmt, n: nat)
    requires s.For?
    ensures StmtConsts(s) == InitConsts(s.init) + OptConsts(s.forCond) + StmtsConsts(s.body) + InitConsts(s.post)
    ensures var i := InitLocals(s.init, n); StmtLocals(s, n) == Max(StmtsLocals(s.body, i), InitLocals(s.post, i))
  {
    hide InitConsts, InitLocals, OptConsts, StmtsConsts, StmtsLocals;
  }

  /** The code of a loop, its jumps open, patched in the order the compiler does. */
  lemma ForCode(i: seq<byte>, s: Stmt, names: seq<string>, k: nat)
    requires s.For?
    ensures var p := |i|;
            var ns, pl, kl := InitNames(s.init, names), p + InitLen(s.init), k + |InitConsts(s.init)|;
            var pb, kb := pl + CondLen(s.forCond), kl + |OptConsts(s.forCond)|;
            var pp, kp := pb + StmtsLen(s.body), kb + |StmtsConsts(s.body)|;
            var end := pp + InitLen(s.post) + 3;
            var c0 := i + InitCode(s.init, names, p, k) + CondCode(s.forCond, ns, pl, kl, 0)
                      + StmtsCode(s.body, ns, pb, kb, Open) + InitCode(s.post, ns, pp, kp) + Jump(OpJump, pl);
            var hx := if s.forCond.None? then [] else [pb - 3];
            var c1 := Patch(c0, hx, end);
            var c2 := Patch(c1, StmtsHoles(s.body, pb, KBreak), end);
            var hc := StmtsHoles(s.body, pb, KContinue);
            && PatchOk(c0, hx, end) && PatchOk(c1, StmtsHoles(s.body, pb, KBreak), end) && PatchOk(c2, hc, pp)
            && Patch(c2, hc, pp) == i + StmtCode(s, names, p, k, Open)
  {
    hide InitCode, InitNames, InitLen, InitConsts, CondCode, OptConsts, StmtsLen, StmtsCode, StmtsConsts, StmtsHoles,
        StmtCode, Jump,
         Patch, PatchOk, Fills, ExprLen;
    var p := |i|;
    var ns, pl, kl := InitNames(s.init, names), p + InitLen(s.init), k + |InitConsts(s.init)|;
    var pb, kb := pl + CondLen(s.forCond), kl + |OptConsts(s.forCond)|;
    var pp, kp := pb + StmtsLen(s.body), kb + |StmtsConsts(s.body)|;
    var end := pp + InitLen(s.post) + 3;
    var i1 := i + InitCode(s.init, names, p, k);
    var x, x' := CondCode(s.forCond, ns, pl, kl, 0), CondCode(s.forCond, ns, pl, kl, end);
    CondFills(i1, s.forCond, ns, kl, 0, end);
    StmtsFills(i1 + x', s.body, ns, kb, Open, KBreak, end);
    StmtsFills(i1 + x', s.body, ns, kb, Targets(end, 0, 0), KContinue, pp);
    var b0, b2 := StmtsCode(s.body, ns, pb, kb, Open), StmtsCode(s.body, ns, pb, kb, Targets(end, pp, 0));
    var q, j := InitCode(s.post, ns, pp, kp), Jump(OpJump, pl);
    ForPatches(i1, x, b0, q + j, if s.forCond.None? then [] else [pb - 3],
               StmtsHoles(s.body, pb, KBreak), StmtsHoles(s.body, pb, KContinue), end, pp,
               x', StmtsCode(s.body, ns, pb, kb, Targets(end, 0, 0)), b2);
    ForShape(s, names, p, k);
    Tail(i1 + x + b0, q, j);
    SixParts(i, InitCode(s.init, names, p, k), x', b2, q, j);
  }

  lemma SixParts(i: seq<byte>, a: seq<byte>, x: seq<byte>, b: seq<byte>, q: seq<byte>, j: seq<byte>)
    ensures i + (a + (x + b + q + j)) == i + a + x + b + (q + j)
  {
  }

  /** Filling in the jumps of a loop gives the loop. */
  lemma ForDone(s: State, st: Stmt)
    requires s.Valid() && st.For?
    ensures var c0, end, l := ForBack(s, st).insts, |ForBack(s, st).insts|, ForBody(s, st).loops[|s.loops|];
            var c1 := Patch(c0, ForHole(s, st), end);
            var c2 := Patch(c1, l.breaks, end);
            && |ForBody(s, st).loops| == |s.loops| + 1
            && PatchOk(c0, ForHole(s, st), end) && PatchOk(c1, l.breaks, end)
            && PatchOk(c2, l.continues, |ForBody(s, st).insts|)
            && AfterStmt(s, st)
               == ForBack(s, st).Code(Patch(c2, l.continues, |ForBody(s, st).insts|)).Scope(s.names, s.start)
  {
    hide StmtCode, StmtsCode, InitCode, CondCode, StmtConsts, StmtsConsts, InitConsts, OptConsts, StmtsLen, InitLen,
        ExprLen,
         StmtsHoles, StmtHoles, StmtsLocals, InitLocals, InitNames, StmtsNames, Jump, AddFalls, AfterInit, ForCond,
             ForBody, ForBack,
         Patch, PatchOk, AddJumps;
    ForBackIs(s, st);
    ForBodyIs(s, st);
    ForCode(s.insts, st, s.names, |s.constants|);
    ForHoles(st, |s.insts|);
    ForSizes(st, |s.names|);
    AddNothing(s.loops, s.switches);
    FourConsts(s.constants, InitConsts(st.init), OptConsts(st.forCond), StmtsConsts(st.body), InitConsts(st.post));
  }

  lemma ForOkIs(s: Stmt, names: seq<string>, start: nat, c: Context)
    requires s.For? && start <= |names|
    ensures var ns := InitNames(s.init, names);
            StmtOk(s, names, start, c) <==>
              && InitOk(s.init, names, |names|) && OptOk(s.forCond, ns)
              && StmtsOk(s.body, ns, |ns|, Context(LoopFrame, c.fallOk)) && InitOk(s.post, ns, |names|)
  {
    hide InitOk, ExprOk, StmtsOk;
  }

  /** What CompileFor needs to know about the states it goes through. */
  lemma ForStages(s: State, st: Stmt)
    requires s.Valid() && st.For?
    ensures ForStart(s, st).Valid() && ForStart(s, st).names == InitNames(st.init, s.names)
    ensures var s1 := EnterLoop(ForCond(s, st));
            s1.Valid() && s1.names == InitNames(st.init, s.names) && s1.Ctx() == Context(LoopFrame, s.Ctx().fallOk)
    ensures var s2 := LeaveLoop(ForBody(s, st));
            s2.Valid() && s2.names == InitNames(st.init, s.names) && s2.start == |s.names|
    ensures StmtOk(st, s.names, s.start, s.Ctx()) <==>
              && InitOk(st.init, s.names, |s.names|) && OptOk(st.forCond, ForStart(s, st).names)
              && StmtsOk(st.body, ForStart(s, st).names, |ForStart(s, st).names|, Context(LoopFrame, s.Ctx().fallOk))
              && InitOk(st.post, ForStart(s, st).names, |s.names|)
  {
    hide StmtCode, StmtsCode, InitCode, CondCode, StmtConsts, StmtsConsts, InitConsts, OptConsts, StmtsLen, InitLen,
        ExprLen,
         StmtsHoles, StmtHoles, StmtsLocals, InitLocals, InitNames, StmtsNames, Jump, AddFalls, ForCond, ForBody,
             ForBack,
         InitOk, ExprOk, StmtsOk, StmtOk, AddJumps, AfterInit;
    InitState(s.Scope(s.names, |s.names|), st.init);
    ForCondIs(s, st);
    ForBodyIs(s, st);
    ForOkIs(st, s.names, s.start, s.Ctx());
  }
}
