/** Why patching the jumps of a switch, kind by kind, gives the code of the switch. */
module SwitchProof {
  import opened Wrappers
  import opened Instructions
  import opened Language
  import opened CodeGen
  import opened Backpatch
  import opened CompilerState
  import opened ForState
  import opened SwitchState

  // ----- the clauses seen as arms and a default body -----

  lemma {:induction false} ArmsAddUp(cl: Clauses, tag: Option<Expr>, n: nat)
    ensures ArmsConsts(tag, Arms(cl)) == CasesConsts(cl, tag)
    ensures ArmsLocals(Arms(cl), n) == CasesLocals(cl, n)
  {
    hide ArmConsts, StmtsLocals;
    match cl
    case NoMore =>
    case Default(_, rest) => ArmsAddUp(rest, tag, n);
    case Case(exprs, body, rest) =>
      ArmsAddUp(rest, tag, n);
      var arms := Arms(cl);
      assert arms[0] == Arm(exprs, body) && arms[1..] == Arms(rest);
      OneCase(cl, tag);
  }

  lemma OneCase(cl: Clauses, tag: Option<Expr>)
    requires cl.Case?
    ensures CasesConsts(cl, tag) == ArmConsts(tag, Arm(cl.exprs, cl.body)) + CasesConsts(cl.rest, tag)
  {
    hide PreConsts, StmtsConsts;
  }

  function ClauseCode(d: Option<Stmts>, names: seq<string>, p: nat, k: nat, t: Targets): (code: seq<byte>) {
    if d.None? then [] else StmtsCode(d.value, names, p, k, t)
  }

  function ClauseHoles(d: Option<Stmts>, p: nat, kd: Kind): seq<nat> {
    if d.None? then [] else StmtsHoles(d.value, p, kd)
  }

  function ClauseConsts(d: Option<Stmts>): seq<Value> {
    if d.None? then [] else StmtsConsts(d.value)
  }

  lemma {:induction false} DefaultIsBody(cl: Clauses, names: seq<string>, p: nat, k: nat, end: nat)
    ensures DefaultCode(cl, names, p, k, end) == ClauseCode(DefaultBody(cl), names, p, k, Targets(end, 0, 0))
    ensures DefaultConsts(cl) == ClauseConsts(DefaultBody(cl))
    ensures DefaultLocals(cl, |names|) == if DefaultBody(cl).None? then |names|
            else StmtsLocals(DefaultBody(cl).value, |names|)
  {
    hide StmtsCode, StmtsLocals, StmtsConsts, StmtsLen;
    if cl.Case? { DefaultIsBody(cl.rest, names, p, k, end); }
  }

  // ----- where continue and fallthrough may stand -----

  /** A continue that has no loop to go to is exactly one that stays open. */
  lemma {:induction false} StmtContinues(s: Stmt, names: seq<string>, start: nat, f: bool, p: nat)
    requires start <= |names|
    ensures StmtOk(s, names, start, Context(SwitchFrame, f))
            <==> StmtOk(s, names, start, Context(LoopFrame, f)) && StmtHoles(s, p, KContinue) == []
    decreases s, 1
  {
    hide StmtsOk, StmtsHoles, InitOk, ExprOk, InitNames, InitLen, ExprLen, StmtsLen, CondLen, SimpleOk;
    match s
    case Block(body) => StmtsContinue(body, names, |names|, f, p);
    case If(init, c, body, els) =>
      var ns, pb := InitNames(init, names), p + InitLen(init) + ExprLen(c) + 3;
      StmtsContinue(body, ns, |ns|, f, pb);
      IfOkIs(s, names, start, Context(SwitchFrame, f));
      IfOkIs(s, names, start, Context(LoopFrame, f));
      IfHoles(s, p, KContinue);
      if els.Some? { StmtContinues(els.value, ns, |names|, f, pb + StmtsLen(body) + 3); }
    case For(_, _, _, _) =>
      ForOkIs(s, names, start, Context(SwitchFrame, f));
      ForOkIs(s, names, start, Context(LoopFrame, f));
      ForHoles(s, p);
    case _ =>
  }

  lemma {:induction false} StmtsContinue(ss: Stmts, names: seq<string>, start: nat, f: bool, p: nat)
    requires start <= |names|
    ensures StmtsOk(ss, names, start, Context(SwitchFrame, f))
            <==> StmtsOk(ss, names, start, Context(LoopFrame, f)) && StmtsHoles(ss, p, KContinue) == []
    decreases ss, 0
  {
    hide StmtOk, StmtHoles, StmtLen;
    if ss.Cons? {
      assert |NamesIn(ss.hd, names)| >= |names|;
      StmtContinues(ss.hd, names, start, f, p);
      StmtsContinue(ss.tl, NamesIn(ss.hd, names), start, f, p + StmtLen(ss.hd));
    }
  }

  lemma {:induction false} StmtFallsNowhere(s: Stmt, names: seq<string>, start: nat, c: Context, p: nat)
    requires start <= |names| && StmtOk(s, names, start, c) && !c.fallOk
    ensures StmtHoles(s, p, KFallthrough) == []
    decreases s, 1
  {
    hide StmtsOk, StmtsHoles, InitOk, ExprOk, InitNames, InitLen, ExprLen, StmtsLen, CondLen, SimpleOk;
    match s
    case Block(body) => StmtsFallNowhere(body, names, |names|, c, p);
    case If(init, e, body, els) =>
      var ns, pb := InitNames(init, names), p + InitLen(init) + ExprLen(e) + 3;
      IfOkIs(s, names, start, c);
      IfHoles(s, p, KFallthrough);
      StmtsFallNowhere(body, ns, |ns|, c, pb);
      if els.Some? { StmtFallsNowhere(els.value, ns, |names|, c, pb + StmtsLen(body) + 3); }
    case For(init, cond, post, body) =>
      var ns := InitNames(init, names);
      ForOkIs(s, names, start, c);
      ForHoles(s, p);
      StmtsFallNowhere(body, ns, |ns|, Context(LoopFrame, c.fallOk), p + InitLen(init) + CondLen(cond));
    case _ =>
  }

  lemma {:induction false} StmtsFallNowhere(ss: Stmts, names: seq<string>, start: nat, c: Context, p: nat)
    requires start <= |names| && StmtsOk(ss, names, start, c) && !c.fallOk
    ensures StmtsHoles(ss, p, KFallthrough) == []
    decreases ss, 0
  {
    hide StmtOk, StmtHoles, StmtLen;
    if ss.Cons? {
      assert |NamesIn(ss.hd, names)| >= |names|;
      StmtFallsNowhere(ss.hd, names, start, c, p);
      StmtsFallNowhere(ss.tl, NamesIn(ss.hd, names), start, c, p + StmtLen(ss.hd));
    }
  }

  lemma {:induction false} CasesAreOk(cl: Clauses, tag: Option<Expr>, names: seq<string>, dflt: bool, p: nat)
    ensures CasesOk(cl, tag, names, dflt)
            <==> ArmsOk(tag, Arms(cl), names, dflt) && ContinueHoles(tag, Arms(cl), p) == []
  {
    hide PreOk, StmtsOk, StmtsHoles, PreLen, ArmLen;
    match cl
    case NoMore =>
    case Default(_, rest) => CasesAreOk(rest, tag, names, dflt, p);
    case Case(exprs, body, rest) =>
      var a, arms := Arm(exprs, body), Arms(cl);
      assert arms[0] == a && arms[1..] == Arms(rest);
      CasesAreOk(rest, tag, names, dflt, p + ArmLen(tag, a));
      HasCaseIs(rest);
      StmtsContinue(body, names, |names|, HasCase(rest) || dflt, BodyPos(tag, a, p));
  }

  predicate ClauseOk(d: Option<Stmts>, names: seq<string>) {
    d.None? || StmtsOk(d.value, names, |names|, Context(LoopFrame, false))
  }

  lemma {:induction false} DefaultIsOk(cl: Clauses, names: seq<string>, p: nat)
    ensures DefaultOk(cl, names)
            <==> OneDefault(cl) && ClauseOk(DefaultBody(cl), names) && ClauseHoles(DefaultBody(cl), p, KContinue) == []
  {
    hide StmtsOk, StmtsHoles;
    match cl
    case NoMore =>
    case Default(body, _) => StmtsContinue(body, names, |names|, false, p);
    case Case(_, _, rest) => DefaultIsOk(rest, names, p);
  }

  // ----- the last case falls nowhere, every other one into the next body -----

  lemma {:induction false} ArmAt(tag: Option<Expr>, arms: seq<Arm>, p: nat, i: nat)
    requires i < |arms|
    ensures |FallHoles(tag, arms, p)| == |Starts(tag, arms, p)| == |arms|
    ensures var pi := ArmPos(tag, arms, p, i);
            && FallHoles(tag, arms, p)[i] == StmtsHoles(arms[i].body, BodyPos(tag, arms[i], pi), KFallthrough)
            && Starts(tag, arms, p)[i] == BodyPos(tag, arms[i], pi)
            && ArmPos(tag, arms, p, i + 1) == pi + ArmLen(tag, arms[i])
    decreases |arms|
  {
    hide StmtsHoles, PreLen, ArmLen, BodyPos;
    if i > 0 { ArmAt(tag, arms[1..], p + ArmLen(tag, arms[0]), i - 1); }
    else if |arms| > 1 { ArmAt(tag, arms[1..], p + ArmLen(tag, arms[0]), 0); }
  }

  lemma {:induction false} ArmsEnd(tag: Option<Expr>, arms: seq<Arm>, p: nat)
    ensures ArmPos(tag, arms, p, |arms|) == p + ArmsLen(tag, arms)
    decreases |arms|
  {
    hide ArmLen;
    if arms != [] { ArmsEnd(tag, arms[1..], p + ArmLen(tag, arms[0])); }
  }

  lemma FallsTo(tag: Option<Expr>, arms: seq<Arm>, p: nat, i: nat)
    requires i < |arms|
    ensures |Starts(tag, arms, p)| == |arms|
    ensures ArmFall(tag, arms[i..], ArmPos(tag, arms, p, i))
            == if i + 1 < |arms| then Starts(tag, arms, p)[i + 1] else p + ArmsLen(tag, arms)
  {
    hide StmtsHoles, PreLen, ArmLen, Starts, FallHoles, ArmPos;
    ArmAt(tag, arms, p, i);
    ArmsEnd(tag, arms, p);
    assert arms[i..][0] == arms[i];
    if i + 1 < |arms| {
      assert arms[i..][1] == arms[i + 1];
      ArmAt(tag, arms, p, i + 1);
    }
  }

  // ----- the switch as a whole -----

  /** When the clauses begin: the loop frame takes the breaks. */
  function SwitchStart(s: State, st: Stmt): State
    requires st.Switch?
  {
    EnterLoop(AfterInit(s.Scope(s.names, |s.names|), st.init))
  }

  function SwitchArms(s: State, st: Stmt): Progress
    requires st.Switch?
  {
    ArmsDone(Progress(SwitchStart(s, st), [], [], []), st.tag, Arms(st.clauses))
  }

  function AfterDefault(s: State, d: Option<Stmts>): State {
    if d.None? then s else AfterBlock(s, d.value).(switches := s.switches)
  }

  function SwitchBody(s: State, st: Stmt): State
    requires st.Switch?
  {
    AfterDefault(SwitchArms(s, st).s, DefaultBody(st.clauses))
  }

  /** Everything filled in but the fallthroughs of arm i and later ones. */
  function Half(i0: seq<byte>, st: Stmt, ns: seq<string>, k: nat, i: nat): seq<byte>
    requires st.Switch?
  {
    var p, arms, d := |i0|, Arms(st.clauses), DefaultBody(st.clauses);
    var pd := p + ArmsLen(st.tag, arms);
    var end := pd + DefaultLen(st.clauses);
    i0 + ArmsCode(st.tag, arms, ns, p, k, end, end, i)
    + ClauseCode(d, ns, pd, k + |ArmsConsts(st.tag, arms)|, Targets(end, 0, 0))
  }

  lemma SwitchStartIs(s: State, st: Stmt)
    requires s.Valid() && st.Switch?
    ensures var s1 := SwitchStart(s, st);
            && s1 == State(s.insts + InitCode(st.init, s.names, |s.insts|, |s.constants|),
                           s.constants + InitConsts(st.init),
                           InitNames(st.init, s.names), |s.names|, Max(s.maxLocals, InitLocals(st.init, |s.names|)),
                           s.loops + [Loop([], [])], s.switches)
            && |s1.names| == InitLocals(st.init, |s.names|) >= |s.names|
  {
    hide InitCode, InitConsts, InitNames, InitLocals, InitLen, AfterInit;
    InitState(s.Scope(s.names, |s.names|), st.init);
  }

  /** The state when the last clause is compiled and the jumps to the end are open. */
  lemma SwitchBodyIs(s: State, st: Stmt)
    requires s.Valid() && st.Switch?
    ensures var s1, w, arms, d := SwitchStart(s, st), SwitchArms(s, st), Arms(st.clauses), DefaultBody(st.clauses);
            var p, k := |s1.insts|, |s1.constants|;
            var pd, kd := p + ArmsLen(st.tag, arms), k + |ArmsConsts(st.tag, arms)|;
            && |w.s.insts| == pd
            && w.outs == OutHoles(st.tag, arms, p) && w.starts == Starts(st.tag, arms, p)
              && w.falls == FallHoles(st.tag, arms, p)
            && SwitchBody(s, st)
               == State(s1.insts + ArmsCode(st.tag, arms, s1.names, p, k, 0, 0, 0)
                        + ClauseCode(d, s1.names, pd, kd, Open),
                        s1.constants + ArmsConsts(st.tag, arms) + ClauseConsts(d), s1.names, s1.start,
                        Max(s.maxLocals, Max(ArmsLocals(arms, |s1.names|), DefaultLocals(st.clauses, |s1.names|))),
                        s.loops + [Loop(BreakHoles(st.tag, arms, p) + ClauseHoles(d, pd, KBreak),
                                        ContinueHoles(st.tag, arms, p) + ClauseHoles(d, pd, KContinue))], s.switches)
  {
    hide AfterInit, SwitchStart, InitCode, InitConsts, InitNames, InitLocals, ClauseCode, ClauseConsts, ClauseHoles,
        ArmsDone, ArmsCode, ArmsLen,
         ArmsConsts, ArmsLocals, OutHoles, BreakHoles, ContinueHoles, Starts, FallHoles, DefaultLocals, DefaultBody,
             Arms, AddJumps,
         AfterDefault, StmtsLocals, SwitchArms;
    SwitchStartIs(s, st);
    SwitchArmsIs(s, st);
    var s1, arms, d, w := SwitchStart(s, st), Arms(st.clauses), DefaultBody(st.clauses), SwitchArms(s, st);
    var pd := |s1.insts| + ArmsLen(st.tag, arms);
    AfterDefaultIs(w.s, d);
    AddMore(s.loops, BreakHoles(st.tag, arms, |s1.insts|), ContinueHoles(st.tag, arms, |s1.insts|),
            ClauseHoles(d, pd, KBreak), ClauseHoles(d, pd, KContinue));
    DefaultIsBody(st.clauses, s1.names, pd, 0, 0);
  }

  lemma SwitchArmsIs(s: State, st: Stmt)
    requires s.Valid() && st.Switch?
    ensures var s1, w, arms := SwitchStart(s, st), SwitchArms(s, st), Arms(st.clauses);
            var p, k := |s1.insts|, |s1.constants|;
            && w.outs == OutHoles(st.tag, arms, p) && w.starts == Starts(st.tag, arms, p)
              && w.falls == FallHoles(st.tag, arms, p)
            && w.s == State(s1.insts + ArmsCode(st.tag, arms, s1.names, p, k, 0, 0, 0),
                            s1.constants + ArmsConsts(st.tag, arms),
                            s1.names, s1.start, Max(s1.maxLocals, ArmsLocals(arms, |s1.names|)),
                            s.loops + [Loop(BreakHoles(st.tag, arms, p), ContinueHoles(st.tag, arms, p))], s.switches)
  {
    hide AfterInit, SwitchStart, InitCode, InitConsts, InitNames, InitLocals, ArmsDone, ArmsCode, ArmsConsts,
         OutHoles, BreakHoles, ContinueHoles, Starts, FallHoles, Arms, AddJumps, StmtsLocals;
    SwitchStartIs(s, st);
    var s1, arms := SwitchStart(s, st), Arms(st.clauses);
    ArmsDoneIs(Progress(s1, [], [], []), st.tag, arms);
    AddToNew(s.loops, BreakHoles(st.tag, arms, |s1.insts|), ContinueHoles(st.tag, arms, |s1.insts|));
  }

  lemma AfterDefaultIs(s: State, d: Option<Stmts>)
    ensures var p := |s.insts|;
            AfterDefault(s, d)
            == State(s.insts + ClauseCode(d, s.names, p, |s.constants|, Open), s.constants + ClauseConsts(d), s.names,
                     s.start,
                     if d.None? then s.maxLocals else Max(s.maxLocals, StmtsLocals(d.value, |s.names|)),
                     AddJumps(s.loops, ClauseHoles(d, p, KBreak), ClauseHoles(d, p, KContinue)), s.switches)
  {
    hide StmtsCode, StmtsConsts, StmtsLocals, StmtsHoles, StmtsNames, AddJumps, AddFalls;
    if d.None? {
      AddNothing(s.loops, s.switches);
      assert s.insts + [] == s.insts && s.constants + [] == s.constants;
    }
  }

  lemma AddMore(loops: seq<Loop>, b: seq<nat>, c: seq<nat>, b2: seq<nat>, c2: seq<nat>)
    ensures AddJumps(loops + [Loop(b, c)], b2, c2) == loops + [Loop(b + b2, c + c2)]
    ensures b2 == [] ==> b + b2 == b
    ensures c2 == [] ==> c + c2 == c
  {
    assert (loops + [Loop(b, c)])[..|loops|] == loops;
  }

  lemma BodyFills(pre: seq<byte>, d: Option<Stmts>, names: seq<string>, k: nat, end: nat)
    ensures Fills(pre, ClauseCode(d, names, |pre|, k, Open), ClauseHoles(d, |pre|, KBreak), end,
                  ClauseCode(d, names, |pre|, k, Targets(end, 0, 0)))
  {
    hide Fills, StmtsCode, StmtsHoles;
    if d.None? {
      FillsNothing(pre, [], end);
    } else {
      StmtsFills(pre, d.value, names, k, Open, KBreak, end);
    }
  }

  /** The jumps at the ends of the cases and the breaks go to the end of the switch. */
  lemma OutsAndBreaks(i0: seq<byte>, st: Stmt, ns: seq<string>, k: nat)
    requires st.Switch?
    ensures var p, arms, d := |i0|, Arms(st.clauses), DefaultBody(st.clauses);
            var pd, kd := p + ArmsLen(st.tag, arms), k + |ArmsConsts(st.tag, arms)|;
            var end := pd + DefaultLen(st.clauses);
            var c0 := i0 + ArmsCode(st.tag, arms, ns, p, k, 0, 0, 0) + ClauseCode(d, ns, pd, kd, Open);
            var c1 := Patch(c0, OutHoles(st.tag, arms, p), end);
            var hb := BreakHoles(st.tag, arms, p) + ClauseHoles(d, pd, KBreak);
            && |c0| == end
            && PatchOk(c0, OutHoles(st.tag, arms, p), end) && PatchOk(c1, hb, end)
            && Patch(c1, hb, end) == Half(i0, st, ns, k, 0)
  {
    hide Fills, Patch, PatchOk, ArmsCode, ArmsLen, ArmsConsts, Arms, DefaultBody, DefaultLen, OutHoles, BreakHoles,
        ClauseHoles, ClauseCode;
    var p, arms, d := |i0|, Arms(st.clauses), DefaultBody(st.clauses);
    var pd, kd := p + ArmsLen(st.tag, arms), k + |ArmsConsts(st.tag, arms)|;
    var end := pd + DefaultLen(st.clauses);
    DefaultIsBody(st.clauses, ns, pd, kd, 0);
    BodyLength(d, ns, pd, kd);
    var a, b := ArmsCode(st.tag, arms, ns, p, k, 0, 0, 0), ClauseCode(d, ns, pd, kd, Open);
    var a1, a2 := ArmsCode(st.tag, arms, ns, p, k, end, 0, 0), ArmsCode(st.tag, arms, ns, p, k, end, end, 0);
    var b2 := ClauseCode(d, ns, pd, kd, Targets(end, 0, 0));
    OutsFill(i0, st.tag, arms, ns, k, 0, end, 0, 0);
    FillsAt(i0, a, OutHoles(st.tag, arms, p), end, a1, b);
    BreaksFill(i0, st.tag, arms, ns, k, end, 0, end, 0);
    BodyFills(i0 + a2, d, ns, kd, end);
    FillsBoth(i0, a1, b, BreakHoles(st.tag, arms, p), ClauseHoles(d, pd, KBreak), end, a2, b2);
    FillsAt(i0, a1 + b, BreakHoles(st.tag, arms, p) + ClauseHoles(d, pd, KBreak), end, a2 + b2, []);
    Nothing(i0, a1, b);
    Nothing(i0, a2, b2);
  }

  lemma Nothing(i: seq<byte>, a: seq<byte>, b: seq<byte>)
    ensures i + (a + b) + [] == i + a + b
  {
  }

  lemma BodyLength(d: Option<Stmts>, names: seq<string>, p: nat, k: nat)
    ensures forall t :: |ClauseCode(d, names, p, k, t)| == |ClauseCode(d, names, p, k, Open)|
    ensures |ClauseCode(d, names, p, k, Open)| == if d.None? then 0 else StmtsLen(d.value)
  {
    hide StmtsCode, StmtsLen;
  }

  /** The fallthroughs of one more case are filled in. */
  lemma FallStep(i0: seq<byte>, st: Stmt, ns: seq<string>, k: nat, i: nat)
    requires st.Switch? && i < |Arms(st.clauses)|
    ensures var p, arms := |i0|, Arms(st.clauses);
            && |FallHoles(st.tag, arms, p)| == |Starts(st.tag, arms, p)| == |arms|
            && var t := if i + 1 < |arms| then Starts(st.tag, arms, p)[i + 1] else p + ArmsLen(st.tag, arms);
            && var hs := FallHoles(st.tag, arms, p)[i];
            && PatchOk(Half(i0, st, ns, k, i), hs, t)
              && Patch(Half(i0, st, ns, k, i), hs, t) == Half(i0, st, ns, k, i + 1)
  {
    hide Fills, Patch, PatchOk, ArmsCode, ArmsLen, ArmsConsts, Arms, DefaultBody, DefaultLen, FallHoles, Starts,
        ClauseCode,
         StmtsHoles, PreLen, ArmPos, ArmFall;
    var p, arms, d := |i0|, Arms(st.clauses), DefaultBody(st.clauses);
    var pd, kd := p + ArmsLen(st.tag, arms), k + |ArmsConsts(st.tag, arms)|;
    var end := pd + DefaultLen(st.clauses);
    ArmAt(st.tag, arms, p, i);
    FallsTo(st.tag, arms, p, i);
    FallsFill(i0, st.tag, arms, ns, k, end, end, i);
    FillsAt(i0, ArmsCode(st.tag, arms, ns, p, k, end, end, i), FallHoles(st.tag, arms, p)[i],
            ArmFall(st.tag, arms[i..], ArmPos(st.tag, arms, p, i)), ArmsCode(st.tag, arms, ns, p, k, end, end, i + 1),
            ClauseCode(d, ns, pd, kd, Targets(end, 0, 0)));
  }

  /** All jumps filled in, the state is the one behind the switch. */
  lemma SwitchDone(s: State, st: Stmt)
    requires s.Valid() && st.Switch?
    ensures var s1 := SwitchStart(s, st);
            AfterStmt(s, st)
            == SwitchBody(s, st).(loops := s.loops)
               .Code(Half(s1.insts, st, s1.names, |s1.constants|, |Arms(st.clauses)|)).Scope(s.names, s.start)
  {
    hide InitCode, InitConsts, InitNames, InitLocals, InitLen, AfterInit, SwitchStart, SwitchBody, StmtCode, StmtConsts,
        StmtLocals, StmtLen,
         StmtNeed, CasesCode, CasesConsts, CasesLen, CasesLocals, DefaultCode, DefaultConsts, DefaultLen, DefaultLocals,
         ArmsCode, ArmsLen, ArmsConsts, ArmsLocals, ClauseCode, ClauseConsts, ClauseHoles, Arms, DefaultBody, AddJumps,
             AddFalls,
         BreakHoles, ContinueHoles, SwitchArms, StmtsLocals, CasesNeed, DefaultNeed, InitNeed, StmtHoles, HasDefault,
             DefaultOk, CasesOk;
    SwitchStartIs(s, st);
    SwitchBodyIs(s, st);
    SwitchHoles(st, |s.insts|);
    AddNothing(s.loops, s.switches);
    SwitchHalf(s, st);
    SwitchLocals(st, |s.names|);
    var s1, arms, d := SwitchStart(s, st), Arms(st.clauses), DefaultBody(st.clauses);
    var pd := |s1.insts| + ArmsLen(st.tag, arms);
    ArmsAddUp(st.clauses, st.tag, |s1.names|);
    DefaultIsBody(st.clauses, s1.names, pd, 0, 0);
    SwitchSizes(st, s.names, s.start, s.Ctx());
    assert s.constants + (InitConsts(st.init) + CasesConsts(st.clauses, st.tag) + DefaultConsts(st.clauses))
        == s.constants + InitConsts(st.init) + CasesConsts(st.clauses, st.tag) + DefaultConsts(st.clauses);
  }

  lemma SwitchLocals(st: Stmt, n: nat)
    requires st.Switch?
    ensures StmtLocals(st, n) == Max(CasesLocals(st.clauses, InitLocals(st.init, n)),
                                     DefaultLocals(st.clauses, InitLocals(st.init, n)))
  {
    hide CasesLocals, DefaultLocals, InitLocals;
  }

  lemma SwitchHoles(st: Stmt, p: nat)
    requires st.Switch?
    ensures forall kd :: StmtHoles(st, p, kd) == []
  {
  }

  lemma SwitchHalf(s: State, st: Stmt)
    requires s.Valid() && st.Switch?
    ensures var s1 := SwitchStart(s, st);
            Half(s1.insts, st, s1.names, |s1.constants|, |Arms(st.clauses)|)
            == s.insts + StmtCode(st, s.names, |s.insts|, |s.constants|, Open)
  {
    hide InitCode, InitConsts, InitNames, InitLocals, InitLen, AfterInit, SwitchStart, StmtCode,
         CasesCode, CasesConsts, CasesLen, DefaultCode, DefaultLen, ArmsCode, ArmsLen, ArmsConsts, ClauseCode, Arms,
             DefaultBody;
    SwitchStartIs(s, st);
    var p, k := |s.insts|, |s.constants|;
    SwitchShape(st, s.names, p, k, Open);
    var s1 := SwitchStart(s, st);
    var pc, kc := |s1.insts|, |s1.constants|;
    var pd := pc + CasesLen(st.clauses, st.tag);
    var end := pd + DefaultLen(st.clauses);
    ArmsAreCases(st.clauses, st.tag, s1.names, pc, kc, end);
    ArmsAddUp(st.clauses, st.tag, 0);
    DefaultIsBody(st.clauses, s1.names, pd, kc + |CasesConsts(st.clauses, st.tag)|, end);
    FourParts(s.insts, InitCode(st.init, s.names, p, k), CasesCode(st.clauses, st.tag, s1.names, pc, kc, end),
              DefaultCode(st.clauses, s1.names, pd, kc + |CasesConsts(st.clauses, st.tag)|, end));
  }

  /** What the compiler checks, and when: the open continues at the end of the switch. */
  lemma SwitchOkIs(s: State, st: Stmt)
    requires s.Valid() && st.Switch?
    ensures var s1, arms, d := SwitchStart(s, st), Arms(st.clauses), DefaultBody(st.clauses);
            && s1.Valid() && s1.names == InitNames(st.init, s.names) && s1.start == |s.names|
            && |SwitchBody(s, st).loops| == |s.loops| + 1
            && (StmtOk(st, s.names, s.start, s.Ctx()) <==>
                && InitOk(st.init, s.names, |s.names|) && OneDefault(st.clauses)
                && ArmsOk(st.tag, arms, s1.names, d.Some?) && ClauseOk(d, s1.names)
                && SwitchBody(s, st).loops[|s.loops|].continues == [])
  {
    hide InitCode, InitConsts, InitNames, InitLocals, InitLen, AfterInit, SwitchStart, SwitchBody, StmtOk, InitOk,
        CasesOk, DefaultOk,
         ArmsCode, ArmsLen, ArmsConsts, ArmsLocals, ClauseCode, ClauseConsts, ClauseHoles, Arms, DefaultBody,
             HasDefault, OneDefault,
         BreakHoles, ContinueHoles, SwitchArms, ArmsOk, ClauseOk, Starts, FallHoles, OutHoles, DefaultLocals;
    SwitchStartIs(s, st);
    SwitchBodyIs(s, st);
    var s1, arms := SwitchStart(s, st), Arms(st.clauses);
    CasesAreOk(st.clauses, st.tag, s1.names, HasDefault(st.clauses), |s1.insts|);
    DefaultIsOk(st.clauses, s1.names, |s1.insts| + ArmsLen(st.tag, arms));
    DefaultThere(st.clauses);
    SwitchOk(st, s.names, s.start, s.Ctx());
  }

  lemma SwitchOk(s: Stmt, names: seq<string>, start: nat, c: Context)
    requires s.Switch? && start <= |names|
    ensures var ns := InitNames(s.init, names);
            StmtOk(s, names, start, c)
            <==> InitOk(s.init, names, |names|) && CasesOk(s.clauses, s.tag, ns, HasDefault(s.clauses))
                 && DefaultOk(s.clauses, ns)
  {
    hide InitOk, InitNames, CasesOk, DefaultOk, HasDefault;
  }

  /** The patching that SwitchDone relies on is possible and leads to Half. */
  lemma SwitchPatches(s: State, st: Stmt)
    requires s.Valid() && st.Switch?
    ensures var s1, w, b := SwitchStart(s, st), SwitchArms(s, st), SwitchBody(s, st);
            && |b.loops| == |s.loops| + 1 && b.loops[..|s.loops|] == s.loops && b.names == s1.names
              && b.start == s1.start
            && w.starts == Starts(st.tag, Arms(st.clauses), |s1.insts|)
              && w.falls == FallHoles(st.tag, Arms(st.clauses), |s1.insts|)
            && |w.s.insts| == |s1.insts| + ArmsLen(st.tag, Arms(st.clauses))
            && var c1 := Patch(b.insts, w.outs, |b.insts|);
            && PatchOk(b.insts, w.outs, |b.insts|) && PatchOk(c1, b.loops[|s.loops|].breaks, |b.insts|)
            && Patch(c1, b.loops[|s.loops|].breaks, |b.insts|) == Half(s1.insts, st, s1.names, |s1.constants|, 0)
  {
    hide AfterInit, SwitchStart, SwitchArms, SwitchBody, ArmsCode, ArmsConsts, ArmsLocals, ClauseCode, ClauseConsts,
        ClauseHoles, Arms,
         DefaultBody, DefaultLocals, DefaultLen, BreakHoles, ContinueHoles, OutHoles, Starts, FallHoles, ArmsLen, Half,
             Patch, PatchOk;
    SwitchBodyIs(s, st);
    OutsAndBreaks(SwitchStart(s, st).insts, st, SwitchStart(s, st).names, |SwitchStart(s, st).constants|);
  }

  /** The cases do not look at the frames a fallthrough is entered in. */
  lemma SwitchArmsGive(s: State, st: Stmt, sw: seq<SwitchCtx>)
    requires s.Valid() && st.Switch?
    ensures var w, s1 := SwitchArms(s, st), SwitchStart(s, st);
            && ArmsDone(Progress(s1.(switches := sw), [], [], []), st.tag, Arms(st.clauses))
              == w.(s := w.s.(switches := sw))
            && w.s.Valid() && w.s.loops != [] && w.s.switches == s.switches && w.s.names == s1.names
              && w.s.start == s1.start
  {
    hide AfterInit, SwitchStart, ArmsDone, ArmsCode, ArmsConsts, BreakHoles, ContinueHoles, OutHoles, Starts, FallHoles,
        Arms, AddJumps,
         InitCode, InitConsts, InitNames, InitLocals, ArmsLocals;
    SwitchStartIs(s, st);
    var s1 := SwitchStart(s, st);
    ArmsDoneIs(Progress(s1, [], [], []), st.tag, Arms(st.clauses));
    ArmsDoneIs(Progress(s1.(switches := sw), [], [], []), st.tag, Arms(st.clauses));
    SwitchArmsIs(s, st);
  }

  lemma DefaultApart(s: State, d: Stmts, sw: seq<SwitchCtx>)
    requires sw != []
    ensures AfterBlock(s.(switches := sw), d).(switches := s.switches) == AfterDefault(s, Some(d))
    ensures |AfterBlock(s.(switches := sw), d).switches| == |sw|
    ensures AfterBlock(s.(switches := sw), d).switches[..|sw| - 1] == sw[..|sw| - 1]
  {
    hide StmtsCode, StmtsConsts, StmtsLocals, StmtsHoles, StmtsNames, AddJumps;
  }

  lemma SwitchBodyFrom(s: State, st: Stmt)
    requires st.Switch?
    ensures SwitchBody(s, st) == AfterDefault(SwitchArms(s, st).s, DefaultBody(st.clauses))
    ensures DefaultBody(st.clauses).None? ==> SwitchBody(s, st) == SwitchArms(s, st).s
  {
    hide SwitchArms, DefaultBody, AfterBlock;
  }

  lemma SwitchStages(s: State, st: Stmt)
    requires s.Valid() && st.Switch?
    ensures var s1 := SwitchStart(s, st);
            s1.Valid() && s1.switches == s.switches && s1.loops == s.loops + [Loop([], [])]
  {
    hide InitCode, InitConsts, InitNames, InitLocals, AfterInit, SwitchStart;
    SwitchStartIs(s, st);
  }
}
