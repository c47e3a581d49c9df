/** The stages of compiling a switch. */
module SwitchState {
  import opened Wrappers
  import opened Instructions
  import opened Language
  import opened CodeGen
  import opened Backpatch
  import opened CompilerState

  // ----- the clauses -----

  function DefaultBody(cl: Clauses): Option<Stmts> {
    match cl
    case NoMore => None
    case Default(body, _) => Some(body)
    case Case(_, _, rest) => DefaultBody(rest)
  }

  predicate OneDefault(cl: Clauses) {
    match cl
    case NoMore => true
    case Default(_, rest) => !HasDefault(rest)
    case Case(_, _, rest) => OneDefault(rest)
  }

  lemma {:induction false} ArmSmaller(cl: Clauses, i: nat)
    requires i < |Arms(cl)|
    ensures Arms(cl)[i].body < cl
  {
    match cl
    case Default(_, rest) => ArmSmaller(rest, i);
    case Case(_, _, rest) => if i > 0 { ArmSmaller(rest, i - 1); }
  }

  lemma {:induction false} DefaultSmaller(cl: Clauses)
    requires DefaultBody(cl).Some?
    ensures DefaultBody(cl).value < cl
  {
    if cl.Case? { DefaultSmaller(cl.rest); }
  }

  lemma {:induction false} DefaultThere(cl: Clauses)
    ensures HasDefault(cl) <==> DefaultBody(cl).Some?
  {
    if cl.Case? { DefaultThere(cl.rest); }
  }

  lemma {:induction false} HasCaseIs(cl: Clauses)
    ensures HasCase(cl) <==> Arms(cl) != []
  {
    if cl.Default? { HasCaseIs(cl.rest); }
  }

  // ----- what the cases add -----

  function ArmsConsts(tag: Option<Expr>, arms: seq<Arm>): seq<Value> {
    if arms == [] then [] else ArmConsts(tag, arms[0]) + ArmsConsts(tag, arms[1..])
  }

  function ArmsLocals(arms: seq<Arm>, n: nat): (m: nat)
    ensures n <= m
  {
    if arms == [] then n else Max(StmtsLocals(arms[0].body, n), ArmsLocals(arms[1..], n))
  }

  function BodyPos(tag: Option<Expr>, a: Arm, p: nat): nat { p + PreLen(tag, a.exprs) }

  function ContinueHoles(tag: Option<Expr>, arms: seq<Arm>, p: nat): seq<nat> {
    if arms == [] then []
    else
      StmtsHoles(arms[0].body, BodyPos(tag, arms[0], p), KContinue)
      + ContinueHoles(tag, arms[1..], p + ArmLen(tag, arms[0]))
  }

  function Starts(tag: Option<Expr>, arms: seq<Arm>, p: nat): seq<nat> {
    if arms == [] then [] else [BodyPos(tag, arms[0], p)] + Starts(tag, arms[1..], p + ArmLen(tag, arms[0]))
  }

  function FallHoles(tag: Option<Expr>, arms: seq<Arm>, p: nat): seq<seq<nat>> {
    if arms == [] then []
    else
      [StmtsHoles(arms[0].body, BodyPos(tag, arms[0], p), KFallthrough)]
      + FallHoles(tag, arms[1..], p + ArmLen(tag, arms[0]))
  }

  /** The compiler accepts the cases; a continue is found out later. */
  predicate ArmsOk(tag: Option<Expr>, arms: seq<Arm>, names: seq<string>, dflt: bool) {
    arms == [] || (ArmOk(tag, arms[0], names, |arms| > 1 || dflt) && ArmsOk(tag, arms[1..], names, dflt))
  }

  predicate ArmOk(tag: Option<Expr>, a: Arm, names: seq<string>, fallOk: bool) {
    a.exprs != [] && PreOk(tag, a.exprs, names) && StmtsOk(a.body, names, |names|, Context(LoopFrame, fallOk))
  }

  /** The compiler's state and what it remembers about the cases it has compiled: the jumps to the
      end, where the bodies start, the fallthroughs in each. */
  datatype Progress = Progress(s: State, outs: seq<nat>, starts: seq<nat>, falls: seq<seq<nat>>)

  /** After one more case, its miss jump filled in. */
  function ArmDone(w: Progress, tag: Option<Expr>, a: Arm): Progress {
    var p, k := |w.s.insts|, |w.s.constants|;
    var pb, next := BodyPos(tag, a, p), p + ArmLen(tag, a);
    Progress(State(w.s.insts + ArmCode(tag, a, w.s.names, p, k, next, 0, 0, 0), w.s.constants + ArmConsts(tag, a),
                   w.s.names, w.s.start, Max(w.s.maxLocals, StmtsLocals(a.body, |w.s.names|)),
                   AddJumps(w.s.loops, StmtsHoles(a.body, pb, KBreak), StmtsHoles(a.body, pb, KContinue)),
                       w.s.switches),
             w.outs + [next - 3], w.starts + [pb], w.falls + [StmtsHoles(a.body, pb, KFallthrough)])
  }

  function ArmsDone(w: Progress, tag: Option<Expr>, arms: seq<Arm>): Progress
    decreases |arms|
  {
    if arms == [] then w else ArmsDone(ArmDone(w, tag, arms[0]), tag, arms[1..])
  }

  /** The same in one step. */
  function AllArms(w: Progress, tag: Option<Expr>, arms: seq<Arm>): Progress {
    var p := |w.s.insts|;
    Progress(State(w.s.insts + ArmsCode(tag, arms, w.s.names, p, |w.s.constants|, 0, 0, 0),
                   w.s.constants + ArmsConsts(tag, arms),
                   w.s.names, w.s.start,
                   if arms == [] then w.s.maxLocals else Max(w.s.maxLocals, ArmsLocals(arms, |w.s.names|)),
                   AddJumps(w.s.loops, BreakHoles(tag, arms, p), ContinueHoles(tag, arms, p)), w.s.switches),
             w.outs + OutHoles(tag, arms, p), w.starts + Starts(tag, arms, p), w.falls + FallHoles(tag, arms, p))
  }

  lemma {:induction false} ArmsDoneIs(w: Progress, tag: Option<Expr>, arms: seq<Arm>)
    ensures ArmsDone(w, tag, arms) == AllArms(w, tag, arms)
    decreases |arms|
  {
    hide AllArms, ArmDone;
    if arms == [] {
      NothingDone(w, tag);
    } else {
      ArmsDoneIs(ArmDone(w, tag, arms[0]), tag, arms[1..]);
      ArmThenRest(w, tag, arms);
    }
  }

  lemma ArmThenRest(w: Progress, tag: Option<Expr>, arms: seq<Arm>)
    requires arms != []
    ensures AllArms(ArmDone(w, tag, arms[0]), tag, arms[1..]) == AllArms(w, tag, arms)
  {
    hide ArmCode, ArmLen, ArmConsts, ArmsCode, ArmsConsts, ArmsLocals, StmtsHoles, StmtsLocals, AddJumps, PreLen,
         BreakHoles, ContinueHoles, OutHoles, Starts, FallHoles;
    var a, p, k := arms[0], |w.s.insts|, |w.s.constants|;
    var pb, next, k1 := BodyPos(tag, a, p), p + ArmLen(tag, a), k + |ArmConsts(tag, a)|;
    ArmsFirst(tag, arms, w.s.names, p, k);
    Tail(w.s.insts, ArmCode(tag, a, w.s.names, p, k, next, 0, 0, 0),
         ArmsCode(tag, arms[1..], w.s.names, next, k1, 0, 0, 0));
    ListTails(w.s.constants, ArmConsts(tag, a), ArmsConsts(tag, arms[1..]));
    AddJumpsTwice(w.s.loops, StmtsHoles(a.body, pb, KBreak), StmtsHoles(a.body, pb, KContinue),
                  BreakHoles(tag, arms[1..], next), ContinueHoles(tag, arms[1..], next));
    ListTails(w.outs, [next - 3], OutHoles(tag, arms[1..], next));
    ListTails(w.starts, [pb], Starts(tag, arms[1..], next));
    ListTails(w.falls, [StmtsHoles(a.body, pb, KFallthrough)], FallHoles(tag, arms[1..], next));
  }

  lemma ArmsFirst(tag: Option<Expr>, arms: seq<Arm>, names: seq<string>, p: nat, k: nat)
    requires arms != []
    ensures var a, rest, next, pb := arms[0], arms[1..], p + ArmLen(tag, arms[0]), BodyPos(tag, arms[0], p);
            && ArmsCode(tag, arms, names, p, k, 0, 0, 0)
               == ArmCode(tag, a, names, p, k, next, 0, 0, 0)
                   + ArmsCode(tag, rest, names, next, k + |ArmConsts(tag, a)|, 0, 0, 0)
            && ArmsConsts(tag, arms) == ArmConsts(tag, a) + ArmsConsts(tag, rest)
            && OutHoles(tag, arms, p) == [next - 3] + OutHoles(tag, rest, next)
            && Starts(tag, arms, p) == [pb] + Starts(tag, rest, next)
            && FallHoles(tag, arms, p) == [StmtsHoles(a.body, pb, KFallthrough)] + FallHoles(tag, rest, next)
            && BreakHoles(tag, arms, p) == StmtsHoles(a.body, pb, KBreak) + BreakHoles(tag, rest, next)
            && ContinueHoles(tag, arms, p) == StmtsHoles(a.body, pb, KContinue) + ContinueHoles(tag, rest, next)
    ensures var n, rest := |names|, arms[1..];
            && ArmsLocals(arms, n) == Max(StmtsLocals(arms[0].body, n), ArmsLocals(rest, n))
            && (rest == [] ==> ArmsLocals(rest, n) == n)
  {
    hide ArmCode, ArmLen, ArmConsts, StmtsHoles, StmtsLocals, PreLen;
  }

  lemma NothingDone(w: Progress, tag: Option<Expr>)
    ensures AllArms(w, tag, []) == w
  {
    AddNothing(w.s.loops, w.s.switches);
  }

  lemma ListTails<T>(x: seq<T>, y: seq<T>, z: seq<T>)
    ensures x + (y + z) == x + y + z
  {
  }

  // ----- one case -----

  /** The state when the comparisons in rest are done too, and the jumps to the body by then. */
  function PreRest(s: State, hits: seq<nat>, tag: Option<Expr>, rest: seq<Expr>): (State, seq<nat>) {
    if rest == [] then (s.Append(Jump(OpJumpFalsy, 0), []), hits)
    else (s.Append(PreCode(tag, rest, s.names, |s.insts|, |s.constants|, 0, 0), PreConsts(tag, rest)),
          hits + HitHoles(tag, rest, |s.insts|))
  }

  lemma PreLast(s: State, hits: seq<nat>, tag: Option<Expr>, rest: seq<Expr>)
    requires |rest| == 1
    ensures PreRest(AfterExpr(s, Comparison(tag, rest[0])), hits, tag, rest[1..]) == PreRest(s, hits, tag, rest)
  {
    hide ExprCode, ExprConsts, ExprLen, Comparison, Jump;
    var c := Comparison(tag, rest[0]);
    Tail(s.insts, ExprCode(c, s.names, |s.insts|, |s.constants|), Jump(OpJumpFalsy, 0));
    assert rest[1..] == [] && hits + [] == hits;
    assert PreConsts(tag, rest) == ExprConsts(c) + PreConsts(tag, rest[1..]) == ExprConsts(c);
    assert s.constants + ExprConsts(c) + [] == s.constants + ExprConsts(c);
    assert HitHoles(tag, rest, |s.insts|) == [];
    assert PreCode(tag, rest, s.names, |s.insts|, |s.constants|, 0, 0)
        == ExprCode(c, s.names, |s.insts|, |s.constants|) + Jump(OpJumpFalsy, 0);
  }

  /** A comparison that is not the last: on a miss go on, on a hit jump to the body. */
  function PreNext(s: State, tag: Option<Expr>, e: Expr): State {
    var s1 := AfterExpr(s, Comparison(tag, e));
    s1.Code(s1.insts + Jump(OpJumpFalsy, 0) + Jump(OpJump, 0))
  }

  lemma PreStep(s: State, hits: seq<nat>, tag: Option<Expr>, rest: seq<Expr>)
    requires |rest| > 1
    ensures var p1, s2 := |AfterExpr(s, Comparison(tag, rest[0])).insts|, PreNext(s, tag, rest[0]);
            && p1 + 6 == |s2.insts| && IsJump(s2.insts[p1])
            && PreRest(s2.Code(PatchOne(s2.insts, p1, |s2.insts|)), hits + [p1 + 3], tag, rest[1..])
              == PreRest(s, hits, tag, rest)
  {
    hide ExprCode, ExprConsts, ExprLen, Comparison, Jump, PreCode, PreConsts, HitHoles, PatchOne;
    var c, p, k := Comparison(tag, rest[0]), |s.insts|, |s.constants|;
    var x, p1, k1 := ExprCode(c, s.names, p, k), p + ExprLen(c), k + |ExprConsts(c)|;
    JumpThere(s.insts + x, OpJumpFalsy, 0, Jump(OpJump, 0));
    PatchJump(s.insts + x, OpJumpFalsy, 0, Jump(OpJump, 0), p1 + 6);
    PreFirst(tag, rest, s.names, p, k);
    FiveParts(s.insts, x, Jump(OpJumpFalsy, p1 + 6), Jump(OpJump, 0),
              PreCode(tag, rest[1..], s.names, p1 + 6, k1, 0, 0), []);
    Dropped(s.insts, x, Jump(OpJumpFalsy, p1 + 6), Jump(OpJump, 0), PreCode(tag, rest[1..], s.names, p1 + 6, k1, 0, 0));
    ListTails(hits, [p1 + 3], HitHoles(tag, rest[1..], p1 + 6));
    ListTails(s.constants, ExprConsts(c), PreConsts(tag, rest[1..]));
  }

  lemma Dropped(i: seq<byte>, x: seq<byte>, a: seq<byte>, b: seq<byte>, c: seq<byte>)
    ensures i + (x + (a + b + c)) == i + x + a + b + c
  {
  }

  lemma PreFirst(tag: Option<Expr>, rest: seq<Expr>, names: seq<string>, p: nat, k: nat)
    requires |rest| > 1
    ensures var c := Comparison(tag, rest[0]);
            var p1, k1 := p + ExprLen(c), k + |ExprConsts(c)|;
            && PreCode(tag, rest, names, p, k, 0, 0)
               == ExprCode(c, names, p, k)
                  + (Jump(OpJumpFalsy, p1 + 6) + Jump(OpJump, 0) + PreCode(tag, rest[1..], names, p1 + 6, k1, 0, 0))
            && PreConsts(tag, rest) == ExprConsts(c) + PreConsts(tag, rest[1..])
            && HitHoles(tag, rest, p) == [p1 + 3] + HitHoles(tag, rest[1..], p1 + 6)
  {
    hide ExprCode, ExprConsts, ExprLen, Comparison, Jump;
  }

  /** The state behind a case whose jumps are all open. */
  function AfterArm(s: State, tag: Option<Expr>, a: Arm): State {
    var p, k := |s.insts|, |s.constants|;
    var pb := BodyPos(tag, a, p);
    State(s.insts + ArmCode(tag, a, s.names, p, k, 0, 0, 0, 0), s.constants + ArmConsts(tag, a), s.names, s.start,
          Max(s.maxLocals, StmtsLocals(a.body, |s.names|)),
          AddJumps(s.loops, StmtsHoles(a.body, pb, KBreak), StmtsHoles(a.body, pb, KContinue)), s.switches)
  }

  function ArmPre(s: State, tag: Option<Expr>, a: Arm): State { PreRest(s, [], tag, a.exprs).0 }

  function ArmHits(s: State, tag: Option<Expr>, a: Arm): seq<nat> { PreRest(s, [], tag, a.exprs).1 }

  /** The comparisons with their jumps to the body filled in. */
  function ArmHead(s: State, tag: Option<Expr>, a: Arm): State {
    ArmPre(s, tag, a).Code(Patch(ArmPre(s, tag, a).insts, ArmHits(s, tag, a), |ArmPre(s, tag, a).insts|))
  }

  lemma ArmHeadIs(s: State, tag: Option<Expr>, a: Arm)
    requires a.exprs != []
    ensures PatchOk(ArmPre(s, tag, a).insts, ArmHits(s, tag, a), |ArmPre(s, tag, a).insts|)
    ensures var p, k := |s.insts|, |s.constants|;
            && |ArmHead(s, tag, a).insts| == BodyPos(tag, a, p) >= 3
            && ArmHead(s, tag, a) == s.Append(PreCode(tag, a.exprs, s.names, p, k, BodyPos(tag, a, p), 0),
                                              PreConsts(tag, a.exprs))
  {
    hide PreCode, PreLen, PreConsts, HitHoles, Patch, PatchOk, Fills;
    var p, k := |s.insts|, |s.constants|;
    var pb := BodyPos(tag, a, p);
    HitsFill(s.insts, tag, a.exprs, s.names, k, 0, pb, 0);
    MissFills(s.insts, tag, a.exprs, s.names, k, pb, 0, 0);
    var x, x' := PreCode(tag, a.exprs, s.names, p, k, 0, 0), PreCode(tag, a.exprs, s.names, p, k, pb, 0);
    FillsAt(s.insts, x, HitHoles(tag, a.exprs, p), pb, x', []);
    assert s.insts + x + [] == s.insts + x && s.insts + x' + [] == s.insts + x';
    assert [] + HitHoles(tag, a.exprs, p) == HitHoles(tag, a.exprs, p);
  }

  lemma ArmState(s: State, tag: Option<Expr>, a: Arm)
    requires a.exprs != [] && s.switches != [] && s.switches[|s.switches| - 1].fallthroughs == []
    ensures var s1, pb := AfterBlock(ArmHead(s, tag, a), a.body), BodyPos(tag, a, |s.insts|);
            && s1.switches == s.switches[..|s.switches| - 1]
                              + [s.switches[|s.switches| - 1].(fallthroughs := StmtsHoles(a.body, pb, KFallthrough))]
            && s1.(insts := s1.insts + Jump(OpJump, 0), switches := s.switches) == AfterArm(s, tag, a)
  {
    hide PreCode, PreConsts, PreLen, StmtsCode, StmtsConsts, StmtsLen, StmtsHoles, StmtsLocals, StmtsNames, ArmHead,
        AddJumps, Jump;
    ArmHeadIs(s, tag, a);
    var p, k := |s.insts|, |s.constants|;
    var pb, kb := BodyPos(tag, a, p), k + |PreConsts(tag, a.exprs)|;
    FourParts(s.insts, PreCode(tag, a.exprs, s.names, p, k, pb, 0), StmtsCode(a.body, s.names, pb, kb, Open),
              Jump(OpJump, 0));
    ListTails(s.constants, PreConsts(tag, a.exprs), StmtsConsts(a.body));
    assert [] + StmtsHoles(a.body, pb, KFallthrough) == StmtsHoles(a.body, pb, KFallthrough);
  }

  /** The miss jump learns where the next case begins. */
  lemma ArmThenMiss(w: Progress, tag: Option<Expr>, a: Arm)
    requires a.exprs != []
    ensures var s1, w1, pb := AfterArm(w.s, tag, a), ArmDone(w, tag, a), BodyPos(tag, a, |w.s.insts|);
            && 3 <= pb <= |s1.insts| && IsJump(s1.insts[pb - 3])
            && w1.s == s1.Code(PatchOne(s1.insts, pb - 3, |s1.insts|))
            && w1.outs == w.outs + [|s1.insts| - 3]
  {
    hide ArmCode, ArmConsts, ArmLen, PreLen, StmtsHoles, StmtsLocals, AddJumps, PatchOne, Patch, PatchOk, Fills;
    var p, k := |w.s.insts|, |w.s.constants|;
    var pb, next := BodyPos(tag, a, p), p + ArmLen(tag, a);
    ArmMissFills(w.s.insts, tag, a, w.s.names, k, 0, next, 0, 0, 0);
    var x, x' := ArmCode(tag, a, w.s.names, p, k, 0, 0, 0, 0), ArmCode(tag, a, w.s.names, p, k, next, 0, 0, 0);
    FillsAt(w.s.insts, x, [pb - 3], next, x', []);
    assert w.s.insts + x + [] == w.s.insts + x && w.s.insts + x' + [] == w.s.insts + x';
    PatchSingle(w.s.insts + x, pb - 3, next);
  }

  // ----- what the compiler accepts in a case -----

  lemma ComparisonOk(tag: Expr, e: Expr, names: seq<string>)
    ensures ExprOk(Comparison(Some(tag), e), names) <==> ExprOk(tag, names) && ExprOk(e, names)
    ensures BinaryCode(TokEqual) == Op0(OpEqual)
  {
    var c := Binary(TokEqual, tag, e);
    assert ExprOk(c, names) <==> BinaryToken(c.tok) && ExprOk(tag, names) && ExprOk(e, names);
  }

  lemma PreOkFirst(tag: Option<Expr>, rest: seq<Expr>, names: seq<string>)
    requires rest != []
    ensures PreOk(tag, rest, names) <==> ExprOk(Comparison(tag, rest[0]), names) && PreOk(tag, rest[1..], names)
  {
    hide ExprOk, Comparison;
  }

  lemma PreOkNone(tag: Option<Expr>, rest: seq<Expr>, names: seq<string>)
    requires rest == []
    ensures PreOk(tag, rest, names)
  {
  }

  lemma PreRestNone(s: State, hits: seq<nat>, tag: Option<Expr>, rest: seq<Expr>)
    requires rest == []
    ensures PreRest(s, hits, tag, rest) == (s.(insts := s.insts + Jump(OpJumpFalsy, 0)), hits)
  {
    hide Jump;
    assert s.constants + [] == s.constants;
  }

  lemma ArmOkIs(tag: Option<Expr>, a: Arm, names: seq<string>, fallOk: bool)
    ensures ArmOk(tag, a, names, fallOk)
            <==> a.exprs != [] && PreOk(tag, a.exprs, names)
                 && StmtsOk(a.body, names, |names|, Context(LoopFrame, fallOk))
  {
    hide PreOk, StmtsOk;
  }

  /** The comparisons leave the frames alone, and do not depend on them. */
  lemma PreKeeps(s: State, tag: Option<Expr>, exprs: seq<Expr>)
    ensures var r := PreRest(s, [], tag, exprs).0;
            r.names == s.names && r.start == s.start && r.maxLocals == s.maxLocals && r.loops == s.loops
                && r.switches == s.switches
  {
    hide PreCode, PreConsts, HitHoles, Jump;
  }

  lemma ArmHeadParts(s: State, tag: Option<Expr>, a: Arm)
    ensures ArmHead(s, tag, a)
            == PreRest(s, [], tag, a.exprs).0.(insts := Patch(PreRest(s, [], tag, a.exprs).0.insts,
                                                              PreRest(s, [], tag, a.exprs).1,
                                                              |PreRest(s, [], tag, a.exprs).0.insts|))
  {
    hide PreRest, Patch;
  }

  lemma ArmApart(s: State, sw: seq<SwitchCtx>, tag: Option<Expr>, a: Arm)
    ensures ArmHead(s.(switches := sw), tag, a) == ArmHead(s, tag, a).(switches := sw)
    ensures AfterArm(s.(switches := sw), tag, a) == AfterArm(s, tag, a).(switches := sw)
  {
    hide PreCode, PreConsts, HitHoles, Jump, ArmCode, ArmConsts, StmtsLocals, StmtsHoles, AddJumps, Patch;
  }

  // ----- one case of several -----

  lemma ArmsOkFirst(tag: Option<Expr>, arms: seq<Arm>, names: seq<string>, dflt: bool)
    requires arms != []
    ensures ArmsOk(tag, arms, names, dflt)
            <==> ArmOk(tag, arms[0], names, |arms| > 1 || dflt) && ArmsOk(tag, arms[1..], names, dflt)
    ensures ArmOk(tag, arms[0], names, |arms| > 1 || dflt) ==> arms[0].exprs != []
  {
    hide PreOk, StmtsOk;
  }

  lemma ArmsDoneFirst(w: Progress, tag: Option<Expr>, arms: seq<Arm>)
    requires arms != []
    ensures ArmsDone(w, tag, arms) == ArmsDone(ArmDone(w, tag, arms[0]), tag, arms[1..])
  {
    hide ArmDone;
  }

  lemma ArmsNone(w: Progress, tag: Option<Expr>, arms: seq<Arm>, names: seq<string>, dflt: bool)
    requires arms == []
    ensures ArmsDone(w, tag, arms) == w && ArmsOk(tag, arms, names, dflt)
  {
  }

  /** What compiling a case does, and what is still to be done when the next one begins. */
  lemma ArmGivesProgress(w: Progress, sw: seq<SwitchCtx>, tag: Option<Expr>, a: Arm)
    requires a.exprs != [] && w.s.Valid() && w.s.loops != []
    ensures var s1, w1, pb := AfterArm(w.s.(switches := sw), tag, a), ArmDone(w, tag, a), BodyPos(tag, a, |w.s.insts|);
            && 3 <= pb <= |s1.insts| && IsJump(s1.insts[pb - 3])
            && w1.s == s1.(insts := PatchOne(s1.insts, pb - 3, |s1.insts|), switches := w.s.switches)
            && w1.s.Valid() && w1.s.loops != [] && w1.s.names == w.s.names
            && w1.outs == w.outs + [|s1.insts| - 3] && w1.starts == w.starts + [pb]
            && w1.falls == w.falls + [StmtsHoles(a.body, pb, KFallthrough)]
  {
    hide PatchOne, AfterArm, ArmCode, ArmConsts, ArmLen, StmtsHoles, StmtsLocals, BodyPos;
    ArmThenMiss(w, tag, a);
    ArmApart(w.s, sw, tag, a);
  }
}
