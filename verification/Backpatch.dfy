/** The operands of break, continue and fallthrough jumps are filled in later. Where these holes
    are, and why filling them with a target gives the code for that target. */
module Backpatch {
  import opened Wrappers
  import opened Instructions
  import opened Language
  import opened CodeGen

  datatype Kind = KBreak | KContinue | KFallthrough

  function Retarget(t: Targets, kd: Kind, target: nat): Targets {
    match kd
    case KBreak => t.(brk := target)
    case KContinue => t.(cont := target)
    case KFallthrough => t.(fall := target)
  }

  /** The positions of the jumps of one kind that s, placed at p, leaves to its surroundings. */
  function StmtHoles(s: Stmt, p: nat, kd: Kind): (hs: seq<nat>)
    decreases s, 1
  {
    match s
    case Block(body) => StmtsHoles(body, p, kd)
    case If(init, c, body, els) =>
      var pb := p + InitLen(init) + ExprLen(c) + 3;
      StmtsHoles(body, pb, kd)
      + (if els.Some? then StmtHoles(els.value, pb + StmtsLen(body) + 3, kd) else [])
    case For(init, c, post, body) =>
      if kd == KFallthrough then StmtsHoles(body, p + InitLen(init) + CondLen(c), kd) else []
    case Break => if kd == KBreak then [p] else []
    case Continue => if kd == KContinue then [p] else []
    case Fallthrough => if kd == KFallthrough then [p] else []
    case _ => []
  }

  function StmtsHoles(ss: Stmts, p: nat, kd: Kind): (hs: seq<nat>)
    decreases ss, 0
  {
    match ss
    case Nil => []
    case Cons(s, rest) => StmtHoles(s, p, kd) + StmtsHoles(rest, p + StmtLen(s), kd)
  }

  /** changeOperand: the instruction at h gets the operand t. */
  function PatchOne(code: seq<byte>, h: nat, t: nat): (r: seq<byte>)
    ensures |r| == |code|
  {
    if h + 3 <= |code| then code[..h + 1] + [Hi(t), Lo(t)] + code[h + 3..] else code
  }

  function Patch(code: seq<byte>, hs: seq<nat>, t: nat): (r: seq<byte>)
    ensures |r| == |code|
    decreases |hs|
  {
    if hs == [] then code else Patch(PatchOne(code, hs[0], t), hs[1..], t)
  }

  /** changeOperand finds a jump at every position. */
  predicate PatchOk(code: seq<byte>, hs: seq<nat>, t: nat)
    decreases |hs|
  {
    hs == [] || (hs[0] + 3 <= |code| && IsJump(code[hs[0]]) && PatchOk(PatchOne(code, hs[0], t), hs[1..], t))
  }

  lemma {:induction false} PatchConcat(code: seq<byte>, a: seq<nat>, b: seq<nat>, t: nat)
    ensures Patch(code, a + b, t) == Patch(Patch(code, a, t), b, t)
    ensures PatchOk(code, a, t) && PatchOk(Patch(code, a, t), b, t) ==> PatchOk(code, a + b, t)
    decreases |a|
  {
    hide PatchOne;
    if a == [] {
      assert a + b == b;
    } else {
      assert (a + b)[0] == a[0] && (a + b)[1..] == a[1..] + b;
      PatchConcat(PatchOne(code, a[0], t), a[1..], b, t);
    }
  }

  /** Filling the operand of one jump. */
  lemma PatchJump(pre: seq<byte>, op: byte, t: nat, post: seq<byte>, t': nat)
    ensures PatchOne(pre + Jump(op, t) + post, |pre|, t') == pre + Jump(op, t') + post
  {
    var code := pre + Jump(op, t) + post;
    assert code[..|pre| + 1] == pre + [op] && code[|pre| + 3..] == post;
    assert pre + Jump(op, t') + post == pre + [op] + [Hi(t'), Lo(t')] + post;
  }

  lemma PatchIsReplace(code: seq<byte>, h: nat, t: nat)
    requires h + 3 <= |code|
    ensures code[..h] + Jump(code[h], t) + code[h + 3..] == PatchOne(code, h, t)
  {
    assert code[..h + 1] == code[..h] + [code[h]];
    assert Jump(code[h], t) == [code[h]] + [Hi(t), Lo(t)];
  }

  lemma PatchSingle(code: seq<byte>, h: nat, t: nat)
    ensures Patch(code, [h], t) == PatchOne(code, h, t)
    ensures PatchOk(code, [h], t) <==> h + 3 <= |code| && IsJump(code[h])
  {
    assert [h][1..] == [];
  }

  /** a and then b, seen from a and seen from b. */
  lemma Seen(pre: seq<byte>, a: seq<byte>, b: seq<byte>, post: seq<byte>)
    ensures pre + (a + b) + post == pre + a + (b + post)
    ensures pre + (a + b) + post == (pre + a) + b + post
  {
  }

  // ----- patching what a statement left open -----

  /** Code a, placed behind pre, becomes b when its holes are filled. */
  ghost predicate Fills(pre: seq<byte>, a: seq<byte>, hs: seq<nat>, t: nat, b: seq<byte>) {
    |a| == |b|
    && forall post: seq<byte> :: PatchOk(pre + a + post, hs, t) && Patch(pre + a + post, hs, t) == pre + b + post
  }

  lemma FillsAt(pre: seq<byte>, a: seq<byte>, hs: seq<nat>, t: nat, b: seq<byte>, post: seq<byte>)
    requires Fills(pre, a, hs, t, b)
    ensures PatchOk(pre + a + post, hs, t) && Patch(pre + a + post, hs, t) == pre + b + post
  {
  }

  lemma FillsNothing(pre: seq<byte>, a: seq<byte>, t: nat)
    ensures Fills(pre, a, [], t, a)
  {
  }

  lemma JumpThere(pre: seq<byte>, op: byte, t: nat, post: seq<byte>)
    ensures var code := pre + Jump(op, t) + post; |pre| + 3 <= |code| && code[|pre|] == op
  {
  }

  lemma FillsJump(pre: seq<byte>, op: byte, t0: nat, t: nat)
    requires IsJump(op)
    ensures Fills(pre, Jump(op, t0), [|pre|], t, Jump(op, t))
  {
    hide Patch, PatchOne, Jump;
    forall post: seq<byte>
      ensures PatchOk(pre + Jump(op, t0) + post, [|pre|], t)
              && Patch(pre + Jump(op, t0) + post, [|pre|], t) == pre + Jump(op, t) + post
    {
      JumpThere(pre, op, t0, post);
      PatchSingle(pre + Jump(op, t0) + post, |pre|, t);
      PatchJump(pre, op, t0, post, t);
    }
  }

  /** One after the other. */
  lemma FillsBoth(pre: seq<byte>, a: seq<byte>, b: seq<byte>, ha: seq<nat>, hb: seq<nat>, t: nat, a': seq<byte>,
                  b': seq<byte>)
    requires Fills(pre, a, ha, t, a') && Fills(pre + a', b, hb, t, b')
    ensures Fills(pre, a + b, ha + hb, t, a' + b')
  {
    hide Patch, PatchOk, Fills;
    FillsLength(pre, a, ha, t, a');
    FillsLength(pre + a', b, hb, t, b');
    forall post: seq<byte>
      ensures PatchOk(pre + (a + b) + post, ha + hb, t)
              && Patch(pre + (a + b) + post, ha + hb, t) == pre + (a' + b') + post
    {
      Seen(pre, a, b, post);
      PatchConcat(pre + (a + b) + post, ha, hb, t);
      FillsAt(pre, a, ha, t, a', b + post);
      Seen(pre, a', b, post);
      FillsAt(pre + a', b, hb, t, b', post);
      Seen(pre, a', b', post);
    }
    FillsIntro(pre, a + b, ha + hb, t, a' + b');
  }

  lemma FillsLength(pre: seq<byte>, a: seq<byte>, hs: seq<nat>, t: nat, b: seq<byte>)
    requires Fills(pre, a, hs, t, b)
    ensures |a| == |b|
  {
  }

  lemma FillsIntro(pre: seq<byte>, a: seq<byte>, hs: seq<nat>, t: nat, b: seq<byte>)
    requires |a| == |b|
    requires forall post: seq<byte> :: PatchOk(pre + a + post, hs, t) && Patch(pre + a + post, hs, t) == pre + b + post
    ensures Fills(pre, a, hs, t, b)
  {
  }

  /** Code before and after that has no holes. */
  lemma FillsInside(pre: seq<byte>, x: seq<byte>, a: seq<byte>, y: seq<byte>, hs: seq<nat>, t: nat, a': seq<byte>)
    requires Fills(pre + x, a, hs, t, a')
    ensures Fills(pre, x + a + y, hs, t, x + a' + y)
  {
    hide Patch, PatchOk, Fills;
    FillsNothing(pre, x, t);
    FillsBoth(pre, x, a, [], hs, t, x, a');
    FillsNothing(pre + (x + a'), y, t);
    FillsBoth(pre, x + a, y, [] + hs, [], t, x + a', y);
    assert [] + hs + [] == hs;
  }

  /** Filling the holes of one kind with a target gives the statement's code for that target. */
  lemma {:induction false} StmtFills(pre: seq<byte>, s: Stmt, names: seq<string>, k: nat, t: Targets, kd: Kind,
                                     target: nat)
    ensures Fills(pre, StmtCode(s, names, |pre|, k, t), StmtHoles(s, |pre|, kd), target,
                  StmtCode(s, names, |pre|, k, Retarget(t, kd, target)))
    decreases s, 3
  {
    hide Fills, StmtsCode, StmtsHoles, IfCode, LoopCode, InitCode, SimpleCode, SwitchCode, ExprCode, Jump;
    var c := StmtCode(s, names, |pre|, k, t);
    match s
    case Block(body) => StmtsFills(pre, body, names, k, t, kd, target);
    case If(_, _, _, _) => IfFills(pre, s, names, k, t, kd, target);
    case For(_, _, _, _) => ForFills(pre, s, names, k, t, kd, target);
    case Break => if kd == KBreak { FillsJump(pre, OpJump, t.brk, target); } else { FillsNothing(pre, c, target); }
    case Continue => if kd == KContinue {
      FillsJump(pre, OpJump, t.cont, target);
    } else {
      FillsNothing(pre, c, target);
    }
    case Fallthrough => if kd == KFallthrough {
      FillsJump(pre, OpJump, t.fall, target);
    } else {
      FillsNothing(pre, c, target);
    }
    case _ => FillsNothing(pre, c, target);
  }

  lemma {:induction false} StmtsFills(pre: seq<byte>, ss: Stmts, names: seq<string>, k: nat, t: Targets, kd: Kind,
                                      target: nat)
    ensures Fills(pre, StmtsCode(ss, names, |pre|, k, t), StmtsHoles(ss, |pre|, kd), target,
                  StmtsCode(ss, names, |pre|, k, Retarget(t, kd, target)))
    decreases ss, 0
  {
    hide Fills, StmtCode, StmtHoles, StmtLen, StmtConsts, Retarget;
    match ss
    case Nil => FillsNothing(pre, [], target);
    case Cons(s, rest) =>
      var t', ns, k1 := Retarget(t, kd, target), NamesIn(s, names), k + |StmtConsts(s)|;
      var a' := StmtCode(s, names, |pre|, k, t');
      StmtFills(pre, s, names, k, t, kd, target);
      StmtsFills(pre + a', rest, ns, k1, t, kd, target);
      var p1 := |pre + a'|;
      FillsBoth(pre, StmtCode(s, names, |pre|, k, t), StmtsCode(rest, ns, p1, k1, t),
                StmtHoles(s, |pre|, kd), StmtsHoles(rest, p1, kd), target, a', StmtsCode(rest, ns, p1, k1, t'));
  }

  lemma {:induction false} IfFills(pre: seq<byte>, s: Stmt, names: seq<string>, k: nat, t: Targets, kd: Kind,
                                   target: nat)
    requires s.If?
    ensures Fills(pre, StmtCode(s, names, |pre|, k, t), StmtHoles(s, |pre|, kd), target,
                  StmtCode(s, names, |pre|, k, Retarget(t, kd, target)))
    decreases s, 2
  {
    hide Fills, StmtCode, StmtsCode, InitCode, ExprCode, Jump, StmtHoles, StmtsHoles, StmtLen, StmtsLen, StmtsConsts,
         InitLen, InitNames, InitConsts, ExprLen, ExprConsts, Retarget;
    var If(init, c, body, els) := s;
    var p, t' := |pre|, Retarget(t, kd, target);
    var ns, pc, kc := InitNames(init, names), p + InitLen(init), k + |InitConsts(init)|;
    var pb, kb := pc + ExprLen(c) + 3, kc + |ExprConsts(c)|;
    var pe := pb + StmtsLen(body) + (if els.Some? then 3 else 0);
    IfShape(s, names, p, k, t);
    IfShape(s, names, p, k, t');
    IfHoles(s, p, kd);
    var x := InitCode(init, names, p, k) + ExprCode(c, ns, pc, kc) + Jump(OpJumpFalsy, pe);
    StmtsFills(pre + x, body, ns, kb, t, kd, target);
    FillsNothing(pre, x, target);
    var b, b', hb := StmtsCode(body, ns, pb, kb, t), StmtsCode(body, ns, pb, kb, t'), StmtsHoles(body, pb, kd);
    FillsBoth(pre, x, b, [], hb, target, x, b');
    if els.None? {
      FillsNothing(pre + (x + b'), [], target);
      FillsBoth(pre, x + b, [], [] + hb, [], target, x + b', []);
      assert [] + hb + [] == hb + [];
    } else {
      var j, ke := Jump(OpJump, pe + StmtLen(els.value)), kb + |StmtsConsts(body)|;
      FillsNothing(pre + (x + b'), j, target);
      StmtFills(pre + (x + b') + j, els.value, ns, ke, t, kd, target);
      var e, e', he := StmtCode(els.value, ns, pe, ke, t), StmtCode(els.value, ns, pe, ke, t'),
          StmtHoles(els.value, pe, kd);
      FillsBoth(pre + (x + b'), j, e, [], he, target, j, e');
      FillsBoth(pre, x + b, j + e, [] + hb, [] + he, target, x + b', j + e');
      assert ([] + hb) + ([] + he) == hb + he;
    }
  }

  lemma IfHoles(s: Stmt, p: nat, kd: Kind)
    requires s.If?
    ensures var pb := p + InitLen(s.init) + ExprLen(s.cond) + 3;
            StmtHoles(s, p, kd)
            == StmtsHoles(s.body, pb, kd)
               + (if s.els.Some? then StmtHoles(s.els.value, pb + StmtsLen(s.body) + 3, kd) else [])
  {
    hide InitLen, ExprLen, StmtsLen, StmtsHoles;
  }

  lemma {:induction false} ForFills(pre: seq<byte>, s: Stmt, names: seq<string>, k: nat, t: Targets, kd: Kind,
                                    target: nat)
    requires s.For?
    ensures Fills(pre, StmtCode(s, names, |pre|, k, t), StmtHoles(s, |pre|, kd), target,
                  StmtCode(s, names, |pre|, k, Retarget(t, kd, target)))
    decreases s, 2
  {
    hide Fills, StmtsCode, InitCode, CondCode, Jump, StmtsHoles, StmtsLen, StmtsConsts, InitLen, InitNames, InitConsts,
        OptConsts, CondLen;
    var For(init, c, post, body) := s;
    if kd != KFallthrough {
      FillsNothing(pre, StmtCode(s, names, |pre|, k, t), target);
    } else {
      var p := |pre|;
      var ns, pl, kl := InitNames(init, names), p + InitLen(init), k + |InitConsts(init)|;
      var pb, kb := pl + CondLen(c), kl + |OptConsts(c)|;
      var pp := pb + StmtsLen(body);
      var end := pp + InitLen(post) + 3;
      var i, x := InitCode(init, names, p, k), CondCode(c, ns, pl, kl, end);
      var y := InitCode(post, ns, pp, kb + |StmtsConsts(body)|) + Jump(OpJump, pl);
      var b, b' := StmtsCode(body, ns, pb, kb, Targets(end, pp, t.fall)),
          StmtsCode(body, ns, pb, kb, Targets(end, pp, target));
      StmtsFills(pre + (i + x), body, ns, kb, Targets(end, pp, t.fall), kd, target);
      FillsInside(pre, i + x, b, y, StmtsHoles(body, pb, kd), target, b');
      Regrouped(i, x, b, InitCode(post, ns, pp, kb + |StmtsConsts(body)|), Jump(OpJump, pl));
      Regrouped(i, x, b', InitCode(post, ns, pp, kb + |StmtsConsts(body)|), Jump(OpJump, pl));
    }
  }

  lemma Regrouped(i: seq<byte>, x: seq<byte>, b: seq<byte>, y: seq<byte>, j: seq<byte>)
    ensures i + (x + b + y + j) == (i + x) + b + (y + j)
  {
  }

  // ----- the cases of a switch as a list -----

  datatype Arm = Arm(exprs: seq<Expr>, body: Stmts)

  function Arms(cl: Clauses): seq<Arm> {
    match cl
    case NoMore => []
    case Default(_, rest) => Arms(rest)
    case Case(exprs, body, rest) => [Arm(exprs, body)] + Arms(rest)
  }

  function ArmLen(tag: Option<Expr>, a: Arm): (n: nat)
    ensures n >= 3
  {
    PreLen(tag, a.exprs) + StmtsLen(a.body) + 3
  }

  function ArmConsts(tag: Option<Expr>, a: Arm): seq<Value> { PreConsts(tag, a.exprs) + StmtsConsts(a.body) }

  function ArmCode(tag: Option<Expr>, a: Arm, names: seq<string>, p: nat, k: nat, miss: nat, out: nat, brk: nat,
                   fall: nat): (code: seq<byte>)
    ensures |code| == ArmLen(tag, a)
  {
    var pb, kb := p + PreLen(tag, a.exprs), k + |PreConsts(tag, a.exprs)|;
    PreCode(tag, a.exprs, names, p, k, pb, miss)
    + StmtsCode(a.body, names, pb, kb, Targets(brk, 0, fall))
    + Jump(OpJump, out)
  }

  /** Where the first of the arms falls through to: the body of the second, or behind the first. */
  function ArmFall(tag: Option<Expr>, arms: seq<Arm>, p: nat): nat
    requires arms != []
  {
    var next := p + ArmLen(tag, arms[0]);
    if |arms| == 1 then next else next + PreLen(tag, arms[1].exprs)
  }

  /** The arms while the switch is being compiled: out and brk are what the jumps to the end hold,
      the fallthroughs of the first `falls` arms are filled in. */
  function ArmsCode(tag: Option<Expr>, arms: seq<Arm>, names: seq<string>, p: nat, k: nat, out: nat, brk: nat,
                    falls: nat): (code: seq<byte>)
    ensures |code| == ArmsLen(tag, arms)
  {
    if arms == [] then []
    else
      var next := p + ArmLen(tag, arms[0]);
      ArmCode(tag, arms[0], names, p, k, next, out, brk, if falls > 0 then ArmFall(tag, arms, p) else 0)
      + ArmsCode(tag, arms[1..], names, next, k + |ArmConsts(tag, arms[0])|, out, brk,
                 if falls > 0 then falls - 1 else 0)
  }

  function ArmsLen(tag: Option<Expr>, arms: seq<Arm>): nat {
    if arms == [] then 0 else ArmLen(tag, arms[0]) + ArmsLen(tag, arms[1..])
  }

  /** With everything filled in, the arms are the cases of the switch. */
  lemma {:induction false} ArmsAreCases(cl: Clauses, tag: Option<Expr>, names: seq<string>, p: nat, k: nat, end: nat)
    ensures ArmsCode(tag, Arms(cl), names, p, k, end, end, |Arms(cl)|) == CasesCode(cl, tag, names, p, k, end)
    ensures ArmsLen(tag, Arms(cl)) == CasesLen(cl, tag)
    decreases cl
  {
    hide PreLen, ArmCode, ArmLen, ArmConsts, CasesCode, CasesLen, FallTarget;
    match cl
    case NoMore => NoCases(tag, names, p, k, end);
    case Default(_, rest) =>
      DefaultHasNoCode(cl, tag, names, p, k, end);
      ArmsAreCases(rest, tag, names, p, k, end);
    case Case(exprs, body, rest) =>
      var a := Arm(exprs, body);
      var arms := [a] + Arms(rest);
      assert arms[0] == a && arms[1..] == Arms(rest);
      var next := p + ArmLen(tag, a);
      CaseIsArm(cl, tag, names, p, k, end);
      ArmsAreCases(rest, tag, names, next, k + |ArmConsts(tag, a)|, end);
      FallTargetOfArms(rest, tag, next);
  }

  lemma NoCases(tag: Option<Expr>, names: seq<string>, p: nat, k: nat, end: nat)
    ensures CasesCode(NoMore, tag, names, p, k, end) == [] && CasesLen(NoMore, tag) == 0
  {
  }

  lemma DefaultHasNoCode(cl: Clauses, tag: Option<Expr>, names: seq<string>, p: nat, k: nat, end: nat)
    requires cl.Default?
    ensures CasesCode(cl, tag, names, p, k, end) == CasesCode(cl.rest, tag, names, p, k, end)
    ensures CasesLen(cl, tag) == CasesLen(cl.rest, tag)
  {
  }

  lemma CaseIsArm(cl: Clauses, tag: Option<Expr>, names: seq<string>, p: nat, k: nat, end: nat)
    requires cl.Case?
    ensures var a := Arm(cl.exprs, cl.body);
            var next := p + ArmLen(tag, a);
            && CasesLen(cl, tag) == ArmLen(tag, a) + CasesLen(cl.rest, tag)
            && CasesCode(cl, tag, names, p, k, end)
               == ArmCode(tag, a, names, p, k, next, end, end, FallTarget(cl.rest, tag, next))
                  + CasesCode(cl.rest, tag, names, next, k + |ArmConsts(tag, a)|, end)
  {
    hide PreCode, PreLen, PreConsts, StmtsCode, StmtsLen, StmtsConsts, Jump, FallTarget;
  }

  lemma {:induction false} FallTargetOfArms(cl: Clauses, tag: Option<Expr>, p: nat)
    ensures FallTarget(cl, tag, p) == if Arms(cl) == [] then p else p + PreLen(tag, Arms(cl)[0].exprs)
  {
    hide PreLen;
    if cl.Default? { FallTargetOfArms(cl.rest, tag, p); }
  }

  // ----- holes in a case -----

  /** The jumps to the body behind all comparisons of a case but the last. */
  function HitHoles(tag: Option<Expr>, exprs: seq<Expr>, p: nat): seq<nat> {
    if |exprs| <= 1 then []
    else
      var p1 := p + ExprLen(Comparison(tag, exprs[0]));
      [p1 + 3] + HitHoles(tag, exprs[1..], p1 + 6)
  }

  lemma {:induction false} HitsFill(pre: seq<byte>, tag: Option<Expr>, exprs: seq<Expr>, names: seq<string>, k: nat,
                                    hit: nat, hit': nat, miss: nat)
    ensures Fills(pre, PreCode(tag, exprs, names, |pre|, k, hit, miss), HitHoles(tag, exprs, |pre|), hit',
                  PreCode(tag, exprs, names, |pre|, k, hit', miss))
    decreases |exprs|
  {
    hide Fills, ExprCode, ExprLen, ExprConsts, Comparison, Jump;
    if |exprs| <= 1 {
      FillsNothing(pre, PreCode(tag, exprs, names, |pre|, k, hit, miss), hit');
    } else {
      var c := Comparison(tag, exprs[0]);
      var p1, k1 := |pre| + ExprLen(c), k + |ExprConsts(c)|;
      var x, j := ExprCode(c, names, |pre|, k), Jump(OpJumpFalsy, p1 + 6);
      FillsNothing(pre, x + j, hit');
      FillsJump(pre + (x + j), OpJump, hit, hit');
      FillsBoth(pre, x + j, Jump(OpJump, hit), [], [p1 + 3], hit', x + j, Jump(OpJump, hit'));
      var y, y' := x + j + Jump(OpJump, hit), x + j + Jump(OpJump, hit');
      HitsFill(pre + y', tag, exprs[1..], names, k1, hit, hit', miss);
      var z, z' := PreCode(tag, exprs[1..], names, p1 + 6, k1, hit, miss),
          PreCode(tag, exprs[1..], names, p1 + 6, k1, hit', miss);
      var hs := HitHoles(tag, exprs[1..], p1 + 6);
      FillsBoth(pre, y, z, [] + [p1 + 3], hs, hit', y', z');
      assert [] + [p1 + 3] + hs == [p1 + 3] + hs;
      Grouped(x, j, Jump(OpJump, hit), z);
      Grouped(x, j, Jump(OpJump, hit'), z');
    }
  }

  lemma Grouped(x: seq<byte>, j: seq<byte>, i: seq<byte>, z: seq<byte>)
    ensures x + (j + i + z) == (x + j + i) + z
  {
  }

  lemma {:induction false} MissFills(pre: seq<byte>, tag: Option<Expr>, exprs: seq<Expr>, names: seq<string>, k: nat,
                                     hit: nat, miss: nat, miss': nat)
    requires exprs != []
    ensures PreLen(tag, exprs) >= 3
    ensures Fills(pre, PreCode(tag, exprs, names, |pre|, k, hit, miss), [|pre| + PreLen(tag, exprs) - 3], miss',
                  PreCode(tag, exprs, names, |pre|, k, hit, miss'))
    decreases |exprs|
  {
    hide Fills, ExprCode, ExprLen, ExprConsts, Comparison, Jump;
    var c := Comparison(tag, exprs[0]);
    var p1, k1 := |pre| + ExprLen(c), k + |ExprConsts(c)|;
    var x := ExprCode(c, names, |pre|, k);
    if |exprs| == 1 {
      assert exprs[1..] == [];
      FillsNothing(pre, x, miss');
      FillsJump(pre + x, OpJumpFalsy, miss, miss');
      FillsBoth(pre, x, Jump(OpJumpFalsy, miss), [], [p1], miss', x, Jump(OpJumpFalsy, miss'));
      assert [] + [p1] == [p1];
    } else {
      var j, i := Jump(OpJumpFalsy, p1 + 6), Jump(OpJump, hit);
      var y := x + j + i;
      MissFills(pre + y, tag, exprs[1..], names, k1, hit, miss, miss');
      var z, z' := PreCode(tag, exprs[1..], names, p1 + 6, k1, hit, miss),
          PreCode(tag, exprs[1..], names, p1 + 6, k1, hit, miss');
      var h := |pre| + PreLen(tag, exprs) - 3;
      FillsNothing(pre, y, miss');
      FillsBoth(pre, y, z, [], [h], miss', y, z');
      assert [] + [h] == [h];
      Grouped(x, j, i, z);
      Grouped(x, j, i, z');
    }
  }

  /** The last comparison of a case learns where the next case begins. */
  lemma ArmMissFills(pre: seq<byte>, tag: Option<Expr>, a: Arm, names: seq<string>, k: nat, miss: nat, miss': nat,
                     out: nat, brk: nat, fall: nat)
    requires a.exprs != []
    ensures PreLen(tag, a.exprs) >= 3
    ensures Fills(pre, ArmCode(tag, a, names, |pre|, k, miss, out, brk, fall), [|pre| + PreLen(tag, a.exprs) - 3],
                  miss',
                  ArmCode(tag, a, names, |pre|, k, miss', out, brk, fall))
  {
    hide Fills, PreCode, PreLen, PreConsts, StmtsCode, Jump;
    var pb, kb := |pre| + PreLen(tag, a.exprs), k + |PreConsts(tag, a.exprs)|;
    MissFills(pre, tag, a.exprs, names, k, pb, miss, miss');
    var x, x' := PreCode(tag, a.exprs, names, |pre|, k, pb, miss), PreCode(tag, a.exprs, names, |pre|, k, pb, miss');
    var y, h := StmtsCode(a.body, names, pb, kb, Targets(brk, 0, fall)) + Jump(OpJump, out), pb - 3;
    FillsNothing(pre + x', y, miss');
    FillsBoth(pre, x, y, [h], [], miss', x', y);
    assert [h] + [] == [h];
    Tail(x, StmtsCode(a.body, names, pb, kb, Targets(brk, 0, fall)), Jump(OpJump, out));
    Tail(x', StmtsCode(a.body, names, pb, kb, Targets(brk, 0, fall)), Jump(OpJump, out));
  }

  lemma Tail(x: seq<byte>, y: seq<byte>, z: seq<byte>)
    ensures x + (y + z) == x + y + z
  {
  }

  /** The jump at the end of a case. */
  lemma ArmOutFills(pre: seq<byte>, tag: Option<Expr>, a: Arm, names: seq<string>, k: nat, miss: nat, out: nat,
                    out': nat, brk: nat, fall: nat)
    ensures Fills(pre, ArmCode(tag, a, names, |pre|, k, miss, out, brk, fall), [|pre| + ArmLen(tag, a) - 3], out',
                  ArmCode(tag, a, names, |pre|, k, miss, out', brk, fall))
  {
    hide Fills, PreCode, PreLen, PreConsts, StmtsCode, StmtsLen, Jump;
    var pb, kb := |pre| + PreLen(tag, a.exprs), k + |PreConsts(tag, a.exprs)|;
    var x := PreCode(tag, a.exprs, names, |pre|, k, pb, miss) + StmtsCode(a.body, names, pb, kb, Targets(brk, 0, fall));
    var h := |pre| + ArmLen(tag, a) - 3;
    FillsNothing(pre, x, out');
    FillsJump(pre + x, OpJump, out, out');
    FillsBoth(pre, x, Jump(OpJump, out), [], [h], out', x, Jump(OpJump, out'));
    assert [] + [h] == [h];
  }

  /** The breaks or the fallthroughs in the body of a case. */
  lemma ArmBodyFills(pre: seq<byte>, tag: Option<Expr>, a: Arm, names: seq<string>, k: nat, miss: nat, out: nat,
                     brk: nat, fall: nat, kd: Kind, t: nat)
    requires kd != KContinue
    ensures Fills(pre, ArmCode(tag, a, names, |pre|, k, miss, out, brk, fall),
                  StmtsHoles(a.body, |pre| + PreLen(tag, a.exprs), kd), t,
                  ArmCode(tag, a, names, |pre|, k, miss, out, if kd == KBreak then t else brk,
                          if kd == KBreak then fall else t))
  {
    hide Fills, PreCode, PreLen, PreConsts, StmtsCode, StmtsHoles, Jump;
    var pb, kb := |pre| + PreLen(tag, a.exprs), k + |PreConsts(tag, a.exprs)|;
    var x := PreCode(tag, a.exprs, names, |pre|, k, pb, miss);
    var ts := Targets(brk, 0, fall);
    StmtsFills(pre + x, a.body, names, kb, ts, kd, t);
    FillsInside(pre, x, StmtsCode(a.body, names, pb, kb, ts), Jump(OpJump, out), StmtsHoles(a.body, pb, kd), t,
                StmtsCode(a.body, names, pb, kb, Retarget(ts, kd, t)));
  }

  /** The jumps at the ends of the cases, and the breaks in their bodies. */
  function OutHoles(tag: Option<Expr>, arms: seq<Arm>, p: nat): seq<nat> {
    if arms == [] then []
    else [p + ArmLen(tag, arms[0]) - 3] + OutHoles(tag, arms[1..], p + ArmLen(tag, arms[0]))
  }

  function BreakHoles(tag: Option<Expr>, arms: seq<Arm>, p: nat): seq<nat> {
    if arms == [] then []
    else StmtsHoles(arms[0].body, p + PreLen(tag, arms[0].exprs), KBreak)
         + BreakHoles(tag, arms[1..], p + ArmLen(tag, arms[0]))
  }

  lemma {:induction false} OutsFill(pre: seq<byte>, tag: Option<Expr>, arms: seq<Arm>, names: seq<string>, k: nat,
                                    out: nat, out': nat, brk: nat, falls: nat)
    ensures Fills(pre, ArmsCode(tag, arms, names, |pre|, k, out, brk, falls), OutHoles(tag, arms, |pre|), out',
                  ArmsCode(tag, arms, names, |pre|, k, out', brk, falls))
    decreases |arms|
  {
    hide Fills, ArmCode, ArmLen, ArmConsts, ArmFall;
    if arms == [] {
      FillsNothing(pre, [], out');
    } else {
      var a, next, k1 := arms[0], |pre| + ArmLen(tag, arms[0]), k + |ArmConsts(tag, arms[0])|;
      var fall, falls1 := if falls > 0 then ArmFall(tag, arms, |pre|) else 0, if falls > 0 then falls - 1 else 0;
      ArmOutFills(pre, tag, a, names, k, next, out, out', brk, fall);
      var x, x' := ArmCode(tag, a, names, |pre|, k, next, out, brk, fall),
          ArmCode(tag, a, names, |pre|, k, next, out', brk, fall);
      OutsFill(pre + x', tag, arms[1..], names, k1, out, out', brk, falls1);
      FillsBoth(pre, x, ArmsCode(tag, arms[1..], names, next, k1, out, brk, falls1), [next - 3],
                OutHoles(tag, arms[1..], next), out',
                x', ArmsCode(tag, arms[1..], names, next, k1, out', brk, falls1));
    }
  }

  lemma {:induction false} BreaksFill(pre: seq<byte>, tag: Option<Expr>, arms: seq<Arm>, names: seq<string>, k: nat,
                                      out: nat, brk: nat, brk': nat, falls: nat)
    ensures Fills(pre, ArmsCode(tag, arms, names, |pre|, k, out, brk, falls), BreakHoles(tag, arms, |pre|), brk',
                  ArmsCode(tag, arms, names, |pre|, k, out, brk', falls))
    decreases |arms|
  {
    hide Fills, ArmCode, ArmLen, ArmConsts, ArmFall, StmtsHoles, PreLen;
    if arms == [] {
      FillsNothing(pre, [], brk');
    } else {
      var a, next, k1 := arms[0], |pre| + ArmLen(tag, arms[0]), k + |ArmConsts(tag, arms[0])|;
      var fall, falls1 := if falls > 0 then ArmFall(tag, arms, |pre|) else 0, if falls > 0 then falls - 1 else 0;
      ArmBodyFills(pre, tag, a, names, k, next, out, brk, fall, KBreak, brk');
      var x, x' := ArmCode(tag, a, names, |pre|, k, next, out, brk, fall),
          ArmCode(tag, a, names, |pre|, k, next, out, brk', fall);
      BreaksFill(pre + x', tag, arms[1..], names, k1, out, brk, brk', falls1);
      FillsBoth(pre, x, ArmsCode(tag, arms[1..], names, next, k1, out, brk, falls1),
                StmtsHoles(a.body, |pre| + PreLen(tag, a.exprs), KBreak), BreakHoles(tag, arms[1..], next), brk',
                x', ArmsCode(tag, arms[1..], names, next, k1, out, brk', falls1));
    }
  }

  /** Where arm i is placed. */
  function ArmPos(tag: Option<Expr>, arms: seq<Arm>, p: nat, i: nat): nat
    requires i <= |arms|
  {
    if i == 0 then p else ArmPos(tag, arms[1..], p + ArmLen(tag, arms[0]), i - 1)
  }

  /** The fallthroughs of arm i, after those of the arms before it. */
  lemma {:induction false} FallsFill(pre: seq<byte>, tag: Option<Expr>, arms: seq<Arm>, names: seq<string>, k: nat,
                                     out: nat, brk: nat, i: nat)
    requires i < |arms|
    ensures var pi := ArmPos(tag, arms, |pre|, i);
            Fills(pre, ArmsCode(tag, arms, names, |pre|, k, out, brk, i),
                  StmtsHoles(arms[i].body, pi + PreLen(tag, arms[i].exprs), KFallthrough), ArmFall(tag, arms[i..], pi),
                  ArmsCode(tag, arms, names, |pre|, k, out, brk, i + 1))
    decreases |arms|
  {
    hide Fills, ArmCode, ArmLen, ArmConsts, ArmFall, StmtsHoles, PreLen;
    var a, next, k1 := arms[0], |pre| + ArmLen(tag, arms[0]), k + |ArmConsts(tag, arms[0])|;
    var pi := ArmPos(tag, arms, |pre|, i);
    var hs, t := StmtsHoles(arms[i].body, pi + PreLen(tag, arms[i].exprs), KFallthrough), ArmFall(tag, arms[i..], pi);
    assert arms[0..] == arms;
    if i == 0 {
      ArmBodyFills(pre, tag, a, names, k, next, out, brk, 0, KFallthrough, t);
      var x, x' := ArmCode(tag, a, names, |pre|, k, next, out, brk, 0),
          ArmCode(tag, a, names, |pre|, k, next, out, brk, t);
      var y := ArmsCode(tag, arms[1..], names, next, k1, out, brk, 0);
      FillsNothing(pre + x', y, t);
      FillsBoth(pre, x, y, hs, [], t, x', y);
      assert hs + [] == hs;
    } else {
      var x := ArmCode(tag, a, names, |pre|, k, next, out, brk, ArmFall(tag, arms, |pre|));
      FallsFill(pre + x, tag, arms[1..], names, k1, out, brk, i - 1);
      assert arms[1..][i - 1..] == arms[i..];
      FillsNothing(pre, x, t);
      FillsBoth(pre, x, ArmsCode(tag, arms[1..], names, next, k1, out, brk, i - 1), [], hs, t,
                x, ArmsCode(tag, arms[1..], names, next, k1, out, brk, i));
      assert [] + hs == hs;
    }
  }
}
