/** The compiler as it works: it appends instructions to a buffer, remembers where jumps with an
    unknown target stand, and overwrites their operands when the target is known
    (vm/compiler.go:155-437, 783-1016, 1194-1281, 1479-1749). */
module Compiler {
  import opened Wrappers
  import opened Instructions
  import opened Language
  import opened CodeGen
  import opened Backpatch
  import opened CompilerState
  import opened ForState
  import opened SwitchState
  import opened SwitchProof
  import opened CompilerProof
  import Optimizer

  class Compiler {
    var insts: seq<byte>
    var constants: seq<Value>
    var names: seq<string>
    var start: nat
    var maxLocals: nat
    var loops: seq<Loop>
    var switches: seq<SwitchCtx>

    ghost function St(): State
      reads this
    {
      State(insts, constants, names, start, maxLocals, loops, switches)
    }

    /** A fresh scope for a function literal with these parameters; the pool is shared. */
    constructor (params: seq<string>, pool: seq<Value>)
      ensures St() == State([], pool, params, |params|, |params|, [], [])
    {
      insts, constants, names, start, maxLocals := [], pool, params, |params|, |params|;
      loops, switches := [], [];
    }

    method AddConstant(v: Value) returns (k: nat)
      modifies this
      ensures k == |old(constants)| && St() == old(St()).(constants := old(constants) + [v])
    {
      constants := constants + [v];
      k := |constants| - 1;
    }

    method Emit(op: byte, operands: seq<int>) returns (pos: nat)
      requires |operands| == |Widths(op)|
      modifies this
      ensures pos == |old(insts)| && St() == old(St()).(insts := old(insts) + Encode(op, operands))
    {
      pos := |insts|;
      var inst := MakeInstruction(op, operands);
      insts := insts + inst;
    }

    method Emit0(op: byte)
      requires Widths(op) == []
      modifies this
      ensures St() == old(St()).(insts := old(insts) + Op0(op))
    {
      EncodeOps(op, 0);
      var _ := Emit(op, []);
    }

    method Emit1(op: byte, a: int)
      requires Widths(op) == [1]
      modifies this
      ensures St() == old(St()).(insts := old(insts) + Op1(op, a))
    {
      EncodeOps(op, a);
      var _ := Emit(op, [a]);
    }

    method EmitConstant(k: nat)
      modifies this
      ensures St() == old(St()).(insts := old(insts) + Op2(OpConstant, k))
    {
      EncodeOps(OpConstant, k);
      var _ := Emit(OpConstant, [k]);
    }

    method EmitJump(op: byte, target: nat) returns (pos: nat)
      requires IsJump(op)
      modifies this
      ensures pos == |old(insts)| && St() == old(St()).(insts := old(insts) + Jump(op, target))
    {
      EncodeOps(op, target);
      pos := Emit(op, [target]);
    }

    /** The jump at pos gets the operand t. */
    method ChangeOperand(pos: nat, t: nat)
      requires pos + 3 <= |insts| && IsJump(insts[pos])
      modifies this
      ensures St() == old(St()).(insts := PatchOne(old(insts), pos, t))
    {
      var op := insts[pos];
      EncodeOps(op, t);
      PatchIsReplace(insts, pos, t);
      var inst := MakeInstruction(op, [t]);
      insts := insts[..pos] + inst + insts[pos + 3..];
    }

    method ChangeOperands(ps: seq<nat>, t: nat)
      requires PatchOk(insts, ps, t)
      modifies this
      ensures St() == old(St()).(insts := Patch(old(insts), ps, t))
    {
      var i := 0;
      while i < |ps|
        invariant 0 <= i <= |ps|
        invariant St() == old(St()).(insts := insts)
        invariant PatchOk(insts, ps[i..], t) && Patch(insts, ps[i..], t) == Patch(old(insts), ps, t)
      {
        assert ps[i..][0] == ps[i] && ps[i..][1..] == ps[i + 1..];
        ChangeOperand(ps[i], t);
        i := i + 1;
      }
    }

    // ----- expressions -----

    method CompileExpr(e: Expr) returns (ok: bool)
      modifies this
      ensures ok <==> ExprOk(e, old(names))
      ensures ok ==> St() == AfterExpr(old(St()), e)
      decreases e, 1
    {
      ghost var s := St();
      match e {
        case Const(v) =>
          var k := AddConstant(v);
          EmitConstant(k);
          return true;
        case BoolLit(b) =>
          Emit0(if b then OpTrue else OpFalse);
          return true;
        case UndefinedLit =>
          Emit0(OpNull);
          return true;
        case Ident(x) =>
          var slot := Index(names, x);
          if slot < 0 { return false; }
          Emit1(OpGetLocal, slot);
          return true;
        case Unary(tok, a) =>
          ok := CompileUnary(e);
        case Binary(tok, a, b) =>
          ok := CompileBinary(e);
        case Logical(isAnd, a, b) =>
          ok := CompileLogical(e);
        case Cond(c, t, f) =>
          ok := CompileCond(e);
      }
    }

    method CompileUnary(e: Expr) returns (ok: bool)
      requires e.Unary?
      modifies this
      ensures ok <==> ExprOk(e, old(names))
      ensures ok ==> St() == AfterExpr(old(St()), e)
      decreases e, 0
    {
      UnaryState(St(), e);
      ok := CompileExpr(e.e);
      if !ok { return false; }
      if e.tok == TokNot {
        Emit0(OpLNot);
      } else if e.tok == TokSub {
        Emit0(OpMinus);
      } else if e.tok == TokXor {
        Emit0(OpBComplement);
      } else if e.tok != TokAdd {
        return false;
      }
    }

    method CompileBinary(e: Expr) returns (ok: bool)
      requires e.Binary?
      modifies this
      ensures ok <==> ExprOk(e, old(names))
      ensures ok ==> St() == AfterExpr(old(St()), e)
      decreases e, 0
    {
      BinaryState(St(), e);
      ok := CompileExpr(e.l);
      if !ok { return false; }
      ok := CompileExpr(e.r);
      if !ok { return false; }
      if e.tok == TokEqual {
        Emit0(OpEqual);
      } else if e.tok == TokNotEqual {
        Emit0(OpNotEqual);
      } else if e.tok in {TokAdd, TokSub, TokMul, TokQuo, TokRem, TokAnd, TokOr, TokXor, TokShl, TokShr, TokAndNot,
                          TokLess, TokLessEq, TokGreater, TokGreaterEq} {
        Emit1(OpBinaryOp, e.tok);
      } else {
        return false;
      }
    }

    method CompileLogical(e: Expr) returns (ok: bool)
      requires e.Logical?
      modifies this
      ensures ok <==> ExprOk(e, old(names))
      ensures ok ==> St() == AfterExpr(old(St()), e)
      decreases e, 0
    {
      LogicalState(St(), e);
      ok := CompileExpr(e.l);
      if !ok { return false; }
      var jumpPos := EmitJump(if e.isAnd then OpAndJump else OpOrJump, 0);
      ok := CompileExpr(e.r);
      if !ok { return false; }
      ChangeOperand(jumpPos, |insts|);
    }

    method CompileCond(e: Expr) returns (ok: bool)
      requires e.Cond?
      modifies this
      ensures ok <==> ExprOk(e, old(names))
      ensures ok ==> St() == AfterExpr(old(St()), e)
      decreases e, 0
    {
      CondState(St(), e);
      ok := CompileExpr(e.c);
      if !ok { return false; }
      var jumpPos1 := EmitJump(OpJumpFalsy, 0);
      ok := CompileExpr(e.t);
      if !ok { return false; }
      var jumpPos2 := EmitJump(OpJump, 0);
      ChangeOperand(jumpPos1, |insts|);
      ok := CompileExpr(e.f);
      if !ok { return false; }
      ChangeOperand(jumpPos2, |insts|);
    }

    // ----- simple statements -----

    method CompileSimple(sm: Simple) returns (ok: bool)
      requires St().Valid()
      modifies this
      ensures ok <==> SimpleOk(sm, old(names), old(start))
      ensures ok ==> St() == AfterSimple(old(St()), sm)
    {
      SimpleState(St(), sm);
      match sm {
        case ExprStmt(e) =>
          ok := CompileExpr(e);
          if ok { Emit0(OpPop); }
        case Define(x, e) =>
          if x in names[start..] { return false; }
          var slot := |names|;
          ok := CompileExpr(e);
          if !ok { return false; }
          Emit1(OpDefineLocal, slot);
          names := names + [x];
          maxLocals := Max(maxLocals, slot + 1);
        case Assign(x, e) =>
          var slot := Index(names, x);
          if slot < 0 { return false; }
          ok := CompileExpr(e);
          if ok { Emit1(OpSetLocal, slot); }
        case AssignOp(tok, x, e) =>
          ok := CompileAssignOp(tok, x, e);
        case IncDec(inc, x) =>
          ok := CompileAssignOp(if inc then TokAddAssign else TokSubAssign, x, Const(Int(1)));
      }
    }

    /** Reads the variable, combines it with the operand and stores the result. */
    method CompileAssignOp(tok: byte, x: string, e: Expr) returns (ok: bool)
      requires St().Valid()
      modifies this
      ensures ok <==> SimpleOk(AssignOp(tok, x, e), old(names), old(start))
      ensures ok ==> St() == AfterSimple(old(St()), AssignOp(tok, x, e))
    {
      SimpleState(St(), AssignOp(tok, x, e));
      BinaryState(St(), Binary(OpOfAssign(tok), Ident(x), e));
      AssignOpOk(tok, x, e, names, start);
      var slot := Index(names, x);
      if slot < 0 || !AssignToken(tok) { return false; }
      ok := CompileExpr(Ident(x));
      ok := CompileExpr(e);
      if !ok { return false; }
      if tok == TokAddAssign {
        Emit1(OpBinaryOp, TokAdd);
      } else if tok == TokSubAssign {
        Emit1(OpBinaryOp, TokSub);
      } else if tok == TokMulAssign {
        Emit1(OpBinaryOp, TokMul);
      } else if tok == TokQuoAssign {
        Emit1(OpBinaryOp, TokQuo);
      } else if tok == TokRemAssign {
        Emit1(OpBinaryOp, TokRem);
      } else if tok == TokAndAssign {
        Emit1(OpBinaryOp, TokAnd);
      } else if tok == TokOrAssign {
        Emit1(OpBinaryOp, TokOr);
      } else if tok == TokAndNotAssign {
        Emit1(OpBinaryOp, TokAndNot);
      } else if tok == TokXorAssign {
        Emit1(OpBinaryOp, TokXor);
      } else if tok == TokShlAssign {
        Emit1(OpBinaryOp, TokShl);
      } else if tok == TokShrAssign {
        Emit1(OpBinaryOp, TokShr);
      }
      Emit1(OpSetLocal, slot);
    }

    method CompileInit(init: Option<Simple>) returns (ok: bool)
      requires St().Valid()
      modifies this
      ensures ok <==> InitOk(init, old(names), old(start))
      ensures ok ==> St() == AfterInit(old(St()), init)
    {
      ok := true;
      if init.Some? {
        ok := CompileSimple(init.value);
      }
    }

    // ----- lists and blocks -----

    method CompileStmts(ss: Stmts) returns (ok: bool)
      requires St().Valid()
      modifies this
      ensures ok <==> StmtsOk(ss, old(names), old(start), old(St().Ctx()))
      ensures ok ==> St() == AfterStmts(old(St()), ss)
      decreases ss, 0
    {
      var rest := ss;
      while rest.Cons?
        invariant St().Valid() && start == old(start) && St().Ctx() == old(St().Ctx())
        invariant StmtsOk(rest, names, start, St().Ctx()) <==> StmtsOk(ss, old(names), old(start), old(St().Ctx()))
        invariant AfterStmts(St(), rest) == AfterStmts(old(St()), ss)
        invariant rest == ss || rest < ss
        decreases rest
      {
        ConsState(St(), rest);
        ok := CompileStmt(rest.hd);
        if !ok { return false; }
        rest := rest.tl;
      }
      NilState(St());
      ok := true;
    }

    /** A block opens a scope of its own. */
    method CompileBlock(ss: Stmts) returns (ok: bool)
      requires St().Valid()
      modifies this
      ensures ok <==> StmtsOk(ss, old(names), |old(names)|, old(St().Ctx()))
      ensures ok ==> St() == AfterBlock(old(St()), ss)
      decreases ss, 1
    {
      var outer, outerStart := names, start;
      start := |names|;
      ok := CompileStmts(ss);
      names, start := outer, outerStart;
    }

    method CompileStmt(s: Stmt) returns (ok: bool)
      requires St().Valid()
      modifies this
      ensures ok <==> StmtOk(s, old(names), old(start), old(St().Ctx()))
      ensures ok ==> St() == AfterStmt(old(St()), s)
      decreases s, 1
    {
      match s
      case SimpleStmt(sm) =>
        SimpleStmtState(St(), s);
        ok := CompileSimple(sm);
      case Block(body) =>
        BlockState(St(), s);
        ok := CompileBlock(body);
      case If(_, _, _, _) =>
        ok := CompileIf(s);
      case For(_, _, _, _) =>
        ok := CompileFor(s);
      case Switch(_, _, _) =>
        ok := CompileSwitch(s);
      case Return(_) =>
        ok := CompileReturn(s);
      case _ =>
        ok := CompileBranch(s);
    }

    /** break, continue and fallthrough: a jump that waits in the innermost frame. */
    method CompileBranch(s: Stmt) returns (ok: bool)
      requires (s.Break? || s.Continue? || s.Fallthrough?) && St().Valid()
      modifies this
      ensures ok <==> StmtOk(s, old(names), old(start), old(St().Ctx()))
      ensures ok ==> St() == AfterStmt(old(St()), s)
    {
      BranchState(St(), s);
      if s.Fallthrough? {
        if switches == [] || switches[|switches| - 1].inLastClause { return false; }
        var pos := EmitJump(OpJump, 0);
        var top := switches[|switches| - 1];
        switches := switches[..|switches| - 1] + [top.(fallthroughs := top.fallthroughs + [pos])];
        assert switches == AddFalls(old(switches), [pos]);
      } else {
        if loops == [] { return false; }
        var pos := EmitJump(OpJump, 0);
        var top := loops[|loops| - 1];
        assert top.breaks + [] == top.breaks && top.continues + [] == top.continues;
        loops := loops[..|loops| - 1] + [if s.Break? then top.(breaks := top.breaks + [pos])
                                         else top.(continues := top.continues + [pos])];
      }
      ok := true;
    }

    method CompileReturn(s: Stmt) returns (ok: bool)
      requires s.Return? && St().Valid()
      modifies this
      ensures ok <==> StmtOk(s, old(names), old(start), old(St().Ctx()))
      ensures ok ==> St() == AfterStmt(old(St()), s)
    {
      ReturnState(St(), s);
      ok := true;
      if s.result.None? {
        Emit1(OpReturn, 0);
      } else {
        ok := CompileExpr(s.result.value);
        if ok { Emit1(OpReturn, 1); }
      }
    }

    method CompileFor(s: Stmt) returns (ok: bool)
      requires s.For? && St().Valid()
      modifies this
      ensures ok <==> StmtOk(s, old(names), old(start), old(St().Ctx()))
      ensures ok ==> St() == AfterStmt(old(St()), s)
      decreases s, 0
    {
      hide AfterInit, AfterExpr, AfterStmt, AfterBlock, StmtsOk, StmtOk, InitOk, ExprOk, Jump, Patch, PatchOk,
          InitNames;
      ForStages(St(), s);
      ForDone(St(), s);
      var outer, outerStart := names, start;
      start := |names|;
      ok := CompileInit(s.init);
      if !ok { return false; }
      var preCondPos := |insts|;
      var cond := [];
      if s.forCond.Some? {
        ok := CompileExpr(s.forCond.value);
        if !ok { return false; }
        var postCondPos := EmitJump(OpJumpFalsy, 0);
        cond := [postCondPos];
      }
      loops := loops + [Loop([], [])];
      ok := CompileBlock(s.body);
      if !ok { return false; }
      var loop := loops[|loops| - 1];
      loops := loops[..|loops| - 1];
      var postBodyPos := |insts|;
      ok := CompileInit(s.post);
      if !ok { return false; }
      var _ := EmitJump(OpJump, preCondPos);
      var postStmtPos := |insts|;
      ChangeOperands(cond, postStmtPos);
      ChangeOperands(loop.breaks, postStmtPos);
      ChangeOperands(loop.continues, postBodyPos);
      names, start := outer, outerStart;
    }

    /** The cases in the order they are written, and the default clause. */
    method SplitClauses(cl: Clauses) returns (ok: bool, arms: seq<Arm>, dflt: Option<Stmts>)
      ensures ok <==> OneDefault(cl)
      ensures ok ==> arms == Arms(cl) && dflt == DefaultBody(cl)
    {
      var rest := cl;
      arms, dflt := [], None;
      while !rest.NoMore?
        invariant arms + Arms(rest) == Arms(cl)
        invariant dflt.None? ==> (OneDefault(rest) <==> OneDefault(cl)) && DefaultBody(rest) == DefaultBody(cl)
        invariant dflt.Some? ==> (!HasDefault(rest) <==> OneDefault(cl)) && dflt == DefaultBody(cl)
        decreases rest
      {
        if rest.Case? {
          arms := arms + [Arm(rest.exprs, rest.body)];
        } else {
          if dflt.Some? { return false, [], None; }
          dflt := Some(rest.body);
        }
        rest := rest.rest;
      }
      ok := true;
    }

    /** Leaves what the comparison of one expression of a case yields on the stack. */
    method CompileComparison(tag: Option<Expr>, e: Expr) returns (ok: bool)
      modifies this
      ensures ok <==> ExprOk(Comparison(tag, e), old(names))
      ensures ok ==> St() == AfterExpr(old(St()), Comparison(tag, e))
    {
      hide ExprCode, ExprConsts, ExprOk;
      if tag.None? {
        ok := CompileExpr(e);
      } else {
        ComparisonOk(tag.value, e, names);
        BinaryState(St(), Comparison(tag, e));
        ok := CompileExpr(tag.value);
        if !ok { return false; }
        ok := CompileExpr(e);
        if ok { Emit0(OpEqual); }
      }
    }

    /** The comparisons of a case; bodyJumps are taken on a hit. */
    method CompilePreamble(tag: Option<Expr>, exprs: seq<Expr>) returns (ok: bool, bodyJumps: seq<nat>)
      requires exprs != []
      modifies this
      ensures ok <==> PreOk(tag, exprs, old(names))
      ensures ok ==> (St(), bodyJumps) == PreRest(old(St()), [], tag, exprs)
    {
      hide PreOk, PreRest, Comparison, ExprCode, ExprConsts, ExprOk, PatchOne, Jump;
      bodyJumps := [];
      var j := 0;
      assert exprs[0..] == exprs;
      while j < |exprs|
        invariant j <= |exprs|
        invariant PreRest(St(), bodyJumps, tag, exprs[j..]) == PreRest(old(St()), [], tag, exprs)
        invariant names == old(names) && (PreOk(tag, exprs[j..], names) <==> PreOk(tag, exprs, names))
      {
        assert exprs[j..][0] == exprs[j] && exprs[j..][1..] == exprs[j + 1..];
        PreOkFirst(tag, exprs[j..], names);
        if j < |exprs| - 1 {
          PreStep(St(), bodyJumps, tag, exprs[j..]);
        } else {
          PreLast(St(), bodyJumps, tag, exprs[j..]);
        }
        ok := CompileComparison(tag, exprs[j]);
        if !ok { return false, []; }
        if j < |exprs| - 1 {
          var nextComparison := EmitJump(OpJumpFalsy, 0);
          var bodyJump := EmitJump(OpJump, 0);
          bodyJumps := bodyJumps + [bodyJump];
          ChangeOperand(nextComparison, |insts|);
        }
        j := j + 1;
      }
      PreOkNone(tag, exprs[j..], names);
      PreRestNone(St(), bodyJumps, tag, exprs[j..]);
      var _ := EmitJump(OpJumpFalsy, 0);
      ok := true;
    }

    /** One case. Its miss jump and the jump behind its body stay open. */
    method CompileArm(tag: Option<Expr>, a: Arm, last: bool) returns (ok: bool, bodyStart: nat, falls: seq<nat>)
      requires St().Valid() && loops != [] && switches != []
      modifies this
      ensures ok <==> ArmOk(tag, a, old(names), !last)
      ensures ok ==> bodyStart == BodyPos(tag, a, |old(insts)|) && falls == StmtsHoles(a.body, bodyStart, KFallthrough)
      ensures ok ==> switches == old(switches)[..|old(switches)| - 1] + [SwitchCtx([], last)]
      ensures ok ==> St() == AfterArm(old(St()), tag, a).(switches := switches)
      decreases a.body, 2
    {
      hide PreOk, PreRest, PatchOk, Patch, AfterBlock, AfterArm, ArmHead, ArmOk, StmtsOk, StmtsHoles, Jump, BodyPos;
      ArmOkIs(tag, a, names, !last);
      if a.exprs == [] { return false, 0, []; }
      PreKeeps(St(), tag, a.exprs);
      ArmHeadIs(St(), tag, a);
      var bodyJumps;
      ok, bodyJumps := CompilePreamble(tag, a.exprs);
      if !ok { return false, 0, []; }
      bodyStart := |insts|;
      ChangeOperands(bodyJumps, bodyStart);
      assert St() == ArmHead(old(St()), tag, a) by { ArmHeadParts(old(St()), tag, a); }
      switches := switches[..|switches| - 1] + [SwitchCtx([], last)];
      ArmApart(old(St()), switches, tag, a);
      ArmState(old(St()).(switches := switches), tag, a);
      ok := CompileBlock(a.body);
      if !ok { return false, 0, []; }
      falls := switches[|switches| - 1].fallthroughs;
      switches := switches[..|switches| - 1] + [SwitchCtx([], last)];
      var _ := EmitJump(OpJump, 0);
    }

    /** The cases one after the other. The miss jump of a case is filled in when the next one
        begins; the jumps to the end and the fallthroughs are remembered. */
    method CompileArms(ghost cl: Clauses, tag: Option<Expr>, arms: seq<Arm>, dflt: bool)
      returns (ok: bool, outs: seq<nat>, starts: seq<nat>, falls: seq<seq<nat>>)
      requires arms == Arms(cl) && St().Valid() && loops != [] && switches != []
      modifies this
      ensures ok <==> ArmsOk(tag, arms, old(names), dflt)
      ensures ok ==> |switches| == |old(switches)| && switches[..|switches| - 1] == old(switches)[..|switches| - 1]
      ensures ok ==> Progress(St().(switches := old(switches)), outs, starts, falls)
                     == ArmsDone(Progress(old(St()), [], [], []), tag, arms)
      decreases cl, 0
    {
      hide ArmsDone, ArmDone, AfterArm, ArmOk, ArmsOk, PatchOne, Arms;
      outs, starts, falls := [], [], [];
      var i: nat, miss: nat := 0, 0;
      ghost var w := Progress(St(), [], [], []);
      assert arms[0..] == arms;
      while i < |arms|
        invariant i <= |arms|
        invariant ArmsOk(tag, arms[i..], old(names), dflt) <==> ArmsOk(tag, arms, old(names), dflt)
        invariant ArmsDone(w, tag, arms[i..]) == ArmsDone(Progress(old(St()), [], [], []), tag, arms)
        invariant w.s.Valid() && w.s.loops != [] && w.s.switches == old(switches) && w.s.names == old(names)
        invariant w.outs == outs && w.starts == starts && w.falls == falls
        invariant w.s == St().(insts := w.s.insts, switches := old(switches))
        invariant |switches| == |old(switches)| && switches[..|switches| - 1] == old(switches)[..|switches| - 1]
        invariant i == 0 ==> w.s.insts == insts
        invariant i > 0 ==> miss + 3 <= |insts| && IsJump(insts[miss]) && w.s.insts == PatchOne(insts, miss, |insts|)
      {
        ArmsOkFirst(tag, arms[i..], old(names), dflt);
        ArmsDoneFirst(w, tag, arms[i..]);
        assert arms[i..][0] == arms[i] && arms[i..][1..] == arms[i + 1..];
        if i > 0 { ChangeOperand(miss, |insts|); }
        assert St() == w.s.(switches := switches);
        ghost var s0 := St();
        var bodyStart, fallthroughs;
        ArmSmaller(cl, i);
        ok, bodyStart, fallthroughs := CompileArm(tag, arms[i], i == |arms| - 1 && !dflt);
        if !ok { return false, [], [], []; }
        ArmGivesProgress(w, s0.switches, tag, arms[i]);
        w := ArmDone(w, tag, arms[i]);
        miss := bodyStart - 3;
        outs, starts, falls := outs + [|insts| - 3], starts + [bodyStart], falls + [fallthroughs];
        i := i + 1;
      }
      ArmsNone(w, tag, arms[i..], old(names), dflt);
      if |arms| > 0 { ChangeOperand(miss, |insts|); }
      ok := true;
    }

    /** Fallthroughs go to the body of the next case, or to the default behind the last one. */
    method PatchFalls(ghost s: Stmt, ghost s1: State, count: nat, starts: seq<nat>, falls: seq<seq<nat>>,
                      defaultStart: nat)
      requires s.Switch? && count == |Arms(s.clauses)|
      requires starts == Starts(s.tag, Arms(s.clauses), |s1.insts|)
               && falls == FallHoles(s.tag, Arms(s.clauses), |s1.insts|)
      requires defaultStart == |s1.insts| + ArmsLen(s.tag, Arms(s.clauses))
      requires insts == Half(s1.insts, s, s1.names, |s1.constants|, 0)
      modifies this
      ensures St() == old(St()).(insts := Half(s1.insts, s, s1.names, |s1.constants|, count))
    {
      hide Half, Starts, FallHoles, Arms, ArmsLen, Patch, PatchOk;
      var i := 0;
      while i < count
        invariant i <= count
        invariant St() == old(St()).(insts := Half(s1.insts, s, s1.names, |s1.constants|, i))
      {
        FallStep(s1.insts, s, s1.names, |s1.constants|, i);
        ChangeOperands(falls[i], if i + 1 < count then starts[i + 1] else defaultStart);
        i := i + 1;
      }
    }

    /** All clauses of a switch, the default last. Its frames stay on their stacks. */
    method CompileClauses(s: Stmt, ghost s0: State)
      returns (ok: bool, count: nat, outs: seq<nat>, starts: seq<nat>, falls: seq<seq<nat>>, defaultStart: nat)
      requires s.Switch? && s0.Valid() && EnterLoop(St()) == SwitchStart(s0, s)
      modifies this
      ensures ok <==> OneDefault(s.clauses) && ArmsOk(s.tag, Arms(s.clauses), old(names), DefaultBody(s.clauses).Some?)
                      && ClauseOk(DefaultBody(s.clauses), old(names))
      ensures ok ==> St().(switches := s0.switches) == SwitchBody(s0, s)
      ensures ok ==> switches != [] && switches[..|switches| - 1] == s0.switches
      ensures ok ==> var w := SwitchArms(s0, s);
                     && outs == w.outs && starts == w.starts && falls == w.falls && defaultStart == |w.s.insts|
                     && count == |Arms(s.clauses)|
      decreases s, 0
    {
      hide AfterInit, InitOk, StmtOk, StmtsOk, ArmsOk, OneDefault, Arms, ArmsLen, ArmsDone, DefaultBody, SwitchBody,
           SwitchArms, SwitchStart, AfterDefault, AfterStmt, AfterBlock;
      count, outs, starts, falls, defaultStart := 0, [], [], [], 0;
      SwitchStages(s0, s);
      var arms, dflt;
      ok, arms, dflt := SplitClauses(s.clauses);
      if !ok { return; }
      count := |arms|;
      loops := loops + [Loop([], [])];
      switches := switches + [SwitchCtx([], false)];
      ghost var sw := switches;
      assert St() == SwitchStart(s0, s).(switches := sw);
      ok, outs, starts, falls := CompileArms(s.clauses, s.tag, arms, dflt.Some?);
      if !ok { return; }
      SwitchArmsGive(s0, s, sw);
      SwitchBodyFrom(s0, s);
      defaultStart := |insts|;
      if dflt.Some? {
        DefaultSmaller(s.clauses);
        switches := switches[..|switches| - 1] + [SwitchCtx([], true)];
        DefaultApart(SwitchArms(s0, s).s, dflt.value, switches);
        ok := CompileBlock(dflt.value);
      }
    }

    method CompileSwitch(s: Stmt) returns (ok: bool)
      requires s.Switch? && St().Valid()
      modifies this
      ensures ok <==> StmtOk(s, old(names), old(start), old(St().Ctx()))
      ensures ok ==> St() == AfterStmt(old(St()), s)
      decreases s, 1, 0
    {
      hide AfterInit, InitOk, StmtOk, ClauseOk, ArmsOk, OneDefault, Arms, ArmsLen, DefaultBody, SwitchBody,
           SwitchArms, AfterStmt, Patch, PatchOk, Half, Starts, FallHoles;
      ghost var s0 := St();
      SwitchOkIs(s0, s);
      SwitchPatches(s0, s);
      SwitchDone(s0, s);
      var outer, outerStart := names, start;
      start := |names|;
      ok := CompileInit(s.init);
      if !ok { return false; }
      var count, outs, starts, falls, defaultStart;
      ok, count, outs, starts, falls, defaultStart := CompileClauses(s, s0);
      if !ok { return false; }
      var end := |insts|;
      ChangeOperands(outs, end);
      var loop := loops[|loops| - 1];
      if loop.continues != [] { return false; }
      ChangeOperands(loop.breaks, end);
      PatchFalls(s, SwitchStart(s0, s), count, starts, falls, defaultStart);
      loops, switches := loops[..|loops| - 1], switches[..|switches| - 1];
      names, start := outer, outerStart;
    }

    method CompileIf(s: Stmt) returns (ok: bool)
      requires s.If? && St().Valid()
      modifies this
      ensures ok <==> StmtOk(s, old(names), old(start), old(St().Ctx()))
      ensures ok ==> St() == AfterStmt(old(St()), s)
      decreases s, 0
    {
      hide AfterInit, AfterExpr, AfterStmt, AfterBlock, StmtsOk, InitOk, ExprOk, Jump, PatchOne, InitNames;
      IfStages(St(), s);
      if s.els.None? { IfState(St(), s); } else if !s.els.value.SimpleStmt? { IfElseState(St(), s); }
      var outer, outerStart := names, start;
      start := |names|;
      ok := CompileInit(s.init);
      if !ok { return false; }
      ok := CompileExpr(s.cond);
      if !ok { return false; }
      var jumpPos1 := EmitJump(OpJumpFalsy, 0);
      ok := CompileBlock(s.body);
      if !ok { return false; }
      if s.els.None? {
        ChangeOperand(jumpPos1, |insts|);
      } else {
        if !s.els.value.If? && !s.els.value.Block? { return false; }   // the grammar has nothing else
        var jumpPos2 := EmitJump(OpJump, 0);
        ChangeOperand(jumpPos1, |insts|);
        ok := CompileStmt(s.els.value);
        if !ok { return false; }
        ChangeOperand(jumpPos2, |insts|);
      }
      names, start := outer, outerStart;
    }
  }

  /** How compiling a function literal ends: an error, the panic in optimizeFunc, or the code. */
  datatype Compiled = Rejected | Panicked | Function(code: seq<byte>, numLocals: nat)

  /** A function literal: its body in a scope of its own, then optimized. */
  method CompileFunction(params: seq<string>, body: Stmts, pool: seq<Value>)
      returns (r: Compiled, constants: seq<Value>)
    ensures r.Rejected? <==> !BodyOk(params, body)
    ensures !r.Rejected? ==> constants == pool + StmtsConsts(body)
    ensures !r.Rejected? ==>
              FunctionCode(params, body, |pool|) == if r.Panicked? then None else Some(r.code)
    ensures r.Function? ==> r.numLocals == StmtsLocals(body, |params|)
  {
    hide StmtsCode, StmtsOk, StmtsConsts, StmtsLocals, StmtsHoles, StmtsLen, Optimizer.Optimized;
    var c := new Compiler(params, pool);
    ghost var s0 := c.St();
    var ok := c.CompileStmts(body);
    if !ok { return Rejected, []; }
    assert c.insts == BodyCode(params, body, |pool|) by {
      assert [] + BodyCode(params, body, |pool|) == BodyCode(params, body, |pool|);
    }
    StmtsStreams(body, params, 0, |pool|, Open);
    var optimized := Optimizer.OptimizeFunc(c.insts);
    constants := c.constants;
    r := if optimized.None? then Panicked else Function(optimized.value, c.maxLocals);
  }
}
