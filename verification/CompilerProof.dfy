/** A compiled and optimized function body computes what its source says. */
module CompilerProof {
  import opened Wrappers
  import opened Instructions
  import opened Language
  import opened CodeGen
  import opened StackMachine
  import opened StmtProof
  import Optimizer
  import OptimizerProof

  const NoTargets := Targets(0, 0, 0)

  const OutsideLoops := Context(NoFrame, false)

  /** The instructions of a function body before optimizeFunc, with k constants in the pool. */
  function BodyCode(params: seq<string>, body: Stmts, k: nat): seq<byte> {
    StmtsCode(body, params, 0, k, NoTargets)
  }

  predicate BodyOk(params: seq<string>, body: Stmts) {
    StmtsOk(body, params, |params|, OutsideLoops)
  }

  /** The frame a call sets up: the arguments are the first local slots, the other slots hold
      whatever is left there, the constants of the body are in the pool, and the sizes are within
      what operands can address and the stack can hold. */
  ghost predicate Entered(m: Machine, params: seq<string>, body: Stmts, k: nat, args: seq<Value>, st: Stack) {
    && |args| == |params|
    && |m.base| + m.locals == |st| && |params| <= m.locals <= 256
    && m.base + args <= st
    && ConstsAt(m.consts, k, StmtsConsts(body)) && |m.consts| <= 65536
    && StmtsLen(body) + 2 < 65536
    && StmtsLocals(body, |params|) <= m.locals
    && Room(m, StmtsNeed(body))
  }

  function Params(params: seq<string>, args: seq<Value>): (store: Store)
    requires |args| == |params|
    ensures |store| == |params|
  {
    seq(|params|, i requires 0 <= i < |params| => Binding(params[i], args[i]))
  }

  lemma EnteredInFrame(m: Machine, params: seq<string>, body: Stmts, k: nat, args: seq<Value>, st: Stack)
    requires Entered(m, params, body, k, args, st)
    ensures InFrame(m, params, Params(params, args), st)
  {
    assert st[..|m.base|] == m.base by { assert (m.base + args)[..|m.base|] == m.base; }
    forall i | 0 <= i < |params| ensures st[|m.base| + i] == args[i] {
      assert (m.base + args)[|m.base| + i] == args[i];
    }
  }

  lemma BodyPlaced(m: Machine, params: seq<string>, body: Stmts, k: nat, args: seq<Value>, st: Stack)
    requires Entered(m, params, body, k, args, st) && m.code == Optimizer.Closed(BodyCode(params, body, k))
    ensures StmtsPlaced(m, body, params, 0, k, NoTargets)
    ensures At(m.code, StmtsLen(body), Op1(OpReturn, 0))
  {
    hide StmtsCode, StmtsConsts, StmtsNeed, StmtsLocals, StmtsLen, ConstsAt;
    assert m.code[0..|m.code|] == m.code;
    assert Op1(OpReturn, 0) == Optimizer.Return0;
    AtSplit(m.code, 0, BodyCode(params, body, k), Optimizer.Return0);
  }

  /** The unoptimized body, with its return, does what Call says: it stops with the same result,
      and when the source needs more than `fuel` rounds of its loops it runs for at least that
      many steps. */
  lemma BodyRuns(m: Machine, params: seq<string>, body: Stmts, k: nat, args: seq<Value>, st: Stack, fuel: nat)
    returns (n: nat)
    requires BodyOk(params, body) && Entered(m, params, body, k, args, st)
    requires m.code == Optimizer.Closed(BodyCode(params, body, k))
    ensures var c := RunN(Sem(m), m.code, Running(0, st), n);
            match Call(m.ops, params, body, args, fuel)
            case Some(r) => c == Halted(r)
            case None => n >= fuel && c.Running?
  {
    hide StmtsPlaced, StmtsOk, StmtsLen, ExecBlock, InFrame, InFrameTo, At, Room, ConstsAt, StmtsConsts, StmtsNeed,
        StmtsLocals,
         RunN, Sem, BodyCode, Optimizer.Closed, Op1;
    var store := Params(params, args);
    EnteredInFrame(m, params, body, k, args, st);
    BodyPlaced(m, params, body, k, args, st);
    BlockRuns(m, body, params, OutsideLoops, store, 0, k, NoTargets, st, fuel);
    StmtsAllowed(m.ops, body, params, |params|, OutsideLoops, store, fuel);
    var o := ExecBlock(m.ops, body, store, fuel);
    match o
    case Norm(s) =>
      var a: nat, st' :| Reaches(m, 0, st, a, StmtsLen(body), st') && InFrame(m, params, s, st');
      DoReturn(m, StmtsLen(body), 0, st');
      ThenEnds(m, 0, st, a, StmtsLen(body), st', 1, Returned(Undefined));
      n := a + 1;
    case Ret(v) => n :| Ends(m, 0, st, n, Returned(v));
    case Err(c) => n :| Ends(m, 0, st, n, Failed(OpError(c)));
    case Timeout =>
      var q', st';
      n, q', st' :| n >= fuel && Reaches(m, 0, st, n, q', st');
  }

  // ----- compiled code is a sequence of whole instructions -----

  predicate Streams(code: seq<byte>) { Stream(code, 0) }

  lemma {:induction false} StreamShift(a: seq<byte>, b: seq<byte>, q: nat)
    requires Stream(b, q) && q <= |b|
    ensures Stream(a + b, |a| + q)
    decreases |b| - q
  {
    if q != |b| {
      assert (a + b)[|a| + q] == b[q];
      StreamShift(a, b, Next(b, q));
    }
  }

  lemma {:induction false} StreamAppend(a: seq<byte>, b: seq<byte>, p: nat)
    requires Stream(a, p) && p <= |a| && Streams(b)
    ensures Stream(a + b, p)
    decreases |a| - p
  {
    if p == |a| {
      StreamShift(a, b, 0);
    } else {
      assert (a + b)[p] == a[p];
      StreamAppend(a, b, Next(a, p));
    }
  }

  lemma Append(a: seq<byte>, b: seq<byte>)
    requires Streams(a) && Streams(b)
    ensures Streams(a + b)
  {
    StreamAppend(a, b, 0);
  }

  lemma Single(i: seq<byte>)
    requires i != [] && i[0] <= LastOpcode && |i| == InstrLen(i[0])
    ensures Streams(i)
  {
    assert Stream(i, |i|);
  }

  lemma Nothing()
    ensures Streams([])
  {
  }

  lemma {:induction false} ExprStreams(e: Expr, names: seq<string>, p: nat, k: nat)
    ensures Streams(ExprCode(e, names, p, k))
    decreases e, 1
  {
    hide Streams, ExprCode, ExprLen, ExprConsts;
    match e
    case Unary(_, _) => UnaryStreams(e, names, p, k);
    case Binary(_, _, _) => BinaryStreams(e, names, p, k);
    case Logical(_, _, _) => LogicalStreams(e, names, p, k);
    case Cond(_, _, _) => CondStreams(e, names, p, k);
    case _ => LeafStreams(e, names, p, k);
  }

  lemma LeafStreams(e: Expr, names: seq<string>, p: nat, k: nat)
    requires e.Const? || e.BoolLit? || e.UndefinedLit? || e.Ident?
    ensures Streams(ExprCode(e, names, p, k))
  {
    hide Streams;
    Single(ExprCode(e, names, p, k));
  }

  lemma {:induction false} UnaryStreams(e: Expr, names: seq<string>, p: nat, k: nat)
    requires e.Unary?
    ensures Streams(ExprCode(e, names, p, k))
    decreases e, 0
  {
    hide Streams;
    ExprStreams(e.e, names, p, k);
    if UnaryCode(e.tok) == [] { Nothing(); } else { Single(UnaryCode(e.tok)); }
    Append(ExprCode(e.e, names, p, k), UnaryCode(e.tok));
  }

  lemma {:induction false} BinaryStreams(e: Expr, names: seq<string>, p: nat, k: nat)
    requires e.Binary?
    ensures Streams(ExprCode(e, names, p, k))
    decreases e, 0
  {
    hide Streams, ExprCode, ExprLen, ExprConsts, BinaryCode;
    BinaryLayout(e, names, p, k);
    var p1, k1 := p + ExprLen(e.l), k + |ExprConsts(e.l)|;
    var x, y := ExprCode(e.l, names, p, k), ExprCode(e.r, names, p1, k1);
    ExprStreams(e.l, names, p, k);
    ExprStreams(e.r, names, p1, k1);
    OperatorStreams(e.tok);
    Append(x, y);
    Append(x + y, BinaryCode(e.tok));
  }

  lemma OperatorStreams(tok: byte)
    ensures Streams(BinaryCode(tok))
  {
    hide Streams;
    Single(BinaryCode(tok));
  }

  lemma JumpStreams(op: byte, target: int)
    requires IsJump(op)
    ensures Streams(Jump(op, target))
  {
    hide Streams;
    Single(Jump(op, target));
  }

  lemma {:induction false} LogicalStreams(e: Expr, names: seq<string>, p: nat, k: nat)
    requires e.Logical?
    ensures Streams(ExprCode(e, names, p, k))
    decreases e, 0
  {
    hide Streams, ExprCode, ExprLen, ExprConsts, Jump;
    LogicalLayout(e, names, p, k);
    var op, p1, k1 := if e.isAnd then OpAndJump else OpOrJump, p + ExprLen(e.l) + 3, k + |ExprConsts(e.l)|;
    var x, j, y := ExprCode(e.l, names, p, k), Jump(op, p + ExprLen(e)), ExprCode(e.r, names, p1, k1);
    ExprStreams(e.l, names, p, k);
    ExprStreams(e.r, names, p1, k1);
    JumpStreams(op, p + ExprLen(e));
    Append(x, j);
    Append(x + j, y);
  }

  lemma {:induction false} CondStreams(e: Expr, names: seq<string>, p: nat, k: nat)
    requires e.Cond?
    ensures Streams(ExprCode(e, names, p, k))
    decreases e, 0
  {
    hide Streams, ExprLen, ExprConsts;
    var Cond(c, t, f) := e;
    var pt := p + ExprLen(c) + 3;
    var pf, kt := pt + ExprLen(t) + 3, k + |ExprConsts(c)|;
    var x, y, z := ExprCode(c, names, p, k), ExprCode(t, names, pt, kt), ExprCode(f, names, pf, kt + |ExprConsts(t)|);
    var j1, j2 := Jump(OpJumpFalsy, pf), Jump(OpJump, p + ExprLen(e));
    ExprStreams(c, names, p, k);
    ExprStreams(t, names, pt, kt);
    ExprStreams(f, names, pf, kt + |ExprConsts(t)|);
    Single(j1);
    Single(j2);
    Append(x, j1);
    Append(x + j1, y);
    Append(x + j1 + y, j2);
    Append(x + j1 + y + j2, z);
  }

  lemma InitStreams(init: Option<Simple>, names: seq<string>, p: nat, k: nat)
    ensures Streams(InitCode(init, names, p, k))
  {
    hide Streams, ExprCode;
    if init.None? {
      Nothing();
    } else {
      SimpleStreams(init.value, names, p, k);
    }
  }

  lemma SimpleStreams(sm: Simple, names: seq<string>, p: nat, k: nat)
    ensures Streams(SimpleCode(sm, names, p, k))
  {
    hide Streams, ExprCode;
    ExprStreams(Operand(sm), names, p, k);
    Single(StoreCode(sm, names));
    Append(ExprCode(Operand(sm), names, p, k), StoreCode(sm, names));
  }

  lemma {:induction false} PreStreams(tag: Option<Expr>, exprs: seq<Expr>, names: seq<string>, p: nat, k: nat, hit: nat,
                                      miss: nat)
    ensures Streams(PreCode(tag, exprs, names, p, k, hit, miss))
    decreases |exprs|
  {
    hide Streams, ExprCode, ExprLen, ExprConsts, Comparison;
    if exprs == [] {
      Nothing();
    } else {
      var c := Comparison(tag, exprs[0]);
      var p1, k1 := p + ExprLen(c), k + |ExprConsts(c)|;
      ExprStreams(c, names, p, k);
      if |exprs| == 1 {
        Single(Jump(OpJumpFalsy, miss));
        Append(ExprCode(c, names, p, k), Jump(OpJumpFalsy, miss));
      } else {
        var j1, j2, rest := Jump(OpJumpFalsy, p1 + 6), Jump(OpJump, hit),
            PreCode(tag, exprs[1..], names, p1 + 6, k1, hit, miss);
        PreStreams(tag, exprs[1..], names, p1 + 6, k1, hit, miss);
        Single(j1);
        Single(j2);
        Append(j1, j2);
        Append(j1 + j2, rest);
        Append(ExprCode(c, names, p, k), j1 + j2 + rest);
      }
    }
  }

  lemma {:induction false} StmtStreams(s: Stmt, names: seq<string>, p: nat, k: nat, t: Targets)
    ensures Streams(StmtCode(s, names, p, k, t))
    decreases s, 3
  {
    hide Streams, ExprCode, SimpleCode, StmtsCode, IfCode, LoopCode, InitCode, SwitchCode, StmtLen, StmtsLen;
    match s
    case SimpleStmt(sm) => SimpleStreams(sm, names, p, k);
    case Block(body) => StmtsStreams(body, names, p, k, t);
    case If(_, _, _, _) => IfStreams(s, names, p, k, t);
    case For(init, c, post, body) =>
      var ns, pl, kl := InitNames(init, names), p + InitLen(init), k + |InitConsts(init)|;
      InitStreams(init, names, p, k);
      LoopStreams(c, post, body, ns, pl, kl, t.fall);
      Append(InitCode(init, names, p, k), LoopCode(c, post, body, ns, pl, kl, t.fall));
    case Switch(_, _, _) => SwitchStreams(s, names, p, k);
    case Return(Some(e)) =>
      ExprStreams(e, names, p, k);
      Single(Op1(OpReturn, 1));
      Append(ExprCode(e, names, p, k), Op1(OpReturn, 1));
    case _ => Single(StmtCode(s, names, p, k, t));
  }

  lemma {:induction false} IfStreams(s: Stmt, names: seq<string>, p: nat, k: nat, t: Targets)
    requires s.If?
    ensures Streams(IfCode(s, names, p, k, t))
    decreases s, 2
  {
    hide Streams, ExprCode, StmtsCode, StmtCode, InitCode, StmtLen, StmtsLen, InitLen, InitConsts, InitNames, ExprLen,
        ExprConsts, StmtsConsts;
    var If(init, c, body, els) := s;
    var ns := InitNames(init, names);
    var pc, kc := p + InitLen(init), k + |InitConsts(init)|;
    var pb, kb := pc + ExprLen(c) + 3, kc + |ExprConsts(c)|;
    var pe := pb + StmtsLen(body) + (if els.Some? then 3 else 0);
    var x, y, j, z := InitCode(init, names, p, k), ExprCode(c, ns, pc, kc), Jump(OpJumpFalsy, pe),
        StmtsCode(body, ns, pb, kb, t);
    InitStreams(init, names, p, k);
    ExprStreams(c, ns, pc, kc);
    Single(j);
    StmtsStreams(body, ns, pb, kb, t);
    Append(x, y);
    Append(x + y, j);
    Append(x + y + j, z);
    if els.None? {
      Nothing();
      Append(x + y + j + z, []);
    } else {
      var j2, w := Jump(OpJump, pe + StmtLen(els.value)), StmtCode(els.value, ns, pe, kb + |StmtsConsts(body)|, t);
      Single(j2);
      StmtStreams(els.value, ns, pe, kb + |StmtsConsts(body)|, t);
      Append(j2, w);
      Append(x + y + j + z, j2 + w);
    }
  }

  lemma {:induction false} StmtsStreams(ss: Stmts, names: seq<string>, p: nat, k: nat, t: Targets)
    ensures Streams(StmtsCode(ss, names, p, k, t))
    decreases ss, 0
  {
    hide Streams, StmtCode, StmtLen, StmtConsts;
    match ss
    case Nil => Nothing();
    case Cons(s, rest) =>
      var ns, p1, k1 := NamesIn(s, names), p + StmtLen(s), k + |StmtConsts(s)|;
      StmtStreams(s, names, p, k, t);
      StmtsStreams(rest, ns, p1, k1, t);
      Append(StmtCode(s, names, p, k, t), StmtsCode(rest, ns, p1, k1, t));
  }

  lemma {:induction false} LoopStreams(c: Option<Expr>, post: Option<Simple>, body: Stmts, names: seq<string>, p: nat,
                                       k: nat, fall: nat)
    ensures Streams(LoopCode(c, post, body, names, p, k, fall))
    decreases body, 1
  {
    hide Streams, ExprCode, StmtsCode, InitCode, StmtsLen, InitLen, OptConsts, StmtsConsts;
    var pb := p + CondLen(c);
    var pp := pb + StmtsLen(body);
    var end, kb := pp + InitLen(post) + 3, k + |OptConsts(c)|;
    var x, y := CondCode(c, names, p, k, end), StmtsCode(body, names, pb, kb, Targets(end, pp, fall));
    var z, j := InitCode(post, names, pp, kb + |StmtsConsts(body)|), Jump(OpJump, p);
    if c.None? {
      Nothing();
    } else {
      ExprStreams(c.value, names, p, k);
      Single(Jump(OpJumpFalsy, end));
      Append(ExprCode(c.value, names, p, k), Jump(OpJumpFalsy, end));
    }
    StmtsStreams(body, names, pb, kb, Targets(end, pp, fall));
    InitStreams(post, names, pp, kb + |StmtsConsts(body)|);
    Single(j);
    Append(x, y);
    Append(x + y, z);
    Append(x + y + z, j);
  }

  lemma {:induction false} SwitchStreams(s: Stmt, names: seq<string>, p: nat, k: nat)
    requires s.Switch?
    ensures Streams(SwitchCode(s, names, p, k))
    decreases s, 2
  {
    hide Streams, InitCode, InitLen, InitConsts, InitNames, CasesCode, CasesLen, CasesConsts, DefaultCode, DefaultLen;
    var Switch(init, tag, cl) := s;
    var ns, pc, kc := InitNames(init, names), p + InitLen(init), k + |InitConsts(init)|;
    var pd := pc + CasesLen(cl, tag);
    var end, kd := pd + DefaultLen(cl), kc + |CasesConsts(cl, tag)|;
    InitStreams(init, names, p, k);
    CasesStreams(cl, tag, ns, pc, kc, end);
    DefaultStreams(cl, ns, pd, kd, end);
    Append(InitCode(init, names, p, k), CasesCode(cl, tag, ns, pc, kc, end));
    Append(InitCode(init, names, p, k) + CasesCode(cl, tag, ns, pc, kc, end), DefaultCode(cl, ns, pd, kd, end));
  }

  lemma {:induction false} CasesStreams(cl: Clauses, tag: Option<Expr>, names: seq<string>, p: nat, k: nat, end: nat)
    ensures Streams(CasesCode(cl, tag, names, p, k, end))
    decreases cl, 0
  {
    hide Streams, PreCode, PreLen, PreConsts, StmtsCode, StmtsLen, StmtsConsts, FallTarget;
    match cl
    case NoMore => Nothing();
    case Default(_, rest) => CasesStreams(rest, tag, names, p, k, end);
    case Case(exprs, body, rest) =>
      var pb, kb := p + PreLen(tag, exprs), k + |PreConsts(tag, exprs)|;
      var next := pb + StmtsLen(body) + 3;
      var t := Targets(end, 0, FallTarget(rest, tag, next));
      var kn := kb + |StmtsConsts(body)|;
      var x, y, j := PreCode(tag, exprs, names, p, k, pb, next), StmtsCode(body, names, pb, kb, t), Jump(OpJump, end);
      PreStreams(tag, exprs, names, p, k, pb, next);
      StmtsStreams(body, names, pb, kb, t);
      Single(j);
      CasesStreams(rest, tag, names, next, kn, end);
      Append(x, y);
      Append(x + y, j);
      Append(x + y + j, CasesCode(rest, tag, names, next, kn, end));
  }

  lemma {:induction false} DefaultStreams(cl: Clauses, names: seq<string>, p: nat, k: nat, end: nat)
    ensures Streams(DefaultCode(cl, names, p, k, end))
    decreases cl, 0
  {
    hide Streams, StmtsCode;
    match cl
    case NoMore => Nothing();
    case Default(body, _) => StmtsStreams(body, names, p, k, Targets(end, 0, 0));
    case Case(_, _, rest) => DefaultStreams(rest, names, p, k, end);
  }

  // ----- the end-to-end theorem -----

  /** What compiling the function literal gives: the body's code, optimized. None is the panic in
      optimizeFunc. */
  function FunctionCode(params: seq<string>, body: Stmts, k: nat): Option<seq<byte>> {
    StmtsStreams(body, params, 0, k, NoTargets);
    Optimizer.Optimized(BodyCode(params, body, k))
  }

  /** n steps of the optimized and of the unoptimized code end alike. */
  lemma OptimizedRuns(m: Machine, params: seq<string>, body: Stmts, k: nat, args: seq<Value>, st: Stack, n: nat)
    requires Entered(m, params, body, k, args, st) && FunctionCode(params, body, k).Some?
    ensures var a := RunN(Sem(m), Optimizer.Closed(BodyCode(params, body, k)), Running(0, st), n);
            var b := RunN(Sem(m), FunctionCode(params, body, k).value, Running(0, st), n);
            (a.Halted? ==> b == a) && (a.Running? ==> b.Running?)
  {
    hide RunN, Sem, Optimizer.Closed, Optimizer.Optimized, Optimizer.Kept, Optimizer.Positions, StmtsCode, StmtsConsts,
         StmtsNeed, StmtsLocals;
    StmtsStreams(body, params, 0, k, NoTargets);
    OptimizerProof.OptimizeFuncSimulates(Sem(m), BodyCode(params, body, k), st, n);
  }

  /** The code of a function, once it has been compiled and optimized, stops with result r exactly
      when the source of the function does, for every meaning of the object operations; and so it
      runs forever exactly when the source does. */
  lemma CompiledFunctionIsCorrect(m: Machine, params: seq<string>, body: Stmts, k: nat, args: seq<Value>, st: Stack,
                                  r: Result)
    requires BodyOk(params, body) && FunctionCode(params, body, k).Some?
    requires Entered(m, params, body, k, args, st)
    ensures (exists n: nat :: RunN(Sem(m), FunctionCode(params, body, k).value, Running(0, st), n) == Halted(r))
            <==> (exists fuel: nat :: Call(m.ops, params, body, args, fuel) == Some(r))
  {
    hide RunN, Sem, BodyOk, FunctionCode, Optimizer.Closed, BodyCode, Call, Entered;
    var m1 := m.(code := Optimizer.Closed(BodyCode(params, body, k)));
    SemIgnoresCode(m, m1.code);
    EnteredIgnoresCode(m, m1.code, params, body, k, args, st);
    EnteredArgs(m, params, body, k, args, st);
    var code := FunctionCode(params, body, k).value;
    if exists fuel: nat :: Call(m.ops, params, body, args, fuel) == Some(r) {
      var fuel: nat :| Call(m.ops, params, body, args, fuel) == Some(r);
      var n := BodyRuns(m1, params, body, k, args, st, fuel);
      OptimizedRuns(m, params, body, k, args, st, n);
    }
    if exists n: nat :: RunN(Sem(m), code, Running(0, st), n) == Halted(r) {
      var n: nat :| RunN(Sem(m), code, Running(0, st), n) == Halted(r);
      var n1 := BodyRuns(m1, params, body, k, args, st, n);
      OptimizedRuns(m, params, body, k, args, st, n1);
      if n <= n1 {
        HaltedStays(Sem(m), code, Running(0, st), n, n1);
      } else {
        HaltedStays(Sem(m), code, Running(0, st), n1, n);
      }
    }
  }

  lemma EnteredIgnoresCode(m: Machine, code: seq<byte>, params: seq<string>, body: Stmts, k: nat, args: seq<Value>,
                           st: Stack)
    requires Entered(m, params, body, k, args, st)
    ensures Entered(m.(code := code), params, body, k, args, st)
  {
  }

  lemma EnteredArgs(m: Machine, params: seq<string>, body: Stmts, k: nat, args: seq<Value>, st: Stack)
    requires Entered(m, params, body, k, args, st)
    ensures |args| == |params|
  {
  }
}
