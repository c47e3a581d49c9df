/** The machine with frames does to one activation what the meaning of the instructions says, and so it
    runs compiled code as the source says (vm/vm.go:444-643, 1075-1144). */
module TailCallSource {
  import opened Wrappers
  import opened Instructions
  import opened TailCalls
  import L = Language
  import S = StackMachine
  import G = CodeGen
  import C = CompilerProof
  import E = ExprProof

  function Enc(v: L.Value): Val {
    match v
    case Undefined => Undefined
    case Bool(b) => if b then True else False
    case Int(n) => Data(n)
    case Str(s) => Text(s)
  }

  function EncAll(vs: seq<L.Value>): (r: seq<Val>)
    ensures |r| == |vs|
  {
    seq(|vs|, i requires 0 <= i < |vs| => Enc(vs[i]))
  }

  function EncRes(r: L.Res, mem: Memory): Option<(Val, Memory)> {
    match r
    case Ok(v) => Some((Enc(v), mem))
    case Fail(_) => None
  }

  function Slots(vs: seq<L.Value>): (r: seq<Slot>)
    ensures |r| == |vs|
  {
    seq(|vs|, i requires 0 <= i < |vs| => Holds(Enc(vs[i])))
  }

  /** The two machines compute alike: the same test for falsity, the same operators. */
  ghost predicate SameOperators(p: Prog, ops: L.Objects) {
    && (forall v, mem :: p.falsy(Enc(v), mem) == ops.falsy(v))
    && (forall v, mem :: p.operate([OpLNot], [Enc(v)], mem) == Some((if ops.falsy(v) then True else False, mem)))
    && (forall v, mem :: p.operate([OpMinus], [Enc(v)], mem) == EncRes(ops.minus(v), mem))
    && (forall v, mem :: p.operate([OpBComplement], [Enc(v)], mem) == EncRes(ops.complement(v), mem))
    && (forall v, w, mem ::
          p.operate([OpEqual], [Enc(v), Enc(w)], mem) == Some((if ops.equals(v, w) then True else False, mem)))
    && (forall v, w, mem ::
          p.operate([OpNotEqual], [Enc(v), Enc(w)], mem) == Some((if ops.equals(v, w) then False else True, mem)))
    && (forall tok: byte, v, w, mem ::
          p.operate([OpBinaryOp, tok], [Enc(v), Enc(w)], mem) == EncRes(ops.binary(tok, v, w), mem))
  }

  /** fn is the function whose code m runs, and the constants are those of m. */
  ghost predicate SameProgram(p: Prog, m: S.Machine, fn: Fn) {
    && ProtoOf(p, fn).code == m.code && ProtoOf(p, fn).numLocals == m.locals
    && p.consts == EncAll(m.consts)
    && SameOperators(p, m.ops) && m.strict
  }

  /** The one activation that the stack stands for: behind base there are its slots, then its operands. */
  function ActOf(m: S.Machine, fn: Fn, ip: nat, st: S.Stack): Act
    requires |m.base| + m.locals <= |st|
  {
    Act(fn, ip, Slots(st[|m.base|..|m.base| + m.locals]), EncAll(st[|m.base| + m.locals..]), [], None)
  }

  function StateOf(m: S.Machine, fn: Fn, ip: nat, st: S.Stack, mem: Memory): State
    requires |m.base| + m.locals <= |st|
  {
    Going([ActOf(m, fn, ip, st)], mem)
  }

  // ----- small facts -----

  lemma ActPushed(m: S.Machine, fn: Fn, ip: nat, st: S.Stack, v: L.Value)
    requires |m.base| + m.locals <= |st|
    ensures ActOf(m, fn, ip, st + [v]) == ActOf(m, fn, ip, st).(operands := ActOf(m, fn, ip, st).operands + [Enc(v)])
  {
    var f := |m.base| + m.locals;
    assert (st + [v])[f..] == st[f..] + [v];
    assert (st + [v])[|m.base|..f] == st[|m.base|..f];
    assert EncAll(st[f..] + [v]) == EncAll(st[f..]) + [Enc(v)];
  }

  lemma ActPopped(m: S.Machine, fn: Fn, ip: nat, st: S.Stack)
    requires |m.base| + m.locals < |st|
    ensures var a := ActOf(m, fn, ip, st);
            && a.operands != [] && Top(a.operands) == Enc(S.Top(st))
            && ActOf(m, fn, ip, S.Pop(st)) == a.(operands := Pop(a.operands))
  {
    ActPushed(m, fn, ip, S.Pop(st), S.Top(st));
    assert S.Pop(st) + [S.Top(st)] == st;
    var o := ActOf(m, fn, ip, S.Pop(st)).operands;
    assert Pop(o + [Enc(S.Top(st))]) == o;
  }

  lemma ActAt(m: S.Machine, fn: Fn, ip: nat, q: nat, st: S.Stack)
    requires |m.base| + m.locals <= |st|
    ensures ActOf(m, fn, q, st) == ActOf(m, fn, ip, st).(ip := q)
  {
  }

  lemma ActWritten(m: S.Machine, fn: Fn, ip: nat, st: S.Stack, a: nat, v: L.Value)
    requires |m.base| + m.locals <= |st| && a < m.locals
    ensures ActOf(m, fn, ip, st[|m.base| + a := v])
            == ActOf(m, fn, ip, st).(locals := ActOf(m, fn, ip, st).locals[a := Holds(Enc(v))])
  {
    var b, f, w := |m.base|, |m.base| + m.locals, st[|m.base| + a := v];
    assert w[f..] == st[f..];
    assert Slots(w[b..f]) == Slots(st[b..f])[a := Holds(Enc(v))];
  }

  lemma PutPlain(v: L.Value)
    ensures Put(Enc(v)) == Holds(Enc(v))
  {
  }

  lemma LastOne(o: seq<Val>)
    requires o != []
    ensures Last(o, 1) == [Top(o)] && Below(o, 1) == Pop(o)
  {
  }

  lemma LastTwo(o: seq<Val>)
    requires |o| > 1
    ensures Last(o, 2) == [Top(Pop(o)), Top(o)] && Below(o, 2) == Pop(Pop(o))
  {
  }

  // ----- single instructions -----

  /** The outcome on the one machine is that on the other. */
  ghost predicate Agrees(m: S.Machine, fn: Fn, next: nat, mem: Memory, x: Outcome, y: Instructions.Effect<S.Stack,
                         L.Result>) {
    match y
    case Goes(st) =>
      |m.base| + m.locals <= |st| && x.To? && x.mem == mem
      && var a := ActOf(m, fn, next, st); x.locals == a.locals && x.operands == a.operands
    case Stops(Failed(OpError(_))) => x == Fails
    case _ => true
  }

  lemma PushAgrees(m: S.Machine, fn: Fn, next: nat, st: S.Stack, v: L.Value, mem: Memory)
    requires |m.base| + m.locals <= |st|
    ensures var a := ActOf(m, fn, next, st);
            Agrees(m, fn, next, mem, To(a.locals, a.operands + [Enc(v)], mem), S.Push(m, st, v))
  {
    hide ActOf;
    ActPushed(m, fn, next, st, v);
  }

  lemma LoadAgrees(p: Prog, m: S.Machine, fn: Fn, i: seq<byte>, next: nat, st: S.Stack, mem: Memory)
    requires i != [] && |i| == InstrLen(i[0]) && SameProgram(p, m, fn) && |m.base| + m.locals <= |st|
    requires i[0] in {OpConstant, OpNull, OpTrue, OpFalse, OpGetLocal}
    ensures var a := ActOf(m, fn, next, st);
            Agrees(m, fn, next, mem, Plain(p, fn, i, a.locals, a.operands, mem), S.Plain(m, i, st))
  {
    hide SameOperators, Agrees;
    CrashAgrees(m, fn, next, mem);
    var a := ActOf(m, fn, next, st);
    if i[0] == OpConstant {
      if Word(i, 1) < |m.consts| { PushAgrees(m, fn, next, st, m.consts[Word(i, 1)], mem); }
    } else if i[0] == OpNull {
      PushAgrees(m, fn, next, st, L.Undefined, mem);
    } else if i[0] == OpTrue {
      PushAgrees(m, fn, next, st, L.Bool(true), mem);
    } else if i[0] == OpFalse {
      PushAgrees(m, fn, next, st, L.Bool(false), mem);
    } else if i[1] < m.locals {
      assert a.locals[i[1]] == Holds(Enc(st[|m.base| + i[1]]));
      PushAgrees(m, fn, next, st, st[|m.base| + i[1]], mem);
    }
  }

  lemma CrashAgrees(m: S.Machine, fn: Fn, next: nat, mem: Memory)
    ensures forall x :: Agrees(m, fn, next, mem, x, Instructions.Stops(L.Failed(L.Crash)))
  {
  }

  lemma StoreAgrees(p: Prog, m: S.Machine, fn: Fn, i: seq<byte>, next: nat, st: S.Stack, mem: Memory)
    requires i != [] && |i| == InstrLen(i[0]) && SameProgram(p, m, fn) && |m.base| + m.locals < |st|
    requires i[0] in {OpPop, OpSetLocal, OpDefineLocal}
    ensures var a := ActOf(m, fn, next, st);
            Agrees(m, fn, next, mem, Plain(p, fn, i, a.locals, a.operands, mem), S.Plain(m, i, st))
  {
    hide SameOperators;
    var a := ActOf(m, fn, next, st);
    ActPopped(m, fn, next, st);
    if i[0] != OpPop && i[1] < m.locals {
      ActWritten(m, fn, next, S.Pop(st), i[1], S.Top(st));
      PutPlain(S.Top(st));
      assert a.locals[i[1]].Holds?;
    }
  }

  lemma ResAgrees(m: S.Machine, fn: Fn, next: nat, st: S.Stack, r: L.Res, mem: Memory)
    requires |m.base| + m.locals <= |st|
    ensures var a := ActOf(m, fn, next, st);
            var x := match EncRes(r, mem)
                     case None => Fails
                     case Some(t) => To(a.locals, a.operands + [t.0], t.1);
            Agrees(m, fn, next, mem, x, S.PushRes(m, st, r))
  {
    hide ActOf, S.Push;
    if r.Ok? { PushAgrees(m, fn, next, st, r.v, mem); }
  }

  lemma UnaryAgrees(p: Prog, m: S.Machine, fn: Fn, i: seq<byte>, next: nat, st: S.Stack, mem: Memory)
    requires i != [] && |i| == InstrLen(i[0]) && SameProgram(p, m, fn) && |m.base| + m.locals < |st|
    requires i[0] in {OpLNot, OpMinus, OpBComplement}
    ensures var a := ActOf(m, fn, next, st);
            Agrees(m, fn, next, mem, Plain(p, fn, i, a.locals, a.operands, mem), S.Plain(m, i, st))
  {
    hide Agrees, ActOf, S.PushRes, S.Push;
    ActPopped(m, fn, next, st);
    var a, v := ActOf(m, fn, next, st), S.Top(st);
    LastOne(a.operands);
    assert i == [i[0]];
    var r := if i[0] == OpLNot then L.Ok(L.Bool(m.ops.falsy(v)))
             else if i[0] == OpMinus then m.ops.minus(v) else m.ops.complement(v);
    assert p.operate(i, [Enc(v)], mem) == EncRes(r, mem);
    ResAgrees(m, fn, next, S.Pop(st), r, mem);
    PushIsRes(m, S.Pop(st), L.Bool(m.ops.falsy(v)));
  }

  lemma PushIsRes(m: S.Machine, st: S.Stack, v: L.Value)
    ensures S.PushRes(m, st, L.Ok(v)) == S.Push(m, st, v)
  {
  }

  lemma BinaryAgrees(p: Prog, m: S.Machine, fn: Fn, i: seq<byte>, next: nat, st: S.Stack, mem: Memory)
    requires i != [] && |i| == InstrLen(i[0]) && SameProgram(p, m, fn) && |m.base| + m.locals + 1 < |st|
    requires i[0] in {OpEqual, OpNotEqual, OpBinaryOp}
    ensures var a := ActOf(m, fn, next, st);
            Agrees(m, fn, next, mem, Plain(p, fn, i, a.locals, a.operands, mem), S.Plain(m, i, st))
  {
    hide Agrees, ActOf, S.PushRes, S.Push;
    ActPopped(m, fn, next, st);
    ActPopped(m, fn, next, S.Pop(st));
    var a, w, v := ActOf(m, fn, next, st), S.Top(st), S.Top(S.Pop(st));
    assert |a.operands| > 1 by { OperandCount(m, fn, next, st); }
    LastTwo(a.operands);
    var r := if i[0] == OpEqual then L.Ok(L.Bool(m.ops.equals(v, w)))
             else if i[0] == OpNotEqual then L.Ok(L.Bool(!m.ops.equals(v, w))) else m.ops.binary(i[1], v, w);
    assert i == if i[0] == OpBinaryOp then [i[0], i[1]] else [i[0]];
    assert p.operate(i, [Enc(v), Enc(w)], mem) == EncRes(r, mem);
    ResAgrees(m, fn, next, S.Pop(S.Pop(st)), r, mem);
    PushIsRes(m, S.Pop(S.Pop(st)), L.Bool(m.ops.equals(v, w)));
    PushIsRes(m, S.Pop(S.Pop(st)), L.Bool(!m.ops.equals(v, w)));
  }

  lemma OperandCount(m: S.Machine, fn: Fn, ip: nat, st: S.Stack)
    requires |m.base| + m.locals <= |st|
    ensures |ActOf(m, fn, ip, st).operands| == |st| - (|m.base| + m.locals)
  {
  }

  /** Instructions outside the fragment, and operands or slots that are not there, are a crash. */
  lemma CrashesElsewhere(m: S.Machine, i: seq<byte>, st: S.Stack)
    requires i != [] && |i| == InstrLen(i[0]) && m.strict
    requires !(i[0] in {OpConstant, OpNull, OpTrue, OpFalse, OpGetLocal})
    requires !(i[0] in {OpPop, OpSetLocal, OpDefineLocal} && |m.base| + m.locals < |st|)
    requires !(i[0] in {OpLNot, OpMinus, OpBComplement} && |m.base| + m.locals < |st|)
    requires !(i[0] in {OpEqual, OpNotEqual, OpBinaryOp} && |m.base| + m.locals + 1 < |st|)
    ensures S.Plain(m, i, st) == Instructions.Stops(L.Failed(L.Crash))
  {
    hide InstrLen;
  }

  lemma PlainAgrees(p: Prog, m: S.Machine, fn: Fn, i: seq<byte>, next: nat, st: S.Stack, mem: Memory)
    requires i != [] && |i| == InstrLen(i[0]) && SameProgram(p, m, fn) && |m.base| + m.locals <= |st|
    ensures var a := ActOf(m, fn, next, st);
            Agrees(m, fn, next, mem, Plain(p, fn, i, a.locals, a.operands, mem), S.Plain(m, i, st))
  {
    hide Agrees, ActOf, Plain, S.Plain, InstrLen, SameOperators;
    if i[0] in {OpConstant, OpNull, OpTrue, OpFalse, OpGetLocal} { LoadAgrees(p, m, fn, i, next, st, mem); }
    else if i[0] in {OpPop, OpSetLocal, OpDefineLocal} && |m.base| + m.locals < |st| {
      StoreAgrees(p, m, fn, i, next, st, mem);
    } else if i[0] in {OpLNot, OpMinus, OpBComplement} && |m.base| + m.locals < |st| {
      UnaryAgrees(p, m, fn, i, next, st, mem);
    } else if i[0] in {OpEqual, OpNotEqual, OpBinaryOp} && |m.base| + m.locals + 1 < |st| {
      BinaryAgrees(p, m, fn, i, next, st, mem);
    } else {
      CrashesElsewhere(m, i, st);
      CrashAgrees(m, fn, next, mem);
    }
  }

  // ----- one turn -----

  /** What a status of the one machine is on the other; a crash and a full stack are nothing there. */
  ghost predicate Shows(m: S.Machine, fn: Fn, mem: Memory, c: Status<S.Stack, L.Result>, t: State) {
    match c
    case Running(q, st) => q >= 0 && |m.base| + m.locals <= |st| && t == StateOf(m, fn, q, st, mem)
    case Halted(Returned(v)) => t == Done(Enc(v), mem)
    case Halted(Failed(OpError(_))) => t == Failed
    case Halted(Failed(Truncated)) => t == Failed
    case _ => true
  }

  lemma JumpShows(p: Prog, m: S.Machine, fn: Fn, ip: nat, st: S.Stack, mem: Memory)
    requires SameProgram(p, m, fn) && |m.base| + m.locals <= |st|
    requires Whole(m.code, ip) && IsJump(m.code[ip])
    ensures Shows(m, fn, mem, Step(S.Sem(m), m.code, ip, st), Jump(p, [], ActOf(m, fn, ip, st), mem))
  {
    hide InstrLen;
    var a, op := ActOf(m, fn, ip, st), m.code[ip];
    var target, next := Target(m.code, ip), Next(m.code, ip);
    S.TestIgnoresCode(m, op, st);
    assert Code(p, a) == m.code;
    if op != OpJump && |m.base| + m.locals < |st| {
      ActPopped(m, fn, ip, st);
      assert p.falsy(Top(a.operands), mem) == m.ops.falsy(S.Top(st));
    }
    assert forall b: Act :: [] + [b] == [b];
    ActAt(m, fn, ip, target, st);
    ActAt(m, fn, ip, next, st);
    if |m.base| + m.locals < |st| {
      ActAt(m, fn, ip, target, S.Pop(st));
      ActAt(m, fn, ip, next, S.Pop(st));
    }
  }

  lemma ReturnShows(p: Prog, m: S.Machine, fn: Fn, ip: nat, st: S.Stack, mem: Memory)
    requires SameProgram(p, m, fn) && |m.base| + m.locals <= |st| && Whole(m.code, ip) && m.code[ip] == OpReturn
    ensures Shows(m, fn, mem, Step(S.Sem(m), m.code, ip, st), Move(p, false, [], ActOf(m, fn, ip, st), mem))
    ensures Shows(m, fn, mem, Step(S.Sem(m), m.code, ip, st), Move(p, true, [], ActOf(m, fn, ip, st), mem))
  {
    hide SameOperators, Plain, Jump, Invoke, Go, S.Plain, S.Test;
    var a := ActOf(m, fn, ip, st);
    assert Code(p, a) == m.code && InstrAt(m.code, ip)[1] == m.code[ip + 1];
    S.RetIgnoresCode(m, m.code[ip + 1], st);
    if |m.base| + m.locals < |st| { ActPopped(m, fn, ip, st); }
  }

  lemma PlainStep(m: S.Machine, ip: nat, st: S.Stack)
    requires Whole(m.code, ip) && m.code[ip] != OpReturn && !IsJump(m.code[ip])
    ensures Step(S.Sem(m), m.code, ip, st)
            == match S.Plain(m, InstrAt(m.code, ip), st)
               case Goes(st') => Running(Next(m.code, ip), st')
               case Stops(r) => Halted(r)
  {
    hide S.Plain, S.Test, S.Ret, InstrLen;
    S.PlainIgnoresCode(m, InstrAt(m.code, ip), st);
  }

  lemma GoShows(p: Prog, m: S.Machine, fn: Fn, ip: nat, next: nat, st: S.Stack, x: Outcome,
                y: Instructions.Effect<S.Stack, L.Result>, mem: Memory)
    requires |m.base| + m.locals <= |st| && Agrees(m, fn, next, mem, x, y)
    requires y.Stops? && y.r.Failed? ==> y.r.e != L.Truncated
    requires y.Stops? ==> y.r.Failed?
    ensures var c := match y
                     case Goes(st') => Running(next, st')
                     case Stops(r) => Halted(r);
            Shows(m, fn, mem, c, Go(p, [], ActOf(m, fn, ip, st), next, x))
  {
    assert forall b: Act :: [] + [b] == [b];
  }

  lemma PlainFaults(m: S.Machine, i: seq<byte>, st: S.Stack)
    ensures var y := S.Plain(m, i, st); y.Stops? ==> y.r.Failed? && y.r.e != L.Truncated
  {
    hide InstrLen;
  }

  lemma PlainShows(p: Prog, m: S.Machine, fn: Fn, reuse: bool, ip: nat, st: S.Stack, mem: Memory)
    requires SameProgram(p, m, fn) && |m.base| + m.locals <= |st| && Whole(m.code, ip)
    requires m.code[ip] != OpReturn && !IsJump(m.code[ip])
    ensures Shows(m, fn, mem, Step(S.Sem(m), m.code, ip, st), Move(p, reuse, [], ActOf(m, fn, ip, st), mem))
  {
    hide Step, SameOperators, Plain, Jump, Invoke, Go, S.Plain, S.Test, InstrLen, Shows, Agrees;
    var a, i, next := ActOf(m, fn, ip, st), InstrAt(m.code, ip), Next(m.code, ip);
    PlainStep(m, ip, st);
    assert Code(p, a) == m.code;
    if i[0] in {OpCall, OpDefer, OpRoutine, OpSuspend} {
      CrashesElsewhere(m, i, st);
      CrashShows(m, fn, mem);
    } else {
      PlainAgrees(p, m, fn, i, next, st, mem);
      ActAt(m, fn, ip, next, st);
      PlainFaults(m, i, st);
      GoShows(p, m, fn, ip, next, st, Plain(p, fn, i, a.locals, a.operands, mem), S.Plain(m, i, st), mem);
    }
  }

  lemma CrashShows(m: S.Machine, fn: Fn, mem: Memory)
    ensures forall t :: Shows(m, fn, mem, Halted(L.Failed(L.Crash)), t)
  {
  }

  /** One turn of the machine with frames is one step of the other. */
  lemma TurnIsStep(p: Prog, m: S.Machine, fn: Fn, reuse: bool, ip: nat, st: S.Stack, mem: Memory)
    requires SameProgram(p, m, fn) && |m.base| + m.locals <= |st|
    ensures Shows(m, fn, mem, Step(S.Sem(m), m.code, ip, st), Turn(p, reuse, StateOf(m, fn, ip, st, mem)))
  {
    var a := ActOf(m, fn, ip, st);
    assert [] + [a] == [a];
    TurnOf(p, reuse, [], a, mem);
    hide SameOperators, Turn, Plain, Jump, Invoke, Go, Leave, S.Plain, S.Test, S.Ret, InstrLen;
    assert Code(p, a) == m.code;
    if Whole(m.code, ip) {
      if m.code[ip] == OpReturn { ReturnShows(p, m, fn, ip, st, mem); }
      else if IsJump(m.code[ip]) { JumpShows(p, m, fn, ip, st, mem); }
      else { PlainShows(p, m, fn, reuse, ip, st, mem); }
    }
  }

  // ----- whole runs -----

  /** As long as the one run has not crashed nor filled its stack, the other is where it is. */
  lemma {:induction false} RunIsTurns(p: Prog, m: S.Machine, fn: Fn, reuse: bool, ip: nat, st: S.Stack, mem: Memory,
                                      n: nat)
    requires SameProgram(p, m, fn) && |m.base| + m.locals <= |st|
    ensures Shows(m, fn, mem, RunN(S.Sem(m), m.code, Running(ip, st), n),
                  Turns(p, reuse, StateOf(m, fn, ip, st, mem), n))
    decreases n
  {
    hide SameProgram, Step, Turn, S.Sem;
    if n != 0 {
      TurnIsStep(p, m, fn, reuse, ip, st, mem);
      var c := Step(S.Sem(m), m.code, ip, st);
      match c
      case Running(q, st') => RunIsTurns(p, m, fn, reuse, q, st', mem, n - 1);
      case Halted(r) =>
        assert RunN(S.Sem(m), m.code, c, n - 1) == c;
        var t := Turn(p, reuse, StateOf(m, fn, ip, st, mem));
        if !t.Going? { EndStays(p, reuse, t, n - 1); }
    }
  }

  /** How the source ends, as the machine with frames shows it. */
  function EndOf(r: L.Result, mem: Memory): State {
    match r
    case Returned(v) => Done(Enc(v), mem)
    case Failed(_) => Failed
  }

  /** A function of the compiled fragment, called on the machine with frames, with or without reuse and
      whatever its other slots hold, ends with a result or an error exactly when its source does. */
  lemma CallRunsSource(p: Prog, m: S.Machine, fn: Fn, params: seq<string>, body: L.Stmts, k: nat, args: seq<L.Value>,
                       st: S.Stack, reuse: bool, mem: Memory, e: State)
    requires C.BodyOk(params, body) && C.FunctionCode(params, body, k) == Some(m.code)
    requires |args| == |params| && C.Entered(m, params, body, k, args, st) && SameProgram(p, m, fn)
    ensures Ends(p, reuse, Entered(fn, EncAll(args), Slots(st[|m.base|..]), mem), e)
            <==> exists fuel: nat :: L.Call(m.ops, params, body, args, fuel).Some?
                                     && EndOf(L.Call(m.ops, params, body, args, fuel).value, mem) == e
  {
    hide C.BodyOk, C.FunctionCode, C.Entered, SameProgram, L.Call, Turns, RunN, StateOf, Entered, S.Sem, Slots;
    FunctionStarts(p, m, fn, params, body, k, args, st, mem);
    var s := Entered(fn, EncAll(args), Slots(st[|m.base|..]), mem);
    if Ends(p, reuse, s, e) {
      var n := EndsAt(p, reuse, s, e);
      RunIsTurns(p, m, fn, reuse, 0, st, mem, n);
      GoingState(m, fn, mem);
      var c := RunN(S.Sem(m), m.code, Running(0, st), n);
      C.CompiledFunctionIsCorrect(m, params, body, k, args, st, c.r);
      var fuel: nat :| L.Call(m.ops, params, body, args, fuel) == Some(c.r);
      CallResult(m.ops, params, body, args, fuel);
    }
    if fuel: nat :| L.Call(m.ops, params, body, args, fuel).Some?
                    && EndOf(L.Call(m.ops, params, body, args, fuel).value, mem) == e {
      var r := L.Call(m.ops, params, body, args, fuel).value;
      CallResult(m.ops, params, body, args, fuel);
      C.CompiledFunctionIsCorrect(m, params, body, k, args, st, r);
      var n: nat :| RunN(S.Sem(m), m.code, Running(0, st), n) == Halted(r);
      RunIsTurns(p, m, fn, reuse, 0, st, mem, n);
      EndsBy(p, reuse, s, e, n);
    }
  }

  lemma FunctionStarts(p: Prog, m: S.Machine, fn: Fn, params: seq<string>, body: L.Stmts, k: nat, args: seq<L.Value>,
                       st: S.Stack, mem: Memory)
    requires C.Entered(m, params, body, k, args, st) && SameProgram(p, m, fn)
    ensures |args| == |params| && |m.base| + m.locals <= |st|
    ensures Entered(fn, EncAll(args), Slots(st[|m.base|..]), mem) == StateOf(m, fn, 0, st, mem)
  {
    hide SameProgram;
    var b := |m.base|;
    assert st[b..] == st[b..b + m.locals] && st[b + m.locals..] == [];
    forall i | 0 <= i < |args| ensures st[b + i] == args[i] { assert (m.base + args)[b + i] == args[i]; }
    forall i | 0 <= i < |args| ensures Put(Enc(args[i])) == Holds(Enc(args[i])) { PutPlain(args[i]); }
    assert Again(Slots(st[b..]), EncAll(args)) == Slots(st[b..]);
  }

  lemma GoingState(m: S.Machine, fn: Fn, mem: Memory)
    ensures forall ip: nat, st | |m.base| + m.locals <= |st| :: StateOf(m, fn, ip, st, mem).Going?
  {
  }

  lemma CallResult(ops: L.Objects, params: seq<string>, body: L.Stmts, args: seq<L.Value>, fuel: nat)
    requires |args| == |params| && L.Call(ops, params, body, args, fuel).Some?
    ensures var r := L.Call(ops, params, body, args, fuel).value; r.Returned? || r.e.OpError?
  {
    hide L.ExecBlock;
  }
}
