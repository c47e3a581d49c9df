/** What the instructions of the compiled fragment do to the operand stack (vm/vm.go:444-643,
    1075-1127), and small facts about running them. */
module StackMachine {
  import opened Instructions
  import opened Language
  import opened CodeGen

  type Stack = seq<Value>

  /** One frame: base is the part of the stack below it, then come its local slots, then the
      operands. limit is the configured stack size. */
  datatype Machine =
    Machine(ops: Objects, code: seq<byte>, consts: seq<Value>, base: Stack, locals: nat, limit: nat, strict: bool)

  /** The machine does not look whether an operand or a slot is one: below the operands are the local
      slots, and behind these the operands. A strict machine crashes there. */
  function Floor(m: Machine): nat { if m.strict then |m.base| + m.locals else 0 }

  predicate HasSlot(m: Machine, a: byte) { m.strict ==> a < m.locals }

  function Push(m: Machine, st: Stack, v: Value): Effect<Stack, Result> {
    if |st| + 1 >= m.limit then Stops(Failed(StackOverflow)) else Goes(st + [v])
  }

  function PushRes(m: Machine, st: Stack, r: Res): Effect<Stack, Result> {
    match r
    case Ok(v) => Push(m, st, v)
    case Fail(c) => Stops(Failed(OpError(c)))
  }

  function Top(st: Stack): Value
    requires st != []
  {
    st[|st| - 1]
  }

  function Pop(st: Stack): Stack
    requires st != []
  {
    st[..|st| - 1]
  }

  function Slot(m: Machine, a: int): int { |m.base| + a }

  function Plain(m: Machine, i: seq<byte>, st: Stack): Effect<Stack, Result> {
    var crash := Stops(Failed(Crash));
    if i == [] || |i| != InstrLen(i[0]) then crash
    else if i[0] == OpConstant then
      if Word(i, 1) < |m.consts| then Push(m, st, m.consts[Word(i, 1)]) else crash
    else if i[0] == OpNull then Push(m, st, Undefined)
    else if i[0] == OpTrue then Push(m, st, Bool(true))
    else if i[0] == OpFalse then Push(m, st, Bool(false))
    else if i[0] == OpGetLocal then
      if HasSlot(m, i[1]) && Slot(m, i[1]) < |st| then Push(m, st, st[Slot(m, i[1])]) else crash
    else if |st| <= Floor(m) then crash
    else if i[0] == OpPop then Goes(Pop(st))
    else if i[0] == OpSetLocal || i[0] == OpDefineLocal then
      if HasSlot(m, i[1]) && Slot(m, i[1]) < |st| - 1 then Goes(Pop(st)[Slot(m, i[1]) := Top(st)]) else crash
    else if i[0] == OpLNot then Push(m, Pop(st), Bool(m.ops.falsy(Top(st))))
    else if i[0] == OpMinus then PushRes(m, Pop(st), m.ops.minus(Top(st)))
    else if i[0] == OpBComplement then PushRes(m, Pop(st), m.ops.complement(Top(st)))
    else if |st| <= Floor(m) + 1 then crash
    else if i[0] == OpEqual then Push(m, Pop(Pop(st)), Bool(m.ops.equals(Top(Pop(st)), Top(st))))
    else if i[0] == OpNotEqual then Push(m, Pop(Pop(st)), Bool(!m.ops.equals(Top(Pop(st)), Top(st))))
    else if i[0] == OpBinaryOp then PushRes(m, Pop(Pop(st)), m.ops.binary(i[1], Top(Pop(st)), Top(st)))
    else crash
  }

  function Test(m: Machine, op: byte, st: Stack): Branch<Stack, Result> {
    if |st| <= Floor(m) then Faults(Failed(Crash))
    else
      var falsy := m.ops.falsy(Top(st));
      if op == OpJumpFalsy then if falsy then Taken(Pop(st)) else NotTaken(Pop(st))
      else if op == OpAndJump then if falsy then Taken(st) else NotTaken(Pop(st))
      else if falsy then NotTaken(Pop(st)) else Taken(st)
  }

  function Ret(m: Machine, operand: byte, st: Stack): Result {
    if operand != 1 then Returned(Undefined) else if |st| <= Floor(m) then Failed(Crash) else Returned(Top(st))
  }

  /** The meaning of the instructions does not depend on the code they stand in. */
  function Sem(m: Machine): Meaning<Stack, Result> { SemOf(m.(code := [])) }

  function SemOf(m: Machine): Meaning<Stack, Result> {
    Meaning((i, st) => Plain(m, i, st), (op, st) => Test(m, op, st), (b, st) => Ret(m, b, st), Failed(Truncated))
  }

  lemma SemIgnoresCode(m: Machine, code: seq<byte>)
    ensures Sem(m.(code := code)) == Sem(m)
  {
    assert m.(code := code).(code := []) == m.(code := []);
  }

  lemma PlainIgnoresCode(m: Machine, i: seq<byte>, st: Stack)
    ensures Plain(m.(code := []), i, st) == Plain(m, i, st)
  {
  }

  lemma TestIgnoresCode(m: Machine, op: byte, st: Stack)
    ensures Test(m.(code := []), op, st) == Test(m, op, st)
  {
  }

  lemma RetIgnoresCode(m: Machine, operand: byte, st: Stack)
    ensures Ret(m.(code := []), operand, st) == Ret(m, operand, st)
  {
  }

  // ----- code placed at a position -----

  predicate At(code: seq<byte>, p: nat, frag: seq<byte>) {
    p + |frag| <= |code| && code[p..p + |frag|] == frag
  }

  lemma AtSplit(code: seq<byte>, p: nat, a: seq<byte>, b: seq<byte>)
    requires At(code, p, a + b)
    ensures At(code, p, a) && At(code, p + |a|, b)
  {
    var c := code[p..p + |a + b|];
    assert c[..|a|] == a && c[|a|..] == b;
    assert code[p..p + |a|] == c[..|a|] && code[p + |a|..p + |a + b|] == c[|a|..];
  }

  /** The constants from k on are ks. */
  predicate ConstsAt(consts: seq<Value>, k: nat, ks: seq<Value>) {
    k + |ks| <= |consts| && consts[k..k + |ks|] == ks
  }

  lemma ConstsSplit(consts: seq<Value>, k: nat, a: seq<Value>, b: seq<Value>)
    requires ConstsAt(consts, k, a + b)
    ensures ConstsAt(consts, k, a) && ConstsAt(consts, k + |a|, b)
  {
    var c := consts[k..k + |a + b|];
    assert c[..|a|] == a && c[|a|..] == b;
    assert consts[k..k + |a|] == c[..|a|] && consts[k + |a|..k + |a + b|] == c[|a|..];
  }

  // ----- runs -----

  /** n steps lead from (p, st) to (q, st'). */
  ghost predicate Reaches(m: Machine, p: int, st: Stack, n: nat, q: int, st': Stack) {
    RunN(Sem(m), m.code, Running(p, st), n) == Running(q, st')
  }

  ghost predicate Ends(m: Machine, p: int, st: Stack, n: nat, r: Result) {
    RunN(Sem(m), m.code, Running(p, st), n) == Halted(r)
  }

  lemma Then(m: Machine, p: int, st: Stack, a: nat, q: int, st1: Stack, b: nat, r: int, st2: Stack)
    requires Reaches(m, p, st, a, q, st1) && Reaches(m, q, st1, b, r, st2)
    ensures Reaches(m, p, st, a + b, r, st2)
  {
    hide Step;
    RunAdd(Sem(m), m.code, Running(p, st), a, b);
  }

  lemma ThenEnds(m: Machine, p: int, st: Stack, a: nat, q: int, st1: Stack, b: nat, r: Result)
    requires Reaches(m, p, st, a, q, st1) && Ends(m, q, st1, b, r)
    ensures Ends(m, p, st, a + b, r)
  {
    hide Step;
    RunAdd(Sem(m), m.code, Running(p, st), a, b);
  }

  lemma Stay(m: Machine, p: int, st: Stack)
    ensures Reaches(m, p, st, 0, p, st)
  {
  }

  lemma OneStep(m: Machine, p: int, st: Stack)
    ensures RunN(Sem(m), m.code, Running(p, st), 1) == Step(Sem(m), m.code, p, st)
  {
    hide Step;
    var c := Step(Sem(m), m.code, p, st);
    assert RunN(Sem(m), m.code, c, 0) == c;
  }

  lemma Fetched(code: seq<byte>, p: nat, i: seq<byte>)
    requires i != [] && i[0] <= LastOpcode && |i| == InstrLen(i[0]) && At(code, p, i)
    ensures Whole(code, p) && code[p] == i[0] && Next(code, p) == p + |i| && InstrAt(code, p) == i
  {
    assert code[p] == code[p..p + |i|][0];
  }

  lemma DoPlain(m: Machine, p: nat, i: seq<byte>, st: Stack)
    requires i != [] && i[0] <= LastOpcode && |i| == InstrLen(i[0]) && At(m.code, p, i)
    requires i[0] != OpReturn && !IsJump(i[0])
    ensures match Plain(m, i, st)
            case Goes(st') => Reaches(m, p, st, 1, p + |i|, st')
            case Stops(r) => Ends(m, p, st, 1, r)
  {
    hide Plain;
    Fetched(m.code, p, i);
    OneStep(m, p, st);
    PlainIgnoresCode(m, i, st);
  }

  lemma DoJump(m: Machine, p: nat, op: byte, target: nat, st: Stack)
    requires IsJump(op) && target < 65536 && At(m.code, p, Jump(op, target))
    ensures op == OpJump ==> Reaches(m, p, st, 1, target, st)
    ensures op != OpJump ==>
              match Test(m, op, st)
              case Taken(st') => Reaches(m, p, st, 1, target, st')
              case NotTaken(st') => Reaches(m, p, st, 1, p + 3, st')
              case Faults(r) => Ends(m, p, st, 1, r)
  {
    hide Test;
    var i := Jump(op, target);
    Fetched(m.code, p, i);
    OneStep(m, p, st);
    TestIgnoresCode(m, op, st);
    assert m.code[p + 1] == InstrAt(m.code, p)[1] && m.code[p + 2] == InstrAt(m.code, p)[2];
    WordOfHiLo(target);
  }

  lemma DoReturn(m: Machine, p: nat, a: byte, st: Stack)
    requires At(m.code, p, Op1(OpReturn, a))
    ensures Ends(m, p, st, 1, Ret(m, a, st))
  {
    RetIgnoresCode(m, a, st);
    hide Ret;
    var i := Op1(OpReturn, a);
    Fetched(m.code, p, i);
    OneStep(m, p, st);
    assert m.code[p + 1] == InstrAt(m.code, p)[1];
  }
}
