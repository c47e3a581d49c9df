/** The VM's dispatch loop over a stack array that grows (vm/vm.go:400-643, 1075-1127, 1434-1452): it does
    what the meaning of the instructions says. */
module DispatchLoop {
  import opened Wrappers
  import opened Instructions
  import opened Language
  import opened StackMachine

  /** The stack doubles until it has the configured size at least: one that starts with n slots can get
      this long. */
  function Capacity(n: nat, limit: nat): (c: nat)
    requires n > 0
    ensures n <= c && limit <= c
    ensures c == n || c < 2 * limit
    decreases if n < limit then limit - n else 0
  {
    if n >= limit then n else Capacity(2 * n, limit)
  }

  function Doubled(n: nat, times: nat): nat { if times == 0 then n else 2 * Doubled(n, times - 1) }

  lemma {:induction false} DoubledOnce(n: nat, times: nat)
    ensures Doubled(2 * n, times) == Doubled(n, times + 1)
  {
    if times > 0 { DoubledOnce(n, times - 1); }
  }

  /** It is the first of n, 2n, 4n and so on that is no less than the configured size. */
  lemma {:induction false} CapacityIsDoubling(n: nat, limit: nat) returns (times: nat)
    requires n > 0
    ensures Capacity(n, limit) == Doubled(n, times) && (times > 0 ==> Doubled(n, times - 1) < limit)
    decreases if n < limit then limit - n else 0
  {
    times := 0;
    if n < limit {
      var more := CapacityIsDoubling(2 * n, limit);
      DoubledOnce(n, more);
      if more > 0 { DoubledOnce(n, more - 1); }
      times := more + 1;
    }
  }

  /** What the growth check behind an instruction makes of the stack. */
  function Checked(m: Machine, st: Stack): Effect<Stack, Result> {
    if |st| >= m.limit then Stops(Failed(StackOverflow)) else Goes(st)
  }

  function CheckedRes(m: Machine, st: Stack, r: Res): Effect<Stack, Result> {
    if r.Fail? then Stops(Failed(OpError(r.code))) else Checked(m, st + [r.v])
  }

  lemma PushChecks(m: Machine, st: Stack, r: Res)
    ensures PushRes(m, st, r) == CheckedRes(m, st, r)
  {
  }

  class VM {
    const m: Machine                     // m.limit is what stackSize amounts to
    const stackSize: nat                 // the configured limit
    var stack: array<Value>
    var sp: nat
    var ip: int

    /** A frame has been entered, and the stack has length slots. */
    constructor (m: Machine, st: Stack, length: nat, stackSize: nat)
      requires |st| < length && !m.strict && m.limit == Capacity(length, stackSize)
      ensures fresh(stack) && Valid() && ip == 0 && Contents() == st
      ensures this.m == m && this.stackSize == stackSize
    {
      this.m, this.stackSize := m, stackSize;
      stack := new Value[length](i => if 0 <= i < |st| then st[i] else Undefined);
      sp, ip := |st|, 0;
      new;
      assert stack[..sp] == st;
    }

    /** Between two instructions there is room for one more value. */
    ghost predicate Valid()
      reads this, stack
    {
      sp < stack.Length && !m.strict && Capacity(stack.Length, stackSize) == m.limit
    }

    /** The live part of the stack. */
    ghost function Contents(): Stack
      requires sp <= stack.Length
      reads this, stack
    {
      stack[..sp]
    }

    /** checkGrowStack(0): false is a stack overflow. */
    method CheckGrowStack() returns (ok: bool)
      requires sp <= stack.Length && stack.Length > 0 && !m.strict && Capacity(stack.Length, stackSize) == m.limit
      modifies this`stack
      ensures ok ==> Valid() && Contents() == old(Contents())
      ensures ok <==> sp < m.limit
      ensures stack == old(stack) || fresh(stack)
    {
      if sp < stack.Length { return true; }
      if sp >= stackSize { return false; }
      var live := stack[..];
      var grown := new Value[2 * |live|](i => if 0 <= i < |live| then live[i] else Undefined);
      assert grown[..sp] == live[..sp];
      stack := grown;
      ok := true;
    }

    method PushValue(v: Value)
      requires Valid()
      modifies this`sp, stack
      ensures stack == old(stack) && sp == old(sp) + 1 && Contents() == old(Contents()) + [v]
    {
      stack[sp] := v;
      sp := sp + 1;
    }

    /** The operand is replaced by the result. */
    method ExecuteUnary(op: byte) returns (r: Option<Result>)
      requires Valid() && sp > 0 && op in {OpLNot, OpMinus, OpBComplement}
      modifies this`sp, stack
      ensures stack == old(stack) && sp <= stack.Length
      ensures Plain(m, [op], old(Contents())) == if r.Some? then Stops(r.value) else Checked(m, Contents())
    {
      ghost var st := Contents();
      var operand := stack[sp - 1];
      sp := sp - 1;
      assert Contents() == Pop(st);
      var res := if op == OpLNot then Ok(Bool(m.ops.falsy(operand))) else if op == OpMinus then m.ops.minus(operand)
          else m.ops.complement(operand);
      PushChecks(m, Pop(st), res);
      if res.Fail? { return Some(Failed(OpError(res.code))); }
      PushValue(res.v);
      r := None;
    }

    /** The two operands are replaced by the result. */
    method ExecuteBinary(i: seq<byte>) returns (r: Option<Result>)
      requires Valid() && sp > 1 && i != [] && |i| == InstrLen(i[0]) && i[0] in {OpEqual, OpNotEqual, OpBinaryOp}
      modifies this`sp, stack
      ensures stack == old(stack) && sp <= stack.Length
      ensures Plain(m, i, old(Contents())) == if r.Some? then Stops(r.value) else Checked(m, Contents())
    {
      ghost var st := Contents();
      var right, left := stack[sp - 1], stack[sp - 2];
      sp := sp - 2;
      assert Contents() == Pop(Pop(st));
      var res := if i[0] == OpEqual then Ok(Bool(m.ops.equals(left, right)))
                 else if i[0] == OpNotEqual then Ok(Bool(!m.ops.equals(left, right)))
                 else m.ops.binary(i[1], left, right);
      PushChecks(m, Pop(Pop(st)), res);
      if res.Fail? { return Some(Failed(OpError(res.code))); }
      PushValue(res.v);
      r := None;
    }

    /** The loop's body between reading the instruction i and the growth check: None, or why the run ends. */
    method Execute(i: seq<byte>) returns (r: Option<Result>)
      requires Valid() && i != [] && |i| == InstrLen(i[0])
      modifies this`sp, stack
      ensures stack == old(stack) && sp <= stack.Length
      ensures Plain(m, i, old(Contents())) == if r.Some? then Stops(r.value) else Checked(m, Contents())
    {
      ghost var st := Contents();
      r := None;
      if i[0] == OpConstant {
        if Word(i, 1) >= |m.consts| { return Some(Failed(Crash)); }
        PushValue(m.consts[Word(i, 1)]);
      } else if i[0] == OpNull {
        PushValue(Undefined);
      } else if i[0] == OpTrue {
        PushValue(Bool(true));
      } else if i[0] == OpFalse {
        PushValue(Bool(false));
      } else if i[0] == OpGetLocal {
        var slot := |m.base| + i[1];
        if slot >= sp { return Some(Failed(Crash)); }
        PushValue(stack[slot]);
      } else if sp == 0 {
        return Some(Failed(Crash));
      } else if i[0] == OpPop {
        sp := sp - 1;
        assert Contents() == Pop(st);
      } else if i[0] == OpSetLocal || i[0] == OpDefineLocal {
        var slot := |m.base| + i[1];
        if slot >= sp - 1 { return Some(Failed(Crash)); }
        var val := stack[sp - 1];
        sp := sp - 1;
        stack[slot] := val;
        assert Contents() == Pop(st)[slot := Top(st)];
      } else if i[0] == OpLNot || i[0] == OpMinus || i[0] == OpBComplement {
        r := ExecuteUnary(i[0]);
      } else if sp == 1 {
        return Some(Failed(Crash));
      } else if i[0] == OpEqual || i[0] == OpNotEqual || i[0] == OpBinaryOp {
        r := ExecuteBinary(i);
      } else {
        return Some(Failed(Crash));
      }
    }

    /** A conditional jump looks at the top of the stack and usually pops it. */
    method ExecuteTest(op: byte) returns (faulty: bool, jumps: bool)
      requires Valid() && op in {OpJumpFalsy, OpAndJump, OpOrJump}
      modifies this`sp
      ensures Valid()
      ensures Test(m, op, old(Contents())) == if faulty then Faults(Failed(Crash)) else if jumps then Taken(Contents())
              else NotTaken(Contents())
    {
      ghost var st := Contents();
      if sp == 0 { return true, false; }
      faulty := false;
      var falsy := m.ops.falsy(stack[sp - 1]);
      if op == OpJumpFalsy {
        sp := sp - 1;
        jumps := falsy;
      } else if op == OpAndJump {
        if !falsy { sp := sp - 1; }
        jumps := falsy;
      } else {
        if falsy { sp := sp - 1; }
        jumps := !falsy;
      }
      assert sp < |st| ==> Contents() == Pop(st);
    }

    /** One turn of the loop; the answer is the end of the run, if it is one. */
    method Turn() returns (r: Option<Result>)
      requires Valid()
      modifies this`stack, this`sp, this`ip, stack
      ensures stack == old(stack) || fresh(stack)
      ensures r.None? ==> Valid() && Step(Sem(m), m.code, old(ip), old(Contents())) == Running(ip, Contents())
      ensures r.Some? ==> Step(Sem(m), m.code, old(ip), old(Contents())) == Halted(r.value)
    {
      hide Plain, Test, Capacity, Checked;
      if !Whole(m.code, ip) { return Some(Failed(Truncated)); }
      var op := m.code[ip];
      if op == OpReturn {
        if m.code[ip + 1] != 1 { return Some(Returned(Undefined)); }
        return Some(if sp == 0 then Failed(Crash) else Returned(stack[sp - 1]));
      } else if op == OpJump {
        ip := Target(m.code, ip);
        return None;
      } else if IsJump(op) {
        TestIgnoresCode(m, op, Contents());
        var faulty, jumps := ExecuteTest(op);
        if faulty { return Some(Failed(Crash)); }
        ip := if jumps then Target(m.code, ip) else Next(m.code, ip);
        return None;
      }
      var i := m.code[ip..Next(m.code, ip)];
      PlainIgnoresCode(m, i, Contents());
      r := Execute(i);
      if r.Some? { return; }
      ip := Next(m.code, ip);
      CheckedIs(m, Contents());
      var ok := CheckGrowStack();
      if !ok { r := Some(Failed(StackOverflow)); }
    }

    /** budget turns of the loop, or fewer if the run ends. */
    method Run(budget: nat) returns (r: Option<Result>)
      requires Valid()
      modifies this`stack, this`sp, this`ip, stack
      ensures r.None? ==> Valid()
      ensures RunN(Sem(m), m.code, Running(old(ip), old(Contents())), budget)
              == if r.Some? then Halted(r.value) else Running(ip, Contents())
    {
      hide Step, Capacity;
      var left: nat := budget;
      ghost var end := RunN(Sem(m), m.code, Running(ip, Contents()), budget);
      while left > 0
        invariant Valid() && left <= budget && (stack == old(stack) || fresh(stack))
        invariant RunN(Sem(m), m.code, Running(ip, Contents()), left) == end
      {
        ghost var c := Step(Sem(m), m.code, ip, Contents());
        assert RunN(Sem(m), m.code, c, left - 1) == end;
        r := Turn();
        if r.Some? { return; }
        left := left - 1;
      }
      r := None;
    }
  }

  lemma CheckedIs(m: Machine, st: Stack)
    ensures Checked(m, st) == if |st| >= m.limit then Stops(Failed(StackOverflow)) else Goes(st)
  {
  }
}
