/** What calls, captured variables and deferred calls mean on the machine with frames
    (vm/vm.go:847-1070, 1091-1234, 1300-1432). */
module TailCallMeaning {
  import opened Wrappers
  import opened Instructions
  import opened TailCalls

  /** The widths of the operands, opcode by opcode. */
  lemma OperandWidths()
    ensures forall op: byte ::
              Widths(op) == if op in {OpConstant, OpJumpFalsy, OpAndJump, OpOrJump, OpJump, OpArray, OpMap, OpGetGlobal,
                                      OpSetGlobal} then [2]
                            else if op in {OpSetSelGlobal, OpClosure} then [2, 1]
                            else if op in {OpCall, OpSetSelLocal, OpSetSelFree, OpRoutine, OpDefer} then [1, 1]
                            else if op in {OpReturn, OpGetLocal, OpSetLocal, OpDefineLocal, OpGetFreePtr, OpGetFree,
                                           OpSetFree, OpGetLocalPtr, OpGetBuiltin, OpBinaryOp} then [1]
                            else []
  {
  }

  // ----- operands -----

  lemma Split(rest: seq<Val>, o: seq<Val>)
    ensures Last(rest + o, |o|) == o && Below(rest + o, |o|) == rest
  {
  }

  /** The value comes before the selectors, and operands are in the order in which they were pushed. */
  lemma OperandOrder(p: Prog, fn: Fn, i: seq<byte>, locals: seq<Slot>, rest: seq<Val>, o: seq<Val>, mem: Memory)
    requires i != [] && |i| == InstrLen(i[0])
    ensures Operates(i[0]) && Operands(i) == |o| ==>
              Operate(p, i, locals, rest + o, mem)
              == match p.operate(i, o, mem)
                 case None => Fails
                 case Some(r) => To(locals, rest + [r.0], r.1)
    ensures Selects(i[0]) && Selectors(i) + 1 == |o| && Destination(fn, i, locals, mem).Got? ==>
              Assign(p, fn, i, locals, rest + o, mem)
              == match p.assign(Destination(fn, i, locals, mem).v, o[0], o[1..], mem)
                 case None => Fails
                 case Some(m) => To(locals, rest, m)
    ensures |o| == 3 ==>
              TakeSlice(p, locals, rest + o, mem)
              == match p.slice(o[0], o[1], o[2], mem)
                 case BadBounds => Fails
                 case NotSliceable => To(locals, rest, mem)
                 case Slice(v, m) => To(locals, rest + [v], m)
  {
    hide InstrLen, Operands, Selectors;
    Split(rest, o);
  }

  // ----- calls -----

  lemma AskPlain(p: Prog, rest: seq<Val>, callee: Val, args: seq<Val>, mem: Memory)
    ensures Ask(p, rest + [callee] + args, |args|, false, mem) == Asked(callee, args, rest)
  {
    var o := [callee] + args;
    assert rest + [callee] + args == rest + o;
    Split(rest, o);
    Split(rest + [callee], args);
  }

  /** A call with its own frame: the callee starts with the arguments in its first slots, and when it has
      returned v, the caller goes on behind the call with v in place of the function and the arguments. */
  lemma CallAndReturn(p: Prog, reuse: bool, below: seq<Act>, a: Act, i: seq<byte>, next: nat, rest: seq<Val>, g: Fn,
                      args: seq<Val>, v: Val, mem: Memory)
    requires a.leaving.None? && a.operands == rest + [Function(g)] + args && g.proto < |p.protos|
    requires !ProtoOf(p, g).varArgs && |args| == ProtoOf(p, g).params && |args| < 256
    requires i == [OpCall, |args|, 0] && !(reuse && Reuses(p, a, Function(g), next))
    ensures var s := Invoke(p, reuse, below, a, i, next, mem);
            && s.Going? && s.mem == mem && |s.acts| == |below| + 2 && s.acts[..|below|] == below
            && Return(s.acts[..|below| + 1], v, mem) == Going(below + [a.(ip := next, operands := rest + [v])], mem)
            && var c := s.acts[|below| + 1];
               && c.fn == g && c.ip == 0 && c.operands == [] && c.defers == [] && c.leaving.None?
               && |c.locals| == ProtoOf(p, g).numLocals
               && forall k :: 0 <= k < |args| ==> c.locals[k] == Put(args[k])
  {
    hide Reuses;
    AskPlain(p, rest, Function(g), args, mem);
    var w, c := Waits(a, next, rest, Function(g)), Enter(p, g, args);
    var s := Invoke(p, reuse, below, a, i, next, mem);
    assert s == Going(below + [w] + [c], mem);
    assert s.acts[..|below|] == below && s.acts[..|below| + 1] == below + [w];
    assert (below + [w])[..|below|] == below && Pop(w.operands) == rest;
  }

  /** What cannot be called is not, nor deferred; and only arrays can be spread. */
  lemma Refused(p: Prog, reuse: bool, below: seq<Act>, a: Act, op: byte, next: nat, rest: seq<Val>, callee: Val,
                args: seq<Val>, mem: Memory)
    requires a.operands == rest + [callee] + args && |args| < 256 && op in {OpCall, OpDefer, OpRoutine}
    ensures op != OpRoutine && !callee.Function? && !p.callable(callee) ==>
              Invoke(p, reuse, below, a, [op, |args|, 0], next, mem) == Failed
    ensures args != [] && p.items(args[|args| - 1], mem).None? ==>
              Invoke(p, reuse, below, a, [op, |args|, 1], next, mem) == Failed
  {
    AskPlain(p, rest, callee, args, mem);
    if args != [] {
      Split(rest + [callee], args);
      assert Top(args) == args[|args| - 1];
    }
  }

  /** A variadic function that passes its parameters on, the last one spread, passes on the arguments it
      was called with, however many there were. */
  lemma SpreadUndoesRollUp(p: Prog, f: Proto, rest: seq<Val>, callee: Val, args: seq<Val>, mem: Memory)
    requires f.varArgs && |args| >= f.params - 1
    requires forall xs, m :: p.items(p.pack(xs, m).0, p.pack(xs, m).1) == Some(xs)
    ensures Arguments(p, f, args, mem).Some?
    ensures var (params, m) := Arguments(p, f, args, mem).value;
            && |params| == f.params
            && params[..f.params - 1] == args[..f.params - 1]
            && Ask(p, rest + [callee] + params, f.params, true, m) == Asked(callee, args, rest)
  {
    var k := f.params - 1;
    var (params, m) := Arguments(p, f, args, mem).value;
    assert p.items(Top(params), m) == Some(args[k..]);
    AskPlain(p, rest, callee, params, m);
    assert Pop(params) + args[k..] == args;
  }

  /** Any other number of arguments than parameters is an error, unless a variadic function gets at least
      all but its last parameter. */
  lemma WrongNumber(p: Prog, f: Proto, args: seq<Val>, mem: Memory)
    ensures Arguments(p, f, args, mem).None?
            <==> if f.varArgs then |args| + 1 < f.params else |args| != f.params
    ensures !f.varArgs && |args| == f.params ==> Arguments(p, f, args, mem) == Some((args, mem))
  {
  }

  // ----- captured variables -----

  /** The local x is captured and a closure is made of it. */
  function MakeClosure(p: Prog, x: byte, k: nat, locals: seq<Slot>, o: seq<Val>, mem: Memory): Outcome
    requires k < 65536
  {
    WordOfHiLo(k);
    var e := Capture([OpGetLocalPtr, x], locals, o, mem);
    if e.To? then Close(p, [OpClosure, Hi(k), Lo(k), 1], e.locals, e.operands, e.mem) else e
  }

  /** g assigns its captured variable, and x reads it. */
  ghost predicate InnerSeen(g: Fn, x: nat, locals: seq<Slot>, mem: Memory, v: Val) {
    forall ls, q ::
      var s := Store(g, [OpSetFree, 0], ls, q + [v], mem);
      s.To? && s.operands == q && ReadLocal(locals, x, s.mem) == Got(v)
  }

  /** x is assigned, and g reads it. */
  ghost predicate OuterSeen(fn: Fn, g: Fn, x: byte, locals: seq<Slot>, mem: Memory, v: Val) {
    forall q ::
      var s := Store(fn, [OpSetLocal, x], locals, q + [v], mem);
      s.To? && s.operands == q && ReadFree(g, 0, s.mem) == Got(v) == ReadLocal(s.locals, x, s.mem)
  }

  /** x is declared anew, and g keeps what it has. */
  ghost predicate Parted(fn: Fn, g: Fn, x: byte, locals: seq<Slot>, mem: Memory, v: Val) {
    forall q ::
      var s := Store(fn, [OpDefineLocal, x], locals, q + [v], mem);
      s.To? && ReadFree(g, 0, s.mem) == ReadFree(g, 0, mem) && ReadLocal(s.locals, x, s.mem) == Got(v)
  }

  /** The closure and the function that makes it share the variable: what the one assigns the other reads,
      both ways, until the function declares it anew. */
  lemma ClosureShares(p: Prog, fn: Fn, x: byte, k: nat, locals: seq<Slot>, o: seq<Val>, mem: Memory, v: Val)
    requires x < |locals| && ReadLocal(locals, x, mem).Got?
    requires k < 65536 && k < |p.consts| && p.consts[k].Function? && !v.Pointer?
    ensures var e := MakeClosure(p, x, k, locals, o, mem);
            && e.To? && |e.operands| == |o| + 1 && e.operands[..|o|] == o && e.operands[|o|].Function?
            && var g := e.operands[|o|].fn;
               && g.proto == p.consts[k].fn.proto && |g.free| == 1
               && ReadFree(g, 0, e.mem) == ReadLocal(e.locals, x, e.mem) == ReadLocal(locals, x, mem)
               && InnerSeen(g, x, e.locals, e.mem, v) && OuterSeen(fn, g, x, e.locals, e.mem, v)
               && Parted(fn, g, x, e.locals, e.mem, v)
  {
    hide InnerSeen, OuterSeen, Parted;
    var e1 := Capture([OpGetLocalPtr, x], locals, o, mem);
    var c := e1.locals[x].cell;
    assert e1 == To(e1.locals, o + [Pointer(c)], e1.mem) && e1.locals[x] == Shared(c) && c < |e1.mem.cells|;
    Split(o, [Pointer(c)]);
    assert Pointers([Pointer(c)]) && Cells([Pointer(c)]) == [c];
    WordOfHiLo(k);
    assert Word([OpClosure, Hi(k), Lo(k), 1], 1) == k;
    var g := Fn(e1.mem.made, p.consts[k].fn.proto, [c]);
    var e := MakeClosure(p, x, k, locals, o, mem);
    assert e == To(e1.locals, o + [Function(g)], e1.mem.(made := e1.mem.made + 1));
    CellShared(fn, g, x, c, e.locals, e.mem, v);
  }

  lemma CellShared(fn: Fn, g: Fn, x: byte, c: nat, locals: seq<Slot>, mem: Memory, v: Val)
    requires x < |locals| && locals[x] == Shared(c) && c < |mem.cells| && g.free == [c] && !v.Pointer?
    ensures InnerSeen(g, x, locals, mem, v) && OuterSeen(fn, g, x, locals, mem, v) && Parted(fn, g, x, locals, mem, v)
  {
    forall q: seq<Val> ensures Pop(q + [v]) == q && Top(q + [v]) == v {}
  }

  /** Which variable or value each loading instruction pushes. */
  lemma LoadsWhat(p: Prog, fn: Fn, i: byte, g: nat, locals: seq<Slot>, mem: Memory)
    requires g < 65536
    ensures Load(p, fn, [OpGetGlobal, Hi(g), Lo(g)], locals, mem) == ReadGlobal(g, mem)
    ensures g < |p.consts| ==> Load(p, fn, [OpConstant, Hi(g), Lo(g)], locals, mem) == Got(p.consts[g])
    ensures Load(p, fn, [OpGetFree, i], locals, mem) == ReadFree(fn, i, mem)
    ensures i < |fn.free| ==> Load(p, fn, [OpGetFreePtr, i], locals, mem) == Got(Pointer(fn.free[i]))
    ensures i < p.builtins ==> Load(p, fn, [OpGetBuiltin, i], locals, mem) == Got(Builtin(i))
    ensures Load(p, fn, [OpGetLocal, i], locals, mem) == ReadLocal(locals, i, mem)
  {
    WordOfHiLo(g);
    assert Word([OpGetGlobal, Hi(g), Lo(g)], 1) == g && Word([OpConstant, Hi(g), Lo(g)], 1) == g;
  }

  /** A variable holds what was stored in it last; no other is touched. */
  lemma GlobalKeeps(p: Prog, fn: Fn, g: nat, h: nat, locals: seq<Slot>, q: seq<Val>, v: Val, mem: Memory)
    requires g < 65536 && g < |mem.globals|
    ensures var s := Store(fn, [OpSetGlobal, Hi(g), Lo(g)], locals, q + [v], mem);
            && s.To? && s.locals == locals && s.operands == q && s.mem.cells == mem.cells && s.mem.heap == mem.heap
            && ReadGlobal(h, s.mem) == if h == g then Got(v) else ReadGlobal(h, mem)
  {
    WordOfHiLo(g);
    assert Word([OpSetGlobal, Hi(g), Lo(g)], 1) == g;
    assert Pop(q + [v]) == q && Top(q + [v]) == v;
  }

  // ----- deferred calls -----

  /** The calls of native functions, the last one first. */
  function LastFirst(p: Prog, ds: seq<Deferred>, mem: Memory): Option<Memory>
    decreases |ds|
  {
    if ds == [] then Some(mem)
    else
      match p.native(ds[|ds| - 1].callee, ds[|ds| - 1].args, mem)
      case None => None
      case Some(r) => LastFirst(p, ds[..|ds| - 1], r.1)
  }

  /** A return with native functions deferred: they are called in reverse order, their results are
      dropped, and the caller gets the result computed before. */
  lemma {:induction false} DefersRun(p: Prog, reuse: bool, below: seq<Act>, a: Act, v: Val, mem: Memory)
    requires a.leaving == Some(v) && LastFirst(p, a.defers, mem).Some?
    requires forall k :: 0 <= k < |a.defers| ==> !Compiled(p, a.defers[k].callee)
    ensures Turns(p, reuse, Going(below + [a], mem), |a.defers| + 1)
            == Return(below, v, LastFirst(p, a.defers, mem).value)
    decreases |a.defers|
  {
    hide Turn, Turns, Return;
    var s := Going(below + [a], mem);
    TurnOf(p, reuse, below, a, mem);
    OneTurn(p, reuse, s);
    if a.defers != [] {
      var n := |a.defers| - 1;
      var r := p.native(a.defers[n].callee, a.defers[n].args, mem).value;
      DefersRun(p, reuse, below, a.(defers := a.defers[..n]), v, r.1);
      assert Turns(p, reuse, s, (n + 1) + 1) == Turns(p, reuse, Turn(p, reuse, s), n + 1);
    }
  }

  /** The same from the return instruction on. */
  lemma ReturnRunsDefers(p: Prog, reuse: bool, below: seq<Act>, a: Act, v: Val, mem: Memory)
    requires a.leaving.None? && a.defers != [] && LastFirst(p, a.defers, mem).Some?
    requires forall k :: 0 <= k < |a.defers| ==> !Compiled(p, a.defers[k].callee)
    ensures Turns(p, reuse, Leave(below, a, v, mem), |a.defers| + 1)
            == Return(below, v, LastFirst(p, a.defers, mem).value)
  {
    DefersRun(p, reuse, below, a.(operands := [], leaving := Some(v)), v, mem);
  }

  /** A deferred compiled function gets a frame of its own with its arguments; whatever it returns, the
      function that deferred it goes on with the calls that are left and keeps its own result. */
  lemma DeferEnters(p: Prog, below: seq<Act>, a: Act, more: seq<Deferred>, g: Fn, args: seq<Val>, v: Val, w: Val,
                    mem: Memory)
    requires a.leaving == Some(v) && a.defers == more + [Deferred(Function(g), args)] && g.proto < |p.protos|
    requires !ProtoOf(p, g).varArgs && |args| == ProtoOf(p, g).params
    ensures var s := NextDefer(p, below, a, mem);
            && s.Going? && s.mem == mem && |s.acts| == |below| + 2 && s.acts[|below| + 1] == Enter(p, g, args)
            && Return(s.acts[..|below| + 1], w, mem) == Going(below + [a.(defers := more)], mem)
  {
    assert (more + [Deferred(Function(g), args)])[..|more|] == more;
    var b, c := a.(defers := more), Enter(p, g, args);
    assert NextDefer(p, below, a, mem) == Going(below + [b] + [c], mem);
    assert (below + [b] + [c])[..|below| + 1] == below + [b];
  }
}
