/** The space a run takes that reuses frames (vm/vm.go:907-950): it is bounded by how deep functions call
    others, whatever the number of calls. */
module TailCallSpace {
  import opened Wrappers
  import opened Instructions
  import opened TailCalls
  import opened TailCallProof
  import opened TailCallCheck

  // ----- when an activation is added -----

  /** The activation makes a call of a compiled function that gets a frame of its own. */
  predicate CallsAnew(p: Prog, a: Act, mem: Memory) {
    && AtCall(p, a) && CallAsks(p, a, mem).Asked?
    && var c := CallAsks(p, a, mem);
       && Compiled(p, c.callee) && Arguments(p, ProtoOf(p, c.callee.fn), c.args, mem).Some?
       && !AtReuse(p, a, mem)
  }

  /** The deferred call that is next is one of a compiled function. */
  predicate DefersAnew(p: Prog, a: Act, mem: Memory) {
    && a.leaving.Some? && a.defers != []
    && var d := a.defers[|a.defers| - 1];
       Compiled(p, d.callee) && Arguments(p, ProtoOf(p, d.callee.fn), d.args, mem).Some?
  }

  predicate Adds(p: Prog, a: Act, mem: Memory) { CallsAnew(p, a, mem) || DefersAnew(p, a, mem) }

  /** The function that gets a frame. */
  function Added(p: Prog, a: Act, mem: Memory): Fn
    requires Adds(p, a, mem)
  {
    if CallsAnew(p, a, mem) then CallAsks(p, a, mem).callee.fn else a.defers[|a.defers| - 1].callee.fn
  }

  function Fns(acts: seq<Act>): (r: seq<Fn>)
    ensures |r| == |acts|
  {
    seq(|acts|, k requires 0 <= k < |acts| => acts[k].fn)
  }

  /** The functions that are active after a turn: the same ones, one more, or one less. */
  predicate FnsAfter(p: Prog, below: seq<Act>, a: Act, mem: Memory, t: State) {
    t.Going? ==>
      if Adds(p, a, mem) then Fns(t.acts) == Fns(below) + [a.fn] + [Added(p, a, mem)]
      else Fns(t.acts) == Fns(below) + [a.fn] || (Leaving(p, a) && Fns(t.acts) == Fns(below))
  }

  lemma FnsOf(below: seq<Act>, a: Act)
    ensures Fns(below + [a]) == Fns(below) + [a.fn]
  {
    assert forall k :: 0 <= k < |below| ==> (below + [a])[k] == below[k];
  }

  lemma ReturnFns(below: seq<Act>, v: Val, mem: Memory)
    ensures var t := Return(below, v, mem); t.Going? ==> Fns(t.acts) == Fns(below)
  {
    if below != [] {
      var a, rest := below[|below| - 1], below[..|below| - 1];
      assert rest + [a] == below;
      FnsOf(rest, a);
      if a.leaving.None? && a.operands != [] { FnsOf(rest, a.(operands := Pop(a.operands) + [v])); }
    }
  }

  lemma GoFns(p: Prog, below: seq<Act>, a: Act, next: nat, e: Outcome)
    ensures var t := Go(p, below, a, next, e); t.Going? ==> Fns(t.acts) == Fns(below) + [a.fn]
  {
    hide Fns;
    if e.To? { FnsOf(below, a.(ip := next, locals := e.locals, operands := e.operands)); }
  }

  lemma JumpFns(p: Prog, below: seq<Act>, a: Act, mem: Memory)
    requires Whole(Code(p, a), a.ip) && IsJump(Code(p, a)[a.ip])
    ensures var t := Jump(p, below, a, mem); t.Going? ==> Fns(t.acts) == Fns(below) + [a.fn]
  {
    hide Fns, InstrLen;
    forall ip: nat, o { FnsOf(below, a.(ip := ip, operands := o)); }
    forall ip: nat { FnsOf(below, a.(ip := ip)); }
  }

  lemma CallFns(p: Prog, below: seq<Act>, a: Act, mem: Memory)
    requires AtCall(p, a) && CallAsks(p, a, mem).Asked?
    ensures var c := CallAsks(p, a, mem);
            var t := Call(p, true, below, a, c.callee, c.args, c.rest, Next(Code(p, a), a.ip), mem);
            t.Going? ==> Fns(t.acts) == if CallsAnew(p, a, mem) then Fns(below) + [a.fn] + [c.callee.fn]
                else Fns(below) + [a.fn]
  {
    hide Fns, CallAsks, Arguments, Reuses, Fresh, Again, InstrLen;
    var c, next := CallAsks(p, a, mem), Next(Code(p, a), a.ip);
    if Compiled(p, c.callee) {
      var r := Arguments(p, ProtoOf(p, c.callee.fn), c.args, mem);
      if r.Some? {
        FnsOf(below, Reenter(a, r.value.0, c.rest));
        FnsOf(below, Waits(a, next, c.rest, c.callee));
        FnsOf(below + [Waits(a, next, c.rest, c.callee)], Enter(p, c.callee.fn, r.value.0));
      }
    } else {
      forall v { FnsOf(below, a.(ip := next, operands := c.rest + [v])); }
    }
  }

  lemma InvokeFns(p: Prog, below: seq<Act>, a: Act, mem: Memory)
    requires a.leaving.None? && Whole(Code(p, a), a.ip) && Code(p, a)[a.ip] in {OpCall, OpDefer, OpRoutine}
    ensures |InstrAt(Code(p, a), a.ip)| == 3
    ensures FnsAfter(p, below, a, mem, Invoke(p, true, below, a, InstrAt(Code(p, a), a.ip), Next(Code(p, a), a.ip),
                                              mem))
  {
    hide Fns, Ask, Call, Reuses, InstrLen, Callable, Compiled, Arguments;
    var i, next := InstrAt(Code(p, a), a.ip), Next(Code(p, a), a.ip);
    Operand(Code(p, a), a.ip);
    var c := Ask(p, a.operands, i[1], i[2] == 1, mem);
    if c.Asked? {
      if i[0] == OpCall { CallFns(p, below, a, mem); }
      else if i[0] == OpDefer {
        FnsOf(below, a.(ip := next, operands := c.rest, defers := a.defers + [Deferred(c.callee, c.args)]));
      } else {
        forall v { FnsOf(below, a.(ip := next, operands := c.rest + [v])); }
      }
    }
  }

  lemma NextDeferFns(p: Prog, below: seq<Act>, a: Act, mem: Memory)
    requires a.leaving.Some?
    ensures FnsAfter(p, below, a, mem, NextDefer(p, below, a, mem))
  {
    hide Fns, Return, Arguments, Fresh, CallsAnew;
    Anew(p, a, mem);
    if a.defers == [] { ReturnFns(below, a.leaving.value, mem); }
    else {
      var d, b := a.defers[|a.defers| - 1], a.(defers := a.defers[..|a.defers| - 1]);
      FnsOf(below, b);
      if Compiled(p, d.callee) {
        var r := Arguments(p, ProtoOf(p, d.callee.fn), d.args, mem);
        if r.Some? { FnsOf(below + [b], Enter(p, d.callee.fn, r.value.0)); }
      }
    }
  }

  lemma Anew(p: Prog, a: Act, mem: Memory)
    ensures a.leaving.Some? || !AtCall(p, a) ==> !CallsAnew(p, a, mem)
    ensures a.leaving.None? ==> !DefersAnew(p, a, mem)
  {
  }

  lemma LeaveFns(below: seq<Act>, a: Act, v: Val, mem: Memory)
    ensures var t := Leave(below, a, v, mem);
            t.Going? ==> Fns(t.acts) == Fns(below) || Fns(t.acts) == Fns(below) + [a.fn]
  {
    hide Fns, Return;
    if a.defers == [] { ReturnFns(below, v, mem); }
    else { FnsOf(below, a.(operands := [], leaving := Some(v))); }
  }

  /** A turn with reuse adds an activation exactly where a compiled function is called that is not the
      one that runs, or not in tail position, or with deferred calls pending, or where it is deferred. */
  lemma MoveFns(p: Prog, below: seq<Act>, a: Act, mem: Memory)
    ensures FnsAfter(p, below, a, mem, Move(p, true, below, a, mem))
  {
    hide Fns, NextDefer, Leave, Jump, Invoke, Go, Plain, CallsAnew, DefersAnew, InstrLen;
    Anew(p, a, mem);
    if a.leaving.Some? { NextDeferFns(p, below, a, mem); }
    else if Whole(Code(p, a), a.ip) {
      var i := InstrAt(Code(p, a), a.ip);
      if i[0] == OpReturn { forall v { LeaveFns(below, a, v, mem); } }
      else if IsJump(i[0]) { JumpFns(p, below, a, mem); }
      else if i[0] in {OpCall, OpDefer, OpRoutine} { InvokeFns(p, below, a, mem); }
      else if i[0] != OpSuspend {
        GoFns(p, below, a, Next(Code(p, a), a.ip), Plain(p, a.fn, i, a.locals, a.operands, mem));
      }
    }
  }

  // ----- frames -----

  /** Ranks of functions; a function may make calls that get a frame only of functions of lower rank. */
  type Ranks = nat -> nat

  predicate StepsDown(p: Prog, rank: Ranks, s: State) {
    s.Going? && s.acts != [] ==>
      var a := s.acts[|s.acts| - 1];
      Adds(p, a, s.mem) ==> rank(Added(p, a, s.mem).proto) < rank(a.fn.proto)
  }

  /** All through the run: other calls than the self calls for which the frame is used again go to
      functions of lower rank. */
  ghost predicate Nests(p: Prog, rank: Ranks, s: State) { forall n: nat :: StepsDown(p, rank, Turns(p, true, s, n)) }

  /** Every active function has a rank that leaves room for those above it. */
  ghost predicate Descends(rank: Ranks, top: nat, fns: seq<Fn>) {
    forall k :: 0 <= k < |fns| ==> rank(fns[k].proto) + k <= top
  }

  lemma DescendsMore(rank: Ranks, top: nat, fns: seq<Fn>, a: Fn, b: Fn)
    requires Descends(rank, top, fns + [a]) && rank(b.proto) < rank(a.proto)
    ensures Descends(rank, top, fns + [a] + [b])
  {
    assert (fns + [a])[|fns|] == a;
  }

  lemma DescendsLess(rank: Ranks, top: nat, fns: seq<Fn>, a: Fn)
    requires Descends(rank, top, fns + [a])
    ensures Descends(rank, top, fns)
  {
    forall k | 0 <= k < |fns| ensures rank(fns[k].proto) + k <= top { assert (fns + [a])[k] == fns[k]; }
  }

  ghost predicate Low(rank: Ranks, top: nat, s: State) { s.Going? ==> s.acts != [] && Descends(rank, top, Fns(s.acts)) }

  lemma TurnLow(p: Prog, rank: Ranks, top: nat, s: State)
    requires Low(rank, top, s) && StepsDown(p, rank, s)
    ensures Low(rank, top, Turn(p, true, s))
  {
    hide Descends, Fns, Adds, Added, Move, Leaving;
    if s.Going? {
      var below, a := s.acts[..|s.acts| - 1], s.acts[|s.acts| - 1];
      assert below + [a] == s.acts;
      FnsOf(below, a);
      MoveFns(p, below, a, s.mem);
      if Adds(p, a, s.mem) { DescendsMore(rank, top, Fns(below), a.fn, Added(p, a, s.mem)); }
      DescendsLess(rank, top, Fns(below), a.fn);
      MoveNotEmpty(p, below, a, s.mem);
    }
  }

  lemma MoveNotEmpty(p: Prog, below: seq<Act>, a: Act, mem: Memory)
    ensures var t := Move(p, true, below, a, mem); t.Going? ==> t.acts != []
  {
    hide Plain, Ask, Arguments, TailPosition, InstrLen, Target, Fresh, Again;
  }

  lemma {:induction false} TurnsLow(p: Prog, rank: Ranks, top: nat, s: State, n: nat)
    requires Low(rank, top, s) && Nests(p, rank, s)
    ensures Low(rank, top, Turns(p, true, s, n))
    decreases n
  {
    hide Low, StepsDown, Turn;
    if n != 0 {
      assert StepsDown(p, rank, Turns(p, true, s, 0));
      TurnLow(p, rank, top, s);
      forall k: nat ensures StepsDown(p, rank, Turns(p, true, Turn(p, true, s), k)) {
        assert Turns(p, true, s, k + 1) == Turns(p, true, Turn(p, true, s), k);
        assert StepsDown(p, rank, Turns(p, true, s, k + 1));
      }
      TurnsLow(p, rank, top, Turn(p, true, s), n - 1);
    }
  }

  /** The number of frames of a run is bounded by the rank of the function called, whatever the number of
      its calls; with rank 0 there is one frame all the time. */
  lemma FramesBounded(p: Prog, rank: Ranks, fn: Fn, args: seq<Val>, mem: Memory, n: nat)
    requires Nests(p, rank, Called(p, fn, args, mem))
    ensures var s := Turns(p, true, Called(p, fn, args, mem), n);
            s.Going? ==> 1 <= |s.acts| <= 1 + rank(fn.proto)
  {
    hide Nests, Enter, Turns;
    var s := Called(p, fn, args, mem);
    EnterFn(p, fn, args);
    assert Low(rank, rank(fn.proto), s);
    TurnsLow(p, rank, rank(fn.proto), s, n);
    var t := Turns(p, true, s, n);
    if t.Going? { assert rank(Fns(t.acts)[|t.acts| - 1].proto) + (|t.acts| - 1) <= rank(fn.proto); }
  }

  /** A run whose calls of compiled functions are self calls in tail position with no deferred calls
      pending has one frame all the time. */
  lemma OneFrame(p: Prog, fn: Fn, args: seq<Val>, mem: Memory, n: nat)
    requires forall k: nat :: var s := Turns(p, true, Called(p, fn, args, mem), k);
                              s.Going? && s.acts != [] ==> !Adds(p, s.acts[|s.acts| - 1], s.mem)
    ensures var s := Turns(p, true, Called(p, fn, args, mem), n); s.Going? ==> |s.acts| == 1
  {
    hide Adds, Called, Turns;
    FramesBounded(p, k => 0, fn, args, mem, n);
  }

  lemma EnterFn(p: Prog, fn: Fn, args: seq<Val>)
    ensures Enter(p, fn, args).fn == fn
  {
  }

  // ----- words of the stack -----

  /** The stack pointer: the slots and operands of all activations. */
  function Words(acts: seq<Act>): nat {
    if acts == [] then 0 else |acts[0].locals| + |acts[0].operands| + Words(acts[1..])
  }

  lemma {:induction false} WordsBounded(acts: seq<Act>, w: nat)
    requires forall k :: 0 <= k < |acts| ==> |acts[k].locals| + |acts[k].operands| <= w
    ensures Words(acts) <= |acts| * w
  {
    if acts != [] { WordsBounded(acts[1..], w); }
  }

  /** No function has more slots and operands at a time than w. */
  ghost predicate Fit(p: Prog, tables: seq<Table>, w: nat) {
    |tables| == |p.protos| &&
    forall k :: 0 <= k < |tables| ==>
      p.protos[k].numLocals <= w && forall q <- tables[k] :: p.protos[k].numLocals + tables[k][q].depth <= w
  }

  lemma ActFits(p: Prog, tables: seq<Table>, w: nat, a: Act, waits: bool)
    requires Fit(p, tables, w) && ActOk(p, tables, a, waits)
    ensures |a.locals| == ProtoOf(p, a.fn).numLocals && |a.locals| + |a.operands| <= w
  {
    hide Pointers;
  }

  lemma StartsEmpty(p: Prog, tables: seq<Table>, a: Act, waits: bool)
    requires AllChecked(p, tables) && ActOk(p, tables, a, waits) && a.ip == 0 && a.leaving.None?
    ensures a.operands == []
  {
    hide Pointers, InstrOk;
    assert Checked(p, p.protos[a.fn.proto], tables[a.fn.proto]);
  }

  /** However many calls it makes, a run that reuses frames takes no more than the bounded number of
      frames, each with the slots of its function, and a stack bounded by the code. Whenever a function
      starts, or starts again, it has no operands: the stack pointer is where it was at the call. */
  lemma SpaceBounded(p: Prog, tables: seq<Table>, rank: Ranks, w: nat, fn: Fn, args: seq<Val>, mem: Memory, n: nat)
    requires AllChecked(p, tables) && AllClean(p, tables) && Fit(p, tables, w)
    requires fn.proto < |p.protos| && |args| == p.protos[fn.proto].params
    requires Nests(p, rank, Called(p, fn, args, mem))
    ensures var s := Turns(p, true, Called(p, fn, args, mem), n);
            s.Going? ==>
              && 1 <= |s.acts| <= 1 + rank(fn.proto) && Words(s.acts) <= (1 + rank(fn.proto)) * w
              && (forall k :: 0 <= k < |s.acts| ==> |s.acts[k].locals| == ProtoOf(p, s.acts[k].fn).numLocals)
              && (forall k ::
                   0 <= k < |s.acts| && s.acts[k].ip == 0 && s.acts[k].leaving.None? ==> s.acts[k].operands == [])
  {
    hide AllChecked, AllClean, Fit, Nests, Called, Turns, ActOk, ProtoOf;
    CalledOk(p, tables, fn, args, mem);
    TurnsOk(p, tables, true, Called(p, fn, args, mem), n);
    FramesBounded(p, rank, fn, args, mem, n);
    var s := Turns(p, true, Called(p, fn, args, mem), n);
    if s.Going? {
      forall k | 0 <= k < |s.acts|
        ensures |s.acts[k].locals| == ProtoOf(p, s.acts[k].fn).numLocals
                && |s.acts[k].locals| + |s.acts[k].operands| <= w
        ensures s.acts[k].ip == 0 && s.acts[k].leaving.None? ==> s.acts[k].operands == []
      {
        ActFits(p, tables, w, s.acts[k], k < |s.acts| - 1);
        if s.acts[k].ip == 0 && s.acts[k].leaving.None? { StartsEmpty(p, tables, s.acts[k], k < |s.acts| - 1); }
      }
      WordsBounded(s.acts, w);
      Times(|s.acts|, 1 + rank(fn.proto), w);
    }
  }

  lemma Times(a: nat, b: nat, w: nat)
    requires a <= b
    ensures a * w <= b * w
  {
  }
}
