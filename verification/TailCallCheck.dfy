/** A check of the code that a run can rely on: which slots are written and how many operands there are
    at each instruction. Code that passes it never reads what it has not written (vm/vm.go:442-1290), so
    that the reuse of frames is a call and a return. */
module TailCallCheck {
  import opened Wrappers
  import opened Instructions
  import opened TailCalls
  import opened TailCallProof

  /** The slots that have been written, the number of operands, and how many of those on top are
      pointers of captured variables. */
  datatype Shape = Shape(written: set<nat>, depth: nat, ptrs: nat)

  type Table = map<nat, Shape>

  function Minus(a: nat, b: nat): nat { if a < b then 0 else a - b }

  function Pushed(sh: Shape, ptr: bool): Shape { sh.(depth := sh.depth + 1, ptrs := if ptr then sh.ptrs + 1 else 0) }

  function Taken(sh: Shape, n: nat): Shape { sh.(depth := Minus(sh.depth, n), ptrs := Minus(sh.ptrs, n)) }

  /** No value that is not sliceable is sliced. */
  ghost predicate SlicesPush(p: Prog) { forall v, l, h, mem :: !p.slice(v, l, h, mem).NotSliceable? }

  // ----- what an instruction needs, and what it leaves -----

  ghost function LoadShape(i: seq<byte>, sh: Shape): Option<Shape>
    requires i != [] && |i| == InstrLen(i[0]) && Loads(i[0])
  {
    if i[0] == OpGetLocal && i[1] !in sh.written then None else Some(Pushed(sh, i[0] == OpGetFreePtr))
  }

  ghost function StoreShape(f: Proto, i: seq<byte>, sh: Shape): Option<Shape>
    requires i != [] && |i| == InstrLen(i[0]) && Stores(i[0])
  {
    if sh.depth == 0 then None
    else if i[0] == OpDefineLocal then
      if i[1] < f.numLocals then Some(Taken(sh, 1).(written := sh.written + {i[1]})) else None
    else if i[0] == OpSetLocal && i[1] !in sh.written then None
    else Some(Taken(sh, 1))
  }

  ghost function SelectShape(i: seq<byte>, sh: Shape): Option<Shape>
    requires i != [] && |i| == InstrLen(i[0]) && Selects(i[0])
  {
    if sh.depth <= Selectors(i) || (i[0] == OpSetSelLocal && i[1] !in sh.written) then None
    else Some(Taken(sh, Selectors(i) + 1))
  }

  ghost function PlainShape(p: Prog, f: Proto, i: seq<byte>, sh: Shape): Option<Shape>
    requires i != [] && |i| == InstrLen(i[0])
  {
    if Loads(i[0]) then LoadShape(i, sh)
    else if Stores(i[0]) then StoreShape(f, i, sh)
    else if Operates(i[0]) then if Operands(i) <= sh.depth then Some(Pushed(Taken(sh, Operands(i)), false)) else None
    else if Selects(i[0]) then SelectShape(i, sh)
    else if i[0] == OpPop then if sh.depth > 0 then Some(Taken(sh, 1)) else None
    else if i[0] == OpGetLocalPtr then if i[1] in sh.written then Some(Pushed(sh, true)) else None
    else if i[0] == OpSliceIndex then if SlicesPush(p) && sh.depth >= 3 then Some(Pushed(Taken(sh, 3), false)) else None
    else if i[0] == OpClosure then if i[3] <= sh.ptrs then Some(Pushed(Taken(sh, i[3]), false)) else None
    else Some(sh)
  }

  /** The table knows no more at q than sh says. */
  predicate Leads(table: Table, q: nat, sh: Shape) {
    q in table && table[q].written <= sh.written && table[q].depth == sh.depth && table[q].ptrs <= sh.ptrs
  }

  ghost predicate InstrOk(p: Prog, f: Proto, table: Table, q: nat)
    requires q in table && Whole(f.code, q)
  {
    var sh, i, next := table[q], InstrAt(f.code, q), Next(f.code, q);
    if i[0] == OpReturn then i[1] == 1 ==> sh.depth > 0
    else if i[0] == OpJump then Leads(table, Target(f.code, q), sh)
    else if IsJump(i[0]) then
      && sh.depth > 0 && Leads(table, next, Taken(sh, 1))
      && Leads(table, Target(f.code, q), if i[0] == OpJumpFalsy then Taken(sh, 1) else sh)
    else if i[0] in {OpCall, OpDefer, OpRoutine} then
      var n: nat := i[1];
      && n < sh.depth && (i[2] == 1 ==> n > 0)
      && Leads(table, next, if i[0] == OpDefer then Taken(sh, n + 1) else Pushed(Taken(sh, n + 1), false))
    else i[0] == OpSuspend || (PlainShape(p, f, i, sh).Some? && Leads(table, next, PlainShape(p, f, i, sh).value))
  }

  /** A function is entered with its parameters written and no operands. */
  predicate EntryOk(f: Proto, table: Table) {
    0 in table && table[0].depth == 0 && table[0].ptrs == 0 && forall k <- table[0].written :: k < f.params
  }

  ghost predicate Checked(p: Prog, f: Proto, table: Table) {
    && EntryOk(f, table)
    && forall q <- table :: table[q].ptrs <= table[q].depth && (Whole(f.code, q) ==> InstrOk(p, f, table, q))
  }

  /** Calls in tail position have only the function and its arguments as operands. */
  ghost predicate TailsClean(f: Proto, table: Table) {
    forall q <- table :: Whole(f.code, q) && f.code[q] == OpCall && TailPosition(f.code, Next(f.code, q)) ==>
      table[q].depth - 1 == f.code[q + 1]
  }

  ghost predicate AllChecked(p: Prog, tables: seq<Table>) {
    |tables| == |p.protos| && forall k :: 0 <= k < |tables| ==> Checked(p, p.protos[k], tables[k])
  }

  ghost predicate AllClean(p: Prog, tables: seq<Table>) {
    |tables| == |p.protos| && forall k :: 0 <= k < |tables| ==> TailsClean(p.protos[k], tables[k])
  }

  // ----- what the table says of an activation -----

  ghost predicate Fits(locals: seq<Slot>, o: seq<Val>, sh: Shape) {
    && |o| == sh.depth && sh.ptrs <= sh.depth && Pointers(Last(o, sh.ptrs))
    && forall k <- sh.written :: k < |locals| && !locals[k].Unset?
  }

  /** A waiting activation has the function it has called on top of its operands. */
  ghost predicate ActOk(p: Prog, tables: seq<Table>, a: Act, waits: bool) {
    && a.fn.proto < |p.protos| && |tables| == |p.protos| && |a.locals| == p.protos[a.fn.proto].numLocals
    && if a.leaving.Some? then a.operands == []
       else
         var table := tables[a.fn.proto];
         a.ip in table && Fits(a.locals, a.operands, table[a.ip])
             && (waits ==> a.operands != [] && table[a.ip].ptrs == 0)
  }

  ghost predicate StateOk(p: Prog, tables: seq<Table>, s: State) {
    match s
    case Stuck => false
    case Going(acts, _) =>
      && acts != [] && ActOk(p, tables, acts[|acts| - 1], false)
      && forall k :: 0 <= k < |acts| - 1 ==> ActOk(p, tables, acts[k], true)
    case _ => true
  }

  ghost predicate BelowOk(p: Prog, tables: seq<Table>, below: seq<Act>) {
    forall k :: 0 <= k < |below| ==> ActOk(p, tables, below[k], true)
  }

  lemma ActsOk(p: Prog, tables: seq<Table>, below: seq<Act>, a: Act, mem: Memory)
    requires BelowOk(p, tables, below) && ActOk(p, tables, a, false)
    ensures StateOk(p, tables, Going(below + [a], mem))
  {
    hide ActOk;
  }

  lemma OneMoreWaits(p: Prog, tables: seq<Table>, below: seq<Act>, a: Act)
    requires BelowOk(p, tables, below) && ActOk(p, tables, a, true)
    ensures BelowOk(p, tables, below + [a])
  {
    hide ActOk;
  }

  lemma FitsLess(table: Table, q: nat, sh: Shape, locals: seq<Slot>, o: seq<Val>)
    requires Leads(table, q, sh) && Fits(locals, o, sh)
    ensures Fits(locals, o, table[q])
  {
    hide Pointers;
    LastLess(o, table[q].ptrs, sh.ptrs);
  }

  lemma LastLess(o: seq<Val>, m: nat, n: nat)
    requires m <= n <= |o| && Pointers(Last(o, n))
    ensures Pointers(Last(o, m))
  {
    forall k | 0 <= k < m ensures Last(o, m)[k].Pointer? {
      assert Last(o, m)[k] == Last(o, n)[n - m + k];
    }
  }

  lemma FitsPushed(locals: seq<Slot>, o: seq<Val>, sh: Shape, v: Val, ptr: bool)
    requires Fits(locals, o, sh) && (ptr ==> v.Pointer?)
    ensures Fits(locals, o + [v], Pushed(sh, ptr))
  {
    if ptr { assert Last(o + [v], sh.ptrs + 1) == Last(o, sh.ptrs) + [v]; }
  }

  lemma FitsTaken(locals: seq<Slot>, o: seq<Val>, sh: Shape, n: nat)
    requires Fits(locals, o, sh) && n <= sh.depth
    ensures Fits(locals, Below(o, n), Taken(sh, n))
  {
    hide Pointers;
    if n < sh.ptrs { PointersTaken(o, n, sh.ptrs); } else { NoPointers(Below(o, n)); }
  }

  lemma PointersTaken(o: seq<Val>, n: nat, ptrs: nat)
    requires n <= ptrs <= |o| && Pointers(Last(o, ptrs))
    ensures Pointers(Last(Below(o, n), ptrs - n))
  {
    var w := Last(Below(o, n), ptrs - n);
    forall k | 0 <= k < |w| ensures w[k].Pointer? {
      assert Last(o, ptrs)[k] == o[|o| - ptrs + k] == Below(o, n)[|o| - ptrs + k];
    }
  }

  lemma NoPointers(o: seq<Val>)
    ensures Pointers(Last(o, 0))
  {
  }

  // ----- instructions that stay in the activation -----

  ghost predicate Keeps(f: Proto, e: Outcome, r: Shape) {
    !e.Missing? && (e.To? ==> |e.locals| == f.numLocals && Fits(e.locals, e.operands, r))
  }

  lemma LoadFits(p: Prog, fn: Fn, f: Proto, i: seq<byte>, locals: seq<Slot>, o: seq<Val>, mem: Memory, sh: Shape)
    requires i != [] && |i| == InstrLen(i[0]) && Loads(i[0]) && |locals| == f.numLocals && Fits(locals, o, sh)
    requires LoadShape(i, sh).Some?
    ensures Keeps(f, Push(Load(p, fn, i, locals, mem), locals, o, mem), LoadShape(i, sh).value)
  {
    hide InstrLen, Fits, Pushed;
    var l := Load(p, fn, i, locals, mem);
    if i[0] == OpGetLocal { ReadWritten(locals, o, sh, i[1], mem); }
    if l.Got? { FitsPushed(locals, o, sh, l.v, i[0] == OpGetFreePtr); }
  }

  lemma ReadWritten(locals: seq<Slot>, o: seq<Val>, sh: Shape, k: nat, mem: Memory)
    requires Fits(locals, o, sh) && k in sh.written
    ensures k < |locals| && !locals[k].Unset? && !ReadLocal(locals, k, mem).Unwritten?
  {
  }

  lemma StoreFits(fn: Fn, f: Proto, i: seq<byte>, locals: seq<Slot>, o: seq<Val>, mem: Memory, sh: Shape)
    requires i != [] && |i| == InstrLen(i[0]) && Stores(i[0]) && |locals| == f.numLocals && Fits(locals, o, sh)
    requires StoreShape(f, i, sh).Some?
    ensures o != [] && Keeps(f, Store(fn, i, locals, o, mem), StoreShape(f, i, sh).value)
  {
    hide InstrLen, Pointers;
    FitsTaken(locals, o, sh, 1);
    assert Pop(o) == Below(o, 1);
  }

  lemma OperateFits(p: Prog, f: Proto, i: seq<byte>, locals: seq<Slot>, o: seq<Val>, mem: Memory, sh: Shape)
    requires i != [] && |i| == InstrLen(i[0]) && Operates(i[0]) && |locals| == f.numLocals && Fits(locals, o, sh)
    requires Operands(i) <= sh.depth
    ensures Keeps(f, Operate(p, i, locals, o, mem), Pushed(Taken(sh, Operands(i)), false))
  {
    hide InstrLen, Operands, Taken, Pushed;
    Depth(locals, o, sh);
    hide Fits;
    var n := Operands(i);
    FitsTaken(locals, o, sh, n);
    var r := p.operate(i, Last(o, n), mem);
    if r.Some? { FitsPushed(locals, Below(o, n), Taken(sh, n), r.value.0, false); }
  }

  lemma Depth(locals: seq<Slot>, o: seq<Val>, sh: Shape)
    requires Fits(locals, o, sh)
    ensures |o| == sh.depth && sh.ptrs <= sh.depth
  {
  }

  lemma SelectFits(p: Prog, fn: Fn, f: Proto, i: seq<byte>, locals: seq<Slot>, o: seq<Val>, mem: Memory, sh: Shape)
    requires i != [] && |i| == InstrLen(i[0]) && Selects(i[0]) && |locals| == f.numLocals && Fits(locals, o, sh)
    requires SelectShape(i, sh).Some?
    ensures Keeps(f, Assign(p, fn, i, locals, o, mem), SelectShape(i, sh).value)
  {
    hide InstrLen, Selectors, Taken;
    Depth(locals, o, sh);
    hide Fits;
    if i[0] == OpSetSelLocal { ReadWritten(locals, o, sh, i[1], mem); }
    FitsTaken(locals, o, sh, Selectors(i) + 1);
  }

  lemma CaptureFits(f: Proto, i: seq<byte>, locals: seq<Slot>, o: seq<Val>, mem: Memory, sh: Shape)
    requires i != [] && |i| == InstrLen(i[0]) && i[0] == OpGetLocalPtr && |locals| == f.numLocals && Fits(locals, o, sh)
    requires i[1] in sh.written
    ensures Keeps(f, Capture(i, locals, o, mem), Pushed(sh, true))
  {
    hide InstrLen, Pushed, Pointers;
    var l := locals[i[1]];
    var c := if l.Shared? then l.cell else |mem.cells|;
    FitsPushed(locals, o, sh, Pointer(c), true);
    assert Fits(locals[i[1] := Shared(c)], o + [Pointer(c)], Pushed(sh, true)) by {
      WrittenStays(locals, o + [Pointer(c)], Pushed(sh, true), i[1], Shared(c));
    }
  }

  lemma WrittenStays(locals: seq<Slot>, o: seq<Val>, sh: Shape, k: nat, l: Slot)
    requires Fits(locals, o, sh) && k < |locals| && !l.Unset?
    ensures Fits(locals[k := l], o, sh)
  {
  }

  lemma SliceFits(p: Prog, f: Proto, locals: seq<Slot>, o: seq<Val>, mem: Memory, sh: Shape)
    requires |locals| == f.numLocals && Fits(locals, o, sh) && SlicesPush(p) && sh.depth >= 3
    ensures Keeps(f, TakeSlice(p, locals, o, mem), Pushed(Taken(sh, 3), false))
  {
    hide Taken, Pushed;
    Depth(locals, o, sh);
    hide Fits;
    FitsTaken(locals, o, sh, 3);
    var l := Last(o, 3);
    var r := p.slice(l[0], l[1], l[2], mem);
    if r.Slice? { FitsPushed(locals, Below(o, 3), Taken(sh, 3), r.v, false); }
  }

  lemma CloseFits(p: Prog, f: Proto, i: seq<byte>, locals: seq<Slot>, o: seq<Val>, mem: Memory, sh: Shape)
    requires i != [] && |i| == InstrLen(i[0]) && i[0] == OpClosure && |locals| == f.numLocals && Fits(locals, o, sh)
    requires i[3] <= sh.ptrs
    ensures Keeps(f, Close(p, i, locals, o, mem), Pushed(Taken(sh, i[3]), false))
  {
    hide InstrLen, Taken, Pushed, Pointers;
    Depth(locals, o, sh);
    FitsTaken(locals, o, sh, i[3]);
    LastLess(o, i[3], sh.ptrs);
    hide Fits;
    if Word(i, 1) < |p.consts| && p.consts[Word(i, 1)].Function? {
      var fn := Fn(mem.made, p.consts[Word(i, 1)].fn.proto, Cells(Last(o, i[3])));
      FitsPushed(locals, Below(o, i[3]), Taken(sh, i[3]), Function(fn), false);
    }
  }

  lemma PlainFits(p: Prog, fn: Fn, f: Proto, i: seq<byte>, locals: seq<Slot>, o: seq<Val>, mem: Memory, sh: Shape)
    requires i != [] && |i| == InstrLen(i[0]) && |locals| == f.numLocals && Fits(locals, o, sh)
    requires PlainShape(p, f, i, sh).Some?
    ensures Keeps(f, Plain(p, fn, i, locals, o, mem), PlainShape(p, f, i, sh).value)
  {
    hide InstrLen, Load, Push, Store, Operate, Assign, Capture, TakeSlice, Close, LoadShape, StoreShape, SelectShape,
        Operands;
    hide SlicesPush, Taken, Pushed;
    Depth(locals, o, sh);
    hide Fits;
    if Loads(i[0]) { LoadFits(p, fn, f, i, locals, o, mem, sh); }
    else if Stores(i[0]) { StoreFits(fn, f, i, locals, o, mem, sh); }
    else if Operates(i[0]) { OperateFits(p, f, i, locals, o, mem, sh); }
    else if Selects(i[0]) { SelectFits(p, fn, f, i, locals, o, mem, sh); }
    else if i[0] == OpPop {
      FitsTaken(locals, o, sh, 1);
      assert Pop(o) == Below(o, 1);
    }
    else if i[0] == OpGetLocalPtr { CaptureFits(f, i, locals, o, mem, sh); }
    else if i[0] == OpSliceIndex { SliceFits(p, f, locals, o, mem, sh); }
    else if i[0] == OpClosure { CloseFits(p, f, i, locals, o, mem, sh); }
  }

  // ----- one turn -----

  /** The current activation is at a call. */
  predicate AtCall(p: Prog, a: Act) {
    a.leaving.None? && Whole(Code(p, a), a.ip) && Code(p, a)[a.ip] == OpCall
  }

  function CallAsks(p: Prog, a: Act, mem: Memory): Asked
    requires AtCall(p, a)
  {
    Ask(p, a.operands, Code(p, a)[a.ip + 1], Code(p, a)[a.ip + 2] == 1, mem)
  }

  /** At a call for which the frame can be used again. */
  predicate AtReuse(p: Prog, a: Act, mem: Memory) {
    AtCall(p, a) && CallAsks(p, a, mem).Asked? && Reuses(p, a, CallAsks(p, a, mem).callee, Next(Code(p, a), a.ip))
  }

  /** What is known of the activation that takes a turn. */
  ghost predicate Current(p: Prog, tables: seq<Table>, below: seq<Act>, a: Act) {
    AllChecked(p, tables) && BelowOk(p, tables, below) && ActOk(p, tables, a, false)
  }

  ghost function ShapeOf(p: Prog, tables: seq<Table>, a: Act): Shape
    requires ActOk(p, tables, a, false) && a.leaving.None?
  {
    tables[a.fn.proto][a.ip]
  }

  /** The activation goes on at q as the table says. */
  lemma MovesOn(p: Prog, tables: seq<Table>, below: seq<Act>, a: Act, q: nat, locals: seq<Slot>, o: seq<Val>, sh: Shape,
                mem: Memory)
    requires BelowOk(p, tables, below) && ActOk(p, tables, a, false) && a.leaving.None?
    requires |locals| == |a.locals| && Fits(locals, o, sh) && Leads(tables[a.fn.proto], q, sh)
    ensures StateOk(p, tables, Going(below + [a.(ip := q, locals := locals, operands := o)], mem))
  {
    hide Leads, StateOk, BelowOk;
    LeadsIn(tables[a.fn.proto], q, sh);
    FitsLess(tables[a.fn.proto], q, sh, locals, o);
    hide Fits;
    ActsOk(p, tables, below, a.(ip := q, locals := locals, operands := o), mem);
  }

  lemma LeadsIn(table: Table, q: nat, sh: Shape)
    requires Leads(table, q, sh)
    ensures q in table && table[q].depth == sh.depth && table[q].ptrs <= sh.ptrs
  {
  }

  /** The instruction at hand. */
  lemma Here(p: Prog, tables: seq<Table>, below: seq<Act>, a: Act)
    requires Current(p, tables, below, a) && a.leaving.None?
    ensures a.fn.proto < |p.protos| && |tables| == |p.protos| && ProtoOf(p, a.fn) == p.protos[a.fn.proto]
    ensures var f, table := p.protos[a.fn.proto], tables[a.fn.proto];
            && Code(p, a) == f.code && |a.locals| == f.numLocals && a.ip in table
              && Fits(a.locals, a.operands, table[a.ip])
            && |a.operands| == table[a.ip].depth
            && (Whole(f.code, a.ip) ==> InstrOk(p, f, table, a.ip))
  {
    hide InstrOk;
    assert Checked(p, p.protos[a.fn.proto], tables[a.fn.proto]);
  }

  lemma JumpOk(p: Prog, tables: seq<Table>, below: seq<Act>, a: Act, mem: Memory)
    requires Current(p, tables, below, a) && a.leaving.None? && Whole(Code(p, a), a.ip) && IsJump(Code(p, a)[a.ip])
    ensures StateOk(p, tables, Jump(p, below, a, mem))
  {
    hide StateOk, BelowOk, PlainShape, Leads, AllChecked, Taken, InstrLen;
    Here(p, tables, below, a);
    var code, sh := Code(p, a), ShapeOf(p, tables, a);
    hide Fits;
    var op, target, next := code[a.ip], Target(code, a.ip), Next(code, a.ip);
    if op == OpJump {
      MovesOn(p, tables, below, a, target, a.locals, a.operands, sh, mem);
    } else {
      FitsTaken(a.locals, a.operands, sh, 1);
      assert Pop(a.operands) == Below(a.operands, 1);
      var jumps := p.falsy(Top(a.operands), mem) == (op != OpOrJump);
      var stays := op != OpJumpFalsy && jumps;
      MovesOn(p, tables, below, a, if jumps then target else next, a.locals,
              if stays then a.operands else Pop(a.operands),
              if stays then sh else Taken(sh, 1), mem);
    }
  }

  lemma EnterOk(p: Prog, tables: seq<Table>, fn: Fn, args: seq<Val>)
    requires AllChecked(p, tables) && fn.proto < |p.protos| && |args| == p.protos[fn.proto].params
    ensures ActOk(p, tables, Enter(p, fn, args), false)
  {
    hide InstrOk;
    var f := p.protos[fn.proto];
    assert Checked(p, f, tables[fn.proto]);
    var locals := Fresh(f, args);
    assert Fits(locals, [], tables[fn.proto][0]);
  }

  lemma ReenterOk(p: Prog, tables: seq<Table>, a: Act, args: seq<Val>)
    requires AllChecked(p, tables) && ActOk(p, tables, a, false) && |args| == p.protos[a.fn.proto].params
    ensures ActOk(p, tables, Reenter(a, args, []), false)
  {
    hide InstrOk;
    var f := p.protos[a.fn.proto];
    assert Checked(p, f, tables[a.fn.proto]);
    var locals := Again(a.locals, args);
    assert Fits(locals, [], tables[a.fn.proto][0]);
  }

  /** The operands a call takes, and what is left. */
  lemma AskFits(p: Prog, locals: seq<Slot>, o: seq<Val>, n: nat, spread: bool, mem: Memory, sh: Shape)
    requires Fits(locals, o, sh) && n < sh.depth && (spread ==> n > 0)
    ensures var r := Ask(p, o, n, spread, mem); !r.TooFew? && (r.Asked? ==> r.rest == Below(o, n + 1))
    ensures Fits(locals, Below(o, n + 1), Taken(sh, n + 1))
    ensures forall v :: Fits(locals, Below(o, n + 1) + [v], Pushed(Taken(sh, n + 1), false))
  {
    hide Taken, Pushed;
    Depth(locals, o, sh);
    hide Fits;
    FitsTaken(locals, o, sh, n + 1);
    forall v { FitsPushed(locals, Below(o, n + 1), Taken(sh, n + 1), v, false); }
  }

  lemma WaitsOk(p: Prog, tables: seq<Table>, a: Act, next: nat, rest: seq<Val>, callee: Val, sh: Shape)
    requires ActOk(p, tables, a, false) && a.leaving.None?
    requires Fits(a.locals, rest + [callee], Pushed(sh, false)) && Leads(tables[a.fn.proto], next, Pushed(sh, false))
    ensures ActOk(p, tables, Waits(a, next, rest, callee), true)
  {
    FitsLess(tables[a.fn.proto], next, Pushed(sh, false), a.locals, rest + [callee]);
  }

  lemma CallOk(p: Prog, tables: seq<Table>, reuse: bool, below: seq<Act>, a: Act, callee: Val, args: seq<Val>,
               rest: seq<Val>,
               next: nat, mem: Memory, sh: Shape)
    requires Current(p, tables, below, a) && a.leaving.None? && Leads(tables[a.fn.proto], next, Pushed(sh, false))
    requires forall v :: Fits(a.locals, rest + [v], Pushed(sh, false))
    requires reuse && Reuses(p, a, callee, next) ==> rest == []
    ensures StateOk(p, tables, Call(p, reuse, below, a, callee, args, rest, next, mem))
  {
    hide StateOk, BelowOk, AllChecked, Leads, Fits, Pushed, Arguments, Reuses, Enter, Reenter, Waits, ActOk;
    ProtoIn(p, tables, a);
    if Callable(p, callee) {
      if Compiled(p, callee) {
        var r := Arguments(p, ProtoOf(p, callee.fn), args, mem);
        if r.Some? {
          if reuse && Reuses(p, a, callee, next) {
            SameFunction(p, a, callee, next);
            ReenterOk(p, tables, a, r.value.0);
            ActsOk(p, tables, below, Reenter(a, r.value.0, []), r.value.1);
          } else {
            WaitsOk(p, tables, a, next, rest, callee, sh);
            OneMoreWaits(p, tables, below, Waits(a, next, rest, callee));
            EnterOk(p, tables, callee.fn, r.value.0);
            ActsOk(p, tables, below + [Waits(a, next, rest, callee)], Enter(p, callee.fn, r.value.0), r.value.1);
          }
        } else { OtherOk(p, tables, Failed); }
      } else {
        var r := p.native(callee, args, mem);
        if r.Some? {
          MovesOn(p, tables, below, a, next, a.locals, rest + [r.value.0], Pushed(sh, false), r.value.1);
        } else { OtherOk(p, tables, Failed); }
      }
    } else { OtherOk(p, tables, Failed); }
  }

  lemma SameFunction(p: Prog, a: Act, callee: Val, next: nat)
    requires Reuses(p, a, callee, next)
    ensures callee == Function(a.fn)
  {
  }

  lemma ProtoIn(p: Prog, tables: seq<Table>, a: Act)
    requires ActOk(p, tables, a, false)
    ensures a.fn.proto < |p.protos| && |tables| == |p.protos|
  {
  }

  lemma OtherOk(p: Prog, tables: seq<Table>, s: State)
    requires !s.Going? && s != Stuck
    ensures StateOk(p, tables, s)
  {
  }

  lemma InvokeOk(p: Prog, tables: seq<Table>, reuse: bool, below: seq<Act>, a: Act, mem: Memory)
    requires Current(p, tables, below, a) && a.leaving.None? && Whole(Code(p, a), a.ip)
    requires Code(p, a)[a.ip] in {OpCall, OpDefer, OpRoutine} && (reuse ==> AllClean(p, tables))
    ensures |InstrAt(Code(p, a), a.ip)| == 3
    ensures StateOk(p, tables, Invoke(p, reuse, below, a, InstrAt(Code(p, a), a.ip), Next(Code(p, a), a.ip), mem))
  {
    hide StateOk, BelowOk, AllChecked, Leads, PlainShape, Pushed, Taken, Call, Reuses, AllClean, Ask;
    Here(p, tables, below, a);
    var code, sh := Code(p, a), ShapeOf(p, tables, a);
    hide Fits, ActOk;
    var i, next := InstrAt(code, a.ip), Next(code, a.ip);
    var n: nat := i[1];
    var rest := Taken(sh, n + 1);
    Operand(code, a.ip);
    OtherOk(p, tables, Failed);
    AskFits(p, a.locals, a.operands, n, i[2] == 1, mem, sh);
    var y := Ask(p, a.operands, n, i[2] == 1, mem);
    if y.Asked? {
      if i[0] == OpCall {
        if reuse { CleanRest(p, tables, a, y.callee, n); }
        CallOk(p, tables, reuse, below, a, y.callee, y.args, y.rest, next, mem, rest);
      } else if i[0] == OpDefer {
        if Callable(p, y.callee) { RegisterOk(p, tables, below, a, y.callee, y.args, y.rest, next, mem, rest); }
      } else {
        var r := p.routine(y.callee, y.args, mem);
        if r.Some? {
          MovesOn(p, tables, below, a, next, a.locals, y.rest + [r.value.0], Pushed(rest, false), r.value.1);
        }
      }
    }
  }

  lemma RegisterOk(p: Prog, tables: seq<Table>, below: seq<Act>, a: Act, callee: Val, args: seq<Val>, rest: seq<Val>,
                   next: nat, mem: Memory, sh: Shape)
    requires Current(p, tables, below, a) && a.leaving.None? && Leads(tables[a.fn.proto], next, sh)
             && Fits(a.locals, rest, sh)
    requires Callable(p, callee)
    ensures StateOk(p, tables, Register(p, below, a, callee, args, rest, next, mem))
  {
    hide StateOk, BelowOk, AllChecked, Leads;
    LeadsIn(tables[a.fn.proto], next, sh);
    FitsLess(tables[a.fn.proto], next, sh, a.locals, rest);
    hide Fits;
    ActsOk(p, tables, below, a.(ip := next, operands := rest, defers := a.defers + [Deferred(callee, args)]), mem);
  }

  lemma CleanRest(p: Prog, tables: seq<Table>, a: Act, callee: Val, n: nat)
    requires AllClean(p, tables) && ActOk(p, tables, a, false) && AtCall(p, a) && n == Code(p, a)[a.ip + 1]
    requires n < |a.operands|
    ensures Reuses(p, a, callee, Next(Code(p, a), a.ip)) ==> Below(a.operands, n + 1) == []
  {
    hide Pointers;
    assert TailsClean(p.protos[a.fn.proto], tables[a.fn.proto]);
  }

  lemma ReturnOk(p: Prog, tables: seq<Table>, below: seq<Act>, v: Val, mem: Memory)
    requires BelowOk(p, tables, below)
    ensures StateOk(p, tables, Return(below, v, mem))
  {
    hide Fits;
    if below == [] { OtherOk(p, tables, Done(v, mem)); }
    else {
      var a, rest := below[|below| - 1], below[..|below| - 1];
      assert ActOk(p, tables, a, true);
      if a.leaving.Some? {
        ActsOk(p, tables, rest, a, mem);
        assert rest + [a] == below;
      } else {
        var b := a.(operands := Pop(a.operands) + [v]);
        Replaced(a.locals, a.operands, tables[a.fn.proto][a.ip], v);
        ActsOk(p, tables, rest, b, mem);
      }
    }
  }

  lemma Replaced(locals: seq<Slot>, o: seq<Val>, sh: Shape, v: Val)
    requires Fits(locals, o, sh) && o != [] && sh.ptrs == 0
    ensures Fits(locals, Pop(o) + [v], sh)
  {
  }

  lemma LeaveOk(p: Prog, tables: seq<Table>, below: seq<Act>, a: Act, v: Val, mem: Memory)
    requires Current(p, tables, below, a)
    ensures StateOk(p, tables, Leave(below, a, v, mem))
  {
    hide StateOk, BelowOk, AllChecked, Return;
    if a.defers == [] { ReturnOk(p, tables, below, v, mem); }
    else { ActsOk(p, tables, below, a.(operands := [], leaving := Some(v)), mem); }
  }

  lemma NextDeferOk(p: Prog, tables: seq<Table>, below: seq<Act>, a: Act, mem: Memory)
    requires Current(p, tables, below, a) && a.leaving.Some?
    ensures StateOk(p, tables, NextDefer(p, below, a, mem))
  {
    hide StateOk, BelowOk, AllChecked, Return, Arguments, Enter;
    if a.defers == [] { ReturnOk(p, tables, below, a.leaving.value, mem); }
    else {
      OtherOk(p, tables, Broken(mem));
      var d, b := a.defers[|a.defers| - 1], a.(defers := a.defers[..|a.defers| - 1]);
      if Compiled(p, d.callee) {
        var r := Arguments(p, ProtoOf(p, d.callee.fn), d.args, mem);
        if r.Some? {
          OneMoreWaits(p, tables, below, b);
          EnterOk(p, tables, d.callee.fn, r.value.0);
          ActsOk(p, tables, below + [b], Enter(p, d.callee.fn, r.value.0), r.value.1);
        }
      } else {
        var r := p.native(d.callee, d.args, mem);
        if r.Some? { ActsOk(p, tables, below, b, r.value.1); }
      }
    }
  }

  lemma MoveOk(p: Prog, tables: seq<Table>, reuse: bool, below: seq<Act>, a: Act, mem: Memory)
    requires Current(p, tables, below, a) && (reuse ==> AllClean(p, tables))
    ensures StateOk(p, tables, Move(p, reuse, below, a, mem))
  {
    hide StateOk, BelowOk, AllChecked, AllClean, Leads, PlainShape, Plain, Invoke, Jump, NextDefer, Leave, Current,
        ActOk;
    OtherOk(p, tables, Failed);
    OtherOk(p, tables, Suspended(mem));
    if a.leaving.Some? { NextDeferOk(p, tables, below, a, mem); }
    else if Whole(Code(p, a), a.ip) {
      var i := InstrAt(Code(p, a), a.ip);
      if i[0] == OpReturn { ReturnsOk(p, tables, below, a, mem); }
      else if IsJump(i[0]) { JumpOk(p, tables, below, a, mem); }
      else if i[0] in {OpCall, OpDefer, OpRoutine} { InvokeOk(p, tables, reuse, below, a, mem); }
      else if i[0] != OpSuspend { PlainOk(p, tables, below, a, mem); }
    }
  }

  lemma ReturnsOk(p: Prog, tables: seq<Table>, below: seq<Act>, a: Act, mem: Memory)
    requires Current(p, tables, below, a) && a.leaving.None? && Whole(Code(p, a), a.ip) && Code(p, a)[a.ip] == OpReturn
    ensures InstrAt(Code(p, a), a.ip)[1] == 1 ==> a.operands != []
    ensures forall v :: StateOk(p, tables, Leave(below, a, v, mem))
  {
    hide StateOk, BelowOk, AllChecked, Leads, PlainShape, Leave, Fits;
    Here(p, tables, below, a);
    forall v { LeaveOk(p, tables, below, a, v, mem); }
  }

  lemma PlainOk(p: Prog, tables: seq<Table>, below: seq<Act>, a: Act, mem: Memory)
    requires Current(p, tables, below, a) && a.leaving.None? && Whole(Code(p, a), a.ip)
    requires var op := Code(p, a)[a.ip]; !IsJump(op) && op !in {OpReturn, OpCall, OpDefer, OpRoutine, OpSuspend}
    ensures var i := InstrAt(Code(p, a), a.ip);
            StateOk(p, tables, Go(p, below, a, Next(Code(p, a), a.ip), Plain(p, a.fn, i, a.locals, a.operands, mem)))
  {
    hide StateOk, BelowOk, AllChecked, Leads, PlainShape, Plain, InstrLen;
    Here(p, tables, below, a);
    var f, sh := ProtoOf(p, a.fn), ShapeOf(p, tables, a);
    hide Fits;
    var i, next := InstrAt(Code(p, a), a.ip), Next(Code(p, a), a.ip);
    PlainFits(p, a.fn, f, i, a.locals, a.operands, mem, sh);
    var e := Plain(p, a.fn, i, a.locals, a.operands, mem);
    if e.To? { MovesOn(p, tables, below, a, next, e.locals, e.operands, PlainShape(p, f, i, sh).value, e.mem); }
    else { OtherOk(p, tables, Failed); }
  }

  lemma TurnOk(p: Prog, tables: seq<Table>, reuse: bool, s: State)
    requires AllChecked(p, tables) && StateOk(p, tables, s) && (reuse ==> AllClean(p, tables))
    ensures StateOk(p, tables, Turn(p, reuse, s))
  {
    hide AllChecked, AllClean, ActOk, Move;
    if s.Going? { MoveOk(p, tables, reuse, s.acts[..|s.acts| - 1], s.acts[|s.acts| - 1], s.mem); }
  }

  // ----- whole runs -----

  lemma {:induction false} TurnsOk(p: Prog, tables: seq<Table>, reuse: bool, s: State, n: nat)
    requires AllChecked(p, tables) && StateOk(p, tables, s) && (reuse ==> AllClean(p, tables))
    ensures StateOk(p, tables, Turns(p, reuse, s, n))
    decreases n
  {
    hide AllChecked, AllClean, StateOk, Turn;
    if n != 0 {
      TurnOk(p, tables, reuse, s);
      TurnsOk(p, tables, reuse, Turn(p, reuse, s), n - 1);
    }
  }

  lemma CalledOk(p: Prog, tables: seq<Table>, fn: Fn, args: seq<Val>, mem: Memory)
    requires AllChecked(p, tables) && fn.proto < |p.protos| && |args| == p.protos[fn.proto].params
    ensures StateOk(p, tables, Called(p, fn, args, mem))
  {
    hide AllChecked, StateOk, Enter;
    EnterOk(p, tables, fn, args);
    assert [] + [Enter(p, fn, args)] == [Enter(p, fn, args)];
    ActsOk(p, tables, [], Enter(p, fn, args), mem);
  }

  /** Code that passes the check never reads a slot it has not written nor an operand it has not pushed. */
  lemma CheckedIsProper(p: Prog, tables: seq<Table>, fn: Fn, args: seq<Val>, mem: Memory)
    requires AllChecked(p, tables) && fn.proto < |p.protos| && |args| == p.protos[fn.proto].params
    ensures Proper(p, Called(p, fn, args, mem))
  {
    hide AllChecked, Called, Turns;
    CalledOk(p, tables, fn, args, mem);
    forall n: nat ensures Turns(p, false, Called(p, fn, args, mem), n) != Stuck {
      TurnsOk(p, tables, false, Called(p, fn, args, mem), n);
    }
  }

  // ----- results -----

  /** Wherever the lookahead sees a return, it is the return of the result. */
  ghost predicate TailsReturn(f: Proto, table: Table) {
    forall q <- table :: Whole(f.code, q) && f.code[q] == OpCall && TailPosition(f.code, Next(f.code, q)) ==>
      ReturnsResult(f.code, Next(f.code, q))
  }

  /** The function returns no value anywhere. */
  ghost predicate ReturnsNothing(f: Proto, table: Table) {
    forall q <- table :: q < |f.code| && f.code[q] == OpReturn ==> q + 1 < |f.code| && f.code[q + 1] != 1
  }

  /** Each function returns the results of its calls in tail position, or nothing at all. */
  ghost predicate TailsOk(p: Prog, tables: seq<Table>) {
    |tables| == |p.protos| &&
    forall k :: 0 <= k < |tables| ==> TailsReturn(p.protos[k], tables[k]) || ReturnsNothing(p.protos[k], tables[k])
  }

  ghost predicate Silent(p: Prog, tables: seq<Table>, fn: Fn) {
    fn.proto < |p.protos| && |tables| == |p.protos| && ReturnsNothing(p.protos[fn.proto], tables[fn.proto])
  }

  /** What is known of an activation that waits for the one above it. */
  ghost predicate Link(p: Prog, tables: seq<Table>, t: Act, above: Act) {
    t.leaving.None? ==>
      && t.operands != [] && Top(t.operands) == Function(above.fn)
      && (Spared(p, t) ==> ReturnsResult(Code(p, t), t.ip) || Silent(p, tables, t.fn))
  }

  ghost predicate Quiet(p: Prog, tables: seq<Table>, a: Act) {
    a.leaving.Some? && Silent(p, tables, a.fn) ==> a.leaving.value == Undefined
  }

  ghost predicate Chain(p: Prog, tables: seq<Table>, acts: seq<Act>) {
    && (forall k :: 0 <= k < |acts| - 1 ==> Link(p, tables, acts[k], acts[k + 1]))
    && (forall k :: 0 <= k < |acts| ==> Quiet(p, tables, acts[k]))
  }

  ghost predicate Chained(p: Prog, tables: seq<Table>, s: State) { s.Going? ==> Chain(p, tables, s.acts) }

  lemma ChainTop(p: Prog, tables: seq<Table>, below: seq<Act>, a: Act, b: Act)
    requires Chain(p, tables, below + [a]) && b.fn == a.fn && Quiet(p, tables, b)
    ensures Chain(p, tables, below + [b])
  {
    hide Quiet, Spared, Silent, ReturnsResult;
    var x, y := below + [a], below + [b];
    forall k | 0 <= k < |y| - 1 ensures Link(p, tables, y[k], y[k + 1]) { assert Link(p, tables, x[k], x[k + 1]); }
    forall k | 0 <= k < |y| ensures Quiet(p, tables, y[k]) { assert Quiet(p, tables, x[k]); }
  }

  /** The activation on top changes and does not leave. */
  lemma ChainAny(p: Prog, tables: seq<Table>, below: seq<Act>, a: Act)
    requires Chain(p, tables, below + [a])
    ensures forall b: Act :: b.fn == a.fn && b.leaving.None? ==> Chain(p, tables, below + [b])
  {
    hide Chain;
    forall b: Act | b.fn == a.fn && b.leaving.None? ensures Chain(p, tables, below + [b]) {
      ChainTop(p, tables, below, a, b);
    }
  }

  lemma ChainMore(p: Prog, tables: seq<Table>, acts: seq<Act>, t: Act, b: Act)
    requires Chain(p, tables, acts + [t]) && Link(p, tables, t, b) && b.leaving.None?
    ensures Chain(p, tables, acts + [t] + [b])
  {
    hide Link, Silent;
    var x, y := acts + [t], acts + [t] + [b];
    assert forall k :: 0 <= k < |x| ==> y[k] == x[k];
  }

  lemma ChainLess(p: Prog, tables: seq<Table>, below: seq<Act>, a: Act)
    requires Chain(p, tables, below + [a])
    ensures Chain(p, tables, below)
    ensures below != [] ==> Link(p, tables, below[|below| - 1], a)
  {
    hide Link, Quiet;
    var x := below + [a];
    assert forall k :: 0 <= k < |below| ==> x[k] == below[k];
    if below != [] { assert Link(p, tables, x[|below| - 1], x[|below|]); }
  }

  lemma ReturnChain(p: Prog, tables: seq<Table>, below: seq<Act>, v: Val, mem: Memory)
    requires Chain(p, tables, below)
    ensures Chained(p, tables, Return(below, v, mem))
  {
    hide Chain;
    if below != [] {
      var a, rest := below[|below| - 1], below[..|below| - 1];
      assert rest + [a] == below;
      if a.leaving.None? && a.operands != [] { ChainAny(p, tables, rest, a); }
    }
  }

  lemma GoChain(p: Prog, tables: seq<Table>, below: seq<Act>, a: Act, next: nat, e: Outcome)
    requires Chain(p, tables, below + [a]) && a.leaving.None?
    ensures Chained(p, tables, Go(p, below, a, next, e))
  {
    hide Chain;
    ChainAny(p, tables, below, a);
  }

  lemma JumpChain(p: Prog, tables: seq<Table>, below: seq<Act>, a: Act, mem: Memory)
    requires Chain(p, tables, below + [a]) && a.leaving.None? && Whole(Code(p, a), a.ip) && IsJump(Code(p, a)[a.ip])
    ensures Chained(p, tables, Jump(p, below, a, mem))
  {
    hide Chain, InstrLen;
    ChainAny(p, tables, below, a);
  }

  lemma CallChain(p: Prog, tables: seq<Table>, below: seq<Act>, a: Act, callee: Val, args: seq<Val>, rest: seq<Val>,
                  next: nat, mem: Memory)
    requires Chain(p, tables, below + [a]) && a.leaving.None?
    requires Reuses(p, a, callee, next) ==> ReturnsResult(Code(p, a), next) || Silent(p, tables, a.fn)
    ensures Chained(p, tables, Call(p, false, below, a, callee, args, rest, next, mem))
  {
    hide Chain, Silent, ReturnsResult, TailPosition, Arguments, Fresh;
    ChainAny(p, tables, below, a);
    if Compiled(p, callee) {
      var r := Arguments(p, ProtoOf(p, callee.fn), args, mem);
      if r.Some? {
        var t := Waits(a, next, rest, callee);
        assert Top(t.operands) == callee;
        ChainMore(p, tables, below, t, Enter(p, callee.fn, r.value.0));
      }
    }
  }

  /** What the check says of a self call in tail position. */
  lemma TailSite(p: Prog, tables: seq<Table>, below: seq<Act>, a: Act)
    requires Current(p, tables, below, a) && TailsOk(p, tables) && AtCall(p, a)
    requires TailPosition(Code(p, a), Next(Code(p, a), a.ip))
    ensures ReturnsResult(Code(p, a), Next(Code(p, a), a.ip)) || Silent(p, tables, a.fn)
  {
    hide InstrOk, TailPosition, ReturnsResult, ReturnsNothing, Fits;
    Here(p, tables, below, a);
    var k := a.fn.proto;
    assert TailsReturn(p.protos[k], tables[k]) || ReturnsNothing(p.protos[k], tables[k]);
  }

  lemma InvokeChain(p: Prog, tables: seq<Table>, below: seq<Act>, a: Act, mem: Memory)
    requires Current(p, tables, below, a) && TailsOk(p, tables) && Chain(p, tables, below + [a]) && a.leaving.None?
    requires Whole(Code(p, a), a.ip) && Code(p, a)[a.ip] in {OpCall, OpDefer, OpRoutine}
    ensures |InstrAt(Code(p, a), a.ip)| == 3
    ensures Chained(p, tables, Invoke(p, false, below, a, InstrAt(Code(p, a), a.ip), Next(Code(p, a), a.ip), mem))
  {
    hide Chain, TailsOk, Current, Ask, Call, ReturnsResult, Silent, TailPosition;
    ChainAny(p, tables, below, a);
    var i, next := InstrAt(Code(p, a), a.ip), Next(Code(p, a), a.ip);
    Operand(Code(p, a), a.ip);
    var c := Ask(p, a.operands, i[1], i[2] == 1, mem);
    if c.Asked? && i[0] == OpCall {
      if TailPosition(Code(p, a), next) { TailSite(p, tables, below, a); }
      CallChain(p, tables, below, a, c.callee, c.args, c.rest, next, mem);
    }
  }

  lemma LeaveChain(p: Prog, tables: seq<Table>, below: seq<Act>, a: Act, v: Val, mem: Memory)
    requires Chain(p, tables, below + [a]) && (Silent(p, tables, a.fn) ==> v == Undefined)
    ensures Chained(p, tables, Leave(below, a, v, mem))
  {
    hide Chain, Silent, Return;
    ChainLess(p, tables, below, a);
    ReturnChain(p, tables, below, v, mem);
    ChainTop(p, tables, below, a, a.(operands := [], leaving := Some(v)));
  }

  lemma NextDeferChain(p: Prog, tables: seq<Table>, below: seq<Act>, a: Act, mem: Memory)
    requires Chain(p, tables, below + [a]) && a.leaving.Some?
    ensures Chained(p, tables, NextDefer(p, below, a, mem))
  {
    hide Silent, Return, Arguments, Fresh;
    assert (below + [a])[|below|] == a;
    hide Chain;
    ChainLess(p, tables, below, a);
    ReturnChain(p, tables, below, a.leaving.value, mem);
    if a.defers != [] {
      var d, b := a.defers[|a.defers| - 1], a.(defers := a.defers[..|a.defers| - 1]);
      ChainTop(p, tables, below, a, b);
      if Compiled(p, d.callee) {
        var r := Arguments(p, ProtoOf(p, d.callee.fn), d.args, mem);
        if r.Some? { ChainMore(p, tables, below, b, Enter(p, d.callee.fn, r.value.0)); }
      }
    }
  }

  /** A function that returns nothing has nothing to give back. */
  lemma SilentReturn(p: Prog, tables: seq<Table>, below: seq<Act>, a: Act)
    requires Current(p, tables, below, a) && Chain(p, tables, below + [a]) && Leaving(p, a) && Silent(p, tables, a.fn)
    ensures Result(p, a) == Undefined
  {
    hide InstrOk, Fits;
    if a.leaving.Some? { assert Quiet(p, tables, (below + [a])[|below|]); }
    else { Here(p, tables, below, a); }
  }

  lemma MoveChain(p: Prog, tables: seq<Table>, below: seq<Act>, a: Act, mem: Memory)
    requires Current(p, tables, below, a) && TailsOk(p, tables) && Chain(p, tables, below + [a])
    ensures Chained(p, tables, Move(p, false, below, a, mem))
  {
    hide Chain, Chained, TailsOk, Current, Invoke, Jump, Go, NextDefer, Leave, Silent, Plain;
    NotGoing(p, tables);
    if a.leaving.Some? { NextDeferChain(p, tables, below, a, mem); }
    else if Whole(Code(p, a), a.ip) {
      var i := InstrAt(Code(p, a), a.ip);
      if i[0] == OpReturn {
        var v := if i[1] != 1 || a.operands == [] then Undefined else Top(a.operands);
        if Silent(p, tables, a.fn) { SilentReturn(p, tables, below, a); }
        LeaveChain(p, tables, below, a, v, mem);
      }
      else if IsJump(i[0]) { JumpChain(p, tables, below, a, mem); }
      else if i[0] in {OpCall, OpDefer, OpRoutine} { InvokeChain(p, tables, below, a, mem); }
      else if i[0] != OpSuspend {
        GoChain(p, tables, below, a, Next(Code(p, a), a.ip), Plain(p, a.fn, i, a.locals, a.operands, mem));
      }
    }
  }

  lemma NotGoing(p: Prog, tables: seq<Table>)
    ensures forall s: State :: !s.Going? ==> Chained(p, tables, s)
  {
  }

  /** In every state of a run of checked code. */
  ghost predicate Linked(p: Prog, tables: seq<Table>, s: State) { StateOk(p, tables, s) && Chained(p, tables, s) }

  lemma {:induction false} TurnsLinked(p: Prog, tables: seq<Table>, s: State, n: nat)
    requires AllChecked(p, tables) && TailsOk(p, tables) && Linked(p, tables, s)
    ensures Linked(p, tables, Turns(p, false, s, n))
    decreases n
  {
    hide AllChecked, TailsOk, ActOk, Move, Chain;
    if n != 0 {
      TurnOk(p, tables, false, s);
      if s.Going? {
        var below, a := s.acts[..|s.acts| - 1], s.acts[|s.acts| - 1];
        assert below + [a] == s.acts;
        MoveChain(p, tables, below, a, s.mem);
      }
      TurnsLinked(p, tables, Turn(p, false, s), n - 1);
    }
  }

  lemma LinkedResult(p: Prog, tables: seq<Table>, s: State)
    requires AllChecked(p, tables) && Linked(p, tables, s)
    ensures ResultOk(p, s)
  {
    hide AllChecked, ActOk, GivesBack, Chain, Spared, Leaving, Result;
    if s.Going? {
      var below, a := s.acts[..|s.acts| - 1], s.acts[|s.acts| - 1];
      assert below + [a] == s.acts;
      if Leaving(p, a) && below != [] && Spared(p, below[|below| - 1]) {
        LinkedReturn(p, tables, below, a);
      }
    }
  }

  lemma LinkedReturn(p: Prog, tables: seq<Table>, below: seq<Act>, a: Act)
    requires Current(p, tables, below, a) && Chain(p, tables, below + [a]) && Leaving(p, a)
    requires below != [] && Spared(p, below[|below| - 1])
    ensures var t := below[|below| - 1]; GivesBack(Code(p, t), t.ip, Pop(t.operands), Result(p, a))
  {
    hide Chain, Leaving, Result, Fits, InstrOk, GivesBack, Current, TailPosition, Silent, ReturnsResult;
    ChainLess(p, tables, below, a);
    var t := below[|below| - 1];
    if ReturnsResult(Code(p, t), t.ip) {
      GivesAny(Code(p, t), t.ip, Pop(t.operands), Result(p, a));
    } else {
      SilentReturn(p, tables, below, a);
      SilentGives(p, tables, below, a);
    }
  }

  lemma GivesAny(code: seq<byte>, q: nat, rest: seq<Val>, v: Val)
    requires TailPosition(code, q) && ReturnsResult(code, q)
    ensures GivesBack(code, q, rest, v)
  {
    assert InstrAt(code, q)[1] == code[q + 1];
  }

  lemma SilentGives(p: Prog, tables: seq<Table>, below: seq<Act>, a: Act)
    requires Current(p, tables, below, a) && below != [] && Spared(p, below[|below| - 1])
    requires Silent(p, tables, below[|below| - 1].fn)
    ensures var t := below[|below| - 1]; GivesBack(Code(p, t), t.ip, Pop(t.operands), Undefined)
  {
    hide Fits, Checked, GivesBack, ReturnsNothing, TailPosition;
    var t := below[|below| - 1];
    assert ActOk(p, tables, t, true);
    assert Checked(p, p.protos[t.fn.proto], tables[t.fn.proto]);
    CodeGivesNothing(p, p.protos[t.fn.proto], tables[t.fn.proto], t.ip, Pop(t.operands));
  }

  lemma CodeGivesNothing(p: Prog, f: Proto, table: Table, q: nat, rest: seq<Val>)
    requires Checked(p, f, table) && ReturnsNothing(f, table) && q in table && TailPosition(f.code, q)
    ensures GivesBack(f.code, q, rest, Undefined)
  {
    hide SlicesPush;
    if f.code[q] != OpReturn {
      assert InstrAt(f.code, q) == [OpPop];
      assert InstrOk(p, f, table, q);
      assert q + 1 in table;
    }
  }

  lemma CheckedAgrees(p: Prog, tables: seq<Table>, fn: Fn, args: seq<Val>, mem: Memory)
    requires AllChecked(p, tables) && TailsOk(p, tables) && fn.proto < |p.protos| && |args| == p.protos[fn.proto].params
    ensures Agrees(p, Called(p, fn, args, mem))
  {
    hide AllChecked, Turns, TailsOk, ResultOk, StateOk;
    var s := Called(p, fn, args, mem);
    CalledOk(p, tables, fn, args, mem);
    assert Chain(p, tables, s.acts);
    forall n: nat ensures ResultOk(p, Turns(p, false, s, n)) {
      TurnsLinked(p, tables, s, n);
      LinkedResult(p, tables, Turns(p, false, s, n));
    }
  }

  /** Where the code passes the check, and each function returns the results of its calls in tail position
      or nothing at all, reusing frames makes no difference to any call. */
  lemma CheckedReuse(p: Prog, tables: seq<Table>, fn: Fn, args: seq<Val>, junk: seq<Slot>, mem: Memory, e: State)
    requires AllChecked(p, tables) && TailsOk(p, tables) && fn.proto < |p.protos| && |args| == p.protos[fn.proto].params
    requires |junk| == ProtoOf(p, fn).numLocals
    ensures Ends(p, true, Entered(fn, args, junk, mem), e) <==> Ends(p, false, Called(p, fn, args, mem), e)
  {
    hide AllChecked, TailsOk, Proper, Agrees, Ends;
    CheckedIsProper(p, tables, fn, args, mem);
    CheckedAgrees(p, tables, fn, args, mem);
    ReuseIsCall(p, fn, args, junk, mem, e);
  }
}
