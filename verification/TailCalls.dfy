/** Calls and returns of compiled functions, and the reuse of the frame by a self call in tail position
    (vm/vm.go:442-1290, 1300-1432). Every instruction is there; what an instruction does with the values
    it is given is left open where it does not matter for frames. */
module TailCalls {
  import opened Wrappers
  import opened Instructions

  const OpArray: byte := 14
  const OpMap: byte := 15
  const OpError: byte := 16
  const OpIndex: byte := 17
  const OpSliceIndex: byte := 18
  const OpCall: byte := 19
  const OpGetGlobal: byte := 21
  const OpSetGlobal: byte := 22
  const OpSetSelGlobal: byte := 23
  const OpSetSelLocal: byte := 27
  const OpGetFreePtr: byte := 28
  const OpGetFree: byte := 29
  const OpSetFree: byte := 30
  const OpGetLocalPtr: byte := 31
  const OpSetSelFree: byte := 32
  const OpIteratorInit: byte := 35
  const OpIteratorNext: byte := 36
  const OpIteratorKey: byte := 37
  const OpIteratorValue: byte := 38
  const OpSuspend: byte := 40
  const OpRoutine: byte := 41
  const OpDefer: byte := 42

  datatype ProtoData = Proto(code: seq<byte>, params: nat, numLocals: nat, varArgs: bool)

  /** What the compiler made of a function literal: parameters are locals, and a variadic function has
      at least one. */
  type Proto = p: ProtoData | p.params <= p.numLocals && (p.varArgs ==> p.params > 0)
    witness Proto([], 0, 0, false)

  /** A function object: id is its identity, free are the captured variables. */
  datatype Fn = Fn(id: nat, proto: nat, free: seq<nat>)

  /** Data stands for numbers and characters, Text for strings, Object for arrays, maps, iterators and the
      like. Pointer is a captured variable on its way into a closure. */
  datatype Val =
    | Undefined | True | False | Data(n: int) | Text(s: string) | Object(a: nat) | Builtin(index: nat)
    | Function(fn: Fn) | Pointer(cell: nat)

  /** What a local slot holds. Nothing is known about a slot that has not been written since the call:
      it holds whatever was there. Shared is a variable that has been captured. */
  datatype Slot = Unset | Holds(v: Val) | Shared(cell: nat)

  /** What activations share: globals, captured variables, the number of functions made so far, and the
      contents of other objects. */
  datatype Memory = Memory(globals: seq<Val>, cells: seq<Val>, made: nat, heap: map<nat, seq<Val>>)

  datatype Deferred = Deferred(callee: Val, args: seq<Val>)

  /** One activation: its function, where it is, its local slots, its operands and its pending deferred
      calls. Once it has returned, leaving is its result while the deferred calls are made. */
  datatype Act = Act(fn: Fn, ip: nat, locals: seq<Slot>, operands: seq<Val>, defers: seq<Deferred>,
                     leaving: Option<Val>)

  /** Slicing anything but an array, a string or bytes takes three operands and leaves none. */
  datatype Sliced = Slice(v: Val, mem: Memory) | NotSliceable | BadBounds

  /** The bytecode, and what is left open: None is an error. */
  datatype Prog = Prog(
    protos: seq<Proto>,
    consts: seq<Val>,
    builtins: nat,
    falsy: (Val, Memory) -> bool,
    callable: Val -> bool,                                        // of values that are no compiled functions
    operate: (seq<byte>, seq<Val>, Memory) -> Option<(Val, Memory)>, // instructions that take operands and push a value
    slice: (Val, Val, Val, Memory) -> Sliced,
    assign: (Val, Val, seq<Val>, Memory) -> Option<Memory>,       // assignment through selectors
    items: (Val, Memory) -> Option<seq<Val>>,                     // the elements of an array
    pack: (seq<Val>, Memory) -> (Val, Memory),                    // a new array
    native: (Val, seq<Val>, Memory) -> Option<(Val, Memory)>,     // builtin and host functions
    routine: (Val, seq<Val>, Memory) -> Option<(Val, Memory)>)    // the go statement

  /** The last activation is the current one. Broken: a deferred call has failed. Stuck: a slot that has not
      been written or an operand that has not been pushed was read. */
  datatype State =
    | Going(acts: seq<Act>, mem: Memory)
    | Done(result: Val, mem: Memory)
    | Suspended(mem: Memory)
    | Broken(mem: Memory)
    | Failed
    | Stuck

  function ProtoOf(p: Prog, fn: Fn): Proto {
    if fn.proto < |p.protos| then p.protos[fn.proto] else Proto([], 0, 0, false)
  }

  function Code(p: Prog, a: Act): seq<byte> { ProtoOf(p, a.fn).code }

  function Top(o: seq<Val>): Val
    requires o != []
  {
    o[|o| - 1]
  }

  function Pop(o: seq<Val>): seq<Val>
    requires o != []
  {
    o[..|o| - 1]
  }

  /** The n operands on top, and those below. */
  function Last(o: seq<Val>, n: nat): seq<Val>
    requires n <= |o|
  {
    o[|o| - n..]
  }

  function Below(o: seq<Val>, n: nat): seq<Val>
    requires n <= |o|
  {
    o[..|o| - n]
  }

  // ----- variables -----

  datatype Loaded = Got(v: Val) | Panics | Unwritten

  /** A slot that is given the pointer of a captured variable is that variable. */
  function Put(v: Val): Slot { if v.Pointer? then Shared(v.cell) else Holds(v) }

  function ReadCell(c: nat, mem: Memory): Loaded { if c < |mem.cells| then Got(mem.cells[c]) else Panics }

  function ReadGlobal(g: nat, mem: Memory): Loaded { if g < |mem.globals| then Got(mem.globals[g]) else Panics }

  function ReadFree(fn: Fn, i: nat, mem: Memory): Loaded { if i < |fn.free| then ReadCell(fn.free[i], mem) else Panics }

  function ReadLocal(locals: seq<Slot>, i: nat, mem: Memory): Loaded {
    if i >= |locals| then Unwritten
    else
      match locals[i]
      case Unset => Unwritten
      case Holds(v) => Got(v)
      case Shared(c) => ReadCell(c, mem)
  }

  /** Instructions that only push. */
  predicate Loads(op: byte) {
    op in {OpConstant, OpNull, OpTrue, OpFalse, OpGetGlobal, OpGetBuiltin, OpGetFree, OpGetFreePtr, OpGetLocal}
  }

  function Load(p: Prog, fn: Fn, i: seq<byte>, locals: seq<Slot>, mem: Memory): Loaded
    requires i != [] && |i| == InstrLen(i[0]) && Loads(i[0])
  {
    if i[0] == OpConstant then if Word(i, 1) < |p.consts| then Got(p.consts[Word(i, 1)]) else Panics
    else if i[0] == OpNull then Got(Undefined)
    else if i[0] == OpTrue then Got(True)
    else if i[0] == OpFalse then Got(False)
    else if i[0] == OpGetGlobal then ReadGlobal(Word(i, 1), mem)
    else if i[0] == OpGetBuiltin then if i[1] < p.builtins then Got(Builtin(i[1])) else Panics
    else if i[0] == OpGetFree then ReadFree(fn, i[1], mem)
    else if i[0] == OpGetFreePtr then if i[1] < |fn.free| then Got(Pointer(fn.free[i[1]])) else Panics
    else ReadLocal(locals, i[1], mem)
  }

  // ----- instructions that stay in the activation and do not jump -----

  datatype Outcome = To(locals: seq<Slot>, operands: seq<Val>, mem: Memory) | Fails | Missing

  /** Instructions that pop the operand on top into a variable. */
  predicate Stores(op: byte) { op in {OpDefineLocal, OpSetLocal, OpSetGlobal, OpSetFree} }

  /** A local is set through its cell if it has been captured, unless it is declared anew. */
  function Store(fn: Fn, i: seq<byte>, locals: seq<Slot>, o: seq<Val>, mem: Memory): Outcome
    requires i != [] && |i| == InstrLen(i[0]) && Stores(i[0]) && o != []
  {
    if i[0] == OpSetGlobal then
      if Word(i, 1) >= |mem.globals| then Fails
      else To(locals, Pop(o), mem.(globals := mem.globals[Word(i, 1) := Top(o)]))
    else if i[0] == OpSetFree then
      if i[1] >= |fn.free| || fn.free[i[1]] >= |mem.cells| then Fails
      else To(locals, Pop(o), mem.(cells := mem.cells[fn.free[i[1]] := Top(o)]))
    else if i[1] >= |locals| then Missing
    else if i[0] == OpDefineLocal || locals[i[1]].Holds? then To(locals[i[1] := Put(Top(o))], Pop(o), mem)
    else if locals[i[1]].Unset? then Missing
    else if locals[i[1]].cell >= |mem.cells| then Fails
    else To(locals, Pop(o), mem.(cells := mem.cells[locals[i[1]].cell := Top(o)]))
  }

  /** The variable's pointer is pushed; at first its value moves to a new cell. */
  function Capture(i: seq<byte>, locals: seq<Slot>, o: seq<Val>, mem: Memory): Outcome
    requires i != [] && |i| == InstrLen(i[0]) && i[0] == OpGetLocalPtr
  {
    if i[1] >= |locals| then Missing
    else
      match locals[i[1]]
      case Unset => Missing
      case Shared(c) => To(locals, o + [Pointer(c)], mem)
      case Holds(v) => To(locals[i[1] := Shared(|mem.cells|)], o + [Pointer(|mem.cells|)],
                          mem.(cells := mem.cells + [v]))
  }

  /** How many operands an instruction takes that pushes one value for them. */
  predicate Operates(op: byte) {
    op in {OpLNot, OpMinus, OpBComplement, OpError, OpIteratorInit, OpIteratorNext, OpIteratorKey, OpIteratorValue,
           OpEqual, OpNotEqual, OpBinaryOp, OpIndex, OpArray, OpMap}
  }

  function Operands(i: seq<byte>): nat
    requires i != [] && |i| == InstrLen(i[0]) && Operates(i[0])
  {
    if i[0] == OpArray || i[0] == OpMap then Word(i, 1)
    else if i[0] in {OpEqual, OpNotEqual, OpBinaryOp, OpIndex} then 2
    else 1
  }

  function Operate(p: Prog, i: seq<byte>, locals: seq<Slot>, o: seq<Val>, mem: Memory): Outcome
    requires i != [] && |i| == InstrLen(i[0]) && Operates(i[0])
  {
    var n := Operands(i);
    if |o| < n then Missing
    else
      match p.operate(i, Last(o, n), mem)
      case None => Fails
      case Some(r) => To(locals, Below(o, n) + [r.0], r.1)
  }

  function TakeSlice(p: Prog, locals: seq<Slot>, o: seq<Val>, mem: Memory): Outcome {
    if |o| < 3 then Missing
    else
      var l := Last(o, 3);
      match p.slice(l[0], l[1], l[2], mem)
      case BadBounds => Fails
      case NotSliceable => To(locals, Below(o, 3), mem)
      case Slice(v, m) => To(locals, Below(o, 3) + [v], m)
  }

  /** Assignments x.a.b = v: the value, then the selectors, are on top. */
  predicate Selects(op: byte) { op in {OpSetSelGlobal, OpSetSelLocal, OpSetSelFree} }

  function Selectors(i: seq<byte>): nat
    requires i != [] && |i| == InstrLen(i[0]) && Selects(i[0])
  {
    i[|i| - 1]
  }

  function Destination(fn: Fn, i: seq<byte>, locals: seq<Slot>, mem: Memory): Loaded
    requires i != [] && |i| == InstrLen(i[0]) && Selects(i[0])
  {
    if i[0] == OpSetSelGlobal then ReadGlobal(Word(i, 1), mem)
    else if i[0] == OpSetSelFree then ReadFree(fn, i[1], mem)
    else ReadLocal(locals, i[1], mem)
  }

  function Assign(p: Prog, fn: Fn, i: seq<byte>, locals: seq<Slot>, o: seq<Val>, mem: Memory): Outcome
    requires i != [] && |i| == InstrLen(i[0]) && Selects(i[0])
  {
    var n := Selectors(i) + 1;
    if |o| < n then Missing
    else
      match Destination(fn, i, locals, mem)
      case Unwritten => Missing
      case Panics => Fails
      case Got(d) =>
        match p.assign(d, Last(o, n)[0], Last(o, n)[1..], mem)
        case None => Fails
        case Some(m) => To(locals, Below(o, n), m)
  }

  predicate Pointers(o: seq<Val>) { forall k :: 0 <= k < |o| ==> o[k].Pointer? }

  function Cells(o: seq<Val>): seq<nat>
    requires Pointers(o)
  {
    seq(|o|, k requires 0 <= k < |o| => o[k].cell)
  }

  /** A new function whose captured variables are the pointers on top. */
  function Close(p: Prog, i: seq<byte>, locals: seq<Slot>, o: seq<Val>, mem: Memory): Outcome
    requires i != [] && |i| == InstrLen(i[0]) && i[0] == OpClosure
  {
    if Word(i, 1) >= |p.consts| || !p.consts[Word(i, 1)].Function? then Fails
    else if |o| < i[3] || !Pointers(Last(o, i[3])) then Missing
    else
      var fn := Fn(mem.made, p.consts[Word(i, 1)].fn.proto, Cells(Last(o, i[3])));
      To(locals, Below(o, i[3]) + [Function(fn)], mem.(made := mem.made + 1))
  }

  /** Dropping the operand on top; OpPop. */
  function Drop(locals: seq<Slot>, o: seq<Val>, mem: Memory): Outcome {
    if o == [] then Missing else To(locals, Pop(o), mem)
  }

  function Push(l: Loaded, locals: seq<Slot>, o: seq<Val>, mem: Memory): Outcome {
    match l
    case Got(v) => To(locals, o + [v], mem)
    case Panics => Fails
    case Unwritten => Missing
  }

  function Plain(p: Prog, fn: Fn, i: seq<byte>, locals: seq<Slot>, o: seq<Val>, mem: Memory): Outcome
    requires i != [] && |i| == InstrLen(i[0])
  {
    if Loads(i[0]) then Push(Load(p, fn, i, locals, mem), locals, o, mem)
    else if Stores(i[0]) then if o == [] then Missing else Store(fn, i, locals, o, mem)
    else if Operates(i[0]) then Operate(p, i, locals, o, mem)
    else if Selects(i[0]) then Assign(p, fn, i, locals, o, mem)
    else if i[0] == OpPop then Drop(locals, o, mem)
    else if i[0] == OpGetLocalPtr then Capture(i, locals, o, mem)
    else if i[0] == OpSliceIndex then TakeSlice(p, locals, o, mem)
    else if i[0] == OpClosure then Close(p, i, locals, o, mem)
    else Fails
  }

  // ----- calls -----

  /** The function and its arguments are taken from the operands; the elements of a spread array are
      arguments. */
  datatype Asked = Asked(callee: Val, args: seq<Val>, rest: seq<Val>) | NotArray | TooFew

  function Ask(p: Prog, o: seq<Val>, n: nat, spread: bool, mem: Memory): Asked {
    if |o| <= n || (spread && n == 0) then TooFew
    else
      var callee, args, rest := Last(o, n + 1)[0], Last(o, n), Below(o, n + 1);
      if !spread then Asked(callee, args, rest)
      else
        match p.items(Top(args), mem)
        case None => NotArray
        case Some(xs) => Asked(callee, Pop(args) + xs, rest)
  }

  predicate Callable(p: Prog, v: Val) { v.Function? || p.callable(v) }

  predicate Compiled(p: Prog, v: Val) { v.Function? && v.fn.proto < |p.protos| }

  /** Arguments as the function has its parameters: those behind the last but one are rolled up for a
      variadic function. None: a wrong number of arguments. */
  function Arguments(p: Prog, f: Proto, args: seq<Val>, mem: Memory): (r: Option<(seq<Val>, Memory)>)
    ensures r.Some? ==> |r.value.0| == f.params
  {
    if f.varArgs && |args| >= f.params - 1 then
      var packed := p.pack(args[f.params - 1..], mem);
      Some((args[..f.params - 1] + [packed.0], packed.1))
    else if |args| == f.params then Some((args, mem))
    else None
  }

  /** What the call looks ahead for: a return, or a pop and a return. */
  predicate TailPosition(code: seq<byte>, next: nat) {
    next < |code| && (code[next] == OpReturn
                      || (code[next] == OpPop && next + 1 < |code| && code[next + 1] == OpReturn))
  }

  /** When the frame is used again: a call of the very function that runs, no deferred calls pending. */
  predicate Reuses(p: Prog, a: Act, callee: Val, next: nat) {
    callee == Function(a.fn) && a.defers == [] && TailPosition(Code(p, a), next)
  }

  /** A new frame: the arguments, and behind them whatever the stack held. */
  function Fresh(f: Proto, args: seq<Val>): seq<Slot> {
    seq(f.numLocals, i requires 0 <= i < f.numLocals => if i < |args| then Put(args[i]) else Unset)
  }

  /** The frame used again: the arguments are copied over the parameters, the other slots stay. */
  function Again(locals: seq<Slot>, args: seq<Val>): seq<Slot> {
    seq(|locals|, i requires 0 <= i < |locals| => if i < |args| then Put(args[i]) else locals[i])
  }

  function Enter(p: Prog, fn: Fn, args: seq<Val>): Act { Act(fn, 0, Fresh(ProtoOf(p, fn), args), [], [], None) }

  function Reenter(a: Act, args: seq<Val>, rest: seq<Val>): Act { Act(a.fn, 0, Again(a.locals, args), rest, [], None) }

  /** The current activation has returned v; in its caller v takes the place of the function called. The
      result of a deferred call is not used. */
  function Return(below: seq<Act>, v: Val, mem: Memory): State {
    if below == [] then Done(v, mem)
    else
      var a := below[|below| - 1];
      if a.leaving.Some? then Going(below, mem)
      else if a.operands == [] then Stuck
      else Going(below[..|below| - 1] + [a.(operands := Pop(a.operands) + [v])], mem)
  }

  /** The caller waits for the function on top of its operands. */
  function Waits(a: Act, next: nat, rest: seq<Val>, callee: Val): Act { a.(ip := next, operands := rest + [callee]) }

  function Call(p: Prog, reuse: bool, below: seq<Act>, a: Act, callee: Val, args: seq<Val>, rest: seq<Val>, next: nat,
                mem: Memory): State {
    if !Callable(p, callee) then Failed
    else if Compiled(p, callee) then
      match Arguments(p, ProtoOf(p, callee.fn), args, mem)
      case None => Failed
      case Some(r) =>
        if reuse && Reuses(p, a, callee, next) then Going(below + [Reenter(a, r.0, rest)], r.1)
        else Going(below + [Waits(a, next, rest, callee)] + [Enter(p, callee.fn, r.0)], r.1)
    else
      match p.native(callee, args, mem)
      case None => Failed
      case Some(r) => Going(below + [a.(ip := next, operands := rest + [r.0])], r.1)
  }

  function Register(p: Prog, below: seq<Act>, a: Act, callee: Val, args: seq<Val>, rest: seq<Val>, next: nat,
                    mem: Memory): State {
    if !Callable(p, callee) then Failed
    else Going(below + [a.(ip := next, operands := rest, defers := a.defers + [Deferred(callee, args)])], mem)
  }

  function Start(p: Prog, below: seq<Act>, a: Act, callee: Val, args: seq<Val>, rest: seq<Val>, next: nat,
                 mem: Memory): State {
    match p.routine(callee, args, mem)
    case None => Failed
    case Some(r) => Going(below + [a.(ip := next, operands := rest + [r.0])], r.1)
  }

  /** OpCall, OpDefer, OpRoutine. */
  function Invoke(p: Prog, reuse: bool, below: seq<Act>, a: Act, i: seq<byte>, next: nat, mem: Memory): State
    requires |i| == 3
  {
    match Ask(p, a.operands, i[1], i[2] == 1, mem)
    case TooFew => Stuck
    case NotArray => Failed
    case Asked(callee, args, rest) =>
      if i[0] == OpCall then Call(p, reuse, below, a, callee, args, rest, next, mem)
      else if i[0] == OpDefer then Register(p, below, a, callee, args, rest, next, mem)
      else Start(p, below, a, callee, args, rest, next, mem)
  }

  // ----- returns -----

  /** The result is computed before the deferred calls are made. */
  function Leave(below: seq<Act>, a: Act, v: Val, mem: Memory): State {
    if a.defers == [] then Return(below, v, mem) else Going(below + [a.(operands := [], leaving := Some(v))], mem)
  }

  /** The last of the pending deferred calls is next. */
  function NextDefer(p: Prog, below: seq<Act>, a: Act, mem: Memory): State
    requires a.leaving.Some?
  {
    if a.defers == [] then Return(below, a.leaving.value, mem)
    else
      var d, a' := a.defers[|a.defers| - 1], a.(defers := a.defers[..|a.defers| - 1]);
      if Compiled(p, d.callee) then
        match Arguments(p, ProtoOf(p, d.callee.fn), d.args, mem)
        case None => Broken(mem)
        case Some(r) => Going(below + [a'] + [Enter(p, d.callee.fn, r.0)], r.1)
      else
        match p.native(d.callee, d.args, mem)
        case None => Broken(mem)
        case Some(r) => Going(below + [a'], r.1)
  }

  // ----- the loop -----

  function Jump(p: Prog, below: seq<Act>, a: Act, mem: Memory): State
    requires Whole(Code(p, a), a.ip) && IsJump(Code(p, a)[a.ip])
  {
    var op, target, next := Code(p, a)[a.ip], Target(Code(p, a), a.ip), Next(Code(p, a), a.ip);
    if op == OpJump then Going(below + [a.(ip := target)], mem)
    else if a.operands == [] then Stuck
    else
      var jumps := p.falsy(Top(a.operands), mem) == (op != OpOrJump);
      var stays := op != OpJumpFalsy && jumps;
      Going(below + [a.(ip := if jumps then target else next,
                        operands := if stays then a.operands else Pop(a.operands))], mem)
  }

  function Go(p: Prog, below: seq<Act>, a: Act, next: nat, e: Outcome): State {
    match e
    case Missing => Stuck
    case Fails => Failed
    case To(locals, o, mem) => Going(below + [a.(ip := next, locals := locals, operands := o)], mem)
  }

  /** One turn of the loop, with or without reusing frames. */
  function Turn(p: Prog, reuse: bool, s: State): State {
    if !s.Going? then s
    else if s.acts == [] then Stuck
    else Move(p, reuse, s.acts[..|s.acts| - 1], s.acts[|s.acts| - 1], s.mem)
  }

  function Move(p: Prog, reuse: bool, below: seq<Act>, a: Act, mem: Memory): State {
    if a.leaving.Some? then NextDefer(p, below, a, mem)
    else if !Whole(Code(p, a), a.ip) then Failed
    else
      var i, next := InstrAt(Code(p, a), a.ip), Next(Code(p, a), a.ip);
      if i[0] == OpReturn then
        if i[1] != 1 then Leave(below, a, Undefined, mem)
        else if a.operands == [] then Stuck
        else Leave(below, a, Top(a.operands), mem)
      else if IsJump(i[0]) then Jump(p, below, a, mem)
      else if i[0] in {OpCall, OpDefer, OpRoutine} then Invoke(p, reuse, below, a, i, next, mem)
      else if i[0] == OpSuspend then Suspended(mem)
      else Go(p, below, a, next, Plain(p, a.fn, i, a.locals, a.operands, mem))
  }

  function Turns(p: Prog, reuse: bool, s: State, n: nat): State
    decreases n
  {
    if n == 0 then s else Turns(p, reuse, Turn(p, reuse, s), n - 1)
  }

  lemma {:induction false} TurnsBoth(p: Prog, reuse: bool, s: State, a: nat, b: nat)
    ensures Turns(p, reuse, s, a + b) == Turns(p, reuse, Turns(p, reuse, s, a), b)
    decreases a
  {
    hide Turn;
    if a != 0 { TurnsBoth(p, reuse, Turn(p, reuse, s), a - 1, b); }
  }

  lemma {:induction false} EndStays(p: Prog, reuse: bool, s: State, n: nat)
    requires !s.Going?
    ensures Turns(p, reuse, s, n) == s
    decreases n
  {
    if n != 0 { EndStays(p, reuse, s, n - 1); }
  }

  lemma OneTurn(p: Prog, reuse: bool, s: State)
    ensures Turns(p, reuse, s, 1) == Turn(p, reuse, s)
    ensures forall k: nat :: Turns(p, reuse, s, k + 1) == Turns(p, reuse, Turn(p, reuse, s), k)
  {
    hide Turn;
    assert Turns(p, reuse, Turn(p, reuse, s), 0) == Turn(p, reuse, s);
  }

  lemma TurnOf(p: Prog, reuse: bool, below: seq<Act>, a: Act, mem: Memory)
    ensures Turn(p, reuse, Going(below + [a], mem)) == Move(p, reuse, below, a, mem)
  {
    hide Move;
    assert (below + [a])[..|below|] == below;
  }

  /** How a run ends: its result and the memory it leaves, or an error. */
  ghost predicate Ends(p: Prog, reuse: bool, s: State, e: State) {
    !e.Going? && exists n: nat :: Turns(p, reuse, s, n) == e
  }

  lemma EndsBy(p: Prog, reuse: bool, s: State, e: State, n: nat)
    requires !e.Going? && Turns(p, reuse, s, n) == e
    ensures Ends(p, reuse, s, e)
  {
  }

  lemma EndsAt(p: Prog, reuse: bool, s: State, e: State) returns (n: nat)
    requires Ends(p, reuse, s, e)
    ensures !e.Going? && Turns(p, reuse, s, n) == e
  {
    n :| Turns(p, reuse, s, n) == e;
  }

  /** The activation of a call; junk is what the slots behind the arguments held. */
  function Entered(fn: Fn, args: seq<Val>, junk: seq<Slot>, mem: Memory): State {
    Going([Act(fn, 0, Again(junk, args), [], [], None)], mem)
  }

  function Called(p: Prog, fn: Fn, args: seq<Val>, mem: Memory): State { Going([Enter(p, fn, args)], mem) }
}
