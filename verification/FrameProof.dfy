/** Normal operation: a call runs its body, then its deferred calls last in first out, gives back
    the result computed before them, and leaves the caller's frame as it was. */
module FrameProof {
  import opened Wrappers
  import opened Frames

  // ----- what a call does, read off the program -----

  /** The events of a call, in order: its start, its body, its deferred calls. */
  function CallLog(f: Fn, args: seq<Value>): seq<Event>
    decreases f, 0
  {
    [Started(f.id, args)] + (if f.Builtin? then [] else BodyLog(f.code, 0) + LifoLog(f.code, 0))
  }

  function ActLog(a: Act): seq<Event>
    decreases a, 1
  {
    match a
    case Work(w) => [Did(w)]
    case Call(f, args) => CallLog(f, args)
    case _ => []
  }

  function BodyLog(code: seq<Act>, i: nat): seq<Event>
    decreases code, |code| - i
  {
    if i >= |code| then [] else ActLog(code[i]) + BodyLog(code, i + 1)
  }

  /** The deferred calls of the code from i on: a later one runs earlier. */
  function LifoLog(code: seq<Act>, i: nat): seq<Event>
    decreases code, |code| - i
  {
    if i >= |code| then []
    else LifoLog(code, i + 1) + (if code[i].Defer? then CallLog(code[i].callee, code[i].args) else [])
  }

  function DefersLog(ds: seq<Deferred>): seq<Event>
    decreases |ds|
  {
    if ds == [] then [] else CallLog(ds[|ds| - 1].fn, ds[|ds| - 1].args) + DefersLog(ds[..|ds| - 1])
  }

  // What an action registers and what it leaves on the stack, and so for the code from i on.

  function ActDefers(a: Act): seq<Deferred> { if a.Defer? then [Deferred(a.callee, a.args)] else [] }

  function Pending(code: seq<Act>, i: nat): seq<Deferred>
    decreases |code| - i
  {
    if i >= |code| then [] else ActDefers(code[i]) + Pending(code, i + 1)
  }

  function ValueOf(f: Fn): Value { Answer(if f.Builtin? then f.value else f.result) }

  function ActPush(a: Act): seq<Value> {
    match a
    case Push(v) => [v]
    case Call(f, _) => [ValueOf(f)]
    case _ => []
  }

  function Pushed(code: seq<Act>, i: nat): seq<Value>
    decreases |code| - i
  {
    if i >= |code| then [] else ActPush(code[i]) + Pushed(code, i + 1)
  }

  /** No call fails: arguments match, builtin functions succeed, and there is room for the frames. */
  predicate Fine(f: Fn, args: seq<Value>, room: int)
    decreases f, 0
  {
    if f.Builtin? then f.value.Some?
    else |args| == f.params && room > 0 && FineCode(f.code, 0, room - 1)
  }

  predicate FineCode(code: seq<Act>, i: nat, room: int)
    decreases code, |code| - i
  {
    i >= |code|
    || ((code[i].Call? || code[i].Defer? ==> Fine(code[i].callee, code[i].args, room)) && FineCode(code, i + 1, room))
  }

  predicate FineDefers(ds: seq<Deferred>, room: int)
    decreases |ds|
  {
    ds == [] || (Fine(ds[|ds| - 1].fn, ds[|ds| - 1].args, room) && FineDefers(ds[..|ds| - 1], room))
  }

  // ----- sizes, for the inductions -----

  function Size(f: Fn): nat
    decreases f, 0
  {
    if f.Builtin? then 1 else 1 + CodeSize(f.code, 0)
  }

  function CodeSize(code: seq<Act>, i: nat): nat
    decreases code, |code| - i
  {
    if i >= |code| then 0
    else 1 + (if code[i].Call? || code[i].Defer? then Size(code[i].callee) else 0) + CodeSize(code, i + 1)
  }

  function DefersSize(ds: seq<Deferred>): nat
    decreases |ds|
  {
    if ds == [] then 0 else Size(ds[|ds| - 1].fn) + DefersSize(ds[..|ds| - 1])
  }

  lemma {:induction false} DefersAppend(a: seq<Deferred>, b: seq<Deferred>, room: int)
    ensures DefersSize(a + b) == DefersSize(a) + DefersSize(b)
    ensures DefersLog(a + b) == DefersLog(b) + DefersLog(a)
    ensures FineDefers(a + b, room) <==> FineDefers(a, room) && FineDefers(b, room)
    decreases |b|
  {
    hide CallLog, Fine, Size, DefersSize, DefersLog, FineDefers;
    if b == [] {
      assert a + b == a;
      NoDefers(room);
    } else {
      var n := |b| - 1;
      assert (a + b)[..|a + b| - 1] == a + b[..n] && (a + b)[|a + b| - 1] == b[n];
      LastDefer(a + b, room);
      LastDefer(b, room);
      DefersAppend(a, b[..n], room);
    }
  }

  lemma NoDefers(room: int)
    ensures DefersSize([]) == 0 && DefersLog([]) == [] && FineDefers([], room)
  {
  }

  lemma LastDefer(ds: seq<Deferred>, room: int)
    requires ds != []
    ensures var n := |ds| - 1;
            && DefersSize(ds) == Size(ds[n].fn) + DefersSize(ds[..n])
            && DefersLog(ds) == CallLog(ds[n].fn, ds[n].args) + DefersLog(ds[..n])
            && (FineDefers(ds, room) <==> Fine(ds[n].fn, ds[n].args, room) && FineDefers(ds[..n], room))
  {
    hide CallLog, Fine, Size;
  }

  lemma {:induction false} PendingIs(code: seq<Act>, i: nat, room: int)
    requires FineCode(code, i, room)
    ensures DefersLog(Pending(code, i)) == LifoLog(code, i)
    ensures DefersSize(Pending(code, i)) <= CodeSize(code, i)
    ensures FineDefers(Pending(code, i), room)
    decreases |code| - i
  {
    hide CallLog, Fine, Size;
    if i < |code| {
      PendingIs(code, i + 1, room);
      if code[i].Defer? {
        var d := Deferred(code[i].callee, code[i].args);
        OneDefer(d, room);
        DefersAppend([d], Pending(code, i + 1), room);
      } else {
        assert [] + Pending(code, i + 1) == Pending(code, i + 1);
      }
    }
  }

  lemma OneDefer(d: Deferred, room: int)
    ensures DefersSize([d]) == Size(d.fn) && DefersLog([d]) == CallLog(d.fn, d.args)
    ensures FineDefers([d], room) <==> Fine(d.fn, d.args, room)
  {
    assert [d][..0] == [];
  }

  // ----- runs -----

  ghost predicate Leads(c: Status, c': Status) { exists n: nat :: StepN(c, n) == c' }

  lemma LeadsOn(a: Status, b: Status, c: Status)
    requires Leads(a, b) && Leads(b, c)
    ensures Leads(a, c)
  {
    hide StepN;
    var n: nat :| StepN(a, n) == b;
    var m: nat :| StepN(b, m) == c;
    StepNAdd(a, n, m);
    assert StepN(a, n + m) == c;
  }

  lemma LeadsNowhere(a: Status)
    ensures Leads(a, a)
  {
    assert StepN(a, 0) == a;
  }

  lemma LeadsOne(s: State)
    ensures Leads(Running(s), Step(s))
  {
    hide Step;
    assert StepN(Step(s), 0) == Step(s);
    assert StepN(Running(s), 1) == Step(s);
  }

  predicate Normal(s: State) {
    s.frames != [] && !s.unwinding && s.err.None? && s.Top().fn.Compiled? && !s.Top().inDefer
  }

  function Room(s: State): int { s.maxFrames - |s.frames| }

  /** The rest of the body has run. saved is the instruction pointer stored in the frame. */
  function Behind(s: State, saved: nat): State
    requires s.frames != [] && s.Top().fn.Compiled?
  {
    var f := s.Top();
    s.SetTop(f.(ip := saved, defers := f.defers + Pending(f.fn.code, s.ip)))
    .(ip := |f.fn.code|, stack := s.stack + Pushed(f.fn.code, s.ip), log := s.log + BodyLog(f.fn.code, s.ip))
  }

  /** The state behind one action: what it leaves is on the stack; of the frame only the deferred
      calls and the saved instruction pointer have changed. */
  function AfterAct(s: State, saved: nat): State
    requires s.frames != [] && s.Top().fn.Compiled? && s.ip < |s.Top().fn.code|
  {
    var a := s.Top().fn.code[s.ip];
    s.SetTop(s.Top().(ip := saved, defers := s.Top().defers + ActDefers(a)))
    .(ip := s.ip + 1, stack := s.stack + ActPush(a), log := s.log + ActLog(a))
  }

  /** PopFrames looks at the current frame only to see where its part of the stack begins. */
  lemma PopIgnoresTop(s: State, s': State, ret: Value)
    requires |s.frames| > 1 && |s'.frames| == |s.frames|
    requires s'.frames[..|s.frames| - 1] == s.frames[..|s.frames| - 1] && s'.Top().base == s.Top().base
    requires s'.unwinding == s.unwinding && s'.err == s.err && s'.log == s.log && s'.maxFrames == s.maxFrames
    requires Cut(s'.stack, s.Top().base) == Cut(s.stack, s.Top().base)
    ensures PopFrames(s', ret) == PopFrames(s, ret)
  {
    hide Drain, Arrive;
    assert Leave(s') == Leave(s);
  }

  lemma ActThenRest(s: State, x: nat, saved: nat)
    requires s.frames != [] && s.Top().fn.Compiled? && s.ip < |s.Top().fn.code|
    ensures Behind(AfterAct(s, x), saved) == Behind(s, saved)
  {
    hide ActLog, ActPush, ActDefers;
    var a, code := s.Top().fn.code[s.ip], s.Top().fn.code;
    assert s.log + ActLog(a) + BodyLog(code, s.ip + 1) == s.log + BodyLog(code, s.ip);
    assert s.stack + ActPush(a) + Pushed(code, s.ip + 1) == s.stack + Pushed(code, s.ip);
    assert s.Top().defers + ActDefers(a) + Pending(code, s.ip + 1) == s.Top().defers + Pending(code, s.ip);
  }

  lemma NoMoreActs(s: State)
    requires s.frames != [] && s.Top().fn.Compiled? && s.ip == |s.Top().fn.code|
    ensures Behind(s, s.Top().ip) == s
  {
    assert s.Top().defers + [] == s.Top().defers && s.stack + [] == s.stack && s.log + [] == s.log;
  }

  /** The body of the current function, from where it is to its end. */
  lemma {:induction false} BodyRuns(s: State) returns (saved: nat)
    requires Normal(s) && s.ip <= |s.Top().fn.code| && FineCode(s.Top().fn.code, s.ip, Room(s))
    ensures Leads(Running(s), Running(Behind(s, saved)))
    decreases CodeSize(s.Top().fn.code, s.ip), 1
  {
    hide Leads, Behind, AfterAct, Fine, Size;
    if s.ip == |s.Top().fn.code| {
      saved := s.Top().ip;
      NoMoreActs(s);
      LeadsNowhere(Running(s));
    } else {
      var x := ActRuns(s);
      var s1 := AfterAct(s, x);
      AfterActIs(s, x);
      saved := BodyRuns(s1);
      ActThenRest(s, x, saved);
      LeadsOn(Running(s), Running(s1), Running(Behind(s, saved)));
    }
  }

  lemma AfterActIs(s: State, x: nat)
    requires Normal(s) && s.ip < |s.Top().fn.code|
    ensures var s1 := AfterAct(s, x);
            Normal(s1) && s1.ip == s.ip + 1 && s1.Top().fn == s.Top().fn && Room(s1) == Room(s)
  {
    hide ActLog, ActPush, ActDefers;
  }

  lemma {:induction false} ActRuns(s: State) returns (x: nat)
    requires Normal(s) && s.ip < |s.Top().fn.code| && FineCode(s.Top().fn.code, s.ip, Room(s))
    ensures Leads(Running(s), Running(AfterAct(s, x)))
    decreases CodeSize(s.Top().fn.code, s.ip), 0
  {
    hide Leads, AfterAct, CallLog, Size, HandleReturn;
    var a := s.Top().fn.code[s.ip];
    x := s.Top().ip;
    if a.Call? && a.callee.Compiled? {
      x := s.ip + 1;
      CallRuns(s);
    } else {
      LeadsOne(s);
      OneActIs(s);
    }
  }

  lemma OneActIs(s: State)
    requires Normal(s) && s.ip < |s.Top().fn.code| && FineCode(s.Top().fn.code, s.ip, Room(s))
    requires var a := s.Top().fn.code[s.ip]; !(a.Call? && a.callee.Compiled?)
    ensures Step(s) == Running(AfterAct(s, s.Top().ip))
  {
    hide HandleReturn;
    var a, d := s.Top().fn.code[s.ip], s.Top().defers;
    assert d + [] == d && s.stack + [] == s.stack && s.log + [] == s.log;
    assert s.frames == s.SetTop(s.Top()).frames;
    assert a.Call? ==> CallLog(a.callee, a.args) == [Started(a.callee.id, a.args)];
  }

  /** The state in which the body of a called function begins. */
  function Called(s: State, f: Fn, args: seq<Value>): State
    requires s.frames != [] && f.Compiled?
  {
    Enter(s.(ip := s.ip + 1, stack := s.stack + [Undefined] + args), f, args)
  }

  /** The deferred calls of the current frame have run. */
  function LogDefers(s: State): State
    requires s.frames != []
  {
    s.(log := s.log + DefersLog(s.Top().defers))
  }

  function ReturnValue(s: State): Value
    requires Normal(s)
  {
    Answer(s.Top().fn.result)
  }

  /** A call of a compiled function: however many functions it calls and defers, its caller gets
      the result, and finds its frame, stack and instruction pointer as they were. */
  lemma {:induction false} CallRuns(s: State)
    requires Normal(s) && s.ip < |s.Top().fn.code| && FineCode(s.Top().fn.code, s.ip, Room(s))
    requires var a := s.Top().fn.code[s.ip]; a.Call? && a.callee.Compiled?
    ensures Leads(Running(s), Running(AfterAct(s, s.ip + 1)))
    decreases Size(s.Top().fn.code[s.ip].callee), 2
  {
    hide Leads, Behind, AfterAct, Called, Step, PopFrames, React, FineCode, CallLog;
    var a := s.Top().fn.code[s.ip];
    var e := Called(s, a.callee, a.args);
    CallEnters(s);
    LeadsOne(s);
    var saved := BodyRuns(e);
    var e1 := Behind(e, saved);
    BehindIs(e, saved, Room(s) - 1);
    PendingIs(a.callee.code, 0, Room(s) - 1);
    ReturnRuns(e1);
    CallLands(s, saved);
    LeadsOn(Running(s), Running(e), Running(e1));
    LeadsOn(Running(s), Running(e1), React(PopFrames(LogDefers(e1), ReturnValue(e1))));
  }

  lemma CallEnters(s: State)
    requires Normal(s) && s.ip < |s.Top().fn.code| && FineCode(s.Top().fn.code, s.ip, Room(s))
    requires var a := s.Top().fn.code[s.ip]; a.Call? && a.callee.Compiled?
    ensures var a := s.Top().fn.code[s.ip];
            var e := Called(s, a.callee, a.args);
            && Step(s) == Running(e)
            && Normal(e) && e.ip == 0 && e.Top().fn == a.callee && e.Top().defers == [] && Room(e) == Room(s) - 1
            && FineCode(a.callee.code, 0, Room(s) - 1) && |e.frames| == |s.frames| + 1 && e.Top().base <= |e.stack|
            && Size(a.callee) == 1 + CodeSize(a.callee.code, 0)
  {
    hide HandleReturn;
    assert Fine(s.Top().fn.code[s.ip].callee, s.Top().fn.code[s.ip].args, Room(s));
  }

  lemma BehindIs(e: State, saved: nat, room: int)
    requires Normal(e) && e.ip == 0 && e.Top().defers == [] && Room(e) == room
    ensures var e1 := Behind(e, saved);
            && Normal(e1) && e1.ip == |e1.Top().fn.code| && e1.Top().fn == e.Top().fn && Room(e1) == room
            && e1.Top().defers == Pending(e.Top().fn.code, 0) && |e1.frames| == |e.frames|
            && e1.frames[..|e.frames| - 1] == e.frames[..|e.frames| - 1] && e1.Top().base == e.Top().base
            && e1.stack == e.stack + Pushed(e.Top().fn.code, 0) && e1.log == e.log + BodyLog(e.Top().fn.code, 0)
            && e1.err == e.err && e1.unwinding == e.unwinding && e1.maxFrames == e.maxFrames
  {
    assert [] + Pending(e.Top().fn.code, 0) == Pending(e.Top().fn.code, 0);
  }

  /** Back in the caller. */
  lemma CallLands(s: State, saved: nat)
    requires Normal(s) && s.ip < |s.Top().fn.code| && FineCode(s.Top().fn.code, s.ip, Room(s))
    requires var a := s.Top().fn.code[s.ip]; a.Call? && a.callee.Compiled?
    ensures var a := s.Top().fn.code[s.ip];
            var e1 := Behind(Called(s, a.callee, a.args), saved);
            && Normal(e1) && |e1.frames| > 1
            && React(PopFrames(LogDefers(e1), ReturnValue(e1))) == Running(AfterAct(s, s.ip + 1))
  {
    hide HandleReturn, Drain, BodyLog, LifoLog, Pending, Pushed, Step, Behind;
    var a := s.Top().fn.code[s.ip];
    var e := Called(s, a.callee, a.args);
    var e1 := Behind(e, saved);
    CallEnters(s);
    BehindIs(e, saved, Room(s) - 1);
    PendingIs(a.callee.code, 0, Room(s) - 1);
    CalledIs(s, a.callee, a.args);
    var s1 := Leave(LogDefers(e1));
    assert s1.frames == s.SetTop(s.Top().(ip := s.ip + 1)).frames;
    assert s1.stack == s.stack + [Undefined];
    assert s.Top().defers + [] == s.Top().defers;
    assert s1.log == s.log + CallLog(a.callee, a.args);
  }

  lemma CalledIs(s: State, f: Fn, args: seq<Value>)
    requires s.frames != [] && f.Compiled?
    ensures var e := Called(s, f, args);
            && e.frames[..|e.frames| - 1] == s.SetTop(s.Top().(ip := s.ip + 1)).frames
            && e.Top().base == |s.stack| + 1
            && e.stack == s.stack + [Undefined] + args + Fill(f.extra)
            && e.log == s.log + [Started(f.id, args)]
  {
  }

  /** What the run loop does when the current frame, in defer mode, goes on with its deferred calls. */
  function DrainStatus(s: State): Status
    requires s.frames != []
  {
    match Drain(s)
    case Entered(s2) => React(Outcome(s2, Undefined, true))
    case Broke(s2) => React(Outcome(s2, Undefined, false))
    case Done(s2, saved) => React(PopFrames(s2, saved))
  }

  predicate InDefer(s: State) {
    |s.frames| > 1 && !s.unwinding && s.err.None? && s.Top().fn.Compiled? && s.Top().inDefer
        && s.Top().base == |s.stack|
  }

  /** A return: the deferred calls first, then handleReturn's loop over the frames below. */
  lemma {:induction false} ReturnRuns(s: State)
    requires Normal(s) && s.ip == |s.Top().fn.code| && |s.frames| > 1 && FineDefers(s.Top().defers, Room(s))
    requires s.Top().base <= |s.stack|
    ensures Leads(Running(s), React(PopFrames(LogDefers(s), ReturnValue(s))))
    decreases DefersSize(s.Top().defers), 2
  {
    hide Leads, React, PopFrames, Drain, DefersLog, FineDefers, StepN, DrainStatus;
    LeadsOne(s);
    ReturnStep(s);
    if s.Top().defers != [] {
      var b := BeginDefers(s, ReturnValue(s));
      BeginIs(s, ReturnValue(s));
      DrainRuns(b);
      PopIgnoresTop(LogDefers(s), LogDefers(b), ReturnValue(s));
      LeadsOn(Running(s), DrainStatus(b), React(PopFrames(LogDefers(b), b.Top().retVal)));
    }
  }

  lemma ReturnStep(s: State)
    requires Normal(s) && s.ip == |s.Top().fn.code| && |s.frames| > 1
    ensures s.Top().defers == [] ==> Step(s) == React(PopFrames(LogDefers(s), ReturnValue(s)))
    ensures s.Top().defers != [] ==> Step(s) == DrainStatus(BeginDefers(s, ReturnValue(s)))
  {
    hide PopFrames, Drain, BeginDefers;
    if s.Top().defers == [] {
      assert s.log + [] == s.log;
      assert LogDefers(s) == s;
    } else {
      match Drain(BeginDefers(s, ReturnValue(s)))
      case Entered(s2) => assert React(Outcome(s2, ReturnValue(s), true)) == React(Outcome(s2, Undefined, true));
      case Broke(s2) => assert React(Outcome(s2, ReturnValue(s), false)) == React(Outcome(s2, Undefined, false));
      case Done(_, _) =>
    }
  }

  lemma BeginIs(s: State, ret: Value)
    requires Normal(s) && |s.frames| > 1 && s.Top().base <= |s.stack|
    ensures var b := BeginDefers(s, ret);
            && InDefer(b) && b.Top().defers == s.Top().defers && b.Top().retVal == ret && Room(b) == Room(s)
            && |b.frames| == |s.frames| && b.frames[..|s.frames| - 1] == s.frames[..|s.frames| - 1]
            && b.Top().base == s.Top().base && b.stack == Cut(s.stack, s.Top().base) && b.log == s.log
            && Cut(b.stack, s.Top().base) == Cut(s.stack, s.Top().base)
            && b.unwinding == s.unwinding && b.err == s.err && b.maxFrames == s.maxFrames
  {
  }

  /** The deferred calls of a frame in defer mode, one after the other. */
  lemma {:induction false} DrainRuns(s: State)
    requires InDefer(s) && FineDefers(s.Top().defers, Room(s))
    ensures Leads(DrainStatus(s), React(PopFrames(LogDefers(s), s.Top().retVal)))
    decreases DefersSize(s.Top().defers), 1
  {
    hide Leads, React, PopFrames, DrainStatus, CallLog, Fine, Step, StepN, Behind, BodyLog, LifoLog, Pending, Pushed,
        CodeSize;
    var ds := s.Top().defers;
    LeadsNowhere(DrainStatus(s));
    if ds == [] {
      NothingToDrain(s);
    } else if ds[|ds| - 1].fn.Builtin? {
      var s2 := PopDefer(s).Note(Started(ds[|ds| - 1].fn.id, ds[|ds| - 1].args));
      DrainBuiltin(s);
      DrainRuns(s2);
    } else {
      var d := ds[|ds| - 1];
      var e := DeferCalled(s);
      DrainEnters(s);
      var saved := BodyRuns(e);
      var e1 := Behind(e, saved);
      BehindIs(e, saved, Room(s) - 1);
      PendingIs(d.fn.code, 0, Room(s) - 1);
      ReturnRuns(e1);
      DrainGoesOn(s, saved);
      var s3 := Leave(LogDefers(e1));
      DrainRuns(s3);
      LeadsOn(Running(e), Running(e1), DrainStatus(s3));
      LeadsOn(Running(e), DrainStatus(s3), React(PopFrames(LogDefers(s), s.Top().retVal)));
    }
  }

  lemma NothingToDrain(s: State)
    requires InDefer(s) && s.Top().defers == []
    ensures DrainStatus(s) == React(PopFrames(LogDefers(s), s.Top().retVal))
  {
    hide PopFrames, React;
    assert s.log + [] == s.log;
    PopIgnoresTop(LogDefers(s), EndDefers(s), s.Top().retVal);
  }

  lemma DrainBuiltin(s: State)
    requires InDefer(s) && s.Top().defers != [] && FineDefers(s.Top().defers, Room(s))
    requires s.Top().defers[|s.Top().defers| - 1].fn.Builtin?
    ensures var d := s.Top().defers[|s.Top().defers| - 1];
            var s2 := PopDefer(s).Note(Started(d.fn.id, d.args));
            && InDefer(s2) && FineDefers(s2.Top().defers, Room(s2)) && DrainStatus(s2) == DrainStatus(s)
            && DefersSize(s2.Top().defers) < DefersSize(s.Top().defers) && s2.Top().retVal == s.Top().retVal
            && PopFrames(LogDefers(s2), s.Top().retVal) == PopFrames(LogDefers(s), s.Top().retVal)
  {
    hide PopFrames, React;
    var d := s.Top().defers[|s.Top().defers| - 1];
    var s2 := PopDefer(s).Note(Started(d.fn.id, d.args));
    assert Fine(d.fn, d.args, Room(s));
    assert RunNextDefer(s) == RunNextDefer(s2);
    assert CallLog(d.fn, d.args) == [Started(d.fn.id, d.args)];
    PopIgnoresTop(LogDefers(s), LogDefers(s2), s.Top().retVal);
  }

  /** The last deferred call of the current frame has been entered. */
  function DeferCalled(s: State): State
    requires s.frames != [] && s.Top().defers != [] && s.Top().defers[|s.Top().defers| - 1].fn.Compiled?
  {
    var d := s.Top().defers[|s.Top().defers| - 1];
    var s1 := PopDefer(s);
    Enter(s1.(stack := s1.stack + d.args), d.fn, d.args)
  }

  lemma DrainEnters(s: State)
    requires InDefer(s) && s.Top().defers != [] && FineDefers(s.Top().defers, Room(s))
    requires s.Top().defers[|s.Top().defers| - 1].fn.Compiled?
    ensures var d, e := s.Top().defers[|s.Top().defers| - 1], DeferCalled(s);
            && DrainStatus(s) == Running(e)
            && Normal(e) && e.ip == 0 && e.Top().fn == d.fn && e.Top().defers == [] && Room(e) == Room(s) - 1
            && FineCode(d.fn.code, 0, Room(s) - 1) && |e.frames| == |s.frames| + 1
              && e.Top().base == |s.stack| <= |e.stack|
            && Size(d.fn) == 1 + CodeSize(d.fn.code, 0)
            && DefersSize(s.Top().defers) == Size(d.fn) + DefersSize(s.Top().defers[..|s.Top().defers| - 1])
  {
    hide PopFrames;
    var d := s.Top().defers[|s.Top().defers| - 1];
    assert Fine(d.fn, d.args, Room(s));
  }

  /** Behind a deferred call its frame is current again, without that call. */
  lemma DrainLands(s: State, saved: nat)
    requires InDefer(s) && s.Top().defers != [] && FineDefers(s.Top().defers, Room(s))
    requires s.Top().defers[|s.Top().defers| - 1].fn.Compiled?
    ensures var e1, ds := Behind(DeferCalled(s), saved), s.Top().defers;
            && Normal(e1) && |e1.frames| == |s.frames| + 1
            && var s3, d := Leave(LogDefers(e1)), ds[|ds| - 1];
            && s3 == s.SetTop(s.Top().(ip := s.ip, defers := ds[..|ds| - 1])).(log := s.log + CallLog(d.fn, d.args))
  {
    hide Drain, BodyLog, LifoLog, Pending, Pushed, Step, Behind, React, PopFrames, FineDefers;
    var ds := s.Top().defers;
    var d, e := ds[|ds| - 1], DeferCalled(s);
    var e1 := Behind(e, saved);
    DrainEnters(s);
    BehindIs(e, saved, Room(s) - 1);
    PendingIs(d.fn.code, 0, Room(s) - 1);
    DeferCalledIs(s);
    var s3 := Leave(LogDefers(e1));
    assert s3.frames == s.SetTop(s.Top().(ip := s.ip, defers := ds[..|ds| - 1])).frames;
    assert s3.stack == s.stack;
    assert s3.log == s.log + CallLog(d.fn, d.args);
  }

  /** Behind a deferred call its frame goes on with the earlier ones. */
  lemma DrainGoesOn(s: State, saved: nat)
    requires InDefer(s) && s.Top().defers != [] && FineDefers(s.Top().defers, Room(s))
    requires s.Top().defers[|s.Top().defers| - 1].fn.Compiled?
    ensures var e1, ds := Behind(DeferCalled(s), saved), s.Top().defers;
            && Normal(e1) && |e1.frames| == |s.frames| + 1
            && var s3 := Leave(LogDefers(e1));
            && React(PopFrames(LogDefers(e1), ReturnValue(e1))) == DrainStatus(s3)
            && InDefer(s3) && s3.Top().defers == ds[..|ds| - 1] && Room(s3) == Room(s)
              && s3.Top().retVal == s.Top().retVal
            && PopFrames(LogDefers(s3), s.Top().retVal) == PopFrames(LogDefers(s), s.Top().retVal)
  {
    hide CallLog, Leave, Behind, React, PopFrames, DrainStatus, DeferCalled, FineDefers;
    var ds := s.Top().defers;
    DrainEnters(s);
    DrainLands(s, saved);
    var e1, d := Behind(DeferCalled(s), saved), ds[|ds| - 1];
    var s3 := Leave(LogDefers(e1));
    assert s3.log + DefersLog(ds[..|ds| - 1]) == s.log + DefersLog(ds);
    GoesOn(LogDefers(e1), ReturnValue(e1));
    PopIgnoresTop(LogDefers(s), LogDefers(s3), s.Top().retVal);
  }

  /** In normal operation handleReturn finds the frame below in defer mode and drains it. */
  lemma GoesOn(s: State, ret: Value)
    requires |s.frames| > 1 && !s.unwinding && Leave(s).Top().inDefer
    ensures React(PopFrames(s, ret)) == DrainStatus(Leave(s))
  {
    hide Drain, Leave;
    var s1 := Leave(s);
    assert Arrive(s1, ret) == s1;
    match Drain(s1)
    case Entered(s2) => assert React(Outcome(s2, ret, true)) == React(Outcome(s2, Undefined, true));
    case Broke(s2) => assert React(Outcome(s2, ret, false)) == React(Outcome(s2, Undefined, false));
    case Done(_, _) =>
  }

  lemma DeferCalledIs(s: State)
    requires s.frames != [] && s.Top().defers != [] && s.Top().defers[|s.Top().defers| - 1].fn.Compiled?
    ensures var ds, e := s.Top().defers, DeferCalled(s);
            var d := ds[|ds| - 1];
            && e.frames[..|e.frames| - 1] == s.SetTop(s.Top().(ip := s.ip, defers := ds[..|ds| - 1])).frames
            && e.Top().base == |s.stack|
            && e.stack == s.stack + d.args + Fill(d.fn.extra)
            && e.log == s.log + [Started(d.fn.id, d.args)] && e.err == s.err && e.unwinding == s.unwinding
  {
  }

  /** The machine before its first step. */
  function Begin(entry: Fn, maxFrames: nat): State {
    State([Frame(entry, 0, 0, [], false, Undefined)], [], 0, false, None, [], maxFrames)
  }

  /** A call fails with a wrong number of arguments, whatever room there is, and otherwise if there is no
      frame left; a builtin function may fail by itself. */
  lemma CallFaults(s: State, f: Fn, args: seq<Value>)
    requires s.frames != [] && s.Top().fn.Compiled? && s.ip < |s.Top().fn.code|
    requires s.Top().fn.code[s.ip] == Call(f, args)
    ensures var c := Step(s);
            if f.Builtin? then f.value.None? ==> c.Halted? && c.s.err == Some(CallFailed)
            else if |args| != f.params then c.Halted? && c.s.err == Some(WrongNumArguments)
            else if |s.frames| >= s.maxFrames then c.Halted? && c.s.err == Some(StackOverflow)
            else c.Running? && c.s.err == s.err
  {
  }

  /** A deferred call that fails leaves those registered before it unrun. */
  lemma FailingDefer(s: State, more: seq<Deferred>, d: Deferred)
    requires s.frames != [] && s.Top().defers == more + [d]
    requires if d.fn.Builtin? then d.fn.value.None? else |d.args| != d.fn.params || |s.frames| >= s.maxFrames
    ensures var (s', started) := RunNextDefer(s);
            && !started && s'.frames != [] && s'.Top().defers == more
            && s'.log == s.log + (if d.fn.Builtin? then [Started(d.fn.id, d.args)] else [])
            && s'.err == Some(if d.fn.Builtin? then CallFailed
                              else if |d.args| != d.fn.params then WrongNumArguments else StackOverflow)
  {
    assert (more + [d])[..|more|] == more;
  }

  /** A whole program: it suspends behind the last action of the entry function, having done what
      BodyLog says. */
  lemma ProgramRuns(entry: Fn, maxFrames: nat) returns (saved: nat)
    requires entry.Compiled? && maxFrames > 0 && FineCode(entry.code, 0, maxFrames - 1)
    ensures Leads(Running(Begin(entry, maxFrames)), Halted(Behind(Begin(entry, maxFrames), saved)))
    ensures Behind(Begin(entry, maxFrames), saved).log == BodyLog(entry.code, 0)
    ensures Behind(Begin(entry, maxFrames), saved).stack == Pushed(entry.code, 0)
  {
    hide Leads, BodyLog, Pushed, Pending, HandleReturn;
    var s := Begin(entry, maxFrames);
    saved := BodyRuns(s);
    var e := Behind(s, saved);
    LeadsOne(e);
    assert Step(e) == Halted(e);
    LeadsOn(Running(s), Running(e), Halted(e));
  }
}
