/** The frame stack and deferred calls: handleReturn and runNextDefer, in normal operation and while
    an abort unwinds the stack (vm/vm.go:409-420, 876-950, 1034-1090, 1293-1432).

    A function is what its calls do in one particular run: the calls and defers it executes, in
    order. A program is therefore a tree, and statements about all such trees are statements about
    all finite runs. */
module Frames {
  import opened Wrappers

  datatype Value = Undefined | Num(n: int)

  datatype Fn =
    // extra: locals besides the parameters
    | Compiled(id: nat, params: nat, extra: nat, code: seq<Act>, result: Option<Value>)
    | Builtin(id: nat, value: Option<Value>)                                              // None: the call fails

  datatype Act =
    | Work(what: nat)
    | Push(v: Value)                          // an operand of an unfinished expression
    | Call(callee: Fn, args: seq<Value>)
    | Defer(callee: Fn, args: seq<Value>)

  /** What can be observed: which functions started, in which order, with which arguments. */
  datatype Event = Did(what: nat) | Started(id: nat, args: seq<Value>)

  datatype Deferred = Deferred(fn: Fn, args: seq<Value>)

  datatype Frame = Frame(fn: Fn, ip: nat, base: nat, defers: seq<Deferred>, inDefer: bool, retVal: Value)

  datatype Fault = WrongNumArguments | StackOverflow | CallFailed | Truncated

  /** The last frame is the current one; the length of the stack is the stack pointer. */
  datatype State = State(frames: seq<Frame>, stack: seq<Value>, ip: nat, unwinding: bool, err: Option<Fault>,
                         log: seq<Event>,
                         maxFrames: nat)
  {
    function Top(): Frame
      requires frames != []
    {
      frames[|frames| - 1]
    }

    function SetTop(f: Frame): State
      requires frames != []
    {
      this.(frames := frames[..|frames| - 1] + [f])
    }

    function Note(e: Event): State { this.(log := log + [e]) }
  }

  /** sp is set to n. */
  function Cut(stack: seq<Value>, n: nat): seq<Value> { if n <= |stack| then stack[..n] else stack }

  function Fill(n: nat): seq<Value> { seq(n, i => Undefined) }

  // ----- entering functions -----

  /** A new frame for fn, whose arguments are on top of the stack. */
  function Enter(s: State, fn: Fn, args: seq<Value>): State
    requires s.frames != [] && fn.Compiled?
  {
    var s1 := s.SetTop(s.Top().(ip := s.ip));
    s1.(frames := s1.frames + [Frame(fn, 0, if |args| <= |s.stack| then |s.stack| - |args| else 0, [], false,
                                     Undefined)],
        stack := s.stack + Fill(fn.extra), ip := 0).Note(Started(fn.id, args))
  }

  predicate CanEnter(s: State, fn: Fn, args: seq<Value>)
    requires fn.Compiled?
  {
    |args| == fn.params && |s.frames| < s.maxFrames
  }

  function EnterFault(s: State, fn: Fn, args: seq<Value>): Fault
    requires fn.Compiled?
  {
    if |args| != fn.params then WrongNumArguments else StackOverflow
  }

  function PopDefer(s: State): State
    requires s.frames != [] && s.Top().defers != []
  {
    s.SetTop(s.Top().(defers := s.Top().defers[..|s.Top().defers| - 1]))
  }

  /** runNextDefer: pops deferred calls of the current frame; builtin functions are called at once, a
      compiled one gets a frame and the answer true. */
  function RunNextDefer(s: State): (State, bool)
    requires s.frames != []
    decreases |s.Top().defers|
  {
    if s.Top().defers == [] then (s, false)
    else
      var d := s.Top().defers[|s.Top().defers| - 1];
      var s1 := PopDefer(s);
      match d.fn
      case Compiled(_, _, _, _, _) =>
        var s2 := s1.(stack := s1.stack + d.args);
        if CanEnter(s2, d.fn, d.args) then (Enter(s2, d.fn, d.args), true)
        else (s2.(err := Some(EnterFault(s2, d.fn, d.args))), false)
      case Builtin(id, v) =>
        var s2 := s1.Note(Started(id, d.args));
        if v.None? then (s2.(err := Some(CallFailed)), false) else RunNextDefer(s2)
  }

  // ----- returning -----

  function BeginDefers(s: State, ret: Value): (r: State)
    requires s.frames != []
    ensures |r.frames| == |s.frames| && r.Top().inDefer && r.unwinding == s.unwinding && r.maxFrames == s.maxFrames
  {
    s.SetTop(s.Top().(retVal := ret, inDefer := true)).(stack := Cut(s.stack, s.Top().base))
  }

  function EndDefers(s: State): (r: State)
    requires s.frames != []
    ensures |r.frames| == |s.frames| && !r.Top().inDefer && r.unwinding == s.unwinding && r.maxFrames == s.maxFrames
  {
    s.SetTop(s.Top().(inDefer := false, retVal := Undefined))
  }

  /** The caller of the current frame becomes current. */
  function Leave(s: State): (r: State)
    requires |s.frames| > 1
    ensures |r.frames| == |s.frames| - 1 && r.unwinding == s.unwinding && r.maxFrames == s.maxFrames
  {
    var n := |s.frames| - 1;
    s.(frames := s.frames[..n], ip := s.frames[n - 1].ip, stack := Cut(s.stack, s.frames[n].base))
  }

  lemma {:induction false} DefersKeepFrames(s: State)
    requires s.frames != []
    ensures var next := RunNextDefer(s);
            !next.1 ==> |next.0.frames| == |s.frames| && next.0.unwinding == s.unwinding
                        && next.0.frames[..|s.frames| - 1] == s.frames[..|s.frames| - 1]
                        && next.0.Top().retVal == s.Top().retVal && next.0.Top().base == s.Top().base
                        && next.0.Top().inDefer == s.Top().inDefer && next.0.Top().fn == s.Top().fn
    decreases |s.Top().defers|
  {
    if s.Top().defers != [] {
      var d := s.Top().defers[|s.Top().defers| - 1];
      if d.fn.Builtin? && d.fn.value.Some? {
        DefersKeepFrames(PopDefer(s).Note(Started(d.fn.id, d.args)));
      }
    }
  }

  /** The current frame in defer mode: a deferred function was entered, a deferred call failed, or
      all of them are done and the saved result is given back. */
  datatype Drained = Entered(s: State) | Broke(s: State) | Done(s: State, ret: Value)

  function Drain(s: State): (r: Drained)
    requires s.frames != []
    ensures r.s.unwinding == s.unwinding || r.Entered?
    ensures !r.Entered? ==> |r.s.frames| == |s.frames|
    ensures r.Broke? ==> r.s.err.Some? && !s.unwinding
  {
    var next := RunNextDefer(s);
    DefersKeepFrames(s);
    if next.1 then Entered(next.0)
    else if next.0.err.Some? && !s.unwinding then Broke(next.0)
    else Done(EndDefers(next.0), next.0.Top().retVal)
  }

  datatype Outcome = Outcome(s: State, ret: Value, more: bool)

  /** The caller is in the middle of its body. While unwinding, its deferred calls are begun. */
  function Arrive(s: State, ret: Value): (r: State)
    requires s.frames != []
    ensures |r.frames| == |s.frames| && r.unwinding == s.unwinding && r.maxFrames == s.maxFrames
  {
    if s.unwinding && !s.Top().inDefer && s.Top().defers != [] then BeginDefers(s, ret) else s
  }

  /** The loop of handleReturn. */
  function PopFrames(s: State, ret: Value): Outcome
    requires s.frames != []
    decreases |s.frames|
  {
    if |s.frames| == 1 then Outcome(s.(frames := []), ret, false)
    else
      var s1 := Arrive(Leave(s), ret);
      if !s1.Top().inDefer then
        if s.unwinding && |s1.frames| > 1 then PopFrames(s1, ret) else Outcome(s1, ret, false)
      else
        match Drain(s1)
        case Entered(s2) => Outcome(s2, ret, true)
        case Broke(s2) => Outcome(s2, ret, false)
        case Done(s2, saved) => PopFrames(s2, saved)
  }

  function HandleReturn(s: State, ret: Value): Outcome
    requires s.frames != []
  {
    if s.Top().defers != [] && !s.Top().inDefer then
      match Drain(BeginDefers(s, ret))
      case Entered(s2) => Outcome(s2, ret, true)
      case Broke(s2) => Outcome(s2, ret, false)
      case Done(s2, saved) => PopFrames(s2, saved)
    else PopFrames(s, ret)
  }

  // ----- the run loop -----

  datatype Status = Running(s: State) | Halted(s: State)

  /** What run does with the answer of handleReturn: the callee's slot receives the result. */
  function React(o: Outcome): Status {
    if o.more then Running(o.s)
    else if o.s.unwinding || o.s.err.Some? || o.s.stack == [] then Halted(o.s)
    else Running(o.s.(stack := o.s.stack[..|o.s.stack| - 1] + [o.ret]))
  }

  function Answer(r: Option<Value>): Value { if r.Some? then r.value else Undefined }

  /** One action of the current function; behind the last one it returns, the root suspends. */
  function Step(s: State): Status {
    if s.frames == [] || s.Top().fn.Builtin? then Halted(s.(err := Some(Truncated)))
    else if s.ip >= |s.Top().fn.code| then
      if |s.frames| == 1 && !s.unwinding then Halted(s)
      else React(HandleReturn(s, Answer(s.Top().fn.result)))
    else
      match s.Top().fn.code[s.ip]
      case Work(w) => Running(s.(ip := s.ip + 1).Note(Did(w)))
      case Push(v) => Running(s.(ip := s.ip + 1, stack := s.stack + [v]))
      case Defer(f, args) =>
        Running(s.SetTop(s.Top().(defers := s.Top().defers + [Deferred(f, args)])).(ip := s.ip + 1))
      case Call(f, args) =>
        if f.Builtin? then
          var s1 := s.Note(Started(f.id, args));
          if f.value.None? then Halted(s1.(err := Some(CallFailed)))
          else Running(s1.(ip := s.ip + 1, stack := s.stack + [f.value.value]))
        else
          var s1 := s.(ip := s.ip + 1, stack := s.stack + [Undefined] + args);
          if CanEnter(s1, f, args) then Running(Enter(s1, f, args))
          else Halted(s1.(err := Some(EnterFault(s1, f, args))))
  }

  function StepN(c: Status, n: nat): Status
    decreases n
  {
    if n == 0 || c.Halted? then c else StepN(Step(c.s), n - 1)
  }

  /** run notices that the machine is aborted: the unwinding begins. */
  function AbortNow(s: State): Status
    requires s.frames != []
  {
    React(HandleReturn(s.(unwinding := true), Undefined))
  }

  lemma {:induction false} StepNAdd(c: Status, a: nat, b: nat)
    ensures StepN(c, a + b) == StepN(StepN(c, a), b)
    decreases a
  {
    hide Step;
    if a != 0 && c.Running? { StepNAdd(Step(c.s), a - 1, b); }
  }

  // ----- the machine as it works -----

  class VM {
    var frames: seq<Frame>
    var stack: seq<Value>
    var ip: nat
    var unwinding: bool
    var err: Option<Fault>
    var log: seq<Event>
    const maxFrames: nat

    ghost function St(): State
      reads this
    {
      State(frames, stack, ip, unwinding, err, log, maxFrames)
    }

    constructor (entry: Fn, maxFrames: nat)
      ensures St() == State([Frame(entry, 0, 0, [], false, Undefined)], [], 0, false, None, [], maxFrames)
    {
      frames, stack, ip := [Frame(entry, 0, 0, [], false, Undefined)], [], 0;
      unwinding, err, log := false, None, [];
      this.maxFrames := maxFrames;
    }

    method SetTop(f: Frame)
      requires frames != []
      modifies this`frames
      ensures St() == old(St().SetTop(f))
    {
      frames := frames[..|frames| - 1] + [f];
    }

    /** Pushes a frame for a compiled function whose arguments are on the stack. */
    method EnterFrame(fn: Fn, args: seq<Value>)
      requires frames != [] && fn.Compiled?
      modifies this
      ensures St() == Enter(old(St()), fn, args)
    {
      SetTop(frames[|frames| - 1].(ip := ip));
      var base := if |args| <= |stack| then |stack| - |args| else 0;
      frames := frames + [Frame(fn, 0, base, [], false, Undefined)];
      stack := stack + Fill(fn.extra);
      ip := 0;
      log := log + [Started(fn.id, args)];
    }

    method RunDefers() returns (started: bool)
      requires frames != []
      modifies this
      ensures (St(), started) == RunNextDefer(old(St()))
    {
      hide Enter;
      while frames[|frames| - 1].defers != []
        invariant frames != []
        invariant RunNextDefer(St()) == RunNextDefer(old(St()))
        decreases |frames[|frames| - 1].defers|
      {
        var f := frames[|frames| - 1];
        var d := f.defers[|f.defers| - 1];
        SetTop(f.(defers := f.defers[..|f.defers| - 1]));
        if d.fn.Compiled? {
          stack := stack + d.args;
          if |d.args| != d.fn.params {
            err := Some(WrongNumArguments);
            return false;
          }
          if |frames| >= maxFrames {
            err := Some(StackOverflow);
            return false;
          }
          EnterFrame(d.fn, d.args);
          return true;
        }
        log := log + [Started(d.fn.id, d.args)];
        if d.fn.value.None? {
          err := Some(CallFailed);
          return false;
        }
      }
      started := false;
    }

    method EnterDeferMode(retVal: Value)
      requires frames != []
      modifies this
      ensures St() == BeginDefers(old(St()), retVal)
    {
      SetTop(frames[|frames| - 1].(retVal := retVal, inDefer := true));
      stack := Cut(stack, frames[|frames| - 1].base);
    }

    method DrainDefers() returns (started: bool, failed: bool, ret: Value)
      requires frames != []
      modifies this
      ensures match Drain(old(St()))
              case Entered(s) => St() == s && started
              case Broke(s) => St() == s && !started && failed
              case Done(s, saved) => St() == s && !started && !failed && ret == saved
    {
      hide RunNextDefer;
      DefersKeepFrames(St());
      ret := Undefined;
      started := RunDefers();
      failed := err.Some? && !unwinding;
      if !started && !failed {
        ret := frames[|frames| - 1].retVal;
        SetTop(frames[|frames| - 1].(inDefer := false, retVal := Undefined));
      }
    }

    method PopFrame()
      requires |frames| > 1
      modifies this
      ensures St() == Leave(old(St()))
    {
      var base := frames[|frames| - 1].base;
      frames := frames[..|frames| - 1];
      ip := frames[|frames| - 1].ip;
      stack := Cut(stack, base);
    }

    /** Deals with the return of the current frame, deferred calls first. The answer says whether a
        deferred function was entered and the run loop has to go on. */
    method Return(retVal: Value) returns (ret: Value, more: bool)
      requires frames != []
      modifies this
      ensures Outcome(St(), ret, more) == HandleReturn(old(St()), retVal)
    {
      hide Drain, BeginDefers, Leave;
      ret := retVal;
      var started, failed, saved;
      if frames[|frames| - 1].defers != [] && !frames[|frames| - 1].inDefer {
        EnterDeferMode(ret);
        started, failed, saved := DrainDefers();
        if started || failed { return ret, started; }
        ret := saved;
      }
      while true
        invariant frames != []
        invariant PopFrames(St(), ret) == HandleReturn(old(St()), retVal)
        decreases |frames|
      {
        if |frames| == 1 {
          frames := [];
          return ret, false;
        }
        PopFrame();
        if unwinding && !frames[|frames| - 1].inDefer && frames[|frames| - 1].defers != [] {
          EnterDeferMode(ret);
        }
        if frames[|frames| - 1].inDefer {
          started, failed, saved := DrainDefers();
          if started || failed { return ret, started; }
          ret := saved;
        } else if !unwinding || |frames| == 1 {
          return ret, false;
        }
      }
    }
  }
}
