/** An abort: every pending deferred call of every frame is started exactly once, the innermost frame
    first and the last registered call first within a frame, and then the machine stops. */
module UnwindProof {
  import opened Wrappers
  import opened Frames
  import opened FrameProof

  // ----- what is still to happen while unwinding -----

  /** A deferred call while the machine unwinds. When a compiled function that it calls returns,
      handleReturn does not come back to the rest of its body: its own deferred calls follow. */
  function UnwindLog(f: Fn, args: seq<Value>): seq<Event>
    decreases Size(f), 0
  {
    [Started(f.id, args)] + (if f.Builtin? then [] else FromLog(f.code, 0, []))
  }

  function FromLog(code: seq<Act>, i: nat, ds: seq<Deferred>): seq<Event>
    decreases CodeSize(code, i) + DefersSize(ds), 2
  {
    if i >= |code| then PendingLog(ds)
    else
      match code[i]
      case Work(w) => [Did(w)] + FromLog(code, i + 1, ds)
      case Push(_) => FromLog(code, i + 1, ds)
      case Defer(f, args) =>
        SizeOfMore(ds, Deferred(f, args));
        FromLog(code, i + 1, ds + [Deferred(f, args)])
      case Call(f, args) =>
        if f.Builtin? then [Started(f.id, args)] + FromLog(code, i + 1, ds)
        else UnwindLog(f, args) + PendingLog(ds)
  }

  function PendingLog(ds: seq<Deferred>): seq<Event>
    decreases DefersSize(ds), 1
  {
    if ds == [] then [] else UnwindLog(ds[|ds| - 1].fn, ds[|ds| - 1].args) + PendingLog(ds[..|ds| - 1])
  }

  lemma SizeOfMore(ds: seq<Deferred>, d: Deferred)
    ensures DefersSize(ds + [d]) == DefersSize(ds) + Size(d.fn)
  {
    assert (ds + [d])[..|ds|] == ds;
  }

  /** The pending deferred calls of a stack of frames, from the innermost frame outwards. */
  function StackLog(frames: seq<Frame>): seq<Event>
    decreases |frames|
  {
    if frames == [] then [] else PendingLog(frames[|frames| - 1].defers) + StackLog(frames[..|frames| - 1])
  }

  function StackSize(frames: seq<Frame>): nat
    decreases |frames|
  {
    if frames == [] then 0 else DefersSize(frames[|frames| - 1].defers) + StackSize(frames[..|frames| - 1])
  }

  function ToCome(s: State): seq<Event>
    requires s.frames != [] && s.Top().fn.Compiled?
  {
    FromLog(s.Top().fn.code, s.ip, s.Top().defers) + StackLog(s.frames[..|s.frames| - 1])
  }

  function WorkLeft(s: State): nat
    requires s.frames != [] && s.Top().fn.Compiled?
  {
    CodeSize(s.Top().fn.code, s.ip) + StackSize(s.frames)
  }

  // ----- no pending call fails -----

  predicate FrameFine(f: Frame, ip: nat, room: int) {
    f.fn.Compiled? && FineCode(f.fn.code, ip, room) && FineDefers(f.defers, room) && room >= 0
  }

  predicate StackFine(frames: seq<Frame>, maxFrames: nat)
    decreases |frames|
  {
    frames == []
    || (var n := |frames| - 1;
         FrameFine(frames[n], frames[n].ip, maxFrames - |frames|) && StackFine(frames[..n], maxFrames))
  }

  /** A state between two steps of a program in which no call fails. */
  predicate Ready(s: State) {
    && s.frames != [] && s.err.None? && !s.Top().inDefer
    && FrameFine(s.Top(), s.ip, Room(s)) && StackFine(s.frames[..|s.frames| - 1], s.maxFrames)
  }

  // ----- runNextDefer -----

  lemma {:induction false} NextDeferIs(s: State)
    requires s.frames != [] && FineDefers(s.Top().defers, Room(s))
    ensures var s', started := RunNextDefer(s).0, RunNextDefer(s).1;
            && s'.err == s.err && s'.unwinding == s.unwinding && s'.maxFrames == s.maxFrames
            && (!started ==>
                 s'.frames == s.SetTop(s.Top().(defers := [])).frames && s'.log == s.log + PendingLog(s.Top().defers))
            && (started ==> NextEntered(s, s'))
    decreases |s.Top().defers|
  {
    hide Fine, UnwindLog, FromLog, NextEntered;
    var ds := s.Top().defers;
    if ds == [] {
      assert s.log + [] == s.log;
      assert s.frames == s.SetTop(s.Top()).frames;
    } else if ds[|ds| - 1].fn.Builtin? {
      var d := ds[|ds| - 1];
      var s2 := PopDefer(s).Note(Started(d.fn.id, d.args));
      BuiltinNext(s);
      NextDeferIs(s2);
      if RunNextDefer(s2).1 { EnteredEarlier(s, s2, RunNextDefer(s2).0); }
    } else {
      CompiledNext(s);
    }
  }

  /** A deferred function has been entered above the frame s had on top. */
  predicate NextEntered(s: State, s': State)
    requires s.frames != []
  {
    var n, ds := |s.frames|, s.Top().defers;
    && |s'.frames| == n + 1 && s'.frames[..n - 1] == s.frames[..n - 1] && s'.ip == 0
    && var rem, f := s'.frames[n - 1].defers, s'.Top().fn;
    && s'.frames[n - 1] == s.Top().(ip := s.ip, defers := rem)
    && s'.Top().defers == [] && !s'.Top().inDefer && f.Compiled?
    && FineCode(f.code, 0, Room(s) - 1) && FineDefers(rem, Room(s)) && Room(s) > 0
    && s'.log + FromLog(f.code, 0, []) + PendingLog(rem) == s.log + PendingLog(ds)
    && CodeSize(f.code, 0) + DefersSize(rem) < DefersSize(ds)
  }

  lemma BuiltinNext(s: State)
    requires s.frames != [] && FineDefers(s.Top().defers, Room(s))
    requires s.Top().defers != [] && s.Top().defers[|s.Top().defers| - 1].fn.Builtin?
    ensures var ds := s.Top().defers;
            var d := ds[|ds| - 1];
            var s2 := PopDefer(s).Note(Started(d.fn.id, d.args));
            && RunNextDefer(s) == RunNextDefer(s2) && FineDefers(s2.Top().defers, Room(s2))
            && s2.log + PendingLog(s2.Top().defers) == s.log + PendingLog(ds)
            && s2.SetTop(s2.Top().(defers := [])).frames == s.SetTop(s.Top().(defers := [])).frames
  {
    hide FromLog, CodeSize;
    var ds := s.Top().defers;
    var d := ds[|ds| - 1];
    var s2 := PopDefer(s).Note(Started(d.fn.id, d.args));
    assert Fine(d.fn, d.args, Room(s));
    assert UnwindLog(d.fn, d.args) == [Started(d.fn.id, d.args)];
    LogMoves(s.log, [Started(d.fn.id, d.args)], PendingLog(ds[..|ds| - 1]));
  }

  lemma EnteredEarlier(s: State, s2: State, s': State)
    requires s.frames != [] && s.Top().defers != [] && NextEnteredOk(s2, s')
    requires |s2.frames| == |s.frames| && s2.frames[..|s.frames| - 1] == s.frames[..|s.frames| - 1]
    requires s2.Top() == s.Top().(defers := s.Top().defers[..|s.Top().defers| - 1])
    requires s2.ip == s.ip && s2.maxFrames == s.maxFrames
    requires s2.log + PendingLog(s2.Top().defers) == s.log + PendingLog(s.Top().defers)
    ensures NextEntered(s, s')
  {
    hide FromLog, CodeSize, PendingLog, FineCode, FineDefers;
  }

  predicate NextEnteredOk(s: State, s': State) { s.frames != [] && NextEntered(s, s') }

  lemma LogMoves(a: seq<Event>, b: seq<Event>, c: seq<Event>)
    ensures a + b + c == a + (b + c)
  {
  }

  lemma CompiledNext(s: State)
    requires s.frames != [] && FineDefers(s.Top().defers, Room(s))
    requires s.Top().defers != [] && s.Top().defers[|s.Top().defers| - 1].fn.Compiled?
    ensures RunNextDefer(s).1 && NextEntered(s, RunNextDefer(s).0)
    ensures var s' := RunNextDefer(s).0; s'.err == s.err && s'.unwinding == s.unwinding && s'.maxFrames == s.maxFrames
  {
    hide FromLog, CodeSize, DeferCalled, RunNextDefer, FineDefers, Fine, PendingLog, DefersSize, UnwindLog;
    var ds := s.Top().defers;
    var d, e := ds[|ds| - 1], DeferCalled(s);
    CompiledEnters(s);
    DeferCalledIs(s);
    LastPending(ds);
    LastDefer(ds, Room(s));
    var mid := e.frames[..|e.frames| - 1];
    assert mid[|mid| - 1] == e.frames[|mid| - 1] && mid[..|mid| - 1] == e.frames[..|mid| - 1];
    FourLogs(s.log, [Started(d.fn.id, d.args)], FromLog(d.fn.code, 0, []), PendingLog(ds[..|ds| - 1]), []);
  }

  lemma LastPending(ds: seq<Deferred>)
    requires ds != [] && ds[|ds| - 1].fn.Compiled?
    ensures var d := ds[|ds| - 1];
            && PendingLog(ds) == [Started(d.fn.id, d.args)] + FromLog(d.fn.code, 0, []) + PendingLog(ds[..|ds| - 1])
            && Size(d.fn) == 1 + CodeSize(d.fn.code, 0)
  {
    hide FromLog, CodeSize;
    var d := ds[|ds| - 1];
    assert UnwindLog(d.fn, d.args) == [Started(d.fn.id, d.args)] + FromLog(d.fn.code, 0, []);
  }

  lemma CompiledEnters(s: State)
    requires s.frames != [] && FineDefers(s.Top().defers, Room(s))
    requires s.Top().defers != [] && s.Top().defers[|s.Top().defers| - 1].fn.Compiled?
    ensures var ds, e := s.Top().defers, DeferCalled(s);
            var d := ds[|ds| - 1];
            && RunNextDefer(s) == (e, true)
            && e.Top() == Frame(d.fn, 0, |s.stack|, [], false, Undefined) && e.ip == 0 && e.maxFrames == s.maxFrames
            && |e.frames| == |s.frames| + 1
            && FineCode(d.fn.code, 0, Room(s) - 1) && FineDefers(ds[..|ds| - 1], Room(s)) && Room(s) > 0
  {
    var d := s.Top().defers[|s.Top().defers| - 1];
    assert Fine(d.fn, d.args, Room(s));
  }

  // ----- handleReturn -----

  /** What handleReturn's loop does while unwinding, the current frame being done with. */
  predicate Unwound(s: State, o: Outcome)
    requires s.frames != []
  {
    var below := s.frames[..|s.frames| - 1];
    && o.s.unwinding && o.s.err.None? && o.s.maxFrames == s.maxFrames
    && (o.more ==> Ready(o.s) && o.s.log + ToCome(o.s) == s.log + StackLog(below) && WorkLeft(o.s) < StackSize(below))
    && (!o.more ==> o.s.log == s.log + StackLog(below))
  }

  lemma {:induction false} PopUnwinds(s: State, ret: Value)
    requires s.unwinding && s.err.None? && s.frames != [] && StackFine(s.frames[..|s.frames| - 1], s.maxFrames)
    ensures Unwound(s, PopFrames(s, ret))
    decreases |s.frames|
  {
    hide Unwound, Drain, PendingLog, FineDefers, FineCode, DefersSize;
    var fs := s.frames[..|s.frames| - 1];
    if fs == [] {
      NothingBelow(s, ret);
    } else {
      var s1 := Arrive(Leave(s), ret);
      ArriveIs(s, ret);
      if !s1.Top().inDefer {
        if |s1.frames| > 1 { PopUnwinds(s1, ret); }
        SkipFrame(s, ret);
      } else {
        NextDeferIs(s1);
        match Drain(s1)
        case Entered(s2) => DrainIs(s1); PopEnters(s, ret);
        case Broke(_) =>
        case Done(s2, saved) =>
          DrainedIs(s1);
          PopUnwinds(s2, saved);
          DrainFrame(s, ret);
      }
    }
  }

  lemma NothingBelow(s: State, ret: Value)
    requires s.unwinding && s.err.None? && |s.frames| == 1
    ensures Unwound(s, PopFrames(s, ret))
  {
    assert s.log + [] == s.log;
  }

  lemma ArriveIs(s: State, ret: Value)
    requires s.unwinding && s.err.None? && |s.frames| > 1 && StackFine(s.frames[..|s.frames| - 1], s.maxFrames)
    ensures var s1, fs := Arrive(Leave(s), ret), s.frames[..|s.frames| - 1];
            && |s1.frames| == |fs| && s1.frames[..|fs| - 1] == fs[..|fs| - 1] && s1.Top().defers == fs[|fs| - 1].defers
            && s1.Top().fn == fs[|fs| - 1].fn && s1.ip == fs[|fs| - 1].ip
            && s1.unwinding && s1.err.None? && s1.maxFrames == s.maxFrames && s1.log == s.log
            && (!s1.Top().inDefer ==> s1.Top().defers == [])
            && FineDefers(s1.Top().defers, Room(s1)) && StackFine(s1.frames[..|s1.frames| - 1], s.maxFrames)
            && FrameFine(s1.Top(), s1.ip, Room(s1))
  {
    hide FineDefers, FineCode;
  }

  lemma SkipFrame(s: State, ret: Value)
    requires s.unwinding && s.err.None? && |s.frames| > 1 && StackFine(s.frames[..|s.frames| - 1], s.maxFrames)
    requires var s1 := Arrive(Leave(s), ret); !s1.Top().inDefer && (|s1.frames| > 1 ==> Unwound(s1, PopFrames(s1, ret)))
    ensures Unwound(s, PopFrames(s, ret))
  {
    hide Drain, Arrive, Ready, ToCome, WorkLeft, PopFrames, PendingLog;
    var fs := s.frames[..|s.frames| - 1];
    PopSkips(s, ret);
    ArriveIs(s, ret);
    NothingPending();
    assert s.log + [] == s.log;
    OneFrame(fs);
  }

  /** One turn of the loop of handleReturn. */
  lemma PopSkips(s: State, ret: Value)
    requires s.unwinding && |s.frames| > 1 && !Arrive(Leave(s), ret).Top().inDefer
    ensures var s1 := Arrive(Leave(s), ret);
            PopFrames(s, ret) == if |s1.frames| > 1 then PopFrames(s1, ret) else Outcome(s1, ret, false)
  {
    hide Drain, Arrive;
  }

  lemma PopDrains(s: State, ret: Value)
    requires |s.frames| > 1 && Arrive(Leave(s), ret).Top().inDefer
    ensures var d := Drain(Arrive(Leave(s), ret));
            && (d.Entered? ==> PopFrames(s, ret) == Outcome(d.s, ret, true))
            && (d.Broke? ==> PopFrames(s, ret) == Outcome(d.s, ret, false))
            && (d.Done? ==> PopFrames(s, ret) == PopFrames(d.s, d.ret))
  {
    hide Drain, Arrive;
  }

  lemma NothingPending()
    ensures PendingLog([]) == []
  {
  }

  lemma OneFrame(fs: seq<Frame>)
    requires fs != []
    ensures StackLog(fs) == PendingLog(fs[|fs| - 1].defers) + StackLog(fs[..|fs| - 1])
    ensures StackSize(fs) == DefersSize(fs[|fs| - 1].defers) + StackSize(fs[..|fs| - 1])
    ensures |fs| == 1 ==> StackLog(fs[..|fs| - 1]) == []
  {
    hide PendingLog, DefersSize;
  }

  /** A deferred function has been entered: what was pending in the frames is still to come. */
  lemma EnteredReady(s: State, s2: State)
    requires s.frames != [] && FrameFine(s.Top(), s.ip, Room(s)) && StackFine(s.frames[..|s.frames| - 1], s.maxFrames)
    requires NextEntered(s, s2) && s2.err.None? && s2.maxFrames == s.maxFrames
    ensures Ready(s2) && s2.log + ToCome(s2) == s.log + StackLog(s.frames) && WorkLeft(s2) < StackSize(s.frames)
  {
    hide PendingLog, FromLog, DefersSize, CodeSize, FineCode, FineDefers, StackFine, StackLog, StackSize;
    var fs, n := s.frames[..|s.frames| - 1], |s2.frames| - 1;
    OneFrame(s.frames);
    OneFrame(s2.frames);
    OneFrame(s2.frames[..n]);
    FineFrames(s2.frames[..n], s.maxFrames);
    NoDefers(Room(s2));
    assert s2.frames[..n][..n - 1] == fs && s2.frames[..n][n - 1] == s2.frames[n - 1];
    LogsAddUp(s2.log, FromLog(s2.Top().fn.code, 0, []), PendingLog(s2.frames[n - 1].defers), s.log,
              PendingLog(s.Top().defers), StackLog(fs));
  }

  lemma PopEnters(s: State, ret: Value)
    requires s.unwinding && s.err.None? && |s.frames| > 1 && StackFine(s.frames[..|s.frames| - 1], s.maxFrames)
    requires var s1 := Arrive(Leave(s), ret);
             s1.Top().inDefer && Drain(s1).Entered? && NextEntered(s1, RunNextDefer(s1).0)
    ensures Unwound(s, PopFrames(s, ret))
  {
    hide Drain, Arrive, Ready, ToCome, WorkLeft, PopFrames, PendingLog, DefersSize, FineCode, FineDefers, RunNextDefer,
        NextEntered;
    var fs, s1 := s.frames[..|s.frames| - 1], Arrive(Leave(s), ret);
    PopDrains(s, ret);
    ArriveIs(s, ret);
    DrainIs(s1);
    NextDeferIs(s1);
    EnteredReady(s1, RunNextDefer(s1).0);
    OneFrame(fs);
    OneFrame(s1.frames);
  }

  lemma LogsAddUp(a: seq<Event>, b: seq<Event>, c: seq<Event>, d: seq<Event>, e: seq<Event>, f: seq<Event>)
    requires a + b + c == d + e
    ensures a + (b + (c + f)) == d + (e + f)
  {
    assert a + (b + (c + f)) == (a + b + c) + f;
    assert d + (e + f) == (d + e) + f;
  }

  lemma FineFrames(fs: seq<Frame>, maxFrames: nat)
    requires fs != []
    ensures StackFine(fs, maxFrames)
            <==> FrameFine(fs[|fs| - 1], fs[|fs| - 1].ip, maxFrames - |fs|) && StackFine(fs[..|fs| - 1], maxFrames)
  {
    hide FrameFine;
  }

  lemma DrainIs(s: State)
    requires s.frames != []
    ensures Drain(s).Entered? ==> RunNextDefer(s).1 && Drain(s).s == RunNextDefer(s).0
  {
    hide RunNextDefer;
  }

  lemma DrainedIs(s: State)
    requires s.unwinding && s.err.None? && s.frames != [] && s.Top().inDefer && FineDefers(s.Top().defers, Room(s))
    requires StackFine(s.frames[..|s.frames| - 1], s.maxFrames)
    ensures !Drain(s).Broke?
    ensures Drain(s).Done? ==>
              var s2 := Drain(s).s;
              && s2.unwinding && s2.err.None? && |s2.frames| == |s.frames| && s2.maxFrames == s.maxFrames
              && s2.frames[..|s.frames| - 1] == s.frames[..|s.frames| - 1]
              && s2.log == s.log + PendingLog(s.Top().defers)
  {
    hide PendingLog, FineDefers, StackFine, NextEntered;
    NextDeferIs(s);
  }

  lemma DrainFrame(s: State, ret: Value)
    requires s.unwinding && s.err.None? && |s.frames| > 1 && StackFine(s.frames[..|s.frames| - 1], s.maxFrames)
    requires var s1 := Arrive(Leave(s), ret);
             && s1.Top().inDefer && Drain(s1).Done?
             && StackFine(s1.frames[..|s1.frames| - 1], s.maxFrames)
             && Unwound(Drain(s1).s, PopFrames(Drain(s1).s, Drain(s1).ret))
    ensures Unwound(s, PopFrames(s, ret))
  {
    hide Drain, Arrive, Ready, ToCome, WorkLeft, PopFrames, PendingLog, DefersSize, FineCode, FineDefers;
    var fs, s1 := s.frames[..|s.frames| - 1], Arrive(Leave(s), ret);
    PopDrains(s, ret);
    ArriveIs(s, ret);
    DrainedIs(s1);
    OneFrame(fs);
    LogMoves(s.log, PendingLog(s1.Top().defers), StackLog(fs[..|fs| - 1]));
  }

  /** The current frame returns while the machine unwinds: its deferred calls come first. */
  lemma ReturnUnwinds(s: State, ret: Value)
    requires Ready(s) && s.unwinding
    ensures var o := HandleReturn(s, ret);
            && o.s.unwinding && o.s.err.None?
            && (o.more ==>
                 Ready(o.s) && o.s.log + ToCome(o.s) == s.log + StackLog(s.frames)
                 && WorkLeft(o.s) < StackSize(s.frames))
            && (!o.more ==> o.s.log == s.log + StackLog(s.frames))
  {
    hide Drain, Ready, ToCome, WorkLeft, PopFrames, PendingLog, FromLog, DefersSize, CodeSize, FineCode, FineDefers,
        StackFine, StackLog,
         StackSize, RunNextDefer, NextEntered;
    ReadyParts(s);
    OneFrame(s.frames);
    if s.Top().defers == [] {
      NothingPending();
      NoDefers(0);
      PopUnwinds(s, ret);
    } else {
      var b := BeginDefers(s, ret);
      BeginKeeps(s, ret);
      OneFrame(b.frames);
      NextDeferIs(b);
      DrainIs(b);
      DrainedIs(b);
      var d := Drain(b);
      if d.Entered? {
        EnteredReady(b, d.s);
      } else {
        PopUnwinds(d.s, d.ret);
        LogMoves(s.log, PendingLog(s.Top().defers), StackLog(s.frames[..|s.frames| - 1]));
      }
    }
  }

  lemma ReadyParts(s: State)
    requires Ready(s)
    ensures s.frames != [] && s.err.None? && !s.Top().inDefer && s.Top().fn.Compiled?
    ensures FrameFine(s.Top(), s.ip, Room(s)) && StackFine(s.frames[..|s.frames| - 1], s.maxFrames)
    ensures FineCode(s.Top().fn.code, s.ip, Room(s)) && FineDefers(s.Top().defers, Room(s))
  {
    hide FineCode, FineDefers, StackFine;
  }

  lemma BeginKeeps(s: State, ret: Value)
    requires s.frames != []
    ensures var b := BeginDefers(s, ret);
            && |b.frames| == |s.frames| && b.frames[..|s.frames| - 1] == s.frames[..|s.frames| - 1]
            && b.Top().defers == s.Top().defers && b.Top().fn == s.Top().fn && b.ip == s.ip
            && b.log == s.log && b.err == s.err && Room(b) == Room(s)
  {
  }

  // ----- one step, then all of them -----

  predicate Progress(s: State, c: Status)
    requires s.frames != [] && s.Top().fn.Compiled?
  {
    c.s.unwinding
    && match c
       case Running(s') => Ready(s') && s'.log + ToCome(s') == s.log + ToCome(s) && WorkLeft(s') < WorkLeft(s)
       case Halted(s') => s'.err.None? && s'.log == s.log + ToCome(s)
  }

  lemma UnwindStep(s: State)
    requires Ready(s) && s.unwinding
    ensures Progress(s, Step(s))
  {
    hide Ready, Progress, Step, FineCode, FineDefers, StackFine;
    ReadyParts(s);
    if s.ip >= |s.Top().fn.code| {
      UnwindReturn(s);
    } else {
      var a := s.Top().fn.code[s.ip];
      if a.Call? && a.callee.Compiled? { UnwindCall(s); }
      else if a.Defer? { UnwindDefer(s); }
      else { UnwindSimple(s); }
    }
  }

  lemma UnwindReturn(s: State)
    requires Ready(s) && s.unwinding && s.ip >= |s.Top().fn.code|
    ensures Progress(s, Step(s))
  {
    hide Ready, HandleReturn, PendingLog, DefersSize, StackLog, StackSize;
    ReadyParts(s);
    ReturnUnwinds(s, Answer(s.Top().fn.result));
    OneFrame(s.frames);
  }

  lemma UnwindSimple(s: State)
    requires Ready(s) && s.unwinding && s.ip < |s.Top().fn.code|
    requires var a := s.Top().fn.code[s.ip]; !a.Defer? && !(a.Call? && a.callee.Compiled?)
    ensures Progress(s, Step(s))
  {
    hide HandleReturn, PendingLog, DefersSize, StackLog, StackSize, StackFine, FineDefers, Fine;
    var code, a, s' := s.Top().fn.code, s.Top().fn.code[s.ip], Step(s).s;
    if a.Call? {
      assert Fine(a.callee, a.args, Room(s)) && a.callee.value.Some? by { BuiltinFine(a.callee, a.args, Room(s)); }
    }
    var e: seq<Event> := match a case Work(w) => [Did(w)] case Call(f, args) => [Started(f.id, args)] case _ => [];
    assert s'.log == s.log + e by { assert s.log + [] == s.log; }
    assert FromLog(code, s.ip, s.Top().defers) == e + FromLog(code, s.ip + 1, s.Top().defers);
    assert s'.frames == s.frames;
    LogMoves(e, FromLog(code, s.ip + 1, s.Top().defers), StackLog(s.frames[..|s.frames| - 1]));
    LogMoves(s.log, e, ToCome(s'));
  }

  lemma BuiltinFine(f: Fn, args: seq<Value>, room: int)
    requires Fine(f, args, room) && f.Builtin?
    ensures f.value.Some?
  {
  }

  lemma UnwindDefer(s: State)
    requires Ready(s) && s.unwinding && s.ip < |s.Top().fn.code| && s.Top().fn.code[s.ip].Defer?
    ensures Progress(s, Step(s))
  {
    hide HandleReturn, PendingLog, StackLog, StackSize, StackFine, FineDefers, Fine, DefersSize;
    var code, ds, s' := s.Top().fn.code, s.Top().defers, Step(s).s;
    var d := Deferred(code[s.ip].callee, code[s.ip].args);
    OneFrame(s.frames);
    OneFrame(s'.frames);
    SizeOfMore(ds, d);
    OneDefer(d, Room(s));
    DefersAppend(ds, [d], Room(s));
    assert s'.frames[..|s'.frames| - 1] == s.frames[..|s.frames| - 1];
    assert FromLog(code, s.ip, ds) == FromLog(code, s.ip + 1, ds + [d]);
  }

  lemma UnwindCall(s: State)
    requires Ready(s) && s.unwinding && s.ip < |s.Top().fn.code|
    requires var a := s.Top().fn.code[s.ip]; a.Call? && a.callee.Compiled?
    ensures Progress(s, Step(s))
  {
    hide HandleReturn, PendingLog, StackLog, StackSize, StackFine, FineDefers, DefersSize, FromLog, CodeSize, Called,
        FineCode;
    var a, ds, n := s.Top().fn.code[s.ip], s.Top().defers, |s.frames|;
    var e := Called(s, a.callee, a.args);
    CallIsFine(s);
    CalledIs(s, a.callee, a.args);
    var mid, below := e.frames[..n], s.frames[..n - 1];
    assert mid[..n - 1] == below && mid[n - 1] == s.Top().(ip := s.ip + 1);
    OneFrame(s.frames);
    OneFrame(e.frames);
    OneFrame(mid);
    FineFrames(mid, s.maxFrames);
    NoDefers(Room(e));
    CallToCome(s);
    FourLogs(s.log, [Started(a.callee.id, a.args)], FromLog(a.callee.code, 0, []), PendingLog(ds), StackLog(below));
  }

  lemma CallIsFine(s: State)
    requires s.frames != [] && s.Top().fn.Compiled? && s.ip < |s.Top().fn.code|
             && FineCode(s.Top().fn.code, s.ip, Room(s))
    requires var a := s.Top().fn.code[s.ip]; a.Call? && a.callee.Compiled?
    ensures var a := s.Top().fn.code[s.ip];
            var e := Called(s, a.callee, a.args);
            && Step(s) == Running(e)
            && |e.frames| == |s.frames| + 1 && e.Top().fn == a.callee && e.Top().defers == [] && !e.Top().inDefer
              && e.ip == 0
            && e.err == s.err && e.unwinding == s.unwinding && e.maxFrames == s.maxFrames
            && Room(s) > 0 && FineCode(a.callee.code, 0, Room(s) - 1) && FineCode(s.Top().fn.code, s.ip + 1, Room(s))
  {
    hide HandleReturn;
    assert Fine(s.Top().fn.code[s.ip].callee, s.Top().fn.code[s.ip].args, Room(s));
  }

  /** The rest of the caller's body does not happen. */
  lemma CallToCome(s: State)
    requires s.frames != [] && s.Top().fn.Compiled? && s.ip < |s.Top().fn.code|
    requires var a := s.Top().fn.code[s.ip]; a.Call? && a.callee.Compiled?
    ensures var a, ds := s.Top().fn.code[s.ip], s.Top().defers;
            && FromLog(s.Top().fn.code, s.ip, ds)
               == [Started(a.callee.id, a.args)] + FromLog(a.callee.code, 0, []) + PendingLog(ds)
            && CodeSize(a.callee.code, 0) < CodeSize(s.Top().fn.code, s.ip)
  {
    hide PendingLog;
  }

  lemma FourLogs(a: seq<Event>, b: seq<Event>, c: seq<Event>, d: seq<Event>, e: seq<Event>)
    ensures a + b + (c + (d + e)) == a + (b + c + d + e)
  {
  }

  lemma {:induction false} UnwindRuns(s: State) returns (s': State)
    requires Ready(s) && s.unwinding
    ensures Leads(Running(s), Halted(s')) && s'.err.None? && s'.log == s.log + ToCome(s)
    decreases WorkLeft(s)
  {
    hide Leads, Ready, Step, ToCome, WorkLeft;
    ReadyParts(s);
    UnwindStep(s);
    LeadsOne(s);
    match Step(s)
    case Halted(s1) => s' := s1;
    case Running(s1) =>
      s' := UnwindRuns(s1);
      LeadsOn(Running(s), Running(s1), Halted(s'));
  }

  /** The abort of a machine between two steps: it stops, without a fault, and what happens until
      then are the pending deferred calls of all frames, each one once. */
  lemma AbortUnwinds(s: State) returns (s': State)
    requires Ready(s)
    ensures Leads(AbortNow(s), Halted(s')) && s'.err.None? && s'.log == s.log + StackLog(s.frames)
  {
    hide Leads, Ready, HandleReturn, ToCome, WorkLeft;
    ReadyParts(s);
    var s1 := s.(unwinding := true);
    ReadyAnyway(s);
    ReturnUnwinds(s1, Undefined);
    var o := HandleReturn(s1, Undefined);
    if o.more {
      s' := UnwindRuns(o.s);
    } else {
      s' := o.s;
      LeadsNowhere(Halted(o.s));
    }
  }

  lemma ReadyAnyway(s: State)
    requires Ready(s)
    ensures Ready(s.(unwinding := true))
  {
    hide FineCode, FineDefers, StackFine;
  }

  // ----- every state of a run is ready -----

  predicate NormalReady(s: State) { Ready(s) && !s.unwinding && !s.frames[0].inDefer }

  predicate ReadyAgain(s: State) { s.err.None? && NormalReady(s) }

  lemma {:induction false} PopKeepsReady(s: State, ret: Value)
    requires !s.unwinding && s.err.None? && |s.frames| > 1 && !s.frames[0].inDefer
    requires StackFine(s.frames[..|s.frames| - 1], s.maxFrames)
    ensures ReadyAgain(PopFrames(s, ret).s)
    decreases |s.frames|
  {
    hide Drain, PendingLog, FineDefers, FineCode, DefersSize, FromLog, CodeSize, StackLog, StackSize, ToCome, WorkLeft;
    var s1 := Leave(s);
    assert Arrive(s1, ret) == s1;
    assert FrameFine(s1.Top(), s1.ip, Room(s1)) && s1.frames[0] == s.frames[0];
    if s1.Top().inDefer {
      NextDeferIs(s1);
      DrainIs(s1);
      var d := Drain(s1);
      if d.Entered? {
        EnteredReady(s1, d.s);
        assert d.s.frames[0] == s1.frames[..|s1.frames| - 1][0];
      } else {
        DrainedNormal(s1);
        PopKeepsReady(d.s, d.ret);
      }
    }
  }

  lemma DrainedNormal(s: State)
    requires !s.unwinding && s.err.None? && s.frames != [] && FineDefers(s.Top().defers, Room(s))
    ensures var d := Drain(s);
            && !d.Broke?
            && (d.Done? ==>
                 !d.s.unwinding && d.s.err.None? && |d.s.frames| == |s.frames| && d.s.maxFrames == s.maxFrames
                 && d.s.frames[..|s.frames| - 1] == s.frames[..|s.frames| - 1])
  {
    hide PendingLog, FineDefers, NextEntered;
    NextDeferIs(s);
  }

  lemma ReturnKeepsReady(s: State, ret: Value)
    requires NormalReady(s) && |s.frames| > 1
    ensures ReadyAgain(HandleReturn(s, ret).s)
  {
    hide Drain, Ready, PopFrames, PendingLog, FineDefers, FineCode, DefersSize, FromLog, CodeSize, StackLog, StackSize,
        ToCome, WorkLeft,
         StackFine, RunNextDefer;
    ReadyParts(s);
    if s.Top().defers == [] {
      PopKeepsReady(s, ret);
    } else {
      var b := BeginDefers(s, ret);
      BeginKeeps(s, ret);
      assert b.frames[0] == b.frames[..|b.frames| - 1][0] == s.frames[0];
      NextDeferIs(b);
      DrainIs(b);
      DrainedNormal(b);
      var d := Drain(b);
      if d.Entered? {
        EnteredReady(b, d.s);
        assert d.s.frames[0] == d.s.frames[..|b.frames| - 1][0];
      } else {
        assert d.s.frames[0] == d.s.frames[..|b.frames| - 1][0];
        PopKeepsReady(d.s, d.ret);
      }
    }
  }

  lemma StepKeepsReady(s: State)
    requires NormalReady(s) && Step(s).Running?
    ensures NormalReady(Step(s).s)
  {
    hide Ready, Step, FineCode, FineDefers, StackFine;
    ReadyParts(s);
    if s.ip >= |s.Top().fn.code| {
      if |s.frames| > 1 { ReturnKeepsReady(s, Answer(s.Top().fn.result)); }
      ReturnedReady(s);
    } else {
      var a := s.Top().fn.code[s.ip];
      if a.Call? && a.callee.Compiled? { CallKeepsReady(s); }
      else { ActKeepsReady(s); }
    }
  }

  lemma ReturnedReady(s: State)
    requires NormalReady(s) && Step(s).Running? && s.ip >= |s.Top().fn.code|
    requires |s.frames| > 1 ==> ReadyAgain(HandleReturn(s, Answer(s.Top().fn.result)).s)
    ensures NormalReady(Step(s).s)
  {
    hide HandleReturn, FineCode, FineDefers, StackFine;
  }

  lemma ActKeepsReady(s: State)
    requires NormalReady(s) && s.ip < |s.Top().fn.code|
    requires var a := s.Top().fn.code[s.ip]; !(a.Call? && a.callee.Compiled?)
    requires Step(s).Running?
    ensures NormalReady(Step(s).s)
  {
    hide HandleReturn, StackFine, FineDefers, Fine;
    var a := s.Top().fn.code[s.ip];
    if a.Defer? {
      OneDefer(Deferred(a.callee, a.args), Room(s));
      DefersAppend(s.Top().defers, [Deferred(a.callee, a.args)], Room(s));
    }
  }

  lemma CallKeepsReady(s: State)
    requires NormalReady(s) && s.ip < |s.Top().fn.code|
    requires var a := s.Top().fn.code[s.ip]; a.Call? && a.callee.Compiled?
    ensures Step(s).Running? && NormalReady(Step(s).s)
  {
    hide HandleReturn, StackFine, FineDefers, Called, FineCode, Step;
    var a, n := s.Top().fn.code[s.ip], |s.frames|;
    ReadyParts(s);
    CallIsFine(s);
    CalledIs(s, a.callee, a.args);
    var e := Called(s, a.callee, a.args);
    var mid := e.frames[..n];
    assert mid[..n - 1] == s.frames[..n - 1] && mid[n - 1] == s.Top().(ip := s.ip + 1);
    FineFrames(mid, s.maxFrames);
    NoDefers(Room(e));
    assert e.frames[0] == mid[0];
  }

  lemma {:induction false} RunKeepsReady(s: State, n: nat)
    requires NormalReady(s) && StepN(Running(s), n).Running?
    ensures NormalReady(StepN(Running(s), n).s)
    decreases n
  {
    hide NormalReady, Step;
    if n > 0 {
      if Step(s).Running? {
        StepKeepsReady(s);
        RunKeepsReady(Step(s).s, n - 1);
      }
    }
  }

  /** Whenever a program in which no call fails is aborted, after any number of steps, what happens
      from then on is exactly the pending deferred calls of the frames it has at that moment:
      innermost frame first, last registered first, each once. Then the machine has stopped. */
  lemma AbortAnywhere(entry: Fn, maxFrames: nat, n: nat) returns (s': State)
    requires entry.Compiled? && maxFrames > 0 && FineCode(entry.code, 0, maxFrames - 1)
    requires StepN(Running(Begin(entry, maxFrames)), n).Running?
    ensures var s := StepN(Running(Begin(entry, maxFrames)), n).s;
            && s.frames != []
            && Leads(AbortNow(s), Halted(s')) && s'.err.None? && s'.log == s.log + StackLog(s.frames)
  {
    hide StepN, Ready, Leads, AbortNow, FineCode;
    BeginReady(entry, maxFrames);
    RunKeepsReady(Begin(entry, maxFrames), n);
    var s := StepN(Running(Begin(entry, maxFrames)), n).s;
    ReadyParts(s);
    s' := AbortUnwinds(s);
  }

  lemma BeginReady(entry: Fn, maxFrames: nat)
    requires entry.Compiled? && maxFrames > 0 && FineCode(entry.code, 0, maxFrames - 1)
    ensures NormalReady(Begin(entry, maxFrames))
  {
    hide FineCode;
  }

  // ----- what the rest of a deferred function is worth during an abort -----

  /** Behind position i the code leaves nothing to be seen: it only pushes operands. */
  predicate Silent(code: seq<Act>, i: nat) { forall j :: i <= j < |code| ==> code[j].Push? }

  /** A deferred function loses nothing to an abort: nothing is to be seen behind a call of a compiled
      function, and the same holds of what it calls and defers. */
  predicate NothingLost(f: Fn)
    decreases f, 0
  {
    f.Builtin? || NothingLostFrom(f.code, 0)
  }

  predicate NothingLostFrom(code: seq<Act>, i: nat)
    decreases code, |code| - i
  {
    if i >= |code| then true
    else
      match code[i]
      case Call(f, _) => if f.Builtin? then NothingLostFrom(code, i + 1) else NothingLost(f) && Silent(code, i + 1)
      case Defer(f, _) => NothingLost(f) && NothingLostFrom(code, i + 1)
      case _ => NothingLostFrom(code, i + 1)
  }

  predicate NoneLost(ds: seq<Deferred>) { forall d <- ds :: NothingLost(d.fn) }

  /** What the code from i on would do if it came to its end, and then the deferred calls. */
  function WholeLog(code: seq<Act>, i: nat, ds: seq<Deferred>): seq<Event> {
    BodyLog(code, i) + DefersLog(ds + Pending(code, i))
  }

  /** The same log, or a shorter one. */
  predicate Kept(kept: bool, a: seq<Event>, b: seq<Event>) { if kept then a == b else |a| < |b| }

  lemma {:induction false} FunctionKept(f: Fn, args: seq<Value>)
    ensures Kept(NothingLost(f), UnwindLog(f, args), CallLog(f, args))
    decreases Size(f), 0
  {
    hide FromLog, BodyLog, LifoLog, Pending, DefersLog, NothingLostFrom;
    if f.Compiled? {
      BodyKept(f.code, 0, []);
      LifoIs(f.code, 0);
      assert [] + Pending(f.code, 0) == Pending(f.code, 0);
    }
  }

  lemma {:induction false} DefersKept(ds: seq<Deferred>)
    ensures Kept(NoneLost(ds), PendingLog(ds), DefersLog(ds))
    decreases DefersSize(ds), 1
  {
    hide UnwindLog, CallLog, NothingLost;
    if ds != [] {
      FunctionKept(ds[|ds| - 1].fn, ds[|ds| - 1].args);
      DefersKept(ds[..|ds| - 1]);
      assert ds == ds[..|ds| - 1] + [ds[|ds| - 1]];
    }
  }

  lemma {:induction false} BodyKept(code: seq<Act>, i: nat, ds: seq<Deferred>)
    ensures Kept(NothingLostFrom(code, i) && NoneLost(ds), FromLog(code, i, ds), WholeLog(code, i, ds))
    decreases CodeSize(code, i) + DefersSize(ds), 2
  {
    hide PendingLog, DefersLog, NothingLost, DefersSize, NoneLost, UnwindLog, CallLog, Silent;
    if i >= |code| {
      DefersKept(ds);
      assert ds + [] == ds && [] + DefersLog(ds) == DefersLog(ds);
    } else if code[i].Call? && code[i].callee.Compiled? {
      CutBodyKept(code, i, ds);
    } else {
      var more := ds + ActDefers(code[i]);
      if code[i].Defer? { SizeOfMore(ds, Deferred(code[i].callee, code[i].args)); } else { assert more == ds; }
      BodyKept(code, i + 1, more);
      NoneLostMore(ds, code[i]);
      WholeStep(code, i, ds);
      assert code[i].Call? ==> CallLog(code[i].callee, code[i].args) == [Started(code[i].callee.id, code[i].args)] by {
        if code[i].Call? { BuiltinCall(code[i].callee, code[i].args); }
      }
    }
  }

  lemma BuiltinCall(f: Fn, args: seq<Value>)
    requires f.Builtin?
    ensures CallLog(f, args) == [Started(f.id, args)]
  {
  }

  lemma NoneLostMore(ds: seq<Deferred>, a: Act)
    ensures NoneLost(ds + ActDefers(a)) <==> NoneLost(ds) && (a.Defer? ==> NothingLost(a.callee))
  {
    hide NothingLost;
    if a.Defer? {
      var d := Deferred(a.callee, a.args);
      assert forall x :: x in ds + [d] <==> x in ds || x == d;
    } else {
      assert ds + [] == ds;
    }
  }

  lemma WholeStep(code: seq<Act>, i: nat, ds: seq<Deferred>)
    requires i < |code|
    ensures WholeLog(code, i, ds) == ActLog(code[i]) + WholeLog(code, i + 1, ds + ActDefers(code[i]))
  {
    hide DefersLog, ActLog;
    assert ds + (ActDefers(code[i]) + Pending(code, i + 1)) == (ds + ActDefers(code[i])) + Pending(code, i + 1);
    LogMoves(ActLog(code[i]), BodyLog(code, i + 1), DefersLog((ds + ActDefers(code[i])) + Pending(code, i + 1)));
  }

  /** The call of a compiled function is the last thing that happens in the body. */
  lemma {:induction false} CutBodyKept(code: seq<Act>, i: nat, ds: seq<Deferred>)
    requires i < |code| && code[i].Call? && code[i].callee.Compiled?
    ensures Kept(NothingLostFrom(code, i) && NoneLost(ds), FromLog(code, i, ds), WholeLog(code, i, ds))
    decreases CodeSize(code, i) + DefersSize(ds), 1
  {
    hide PendingLog, DefersLog, NothingLost, DefersSize, NoneLost, UnwindLog, CallLog, Pending, BodyLog, WholeLog;
    var f, args := code[i].callee, code[i].args;
    FunctionKept(f, args);
    DefersKept(ds);
    WholeStep(code, i, ds);
    assert ds + ActDefers(code[i]) == ds;
    var tail, rest := BodyLog(code, i + 1), DefersLog(Pending(code, i + 1));
    assert WholeLog(code, i + 1, ds) == tail + (rest + DefersLog(ds)) by {
      DefersAppend(ds, Pending(code, i + 1), 0);
      WholeIs(code, i + 1, ds);
    }
    SilentTail(code, i + 1);
    assert [] + ([] + DefersLog(ds)) == DefersLog(ds);
    assert ActLog(code[i]) == CallLog(f, args);
  }

  lemma WholeIs(code: seq<Act>, i: nat, ds: seq<Deferred>)
    ensures WholeLog(code, i, ds) == BodyLog(code, i) + DefersLog(ds + Pending(code, i))
  {
    hide BodyLog, DefersLog, Pending;
  }

  /** Every action but a push shows in the log, if not in the body then among the deferred calls. */
  lemma {:induction false} SilentTail(code: seq<Act>, i: nat)
    ensures if Silent(code, i) then BodyLog(code, i) == [] && DefersLog(Pending(code, i)) == []
            else |BodyLog(code, i)| + |DefersLog(Pending(code, i))| > 0
    decreases |code| - i
  {
    hide CallLog, DefersLog;
    if i >= |code| {
      NoDefers(0);
    } else {
      SilentTail(code, i + 1);
      assert Silent(code, i) <==> code[i].Push? && Silent(code, i + 1);
      if code[i].Defer? {
        var d := Deferred(code[i].callee, code[i].args);
        DefersAppend([d], Pending(code, i + 1), 0);
        OneDefer(d, 0);
      } else {
        assert [] + Pending(code, i + 1) == Pending(code, i + 1);
      }
      if code[i].Call? || code[i].Defer? { CallShows(code[i].callee, code[i].args); }
    }
  }

  lemma CallShows(f: Fn, args: seq<Value>)
    ensures CallLog(f, args) != []
  {
    hide BodyLog, LifoLog;
  }

  /** An abort runs a deferred function as a return would exactly if nothing in it is lost. */
  lemma SameAsReturn(f: Fn, args: seq<Value>)
    ensures UnwindLog(f, args) == CallLog(f, args) <==> NothingLost(f)
  {
    hide UnwindLog, CallLog, NothingLost;
    FunctionKept(f, args);
  }

  /** And so for all deferred calls of a frame. */
  lemma PendingSameAsReturn(ds: seq<Deferred>)
    ensures PendingLog(ds) == DefersLog(ds) <==> forall d <- ds :: NothingLost(d.fn)
  {
    hide PendingLog, DefersLog, NothingLost;
    DefersKept(ds);
  }

  // ----- a deferred function that loses its work -----

  /** It calls a function that does nothing, and then does work. */
  function Interrupted(): Fn {
    Compiled(1, 0, 0, [Call(Compiled(2, 0, 0, [], None), []), Work(7)], None)
  }

  function Aborted(): Fn { Compiled(0, 0, 0, [Defer(Interrupted(), []), Work(3)], None) }

  /** A return would have done the work. */
  lemma WorkIsLost() returns (s': State)
    ensures var s := StepN(Running(Begin(Aborted(), 9)), 2);
            && s.Running? && s.s.log == [Did(3)]
            && Leads(AbortNow(s.s), Halted(s')) && s'.log == [Did(3), Started(1, []), Started(2, [])]
            && s.s.log + DefersLog(s.s.Top().defers) == [Did(3), Started(1, []), Started(2, []), Did(7)]
  {
    hide AbortNow;
    TwoSteps();
    FineAborted();
    s' := AbortAnywhere(Aborted(), 9, 2);
    var s := StepN(Running(Begin(Aborted(), 9)), 2).s;
    InterruptedLogs();
    assert s.frames[..0] == [] && StackLog(s.frames) == PendingLog([Deferred(Interrupted(), [])]) + StackLog([]);
  }

  lemma FineAborted()
    ensures FineCode(Aborted().code, 0, 8)
  {
    var f, inner := Interrupted(), Compiled(2, 0, 0, [], None);
    assert FineCode(inner.code, 0, 6);
    assert Fine(inner, [], 7);
    assert FineCode(f.code, 2, 7) && FineCode(f.code, 1, 7) && FineCode(f.code, 0, 7);
    assert Fine(f, [], 8);
    assert FineCode(Aborted().code, 2, 8) && FineCode(Aborted().code, 1, 8);
  }

  lemma TwoSteps()
    ensures var s := StepN(Running(Begin(Aborted(), 9)), 2);
            && s.Running? && s.s.log == [Did(3)] && |s.s.frames| == 1
              && s.s.Top().defers == [Deferred(Interrupted(), [])]
  {
    hide HandleReturn, Interrupted;
    var s0 := Begin(Aborted(), 9);
    var d := Deferred(Interrupted(), []);
    assert Step(s0) == Running(s0.SetTop(s0.Top().(defers := [] + [d])).(ip := 1));
    var s1 := Step(s0).s;
    assert s0.frames[..0] == [] && [] + [d] == [d];
    assert s1.frames == [s0.Top().(defers := [Deferred(Interrupted(), [])])] && s1.ip == 1;
    var s2 := Step(s1).s;
    assert s2 == s1.(ip := 2).Note(Did(3));
    assert StepN(Running(s2), 0) == Running(s2);
    assert StepN(Running(s1), 1) == Running(s2);
  }

  lemma InterruptedLogs()
    ensures var ds := [Deferred(Interrupted(), [])];
            && PendingLog(ds) == [Started(1, []), Started(2, [])]
            && DefersLog(ds) == [Started(1, []), Started(2, []), Did(7)]
  {
    var f, inner := Interrupted(), Compiled(2, 0, 0, [], None);
    var ds := [Deferred(f, [])];
    assert ds[..0] == [];
    assert UnwindLog(inner, []) == [Started(2, [])] by { assert FromLog([], 0, []) == []; }
    assert FromLog(f.code, 0, []) == UnwindLog(inner, []) + PendingLog([]);
    assert CallLog(inner, []) == [Started(2, [])];
    assert BodyLog(f.code, 2) == [] && BodyLog(f.code, 1) == [Did(7)];
    assert LifoLog(f.code, 2) == [] && LifoLog(f.code, 1) == [] && LifoLog(f.code, 0) == [];
    assert CallLog(f, []) == [Started(1, [])] + (([Started(2, [])] + [Did(7)]) + []);
  }

  lemma {:induction false} LifoIs(code: seq<Act>, i: nat)
    ensures DefersLog(Pending(code, i)) == LifoLog(code, i)
    decreases |code| - i
  {
    hide CallLog, Fine, Size;
    if i < |code| {
      LifoIs(code, i + 1);
      if code[i].Defer? {
        var d := Deferred(code[i].callee, code[i].args);
        OneDefer(d, 0);
        DefersAppend([d], Pending(code, i + 1), 0);
      } else {
        assert [] + Pending(code, i + 1) == Pending(code, i + 1);
      }
    }
  }
}
